/** The entity registry (RBAC_CLI.py, class `RBACSystem`): four name-keyed
    tables and the seven mutators that add to them. Every mutator is a pure
    transition from one registry to the next, paired with a `Status` that
    stands for the message the source prints. */
module Rbac {
  import opened Wrappers
  import opened AccessTypes

  /** The registry. A resource is its allowed-access set; a role is its
      mapping from resource name to granted access types; a user is its set
      of role names. The entities' `name` fields equal their keys and are
      not kept. */
  datatype Registry = Registry(
    accessTypes: set<AccessType>,
    resources: map<string, set<AccessType>>,
    roles: map<string, map<string, set<AccessType>>>,
    users: map<string, set<string>>)

  /** What a mutator reports. */
  datatype Status = Added | AlreadyExists | NotFound | InvalidAccessType

  /** The registry after a mutator, with its report. */
  datatype Step = Step(next: Registry, status: Status)

  /** The registry a fresh session starts with. */
  const Empty: Registry := Registry({}, map[], map[], map[])

  // ---------------------------------------------------------------------
  // Relational views: the registry read as the classic RBAC relations.
  // ---------------------------------------------------------------------

  /** Permission assignment on resources: (resource, access) pairs the
      resource allows. */
  ghost function Permits(reg: Registry): set<(string, AccessType)>
  {
    set res, a | res in reg.resources && a in reg.resources[res] :: (res, a)
  }

  /** Grants: (role, resource, access) triples some role holds. */
  ghost function Grants(reg: Registry): set<(string, string, AccessType)>
  {
    set role, res, a | role in reg.roles && res in reg.roles[role] && a in reg.roles[role][res]
      :: (role, res, a)
  }

  /** User assignment: (user, role) pairs. */
  ghost function Assignments(reg: Registry): set<(string, string)>
  {
    set u, role | u in reg.users && role in reg.users[u] :: (u, role)
  }

  // ---------------------------------------------------------------------
  // The cross-table invariant and the growth order.
  // ---------------------------------------------------------------------

  /** Every name a table refers to is a key of the table it names, and every
      access type stored anywhere is globally registered. The first conjunct
      is what makes the role lookup inside `check_access` safe. */
  ghost predicate Valid(reg: Registry)
  {
    && (forall u, role :: u in reg.users && role in reg.users[u] ==> role in reg.roles)
    && (forall res, a :: res in reg.resources && a in reg.resources[res] ==> a in reg.accessTypes)
    && (forall role, res :: role in reg.roles && res in reg.roles[role] ==> res in reg.resources)
    && (forall role, res, a :: role in reg.roles && res in reg.roles[role] && a in reg.roles[role][res]
          ==> a in reg.accessTypes)
  }

  /** `m'` keeps every key of `m` with at least its elements. */
  ghost predicate Extends<K, V>(m: map<K, set<V>>, m': map<K, set<V>>)
  {
    forall k :: k in m ==> k in m' && m[k] <= m'[k]
  }

  /** `b` is `a` with possibly more keys and larger sets: nothing removed. */
  ghost predicate Grows(a: Registry, b: Registry)
  {
    && a.accessTypes <= b.accessTypes
    && Extends(a.resources, b.resources)
    && (forall role :: role in a.roles ==> role in b.roles && Extends(a.roles[role], b.roles[role]))
    && Extends(a.users, b.users)
  }

  lemma EmptyIsValid()
    ensures Valid(Empty)
    ensures Permits(Empty) == {} && Grants(Empty) == {} && Assignments(Empty) == {}
  {
  }

  /** Growth composes: two growing steps make one. */
  lemma GrowsTransitive(a: Registry, b: Registry, c: Registry)
    requires Grows(a, b) && Grows(b, c)
    ensures Grows(a, c)
  {
  }

  // ---------------------------------------------------------------------
  // Mutators.
  // ---------------------------------------------------------------------

  /** Insert `k` with value `v` unless `k` is already a key. */
  function InsertIfAbsent<K, V>(m: map<K, V>, k: K, v: V): (r: map<K, V>)
    ensures r.Keys == m.Keys + {k}
    ensures forall j :: j in m ==> r[j] == m[j]
    ensures k !in m ==> r[k] == v
  {
    if k in m then m else m[k := v]
  }

  /** `add_access`: register an access type given by its name. */
  function AddAccess(reg: Registry, token: string): (r: Step)
    ensures r.status == Added || r.status == InvalidAccessType
    ensures r.status == Added <==> exists a :: Name(a) == token
    ensures r.status == InvalidAccessType ==> r.next == reg
    ensures forall a :: a in r.next.accessTypes <==> a in reg.accessTypes || Name(a) == token
    ensures r.next.resources == reg.resources && r.next.roles == reg.roles && r.next.users == reg.users
    ensures Valid(reg) ==> Valid(r.next)
    ensures Grows(reg, r.next)
  {
    match Parse(token)
    case None => Step(reg, InvalidAccessType)
    case Some(a) => Step(reg.(accessTypes := reg.accessTypes + {a}), Added)
  }

  /** `add_resource`: a new resource starts with no allowed access. */
  function AddResource(reg: Registry, name: string): (r: Step)
    ensures r.status == Added || r.status == AlreadyExists
    ensures r.status == Added <==> name !in reg.resources
    ensures r.status == AlreadyExists ==> r.next == reg
    ensures r.next.resources.Keys == reg.resources.Keys + {name}
    ensures r.status == Added ==> r.next.resources[name] == {}
    ensures forall res :: res in reg.resources ==> r.next.resources[res] == reg.resources[res]
    ensures Permits(r.next) == Permits(reg)
    ensures r.next.accessTypes == reg.accessTypes && r.next.roles == reg.roles && r.next.users == reg.users
    ensures Valid(reg) ==> Valid(r.next)
    ensures Grows(reg, r.next)
  {
    if name in reg.resources then Step(reg, AlreadyExists)
    else Step(reg.(resources := reg.resources[name := {}]), Added)
  }

  /** `add_access_on_resource`: allow a registered access type on an
      existing resource. */
  function AddAccessOnResource(reg: Registry, token: string, resource: string): (r: Step)
    ensures r.status == Added || r.status == NotFound || r.status == InvalidAccessType
    ensures r.status == InvalidAccessType <==> Parse(token).None?
    ensures r.status == Added <==>
      exists a :: Name(a) == token && a in reg.accessTypes && resource in reg.resources
    ensures r.status != Added ==> r.next == reg
    ensures r.status == Added ==> Permits(r.next) == Permits(reg) + {(resource, Parse(token).value)}
    ensures r.next.resources.Keys == reg.resources.Keys
    ensures forall res :: res in reg.resources && res != resource ==> r.next.resources[res] == reg.resources[res]
    ensures r.next.accessTypes == reg.accessTypes && r.next.roles == reg.roles && r.next.users == reg.users
    ensures Valid(reg) ==> Valid(r.next)
    ensures Grows(reg, r.next)
  {
    match Parse(token)
    case None => Step(reg, InvalidAccessType)
    case Some(a) =>
      if resource in reg.resources && a in reg.accessTypes then
        var next := reg.(resources := reg.resources[resource := reg.resources[resource] + {a}]);
        PermitsAfterAllow(reg, resource, a);
        Step(next, Added)
      else
        Step(reg, NotFound)
  }

  lemma PermitsAfterAllow(reg: Registry, resource: string, a: AccessType)
    requires resource in reg.resources
    ensures Permits(reg.(resources := reg.resources[resource := reg.resources[resource] + {a}]))
         == Permits(reg) + {(resource, a)}
  {
  }

  /** `add_role`: a new role starts with no grants. */
  function AddRole(reg: Registry, name: string): (r: Step)
    ensures r.status == Added || r.status == AlreadyExists
    ensures r.status == Added <==> name !in reg.roles
    ensures r.status == AlreadyExists ==> r.next == reg
    ensures r.next.roles.Keys == reg.roles.Keys + {name}
    ensures r.status == Added ==> r.next.roles[name] == map[]
    ensures forall role :: role in reg.roles ==> r.next.roles[role] == reg.roles[role]
    ensures Grants(r.next) == Grants(reg)
    ensures r.next.accessTypes == reg.accessTypes && r.next.resources == reg.resources && r.next.users == reg.users
    ensures Valid(reg) ==> Valid(r.next)
    ensures Grows(reg, r.next)
  {
    if name in reg.roles then Step(reg, AlreadyExists)
    else Step(reg.(roles := reg.roles[name := map[]]), Added)
  }

  /** `add_access_on_resource_to_role`: grant a registered access type on an
      existing resource to an existing role, creating the role's entry for
      the resource when it has none. The resource's own allowed-access set is
      not consulted here. */
  function AddAccessOnResourceToRole(reg: Registry, token: string, resource: string, role: string): (r: Step)
    ensures r.status == Added || r.status == NotFound || r.status == InvalidAccessType
    ensures r.status == InvalidAccessType <==> Parse(token).None?
    ensures r.status == Added <==>
      exists a :: Name(a) == token && a in reg.accessTypes && resource in reg.resources && role in reg.roles
    ensures r.status != Added ==> r.next == reg
    ensures r.status == Added ==> Grants(r.next) == Grants(reg) + {(role, resource, Parse(token).value)}
    ensures r.next.roles.Keys == reg.roles.Keys
    ensures forall other :: other in reg.roles && other != role ==> r.next.roles[other] == reg.roles[other]
    ensures r.status == Added ==> r.next.roles[role].Keys == reg.roles[role].Keys + {resource}
    ensures r.status == Added ==>
      forall res :: res in reg.roles[role] && res != resource ==> r.next.roles[role][res] == reg.roles[role][res]
    ensures r.next.accessTypes == reg.accessTypes && r.next.resources == reg.resources && r.next.users == reg.users
    ensures Valid(reg) ==> Valid(r.next)
    ensures Grows(reg, r.next)
  {
    match Parse(token)
    case None => Step(reg, InvalidAccessType)
    case Some(a) =>
      if role in reg.roles && resource in reg.resources && a in reg.accessTypes then
        GrantsAfterGrant(reg, role, resource, a);
        Step(Grant(reg, role, resource, a), Added)
      else
        Step(reg, NotFound)
  }

  /** The registry with `a` added to `roles[role][resource]`, the entry
      created empty first when missing. */
  function Grant(reg: Registry, role: string, resource: string, a: AccessType): (next: Registry)
    requires role in reg.roles
    ensures next.roles.Keys == reg.roles.Keys
    ensures forall other :: other in reg.roles && other != role ==> next.roles[other] == reg.roles[other]
    ensures next.roles[role].Keys == reg.roles[role].Keys + {resource}
    ensures forall res :: res in reg.roles[role] && res != resource ==> next.roles[role][res] == reg.roles[role][res]
    ensures forall b :: b in next.roles[role][resource] <==>
      b == a || (resource in reg.roles[role] && b in reg.roles[role][resource])
  {
    var mapping := InsertIfAbsent(reg.roles[role], resource, {});
    reg.(roles := reg.roles[role := mapping[resource := mapping[resource] + {a}]])
  }

  lemma GrantsAfterGrant(reg: Registry, role: string, resource: string, a: AccessType)
    requires role in reg.roles
    ensures Grants(Grant(reg, role, resource, a)) == Grants(reg) + {(role, resource, a)}
  {
  }

  /** `add_user`: a new user starts with no roles. */
  function AddUser(reg: Registry, name: string): (r: Step)
    ensures r.status == Added || r.status == AlreadyExists
    ensures r.status == Added <==> name !in reg.users
    ensures r.status == AlreadyExists ==> r.next == reg
    ensures r.next.users.Keys == reg.users.Keys + {name}
    ensures r.status == Added ==> r.next.users[name] == {}
    ensures forall u :: u in reg.users ==> r.next.users[u] == reg.users[u]
    ensures Assignments(r.next) == Assignments(reg)
    ensures r.next.accessTypes == reg.accessTypes && r.next.resources == reg.resources && r.next.roles == reg.roles
    ensures Valid(reg) ==> Valid(r.next)
    ensures Grows(reg, r.next)
  {
    if name in reg.users then Step(reg, AlreadyExists)
    else Step(reg.(users := reg.users[name := {}]), Added)
  }

  /** `add_role_to_user`: assign an existing role to an existing user. */
  function AddRoleToUser(reg: Registry, role: string, user: string): (r: Step)
    ensures r.status == Added || r.status == NotFound
    ensures r.status == Added <==> role in reg.roles && user in reg.users
    ensures r.status == NotFound ==> r.next == reg
    ensures r.status == Added ==> Assignments(r.next) == Assignments(reg) + {(user, role)}
    ensures r.next.users.Keys == reg.users.Keys
    ensures forall u :: u in reg.users && u != user ==> r.next.users[u] == reg.users[u]
    ensures r.next.accessTypes == reg.accessTypes && r.next.resources == reg.resources && r.next.roles == reg.roles
    ensures Valid(reg) ==> Valid(r.next)
    ensures Grows(reg, r.next)
  {
    if role in reg.roles && user in reg.users then
      var next := reg.(users := reg.users[user := reg.users[user] + {role}]);
      AssignmentsAfterAssign(reg, user, role);
      Step(next, Added)
    else
      Step(reg, NotFound)
  }

  lemma AssignmentsAfterAssign(reg: Registry, user: string, role: string)
    requires user in reg.users
    ensures Assignments(reg.(users := reg.users[user := reg.users[user] + {role}]))
         == Assignments(reg) + {(user, role)}
  {
  }
}
