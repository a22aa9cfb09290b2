/** The authorization decision (RBAC_CLI.py, `RBACSystem.check_access`):
    a read-only query over the registry. */
module Authorization {
  import opened Wrappers
  import opened AccessTypes
  import opened Rbac

  /** Role `role` holds a grant of `a` on `resource`. */
  predicate RoleGrants(reg: Registry, role: string, resource: string, a: AccessType)
  {
    role in reg.roles && resource in reg.roles[role] && a in reg.roles[role][resource]
  }

  /** `check_access`: the token names a registered access type, user and
      resource exist, the resource allows the access type, and some role of
      the user grants it on the resource. Any failure, including a token that
      does not parse, is a plain denial. */
  predicate CheckAccess(reg: Registry, user: string, resource: string, token: string)
    ensures CheckAccess(reg, user, resource, token) ==> user in reg.users && resource in reg.resources
    ensures CheckAccess(reg, user, resource, token) ==>
      exists a :: Name(a) == token && a in reg.accessTypes && (resource, a) in Permits(reg)
  {
    match Parse(token)
    case None => false
    case Some(a) =>
      && user in reg.users
      && resource in reg.resources
      && a in reg.accessTypes
      && a in reg.resources[resource]
      && exists role :: role in reg.users[user] && RoleGrants(reg, role, resource, a)
  }

  /** The decision read off the RBAC relations: user assignment, grants and
      the resource's permissions. */
  lemma CheckAccessRelational(reg: Registry, user: string, resource: string, token: string)
    ensures CheckAccess(reg, user, resource, token) <==>
      exists a, role ::
        && Name(a) == token
        && user in reg.users
        && a in reg.accessTypes
        && (resource, a) in Permits(reg)
        && (user, role) in Assignments(reg)
        && (role, resource, a) in Grants(reg)
  {
    if CheckAccess(reg, user, resource, token) {
      var a := Parse(token).value;
      var role :| role in reg.users[user] && RoleGrants(reg, role, resource, a);
      assert (resource, a) in Permits(reg);
      assert (user, role) in Assignments(reg);
      assert (role, resource, a) in Grants(reg);
    }
    if exists a, role ::
        && Name(a) == token
        && user in reg.users
        && a in reg.accessTypes
        && (resource, a) in Permits(reg)
        && (user, role) in Assignments(reg)
        && (role, resource, a) in Grants(reg)
    {
      var a, role :|
        && Name(a) == token
        && user in reg.users
        && a in reg.accessTypes
        && (resource, a) in Permits(reg)
        && (user, role) in Assignments(reg)
        && (role, resource, a) in Grants(reg);
      assert Parse(token) == Some(a);
      assert role in reg.users[user] && RoleGrants(reg, role, resource, a);
    }
  }

  /** A name that was never registered, in any of the three positions, is
      always denied. */
  lemma UnregisteredIsDenied(reg: Registry, user: string, resource: string, token: string)
    requires user !in reg.users || resource !in reg.resources
          || forall a :: Name(a) == token ==> a !in reg.accessTypes
    ensures !CheckAccess(reg, user, resource, token)
  {
  }

  /** The resource gate dominates role grants: when a resource does not
      allow an access type, no user gets it there, whatever the roles say. */
  lemma ResourceGateDominates(reg: Registry, resource: string, a: AccessType)
    requires (resource, a) !in Permits(reg)
    ensures forall user :: !CheckAccess(reg, user, resource, Name(a))
  {
  }

  /** The registry only grows, and so does the set of granted requests:
      once allowed, a request stays allowed. */
  lemma CheckAccessMonotone(reg: Registry, reg': Registry, user: string, resource: string, token: string)
    requires Grows(reg, reg')
    requires CheckAccess(reg, user, resource, token)
    ensures CheckAccess(reg', user, resource, token)
  {
  }

  /** The decision as the source computes it: the early-exit guards, then a
      scan over the user's roles in whatever order the set yields them,
      stopping at the first role that grants the access. The role lookup
      indexes the roles table directly, which the invariant makes safe; the
      result is the same for every scan order. */
  method CheckAccessScan(reg: Registry, user: string, resource: string, token: string) returns (granted: bool)
    requires Valid(reg)
    ensures granted == CheckAccess(reg, user, resource, token)
  {
    var parsed := Parse(token);
    if parsed.None? {
      return false;
    }
    var a := parsed.value;
    if user !in reg.users || resource !in reg.resources || a !in reg.accessTypes {
      return false;
    }
    if a !in reg.resources[resource] {
      return false;
    }
    var pending := reg.users[user];
    while pending != {}
      invariant pending <= reg.users[user]
      invariant forall role :: role in reg.users[user] && role !in pending ==> !RoleGrants(reg, role, resource, a)
      decreases pending
    {
      var role :| role in pending;
      var mapping := reg.roles[role];
      if resource in mapping && a in mapping[resource] {
        return true;
      }
      pending := pending - {role};
    }
    return false;
  }

  /** Granting a role an access type the resource allows gives it to every
      user holding that role. */
  lemma GrantReachesRoleHolders(reg: Registry, user: string, resource: string, role: string, a: AccessType)
    requires user in reg.users && role in reg.users[user] && role in reg.roles
    requires (resource, a) in Permits(reg) && a in reg.accessTypes
    ensures CheckAccess(AddAccessOnResourceToRole(reg, Name(a), resource, role).next, user, resource, Name(a))
  {
  }

  /** A grant the resource does not allow is accepted, yet grants nothing:
      the check at query time denies it. */
  lemma GrantWithoutPermitIsInert(reg: Registry, resource: string, role: string, a: AccessType)
    requires role in reg.roles && resource in reg.resources && a in reg.accessTypes
    requires a !in reg.resources[resource]
    ensures AddAccessOnResourceToRole(reg, Name(a), resource, role).status == Added
    ensures forall user :: !CheckAccess(AddAccessOnResourceToRole(reg, Name(a), resource, role).next, user, resource, Name(a))
  {
  }
}
