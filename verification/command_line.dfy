/** The command router (RBAC_CLI.py, `RBACCommandLine.execute_command`):
    a token list selects at most one registry call. */
module CommandLine {
  import opened Wrappers
  import opened AccessTypes
  import opened Rbac
  import opened Authorization
  import opened Tokens

  /** A recognised command with its positional arguments. */
  datatype Command =
    | AddAccessCmd(access: string)
    | AddResourceCmd(resource: string)
    | AddAccessOnResourceCmd(access: string, resource: string)
    | AddRoleCmd(role: string)
    | AddAccessOnResourceToRoleCmd(access: string, resource: string, role: string)
    | AddUserCmd(user: string)
    | AddRoleToUserCmd(role: string, user: string)
    | CheckAccessCmd(user: string, resource: string, access: string)

  /** The token list that spells a command: its keyword, then its
      arguments in order. */
  function Spell(c: Command): seq<string>
  {
    match c
    case AddAccessCmd(t) => ["addAccess", t]
    case AddResourceCmd(res) => ["addResource", res]
    case AddAccessOnResourceCmd(t, res) => ["addAccessOnResource", t, res]
    case AddRoleCmd(role) => ["addRole", role]
    case AddAccessOnResourceToRoleCmd(t, res, role) => ["addAccessOnResourceToRole", t, res, role]
    case AddUserCmd(u) => ["addUser", u]
    case AddRoleToUserCmd(role, u) => ["addRoleToUser", role, u]
    case CheckAccessCmd(u, res, t) => ["checkAccess", u, res, t]
  }

  /** Recognise a token list: the keyword must match exactly and the token
      count must be the command's arity. Anything else is rejected. */
  function ParseCommand(parts: seq<string>): (r: Option<Command>)
    ensures forall c :: r == Some(c) <==> parts == Spell(c)
  {
    if |parts| == 0 then None
    else if parts[0] == "addAccess" && |parts| == 2 then Some(AddAccessCmd(parts[1]))
    else if parts[0] == "addResource" && |parts| == 2 then Some(AddResourceCmd(parts[1]))
    else if parts[0] == "addAccessOnResource" && |parts| == 3 then
      Some(AddAccessOnResourceCmd(parts[1], parts[2]))
    else if parts[0] == "addRole" && |parts| == 2 then Some(AddRoleCmd(parts[1]))
    else if parts[0] == "addAccessOnResourceToRole" && |parts| == 4 then
      Some(AddAccessOnResourceToRoleCmd(parts[1], parts[2], parts[3]))
    else if parts[0] == "addUser" && |parts| == 2 then Some(AddUserCmd(parts[1]))
    else if parts[0] == "addRoleToUser" && |parts| == 3 then Some(AddRoleToUserCmd(parts[1], parts[2]))
    else if parts[0] == "checkAccess" && |parts| == 4 then
      Some(CheckAccessCmd(parts[1], parts[2], parts[3]))
    else None
  }

  /** The query's reply text. */
  function Answer(granted: bool): string
  {
    if granted then "Yes" else "No"
  }

  /** Run one recognised command: a mutator replies nothing, the query
      replies with its answer and leaves the registry alone. */
  function Apply(reg: Registry, c: Command): (Registry, Option<string>)
  {
    match c
    case AddAccessCmd(t) => (AddAccess(reg, t).next, None)
    case AddResourceCmd(res) => (AddResource(reg, res).next, None)
    case AddAccessOnResourceCmd(t, res) => (AddAccessOnResource(reg, t, res).next, None)
    case AddRoleCmd(role) => (AddRole(reg, role).next, None)
    case AddAccessOnResourceToRoleCmd(t, res, role) =>
      (AddAccessOnResourceToRole(reg, t, res, role).next, None)
    case AddUserCmd(u) => (AddUser(reg, u).next, None)
    case AddRoleToUserCmd(role, u) => (AddRoleToUser(reg, role, u).next, None)
    case CheckAccessCmd(u, res, t) => (reg, Some(Answer(CheckAccess(reg, u, res, t))))
  }

  /** `execute_command` on an already split line. */
  function ExecuteCommand(reg: Registry, parts: seq<string>): (r: (Registry, Option<string>))
    ensures |parts| == 0 ==> r == (reg, None)
    ensures (forall c :: parts != Spell(c)) ==> r == (reg, None)
    ensures r.1.Some? <==> |parts| == 4 && parts[0] == "checkAccess"
    ensures r.1.Some? ==> r.0 == reg && (r.1.value == "Yes" <==> CheckAccess(reg, parts[1], parts[2], parts[3]))
    ensures r.1.Some? ==> r.1.value == "Yes" || r.1.value == "No"
    ensures |parts| == 2 && parts[0] == "addAccess" ==> r.0 == AddAccess(reg, parts[1]).next
    ensures |parts| == 2 && parts[0] == "addResource" ==> r.0 == AddResource(reg, parts[1]).next
    ensures |parts| == 3 && parts[0] == "addAccessOnResource" ==>
      r.0 == AddAccessOnResource(reg, parts[1], parts[2]).next
    ensures |parts| == 2 && parts[0] == "addRole" ==> r.0 == AddRole(reg, parts[1]).next
    ensures |parts| == 4 && parts[0] == "addAccessOnResourceToRole" ==>
      r.0 == AddAccessOnResourceToRole(reg, parts[1], parts[2], parts[3]).next
    ensures |parts| == 2 && parts[0] == "addUser" ==> r.0 == AddUser(reg, parts[1]).next
    ensures |parts| == 3 && parts[0] == "addRoleToUser" ==> r.0 == AddRoleToUser(reg, parts[1], parts[2]).next
    ensures Valid(reg) ==> Valid(r.0)
    ensures Grows(reg, r.0)
  {
    match ParseCommand(parts)
    case None => (reg, None)
    case Some(c) => Apply(reg, c)
  }

  /** `execute_command` on a raw line. */
  function ExecuteLine(reg: Registry, line: string): (r: (Registry, Option<string>))
    ensures (forall i :: 0 <= i < |line| ==> IsSpace(line[i])) ==> r == (reg, None)
    ensures r.1.Some? ==> r.0 == reg && (r.1.value == "Yes" || r.1.value == "No")
    ensures Valid(reg) ==> Valid(r.0)
    ensures Grows(reg, r.0)
  {
    BlankTokenizesToNothing(line);
    ExecuteCommand(reg, Tokenize(line))
  }

  /** A session: the registry after running each token list in turn. */
  function Run(reg: Registry, script: seq<seq<string>>): (r: Registry)
    ensures Valid(reg) ==> Valid(r)
    ensures Grows(reg, r)
    decreases |script|
  {
    if |script| == 0 then reg
    else
      var next := ExecuteCommand(reg, script[0]).0;
      var r := Run(next, script[1..]);
      GrowsTransitive(reg, next, r);
      r
  }

  /** Every registry a session can reach from the empty one satisfies the
      invariant, so the role lookup in the decision never fails and the
      dispatcher's catch-all never fires. */
  lemma ReachableIsValid(script: seq<seq<string>>)
    ensures Valid(Run(Empty, script))
  {
  }

  /** A blank or all-whitespace line does nothing. */
  lemma BlankLineIsNoOp(reg: Registry, line: string)
    requires forall i :: 0 <= i < |line| ==> IsSpace(line[i])
    ensures ExecuteLine(reg, line) == (reg, None)
  {
    assert Tokenize(line) == [] by {
      BlankTokenizesToNothing(line);
    }
  }

  lemma {:induction false} BlankTokenizesToNothing(s: string)
    ensures (forall i :: 0 <= i < |s| ==> IsSpace(s[i])) ==> Tokenize(s) == []
    decreases |s|
  {
    if |s| > 0 {
      BlankTokenizesToNothing(s[1..]);
    }
  }

  /** A command typed with its tokens separated by single spaces reaches
      exactly that command. */
  lemma TypedCommandRoundTrip(reg: Registry, c: Command)
    requires forall i :: 0 <= i < |Spell(c)| ==> IsToken(Spell(c)[i])
    ensures ExecuteLine(reg, Join(Spell(c))) == Apply(reg, c)
  {
    TokenizeJoin(Spell(c));
  }

  /** Running any command a second time changes nothing more. */
  lemma ApplyIdempotent(reg: Registry, c: Command)
    ensures Apply(Apply(reg, c).0, c).0 == Apply(reg, c).0
  {
    match c
    case AddAccessOnResourceCmd(t, res) =>
      if Parse(t).Some? && res in reg.resources && Parse(t).value in reg.accessTypes {
        var next := Apply(reg, c).0;
        assert next.resources[res] == next.resources[res] + {Parse(t).value};
      }
    case AddAccessOnResourceToRoleCmd(t, res, role) =>
      if Parse(t).Some? && role in reg.roles && res in reg.resources && Parse(t).value in reg.accessTypes {
        var next := Apply(reg, c).0;
        var mapping := next.roles[role];
        assert res in mapping && Parse(t).value in mapping[res];
        assert InsertIfAbsent(mapping, res, {}) == mapping;
        assert mapping[res := mapping[res] + {Parse(t).value}] == mapping;
        assert next.roles[role := mapping] == next.roles;
      }
    case AddRoleToUserCmd(role, u) =>
      if role in reg.roles && u in reg.users {
        var next := Apply(reg, c).0;
        assert next.users[u] == next.users[u] + {role};
      }
    case _ =>
  }

  /** Lower-case access names are rejected and leave the registry alone. */
  lemma LowerCaseAccessRejected(reg: Registry)
    ensures ExecuteCommand(reg, ["addAccess", "read"]) == (reg, None)
    ensures AddAccess(reg, "read").status == InvalidAccessType
  {
  }

  /** A spelled-out command reaches exactly that command. */
  lemma ExecuteSpelled(reg: Registry, c: Command)
    ensures ExecuteCommand(reg, Spell(c)) == Apply(reg, c)
  {
  }

  /** The set-up that grants `alice` read access to `file1` through the
      role `admin`, as commands and as the token lists that spell them. */
  const SetupCommands: seq<Command> := [
    AddAccessCmd("READ"),
    AddResourceCmd("file1"),
    AddAccessOnResourceCmd("READ", "file1"),
    AddRoleCmd("admin"),
    AddAccessOnResourceToRoleCmd("READ", "file1", "admin"),
    AddUserCmd("alice"),
    AddRoleToUserCmd("admin", "alice")
  ]

  const AdminSetup: seq<seq<string>> := [
    ["addAccess", "READ"],
    ["addResource", "file1"],
    ["addAccessOnResource", "READ", "file1"],
    ["addRole", "admin"],
    ["addAccessOnResourceToRole", "READ", "file1", "admin"],
    ["addUser", "alice"],
    ["addRoleToUser", "admin", "alice"]
  ]

  const AliceReadsFile1: seq<string> := ["checkAccess", "alice", "file1", "READ"]

  /** The registry after the first `i` lines of the set-up. */
  function Stage(i: nat): Registry
    requires i <= 7
  {
    var none: set<AccessType> := {};
    if i == 0 then Empty
    else if i == 1 then Registry({READ}, map[], map[], map[])
    else if i == 2 then Registry({READ}, map["file1" := none], map[], map[])
    else if i == 3 then Registry({READ}, map["file1" := {READ}], map[], map[])
    else if i == 4 then Registry({READ}, map["file1" := {READ}], map["admin" := map[]], map[])
    else if i == 5 then Registry({READ}, map["file1" := {READ}], map["admin" := map["file1" := {READ}]], map[])
    else if i == 6 then Stage(5).(users := map["alice" := {}])
    else Stage(5).(users := map["alice" := {"admin"}])
  }

  /** Each recognised command of the set-up takes one stage to the next. */
  lemma SetupStep(i: nat)
    requires i < 7
    ensures Apply(Stage(i), SetupCommands[i]).0 == Stage(i + 1)
  {
    ParseName(READ);
    var none: set<AccessType> := {};
    assert none + {READ} == {READ};
    if i == 2 {
      assert Stage(2).resources["file1" := {READ}] == Stage(3).resources;
    } else if i == 4 {
      var m: map<string, set<AccessType>> := map[];
      assert InsertIfAbsent(m, "file1", none) == map["file1" := none];
      assert map["file1" := none]["file1" := none + {READ}] == map["file1" := {READ}];
      assert Stage(4).roles["admin" := map["file1" := {READ}]] == Stage(5).roles;
    } else if i == 6 {
      var noRoles: set<string> := {};
      assert noRoles + {"admin"} == {"admin"};
      assert Stage(6).users["alice" := {"admin"}] == Stage(7).users;
    }
  }

  /** Each line of the set-up spells the corresponding command. */
  lemma SetupSpelling(i: nat)
    requires i < 7
    ensures AdminSetup[i] == Spell(SetupCommands[i])
  {
  }

  /** Running the set-up from line `i` on, from stage `i`, ends at the last
      stage; stopping before its last line ends one stage earlier. */
  lemma {:induction false} RunSetupFrom(i: nat)
    requires i <= 7
    ensures Run(Stage(i), AdminSetup[i..]) == Stage(7)
    ensures i <= 6 ==> Run(Stage(i), AdminSetup[..6][i..]) == Stage(6)
    decreases 7 - i
  {
    if i < 7 {
      SetupStep(i);
      SetupSpelling(i);
      ExecuteSpelled(Stage(i), SetupCommands[i]);
      RunSetupFrom(i + 1);
      assert AdminSetup[i..][1..] == AdminSetup[i + 1..];
      RunFirst(Stage(i), AdminSetup[i..], Stage(i + 1));
      if i < 6 {
        assert AdminSetup[..6][i..][1..] == AdminSetup[..6][i + 1..];
        RunFirst(Stage(i), AdminSetup[..6][i..], Stage(i + 1));
      } else {
        assert AdminSetup[..6][6..] == [];
      }
    } else {
      assert AdminSetup[7..] == [];
    }
  }

  /** Running a non-empty script is running its first line, then the rest. */
  lemma RunFirst(reg: Registry, script: seq<seq<string>>, next: Registry)
    requires |script| > 0 && ExecuteCommand(reg, script[0]).0 == next
    ensures Run(reg, script) == Run(next, script[1..])
  {
  }

  /** The whole set-up, and the set-up without its last line, end at the
      last two stages. */
  lemma RunSetup()
    ensures Run(Empty, AdminSetup) == Stage(7)
    ensures Run(Empty, AdminSetup[..6]) == Stage(6)
  {
    RunSetupFrom(0);
    assert AdminSetup[0..] == AdminSetup;
    assert AdminSetup[..6][0..] == AdminSetup[..6];
  }

  /** The query line against the set-up's last two stages. */
  lemma QueryStages(reg: Registry)
    ensures reg == Stage(7) ==> ExecuteCommand(reg, AliceReadsFile1).1 == Some("Yes")
    ensures reg == Stage(6) ==> ExecuteCommand(reg, AliceReadsFile1).1 == Some("No")
  {
  }

  /** After the full set-up the query answers "Yes". */
  lemma AdminScenarioGrants()
    ensures ExecuteCommand(Run(Empty, AdminSetup), AliceReadsFile1).1 == Some("Yes")
  {
    RunSetup();
    QueryStages(Run(Empty, AdminSetup));
  }

  /** Without its last line, assigning the role, the query answers "No". */
  lemma AdminScenarioWithoutAssignmentDenies()
    ensures ExecuteCommand(Run(Empty, AdminSetup[..6]), AliceReadsFile1).1 == Some("No")
  {
    RunSetup();
    QueryStages(Run(Empty, AdminSetup[..6]));
  }
}
