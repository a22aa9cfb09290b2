# RBAC command line — a Dafny model

This project models the core of a small in-memory role-based access-control
registry and its command line (`RBAC_CLI.py`). The registry holds four
tables:

- the globally registered access types (`READ`, `WRITE`);
- resources, each with the set of access types it allows;
- roles, each mapping resource names to granted access types;
- users, each holding a set of role names.

Seven mutators add to these tables, and never remove anything. The query
`check_access` decides whether a user may perform an access on a resource.
A dispatcher maps one command line to at most one registry call.

Modules:

- `AccessTypes` (`access_types.dfy`): the `AccessType` enumeration. `Parse` stands for the lookup `AccessType(token)`; `None` is the `ValueError`.
- `Rbac` (`rbac.dfy`): the `Registry` datatype and the mutators. Each mutator is a pure function `Registry -> Step`. `Step` pairs the next registry with a `Status` (`Added`, `AlreadyExists`, `NotFound`, `InvalidAccessType`) that stands for the printed message. This module also holds the cross-table invariant `Valid`, the growth order `Grows`, and the relational views `Permits`, `Grants` and `Assignments`.
- `Authorization` (`authorization.dfy`): `CheckAccess` as a predicate. `CheckAccessScan` is the loop the source runs, proved to agree with the predicate.
- `Tokens` (`tokens.dfy`): whitespace splitting as `str.strip().split()` does it.
- `CommandLine` (`command_line.dfy`): command recognition, dispatch, sessions (`Run`), and the worked scenario of granting `alice` read access to `file1`.

## Model

| member | source | states |
|---|---|---|
| AccessTypes.Parse | RBAC_CLI.py:4-6 | Lookup by value is the exact inverse of the member's name: it yields `a` exactly when the token is `a`'s name. |
| AccessTypes.ParseAcceptsExactlyTwoTokens | RBAC_CLI.py:4-6 | Only `"READ"` and `"WRITE"` parse. `"read"`, `"Read"` and `"write"` do not. |
| Rbac.AddAccess | RBAC_CLI.py:30-35 | A token that names an access type is added and reports Added. Any other token reports InvalidAccessType and changes nothing. The other tables are untouched, the invariant is kept, and the registry only grows. |
| Rbac.AddResource | RBAC_CLI.py:37-42 | An absent name is added with an empty allowed set and reports Added. A present name reports AlreadyExists and leaves the whole registry unchanged. Other tables and the permissions are untouched. |
| Rbac.AddAccessOnResource | RBAC_CLI.py:44-53 | A bad token reports InvalidAccessType. Added happens exactly when the token parses, the resource exists and the type is registered; the permission relation then grows by exactly that pair. Every other outcome leaves the registry unchanged, and other resources and tables never change. |
| Rbac.AddRole | RBAC_CLI.py:55-60 | An absent name is added with an empty grant mapping and reports Added. A present name reports AlreadyExists and leaves the registry unchanged. Every existing role keeps exactly its grant mapping, and the grant relation is untouched. |
| Rbac.AddAccessOnResourceToRole | RBAC_CLI.py:62-76 | Added happens exactly when the token parses and the role, the resource and the registered type all exist. The resource's own allowed set is not consulted. The grant relation then grows by exactly that triple. The role's mapping gains at most the key `resource`, and its entries for other resources keep their sets. Otherwise the registry is unchanged. Other roles and tables never change. |
| Rbac.AddUser | RBAC_CLI.py:78-83 | An absent name is added with no roles and reports Added. A present name reports AlreadyExists and leaves the registry unchanged. |
| Rbac.AddRoleToUser | RBAC_CLI.py:85-90 | Added happens exactly when both the role and the user exist; the assignment relation then grows by exactly that pair. Otherwise NotFound, with the registry unchanged. Other users and tables never change. |
| Rbac.EmptyIsValid | RBAC_CLI.py:24-28 | A fresh registry satisfies the invariant and has no permissions, grants or assignments. |
| Authorization.CheckAccess | RBAC_CLI.py:92-113 | A granted request names an existing user and resource, and a registered access type that the resource allows. `CheckAccessRelational` states the full meaning and `CheckAccessScan` ties it to the source's loop. |
| Authorization.CheckAccessRelational | RBAC_CLI.py:92-113 | The decision is true exactly when the token names a registered type, the user exists, the resource allows the type, and some role assigned to the user holds that grant. |
| Authorization.UnregisteredIsDenied | RBAC_CLI.py:96-99 | An unknown user, an unknown resource, or a token that does not name a registered type is always denied. |
| Authorization.ResourceGateDominates | RBAC_CLI.py:101-102 | If a resource does not allow a type, no user is granted that type there, whatever the roles hold. |
| Authorization.CheckAccessMonotone | RBAC_CLI.py:92-113 | Once granted, a request stays granted in any registry that grew from this one. |
| Authorization.CheckAccessScan | RBAC_CLI.py:92-113 | The source's early-exit checks and first-match scan over the user's roles, taken in any order, compute the decision. Under the invariant the direct role lookup is safe. |
| Authorization.GrantReachesRoleHolders | RBAC_CLI.py:62-76 | Granting a role a type that the resource allows gives that access to every user holding the role. |
| Authorization.GrantWithoutPermitIsInert | RBAC_CLI.py:65-71 | Granting a role a type that the resource does not allow is accepted (Added), yet every user is still denied it on that resource. |
| Tokens.Tokenize | RBAC_CLI.py:120 | Every token produced is non-empty and contains no whitespace. |
| Tokens.TokenizeJoin | RBAC_CLI.py:120 | Splitting tokens that were joined with single spaces gives the same tokens back. |
| Tokens.TokenizeLeadingSpace | RBAC_CLI.py:120 | Any run of leading whitespace, of any kind and length, adds no token. |
| Tokens.TokenizeWordThenSpace | RBAC_CLI.py:120 | A token followed by any non-empty run of whitespace (tabs, newlines, several spaces) is split off as one token, and splitting goes on after the run. |
| Tokens.TokenizeStrip | RBAC_CLI.py:120 | Stripping the line before splitting it changes nothing. |
| CommandLine.ParseCommand | RBAC_CLI.py:125-153 | A token list is recognised as command `c` exactly when it is `c`'s keyword followed by its arguments. An unknown keyword or a wrong token count is rejected. |
| CommandLine.ExecuteCommand | RBAC_CLI.py:119-158 | An empty or unrecognised token list leaves the registry unchanged and replies nothing. A reply appears exactly for a 4-token `checkAccess`; it is "Yes" or "No" matching the decision, and the registry is unchanged. Each other command makes exactly its registry call. The invariant is kept and the registry only grows. |
| CommandLine.ExecuteLine | RBAC_CLI.py:119-123 | A raw line is split and then dispatched. An all-whitespace line does nothing. A reply leaves the registry unchanged and is "Yes" or "No". The invariant is kept and the registry only grows. `TypedCommandRoundTrip` states which command a typed line reaches. |
| CommandLine.BlankLineIsNoOp | RBAC_CLI.py:120-123 | An all-whitespace line does nothing and replies nothing. |
| CommandLine.TypedCommandRoundTrip | RBAC_CLI.py:119-153 | A command typed as its tokens separated by spaces runs exactly that command. |
| CommandLine.Run | RBAC_CLI.py:119-158 | A session of commands keeps the invariant and only grows the registry. |
| CommandLine.ReachableIsValid | RBAC_CLI.py:86-87 | Every registry reachable from the empty one satisfies the invariant, so the role lookup at line 106 never raises. |
| CommandLine.ApplyIdempotent | RBAC_CLI.py:30-90 | Running any command a second time leaves the registry as the first run left it. |
| CommandLine.LowerCaseAccessRejected | RBAC_CLI.py:30-35 | `addAccess read` is rejected as an invalid access type and changes nothing. |
| CommandLine.AdminScenarioGrants | RBAC_CLI.py:30-113 | After registering READ, file1, READ on file1, role admin, the grant, user alice and the assignment, `checkAccess alice file1 READ` answers "Yes". |
| CommandLine.AdminScenarioWithoutAssignmentDenies | RBAC_CLI.py:30-113 | The same set-up without `addRoleToUser admin alice` answers "No". |

## Left out

- `main()` and its interactive loop (RBAC_CLI.py:160-192) are not modelled. This covers the banner, the case-insensitive `exit` check, skipping empty input and `KeyboardInterrupt`; all of it is terminal I/O.
- The text of the printed messages is not modelled. Mutators return a `Status` instead. The dispatcher, like the source, returns no value for mutators, so the status is not passed on by it.
- The dispatcher's catch-all `except Exception` (RBAC_CLI.py:155-156) is not modelled as a path. The only exception the registry can raise is the `KeyError` at line 106, which needs a user holding an unknown role. `ReachableIsValid` shows no session reaches such a state, and `CheckAccessScan` requires the invariant that excludes it. `CheckAccess` itself is total: on a registry that breaks the invariant it ignores unknown role names rather than raising.
- The `name` fields of `Resource`, `Role` and `User` (RBAC_CLI.py:10, 15, 20) are not stored, because they always equal the table key.
- Python object identity and in-place mutation are modelled as values. Each mutator returns a new registry.
- Tokens.Tokenize: the whitespace set is the fixed list of characters Python's `str.split()` treats as whitespace. It is not derived from a Unicode database.
