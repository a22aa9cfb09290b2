/** The closed enumeration of permission kinds (RBAC_CLI.py, class `AccessType`). */
module AccessTypes {
  import opened Wrappers

  /** A permission kind that can be requested against a resource. */
  datatype AccessType = READ | WRITE

  /** Every member of the enumeration. */
  const AllAccessTypes: set<AccessType> := {READ, WRITE}

  /** The value of an enum member: the exact text that names it. */
  function Name(a: AccessType): string
  {
    match a
    case READ => "READ"
    case WRITE => "WRITE"
  }

  /** Looking a member up by value, as the call `AccessType(token)` does.
      `None` stands for the `ValueError` that call raises on any other text;
      the match is exact, so case matters. */
  function Parse(token: string): (r: Option<AccessType>)
    ensures forall a :: r == Some(a) <==> Name(a) == token
  {
    if token == "READ" then Some(READ)
    else if token == "WRITE" then Some(WRITE)
    else None
  }

  /** Parsing a member's name yields that member. */
  lemma ParseName(a: AccessType)
    ensures Parse(Name(a)) == Some(a)
  {
  }

  /** Only the two exact names parse; lower- or mixed-case spellings do not. */
  lemma ParseAcceptsExactlyTwoTokens(token: string)
    ensures Parse(token).Some? <==> token == "READ" || token == "WRITE"
    ensures Parse("read").None? && Parse("Read").None? && Parse("write").None?
  {
  }
}
