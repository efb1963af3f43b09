/** The token gate: `checkUser` and the token taken from the connection URL. */
module Auth {
  import opened Wrappers

  /**
   * What `jwt.verify` does with a token: it throws, or it returns a string
   * payload, or an object payload whose `userId` claim may be missing.
   */
  datatype VerifyOutcome = Throws | StringPayload | ObjectPayload(userId: Option<string>)

  /**
   * `checkUser`: the user id carried by a verified object payload, or `None`
   * (the source's `null`) when verification throws, the payload is a string,
   * or the `userId` claim is missing or the empty (falsy) string.
   */
  function CheckUser(v: VerifyOutcome): (r: Option<string>)
    ensures r.Some? <==> v.ObjectPayload? && v.userId.Some? && v.userId.value != ""
    ensures r.Some? ==> r == v.userId && r.value != ""
  {
    match v
    case Throws => None
    case StringPayload => None
    case ObjectPayload(uid) =>
      match uid
      case None => None
      case Some(id) => if id == "" then None else Some(id)
  }

  /** `queryParams.get("token") || ""`: a missing or empty parameter becomes `""`. */
  function TokenOf(param: Option<string>): string
  {
    match param
    case None => ""
    case Some(t) => if t == "" then "" else t
  }

  /** The user id the connection gate admits, given the verifier's behaviour. */
  function Authenticate(verify: string -> VerifyOutcome, param: Option<string>): (r: Option<string>)
    ensures r.Some? ==> r.value != ""
  {
    CheckUser(verify(TokenOf(param)))
  }

  /** The three cases in which `checkUser` answers `null`. */
  lemma CheckUserRejects(v: VerifyOutcome)
    ensures v.Throws? ==> CheckUser(v).None?
    ensures v.StringPayload? ==> CheckUser(v).None?
    ensures v.ObjectPayload? && (v.userId.None? || v.userId == Some("")) ==> CheckUser(v).None?
  {
  }

  /**
   * A connection without a token and one with an empty token are judged
   * exactly as the verifier judges the empty string.
   */
  lemma {:induction false} MissingTokenIsEmptyToken(verify: string -> VerifyOutcome)
    ensures Authenticate(verify, None) == Authenticate(verify, Some("")) == CheckUser(verify(""))
  {
  }

  /** A present, non-empty token is handed to the verifier unchanged. */
  lemma TokenPassedThrough(verify: string -> VerifyOutcome, t: string)
    requires t != ""
    ensures Authenticate(verify, Some(t)) == CheckUser(verify(t))
  {
  }
}
