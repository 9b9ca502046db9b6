/**
 * The authorization gate in front of every protected route: a chain of
 * early-return guards over the `Authorization` header, then token
 * verification. Token cryptography is an oracle `verify` that classifies a
 * token the way `jwt.verify` does.
 */
module AuthMiddleware {
  import opened Wrappers
  import opened Text

  /** Account identifiers as they appear in token claims. */
  type UserId = nat

  /** The claims a verified token decodes to; a token need not carry every claim. */
  datatype Claims = Claims(
    id: Option<UserId>,
    email: Option<string>,
    role: Option<string>,
    issuedAt: Option<int>,
    expiresAt: Option<int>)

  /** What verification says of a token: its claims, or the error kind it throws. */
  datatype Verification =
    | Valid(claims: Claims)
    | Expired       // TokenExpiredError
    | Malformed     // JsonWebTokenError
    | OtherFault    // anything else thrown while authenticating

  /** The identity attached to the request as `req.user`. */
  datatype RequestUser = RequestUser(id: Option<UserId>, email: Option<string>, role: Option<string>)

  /** Either exactly one error response is sent, or `next` is called with the identity. */
  datatype Outcome =
    | Reject(status: nat, error: string)
    | Continue(user: RequestUser)

  const BearerPrefix: string := "Bearer "
  const NoTokenError: string := "No authorization token provided"
  const FormatError: string := "Invalid token format"
  const DeniedError: string := "Access denied"
  const ExpiredError: string := "Token has expired"
  const InvalidError: string := "Invalid token"
  const InternalError: string := "Internal server error during authentication"

  /** `authHeader.split(" ")[1]`, with a missing second part read as the falsy empty string. */
  function TokenOf(header: string): (token: string)
    ensures ' ' !in token
    ensures ' ' !in header ==> token == ""
  {
    var parts := Split(header, ' ');
    if |parts| >= 2 then parts[1] else ""
  }

  /** The identity taken from the decoded claims: exactly `id`, `email` and `role`. */
  function UserOf(c: Claims): RequestUser {
    RequestUser(c.id, c.email, c.role)
  }

  /** True when the header gets as far as verification. */
  predicate ReachesVerify(header: Option<string>) {
    Truthy(header) && StartsWith(header.value, BearerPrefix) && TokenOf(header.value) != ""
  }

  /** The middleware, with the guards in source order. */
  function Authenticate(header: Option<string>, verify: string -> Verification): (r: Outcome)
    ensures r.Continue? <==> ReachesVerify(header) && verify(TokenOf(header.value)).Valid?
    ensures r.Continue? ==> r.user == UserOf(verify(TokenOf(header.value)).claims)
    ensures r.Reject? ==> r.status == 401 || r.status == 500
    ensures r.Reject? && r.status == 500 <==> ReachesVerify(header) && verify(TokenOf(header.value)) == OtherFault
  {
    if !Truthy(header) then Reject(401, NoTokenError)
    else if !StartsWith(header.value, BearerPrefix) then Reject(401, FormatError)
    else
      var token := TokenOf(header.value);
      if token == "" then Reject(401, DeniedError)
      else
        match verify(token)
        case Valid(c) => Continue(UserOf(c))
        case Expired => Reject(401, ExpiredError)
        case Malformed => Reject(401, InvalidError)
        case OtherFault => Reject(500, InternalError)
  }

  /** An absent or empty header is refused first, whatever verification would say. */
  lemma MissingHeader(header: Option<string>, verify: string -> Verification)
    requires !Truthy(header)
    ensures Authenticate(header, verify) == Reject(401, NoTokenError)
  {
  }

  /** A header without the exact, case-sensitive "Bearer " prefix is refused as badly formatted. */
  lemma WrongScheme(header: string, verify: string -> Verification)
    requires header != "" && !StartsWith(header, BearerPrefix)
    ensures Authenticate(Some(header), verify) == Reject(401, FormatError)
  {
  }

  /**
   * After the prefix, the token is the text up to the next space: further
   * space-separated segments are ignored.
   */
  lemma {:induction false} TokenIsSecondSegment(header: string)
    requires StartsWith(header, BearerPrefix)
    ensures TokenOf(header) == TakeUntil(header[|BearerPrefix|..], ' ')
  {
    var rest := header[|BearerPrefix|..];
    assert header == "Bearer" + [' '] + rest;
    SplitAfterWord("Bearer", rest, ' ');
    SplitFirst(rest, ' ');
  }

  /** "Bearer " alone and "Bearer  x" (two spaces) both give an empty token and "Access denied". */
  lemma EmptyTokenDenied(verify: string -> Verification)
    ensures Authenticate(Some("Bearer "), verify) == Reject(401, DeniedError)
    ensures Authenticate(Some("Bearer  x"), verify) == Reject(401, DeniedError)
  {
    TokenIsSecondSegment("Bearer ");
    assert "Bearer "[7..] == "";
    TokenIsSecondSegment("Bearer  x");
    assert "Bearer  x"[7..] == " x";
  }

  /** The token is empty exactly when the prefix ends the header or is followed by a second space. */
  lemma TokenEmptyIff(header: string)
    requires StartsWith(header, BearerPrefix)
    ensures TokenOf(header) == "" <==> |header| == |BearerPrefix| || header[|BearerPrefix|] == ' '
  {
    TokenIsSecondSegment(header);
    var rest := header[|BearerPrefix|..];
    var t := TakeUntil(rest, ' ');
    assert rest != [] ==> rest[0] == header[|BearerPrefix|];
    assert t != [] ==> t[0] == rest[0];
  }

  /** Any header with the prefix but an empty token gets "Access denied", whatever verification says. */
  lemma EmptyToken(header: string, verify: string -> Verification)
    requires StartsWith(header, BearerPrefix) && TokenOf(header) == ""
    ensures Authenticate(Some(header), verify) == Reject(401, DeniedError)
  {
  }

  /** A token followed by more segments is verified on its own: "Bearer t extra" verifies exactly `t`. */
  lemma {:induction false} ExtraSegmentsIgnored(token: string, extra: string)
    requires token != "" && ' ' !in token
    ensures TokenOf(BearerPrefix + token + " " + extra) == token
  {
    var header := BearerPrefix + token + " " + extra;
    assert StartsWith(header, BearerPrefix);
    TokenIsSecondSegment(header);
    var rest := header[|BearerPrefix|..];
    assert rest == token + [' '] + extra;
    SplitAfterWord(token, extra, ' ');
    SplitFirst(rest, ' ');
  }

  /** The verification faults map to these responses and no others. */
  lemma VerificationFaults(header: Option<string>, verify: string -> Verification)
    requires ReachesVerify(header)
    ensures verify(TokenOf(header.value)) == Expired ==> Authenticate(header, verify) == Reject(401, ExpiredError)
    ensures verify(TokenOf(header.value)) == Malformed ==> Authenticate(header, verify) == Reject(401, InvalidError)
    ensures verify(TokenOf(header.value)) == OtherFault ==> Authenticate(header, verify) == Reject(500, InternalError)
  {
  }

  /**
   * The guards run before verification: when a header fails one of them, the
   * outcome does not depend on what verification would have said.
   */
  lemma GuardsPrecedeVerify(header: Option<string>, v1: string -> Verification, v2: string -> Verification)
    requires !ReachesVerify(header)
    ensures Authenticate(header, v1) == Authenticate(header, v2)
    ensures Authenticate(header, v1).Reject? && Authenticate(header, v1).status == 401
  {
  }
}
