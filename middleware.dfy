/**
 * The access guard that protects the mutating routes. It is stateless: it
 * decides from the `Authorization` header and the outcome of verifying the
 * token it extracts. `jwt.verify` (signature and expiry) is the function
 * `verify`, which the caller supplies.
 */
module AccessGuard {
  import opened Wrappers
  import opened Text
  import opened Schema

  /** What `jwt.verify` does with a token: throws, or decodes a string or an object payload. */
  datatype Decoded = Invalid | TextPayload(text: string) | ObjectPayload(claims: map<string, string>)

  /** The guard either hands the request on (`next()`) or answers it itself. */
  datatype Decision = CallNext | Reject(response: Response)

  /** The one answer of every rejection. */
  const Unauthorized := Response(403, Message("Unauthorized"))

  /**
   * `authHeader.split(" ")[1] ?? ""`: the second space-separated field of
   * the header, whatever the first one says.
   */
  function BearerToken(header: string): (r: string)
    ensures ' ' !in r
    ensures ' ' !in header ==> r == ""
  {
    var parts := Split(header, ' ');
    assert ' ' !in header ==> |parts| == 1 by {
      if ' ' !in header { SplitWithoutSeparator(header, ' '); }
    }
    if |parts| > 1 then parts[1] else ""
  }

  /** The decoded token is an object with a `userId` claim. */
  predicate Authorizes(d: Decoded)
  {
    d.ObjectPayload? && "userId" in d.claims
  }

  /**
   * `middleware(req, res, next)`. `header` is `req.headers.authorization`;
   * a missing or empty header is rejected before anything is verified.
   */
  function Guard(header: Option<string>, verify: string -> Decoded): (d: Decision)
    ensures d == CallNext <==>
              header.Some? && header.value != "" && Authorizes(verify(BearerToken(header.value)))
    ensures d.Reject? ==> d.response == Unauthorized
  {
    if header.None? || header.value == "" then Reject(Unauthorized)
    else
      var decoded := verify(BearerToken(header.value));
      if !decoded.ObjectPayload? || "userId" !in decoded.claims then Reject(Unauthorized)
      else CallNext
  }

  /**
   * For `Bearer <token>` (section 2.1 of RFC 6750) the extracted token is
   * the credential; but any other first word is accepted in its place.
   */
  lemma TokenAfterAnyScheme(scheme: string, token: string)
    requires ' ' !in scheme && ' ' !in token
    ensures BearerToken(scheme + " " + token) == token
  {
    SplitWithoutSeparator(token, ' ');
    SplitAtSeparator(scheme, token, ' ');
  }

  /** Only the second field counts: whatever follows a further space is ignored. */
  lemma TokenIgnoresTrailingFields(scheme: string, token: string, rest: string)
    requires ' ' !in scheme && ' ' !in token
    ensures BearerToken(scheme + " " + token + " " + rest) == token
  {
    var h := scheme + " " + token + " " + rest;
    assert h == scheme + [' '] + (token + [' '] + rest);
    SplitAtSeparator(scheme, token + [' '] + rest, ' ');
    SplitAtSeparator(token, rest, ' ');
  }

  /**
   * The guard does not look at the claims' values: two tokens that both
   * decode to objects with a `userId`, whoever they name, are treated alike.
   */
  lemma AnyUserIdPasses(header: string, verify1: string -> Decoded, verify2: string -> Decoded)
    requires header != ""
    requires Authorizes(verify1(BearerToken(header))) && Authorizes(verify2(BearerToken(header)))
    ensures Guard(Some(header), verify1) == Guard(Some(header), verify2) == CallNext
  {
  }
}
