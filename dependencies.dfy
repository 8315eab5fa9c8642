/**
 * The dependencies of every tool: the access token taken from the request
 * context, and the token record the mail service is built with.
 */
module Dependencies {
  import opened Wrappers
  import opened Strings
  import opened Auth

  /** An HTTP error raised to the caller. */
  datatype HttpException = HttpException(status: int, detail: string)

  /** The request under a tool call; only its Authorization header matters here. */
  datatype Request = Request(authorization: Option<string>)

  /** The tool-call context: the request context may be missing. */
  datatype Context = Context(request: Option<Request>)

  const NoContext := HttpException(401, "No request context available")
  const NoToken := HttpException(401, "No valid access token provided")

  /**
   * `get_access_token`: 401 without a context or request context; 401 when
   * the header is missing, empty or lacks the `Bearer ` prefix; otherwise
   * the header with every occurrence of `Bearer ` removed.
   */
  function GetAccessToken(ctx: Option<Context>): (r: Result<string, HttpException>)
    ensures ctx.None? || ctx.value.request.None? ==> r == Failure(NoContext)
    ensures ctx.Some? && ctx.value.request.Some? ==>
      var h := ctx.value.request.value.authorization;
      (r == Failure(NoToken) <==> !(Truthy(h) && StartsWith(h.value, BearerPrefix)))
    ensures r.Success? ==>
      r.value == RemoveAll(ctx.value.request.value.authorization.value, BearerPrefix)
  {
    if ctx.None? || ctx.value.request.None? then Failure(NoContext)
    else
      var h := ctx.value.request.value.authorization;
      if !Truthy(h) || !StartsWith(h.value, BearerPrefix) then Failure(NoToken)
      else Success(RemoveAll(h.value, BearerPrefix))
  }

  /** A tool context whose request carries the given Authorization header. */
  function WithHeader(header: Option<string>): Context {
    Context(Some(Request(header)))
  }

  /** Both token readers accept exactly the same headers. */
  lemma SameHeadersAccepted(header: Option<string>)
    ensures GetAccessToken(Some(WithHeader(header))).Success? <==> ExtractBearerToken(header).Some?
  {
  }

  /**
   * When the token behind the prefix does not itself contain `Bearer `, the
   * two readers agree: the result is the header without its first seven
   * characters.
   */
  lemma AgreesWithExtractor(t: string)
    requires !Contains(t, BearerPrefix)
    ensures GetAccessToken(Some(WithHeader(Some(BearerPrefix + t)))) == Success(t)
    ensures ExtractBearerToken(Some(BearerPrefix + t)) == Some(t)
  {
    var h := BearerPrefix + t;
    assert h[..|BearerPrefix|] == BearerPrefix;
    assert h[|BearerPrefix|..] == t;
    RemoveAllAbsent(t, BearerPrefix);
    BearerRoundTrip(t);
  }

  /** Removing occurrences never lengthens the text, and shortens it whenever there is one. */
  lemma {:induction false} RemoveAllShortens(s: string, pat: string)
    requires pat != []
    ensures |RemoveAll(s, pat)| <= |s|
    ensures Contains(s, pat) ==> |RemoveAll(s, pat)| < |s|
    decreases |s|
  {
    if s != [] {
      if StartsWith(s, pat) {
        RemoveAllShortens(s[|pat|..], pat);
      } else {
        RemoveAllShortens(s[1..], pat);
        if Contains(s, pat) {
          var i :| 0 <= i <= |s| && OccursAt(s, pat, i);
          assert i != 0;
          assert s[1..][i - 1..i - 1 + |pat|] == s[i..i + |pat|];
          assert OccursAt(s[1..], pat, i - 1);
        }
      }
    }
  }

  /**
   * When the token does contain `Bearer `, the two readers disagree: the
   * dependency returns a strictly shorter token than the prefix slice.
   */
  lemma DisagreesWithExtractor(t: string)
    requires Contains(t, BearerPrefix)
    ensures GetAccessToken(Some(WithHeader(Some(BearerPrefix + t)))).Success?
    ensures |GetAccessToken(Some(WithHeader(Some(BearerPrefix + t)))).value| < |t|
    ensures ExtractBearerToken(Some(BearerPrefix + t)) == Some(t)
  {
    var h := BearerPrefix + t;
    assert h[..|BearerPrefix|] == BearerPrefix;
    assert h[|BearerPrefix|..] == t;
    RemoveAllShortens(t, BearerPrefix);
    BearerRoundTrip(t);
  }

  /** The header `Bearer Bearer x`: the prefix slice gives `Bearer x`, the dependency gives `x`. */
  lemma DoubledPrefixExample()
    ensures ExtractBearerToken(Some("Bearer Bearer x")) == Some("Bearer x")
    ensures GetAccessToken(Some(WithHeader(Some("Bearer Bearer x")))) == Success("x")
  {
    BearerRoundTrip("Bearer x");
    assert BearerPrefix + "Bearer x" == "Bearer Bearer x";
    var h := "Bearer Bearer x";
    assert StartsWith(h, BearerPrefix);
    assert h[7..] == "Bearer x";
    assert StartsWith("Bearer x", BearerPrefix);
    assert "Bearer x"[7..] == "x";
    assert !StartsWith("x", BearerPrefix);
    assert RemoveAll("x", BearerPrefix) == "x";
  }

  /** `get_gmail_service`: the token with an empty email and scope and the default token type. */
  function ServiceTokenInfo(accessToken: string): (r: TokenInfo)
    ensures r.accessToken == accessToken && r.email == "" && r.scope == ""
    ensures r.expiresIn.None? && r.tokenType == "Bearer"
  {
    TokenInfo(accessToken, "", "", None, "Bearer")
  }

  /**
   * The service's token record carries no scope, so it would not itself
   * pass the gmail scope test and lists no scopes.
   */
  lemma ServiceTokenHasNoScope(accessToken: string)
    ensures !HasGmailScope(ServiceTokenInfo(accessToken).scope)
    ensures Scopes(ServiceTokenInfo(accessToken).scope) == []
  {
  }
}
