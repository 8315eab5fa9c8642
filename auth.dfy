/**
 * Token handling: the `Bearer` prefix of an Authorization header, the test
 * that accepts only tokens with a gmail scope, and the token records built
 * from the token-info answer.
 */
module Auth {
  import opened Wrappers
  import opened Strings

  const BearerPrefix := "Bearer "

  /**
   * `extract_bearer_token`: nothing for a missing or empty header or one
   * without the case-sensitive `Bearer ` prefix; otherwise the header
   * without its first seven characters.
   */
  function ExtractBearerToken(header: Option<string>): (r: Option<string>)
    ensures r.Some? <==> Truthy(header) && StartsWith(header.value, BearerPrefix)
    ensures r.Some? ==> header.value == BearerPrefix + r.value
  {
    if !Truthy(header) then None
    else if !StartsWith(header.value, BearerPrefix) then None
    else
      assert header.value == header.value[..7] + header.value[7..];
      Some(header.value[7..])
  }

  /** Every token, the empty one included, is found again behind the prefix. */
  lemma BearerRoundTrip(t: string)
    ensures ExtractBearerToken(Some(BearerPrefix + t)) == Some(t)
  {
    var h := BearerPrefix + t;
    assert h[..|BearerPrefix|] == BearerPrefix;
    assert h[7..] == t;
  }

  /** The prefix test is case-sensitive, and a header of the bare scheme word has no token. */
  lemma BearerIsCaseSensitive(t: string)
    ensures ExtractBearerToken(Some("bearer " + t)) == None
    ensures ExtractBearerToken(Some("Bearer")) == None
    ensures ExtractBearerToken(Some("")) == None && ExtractBearerToken(None) == None
  {
    var h := "bearer " + t;
    assert h[0] == 'b';
  }

  // ----- the gmail scope -----

  /** A token is for the mail service when its lower-cased scope mentions "gmail". */
  predicate HasGmailScope(scope: string) {
    Contains(Lower(scope), "gmail")
  }

  /** Lower-casing commutes with taking a slice. */
  lemma LowerSlice(s: string, i: int, j: int)
    requires 0 <= i <= j <= |s|
    ensures Lower(s)[i..j] == Lower(s[i..j])
  {
    var l, r := Lower(s)[i..j], Lower(s[i..j]);
    assert |l| == |r|;
    forall k | 0 <= k < |l| ensures l[k] == r[k] {
      assert l[k] == Lower(s)[i + k] && s[i..j][k] == s[i + k];
    }
  }

  /** "gmail", in any mixture of cases, starts at position `i` of the scope. */
  predicate GmailAt(scope: string, i: int) {
    0 <= i <= |scope| - 5 && Lower(scope[i..i + 5]) == "gmail"
  }

  /** The scope test accepts exactly the scopes holding "gmail" in any mixture of cases. */
  lemma GmailScopeAnyCase(scope: string)
    ensures HasGmailScope(scope) <==> exists i :: GmailAt(scope, i)
  {
    if HasGmailScope(scope) {
      var i :| 0 <= i <= |scope| && OccursAt(Lower(scope), "gmail", i);
      LowerSlice(scope, i, i + 5);
      assert GmailAt(scope, i);
    }
    if exists i :: GmailAt(scope, i) {
      var i :| GmailAt(scope, i);
      LowerSlice(scope, i, i + 5);
      assert OccursAt(Lower(scope), "gmail", i);
    }
  }

  /** Lower-casing a scope first does not change the verdict. */
  lemma GmailScopeIgnoresCase(scope: string)
    ensures HasGmailScope(Lower(scope)) == HasGmailScope(scope)
  {
    assert Lower(Lower(scope)) == Lower(scope);
  }

  /** `scope.split()` when the scope is non-empty, and no scopes otherwise. */
  function Scopes(scope: string): (r: seq<string>)
    ensures forall i :: 0 <= i < |r| ==> IsWord(r[i])
  {
    if scope != "" then Words(scope) else []
  }

  /** The emptiness guard only repeats what splitting does, and splitting a space-joined list gives it back. */
  lemma ScopesRoundTrip(scope: string, ws: seq<string>)
    requires forall i :: 0 <= i < |ws| ==> IsWord(ws[i])
    ensures Scopes(scope) == Words(scope)
    ensures Scopes(Join(ws, " ")) == ws
  {
    WordsOfJoin(ws);
  }

  /** A string with a character that is not a space splits into at least one word. */
  lemma {:induction false} WordsNonEmpty(s: string, i: int)
    requires 0 <= i < |s| && !IsSpace(s[i])
    ensures Words(s) != []
    decreases |s|
  {
    if IsSpace(s[0]) {
      WordsNonEmpty(s[1..], i - 1);
    }
  }

  /** A scope the gmail test accepts has at least one scope in it. */
  lemma GmailScopeNotEmpty(scope: string)
    requires HasGmailScope(scope)
    ensures Scopes(scope) != []
  {
    var i :| 0 <= i <= |scope| && OccursAt(Lower(scope), "gmail", i);
    assert Lower(scope)[i..i + 5][0] == 'g';
    assert LowerChar(scope[i]) == 'g';
    assert scope[i] == 'g' || scope[i] == 'G';
    WordsNonEmpty(scope, i);
  }

  // ----- token records -----

  /** The validated token: `token_type` defaults to "Bearer". */
  datatype TokenInfo = TokenInfo(
    accessToken: string, email: string, scope: string, expiresIn: Option<int>, tokenType: string)

  /** The token-info endpoint's answer: its status and the optional keys of its body. */
  datatype TokenResponse = TokenResponse(
    status: int, scope: Option<string>, email: Option<string>, expiresIn: Option<int>)

  /**
   * `validate_token` once the answer is in: a status other than 200 or a
   * scope without gmail gives nothing; otherwise the token with the email
   * (or ""), the scope (or "") and the expiry.
   */
  function ValidateToken(token: string, resp: TokenResponse): (r: Option<TokenInfo>)
    ensures r.Some? <==> resp.status == 200 && HasGmailScope(resp.scope.GetOr(""))
    ensures r.Some? ==> r.value.accessToken == token && r.value.tokenType == "Bearer"
    ensures r.Some? ==> r.value.scope == resp.scope.GetOr("") && r.value.email == resp.email.GetOr("")
    ensures r.Some? ==> r.value.expiresIn == resp.expiresIn
  {
    if resp.status != 200 then None
    else
      var scope := resp.scope.GetOr("");
      if !HasGmailScope(scope) then None
      else Some(TokenInfo(token, resp.email.GetOr(""), scope, resp.expiresIn, "Bearer"))
  }

  /** The access token handed to the server framework. */
  datatype AccessToken = AccessToken(
    token: string, clientId: string, scopes: seq<string>, expiresAt: Option<int>, resource: string)

  /** `verify_token`: the validated token as an access token of the fixed client, its email as the resource. */
  function VerifyToken(token: string, info: Option<TokenInfo>): (r: Option<AccessToken>)
    ensures r.Some? <==> info.Some?
    ensures r.Some? ==> r.value.token == token && r.value.clientId == "gmail_client"
    ensures r.Some? ==> r.value.scopes == Scopes(info.value.scope) && r.value.resource == info.value.email
    ensures r.Some? ==> r.value.expiresAt == info.value.expiresIn
  {
    match info
    case None => None
    case Some(i) => Some(AccessToken(token, "gmail_client", Scopes(i.scope), i.expiresIn, i.email))
  }

  /** Every token the verifier accepts carries at least one scope, and it is for the mail service. */
  lemma VerifiedTokensHaveScopes(token: string, resp: TokenResponse)
    requires VerifyToken(token, ValidateToken(token, resp)).Some?
    ensures VerifyToken(token, ValidateToken(token, resp)).value.scopes != []
    ensures HasGmailScope(resp.scope.GetOr(""))
  {
    GmailScopeNotEmpty(resp.scope.GetOr(""));
  }
}
