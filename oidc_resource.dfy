/** The resource-server side of an OAuth 2.0 bearer token check (RFC 6750)
    with DPoP proof-of-possession (RFC 9449), as the ulfius callback of the
    Glewlwyd OIDC resource helper performs it.

    Everything the JOSE and crypto libraries compute (JWT parsing, signature
    verification, key lookup, the SHA-256 access-token hash, the JWK
    thumbprint) is an input: `JwtVerification` for the access token and
    `DpopProof` for the DPoP proof describe what those libraries report. */
module OidcResource {
  import opened Wrappers
  import opened Text
  import opened JsonModel

  // ---------------------------------------------------------------------------
  // Result codes and constant texts

  /* The G_TOKEN_* result codes. Their numeric values are defined in
     oidc_resource.h, which is not part of this model; the model only needs
     them to be distinct. */
  const TOKEN_OK: int := 0
  const TOKEN_ERROR: int := 1
  const TOKEN_ERROR_INTERNAL: int := 2
  const TOKEN_ERROR_INVALID_REQUEST: int := 3
  const TOKEN_ERROR_INVALID_TOKEN: int := 4
  const TOKEN_ERROR_INSUFFICIENT_SCOPE: int := 5

  /** Authorization header prefixes: RFC 6750 section 2.1 and RFC 9449 section 7.1. */
  const BEARER_PREFIX: string := "Bearer "
  const DPOP_PREFIX: string := "DPoP "
  /** The content type a form-encoded body must carry (RFC 6750 section 2.2). */
  const FORM_URLENCODED: string := "application/x-www-form-urlencoded"
  /** The media type RFC 9449 section 4.2 prescribes for a DPoP proof's `typ`. */
  const DPOP_TYP: string := "dpop+jwt"

  /** `o_strnullempty`: NULL or the empty string (also `o_strlen(s) == 0`). */
  predicate NullOrEmpty(s: Option<string>) {
    s.None? || s.value == ""
  }

  // ---------------------------------------------------------------------------
  // check_result_value and the result objects built with json_pack

  /** `check_result_value`: `result` is an object whose "result" member is the
      integer `value`. */
  predicate CheckResultValue(result: Option<Json>, value: int) {
    && result.Some?
    && result.value.JObject?
    && "result" in result.value.members
    && result.value.members["result"].JInteger?
    && result.value.members["result"].i == value
  }

  /** `json_pack("{si}", "result", code)`. */
  function ResultObject(code: int): Json {
    JObject(map["result" := JInteger(code)])
  }

  /** `json_pack("{sisO}", "result", code, key, value)`: jansson refuses to pack
      a NULL "O" argument, so the whole result is NULL then. */
  function ResultWith(code: int, key: string, value: Option<Json>): Option<Json>
    requires key != "result"
  {
    if value.None? then None else Some(JObject(map["result" := JInteger(code), key := value.value]))
  }

  /** What `check_result_value` reads back from the objects the helpers build:
      the packed code and nothing else, and never a code from a NULL result. */
  lemma PackedResultChecks(code: int, v: int, key: string, value: Option<Json>)
    requires key != "result"
    ensures CheckResultValue(Some(ResultObject(code)), v) <==> code == v
    ensures CheckResultValue(ResultWith(code, key, value), v) <==> value.Some? && code == v
    ensures value.Some? ==> Get(ResultWith(code, key, value), key) == value
    ensures !CheckResultValue(None, v)
  {
  }

  /** A result object carries at most one code, so the callback's tests of one
      object against different codes exclude each other. */
  lemma CheckResultValueUnique(result: Option<Json>, v: int, w: int)
    requires CheckResultValue(result, v) && CheckResultValue(result, w)
    ensures v == w
  {
  }

  // ---------------------------------------------------------------------------
  // Configuration and request

  /** Where the access token is looked for (RFC 6750 sections 2.1, 2.2, 2.3). */
  datatype TokenMethod = HeaderMethod | BodyMethod | UrlMethod

  /** The fields of `struct _oidc_resource_config` the decisions read. */
  datatype Config = Config(
    tokenMethod: TokenMethod,
    oauthScope: Option<string>,
    realm: Option<string>,
    acceptAccessToken: bool,
    acceptClientToken: bool,
    htm: Option<string>,
    htu: Option<string>,
    maxIat: int)

  /** The parts of the HTTP request the callback reads: the Authorization and
      DPoP header values, the Content-Type, and the `access_token` parameter of
      the form body and of the URL query. */
  datatype Request = Request(
    authorization: Option<string>,
    dpop: Option<string>,
    contentType: Option<string>,
    bodyAccessToken: Option<string>,
    urlAccessToken: Option<string>)

  // ---------------------------------------------------------------------------
  // Token extraction

  /** The extracted token value and whether it came with the DPoP scheme. */
  datatype Extracted = Extracted(token: Option<string>, isDpop: bool)

  /** The `switch (config->method)` of the callback. */
  function ExtractToken(tokenMethod: TokenMethod, request: Request): (e: Extracted)
    ensures e.isDpop ==> tokenMethod == HeaderMethod && e.token.Some?
  {
    match tokenMethod
    case HeaderMethod =>
      if request.authorization.None? then Extracted(None, false)
      else if IsPrefix(BEARER_PREFIX, request.authorization.value) then
        Extracted(Some(request.authorization.value[|BEARER_PREFIX|..]), false)
      else if IsPrefix(DPOP_PREFIX, request.authorization.value) then
        Extracted(Some(request.authorization.value[|DPOP_PREFIX|..]), true)
      else Extracted(None, false)
    case BodyMethod =>
      if request.contentType.Some? && Contains(request.contentType.value, FORM_URLENCODED)
         && request.bodyAccessToken.Some?
      then Extracted(request.bodyAccessToken, false)
      else Extracted(None, false)
    case UrlMethod =>
      Extracted(request.urlAccessToken, false)
  }

  /** With the header method, a token is found exactly when the Authorization
      value starts with one of the two scheme prefixes; the token is what
      follows the prefix, and the DPoP flag says which prefix it was. */
  lemma HeaderExtraction(request: Request)
    ensures var e := ExtractToken(HeaderMethod, request);
      && (e.token.Some? <==>
            request.authorization.Some?
            && (IsPrefix(BEARER_PREFIX, request.authorization.value)
                || IsPrefix(DPOP_PREFIX, request.authorization.value)))
      && (e.isDpop <==>
            request.authorization.Some? && IsPrefix(DPOP_PREFIX, request.authorization.value))
      && (e.token.Some? ==>
            (if e.isDpop then DPOP_PREFIX else BEARER_PREFIX) + e.token.value == request.authorization.value)
  {
    if request.authorization.Some? {
      var a := request.authorization.value;
      if IsPrefix(DPOP_PREFIX, a) {
        assert a[0] == 'D';
        assert !IsPrefix(BEARER_PREFIX, a);
        assert DPOP_PREFIX + a[|DPOP_PREFIX|..] == a;
      } else if IsPrefix(BEARER_PREFIX, a) {
        assert BEARER_PREFIX + a[|BEARER_PREFIX|..] == a;
      }
    }
  }

  /** The header method returns exactly the token a client put after either
      scheme prefix. */
  lemma AuthorizationRoundTrip(request: Request, token: string)
    ensures ExtractToken(HeaderMethod, request.(authorization := Some(BEARER_PREFIX + token)))
            == Extracted(Some(token), false)
    ensures ExtractToken(HeaderMethod, request.(authorization := Some(DPOP_PREFIX + token)))
            == Extracted(Some(token), true)
  {
    var b := BEARER_PREFIX + token;
    assert b[..|BEARER_PREFIX|] == BEARER_PREFIX;
    assert b[|BEARER_PREFIX|..] == token;
    var d := DPOP_PREFIX + token;
    assert d[0] == 'D';
    assert d[..|DPOP_PREFIX|] == DPOP_PREFIX;
    assert d[|DPOP_PREFIX|..] == token;
  }

  /** The body method finds a token only in a form-encoded body that carries
      the parameter, and never marks it as DPoP; the URL method returns the
      query parameter as it is. */
  lemma BodyAndUrlExtraction(request: Request)
    ensures var e := ExtractToken(BodyMethod, request);
      && !e.isDpop
      && (e.token.Some? <==>
            request.contentType.Some? && Contains(request.contentType.value, FORM_URLENCODED)
            && request.bodyAccessToken.Some?)
      && (e.token.Some? ==> e.token == request.bodyAccessToken)
    ensures ExtractToken(UrlMethod, request) == Extracted(request.urlAccessToken, false)
  {
  }

  // ---------------------------------------------------------------------------
  // access_token_check_signature (library decisions as inputs)

  /** What the JOSE library reports about the access token: whether it parses
      as a JWT, whether a public key was found (by `kid`, or the first key of
      the set when the token has none), whether the signature verifies with
      it, and the claims it carries. */
  datatype JwtVerification = JwtVerification(
    parsed: bool,
    keyFound: bool,
    signatureValid: bool,
    claims: Option<Json>)

  function CheckSignature(token: Option<string>, jwt: JwtVerification): (r: Option<Json>)
    ensures CheckResultValue(r, TOKEN_OK) <==>
              token.Some? && jwt.parsed && jwt.keyFound && jwt.signatureValid && jwt.claims.Some?
    ensures CheckResultValue(r, TOKEN_OK) ==> Get(r, "grants") == jwt.claims
    ensures r.None? <==> token.Some? && jwt.parsed && !jwt.keyFound
  {
    if token.None? then Some(ResultObject(TOKEN_ERROR_INVALID_TOKEN))
    else if !jwt.parsed then Some(ResultObject(TOKEN_ERROR_INVALID_TOKEN))
    else if !jwt.keyFound then None
    else if jwt.signatureValid then
      (if jwt.claims.Some? then ResultWith(TOKEN_OK, "grants", jwt.claims)
       else Some(ResultObject(TOKEN_ERROR)))
    else Some(ResultObject(TOKEN_ERROR_INVALID_TOKEN))
  }

  // ---------------------------------------------------------------------------
  // access_token_check_validity

  /** An access token for a user: accepted by configuration, `type` is
      "access_token" and `sub` is a non-empty string. */
  predicate AcceptedAsAccessToken(config: Config, grants: Option<Json>) {
    && config.acceptAccessToken
    && StringValue(Get(grants, "type")) == Some("access_token")
    && !NullOrEmpty(StringValue(Get(grants, "sub")))
  }

  /** A client token: accepted by configuration, `type` is "client_token" and
      `aud` is a non-empty string. */
  predicate AcceptedAsClientToken(config: Config, grants: Option<Json>) {
    && config.acceptClientToken
    && StringValue(Get(grants, "type")) == Some("client_token")
    && !NullOrEmpty(StringValue(Get(grants, "aud")))
  }

  /** `now` is the clock reading the source takes with `time(&now)`. */
  function CheckValidity(config: Config, grants: Option<Json>, now: int): (r: int)
    ensures r == TOKEN_ERROR_INVALID_TOKEN <==> grants.None?
    ensures r == TOKEN_OK <==>
              && grants.Some?
              && now < IntegerValue(Get(grants, "exp"))
              && StringValue(Get(grants, "type")).Some?
              && (AcceptedAsAccessToken(config, grants) || AcceptedAsClientToken(config, grants))
    ensures r == TOKEN_OK || r == TOKEN_ERROR_INVALID_REQUEST || r == TOKEN_ERROR_INVALID_TOKEN
  {
    if grants.Some? then
      var expiration := IntegerValue(Get(grants, "exp"));
      var typ := Get(grants, "type");
      if now < expiration && typ.Some? && typ.value.JString? then
        var sub := StringValue(Get(grants, "sub"));
        var aud := StringValue(Get(grants, "aud"));
        if config.acceptAccessToken && StringValue(typ) == Some("access_token") && !NullOrEmpty(sub) then
          TOKEN_OK
        else if config.acceptClientToken && StringValue(typ) == Some("client_token") && !NullOrEmpty(aud) then
          TOKEN_OK
        else
          TOKEN_ERROR_INVALID_REQUEST
      else
        TOKEN_ERROR_INVALID_REQUEST
    else
      TOKEN_ERROR_INVALID_TOKEN
  }

  // ---------------------------------------------------------------------------
  // access_token_check_scope

  /** The configured scopes, in configured order, that also occur among the
      token's scopes. */
  function Granted(expected: seq<string>, token: seq<string>): seq<string>
    decreases |expected|
  {
    if expected == [] then []
    else
      var last := expected[|expected| - 1];
      Granted(expected[..|expected| - 1], token) + (if last in token then [last] else [])
  }

  /** A scope is granted exactly when it is both configured and in the token. */
  lemma {:induction false} GrantedMembership(expected: seq<string>, token: seq<string>, x: string)
    ensures x in Granted(expected, token) <==> x in expected && x in token
    decreases |expected|
  {
    if expected != [] {
      var init := expected[..|expected| - 1];
      GrantedMembership(init, token, x);
      assert expected == init + [expected[|expected| - 1]];
    }
  }

  /** Granting works piece by piece, which keeps the configured order: the
      grant of a concatenation is the concatenation of the grants. */
  lemma {:induction false} GrantedConcat(a: seq<string>, b: seq<string>, token: seq<string>)
    ensures Granted(a + b, token) == Granted(a, token) + Granted(b, token)
    decreases |b|
  {
    if b == [] {
      assert a + b == a;
    } else {
      var init := b[..|b| - 1];
      var last := b[|b| - 1];
      GrantedConcat(a, init, token);
      assert (a + b)[..|a + b| - 1] == a + init;
      assert (a + b)[|a + b| - 1] == last;
    }
  }

  /** `split_string` on a scope claim: no pieces at all when the claim is not a
      string (NULL), otherwise the space-separated pieces. */
  function ScopeList(scope: Option<string>): seq<string> {
    if scope.None? then [] else Split(scope.value, ' ')
  }

  /** The result object `access_token_check_scope` returns, stated as a
      function; `CheckScope` computes it with the source's loop. */
  function ScopeCheck(config: Config, grants: Option<Json>): (r: Option<Json>)
    ensures r.None? <==> grants.Some? && NullOrEmpty(config.oauthScope) && Get(grants, "scope").None?
  {
    if grants.None? then Some(ResultObject(TOKEN_ERROR_INVALID_TOKEN))
    else if NullOrEmpty(config.oauthScope) then ResultWith(TOKEN_OK, "scope", Get(grants, "scope"))
    else
      var token := ScopeList(StringValue(Get(grants, "scope")));
      var expected := Split(config.oauthScope.value, ' ');
      if |token| > 0 && |expected| > 0 then
        var granted := Granted(expected, token);
        if |granted| > 0 then
          Some(JObject(map["result" := JInteger(TOKEN_OK), "scope" := JArray(Strings(granted))]))
        else
          Some(ResultObject(TOKEN_ERROR_INSUFFICIENT_SCOPE))
      else
        Some(ResultObject(TOKEN_ERROR_INTERNAL))
  }

  /** The outcomes of the scope check. With scopes configured and a scope claim
      present, the check succeeds exactly when some configured scope is in the
      token, and then reports the granted list; otherwise the scope is
      insufficient. A missing claim is an internal error, no configured scope
      passes the claim through, and no token is an invalid token. */
  lemma ScopeCheckOutcome(config: Config, grants: Option<Json>)
    ensures grants.None? ==> CheckResultValue(ScopeCheck(config, grants), TOKEN_ERROR_INVALID_TOKEN)
    ensures grants.Some? && NullOrEmpty(config.oauthScope) ==>
              && (CheckResultValue(ScopeCheck(config, grants), TOKEN_OK) <==> Get(grants, "scope").Some?)
              && Get(ScopeCheck(config, grants), "scope") == Get(grants, "scope")
    ensures grants.Some? && !NullOrEmpty(config.oauthScope) && StringValue(Get(grants, "scope")).None? ==>
              CheckResultValue(ScopeCheck(config, grants), TOKEN_ERROR_INTERNAL)
    ensures grants.Some? && !NullOrEmpty(config.oauthScope) && StringValue(Get(grants, "scope")).Some? ==>
              var expected := Split(config.oauthScope.value, ' ');
              var token := Split(StringValue(Get(grants, "scope")).value, ' ');
              var r := ScopeCheck(config, grants);
              && (CheckResultValue(r, TOKEN_OK) <==> exists x :: x in expected && x in token)
              && (CheckResultValue(r, TOKEN_ERROR_INSUFFICIENT_SCOPE) <==> !CheckResultValue(r, TOKEN_OK))
              && (CheckResultValue(r, TOKEN_OK) ==> Get(r, "scope") == Some(JArray(Strings(Granted(expected, token)))))
  {
    if grants.Some? && !NullOrEmpty(config.oauthScope) && StringValue(Get(grants, "scope")).Some? {
      var expected := Split(config.oauthScope.value, ' ');
      var token := Split(StringValue(Get(grants, "scope")).value, ' ');
      var granted := Granted(expected, token);
      if |granted| > 0 {
        GrantedMembership(expected, token, granted[0]);
      } else {
        forall x | x in expected && x in token ensures false {
          GrantedMembership(expected, token, x);
        }
      }
    }
  }

  /** `access_token_check_scope`, with the loop that appends each configured
      scope found in the token to the final list. */
  method CheckScope(config: Config, grants: Option<Json>) returns (r: Option<Json>)
    ensures r == ScopeCheck(config, grants)
  {
    if grants.Some? {
      var tokenList := ScopeList(StringValue(Get(grants, "scope")));
      if !NullOrEmpty(config.oauthScope) {
        var expected := Split(config.oauthScope.value, ' ');
        if |tokenList| > 0 && |expected| > 0 {
          var finalList: seq<Json> := [];
          var i := 0;
          while i < |expected|
            invariant 0 <= i <= |expected|
            invariant finalList == Strings(Granted(expected[..i], tokenList))
          {
            assert expected[..i + 1][..i] == expected[..i];
            if expected[i] in tokenList {
              finalList := finalList + [JString(expected[i])];
            }
            i := i + 1;
          }
          assert expected[..|expected|] == expected;
          if |finalList| > 0 {
            r := Some(JObject(map["result" := JInteger(TOKEN_OK), "scope" := JArray(finalList)]));
          } else {
            r := Some(ResultObject(TOKEN_ERROR_INSUFFICIENT_SCOPE));
          }
        } else {
          r := Some(ResultObject(TOKEN_ERROR_INTERNAL));
        }
      } else {
        r := ResultWith(TOKEN_OK, "scope", Get(grants, "scope"));
      }
    } else {
      r := Some(ResultObject(TOKEN_ERROR_INVALID_TOKEN));
    }
  }

  // ---------------------------------------------------------------------------
  // verify_dpop_proof

  /** JWS algorithms the JOSE library distinguishes. */
  datatype JwaAlg =
    | AlgNone | HS256 | HS384 | HS512
    | RS256 | RS384 | RS512 | ES256 | ES384 | ES512
    | PS256 | PS384 | PS512 | EdDSA | ES256K | AlgUnknown

  /** The asymmetric algorithms a DPoP proof may be signed with. */
  predicate AllowedDpopAlg(alg: JwaAlg) {
    alg.RS256? || alg.RS384? || alg.RS512? || alg.ES256? || alg.ES384? || alg.ES512?
    || alg.PS256? || alg.PS384? || alg.PS512? || alg.EdDSA? || alg.ES256K?
  }

  /** What the JOSE and crypto libraries report about the DPoP header value:
      each library step's success, the proof's `typ` and algorithm, its full
      header and claims (NULL when the library cannot produce them), the
      base64url SHA-256 hash of the access token, and the thumbprint of the
      key embedded in the header (NULL when it cannot be computed). */
  datatype DpopProof = DpopProof(
    initialised: bool,
    parsed: bool,
    signatureValid: bool,
    typ: Option<string>,
    alg: JwaAlg,
    header: Option<Json>,
    claims: Option<Json>,
    jwkInitialised: bool,
    jwkImported: bool,
    hashed: bool,
    encoded: bool,
    computedAth: string,
    thumbprint: Option<string>)

  /** The arguments of `verify_dpop_proof`, with the clock reading `now`. */
  datatype DpopContext = DpopContext(
    dpopHeader: Option<string>,
    accessToken: Option<string>,
    htm: Option<string>,
    htu: Option<string>,
    maxIat: int,
    jkt: Option<string>,
    now: int)

  /** The guard on the arguments: all present, `max_iat` non-zero, `jkt`
      non-empty. */
  predicate DpopInputsPresent(c: DpopContext) {
    c.dpopHeader.Some? && c.accessToken.Some? && c.htm.Some? && c.htu.Some?
    && c.maxIat != 0 && !NullOrEmpty(c.jkt)
  }

  /** A string claim of the proof (`r_jwt_get_claim_str_value`). */
  function Claim(p: DpopProof, name: string): Option<string> {
    StringValue(Get(p.claims, name))
  }

  /** The proof was issued no later than now and no longer than `max_iat` ago. */
  predicate IatInWindow(c: DpopContext, p: DpopProof) {
    var iat := IntegerValue(Get(p.claims, "iat"));
    iat <= c.now && iat + c.maxIat >= c.now
  }

  /** The typ test as written at line 314: the proof is refused when its `typ`
      CONTAINS "dpop+jwt" (a NULL `typ` passes). */
  predicate TypRejectedAsWritten(typ: Option<string>) {
    typ.Some? && Contains(typ.value, DPOP_TYP)
  }

  /** The typ test RFC 9449 section 4.3 requires: refused unless `typ` is
      exactly "dpop+jwt". */
  predicate TypRejected(typ: Option<string>) {
    typ != Some(DPOP_TYP)
  }

  /** The code of the result `verify_dpop_proof` returns: the argument guard,
      the three library steps, then the `do { ... } while (0)` chain, whose
      first failing test decides. The typ test's outcome is a parameter so that
      the chain is written once for the code as written and for the
      corrected test. */
  function DpopCode(c: DpopContext, p: DpopProof, typRejected: bool): (r: int)
    ensures r == TOKEN_OK || r == TOKEN_ERROR_INVALID_REQUEST
            || r == TOKEN_ERROR_INTERNAL || r == TOKEN_ERROR_INVALID_TOKEN
    ensures !DpopInputsPresent(c) ==> r == TOKEN_ERROR_INVALID_REQUEST
    ensures typRejected && DpopInputsPresent(c) && p.initialised && p.parsed && p.signatureValid ==>
              r == TOKEN_ERROR_INVALID_TOKEN
  {
    if !DpopInputsPresent(c) then TOKEN_ERROR_INVALID_REQUEST
    else if !p.initialised then TOKEN_ERROR_INTERNAL
    else if !p.parsed then TOKEN_ERROR_INVALID_TOKEN
    else if !p.signatureValid then TOKEN_ERROR_INVALID_REQUEST
    else if typRejected then TOKEN_ERROR_INVALID_TOKEN
    else if !AllowedDpopAlg(p.alg) then TOKEN_ERROR_INVALID_TOKEN
    else if p.header.None? then TOKEN_ERROR_INTERNAL
    else if p.claims.None? then TOKEN_ERROR_INTERNAL
    else if Get(p.header, "x5c").Some? || Get(p.header, "x5u").Some? then TOKEN_ERROR_INVALID_TOKEN
    else if !p.jwkInitialised then TOKEN_ERROR_INTERNAL
    else if !p.jwkImported then TOKEN_ERROR_INVALID_TOKEN
    else if NullOrEmpty(Claim(p, "jti")) then TOKEN_ERROR_INVALID_TOKEN
    else if c.htm != Claim(p, "htm") then TOKEN_ERROR_INVALID_TOKEN
    else if c.htu != Claim(p, "htu") then TOKEN_ERROR_INVALID_TOKEN
    else if !IatInWindow(c, p) then TOKEN_ERROR_INVALID_TOKEN
    else if !p.hashed then TOKEN_ERROR_INTERNAL
    else if !p.encoded then TOKEN_ERROR_INTERNAL
    else if Some(p.computedAth) != Claim(p, "ath") then TOKEN_ERROR_INVALID_TOKEN
    else if p.thumbprint.None? then TOKEN_ERROR_INTERNAL
    else if c.jkt != p.thumbprint then TOKEN_ERROR_INVALID_TOKEN
    else TOKEN_OK
  }

  /** The result object: `{"result": code}`, with the proof's header and
      claims attached on success. */
  function DpopResult(code: int, p: DpopProof): Json {
    if code == TOKEN_OK then
      JObject(map["result" := JInteger(code)]
              + (if p.header.Some? then map["header" := p.header.value] else map[])
              + (if p.claims.Some? then map["claims" := p.claims.value] else map[]))
    else ResultObject(code)
  }

  /** `check_result_value` reads back exactly the code of the chain. */
  lemma DpopResultCode(code: int, p: DpopProof, v: int)
    ensures CheckResultValue(Some(DpopResult(code, p)), v) <==> code == v
  {
  }

  /** `verify_dpop_proof` as written, with the inverted typ test. */
  function VerifyDpopProofAsWritten(c: DpopContext, p: DpopProof): (r: Json)
    ensures p.typ == Some(DPOP_TYP) ==> !CheckResultValue(Some(r), TOKEN_OK)
  {
    ContainsSelf(DPOP_TYP);
    DpopResult(DpopCode(c, p, TypRejectedAsWritten(p.typ)), p)
  }

  /** `verify_dpop_proof` with the typ test RFC 9449 section 4.3 requires; the
      callback below uses this one. */
  function VerifyDpopProof(c: DpopContext, p: DpopProof): (r: Json)
    ensures CheckResultValue(Some(r), TOKEN_OK) ==> p.typ == Some(DPOP_TYP)
  {
    DpopResult(DpopCode(c, p, TypRejected(p.typ)), p)
  }

  /** A proof verifies exactly when every check of RFC 9449 section 4.3 the
      source performs passes, and the key it was signed with is the one the
      access token is bound to (`cnf.jkt`, section 6.1). */
  lemma DpopAcceptance(c: DpopContext, p: DpopProof)
    ensures CheckResultValue(Some(VerifyDpopProof(c, p)), TOKEN_OK) <==>
      && DpopInputsPresent(c)
      && p.initialised && p.parsed && p.signatureValid
      && p.typ == Some(DPOP_TYP)
      && AllowedDpopAlg(p.alg)
      && p.header.Some? && p.claims.Some?
      && Get(p.header, "x5c").None? && Get(p.header, "x5u").None?
      && p.jwkInitialised && p.jwkImported
      && !NullOrEmpty(Claim(p, "jti"))
      && c.htm == Claim(p, "htm") && c.htu == Claim(p, "htu")
      && IatInWindow(c, p)
      && p.hashed && p.encoded && Claim(p, "ath") == Some(p.computedAth)
      && p.thumbprint.Some? && c.jkt == p.thumbprint
  {
    DpopResultCode(DpopCode(c, p, TypRejected(p.typ)), p, TOKEN_OK);
  }

  /** The ways a check of the chain can fail, and the code each reports. */
  datatype Failure = InvalidRequest | Internal | InvalidToken

  function FailureCode(f: Failure): int {
    match f
    case InvalidRequest => TOKEN_ERROR_INVALID_REQUEST
    case Internal => TOKEN_ERROR_INTERNAL
    case InvalidToken => TOKEN_ERROR_INVALID_TOKEN
  }

  /** One test of the chain: whether it passes and how it fails when it does
      not. */
  datatype Check = Check(passes: bool, failure: Failure)

  /** The failure of the first check in `checks` from position `i` on that
      does not pass, if any. */
  function FirstFailureFrom(checks: seq<Check>, i: nat): Option<Failure>
    requires i <= |checks|
    decreases |checks| - i
  {
    if i == |checks| then None
    else if !checks[i].passes then Some(checks[i].failure)
    else FirstFailureFrom(checks, i + 1)
  }

  /** One step of the chain, as an equation the proof below can chain. */
  lemma FirstFailureStep(checks: seq<Check>, i: nat)
    requires i <= |checks|
    ensures FirstFailureFrom(checks, i) ==
              if i == |checks| then None
              else if !checks[i].passes then Some(checks[i].failure)
              else FirstFailureFrom(checks, i + 1)
  {
  }

  /** The code of a chain that stops at its first failure. */
  function ChainCode(checks: seq<Check>): int {
    var f := FirstFailureFrom(checks, 0);
    if f.None? then TOKEN_OK else FailureCode(f.value)
  }

  /** No check fails from position `i` on exactly when every check from `i`
      on passes; a reported failure is that of a check that does not pass,
      every check before it passing. */
  lemma {:induction false} FirstFailureFromSpec(checks: seq<Check>, i: nat)
    requires i <= |checks|
    ensures FirstFailureFrom(checks, i).None? <==> forall k :: i <= k < |checks| ==> checks[k].passes
    ensures FirstFailureFrom(checks, i).Some? ==>
              exists j :: i <= j < |checks| && !checks[j].passes
                          && checks[j].failure == FirstFailureFrom(checks, i).value
                          && forall k :: i <= k < j ==> checks[k].passes
    decreases |checks| - i
  {
    if i < |checks| {
      FirstFailureFromSpec(checks, i + 1);
    }
  }

  /** The checks of `verify_dpop_proof`, in the order the source runs them,
      each with the code it reports. */
  function DpopChecks(c: DpopContext, p: DpopProof, typRejected: bool): seq<Check> {
    [ Check(DpopInputsPresent(c), InvalidRequest),
      Check(p.initialised, Internal),
      Check(p.parsed, InvalidToken),
      Check(p.signatureValid, InvalidRequest),
      Check(!typRejected, InvalidToken),
      Check(AllowedDpopAlg(p.alg), InvalidToken),
      Check(p.header.Some?, Internal),
      Check(p.claims.Some?, Internal),
      Check(Get(p.header, "x5c").None? && Get(p.header, "x5u").None?, InvalidToken),
      Check(p.jwkInitialised, Internal),
      Check(p.jwkImported, InvalidToken),
      Check(!NullOrEmpty(Claim(p, "jti")), InvalidToken),
      Check(c.htm == Claim(p, "htm"), InvalidToken),
      Check(c.htu == Claim(p, "htu"), InvalidToken),
      Check(IatInWindow(c, p), InvalidToken),
      Check(p.hashed, Internal),
      Check(p.encoded, Internal),
      Check(Some(p.computedAth) == Claim(p, "ath"), InvalidToken),
      Check(p.thumbprint.Some?, Internal),
      Check(c.jkt == p.thumbprint, InvalidToken) ]
  }

  /** The chain reports the code of the first failing check of the ordered
      list, and succeeds only when the whole list passes. */
  lemma DpopCodeIsFirstFailure(c: DpopContext, p: DpopProof, typRejected: bool)
    ensures DpopCode(c, p, typRejected) == ChainCode(DpopChecks(c, p, typRejected))
    ensures DpopCode(c, p, typRejected) == TOKEN_OK <==>
              forall k :: 0 <= k < |DpopChecks(c, p, typRejected)| ==> DpopChecks(c, p, typRejected)[k].passes
  {
    var checks := DpopChecks(c, p, typRejected);
    FirstFailureStep(checks, 0);
    FirstFailureStep(checks, 1);
    FirstFailureStep(checks, 2);
    FirstFailureStep(checks, 3);
    FirstFailureStep(checks, 4);
    FirstFailureStep(checks, 5);
    FirstFailureStep(checks, 6);
    FirstFailureStep(checks, 7);
    FirstFailureStep(checks, 8);
    FirstFailureStep(checks, 9);
    FirstFailureStep(checks, 10);
    FirstFailureStep(checks, 11);
    FirstFailureStep(checks, 12);
    FirstFailureStep(checks, 13);
    FirstFailureStep(checks, 14);
    FirstFailureStep(checks, 15);
    FirstFailureStep(checks, 16);
    FirstFailureStep(checks, 17);
    FirstFailureStep(checks, 18);
    FirstFailureStep(checks, 19);
    FirstFailureStep(checks, 20);
    FirstFailureFromSpec(checks, 0);
  }

  /** As written, no proof whose `typ` is the value RFC 9449 requires can
      verify: once the arguments and the library steps succeed, it is refused
      as an invalid token at the typ test. */
  lemma AsWrittenRejectsCompliantTyp(c: DpopContext, p: DpopProof)
    requires p.typ == Some(DPOP_TYP)
    ensures !CheckResultValue(Some(VerifyDpopProofAsWritten(c, p)), TOKEN_OK)
    ensures DpopInputsPresent(c) && p.initialised && p.parsed && p.signatureValid ==>
              CheckResultValue(Some(VerifyDpopProofAsWritten(c, p)), TOKEN_ERROR_INVALID_TOKEN)
  {
    ContainsSelf(DPOP_TYP);
    DpopResultCode(DpopCode(c, p, TypRejectedAsWritten(p.typ)), p, TOKEN_OK);
    DpopResultCode(DpopCode(c, p, TypRejectedAsWritten(p.typ)), p, TOKEN_ERROR_INVALID_TOKEN);
  }

  /** A concrete proof that the corrected check accepts and the code as
      written refuses: a well-formed proof with `typ` "dpop+jwt". */
  lemma CompliantProofRefusedAsWritten()
    ensures var c := DpopContext(Some("proof"), Some("token"), Some("GET"), Some("https://rs/"), 60, Some("k"), 100);
            var claims := JObject(map["jti" := JString("1"), "htm" := JString("GET"),
                                      "htu" := JString("https://rs/"), "iat" := JInteger(90),
                                      "ath" := JString("h")]);
            var p := DpopProof(true, true, true, Some(DPOP_TYP), ES256, Some(JObject(map[])), Some(claims),
                               true, true, true, true, "h", Some("k"));
            && CheckResultValue(Some(VerifyDpopProof(c, p)), TOKEN_OK)
            && CheckResultValue(Some(VerifyDpopProofAsWritten(c, p)), TOKEN_ERROR_INVALID_TOKEN)
  {
    var c := DpopContext(Some("proof"), Some("token"), Some("GET"), Some("https://rs/"), 60, Some("k"), 100);
    var claims := JObject(map["jti" := JString("1"), "htm" := JString("GET"),
                              "htu" := JString("https://rs/"), "iat" := JInteger(90),
                              "ath" := JString("h")]);
    var p := DpopProof(true, true, true, Some(DPOP_TYP), ES256, Some(JObject(map[])), Some(claims),
                       true, true, true, true, "h", Some("k"));
    DpopAcceptance(c, p);
    AsWrittenRejectsCompliantTyp(c, p);
  }

  // ---------------------------------------------------------------------------
  // callback_check_glewlwyd_oidc_access_token

  /** The ulfius callback return codes. */
  datatype CallbackResult = Continue | Unauthorized | CallbackError

  /** The `WWW-Authenticate` value the callback sets (RFC 6750 section 3),
      always under the Bearer scheme, with `realm=<realm>,` only when a realm
      is configured. */
  function Challenge(realm: Option<string>, error: string, description: string): string {
    BEARER_PREFIX + (if realm.Some? then "realm=" + realm.value + "," else "")
    + "error=\"" + error + "\",error_description=\"" + description + "\""
  }

  /** A challenge starts with the Bearer scheme, names the realm right after it
      exactly when one is configured, and ends with the error and its
      description. */
  lemma ChallengeShape(realm: Option<string>, error: string, description: string)
    ensures var h := Challenge(realm, error, description);
      var tail := "error=\"" + error + "\",error_description=\"" + description + "\"";
      && IsPrefix(BEARER_PREFIX, h)
      && (IsPrefix(BEARER_PREFIX + "realm=", h) <==> realm.Some?)
      && (realm.Some? ==> IsPrefix(BEARER_PREFIX + "realm=" + realm.value + ",", h))
      && |tail| <= |h| && h[|h| - |tail|..] == tail
  {
    var h := Challenge(realm, error, description);
    var tail := "error=\"" + error + "\",error_description=\"" + description + "\"";
    var middle := if realm.Some? then "realm=" + realm.value + "," else "";
    assert h == BEARER_PREFIX + middle + tail;
    assert h[..|BEARER_PREFIX|] == BEARER_PREFIX;
    assert h[|h| - |tail|..] == tail;
    if realm.Some? {
      var pre := BEARER_PREFIX + "realm=" + realm.value + ",";
      assert h == pre + tail;
      assert h[..|pre|] == pre;
      assert h[..|BEARER_PREFIX + "realm="|] == BEARER_PREFIX + "realm=";
    } else {
      assert h == BEARER_PREFIX + tail;
      assert h[|BEARER_PREFIX|] == 'e';
    }
  }

  /** The `jkt` member of the token's `cnf` claim. */
  function CnfJkt(grants: Option<Json>): Option<Json> {
    Get(Get(grants, "cnf"), "jkt")
  }

  /** The arguments the callback passes to `verify_dpop_proof`. */
  function DpopContextFor(config: Config, request: Request, token: Option<string>, grants: Option<Json>, now: int): DpopContext {
    DpopContext(request.dpop, token, config.htm, config.htu, config.maxIat, StringValue(CnfJkt(grants)), now)
  }

  function OrNull(j: Option<Json>): Json {
    if j.Some? then j.value else JNull
  }

  /** The shared data handed to the protected endpoint: `sub` (null when not a
      string) and the granted `scope`, the bound `jkt` for a DPoP token, and
      `aud`, `client_id` and `claims` when the token has them. */
  function SharedData(grants: Option<Json>, scopeResult: Option<Json>, jkt: Option<Json>): Json {
    var sub := StringValue(Get(grants, "sub"));
    JObject(map["sub" := (if sub.Some? then JString(sub.value) else JNull),
                "scope" := OrNull(Get(scopeResult, "scope"))]
            + (if jkt.Some? then map["jkt" := jkt.value] else map[])
            + (if Get(grants, "aud").Some? then map["aud" := Get(grants, "aud").value] else map[])
            + (if Get(grants, "client_id").Some? then map["client_id" := Get(grants, "client_id").value] else map[])
            + (if Get(grants, "claims").Some? then map["claims" := Get(grants, "claims").value] else map[]))
  }

  /** The proof check the callback calls: `verify_dpop_proof` as written
      (`asWritten`), or with the typ test RFC 9449 requires. */
  function DpopVerdict(c: DpopContext, p: DpopProof, asWritten: bool): Json {
    if asWritten then VerifyDpopProofAsWritten(c, p) else VerifyDpopProof(c, p)
  }

  /** The request may go on: the token's signature, validity and scope all
      check out, and either it is a DPoP token whose proof verifies or it is a
      bearer token that is not bound to a key. */
  predicate Authorised(config: Config, request: Request, jwt: JwtVerification, proof: DpopProof, now: int, asWritten: bool) {
    var e := ExtractToken(config.tokenMethod, request);
    && e.token.Some?
    && jwt.parsed && jwt.keyFound && jwt.signatureValid && jwt.claims.Some?
    && CheckValidity(config, jwt.claims, now) == TOKEN_OK
    && CheckResultValue(ScopeCheck(config, jwt.claims), TOKEN_OK)
    && (if e.isDpop
        then CheckResultValue(Some(DpopVerdict(DpopContextFor(config, request, e.token, jwt.claims, now), proof, asWritten)), TOKEN_OK)
        else CnfJkt(jwt.claims).None?)
  }

  /** As written, the callback lets no DPoP token through whose proof carries
      the `typ` RFC 9449 prescribes, whatever else the token and proof hold. */
  lemma AsWrittenCallbackRefusesCompliantProof(config: Config, request: Request, jwt: JwtVerification,
                                               proof: DpopProof, now: int)
    requires ExtractToken(config.tokenMethod, request).isDpop && proof.typ == Some(DPOP_TYP)
    ensures !Authorised(config, request, jwt, proof, now, true)
  {
    var e := ExtractToken(config.tokenMethod, request);
    var c := DpopContextFor(config, request, e.token, jwt.claims, now);
    assert !CheckResultValue(Some(VerifyDpopProofAsWritten(c, proof)), TOKEN_OK);
  }

  /** The callback as written and the corrected one decide alike for bearer
      tokens, and for DPoP tokens whenever the two typ tests agree on the
      proof. */
  lemma CallbackVersionsAgree(config: Config, request: Request, jwt: JwtVerification,
                              proof: DpopProof, now: int)
    ensures !ExtractToken(config.tokenMethod, request).isDpop ==>
              (Authorised(config, request, jwt, proof, now, true) <==> Authorised(config, request, jwt, proof, now, false))
    ensures TypRejectedAsWritten(proof.typ) == TypRejected(proof.typ) ==>
              (Authorised(config, request, jwt, proof, now, true) <==> Authorised(config, request, jwt, proof, now, false))
  {
  }

  /** `callback_check_glewlwyd_oidc_access_token`. `now` is the clock reading
      (both `time` calls of the source are taken to read the same instant);
      `sharedDataStored` is whether ulfius accepted the shared data;
      `asWritten` selects `verify_dpop_proof` as written (true) or with the
      corrected typ test (false). Returns the callback code, the
      `WWW-Authenticate` value it sets, if any, and the shared data it
      stores, if any. */
  method CheckAccessToken(config: Option<Config>, request: Request, jwt: JwtVerification,
                          proof: DpopProof, now: int, sharedDataStored: bool, asWritten: bool)
    returns (res: CallbackResult, wwwAuthenticate: Option<string>, sharedData: Option<Json>)
    ensures config.None? ==> res == Unauthorized && wwwAuthenticate.None? && sharedData.None?
    ensures config.Some? ==>
              (res == Continue <==> Authorised(config.value, request, jwt, proof, now, asWritten) && sharedDataStored)
    ensures config.Some? ==>
              (res == CallbackError <==> Authorised(config.value, request, jwt, proof, now, asWritten) && !sharedDataStored)
    ensures wwwAuthenticate.Some? <==> config.Some? && !Authorised(config.value, request, jwt, proof, now, asWritten)
    ensures res == Continue ==>
              var e := ExtractToken(config.value.tokenMethod, request);
              sharedData == Some(SharedData(jwt.claims, ScopeCheck(config.value, jwt.claims),
                                            if e.isDpop then CnfJkt(jwt.claims) else None))
    ensures res != Continue ==> sharedData.None?
    // Which error the challenge names.
    ensures config.Some? ==>
              var cfg := config.value;
              var e := ExtractToken(cfg.tokenMethod, request);
              var signed := jwt.parsed && jwt.keyFound && jwt.signatureValid && jwt.claims.Some?;
              var valid := signed && CheckValidity(cfg, jwt.claims, now) == TOKEN_OK;
              var scope := ScopeCheck(cfg, jwt.claims);
              var scoped := e.token.Some? && valid && CheckResultValue(scope, TOKEN_OK);
              var dpop := DpopVerdict(DpopContextFor(cfg, request, e.token, jwt.claims, now), proof, asWritten);
              && (e.token.None? ==>
                    wwwAuthenticate == Some(Challenge(cfg.realm, "invalid_token", "The access token is missing")))
              && (e.token.Some? && !valid ==>
                    wwwAuthenticate == Some(Challenge(cfg.realm, "invalid_request", "The access token is invalid")))
              && (e.token.Some? && valid && CheckResultValue(scope, TOKEN_ERROR_INSUFFICIENT_SCOPE) ==>
                    wwwAuthenticate == Some(Challenge(cfg.realm, "insufficient_scope", "The scope is invalid")))
              && (e.token.Some? && valid && !CheckResultValue(scope, TOKEN_ERROR_INSUFFICIENT_SCOPE)
                  && !CheckResultValue(scope, TOKEN_OK) ==>
                    wwwAuthenticate == Some(Challenge(cfg.realm, "invalid_request", "Internal server error")))
              && (scoped && !e.isDpop && CnfJkt(jwt.claims).Some? ==>
                    wwwAuthenticate == Some(Challenge(cfg.realm, "invalid_request", "DPoP required")))
              && (scoped && e.isDpop && CheckResultValue(Some(dpop), TOKEN_ERROR_INVALID_TOKEN) ==>
                    wwwAuthenticate == Some(Challenge(cfg.realm, "invalid_request", "The access token is invalid")))
              && (scoped && e.isDpop && !CheckResultValue(Some(dpop), TOKEN_OK)
                  && !CheckResultValue(Some(dpop), TOKEN_ERROR_INVALID_TOKEN) ==>
                    wwwAuthenticate == Some(Challenge(cfg.realm, "invalid_request", "Internal server error")))
  {
    res, wwwAuthenticate, sharedData := Unauthorized, None, None;
    if config.Some? {
      var cfg := config.value;
      var extracted := ExtractToken(cfg.tokenMethod, request);
      var tokenValue, isDpop := extracted.token, extracted.isDpop;
      if tokenValue.Some? {
        var accessToken := CheckSignature(tokenValue, jwt);
        if CheckResultValue(accessToken, TOKEN_OK) {
          var grants := Get(accessToken, "grants");
          var validity := CheckValidity(cfg, grants, now);
          if validity == TOKEN_OK {
            var scopeResult := CheckScope(cfg, grants);
            if CheckResultValue(scopeResult, TOKEN_ERROR_INSUFFICIENT_SCOPE) {
              wwwAuthenticate := Some(Challenge(cfg.realm, "insufficient_scope", "The scope is invalid"));
            } else if !CheckResultValue(scopeResult, TOKEN_OK) {
              wwwAuthenticate := Some(Challenge(cfg.realm, "invalid_request", "Internal server error"));
            } else if isDpop {
              var checkDpop := DpopVerdict(DpopContextFor(cfg, request, tokenValue, grants, now), proof, asWritten);
              if CheckResultValue(Some(checkDpop), TOKEN_OK) {
                if sharedDataStored {
                  res := Continue;
                  sharedData := Some(SharedData(grants, scopeResult, CnfJkt(grants)));
                } else {
                  res := CallbackError;
                }
              } else if CheckResultValue(Some(checkDpop), TOKEN_ERROR_INVALID_TOKEN) {
                wwwAuthenticate := Some(Challenge(cfg.realm, "invalid_request", "The access token is invalid"));
              } else {
                wwwAuthenticate := Some(Challenge(cfg.realm, "invalid_request", "Internal server error"));
              }
            } else {
              if CnfJkt(grants).None? {
                if sharedDataStored {
                  res := Continue;
                  sharedData := Some(SharedData(grants, scopeResult, None));
                } else {
                  res := CallbackError;
                }
              } else {
                wwwAuthenticate := Some(Challenge(cfg.realm, "invalid_request", "DPoP required"));
              }
            }
          } else if validity == TOKEN_ERROR_INVALID_TOKEN || validity == TOKEN_ERROR_INVALID_REQUEST {
            wwwAuthenticate := Some(Challenge(cfg.realm, "invalid_request", "The access token is invalid"));
          } else {
            wwwAuthenticate := Some(Challenge(cfg.realm, "invalid_request", "Internal server error"));
          }
        } else {
          wwwAuthenticate := Some(Challenge(cfg.realm, "invalid_request", "The access token is invalid"));
        }
      } else {
        wwwAuthenticate := Some(Challenge(cfg.realm, "invalid_token", "The access token is missing"));
      }
    }
  }
}
