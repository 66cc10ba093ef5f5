/** The authorization-code and token store of the Hub (ingress/oauth.rs). Hashes are taken
    as injective, so codes and tokens are their own keys. */
module OAuthStore {
  import opened Text

  const NANOS_PER_SECOND := 1_000_000_000
  const CODE_TTL := 600 * NANOS_PER_SECOND
  const TOKEN_TTL := 7 * 24 * 60 * 60 * NANOS_PER_SECOND
  const OAUTH_SCOPE := "agentic:mcp"
  const AUTHORIZATION_CODE := "authorization_code"

  datatype Code = Code(clientId: string, redirectUri: string, challenge: string, scope: string,
                       resource: Option<string>, expiresAt: int)

  datatype Store = Store(codes: map<string, Code>, tokens: map<string, int>)

  const EMPTY_STORE := Store(map[], map[])

  /** A URL as far as the redirect check looks. */
  datatype Url = Url(scheme: string, host: Option<string>, path: string)

  /** What the Hub is set up with; URL parsing and the S256 digest are left open. */
  datatype Config = Config(apiKey: string, mcpResource: string, parseUrl: string -> Option<Url>, s256: string -> string)

  predicate RedirectAllowed(config: Config, uri: string) {
    match config.parseUrl(uri)
    case None => false
    case Some(url) =>
      && url.scheme == "https" && url.host == Some("chatgpt.com")
      && (StartsWith(url.path, "/connector/oauth/") || url.path == "/connector_platform_oauth_redirect")
  }

  datatype AuthorizeForm = AuthorizeForm(
    apiKey: string, responseType: Option<string>, clientId: Option<string>, redirectUri: Option<string>,
    scope: Option<string>, challenge: Option<string>, challengeMethod: Option<string>, resource: Option<string>)

  datatype AuthorizeResult = Rejected | WrongKey | Issued

  predicate FormIsValid(config: Config, form: AuthorizeForm) {
    && form.responseType == Some("code")
    && form.clientId.Some? && Trim(form.clientId.value) != ""
    && form.redirectUri.Some? && RedirectAllowed(config, form.redirectUri.value)
    && form.challengeMethod == Some("S256")
    && form.challenge.Some? && form.challenge.value != ""
    && (form.resource.Some? ==> form.resource.value == config.mcpResource)
  }

  function NormalizedScope(scope: Option<string>): string {
    if scope.None? || Trim(scope.value) == "" then OAUTH_SCOPE else scope.value
  }

  function CodeFor(form: AuthorizeForm, now: int): Code
    requires form.clientId.Some? && form.redirectUri.Some? && form.challenge.Some?
  {
    Code(form.clientId.value, form.redirectUri.value, form.challenge.value, NormalizedScope(form.scope), form.resource,
         now + CODE_TTL)
  }

  function AfterAuthorize(s: Store, config: Config, form: AuthorizeForm, code: string, now: int)
    : (Store, AuthorizeResult)
  {
    if !FormIsValid(config, form) then (s, Rejected)
    else if Trim(form.apiKey) != Trim(config.apiKey) then (s, WrongKey)
    else (s.(codes := s.codes[code := CodeFor(form, now)]), Issued)
  }

  datatype TokenForm = TokenForm(grantType: Option<string>, code: Option<string>, redirectUri: Option<string>,
                                 clientId: Option<string>, verifier: Option<string>, resource: Option<string>)

  /** The OAuth error codes; the status is 400 for all of them. */
  datatype TokenError = UnsupportedGrantType | InvalidRequest | InvalidGrant | InvalidTarget

  predicate IsComplete(form: TokenForm) {
    form.code.Some? && form.verifier.Some? && form.redirectUri.Some? && form.clientId.Some?
  }

  /** Why the stored code does not entitle this form to a token, if so. */
  function GrantError(stored: Code, config: Config, form: TokenForm, now: int): Option<TokenError>
    requires IsComplete(form)
  {
    if stored.expiresAt <= now then Some(InvalidGrant)
    else if stored.redirectUri != form.redirectUri.value || stored.clientId != form.clientId.value then
      Some(InvalidGrant)
    else if form.resource.Some? && form.resource != stored.resource then Some(InvalidTarget)
    else if config.s256(form.verifier.value) != stored.challenge then Some(InvalidGrant)
    else None
  }

  /** The code is gone whatever comes of it; a token is given for its scope. The clock is read
      twice, for the code's expiry and for the token's. */
  function AfterExchange(s: Store, config: Config, form: TokenForm, token: string, now: int, issuedAt: int)
    : (Store, Result<string, TokenError>)
  {
    if form.grantType != Some(AUTHORIZATION_CODE) then (s, Err(UnsupportedGrantType))
    else if !IsComplete(form) then (s, Err(InvalidRequest))
    else if form.code.value !in s.codes then (s, Err(InvalidGrant))
    else
      var stored := s.codes[form.code.value];
      var consumed := s.(codes := s.codes - {form.code.value});
      var error := GrantError(stored, config, form, now);
      if error.Some? then (consumed, Err(error.value))
      else (consumed.(tokens := s.tokens[token := issuedAt + TOKEN_TTL]), Ok(stored.scope))
  }

  function LiveCodes(codes: map<string, Code>, now: int): map<string, Code> {
    map code | code in codes && codes[code].expiresAt > now :: codes[code]
  }

  function LiveTokens(tokens: map<string, int>, now: int): map<string, int> {
    map token | token in tokens && tokens[token] > now :: tokens[token]
  }

  function AfterCheck(s: Store, config: Config, bearer: Option<string>, now: int): (Store, bool) {
    if bearer.None? then (s, false)
    else if bearer.value == Trim(config.apiKey) then (s, true)
    else
      var live := LiveTokens(s.tokens, now);
      (s.(tokens := live), bearer.value in live)
  }

  // ---------------------------------------------------------------- the object

  class OAuth {
    var codes: map<string, Code>
    var tokens: map<string, int>

    function View(): Store
      reads this
    {
      Store(codes, tokens)
    }

    constructor ()
      ensures View() == EMPTY_STORE
    {
      codes, tokens := map[], map[];
    }

    method AuthorizeSubmit(config: Config, form: AuthorizeForm, code: string, now: int) returns (r: AuthorizeResult)
      modifies this`codes
      ensures (View(), r) == AfterAuthorize(old(View()), config, form, code, now)
    {
      if !FormIsValid(config, form) {
        return Rejected;
      }
      if Trim(form.apiKey) != Trim(config.apiKey) {
        return WrongKey;
      }
      codes := codes[code := CodeFor(form, now)];
      return Issued;
    }

    method ExchangeToken(config: Config, form: TokenForm, token: string, now: int, issuedAt: int)
      returns (r: Result<string, TokenError>)
      modifies this
      ensures (View(), r) == AfterExchange(old(View()), config, form, token, now, issuedAt)
    {
      if form.grantType != Some(AUTHORIZATION_CODE) {
        return Err(UnsupportedGrantType);
      }
      if form.code.None? || form.verifier.None? || form.redirectUri.None? || form.clientId.None? {
        return Err(InvalidRequest);
      }
      if form.code.value !in codes {
        return Err(InvalidGrant);
      }
      var stored := codes[form.code.value];
      codes := codes - {form.code.value};
      if stored.expiresAt <= now {
        return Err(InvalidGrant);
      }
      if stored.redirectUri != form.redirectUri.value || stored.clientId != form.clientId.value {
        return Err(InvalidGrant);
      }
      if form.resource.Some? && form.resource != stored.resource {
        return Err(InvalidTarget);
      }
      if config.s256(form.verifier.value) != stored.challenge {
        return Err(InvalidGrant);
      }
      tokens := tokens[token := issuedAt + TOKEN_TTL];
      return Ok(stored.scope);
    }

    method IsValidMcpBearer(config: Config, bearer: Option<string>, now: int) returns (valid: bool)
      modifies this`tokens
      ensures (View(), valid) == AfterCheck(old(View()), config, bearer, now)
    {
      if bearer.None? {
        return false;
      }
      if bearer.value == Trim(config.apiKey) {
        return true;
      }
      tokens := LiveTokens(tokens, now);
      return bearer.value in tokens;
    }

    method SweepCodes(now: int)
      modifies this`codes
      ensures codes == LiveCodes(old(codes), now)
    {
      codes := LiveCodes(codes, now);
    }

    method SweepTokens(now: int)
      modifies this`tokens
      ensures tokens == LiveTokens(old(tokens), now)
    {
      tokens := LiveTokens(tokens, now);
    }
  }
}
