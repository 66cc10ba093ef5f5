/** Which requests to the store succeed, and with which error the others fail, told from the history
    of the requests before them. */
module OAuthGrants {
  import opened Text
  import opened OAuthStore
  import opened OAuthRuns

  const TEN_MINUTES := 600_000_000_000
  const SEVEN_DAYS := 604_800_000_000_000

  // ---------------------------------------------------------------- authorizing

  predicate IsCallback(url: Option<Url>) {
    match url
    case None => false
    case Some(Url(scheme, host, path)) =>
      && scheme == "https" && host == Some("chatgpt.com")
      && (path == "/connector_platform_oauth_redirect" || "/connector/oauth/" <= path)
  }

  /** A code is given, and nothing else changes, if and only if the form asks for one with S256 for a named
      client, a callback on the list and this server, and with the key; the key is looked at last. */
  lemma AuthorizeOutcome(s: Store, config: Config, form: AuthorizeForm, code: string, at: int)
    ensures var (t, answer) := Step(s, config, Authorize(form, code, at));
      var asks :=
        && form.responseType == Some("code") && form.challengeMethod == Some("S256")
        && form.clientId.Some? && Trim(form.clientId.value) != ""
        && form.redirectUri.Some? && IsCallback(config.parseUrl(form.redirectUri.value))
        && form.challenge.Some? && form.challenge.value != ""
        && (form.resource == None || form.resource == Some(config.mcpResource));
      if !asks then answer == Authorized(Rejected) && t == s
      else if Trim(form.apiKey) != Trim(config.apiKey) then answer == Authorized(WrongKey) && t == s
      else answer == Authorized(Issued) && t == s.(codes := s.codes[code := Entry(form, at)])
  {
    hide Trim;
  }

  /** What is remembered of an authorization. */
  function Entry(form: AuthorizeForm, at: int): Code
    requires form.clientId.Some? && form.redirectUri.Some? && form.challenge.Some?
  {
    Code(form.clientId.value, form.redirectUri.value, form.challenge.value, ScopeOf(form), form.resource,
         at + TEN_MINUTES)
  }

  function ScopeOf(form: AuthorizeForm): string {
    match form.scope
    case None => "agentic:mcp"
    case Some(scope) => if Trim(scope) == "" then "agentic:mcp" else scope
  }

  // ---------------------------------------------------------------- which codes stand

  predicate GivesCode(config: Config, e: Event, code: string) {
    e.Authorize? && e.code == code && Step(EMPTY_STORE, config, e).1 == Authorized(Issued)
  }

  predicate AsksFor(request: TokenForm, code: string) {
    && request.grantType == Some("authorization_code") && request.code == Some(code)
    && request.verifier.Some? && request.redirectUri.Some? && request.clientId.Some?
  }

  /** The code is used up by any complete token request that names it, whatever its answer, and swept once
      its ten minutes are over. */
  predicate Spends(e: Event, code: string, given: int) {
    match e
    case Exchange(request, _, _, _) => AsksFor(request, code)
    case SweepCodes(at) => at >= given + TEN_MINUTES
    case _ => false
  }

  /** The code was given at step `k`, not again since, and not spent. */
  predicate StandsSince(config: Config, events: seq<Event>, code: string, k: nat) {
    && k < |events| && GivesCode(config, events[k], code)
    && forall j :: k < j < |events| ==> !GivesCode(config, events[j], code) && !Spends(events[j], code, events[k].at)
  }

  ghost predicate StoredSince(config: Config, events: seq<Event>, s: Store, code: string) {
    && (code in s.codes ==> exists k: nat :: StandsSince(config, events, code, k))
    && (forall k: nat :: StandsSince(config, events, code, k) ==> code in s.codes && IsEntry(s.codes[code], events[k]))
  }

  predicate IsEntry(stored: Code, e: Event) {
    e.Authorize? && e.form.clientId.Some? && e.form.redirectUri.Some? && e.form.challenge.Some?
    && stored == Entry(e.form, e.at)
  }

  lemma StepCode(s: Store, config: Config, e: Event, code: string)
    ensures var t := Step(s, config, e).0;
      && (GivesCode(config, e, code) ==> code in t.codes && IsEntry(t.codes[code], e))
      && (!GivesCode(config, e, code) ==>
            && (code in t.codes ==> code in s.codes && t.codes[code] == s.codes[code])
            && (code in s.codes ==>
                  (code in t.codes <==> !Spends(e, code, s.codes[code].expiresAt - TEN_MINUTES))))
  {
    if e.Authorize? {
      AuthorizeOutcome(s, config, e.form, e.code, e.at);
      AuthorizeOutcome(EMPTY_STORE, config, e.form, e.code, e.at);
    }
    hide FormIsValid, Trim, GrantError, AfterAuthorize, Entry;
  }

  lemma RunSnoc(s: Store, config: Config, events: seq<Event>, e: Event)
    ensures Run(s, config, events + [e]) == Step(Run(s, config, events), config, e).0
    decreases |events|
  {
    hide Step;
    if events == [] {
      assert [] + [e] == [e] && [e][1..] == [];
      assert Run(s, config, [e]) == Run(Step(s, config, e).0, config, []);
    } else {
      assert (events + [e])[1..] == events[1..] + [e];
      RunSnoc(Step(s, config, events[0]).0, config, events[1..], e);
    }
  }

  lemma StandsSnoc(config: Config, events: seq<Event>, e: Event, code: string, k: nat)
    ensures StandsSince(config, events + [e], code, k) <==>
      if k == |events| then GivesCode(config, e, code)
      else StandsSince(config, events, code, k) && !GivesCode(config, e, code) && !Spends(e, code, events[k].at)
    ensures StandsSince(config, events, code, k) ==> k < |events|
    ensures StandsSince(config, events + [e], code, k) ==>
      k <= |events| && (k < |events| ==> (events + [e])[k] == events[k])
  {
    hide GivesCode, Spends;
    var all := events + [e];
    assert forall j :: 0 <= j < |events| ==> all[j] == events[j];
    assert all[|events|] == e;
  }

  lemma StandInside(config: Config, events: seq<Event>, code: string)
    ensures forall k: nat :: StandsSince(config, events, code, k) ==> k < |events|
  {
    hide GivesCode, Spends;
  }

  lemma EntryGivenAt(stored: Code, e: Event)
    requires IsEntry(stored, e)
    ensures stored.expiresAt - TEN_MINUTES == e.at
  {
  }

  lemma StoredSnoc(config: Config, events: seq<Event>, s: Store, e: Event, code: string)
    requires StoredSince(config, events, s, code)
    ensures StoredSince(config, events + [e], Step(s, config, e).0, code)
  {
    hide GivesCode, Spends, IsEntry, StandsSince, Step;
    var all, t := events + [e], Step(s, config, e).0;
    StepCode(s, config, e, code);
    StandInside(config, all, code);
    forall k: nat | k < |all| && StandsSince(config, all, code, k)
      ensures code in t.codes && IsEntry(t.codes[code], all[k])
    {
      StandsSnoc(config, events, e, code, k);
      if k < |events| {
        EntryGivenAt(s.codes[code], events[k]);
      }
    }
    if code in t.codes {
      if GivesCode(config, e, code) {
        StandsSnoc(config, events, e, code, |events|);
      } else {
        var k: nat :| StandsSince(config, events, code, k);
        StandsSnoc(config, events, e, code, k);
        EntryGivenAt(s.codes[code], events[k]);
      }
    }
  }

  lemma {:induction false} RunStores(config: Config, events: seq<Event>, code: string)
    ensures StoredSince(config, events, Run(EMPTY_STORE, config, events), code)
    decreases |events|
  {
    if events == [] {
      NothingStands(config, code);
    } else {
      var front, last := events[..|events| - 1], events[|events| - 1];
      assert events == front + [last];
      hide Run, StoredSince, Step;
      RunStores(config, front, code);
      StoredSnoc(config, front, Run(EMPTY_STORE, config, front), last, code);
      RunSnoc(EMPTY_STORE, config, front, last);
    }
  }

  lemma NothingStands(config: Config, code: string)
    ensures StoredSince(config, [], EMPTY_STORE, code)
  {
  }

  /** In every run a code is on record if and only if it was given at some step, not given again since,
      and neither spent nor swept after its ten minutes; and the record is that of this step. */
  lemma CodeStandsIff(config: Config, events: seq<Event>, code: string)
    ensures var s := Run(EMPTY_STORE, config, events);
      && (code in s.codes <==> exists k: nat :: StandsSince(config, events, code, k))
      && forall k: nat :: StandsSince(config, events, code, k) ==> IsEntry(s.codes[code], events[k])
  {
    hide StandsSince, IsEntry, Run;
    RunStores(config, events, code);
  }

  // ---------------------------------------------------------------- asking for a token

  /** The answer to a complete token request, for a code given with this form at this time. */
  function AnswerFor(config: Config, form: AuthorizeForm, given: int, request: TokenForm, at: int)
    : Result<string, TokenError>
    requires request.verifier.Some? && form.challenge.Some?
  {
    if at >= given + TEN_MINUTES then Err(InvalidGrant)
    else if request.clientId != form.clientId || request.redirectUri != form.redirectUri then Err(InvalidGrant)
    else if request.resource.Some? && request.resource != form.resource then Err(InvalidTarget)
    else if config.s256(request.verifier.value) != form.challenge.value then Err(InvalidGrant)
    else Ok(ScopeOf(form))
  }

  /** Every token request, after every run: another grant type or a missing field is answered as such, a code
      that does not stand with an invalid grant, and a code that stands by the form it was given for. */
  lemma TokenOutcome(config: Config, events: seq<Event>, request: TokenForm, token: string, at: int, issuedAt: int)
    ensures var grant := Step(Run(EMPTY_STORE, config, events), config, Exchange(request, token, at, issuedAt)).1.grant;
      if request.grantType != Some("authorization_code") then grant == Err(UnsupportedGrantType)
      else if request.code.None? || !AsksFor(request, request.code.value) then grant == Err(InvalidRequest)
      else
        var code := request.code.value;
        && ((forall k: nat :: !StandsSince(config, events, code, k)) ==> grant == Err(InvalidGrant))
        && forall k: nat :: StandsSince(config, events, code, k) ==>
             && events[k].Authorize? && events[k].form.challenge.Some?
             && grant == AnswerFor(config, events[k].form, events[k].at, request, at)
  {
    var s := Run(EMPTY_STORE, config, events);
    if request.grantType == Some("authorization_code") && request.code.Some? && AsksFor(request, request.code.value) {
      CodeStandsIff(config, events, request.code.value);
      hide Run, StandsSince;
      forall k: nat | StandsSince(config, events, request.code.value, k)
        ensures events[k].Authorize? && events[k].form.challenge.Some?
        ensures AfterExchange(s, config, request, token, at, issuedAt).1
                == AnswerFor(config, events[k].form, events[k].at, request, at)
      {
        EntryAnswers(s.codes[request.code.value], config, events[k], request, at);
      }
      hide AnswerFor, IsEntry;
    }
    hide GrantError;
  }

  lemma EntryAnswers(stored: Code, config: Config, e: Event, request: TokenForm, at: int)
    requires IsEntry(stored, e) && request.code.Some? && AsksFor(request, request.code.value)
    ensures e.Authorize? && e.form.challenge.Some?
    ensures var error, answer := GrantError(stored, config, request, at), AnswerFor(config, e.form, e.at, request, at);
      answer == if error.Some? then Err(error.value) else Ok(stored.scope)
  {
    hide ScopeOf;
  }

  // ---------------------------------------------------------------- checking a token

  /** Step `k` of the run granted this token. */
  predicate Gives(config: Config, events: seq<Event>, token: string, k: nat) {
    && k < |events| && events[k].Exchange? && events[k].token == token
    && Step(Run(EMPTY_STORE, config, events[..k]), config, events[k]).1.grant.Ok?
  }

  /** Granted at step `k`, not again since, and no sweep of the tokens or check of one read a time at or
      behind its end. */
  predicate HeldSince(config: Config, events: seq<Event>, token: string, k: nat) {
    && Gives(config, events, token, k)
    && forall j :: k < j < |events| ==>
         !Gives(config, events, token, j) && !Purges(config, events[j], events[k].issuedAt + SEVEN_DAYS)
  }

  ghost predicate TokenSince(config: Config, events: seq<Event>, s: Store, token: string) {
    && (token in s.tokens ==> exists k: nat :: HeldSince(config, events, token, k))
    && (forall k: nat :: k < |events| && HeldSince(config, events, token, k) ==>
          token in s.tokens && events[k].Exchange? && s.tokens[token] == events[k].issuedAt + SEVEN_DAYS)
  }

  lemma StepToken(s: Store, config: Config, e: Event, token: string)
    ensures var (t, answer) := Step(s, config, e);
      if e.Exchange? && e.token == token && answer.grant.Ok? then
        token in t.tokens && t.tokens[token] == e.issuedAt + SEVEN_DAYS
      else
        && (token in t.tokens <==> token in s.tokens && !Purges(config, e, s.tokens[token]))
        && (token in t.tokens ==> t.tokens[token] == s.tokens[token])
  {
    hide FormIsValid, Trim, GrantError, CodeFor;
  }

  lemma GivesSnoc(config: Config, events: seq<Event>, e: Event, token: string, k: nat)
    ensures Gives(config, events + [e], token, k) <==>
      if k == |events| then
        e.Exchange? && e.token == token && Step(Run(EMPTY_STORE, config, events), config, e).1.grant.Ok?
      else Gives(config, events, token, k)
  {
    hide Step, Run;
    var all := events + [e];
    if k < |events| {
      assert all[..k] == events[..k] && all[k] == events[k];
    } else if k == |events| {
      assert all[..k] == events && all[k] == e;
    }
  }

  lemma HeldSnoc(config: Config, events: seq<Event>, e: Event, token: string, k: nat)
    ensures HeldSince(config, events + [e], token, k) ==> k <= |events|
    ensures HeldSince(config, events, token, k) ==> k < |events| && events[k].Exchange?
    ensures HeldSince(config, events + [e], token, k) <==>
      if k == |events| then Gives(config, events + [e], token, k)
      else
        && HeldSince(config, events, token, k) && !Gives(config, events + [e], token, |events|)
        && !Purges(config, e, events[k].issuedAt + SEVEN_DAYS)
  {
    var all := events + [e];
    assert all[|events|] == e && forall j :: 0 <= j < |events| ==> all[j] == events[j];
    forall j: nat
      ensures j != |events| ==> (Gives(config, all, token, j) <==> Gives(config, events, token, j))
      ensures Gives(config, events, token, j) ==> j < |events| && events[j].Exchange?
      ensures Gives(config, all, token, j) ==> j < |all| && all[j].Exchange?
    {
      GivesSnoc(config, events, e, token, j);
    }
    hide Gives, Purges;
  }

  lemma TokenSnoc(config: Config, events: seq<Event>, e: Event, token: string)
    requires TokenSince(config, events, Run(EMPTY_STORE, config, events), token)
    ensures TokenSince(config, events + [e], Step(Run(EMPTY_STORE, config, events), config, e).0, token)
  {
    hide Gives, Purges, HeldSince, Step, Run;
    var s := Run(EMPTY_STORE, config, events);
    var all, t := events + [e], Step(s, config, e).0;
    StepToken(s, config, e, token);
    GivesSnoc(config, events, e, token, |events|);
    forall k: nat | k < |all| && HeldSince(config, all, token, k)
      ensures token in t.tokens && all[k].Exchange? && t.tokens[token] == all[k].issuedAt + SEVEN_DAYS
    {
      HeldSnoc(config, events, e, token, k);
    }
    if token in t.tokens {
      if Gives(config, all, token, |events|) {
        HeldSnoc(config, events, e, token, |events|);
      } else {
        var k: nat :| HeldSince(config, events, token, k);
        HeldSnoc(config, events, e, token, k);
      }
    }
  }

  lemma {:induction false} RunHolds(config: Config, events: seq<Event>, token: string)
    ensures TokenSince(config, events, Run(EMPTY_STORE, config, events), token)
    decreases |events|
  {
    if events == [] {
      NoTokens(config, token);
    } else {
      var front, last := events[..|events| - 1], events[|events| - 1];
      assert events == front + [last];
      hide Run, TokenSince, Step;
      RunHolds(config, front, token);
      TokenSnoc(config, front, last, token);
      RunSnoc(EMPTY_STORE, config, front, last);
    }
  }

  lemma NoTokens(config: Config, token: string)
    ensures TokenSince(config, [], EMPTY_STORE, token)
  {
  }

  /** Every bearer check, after every run: accepted are the key, and the tokens granted at some step, not
      purged since, that have not reached the end of their seven days. */
  lemma CheckOutcome(config: Config, events: seq<Event>, bearer: Option<string>, at: int)
    ensures var answer := Step(Run(EMPTY_STORE, config, events), config, Check(bearer, at)).1;
      answer == Checked(
        bearer.Some? &&
        (|| bearer.value == Trim(config.apiKey)
         || exists k: nat :: HeldSince(config, events, bearer.value, k) && k < |events| && events[k].Exchange?
                             && at < events[k].issuedAt + SEVEN_DAYS))
  {
    hide Run, HeldSince, Trim;
    if bearer.Some? {
      RunHolds(config, events, bearer.value);
      HeldInside(config, events, bearer.value);
    }
  }

  lemma HeldInside(config: Config, events: seq<Event>, token: string)
    ensures forall k: nat :: HeldSince(config, events, token, k) ==> k < |events|
  {
    hide Purges, Step;
  }
}
