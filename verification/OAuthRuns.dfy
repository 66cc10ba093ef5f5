/** Whole runs of the store: one-shot codes, and a clean-up nobody can see. */
module OAuthRuns {
  import opened Text
  import opened OAuthStore

  /** One clock reading serves both sections of a clean-up, and anything may come between them. A
      bearer check reads the clock before it waits for the lock. */
  datatype Event =
    | Authorize(form: AuthorizeForm, code: string, at: int)
    | Exchange(request: TokenForm, token: string, at: int, issuedAt: int)
    | Check(bearer: Option<string>, at: int)
    | SweepCodes(at: int)
    | SweepTokens(at: int)
  {
    predicate IsSweep() { SweepCodes? || SweepTokens? }
  }

  datatype Answer =
    | Authorized(outcome: AuthorizeResult)
    | Exchanged(grant: Result<string, TokenError>)
    | Checked(valid: bool)
    | Swept

  function Step(s: Store, config: Config, e: Event): (Store, Answer) {
    match e
    case Authorize(form, code, at) => var (t, r) := AfterAuthorize(s, config, form, code, at); (t, Authorized(r))
    case Exchange(request, token, at, issuedAt) =>
      var (t, r) := AfterExchange(s, config, request, token, at, issuedAt); (t, Exchanged(r))
    case Check(bearer, at) => var (t, r) := AfterCheck(s, config, bearer, at); (t, Checked(r))
    case SweepCodes(at) => (s.(codes := LiveCodes(s.codes, at)), Swept)
    case SweepTokens(at) => (s.(tokens := LiveTokens(s.tokens, at)), Swept)
  }

  function Run(s: Store, config: Config, events: seq<Event>): Store
    decreases |events|
  {
    if events == [] then s else Run(Step(s, config, events[0]).0, config, events[1..])
  }

  /** The answers callers get; a sweep answers nobody. */
  function Answers(s: Store, config: Config, events: seq<Event>): seq<Answer>
    decreases |events|
  {
    if events == [] then []
    else
      var (t, answer) := Step(s, config, events[0]);
      (if events[0].IsSweep() then [] else [answer]) + Answers(t, config, events[1..])
  }

  function WithoutSweeps(events: seq<Event>): seq<Event> {
    if events == [] then []
    else (if events[0].IsSweep() then [] else [events[0]]) + WithoutSweeps(events[1..])
  }

  // ---------------------------------------------------------------- sweeps are invisible

  /** No caller acts on a clock reading older than that of a sweep before it. */
  predicate SweepsReadEarlier(events: seq<Event>) {
    forall i, j :: 0 <= i < j < |events| && events[i].IsSweep() && !events[j].IsSweep() ==> events[i].at <= events[j].at
  }

  predicate NotBefore(events: seq<Event>, now: int) {
    forall i :: 0 <= i < |events| && !events[i].IsSweep() ==> now <= events[i].at
  }

  ghost predicate CodesSwept(codes: map<string, Code>, swept: map<string, Code>, now: int) {
    && (forall k :: k in swept ==> k in codes && swept[k] == codes[k])
    && (forall k :: k in codes && k !in swept ==> codes[k].expiresAt <= now)
  }

  ghost predicate TokensSwept(tokens: map<string, int>, swept: map<string, int>, now: int) {
    && (forall k :: k in swept ==> k in tokens && swept[k] == tokens[k])
    && (forall k :: k in tokens && k !in swept ==> tokens[k] <= now)
  }

  /** `t` is `s` without some entries that have expired by `now`. */
  ghost predicate SweptFrom(s: Store, t: Store, now: int) {
    CodesSwept(s.codes, t.codes, now) && TokensSwept(s.tokens, t.tokens, now)
  }

  function Later(a: int, b: int): int {
    if a < b then b else a
  }

  lemma SweepKeeps(s: Store, t: Store, config: Config, e: Event, now: int)
    requires SweptFrom(s, t, now) && e.IsSweep()
    ensures SweptFrom(s, Step(t, config, e).0, Later(now, e.at))
  {
    hide AfterAuthorize, AfterExchange, AfterCheck;
  }

  lemma SameAuthorize(s: Store, t: Store, config: Config, form: AuthorizeForm, code: string, at: int, now: int)
    requires SweptFrom(s, t, now)
    ensures var (u, r), (v, q) := AfterAuthorize(s, config, form, code, at), AfterAuthorize(t, config, form, code, at);
      r == q && SweptFrom(u, v, now)
  {
    hide Trim, CodeFor, FormIsValid;
  }

  lemma CodesAfterTake(codes: map<string, Code>, swept: map<string, Code>, code: string, now: int)
    requires CodesSwept(codes, swept, now)
    ensures CodesSwept(codes - {code}, swept - {code}, now)
    ensures code in swept ==> code in codes && swept[code] == codes[code]
    ensures code in codes && code !in swept ==> codes[code].expiresAt <= now && CodesSwept(codes - {code}, swept, now)
  {
  }

  lemma TokensAfterGrant(tokens: map<string, int>, swept: map<string, int>, token: string, expiry: int, now: int)
    requires TokensSwept(tokens, swept, now)
    ensures TokensSwept(tokens[token := expiry], swept[token := expiry], now)
  {
  }

  lemma SameExchange(s: Store, t: Store, config: Config, form: TokenForm, token: string, at: int, issuedAt: int,
                     now: int)
    requires SweptFrom(s, t, now) && now <= at
    ensures var (u, r) := AfterExchange(s, config, form, token, at, issuedAt);
      var (v, q) := AfterExchange(t, config, form, token, at, issuedAt);
      r == q && SweptFrom(u, v, now)
  {
    hide CodesSwept, TokensSwept;
    TokensAfterGrant(s.tokens, t.tokens, token, issuedAt + TOKEN_TTL, now);
    if IsComplete(form) {
      var code := form.code.value;
      CodesAfterTake(s.codes, t.codes, code, now);
      if code in s.codes && code !in t.codes {
        assert GrantError(s.codes[code], config, form, at) == Some(InvalidGrant);
      }
      hide GrantError;
    }
  }

  lemma SameCheck(s: Store, t: Store, config: Config, bearer: Option<string>, at: int, now: int)
    requires SweptFrom(s, t, now) && now <= at
    ensures var (u, r), (v, q) := AfterCheck(s, config, bearer, at), AfterCheck(t, config, bearer, at);
      r == q && SweptFrom(u, v, now)
  {
    hide Trim;
  }

  lemma SameAnswer(s: Store, t: Store, config: Config, e: Event, now: int)
    requires SweptFrom(s, t, now) && now <= e.at && !e.IsSweep()
    ensures Step(s, config, e).1 == Step(t, config, e).1
    ensures SweptFrom(Step(s, config, e).0, Step(t, config, e).0, now)
  {
    hide AfterAuthorize, AfterExchange, AfterCheck, SweptFrom;
    match e {
      case Authorize(form, code, at) => SameAuthorize(s, t, config, form, code, at, now);
      case Exchange(request, token, at, issuedAt) => SameExchange(s, t, config, request, token, at, issuedAt, now);
      case Check(bearer, at) => SameCheck(s, t, config, bearer, at, now);
    }
  }

  lemma AfterHead(events: seq<Event>, now: int)
    requires events != [] && SweepsReadEarlier(events) && NotBefore(events, now)
    ensures SweepsReadEarlier(events[1..])
    ensures NotBefore(events[1..], if events[0].IsSweep() then Later(now, events[0].at) else now)
  {
  }

  lemma {:induction false} SweptRunAnswersAlike(s: Store, t: Store, config: Config, events: seq<Event>, now: int)
    requires SweptFrom(s, t, now) && SweepsReadEarlier(events) && NotBefore(events, now)
    ensures Answers(t, config, events) == Answers(s, config, WithoutSweeps(events))
    decreases |events|
  {
    hide SweptFrom, Step, SweepsReadEarlier;
    if events != [] {
      var e := events[0];
      AfterHead(events, now);
      assert !e.IsSweep() ==> now <= e.at;
      hide NotBefore;
      if e.IsSweep() {
        SweepKeeps(s, t, config, e, now);
        SweptRunAnswersAlike(s, Step(t, config, e).0, config, events[1..], Later(now, e.at));
        SkipSweep(t, config, events);
      } else {
        SameAnswer(s, t, config, e, now);
        SweptRunAnswersAlike(Step(s, config, e).0, Step(t, config, e).0, config, events[1..], now);
        AnswersHead(s, config, e, WithoutSweeps(events[1..]));
      }
    }
  }

  lemma SkipSweep(t: Store, config: Config, events: seq<Event>)
    requires events != [] && events[0].IsSweep()
    ensures Answers(t, config, events) == Answers(Step(t, config, events[0]).0, config, events[1..])
    ensures WithoutSweeps(events) == WithoutSweeps(events[1..])
  {
    hide Step;
  }

  lemma AnswersHead(s: Store, config: Config, e: Event, rest: seq<Event>)
    requires !e.IsSweep()
    ensures Answers(s, config, [e] + rest) == [Step(s, config, e).1] + Answers(Step(s, config, e).0, config, rest)
  {
    hide Step;
    assert ([e] + rest)[1..] == rest;
  }

  function Earliest(events: seq<Event>): (now: int)
    ensures NotBefore(events, now)
  {
    if events == [] then 0
    else
      var rest := Earliest(events[1..]);
      if events[0].at < rest then events[0].at else rest
  }

  /** Any sweeps anywhere in a run, their two sections apart or not, change no caller's answer: no
      status, no error code, no bearer decision, as long as no caller acts on a clock reading older
      than that of a sweep before it. */
  lemma SweepsAreInvisible(config: Config, events: seq<Event>)
    requires SweepsReadEarlier(events)
    ensures Answers(EMPTY_STORE, config, events) == Answers(EMPTY_STORE, config, WithoutSweeps(events))
  {
    SweptRunAnswersAlike(EMPTY_STORE, EMPTY_STORE, config, events, Earliest(events));
  }

  // ---------------------------------------------------------------- how long a token works

  predicate NeverGrants(events: seq<Event>, token: string) {
    forall i :: 0 <= i < |events| && events[i].Exchange? ==> events[i].token != token
  }

  /** The event throws out tokens that have expired by its reading: a sweep of the tokens, or a
      check of a bearer that is not the API key. */
  predicate Purges(config: Config, e: Event, expiry: int) {
    && e.at >= expiry
    && (e.SweepTokens? || (e.Check? && e.bearer.Some? && e.bearer.value != Trim(config.apiKey)))
  }

  predicate NonePurges(config: Config, events: seq<Event>, expiry: int) {
    forall i :: 0 <= i < |events| ==> !Purges(config, events[i], expiry)
  }

  lemma StepKeepsToken(s: Store, config: Config, e: Event, token: string)
    requires NeverGrants([e], token)
    ensures var t := Step(s, config, e).0;
      && (token in t.tokens <==> token in s.tokens && !Purges(config, e, s.tokens[token]))
      && (token in t.tokens ==> t.tokens[token] == s.tokens[token])
  {
    hide FormIsValid, Trim, GrantError;
    assert [e][0] == e;
  }

  lemma {:induction false} RunKeepsToken(s: Store, config: Config, events: seq<Event>, token: string)
    requires NeverGrants(events, token)
    ensures var t := Run(s, config, events);
      && (token in t.tokens <==> token in s.tokens && NonePurges(config, events, s.tokens[token]))
      && (token in t.tokens ==> t.tokens[token] == s.tokens[token])
    decreases |events|
  {
    hide Step, Purges;
    if events != [] {
      assert NeverGrants([events[0]], token) && NeverGrants(events[1..], token);
      StepKeepsToken(s, config, events[0], token);
      RunKeepsToken(Step(s, config, events[0]).0, config, events[1..], token);
      if token in s.tokens {
        PurgesSplit(config, events, s.tokens[token]);
      }
    }
  }

  lemma PurgesSplit(config: Config, events: seq<Event>, expiry: int)
    requires events != []
    ensures NonePurges(config, events, expiry) <==>
            !Purges(config, events[0], expiry) && NonePurges(config, events[1..], expiry)
  {
    hide Purges;
    assert forall i :: 1 <= i < |events| ==> events[i] == events[1..][i - 1];
  }

  lemma CheckIs(s: Store, config: Config, token: string, at: int)
    requires token != Trim(config.apiKey)
    ensures Step(s, config, Check(Some(token), at)).1 == Checked(token in s.tokens && at < s.tokens[token])
  {
    hide Trim;
  }

  /** What a check after a run answers, and what is stored by then. */
  lemma CheckAfter(s: Store, config: Config, events: seq<Event>, token: string, at: int)
    requires NeverGrants(events, token) && token != Trim(config.apiKey)
    ensures var t := Run(s, config, events);
      && (token in t.tokens <==> token in s.tokens && NonePurges(config, events, s.tokens[token]))
      && (token in t.tokens ==> t.tokens[token] == s.tokens[token])
      && Step(t, config, Check(Some(token), at)).1
         == Checked(token in s.tokens && NonePurges(config, events, s.tokens[token]) && at < s.tokens[token])
  {
    hide Step, Trim, NonePurges;
    RunKeepsToken(s, config, events, token);
    CheckIs(Run(s, config, events), config, token, at);
  }

  lemma GrantStores(s: Store, config: Config, request: TokenForm, token: string, at: int, issuedAt: int)
    ensures var (t, r) := Step(s, config, Exchange(request, token, at, issuedAt));
      r.grant.Ok? ==> token in t.tokens && t.tokens[token] == issuedAt + TOKEN_TTL
  {
    hide GrantError;
  }

  /** A granted token works for 7 days, for any clock readings: a later check accepts it if and only
      if its own reading is within them and no sweep or check before it read a time past them. */
  lemma TokenWorksForItsTime(s: Store, config: Config, request: TokenForm, token: string, at: int, issuedAt: int,
                             events: seq<Event>, now: int)
    requires NeverGrants(events, token) && token != Trim(config.apiKey)
    ensures var (granted, r) := Step(s, config, Exchange(request, token, at, issuedAt));
      var expiry := issuedAt + TOKEN_TTL;
      r.grant.Ok? ==>
        Step(Run(granted, config, events), config, Check(Some(token), now)).1
        == Checked(now < expiry && NonePurges(config, events, expiry))
  {
    hide Step, Trim, NonePurges, Run;
    var granted := Step(s, config, Exchange(request, token, at, issuedAt)).0;
    GrantStores(s, config, request, token, at, issuedAt);
    CheckAfter(granted, config, events, token, now);
  }

  /** Where no event before the check read a later time than the check, that is the 7 days alone. */
  lemma InOrderNothingPurges(config: Config, events: seq<Event>, expiry: int, now: int)
    requires forall i :: 0 <= i < |events| ==> events[i].at <= now
    ensures now < expiry ==> NonePurges(config, events, expiry)
  {
  }

  lemma SweptToken(s: Store, config: Config, swept: int, token: string)
    ensures var t := Step(s, config, SweepTokens(swept)).0;
      && (token in t.tokens <==> token in s.tokens && swept < s.tokens[token])
      && (token in t.tokens ==> t.tokens[token] == s.tokens[token])
  {
  }

  /** What one more sweep does to a later check, in any run: it changes the answer if and only if
      the token is still stored without it and expires after the check's reading but not after the
      sweep's. With readings in order there is no such time. */
  lemma SweepChangesCheckIff(config: Config, before: seq<Event>, swept: int, after: seq<Event>, token: string, at: int)
    requires NeverGrants(after, token) && token != Trim(config.apiKey)
    ensures var s := Run(EMPTY_STORE, config, before);
      var without, with := Run(s, config, after), Run(Step(s, config, SweepTokens(swept)).0, config, after);
      Step(with, config, Check(Some(token), at)).1 != Step(without, config, Check(Some(token), at)).1
      <==> token in without.tokens && at < without.tokens[token] <= swept
  {
    var s := Run(EMPTY_STORE, config, before);
    var t := Step(s, config, SweepTokens(swept)).0;
    SweptToken(s, config, swept, token);
    hide *;
    CheckAfter(s, config, after, token, at);
    CheckAfter(t, config, after, token, at);
  }

  /** Such an input: a check that read the clock just before the expiry, and got the lock only after
      a sweep that read it just behind. */
  lemma LateCheckIsRefused(config: Config, s: Store, token: string)
    requires token in s.tokens && token != Trim(config.apiKey)
    ensures var expiry := s.tokens[token];
      && Step(s, config, Check(Some(token), expiry - 1)).1 == Checked(true)
      && Step(Step(s, config, SweepTokens(expiry + 1)).0, config, Check(Some(token), expiry - 1)).1 == Checked(false)
  {
    hide Trim;
  }

  // ---------------------------------------------------------------- one token for a code

  predicate Grants(s: Store, config: Config, e: Event, code: string) {
    e.Exchange? && e.request.code == Some(code) && Step(s, config, e).1.grant.Ok?
  }

  function GrantCount(s: Store, config: Config, events: seq<Event>, code: string): nat
    decreases |events|
  {
    if events == [] then 0
    else
      (if Grants(s, config, events[0], code) then 1 else 0)
      + GrantCount(Step(s, config, events[0]).0, config, events[1..], code)
  }

  /** No code is issued twice. */
  predicate FreshCodes(events: seq<Event>) {
    forall i, j :: 0 <= i < j < |events| && events[i].Authorize? && events[j].Authorize? ==>
      events[i].code != events[j].code
  }

  predicate NeverIssues(events: seq<Event>, code: string) {
    forall i :: 0 <= i < |events| && events[i].Authorize? ==> events[i].code != code
  }

  lemma StepTakesCode(s: Store, config: Config, e: Event, code: string)
    ensures Grants(s, config, e, code) ==> code in s.codes && code !in Step(s, config, e).0.codes
    ensures code !in s.codes && NeverIssues([e], code) ==> code !in Step(s, config, e).0.codes
  {
    hide FormIsValid;
    assert [e][0] == e;
  }

  lemma {:induction false} AtMostOnce(s: Store, config: Config, events: seq<Event>, code: string)
    requires NeverIssues(events, code)
    ensures GrantCount(s, config, events, code) <= if code in s.codes then 1 else 0
    decreases |events|
  {
    hide Step, Grants;
    if events != [] {
      StepTakesCode(s, config, events[0], code);
      AtMostOnce(Step(s, config, events[0]).0, config, events[1..], code);
    }
  }

  /** Each authorization code yields at most one access token. */
  lemma {:induction false} OneTokenPerCode(s: Store, config: Config, events: seq<Event>, code: string)
    requires FreshCodes(events) && code !in s.codes
    ensures GrantCount(s, config, events, code) <= 1
    decreases |events|
  {
    hide Step, Grants;
    if events != [] {
      var e, t := events[0], Step(s, config, events[0]).0;
      StepTakesCode(s, config, e, code);
      if e.Authorize? && e.code == code {
        NotAgain(events);
        AtMostOnce(t, config, events[1..], code);
      } else {
        OneTokenPerCode(t, config, events[1..], code);
      }
    }
  }

  lemma NotAgain(events: seq<Event>)
    requires FreshCodes(events) && events != [] && events[0].Authorize?
    ensures NeverIssues(events[1..], events[0].code)
  {
  }

  // ---------------------------------------------------------------- only after a verifier match

  /** The event issued this code, from this form. */
  predicate Issues(config: Config, e: Event, code: string, stored: Code) {
    && e.Authorize? && e.code == code && FormIsValid(config, e.form) && Trim(e.form.apiKey) == Trim(config.apiKey)
    && stored == CodeFor(e.form, e.at)
  }

  ghost predicate Explained(config: Config, history: seq<Event>, s: Store) {
    forall code :: code in s.codes ==> exists i :: 0 <= i < |history| && Issues(config, history[i], code, s.codes[code])
  }

  lemma StepIssues(s: Store, config: Config, e: Event, code: string)
    ensures var t := Step(s, config, e).0;
      code in t.codes ==> (code in s.codes && t.codes[code] == s.codes[code]) || Issues(config, e, code, t.codes[code])
  {
    hide FormIsValid, Trim, GrantError;
  }

  lemma StepKeepsExplained(config: Config, history: seq<Event>, s: Store, e: Event)
    requires Explained(config, history, s)
    ensures Explained(config, history + [e], Step(s, config, e).0)
  {
    hide Step, Issues;
    var t := Step(s, config, e).0;
    forall code | code in t.codes
      ensures exists i :: 0 <= i < |history + [e]| && Issues(config, (history + [e])[i], code, t.codes[code])
    {
      StepIssues(s, config, e, code);
      if code in s.codes && t.codes[code] == s.codes[code] {
        var i :| 0 <= i < |history| && Issues(config, history[i], code, s.codes[code]);
        assert (history + [e])[i] == history[i];
      } else {
        assert (history + [e])[|history|] == e;
      }
    }
  }

  lemma {:induction false} RunIsExplained(config: Config, history: seq<Event>, s: Store, events: seq<Event>)
    requires Explained(config, history, s)
    ensures Explained(config, history + events, Run(s, config, events))
    decreases |events|
  {
    hide Explained, Step;
    if events == [] {
      assert history + events == history;
    } else {
      StepKeepsExplained(config, history, s, events[0]);
      RunIsExplained(config, history + [events[0]], Step(s, config, events[0]).0, events[1..]);
      assert history + [events[0]] + events[1..] == history + events;
    }
  }

  lemma GrantNeedsCode(s: Store, config: Config, request: TokenForm, token: string, at: int, issuedAt: int)
    requires Step(s, config, Exchange(request, token, at, issuedAt)).1.grant.Ok?
    ensures IsComplete(request) && request.code.value in s.codes
    ensures GrantError(s.codes[request.code.value], config, request, at) == None
  {
    hide GrantError;
  }

  lemma GrantIsAuthorized(config: Config, e: Event, stored: Code, request: TokenForm, at: int)
    requires IsComplete(request) && Issues(config, e, request.code.value, stored)
    requires GrantError(stored, config, request, at) == None
    ensures AuthorizedBy(config, e, request, at)
  {
    hide Trim, NormalizedScope;
  }

  /** A token is given only for a code that an earlier authorization with the API key issued,
      less than 600 seconds before, to the same client and redirect URI, and to a verifier whose
      S256 image is that authorization's challenge. */
  lemma GrantFollowsAuthorization(config: Config, events: seq<Event>, request: TokenForm, token: string, at: int,
                                  issuedAt: int)
    ensures var s := Run(EMPTY_STORE, config, events);
      Step(s, config, Exchange(request, token, at, issuedAt)).1.grant.Ok? ==>
        IsComplete(request) && exists i :: 0 <= i < |events| && AuthorizedBy(config, events[i], request, at)
  {
    var s := Run(EMPTY_STORE, config, events);
    if Step(s, config, Exchange(request, token, at, issuedAt)).1.grant.Ok? {
      GrantNeedsCode(s, config, request, token, at, issuedAt);
      hide Step, Issues, GrantError, AuthorizedBy, IsComplete;
      RunIsExplained(config, [], EMPTY_STORE, events);
      assert [] + events == events;
      var i :| 0 <= i < |events| && Issues(config, events[i], request.code.value, s.codes[request.code.value]);
      GrantIsAuthorized(config, events[i], s.codes[request.code.value], request, at);
    }
  }

  predicate AuthorizedBy(config: Config, e: Event, request: TokenForm, at: int)
    requires IsComplete(request)
  {
    && e.Authorize? && e.code == request.code.value && FormIsValid(config, e.form)
    && Trim(e.form.apiKey) == Trim(config.apiKey)
    && at < e.at + CODE_TTL
    && e.form.clientId == request.clientId && e.form.redirectUri == request.redirectUri
    && (request.resource.Some? ==> request.resource == e.form.resource)
    && config.s256(request.verifier.value) == e.form.challenge.value
  }
}
