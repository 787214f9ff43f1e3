/**
 Sessions and rate windows of the human gateway (internal/gateway/gateway.go):
 the part of ServeHTTP that runs under the gateway mutex, as a clocked state
 machine.  Times are nanoseconds; the clock never runs backwards and a drawn
 secret never repeats.
 */
module Gateway {
  import opened Wrappers

  const SECOND := 1_000_000_000
  const MINUTE := 60 * SECOND
  const HOUR := 60 * MINUTE

  const MAX_SESSIONS: nat := 16
  const MAX_REQUESTS: nat := 10 // per session and window
  const MAX_FAILURES: nat := 5  // per window

  type Token = nat

  datatype Session = Session(token: Token, lastUsed: int, expires: int, timeWindow: int, requests: nat)

  datatype Gate = Gate(sessions: seq<Session>, failures: nat, failureWindow: int, bearer: Token)

  // ---------------------------------------------------------------------
  // One request
  // ---------------------------------------------------------------------

  datatype Action =
    | Logout(decodes: bool)
    | Rotate(decodes: bool, admin: bool, next: Option<Token>) // None: drawing or storing the new bearer failed
    | Rpc
    | Unknown

  datatype Request =
    | Login(bearer: Option<Token>, drawn: Option<Token>, runDrawn: bool) // None: malformed body, failed draw
    | Authorized(token: Token, action: Action)
    | Unauthorized

  datatype Response =
    | Throttled // too many failed logins
    | BadCredential
    | DrawFailed
    | TableFull
    | LoggedIn(token: Token)
    | NoSession
    | RateLimited
    | BadRequest
    | Forbidden
    | LoggedOut
    | Rotated
    | Served

  predicate Live(s: Session, now: int) {
    s.expires > now && now - s.lastUsed < HOUR
  }

  function LiveOnly(sessions: seq<Session>, now: int): seq<Session> {
    if sessions == [] then []
    else
      var rest := LiveOnly(sessions[..|sessions| - 1], now);
      var last := sessions[|sessions| - 1];
      if Live(last, now) then rest + [last] else rest
  }

  /** The last live session with this token, or -1. */
  function Lookup(sessions: seq<Session>, token: Token, now: int): (index: int)
    ensures -1 <= index < |sessions|
    ensures index >= 0 ==> sessions[index].token == token && Live(sessions[index], now)
    ensures index < 0 ==> forall i | 0 <= i < |sessions| :: !(sessions[i].token == token && Live(sessions[i], now))
  {
    if sessions == [] then -1
    else if sessions[|sessions| - 1].token == token && Live(sessions[|sessions| - 1], now) then |sessions| - 1
    else Lookup(sessions[..|sessions| - 1], token, now)
  }

  /** Touches a session for one request: refreshes it, restarts its window on demand, counts. */
  function Touch(s: Session, now: int): Session {
    if now - s.timeWindow >= SECOND then s.(lastUsed := now, timeWindow := now, requests := 1)
    else s.(lastUsed := now, requests := s.requests + 1)
  }

  function HandleLogin(g: Gate, now: int, bearer: Option<Token>, token: Option<Token>,
                       runDrawn: bool): (Gate, Response)
  {
    var counted := if now - g.failureWindow >= MINUTE then g.(failureWindow := now, failures := 0) else g;
    if counted.failures >= MAX_FAILURES then (counted, Throttled)
    else if bearer != Some(g.bearer) then (counted.(failures := counted.failures + 1), BadCredential)
    else if token.None? then (counted, DrawFailed)
    else
      var pruned := counted.(sessions := LiveOnly(g.sessions, now));
      if |pruned.sessions| >= MAX_SESSIONS then (pruned, TableFull)
      else if !runDrawn then (pruned, DrawFailed)
      else
        var session := Session(token.value, now, now + 8 * HOUR, now, 0);
        (pruned.(sessions := pruned.sessions + [session]), LoggedIn(token.value))
  }

  function HandleAction(g: Gate, index: int, action: Action): (Gate, Response)
    requires 0 <= index < |g.sessions|
  {
    match action
    case Logout(decodes) =>
      if !decodes then (g, BadRequest) else (g.(sessions := g.sessions[..index] + g.sessions[index + 1..]), LoggedOut)
    case Rotate(decodes, admin, next) =>
      if !decodes then (g, BadRequest)
      else if !admin then (g, Forbidden)
      else if next.None? then (g, DrawFailed)
      else (g.(bearer := next.value, sessions := []), Rotated)
    case Rpc => (g, Served)
    case Unknown => (g, Served)
  }

  function Handle(g: Gate, now: int, request: Request): (Gate, Response) {
    match request
    case Unauthorized => (g, NoSession)
    case Login(bearer, token, runDrawn) => HandleLogin(g, now, bearer, token, runDrawn)
    case Authorized(token, action) =>
      var index := Lookup(g.sessions, token, now);
      if index < 0 then (g, NoSession)
      else
        var touched := g.(sessions := g.sessions[index := Touch(g.sessions[index], now)]);
        if touched.sessions[index].requests > MAX_REQUESTS then (touched, RateLimited)
        else HandleAction(touched, index, action)
  }

  // ---------------------------------------------------------------------
  // Runs
  // ---------------------------------------------------------------------

  datatype Arrival = Arrival(now: int, request: Request)

  /** A gateway and the session tokens it has handed out. */
  datatype World = World(gate: Gate, issued: set<Token>, clock: int)

  /** A fresh gateway: no sessions, and a failure window that starts at the zero time. */
  function Fresh(bearer: Token, clock: int): World {
    World(Gate([], 0, 0, bearer), {}, clock)
  }

  predicate Allowed(w: World, a: Arrival) {
    && w.clock <= a.now
    && (a.request.Login? && a.request.drawn.Some? ==> a.request.drawn.value !in w.issued)
  }

  function Respond(w: World, a: Arrival): Response {
    Handle(w.gate, a.now, a.request).1
  }

  function Apply(w: World, a: Arrival): World {
    var (gate, response) := Handle(w.gate, a.now, a.request);
    World(gate, if response.LoggedIn? then w.issued + {response.token} else w.issued, a.now)
  }

  predicate AllowedRun(w: World, arrivals: seq<Arrival>)
    decreases |arrivals|
  {
    arrivals != [] ==> Allowed(w, arrivals[0]) && AllowedRun(Apply(w, arrivals[0]), arrivals[1..])
  }

  function Run(w: World, arrivals: seq<Arrival>): World
    decreases |arrivals|
  {
    if arrivals == [] then w else Run(Apply(w, arrivals[0]), arrivals[1..])
  }

  predicate GateInv(g: Gate, issued: set<Token>) {
    |g.sessions| <= MAX_SESSIONS && Known(g.sessions, issued) && Distinct(g.sessions) && g.failures <= MAX_FAILURES
  }

  predicate Inv(w: World) {
    GateInv(w.gate, w.issued)
  }

  predicate Known(sessions: seq<Session>, issued: set<Token>) {
    forall i | 0 <= i < |sessions| :: sessions[i].token in issued
  }

  predicate Distinct(sessions: seq<Session>) {
    forall i, j | 0 <= i < j < |sessions| :: sessions[i].token != sessions[j].token
  }

  lemma {:induction false} LiveOnlyIsAFilter(sessions: seq<Session>, now: int)
    ensures |LiveOnly(sessions, now)| <= |sessions|
    ensures forall s :: s in LiveOnly(sessions, now) <==> s in sessions && Live(s, now)
    ensures Distinct(sessions) ==> Distinct(LiveOnly(sessions, now))
  {
    if sessions != [] {
      var most := sessions[..|sessions| - 1];
      LiveOnlyIsAFilter(most, now);
      if Distinct(sessions) {
        var rest := LiveOnly(most, now);
        forall i | 0 <= i < |rest| ensures rest[i].token != sessions[|sessions| - 1].token {
          assert rest[i] in rest;
        }
      }
    }
  }

  /** Pruning keeps the order: it treats every part of the table by itself. */
  lemma {:induction false} LiveOnlyKeepsOrder(sessions: seq<Session>, more: seq<Session>, now: int)
    ensures LiveOnly(sessions + more, now) == LiveOnly(sessions, now) + LiveOnly(more, now)
    ensures forall s :: LiveOnly([s], now) == if Live(s, now) then [s] else []
    decreases |more|
  {
    forall s ensures LiveOnly([s], now) == if Live(s, now) then [s] else [] {
      assert [s][..0] == [];
    }
    if more == [] {
      assert sessions + more == sessions;
    } else {
      var most := more[..|more| - 1];
      assert (sessions + more)[..|sessions + more| - 1] == sessions + most;
      LiveOnlyKeepsOrder(sessions, most, now);
    }
  }

  lemma WithoutOne(sessions: seq<Session>, index: nat)
    requires index < |sessions| && Distinct(sessions)
    ensures var rest := sessions[..index] + sessions[index + 1..];
            Distinct(rest) && forall s :: s in rest <==> s in sessions && s.token != sessions[index].token
  {
    var rest := sessions[..index] + sessions[index + 1..];
    forall k | 0 <= k < |rest| ensures rest[k] == sessions[if k < index then k else k + 1] {
    }
    forall s | s in sessions && s.token != sessions[index].token ensures s in rest {
      var k :| 0 <= k < |sessions| && sessions[k] == s;
      assert rest[if k < index then k else k - 1] == s;
    }
  }

  lemma LiveOnlyStaysKnown(sessions: seq<Session>, now: int, issued: set<Token>)
    requires Known(sessions, issued)
    ensures Known(LiveOnly(sessions, now), issued)
  {
    LiveOnlyIsAFilter(sessions, now);
    var kept := LiveOnly(sessions, now);
    forall i | 0 <= i < |kept| ensures kept[i].token in issued {
      assert kept[i] in sessions;
    }
  }

  lemma LoginKeepsInv(w: World, a: Arrival)
    requires Inv(w) && Allowed(w, a) && a.request.Login?
    ensures Inv(Apply(w, a))
  {
    LiveOnlyIsAFilter(w.gate.sessions, a.now);
    LiveOnlyStaysKnown(w.gate.sessions, a.now, w.issued);
  }

  lemma RestIsKnown(sessions: seq<Session>, index: nat, issued: set<Token>)
    requires index < |sessions| && Known(sessions, issued)
    ensures Known(sessions[..index] + sessions[index + 1..], issued)
  {
  }

  lemma ActionKeepsInv(g: Gate, index: nat, action: Action, issued: set<Token>)
    requires GateInv(g, issued) && index < |g.sessions|
    ensures GateInv(HandleAction(g, index, action).0, issued)
    ensures !HandleAction(g, index, action).1.LoggedIn?
  {
    WithoutOne(g.sessions, index);
    RestIsKnown(g.sessions, index, issued);
  }

  lemma AuthorizedKeepsInv(w: World, a: Arrival)
    requires Inv(w) && Allowed(w, a) && a.request.Authorized?
    ensures Inv(Apply(w, a))
  {
    var index := Lookup(w.gate.sessions, a.request.token, a.now);
    if index >= 0 {
      var touched := w.gate.(sessions := w.gate.sessions[index := Touch(w.gate.sessions[index], a.now)]);
      assert GateInv(touched, w.issued);
      ActionKeepsInv(touched, index, a.request.action, w.issued);
    }
  }

  lemma ApplyKeepsInv(w: World, a: Arrival)
    requires Inv(w) && Allowed(w, a)
    ensures Inv(Apply(w, a))
  {
    if a.request.Login? {
      LoginKeepsInv(w, a);
    } else if a.request.Authorized? {
      AuthorizedKeepsInv(w, a);
    }
  }

  lemma {:induction false} RunKeepsInv(w: World, arrivals: seq<Arrival>)
    requires Inv(w) && AllowedRun(w, arrivals)
    ensures Inv(Run(w, arrivals))
    decreases |arrivals|
  {
    if arrivals != [] {
      ApplyKeepsInv(w, arrivals[0]);
      RunKeepsInv(Apply(w, arrivals[0]), arrivals[1..]);
    }
  }

  /** Over any run from a fresh gateway the table stays within its bound, with one entry per token. */
  lemma TableIsBounded(bearer: Token, clock: int, arrivals: seq<Arrival>)
    requires AllowedRun(Fresh(bearer, clock), arrivals)
    ensures var sessions := Run(Fresh(bearer, clock), arrivals).gate.sessions;
            |sessions| <= 16 && Distinct(sessions)
  {
    RunKeepsInv(Fresh(bearer, clock), arrivals);
  }

  // ---------------------------------------------------------------------
  // Rates
  // ---------------------------------------------------------------------

  /** The request of `token` got past its session lookup and its rate window. */
  predicate Admitted(w: World, a: Arrival, token: Token) {
    a.request.Authorized? && a.request.token == token && Respond(w, a) != NoSession && Respond(w, a) != RateLimited
  }

  function CountAdmitted(w: World, arrivals: seq<Arrival>, token: Token, lo: int): nat
    decreases |arrivals|
  {
    if arrivals == [] then 0
    else
      (if lo <= arrivals[0].now < lo + SECOND && Admitted(w, arrivals[0], token) then 1 else 0) +
      CountAdmitted(Apply(w, arrivals[0]), arrivals[1..], token, lo)
  }

  function Min(a: nat, b: nat): nat {
    if a < b then a else b
  }

  /** The window counter of a session accounts for all but one window's worth of admissions since `lo`. */
  predicate SessionBudget(s: Session, lo: int, count: nat) {
    count <= Min(s.requests, MAX_REQUESTS) + (if s.timeWindow < lo then 0 else MAX_REQUESTS)
  }

  predicate RateBudget(w: World, token: Token, lo: int, count: nat) {
    && count <= 2 * MAX_REQUESTS
    && (token !in w.issued || w.clock < lo ==> count == 0)
    && (w.clock < lo + SECOND ==> forall s | s in w.gate.sessions && s.token == token :: SessionBudget(s, lo, count))
  }

  /** One more request of the session, admitted or not. */
  lemma TouchKeepsBudget(s: Session, now: int, lo: int, count: nat)
    requires SessionBudget(s, lo, count) && (now < lo ==> count == 0) && now < lo + SECOND
    ensures var counted := if lo <= now && Touch(s, now).requests <= MAX_REQUESTS then 1 else 0;
            SessionBudget(Touch(s, now), lo, count + counted)
  {
  }

  lemma LoginKeepsRateBudget(w: World, a: Arrival, token: Token, lo: int, count: nat)
    requires Inv(w) && Allowed(w, a) && RateBudget(w, token, lo, count) && a.request.Login?
    ensures RateBudget(Apply(w, a), token, lo, count)
  {
    LiveOnlyIsAFilter(w.gate.sessions, a.now);
    forall s | s in Apply(w, a).gate.sessions && s.token == token && a.now < lo + SECOND
      ensures SessionBudget(s, lo, count) {
      if s !in w.gate.sessions {
        assert token !in w.issued;
      }
    }
  }

  /** Every entry is the touched one or was in the table under another token. */
  predicate OnlyTouched(before: seq<Session>, after: seq<Session>, touched: Session) {
    forall s | s in after :: s == touched || (s in before && s.token != touched.token)
  }

  lemma TouchingOne(sessions: seq<Session>, index: nat, touched: Session)
    requires index < |sessions| && Distinct(sessions) && touched.token == sessions[index].token
    ensures var after := sessions[index := touched];
            && Distinct(after) && OnlyTouched(sessions, after, touched)
            && OnlyTouched(sessions, after[..index] + after[index + 1..], touched)
  {
    var after := sessions[index := touched];
    WithoutOne(after, index);
    forall s | s in after && s != touched ensures s in sessions && s.token != touched.token {
      var k :| 0 <= k < |after| && after[k] == s;
      assert sessions[k] == s;
    }
  }

  /** What an authorized request leaves in the table. */
  lemma AfterAuthorized(w: World, a: Arrival)
    requires Inv(w) && a.request.Authorized? && Lookup(w.gate.sessions, a.request.token, a.now) >= 0
    ensures var touched := Touch(w.gate.sessions[Lookup(w.gate.sessions, a.request.token, a.now)], a.now);
            && OnlyTouched(w.gate.sessions, Apply(w, a).gate.sessions, touched)
            && Respond(w, a) != NoSession
            && (Respond(w, a) == RateLimited <==> touched.requests > MAX_REQUESTS)
  {
    var index := Lookup(w.gate.sessions, a.request.token, a.now);
    TouchingOne(w.gate.sessions, index, Touch(w.gate.sessions[index], a.now));
  }

  lemma AuthorizedKeepsRateBudget(w: World, a: Arrival, token: Token, lo: int, count: nat)
    requires Inv(w) && Allowed(w, a) && RateBudget(w, token, lo, count) && a.request.Authorized?
    ensures RateBudget(Apply(w, a), token, lo,
                       count + if lo <= a.now < lo + SECOND && Admitted(w, a, token) then 1 else 0)
  {
    var next := count + if lo <= a.now < lo + SECOND && Admitted(w, a, token) then 1 else 0;
    var index := Lookup(w.gate.sessions, a.request.token, a.now);
    if index >= 0 {
      AfterAuthorized(w, a);
      var s := w.gate.sessions[index];
      assert s in w.gate.sessions && s.token in w.issued;
      if a.now < lo + SECOND && a.request.token == token {
        TouchKeepsBudget(s, a.now, lo, count);
        assert next <= 2 * MAX_REQUESTS;
      }
    }
    forall s | s in Apply(w, a).gate.sessions && s.token == token && a.now < lo + SECOND
      ensures SessionBudget(s, lo, next) {
    }
  }

  lemma StepKeepsRateBudget(w: World, a: Arrival, token: Token, lo: int, count: nat)
    requires Inv(w) && Allowed(w, a) && RateBudget(w, token, lo, count)
    ensures RateBudget(Apply(w, a), token, lo,
                       count + if lo <= a.now < lo + SECOND && Admitted(w, a, token) then 1 else 0)
  {
    if a.request.Login? {
      LoginKeepsRateBudget(w, a, token, lo, count);
    } else if a.request.Authorized? {
      AuthorizedKeepsRateBudget(w, a, token, lo, count);
    }
  }

  lemma {:induction false} RateFromHere(w: World, arrivals: seq<Arrival>, token: Token, lo: int, count: nat)
    requires Inv(w) && AllowedRun(w, arrivals) && RateBudget(w, token, lo, count)
    ensures count + CountAdmitted(w, arrivals, token, lo) <= 2 * MAX_REQUESTS
    decreases |arrivals|
  {
    if arrivals != [] {
      var a := arrivals[0];
      StepKeepsRateBudget(w, a, token, lo, count);
      ApplyKeepsInv(w, a);
      RateFromHere(Apply(w, a), arrivals[1..], token, lo,
                   count + if lo <= a.now < lo + SECOND && Admitted(w, a, token) then 1 else 0);
    }
  }

  /** Every half-open second admits at most 20 requests of one session. */
  lemma AtMostTwentyPerSecond(bearer: Token, clock: int, arrivals: seq<Arrival>, token: Token, lo: int)
    requires AllowedRun(Fresh(bearer, clock), arrivals)
    ensures CountAdmitted(Fresh(bearer, clock), arrivals, token, lo) <= 20
  {
    RateFromHere(Fresh(bearer, clock), arrivals, token, lo, 0);
  }

  function CountFailures(w: World, arrivals: seq<Arrival>, lo: int): nat
    decreases |arrivals|
  {
    if arrivals == [] then 0
    else
      (if lo <= arrivals[0].now < lo + MINUTE && Respond(w, arrivals[0]) == BadCredential then 1 else 0) +
      CountFailures(Apply(w, arrivals[0]), arrivals[1..], lo)
  }

  predicate FailureBudget(w: World, lo: int, count: nat) {
    && count <= 2 * MAX_FAILURES
    && (w.clock < lo ==> count == 0)
    && (w.clock < lo + MINUTE ==> count <= w.gate.failures + (if w.gate.failureWindow < lo then 0 else MAX_FAILURES))
  }

  lemma {:induction false} FailuresFromHere(w: World, arrivals: seq<Arrival>, lo: int, count: nat)
    requires Inv(w) && AllowedRun(w, arrivals) && FailureBudget(w, lo, count)
    ensures count + CountFailures(w, arrivals, lo) <= 2 * MAX_FAILURES
    decreases |arrivals|
  {
    if arrivals != [] {
      var a := arrivals[0];
      ApplyKeepsInv(w, a);
      FailuresFromHere(Apply(w, a), arrivals[1..], lo,
                       count + if lo <= a.now < lo + MINUTE && Respond(w, a) == BadCredential then 1 else 0);
    }
  }

  /** Every half-open minute records at most 10 failed logins. */
  lemma AtMostTenFailuresPerMinute(bearer: Token, clock: int, arrivals: seq<Arrival>, lo: int)
    requires AllowedRun(Fresh(bearer, clock), arrivals)
    ensures CountFailures(Fresh(bearer, clock), arrivals, lo) <= 10
  {
    FailuresFromHere(Fresh(bearer, clock), arrivals, lo, 0);
  }

  // ---------------------------------------------------------------------
  // The sharp bounds
  // ---------------------------------------------------------------------

  /**
   What the window in force when a second begins can add to it. The window that a login at
   `start` opens has counted no request; every later one opens with a request it counts.
   */
  function Carried(start: int, lo: int): nat {
    if start < lo < start + SECOND then MAX_REQUESTS
    else if start + SECOND < lo then MAX_REQUESTS - 1
    else 0
  }

  /** How many of its admissions the current window of a session can have in the second from `lo` on. */
  predicate SharpSession(s: Session, start: int, lo: int, count: nat) {
    && (s.timeWindow == start || (s.timeWindow >= start + SECOND && s.requests >= 1))
    && count <=
       if s.timeWindow >= lo then
         Min(s.requests, MAX_REQUESTS) + (if s.timeWindow == start then 0 else Carried(start, lo))
       else if s.timeWindow + SECOND <= lo then 0
       else Min(s.requests, MAX_REQUESTS) - (if s.timeWindow == start then 0 else 1)
  }

  predicate SharpBudget(w: World, token: Token, start: int, lo: int, count: nat) {
    && count <= MAX_REQUESTS + Carried(start, lo)
    && token in w.issued
    && (w.clock < lo ==> count == 0)
    && (w.clock < lo + SECOND ==>
          forall s | s in w.gate.sessions && s.token == token :: SharpSession(s, start, lo, count))
  }

  lemma TouchKeepsSharp(s: Session, now: int, start: int, lo: int, count: nat)
    requires SharpSession(s, start, lo, count) && (now < lo ==> count == 0) && now < lo + SECOND
    ensures var touched := Touch(s, now);
            var next := count + if lo <= now && touched.requests <= MAX_REQUESTS then 1 else 0;
            SharpSession(touched, start, lo, next) && next <= MAX_REQUESTS + Carried(start, lo)
  {
  }

  lemma StepKeepsSharp(w: World, a: Arrival, token: Token, start: int, lo: int, count: nat)
    requires Inv(w) && Allowed(w, a) && SharpBudget(w, token, start, lo, count)
    ensures SharpBudget(Apply(w, a), token, start, lo,
                        count + if lo <= a.now < lo + SECOND && Admitted(w, a, token) then 1 else 0)
  {
    if a.request.Login? {
      LiveOnlyIsAFilter(w.gate.sessions, a.now);
    } else if a.request.Authorized? && Lookup(w.gate.sessions, a.request.token, a.now) >= 0 {
      var s := w.gate.sessions[Lookup(w.gate.sessions, a.request.token, a.now)];
      AfterAuthorized(w, a);
      assert s in w.gate.sessions;
      if a.now < lo + SECOND && s.token == token {
        TouchKeepsSharp(s, a.now, start, lo, count);
      }
    }
  }

  lemma {:induction false} SharpFromHere(w: World, arrivals: seq<Arrival>, token: Token, start: int, lo: int,
                                         count: nat)
    requires Inv(w) && AllowedRun(w, arrivals) && SharpBudget(w, token, start, lo, count)
    ensures count + CountAdmitted(w, arrivals, token, lo) <= MAX_REQUESTS + Carried(start, lo)
    decreases |arrivals|
  {
    if arrivals != [] {
      var a := arrivals[0];
      StepKeepsSharp(w, a, token, start, lo, count);
      ApplyKeepsInv(w, a);
      SharpFromHere(Apply(w, a), arrivals[1..], token, start, lo,
                    count + if lo <= a.now < lo + SECOND && Admitted(w, a, token) then 1 else 0);
    }
  }

  /**
   The sharp bound on a second, by the session's login: 20 only while the login's own window is in
   force when the second begins, 19 in every later second, and 10 at the two borders and before.
   */
  lemma SharpRate(w: World, login: Arrival, later: seq<Arrival>, lo: int)
    requires Inv(w) && Allowed(w, login) && Respond(w, login).LoggedIn? && AllowedRun(Apply(w, login), later)
    ensures CountAdmitted(Apply(w, login), later, Respond(w, login).token, lo) <=
            if login.now < lo < login.now + SECOND then 20 else if login.now + SECOND < lo then 19 else 10
  {
    var token := Respond(w, login).token;
    LiveOnlyIsAFilter(w.gate.sessions, login.now);
    ApplyKeepsInv(w, login);
    forall s | s in LiveOnly(w.gate.sessions, login.now) ensures s.token != token {
      assert s in w.gate.sessions;
    }
    SharpFromHere(Apply(w, login), later, token, login.now, lo, 0);
  }

  // Runs that reach the bounds

  function Requests(token: Token, now: int, n: nat): seq<Arrival> {
    seq(n, _ => Arrival(now, Authorized(token, Rpc)))
  }

  lemma {:induction false} RunsConcat(w: World, a: seq<Arrival>, b: seq<Arrival>, token: Token, lo: int)
    requires AllowedRun(w, a) && AllowedRun(Run(w, a), b)
    ensures AllowedRun(w, a + b) && Run(w, a + b) == Run(Run(w, a), b)
    ensures CountAdmitted(w, a + b, token, lo) ==
            CountAdmitted(w, a, token, lo) + CountAdmitted(Run(w, a), b, token, lo)
    ensures CountFailures(w, a + b, lo) == CountFailures(w, a, lo) + CountFailures(Run(w, a), b, lo)
    decreases |a|
  {
    if a == [] {
      assert a + b == b;
    } else {
      assert (a + b)[0] == a[0] && (a + b)[1..] == a[1..] + b;
      RunsConcat(Apply(w, a[0]), a[1..], b, token, lo);
    }
  }

  /** A gateway whose only session is this one. */
  predicate Alone(w: World, s: Session) {
    w.gate.sessions == [s] && s.token in w.issued
  }

  predicate Usable(w: World, s: Session, now: int) {
    w.clock <= now && Live(s, now)
  }

  lemma OneRequest(w: World, s: Session, now: int)
    requires Alone(w, s) && Usable(w, s, now)
    ensures var a := Arrival(now, Authorized(s.token, Rpc));
            && Allowed(w, a) && Alone(Apply(w, a), Touch(s, now)) && Apply(w, a).clock == now
            && (Admitted(w, a, s.token) <==> Touch(s, now).requests <= MAX_REQUESTS)
  {
    assert Lookup([s], s.token, now) == 0;
    assert [s][0 := Touch(s, now)] == [Touch(s, now)];
  }

  /** Requests within the window, up to its limit, are all admitted. */
  lemma {:induction false} ManyRequests(w: World, s: Session, now: int, n: nat, lo: int)
    requires Alone(w, s) && Usable(w, s, now) && now - s.timeWindow < SECOND && s.requests + n <= MAX_REQUESTS && n > 0
    ensures var run := Requests(s.token, now, n);
            && AllowedRun(w, run) && Run(w, run).clock == now
            && Alone(Run(w, run), s.(lastUsed := now, requests := s.requests + n))
            && CountAdmitted(w, run, s.token, lo) == if lo <= now < lo + SECOND then n else 0
    decreases n
  {
    var run := Requests(s.token, now, n);
    OneRequest(w, s, now);
    var t := Apply(w, run[0]);
    assert run[1..] == Requests(s.token, now, n - 1);
    if n > 1 {
      ManyRequests(t, Touch(s, now), now, n - 1, lo);
    } else {
      assert run[1..] == [];
    }
  }

  lemma OpeningRequest(w: World, s: Session, now: int, lo: int)
    requires Alone(w, s) && Usable(w, s, now) && now - s.timeWindow >= SECOND
    ensures var run := Requests(s.token, now, 1);
            && AllowedRun(w, run) && Run(w, run).clock == now
            && Alone(Run(w, run), s.(lastUsed := now, timeWindow := now, requests := 1))
            && CountAdmitted(w, run, s.token, lo) == if lo <= now < lo + SECOND then 1 else 0
  {
    OneRequest(w, s, now);
    var run := Requests(s.token, now, 1);
    assert run[0] == Arrival(now, Authorized(s.token, Rpc)) && run[1..] == [];
  }

  /** A full window opened by a request. */
  function WindowOf(token: Token, now: int): seq<Arrival> {
    Requests(token, now, 1) + Requests(token, now, MAX_REQUESTS - 1)
  }

  lemma FullWindow(w: World, s: Session, now: int, lo: int)
    requires Alone(w, s) && Usable(w, s, now) && now - s.timeWindow >= SECOND
    ensures var run := WindowOf(s.token, now);
            && AllowedRun(w, run) && Run(w, run).clock == now
            && CountAdmitted(w, run, s.token, lo) == if lo <= now < lo + SECOND then MAX_REQUESTS else 0
  {
    OpeningRequest(w, s, now, lo);
    var first := Requests(s.token, now, 1);
    ManyRequests(Run(w, first), Touch(s, now), now, MAX_REQUESTS - 1, lo);
    RunsConcat(w, first, Requests(s.token, now, MAX_REQUESTS - 1), s.token, lo);
  }

  function FirstLogin(bearer: Token, token: Token, start: int): Arrival {
    Arrival(start, Login(Some(bearer), Some(token), true))
  }

  /** A fresh gateway after its first login. */
  lemma AfterFirstLogin(bearer: Token, token: Token, start: int)
    ensures var w := Apply(Fresh(bearer, start), FirstLogin(bearer, token, start));
            && AllowedRun(Fresh(bearer, start), [FirstLogin(bearer, token, start)])
            && Respond(Fresh(bearer, start), FirstLogin(bearer, token, start)) == LoggedIn(token)
            && Alone(w, Session(token, start, start + 8 * HOUR, start, 0)) && w.clock == start
  {
    assert LiveOnly([], start) == [];
    assert [FirstLogin(bearer, token, start)][1..] == [];
  }

  /** The ten requests the login's window still has, then a whole new window. */
  function TwentyRun(token: Token, start: int, lo: int): seq<Arrival> {
    Requests(token, lo, MAX_REQUESTS) + WindowOf(token, start + SECOND)
  }

  /** Twenty are reached in every second that begins while the login's window is in force. */
  lemma TwentyAreReached(bearer: Token, token: Token, start: int, lo: int)
    requires start < lo < start + SECOND
    ensures var w := Apply(Fresh(bearer, start), FirstLogin(bearer, token, start));
            && AllowedRun(Fresh(bearer, start), [FirstLogin(bearer, token, start)])
            && AllowedRun(w, TwentyRun(token, start, lo))
            && CountAdmitted(w, TwentyRun(token, start, lo), token, lo) == 20
  {
    var w := Apply(Fresh(bearer, start), FirstLogin(bearer, token, start));
    var s := Session(token, start, start + 8 * HOUR, start, 0);
    AfterFirstLogin(bearer, token, start);
    var rest := Requests(token, lo, MAX_REQUESTS);
    ManyRequests(w, s, lo, MAX_REQUESTS, lo);
    FullWindow(Run(w, rest), s.(lastUsed := lo, requests := MAX_REQUESTS), start + SECOND, lo);
    RunsConcat(w, rest, WindowOf(token, start + SECOND), token, lo);
  }

  /** A request every half hour, until less than an hour is left. */
  function KeepAlive(token: Token, since: int, until: int): seq<Arrival>
    decreases until - since
  {
    if until - since < HOUR then []
    else Requests(token, since + HOUR / 2, 1) + KeepAlive(token, since + HOUR / 2, until)
  }

  /** The session that such requests leave. */
  function KeptAlive(s: Session, until: int): Session
    decreases until - s.lastUsed
  {
    if until - s.lastUsed < HOUR then s
    else
      var now := s.lastUsed + HOUR / 2;
      KeptAlive(s.(lastUsed := now, timeWindow := now, requests := 1), until)
  }

  lemma {:induction false} KeepingAlive(w: World, s: Session, until: int, lo: int)
    requires Alone(w, s) && w.clock <= s.lastUsed && s.timeWindow <= s.lastUsed
    requires s.lastUsed + SECOND <= until < s.expires && until < lo
    ensures var run, kept := KeepAlive(s.token, s.lastUsed, until), KeptAlive(s, until);
            && AllowedRun(w, run) && CountAdmitted(w, run, s.token, lo) == 0
            && Alone(Run(w, run), kept) && kept.token == s.token && kept.expires == s.expires
            && Run(w, run).clock <= kept.lastUsed && kept.timeWindow <= kept.lastUsed
            && kept.lastUsed + SECOND <= until < kept.lastUsed + HOUR
    decreases until - s.lastUsed
  {
    if until - s.lastUsed >= HOUR {
      var now := s.lastUsed + HOUR / 2;
      var one, next := Requests(s.token, now, 1), s.(lastUsed := now, timeWindow := now, requests := 1);
      OpeningRequest(w, s, now, lo);
      KeepingAlive(Run(w, one), next, until, lo);
      RunsConcat(w, one, KeepAlive(s.token, now, until), s.token, lo);
    }
  }

  /**
   The session is kept from idling; one request opens a window just before, nine more fit in it, then
   a whole new one.
   */
  function NineteenRun(token: Token, start: int, lo: int): seq<Arrival> {
    KeepAlive(token, start, lo - 1) +
    (Requests(token, lo - 1, 1) + (Requests(token, lo, MAX_REQUESTS - 1) + WindowOf(token, lo - 1 + SECOND)))
  }

  lemma NineteenFromHere(w: World, s: Session, lo: int)
    requires Alone(w, s) && Usable(w, s, lo - 1) && s.timeWindow + SECOND < lo && lo - 1 + SECOND < s.expires
    ensures var run := Requests(s.token, lo - 1, 1) +
                       (Requests(s.token, lo, MAX_REQUESTS - 1) + WindowOf(s.token, lo - 1 + SECOND));
            AllowedRun(w, run) && CountAdmitted(w, run, s.token, lo) == 19
  {
    var opening, rest := Requests(s.token, lo - 1, 1), Requests(s.token, lo, MAX_REQUESTS - 1);
    var next := lo - 1 + SECOND;
    OpeningRequest(w, s, lo - 1, lo);
    var w1, s1 := Run(w, opening), s.(lastUsed := lo - 1, timeWindow := lo - 1, requests := 1);
    ManyRequests(w1, s1, lo, MAX_REQUESTS - 1, lo);
    FullWindow(Run(w1, rest), s1.(lastUsed := lo, requests := MAX_REQUESTS), next, lo);
    RunsConcat(w1, rest, WindowOf(s.token, next), s.token, lo);
    RunsConcat(w, opening, rest + WindowOf(s.token, next), s.token, lo);
  }

  /** Nineteen are reached in every later second of the session's eight hours that leaves room for the last window. */
  lemma NineteenAreReached(bearer: Token, token: Token, start: int, lo: int)
    requires start + SECOND < lo && lo - 1 + SECOND < start + 8 * HOUR
    ensures var w := Apply(Fresh(bearer, start), FirstLogin(bearer, token, start));
            && AllowedRun(Fresh(bearer, start), [FirstLogin(bearer, token, start)])
            && AllowedRun(w, NineteenRun(token, start, lo))
            && CountAdmitted(w, NineteenRun(token, start, lo), token, lo) == 19
  {
    var w := Apply(Fresh(bearer, start), FirstLogin(bearer, token, start));
    var s := Session(token, start, start + 8 * HOUR, start, 0);
    AfterFirstLogin(bearer, token, start);
    KeepingAlive(w, s, lo - 1, lo);
    var alive, kept := KeepAlive(token, start, lo - 1), KeptAlive(s, lo - 1);
    NineteenFromHere(Run(w, alive), kept, lo);
    RunsConcat(w, alive, Requests(token, lo - 1, 1) +
                         (Requests(token, lo, MAX_REQUESTS - 1) + WindowOf(token, lo - 1 + SECOND)), token, lo);
  }

  function FailuresNow(g: Gate, now: int): nat {
    if now - g.failureWindow >= MINUTE then 0 else g.failures
  }

  /** The arrival opens a failure window that is in force at `lo`, and is not itself a failed login. */
  predicate OpensQuietly(w: World, a: Arrival, lo: int) {
    && a.request.Login? && a.now - w.gate.failureWindow >= MINUTE && lo - MINUTE < a.now < lo
    && Respond(w, a) != BadCredential
  }

  predicate QuietlyOpened(w: World, arrivals: seq<Arrival>, lo: int)
    decreases |arrivals|
  {
    arrivals != [] && (OpensQuietly(w, arrivals[0], lo) || QuietlyOpened(Apply(w, arrivals[0]), arrivals[1..], lo))
  }

  predicate SharpFailures(w: World, lo: int, count: nat) {
    && count <= 2 * MAX_FAILURES - 1
    && (w.clock < lo ==> count == 0)
    && (w.clock < lo + MINUTE ==>
          if w.gate.failureWindow >= lo then count <= w.gate.failures + MAX_FAILURES - 1
          else if w.gate.failureWindow + MINUTE <= lo then count == 0
          else (count == 0 && w.clock >= w.gate.failureWindow + MINUTE) || count < w.gate.failures)
  }

  lemma {:induction false} SharpFailuresFromHere(w: World, arrivals: seq<Arrival>, lo: int, count: nat)
    requires Inv(w) && AllowedRun(w, arrivals) && SharpFailures(w, lo, count) && !QuietlyOpened(w, arrivals, lo)
    ensures count + CountFailures(w, arrivals, lo) <= 2 * MAX_FAILURES - 1
    decreases |arrivals|
  {
    if arrivals != [] {
      var a := arrivals[0];
      ApplyKeepsInv(w, a);
      SharpFailuresFromHere(Apply(w, a), arrivals[1..], lo,
                            count + if lo <= a.now < lo + MINUTE && Respond(w, a) == BadCredential then 1 else 0);
    }
  }

  /**
   Ten failures in a minute need a window that a login other than a failed one opened before it and
   that is still in force when it begins; without one there are at most nine. The clock counts from
   the zero time that a new gateway's window starts at, which is long past.
   */
  lemma TenFailuresNeedAQuietOpening(bearer: Token, clock: int, arrivals: seq<Arrival>, lo: int)
    requires AllowedRun(Fresh(bearer, clock), arrivals) && clock >= MINUTE
    requires !QuietlyOpened(Fresh(bearer, clock), arrivals, lo)
    ensures CountFailures(Fresh(bearer, clock), arrivals, lo) <= 9
  {
    SharpFailuresFromHere(Fresh(bearer, clock), arrivals, lo, 0);
  }

  function Failures(now: int, n: nat): seq<Arrival> {
    seq(n, _ => Arrival(now, Login(None, None, false)))
  }

  /** Failed logins within the window, up to its limit. */
  lemma {:induction false} ManyFailures(w: World, now: int, n: nat, lo: int)
    requires w.clock <= now && n > 0 && FailuresNow(w.gate, now) + n <= MAX_FAILURES
    ensures var run := Failures(now, n);
            && AllowedRun(w, run) && Run(w, run).clock == now
            && Run(w, run).gate.failures == FailuresNow(w.gate, now) + n
            && Run(w, run).gate.failureWindow ==
               (if now - w.gate.failureWindow >= MINUTE then now else w.gate.failureWindow)
            && CountFailures(w, run, lo) == if lo <= now < lo + MINUTE then n else 0
    decreases n
  {
    var run := Failures(now, n);
    assert run[1..] == Failures(now, n - 1);
    if n > 1 {
      ManyFailures(Apply(w, run[0]), now, n - 1, lo);
    } else {
      assert run[1..] == [];
    }
  }

  /** What is left of the window that `opening` opened, then a whole new one. */
  function FailureRun(opening: seq<Arrival>, start: int, lo: int, n: nat): seq<Arrival> {
    (opening + Failures(lo, n)) + Failures(start + MINUTE, MAX_FAILURES)
  }

  lemma FailuresAcross(w: World, opening: seq<Arrival>, start: int, lo: int, n: nat)
    requires AllowedRun(w, opening) && CountFailures(w, opening, lo) == 0 && Run(w, opening).clock == start
    requires Run(w, opening).gate.failureWindow == start && Run(w, opening).gate.failures + n == MAX_FAILURES && n > 0
    requires start < lo < start + MINUTE
    ensures AllowedRun(w, FailureRun(opening, start, lo, n))
    ensures CountFailures(w, FailureRun(opening, start, lo, n), lo) == n + MAX_FAILURES
  {
    var begun, next := Run(w, opening), start + MINUTE;
    ManyFailures(begun, lo, n, lo);
    RunsConcat(w, opening, Failures(lo, n), 0, lo);
    ManyFailures(Run(begun, Failures(lo, n)), next, MAX_FAILURES, lo);
    RunsConcat(w, opening + Failures(lo, n), Failures(next, MAX_FAILURES), 0, lo);
  }

  /** Ten are reached in every minute that begins while the window of a successful login is in force. */
  lemma TenFailuresAreReached(bearer: Token, token: Token, start: int, lo: int)
    requires MINUTE <= start < lo < start + MINUTE
    ensures var run := FailureRun([FirstLogin(bearer, token, start)], start, lo, 5);
            AllowedRun(Fresh(bearer, start), run) && CountFailures(Fresh(bearer, start), run, lo) == 10
  {
    var opening := [FirstLogin(bearer, token, start)];
    AfterFirstLogin(bearer, token, start);
    assert opening[1..] == [];
    FailuresAcross(Fresh(bearer, start), opening, start, lo, 5);
  }

  /** Nine are reached after a failed login. */
  lemma NineFailuresAreReached(bearer: Token, start: int, lo: int)
    requires MINUTE <= start < lo < start + MINUTE
    ensures var run := FailureRun(Failures(start, 1), start, lo, 4);
            AllowedRun(Fresh(bearer, start), run) && CountFailures(Fresh(bearer, start), run, lo) == 9
  {
    ManyFailures(Fresh(bearer, start), start, 1, lo);
    FailuresAcross(Fresh(bearer, start), Failures(start, 1), start, lo, 4);
  }

  // ---------------------------------------------------------------------
  // Logging in
  // ---------------------------------------------------------------------

  /** Every login has exactly one of these ends, in this order. */
  lemma LoginOutcome(w: World, a: Arrival)
    requires Inv(w) && a.request.Login?
    ensures var open, right := FailuresNow(w.gate, a.now) < MAX_FAILURES, a.request.bearer == Some(w.gate.bearer);
            var drawn, room := a.request.drawn.Some?, |LiveOnly(w.gate.sessions, a.now)| < MAX_SESSIONS;
            && (Respond(w, a) == Throttled <==> !open)
            && (Respond(w, a) == BadCredential <==> open && !right)
            && (Respond(w, a) == TableFull <==> open && right && drawn && !room)
            && (Respond(w, a) == DrawFailed <==> open && right && (!drawn || (room && !a.request.runDrawn)))
            && (Respond(w, a).LoggedIn? <==> open && right && drawn && room && a.request.runDrawn)
    ensures Respond(w, a).LoggedIn? ==> Respond(w, a) == LoggedIn(a.request.drawn.value)
  {
  }

  /** What a login leaves: a wrong bearer is counted, and nothing else is. */
  lemma WrongBearersAreCounted(w: World, a: Arrival)
    requires Inv(w) && a.request.Login?
    ensures var g, t := w.gate, Apply(w, a).gate;
            var wrong := FailuresNow(g, a.now) < MAX_FAILURES && a.request.bearer != Some(g.bearer);
            && t.bearer == g.bearer
            && t.failures == FailuresNow(g, a.now) + (if wrong then 1 else 0)
            && t.failureWindow == (if a.now - g.failureWindow >= MINUTE then a.now else g.failureWindow)
            && (wrong ==> Respond(w, a) == BadCredential && t.sessions == g.sessions)
  {
  }

  /** How many logins of a run name another bearer than the one then in force. */
  function WrongGuesses(w: World, arrivals: seq<Arrival>): nat
    decreases |arrivals|
  {
    if arrivals == [] then 0
    else
      (if arrivals[0].request.Login? && arrivals[0].request.bearer != Some(w.gate.bearer) then 1 else 0) +
      WrongGuesses(Apply(w, arrivals[0]), arrivals[1..])
  }

  lemma {:induction false} GuessesFillTheWindow(w: World, arrivals: seq<Arrival>)
    requires Inv(w) && AllowedRun(w, arrivals)
    requires forall i | 0 <= i < |arrivals| :: arrivals[i].now - w.gate.failureWindow < MINUTE
    ensures Run(w, arrivals).gate.failureWindow == w.gate.failureWindow
    ensures Run(w, arrivals).gate.failures == Min(MAX_FAILURES, w.gate.failures + WrongGuesses(w, arrivals))
    decreases |arrivals|
  {
    if arrivals != [] {
      ApplyKeepsInv(w, arrivals[0]);
      if arrivals[0].request.Login? {
        WrongBearersAreCounted(w, arrivals[0]);
      }
      assert forall i | 0 <= i < |arrivals[1..]| :: arrivals[1..][i] == arrivals[i + 1];
      GuessesFillTheWindow(Apply(w, arrivals[0]), arrivals[1..]);
    }
  }

  /**
   Five wrong bearers within one window shut the login to everyone, whatever else arrives between them: the
   first guess opens the window, four more follow before its end, and then the right bearer is throttled too.
   */
  lemma {:induction false} FiveWrongBearersShutTheLogin(w: World, guess: Arrival, later: seq<Arrival>, login: Arrival)
    requires Inv(w) && Allowed(w, guess) && guess.now - w.gate.failureWindow >= MINUTE
    requires guess.request.Login? && guess.request.bearer != Some(w.gate.bearer)
    requires AllowedRun(Apply(w, guess), later) && WrongGuesses(Apply(w, guess), later) >= 4
    requires forall i | 0 <= i < |later| :: later[i].now < guess.now + MINUTE
    requires Allowed(Run(Apply(w, guess), later), login) && login.request.Login? && login.now < guess.now + MINUTE
    ensures Respond(Run(Apply(w, guess), later), login) == Throttled
  {
    ApplyKeepsInv(w, guess);
    WrongBearersAreCounted(w, guess);
    GuessesFillTheWindow(Apply(w, guess), later);
    RunKeepsInv(Apply(w, guess), later);
    LoginOutcome(Run(Apply(w, guess), later), login);
  }

  /** Within a window a login is throttled exactly when it counted five, wrong bearers of the run included. */
  lemma {:induction false} ThrottledExactlyAfterFive(w: World, later: seq<Arrival>, login: Arrival)
    requires Inv(w) && AllowedRun(w, later) && Allowed(Run(w, later), login) && login.request.Login?
    requires forall i | 0 <= i < |later| :: later[i].now - w.gate.failureWindow < MINUTE
    requires login.now - w.gate.failureWindow < MINUTE
    ensures Respond(Run(w, later), login) == Throttled <==> w.gate.failures + WrongGuesses(w, later) >= 5
  {
    GuessesFillTheWindow(w, later);
    RunKeepsInv(w, later);
    LoginOutcome(Run(w, later), login);
  }

  /** What an admitted request is answered, by its action: only an administrator's decoded rotation rotates. */
  lemma ActionAnswers(w: World, a: Arrival)
    requires Inv(w) && a.request.Authorized? && Respond(w, a) != NoSession && Respond(w, a) != RateLimited
    ensures Respond(w, a) ==
            match a.request.action
            case Logout(decodes) => if decodes then LoggedOut else BadRequest
            case Rotate(decodes, admin, next) =>
              if !decodes then BadRequest else if !admin then Forbidden else if next.None? then DrawFailed else Rotated
            case Rpc => Served
            case Unknown => Served
  {
  }

  predicate HasToken(sessions: seq<Session>, token: Token) {
    exists i | 0 <= i < |sessions| :: sessions[i].token == token
  }

  /**
   What a request leaves besides counters and times: a rotation empties the table and changes the bearer, a
   logout takes its own session, nothing else takes any.
   */
  lemma WhatRequestsLeave(w: World, a: Arrival)
    requires Inv(w) && !a.request.Login?
    ensures var g, t := w.gate, Apply(w, a).gate;
            && t.failures == g.failures && t.failureWindow == g.failureWindow
            && (Respond(w, a) == Rotated ==> Some(t.bearer) == a.request.action.next && t.sessions == [])
            && (Respond(w, a) != Rotated ==>
                  && t.bearer == g.bearer
                  && forall token :: HasToken(t.sessions, token) <==>
                       HasToken(g.sessions, token) && !(Respond(w, a) == LoggedOut && a.request.token == token))
  {
    if a.request.Authorized? {
      var index := Lookup(w.gate.sessions, a.request.token, a.now);
      if index >= 0 {
        TouchKeepsTokens(w.gate.sessions, index, a.now);
        LogoutTakesOne(w.gate.sessions[index := Touch(w.gate.sessions[index], a.now)], index);
      }
    }
  }

  lemma TouchKeepsTokens(sessions: seq<Session>, index: nat, now: int)
    requires index < |sessions|
    ensures forall token ::
              HasToken(sessions[index := Touch(sessions[index], now)], token) <==> HasToken(sessions, token)
  {
    var touched := sessions[index := Touch(sessions[index], now)];
    forall token ensures HasToken(touched, token) <==> HasToken(sessions, token) {
      assert forall i | 0 <= i < |sessions| :: touched[i].token == sessions[i].token;
    }
  }

  lemma LogoutTakesOne(sessions: seq<Session>, index: nat)
    requires index < |sessions| && Distinct(sessions)
    ensures var rest := sessions[..index] + sessions[index + 1..];
            forall token :: HasToken(rest, token) <==> HasToken(sessions, token) && token != sessions[index].token
  {
    var rest := sessions[..index] + sessions[index + 1..];
    WithoutOne(sessions, index);
    forall token ensures HasToken(rest, token) <==> HasToken(sessions, token) && token != sessions[index].token {
      if i :| 0 <= i < |rest| && rest[i].token == token {
        assert rest[i] in rest && rest[i] in sessions;
      }
      if HasToken(sessions, token) && token != sessions[index].token {
        var i :| 0 <= i < |sessions| && sessions[i].token == token;
        assert sessions[i] in sessions && sessions[i] in rest;
      }
    }
  }

  /** The rotations of a run never draw this secret. */
  predicate NeverDraws(arrivals: seq<Arrival>, secret: Token) {
    forall i | 0 <= i < |arrivals| ::
      arrivals[i].request.Authorized? && arrivals[i].request.action.Rotate? ==>
        arrivals[i].request.action.next != Some(secret)
  }

  lemma StepKeepsRetired(w: World, a: Arrival, secret: Token)
    requires w.gate.bearer != secret && NeverDraws([a], secret)
    ensures Apply(w, a).gate.bearer != secret
  {
    assert [a][0] == a;
  }

  lemma {:induction false} RetiredStays(w: World, later: seq<Arrival>, secret: Token)
    requires w.gate.bearer != secret && NeverDraws(later, secret)
    ensures Run(w, later).gate.bearer != secret
    decreases |later|
  {
    if later != [] {
      StepKeepsRetired(w, later[0], secret);
      assert forall i | 0 <= i < |later[1..]| :: later[1..][i] == later[i + 1];
      RetiredStays(Apply(w, later[0]), later[1..], secret);
    }
  }

  /**
   A rotation retires the bearer: over any later run whose rotations draw fresh secrets, it never logs
   anyone in again.
   */
  lemma RotationRetiresTheBearer(w: World, rotate: Arrival, later: seq<Arrival>, login: Arrival)
    requires Inv(w) && Allowed(w, rotate) && Respond(w, rotate) == Rotated
    requires NeverDraws([rotate] + later, w.gate.bearer)
    requires AllowedRun(Apply(w, rotate), later) && Allowed(Run(Apply(w, rotate), later), login)
    requires login.request.Login? && login.request.bearer == Some(w.gate.bearer)
    ensures !Respond(Run(Apply(w, rotate), later), login).LoggedIn?
  {
    var all := [rotate] + later;
    assert all[0] == rotate && forall i | 0 <= i < |later| :: all[i + 1] == later[i];
    assert Apply(w, rotate).gate.bearer != w.gate.bearer;
    RetiredStays(Apply(w, rotate), later, w.gate.bearer);
    ApplyKeepsInv(w, rotate);
    RunKeepsInv(Apply(w, rotate), later);
    LoginOutcome(Run(Apply(w, rotate), later), login);
  }

  lemma {:induction false} ThrottleIsKept(w: World, later: seq<Arrival>)
    requires Inv(w) && AllowedRun(w, later) && w.gate.failures == MAX_FAILURES
    requires forall i | 0 <= i < |later| :: later[i].now - w.gate.failureWindow < MINUTE
    ensures Run(w, later).gate.failures == MAX_FAILURES && Run(w, later).gate.failureWindow == w.gate.failureWindow
    decreases |later|
  {
    if later != [] {
      ApplyKeepsInv(w, later[0]);
      assert forall i | 0 <= i < |later[1..]| :: later[1..][i] == later[i + 1];
      ThrottleIsKept(Apply(w, later[0]), later[1..]);
    }
  }

  lemma {:induction false} ClockBounds(w: World, later: seq<Arrival>)
    requires AllowedRun(w, later)
    ensures w.clock <= Run(w, later).clock && forall i | 0 <= i < |later| :: later[i].now <= Run(w, later).clock
    decreases |later|
  {
    if later != [] {
      ClockBounds(Apply(w, later[0]), later[1..]);
      assert forall i | 0 < i < |later| :: later[i] == later[1..][i - 1];
    }
  }

  /**
   Five failures shut the login for the rest of their window: whatever else arrives, every login before
   its end is throttled, with the right bearer too, and the first one at its end or later is not.
   */
  lemma ThrottledUntilTheWindowEnds(w: World, later: seq<Arrival>, login: Arrival)
    requires Inv(w) && w.gate.failures == MAX_FAILURES && AllowedRun(w, later) && Allowed(Run(w, later), login)
    requires login.request.Login?
    ensures login.now < w.gate.failureWindow + MINUTE ==> Respond(Run(w, later), login) == Throttled
    ensures (forall i | 0 <= i < |later| :: later[i].now < w.gate.failureWindow + MINUTE) ==>
              (Respond(Run(w, later), login) == Throttled <==> login.now < w.gate.failureWindow + MINUTE)
  {
    RunKeepsInv(w, later);
    ClockBounds(w, later);
    LoginOutcome(Run(w, later), login);
    if forall i | 0 <= i < |later| :: later[i].now < w.gate.failureWindow + MINUTE {
      ThrottleIsKept(w, later);
    }
  }

  /** A session no request touches is accepted for an hour after its login, and no longer. */
  lemma LoginOpensASession(w: World, login: Arrival, use: Arrival)
    requires Inv(w) && Allowed(w, login) && Respond(w, login).LoggedIn?
    requires Allowed(Apply(w, login), use)
    requires use.request.Authorized? && use.request.token == Respond(w, login).token
    ensures Respond(Apply(w, login), use) != NoSession <==> use.now - login.now < HOUR
  {
    var t := Apply(w, login);
    var session := t.gate.sessions[|t.gate.sessions| - 1];
    ApplyKeepsInv(w, login);
    AcceptedExactlyWhenLive(t, use);
    assert session in t.gate.sessions && session.token == use.request.token;
    forall i | 0 <= i < |t.gate.sessions| && t.gate.sessions[i].token == session.token
      ensures t.gate.sessions[i] == session {
    }
  }

  /** Every session of this token expires by `end`. */
  predicate ExpiresBy(sessions: seq<Session>, token: Token, end: int) {
    forall s | s in sessions && s.token == token :: s.expires <= end
  }

  lemma StepKeepsExpiry(w: World, a: Arrival, token: Token, end: int)
    requires Inv(w) && Allowed(w, a) && token in w.issued && ExpiresBy(w.gate.sessions, token, end)
    ensures token in Apply(w, a).issued && ExpiresBy(Apply(w, a).gate.sessions, token, end)
  {
    if a.request.Login? {
      LiveOnlyIsAFilter(w.gate.sessions, a.now);
    } else if a.request.Authorized? && Lookup(w.gate.sessions, a.request.token, a.now) >= 0 {
      assert w.gate.sessions[Lookup(w.gate.sessions, a.request.token, a.now)] in w.gate.sessions;
      AfterAuthorized(w, a);
    }
  }

  lemma {:induction false} ExpiryIsKept(w: World, later: seq<Arrival>, token: Token, end: int)
    requires Inv(w) && AllowedRun(w, later) && token in w.issued && ExpiresBy(w.gate.sessions, token, end)
    ensures ExpiresBy(Run(w, later).gate.sessions, token, end)
    decreases |later|
  {
    if later != [] {
      ApplyKeepsInv(w, later[0]);
      StepKeepsExpiry(w, later[0], token, end);
      ExpiryIsKept(Apply(w, later[0]), later[1..], token, end);
    }
  }

  /**
   Use refreshes the idle hour but never the expiry: eight hours after its login no session is
   accepted, however busy.
   */
  lemma NoSessionOutlivesEightHours(w: World, login: Arrival, later: seq<Arrival>, use: Arrival)
    requires Inv(w) && Allowed(w, login) && Respond(w, login).LoggedIn?
    requires AllowedRun(Apply(w, login), later) && Allowed(Run(Apply(w, login), later), use)
    requires use.request.Authorized? && use.request.token == Respond(w, login).token
    requires use.now >= login.now + 8 * HOUR
    ensures Respond(Run(Apply(w, login), later), use) == NoSession
  {
    var token := Respond(w, login).token;
    LiveOnlyIsAFilter(w.gate.sessions, login.now);
    ApplyKeepsInv(w, login);
    var table := Apply(w, login).gate.sessions;
    forall s | s in LiveOnly(w.gate.sessions, login.now) ensures s.token != token {
      assert s in w.gate.sessions;
    }
    assert forall s | s in table && s.token == token :: s.expires == login.now + 8 * HOUR;
    ExpiryIsKept(Apply(w, login), later, token, login.now + 8 * HOUR);
    RunKeepsInv(Apply(w, login), later);
    AcceptedExactlyWhenLive(Run(Apply(w, login), later), use);
  }

  // ---------------------------------------------------------------------
  // Sessions that ended
  // ---------------------------------------------------------------------

  /** The token was handed out and no live session carries it any more. */
  predicate Dead(w: World, token: Token) {
    token in w.issued && RanOut(w.gate.sessions, token, w.clock)
  }

  /** Every session of this token has expired or idled for an hour. */
  predicate RanOut(sessions: seq<Session>, token: Token, now: int) {
    forall s | s in sessions && s.token == token :: !Live(s, now)
  }

  lemma EndedByTime(w: World, a: Arrival, token: Token)
    requires Inv(w) && Allowed(w, a) && token in w.issued && RanOut(w.gate.sessions, token, a.now)
    ensures RanOut(Apply(w, a).gate.sessions, token, a.now)
  {
    if a.request.Login? {
      LiveOnlyIsAFilter(w.gate.sessions, a.now);
    } else if a.request.Authorized? && Lookup(w.gate.sessions, a.request.token, a.now) >= 0 {
      var index := Lookup(w.gate.sessions, a.request.token, a.now);
      assert w.gate.sessions[index] in w.gate.sessions;
      AfterAuthorized(w, a);
    }
  }

  lemma EndedByLogout(w: World, a: Arrival)
    requires Inv(w) && a.request.Authorized? && Respond(w, a) == LoggedOut
    ensures RanOut(Apply(w, a).gate.sessions, a.request.token, a.now)
  {
    var index := Lookup(w.gate.sessions, a.request.token, a.now);
    var touched := w.gate.sessions[index := Touch(w.gate.sessions[index], a.now)];
    TouchingOne(w.gate.sessions, index, touched[index]);
    WithoutOne(touched, index);
  }

  /** What ends a session: its own logout, any rotation, its expiry, an idle hour. */
  lemma WhatEndsASession(w: World, a: Arrival, token: Token)
    requires Inv(w) && Allowed(w, a) && token in w.issued
    requires
      || (a.request.Authorized? && a.request.token == token && Respond(w, a) == LoggedOut)
      || Respond(w, a) == Rotated
      || (forall s | s in w.gate.sessions && s.token == token :: s.expires <= a.now || a.now - s.lastUsed >= HOUR)
    ensures Dead(Apply(w, a), token)
  {
    if Respond(w, a) == Rotated {
      assert Apply(w, a).gate.sessions == [];
    } else if a.request.Authorized? && a.request.token == token && Respond(w, a) == LoggedOut {
      EndedByLogout(w, a);
    } else {
      EndedByTime(w, a, token);
    }
  }

  /** A session that has ended is never accepted again. */
  lemma {:induction false} DeadIsForever(w: World, later: seq<Arrival>, a: Arrival, token: Token)
    requires Inv(w) && Dead(w, token) && AllowedRun(w, later) && Allowed(Run(w, later), a)
    requires a.request.Authorized? && a.request.token == token
    ensures Respond(Run(w, later), a) == NoSession
    decreases |later|
  {
    if later != [] {
      ApplyKeepsInv(w, later[0]);
      StaysDead(w, later[0], token);
      DeadIsForever(Apply(w, later[0]), later[1..], a, token);
    }
  }

  lemma StaysDead(w: World, a: Arrival, token: Token)
    requires Inv(w) && Allowed(w, a) && Dead(w, token)
    ensures Dead(Apply(w, a), token)
  {
    WhatEndsASession(w, a, token);
  }

  /** A session is accepted as long as it has neither expired nor idled: the lookup is exact. */
  lemma AcceptedExactlyWhenLive(w: World, a: Arrival)
    requires Inv(w) && Allowed(w, a) && a.request.Authorized?
    ensures Respond(w, a) != NoSession <==>
            exists i ::
              && 0 <= i < |w.gate.sessions| && w.gate.sessions[i].token == a.request.token
              && Live(w.gate.sessions[i], a.now)
  {
  }

  // ---------------------------------------------------------------------
  // The gateway object
  // ---------------------------------------------------------------------

  class HumanGateway {
    const sessions: array<Session>
    var count: nat
    var failures: nat
    var failureWindow: int
    var bearer: Token

    ghost predicate Valid()
      reads this
    {
      sessions.Length == MAX_SESSIONS && count <= MAX_SESSIONS
    }

    ghost function View(): Gate
      requires Valid()
      reads this, sessions
    {
      Gate(sessions[..count], failures, failureWindow, bearer)
    }

    constructor (bearer: Token)
      ensures Valid() && fresh(sessions) && View() == Fresh(bearer, 0).gate
    {
      sessions := new Session[MAX_SESSIONS];
      count, failures, failureWindow := 0, 0, 0;
      this.bearer := bearer;
    }

    /** The pruning loop of login, which filters the slice into its own front. */
    method Prune(now: int)
      requires Valid()
      modifies this`count, sessions
      ensures Valid() && sessions[..count] == LiveOnly(old(sessions[..count]), now)
    {
      ghost var before := sessions[..count];
      var n := count;
      var kept := 0;
      for i := 0 to n
        invariant kept <= i && count == n
        invariant sessions[..kept] == LiveOnly(before[..i], now)
        invariant sessions[i..n] == before[i..]
      {
        var s := sessions[i];
        assert before[..i + 1][..i] == before[..i];
        assert s == sessions[i..n][0] == before[i];
        assert sessions[i + 1..n] == sessions[i..n][1..] == before[i + 1..];
        if Live(s, now) {
          sessions[kept] := s;
          kept := kept + 1;
        }
      }
      count := kept;
      assert before[..n] == before;
    }

    method Find(token: Token, now: int) returns (index: int)
      requires Valid()
      ensures index == Lookup(sessions[..count], token, now)
    {
      index := -1;
      for i := 0 to count
        invariant index == Lookup(sessions[..i], token, now)
      {
        assert sessions[..i + 1][..i] == sessions[..i];
        if sessions[i].token == token && Live(sessions[i], now) {
          index := i;
        }
      }
    }

    /** append(sessions[:index], sessions[index+1:]...) */
    method Remove(index: nat)
      requires Valid() && index < count
      modifies this`count, sessions
      ensures Valid() && sessions[..count] == old(sessions[..count])[..index] + old(sessions[..count])[index + 1..]
    {
      ghost var before := sessions[..count];
      var n := count;
      for i := index to n - 1
        invariant count == n
        invariant forall k | 0 <= k < i :: sessions[k] == before[if k < index then k else k + 1]
        invariant forall k | i < k < n :: sessions[k] == before[k]
      {
        sessions[i] := sessions[i + 1];
      }
      count := n - 1;
    }

    method HandleLoginRequest(now: int, credential: Option<Token>, drawn: Option<Token>, runDrawn: bool)
      returns (response: Response)
      requires Valid()
      modifies this, sessions
      ensures Valid() && (View(), response) == HandleLogin(old(View()), now, credential, drawn, runDrawn)
    {
      if now - failureWindow >= MINUTE {
        failureWindow := now;
        failures := 0;
      }
      if failures >= MAX_FAILURES {
        return Throttled;
      }
      if credential != Some(bearer) {
        failures := failures + 1;
        return BadCredential;
      }
      if drawn.None? {
        return DrawFailed;
      }
      Prune(now);
      if count >= MAX_SESSIONS {
        return TableFull;
      }
      if !runDrawn {
        return DrawFailed;
      }
      ghost var kept := sessions[..count];
      sessions[count] := Session(drawn.value, now, now + 8 * HOUR, now, 0);
      count := count + 1;
      assert sessions[..count] == kept + [Session(drawn.value, now, now + 8 * HOUR, now, 0)];
      return LoggedIn(drawn.value);
    }

    method HandleAuthorized(now: int, token: Token, action: Action) returns (response: Response)
      requires Valid()
      modifies this, sessions
      ensures Valid() && (View(), response) == Handle(old(View()), now, Authorized(token, action))
    {
      var index := Find(token, now);
      if index < 0 {
        return NoSession;
      }
      ghost var before := sessions[..count];
      var s := sessions[index].(lastUsed := now);
      if now - s.timeWindow >= SECOND {
        s := s.(timeWindow := now, requests := 0);
      }
      s := s.(requests := s.requests + 1);
      sessions[index] := s;
      assert sessions[..count] == before[index := Touch(before[index], now)];
      if s.requests > MAX_REQUESTS {
        return RateLimited;
      }
      match action {
        case Logout(decodes) =>
          if !decodes {
            return BadRequest;
          }
          Remove(index);
          return LoggedOut;
        case Rotate(decodes, admin, next) =>
          if !decodes {
            return BadRequest;
          }
          if !admin {
            return Forbidden;
          }
          if next.None? {
            return DrawFailed;
          }
          bearer := next.value;
          count := 0;
          return Rotated;
        case Rpc => return Served;
        case Unknown => return Served;
      }
    }
  }
}
