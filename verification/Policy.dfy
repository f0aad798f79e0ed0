/** The policy engine: nonce replay, per-payment limits, and window counters with
    reservations that can be given back. */
module Policies {
  import opened Options
  import opened Records

  datatype Policy = Policy(
    maxAmount: int, maxCumulative: int, maxPayments: int, windowMs: int,
    allowedPayees: Option<seq<string>>, allowedCurrencies: Option<seq<string>>, allowedTools: Option<seq<string>>)

  datatype SpendRequest = SpendRequest(
    amount: int, currency: string, payee: string, nonce: string, nowMs: int, tool: Option<string>)

  datatype DenyReason =
    | ReplayNonce | AmountNotPositive | LimitAmount | ScopePayee | ScopeCurrency | ScopeTool
    | Velocity | LimitCumulative | DecisionReplay | DecisionMismatch

  datatype Decision = Allow(decisionId: nat) | Deny(reason: DenyReason)

  datatype Counters = Counters(windowStartMs: int, allowedCount: int, allowedSum: int)

  datatype Store = Store(usedNonces: set<string>, consumed: set<nat>, counters: Counters, nextDecision: nat)

  const EMPTY_STORE := Store({}, {}, Counters(0, 0, 0), 1)

  // --------------------------------------------------------- one call, on values

  predicate Listed(list: Option<seq<string>>, x: string) { list.Some? ==> x in list.value }

  /** The checks made before the window is looked at. */
  function EarlyRefusal(s: Store, p: Policy, req: SpendRequest): Option<DenyReason> {
    if req.nonce in s.usedNonces then Some(ReplayNonce)
    else if req.amount <= 0 then Some(AmountNotPositive)
    else if req.amount > p.maxAmount then Some(LimitAmount)
    else if !Listed(p.allowedPayees, req.payee) then Some(ScopePayee)
    else if !Listed(p.allowedCurrencies, req.currency) then Some(ScopeCurrency)
    else if p.allowedTools.Some? && (req.tool.None? || req.tool.value !in p.allowedTools.value) then Some(ScopeTool)
    else None
  }

  function Roll(c: Counters, p: Policy, nowMs: int): Counters {
    if c.windowStartMs == 0 || nowMs - c.windowStartMs >= p.windowMs then Counters(nowMs, 0, 0) else c
  }

  function EvaluateStep(s: Store, p: Policy, req: SpendRequest): (Store, Decision) {
    var early := EarlyRefusal(s, p, req);
    if early.Some? then (s, Deny(early.value))
    else
      var c := Roll(s.counters, p, req.nowMs);
      if c.allowedCount >= p.maxPayments then (s.(counters := c), Deny(Velocity))
      else if c.allowedSum + req.amount > p.maxCumulative then (s.(counters := c), Deny(LimitCumulative))
      else
        (Store(s.usedNonces + {req.nonce}, s.consumed,
               c.(allowedCount := c.allowedCount + 1, allowedSum := c.allowedSum + req.amount),
               s.nextDecision + 1),
         Allow(s.nextDecision))
  }

  /** Give a reservation back. A reservation of unknown time (None) or of a window
      that has rolled is not taken off the counters. */
  function ReleaseStep(s: Store, nonce: string, amount: int, reservedAtMs: Option<int>): Store {
    var c := s.counters;
    s.(usedNonces := s.usedNonces - {nonce},
       counters :=
         if reservedAtMs.Some? && reservedAtMs.value >= c.windowStartMs then
           c.(allowedCount := if c.allowedCount - 1 > 0 then c.allowedCount - 1 else 0,
              allowedSum := if c.allowedSum >= amount then c.allowedSum - amount else 0)
         else c)
  }

  function ConsumeStep(s: Store, decisionId: nat, amount: int, sameRequest: bool): (Store, Decision) {
    if amount <= 0 then (s, Deny(AmountNotPositive))
    else if decisionId in s.consumed then (s, Deny(DecisionReplay))
    else if !sameRequest then (s, Deny(DecisionMismatch))
    else (s.(consumed := s.consumed + {decisionId}), Allow(decisionId))
  }

  // ------------------------------------------------------------------ the engine

  class PolicyEngine<H(==)> {
    const policy: Policy
    const requestHashOf: SpendRequest -> H
    var usedNonces: set<string>
    var consumedDecisions: set<nat>
    var counters: Counters
    var nextDecision: nat

    function View(): Store
      reads this
    {
      Store(usedNonces, consumedDecisions, counters, nextDecision)
    }

    constructor (policy: Policy, requestHashOf: SpendRequest -> H)
      ensures this.policy == policy && this.requestHashOf == requestHashOf && View() == EMPTY_STORE
    {
      this.policy, this.requestHashOf := policy, requestHashOf;
      usedNonces, consumedDecisions, counters, nextDecision := {}, {}, Counters(0, 0, 0), 1;
    }

    method RollWindow(nowMs: int)
      modifies this`counters
      ensures counters == Roll(old(counters), policy, nowMs)
    {
      if counters.windowStartMs == 0 || nowMs - counters.windowStartMs >= policy.windowMs {
        counters := Counters(nowMs, 0, 0);
      }
    }

    method Evaluate(req: SpendRequest) returns (d: Decision)
      modifies this
      ensures (View(), d) == EvaluateStep(old(View()), policy, req)
    {
      if req.nonce in usedNonces { return Deny(ReplayNonce); }
      if req.amount <= 0 { return Deny(AmountNotPositive); }
      if req.amount > policy.maxAmount { return Deny(LimitAmount); }
      if policy.allowedPayees.Some? && req.payee !in policy.allowedPayees.value { return Deny(ScopePayee); }
      if policy.allowedCurrencies.Some? && req.currency !in policy.allowedCurrencies.value {
        return Deny(ScopeCurrency);
      }
      if policy.allowedTools.Some? && (req.tool.None? || req.tool.value !in policy.allowedTools.value) {
        return Deny(ScopeTool);
      }
      RollWindow(req.nowMs);
      if counters.allowedCount >= policy.maxPayments { return Deny(Velocity); }
      if counters.allowedSum + req.amount > policy.maxCumulative { return Deny(LimitCumulative); }
      usedNonces := usedNonces + {req.nonce};
      counters := counters.(allowedCount := counters.allowedCount + 1,
                            allowedSum := counters.allowedSum + req.amount);
      d := Allow(nextDecision);
      nextDecision := nextDecision + 1;
    }

    method Release(nonce: string, amount: int, reservedAtMs: Option<int>)
      modifies this
      ensures View() == ReleaseStep(old(View()), nonce, amount, reservedAtMs)
    {
      usedNonces := usedNonces - {nonce};
      if reservedAtMs.Some? && reservedAtMs.value >= counters.windowStartMs {
        counters := counters.(
          allowedCount := if counters.allowedCount - 1 > 0 then counters.allowedCount - 1 else 0,
          allowedSum := if counters.allowedSum >= amount then counters.allowedSum - amount else 0);
      }
    }

    method ConsumeDecision(decisionId: nat, requestHash: H, req: SpendRequest) returns (d: Decision)
      modifies this
      ensures (View(), d) == ConsumeStep(old(View()), decisionId, req.amount, requestHashOf(req) == requestHash)
    {
      if req.amount <= 0 { return Deny(AmountNotPositive); }
      if decisionId in consumedDecisions { return Deny(DecisionReplay); }
      if requestHashOf(req) != requestHash { return Deny(DecisionMismatch); }
      consumedDecisions := consumedDecisions + {decisionId};
      return Allow(decisionId);
    }
  }

  // ------------------------------------------------------------- runs of the engine

  /** One reservation `evaluate` ever granted: the window it was counted in and
      whether it has been given back. */
  datatype Reservation = Reservation(nonce: string, amount: int, atMs: int, window: nat, released: bool)

  /** The store with the history behind it: every reservation in order, and the
      start of every window so far. */
  datatype Trace = Trace(store: Store, history: seq<Reservation>, starts: seq<int>)

  datatype Op = Evaluate(req: SpendRequest) | Release(k: nat)

  const EMPTY_TRACE := Trace(EMPTY_STORE, [], [])

  /** A clock that may run backwards but is positive, and a reservation given back
      at most once. */
  predicate Allowed(t: Trace, op: Op) {
    match op
    case Evaluate(req) => req.nowMs > 0
    case Release(k) => k < |t.history| && !t.history[k].released
  }

  function Next(t: Trace, p: Policy, op: Op): Trace
    requires Allowed(t, op)
  {
    match op
    case Evaluate(req) =>
      var (s, d) := EvaluateStep(t.store, p, req);
      var starts := if s.counters.windowStartMs != t.store.counters.windowStartMs
                    then t.starts + [req.nowMs] else t.starts;
      if d.Allow? && starts != [] then
        Trace(s, t.history + [Reservation(req.nonce, req.amount, req.nowMs, |starts| - 1, false)], starts)
      else Trace(s, t.history, starts)
    case Release(k) =>
      var r := t.history[k];
      Trace(ReleaseStep(t.store, r.nonce, r.amount, Some(r.atMs)),
            t.history[k := r.(released := true)], t.starts)
  }

  /** The trace of a run, None as soon as an operation is not allowed. */
  function Run(p: Policy, ops: seq<Op>): Option<Trace> {
    if ops == [] then Some(EMPTY_TRACE)
    else
      var before := Run(p, ops[..|ops| - 1]);
      var op := ops[|ops| - 1];
      if before.Some? && Allowed(before.value, op) then Some(Next(before.value, p, op)) else None
  }

  // ------------------------------------------------------- counting reservations

  /** Reservations of one window not given back. */
  function LiveCount(h: seq<Reservation>, w: nat): nat {
    if h == [] then 0
    else
      var r := h[|h| - 1];
      LiveCount(h[..|h| - 1], w) + if !r.released && r.window == w then 1 else 0
  }

  function LiveSum(h: seq<Reservation>, w: nat): int {
    if h == [] then 0
    else
      var r := h[|h| - 1];
      LiveSum(h[..|h| - 1], w) + if !r.released && r.window == w then r.amount else 0
  }

  lemma {:induction false} LiveAppend(h: seq<Reservation>, r: Reservation, w: nat)
    ensures LiveCount(h + [r], w) == LiveCount(h, w) + if !r.released && r.window == w then 1 else 0
    ensures LiveSum(h + [r], w) == LiveSum(h, w) + if !r.released && r.window == w then r.amount else 0
  {
    assert (h + [r])[..|h|] == h;
  }

  lemma {:induction false} LiveRelease(h: seq<Reservation>, k: nat, w: nat)
    requires k < |h| && !h[k].released
    ensures var h' := h[k := h[k].(released := true)];
            && LiveCount(h', w) == LiveCount(h, w) - (if h[k].window == w then 1 else 0)
            && LiveSum(h', w) == LiveSum(h, w) - (if h[k].window == w then h[k].amount else 0)
    decreases |h|
  {
    var h' := h[k := h[k].(released := true)];
    var init := h[..|h| - 1];
    if k == |h| - 1 {
      assert h'[..|h| - 1] == init;
    } else {
      assert h'[..|h| - 1] == init[k := init[k].(released := true)];
      LiveRelease(init, k, w);
    }
  }

  lemma {:induction false} LiveIncludes(h: seq<Reservation>, k: nat)
    requires k < |h| && !h[k].released
    requires forall i :: 0 <= i < |h| ==> h[i].amount > 0
    ensures LiveCount(h, h[k].window) >= 1 && LiveSum(h, h[k].window) >= h[k].amount
    decreases |h|
  {
    LiveSumNonNegative(h[..|h| - 1], h[k].window);
    if k < |h| - 1 { LiveIncludes(h[..|h| - 1], k); }
  }

  lemma {:induction false} LiveSumNonNegative(h: seq<Reservation>, w: nat)
    requires forall i :: 0 <= i < |h| ==> h[i].amount > 0
    ensures LiveSum(h, w) >= 0
  {
    if h != [] { LiveSumNonNegative(h[..|h| - 1], w); }
  }

  lemma {:induction false} LiveNone(h: seq<Reservation>, w: nat)
    requires forall i :: 0 <= i < |h| ==> h[i].window < w
    ensures LiveCount(h, w) == 0 && LiveSum(h, w) == 0
  {
    if h != [] { LiveNone(h[..|h| - 1], w); }
  }

  // ------------------------------------------------------------------ the invariant

  function Cap(max: int): (c: int)
    ensures c >= 0
  {
    if max > 0 then max else 0
  }

  ghost predicate StartsApart(starts: seq<int>, windowMs: int) {
    && (forall i :: 0 <= i < |starts| ==> starts[i] > 0)
    && (forall i :: 0 < i < |starts| ==> starts[i] >= starts[i - 1] + windowMs)
  }

  ghost predicate Dated(r: Reservation, starts: seq<int>, windowMs: int) {
    r.amount > 0 && r.window < |starts| && r.atMs < starts[r.window] + windowMs
  }

  ghost predicate WithinLimits(t: Trace, p: Policy, w: nat) {
    LiveCount(t.history, w) <= Cap(p.maxPayments) && LiveSum(t.history, w) <= Cap(p.maxCumulative)
  }

  ghost predicate Inv(t: Trace, p: Policy) {
    var c := t.store.counters;
    var cur := |t.starts| - 1;
    && StartsApart(t.starts, p.windowMs)
    && c.windowStartMs == (if t.starts == [] then 0 else t.starts[cur])
    && (forall i :: 0 <= i < |t.history| ==> Dated(t.history[i], t.starts, p.windowMs))
    && c.allowedCount <= Cap(p.maxPayments) && c.allowedSum <= Cap(p.maxCumulative)
    && (cur >= 0 ==> LiveCount(t.history, cur) <= c.allowedCount && LiveSum(t.history, cur) <= c.allowedSum)
    && (forall w: nat :: WithinLimits(t, p, w))
  }

  lemma {:induction false} StartsGrow(starts: seq<int>, windowMs: int, i: nat, j: nat)
    requires StartsApart(starts, windowMs) && windowMs >= 1 && i < j < |starts|
    ensures starts[j] >= starts[i] + windowMs
    decreases j
  {
    if i < j - 1 { StartsGrow(starts, windowMs, i, j - 1); }
  }

  /** The trace once the window has been looked at for a request at nowMs. */
  function Rolled(t: Trace, p: Policy, nowMs: int): Trace {
    var c := Roll(t.store.counters, p, nowMs);
    Trace(t.store.(counters := c), t.history,
          if c.windowStartMs != t.store.counters.windowStartMs then t.starts + [nowMs] else t.starts)
  }

  function Granted(t: Trace, req: SpendRequest): Trace
    requires t.starts != []
  {
    var c := t.store.counters;
    Trace(Store(t.store.usedNonces + {req.nonce}, t.store.consumed,
                c.(allowedCount := c.allowedCount + 1, allowedSum := c.allowedSum + req.amount),
                t.store.nextDecision + 1),
          t.history + [Reservation(req.nonce, req.amount, req.nowMs, |t.starts| - 1, false)], t.starts)
  }

  ghost predicate RoomFor(t: Trace, p: Policy, req: SpendRequest) {
    var c := t.store.counters;
    c.allowedCount < p.maxPayments && c.allowedSum + req.amount <= p.maxCumulative
  }

  lemma {:induction false} EvaluateIsRollThenGrant(t: Trace, p: Policy, req: SpendRequest)
    requires Inv(t, p) && p.windowMs >= 1 && req.nowMs > 0
    ensures EarlyRefusal(t.store, p, req).Some? ==> Next(t, p, Evaluate(req)) == t
    ensures Rolled(t, p, req.nowMs).starts != []
    ensures EarlyRefusal(t.store, p, req).None? ==>
      var r := Rolled(t, p, req.nowMs);
      Next(t, p, Evaluate(req)) == if RoomFor(r, p, req) then Granted(r, req) else r
  {
  }

  lemma StillDated(h: seq<Reservation>, starts: seq<int>, nowMs: int, windowMs: int)
    requires forall i :: 0 <= i < |h| ==> Dated(h[i], starts, windowMs)
    ensures forall i :: 0 <= i < |h| ==> Dated(h[i], starts + [nowMs], windowMs) && h[i].window < |starts|
  {
  }

  lemma {:induction false} RolledKeepsInv(t: Trace, p: Policy, nowMs: int)
    requires Inv(t, p) && p.windowMs >= 1 && nowMs > 0
    ensures Inv(Rolled(t, p, nowMs), p)
    ensures var r := Rolled(t, p, nowMs); r.starts != [] && nowMs < r.starts[|r.starts| - 1] + p.windowMs
  {
    var r := Rolled(t, p, nowMs);
    StillDated(t.history, t.starts, nowMs, p.windowMs);
    if |r.starts| > |t.starts| { LiveNone(t.history, |t.starts|); }
    forall w: nat ensures WithinLimits(r, p, w) { assert WithinLimits(t, p, w); }
  }

  lemma {:induction false} GrantedKeepsInv(t: Trace, p: Policy, req: SpendRequest)
    requires Inv(t, p) && t.starts != [] && req.nowMs < t.starts[|t.starts| - 1] + p.windowMs
    requires req.amount > 0 && RoomFor(t, p, req)
    ensures Inv(Granted(t, req), p)
  {
    var g := Granted(t, req);
    var r := g.history[|t.history|];
    forall i | 0 <= i < |g.history| ensures Dated(g.history[i], g.starts, p.windowMs) {
      if i < |t.history| { assert Dated(t.history[i], t.starts, p.windowMs); }
    }
    forall w: nat ensures WithinLimits(g, p, w) {
      assert WithinLimits(t, p, w);
      LiveAppend(t.history, r, w);
    }
    LiveAppend(t.history, r, |t.starts| - 1);
  }

  lemma {:induction false} NextEvaluateKeepsInv(t: Trace, p: Policy, req: SpendRequest)
    requires Inv(t, p) && p.windowMs >= 1 && req.nowMs > 0
    ensures Inv(Next(t, p, Evaluate(req)), p)
  {
    EvaluateIsRollThenGrant(t, p, req);
    RolledKeepsInv(t, p, req.nowMs);
    var r := Rolled(t, p, req.nowMs);
    if EarlyRefusal(t.store, p, req).None? && RoomFor(r, p, req) { GrantedKeepsInv(r, p, req); }
  }

  /** A release refunds the counters only for a live reservation of the current
      window, by exactly its amount: an earlier window never refunds a later one,
      and neither clamp in `release` ever takes effect. */
  lemma {:induction false} ReleaseIsExact(t: Trace, p: Policy, k: nat)
    requires Inv(t, p) && p.windowMs >= 1 && Allowed(t, Release(k))
    ensures var r := t.history[k];
            var c, c' := t.store.counters, Next(t, p, Release(k)).store.counters;
            && (r.atMs >= c.windowStartMs ==> r.window == |t.starts| - 1)
            && c' == (if r.atMs >= c.windowStartMs
                      then c.(allowedCount := c.allowedCount - 1, allowedSum := c.allowedSum - r.amount) else c)
            && c'.allowedCount >= 0 && c'.allowedSum >= 0
  {
    var r := t.history[k];
    assert Dated(r, t.starts, p.windowMs);
    var cur := |t.starts| - 1;
    forall i | 0 <= i < |t.history| ensures t.history[i].amount > 0 {
      assert Dated(t.history[i], t.starts, p.windowMs);
    }
    LiveSumNonNegative(t.history, cur);
    if r.window < cur { StartsGrow(t.starts, p.windowMs, r.window, cur); }
    if r.window == cur { LiveIncludes(t.history, k); }
  }

  lemma {:induction false} NextReleaseKeepsInv(t: Trace, p: Policy, k: nat)
    requires Inv(t, p) && p.windowMs >= 1 && Allowed(t, Release(k))
    ensures Inv(Next(t, p, Release(k)), p)
  {
    var t' := Next(t, p, Release(k));
    var r := t.history[k];
    ReleaseIsExact(t, p, k);
    assert Dated(r, t.starts, p.windowMs);
    forall i | 0 <= i < |t'.history| ensures Dated(t'.history[i], t'.starts, p.windowMs) {
      assert Dated(t.history[i], t.starts, p.windowMs);
    }
    forall w: nat ensures WithinLimits(t', p, w) {
      assert WithinLimits(t, p, w);
      LiveRelease(t.history, k, w);
    }
    LiveRelease(t.history, k, |t.starts| - 1);
  }

  /** Whatever is asked and given back, in whatever order and however the clock
      jumps: the counters cover the live reservations of the current window and stay
      within the limits, and so do the live reservations of every window. */
  lemma {:induction false} RunKeepsInvariant(p: Policy, ops: seq<Op>)
    requires p.windowMs >= 1 && Run(p, ops).Some?
    ensures Inv(Run(p, ops).value, p)
    decreases |ops|
  {
    if ops != [] {
      var before := Run(p, ops[..|ops| - 1]).value;
      RunKeepsInvariant(p, ops[..|ops| - 1]);
      match ops[|ops| - 1]
      case Evaluate(req) => NextEvaluateKeepsInv(before, p, req);
      case Release(k) => NextReleaseKeepsInv(before, p, k);
    }
  }

  // ----------------------------------------------------------- burned nonces

  ghost predicate NoncesExact(t: Trace) {
    && (forall n :: n in t.store.usedNonces <==> exists i :: 0 <= i < |t.history| && Holds(t.history[i], n))
    && (forall i, j :: 0 <= i < j < |t.history| && !t.history[i].released && !t.history[j].released
          ==> t.history[i].nonce != t.history[j].nonce)
  }

  predicate Holds(r: Reservation, n: string) { !r.released && r.nonce == n }

  /** The used nonces are exactly those of the reservations not given back, and no
      nonce has two of them. */
  lemma {:induction false} RunNoncesExact(p: Policy, ops: seq<Op>)
    requires p.windowMs >= 1 && Run(p, ops).Some?
    ensures NoncesExact(Run(p, ops).value)
    decreases |ops|
  {
    if ops != [] {
      var init := ops[..|ops| - 1];
      var t := Run(p, init).value;
      RunNoncesExact(p, init);
      RunKeepsInvariant(p, init);
      match ops[|ops| - 1]
      case Evaluate(req) => NoncesAfterEvaluate(t, p, req);
      case Release(k) => NoncesAfterRelease(t, p, k);
    }
  }

  lemma {:induction false} NoncesAfterEvaluate(t: Trace, p: Policy, req: SpendRequest)
    requires NoncesExact(t) && Inv(t, p) && p.windowMs >= 1 && req.nowMs > 0
    ensures NoncesExact(Next(t, p, Evaluate(req)))
  {
    EvaluateIsRollThenGrant(t, p, req);
    var r := Rolled(t, p, req.nowMs);
    if EarlyRefusal(t.store, p, req).None? { NoncesGranted(r, req); }
  }

  lemma {:induction false} NoncesGranted(t: Trace, req: SpendRequest)
    requires NoncesExact(t) && t.starts != [] && req.nonce !in t.store.usedNonces
    ensures NoncesExact(Granted(t, req))
  {
    var g := Granted(t, req);
    var last := |t.history|;
    assert Holds(g.history[last], req.nonce);
    forall n | n in t.store.usedNonces ensures exists i :: 0 <= i < |g.history| && Holds(g.history[i], n) {
      var i :| 0 <= i < last && Holds(t.history[i], n);
      assert Holds(g.history[i], n);
    }
    forall i, n | 0 <= i < |g.history| && Holds(g.history[i], n) ensures n in g.store.usedNonces {
      assert i < last ==> Holds(t.history[i], n);
    }
    forall i | 0 <= i < last && !t.history[i].released ensures t.history[i].nonce != req.nonce {
      assert Holds(t.history[i], t.history[i].nonce);
    }
  }

  lemma {:induction false} NoncesAfterRelease(t: Trace, p: Policy, k: nat)
    requires NoncesExact(t) && Allowed(t, Release(k))
    ensures NoncesExact(Next(t, p, Release(k)))
  {
    var t' := Next(t, p, Release(k));
    forall n ensures n in t'.store.usedNonces <==> exists i :: 0 <= i < |t'.history| && Holds(t'.history[i], n) {
      if n in t'.store.usedNonces {
        var i :| 0 <= i < |t.history| && Holds(t.history[i], n);
        assert i != k;
        assert Holds(t'.history[i], n);
      }
      if exists i :: 0 <= i < |t'.history| && Holds(t'.history[i], n) {
        var i :| 0 <= i < |t'.history| && Holds(t'.history[i], n);
        assert i != k && Holds(t.history[i], n);
        assert t.history[k].nonce != n;
      }
    }
  }

  // ------------------------------------------------------- any span of one window

  predicate InSpan(r: Reservation, a: int, b: int) { a <= r.atMs < b }

  /** Live reservations made in [a, b). */
  function SpanCount(h: seq<Reservation>, a: int, b: int): nat {
    if h == [] then 0
    else
      var r := h[|h| - 1];
      SpanCount(h[..|h| - 1], a, b) + if !r.released && InSpan(r, a, b) then 1 else 0
  }

  function SpanSum(h: seq<Reservation>, a: int, b: int): int {
    if h == [] then 0
    else
      var r := h[|h| - 1];
      SpanSum(h[..|h| - 1], a, b) + if !r.released && InSpan(r, a, b) then r.amount else 0
  }

  /** The clock readings of the requests, in order. */
  function Clock(ops: seq<Op>): seq<int> {
    if ops == [] then []
    else
      var op := ops[|ops| - 1];
      Clock(ops[..|ops| - 1]) + if op.Evaluate? then [op.req.nowMs] else []
  }

  ghost predicate NonDecreasing(s: seq<int>) { forall i, j :: 0 <= i < j < |s| ==> s[i] <= s[j] }

  ghost predicate MadeAfterStart(r: Reservation, starts: seq<int>) {
    r.window < |starts| && starts[r.window] <= r.atMs
  }

  ghost predicate StartedBefore(t: Trace, now: int) {
    && (forall i :: 0 <= i < |t.starts| ==> t.starts[i] <= now)
    && (forall i :: 0 <= i < |t.history| ==> MadeAfterStart(t.history[i], t.starts))
  }

  lemma {:induction false} RunStartsBefore(p: Policy, ops: seq<Op>, now: int)
    requires p.windowMs >= 1 && Run(p, ops).Some? && NonDecreasing(Clock(ops))
    requires forall i :: 0 <= i < |Clock(ops)| ==> Clock(ops)[i] <= now
    ensures StartedBefore(Run(p, ops).value, now)
    decreases |ops|
  {
    if ops != [] {
      var init, op := ops[..|ops| - 1], ops[|ops| - 1];
      RunKeepsInvariant(p, init);
      ClockInit(ops);
      match op
      case Evaluate(req) =>
        RunStartsBefore(p, init, req.nowMs);
        StartedBeforeEvaluate(Run(p, init).value, p, req, now);
      case Release(k) =>
        RunStartsBefore(p, init, now);
        StartedBeforeRelease(Run(p, init).value, p, k, now);
    }
  }

  lemma {:induction false} ClockInit(ops: seq<Op>)
    requires ops != [] && NonDecreasing(Clock(ops))
    ensures var clock := Clock(ops[..|ops| - 1]);
            && NonDecreasing(clock)
            && (forall i :: 0 <= i < |clock| ==> clock[i] == Clock(ops)[i])
            && (ops[|ops| - 1].Evaluate? ==>
                  && |Clock(ops)| == |clock| + 1 && Clock(ops)[|clock|] == ops[|ops| - 1].req.nowMs
                  && forall i :: 0 <= i < |clock| ==> clock[i] <= ops[|ops| - 1].req.nowMs)
            && (ops[|ops| - 1].Release? ==> Clock(ops) == clock)
  {
    var clock := Clock(ops[..|ops| - 1]);
    assert forall i :: 0 <= i < |clock| ==> clock[i] == Clock(ops)[i];
  }

  lemma {:induction false} StartedBeforeEvaluate(t: Trace, p: Policy, req: SpendRequest, now: int)
    requires Inv(t, p) && p.windowMs >= 1 && 0 < req.nowMs <= now && StartedBefore(t, req.nowMs)
    ensures StartedBefore(Next(t, p, Evaluate(req)), now)
  {
    EvaluateIsRollThenGrant(t, p, req);
    var r := Rolled(t, p, req.nowMs);
    forall i | 0 <= i < |r.history| ensures MadeAfterStart(r.history[i], r.starts) {
      assert MadeAfterStart(t.history[i], t.starts);
    }
    var g := Granted(r, req);
    forall i | 0 <= i < |g.history| ensures MadeAfterStart(g.history[i], g.starts) {
      if i < |t.history| { assert MadeAfterStart(r.history[i], r.starts); }
    }
  }

  lemma {:induction false} StartedBeforeRelease(t: Trace, p: Policy, k: nat, now: int)
    requires Allowed(t, Release(k)) && StartedBefore(t, now)
    ensures StartedBefore(Next(t, p, Release(k)), now)
  {
    var t' := Next(t, p, Release(k));
    forall i | 0 <= i < |t'.history| ensures MadeAfterStart(t'.history[i], t'.starts) {
      assert MadeAfterStart(t.history[i], t.starts);
    }
  }

  lemma {:induction false} SpanSumNonNegative(h: seq<Reservation>, a: int, b: int)
    requires forall i :: 0 <= i < |h| ==> h[i].amount > 0
    ensures SpanSum(h, a, b) >= 0
  {
    if h != [] { SpanSumNonNegative(h[..|h| - 1], a, b); }
  }

  lemma {:induction false} SpanRelease(h: seq<Reservation>, k: nat, a: int, b: int)
    requires k < |h| && !h[k].released
    ensures var h' := h[k := h[k].(released := true)];
            && SpanCount(h', a, b) == SpanCount(h, a, b) - (if InSpan(h[k], a, b) then 1 else 0)
            && SpanSum(h', a, b) == SpanSum(h, a, b) - (if InSpan(h[k], a, b) then h[k].amount else 0)
    decreases |h|
  {
    var h' := h[k := h[k].(released := true)];
    var init := h[..|h| - 1];
    if k == |h| - 1 {
      assert h'[..|h| - 1] == init;
    } else {
      assert h'[..|h| - 1] == init[k := init[k].(released := true)];
      SpanRelease(init, k, a, b);
    }
  }

  lemma {:induction false} SpanWithinWindow(h: seq<Reservation>, a: int, b: int, w: nat)
    requires forall i :: 0 <= i < |h| ==> h[i].amount > 0 && (InSpan(h[i], a, b) ==> h[i].window == w)
    ensures SpanCount(h, a, b) <= LiveCount(h, w) && SpanSum(h, a, b) <= LiveSum(h, w)
  {
    if h != [] {
      var init := h[..|h| - 1];
      assert forall i :: 0 <= i < |init| ==> init[i] == h[i];
      SpanWithinWindow(init, a, b, w);
    }
  }

  /** Until the first window starts nothing is reserved and nothing counted. */
  lemma {:induction false} NothingBeforeTheFirstWindow(p: Policy, ops: seq<Op>)
    requires p.windowMs >= 1 && Run(p, ops).Some? && Run(p, ops).value.starts == []
    ensures Run(p, ops).value.history == [] && Run(p, ops).value.store.counters == EMPTY_STORE.counters
    decreases |ops|
  {
    if ops != [] {
      var init := ops[..|ops| - 1];
      var before := Run(p, init).value;
      RunKeepsInvariant(p, init);
      NothingBeforeTheFirstWindow(p, init);
      match ops[|ops| - 1]
      case Evaluate(req) => EvaluateIsRollThenGrant(before, p, req);
      case Release(k) =>
    }
  }

  /** Nothing is reserved past the end of the window the counters stand in, and what is reserved in
      its span is counted. */
  ghost predicate CountedBy(h: seq<Reservation>, c: Counters, p: Policy) {
    var end := c.windowStartMs + p.windowMs;
    && (forall i :: 0 <= i < |h| ==> h[i].amount > 0 && h[i].atMs < end)
    && SpanCount(h, c.windowStartMs, end) <= c.allowedCount
    && SpanSum(h, c.windowStartMs, end) <= c.allowedSum
  }

  lemma {:induction false} DatedByTheLastStart(r: Reservation, starts: seq<int>, windowMs: int)
    requires StartsApart(starts, windowMs) && windowMs >= 1 && starts != [] && Dated(r, starts, windowMs)
    ensures var last := |starts| - 1;
      r.atMs < starts[last] + windowMs && (r.atMs >= starts[last] ==> r.window == last)
  {
    if r.window < |starts| - 1 { StartsGrow(starts, windowMs, r.window, |starts| - 1); }
  }

  /** So it is however the clock ran. */
  lemma {:induction false} CurrentSpanIsCounted(p: Policy, ops: seq<Op>, t: Trace)
    requires p.windowMs >= 1 && Run(p, ops) == Some(t)
    ensures CountedBy(t.history, t.store.counters, p)
  {
    RunKeepsInvariant(p, ops);
    if t.starts == [] {
      NothingBeforeTheFirstWindow(p, ops);
    } else {
      var cur := |t.starts| - 1;
      var start := t.starts[cur];
      forall i | 0 <= i < |t.history|
        ensures t.history[i].amount > 0 && t.history[i].atMs < start + p.windowMs
        ensures t.history[i].atMs >= start ==> t.history[i].window == cur
      {
        assert Dated(t.history[i], t.starts, p.windowMs);
        DatedByTheLastStart(t.history[i], t.starts, p.windowMs);
      }
      SpanWithinWindow(t.history, start, start + p.windowMs, cur);
    }
  }

  /** Every live reservation of the span lies in window w or the one after it. */
  ghost predicate SpanInTwo(h: seq<Reservation>, a: int, b: int, w: nat) {
    forall i :: 0 <= i < |h| && !h[i].released && InSpan(h[i], a, b) ==> h[i].window == w || h[i].window == w + 1
  }

  lemma {:induction false} SpanWithinTwoWindows(h: seq<Reservation>, a: int, b: int, w: nat)
    requires SpanInTwo(h, a, b, w)
    requires forall i :: 0 <= i < |h| ==> h[i].amount > 0
    ensures SpanCount(h, a, b) <= LiveCount(h, w) + LiveCount(h, w + 1)
    ensures SpanSum(h, a, b) <= LiveSum(h, w) + LiveSum(h, w + 1)
  {
    if h != [] {
      var init := h[..|h| - 1];
      assert forall i :: 0 <= i < |init| ==> init[i] == h[i];
      SpanWithinTwoWindows(init, a, b, w);
    }
  }

  lemma {:induction false} SpanTouchesTwoWindows(t: Trace, p: Policy, a: int, now: int) returns (w: nat)
    requires Inv(t, p) && p.windowMs >= 1 && StartedBefore(t, now)
    ensures SpanInTwo(t.history, a, a + p.windowMs, w)
  {
    var b := a + p.windowMs;
    w := 0;
    if exists i :: 0 <= i < |t.history| && InSpan(t.history[i], a, b) {
      var k := FirstInSpan(t.history, a, b);
      w := t.history[k].window;
      assert Dated(t.history[k], t.starts, p.windowMs);
      forall i | 0 <= i < |t.history| && InSpan(t.history[i], a, b)
        ensures t.history[i].window == w || t.history[i].window == w + 1
      {
        var v := t.history[i].window;
        assert MadeAfterStart(t.history[i], t.starts);
        if v > w + 1 {
          StartsGrow(t.starts, p.windowMs, w, w + 1);
          StartsGrow(t.starts, p.windowMs, w + 1, v);
        }
      }
    }
  }

  /** A reservation of the span whose window is the earliest. */
  lemma {:induction false} FirstInSpan(h: seq<Reservation>, a: int, b: int) returns (k: nat)
    requires exists i :: 0 <= i < |h| && InSpan(h[i], a, b)
    ensures k < |h| && InSpan(h[k], a, b)
    ensures forall i :: 0 <= i < |h| && InSpan(h[i], a, b) ==> h[k].window <= h[i].window
    decreases |h|
  {
    var init, n := h[..|h| - 1], |h| - 1;
    assert forall i :: 0 <= i < n ==> init[i] == h[i];
    if exists i :: 0 <= i < n && InSpan(init[i], a, b) {
      k := FirstInSpan(init, a, b);
      if InSpan(h[n], a, b) && h[n].window < h[k].window { k := n; }
    } else {
      k := n;
    }
  }

  /** With a clock that never runs backwards, any span as long as the window holds at
      most twice the payments and twice the sum one window allows, however often the
      counters restarted inside it. */
  lemma {:induction false} SpanIsAtMostTwice(p: Policy, ops: seq<Op>, a: int)
    requires p.windowMs >= 1 && Run(p, ops).Some? && NonDecreasing(Clock(ops))
    ensures var h := Run(p, ops).value.history;
            && SpanCount(h, a, a + p.windowMs) <= 2 * Cap(p.maxPayments)
            && SpanSum(h, a, a + p.windowMs) <= 2 * Cap(p.maxCumulative)
  {
    var t := Run(p, ops).value;
    var clock := Clock(ops);
    var now := if clock == [] then 0 else clock[|clock| - 1];
    RunKeepsInvariant(p, ops);
    RunStartsBefore(p, ops, now);
    TwoWindowsBound(t, p, a, now);
  }

  lemma {:induction false} TwoWindowsBound(t: Trace, p: Policy, a: int, now: int)
    requires Inv(t, p) && p.windowMs >= 1 && StartedBefore(t, now)
    ensures SpanCount(t.history, a, a + p.windowMs) <= 2 * Cap(p.maxPayments)
    ensures SpanSum(t.history, a, a + p.windowMs) <= 2 * Cap(p.maxCumulative)
  {
    var w := SpanTouchesTwoWindows(t, p, a, now);
    forall i | 0 <= i < |t.history| ensures t.history[i].amount > 0 {
      assert Dated(t.history[i], t.starts, p.windowMs);
    }
    SpanWithinTwoWindows(t.history, a, a + p.windowMs, w);
    assert WithinLimits(t, p, w) && WithinLimits(t, p, w + 1);
  }

  lemma {:induction false} RunAppend(p: Policy, ops: seq<Op>, op: Op, t: Trace, t': Trace)
    requires Run(p, ops) == Some(t) && Allowed(t, op) && Next(t, p, op) == t'
    ensures Run(p, ops + [op]) == Some(t')
    ensures Clock(ops + [op]) == Clock(ops) + if op.Evaluate? then [op.req.nowMs] else []
  {
    assert (ops + [op])[..|ops|] == ops;
  }

  const TIGHT := Policy(10, 10, 1, 100, None, None, None)

  function At(nonce: string, nowMs: int): Op { Evaluate(SpendRequest(10, "EUR", "a", nonce, nowMs, None)) }

  /** One payment of ten made at nowMs in the given window, as a history entry. */
  function Made(nonce: string, nowMs: int, window: nat, released: bool): Reservation {
    Reservation(nonce, 10, nowMs, window, released)
  }

  lemma {:induction false} TightSteps()
    ensures var t1 := Trace(Store({"n0"}, {}, Counters(1, 1, 10), 2), [Made("n0", 1, 0, false)], [1]);
            var t2 := Trace(Store({}, {}, Counters(1, 0, 0), 2), [Made("n0", 1, 0, true)], [1]);
            && Next(EMPTY_TRACE, TIGHT, At("n0", 1)) == t1 && Next(t1, TIGHT, Release(0)) == t2
  {
    assert {} + {"n0"} == {"n0"} && {"n0"} - {"n0"} == {};
    assert [] + [Made("n0", 1, 0, false)] == [Made("n0", 1, 0, false)];
  }

  lemma {:induction false} TightStepsOn()
    ensures var h2 := [Made("n0", 1, 0, true)];
            var t2 := Trace(Store({}, {}, Counters(1, 0, 0), 2), h2, [1]);
            var t3 := Trace(Store({"n1"}, {}, Counters(1, 1, 10), 3), h2 + [Made("n1", 100, 0, false)], [1]);
            var t4 := Trace(Store({"n1"} + {"n2"}, {}, Counters(101, 1, 10), 4),
                            h2 + [Made("n1", 100, 0, false)] + [Made("n2", 101, 1, false)], [1] + [101]);
            && Next(t2, TIGHT, At("n1", 100)) == t3 && Next(t3, TIGHT, At("n2", 101)) == t4
  {
    assert {} + {"n1"} == {"n1"};
  }

  lemma {:induction false} FourSteps(
      p: Policy, a: Op, b: Op, c: Op, d: Op, t1: Trace, t2: Trace, t3: Trace, t4: Trace)
    requires Allowed(EMPTY_TRACE, a) && Next(EMPTY_TRACE, p, a) == t1
    requires Allowed(t1, b) && Next(t1, p, b) == t2
    requires Allowed(t2, c) && Next(t2, p, c) == t3
    requires Allowed(t3, d) && Next(t3, p, d) == t4
    ensures Run(p, [] + [a] + [b] + [c] + [d]) == Some(t4)
  {
    RunAppend(p, [], a, EMPTY_TRACE, t1);
    RunAppend(p, [] + [a], b, t1, t2);
    RunAppend(p, [] + [a] + [b], c, t2, t3);
    RunAppend(p, [] + [a] + [b] + [c], d, t3, t4);
  }

  lemma {:induction false} TightSpan()
    ensures var h := [Made("n0", 1, 0, true)] + [Made("n1", 100, 0, false)] + [Made("n2", 101, 1, false)];
            SpanCount(h, 100, 200) == 2 && SpanSum(h, 100, 200) == 20
  {
    var r0, r1, r2 := Made("n0", 1, 0, true), Made("n1", 100, 0, false), Made("n2", 101, 1, false);
    SpanAppend([], r0, 100, 200);
    SpanAppend([r0], r1, 100, 200);
    SpanAppend([r0] + [r1], r2, 100, 200);
    assert [] + [r0] == [r0];
  }

  /** The factor of two is reached: a window opened at 1 allows a payment at 100, the
      next window one at 101, and both lie in a span of one window's length. */
  lemma {:induction false} TwiceIsReached()
    ensures var ops := [] + [At("n0", 1)] + [Release(0)] + [At("n1", 100)] + [At("n2", 101)];
            && Run(TIGHT, ops).Some?
            && SpanCount(Run(TIGHT, ops).value.history, 100, 200) == 2 * Cap(TIGHT.maxPayments)
            && SpanSum(Run(TIGHT, ops).value.history, 100, 200) == 2 * Cap(TIGHT.maxCumulative)
  {
    var r0, r1, r2 := Made("n0", 1, 0, true), Made("n1", 100, 0, false), Made("n2", 101, 1, false);
    var t1 := Trace(Store({"n0"}, {}, Counters(1, 1, 10), 2), [Made("n0", 1, 0, false)], [1]);
    var t2 := Trace(Store({}, {}, Counters(1, 0, 0), 2), [r0], [1]);
    var t3 := Trace(Store({"n1"}, {}, Counters(1, 1, 10), 3), [r0] + [r1], [1]);
    var t4 := Trace(Store({"n1"} + {"n2"}, {}, Counters(101, 1, 10), 4), [r0] + [r1] + [r2], [1] + [101]);
    TightSteps();
    TightStepsOn();
    FourSteps(TIGHT, At("n0", 1), Release(0), At("n1", 100), At("n2", 101), t1, t2, t3, t4);
    TightSpan();
  }

  lemma {:induction false} SpanAppend(h: seq<Reservation>, r: Reservation, a: int, b: int)
    ensures SpanCount(h + [r], a, b) == SpanCount(h, a, b) + if !r.released && InSpan(r, a, b) then 1 else 0
    ensures SpanSum(h + [r], a, b) == SpanSum(h, a, b) + if !r.released && InSpan(r, a, b) then r.amount else 0
  {
    assert (h + [r])[..|h|] == h;
  }
}
