/** What the policy engine lets through, said of the request and the store alone: the exact condition
    of a grant, the check that a denial names, and what either leaves behind. */
module Permits {
  import opened Options
  import opened Policies

  predicate InList(list: Option<seq<string>>, x: string) {
    list.Some? ==> exists i :: 0 <= i < |list.value| && list.value[i] == x
  }

  /** What a policy says of a payment whatever was paid before. A list of tools asks for a named tool. */
  predicate Permitted(p: Policy, req: SpendRequest) {
    && 0 < req.amount <= p.maxAmount
    && InList(p.allowedPayees, req.payee) && InList(p.allowedCurrencies, req.currency)
    && (p.allowedTools.Some? ==> req.tool.Some? && InList(p.allowedTools, req.tool.value))
  }

  /** No window has started, or its length has passed. */
  predicate WindowOver(c: Counters, p: Policy, nowMs: int) {
    c.windowStartMs == 0 || nowMs >= c.windowStartMs + p.windowMs
  }

  /** What the window holds once the time of the request is known. */
  function Counted(c: Counters, p: Policy, nowMs: int): (int, int) {
    if WindowOver(c, p, nowMs) then (0, 0) else (c.allowedCount, c.allowedSum)
  }

  /** The window has room for one payment more, and for that much. */
  predicate RoomLeft(s: Store, p: Policy, req: SpendRequest) {
    var (count, sum) := Counted(s.counters, p, req.nowMs);
    count < p.maxPayments && sum + req.amount <= p.maxCumulative
  }

  lemma ListedIsInList(list: Option<seq<string>>, x: string)
    ensures list.Some? ==> (x in list.value <==> InList(list, x))
  {
  }

  lemma RequestListed(p: Policy, req: SpendRequest)
    ensures Listed(p.allowedPayees, req.payee) <==> InList(p.allowedPayees, req.payee)
    ensures Listed(p.allowedCurrencies, req.currency) <==> InList(p.allowedCurrencies, req.currency)
    ensures p.allowedTools.Some? && req.tool.Some? ==>
      (req.tool.value in p.allowedTools.value <==> InList(p.allowedTools, req.tool.value))
  {
    ListedIsInList(p.allowedPayees, req.payee);
    ListedIsInList(p.allowedCurrencies, req.currency);
    if req.tool.Some? { ListedIsInList(p.allowedTools, req.tool.value); }
  }

  /** A request is allowed exactly when its nonce is unused, the policy permits the payment, and the
      window has room for it. */
  lemma {:induction false} AllowedExactly(s: Store, p: Policy, req: SpendRequest)
    ensures EvaluateStep(s, p, req).1.Allow? <==>
      req.nonce !in s.usedNonces && Permitted(p, req) && RoomLeft(s, p, req)
  {
    RequestListed(p, req);
  }

  /** The checks in the order they are made. */
  predicate Passes(s: Store, p: Policy, req: SpendRequest, check: nat) {
    match check
    case 0 => req.nonce !in s.usedNonces
    case 1 => req.amount > 0
    case 2 => req.amount <= p.maxAmount
    case 3 => InList(p.allowedPayees, req.payee)
    case 4 => InList(p.allowedCurrencies, req.currency)
    case 5 => p.allowedTools.Some? ==> req.tool.Some? && InList(p.allowedTools, req.tool.value)
    case 6 => Counted(s.counters, p, req.nowMs).0 < p.maxPayments
    case _ => Counted(s.counters, p, req.nowMs).1 + req.amount <= p.maxCumulative
  }

  const NAMED: seq<DenyReason> :=
    [ReplayNonce, AmountNotPositive, LimitAmount, ScopePayee, ScopeCurrency, ScopeTool, Velocity, LimitCumulative]

  /** A denial names the first check that fails, and there is none when all pass. */
  lemma {:induction false} DenialNamesTheFirstFailure(s: Store, p: Policy, req: SpendRequest, check: nat)
    requires check < 8
    ensures EvaluateStep(s, p, req).1 == Deny(NAMED[check]) <==>
      !Passes(s, p, req, check) && forall k: nat :: k < check ==> Passes(s, p, req, k)
  {
    RequestListed(p, req);
    EarlierChecks(s, p, req, check);
    assert NAMED[check] == match check
      case 0 => ReplayNonce case 1 => AmountNotPositive case 2 => LimitAmount case 3 => ScopePayee
      case 4 => ScopeCurrency case 5 => ScopeTool case 6 => Velocity case _ => LimitCumulative;
  }

  lemma EarlierChecks(s: Store, p: Policy, req: SpendRequest, check: nat)
    requires check < 8
    ensures (forall k: nat :: k < check ==> Passes(s, p, req, k)) <==>
      && (check > 0 ==> Passes(s, p, req, 0)) && (check > 1 ==> Passes(s, p, req, 1))
      && (check > 2 ==> Passes(s, p, req, 2)) && (check > 3 ==> Passes(s, p, req, 3))
      && (check > 4 ==> Passes(s, p, req, 4)) && (check > 5 ==> Passes(s, p, req, 5))
      && (check > 6 ==> Passes(s, p, req, 6))
  {
  }

  /** A grant burns the nonce, takes the next decision, and counts the payment in a window that
      starts now if none was running; a denial changes nothing, but that a window that is over starts
      anew before its room is looked at. */
  lemma {:induction false} EvaluateLeaves(s: Store, p: Policy, req: SpendRequest)
    ensures var (s', d) := EvaluateStep(s, p, req);
      var over := WindowOver(s.counters, p, req.nowMs);
      var start := if over then req.nowMs else s.counters.windowStartMs;
      var (count, sum) := Counted(s.counters, p, req.nowMs);
      match d
      case Allow(id) =>
        && id == s.nextDecision
        && s' == Store(s.usedNonces + {req.nonce}, s.consumed, Counters(start, count + 1, sum + req.amount), id + 1)
      case Deny(reason) =>
        s' == if reason in {Velocity, LimitCumulative} then s.(counters := Counters(start, count, sum)) else s
  {
  }

  /** A decision is consumed exactly when it is for a positive amount, not yet consumed, and for the
      request it was made for; nothing else changes, and a consumed one is never consumed again. */
  lemma {:induction false} ConsumedExactly(s: Store, id: nat, amount: int, sameRequest: bool)
    ensures var (s', d) := ConsumeStep(s, id, amount, sameRequest);
      && (d.Allow? <==> amount > 0 && id !in s.consumed && sameRequest)
      && s' == (if d.Allow? then s.(consumed := s.consumed + {id}) else s)
      && ConsumeStep(s', id, amount, sameRequest).1.Deny?
  {
  }
}
