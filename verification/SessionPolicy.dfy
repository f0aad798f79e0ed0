/** The policy counters over crashes, failed writes, restarts and recoveries: what a session holds
    of them is always what some run of the policy engine leaves, in which every payment still open
    has a reservation of its own, made when the journal says it was, and so has every receipt. What
    the receipts of one window, or of any span as long, can add up to is then said of them alone. */
module SessionPolicy {
  import opened Journal
  import opened Options
  import opened Records
  import opened SessionSteps
  import opened Sessions
  import opened SharedState
  import P = Policies
  import S = SessionSafety

  /** The same counters and burned nonces. Consumed decisions and the decision number are no part
      of a run of requests and releases. */
  predicate Matches(s: P.Store, t: P.Store) { s.usedNonces == t.usedNonces && s.counters == t.counters }

  /** The reservation is live, and is what the journal says of the nonce. */
  predicate ReservationOf(r: P.Reservation, j: seq<Entry>, n: string) {
    && !r.released && r.nonce == n
    && Fold(j, n).Some? && r.amount == Value(Fold(j, n).value.amount)
    && ReservedAt(j, n) == Some(r.atMs)
  }

  ghost predicate Backed(t: P.Trace, j: seq<Entry>, n: string) {
    Pending(j, n) ==> exists k :: 0 <= k < |t.history| && ReservationOf(t.history[k], j, n)
  }

  /** When the payment of a receipt was reserved: the journal says so of a settlement that left the
      process, and one made in process was reserved at the time its receipt names. */
  function PaidAt(j: seq<Entry>, x: Receipt): Option<int> {
    if Bound(j, x.nonce) then ReservedAt(j, x.nonce) else Some(x.timestampMs)
  }

  /** The reservation is live, is for what the receipt says was paid, and was made when it was. */
  predicate PaidBy(r: P.Reservation, j: seq<Entry>, x: Receipt) {
    !r.released && r.nonce == x.nonce && r.amount == Value(x.amount) && PaidAt(j, x) == Some(r.atMs)
  }

  ghost predicate Receipted(hist: seq<P.Reservation>, j: seq<Entry>, x: Receipt) {
    exists k :: 0 <= k < |hist| && PaidBy(hist[k], j, x)
  }

  /** What a run has kept to: whether every payment was recorded in full, and, if its requests came
      on a clock that never ran backwards, what that clock read last. */
  datatype Keeping = Keeping(whole: bool, clock: Option<int>)

  ghost predicate ClockKept(ops: seq<P.Op>, clock: Option<int>) {
    var read := P.Clock(ops);
    clock.Some? ==> P.NonDecreasing(read) && forall i :: 0 <= i < |read| ==> read[i] <= clock.value
  }

  /** A request made now, on the clock kept. */
  predicate OnClock(nowMs: int, kept: Keeping) { nowMs > 0 && (kept.clock.Some? ==> nowMs == kept.clock.value) }

  ghost predicate TracedBy(img: Image, p: P.Policy, ops: seq<P.Op>, t: P.Trace, kept: Keeping) {
    && P.Run(p, ops) == Some(t) && Matches(img.store, t.store) && ClockKept(ops, kept.clock)
    && (forall n :: Backed(t, img.journal, n))
    && (kept.whole ==> forall x :: x in img.receipts ==> Receipted(t.history, img.journal, x))
  }

  /** Some run of the engine leaves these counters and backs every open payment; and, of a whole
      image, every receipt. */
  ghost predicate Traced(img: Image, p: P.Policy, kept: Keeping) { exists ops, t :: TracedBy(img, p, ops, t, kept) }

  // --------------------------------------------------------------- changes to an image

  lemma {:induction false} BlankIsTraced(img: Image, p: P.Policy, kept: Keeping)
    requires img.journal == [] && img.receipts == [] && Matches(img.store, P.EMPTY_STORE)
    ensures Traced(img, p, kept)
  {
    assert P.Run(p, []) == Some(P.EMPTY_TRACE);
    forall n ensures Backed(P.EMPTY_TRACE, [], n) { }
    assert TracedBy(img, p, [], P.EMPTY_TRACE, kept);
  }

  lemma {:induction false} SameTraced(img: Image, img': Image, p: P.Policy, kept: Keeping)
    requires Traced(img, p, kept) && Matches(img'.store, img.store)
    requires img'.journal == img.journal && img'.receipts == img.receipts
    ensures Traced(img', p, kept)
  {
    var ops, t :| TracedBy(img, p, ops, t, kept);
    forall n ensures Backed(t, img'.journal, n) { assert Backed(t, img.journal, n); }
    assert TracedBy(img', p, ops, t, kept);
  }

  lemma {:induction false} EvaluateAlike(s: P.Store, t: P.Store, p: P.Policy, req: P.SpendRequest)
    requires Matches(s, t)
    ensures var (s', d), (t', e) := P.EvaluateStep(s, p, req), P.EvaluateStep(t, p, req);
      Matches(s', t') && (d.Allow? <==> e.Allow?)
  {
  }

  /** One more request on the trace: what was there stays, and a grant adds its reservation. */
  lemma {:induction false} RequestTraced(
      s: P.Store, p: P.Policy, ops: seq<P.Op>, t: P.Trace, req: P.SpendRequest, kept: Keeping)
    returns (t': P.Trace)
    requires P.Run(p, ops) == Some(t) && Matches(s, t.store) && p.windowMs >= 1
    requires ClockKept(ops, kept.clock) && OnClock(req.nowMs, kept)
    ensures P.Run(p, ops + [P.Evaluate(req)]) == Some(t') && Matches(P.EvaluateStep(s, p, req).0, t'.store)
    ensures ClockKept(ops + [P.Evaluate(req)], kept.clock)
    ensures t.history <= t'.history
    ensures P.EvaluateStep(s, p, req).1.Allow? ==>
      && t'.starts != []
      && t'.history == t.history + [P.Reservation(req.nonce, req.amount, req.nowMs, |t'.starts| - 1, false)]
  {
    P.RunKeepsInvariant(p, ops);
    P.EvaluateIsRollThenGrant(t, p, req);
    EvaluateAlike(s, t.store, p, req);
    t' := P.Next(t, p, P.Evaluate(req));
    P.RunAppend(p, ops, P.Evaluate(req), t, t');
  }

  lemma {:induction false} StillBacked(t: P.Trace, t': P.Trace, j: seq<Entry>, n: string)
    requires Backed(t, j, n) && t.history <= t'.history
    ensures Backed(t', j, n)
  {
    if Pending(j, n) {
      var k :| 0 <= k < |t.history| && ReservationOf(t.history[k], j, n);
      assert ReservationOf(t'.history[k], j, n);
    }
  }

  lemma {:induction false} StillReceipted(
      hist: seq<P.Reservation>, hist': seq<P.Reservation>, j: seq<Entry>, x: Receipt)
    requires Receipted(hist, j, x) && hist <= hist'
    ensures Receipted(hist', j, x)
  {
    var k :| 0 <= k < |hist| && PaidBy(hist[k], j, x);
    assert PaidBy(hist'[k], j, x);
  }

  /** A row that leaves the time of a payment as it was leaves it receipted. */
  lemma {:induction false} ReceiptedAlike(hist: seq<P.Reservation>, j: seq<Entry>, j': seq<Entry>, x: Receipt)
    requires Receipted(hist, j, x) && PaidAt(j', x) == PaidAt(j, x)
    ensures Receipted(hist, j', x)
  {
    var k :| 0 <= k < |hist| && PaidBy(hist[k], j, x);
    assert PaidBy(hist[k], j', x);
  }

  /** A granted request and the receipt of its payment: one reservation more, the receipt's own, made
      at the time it names. */
  lemma {:induction false} GrantTraced(
      img: Image, img': Image, p: P.Policy, ops: seq<P.Op>, t: P.Trace, req: P.SpendRequest, x: Receipt, kept: Keeping)
    returns (t': P.Trace)
    requires TracedBy(img, p, ops, t, kept) && p.windowMs >= 1 && OnClock(req.nowMs, kept)
    requires P.EvaluateStep(img.store, p, req).1.Allow? && !Bound(img.journal, x.nonce)
    requires x.nonce == req.nonce && Value(x.amount) == req.amount && x.timestampMs == req.nowMs
    requires Matches(img'.store, P.EvaluateStep(img.store, p, req).0)
    requires img'.journal == img.journal && img'.receipts == img.receipts + [x]
    ensures TracedBy(img', p, ops + [P.Evaluate(req)], t', kept)
    ensures t'.starts != []
      && t'.history == t.history + [P.Reservation(x.nonce, Value(x.amount), x.timestampMs, |t'.starts| - 1, false)]
  {
    t' := RequestTraced(img.store, p, ops, t, req, kept);
    forall n ensures Backed(t', img'.journal, n) {
      assert Backed(t, img.journal, n);
      StillBacked(t, t', img.journal, n);
    }
    assert PaidBy(t'.history[|t.history|], img'.journal, x);
    forall y | kept.whole && y in img'.receipts ensures Receipted(t'.history, img'.journal, y) {
      if y in img.receipts {
        StillReceipted(t.history, t'.history, img.journal, y);
      }
    }
  }

  lemma {:induction false} EvaluateTraced(img: Image, p: P.Policy, req: P.SpendRequest, kept: Keeping)
    requires Traced(img, p, kept) && p.windowMs >= 1 && OnClock(req.nowMs, kept)
    ensures Traced(img.(store := P.EvaluateStep(img.store, p, req).0), p, kept)
  {
    var ops, t :| TracedBy(img, p, ops, t, kept);
    var t' := RequestTraced(img.store, p, ops, t, req, kept);
    var img' := img.(store := P.EvaluateStep(img.store, p, req).0);
    forall n ensures Backed(t', img'.journal, n) {
      assert Backed(t, img.journal, n);
      StillBacked(t, t', img.journal, n);
    }
    forall x | kept.whole && x in img.receipts ensures Receipted(t'.history, img'.journal, x) {
      StillReceipted(t.history, t'.history, img.journal, x);
    }
    assert TracedBy(img', p, ops + [P.Evaluate(req)], t', kept);
  }

  lemma {:induction false} NoteElsewhere(img: Image, row: Entry, phase: Phase, atMs: int, n: string)
    ensures var j := Note(img, row, phase, atMs).journal;
      && (n != row.nonce ==> Fold(j, n) == Fold(img.journal, n) && ReservedAt(j, n) == ReservedAt(img.journal, n))
      && (n == row.nonce ==> Fold(j, n) == Some(Entry(row.nonce, row.amount, row.currency, row.payee, phase, atMs)))
      && (n == row.nonce ==> ReservedAt(j, n) == if phase == Prepared then Some(atMs) else ReservedAt(img.journal, n))
  {
    var e := Entry(row.nonce, row.amount, row.currency, row.payee, phase, atMs);
    Appending(img.journal, e, n);
    assert (img.journal + [e])[..|img.journal|] == img.journal;
  }

  /** A row of another nonce, or one that moves an open payment on, leaves the time of a payment as it was. */
  lemma {:induction false} PaidElsewhere(img: Image, row: Entry, phase: Phase, atMs: int, x: Receipt)
    requires x.nonce != row.nonce || (Pending(img.journal, row.nonce) && phase in {Submitted, Indeterminate, Settled})
    ensures PaidAt(Note(img, row, phase, atMs).journal, x) == PaidAt(img.journal, x)
  {
    NoteElsewhere(img, row, phase, atMs, x.nonce);
  }

  /** What backs another nonce still backs it after a row of this one. */
  lemma {:induction false} BackedElsewhere(t: P.Trace, img: Image, row: Entry, phase: Phase, atMs: int, n: string)
    requires n != row.nonce && Backed(t, img.journal, n)
    ensures Backed(t, Note(img, row, phase, atMs).journal, n)
  {
    NoteElsewhere(img, row, phase, atMs, n);
    var j := Note(img, row, phase, atMs).journal;
    if Pending(j, n) {
      var k :| 0 <= k < |t.history| && ReservationOf(t.history[k], img.journal, n);
      assert ReservationOf(t.history[k], j, n);
    }
  }

  /** A reserve with its prepared row. */
  lemma {:induction false} PrepareTraced(img: Image, p: P.Policy, args: Args, nowMs: int, kept: Keeping)
    requires Traced(img, p, kept) && p.windowMs >= 1 && OnClock(nowMs, kept)
    requires P.EvaluateStep(img.store, p, Request(args, nowMs)).1.Allow?
      && (kept.whole ==> Unreceipted(img, args.nonce))
    ensures var s := P.EvaluateStep(img.store, p, Request(args, nowMs)).0;
      Traced(Note(img.(store := s), RowOf(args), Prepared, nowMs), p, kept)
  {
    var req, row := Request(args, nowMs), RowOf(args);
    var ops, t :| TracedBy(img, p, ops, t, kept);
    var t' := RequestTraced(img.store, p, ops, t, req, kept);
    var mid := img.(store := P.EvaluateStep(img.store, p, req).0);
    var img' := Note(mid, row, Prepared, nowMs);
    forall n ensures Backed(t', img'.journal, n) {
      assert Backed(t, img.journal, n);
      StillBacked(t, t', img.journal, n);
      if n == row.nonce {
        NoteElsewhere(mid, row, Prepared, nowMs, n);
        assert ReservationOf(t'.history[|t.history|], img'.journal, n);
      } else {
        BackedElsewhere(t', mid, row, Prepared, nowMs, n);
      }
    }
    forall x | kept.whole && x in img.receipts ensures Receipted(t'.history, img'.journal, x) {
      StillReceipted(t.history, t'.history, img.journal, x);
      PaidElsewhere(mid, row, Prepared, nowMs, x);
      ReceiptedAlike(t'.history, img.journal, img'.journal, x);
    }
    assert TracedBy(img', p, ops + [P.Evaluate(req)], t', kept);
  }

  /** The row is about the payment the journal holds open. */
  predicate SameAmount(img: Image, row: Entry) {
    Pending(img.journal, row.nonce) && Value(row.amount) == Value(Fold(img.journal, row.nonce).value.amount)
  }

  /** A payment moves on: its reservation stays where it is. */
  lemma {:induction false} MoveTraced(img: Image, p: P.Policy, row: Entry, phase: Phase, atMs: int, kept: Keeping)
    requires Traced(img, p, kept) && phase in {Submitted, Indeterminate, Settled} && SameAmount(img, row)
    ensures Traced(Note(img, row, phase, atMs), p, kept)
    ensures phase in {Submitted, Indeterminate} ==> SameAmount(Note(img, row, phase, atMs), row)
  {
    var ops, t :| TracedBy(img, p, ops, t, kept);
    var img' := Note(img, row, phase, atMs);
    NoteElsewhere(img, row, phase, atMs, row.nonce);
    forall n ensures Backed(t, img'.journal, n) {
      assert Backed(t, img.journal, n);
      if n == row.nonce {
        var k :| 0 <= k < |t.history| && ReservationOf(t.history[k], img.journal, n);
        assert ReservationOf(t.history[k], img'.journal, n);
      } else {
        BackedElsewhere(t, img, row, phase, atMs, n);
      }
    }
    forall x | kept.whole && x in img.receipts ensures Receipted(t.history, img'.journal, x) {
      PaidElsewhere(img, row, phase, atMs, x);
      ReceiptedAlike(t.history, img.journal, img'.journal, x);
    }
    assert TracedBy(img', p, ops, t, kept);
  }

  ghost predicate Unreceipted(img: Image, n: string) { forall x :: x in img.receipts ==> x.nonce != n }

  lemma {:induction false} OpenIsUnreceipted(img: Image, n: string, h: ReceiptHash)
    requires Whole(img, h) && Pending(img.journal, n)
    ensures Unreceipted(img, n)
  {
    forall x | x in img.receipts ensures x.nonce != n { assert ReceiptBurned(img, x); }
  }

  /** The release of an open payment is the release of its own reservation, and of no other. */
  lemma {:induction false} CloseTraced(img: Image, p: P.Policy, row: Entry, nowMs: int, kept: Keeping)
    requires Traced(img, p, kept) && SameAmount(img, row) && (kept.whole ==> Unreceipted(img, row.nonce))
    ensures Traced(Close(img, row, nowMs), p, kept)
  {
    var ops, t :| TracedBy(img, p, ops, t, kept);
    assert Backed(t, img.journal, row.nonce);
    var k :| 0 <= k < |t.history| && ReservationOf(t.history[k], img.journal, row.nonce);
    var t' := P.Next(t, p, P.Release(k));
    P.RunAppend(p, ops, P.Release(k), t, t');
    var mid, img' := Unreserve(img, row), Close(img, row, nowMs);
    forall n ensures Backed(t', img'.journal, n) {
      assert Backed(t, img.journal, n);
      NoteElsewhere(mid, row, Failed, nowMs, n);
      if n != row.nonce && Pending(img'.journal, n) {
        var i :| 0 <= i < |t.history| && ReservationOf(t.history[i], img.journal, n);
        assert i != k && ReservationOf(t'.history[i], img'.journal, n);
      }
    }
    forall x | kept.whole && x in img.receipts ensures Receipted(t'.history, img'.journal, x) {
      PaidElsewhere(mid, row, Failed, nowMs, x);
      ReceiptedAlike(t.history, img.journal, img'.journal, x);
      var i :| 0 <= i < |t.history| && PaidBy(t.history[i], img'.journal, x);
      assert i != k && PaidBy(t'.history[i], img'.journal, x);
    }
    assert TracedBy(img', p, ops + [P.Release(k)], t', kept);
  }

  /** The receipt of an open payment is for what its reservation took. */
  lemma {:induction false} PushTraced(img: Image, img': Image, p: P.Policy, x: Receipt, kept: Keeping)
    requires Traced(img, p, kept) && Pending(img.journal, x.nonce)
    requires Value(x.amount) == Value(Fold(img.journal, x.nonce).value.amount)
    requires img'.store == img.store && img'.journal == img.journal && img'.receipts == img.receipts + [x]
    ensures Traced(img', p, kept)
  {
    var ops, t :| TracedBy(img, p, ops, t, kept);
    forall n ensures Backed(t, img'.journal, n) { assert Backed(t, img.journal, n); }
    assert Backed(t, img.journal, x.nonce);
    var k :| 0 <= k < |t.history| && ReservationOf(t.history[k], img.journal, x.nonce);
    assert PaidBy(t.history[k], img'.journal, x);
    assert TracedBy(img', p, ops, t, kept);
  }

  lemma {:induction false} PersistTraced(
      img: Image, p: P.Policy, row: Entry, nowMs: int, receiptMs: int, h: ReceiptHash, kept: Keeping)
    requires Traced(img, p, kept) && SameAmount(img, row)
    ensures Traced(Persist(img, row, nowMs, receiptMs, h), p, kept)
  {
    var x := ReceiptFor(img, row, receiptMs, h);
    var mid := WithReceipt(img, x, nowMs, h);
    PushTraced(img, Push(img, x), p, x, kept);
    PushTraced(img, mid, p, x, kept);
    MoveTraced(mid, p, row, Settled, nowMs, kept);
  }

  // --------------------------------------------------------------------- operations

  ghost predicate SeatTraced(v: Seat, p: P.Policy, kept: Keeping) {
    Traced(v.mem, p, kept) && (v.disk.Some? ==> Traced(v.disk.value, p, kept))
  }

  lemma {:induction false} AfterCallTraced(
      v: Seat, h: ReceiptHash, row: Entry, nowMs: int, answer: Answer, ok: bool, unsaved: Outcome, p: P.Policy,
      kept: Keeping)
    requires SeatTraced(v, p, kept) && SameAmount(v.mem, row) && (kept.whole ==> Unreceipted(v.mem, row.nonce))
    ensures SeatTraced(AfterCall(v, h, row, nowMs, answer, ok, unsaved).0, p, kept)
  {
    match answer
    case RailCrash =>
    case NoAnswer => MoveTraced(v.mem, p, row, Indeterminate, nowMs, kept);
    case SaidFailed => CloseTraced(v.mem, p, row, nowMs, kept);
    case SaidSettled => PersistTraced(v.mem, p, row, nowMs, nowMs, h, kept);
  }

  /** Where an in-process spend can leave a session, and that the file holds no more than that. */
  lemma SpendEnds(v: Seat, p: P.Policy, h: ReceiptHash, args: Args, nowMs: int, ok: bool)
    ensures var (s, d) := P.EvaluateStep(v.mem.store, p, Request(args, nowMs));
      var v' := SpendStep(v, p, h, args, nowMs, ok).0;
      && (v'.disk == v.disk || v'.disk == Some(v'.mem))
      && (v'.mem == v.mem || v'.mem == v.mem.(store := s)
          || (d.Allow? && IsValidAmountText(args.amount)
              && var s' := P.ConsumeStep(s, d.decisionId, Value(args.amount), true).0;
                var amount := PrintAmount(ParseAmount(args.amount));
                var r := Mint(v.mem, args.nonce, args.payee, amount, args.currency, nowMs, h);
                v'.mem in {v.mem.(store := s'), WithReceipt(v.mem.(store := s'), r, nowMs, h)}))
  {
  }

  lemma {:induction false} SpendTraced(
      v: Seat, p: P.Policy, h: ReceiptHash, args: Args, nowMs: int, ok: bool, kept: Keeping)
    requires SeatTraced(v, p, kept) && p.windowMs >= 1 && OnClock(nowMs, kept) && BoundIsBurned(v.mem)
    ensures SeatTraced(SpendStep(v, p, h, args, nowMs, ok).0, p, kept)
  {
    var req := Request(args, nowMs);
    var (s, d) := P.EvaluateStep(v.mem.store, p, req);
    EvaluateTraced(v.mem, p, req, kept);
    SpendEnds(v, p, h, args, nowMs, ok);
    if d.Allow? && IsValidAmountText(args.amount) {
      var s' := P.ConsumeStep(s, d.decisionId, Value(args.amount), true).0;
      SameTraced(v.mem.(store := s), v.mem.(store := s'), p, kept);
      PaidTraced(v.mem, p, h, args, nowMs, s', kept);
    }
  }

  lemma {:induction false} PaidTraced(
      img: Image, p: P.Policy, h: ReceiptHash, args: Args, nowMs: int, s: P.Store, kept: Keeping)
    requires Traced(img, p, kept) && p.windowMs >= 1 && OnClock(nowMs, kept) && BoundIsBurned(img)
    requires P.EvaluateStep(img.store, p, Request(args, nowMs)).1.Allow? && IsValidAmountText(args.amount)
    requires Matches(s, P.EvaluateStep(img.store, p, Request(args, nowMs)).0)
    ensures var amount := PrintAmount(ParseAmount(args.amount));
      var r := Mint(img, args.nonce, args.payee, amount, args.currency, nowMs, h);
      Traced(WithReceipt(img.(store := s), r, nowMs, h), p, kept)
  {
    var r := Mint(img, args.nonce, args.payee, PrintAmount(ParseAmount(args.amount)), args.currency, nowMs, h);
    PrintParses(ParseAmount(args.amount));
    GrantedIsFree(img.store, p, Request(args, nowMs));
    var ops, t :| TracedBy(img, p, ops, t, kept);
    var t' := GrantTraced(img, WithReceipt(img.(store := s), r, nowMs, h), p, ops, t, Request(args, nowMs), r, kept);
  }

  lemma GrantedIsFree(s: P.Store, p: P.Policy, req: P.SpendRequest)
    requires P.EvaluateStep(s, p, req).1.Allow?
    ensures req.nonce !in s.usedNonces
  {
  }

  lemma {:induction false} CalledTraced(
      v: Seat, h: ReceiptHash, row: Entry, nowMs: int, env: Env, unsaved: Outcome, p: P.Policy, kept: Keeping)
    requires SeatTraced(v, p, kept) && SameAmount(v.mem, row) && (kept.whole ==> Unreceipted(v.mem, row.nonce))
    ensures var submitted := v.(mem := Note(v.mem, row, Submitted, nowMs));
      && SeatTraced(submitted, p, kept) && SeatTraced(Save(submitted, true), p, kept)
      && var called := Tell(Save(submitted, true), Called(row.nonce, nowMs));
        SeatTraced(AfterCall(called, h, row, nowMs, env.answer, env.saveLast, unsaved).0, p, kept)
  {
    MoveTraced(v.mem, p, row, Submitted, nowMs, kept);
    var submitted := v.(mem := Note(v.mem, row, Submitted, nowMs));
    var called := Tell(Save(submitted, true), Called(row.nonce, nowMs));
    AfterCallTraced(called, h, row, nowMs, env.answer, env.saveLast, unsaved, p, kept);
  }

  lemma {:induction false} SubmitTraced(
      v: Seat, p: P.Policy, h: ReceiptHash, args: Args, nowMs: int, env: Env, kept: Keeping)
    requires SeatTraced(v, p, kept) && p.windowMs >= 1 && OnClock(nowMs, kept) && (kept.whole ==> Whole(v.mem, h))
    ensures SeatTraced(SubmitStep(v, p, h, args, nowMs, env).0, p, kept)
  {
    var req, row := Request(args, nowMs), RowOf(args);
    var (s, d) := P.EvaluateStep(v.mem.store, p, req);
    EvaluateTraced(v.mem, p, req, kept);
    if d.Allow? && InSync(v) {
      var prepared := Tell(v, Reserved(args.nonce)).(mem := Note(v.mem.(store := s), row, Prepared, nowMs));
      forall x | kept.whole && x in v.mem.receipts ensures x.nonce != row.nonce { assert ReceiptBurned(v.mem, x); }
      PrepareTraced(v.mem, p, args, nowMs, kept);
      NoteElsewhere(v.mem.(store := s), row, Prepared, nowMs, row.nonce);
      CalledTraced(Save(prepared, true), h, row, nowMs, env, Refused("state-io"), p, kept);
    }
  }

  lemma {:induction false} FoldedIsSame(img: Image, n: string)
    requires Fold(img.journal, n).Some? && Fold(img.journal, n).value.phase in {Prepared, Submitted, Indeterminate}
    ensures SameAmount(img, Fold(img.journal, n).value)
  {
    FoldNames(img.journal, n);
  }

  lemma {:induction false} RetryTraced(
      v: Seat, h: ReceiptHash, nonce: string, idempotent: bool, nowMs: int, env: Env, p: P.Policy, kept: Keeping)
    requires SeatTraced(v, p, kept) && (kept.whole ==> Whole(v.mem, h))
    ensures SeatTraced(RetryStep(v, h, nonce, idempotent, nowMs, env).0, p, kept)
  {
    var folded := Fold(v.mem.journal, nonce);
    if folded.Some? && folded.value.phase == Indeterminate {
      var row := folded.value;
      FoldedIsSame(v.mem, nonce);
      if kept.whole { OpenIsUnreceipted(v.mem, row.nonce, h); }
      CalledTraced(v, h, row, nowMs, env, Thrown, p, kept);
    }
  }

  lemma {:induction false} ResolveTraced(v: Seat, h: ReceiptHash, a: Action, p: P.Policy, kept: Keeping)
    requires SeatTraced(v, p, kept) && a.Resolve? && (kept.whole ==> Whole(v.mem, h))
    ensures SeatTraced(Operate(v, h, a), p, kept)
  {
    var folded, hit := Fold(v.mem.journal, a.nonce), FirstHit(a.x.rows, RefFor(a.nonce));
    if folded.Some? && folded.value.phase == Indeterminate {
      FoldedIsSame(v.mem, a.nonce);
      if kept.whole { OpenIsUnreceipted(v.mem, folded.value.nonce, h); }
      CloseTraced(v.mem, p, folded.value, a.nowMs, kept);
      if hit.Some? {
        PersistTraced(v.mem, p, folded.value, a.nowMs, hit.value.timestampMs, h, kept);
      }
    }
  }

  lemma {:induction false} RecoverTraced(img: Image, rows: seq<Entry>, nowMs: int, p: P.Policy, kept: Keeping)
    requires Traced(img, p, kept) && S.StillFolded(img, rows)
    requires kept.whole ==> forall e :: e in rows && e.phase == Prepared ==> Unreceipted(img, e.nonce)
    ensures Traced(RecoverRows(img, rows, nowMs), p, kept)
    decreases rows
  {
    if rows != [] {
      var row, img' := rows[0], RecoverRow(img, rows[0], nowMs);
      assert row in rows;
      match row.phase {
        case Prepared =>
          FoldedIsSame(img, row.nonce);
          CloseTraced(img, p, row, nowMs, kept);
        case Submitted =>
          FoldedIsSame(img, row.nonce);
          MoveTraced(img, p, row, Indeterminate, nowMs, kept);
        case _ =>
      }
      S.RecoverRowElsewhere(img, rows, nowMs);
      RecoverTraced(img', rows[1..], nowMs, p, kept);
    }
  }

  lemma {:induction false} LoadTraced(
      disk: Option<Image>, blank: Image, nowMs: int, log: seq<Event>, ok: bool, p: P.Policy, h: ReceiptHash,
      kept: Keeping)
    requires (disk.Some? ==> Traced(disk.value, p, kept)) && Traced(blank, p, kept)
    requires kept.whole ==> (disk.Some? ==> Whole(disk.value, h)) && blank.receipts == []
    ensures LoadStep(disk, blank, nowMs, log, ok).Some? ==>
      SeatTraced(LoadStep(disk, blank, nowMs, log, ok).value, p, kept)
  {
    var mem := if disk.Some? then disk.value else blank;
    IntentsAreLast(mem.journal);
    forall e | kept.whole && e in Intents(mem.journal) && e.phase == Prepared ensures Unreceipted(mem, e.nonce) {
      if disk.Some? { OpenIsUnreceipted(mem, e.nonce, h); }
    }
    RecoverTraced(mem, Intents(mem.journal), nowMs, p, kept);
  }

  // --------------------------------------------------------------------------- runs

  /** The clock of the last action that asked. */
  function LastAsked(actions: seq<Action>): int {
    if actions == [] then 0
    else
      var last := actions[|actions| - 1];
      if Asks(last) then last.nowMs else LastAsked(actions[..|actions| - 1])
  }

  /** The clock never ran backwards between two actions that asked. */
  ghost predicate Steady(actions: seq<Action>) {
    forall i, j :: 0 <= i < j < |actions| && Asks(actions[i]) && Asks(actions[j]) ==>
      actions[i].nowMs <= actions[j].nowMs
  }

  lemma {:induction false} SteadyLast(actions: seq<Action>, a: Action)
    requires Steady(actions + [a]) && Asks(a) && a.nowMs > 0
    ensures Steady(actions) && LastAsked(actions) <= a.nowMs
  {
    var all := actions + [a];
    assert forall i :: 0 <= i < |actions| ==> all[i] == actions[i];
    assert all[|actions|] == a;
    if actions != [] && !Asks(actions[|actions| - 1]) {
      var init := actions[..|actions| - 1];
      forall i, j | 0 <= i < j < |init + [a]| && Asks((init + [a])[i]) && Asks((init + [a])[j])
        ensures (init + [a])[i].nowMs <= (init + [a])[j].nowMs
      {
        assert (init + [a])[i] == all[i] && (j == |init| ==> (init + [a])[j] == all[|actions|]);
      }
      SteadyLast(init, a);
    }
  }

  /** What a run of these actions keeps to. */
  function Kept(actions: seq<Action>, whole: bool, steady: bool): Keeping {
    Keeping(whole, if steady then Some(LastAsked(actions)) else None)
  }

  ghost predicate WorldTraced(w: World, p: P.Policy, kept: Keeping) {
    && (w.disk.Some? ==> Traced(w.disk.value, p, kept))
    && forall id :: id in w.members ==> Traced(w.members[id].mem, p, kept)
  }

  lemma {:induction false} OperateTraced(v: Seat, h: ReceiptHash, a: Action, p: P.Policy, kept: Keeping)
    requires SeatTraced(v, p, kept) && p.windowMs >= 1 && UnderPolicy(a, p) && (Asks(a) ==> OnClock(a.nowMs, kept))
    requires BoundIsBurned(v.mem) && (kept.whole ==> Whole(v.mem, h))
    ensures SeatTraced(Operate(v, h, a), p, kept)
  {
    match a
    case Spend(_, q, args, nowMs, ok) => SpendTraced(v, p, h, args, nowMs, ok, kept);
    case Submit(_, q, args, nowMs, env) => SubmitTraced(v, p, h, args, nowMs, env, kept);
    case Retry(_, nonce, idempotent, nowMs, env) => RetryTraced(v, h, nonce, idempotent, nowMs, env, p, kept);
    case Resolve(_, _, _, _, _, _) => ResolveTraced(v, h, a, p, kept);
    case _ =>
  }

  lemma {:induction false} SeatedTraced(w: World, id: nat, v: Seat, p: P.Policy, kept: Keeping)
    requires WorldTraced(w, p, kept) && SeatTraced(v, p, kept)
    ensures WorldTraced(Seated(w, id, v), p, kept)
  {
  }

  lemma {:induction false} LoadedTraced(
      w: World, id: nat, blank: Image, nowMs: int, ok: bool, h: ReceiptHash, p: P.Policy, kept: Keeping)
    requires WorldTraced(w, p, kept) && (kept.whole && w.disk.Some? ==> Whole(w.disk.value, h))
    requires blank.journal == [] && blank.receipts == [] && Matches(blank.store, P.EMPTY_STORE)
    ensures WorldTraced(Loaded(w, id, LoadStep(w.disk, blank, nowMs, w.log, ok)), p, kept)
  {
    BlankIsTraced(blank, p, kept);
    LoadTraced(w.disk, blank, nowMs, w.log, ok, p, h, kept);
    var got := LoadStep(w.disk, blank, nowMs, w.log, ok);
    if got.Some? { SeatedTraced(w, id, got.value, p, kept); }
  }

  lemma {:induction false} ActTraced(w: World, h: ReceiptHash, a: Action, p: P.Policy, kept: Keeping)
    requires WorldTraced(w, p, kept) && p.windowMs >= 1 && UnderPolicy(a, p) && Inv(w, h, kept.whole)
    requires Asks(a) ==> OnClock(a.nowMs, kept)
    ensures WorldTraced(Act(w, h, a), p, kept)
  {
    match a {
      case Open(id, key, nowMs, ok) => LoadedTraced(w, id, EmptyImage(key), nowMs, ok, h, p, kept);
      case Reload(id, nowMs, ok) =>
        if id in w.members { LoadedTraced(w, id, Emptied(w.members[id].mem), nowMs, ok, h, p, kept); }
      case Crash(id) =>
      case _ =>
        if a.id in w.members {
          var v := SeatOf(w, w.members[a.id]);
          assert MemberOk(w, w.members[a.id], h, kept.whole);
          OperateTraced(v, h, a, p, kept);
          SeatedTraced(w, a.id, Operate(v, h, a), p, kept);
        }
    }
  }

  /** A clock that has gone on since was kept no less. */
  lemma {:induction false} LaterTraced(w: World, p: P.Policy, kept: Keeping, later: Keeping)
    requires WorldTraced(w, p, kept) && later.whole == kept.whole
    requires later.clock.Some? ==> kept.clock.Some? && kept.clock.value <= later.clock.value
    ensures WorldTraced(w, p, later)
  {
    forall img | Traced(img, p, kept) ensures Traced(img, p, later) {
      var ops, t :| TracedBy(img, p, ops, t, kept);
      assert TracedBy(img, p, ops, t, later);
    }
  }

  /** What a run keeps to, it kept to before its last action. */
  lemma {:induction false} EarlierKept(init: seq<Action>, a: Action, p: P.Policy, whole: bool, steady: bool)
    requires RunUnderPolicy(init + [a], p)
    requires (whole ==> TimelyRun(init + [a])) && (steady ==> Steady(init + [a]))
    ensures RunUnderPolicy(init, p) && UnderPolicy(a, p)
    ensures (whole ==> TimelyRun(init)) && (steady ==> Steady(init))
    ensures LastAsked(init + [a]) == if Asks(a) then a.nowMs else LastAsked(init)
    ensures steady ==> LastAsked(init) <= LastAsked(init + [a])
  {
    var all := init + [a];
    assert all[..|all| - 1] == init && all[|all| - 1] == a;
    assert forall b :: b in init ==> b in all;
    assert a in all;
    assert forall i :: 0 <= i < |init| ==> all[i] == init[i];
    if steady && Asks(a) { SteadyLast(init, a); }
  }

  /** Whatever crashed, failed or was recovered on the way, every session and the file hold the
      counters of some run of the policy engine, with a live reservation for every open payment, made
      when the journal says; while no clock and no evidence stands at the last safe integer, with one
      for every receipt too; and on a clock that never runs backwards if that of the requests did not. */
  lemma {:induction false} EveryReachableStoreIsTraced(
      actions: seq<Action>, h: ReceiptHash, p: P.Policy, whole: bool, steady: bool)
    requires p.windowMs >= 1 && RunUnderPolicy(actions, p)
    requires (whole ==> TimelyRun(actions)) && (steady ==> Steady(actions))
    ensures WorldTraced(After(actions, h), p, Kept(actions, whole, steady))
  {
    if actions != [] {
      var init, a := actions[..|actions| - 1], actions[|actions| - 1];
      EarlierKept(init, a, p, whole, steady);
      assert actions == init + [a];
      EveryReachableStoreIsTraced(init, h, p, whole, steady);
      RunKeeps(init, h, whole);
      LaterTraced(After(init, h), p, Kept(init, whole, steady), Kept(actions, whole, steady));
      ActTraced(After(init, h), h, a, p, Kept(actions, whole, steady));
    }
  }

  /** So the limits of a window hold of every session and of the file, in every reachable state. */
  lemma {:induction false} LimitsHold(img: Image, p: P.Policy, kept: Keeping)
    requires p.windowMs >= 1 && Traced(img, p, kept)
    ensures img.store.counters.allowedCount <= P.Cap(p.maxPayments)
      && img.store.counters.allowedSum <= P.Cap(p.maxCumulative)
  {
    var ops, t :| TracedBy(img, p, ops, t, kept);
    P.RunKeepsInvariant(p, ops);
  }

  /** And releasing an open payment gives back exactly what it took, or nothing once its window has
      rolled: no clamp ever takes effect. */
  lemma {:induction false} ReleaseGivesBackExactly(img: Image, p: P.Policy, n: string, kept: Keeping)
    requires p.windowMs >= 1 && Traced(img, p, kept) && Pending(img.journal, n)
    ensures ReservedAt(img.journal, n).Some?
    ensures var row, c := Fold(img.journal, n).value, img.store.counters;
      var c' := Unreserve(img, row).store.counters;
      && c' == (if ReservedAt(img.journal, n).value >= c.windowStartMs
                then c.(allowedCount := c.allowedCount - 1, allowedSum := c.allowedSum - Value(row.amount)) else c)
      && c'.allowedCount >= 0 && c'.allowedSum >= 0
  {
    var ops, t :| TracedBy(img, p, ops, t, kept);
    assert Backed(t, img.journal, n);
    var k :| 0 <= k < |t.history| && ReservationOf(t.history[k], img.journal, n);
    FoldNames(img.journal, n);
    P.RunKeepsInvariant(p, ops);
    P.ReleaseIsExact(t, p, k);
  }

  // ------------------------------------------------- what was receipted in one span

  /** The receipts of payments reserved in [a, b). */
  predicate PaidWithin(j: seq<Entry>, x: Receipt, a: int, b: int) { PaidAt(j, x).Some? && a <= PaidAt(j, x).value < b }

  function PaidCount(j: seq<Entry>, receipts: seq<Receipt>, a: int, b: int): nat {
    if receipts == [] then 0
    else
      var x := receipts[|receipts| - 1];
      PaidCount(j, receipts[..|receipts| - 1], a, b) + if PaidWithin(j, x, a, b) then 1 else 0
  }

  function PaidSum(j: seq<Entry>, receipts: seq<Receipt>, a: int, b: int): int {
    if receipts == [] then 0
    else
      var x := receipts[|receipts| - 1];
      PaidSum(j, receipts[..|receipts| - 1], a, b) + if PaidWithin(j, x, a, b) then Value(x.amount) else 0
  }

  /** Taking one receipt's reservation away takes nothing from a receipt of another nonce. */
  lemma {:induction false} ReceiptedElsewhere(hist: seq<P.Reservation>, k: nat, j: seq<Entry>, x: Receipt)
    requires k < |hist| && x.nonce != hist[k].nonce && Receipted(hist, j, x)
    ensures Receipted(hist[k := hist[k].(released := true)], j, x)
  {
    var i :| 0 <= i < |hist| && PaidBy(hist[i], j, x);
    assert i != k && PaidBy(hist[k := hist[k].(released := true)][i], j, x);
  }

  lemma {:induction false} LastDiffers(receipts: seq<Receipt>)
    requires receipts != [] && NoncesDiffer(receipts)
    ensures var init, x := receipts[..|receipts| - 1], receipts[|receipts| - 1];
      NoncesDiffer(init) && x in receipts && forall y :: y in init ==> y in receipts && y.nonce != x.nonce
  {
    var init, x := receipts[..|receipts| - 1], receipts[|receipts| - 1];
    forall y | y in init ensures y.nonce != x.nonce {
      var i :| 0 <= i < |init| && init[i] == y;
      assert receipts[i].nonce != receipts[|receipts| - 1].nonce;
    }
  }

  /** Receipts of different nonces have different reservations, so a span holds no more of them, and
      no more money, than was reserved in it. */
  lemma {:induction false} PaidIsReserved(
      hist: seq<P.Reservation>, j: seq<Entry>, receipts: seq<Receipt>, a: int, b: int)
    requires NoncesDiffer(receipts) && forall x :: x in receipts ==> Receipted(hist, j, x)
    requires forall i :: 0 <= i < |hist| ==> hist[i].amount > 0
    ensures PaidCount(j, receipts, a, b) <= P.SpanCount(hist, a, b)
    ensures PaidSum(j, receipts, a, b) <= P.SpanSum(hist, a, b)
    decreases |receipts|
  {
    if receipts == [] {
      P.SpanSumNonNegative(hist, a, b);
    } else {
      var init, x := receipts[..|receipts| - 1], receipts[|receipts| - 1];
      LastDiffers(receipts);
      var k :| 0 <= k < |hist| && PaidBy(hist[k], j, x);
      var hist' := hist[k := hist[k].(released := true)];
      forall y | y in init ensures Receipted(hist', j, y) { ReceiptedElsewhere(hist, k, j, y); }
      PaidIsReserved(hist', j, init, a, b);
      P.SpanRelease(hist, k, a, b);
    }
  }

  /** Of a whole image: no receipt was paid past the window the counters stand in, and those paid in
      it are counted, so they are no more, and no larger together, than the policy allows. */
  ghost predicate KeepsWithinWindow(img: Image, p: P.Policy) {
    var c := img.store.counters;
    var end := c.windowStartMs + p.windowMs;
    && (forall x :: x in img.receipts ==> PaidAt(img.journal, x).Some? && PaidAt(img.journal, x).value < end)
    && PaidCount(img.journal, img.receipts, c.windowStartMs, end) <= c.allowedCount <= P.Cap(p.maxPayments)
    && PaidSum(img.journal, img.receipts, c.windowStartMs, end) <= c.allowedSum <= P.Cap(p.maxCumulative)
  }

  lemma {:induction false} TracedKeepsWithinWindow(img: Image, p: P.Policy, kept: Keeping)
    requires p.windowMs >= 1 && Traced(img, p, kept) && kept.whole && NoncesDiffer(img.receipts)
    ensures KeepsWithinWindow(img, p)
  {
    var ops, t :| TracedBy(img, p, ops, t, kept);
    P.CurrentSpanIsCounted(p, ops, t);
    LimitsHold(img, p, kept);
    ReceiptedKeepsWithinWindow(img, p, t.history);
  }

  lemma {:induction false} ReceiptedKeepsWithinWindow(img: Image, p: P.Policy, hist: seq<P.Reservation>)
    requires NoncesDiffer(img.receipts) && forall x :: x in img.receipts ==> Receipted(hist, img.journal, x)
    requires P.CountedBy(hist, img.store.counters, p)
    requires img.store.counters.allowedCount <= P.Cap(p.maxPayments)
    requires img.store.counters.allowedSum <= P.Cap(p.maxCumulative)
    ensures KeepsWithinWindow(img, p)
  {
    var start := img.store.counters.windowStartMs;
    PaidByItsEnd(img, hist, start + p.windowMs);
    PaidIsReserved(hist, img.journal, img.receipts, start, start + p.windowMs);
  }

  lemma {:induction false} PaidByItsEnd(img: Image, hist: seq<P.Reservation>, end: int)
    requires forall x :: x in img.receipts ==> Receipted(hist, img.journal, x)
    requires forall i :: 0 <= i < |hist| ==> hist[i].atMs < end
    ensures forall x :: x in img.receipts ==> PaidAt(img.journal, x).Some? && PaidAt(img.journal, x).value < end
  {
    forall x | x in img.receipts ensures PaidAt(img.journal, x).Some? && PaidAt(img.journal, x).value < end {
      var k :| 0 <= k < |hist| && PaidBy(hist[k], img.journal, x);
    }
  }

  /** On a clock that never runs backwards, of any span as long as the window: the receipts of
      payments reserved in it are at most twice as many, and total at most twice as much. */
  ghost predicate KeepsWithinSpan(img: Image, p: P.Policy, a: int) {
    && PaidCount(img.journal, img.receipts, a, a + p.windowMs) <= 2 * P.Cap(p.maxPayments)
    && PaidSum(img.journal, img.receipts, a, a + p.windowMs) <= 2 * P.Cap(p.maxCumulative)
  }

  lemma {:induction false} TracedKeepsWithinSpan(img: Image, p: P.Policy, kept: Keeping, a: int)
    requires p.windowMs >= 1 && Traced(img, p, kept) && kept.whole && kept.clock.Some? && NoncesDiffer(img.receipts)
    ensures KeepsWithinSpan(img, p, a)
  {
    var ops, t :| TracedBy(img, p, ops, t, kept);
    P.RunKeepsInvariant(p, ops);
    forall i | 0 <= i < |t.history| ensures t.history[i].amount > 0 {
      assert P.Dated(t.history[i], t.starts, p.windowMs);
    }
    PaidIsReserved(t.history, img.journal, img.receipts, a, a + p.windowMs);
    P.SpanIsAtMostTwice(p, ops, a);
  }

  lemma {:induction false} HeldIsTraced(actions: seq<Action>, h: ReceiptHash, p: P.Policy, img: Image, steady: bool)
    requires p.windowMs >= 1 && RunUnderPolicy(actions, p) && TimelyRun(actions) && (steady ==> Steady(actions))
    requires HoldsImage(After(actions, h), img)
    ensures Traced(img, p, Kept(actions, true, steady)) && NoncesDiffer(img.receipts)
  {
    var w := After(actions, h);
    EveryReachableStoreIsTraced(actions, h, p, true, steady);
    RunKeeps(actions, h, true);
    if w.disk != Some(img) {
      var id :| id in w.members && w.members[id].mem == img;
      assert MemberOk(w, w.members[id], h, true);
    }
  }

  /** Over crashes, failed writes and recoveries, whatever the clock does: in every session and in the
      file, the payments receipted in the window the counters stand in are no more, and no larger
      together, than the policy allows, and none was reserved past it. */
  lemma {:induction false} ReceiptsKeepWithinLimits(actions: seq<Action>, h: ReceiptHash, p: P.Policy, img: Image)
    requires p.windowMs >= 1 && RunUnderPolicy(actions, p) && TimelyRun(actions) && HoldsImage(After(actions, h), img)
    ensures KeepsWithinWindow(img, p)
  {
    HeldIsTraced(actions, h, p, img, false);
    TracedKeepsWithinWindow(img, p, Kept(actions, true, false));
  }

  /** And if the clock of the requests never runs backwards, every span as long as the window, wherever
      it lies, holds receipts of at most twice as many payments and twice as much. */
  lemma {:induction false} ReceiptsOfAnySpan(actions: seq<Action>, h: ReceiptHash, p: P.Policy, img: Image, a: int)
    requires p.windowMs >= 1 && RunUnderPolicy(actions, p) && TimelyRun(actions) && HoldsImage(After(actions, h), img)
    requires Steady(actions)
    ensures KeepsWithinSpan(img, p, a)
  {
    HeldIsTraced(actions, h, p, img, true);
    TracedKeepsWithinSpan(img, p, Kept(actions, true, true), a);
  }
}
