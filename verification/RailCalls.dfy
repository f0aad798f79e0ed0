/** When the rail is called, what its answer and a verified extract decide, and what a restart makes
    of what was under way: each said of the journal, the evidence and the rail alone. */
module RailCalls {
  import opened Journal
  import opened Options
  import opened Records
  import opened SessionSteps
  import opened Sessions
  import opened SharedState
  import Utf8
  import A = Audit
  import P = Policies
  import Q = Permits
  import S = SessionSafety

  // ---------------------------------------------------------------- when the rail is called

  /** The journal last holds the nonce as out without an answer. */
  predicate Unanswered(j: seq<Entry>, nonce: string) {
    Fold(j, nonce).Some? && Fold(j, nonce).value.phase == Indeterminate
  }

  /** A retry calls the rail exactly when the session is in step, the payment is indeterminate, the rail
      takes a repeated call for one, and the submitted row could be written; with any of the first three
      missing it leaves everything as it was, and says which. */
  lemma {:induction false} RetryCallsExactly(
      v: Seat, h: ReceiptHash, nonce: string, idempotent: bool, nowMs: int, env: Env)
    ensures var (v', out) := RetryStep(v, h, nonce, idempotent, nowMs, env);
      && (if InSync(v) && Unanswered(v.mem.journal, nonce) && idempotent && env.saveSubmitted
          then v.log + [Called(nonce, nowMs)] <= v'.log else v'.log == v.log)
      && (!InSync(v) ==> v' == v && out == Refused("state-conflict"))
      && (InSync(v) && !Unanswered(v.mem.journal, nonce) ==> v' == v && out == Refused("not-indeterminate"))
      && (InSync(v) && Unanswered(v.mem.journal, nonce) && !idempotent ==>
            v' == v && out == Refused("rail-not-idempotent"))
  {
    FoldIsOf(v.mem.journal, nonce);
  }

  lemma {:induction false} FoldIsOf(j: seq<Entry>, nonce: string)
    ensures Fold(j, nonce).Some? ==> Fold(j, nonce).value.nonce == nonce
  {
    if j != [] && j[|j| - 1].nonce != nonce { FoldIsOf(j[..|j| - 1], nonce); }
  }

  /** All that a submit needs before the rail may be asked. */
  predicate MaySubmit(v: Seat, p: P.Policy, args: Args, nowMs: int) {
    && IsValidAmountText(args.amount) && |Utf8.EncodeText(args.nonce)| >= 16 && InSync(v)
    && args.nonce !in v.mem.store.usedNonces && Q.Permitted(p, Request(args, nowMs))
    && Q.RoomLeft(v.mem.store, p, Request(args, nowMs))
  }

  lemma {:induction false} SubmitLogs(v: Seat, p: P.Policy, h: ReceiptHash, args: Args, nowMs: int, env: Env)
    ensures var log := SubmitStep(v, p, h, args, nowMs, env).0.log;
      var called := v.log + [Reserved(args.nonce)] + [Called(args.nonce, nowMs)];
      if !MaySubmit(v, p, args, nowMs) then log == v.log
      else if !(env.savePrepared && env.saveSubmitted && env.stop == RunsOn) then log == v.log + [Reserved(args.nonce)]
      else if env.answer == SaidFailed then log == called + [RailFailed(args.nonce)]
      else log == called
  {
    Q.AllowedExactly(v.mem.store, p, Request(args, nowMs));
  }

  lemma CallIsLogged(log: seq<Event>, n: string, atMs: int)
    ensures Called(n, atMs) !in [Reserved(n)]
    ensures var called := log + [Reserved(n)] + [Called(n, atMs)];
      && Called(n, atMs) in called[|log|..] && Called(n, atMs) in (called + [RailFailed(n)])[|log|..]
      && (log + [Reserved(n)])[|log|..] == [Reserved(n)]
  {
    var called := log + [Reserved(n)] + [Called(n, atMs)];
    assert called[|log|..] == [Reserved(n), Called(n, atMs)];
    assert (called + [RailFailed(n)])[|log|..] == [Reserved(n), Called(n, atMs), RailFailed(n)];
  }

  /** A submit calls the rail exactly when amount and nonce are well formed, the session is in step, the
      policy allows the payment, both rows could be written, and the process lived on. */
  lemma {:induction false} SubmitCallsExactly(v: Seat, p: P.Policy, h: ReceiptHash, args: Args, nowMs: int, env: Env)
    ensures var v' := SubmitStep(v, p, h, args, nowMs, env).0;
      v.log <= v'.log &&
      (Called(args.nonce, nowMs) in v'.log[|v.log|..] <==>
        MaySubmit(v, p, args, nowMs) && env.savePrepared && env.saveSubmitted && env.stop == RunsOn)
  {
    SubmitLogs(v, p, h, args, nowMs, env);
    CallIsLogged(v.log, args.nonce, nowMs);
  }

  // ------------------------------------------------------------- how often it is called

  /** What one action can do to the calls that are open for a nonce. */
  ghost predicate CallsMove(was: seq<int>, now: seq<int>, a: Action, n: string) {
    || now == was || now == []
    || (a.Submit? && a.args.nonce == n && now == [a.nowMs])
    || (a.Retry? && a.nonce == n && a.idempotent && now == was + [a.nowMs])
  }

  lemma {:induction false} SubmitMoves(v: Seat, h: ReceiptHash, a: Action, n: string)
    requires a.Submit?
    ensures CallsMove(OpenCalls(v.log, n), OpenCalls(Operate(v, h, a).log, n), a, n)
  {
    SubmitLogs(v, a.p, h, a.args, a.nowMs, a.env);
    var one := v.log + [Reserved(a.args.nonce)];
    var two := one + [Called(a.args.nonce, a.nowMs)];
    Happens(v.log, Reserved(a.args.nonce), n);
    Happens(one, Called(a.args.nonce, a.nowMs), n);
    Happens(two, RailFailed(a.args.nonce), n);
  }

  lemma {:induction false} RetryMoves(v: Seat, h: ReceiptHash, a: Action, n: string)
    requires a.Retry?
    ensures CallsMove(OpenCalls(v.log, n), OpenCalls(Operate(v, h, a).log, n), a, n)
  {
    FoldIsOf(v.mem.journal, a.nonce);
    var one := v.log + [Called(a.nonce, a.nowMs)];
    Happens(v.log, Called(a.nonce, a.nowMs), n);
    Happens(one, RailFailed(a.nonce), n);
  }

  lemma {:induction false} ResolveMoves(v: Seat, h: ReceiptHash, a: Action, n: string)
    requires a.Resolve?
    ensures CallsMove(OpenCalls(v.log, n), OpenCalls(Operate(v, h, a).log, n), a, n)
  {
    FoldIsOf(v.mem.journal, a.nonce);
    Happens(v.log, FoundAbsent(a.nonce, a.x, a.railKey), n);
  }

  lemma {:induction false} SpendMoves(v: Seat, h: ReceiptHash, a: Action, n: string)
    requires a.Spend?
    ensures CallsMove(OpenCalls(v.log, n), OpenCalls(Operate(v, h, a).log, n), a, n)
  {
    Happens(v.log, Reserved(a.args.nonce), n);
  }

  lemma {:induction false} OperateMoves(v: Seat, h: ReceiptHash, a: Action, n: string)
    ensures CallsMove(OpenCalls(v.log, n), OpenCalls(Operate(v, h, a).log, n), a, n)
  {
    match a
    case Submit(_, _, _, _, _) => SubmitMoves(v, h, a, n);
    case Retry(_, _, _, _, _) => RetryMoves(v, h, a, n);
    case Spend(_, _, _, _, _) => SpendMoves(v, h, a, n);
    case Resolve(_, _, _, _, _, _) => ResolveMoves(v, h, a, n);
    case _ =>
  }

  lemma LoadLogsNothing(disk: Option<Image>, blank: Image, nowMs: int, log: seq<Event>, ok: bool)
    ensures var got := LoadStep(disk, blank, nowMs, log, ok); got.Some? ==> got.value.log == log
  {
  }

  lemma {:induction false} ActMoves(w: World, h: ReceiptHash, a: Action, n: string)
    ensures CallsMove(OpenCalls(w.log, n), OpenCalls(Act(w, h, a).log, n), a, n)
  {
    match a {
      case Open(_, key, nowMs, ok) => LoadLogsNothing(w.disk, EmptyImage(key), nowMs, w.log, ok);
      case Reload(id, nowMs, ok) =>
        if id in w.members { LoadLogsNothing(w.disk, Emptied(w.members[id].mem), nowMs, w.log, ok); }
      case Crash(_) =>
      case _ => if a.id in w.members { OperateMoves(SeatOf(w, w.members[a.id]), h, a, n); }
    }
  }

  /** A rail that does not take a repeated call for one is never asked twice for a payment: while every
      retry of the nonce is refused that promise, no more than one call is open for it at any time. */
  lemma {:induction false} OneCallWithoutThePromise(actions: seq<Action>, h: ReceiptHash, n: string)
    requires forall a :: a in actions && a.Retry? && a.nonce == n ==> !a.idempotent
    ensures |OpenCalls(After(actions, h).log, n)| <= 1
  {
    if actions != [] {
      var init, a := actions[..|actions| - 1], actions[|actions| - 1];
      assert a in actions && forall b :: b in init ==> b in actions;
      OneCallWithoutThePromise(init, h, n);
      ActMoves(After(init, h), h, a, n);
    }
  }

  /** More exactly: a call adds to the calls that are open only as a retry on a rail with that promise. */
  lemma {:induction false} LiveNonceIsCalledOnlyByRetry(actions: seq<Action>, h: ReceiptHash, a: Action, n: string)
    requires |OpenCalls(Act(After(actions, h), h, a).log, n)| > |OpenCalls(After(actions, h).log, n)| > 0
    ensures a.Retry? && a.nonce == n && a.idempotent
    ensures OpenCalls(Act(After(actions, h), h, a).log, n) == OpenCalls(After(actions, h).log, n) + [a.nowMs]
  {
    ActMoves(After(actions, h), h, a, n);
  }

  // ------------------------------------------------------- what the answer decides

  predicate PhaseIs(j: seq<Entry>, n: string, phase: Phase) { Fold(j, n).Some? && Fold(j, n).value.phase == phase }

  /** One receipt more, for this payment and dated so. */
  predicate ReceiptAdded(was: Image, now: Image, row: Entry, atMs: int) {
    && |now.receipts| == |was.receipts| + 1 && now.receipts[..|was.receipts|] == was.receipts
    && var r := now.receipts[|was.receipts|];
       && r.nonce == row.nonce && r.payee == row.payee && r.amount == row.amount && r.currency == row.currency
       && r.timestampMs == atMs && r.settled
  }

  /** What the rail answers is what the journal says and what the nonce comes to: a settlement has its
      receipt and keeps the nonce, a failure gives it back, no answer leaves it open. */
  lemma {:induction false} AnswerIsFollowed(
      v: Seat, h: ReceiptHash, row: Entry, nowMs: int, answer: Answer, ok: bool, unsaved: Outcome)
    ensures var mem' := AfterCall(v, h, row, nowMs, answer, ok, unsaved).0.mem;
      match answer
      case SaidSettled =>
        && mem'.store == v.mem.store
        && (mem'.receipts == v.mem.receipts || ReceiptAdded(v.mem, mem', row, nowMs))
        && (HowRecorded(v.mem, ReceiptFor(v.mem, row, nowMs, h), nowMs, h).Complete? ==>
              ReceiptAdded(v.mem, mem', row, nowMs) && PhaseIs(mem'.journal, row.nonce, Settled))
      case SaidFailed =>
        && mem'.receipts == v.mem.receipts && PhaseIs(mem'.journal, row.nonce, Failed)
        && mem'.store.usedNonces == v.mem.store.usedNonces - {row.nonce}
      case NoAnswer =>
        && mem'.receipts == v.mem.receipts && PhaseIs(mem'.journal, row.nonce, Indeterminate)
        && mem'.store == v.mem.store
      case RailCrash => mem' == v.mem
  {
  }

  /** An in-process spend pays exactly when it may, its decision is fresh, and receipt, checkpoint and file
      can all be written; the receipt is then on file and its nonce burned. In every other case no receipt
      and no journal row is made and the file stays as it was. */
  lemma {:induction false} SpendPaysExactly(v: Seat, p: P.Policy, h: ReceiptHash, args: Args, nowMs: int, ok: bool)
    ensures var (v', out) := SpendStep(v, p, h, args, nowMs, ok);
      var r := Mint(v.mem, args.nonce, args.payee, args.amount, args.currency, nowMs, h);
      && (out.Paid? <==>
            && MaySubmit(v, p, args, nowMs) && v.mem.store.nextDecision !in v.mem.store.consumed
            && Signable(r, h) && CutEncodes(v.mem.receipts + [r], nowMs) && ok)
      && if out.Paid? then
           && out.receipt == r && ReceiptAdded(v.mem, v'.mem, RowOf(args), nowMs)
           && args.nonce in v'.mem.store.usedNonces && v'.disk == Some(v'.mem) && v'.lastSeen == v'.disk
         else v'.disk == v.disk && v'.mem.receipts == v.mem.receipts && v'.mem.journal == v.mem.journal
  {
    Q.AllowedExactly(v.mem.store, p, Request(args, nowMs));
    Q.EvaluateLeaves(v.mem.store, p, Request(args, nowMs));
    if IsValidAmountText(args.amount) { ParsePrints(args.amount); }
  }

  // ----------------------------------------------------- what a verified extract decides

  /** Evidence that the program takes: the payment is open without an answer, the extract is sealed under
      the rail's key, and its window covers the last submit. */
  predicate Admitted(v: Seat, nonce: string, x: A.Extract, railKey: Key) {
    && InSync(v) && Unanswered(v.mem.journal, nonce)
    && x.isSealed && x.carries == Some(railKey)
    && LastSubmitted(v.mem.journal, nonce).Some?
    && x.startMs <= LastSubmitted(v.mem.journal, nonce).value < x.endMs
  }

  /** The first row of the payment. */
  predicate FirstRow(rows: seq<Row>, i: nat, nonce: string) {
    && i < |rows| && rows[i].ref == "x402-" + nonce
    && forall k :: 0 <= k < i ==> rows[k].ref != "x402-" + nonce
  }

  lemma {:induction false} FirstHitIsFirst(rows: seq<Row>, nonce: string) returns (i: nat)
    ensures FirstHit(rows, RefFor(nonce)).Some? ==>
      FirstRow(rows, i, nonce) && FirstHit(rows, RefFor(nonce)).value == rows[i]
  {
    i := 0;
    if rows != [] && rows[0].ref != RefFor(nonce) && FirstHit(rows, RefFor(nonce)).Some? {
      var k := FirstHitIsFirst(rows[1..], nonce);
      i := k + 1;
      assert forall m :: 0 < m < i ==> rows[m] == rows[1..][m - 1];
    }
  }

  /** Some row names the payment and the first that does agrees on amount and currency. */
  predicate FoundOnTerms(v: Seat, nonce: string, rows: seq<Row>, i: nat) {
    && FirstRow(rows, i, nonce) && Unanswered(v.mem.journal, nonce)
    && rows[i].amount == Fold(v.mem.journal, nonce).value.amount
    && rows[i].currency == Fold(v.mem.journal, nonce).value.currency
  }

  /** No row names the payment, over a window that covers every submit since the reserve. */
  predicate FoundAbsentIn(v: Seat, nonce: string, x: A.Extract) {
    && (forall s :: s in x.rows ==> s.ref != "x402-" + nonce)
    && forall t :: t in SubmitsSince(v.mem.journal, nonce) ==> x.startMs <= t < x.endMs
  }

  lemma {:induction false} HitIs(v: Seat, nonce: string, rows: seq<Row>, i: nat)
    requires FoundOnTerms(v, nonce, rows, i)
    ensures FirstHit(rows, "x402-" + nonce) == Some(rows[i])
  {
    var k := FirstHitIsFirst(rows, nonce);
    assert rows[i] in rows;
  }

  /** On admitted evidence whose first row for the payment agrees on its terms, a resolve records it, dated
      by that row; it keeps the nonce, and only a receipt that cannot be signed is left out. */
  lemma {:induction false} ResolveRecords(
      v: Seat, h: ReceiptHash, nonce: string, x: A.Extract, railKey: Key, nowMs: int, ok: bool, i: nat)
    requires Admitted(v, nonce, x, railKey) && FoundOnTerms(v, nonce, x.rows, i)
    ensures var v' := ResolveStep(v, h, nonce, x, railKey, nowMs, ok).0;
      var row, atMs := Fold(v.mem.journal, nonce).value, x.rows[i].timestampMs;
      && v'.log == v.log && v'.mem.store == v.mem.store
      && if Signable(ReceiptFor(v.mem, row, atMs, h), h) then ReceiptAdded(v.mem, v'.mem, row, atMs)
        else v'.mem == v.mem
  {
    HitIs(v, nonce, x.rows, i);
  }

  /** On admitted evidence of absence it gives the nonce back. */
  lemma {:induction false} ResolveReleases(
      v: Seat, h: ReceiptHash, nonce: string, x: A.Extract, railKey: Key, nowMs: int, ok: bool)
    requires Admitted(v, nonce, x, railKey) && FoundAbsentIn(v, nonce, x)
    ensures var v' := ResolveStep(v, h, nonce, x, railKey, nowMs, ok).0;
      && v'.mem.receipts == v.mem.receipts && PhaseIs(v'.mem.journal, nonce, Failed)
      && v'.mem.store.usedNonces == v.mem.store.usedNonces - {nonce}
      && v'.log == v.log + [FoundAbsent(nonce, x, railKey)]
  {
    FoldIsOf(v.mem.journal, nonce);
    assert FirstHit(x.rows, RefFor(nonce)).None?;
  }

  /** And in every other case it leaves everything as it was. */
  lemma {:induction false} ResolveIsRefusedOtherwise(
      v: Seat, h: ReceiptHash, nonce: string, x: A.Extract, railKey: Key, nowMs: int, ok: bool)
    requires forall i: nat :: Admitted(v, nonce, x, railKey) ==> !FoundOnTerms(v, nonce, x.rows, i)
    requires !(Admitted(v, nonce, x, railKey) && FoundAbsentIn(v, nonce, x))
    ensures ResolveStep(v, h, nonce, x, railKey, nowMs, ok).0 == v
  {
    var hit := FirstHit(x.rows, RefFor(nonce));
    var k := FirstHitIsFirst(x.rows, nonce);
    if Admitted(v, nonce, x, railKey) {
      var row := Fold(v.mem.journal, nonce).value;
      assert !FoundOnTerms(v, nonce, x.rows, k);
      assert hit.Some? ==> hit.value.amount != row.amount || hit.value.currency != row.currency;
    }
  }

  // --------------------------------------------------------------- what a restart makes of it

  /** A reserve that never left is given back and is over; a submit without an answer is indeterminate and
      keeps its nonce; nothing else changes, whatever nonce it is. */
  ghost predicate RecoveredAt(was: Image, now: Image, n: string) {
    var before, after := Fold(was.journal, n), Fold(now.journal, n);
    if before.Some? && before.value.phase == Prepared then
      PhaseIs(now.journal, n, Failed) && n !in now.store.usedNonces
    else if before.Some? && before.value.phase == Submitted then
      PhaseIs(now.journal, n, Indeterminate) && (n in now.store.usedNonces <==> n in was.store.usedNonces)
    else after == before && (n in now.store.usedNonces <==> n in was.store.usedNonces)
  }

  lemma {:induction false} RecoverRowAt(img: Image, row: Entry, nowMs: int, n: string)
    requires Fold(img.journal, row.nonce) == Some(row)
    ensures var img' := RecoverRow(img, row, nowMs);
      && RecoveredAt(img, img', row.nonce)
      && (n != row.nonce ==>
            Fold(img'.journal, n) == Fold(img.journal, n)
              && (n in img'.store.usedNonces <==> n in img.store.usedNonces))
  {
    Appending(img.journal, Entry(row.nonce, row.amount, row.currency, row.payee, Failed, nowMs), n);
    Appending(img.journal, Entry(row.nonce, row.amount, row.currency, row.payee, Failed, nowMs), row.nonce);
    Appending(img.journal, Entry(row.nonce, row.amount, row.currency, row.payee, Indeterminate, nowMs), n);
    Appending(img.journal, Entry(row.nonce, row.amount, row.currency, row.payee, Indeterminate, nowMs), row.nonce);
  }

  lemma {:induction false} RecoverRowsAt(img: Image, rows: seq<Entry>, nowMs: int, n: string)
    requires S.StillFolded(img, rows)
    ensures RecoverRows(img, rows, nowMs).receipts == img.receipts
    ensures (exists e :: e in rows && e.nonce == n) ==> RecoveredAt(img, RecoverRows(img, rows, nowMs), n)
    ensures (forall e :: e in rows ==> e.nonce != n) ==>
      var now := RecoverRows(img, rows, nowMs);
      Fold(now.journal, n) == Fold(img.journal, n) && (n in now.store.usedNonces <==> n in img.store.usedNonces)
    decreases rows
  {
    if rows != [] {
      var row, tail := rows[0], rows[1..];
      assert row in rows && rows == [row] + tail;
      RecoverRowAt(img, row, nowMs, n);
      S.RecoverRowElsewhere(img, rows, nowMs);
      RecoverRowsAt(RecoverRow(img, row, nowMs), tail, nowMs, n);
      forall e | e in tail ensures e.nonce != row.nonce {
        var k :| 0 <= k < |tail| && tail[k] == e;
        assert rows[0].nonce != rows[k + 1].nonce;
      }
    }
  }

  /** Opening and reloading a session with a file: its receipts stay, and every nonce comes to what its
      last journal row calls for. */
  lemma {:induction false} LoadRecoversExactly(
      img: Image, blank: Image, nowMs: int, log: seq<Event>, ok: bool, n: string)
    requires LoadStep(Some(img), blank, nowMs, log, ok).Some?
    ensures var v := LoadStep(Some(img), blank, nowMs, log, ok).value;
      v.mem.receipts == img.receipts && RecoveredAt(img, v.mem, n) && v.disk.Some? && v.disk == v.lastSeen
      && (v.disk == Some(img) || v.disk == Some(v.mem)) && v.log == log
  {
    var rows := Intents(img.journal);
    IntentsAreLast(img.journal);
    forall e | e in rows ensures Fold(img.journal, e.nonce) == Some(e) { }
    RecoverRowsAt(img, rows, nowMs, n);
    FoldIsOf(img.journal, n);
    if Fold(img.journal, n).Some? {
      assert Fold(img.journal, n).value in rows;
    } else {
      forall e | e in rows ensures e.nonce != n { }
    }
  }

  /** Reloading a session whose file is gone leaves it with its key and its next decision, and nothing else. */
  lemma {:induction false} ReloadWithoutFile(w: World, h: ReceiptHash, id: nat, nowMs: int, ok: bool)
    requires w.disk.None? && id in w.members
    ensures var w' := Act(w, h, Reload(id, nowMs, ok));
      && w'.disk.None? && w'.log == w.log && w'.members.Keys == w.members.Keys
      && var was, now := w.members[id].mem, w'.members[id].mem;
         && now.key == was.key && now.store.nextDecision == was.store.nextDecision
         && now.receipts == [] && now.settlements == [] && now.cut == None && now.journal == []
         && now.store.usedNonces == {} && now.store.consumed == {} && now.store.counters == P.Counters(0, 0, 0)
  {
  }
}
