/** Where every receipt and every journal row of a run comes from: a request that the policy
    permitted, with the same nonce, payee, amount and currency. */
module AskedFor {
  import opened Journal
  import opened Options
  import opened Records
  import opened SessionSteps
  import opened Sessions
  import opened SharedState
  import P = Policies
  import Q = Permits
  import S = SessionSafety

  /** What is paid, to whom, and under which nonce. */
  datatype Terms = Terms(nonce: string, payee: string, amount: string, currency: string)

  function OfReceipt(r: Receipt): Terms { Terms(r.nonce, r.payee, r.amount, r.currency) }

  function OfEntry(e: Entry): Terms { Terms(e.nonce, e.payee, e.amount, e.currency) }

  function OfArgs(args: Args): Terms { Terms(args.nonce, args.payee, args.amount, args.currency) }

  /** The action asks for a payment on these terms, and its policy permits it. */
  predicate AskedBy(a: Action, t: Terms) {
    Asks(a) && t == OfArgs(a.args) && IsValidAmountText(t.amount) && Q.Permitted(a.p, Request(a.args, a.nowMs))
  }

  ghost predicate Tells(img: Image, t: Terms) {
    (exists r :: r in img.receipts && OfReceipt(r) == t) || (exists e :: e in img.journal && OfEntry(e) == t)
  }

  /** Whatever terms the later image tells, the earlier told them or the action asked for them. */
  ghost predicate From(now: Image, was: Image, a: Action) {
    forall t :: Tells(now, t) ==> Tells(was, t) || AskedBy(a, t)
  }

  // ------------------------------------------------------------------ changes to an image

  lemma {:induction false} FromOn(now: Image, mid: Image, was: Image, a: Action)
    requires From(now, mid, a) && From(mid, was, a)
    ensures From(now, was, a)
  {
  }

  lemma {:induction false} SameTells(now: Image, was: Image, a: Action)
    requires now.receipts == was.receipts && now.journal == was.journal
    ensures From(now, was, a)
  {
  }

  lemma {:induction false} NoteFrom(img: Image, row: Entry, phase: Phase, atMs: int, a: Action)
    requires Tells(img, OfEntry(row)) || AskedBy(a, OfEntry(row))
    ensures From(Note(img, row, phase, atMs), img, a) && Tells(Note(img, row, phase, atMs), OfEntry(row))
  {
    var now := Note(img, row, phase, atMs);
    var last := now.journal[|img.journal|];
    assert last in now.journal && OfEntry(last) == OfEntry(row);
    forall t | Tells(now, t) ensures Tells(img, t) || AskedBy(a, t) {
      if e :| e in now.journal && OfEntry(e) == t && e != last {
        assert e in img.journal;
      }
    }
  }

  lemma {:induction false} PushFrom(img: Image, now: Image, r: Receipt, a: Action)
    requires Tells(img, OfReceipt(r)) || AskedBy(a, OfReceipt(r))
    requires now.journal == img.journal && now.receipts == img.receipts + [r]
    ensures From(now, img, a)
  {
    forall t | Tells(now, t) ensures Tells(img, t) || AskedBy(a, t) {
      if x :| x in now.receipts && OfReceipt(x) == t && x != r {
        assert x in img.receipts;
      }
    }
  }

  lemma {:induction false} NoteStillTells(img: Image, row: Entry, phase: Phase, atMs: int, t: Terms)
    requires Tells(img, t)
    ensures Tells(Note(img, row, phase, atMs), t)
  {
    var now := Note(img, row, phase, atMs);
    if e :| e in img.journal && OfEntry(e) == t {
      assert e in now.journal;
    }
  }

  lemma {:induction false} CloseFrom(img: Image, row: Entry, nowMs: int, a: Action)
    requires Tells(img, OfEntry(row))
    ensures From(Close(img, row, nowMs), img, a)
  {
    var mid := Unreserve(img, row);
    SameTells(mid, img, a);
    SameTells(img, mid, a);
    NoteFrom(mid, row, Failed, nowMs, a);
    FromOn(Close(img, row, nowMs), mid, img, a);
  }

  lemma {:induction false} PersistFrom(img: Image, row: Entry, nowMs: int, receiptMs: int, h: ReceiptHash, a: Action)
    requires Tells(img, OfEntry(row))
    ensures From(Persist(img, row, nowMs, receiptMs, h), img, a)
  {
    var r := ReceiptFor(img, row, receiptMs, h);
    var mid := WithReceipt(img, r, nowMs, h);
    assert OfReceipt(r) == OfEntry(row);
    PushFrom(img, Push(img, r), r, a);
    PushFrom(img, mid, r, a);
    assert Tells(mid, OfEntry(row)) by { assert r in mid.receipts; }
    NoteFrom(mid, row, Settled, nowMs, a);
    FromOn(Note(mid, row, Settled, nowMs), mid, img, a);
  }

  lemma {:induction false} FoldTells(img: Image, n: string)
    requires Fold(img.journal, n).Some?
    ensures Tells(img, OfEntry(Fold(img.journal, n).value)) && Fold(img.journal, n).value.nonce == n
  {
    FoldIn(img.journal, n);
  }

  lemma {:induction false} FoldIn(j: seq<Entry>, n: string)
    requires Fold(j, n).Some?
    ensures Fold(j, n).value in j && Fold(j, n).value.nonce == n
  {
    if j[|j| - 1].nonce != n { FoldIn(j[..|j| - 1], n); }
  }

  // --------------------------------------------------------------------- one operation

  ghost predicate SeatFrom(now: Seat, was: Seat, a: Action) {
    && From(now.mem, was.mem, a)
    && (now.disk == was.disk || (now.disk.Some? && From(now.disk.value, was.mem, a)))
  }

  lemma {:induction false} AfterCallFrom(
      v: Seat, was: Seat, h: ReceiptHash, row: Entry, nowMs: int, answer: Answer, ok: bool, unsaved: Outcome, a: Action)
    requires SeatFrom(v, was, a) && Tells(v.mem, OfEntry(row))
    ensures SeatFrom(AfterCall(v, h, row, nowMs, answer, ok, unsaved).0, was, a)
  {
    var mem' := AfterCall(v, h, row, nowMs, answer, ok, unsaved).0.mem;
    match answer {
      case RailCrash => SameTells(v.mem, v.mem, a);
      case NoAnswer => NoteFrom(v.mem, row, Indeterminate, nowMs, a);
      case SaidFailed => CloseFrom(v.mem, row, nowMs, a);
      case SaidSettled => PersistFrom(v.mem, row, nowMs, nowMs, h, a);
    }
    assert From(mem', v.mem, a);
    FromOn(mem', v.mem, was.mem, a);
  }

  lemma {:induction false} SpendFrom(v: Seat, h: ReceiptHash, a: Action)
    requires a.Spend?
    ensures SeatFrom(Operate(v, h, a), v, a)
  {
    var (s, d) := P.EvaluateStep(v.mem.store, a.p, Request(a.args, a.nowMs));
    SameTells(v.mem, v.mem, a);
    SameTells(v.mem.(store := s), v.mem, a);
    if IsValidAmountText(a.args.amount) && d.Allow? {
      var s' := P.ConsumeStep(s, d.decisionId, Value(a.args.amount), true).0;
      ParsePrints(a.args.amount);
      Q.AllowedExactly(v.mem.store, a.p, Request(a.args, a.nowMs));
      var r := Mint(v.mem, a.args.nonce, a.args.payee, a.args.amount, a.args.currency, a.nowMs, h);
      assert AskedBy(a, OfReceipt(r));
      PushFrom(v.mem, WithReceipt(v.mem.(store := s'), r, a.nowMs, h), r, a);
      SameTells(v.mem.(store := s'), v.mem, a);
    }
  }

  lemma {:induction false} CallFrom(
      v: Seat, was: Seat, h: ReceiptHash, row: Entry, nowMs: int, env: Env, unsaved: Outcome, a: Action)
    requires SeatFrom(v, was, a) && Tells(v.mem, OfEntry(row))
    ensures var submitted := v.(mem := Note(v.mem, row, Submitted, nowMs));
      && SeatFrom(submitted, was, a) && SeatFrom(Save(submitted, true), was, a)
      && var called := Tell(Save(submitted, true), Called(row.nonce, nowMs));
        SeatFrom(AfterCall(called, h, row, nowMs, env.answer, env.saveLast, unsaved).0, was, a)
  {
    NoteFrom(v.mem, row, Submitted, nowMs, a);
    var submitted := v.(mem := Note(v.mem, row, Submitted, nowMs));
    FromOn(submitted.mem, v.mem, was.mem, a);
    var called := Tell(Save(submitted, true), Called(row.nonce, nowMs));
    AfterCallFrom(called, was, h, row, nowMs, env.answer, env.saveLast, unsaved, a);
  }

  lemma {:induction false} SubmitFrom(v: Seat, h: ReceiptHash, a: Action)
    requires a.Submit?
    ensures SeatFrom(Operate(v, h, a), v, a)
  {
    var row := RowOf(a.args);
    var (s, d) := P.EvaluateStep(v.mem.store, a.p, Request(a.args, a.nowMs));
    SameTells(v.mem, v.mem, a);
    SameTells(v.mem.(store := s), v.mem, a);
    if IsValidAmountText(a.args.amount) && d.Allow? {
      Q.AllowedExactly(v.mem.store, a.p, Request(a.args, a.nowMs));
      assert AskedBy(a, OfEntry(row));
      NoteFrom(v.mem.(store := s), row, Prepared, a.nowMs, a);
      var prepared := Tell(v, Reserved(a.args.nonce)).(mem := Note(v.mem.(store := s), row, Prepared, a.nowMs));
      FromOn(prepared.mem, v.mem.(store := s), v.mem, a);
      CallFrom(Save(prepared, true), v, h, row, a.nowMs, a.env, Refused("state-io"), a);
    }
  }

  lemma {:induction false} RetryFrom(v: Seat, h: ReceiptHash, a: Action)
    requires a.Retry?
    ensures SeatFrom(Operate(v, h, a), v, a)
  {
    SameTells(v.mem, v.mem, a);
    var folded := Fold(v.mem.journal, a.nonce);
    if folded.Some? {
      FoldTells(v.mem, a.nonce);
      CallFrom(v, v, h, folded.value, a.nowMs, a.env, Thrown, a);
    }
  }

  lemma {:induction false} ResolveFrom(v: Seat, h: ReceiptHash, a: Action)
    requires a.Resolve?
    ensures SeatFrom(Operate(v, h, a), v, a)
  {
    SameTells(v.mem, v.mem, a);
    var folded, hit := Fold(v.mem.journal, a.nonce), FirstHit(a.x.rows, RefFor(a.nonce));
    if folded.Some? {
      FoldTells(v.mem, a.nonce);
      CloseFrom(v.mem, folded.value, a.nowMs, a);
      if hit.Some? { PersistFrom(v.mem, folded.value, a.nowMs, hit.value.timestampMs, h, a); }
    }
  }

  lemma {:induction false} RecoverFrom(img: Image, was: Image, rows: seq<Entry>, nowMs: int, a: Action)
    requires From(img, was, a) && forall e :: e in rows ==> Tells(img, OfEntry(e))
    ensures From(RecoverRows(img, rows, nowMs), was, a)
    decreases rows
  {
    if rows != [] {
      var row, img' := rows[0], RecoverRow(img, rows[0], nowMs);
      assert row in rows;
      match row.phase {
        case Prepared => CloseFrom(img, row, nowMs, a);
        case Submitted => NoteFrom(img, row, Indeterminate, nowMs, a);
        case _ => SameTells(img, img, a);
      }
      FromOn(img', img, was, a);
      forall e | e in rows[1..] ensures Tells(img', OfEntry(e)) {
        NoteStillTells(Unreserve(img, row), row, Failed, nowMs, OfEntry(e));
        NoteStillTells(img, row, Indeterminate, nowMs, OfEntry(e));
      }
      RecoverFrom(img', was, rows[1..], nowMs, a);
    }
  }

  lemma {:induction false} LoadFrom(disk: Option<Image>, blank: Image, nowMs: int, log: seq<Event>, ok: bool, a: Action)
    ensures var got, mem := LoadStep(disk, blank, nowMs, log, ok), if disk.Some? then disk.value else blank;
      got.Some? ==>
        && From(got.value.mem, mem, a)
        && (got.value.disk == disk || (got.value.disk.Some? && From(got.value.disk.value, mem, a)))
  {
    var mem := if disk.Some? then disk.value else blank;
    var rows := Intents(mem.journal);
    IntentsAreLast(mem.journal);
    forall e | e in rows ensures Tells(mem, OfEntry(e)) { FoldTells(mem, e.nonce); }
    SameTells(mem, mem, a);
    RecoverFrom(mem, mem, rows, nowMs, a);
  }

  // ------------------------------------------------------------------------------ runs

  ghost predicate AskedIn(actions: seq<Action>, t: Terms) {
    exists i :: 0 <= i < |actions| && AskedBy(actions[i], t)
  }

  ghost predicate AllAsked(img: Image, actions: seq<Action>) { forall t :: Tells(img, t) ==> AskedIn(actions, t) }

  lemma {:induction false} AskedOn(now: Image, was: Image, actions: seq<Action>, a: Action)
    requires AllAsked(was, actions) && From(now, was, a)
    ensures AllAsked(now, actions + [a])
  {
    var all := actions + [a];
    forall t | Tells(now, t) ensures AskedIn(all, t) {
      if Tells(was, t) {
        var i :| 0 <= i < |actions| && AskedBy(actions[i], t);
        assert all[i] == actions[i];
      } else {
        assert AskedBy(all[|actions|], t);
      }
    }
  }

  ghost predicate WorldAsked(w: World, actions: seq<Action>) {
    forall img :: HoldsImage(w, img) ==> AllAsked(img, actions)
  }

  lemma {:induction false} SeatAsked(w: World, id: nat, v: Seat, was: Image, actions: seq<Action>, a: Action)
    requires WorldAsked(w, actions) && AllAsked(was, actions) && From(v.mem, was, a)
    requires v.disk == w.disk || (v.disk.Some? && From(v.disk.value, was, a))
    ensures WorldAsked(Seated(w, id, v), actions + [a])
  {
    var w' := Seated(w, id, v);
    forall img | HoldsImage(w', img) ensures AllAsked(img, actions + [a]) {
      if img == v.mem || (v.disk == Some(img) && From(img, was, a)) {
        AskedOn(img, was, actions, a);
      } else {
        assert HoldsImage(w, img);
        SameTells(img, img, a);
        AskedOn(img, img, actions, a);
      }
    }
  }

  lemma {:induction false} LoadedAsked(
      w: World, id: nat, blank: Image, nowMs: int, ok: bool, actions: seq<Action>, a: Action)
    requires WorldAsked(w, actions) && blank.receipts == [] && blank.journal == []
    ensures WorldAsked(Loaded(w, id, LoadStep(w.disk, blank, nowMs, w.log, ok)), actions + [a])
  {
    var got, mem := LoadStep(w.disk, blank, nowMs, w.log, ok), if w.disk.Some? then w.disk.value else blank;
    LoadFrom(w.disk, blank, nowMs, w.log, ok, a);
    assert AllAsked(mem, actions) by { assert w.disk.Some? ==> HoldsImage(w, mem); }
    if got.Some? {
      SeatAsked(w, id, got.value, mem, actions, a);
    } else {
      StillAsked(w, w, actions, a);
    }
  }

  lemma {:induction false} StillAsked(w: World, w': World, actions: seq<Action>, a: Action)
    requires WorldAsked(w, actions) && forall img :: HoldsImage(w', img) ==> HoldsImage(w, img)
    ensures WorldAsked(w', actions + [a])
  {
    forall img | HoldsImage(w', img) ensures AllAsked(img, actions + [a]) {
      SameTells(img, img, a);
      AskedOn(img, img, actions, a);
    }
  }

  lemma {:induction false} ActAsked(w: World, h: ReceiptHash, actions: seq<Action>, a: Action)
    requires WorldAsked(w, actions)
    ensures WorldAsked(Act(w, h, a), actions + [a])
  {
    match a {
      case Open(id, key, nowMs, ok) =>
        if id in w.members {
          StillAsked(w, w, actions, a);
        } else {
          LoadedAsked(w, id, EmptyImage(key), nowMs, ok, actions, a);
        }
      case Reload(id, nowMs, ok) =>
        if id in w.members {
          LoadedAsked(w, id, Emptied(w.members[id].mem), nowMs, ok, actions, a);
        } else {
          StillAsked(w, w, actions, a);
        }
      case Crash(id) => StillAsked(w, Act(w, h, a), actions, a);
      case _ =>
        if a.id in w.members {
          OperateAsked(w, h, actions, a);
        } else {
          StillAsked(w, w, actions, a);
        }
    }
  }

  lemma {:induction false} OperateAsked(w: World, h: ReceiptHash, actions: seq<Action>, a: Action)
    requires WorldAsked(w, actions) && !a.Open? && !a.Reload? && !a.Crash? && a.id in w.members
    ensures WorldAsked(Seated(w, a.id, Operate(SeatOf(w, w.members[a.id]), h, a)), actions + [a])
  {
    var v := SeatOf(w, w.members[a.id]);
    match a {
      case Spend(_, _, _, _, _) => SpendFrom(v, h, a);
      case Submit(_, _, _, _, _) => SubmitFrom(v, h, a);
      case Retry(_, _, _, _, _) => RetryFrom(v, h, a);
      case Resolve(_, _, _, _, _, _) => ResolveFrom(v, h, a);
    }
    assert HoldsImage(w, v.mem);
    SeatAsked(w, a.id, Operate(v, h, a), v.mem, actions, a);
  }

  lemma {:induction false} RunAsked(actions: seq<Action>, h: ReceiptHash)
    ensures WorldAsked(After(actions, h), actions)
  {
    if actions != [] {
      var init, a := actions[..|actions| - 1], actions[|actions| - 1];
      assert actions == init + [a];
      RunAsked(init, h);
      ActAsked(After(init, h), h, init, a);
    }
  }

  /** The action asked for just this payment, and its policy permitted it. */
  predicate AskedFor(a: Action, r: Receipt) {
    && (a.Spend? || a.Submit?)
    && a.args.nonce == r.nonce && a.args.payee == r.payee
    && a.args.amount == r.amount && a.args.currency == r.currency
    && Q.Permitted(a.p, Request(a.args, a.nowMs))
  }

  /** Over crashes, failed writes, retries and recoveries: whatever receipt a session or the file holds,
      some request of the run asked for that nonce, payee, amount and currency, and was permitted. */
  lemma {:induction false} EveryReceiptWasAskedFor(actions: seq<Action>, h: ReceiptHash, img: Image, r: Receipt)
    requires HoldsImage(After(actions, h), img) && r in img.receipts
    ensures exists i :: 0 <= i < |actions| && AskedFor(actions[i], r)
  {
    RunAsked(actions, h);
    assert Tells(img, OfReceipt(r));
    var i :| 0 <= i < |actions| && AskedBy(actions[i], OfReceipt(r));
    assert AskedFor(actions[i], r);
  }

  /** So under one policy every receipt is for a readable amount within the limit of one payment, in a
      listed currency and to a listed payee. */
  lemma {:induction false} EveryReceiptIsPermitted(
      actions: seq<Action>, h: ReceiptHash, p: P.Policy, img: Image, r: Receipt)
    requires RunUnderPolicy(actions, p) && HoldsImage(After(actions, h), img) && r in img.receipts
    ensures IsValidAmountText(r.amount) && 0 < ParseAmount(r.amount) <= p.maxAmount
    ensures Q.InList(p.allowedPayees, r.payee) && Q.InList(p.allowedCurrencies, r.currency)
  {
    RunAsked(actions, h);
    assert Tells(img, OfReceipt(r));
    var i :| 0 <= i < |actions| && AskedBy(actions[i], OfReceipt(r));
    assert UnderPolicy(actions[i], p);
  }
}
