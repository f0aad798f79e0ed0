/** What every operation of one session keeps: good images, a burned nonce for every payment
    the rail may still take, and a state file that only grows. */
module SessionSafety {
  import opened Options
  import opened Records
  import opened Journal
  import opened Sessions
  import opened SessionSteps
  import P = Policies
  import A = Audit

  // -------------------------------------------------------------- images only grow

  predicate Extends(now: Image, was: Image) {
    now.key == was.key && was.receipts <= now.receipts && was.journal <= now.journal
  }

  predicate Longer(now: Image, was: Image) {
    Extends(now, was) && |was.receipts| + |was.journal| < |now.receipts| + |now.journal|
  }

  /** The file is what it was and nothing new is out, or it has grown. */
  ghost predicate Moves(was: Seat, now: Seat) {
    (now.disk == was.disk && forall n :: Eases(was.log, now.log, n))
    || (now.disk.Some? && (was.disk.Some? ==> Longer(now.disk.value, was.disk.value)))
  }

  ghost predicate Eases(was: seq<Event>, now: seq<Event>, n: string) {
    OpenCalls(now, n) == [] || OpenCalls(now, n) == OpenCalls(was, n)
  }

  lemma {:induction false} MovesOn(a: Seat, b: Seat, c: Seat)
    requires Moves(a, b) && Moves(b, c)
    ensures Moves(a, c)
  {
    if c.disk == b.disk && b.disk == a.disk && (forall n :: Eases(a.log, b.log, n))
      && (forall n :: Eases(b.log, c.log, n))
    {
      forall n ensures Eases(a.log, c.log, n) { assert Eases(a.log, b.log, n) && Eases(b.log, c.log, n); }
    }
  }

  ghost predicate DiskGood(disk: Option<Image>, h: ReceiptHash, whole: bool) {
    disk.Some? ==> Good(disk.value, h, whole)
  }

  ghost predicate DiskGuards(disk: Option<Image>, log: seq<Event>) {
    match disk
    case None => forall n :: !Live(log, n)
    case Some(img) => Guards(img, log)
  }

  /** What holds of a session that is in step with the file. */
  ghost predicate SeatInv(v: Seat, h: ReceiptHash, whole: bool) {
    && Good(v.mem, h, whole) && DiskGood(v.disk, h, whole)
    && (v.lastSeen.Some? ==> Extends(v.mem, v.lastSeen.value))
    && Guards(v.mem, v.log) && DiskGuards(v.disk, v.log)
    && LogSound(v.log)
  }

  /** From one state of a session to a later one. */
  ghost predicate Steps(was: Seat, now: Seat, h: ReceiptHash, whole: bool) {
    SeatInv(now, h, whole) && InSync(now) && Moves(was, now)
  }

  // ------------------------------------------------------------------ small steps

  /** Memory changes: it stays good, only grows, and still holds what is live. */
  lemma {:induction false} MemKeeps(v: Seat, mem: Image, h: ReceiptHash, whole: bool)
    requires SeatInv(v, h, whole) && InSync(v) && Good(mem, h, whole) && Extends(mem, v.mem) && Guards(mem, v.log)
    ensures Steps(v, v.(mem := mem), h, whole)
  {
  }

  lemma {:induction false} SaveKeeps(v: Seat, ok: bool, h: ReceiptHash, whole: bool)
    requires SeatInv(v, h, whole) && InSync(v)
    requires v.disk.Some? ==> Longer(v.mem, v.disk.value)
    ensures Steps(v, Save(v, ok), h, whole)
    ensures Writes(v, ok) ==> Save(v, ok).disk == Some(v.mem)
  {
  }

  /** An event that puts nothing out: a reserve, an answer, an absence. */
  lemma {:induction false} TellKeeps(v: Seat, e: Event, h: ReceiptHash, whole: bool)
    requires SeatInv(v, h, whole) && InSync(v) && !e.Called?
    requires e.Reserved? ==> !Live(v.log, e.nonce)
    requires e.FoundAbsent? ==> ProvesAbsent(e.extract, e.railKey, e.nonce, OpenCalls(v.log, e.nonce))
    ensures Steps(v, Tell(v, e), h, whole)
  {
    SoundMore(v.log, e);
    forall n ensures Eases(v.log, Tell(v, e).log, n) { Happens(v.log, e, n); }
    EasedGuards(v.mem, v.log, Tell(v, e).log);
    if v.disk.Some? {
      EasedGuards(v.disk.value, v.log, Tell(v, e).log);
    } else {
      forall n ensures !Live(Tell(v, e).log, n) { assert Eases(v.log, Tell(v, e).log, n) && !Live(v.log, n); }
    }
  }

  lemma {:induction false} EasedGuards(img: Image, was: seq<Event>, now: seq<Event>)
    requires Guards(img, was) && forall n :: Eases(was, now, n)
    ensures Guards(img, now)
  {
    forall n ensures HeldIfLive(img, now, n) { assert Eases(was, now, n) && HeldIfLive(img, was, n); }
  }

  /** What is held of one nonce does not depend on another nonce's reserve, rows or refund. */
  lemma {:induction false} NoteHolds(img: Image, row: Entry, phase: Phase, atMs: int, n: string, calls: seq<int>)
    requires Held(img, n, calls)
    requires n == row.nonce ==> phase in {Submitted, Indeterminate, Settled}
    ensures Held(Note(img, row, phase, atMs), n, calls)
  {
    NoteSpeaks(img, row, phase, atMs, n);
    Appending(img.journal, Entry(row.nonce, row.amount, row.currency, row.payee, phase, atMs), n);
  }

  lemma {:induction false} NoteGuards(img: Image, row: Entry, phase: Phase, atMs: int, log: seq<Event>)
    requires Guards(img, log)
    requires phase in {Submitted, Indeterminate, Settled} || !Live(log, row.nonce)
    ensures Guards(Note(img, row, phase, atMs), log)
  {
    forall n ensures HeldIfLive(Note(img, row, phase, atMs), log, n) {
      assert HeldIfLive(img, log, n);
      if Live(log, n) {
        NoteHolds(img, row, phase, atMs, n, OpenCalls(log, n));
      }
    }
  }

  /** A live nonce is burned, so the engine does not grant it again. */
  lemma {:induction false} FreeIsNotLive(img: Image, log: seq<Event>, n: string)
    requires Guards(img, log) && n !in img.store.usedNonces
    ensures !Live(log, n)
  {
    assert HeldIfLive(img, log, n);
  }

  lemma {:induction false} StoreGuards(img: Image, s: P.Store, log: seq<Event>)
    requires Guards(img, log) && img.store.usedNonces <= s.usedNonces
    ensures Guards(img.(store := s), log)
  {
    forall n ensures HeldIfLive(img.(store := s), log, n) { assert HeldIfLive(img, log, n); }
  }

  lemma {:induction false} UnreserveGuards(img: Image, row: Entry, log: seq<Event>)
    requires Guards(img, log) && !Live(log, row.nonce)
    ensures Guards(Unreserve(img, row), log)
  {
    forall n ensures HeldIfLive(Unreserve(img, row), log, n) { assert HeldIfLive(img, log, n); }
  }

  lemma {:induction false} PersistGuards(
      img: Image, row: Entry, nowMs: int, receiptMs: int, h: ReceiptHash, log: seq<Event>)
    requires Guards(img, log)
    ensures Guards(Persist(img, row, nowMs, receiptMs, h), log)
  {
    var r := ReceiptFor(img, row, receiptMs, h);
    var mid := WithReceipt(img, r, nowMs, h);
    forall n ensures HeldIfLive(mid, log, n) && HeldIfLive(Push(img, r), log, n) { assert HeldIfLive(img, log, n); }
    NoteGuards(mid, row, Settled, nowMs, log);
  }

  /** After the submitted row is on disk, the call is known to the journal. */
  lemma {:induction false} CalledKeeps(v: Seat, row: Entry, nowMs: int, h: ReceiptHash, whole: bool)
    requires SeatInv(v, h, whole) && InSync(v) && v.disk == Some(v.mem)
    requires Fold(v.mem.journal, row.nonce).Some? && Fold(v.mem.journal, row.nonce).value.phase == Submitted
    requires row.nonce in v.mem.store.usedNonces && nowMs in SubmitsSince(v.mem.journal, row.nonce)
    ensures SeatInv(Tell(v, Called(row.nonce, nowMs)), h, whole)
  {
    var log := Tell(v, Called(row.nonce, nowMs)).log;
    SoundMore(v.log, Called(row.nonce, nowMs));
    forall n ensures HeldIfLive(v.mem, log, n) {
      Happens(v.log, Called(row.nonce, nowMs), n);
      assert HeldIfLive(v.mem, v.log, n);
    }
  }

  // ---------------------------------------------------------------------- operations

  lemma {:induction false} GrownExtends(was: Image, mid: Image, now: Image)
    requires Extends(mid, was) && Longer(now, mid)
    ensures Longer(now, was)
  {
  }

  /** A change to memory that grows it, and the save after it. */
  lemma {:induction false} GrowAndSave(v: Seat, mem: Image, ok: bool, h: ReceiptHash, whole: bool)
    requires SeatInv(v, h, whole) && InSync(v) && Good(mem, h, whole) && Longer(mem, v.mem) && Guards(mem, v.log)
    ensures Steps(v, Save(v.(mem := mem), ok), h, whole)
    ensures Writes(v.(mem := mem), ok) ==> Save(v.(mem := mem), ok).disk == Some(mem)
  {
    MemKeeps(v, mem, h, whole);
    SaveKeeps(v.(mem := mem), ok, h, whole);
    MovesOn(v, v.(mem := mem), Save(v.(mem := mem), ok));
  }

  lemma {:induction false} PendingIsBurned(img: Image, n: string, h: ReceiptHash, whole: bool)
    requires Good(img, h, whole) && Pending(img.journal, n)
    ensures n in img.store.usedNonces && Bound(img.journal, n)
  {
  }

  lemma {:induction false} CloseAndSave(
      v: Seat, row: Entry, nowMs: int, e: Event, ok: bool, h: ReceiptHash, whole: bool)
    requires SeatInv(v, h, whole) && InSync(v) && Pending(v.mem.journal, row.nonce) && IsValidAmountText(row.amount)
    requires e.nonce == row.nonce && !e.Called? && !e.Reserved?
    requires e.FoundAbsent? ==> ProvesAbsent(e.extract, e.railKey, e.nonce, OpenCalls(v.log, e.nonce))
    ensures Steps(v, Save(Tell(v.(mem := Close(v.mem, row, nowMs)), e), ok), h, whole)
  {
    var told := Tell(v, e);
    TellKeeps(v, e, h, whole);
    Happens(v.log, e, row.nonce);
    CloseKeeps(v.mem, row, nowMs, h, whole);
    UnreserveGuards(v.mem, row, told.log);
    NoteGuards(Unreserve(v.mem, row), row, Failed, nowMs, told.log);
    GrowAndSave(told, Close(v.mem, row, nowMs), ok, h, whole);
    assert told.(mem := Close(v.mem, row, nowMs)) == Tell(v.(mem := Close(v.mem, row, nowMs)), e);
    MovesOn(v, told, Save(told.(mem := Close(v.mem, row, nowMs)), ok));
  }

  lemma {:induction false} RecordStepKeeps(
      v: Seat, h: ReceiptHash, row: Entry, nowMs: int, receiptMs: int, ok: bool, unsaved: Outcome, whole: bool)
    requires SeatInv(v, h, whole) && InSync(v) && Pending(v.mem.journal, row.nonce) && IsValidAmountText(row.amount)
    requires whole ==> Timely(nowMs) && Timely(receiptMs)
    ensures Steps(v, RecordStep(v, h, row, nowMs, receiptMs, ok, unsaved).0, h, whole)
  {
    var mem := Persist(v.mem, row, nowMs, receiptMs, h);
    PersistKeeps(v.mem, row, nowMs, receiptMs, h, whole);
    PersistGuards(v.mem, row, nowMs, receiptMs, h, v.log);
    if Completes(v.mem, row, nowMs, receiptMs, h) {
      GrowAndSave(v, mem, ok, h, whole);
    } else {
      MemKeeps(v, mem, h, whole);
    }
  }

  lemma {:induction false} MoveAndSave(
      v: Seat, row: Entry, phase: Phase, nowMs: int, ok: bool, h: ReceiptHash, whole: bool)
    requires SeatInv(v, h, whole) && InSync(v) && Pending(v.mem.journal, row.nonce) && IsValidAmountText(row.amount)
    requires phase in {Submitted, Indeterminate}
    ensures Steps(v, Save(v.(mem := Note(v.mem, row, phase, nowMs)), ok), h, whole)
    ensures Writes(v, ok) ==>
      Save(v.(mem := Note(v.mem, row, phase, nowMs)), ok).disk == Some(Note(v.mem, row, phase, nowMs))
  {
    MoveKeeps(v.mem, row, phase, nowMs, h, whole);
    NoteGuards(v.mem, row, phase, nowMs, v.log);
    GrowAndSave(v, Note(v.mem, row, phase, nowMs), ok, h, whole);
  }

  lemma {:induction false} AfterCallKeeps(
      v: Seat, h: ReceiptHash, row: Entry, nowMs: int, answer: Answer, ok: bool, unsaved: Outcome, whole: bool)
    requires SeatInv(v, h, whole) && InSync(v) && Pending(v.mem.journal, row.nonce) && IsValidAmountText(row.amount)
    requires whole ==> Timely(nowMs)
    ensures Steps(v, AfterCall(v, h, row, nowMs, answer, ok, unsaved).0, h, whole)
  {
    match answer
    case RailCrash => MemKeeps(v, v.mem, h, whole);
    case NoAnswer => MoveAndSave(v, row, Indeterminate, nowMs, ok, h, whole);
    case SaidFailed => CloseAndSave(v, row, nowMs, RailFailed(row.nonce), ok, h, whole);
    case SaidSettled => RecordStepKeeps(v, h, row, nowMs, nowMs, ok, unsaved, whole);
  }

  /** The submitted row written, the rail called, and whatever it answered. */
  lemma {:induction false} CallKeeps(
      v: Seat, h: ReceiptHash, row: Entry, nowMs: int, answer: Answer, ok: bool, unsaved: Outcome, whole: bool)
    requires SeatInv(v, h, whole) && InSync(v) && Pending(v.mem.journal, row.nonce) && IsValidAmountText(row.amount)
    requires whole ==> Timely(nowMs)
    ensures var called := Tell(Save(v.(mem := Note(v.mem, row, Submitted, nowMs)), true), Called(row.nonce, nowMs));
      Steps(v, AfterCall(called, h, row, nowMs, answer, ok, unsaved).0, h, whole)
  {
    var saved := Save(v.(mem := Note(v.mem, row, Submitted, nowMs)), true);
    MoveAndSave(v, row, Submitted, nowMs, true, h, whole);
    NoteSpeaks(v.mem, row, Submitted, nowMs, row.nonce);
    Appending(v.mem.journal, Entry(row.nonce, row.amount, row.currency, row.payee, Submitted, nowMs), row.nonce);
    PendingIsBurned(v.mem, row.nonce, h, whole);
    CalledKeeps(saved, row, nowMs, h, whole);
    var called := Tell(saved, Called(row.nonce, nowMs));
    AfterCallKeeps(called, h, row, nowMs, answer, ok, unsaved, whole);
    WroteMoves(v, saved, AfterCall(called, h, row, nowMs, answer, ok, unsaved).0, called);
  }

  /** Once the file has grown, whatever is said and done after it is a move. */
  lemma {:induction false} WroteMoves(v: Seat, saved: Seat, last: Seat, called: Seat)
    requires saved.disk.Some? && (v.disk.Some? ==> Longer(saved.disk.value, v.disk.value))
    requires called.disk == saved.disk && Moves(called, last)
    ensures Moves(v, last)
  {
  }

  lemma {:induction false} RowsRead(img: Image, n: string, h: ReceiptHash, whole: bool)
    requires Good(img, h, whole) && Fold(img.journal, n).Some?
    ensures IsValidAmountText(Fold(img.journal, n).value.amount) && Fold(img.journal, n).value.nonce == n
  {
    FoldNames(img.journal, n);
  }

  // ----------------------------------------------------------------- whole operations

  lemma {:induction false} Granting(s: P.Store, p: P.Policy, req: P.SpendRequest)
    ensures var (s', d) := P.EvaluateStep(s, p, req);
      && s'.consumed == s.consumed
      && (d.Deny? ==> s'.usedNonces == s.usedNonces && s'.nextDecision == s.nextDecision)
      && (d.Allow? ==> (req.nonce !in s.usedNonces && s'.usedNonces == s.usedNonces + {req.nonce}))
      && (d.Allow? ==> (d.decisionId == s.nextDecision && s'.nextDecision == s.nextDecision + 1 && req.amount > 0))
  {
  }

  /** Counters that roll on a refused request change nothing that is kept. */
  lemma {:induction false} RefusedKeeps(v: Seat, s: P.Store, h: ReceiptHash, whole: bool)
    requires SeatInv(v, h, whole) && InSync(v)
    requires s.usedNonces == v.mem.store.usedNonces && DecisionsPast(s)
    ensures Steps(v, v.(mem := v.mem.(store := s)), h, whole)
  {
    var mem := v.mem.(store := s);
    forall r | whole && r in mem.receipts ensures ReceiptBurned(mem, r) { assert ReceiptBurned(v.mem, r); }
    SameReceiptsKeep(v.mem, mem, h, whole);
    StoreGuards(v.mem, s, v.log);
    MemKeeps(v, mem, h, whole);
  }

  ghost predicate ConsumedOnce(s: P.Store, got: (P.Store, P.Decision)) {
    got.1.Allow? && DecisionsPast(got.0) && got.0.usedNonces == s.usedNonces
  }

  /** The single-use decision just granted is never already consumed. */
  lemma {:induction false} FreshDecision(s: P.Store, p: P.Policy, req: P.SpendRequest)
    requires DecisionsPast(s)
    ensures var (s', d) := P.EvaluateStep(s, p, req);
      && DecisionsPast(s')
      && (d.Allow? ==> ConsumedOnce(s', P.ConsumeStep(s', d.decisionId, req.amount, true)))
  {
    Granting(s, p, req);
  }

  lemma {:induction false} SettledKeeps(
      v: Seat, s: P.Store, r: Receipt, nowMs: int, ok: bool, h: ReceiptHash, whole: bool)
    requires SeatInv(v, h, whole) && InSync(v) && Minted(r, v.mem.key) && r.prevHash == LastHash(v.mem.receipts, h)
    requires r.nonce !in v.mem.store.usedNonces && s.usedNonces == v.mem.store.usedNonces + {r.nonce}
      && DecisionsPast(s)
    requires HowRecorded(v.mem, r, nowMs, h).Complete?
    ensures var paid := WithReceipt(v.mem.(store := s), r, nowMs, h);
      Steps(v, Save(Tell(v, Reserved(r.nonce)).(mem := paid), ok), h, whole)
  {
    var told := Tell(v, Reserved(r.nonce));
    var mem := WithReceipt(v.mem.(store := s), r, nowMs, h);
    FreeIsNotLive(v.mem, v.log, r.nonce);
    TellKeeps(v, Reserved(r.nonce), h, whole);
    SpendKeeps(v.mem, s, r, nowMs, h, whole);
    forall n ensures HeldIfLive(mem, told.log, n) { assert HeldIfLive(v.mem, told.log, n); }
    GrowAndSave(told, mem, ok, h, whole);
    MovesOn(v, told, Save(told.(mem := mem), ok));
  }

  lemma {:induction false} SpendStepKeeps(
      v: Seat, p: P.Policy, h: ReceiptHash, args: Args, nowMs: int, ok: bool, whole: bool)
    requires SeatInv(v, h, whole) && InSync(v)
    ensures Steps(v, SpendStep(v, p, h, args, nowMs, ok).0, h, whole)
  {
    MemKeeps(v, v.mem, h, whole);
    if IsValidAmountText(args.amount) && IsValidNonce(args.nonce) {
      var (s, d) := P.EvaluateStep(v.mem.store, p, Request(args, nowMs));
      Granting(v.mem.store, p, Request(args, nowMs));
      FreshDecision(v.mem.store, p, Request(args, nowMs));
      if d.Deny? {
        RefusedKeeps(v, s, h, whole);
      } else {
        var s' := P.ConsumeStep(s, d.decisionId, Value(args.amount), true).0;
        ParsePrints(args.amount);
        var r := Mint(v.mem, args.nonce, args.payee, PrintAmount(ParseAmount(args.amount)), args.currency, nowMs, h);
        if HowRecorded(v.mem, r, nowMs, h).Complete? {
          SettledKeeps(v, s', r, nowMs, ok, h, whole);
        }
        FreeIsNotLive(v.mem, v.log, args.nonce);
        TellKeeps(v, Reserved(args.nonce), h, whole);
      }
    }
  }

  lemma {:induction false} PreparedKeeps(v: Seat, s: P.Store, row: Entry, nowMs: int, h: ReceiptHash, whole: bool)
    requires SeatInv(v, h, whole) && InSync(v) && IsValidAmountText(row.amount)
    requires row.nonce !in v.mem.store.usedNonces && s.usedNonces == v.mem.store.usedNonces + {row.nonce}
      && DecisionsPast(s)
    ensures var told := Tell(v, Reserved(row.nonce));
      var saved := Save(told.(mem := Note(v.mem.(store := s), row, Prepared, nowMs)), true);
      && Steps(v, told, h, whole) && Steps(v, saved, h, whole)
      && saved.mem == Note(v.mem.(store := s), row, Prepared, nowMs) && saved.disk == Some(saved.mem)
      && (v.disk.Some? ==> Longer(saved.mem, v.disk.value))
  {
    var told := Tell(v, Reserved(row.nonce));
    var mem := Note(v.mem.(store := s), row, Prepared, nowMs);
    FreeIsNotLive(v.mem, v.log, row.nonce);
    TellKeeps(v, Reserved(row.nonce), h, whole);
    Happens(v.log, Reserved(row.nonce), row.nonce);
    ReserveKeeps(v.mem, s, row, nowMs, h, whole);
    StoreGuards(v.mem, s, told.log);
    NoteGuards(v.mem.(store := s), row, Prepared, nowMs, told.log);
    GrowAndSave(told, mem, true, h, whole);
    MovesOn(v, told, Save(told.(mem := mem), true));
  }

  /** The submitted row alone: written or only in memory, with the rail not yet called. */
  lemma {:induction false} SubmittedKeeps(v: Seat, row: Entry, nowMs: int, h: ReceiptHash, whole: bool)
    requires SeatInv(v, h, whole) && InSync(v) && Pending(v.mem.journal, row.nonce) && IsValidAmountText(row.amount)
    ensures Steps(v, v.(mem := Note(v.mem, row, Submitted, nowMs)), h, whole)
    ensures Steps(v, Save(v.(mem := Note(v.mem, row, Submitted, nowMs)), true), h, whole)
  {
    MoveAndSave(v, row, Submitted, nowMs, false, h, whole);
    MoveAndSave(v, row, Submitted, nowMs, true, h, whole);
  }

  lemma {:induction false} SubmitStepKeeps(
      v: Seat, p: P.Policy, h: ReceiptHash, args: Args, nowMs: int, env: Env, whole: bool)
    requires SeatInv(v, h, whole) && InSync(v)
    requires whole ==> Timely(nowMs)
    ensures Steps(v, SubmitStep(v, p, h, args, nowMs, env).0, h, whole)
  {
    MemKeeps(v, v.mem, h, whole);
    if IsValidAmountText(args.amount) && IsValidNonce(args.nonce) {
      var (s, d) := P.EvaluateStep(v.mem.store, p, Request(args, nowMs));
      Granting(v.mem.store, p, Request(args, nowMs));
      FreshDecision(v.mem.store, p, Request(args, nowMs));
      if d.Deny? {
        RefusedKeeps(v, s, h, whole);
      } else {
        PreparedKeeps(v, s, RowOf(args), nowMs, h, whole);
        var told := Tell(v, Reserved(args.nonce));
        var v1 := Save(told.(mem := Note(v.mem.(store := s), RowOf(args), Prepared, nowMs)), true);
        SubmitFromPrepared(v, v1, s, h, args, nowMs, env, whole);
      }
    }
  }

  lemma {:induction false} SubmitFromPrepared(
      v: Seat, v1: Seat, s: P.Store, h: ReceiptHash, args: Args, nowMs: int, env: Env, whole: bool)
    requires SeatInv(v1, h, whole) && InSync(v1) && Moves(v, v1) && IsValidAmountText(args.amount)
    requires v1.mem == Note(v.mem.(store := s), RowOf(args), Prepared, nowMs)
    requires whole ==> Timely(nowMs)
    ensures var submitted := v1.(mem := Note(v1.mem, RowOf(args), Submitted, nowMs));
      && Steps(v, submitted, h, whole)
      && Steps(v, Save(submitted, true), h, whole)
      && var called := Tell(Save(submitted, true), Called(args.nonce, nowMs));
        Steps(v, AfterCall(called, h, RowOf(args), nowMs, env.answer, env.saveLast, Refused("state-io")).0, h, whole)
  {
    var row := RowOf(args);
    NoteSpeaks(v.mem.(store := s), row, Prepared, nowMs, row.nonce);
    SubmittedKeeps(v1, row, nowMs, h, whole);
    CallKeeps(v1, h, row, nowMs, env.answer, env.saveLast, Refused("state-io"), whole);
    var submitted := v1.(mem := Note(v1.mem, row, Submitted, nowMs));
    MovesOn(v, v1, submitted);
    MovesOn(v, v1, Save(submitted, true));
    var called := Tell(Save(submitted, true), Called(args.nonce, nowMs));
    MovesOn(v, v1, AfterCall(called, h, row, nowMs, env.answer, env.saveLast, Refused("state-io")).0);
  }

  lemma {:induction false} RetryStepKeeps(
      v: Seat, h: ReceiptHash, nonce: string, idempotent: bool, nowMs: int, env: Env, whole: bool)
    requires SeatInv(v, h, whole) && InSync(v)
    requires whole ==> Timely(nowMs)
    ensures Steps(v, RetryStep(v, h, nonce, idempotent, nowMs, env).0, h, whole)
  {
    MemKeeps(v, v.mem, h, whole);
    var folded := Fold(v.mem.journal, nonce);
    if folded.Some? && folded.value.phase == Indeterminate {
      RowsRead(v.mem, nonce, h, whole);
      SubmittedKeeps(v, folded.value, nowMs, h, whole);
      CallKeeps(v, h, folded.value, nowMs, env.answer, env.saveLast, Thrown, whole);
    }
  }

  /** The evidence the code asks for is the evidence the claim needs. */
  lemma {:induction false} CoveredIsProof(
      v: Seat, nonce: string, x: A.Extract, railKey: Key, h: ReceiptHash, whole: bool)
    requires SeatInv(v, h, whole) && x.isSealed && x.carries == Some(railKey)
    requires FirstHit(x.rows, RefFor(nonce)).None?
    requires forall t :: t in SubmitsSince(v.mem.journal, nonce) ==> Covers(x, t)
    ensures ProvesAbsent(x, railKey, nonce, OpenCalls(v.log, nonce))
  {
    assert HeldIfLive(v.mem, v.log, nonce);
  }

  lemma {:induction false} ResolveStepKeeps(
      v: Seat, h: ReceiptHash, nonce: string, x: A.Extract, railKey: Key, nowMs: int, ok: bool, whole: bool)
    requires SeatInv(v, h, whole) && InSync(v)
    requires whole ==> Timely(nowMs) && forall s :: s in x.rows ==> Timely(s.timestampMs)
    ensures Steps(v, ResolveStep(v, h, nonce, x, railKey, nowMs, ok).0, h, whole)
  {
    MemKeeps(v, v.mem, h, whole);
    var folded := Fold(v.mem.journal, nonce);
    if folded.Some? && folded.value.phase == Indeterminate && x.isSealed && x.carries == Some(railKey) {
      RowsRead(v.mem, nonce, h, whole);
      var hit := FirstHit(x.rows, RefFor(nonce));
      if hit.Some? {
        RecordStepKeeps(v, h, folded.value, nowMs, hit.value.timestampMs, ok, Thrown, whole);
      } else if forall t :: t in SubmitsSince(v.mem.journal, nonce) ==> Covers(x, t) {
        AbsenceKeeps(v, h, folded.value, x, railKey, nowMs, ok, whole);
      }
    }
  }

  /** The evidence is taken, and shows that the payment settled on its own terms. */
  predicate ShowsSettled(v: Seat, nonce: string, x: A.Extract, railKey: Key) {
    var folded, at, hit :=
      Fold(v.mem.journal, nonce), LastSubmitted(v.mem.journal, nonce), FirstHit(x.rows, RefFor(nonce));
    && folded.Some? && folded.value.phase == Indeterminate
    && x.isSealed && x.carries == Some(railKey)
    && at.Some? && Covers(x, at.value)
    && hit.Some? && hit.value.amount == folded.value.amount && hit.value.currency == folded.value.currency
  }

  /** Exactly when resolving leaves a payment half recorded: the evidence shows it settled, its
      receipt can be signed, and the row's time or the clock is the last safe integer. */
  lemma {:induction false} ResolveIsWholeExactly(
      v: Seat, h: ReceiptHash, nonce: string, x: A.Extract, railKey: Key, nowMs: int, ok: bool)
    requires SeatInv(v, h, true) && InSync(v)
    ensures Whole(ResolveStep(v, h, nonce, x, railKey, nowMs, ok).0.mem, h) <==>
      !(ShowsSettled(v, nonce, x, railKey)
        && var row, receiptMs := Fold(v.mem.journal, nonce).value, FirstHit(x.rows, RefFor(nonce)).value.timestampMs;
           Signable(ReceiptFor(v.mem, row, receiptMs, h), h) && !(Timely(nowMs) && Timely(receiptMs)))
  {
    if ShowsSettled(v, nonce, x, railKey) {
      ShownIsRecorded(v, h, nonce, x, railKey, nowMs, ok);
    } else {
      NotShownStaysWhole(v, h, nonce, x, railKey, nowMs, ok);
    }
  }

  lemma {:induction false} ShownIsRecorded(
      v: Seat, h: ReceiptHash, nonce: string, x: A.Extract, railKey: Key, nowMs: int, ok: bool)
    requires SeatInv(v, h, true) && InSync(v) && ShowsSettled(v, nonce, x, railKey)
    ensures var row, receiptMs := Fold(v.mem.journal, nonce).value, FirstHit(x.rows, RefFor(nonce)).value.timestampMs;
      Whole(ResolveStep(v, h, nonce, x, railKey, nowMs, ok).0.mem, h) <==>
        !(Signable(ReceiptFor(v.mem, row, receiptMs, h), h) && !(Timely(nowMs) && Timely(receiptMs)))
  {
    var row, receiptMs := Fold(v.mem.journal, nonce).value, FirstHit(x.rows, RefFor(nonce)).value.timestampMs;
    RowsRead(v.mem, nonce, h, true);
    assert ResolveStep(v, h, nonce, x, railKey, nowMs, ok) == RecordStep(v, h, row, nowMs, receiptMs, ok, Thrown);
    assert ResolveStep(v, h, nonce, x, railKey, nowMs, ok).0.mem == Persist(v.mem, row, nowMs, receiptMs, h);
    if Signable(ReceiptFor(v.mem, row, receiptMs, h), h) {
      RecordingIsWholeExactly(v.mem, row, nowMs, receiptMs, h);
    }
  }

  lemma {:induction false} NotShownStaysWhole(
      v: Seat, h: ReceiptHash, nonce: string, x: A.Extract, railKey: Key, nowMs: int, ok: bool)
    requires SeatInv(v, h, true) && InSync(v) && !ShowsSettled(v, nonce, x, railKey)
    ensures Whole(ResolveStep(v, h, nonce, x, railKey, nowMs, ok).0.mem, h)
  {
    var folded := Fold(v.mem.journal, nonce);
    if folded.Some? && folded.value.phase == Indeterminate {
      RowsRead(v.mem, nonce, h, true);
      CloseKeeps(v.mem, folded.value, nowMs, h, true);
    }
  }

  /** From such a point nothing but receipt and row have changed: the journal still says
      indeterminate, so the same evidence mints a second receipt for the nonce. */
  lemma {:induction false} StrandedIsMintedAgain(
      v: Seat, h: ReceiptHash, nonce: string, x: A.Extract, railKey: Key, nowMs: int, ok: bool)
    requires SeatInv(v, h, true) && InSync(v) && ShowsSettled(v, nonce, x, railKey)
    requires !(Timely(nowMs) && Timely(FirstHit(x.rows, RefFor(nonce)).value.timestampMs))
    requires var row, receiptMs := Fold(v.mem.journal, nonce).value, FirstHit(x.rows, RefFor(nonce)).value.timestampMs;
      var r := ReceiptFor(v.mem, row, receiptMs, h);
      Signable(r, h) && Signable(ReceiptFor(Push(v.mem, r), row, receiptMs, h), h)
    ensures var row, receiptMs := Fold(v.mem.journal, nonce).value, FirstHit(x.rows, RefFor(nonce)).value.timestampMs;
      var once := ResolveStep(v, h, nonce, x, railKey, nowMs, ok).0;
      var twice := ResolveStep(once, h, nonce, x, railKey, nowMs, ok).0;
      && once == v.(mem := Push(v.mem, ReceiptFor(v.mem, row, receiptMs, h)))
      && twice == v.(mem := Push(once.mem, ReceiptFor(once.mem, row, receiptMs, h)))
      && !NoncesDiffer(twice.mem.receipts)
  {
    var row, receiptMs := Fold(v.mem.journal, nonce).value, FirstHit(x.rows, RefFor(nonce)).value.timestampMs;
    RowsRead(v.mem, nonce, h, true);
    var r := ReceiptFor(v.mem, row, receiptMs, h);
    var once := v.(mem := Push(v.mem, r));
    CutEncodesExactly(v.mem, r, nowMs, h);
    assert ResolveStep(v, h, nonce, x, railKey, nowMs, ok) == RecordStep(v, h, row, nowMs, receiptMs, ok, Thrown);
    assert ShowsSettled(once, nonce, x, railKey);
    assert ResolveStep(once, h, nonce, x, railKey, nowMs, ok) == RecordStep(once, h, row, nowMs, receiptMs, ok, Thrown);
    var again := ReceiptFor(once.mem, row, receiptMs, h);
    var all := once.mem.receipts + [again];
    TimesBound(all);
    assert again in all;
    assert all[|v.mem.receipts|].nonce == all[|v.mem.receipts| + 1].nonce;
  }

  lemma {:induction false} AbsenceKeeps(
      v: Seat, h: ReceiptHash, row: Entry, x: A.Extract, railKey: Key, nowMs: int, ok: bool, whole: bool)
    requires SeatInv(v, h, whole) && InSync(v) && Pending(v.mem.journal, row.nonce) && IsValidAmountText(row.amount)
    requires x.isSealed && x.carries == Some(railKey) && FirstHit(x.rows, RefFor(row.nonce)).None?
    requires forall t :: t in SubmitsSince(v.mem.journal, row.nonce) ==> Covers(x, t)
    ensures Steps(v, Save(Tell(v.(mem := Close(v.mem, row, nowMs)), FoundAbsent(row.nonce, x, railKey)), ok), h, whole)
  {
    CoveredIsProof(v, row.nonce, x, railKey, h, whole);
    CloseAndSave(v, row, nowMs, FoundAbsent(row.nonce, x, railKey), ok, h, whole);
  }

  // ------------------------------------------------------------------------ recovery

  ghost predicate StillFolded(img: Image, rows: seq<Entry>) {
    OnePerNonce(rows) && forall e :: e in rows ==> Fold(img.journal, e.nonce) == Some(e)
  }

  lemma {:induction false} RecoverRowKeeps(
      img: Image, rows: seq<Entry>, nowMs: int, log: seq<Event>, h: ReceiptHash, whole: bool)
    requires rows != [] && StillFolded(img, rows) && Good(img, h, whole) && Guards(img, log)
    ensures var img' := RecoverRow(img, rows[0], nowMs);
      && Good(img', h, whole) && Guards(img', log) && Extends(img', img) && StillFolded(img', rows[1..])
      && (rows[0].phase in {Prepared, Submitted} ==> Longer(img', img))
  {
    var row := rows[0];
    assert row in rows;
    RowsRead(img, row.nonce, h, whole);
    assert HeldIfLive(img, log, row.nonce);
    match row.phase {
      case Prepared =>
        CloseKeeps(img, row, nowMs, h, whole);
        UnreserveGuards(img, row, log);
        NoteGuards(Unreserve(img, row), row, Failed, nowMs, log);
      case Submitted =>
        MoveKeeps(img, row, Indeterminate, nowMs, h, whole);
        NoteGuards(img, row, Indeterminate, nowMs, log);
      case _ =>
    }
    RecoverRowElsewhere(img, rows, nowMs);
  }

  lemma {:induction false} RecoverRowElsewhere(img: Image, rows: seq<Entry>, nowMs: int)
    requires rows != [] && StillFolded(img, rows)
    ensures StillFolded(RecoverRow(img, rows[0], nowMs), rows[1..])
  {
    var row, tail := rows[0], rows[1..];
    forall e | e in tail ensures Fold(RecoverRow(img, row, nowMs).journal, e.nonce) == Some(e) {
      var k :| 0 <= k < |tail| && tail[k] == e;
      assert rows[k + 1] == e && e in rows && rows[0].nonce != rows[k + 1].nonce;
      Appending(img.journal, Entry(row.nonce, row.amount, row.currency, row.payee, Failed, nowMs), e.nonce);
      Appending(img.journal, Entry(row.nonce, row.amount, row.currency, row.payee, Indeterminate, nowMs), e.nonce);
    }
  }

  /** Recovery keeps every image good and gives back no nonce the rail may still take. */
  lemma {:induction false} RecoverKeeps(
      img: Image, rows: seq<Entry>, nowMs: int, log: seq<Event>, h: ReceiptHash, whole: bool)
    requires StillFolded(img, rows) && Good(img, h, whole) && Guards(img, log)
    ensures var img' := RecoverRows(img, rows, nowMs);
      && Good(img', h, whole) && Guards(img', log) && Extends(img', img)
      && (Dirty(rows) ==> Longer(img', img))
    decreases rows
  {
    if rows != [] {
      RecoverRowKeeps(img, rows, nowMs, log, h, whole);
      RecoverKeeps(RecoverRow(img, rows[0], nowMs), rows[1..], nowMs, log, h, whole);
      assert Dirty(rows) ==> rows[0].phase in {Prepared, Submitted} || Dirty(rows[1..]);
    }
  }

  lemma {:induction false} LoadKeeps(
      disk: Option<Image>, blank: Image, nowMs: int, log: seq<Event>, ok: bool, h: ReceiptHash, whole: bool)
    requires DiskGood(disk, h, whole) && DiskGuards(disk, log) && LogSound(log)
    requires Good(blank, h, whole) && blank.journal == []
    ensures LoadStep(disk, blank, nowMs, log, ok).Some? ==>
      Steps(Seat(disk, blank, disk, log), LoadStep(disk, blank, nowMs, log, ok).value, h, whole)
  {
    var mem := if disk.Some? then disk.value else blank;
    var rows := Intents(mem.journal);
    IntentsAreLast(mem.journal);
    forall n ensures HeldIfLive(mem, log, n) {
      if disk.Some? { assert HeldIfLive(disk.value, log, n); }
    }
    RecoverKeeps(mem, rows, nowMs, log, h, whole);
    var v := Seat(disk, RecoverRows(mem, rows, nowMs), disk, log);
    if Dirty(rows) && ok {
      assert disk.Some?;
      SaveKeeps(v, true, h, whole);
    }
  }
}
