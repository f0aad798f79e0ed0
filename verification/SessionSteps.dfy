/** The session's operations as steps of what one session can see: the state file, its own
    memory, and the file as it last saw it. A write may fail, the rail may not answer, and an
    operation may stop between two durable steps. */
module SessionSteps {
  import opened Options
  import opened Records
  import opened Journal
  import opened Sessions
  import Cbor
  import P = Policies
  import A = Audit

  // ------------------------------------------------------------- what happened so far

  /** What happened, in order. The program keeps no such list: it is what the claims are about. */
  datatype Event =
    | Reserved(nonce: string)
    | Called(nonce: string, atMs: int)
    | RailFailed(nonce: string)
    | FoundAbsent(nonce: string, extract: A.Extract, railKey: Key)

  /** When the rail was called for the nonce since its latest reserve, while nothing has
      closed the question. */
  function OpenCalls(log: seq<Event>, nonce: string): seq<int> {
    if log == [] then []
    else
      var e := log[|log| - 1];
      var before := OpenCalls(log[..|log| - 1], nonce);
      if e.nonce != nonce then before
      else if e.Called? then before + [e.atMs]
      else []
  }

  predicate Live(log: seq<Event>, nonce: string) { OpenCalls(log, nonce) != [] }

  lemma {:induction false} Happens(log: seq<Event>, e: Event, nonce: string)
    ensures OpenCalls(log + [e], nonce) ==
      if e.nonce != nonce then OpenCalls(log, nonce) else if e.Called? then OpenCalls(log, nonce) + [e.atMs] else []
  {
    assert (log + [e])[..|log|] == log;
  }

  /** The nonce is burned, the journal holds it as out, and knows every one of those calls. */
  ghost predicate Held(img: Image, nonce: string, calls: seq<int>) {
    && nonce in img.store.usedNonces
    && Out(img.journal, nonce)
    && forall t :: t in calls ==> t in SubmitsSince(img.journal, nonce)
  }

  ghost predicate HeldIfLive(img: Image, log: seq<Event>, n: string) {
    Live(log, n) ==> Held(img, n, OpenCalls(log, n))
  }

  ghost predicate Guards(img: Image, log: seq<Event>) { forall n :: HeldIfLive(img, log, n) }

  predicate Covers(x: A.Extract, t: int) { x.startMs <= t < x.endMs }

  /** A verified extract that has no row of the nonce and covers every open call. */
  ghost predicate ProvesAbsent(x: A.Extract, railKey: Key, nonce: string, calls: seq<int>) {
    && x.isSealed && x.carries == Some(railKey)
    && (forall s :: s in x.rows ==> s.ref != RefFor(nonce))
    && (forall t :: t in calls ==> Covers(x, t))
  }

  /** No nonce is reserved while it is live, and none is found absent without the evidence. */
  ghost predicate SoundAt(log: seq<Event>, i: nat)
    requires i < |log|
  {
    match log[i]
    case Reserved(n) => !Live(log[..i], n)
    case FoundAbsent(n, x, k) => ProvesAbsent(x, k, n, OpenCalls(log[..i], n))
    case _ => true
  }

  ghost predicate LogSound(log: seq<Event>) { forall i :: 0 <= i < |log| ==> SoundAt(log, i) }

  lemma {:induction false} SoundMore(log: seq<Event>, e: Event)
    requires LogSound(log)
    requires e.Reserved? ==> !Live(log, e.nonce)
    requires e.FoundAbsent? ==> ProvesAbsent(e.extract, e.railKey, e.nonce, OpenCalls(log, e.nonce))
    ensures LogSound(log + [e])
  {
    var all := log + [e];
    forall i | 0 <= i < |all| ensures SoundAt(all, i) {
      if i < |log| {
        assert SoundAt(log, i);
        assert all[..i] == log[..i] && all[i] == log[i];
      } else {
        assert all[..i] == log;
      }
    }
  }

  // ------------------------------------------------------------------ one session's view

  datatype Seat = Seat(disk: Option<Image>, mem: Image, lastSeen: Option<Image>, log: seq<Event>)

  datatype Outcome = Paid(receipt: Receipt) | Released | Refused(reason: string) | Thrown

  /** The file's fingerprint is what the session last saw. */
  predicate InSync(v: Seat) { v.disk == v.lastSeen }

  function Tell(v: Seat, e: Event): Seat { v.(log := v.log + [e]) }

  /** The write that may fail: the whole image at once, or nothing. It is refused when the file
      is not what the session last saw. */
  predicate Writes(v: Seat, ok: bool) { ok && InSync(v) }

  function Save(v: Seat, ok: bool): Seat {
    if Writes(v, ok) then v.(disk := Some(v.mem), lastSeen := Some(v.mem)) else v
  }

  datatype Answer = SaidSettled | SaidFailed | NoAnswer | RailCrash

  datatype Stop = RunsOn | StopsAfterPrepared | StopsAfterSubmitted

  /** What the world decides during one operation. */
  datatype Env = Env(savePrepared: bool, saveSubmitted: bool, saveLast: bool, stop: Stop, answer: Answer)

  // ---------------------------------------------------------------------- operations

  /** spend: settle in process, record, save; undone in memory, wherever that stops. */
  function SpendStep(v: Seat, p: P.Policy, h: ReceiptHash, args: Args, nowMs: int, ok: bool): (Seat, Outcome) {
    if !IsValidAmountText(args.amount) then (v, Refused("malformed-amount"))
    else if !InSync(v) then (v, Refused("state-conflict"))
    else if !IsValidNonce(args.nonce) then (v, Refused("nonce-too-short"))
    else
      var (s, d) := P.EvaluateStep(v.mem.store, p, Request(args, nowMs));
      if d.Deny? then (v.(mem := v.mem.(store := s)), Refused("denied"))
      else
        var (s', d') := P.ConsumeStep(s, d.decisionId, Value(args.amount), true);
        if d'.Deny? then (v.(mem := v.mem.(store := s')), Refused("denied"))
        else
          var r := Mint(v.mem, args.nonce, args.payee, PrintAmount(ParseAmount(args.amount)), args.currency, nowMs, h);
          var told := Tell(v, Reserved(args.nonce));
          match HowRecorded(v.mem, r, nowMs, h)
          case Unsigned => (told, Refused(if Cbor.SafeInt(nowMs) then "cbor-too-large" else "state-io"))
          case Stranded => (told, Refused("state-io"))
          case Complete =>
            if Writes(v, ok) then (Save(told.(mem := WithReceipt(v.mem.(store := s'), r, nowMs, h)), ok), Paid(r))
            else (told, Refused("state-io"))
  }

  /** A payment the rail took is recorded and saved. What stops on the way stays as it then is. */
  function RecordStep(
      v: Seat, h: ReceiptHash, row: Entry, nowMs: int, receiptMs: int, ok: bool, unsaved: Outcome): (Seat, Outcome) {
    var paid := v.(mem := Persist(v.mem, row, nowMs, receiptMs, h));
    if !Completes(v.mem, row, nowMs, receiptMs, h) then (paid, unsaved)
    else (Save(paid, ok), if Writes(paid, ok) then Paid(ReceiptFor(v.mem, row, receiptMs, h)) else unsaved)
  }

  /** What follows a call to the rail. */
  function AfterCall(
      v: Seat, h: ReceiptHash, row: Entry, nowMs: int, answer: Answer, ok: bool, unsaved: Outcome): (Seat, Outcome) {
    match answer
    case RailCrash => (v, Thrown)
    case NoAnswer => (Save(v.(mem := Note(v.mem, row, Indeterminate, nowMs)), ok), Refused("state-io"))
    case SaidFailed =>
      var closed := Tell(v.(mem := Close(v.mem, row, nowMs)), RailFailed(row.nonce));
      (Save(closed, ok), if Writes(closed, ok) then Refused("rail-failed") else unsaved)
    case SaidSettled => RecordStep(v, h, row, nowMs, nowMs, ok, unsaved)
  }

  /** submitExternal: prepared, submitted, the rail, then what it answered. */
  function SubmitStep(v: Seat, p: P.Policy, h: ReceiptHash, args: Args, nowMs: int, env: Env): (Seat, Outcome) {
    if !IsValidAmountText(args.amount) then (v, Refused("malformed-amount"))
    else if !IsValidNonce(args.nonce) then (v, Refused("nonce-too-short"))
    else if !InSync(v) then (v, Refused("state-conflict"))
    else
      var row := RowOf(args);
      var (s, d) := P.EvaluateStep(v.mem.store, p, Request(args, nowMs));
      if d.Deny? then (v.(mem := v.mem.(store := s)), Refused("denied"))
      else
        var told := Tell(v, Reserved(args.nonce));
        var prepared := told.(mem := Note(v.mem.(store := s), row, Prepared, nowMs));
        if !Writes(prepared, env.savePrepared) then (told, Refused("state-io"))
        else
          var v1 := Save(prepared, true);
          if env.stop == StopsAfterPrepared then (v1, Thrown)
          else
            var submitted := v1.(mem := Note(v1.mem, row, Submitted, nowMs));
            if !Writes(submitted, env.saveSubmitted) then (submitted, Refused("state-io"))
            else
              var v2 := Save(submitted, true);
              if env.stop == StopsAfterSubmitted then (v2, Thrown)
              else AfterCall(Tell(v2, Called(args.nonce, nowMs)), h, row, nowMs, env.answer, env.saveLast,
                Refused("state-io"))
  }

  /** retryIndeterminate: only an idempotent rail is asked again. */
  function RetryStep(v: Seat, h: ReceiptHash, nonce: string, idempotent: bool, nowMs: int, env: Env): (Seat, Outcome) {
    var folded := Fold(v.mem.journal, nonce);
    if !InSync(v) then (v, Refused("state-conflict"))
    else if folded.None? || folded.value.phase != Indeterminate then (v, Refused("not-indeterminate"))
    else if !idempotent then (v, Refused("rail-not-idempotent"))
    else
      var row := folded.value;
      var submitted := v.(mem := Note(v.mem, row, Submitted, nowMs));
      if !Writes(submitted, env.saveSubmitted) then (submitted, Thrown)
      else AfterCall(Tell(Save(submitted, true), Called(row.nonce, nowMs)), h, row, nowMs, env.answer, env.saveLast,
        Thrown)
  }

  function FirstHit(rows: seq<Row>, ref: string): (hit: Option<Row>)
    ensures hit.None? <==> forall s :: s in rows ==> s.ref != ref
    ensures hit.Some? ==> hit.value in rows && hit.value.ref == ref
  {
    if rows == [] then None else if rows[0].ref == ref then Some(rows[0]) else FirstHit(rows[1..], ref)
  }

  /** resolveIndeterminate: only authenticated evidence decides, and absence only over a window
      that covers every attempt since the reserve. */
  function ResolveStep(
      v: Seat, h: ReceiptHash, nonce: string, x: A.Extract, railKey: Key, nowMs: int, ok: bool): (Seat, Outcome) {
    var folded := Fold(v.mem.journal, nonce);
    var at := LastSubmitted(v.mem.journal, nonce);
    if !InSync(v) then (v, Refused("state-conflict"))
    else if folded.None? || folded.value.phase != Indeterminate then (v, Refused("not-indeterminate"))
    else if !x.isSealed || x.carries != Some(railKey) then (v, Refused("evidence-unverified"))
    else if at.None? then (v, Refused("not-indeterminate"))
    else if !Covers(x, at.value) then (v, Refused("window-not-covering"))
    else
      var row := folded.value;
      var hit := FirstHit(x.rows, RefFor(nonce));
      if hit.Some? then
        if hit.value.amount != row.amount || hit.value.currency != row.currency then (v, Refused("evidence-mismatch"))
        else RecordStep(v, h, row, nowMs, hit.value.timestampMs, ok, Thrown)
      else if exists t :: t in SubmitsSince(v.mem.journal, nonce) && !Covers(x, t)
        then (v, Refused("window-not-covering"))
      else
        var closed := Tell(v.(mem := Close(v.mem, row, nowMs)), FoundAbsent(row.nonce, x, railKey));
        (Save(closed, ok), if Writes(closed, ok) then Released else Thrown)
  }

  /** One row of the fold after a restart: a reserve that never left is given back, a submit
      without an answer is indeterminate. */
  function RecoverRow(img: Image, row: Entry, nowMs: int): Image {
    match row.phase
    case Prepared => Close(img, row, nowMs)
    case Submitted => Note(img, row, Indeterminate, nowMs)
    case _ => img
  }

  function RecoverRows(img: Image, rows: seq<Entry>, nowMs: int): Image
    decreases rows
  {
    if rows == [] then img else RecoverRows(RecoverRow(img, rows[0], nowMs), rows[1..], nowMs)
  }

  predicate Dirty(rows: seq<Entry>) { exists e :: e in rows && e.phase in {Prepared, Submitted} }

  /** open and reload: take the file as it stands, recover, and save if recovery changed anything.
      None when that save fails: the session is not opened, or stays as it was. */
  function LoadStep(disk: Option<Image>, blank: Image, nowMs: int, log: seq<Event>, ok: bool): Option<Seat> {
    var mem := if disk.Some? then disk.value else blank;
    var rows := Intents(mem.journal);
    var v := Seat(disk, RecoverRows(mem, rows, nowMs), disk, log);
    if !Dirty(rows) then Some(v) else if ok then Some(Save(v, true)) else None
  }

  /** What reload starts from when there is no file: the key and the decision counter stay. */
  function Emptied(mem: Image): Image {
    Image(mem.key, [], [], None, P.EMPTY_STORE.(nextDecision := mem.store.nextDecision), [])
  }
}
