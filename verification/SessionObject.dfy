/** The session as the program has it: fields changed in place, an engine, a state file. Every
    method is proved to be the step of the same name. */
module SessionObject {
  import opened Options
  import opened Records
  import opened Journal
  import opened Sessions
  import opened SessionSteps
  import Cbor
  import P = Policies
  import C = Checkpoints
  import A = Audit

  /** The state file: replaced whole, or not at all. */
  class StateFile {
    var content: Option<Image>

    constructor ()
      ensures content == None
    {
      content := None;
    }

    method Replace(img: Image, ok: bool)
      modifies this
      ensures content == if ok then Some(img) else old(content)
    {
      if ok {
        content := Some(img);
      }
    }
  }

  class CedulonSession {
    const h: ReceiptHash
    const engine: P.PolicyEngine<P.SpendRequest>
    const file: StateFile
    var key: Key
    var receipts: seq<Receipt>
    var settlements: seq<Row>
    var cut: Option<Cut>
    var journal: seq<Entry>
    var lastSeen: Option<Image>
    /** What happened; the program keeps no such list. */
    ghost var log: seq<Event>

    /** What the session holds in memory. */
    function Mem(): Image
      reads this, engine
    {
      Image(key, receipts, settlements, cut, engine.View(), journal)
    }

    ghost function View(): Seat
      reads this, engine, file
    {
      Seat(file.content, Mem(), lastSeen, log)
    }

    constructor (policy: P.Policy, h: ReceiptHash, file: StateFile, key: Key, ghost log: seq<Event>)
      ensures this.file == file && this.h == h && engine.policy == policy && fresh(engine)
      ensures View() == Seat(file.content, EmptyImage(key), None, log)
    {
      this.h, this.file, this.key, this.log := h, file, key, log;
      engine := new P.PolicyEngine<P.SpendRequest>(policy, req => req);
      receipts, settlements, cut, journal, lastSeen := [], [], None, [], None;
    }

    method AppendJournal(row: Entry, phase: Phase, atMs: int)
      modifies this`journal
      ensures Mem() == Note(old(Mem()), row, phase, atMs)
    {
      journal := journal + [Entry(row.nonce, row.amount, row.currency, row.payee, phase, atMs)];
    }

    /** Put memory back to an earlier image. */
    method Restore(img: Image)
      modifies this`key, this`receipts, this`settlements, this`cut, this`journal, engine
      ensures Mem() == img
    {
      key, receipts, settlements, cut, journal := img.key, img.receipts, img.settlements, img.cut, img.journal;
      engine.usedNonces, engine.consumedDecisions := img.store.usedNonces, img.store.consumed;
      engine.counters, engine.nextDecision := img.store.counters, img.store.nextDecision;
    }

    method SaveState(ok: bool) returns (done: bool)
      modifies this`lastSeen, file
      ensures View() == Save(old(View()), ok)
      ensures done == Writes(old(View()), ok)
    {
      var current := file.content;
      if current != lastSeen {
        return false;
      }
      file.Replace(Mem(), ok);
      if ok {
        lastSeen := file.content;
      }
      return ok;
    }

    /** The checkpoint over all receipts. Its claims may not encode, and then it stays as it was. */
    method RebuildCheckpoint(nowMs: int) returns (done: bool)
      modifies this`cut
      ensures done == CutEncodes(receipts, nowMs)
      ensures cut == if done then CutOf(receipts, nowMs, h) else old(cut)
    {
      if receipts == [] {
        cut := None;
        return true;
      }
      var startMs, lastMs := Bounds();
      var endMs := Later(lastMs + 1, nowMs + 1);
      if !Cbor.SafeInt(startMs) || !Cbor.SafeInt(endMs) {
        return false;
      }
      cut := Some(Cut(startMs, endMs, |receipts|, LastHash(receipts, h), C.TotalsOf(receipts)));
      return true;
    }

    method Bounds() returns (startMs: int, lastMs: int)
      requires receipts != []
      ensures startMs == FirstTime(receipts) && lastMs == LastTime(receipts)
    {
      startMs, lastMs := receipts[0].timestampMs, receipts[0].timestampMs;
      var i := 1;
      assert receipts[..1] == [receipts[0]];
      while i < |receipts|
        invariant 1 <= i <= |receipts|
        invariant startMs == FirstTime(receipts[..i]) && lastMs == LastTime(receipts[..i])
      {
        assert receipts[..i + 1][..i] == receipts[..i];
        startMs, lastMs := Earlier(startMs, receipts[i].timestampMs), Later(lastMs, receipts[i].timestampMs);
        i := i + 1;
      }
      assert receipts[..|receipts|] == receipts;
    }

    /** Sign the receipt, push it, record its row, and only then cut the checkpoint. */
    method PushReceipt(r: Receipt, nowMs: int) returns (how: Recording)
      modifies this`receipts, this`settlements, this`cut
      ensures how == HowRecorded(old(Mem()), r, nowMs, h)
      ensures Mem() == match how
        case Unsigned => old(Mem())
        case Stranded => Push(old(Mem()), r)
        case Complete => WithReceipt(old(Mem()), r, nowMs, h)
    {
      if !Signable(r, h) {
        return Unsigned;
      }
      receipts := receipts + [r];
      settlements := settlements + [RowFor(r)];
      var done := RebuildCheckpoint(nowMs);
      return if done then Complete else Stranded;
    }

    /** spend. A record that cannot be made or written is undone in memory with everything around it. */
    method Spend(args: Args, nowMs: int, ok: bool) returns (out: Outcome)
      modifies this, engine, file
      ensures (View(), out) == SpendStep(old(View()), engine.policy, h, args, nowMs, ok)
    {
      if !IsValidAmountText(args.amount) {
        return Refused("malformed-amount");
      }
      if file.content != lastSeen {
        return Refused("state-conflict");
      }
      if !IsValidNonce(args.nonce) {
        return Refused("nonce-too-short");
      }
      var undo := Mem();
      var req := Request(args, nowMs);
      var d := engine.Evaluate(req);
      if d.Deny? {
        return Refused("denied");
      }
      var consumed := engine.ConsumeDecision(d.decisionId, engine.requestHashOf(req), req);
      if consumed.Deny? {
        return Refused("denied");
      }
      log := log + [Reserved(args.nonce)];
      var r := Mint(Mem(), args.nonce, args.payee, PrintAmount(ParseAmount(args.amount)), args.currency, nowMs, h);
      var how := PushReceipt(r, nowMs);
      if !how.Complete? {
        Restore(undo);
        return Refused(if how.Unsigned? && Cbor.SafeInt(nowMs) then "cbor-too-large" else "state-io");
      }
      var done := SaveState(ok);
      if !done {
        Restore(undo);
        return Refused("state-io");
      }
      return Paid(r);
    }

    method Release(row: Entry)
      modifies engine
      ensures Mem() == Unreserve(old(Mem()), row)
    {
      var at := ReservedAtMs(journal, row.nonce);
      engine.Release(row.nonce, Value(row.amount), at);
    }

    /** Nothing here is undone: what was pushed before a step that fails stays pushed. */
    method PersistCutSettled(row: Entry, nowMs: int, receiptMs: int, ok: bool, unsaved: Outcome) returns (out: Outcome)
      modifies this, file
      ensures (View(), out) == RecordStep(old(View()), h, row, nowMs, receiptMs, ok, unsaved)
    {
      var r := ReceiptFor(Mem(), row, receiptMs, h);
      var how := PushReceipt(r, nowMs);
      if !how.Complete? {
        return unsaved;
      }
      AppendJournal(row, Settled, nowMs);
      var done := SaveState(ok);
      return if done then Paid(r) else unsaved;
    }

    /** The rail refused it: the reservation goes back and the journal says so. */
    method CloseFailed(row: Entry, nowMs: int, ghost e: Event, ok: bool) returns (done: bool)
      modifies this, engine, file
      ensures var closed := Tell(old(View()).(mem := Close(old(Mem()), row, nowMs)), e);
        View() == Save(closed, ok) && done == Writes(closed, ok)
    {
      Release(row);
      AppendJournal(row, Failed, nowMs);
      log := log + [e];
      done := SaveState(ok);
    }

    method Answered(row: Entry, nowMs: int, answer: Answer, ok: bool, unsaved: Outcome) returns (out: Outcome)
      modifies this, engine, file
      ensures (View(), out) == AfterCall(old(View()), h, row, nowMs, answer, ok, unsaved)
    {
      match answer {
        case RailCrash => return Thrown;
        case NoAnswer =>
          AppendJournal(row, Indeterminate, nowMs);
          var _ := SaveState(ok);
          return Refused("state-io");
        case SaidFailed =>
          var done := CloseFailed(row, nowMs, RailFailed(row.nonce), ok);
          return if done then Refused("rail-failed") else unsaved;
        case SaidSettled =>
          out := PersistCutSettled(row, nowMs, nowMs, ok, unsaved);
      }
    }

    method SubmitExternal(args: Args, nowMs: int, env: Env) returns (out: Outcome)
      modifies this, engine, file
      ensures (View(), out) == SubmitStep(old(View()), engine.policy, h, args, nowMs, env)
    {
      if !IsValidAmountText(args.amount) {
        return Refused("malformed-amount");
      }
      if !IsValidNonce(args.nonce) {
        return Refused("nonce-too-short");
      }
      if file.content != lastSeen {
        return Refused("state-conflict");
      }
      var undo := Mem();
      var row := RowOf(args);
      var d := engine.Evaluate(Request(args, nowMs));
      if d.Deny? {
        return Refused("denied");
      }
      log := log + [Reserved(args.nonce)];
      AppendJournal(row, Prepared, nowMs);
      var prepared := SaveState(env.savePrepared);
      if !prepared {
        Restore(undo);
        return Refused("state-io");
      }
      if env.stop == StopsAfterPrepared {
        return Thrown;
      }
      AppendJournal(row, Submitted, nowMs);
      var submitted := SaveState(env.saveSubmitted);
      if !submitted {
        return Refused("state-io");
      }
      if env.stop == StopsAfterSubmitted {
        return Thrown;
      }
      log := log + [Called(args.nonce, nowMs)];
      out := Answered(row, nowMs, env.answer, env.saveLast, Refused("state-io"));
    }

    method FoldedIntent(nonce: string) returns (found: Option<Entry>)
      ensures found == Fold(journal, nonce)
    {
      var rows := FoldJournal(journal);
      IntentsAreLast(journal);
      FoldNames(journal, nonce);
      assert Fold(journal, nonce).Some? ==> Fold(journal, nonce).value in rows;
      for i := 0 to |rows|
        invariant forall k :: 0 <= k < i ==> rows[k].nonce != nonce
      {
        assert rows[i] in rows;
        if rows[i].nonce == nonce {
          return Some(rows[i]);
        }
      }
      return None;
    }

    method RetryIndeterminate(nonce: string, idempotent: bool, nowMs: int, env: Env) returns (out: Outcome)
      modifies this, engine, file
      ensures (View(), out) == RetryStep(old(View()), h, nonce, idempotent, nowMs, env)
    {
      if file.content != lastSeen {
        return Refused("state-conflict");
      }
      var folded := FoldedIntent(nonce);
      if folded.None? || folded.value.phase != Indeterminate {
        return Refused("not-indeterminate");
      }
      if !idempotent {
        return Refused("rail-not-idempotent");
      }
      var row := folded.value;
      AppendJournal(row, Submitted, nowMs);
      var submitted := SaveState(env.saveSubmitted);
      if !submitted {
        return Thrown;
      }
      log := log + [Called(row.nonce, nowMs)];
      out := Answered(row, nowMs, env.answer, env.saveLast, Thrown);
    }

    method ResolveIndeterminate(nonce: string, x: A.Extract, railKey: Key, nowMs: int, ok: bool) returns (out: Outcome)
      modifies this, engine, file
      ensures (View(), out) == ResolveStep(old(View()), h, nonce, x, railKey, nowMs, ok)
    {
      if file.content != lastSeen {
        return Refused("state-conflict");
      }
      var folded := FoldedIntent(nonce);
      if folded.None? || folded.value.phase != Indeterminate {
        return Refused("not-indeterminate");
      }
      if !x.isSealed || x.carries != Some(railKey) {
        return Refused("evidence-unverified");
      }
      var at := LastSubmittedAtMs(journal, nonce);
      if at.None? {
        return Refused("not-indeterminate");
      }
      if !Covers(x, at.value) {
        return Refused("window-not-covering");
      }
      var row := folded.value;
      var hit := FirstHit(x.rows, RefFor(nonce));
      if hit.Some? {
        if hit.value.amount != row.amount || hit.value.currency != row.currency {
          return Refused("evidence-mismatch");
        }
        out := PersistCutSettled(row, nowMs, hit.value.timestampMs, ok, Thrown);
        return;
      }
      var times := SubmittedTimesSinceReserve(journal, nonce);
      for i := 0 to |times|
        invariant forall k :: 0 <= k < i ==> Covers(x, times[k])
      {
        if !Covers(x, times[i]) {
          assert times[i] in times;
          return Refused("window-not-covering");
        }
      }
      var done := CloseFailed(row, nowMs, FoundAbsent(row.nonce, x, railKey), ok);
      return if done then Released else Thrown;
    }

    /** A reserve that never left is given back, a submit without an answer is indeterminate. */
    method RecoverJournal(nowMs: int, ok: bool) returns (done: bool)
      requires lastSeen == file.content
      modifies this, engine, file
      ensures var v := old(View()).(mem := RecoverRows(old(Mem()), Intents(old(journal)), nowMs));
        done == (Dirty(Intents(old(journal))) ==> ok)
        && View() == if Dirty(Intents(old(journal))) then Save(v, ok) else v
    {
      var rows := FoldJournal(journal);
      var dirty := false;
      ghost var start := Mem();
      for i := 0 to |rows|
        invariant lastSeen == old(lastSeen) && file.content == old(file.content) && log == old(log)
        invariant dirty == Dirty(rows[..i])
        invariant RecoverRows(Mem(), rows[i..], nowMs) == RecoverRows(start, rows, nowMs)
      {
        var row := rows[i];
        assert rows[i..][1..] == rows[i + 1..] && rows[i..][0] == row;
        DirtyMore(rows, i);
        if row.phase == Prepared {
          Release(row);
          AppendJournal(row, Failed, nowMs);
          dirty := true;
        } else if row.phase == Submitted {
          AppendJournal(row, Indeterminate, nowMs);
          dirty := true;
        }
      }
      assert rows[..|rows|] == rows && rows[|rows|..] == [];
      done := true;
      if dirty {
        done := SaveState(ok);
      }
    }

    static lemma {:induction false} DirtyMore(rows: seq<Entry>, i: nat)
      requires i < |rows|
      ensures Dirty(rows[..i + 1]) <==> Dirty(rows[..i]) || rows[i].phase in {Prepared, Submitted}
    {
      assert rows[..i + 1] == rows[..i] + [rows[i]];
    }

    /** Take the file as it now stands; on failure the session stays as it was. */
    method Reload(nowMs: int, ok: bool) returns (done: bool)
      modifies this, engine, file
      ensures var got := LoadStep(old(file.content), Emptied(old(Mem())), nowMs, old(log), ok);
        done == got.Some? && View() == if got.Some? then got.value else old(View())
    {
      var undo, seen := Mem(), lastSeen;
      Restore(if file.content.Some? then file.content.value else Emptied(undo));
      lastSeen := file.content;
      done := RecoverJournal(nowMs, ok);
      if !done {
        Restore(undo);
        lastSeen := seen;
      }
    }

    /** A session opened on the file: loaded, recovered, and saved if recovery changed anything. */
    static method Open(
        policy: P.Policy, h: ReceiptHash, file: StateFile, key: Key, nowMs: int, ok: bool, ghost log: seq<Event>)
      returns (s: CedulonSession, done: bool)
      modifies file
      ensures fresh(s) && fresh(s.engine) && s.file == file && s.h == h && s.engine.policy == policy
      ensures var got := LoadStep(old(file.content), EmptyImage(key), nowMs, log, ok);
        done == got.Some? && if got.Some? then s.View() == got.value else file.content == old(file.content)
    {
      s := new CedulonSession(policy, h, file, key, log);
      assert Emptied(EmptyImage(key)) == EmptyImage(key);
      done := s.Reload(nowMs, ok);
    }
  }
}
