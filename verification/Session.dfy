/** The session: what it holds in memory, what the state file holds, and what each operation
    makes of both when writes may fail and the rail may not answer. */
module Sessions {
  import opened Journal
  import opened Options
  import opened Records
  import Cbor
  import Utf8
  import P = Policies
  import C = Checkpoints
  import D = CborDecoder
  import Chain = IssuerChain

  const NONCE_MIN_BYTES := 16

  predicate IsValidNonce(nonce: string) { |Utf8.EncodeText(nonce)| >= NONCE_MIN_BYTES }

  function RefFor(nonce: string): string { "x402-" + nonce }

  datatype Args = Args(nonce: string, amount: string, currency: string, payee: string, tool: Option<string>)

  /** The one checkpoint a session publishes over all its receipts. */
  datatype Cut = Cut(startMs: int, endMs: int, count: nat, head: Option<Hash>, totals: C.Totals)

  /** What the state file holds, and what the session holds in memory. */
  datatype Image = Image(
    key: Key, receipts: seq<Receipt>, settlements: seq<Row>, cut: Option<Cut>, store: P.Store, journal: seq<Entry>)

  function EmptyImage(key: Key): Image { Image(key, [], [], None, P.EMPTY_STORE, []) }

  // -------------------------------------------------------------- changes to an image

  function LastHash(receipts: seq<Receipt>, h: ReceiptHash): Option<Hash> {
    if receipts == [] then None else h(receipts[|receipts| - 1])
  }

  function Mint(
      img: Image, nonce: string, payee: string, amount: string, currency: string, atMs: int, h: ReceiptHash): Receipt {
    Receipt(nonce, payee, amount, currency, Some(RefFor(nonce)), atMs, LastHash(img.receipts, h), true, true,
      Some(img.key))
  }

  function RefOf(r: Receipt): string { if r.ref.Some? then r.ref.value else RefFor(r.nonce) }

  function RowFor(r: Receipt): Row { Row(RefOf(r), r.amount, r.currency, r.timestampMs, None) }

  function Earlier(a: int, b: int): int { if a <= b then a else b }

  function Later(a: int, b: int): int { if a >= b then a else b }

  function FirstTime(receipts: seq<Receipt>): int
    requires receipts != []
  {
    var last := receipts[|receipts| - 1].timestampMs;
    if |receipts| == 1 then last else Earlier(FirstTime(receipts[..|receipts| - 1]), last)
  }

  function LastTime(receipts: seq<Receipt>): int
    requires receipts != []
  {
    var last := receipts[|receipts| - 1].timestampMs;
    if |receipts| == 1 then last else Later(LastTime(receipts[..|receipts| - 1]), last)
  }

  function EndOf(receipts: seq<Receipt>, nowMs: int): int
    requires receipts != []
  {
    Later(LastTime(receipts) + 1, nowMs + 1)
  }

  function CutOf(receipts: seq<Receipt>, nowMs: int, h: ReceiptHash): Option<Cut> {
    if receipts == [] then None
    else Some(Cut(FirstTime(receipts), EndOf(receipts, nowMs), |receipts|, LastHash(receipts, h), C.TotalsOf(receipts)))
  }

  /** Whether the checkpoint can be encoded: both ends of its window are safe integers. */
  predicate CutEncodes(receipts: seq<Receipt>, nowMs: int) {
    receipts == [] || (Cbor.SafeInt(FirstTime(receipts)) && Cbor.SafeInt(EndOf(receipts, nowMs)))
  }

  /** Whether the receipt can be signed: its time is a safe integer, and the program's own decoder
      takes the octets, its currency among them, which then have a hash. */
  predicate Signable(r: Receipt, h: ReceiptHash) {
    Cbor.SafeInt(r.timestampMs) && |Utf8.EncodeText(r.currency)| <= D.CBOR_MAX_STRING && h(r).Some?
  }

  /** A receipt and its row on the rail ledger, with the checkpoint left as it was. */
  function Push(img: Image, r: Receipt): Image {
    img.(receipts := img.receipts + [r], settlements := img.settlements + [RowFor(r)])
  }

  /** A receipt, its row on the rail ledger, and the checkpoint cut anew. */
  function WithReceipt(img: Image, r: Receipt, nowMs: int, h: ReceiptHash): Image {
    Push(img, r).(cut := CutOf(img.receipts + [r], nowMs, h))
  }

  /** How far recording a payment comes: the receipt may not be signed, and then nothing changes;
      or the checkpoint may not be encoded, and then receipt and row are in without it. */
  datatype Recording = Unsigned | Stranded | Complete

  function HowRecorded(img: Image, r: Receipt, nowMs: int, h: ReceiptHash): Recording {
    if !Signable(r, h) then Unsigned
    else if !CutEncodes(img.receipts + [r], nowMs) then Stranded
    else Complete
  }

  function Note(img: Image, row: Entry, phase: Phase, atMs: int): Image {
    img.(journal := img.journal + [Entry(row.nonce, row.amount, row.currency, row.payee, phase, atMs)])
  }

  function Value(amount: string): int { if IsValidAmountText(amount) then ParseAmount(amount) else 0 }

  function Unreserve(img: Image, row: Entry): Image {
    img.(store := P.ReleaseStep(img.store, row.nonce, Value(row.amount), ReservedAt(img.journal, row.nonce)))
  }

  /** The payment did not happen: the reservation goes back. */
  function Close(img: Image, row: Entry, nowMs: int): Image { Note(Unreserve(img, row), row, Failed, nowMs) }

  function ReceiptFor(img: Image, row: Entry, receiptMs: int, h: ReceiptHash): Receipt {
    Mint(img, row.nonce, row.payee, row.amount, row.currency, receiptMs, h)
  }

  /** The payment happened: receipt, row, checkpoint and journal, as far as recording comes. */
  function Persist(img: Image, row: Entry, nowMs: int, receiptMs: int, h: ReceiptHash): Image {
    var r := ReceiptFor(img, row, receiptMs, h);
    match HowRecorded(img, r, nowMs, h)
    case Unsigned => img
    case Stranded => Push(img, r)
    case Complete => Note(WithReceipt(img, r, nowMs, h), row, Settled, nowMs)
  }

  predicate Completes(img: Image, row: Entry, nowMs: int, receiptMs: int, h: ReceiptHash) {
    HowRecorded(img, ReceiptFor(img, row, receiptMs, h), nowMs, h).Complete?
  }

  function Request(args: Args, nowMs: int): P.SpendRequest {
    P.SpendRequest(
      Value(args.amount), args.currency, args.payee, args.nonce, nowMs,
      Some(if args.tool.Some? then args.tool.value else "spend"))
  }

  function RowOf(args: Args): Entry { Entry(args.nonce, args.amount, args.currency, args.payee, Prepared, 0) }

  // -------------------------------------------------------------------- what is kept

  predicate Minted(r: Receipt, key: Key) {
    r.settled && r.cose && r.signedBy == Some(key) && r.ref == Some(RefFor(r.nonce)) && IsValidAmountText(r.amount)
  }

  predicate MirroredAt(img: Image, i: nat)
    requires i < |img.receipts| == |img.settlements|
  {
    Minted(img.receipts[i], img.key) && img.settlements[i] == RowFor(img.receipts[i])
  }

  /** The ledger rows are the receipts, one to one and in order. */
  ghost predicate Mirrored(img: Image) {
    |img.receipts| == |img.settlements| && forall i :: 0 <= i < |img.receipts| ==> MirroredAt(img, i)
  }

  ghost predicate NoncesDiffer(receipts: seq<Receipt>) {
    forall i, k :: 0 <= i < k < |receipts| ==> receipts[i].nonce != receipts[k].nonce
  }

  predicate InCut(r: Receipt, cut: Cut) { cut.startMs <= r.timestampMs < cut.endMs }

  /** A time after which a window can still end: below the largest safe integer. */
  predicate Timely(ms: int) { ms < Cbor.MAX_SAFE }

  ghost predicate CutFits(img: Image, h: ReceiptHash) {
    match img.cut
    case None => img.receipts == []
    case Some(cut) =>
      && cut.count == |img.receipts| > 0
      && cut.head == LastHash(img.receipts, h)
      && cut.totals == C.TotalsOf(img.receipts)
      && Cbor.SafeInt(cut.startMs) && Cbor.SafeInt(cut.endMs)
      && forall r :: r in img.receipts ==> InCut(r, cut)
  }

  /** A nonce the journal holds open or settled is burned. */
  ghost predicate BoundIsBurned(img: Image) { forall n :: Bound(img.journal, n) ==> n in img.store.usedNonces }

  predicate ReceiptBurned(img: Image, r: Receipt) { r.nonce in img.store.usedNonces && !Pending(img.journal, r.nonce) }

  /** A nonce with a receipt is burned, and no payment of it is still open. */
  ghost predicate ReceiptsBurned(img: Image) { forall r :: r in img.receipts ==> ReceiptBurned(img, r) }

  ghost predicate AmountsRead(j: seq<Entry>) { forall e :: e in j ==> IsValidAmountText(e.amount) }

  ghost predicate DecisionsPast(s: P.Store) { forall d :: d in s.consumed ==> d < s.nextDecision }

  ghost predicate AllSigned(receipts: seq<Receipt>, h: ReceiptHash) { forall r :: r in receipts ==> Signable(r, h) }

  ghost predicate AllTimely(receipts: seq<Receipt>) { forall r :: r in receipts ==> Timely(r.timestampMs) }

  /** What every operation keeps, whatever the clocks read: the receipts form one signed chain, the
      ledger mirrors them, what the journal holds is burned. */
  ghost predicate Sound(img: Image, h: ReceiptHash) {
    && Chain.IsChain(img.receipts, None, h) && AllSigned(img.receipts, h)
    && Mirrored(img)
    && BoundIsBurned(img)
    && AmountsRead(img.journal)
    && DecisionsPast(img.store)
  }

  /** What they keep as long as no payment is left half recorded: no nonce has two receipts, the
      checkpoint covers them all, and a nonce with a receipt is settled for good. */
  ghost predicate Whole(img: Image, h: ReceiptHash) {
    && NoncesDiffer(img.receipts)
    && AllTimely(img.receipts)
    && CutFits(img, h)
    && ReceiptsBurned(img)
  }

  ghost predicate Good(img: Image, h: ReceiptHash, whole: bool) { Sound(img, h) && (whole ==> Whole(img, h)) }

  lemma {:induction false} EmptyIsGood(key: Key, h: ReceiptHash, whole: bool)
    ensures Good(EmptyImage(key), h, whole)
  {
  }

  lemma {:induction false} ChainSnoc(s: seq<Receipt>, r: Receipt, h: ReceiptHash)
    requires AllSigned(s, h)
    requires Chain.IsChain(s, None, h) && r.prevHash == LastHash(s, h)
    ensures Chain.IsChain(s + [r], None, h)
  {
    var all := s + [r];
    forall i | 0 <= i < |all| ensures Chain.LinkAt(all, i, None, h) {
      if i < |s| {
        assert Chain.LinkAt(s, i, None, h);
      } else if i > 0 {
        assert s[i - 1] in s;
      }
    }
  }

  lemma {:induction false} TimesBound(receipts: seq<Receipt>)
    requires receipts != []
    ensures forall r :: r in receipts ==> FirstTime(receipts) <= r.timestampMs <= LastTime(receipts)
  {
    if |receipts| > 1 {
      var init := receipts[..|receipts| - 1];
      TimesBound(init);
      forall r | r in receipts ensures FirstTime(receipts) <= r.timestampMs <= LastTime(receipts) {
        if r in init {
        } else {
          assert r == receipts[|receipts| - 1];
        }
      }
    }
  }

  /** The receipt side of recording a payment. */
  lemma {:induction false} PushKeeps(img: Image, r: Receipt, h: ReceiptHash)
    requires Sound(img, h) && Minted(r, img.key) && Signable(r, h) && r.prevHash == LastHash(img.receipts, h)
    ensures var img' := Push(img, r);
      Chain.IsChain(img'.receipts, None, h) && AllSigned(img'.receipts, h) && Mirrored(img')
  {
    var img' := Push(img, r);
    ChainSnoc(img.receipts, r, h);
    forall i | 0 <= i < |img'.receipts| ensures MirroredAt(img', i) {
      if i < |img.receipts| {
        assert MirroredAt(img, i);
      }
    }
  }

  /** With a new nonce and a time that leaves the window room to end, the checkpoint covers all. */
  lemma {:induction false} WithReceiptCovers(img: Image, r: Receipt, nowMs: int, h: ReceiptHash)
    requires Whole(img, h) && Timely(r.timestampMs) && CutEncodes(img.receipts + [r], nowMs)
    requires forall x :: x in img.receipts ==> x.nonce != r.nonce
    ensures var img' := WithReceipt(img, r, nowMs, h);
      NoncesDiffer(img'.receipts) && AllTimely(img'.receipts) && CutFits(img', h)
  {
    TimesBound(img.receipts + [r]);
  }

  /** From a whole image, the checkpoint can be encoded exactly when the receipt's time and the
      clock both leave the window room to end. */
  lemma {:induction false} CutEncodesExactly(img: Image, r: Receipt, nowMs: int, h: ReceiptHash)
    requires AllSigned(img.receipts, h) && AllTimely(img.receipts) && Signable(r, h)
    ensures CutEncodes(img.receipts + [r], nowMs) <==> Timely(r.timestampMs) && Timely(nowMs)
  {
    var all := img.receipts + [r];
    TimesBound(all);
    assert r in all;
    TimesAttained(all);
    assert Cbor.SafeInt(LastTime(all)) && Cbor.SafeInt(FirstTime(all));
  }

  lemma {:induction false} TimesAttained(receipts: seq<Receipt>)
    requires receipts != []
    ensures exists r :: r in receipts && r.timestampMs == FirstTime(receipts)
    ensures exists r :: r in receipts && r.timestampMs == LastTime(receipts)
  {
    var init, last := receipts[..|receipts| - 1], receipts[|receipts| - 1];
    assert last in receipts;
    if |receipts| > 1 {
      TimesAttained(init);
      var a :| a in init && a.timestampMs == FirstTime(init);
      var b :| b in init && b.timestampMs == LastTime(init);
      assert a in receipts && b in receipts;
    }
  }

  // ------------------------------------------------------------ journal and store sides

  lemma {:induction false} NoteSpeaks(img: Image, row: Entry, phase: Phase, atMs: int, n: string)
    ensures var j := Note(img, row, phase, atMs).journal;
      && (n == row.nonce ==>
          Bound(j, n) == (phase != Failed) && Pending(j, n) == (phase in {Prepared, Submitted, Indeterminate})
            && Out(j, n) == (phase in {Submitted, Indeterminate, Settled}))
      && (n != row.nonce ==>
        Bound(j, n) == Bound(img.journal, n) && Pending(j, n) == Pending(img.journal, n)
        && Out(j, n) == Out(img.journal, n))
  {
    Appending(img.journal, Entry(row.nonce, row.amount, row.currency, row.payee, phase, atMs), n);
  }

  lemma {:induction false} NoteReads(img: Image, row: Entry, phase: Phase, atMs: int)
    requires AmountsRead(img.journal) && IsValidAmountText(row.amount)
    ensures AmountsRead(Note(img, row, phase, atMs).journal)
  {
  }

  /** The receipt side does not look at the store or the journal. */
  lemma {:induction false} SameReceiptsKeep(img: Image, img': Image, h: ReceiptHash, whole: bool)
    requires Good(img, h, whole)
    requires img' == img.(store := img'.store, journal := img'.journal)
    requires BoundIsBurned(img') && AmountsRead(img'.journal) && DecisionsPast(img'.store)
    requires whole ==> ReceiptsBurned(img')
    ensures Good(img', h, whole)
  {
    forall i | 0 <= i < |img'.receipts| ensures MirroredAt(img', i) { assert MirroredAt(img, i); }
  }

  /** A reserve: the nonce was free, is burned, and has its prepared row. */
  lemma {:induction false} ReserveKeeps(img: Image, s: P.Store, row: Entry, nowMs: int, h: ReceiptHash, whole: bool)
    requires Good(img, h, whole) && IsValidAmountText(row.amount)
    requires row.nonce !in img.store.usedNonces && s.usedNonces == img.store.usedNonces + {row.nonce}
    requires DecisionsPast(s)
    ensures Good(Note(img.(store := s), row, Prepared, nowMs), h, whole)
  {
    var mid, img' := img.(store := s), Note(img.(store := s), row, Prepared, nowMs);
    NoteReads(mid, row, Prepared, nowMs);
    forall n | Bound(img'.journal, n) ensures n in s.usedNonces { NoteSpeaks(mid, row, Prepared, nowMs, n); }
    forall r | whole && r in img.receipts ensures ReceiptBurned(img', r) {
      assert ReceiptBurned(img, r);
      NoteSpeaks(mid, row, Prepared, nowMs, r.nonce);
    }
    SameReceiptsKeep(img, img', h, whole);
  }

  /** A payment still open moves to submitted or indeterminate. */
  lemma {:induction false} MoveKeeps(img: Image, row: Entry, phase: Phase, nowMs: int, h: ReceiptHash, whole: bool)
    requires Good(img, h, whole) && IsValidAmountText(row.amount) && Pending(img.journal, row.nonce)
    requires phase in {Submitted, Indeterminate}
    ensures Good(Note(img, row, phase, nowMs), h, whole)
  {
    var img' := Note(img, row, phase, nowMs);
    NoteReads(img, row, phase, nowMs);
    forall n | Bound(img'.journal, n) ensures n in img.store.usedNonces { NoteSpeaks(img, row, phase, nowMs, n); }
    forall r | whole && r in img.receipts ensures ReceiptBurned(img', r) {
      assert ReceiptBurned(img, r);
      NoteSpeaks(img, row, phase, nowMs, r.nonce);
    }
    SameReceiptsKeep(img, img', h, whole);
  }

  /** Giving back the nonce of an open payment takes nothing from any receipt. */
  lemma {:induction false} CloseKeeps(img: Image, row: Entry, nowMs: int, h: ReceiptHash, whole: bool)
    requires Good(img, h, whole) && IsValidAmountText(row.amount) && Pending(img.journal, row.nonce)
    ensures Good(Close(img, row, nowMs), h, whole)
  {
    var mid, img' := Unreserve(img, row), Close(img, row, nowMs);
    NoteReads(mid, row, Failed, nowMs);
    forall n | Bound(img'.journal, n) ensures n in img'.store.usedNonces { NoteSpeaks(mid, row, Failed, nowMs, n); }
    forall r | whole && r in img.receipts ensures ReceiptBurned(img', r) {
      assert ReceiptBurned(img, r);
      NoteSpeaks(mid, row, Failed, nowMs, r.nonce);
    }
    SameReceiptsKeep(img, img', h, whole);
  }

  lemma {:induction false} SettledNoteBurns(img: Image, row: Entry, nowMs: int)
    requires BoundIsBurned(img) && AmountsRead(img.journal) && IsValidAmountText(row.amount)
    requires row.nonce in img.store.usedNonces
    ensures BoundIsBurned(Note(img, row, Settled, nowMs)) && AmountsRead(Note(img, row, Settled, nowMs).journal)
  {
    var img' := Note(img, row, Settled, nowMs);
    NoteReads(img, row, Settled, nowMs);
    forall n | Bound(img'.journal, n) ensures n in img'.store.usedNonces { NoteSpeaks(img, row, Settled, nowMs, n); }
  }

  /** Recording a payment that was still open keeps what holds whatever the clocks read; and as
      long as receipt time and clock leave the window room to end, it keeps images whole. */
  lemma {:induction false} PersistKeeps(img: Image, row: Entry, nowMs: int, receiptMs: int, h: ReceiptHash, whole: bool)
    requires Good(img, h, whole) && IsValidAmountText(row.amount) && Pending(img.journal, row.nonce)
    requires whole ==> Timely(nowMs) && Timely(receiptMs)
    ensures Good(Persist(img, row, nowMs, receiptMs, h), h, whole)
  {
    var r := ReceiptFor(img, row, receiptMs, h);
    if Signable(r, h) {
      PushKeeps(img, r, h);
      SettledNoteBurns(WithReceipt(img, r, nowMs, h), row, nowMs);
      if whole {
        CutEncodesExactly(img, r, nowMs, h);
        PersistIsWhole(img, row, nowMs, receiptMs, h);
      }
      assert Persist(img, row, nowMs, receiptMs, h).receipts == Push(img, r).receipts;
      assert Mirrored(Persist(img, row, nowMs, receiptMs, h)) by {
        MirrorSame(Push(img, r), Persist(img, row, nowMs, receiptMs, h));
      }
    }
  }

  lemma {:induction false} MirrorSame(img: Image, img': Image)
    requires Mirrored(img) && img'.receipts == img.receipts && img'.settlements == img.settlements
      && img'.key == img.key
    ensures Mirrored(img')
  {
    forall i | 0 <= i < |img'.receipts| ensures MirroredAt(img', i) { assert MirroredAt(img, i); }
  }

  lemma {:induction false} PersistIsWhole(img: Image, row: Entry, nowMs: int, receiptMs: int, h: ReceiptHash)
    requires Whole(img, h) && BoundIsBurned(img) && Pending(img.journal, row.nonce) && Timely(receiptMs)
    requires Completes(img, row, nowMs, receiptMs, h)
    ensures Whole(Persist(img, row, nowMs, receiptMs, h), h)
  {
    var r := ReceiptFor(img, row, receiptMs, h);
    var mid, img' := WithReceipt(img, r, nowMs, h), Persist(img, row, nowMs, receiptMs, h);
    forall x | x in img.receipts ensures x.nonce != r.nonce { assert ReceiptBurned(img, x); }
    WithReceiptCovers(img, r, nowMs, h);
    forall x | x in img'.receipts ensures ReceiptBurned(img', x) {
      NoteSpeaks(mid, row, Settled, nowMs, x.nonce);
      if x in img.receipts {
        assert ReceiptBurned(img, x);
      }
    }
  }

  /** Exactly when a payment is left half recorded: its receipt can be signed, but its time or the
      clock is the last safe integer. */
  lemma {:induction false} RecordingIsWholeExactly(img: Image, row: Entry, nowMs: int, receiptMs: int, h: ReceiptHash)
    requires Good(img, h, true) && IsValidAmountText(row.amount) && Pending(img.journal, row.nonce)
    requires Signable(ReceiptFor(img, row, receiptMs, h), h)
    ensures Whole(Persist(img, row, nowMs, receiptMs, h), h) <==> Timely(nowMs) && Timely(receiptMs)
  {
    var r := ReceiptFor(img, row, receiptMs, h);
    CutEncodesExactly(img, r, nowMs, h);
    if Timely(nowMs) && Timely(receiptMs) {
      PersistIsWhole(img, row, nowMs, receiptMs, h);
    } else {
      assert r in Push(img, r).receipts && !ReceiptBurned(Push(img, r), r);
    }
  }

  /** A payment settled in process: its nonce was free, and it is recorded in full or not at all. */
  lemma {:induction false} SpendKeeps(img: Image, s: P.Store, r: Receipt, nowMs: int, h: ReceiptHash, whole: bool)
    requires Good(img, h, whole) && Minted(r, img.key) && r.prevHash == LastHash(img.receipts, h)
    requires r.nonce !in img.store.usedNonces && s.usedNonces == img.store.usedNonces + {r.nonce}
    requires DecisionsPast(s)
    requires HowRecorded(img, r, nowMs, h).Complete?
    ensures Good(WithReceipt(img.(store := s), r, nowMs, h), h, whole)
  {
    var img' := WithReceipt(img.(store := s), r, nowMs, h);
    PushKeeps(img, r, h);
    MirrorSame(Push(img, r), img');
    if whole {
      forall x | x in img.receipts ensures x.nonce != r.nonce && ReceiptBurned(img', x) {
        assert ReceiptBurned(img, x);
      }
      CutEncodesExactly(img, r, nowMs, h);
      WithReceiptCovers(img, r, nowMs, h);
      assert ReceiptBurned(img', r);
    }
  }
}
