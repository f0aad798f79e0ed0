/** What the reconciliation of one window says, finding by finding, of the receipts, the rows and the
    extracts next door: a reference that knows no classes and no bags. */
module Statements {
  import opened Bags
  import opened Options
  import opened Reconcile
  import opened Records
  import C = Classify

  // ------------------------------------------------------------------ who shares a ref

  predicate Bears(receipts: seq<Receipt>, i: nat, ref: string) {
    i < |receipts| && receipts[i].settled && receipts[i].ref == Some(ref)
  }

  predicate RowBears(rows: seq<Row>, i: nat, ref: string) { i < |rows| && rows[i].ref == ref }

  ghost predicate Receipted(receipts: seq<Receipt>, ref: string) { exists i: nat :: Bears(receipts, i, ref) }

  ghost predicate Rowed(rows: seq<Row>, ref: string) { exists i: nat :: RowBears(rows, i, ref) }

  ghost predicate TwiceReceipted(receipts: seq<Receipt>, ref: string) {
    exists i: nat, j: nat :: i < j && Bears(receipts, i, ref) && Bears(receipts, j, ref)
  }

  ghost predicate TwiceRowed(rows: seq<Row>, ref: string) {
    exists i: nat, j: nat :: i < j && RowBears(rows, i, ref) && RowBears(rows, j, ref)
  }

  /** No two receipts and no two rows share the ref. */
  ghost predicate Single(receipts: seq<Receipt>, rows: seq<Row>, ref: string) {
    !TwiceReceipted(receipts, ref) && !TwiceRowed(rows, ref)
  }

  // -------------------------------------------------------------------- near an edge

  predicate NearStart(b: Option<Boundary>, ts: int) { b.Some? && ts < b.value.startMs + b.value.skewMs }

  predicate NearEnd(b: Option<Boundary>, ts: int) { b.Some? && ts >= b.value.endMs - b.value.skewMs }

  /** The row is for what the receipt says. */
  predicate Pays(s: Row, r: Receipt) { r.ref == Some(s.ref) && r.amount == s.amount && r.currency == s.currency }

  /** A row of the extract behind the end names the receipt, dated before its start plus the allowance. */
  predicate NamedAfter(n: Neighbour, r: Receipt, skewMs: int) {
    exists i :: 0 <= i < |n.rows| && Pays(n.rows[i], r) && n.rows[i].timestampMs < n.edgeMs + skewMs
  }

  /** A row of the extract before the start names it, dated no earlier than its end less the allowance. */
  predicate NamedBefore(n: Neighbour, r: Receipt, skewMs: int) {
    exists i :: 0 <= i < |n.rows| && Pays(n.rows[i], r) && n.rows[i].timestampMs >= n.edgeMs - skewMs
  }

  predicate CarriedBack(b: Option<Boundary>, r: Receipt) {
    NearStart(b, r.timestampMs) && b.value.prev.Some? && NamedBefore(b.value.prev.value, r, b.value.skewMs)
  }

  predicate CarriedOn(b: Option<Boundary>, r: Receipt) {
    NearEnd(b, r.timestampMs) && b.value.next.Some? && NamedAfter(b.value.next.value, r, b.value.skewMs)
  }

  /** Whatever edge the receipt is near, nothing stands behind it. */
  predicate NobodyNextDoor(b: Option<Boundary>, r: Receipt) {
    && (NearStart(b, r.timestampMs) ==> b.value.prev.None?) && (NearEnd(b, r.timestampMs) ==> b.value.next.None?)
  }

  /** A receipt that may still find its row in an extract nobody has shown. */
  predicate Waits(b: Option<Boundary>, r: Receipt) {
    (NearStart(b, r.timestampMs) || NearEnd(b, r.timestampMs)) && NobodyNextDoor(b, r)
  }

  // ------------------------------------------------------------------- sums of a ref

  /** What the rows of a ref settle in a currency, as far as it can be read. */
  function SettledIn(rows: seq<Row>, ref: string, currency: string): nat {
    if rows == [] then 0
    else
      var s := rows[|rows| - 1];
      SettledIn(rows[..|rows| - 1], ref, currency)
      + if s.ref == ref && s.currency == currency && IsValidAmountText(s.amount) then ParseAmount(s.amount) else 0
  }

  function ReceiptedIn(receipts: seq<Receipt>, ref: string, currency: string): nat {
    if receipts == [] then 0
    else
      var r := receipts[|receipts| - 1];
      ReceiptedIn(receipts[..|receipts| - 1], ref, currency)
      + if r.settled && r.ref == Some(ref) && r.currency == currency && IsValidAmountText(r.amount)
        then ParseAmount(r.amount) else 0
  }

  /** Some record of the ref has an amount that cannot be read, in this currency. */
  ghost predicate Unread(receipts: seq<Receipt>, rows: seq<Row>, ref: string, currency: string) {
    || (exists i: nat ::
      Bears(receipts, i, ref) && receipts[i].currency == currency && !IsValidAmountText(receipts[i].amount))
    || (exists i: nat :: RowBears(rows, i, ref) && rows[i].currency == currency && !IsValidAmountText(rows[i].amount))
  }

  /** In a currency of its records that can all be read, the rows of a repeated ref settle more than its
      receipts say (surplus), or less. */
  ghost predicate SumsDiffer(receipts: seq<Receipt>, rows: seq<Row>, ref: string, currency: string, surplus: bool) {
    && !Unread(receipts, rows, ref, currency)
    && if surplus then SettledIn(rows, ref, currency) > ReceiptedIn(receipts, ref, currency)
       else SettledIn(rows, ref, currency) < ReceiptedIn(receipts, ref, currency)
  }

  // -------------------------------------------------------------- what is said, and when

  /** A lone receipt that nothing answers for. */
  ghost predicate Unanswered(receipts: seq<Receipt>, rows: seq<Row>, b: Option<Boundary>, r: Receipt) {
    && r in receipts && r.settled && r.ref.Some? && !TwiceReceipted(receipts, r.ref.value) && !Rowed(rows, r.ref.value)
    && !CarriedBack(b, r) && !CarriedOn(b, r)
  }

  /** A lone row that no receipt names. */
  ghost predicate Unclaimed(receipts: seq<Receipt>, rows: seq<Row>, s: Row) {
    s in rows && !TwiceRowed(rows, s.ref) && !Receipted(receipts, s.ref)
  }

  /** A receipt and a row that are each other's only one. */
  ghost predicate Paired(receipts: seq<Receipt>, rows: seq<Row>, r: Receipt, s: Row) {
    r in receipts && s in rows && r.settled && r.ref == Some(s.ref) && Single(receipts, rows, s.ref)
  }

  ghost predicate Fails(receipts: seq<Receipt>, rows: seq<Row>, b: Option<Boundary>, code: Code, id: string) {
    match code
    case ReceiptWithoutSettlement =>
      exists r :: Unanswered(receipts, rows, b, r) && r.nonce == id && !Waits(b, r)
    case SettlementWithoutReceipt =>
      || (exists s :: Unclaimed(receipts, rows, s) && s.ref == id
            && !NearStart(b, s.timestampMs) && !NearEnd(b, s.timestampMs))
      || (!Single(receipts, rows, id) && exists currency :: SumsDiffer(receipts, rows, id, currency, true))
    case SettlementMismatch =>
      || (exists r, s ::
        Paired(receipts, rows, r, s) && s.ref == id && !(r.amount == s.amount && r.currency == s.currency))
      || (!Single(receipts, rows, id) && exists currency :: SumsDiffer(receipts, rows, id, currency, false))
    case BeneficiaryMismatch =>
      exists r, s ::
        Paired(receipts, rows, r, s) && s.ref == id && s.beneficiary.Some? && s.beneficiary.value != r.payee
    case DuplicateRef => TwiceRowed(rows, id)
    case MalformedAmount =>
      !Single(receipts, rows, id) && exists currency :: Unread(receipts, rows, id, currency)
    case _ => false
  }

  ghost predicate Defers(receipts: seq<Receipt>, rows: seq<Row>, b: Option<Boundary>, id: string, needs: Needs) {
    match needs
    case Receipts =>
      exists s :: Unclaimed(receipts, rows, s) && s.ref == id
        && (NearStart(b, s.timestampMs) || NearEnd(b, s.timestampMs))
    case NextExtract =>
      exists r :: Unanswered(receipts, rows, b, r) && r.nonce == id && Waits(b, r) && NearEnd(b, r.timestampMs)
    case PreviousExtract =>
      exists r :: Unanswered(receipts, rows, b, r) && r.nonce == id && Waits(b, r) && !NearEnd(b, r.timestampMs)
    case Nothing => false
  }

  /** The finding is among those of the window. */
  ghost predicate Says(receipts: seq<Receipt>, rows: seq<Row>, b: Option<Boundary>, f: Finding) {
    if f.warn then f.code == BoundaryDeferred && Defers(receipts, rows, b, f.id, f.needs)
    else f.needs == Nothing && Fails(receipts, rows, b, f.code, f.id)
  }

  // ----------------------------------------------------------------------- counting refs

  lemma {:induction false} ReceiptedOneMore(s: seq<Receipt>, r: Receipt, ref: string)
    ensures Receipted(s + [r], ref) <==> Receipted(s, ref) || HasRef(r, ref)
    ensures TwiceReceipted(s + [r], ref) <==> TwiceReceipted(s, ref) || (Receipted(s, ref) && HasRef(r, ref))
  {
    var all, n := s + [r], |s|;
    forall i: nat | i < n ensures Bears(all, i, ref) <==> Bears(s, i, ref) { assert all[i] == s[i]; }
    assert Bears(all, n, ref) <==> HasRef(r, ref);
  }

  lemma {:induction false} RowedOneMore(rows: seq<Row>, s: Row, ref: string)
    ensures Rowed(rows + [s], ref) <==> Rowed(rows, ref) || s.ref == ref
    ensures TwiceRowed(rows + [s], ref) <==> TwiceRowed(rows, ref) || (Rowed(rows, ref) && s.ref == ref)
  {
    var all, n := rows + [s], |rows|;
    forall i: nat | i < n ensures RowBears(all, i, ref) <==> RowBears(rows, i, ref) { assert all[i] == rows[i]; }
    assert RowBears(all, n, ref) <==> s.ref == ref;
  }

  lemma {:induction false} RefOneMore(s: seq<Receipt>, r: Receipt, ref: string)
    ensures Gather(s + [r], RefOf())[ref] == Gather(s, RefOf())[ref] + if HasRef(r, ref) then 1 else 0
  {
    GatherAppend(s, r, RefOf());
  }

  lemma {:induction false} RowRefOneMore(rows: seq<Row>, s: Row, ref: string)
    ensures Gather(rows + [s], RowRefOf())[ref] == Gather(rows, RowRefOf())[ref] + if s.ref == ref then 1 else 0
  {
    GatherAppend(rows, s, RowRefOf());
  }

  lemma {:induction false} ReceiptRefCount(receipts: seq<Receipt>, ref: string)
    ensures Gather(receipts, RefOf())[ref] >= 1 <==> Receipted(receipts, ref)
    ensures Gather(receipts, RefOf())[ref] > 1 <==> TwiceReceipted(receipts, ref)
  {
    if receipts != [] {
      var init, r := receipts[..|receipts| - 1], receipts[|receipts| - 1];
      ReceiptRefCount(init, ref);
      ReceiptedOneMore(init, r, ref);
      RefOneMore(init, r, ref);
      assert receipts == init + [r];
    }
  }

  lemma {:induction false} RowRefCount(rows: seq<Row>, ref: string)
    ensures Gather(rows, RowRefOf())[ref] >= 1 <==> Rowed(rows, ref)
    ensures Gather(rows, RowRefOf())[ref] > 1 <==> TwiceRowed(rows, ref)
  {
    if rows != [] {
      var init, s := rows[..|rows| - 1], rows[|rows| - 1];
      RowRefCount(init, ref);
      RowedOneMore(init, s, ref);
      RowRefOneMore(init, s, ref);
      assert rows == init + [s];
    }
  }

  lemma {:induction false} SkippedMeans(receipts: seq<Receipt>, rows: seq<Row>, b: Option<Boundary>, ref: string)
    ensures var c := CtxOf(receipts, rows, b);
      && (SkipRef(c, ref) <==> !Single(receipts, rows, ref))
      && (ref in c.rowRefs <==> Rowed(rows, ref)) && (ref in c.receiptRefs <==> Receipted(receipts, ref))
  {
    ReceiptRefCount(receipts, ref);
    RowRefCount(rows, ref);
  }

  lemma {:induction false} RowedTwiceIsRowed(rows: seq<Row>, ref: string)
    ensures TwiceRowed(rows, ref) ==> Rowed(rows, ref)
  {
  }

  lemma {:induction false} ReceiptedTwiceIsReceipted(receipts: seq<Receipt>, ref: string)
    ensures TwiceReceipted(receipts, ref) ==> Receipted(receipts, ref)
  {
  }

  // ------------------------------------------------------------------- single receipts

  lemma NamesMeans(b: Boundary, r: Receipt)
    ensures Names(b.prev, r, Opening, b.skewMs) <==> b.prev.Some? && NamedBefore(b.prev.value, r, b.skewMs)
    ensures Names(b.next, r, Closing, b.skewMs) <==> b.next.Some? && NamedAfter(b.next.value, r, b.skewMs)
  {
    if b.prev.Some? {
      forall i | 0 <= i < |b.prev.value.rows| ensures NamesAt(b.prev.value, i, r, Opening, b.skewMs) <==>
        Pays(b.prev.value.rows[i], r) && b.prev.value.rows[i].timestampMs >= b.prev.value.edgeMs - b.skewMs { }
    }
    if b.next.Some? {
      forall i | 0 <= i < |b.next.value.rows| ensures NamesAt(b.next.value, i, r, Closing, b.skewMs) <==>
        Pays(b.next.value.rows[i], r) && b.next.value.rows[i].timestampMs < b.next.value.edgeMs + b.skewMs { }
    }
  }

  /** What becomes of a receipt without a row of its own here: carried by the extract it is near, left to
      wait exactly where nothing stands next door, and charged otherwise. */
  lemma {:induction false} LoneReceiptExactly(b: Option<Boundary>, r: Receipt)
    ensures EdgeClass(b, r) ==
      if CarriedBack(b, r) then Carried(Opening)
      else if CarriedOn(b, r) then Carried(Closing)
      else if Waits(b, r) then Deferred(if NearEnd(b, r.timestampMs) then Closing else Opening)
      else Uncovered
  {
    if b.Some? { NamesMeans(b.value, r); }
  }

  ghost predicate SaidOfReceipt(
      receipts: seq<Receipt>, rows: seq<Row>, b: Option<Boundary>, r: Receipt, f: Finding)
  {
    && Unanswered(receipts, rows, b, r)
    && f == if Waits(b, r) then
              Finding(
                BoundaryDeferred, r.nonce, true,
                if NearEnd(b, r.timestampMs) then NextExtract else PreviousExtract)
            else Fail(ReceiptWithoutSettlement, r.nonce)
  }

  /** Where a receipt stands. */
  ghost function ReceiptStanding(
      receipts: seq<Receipt>, rows: seq<Row>, b: Option<Boundary>, r: Receipt): ReceiptClass {
    if !r.settled then Aborted
    else if r.ref.None? then Refless
    else if !Single(receipts, rows, r.ref.value) then Repeated
    else if Rowed(rows, r.ref.value) then Matched
    else if CarriedBack(b, r) then Carried(Opening)
    else if CarriedOn(b, r) then Carried(Closing)
    else if Waits(b, r) then Deferred(if NearEnd(b, r.timestampMs) then Closing else Opening)
    else Uncovered
  }

  /** The class of a receipt, read off who shares its ref and what stands next door. */
  lemma {:induction false} ReceiptClassExactly(receipts: seq<Receipt>, rows: seq<Row>, b: Option<Boundary>, r: Receipt)
    requires r in receipts
    ensures ClassOfReceipt(CtxOf(receipts, rows, b), r) == ReceiptStanding(receipts, rows, b, r)
  {
    if r.ref.Some? { SkippedMeans(receipts, rows, b, r.ref.value); }
    LoneReceiptExactly(b, r);
  }

  lemma ReceiptFindingsAre(c: Ctx, r: Receipt, f: Finding)
    ensures f in ReceiptFindingOf(c)(r) <==> match ClassOfReceipt(c, r)
      case Deferred(e) =>
        f == Finding(BoundaryDeferred, r.nonce, true, if e == Closing then NextExtract else PreviousExtract)
      case Uncovered => f == Fail(ReceiptWithoutSettlement, r.nonce)
      case _ => false
  {
    assert f in multiset(ReceiptFindings(c, r)) <==> f in ReceiptFindings(c, r);
  }

  lemma {:induction false} StandingSays(
      receipts: seq<Receipt>, rows: seq<Row>, b: Option<Boundary>, r: Receipt, f: Finding)
    requires r in receipts
    ensures SaidOfReceipt(receipts, rows, b, r, f) <==> match ReceiptStanding(receipts, rows, b, r)
      case Deferred(e) =>
        f == Finding(BoundaryDeferred, r.nonce, true, if e == Closing then NextExtract else PreviousExtract)
      case Uncovered => f == Fail(ReceiptWithoutSettlement, r.nonce)
      case _ => false
  {
    if r.ref.Some? { RowedTwiceIsRowed(rows, r.ref.value); }
  }

  lemma {:induction false} ReceiptSays(
      receipts: seq<Receipt>, rows: seq<Row>, b: Option<Boundary>, r: Receipt, f: Finding)
    requires r in receipts
    ensures f in ReceiptFindingOf(CtxOf(receipts, rows, b))(r) <==> SaidOfReceipt(receipts, rows, b, r, f)
  {
    ReceiptFindingsAre(CtxOf(receipts, rows, b), r, f);
    ReceiptClassExactly(receipts, rows, b, r);
    StandingSays(receipts, rows, b, r, f);
  }

  lemma {:induction false} ReceiptsSay(receipts: seq<Receipt>, rows: seq<Row>, b: Option<Boundary>, f: Finding)
    ensures f in Gather(receipts, ReceiptFindingOf(CtxOf(receipts, rows, b))) <==>
      exists r :: SaidOfReceipt(receipts, rows, b, r, f)
  {
    var g := ReceiptFindingOf(CtxOf(receipts, rows, b));
    GatherMember(receipts, g, f);
    forall r | r in receipts ensures f in g(r) <==> SaidOfReceipt(receipts, rows, b, r, f) {
      ReceiptSays(receipts, rows, b, r, f);
    }
    if r :| SaidOfReceipt(receipts, rows, b, r, f) {
      var i :| 0 <= i < |receipts| && receipts[i] == r;
      assert f in g(receipts[i]);
    }
  }

  // ------------------------------------------------------------------------ single rows

  ghost predicate SaidOfRow(receipts: seq<Receipt>, rows: seq<Row>, b: Option<Boundary>, s: Row, f: Finding) {
    && Unclaimed(receipts, rows, s)
    && f == if NearStart(b, s.timestampMs) || NearEnd(b, s.timestampMs)
      then Finding(BoundaryDeferred, s.ref, true, Receipts)
            else Fail(SettlementWithoutReceipt, s.ref)
  }

  /** Where a row stands. */
  ghost function RowStanding(receipts: seq<Receipt>, rows: seq<Row>, b: Option<Boundary>, s: Row): RowClass {
    if !Single(receipts, rows, s.ref) then RowRepeated
    else if Receipted(receipts, s.ref) then RowMatched
    else if NearStart(b, s.timestampMs) || NearEnd(b, s.timestampMs) then
      RowDeferred(NearStart(b, s.timestampMs), NearEnd(b, s.timestampMs))
    else RowUncovered
  }

  /** The class of a row. */
  lemma {:induction false} RowClassExactly(receipts: seq<Receipt>, rows: seq<Row>, b: Option<Boundary>, s: Row)
    ensures ClassOfRow(CtxOf(receipts, rows, b), s) == RowStanding(receipts, rows, b, s)
  {
    SkippedMeans(receipts, rows, b, s.ref);
  }

  lemma RowFindingsAre(c: Ctx, s: Row, f: Finding)
    ensures f in RowFindingOf(c)(s) <==> match ClassOfRow(c, s)
      case RowDeferred(_, _) => f == Finding(BoundaryDeferred, s.ref, true, Receipts)
      case RowUncovered => f == Fail(SettlementWithoutReceipt, s.ref)
      case _ => false
  {
    assert f in multiset(RowFindings(c, s)) <==> f in RowFindings(c, s);
  }

  lemma {:induction false} RowSays(receipts: seq<Receipt>, rows: seq<Row>, b: Option<Boundary>, s: Row, f: Finding)
    requires s in rows
    ensures f in RowFindingOf(CtxOf(receipts, rows, b))(s) <==> SaidOfRow(receipts, rows, b, s, f)
  {
    RowClassExactly(receipts, rows, b, s);
    RowFindingsAre(CtxOf(receipts, rows, b), s, f);
    ReceiptedTwiceIsReceipted(receipts, s.ref);
  }

  lemma {:induction false} RowsSay(receipts: seq<Receipt>, rows: seq<Row>, b: Option<Boundary>, f: Finding)
    ensures f in Gather(rows, RowFindingOf(CtxOf(receipts, rows, b))) <==>
      exists s :: SaidOfRow(receipts, rows, b, s, f)
  {
    var g := RowFindingOf(CtxOf(receipts, rows, b));
    GatherMember(rows, g, f);
    forall s | s in rows ensures f in g(s) <==> SaidOfRow(receipts, rows, b, s, f) {
      RowSays(receipts, rows, b, s, f);
    }
    if s :| SaidOfRow(receipts, rows, b, s, f) {
      var i :| 0 <= i < |rows| && rows[i] == s;
      assert f in g(rows[i]);
    }
  }

  // --------------------------------------------------------------------------- pairs

  /** What a pair disagrees on. */
  predicate Disagrees(r: Receipt, s: Row, f: Finding) {
    || (f == Fail(SettlementMismatch, s.ref) && !(r.amount == s.amount && r.currency == s.currency))
    || (f == Fail(BeneficiaryMismatch, s.ref) && s.beneficiary.Some? && s.beneficiary.value != r.payee)
  }

  ghost predicate SaidOfPair(receipts: seq<Receipt>, rows: seq<Row>, r: Receipt, s: Row, f: Finding) {
    Paired(receipts, rows, r, s) && Disagrees(r, s, f)
  }

  lemma PairedWithMeans(r: Receipt, s: Row, f: Finding)
    ensures f in PairedWith(s)(r) <==> r.settled && r.ref == Some(s.ref) && Disagrees(r, s, f)
  {
    assert f in multiset(PairFindings(r, s)) <==> f in PairFindings(r, s);
  }

  lemma {:induction false} PairedGathered(receipts: seq<Receipt>, s: Row, f: Finding)
    ensures f in Gather(receipts, PairedWith(s)) <==>
      exists r :: r in receipts && r.settled && r.ref == Some(s.ref) && Disagrees(r, s, f)
  {
    GatherMember(receipts, PairedWith(s), f);
    forall r | r in receipts
      ensures f in PairedWith(s)(r) <==> r.settled && r.ref == Some(s.ref) && Disagrees(r, s, f)
    {
      PairedWithMeans(r, s, f);
    }
  }

  lemma {:induction false} MatchedMeans(receipts: seq<Receipt>, rows: seq<Row>, b: Option<Boundary>, s: Row)
    ensures ClassOfRow(CtxOf(receipts, rows, b), s) == RowMatched <==>
      Single(receipts, rows, s.ref) && Receipted(receipts, s.ref)
  {
    SkippedMeans(receipts, rows, b, s.ref);
  }

  lemma {:induction false} PairSays(receipts: seq<Receipt>, rows: seq<Row>, b: Option<Boundary>, s: Row, f: Finding)
    requires s in rows
    ensures f in PairFindingOf(CtxOf(receipts, rows, b), receipts)(s) <==>
      exists r :: SaidOfPair(receipts, rows, r, s, f)
  {
    MatchedMeans(receipts, rows, b, s);
    PairedGathered(receipts, s, f);
    if r :| r in receipts && r.settled && r.ref == Some(s.ref) && Disagrees(r, s, f) {
      var i :| 0 <= i < |receipts| && receipts[i] == r;
      assert Bears(receipts, i, s.ref);
      assert Single(receipts, rows, s.ref) ==> SaidOfPair(receipts, rows, r, s, f);
    }
  }

  lemma {:induction false} PairsSay(receipts: seq<Receipt>, rows: seq<Row>, b: Option<Boundary>, f: Finding)
    ensures f in Gather(rows, PairFindingOf(CtxOf(receipts, rows, b), receipts)) <==>
      exists r, s :: SaidOfPair(receipts, rows, r, s, f)
  {
    var g := PairFindingOf(CtxOf(receipts, rows, b), receipts);
    GatherMember(rows, g, f);
    forall s | s in rows ensures f in g(s) <==> exists r :: SaidOfPair(receipts, rows, r, s, f) {
      PairSays(receipts, rows, b, s, f);
    }
    if r, s :| SaidOfPair(receipts, rows, r, s, f) {
      var i :| 0 <= i < |rows| && rows[i] == s;
      assert f in g(rows[i]);
    }
  }

  // -------------------------------------------------------------------- repeated refs

  lemma {:induction false} SetGathers<T(!new), U(!new)>(s: set<T>, f: T -> multiset<U>, u: U)
    ensures u in GatherSet(s, f) <==> exists x :: x in s && u in f(x)
    decreases |s|
  {
    if s != {} {
      var x :| x in s;
      GatherSetStep(s, x, f);
      SetGathers(s - {x}, f, u);
    }
  }

  ghost predicate RowPays(rows: seq<Row>, ref: string, m: Money) {
    exists i: nat :: RowBears(rows, i, ref) && m == Money(rows[i].currency, rows[i].amount)
  }

  ghost predicate ReceiptPays(receipts: seq<Receipt>, ref: string, m: Money) {
    exists i: nat :: Bears(receipts, i, ref) && m == Money(receipts[i].currency, receipts[i].amount)
  }

  lemma {:induction false} RowPaysOneMore(rows: seq<Row>, s: Row, ref: string, m: Money)
    ensures RowPays(rows + [s], ref, m) <==>
      RowPays(rows, ref, m) || (s.ref == ref && m == Money(s.currency, s.amount))
  {
    var all, n := rows + [s], |rows|;
    forall i: nat | i < n ensures RowBears(all, i, ref) <==> RowBears(rows, i, ref) { assert all[i] == rows[i]; }
    assert RowBears(all, n, ref) <==> s.ref == ref;
  }

  lemma {:induction false} ReceiptPaysOneMore(receipts: seq<Receipt>, r: Receipt, ref: string, m: Money)
    ensures ReceiptPays(receipts + [r], ref, m) <==>
      ReceiptPays(receipts, ref, m) || (HasRef(r, ref) && m == Money(r.currency, r.amount))
  {
    var all, n := receipts + [r], |receipts|;
    forall i: nat | i < n ensures Bears(all, i, ref) <==> Bears(receipts, i, ref) { assert all[i] == receipts[i]; }
    assert Bears(all, n, ref) <==> HasRef(r, ref);
  }

  lemma {:induction false} RowMoneyHas(ref: string, rows: seq<Row>, m: Money)
    ensures m in RowMoney(ref, rows) <==> RowPays(rows, ref, m)
  {
    if rows != [] {
      var init, s := rows[..|rows| - 1], rows[|rows| - 1];
      RowMoneyHas(ref, init, m);
      RowPaysOneMore(init, s, ref, m);
      assert rows == init + [s];
    }
  }

  lemma {:induction false} ReceiptMoneyHas(ref: string, receipts: seq<Receipt>, m: Money)
    ensures m in ReceiptMoney(ref, receipts) <==> ReceiptPays(receipts, ref, m)
  {
    if receipts != [] {
      var init, r := receipts[..|receipts| - 1], receipts[|receipts| - 1];
      ReceiptMoneyHas(ref, init, m);
      ReceiptPaysOneMore(init, r, ref, m);
      assert receipts == init + [r];
    }
  }

  lemma {:induction false} SettledTotals(ref: string, rows: seq<Row>, currency: string)
    ensures Total(RowMoney(ref, rows), AmountIn(currency)) == SettledIn(rows, ref, currency)
  {
    if rows != [] {
      var s, before := rows[|rows| - 1], RowMoney(ref, rows[..|rows| - 1]);
      SettledTotals(ref, rows[..|rows| - 1], currency);
      if s.ref == ref {
        TotalAppend(before, Money(s.currency, s.amount), AmountIn(currency));
      } else {
        assert RowMoney(ref, rows) == before;
      }
    }
  }

  lemma {:induction false} ReceiptedTotals(ref: string, receipts: seq<Receipt>, currency: string)
    ensures Total(ReceiptMoney(ref, receipts), AmountIn(currency)) == ReceiptedIn(receipts, ref, currency)
  {
    if receipts != [] {
      var r, before := receipts[|receipts| - 1], ReceiptMoney(ref, receipts[..|receipts| - 1]);
      ReceiptedTotals(ref, receipts[..|receipts| - 1], currency);
      if HasRef(r, ref) {
        TotalAppend(before, Money(r.currency, r.amount), AmountIn(currency));
      } else {
        assert ReceiptMoney(ref, receipts) == before;
      }
    }
  }

  lemma {:induction false} NoneTotalsNothing(money: seq<Money>, currency: string)
    requires forall m :: m in money ==> m.currency != currency
    ensures Total(money, AmountIn(currency)) == 0
  {
    if money != [] {
      assert money[|money| - 1] in money;
      NoneTotalsNothing(money[..|money| - 1], currency);
    }
  }

  ghost predicate UnreadMoney(money: seq<Money>, currency: string) {
    exists m :: m in money && m.currency == currency && !IsValidAmountText(m.amount)
  }

  lemma {:induction false} UnreadMeans(receipts: seq<Receipt>, rows: seq<Row>, ref: string, currency: string)
    ensures Unread(receipts, rows, ref, currency) <==>
      UnreadMoney(RowMoney(ref, rows), currency) || UnreadMoney(ReceiptMoney(ref, receipts), currency)
  {
    UnreadRowsMean(rows, ref, currency);
    UnreadReceiptsMean(receipts, ref, currency);
  }

  lemma {:induction false} UnreadRowsMean(rows: seq<Row>, ref: string, currency: string)
    ensures UnreadMoney(RowMoney(ref, rows), currency) <==>
      exists i: nat :: RowBears(rows, i, ref) && rows[i].currency == currency && !IsValidAmountText(rows[i].amount)
  {
    if i: nat :| RowBears(rows, i, ref) && rows[i].currency == currency && !IsValidAmountText(rows[i].amount) {
      RowMoneyHas(ref, rows, Money(rows[i].currency, rows[i].amount));
    }
    if m :| m in RowMoney(ref, rows) && m.currency == currency && !IsValidAmountText(m.amount) {
      RowMoneyHas(ref, rows, m);
    }
  }

  lemma {:induction false} UnreadReceiptsMean(receipts: seq<Receipt>, ref: string, currency: string)
    ensures UnreadMoney(ReceiptMoney(ref, receipts), currency) <==> exists i: nat ::
      Bears(receipts, i, ref) && receipts[i].currency == currency && !IsValidAmountText(receipts[i].amount)
  {
    if i: nat :|
      Bears(receipts, i, ref) && receipts[i].currency == currency && !IsValidAmountText(receipts[i].amount)
    {
      ReceiptMoneyHas(ref, receipts, Money(receipts[i].currency, receipts[i].amount));
    }
    if m :| m in ReceiptMoney(ref, receipts) && m.currency == currency && !IsValidAmountText(m.amount) {
      ReceiptMoneyHas(ref, receipts, m);
    }
  }

  lemma {:induction false} MalformedSays(money: seq<Money>, ref: string, f: Finding)
    ensures f in Gather(money, MalformedOf(ref)) <==>
      f == Fail(MalformedAmount, ref) && exists currency :: UnreadMoney(money, currency)
  {
    GatherMember(money, MalformedOf(ref), f);
    if i :| 0 <= i < |money| && f in MalformedOf(ref)(money[i]) {
      assert UnreadMoney(money, money[i].currency);
    }
    if f == Fail(MalformedAmount, ref) && exists currency :: UnreadMoney(money, currency) {
      var currency :| UnreadMoney(money, currency);
      var m :| m in money && m.currency == currency && !IsValidAmountText(m.amount);
      var i :| 0 <= i < |money| && money[i] == m;
      assert f in MalformedOf(ref)(money[i]);
    }
  }

  lemma {:induction false} ComparableMeans(settled: seq<Money>, receipted: seq<Money>, currency: string)
    ensures currency in Comparable(settled, receipted) ==>
      !UnreadMoney(settled, currency) && !UnreadMoney(receipted, currency)
    ensures currency !in Comparable(settled, receipted) ==>
      || UnreadMoney(settled, currency) || UnreadMoney(receipted, currency)
      || Total(settled, AmountIn(currency)) == 0 == Total(receipted, AmountIn(currency))
  {
    if currency !in CurrenciesOf(settled) { NoneTotalsNothing(settled, currency); }
    if currency !in CurrenciesOf(receipted) { NoneTotalsNothing(receipted, currency); }
  }

  /** The difference a repeated ref shows in a currency. */
  ghost predicate Differs(receipts: seq<Receipt>, rows: seq<Row>, ref: string, currency: string, f: Finding) {
    || (f == Fail(SettlementWithoutReceipt, ref) && SumsDiffer(receipts, rows, ref, currency, true))
    || (f == Fail(SettlementMismatch, ref) && SumsDiffer(receipts, rows, ref, currency, false))
  }

  lemma {:induction false} DifferenceSays(
      receipts: seq<Receipt>, rows: seq<Row>, ref: string, currency: string, f: Finding)
    ensures var settled, receipted := RowMoney(ref, rows), ReceiptMoney(ref, receipts);
      currency in Comparable(settled, receipted) && f in CompareOf(ref, settled, receipted)(currency) <==>
      Differs(receipts, rows, ref, currency, f)
  {
    ComparableMeans(RowMoney(ref, rows), ReceiptMoney(ref, receipts), currency);
    UnreadMeans(receipts, rows, ref, currency);
    SettledTotals(ref, rows, currency);
    ReceiptedTotals(ref, receipts, currency);
  }

  ghost predicate SaidOfRepeated(receipts: seq<Receipt>, rows: seq<Row>, ref: string, f: Finding) {
    || (f == Fail(MalformedAmount, ref) && exists currency :: Unread(receipts, rows, ref, currency))
    || exists currency :: Differs(receipts, rows, ref, currency, f)
  }

  lemma {:induction false} UnreadSays(receipts: seq<Receipt>, rows: seq<Row>, ref: string, f: Finding)
    ensures var rowsSay, receiptsSay :=
        Gather(RowMoney(ref, rows), MalformedOf(ref)), Gather(ReceiptMoney(ref, receipts), MalformedOf(ref));
      f in rowsSay + receiptsSay <==>
      f == Fail(MalformedAmount, ref) && exists currency :: Unread(receipts, rows, ref, currency)
  {
    var settled, receipted := RowMoney(ref, rows), ReceiptMoney(ref, receipts);
    MalformedSays(settled, ref, f);
    MalformedSays(receipted, ref, f);
    forall currency ensures Unread(receipts, rows, ref, currency) <==>
      UnreadMoney(settled, currency) || UnreadMoney(receipted, currency)
    {
      UnreadMeans(receipts, rows, ref, currency);
    }
  }

  lemma {:induction false} ComparisonSays(receipts: seq<Receipt>, rows: seq<Row>, ref: string, f: Finding)
    ensures var settled, receipted := RowMoney(ref, rows), ReceiptMoney(ref, receipts);
      f in GatherSet(Comparable(settled, receipted), CompareOf(ref, settled, receipted)) <==>
      exists currency :: Differs(receipts, rows, ref, currency, f)
  {
    var settled, receipted := RowMoney(ref, rows), ReceiptMoney(ref, receipts);
    SetGathers(Comparable(settled, receipted), CompareOf(ref, settled, receipted), f);
    forall currency
      ensures currency in Comparable(settled, receipted) && f in CompareOf(ref, settled, receipted)(currency) <==>
        Differs(receipts, rows, ref, currency, f)
    {
      DifferenceSays(receipts, rows, ref, currency, f);
    }
  }

  lemma {:induction false} RepeatedSays(receipts: seq<Receipt>, rows: seq<Row>, ref: string, f: Finding)
    ensures f in AggregateOf(receipts, rows)(ref) <==> SaidOfRepeated(receipts, rows, ref, f)
  {
    UnreadSays(receipts, rows, ref, f);
    ComparisonSays(receipts, rows, ref, f);
  }

  lemma {:induction false} RepeatedRefSays(
      receipts: seq<Receipt>, rows: seq<Row>, b: Option<Boundary>, ref: string, f: Finding)
    ensures var c := CtxOf(receipts, rows, b);
      ref in RepeatedIn(c.rowRefs) + RepeatedIn(c.receiptRefs) && f in AggregateOf(receipts, rows)(ref) <==>
        !Single(receipts, rows, ref) && SaidOfRepeated(receipts, rows, ref, f)
  {
    SkippedMeans(receipts, rows, b, ref);
    RepeatedSays(receipts, rows, ref, f);
  }

  lemma {:induction false} AggregatesSay(receipts: seq<Receipt>, rows: seq<Row>, b: Option<Boundary>, f: Finding)
    ensures var c := CtxOf(receipts, rows, b);
      f in GatherSet(RepeatedIn(c.rowRefs) + RepeatedIn(c.receiptRefs), AggregateOf(receipts, rows)) <==>
      exists ref :: !Single(receipts, rows, ref) && SaidOfRepeated(receipts, rows, ref, f)
  {
    var c := CtxOf(receipts, rows, b);
    var refs := RepeatedIn(c.rowRefs) + RepeatedIn(c.receiptRefs);
    SetGathers(refs, AggregateOf(receipts, rows), f);
    forall ref
      ensures ref in refs && f in AggregateOf(receipts, rows)(ref) <==>
        !Single(receipts, rows, ref) && SaidOfRepeated(receipts, rows, ref, f)
    {
      RepeatedRefSays(receipts, rows, b, ref, f);
    }
  }

  lemma {:induction false} DuplicatesSay(rows: seq<Row>, f: Finding)
    ensures f in GatherSet(RepeatedIn(Gather(rows, RowRefOf())), DuplicateOf()) <==>
      f == Fail(DuplicateRef, f.id) && TwiceRowed(rows, f.id)
  {
    var refs := RepeatedIn(Gather(rows, RowRefOf()));
    SetGathers(refs, DuplicateOf(), f);
    forall ref ensures ref in refs <==> TwiceRowed(rows, ref) { RowRefCount(rows, ref); }
  }

  // ---------------------------------------------------------------------- all of it

  /** What a window says is said of its rows' refs, its repeated refs, its rows, its pairs and its receipts. */
  ghost predicate SaidSomewhere(receipts: seq<Receipt>, rows: seq<Row>, b: Option<Boundary>, f: Finding) {
    || (f == Fail(DuplicateRef, f.id) && TwiceRowed(rows, f.id))
    || (exists ref :: !Single(receipts, rows, ref) && SaidOfRepeated(receipts, rows, ref, f))
    || (exists s :: SaidOfRow(receipts, rows, b, s, f))
    || (exists r, s :: SaidOfPair(receipts, rows, r, s, f))
    || (exists r :: SaidOfReceipt(receipts, rows, b, r, f))
  }

  lemma {:induction false} BagSays(receipts: seq<Receipt>, rows: seq<Row>, b: Option<Boundary>, f: Finding)
    ensures f in FindingBag(receipts, rows, b) <==> SaidSomewhere(receipts, rows, b, f)
  {
    DuplicatesSay(rows, f);
    AggregatesSay(receipts, rows, b, f);
    RowsSay(receipts, rows, b, f);
    PairsSay(receipts, rows, b, f);
    ReceiptsSay(receipts, rows, b, f);
  }

  lemma {:induction false} SomewhereIsSaid(receipts: seq<Receipt>, rows: seq<Row>, b: Option<Boundary>, f: Finding)
    requires SaidSomewhere(receipts, rows, b, f)
    ensures Says(receipts, rows, b, f)
  {
    if ref :| !Single(receipts, rows, ref) && SaidOfRepeated(receipts, rows, ref, f) {
      if currency :| Differs(receipts, rows, ref, currency, f) { }
    } else if s :| SaidOfRow(receipts, rows, b, s, f) {
    } else if r, s :| SaidOfPair(receipts, rows, r, s, f) {
    } else if r :| SaidOfReceipt(receipts, rows, b, r, f) {
    }
  }

  lemma {:induction false} SaidIsSomewhere(receipts: seq<Receipt>, rows: seq<Row>, b: Option<Boundary>, f: Finding)
    requires Says(receipts, rows, b, f)
    ensures SaidSomewhere(receipts, rows, b, f)
  {
    if f.warn {
      match f.needs
      case Receipts =>
        var s :| Unclaimed(receipts, rows, s) && s.ref == f.id
          && (NearStart(b, s.timestampMs) || NearEnd(b, s.timestampMs));
        assert SaidOfRow(receipts, rows, b, s, f);
      case NextExtract =>
        var r :| Unanswered(receipts, rows, b, r) && r.nonce == f.id && Waits(b, r) && NearEnd(b, r.timestampMs);
        assert SaidOfReceipt(receipts, rows, b, r, f);
      case PreviousExtract =>
        var r :| Unanswered(receipts, rows, b, r) && r.nonce == f.id && Waits(b, r) && !NearEnd(b, r.timestampMs);
        assert SaidOfReceipt(receipts, rows, b, r, f);
    } else {
      FailIsSomewhere(receipts, rows, b, f);
    }
  }

  lemma {:induction false} FailIsSomewhere(receipts: seq<Receipt>, rows: seq<Row>, b: Option<Boundary>, f: Finding)
    requires f == Fail(f.code, f.id) && Fails(receipts, rows, b, f.code, f.id)
    ensures SaidSomewhere(receipts, rows, b, f)
  {
    match f.code
    case ReceiptWithoutSettlement =>
      var r :| Unanswered(receipts, rows, b, r) && r.nonce == f.id && !Waits(b, r);
      assert SaidOfReceipt(receipts, rows, b, r, f);
    case SettlementWithoutReceipt =>
      if currency :| !Single(receipts, rows, f.id) && SumsDiffer(receipts, rows, f.id, currency, true) {
        assert Differs(receipts, rows, f.id, currency, f);
      } else {
        var s :| Unclaimed(receipts, rows, s) && s.ref == f.id && !NearStart(b, s.timestampMs)
          && !NearEnd(b, s.timestampMs);
        assert SaidOfRow(receipts, rows, b, s, f);
      }
    case SettlementMismatch =>
      if currency :| !Single(receipts, rows, f.id) && SumsDiffer(receipts, rows, f.id, currency, false) {
        assert Differs(receipts, rows, f.id, currency, f);
      } else {
        var r, s :| Paired(receipts, rows, r, s) && s.ref == f.id
          && !(r.amount == s.amount && r.currency == s.currency);
        assert SaidOfPair(receipts, rows, r, s, f);
      }
    case BeneficiaryMismatch =>
      var r, s :| Paired(receipts, rows, r, s) && s.ref == f.id && s.beneficiary.Some?
        && s.beneficiary.value != r.payee;
      assert SaidOfPair(receipts, rows, r, s, f);
    case DuplicateRef =>
    case MalformedAmount =>
      assert SaidOfRepeated(receipts, rows, f.id, f);
  }

  /** The reconciliation of a window says exactly what the reference says, no finding more and none less. */
  lemma {:induction false} WindowSaysExactly(receipts: seq<Receipt>, rows: seq<Row>, b: Option<Boundary>, f: Finding)
    ensures f in FindingBag(receipts, rows, b) <==> Says(receipts, rows, b, f)
  {
    BagSays(receipts, rows, b, f);
    if SaidSomewhere(receipts, rows, b, f) { SomewhereIsSaid(receipts, rows, b, f); }
    if Says(receipts, rows, b, f) { SaidIsSomewhere(receipts, rows, b, f); }
  }

  // ------------------------------------------------------- classes, and what is handed on

  /** A lone receipt that an extract next door answers for, at this edge. */
  ghost predicate CarriedAt(
      receipts: seq<Receipt>, rows: seq<Row>, b: Option<Boundary>, r: Receipt, ref: string, edge: Edge)
  {
    && r in receipts && r.settled && r.ref == Some(ref) && !TwiceReceipted(receipts, ref) && !Rowed(rows, ref)
    && if edge == Opening then CarriedBack(b, r) else CarriedOn(b, r) && !CarriedBack(b, r)
  }

  lemma {:induction false} CarriedAtMeans(
      receipts: seq<Receipt>, rows: seq<Row>, b: Option<Boundary>, r: Receipt, ref: string, edge: Edge)
    requires r in receipts
    ensures ReceiptStanding(receipts, rows, b, r) == Carried(edge) && r.ref == Some(ref) <==>
      CarriedAt(receipts, rows, b, r, ref, edge)
  {
    RowedTwiceIsRowed(rows, ref);
  }

  lemma {:induction false} CarriedOfMeans(
      receipts: seq<Receipt>, rows: seq<Row>, b: Option<Boundary>, r: Receipt, ref: string, edge: Edge)
    requires r in receipts
    ensures EdgeRef(ref, edge) in CarriedOf(CtxOf(receipts, rows, b))(r) <==> CarriedAt(receipts, rows, b, r, ref, edge)
  {
    ReceiptClassExactly(receipts, rows, b, r);
    CarriedAtMeans(receipts, rows, b, r, ref, edge);
  }

  lemma {:induction false} CarriedExactly(
      receipts: seq<Receipt>, rows: seq<Row>, b: Option<Boundary>, ref: string, edge: Edge)
    ensures EdgeRef(ref, edge) in Gather(receipts, CarriedOf(CtxOf(receipts, rows, b))) <==>
      exists r :: CarriedAt(receipts, rows, b, r, ref, edge)
  {
    var g := CarriedOf(CtxOf(receipts, rows, b));
    GatherMember(receipts, g, EdgeRef(ref, edge));
    forall r | r in receipts ensures EdgeRef(ref, edge) in g(r) <==> CarriedAt(receipts, rows, b, r, ref, edge) {
      CarriedOfMeans(receipts, rows, b, r, ref, edge);
    }
    if r :| CarriedAt(receipts, rows, b, r, ref, edge) {
      var i :| 0 <= i < |receipts| && receipts[i] == r;
      assert EdgeRef(ref, edge) in g(receipts[i]);
    }
  }

  /** A lone row near an edge, waiting there. */
  ghost predicate WaitsAt(receipts: seq<Receipt>, rows: seq<Row>, b: Option<Boundary>, s: Row, d: DeferredRow) {
    && Unclaimed(receipts, rows, s) && s.ref == d.ref && (d.opening || d.closing)
    && d.opening == NearStart(b, s.timestampMs) && d.closing == NearEnd(b, s.timestampMs)
  }

  lemma {:induction false} WaitsAtMeans(
      receipts: seq<Receipt>, rows: seq<Row>, b: Option<Boundary>, s: Row, d: DeferredRow)
    requires s in rows
    ensures RowStanding(receipts, rows, b, s) == RowDeferred(d.opening, d.closing) && s.ref == d.ref <==>
      WaitsAt(receipts, rows, b, s, d)
  {
    ReceiptedTwiceIsReceipted(receipts, s.ref);
  }

  lemma {:induction false} DeferredOfMeans(
      receipts: seq<Receipt>, rows: seq<Row>, b: Option<Boundary>, s: Row, d: DeferredRow)
    requires s in rows
    ensures d in DeferredOf(CtxOf(receipts, rows, b))(s) <==> WaitsAt(receipts, rows, b, s, d)
  {
    RowClassExactly(receipts, rows, b, s);
    WaitsAtMeans(receipts, rows, b, s, d);
  }

  lemma {:induction false} DeferredExactly(receipts: seq<Receipt>, rows: seq<Row>, b: Option<Boundary>, d: DeferredRow)
    ensures d in Gather(rows, DeferredOf(CtxOf(receipts, rows, b))) <==> exists s :: WaitsAt(receipts, rows, b, s, d)
  {
    var g := DeferredOf(CtxOf(receipts, rows, b));
    GatherMember(rows, g, d);
    forall s | s in rows ensures d in g(s) <==> WaitsAt(receipts, rows, b, s, d) {
      DeferredOfMeans(receipts, rows, b, s, d);
    }
    if s :| WaitsAt(receipts, rows, b, s, d) {
      var i :| 0 <= i < |rows| && rows[i] == s;
      assert d in g(rows[i]);
    }
  }

  lemma {:induction false} MatchedExactly(receipts: seq<Receipt>, rows: seq<Row>, b: Option<Boundary>, ref: string)
    ensures ref in Gather(rows, MatchedOf(CtxOf(receipts, rows, b))) <==>
      Single(receipts, rows, ref) && Receipted(receipts, ref) && Rowed(rows, ref)
  {
    MatchedSidesAgree(receipts, rows, b);
    ReceiptRefCount(receipts, ref);
    RowRefCount(rows, ref);
  }

  // -------------------------------------------------------------------------- the counts

  /** How many of some receipts of the window stand so. */
  ghost function ReceiptsThat(
      receipts: seq<Receipt>, rows: seq<Row>, b: Option<Boundary>, some: seq<Receipt>, k: ReceiptClass): nat
  {
    if some == [] then 0
    else
      ReceiptsThat(receipts, rows, b, some[..|some| - 1], k)
      + if ReceiptStanding(receipts, rows, b, some[|some| - 1]) == k then 1 else 0
  }

  ghost function RowsThat(
      receipts: seq<Receipt>, rows: seq<Row>, b: Option<Boundary>, some: seq<Row>, k: RowClass): nat {
    if some == [] then 0
    else
      RowsThat(receipts, rows, b, some[..|some| - 1], k)
      + if RowStanding(receipts, rows, b, some[|some| - 1]) == k then 1 else 0
  }

  lemma {:induction false} ReceiptsCounted(
      receipts: seq<Receipt>, rows: seq<Row>, b: Option<Boundary>, some: seq<Receipt>, k: ReceiptClass)
    requires forall r :: r in some ==> r in receipts
    ensures Gather(some, ReceiptClassOf(CtxOf(receipts, rows, b)))[k] == ReceiptsThat(receipts, rows, b, some, k)
  {
    if some != [] {
      var r := some[|some| - 1];
      ReceiptsCounted(receipts, rows, b, some[..|some| - 1], k);
      assert r in some;
      ReceiptClassExactly(receipts, rows, b, r);
    }
  }

  lemma {:induction false} RowsCounted(
      receipts: seq<Receipt>, rows: seq<Row>, b: Option<Boundary>, some: seq<Row>, k: RowClass)
    ensures Gather(some, RowClassOf(CtxOf(receipts, rows, b)))[k] == RowsThat(receipts, rows, b, some, k)
  {
    if some != [] {
      RowsCounted(receipts, rows, b, some[..|some| - 1], k);
      RowClassExactly(receipts, rows, b, some[|some| - 1]);
    }
  }

  /** The counts of a window are the numbers of receipts and rows that stand so. */
  lemma {:induction false} ReceiptCountsExactly(
      out: C.Outcome, receipts: seq<Receipt>, rows: seq<Row>, b: Option<Boundary>)
    requires C.Answers(out, receipts, rows, b)
    ensures out.receipts.aborted == ReceiptsThat(receipts, rows, b, receipts, Aborted)
    ensures out.receipts.matched == ReceiptsThat(receipts, rows, b, receipts, Matched)
    ensures out.receipts.repeated == ReceiptsThat(receipts, rows, b, receipts, Repeated)
    ensures out.receipts.unmatched ==
      ReceiptsThat(receipts, rows, b, receipts, Refless) + ReceiptsThat(receipts, rows, b, receipts, Uncovered)
    ensures out.receipts.carried ==
      ReceiptsThat(receipts, rows, b, receipts, Carried(Opening))
        + ReceiptsThat(receipts, rows, b, receipts, Carried(Closing))
    ensures out.receipts.deferred ==
      ReceiptsThat(receipts, rows, b, receipts, Deferred(Opening))
        + ReceiptsThat(receipts, rows, b, receipts, Deferred(Closing))
  {
    forall k
      ensures Gather(receipts, ReceiptClassOf(CtxOf(receipts, rows, b)))[k]
        == ReceiptsThat(receipts, rows, b, receipts, k)
    {
      ReceiptsCounted(receipts, rows, b, receipts, k);
    }
  }

  lemma {:induction false} RowCountsExactly(out: C.Outcome, receipts: seq<Receipt>, rows: seq<Row>, b: Option<Boundary>)
    requires C.Answers(out, receipts, rows, b)
    ensures out.rows.matched == RowsThat(receipts, rows, b, rows, RowMatched)
    ensures out.rows.repeated == RowsThat(receipts, rows, b, rows, RowRepeated)
    ensures out.rows.unmatched == RowsThat(receipts, rows, b, rows, RowUncovered)
    ensures out.rows.deferred == RowsThat(receipts, rows, b, rows, RowDeferred(true, true))
      + RowsThat(receipts, rows, b, rows, RowDeferred(true, false))
        + RowsThat(receipts, rows, b, rows, RowDeferred(false, true))
  {
    forall k ensures Gather(rows, RowClassOf(CtxOf(receipts, rows, b)))[k] == RowsThat(receipts, rows, b, rows, k) {
      RowsCounted(receipts, rows, b, rows, k);
    }
  }
}
