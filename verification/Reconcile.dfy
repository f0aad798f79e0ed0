/** Which class every settled receipt and every settlement row falls in, and what is said
    of it. Everything here is stated on bags: presentation order cannot matter. */
module Reconcile {
  import opened Options
  import opened Records
  import opened Bags

  datatype Code =
    | DuplicateRef | MalformedAmount | SettlementWithoutReceipt | ReceiptWithoutSettlement
    | SettlementMismatch | BeneficiaryMismatch | BoundaryDeferred | SettledWithoutRef
    | ExtractScopeMismatch | ExtractSettlementMismatch | ExtractKeyMismatch
    | TrustKeyUnreadable | IssuerKeyMismatch | ManifestKeyMismatch
    | UnauthenticatedExtract | UnauthenticatedIssuer | UnstatedAuditWindow | UnstatedAuditScope
    | SettlementComparisonSkipped | CounterpartyUnbound | OtherCode(name: string)

  /** What evidence would settle a deferral. */
  datatype Needs = Nothing | Receipts | PreviousExtract | NextExtract

  datatype Finding = Finding(code: Code, id: string, warn: bool, needs: Needs)

  function Fail(code: Code, id: string): Finding { Finding(code, id, false, Nothing) }

  function Warn(code: Code, id: string): Finding { Finding(code, id, true, Nothing) }

  datatype Edge = Opening | Closing

  /** The adjacent extract at one edge: its in-window rows, and its own end or start. */
  datatype Neighbour = Neighbour(rows: seq<Row>, edgeMs: int)

  datatype Boundary = Boundary(
    startMs: int, endMs: int, skewMs: int, prev: Option<Neighbour>, next: Option<Neighbour>)

  /** All that the class of one receipt or row depends on besides itself. */
  datatype Ctx = Ctx(receiptRefs: multiset<string>, rowRefs: multiset<string>, b: Option<Boundary>)

  datatype ReceiptClass =
    | Aborted | Refless | Repeated | Matched | Carried(edge: Edge) | Deferred(at: Edge) | Uncovered

  datatype RowClass = RowRepeated | RowMatched | RowDeferred(opening: bool, closing: bool) | RowUncovered

  datatype EdgeRef = EdgeRef(ref: string, edge: Edge)

  datatype DeferredRow = DeferredRow(ref: string, opening: bool, closing: bool)

  // ------------------------------------------------------------------ edge bands

  /** Within the allowance of the opening edge. */
  predicate NearOpen(b: Option<Boundary>, ts: int) { b.Some? && ts < b.value.startMs + b.value.skewMs }

  predicate NearClose(b: Option<Boundary>, ts: int) { b.Some? && ts >= b.value.endMs - b.value.skewMs }

  predicate SameTerms(r: Receipt, s: Row) { r.amount == s.amount && r.currency == s.currency }

  /** The band of an adjacent extract that faces this window. */
  predicate Facing(edge: Edge, s: Row, edgeMs: int, skewMs: int) {
    match edge
    case Opening => s.timestampMs >= edgeMs - skewMs
    case Closing => s.timestampMs < edgeMs + skewMs
  }

  predicate NamesAt(n: Neighbour, i: nat, r: Receipt, edge: Edge, skewMs: int)
    requires i < |n.rows|
  {
    r.ref == Some(n.rows[i].ref) && Facing(edge, n.rows[i], n.edgeMs, skewMs) && SameTerms(r, n.rows[i])
  }

  /** The adjacent extract names the receipt by ref, in the facing band, on its own terms. */
  predicate Names(n: Option<Neighbour>, r: Receipt, edge: Edge, skewMs: int) {
    n.Some? && exists i :: 0 <= i < |n.value.rows| && NamesAt(n.value, i, r, edge, skewMs)
  }

  // --------------------------------------------------------------------- classes

  /** A settled receipt without a row of its own in this window. */
  function EdgeClass(b: Option<Boundary>, r: Receipt): ReceiptClass {
    var open, close := NearOpen(b, r.timestampMs), NearClose(b, r.timestampMs);
    if b.None? then Uncovered
    else if open && Names(b.value.prev, r, Opening, b.value.skewMs) then Carried(Opening)
    else if close && Names(b.value.next, r, Closing, b.value.skewMs) then Carried(Closing)
    else if (close && b.value.next.Some?) || (open && b.value.prev.Some?) then Uncovered
    else if close then Deferred(Closing)
    else if open then Deferred(Opening)
    else Uncovered
  }

  predicate SkipRef(c: Ctx, ref: string) { c.receiptRefs[ref] > 1 || c.rowRefs[ref] > 1 }

  function ClassOfReceipt(c: Ctx, r: Receipt): ReceiptClass {
    if !r.settled then Aborted
    else if r.ref.None? then Refless
    else if SkipRef(c, r.ref.value) then Repeated
    else if r.ref.value in c.rowRefs then Matched
    else EdgeClass(c.b, r)
  }

  function ClassOfRow(c: Ctx, s: Row): RowClass {
    var open, close := NearOpen(c.b, s.timestampMs), NearClose(c.b, s.timestampMs);
    if SkipRef(c, s.ref) then RowRepeated
    else if s.ref in c.receiptRefs then RowMatched
    else if open || close then RowDeferred(open, close)
    else RowUncovered
  }

  // --------------------------------------------------------- what each one gives

  ghost function RefOf(): Receipt -> multiset<string> {
    (r: Receipt) => if r.settled && r.ref.Some? then multiset{r.ref.value} else multiset{}
  }

  ghost function RowRefOf(): Row -> multiset<string> { (s: Row) => multiset{s.ref} }

  ghost function CtxOf(receipts: seq<Receipt>, rows: seq<Row>, b: Option<Boundary>): Ctx {
    Ctx(Gather(receipts, RefOf()), Gather(rows, RowRefOf()), b)
  }

  ghost function ReceiptClassOf(c: Ctx): Receipt -> multiset<ReceiptClass> {
    (r: Receipt) => multiset{ClassOfReceipt(c, r)}
  }

  ghost function RowClassOf(c: Ctx): Row -> multiset<RowClass> { (s: Row) => multiset{ClassOfRow(c, s)} }

  /** What is said of a receipt of a class. */
  function ClassFindings(r: Receipt, k: ReceiptClass): seq<Finding> {
    match k
    case Deferred(e) =>
      [Finding(BoundaryDeferred, r.nonce, true, if e == Closing then NextExtract else PreviousExtract)]
    case Uncovered => [Fail(ReceiptWithoutSettlement, r.nonce)]
    case _ => []
  }

  function ReceiptFindings(c: Ctx, r: Receipt): seq<Finding> { ClassFindings(r, ClassOfReceipt(c, r)) }

  function RowFindings(c: Ctx, s: Row): seq<Finding> {
    match ClassOfRow(c, s)
    case RowDeferred(_, _) => [Finding(BoundaryDeferred, s.ref, true, Receipts)]
    case RowUncovered => [Fail(SettlementWithoutReceipt, s.ref)]
    case _ => []
  }

  /** A matched pair must agree on amount and currency, and on the payee when the row names one. */
  function PairFindings(r: Receipt, s: Row): seq<Finding> {
    (if SameTerms(r, s) then [] else [Fail(SettlementMismatch, s.ref)])
    + (if s.beneficiary.Some? && s.beneficiary.value != r.payee then [Fail(BeneficiaryMismatch, s.ref)] else [])
  }

  ghost function ReceiptFindingOf(c: Ctx): Receipt -> multiset<Finding> {
    (r: Receipt) => multiset(ReceiptFindings(c, r))
  }

  ghost function RowFindingOf(c: Ctx): Row -> multiset<Finding> { (s: Row) => multiset(RowFindings(c, s)) }

  predicate HasRef(r: Receipt, ref: string) { r.settled && r.ref == Some(ref) }

  ghost function PairedWith(s: Row): Receipt -> multiset<Finding> {
    (r: Receipt) => if HasRef(r, s.ref) then multiset(PairFindings(r, s)) else multiset{}
  }

  ghost function PairFindingOf(c: Ctx, receipts: seq<Receipt>): Row -> multiset<Finding> {
    (s: Row) => if ClassOfRow(c, s) == RowMatched then Gather(receipts, PairedWith(s)) else multiset{}
  }

  ghost function CarriedOf(c: Ctx): Receipt -> multiset<EdgeRef> {
    (r: Receipt) =>
      if ClassOfReceipt(c, r).Carried? then multiset{EdgeRef(RefText(r), ClassOfReceipt(c, r).edge)} else multiset{}
  }

  function RefText(r: Receipt): string { if r.ref.Some? then r.ref.value else "" }

  ghost function DeferredOf(c: Ctx): Row -> multiset<DeferredRow> {
    (s: Row) => match ClassOfRow(c, s)
      case RowDeferred(open, close) => multiset{DeferredRow(s.ref, open, close)}
      case _ => multiset{}
  }

  ghost function MatchedOf(c: Ctx): Row -> multiset<string> {
    (s: Row) => if ClassOfRow(c, s) == RowMatched then multiset{s.ref} else multiset{}
  }

  ghost function MatchedReceiptOf(c: Ctx): Receipt -> multiset<string> {
    (r: Receipt) => if ClassOfReceipt(c, r) == Matched then multiset{RefText(r)} else multiset{}
  }

  // --------------------------------------------------- repeated refs, in aggregate

  ghost function DuplicateOf(): string -> multiset<Finding> { (ref: string) => multiset{Fail(DuplicateRef, ref)} }

  ghost function RepeatedIn(refs: multiset<string>): set<string> { set ref | ref in refs && refs[ref] > 1 }

  /** What one record says was paid. */
  datatype Money = Money(currency: string, amount: string)

  function RowMoney(ref: string, rows: seq<Row>): seq<Money> {
    if rows == [] then [] else
    var s := rows[|rows| - 1];
    RowMoney(ref, rows[..|rows| - 1]) + if s.ref == ref then [Money(s.currency, s.amount)] else []
  }

  function ReceiptMoney(ref: string, receipts: seq<Receipt>): seq<Money> {
    if receipts == [] then [] else
    var r := receipts[|receipts| - 1];
    ReceiptMoney(ref, receipts[..|receipts| - 1]) + if HasRef(r, ref) then [Money(r.currency, r.amount)] else []
  }

  ghost function MalformedOf(ref: string): Money -> multiset<Finding> {
    (m: Money) => if IsValidAmountText(m.amount) then multiset{} else multiset{Fail(MalformedAmount, ref)}
  }

  ghost function AmountIn(currency: string): Money -> int {
    (m: Money) => if m.currency == currency && IsValidAmountText(m.amount) then ParseAmount(m.amount) else 0
  }

  function CurrenciesOf(money: seq<Money>): set<string> { set m | m in money :: m.currency }

  /** Currencies in which some amount cannot be read. */
  function UnreadableIn(money: seq<Money>): set<string> {
    set m | m in money && !IsValidAmountText(m.amount) :: m.currency
  }

  ghost function CompareOf(ref: string, settled: seq<Money>, receipted: seq<Money>): string -> multiset<Finding> {
    (currency: string) =>
      var x, y := Total(settled, AmountIn(currency)), Total(receipted, AmountIn(currency));
      if x > y then multiset{Fail(SettlementWithoutReceipt, ref)}
      else if x < y then multiset{Fail(SettlementMismatch, ref)}
      else multiset{}
  }

  ghost function Comparable(settled: seq<Money>, receipted: seq<Money>): set<string> {
    CurrenciesOf(settled) + CurrenciesOf(receipted) - (UnreadableIn(settled) + UnreadableIn(receipted))
  }

  /** The sums settled and receipted are compared, currency by currency; an amount nobody
      can read is said, and makes that currency's sum unknown. */
  ghost function AggregateBag(ref: string, settled: seq<Money>, receipted: seq<Money>): multiset<Finding> {
    Gather(settled, MalformedOf(ref)) + Gather(receipted, MalformedOf(ref))
    + GatherSet(Comparable(settled, receipted), CompareOf(ref, settled, receipted))
  }

  ghost function AggregateOf(receipts: seq<Receipt>, rows: seq<Row>): string -> multiset<Finding> {
    (ref: string) => AggregateBag(ref, RowMoney(ref, rows), ReceiptMoney(ref, receipts))
  }

  /** Everything the reconciliation says of a window. */
  ghost function FindingBag(receipts: seq<Receipt>, rows: seq<Row>, b: Option<Boundary>): multiset<Finding> {
    var c := CtxOf(receipts, rows, b);
    GatherSet(RepeatedIn(c.rowRefs), DuplicateOf())
    + GatherSet(RepeatedIn(c.rowRefs) + RepeatedIn(c.receiptRefs), AggregateOf(receipts, rows))
    + Gather(rows, RowFindingOf(c)) + Gather(rows, PairFindingOf(c, receipts))
    + Gather(receipts, ReceiptFindingOf(c))
  }

  // --------------------------------------------------------- conservation of classes

  /** Every receipt is in exactly one class: the class counts add up to the receipts. */
  lemma {:induction false} ReceiptClassesAddUp(receipts: seq<Receipt>, c: Ctx)
    ensures var k := Gather(receipts, ReceiptClassOf(c));
      |receipts| == k[Aborted] + k[Refless] + k[Repeated] + k[Matched] + k[Carried(Opening)] + k[Carried(Closing)]
        + k[Deferred(Opening)] + k[Deferred(Closing)] + k[Uncovered]
  {
    if receipts != [] {
      var init, last := receipts[..|receipts| - 1], receipts[|receipts| - 1];
      ReceiptClassesAddUp(init, c);
      var was := Gather(init, ReceiptClassOf(c));
      assert Gather(receipts, ReceiptClassOf(c)) == was + multiset{ClassOfReceipt(c, last)};
    }
  }

  lemma {:induction false} RowClassesAddUp(rows: seq<Row>, c: Ctx)
    ensures var k := Gather(rows, RowClassOf(c));
      |rows| == k[RowRepeated] + k[RowMatched] + k[RowUncovered] + k[RowDeferred(true, true)]
        + k[RowDeferred(true, false)] + k[RowDeferred(false, true)]
  {
    if rows != [] {
      var init, last := rows[..|rows| - 1], rows[|rows| - 1];
      RowClassesAddUp(init, c);
      var was := Gather(init, RowClassOf(c));
      assert Gather(rows, RowClassOf(c)) == was + multiset{ClassOfRow(c, last)};
    }
  }

  /** A ref gathered under a condition on the ref alone. */
  lemma {:induction false} GatherWhere<T>(
      s: seq<T>, f: T -> multiset<string>, g: T -> multiset<string>, u: string, keep: bool)
    requires forall i :: 0 <= i < |s| ==> g(s[i])[u] == if keep then f(s[i])[u] else 0
    ensures Gather(s, g)[u] == if keep then Gather(s, f)[u] else 0
  {
    if s != [] {
      var init := s[..|s| - 1];
      assert forall i :: 0 <= i < |init| ==> init[i] == s[i];
      GatherWhere(init, f, g, u, keep);
    }
  }

  /** The refs matched on the receipt side are the refs matched on the row side, each once. */
  lemma {:induction false} MatchedSidesAgree(receipts: seq<Receipt>, rows: seq<Row>, b: Option<Boundary>)
    ensures var c := CtxOf(receipts, rows, b);
      && Gather(receipts, MatchedReceiptOf(c)) == Gather(rows, MatchedOf(c))
      && forall u :: Gather(rows, MatchedOf(c))[u] == if c.receiptRefs[u] == 1 && c.rowRefs[u] == 1 then 1 else 0
  {
    var c := CtxOf(receipts, rows, b);
    forall u
      ensures Gather(receipts, MatchedReceiptOf(c))[u] == Gather(rows, MatchedOf(c))[u]
        == if c.receiptRefs[u] == 1 && c.rowRefs[u] == 1 then 1 else 0
    {
      MatchedReceiptAt(receipts, c, u);
      MatchedRowAt(rows, c, u);
    }
    assert Gather(receipts, MatchedReceiptOf(c)) == Gather(rows, MatchedOf(c));
  }

  lemma {:induction false} MatchedReceiptAt(receipts: seq<Receipt>, c: Ctx, u: string)
    requires c.receiptRefs == Gather(receipts, RefOf())
    ensures Gather(receipts, MatchedReceiptOf(c))[u] == if c.receiptRefs[u] == 1 && c.rowRefs[u] == 1 then 1 else 0
  {
    var keep := c.receiptRefs[u] == 1 && c.rowRefs[u] == 1;
    forall i | 0 <= i < |receipts|
      ensures MatchedReceiptOf(c)(receipts[i])[u] == if keep then RefOf()(receipts[i])[u] else 0
    {
      if HasRef(receipts[i], u) {
        RefCounted(receipts, i);
      }
    }
    GatherWhere(receipts, RefOf(), MatchedReceiptOf(c), u, keep);
  }

  lemma {:induction false} MatchedRowAt(rows: seq<Row>, c: Ctx, u: string)
    requires c.rowRefs == Gather(rows, RowRefOf())
    ensures Gather(rows, MatchedOf(c))[u] == if c.receiptRefs[u] == 1 && c.rowRefs[u] == 1 then 1 else 0
  {
    var keep := c.receiptRefs[u] == 1 && c.rowRefs[u] == 1;
    forall i | 0 <= i < |rows|
      ensures MatchedOf(c)(rows[i])[u] == if keep then RowRefOf()(rows[i])[u] else 0
    {
      if rows[i].ref == u {
        RowRefCounted(rows, i);
      }
    }
    GatherWhere(rows, RowRefOf(), MatchedOf(c), u, keep);
  }

  lemma {:induction false} RefCounted(receipts: seq<Receipt>, i: nat)
    requires i < |receipts| && receipts[i].settled && receipts[i].ref.Some?
    ensures Gather(receipts, RefOf())[receipts[i].ref.value] >= 1
  {
    GatherRemove(receipts, i, RefOf());
  }

  lemma {:induction false} RowRefCounted(rows: seq<Row>, i: nat)
    requires i < |rows|
    ensures Gather(rows, RowRefOf())[rows[i].ref] >= 1
  {
    GatherRemove(rows, i, RowRefOf());
  }

  /** Equally many receipts and rows are matched. */
  lemma {:induction false} MatchCountsAgree(receipts: seq<Receipt>, rows: seq<Row>, b: Option<Boundary>)
    ensures var c := CtxOf(receipts, rows, b);
      Gather(receipts, ReceiptClassOf(c))[Matched] == Gather(rows, RowClassOf(c))[RowMatched]
        == |Gather(rows, MatchedOf(c))|
  {
    var c := CtxOf(receipts, rows, b);
    MatchedSidesAgree(receipts, rows, b);
    MatchedReceiptCount(receipts, c);
    MatchedRowCount(rows, c);
  }

  lemma {:induction false} MatchedReceiptCount(receipts: seq<Receipt>, c: Ctx)
    ensures Gather(receipts, ReceiptClassOf(c))[Matched] == |Gather(receipts, MatchedReceiptOf(c))|
  {
    if receipts != [] {
      MatchedReceiptCount(receipts[..|receipts| - 1], c);
    }
  }

  lemma {:induction false} MatchedRowCount(rows: seq<Row>, c: Ctx)
    ensures Gather(rows, RowClassOf(c))[RowMatched] == |Gather(rows, MatchedOf(c))|
  {
    if rows != [] {
      MatchedRowCount(rows[..|rows| - 1], c);
    }
  }

  // ------------------------------------------------------- presentation order is idle

  /** Shuffling receipts and rows changes no class count, no finding, no carried or deferred
      entry and no match. */
  lemma {:induction false} OrderIsIdle(
      receipts: seq<Receipt>, receipts': seq<Receipt>, rows: seq<Row>, rows': seq<Row>, b: Option<Boundary>)
    requires multiset(receipts) == multiset(receipts') && multiset(rows) == multiset(rows')
    ensures CtxOf(receipts, rows, b) == CtxOf(receipts', rows', b)
    ensures FindingBag(receipts, rows, b) == FindingBag(receipts', rows', b)
    ensures var c := CtxOf(receipts, rows, b);
      && Gather(receipts, ReceiptClassOf(c)) == Gather(receipts', ReceiptClassOf(c))
      && Gather(rows, RowClassOf(c)) == Gather(rows', RowClassOf(c))
      && Gather(receipts, CarriedOf(c)) == Gather(receipts', CarriedOf(c))
      && Gather(rows, DeferredOf(c)) == Gather(rows', DeferredOf(c))
      && Gather(rows, MatchedOf(c)) == Gather(rows', MatchedOf(c))
  {
    GatherPermuted(receipts, receipts', RefOf());
    GatherPermuted(rows, rows', RowRefOf());
    var c := CtxOf(receipts, rows, b);
    GatherPermuted(receipts, receipts', ReceiptClassOf(c));
    GatherPermuted(rows, rows', RowClassOf(c));
    GatherPermuted(receipts, receipts', CarriedOf(c));
    GatherPermuted(rows, rows', DeferredOf(c));
    GatherPermuted(rows, rows', MatchedOf(c));
    FindingsPermuted(receipts, receipts', rows, rows', c);
    AggregatesPermuted(receipts, receipts', rows, rows', RepeatedIn(c.rowRefs) + RepeatedIn(c.receiptRefs));
  }

  lemma {:induction false} FindingsPermuted(
      receipts: seq<Receipt>, receipts': seq<Receipt>, rows: seq<Row>, rows': seq<Row>, c: Ctx)
    requires multiset(receipts) == multiset(receipts') && multiset(rows) == multiset(rows')
    ensures Gather(receipts, ReceiptFindingOf(c)) == Gather(receipts', ReceiptFindingOf(c))
    ensures Gather(rows, RowFindingOf(c)) == Gather(rows', RowFindingOf(c))
    ensures Gather(rows, PairFindingOf(c, receipts)) == Gather(rows', PairFindingOf(c, receipts'))
  {
    GatherPermuted(receipts, receipts', ReceiptFindingOf(c));
    GatherPermuted(rows, rows', RowFindingOf(c));
    GatherPermuted(rows, rows', PairFindingOf(c, receipts));
    forall i | 0 <= i < |rows'| ensures PairFindingOf(c, receipts)(rows'[i]) == PairFindingOf(c, receipts')(rows'[i]) {
      GatherPermuted(receipts, receipts', PairedWith(rows'[i]));
    }
    GatherSame(rows', PairFindingOf(c, receipts), PairFindingOf(c, receipts'));
  }

  lemma {:induction false} AggregatesPermuted(
      receipts: seq<Receipt>, receipts': seq<Receipt>, rows: seq<Row>, rows': seq<Row>, refs: set<string>)
    requires multiset(receipts) == multiset(receipts') && multiset(rows) == multiset(rows')
    ensures GatherSet(refs, AggregateOf(receipts, rows)) == GatherSet(refs, AggregateOf(receipts', rows'))
  {
    forall ref | ref in refs ensures AggregateOf(receipts, rows)(ref) == AggregateOf(receipts', rows')(ref) {
      MoneyPermuted(receipts, receipts', rows, rows', ref);
      AggregatePermuted(ref, RowMoney(ref, rows), RowMoney(ref, rows'), ReceiptMoney(ref, receipts),
        ReceiptMoney(ref, receipts'));
    }
    GatherSetSame(refs, AggregateOf(receipts, rows), AggregateOf(receipts', rows'));
  }

  lemma {:induction false} SameElements<T>(s: seq<T>, t: seq<T>)
    requires multiset(s) == multiset(t)
    ensures forall x :: x in s <==> x in t
  {
    forall x ensures x in s <==> x in t {
      assert x in s <==> x in multiset(s);
      assert x in t <==> x in multiset(t);
    }
  }

  lemma {:induction false} AggregatePermuted(
      ref: string, settled: seq<Money>, settled': seq<Money>, receipted: seq<Money>, receipted': seq<Money>)
    requires multiset(settled) == multiset(settled') && multiset(receipted) == multiset(receipted')
    ensures AggregateBag(ref, settled, receipted) == AggregateBag(ref, settled', receipted')
  {
    GatherPermuted(settled, settled', MalformedOf(ref));
    GatherPermuted(receipted, receipted', MalformedOf(ref));
    ComparablePermuted(settled, settled', receipted, receipted');
    forall k ensures CompareOf(ref, settled, receipted)(k) == CompareOf(ref, settled', receipted')(k) {
      ComparePermuted(ref, settled, settled', receipted, receipted', k);
    }
    GatherSetSame(Comparable(settled, receipted), CompareOf(ref, settled, receipted),
      CompareOf(ref, settled', receipted'));
  }

  lemma {:induction false} ComparablePermuted(
      settled: seq<Money>, settled': seq<Money>, receipted: seq<Money>, receipted': seq<Money>)
    requires multiset(settled) == multiset(settled') && multiset(receipted) == multiset(receipted')
    ensures Comparable(settled, receipted) == Comparable(settled', receipted')
  {
    SameElements(settled, settled');
    SameElements(receipted, receipted');
  }

  lemma {:induction false} ComparePermuted(
      ref: string, settled: seq<Money>, settled': seq<Money>, receipted: seq<Money>, receipted': seq<Money>, k: string)
    requires multiset(settled) == multiset(settled') && multiset(receipted) == multiset(receipted')
    ensures CompareOf(ref, settled, receipted)(k) == CompareOf(ref, settled', receipted')(k)
  {
    TotalPermuted(settled, settled', AmountIn(k));
    TotalPermuted(receipted, receipted', AmountIn(k));
  }

  ghost function RowMoneyOf(ref: string): Row -> multiset<Money> {
    (s: Row) => if s.ref == ref then multiset{Money(s.currency, s.amount)} else multiset{}
  }

  ghost function ReceiptMoneyOf(ref: string): Receipt -> multiset<Money> {
    (r: Receipt) => if HasRef(r, ref) then multiset{Money(r.currency, r.amount)} else multiset{}
  }

  lemma {:induction false} RowMoneyGathered(ref: string, rows: seq<Row>)
    ensures multiset(RowMoney(ref, rows)) == Gather(rows, RowMoneyOf(ref))
  {
    if rows != [] {
      RowMoneyGathered(ref, rows[..|rows| - 1]);
    }
  }

  lemma {:induction false} ReceiptMoneyGathered(ref: string, receipts: seq<Receipt>)
    ensures multiset(ReceiptMoney(ref, receipts)) == Gather(receipts, ReceiptMoneyOf(ref))
  {
    if receipts != [] {
      ReceiptMoneyGathered(ref, receipts[..|receipts| - 1]);
    }
  }

  lemma {:induction false} MoneyPermuted(
      receipts: seq<Receipt>, receipts': seq<Receipt>, rows: seq<Row>, rows': seq<Row>, ref: string)
    requires multiset(receipts) == multiset(receipts') && multiset(rows) == multiset(rows')
    ensures multiset(RowMoney(ref, rows)) == multiset(RowMoney(ref, rows'))
    ensures multiset(ReceiptMoney(ref, receipts)) == multiset(ReceiptMoney(ref, receipts'))
  {
    GatherPermuted(rows, rows', RowMoneyOf(ref));
    GatherPermuted(receipts, receipts', ReceiptMoneyOf(ref));
    RowMoneyGathered(ref, rows);
    RowMoneyGathered(ref, rows');
    ReceiptMoneyGathered(ref, receipts);
    ReceiptMoneyGathered(ref, receipts');
  }

  // ------------------------------------------------------------------ edges that face

  /** With tiling windows and a common allowance, the row a receipt is carried by is one the
      neighbour matches, aggregates as repeated, or defers at the facing edge: never one it
      reports as uncovered. */
  lemma {:induction false} CarriedIsSeenNextDoor(c: Ctx, r: Receipt, d: Ctx, rows: seq<Row>, edge: Edge)
    requires ClassOfReceipt(c, r) == Carried(edge)
    requires c.b.Some? && d.b.Some? && c.b.value.skewMs == d.b.value.skewMs
    requires edge == Opening ==> c.b.value.prev.Some? ==>
      c.b.value.prev.value.edgeMs == d.b.value.endMs && forall s :: s in c.b.value.prev.value.rows ==> s in rows
    requires edge == Closing ==> c.b.value.next.Some? ==>
      c.b.value.next.value.edgeMs == d.b.value.startMs && forall s :: s in c.b.value.next.value.rows ==> s in rows
    ensures exists s :: s in rows && r.ref == Some(s.ref) && SameTerms(r, s) && SeenAt(d, s, edge)
  {
    var n := if edge == Opening then c.b.value.prev.value else c.b.value.next.value;
    var i :| 0 <= i < |n.rows| && NamesAt(n, i, r, edge, c.b.value.skewMs);
    assert n.rows[i] in n.rows;
    assert SeenAt(d, n.rows[i], edge);
  }

  predicate SeenAt(d: Ctx, s: Row, edge: Edge) {
    match ClassOfRow(d, s)
    case RowRepeated => true
    case RowMatched => true
    case RowDeferred(open, close) => if edge == Opening then close else open
    case RowUncovered => false
  }

  /** With no allowance nothing inside the window is near an edge, so a receipt inside it is
      neither carried nor deferred, and a row is deferred exactly when it is unpaired and
      outside the window its extract declares. */
  lemma {:induction false} ZeroAllowance(c: Ctx, r: Receipt, s: Row)
    requires c.b.Some? && c.b.value.skewMs == 0
    ensures c.b.value.startMs <= r.timestampMs < c.b.value.endMs ==>
      !ClassOfReceipt(c, r).Carried? && !ClassOfReceipt(c, r).Deferred?
    ensures ClassOfRow(c, s).RowDeferred? <==>
      !SkipRef(c, s.ref) && s.ref !in c.receiptRefs
      && !(c.b.value.startMs <= s.timestampMs < c.b.value.endMs)
  {
    assert c.b.value.startMs <= r.timestampMs < c.b.value.endMs ==>
      !NearOpen(c.b, r.timestampMs) && !NearClose(c.b, r.timestampMs);
  }

  /** So a zero allowance does not defer nothing: a row dated one millisecond after a window that
      declares no allowance, with no receipt, waits at its closing edge. */
  lemma {:induction false} ZeroAllowanceStillDefers(ref: string, startMs: int, endMs: int)
    requires startMs < endMs
    ensures var c := Ctx(multiset{}, multiset{ref}, Some(Boundary(startMs, endMs, 0, None, None)));
      ClassOfRow(c, Row(ref, "1", "USD", endMs, None)) == RowDeferred(false, true)
  {
    assert multiset{ref}[ref] == 1;
  }
}
