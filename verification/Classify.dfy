/** The reconciliation walk, proved to say exactly what Reconcile states on bags. */
module Classify {
  import opened Options
  import opened Records
  import opened Bags
  import opened Reconcile

  datatype ReceiptCounts = ReceiptCounts(
    aborted: int, settled: int, matched: int, deferred: int, carried: int, unmatched: int, repeated: int)

  datatype RowCounts = RowCounts(rows: int, matched: int, deferred: int, unmatched: int, repeated: int)

  datatype Outcome = Outcome(
    findings: seq<Finding>, receipts: ReceiptCounts, rows: RowCounts,
    carried: seq<EdgeRef>, deferredRows: seq<DeferredRow>, matched: seq<string>)

  ghost predicate ReceiptCountsAre(n: ReceiptCounts, k: multiset<ReceiptClass>) {
    && n.aborted == k[Aborted]
    && n.settled == |k| - k[Aborted]
    && n.matched == k[Matched]
    && n.deferred == k[Deferred(Opening)] + k[Deferred(Closing)]
    && n.carried == k[Carried(Opening)] + k[Carried(Closing)]
    && n.unmatched == k[Refless] + k[Uncovered]
    && n.repeated == k[Repeated]
  }

  function DeferredRows(k: multiset<RowClass>): int {
    k[RowDeferred(true, true)] + k[RowDeferred(true, false)] + k[RowDeferred(false, true)]
  }

  ghost predicate RowCountsAre(n: RowCounts, k: multiset<RowClass>) {
    && n.rows == |k|
    && n.matched == k[RowMatched]
    && n.deferred == DeferredRows(k)
    && n.unmatched == k[RowUncovered]
    && n.repeated == k[RowRepeated]
  }

  // --------------------------------------------------------------- repeated refs

  function Get(m: map<string, nat>, k: string): nat { if k in m then m[k] else 0 }

  ghost predicate Counted(seen: map<string, nat>, refs: seq<string>) {
    forall x :: Get(seen, x) == multiset(refs)[x]
  }

  lemma {:induction false} CountedStep(seen: map<string, nat>, refs: seq<string>, ref: string)
    requires Counted(seen, refs)
    ensures Counted(seen[ref := Get(seen, ref) + 1], refs + [ref])
  {
    assert multiset(refs + [ref]) == multiset(refs) + multiset{ref};
  }

  method CountRefs(refs: seq<string>) returns (seen: map<string, nat>)
    ensures Counted(seen, refs)
  {
    seen := map[];
    for i := 0 to |refs|
      invariant Counted(seen, refs[..i])
    {
      CountedStep(seen, refs[..i], refs[i]);
      PrefixStep(refs, i);
      seen := seen[refs[i] := Get(seen, refs[i]) + 1];
    }
    assert refs[..|refs|] == refs;
  }

  method DuplicateRefs(refs: seq<string>) returns (dupes: set<string>, findings: seq<Finding>)
    ensures dupes == RepeatedIn(multiset(refs))
    ensures multiset(findings) == GatherSet(dupes, DuplicateOf())
  {
    var seen := CountRefs(refs);
    dupes, findings := {}, [];
    var todo := seen.Keys;
    while todo != {}
      invariant forall x :: x in dupes <==> x in seen && x !in todo && seen[x] > 1
      invariant multiset(findings) == GatherSet(dupes, DuplicateOf())
      decreases |todo|
    {
      var ref :| ref in todo;
      if ref in seen && seen[ref] > 1 {
        GatherSetGrow(dupes, ref, DuplicateOf());
        dupes := dupes + {ref};
        findings := findings + [Fail(DuplicateRef, ref)];
      }
      todo := todo - {ref};
    }
    forall x ensures x in dupes <==> x in RepeatedIn(multiset(refs)) {
      assert Get(seen, x) == multiset(refs)[x];
    }
  }

  ghost predicate Sums(sums: map<string, nat>, money: seq<Money>) {
    forall k :: Get(sums, k) == Total(money, AmountIn(k))
  }

  lemma {:induction false} SumsStep(sums: map<string, nat>, money: seq<Money>, m: Money)
    requires Sums(sums, money)
    ensures IsValidAmountText(m.amount) ==>
      Sums(sums[m.currency := Get(sums, m.currency) + ParseAmount(m.amount)], money + [m])
    ensures !IsValidAmountText(m.amount) ==> Sums(sums, money + [m])
  {
    forall k ensures Total(money + [m], AmountIn(k)) == Total(money, AmountIn(k)) + AmountIn(k)(m) {
      TotalAppend(money, m, AmountIn(k));
    }
  }

  lemma {:induction false} CurrenciesStep(money: seq<Money>, m: Money)
    ensures CurrenciesOf(money + [m]) == CurrenciesOf(money) + {m.currency}
    ensures UnreadableIn(money + [m]) == UnreadableIn(money) + if IsValidAmountText(m.amount) then {} else {m.currency}
  {
    forall k ensures k in CurrenciesOf(money + [m]) <==> k in CurrenciesOf(money) + {m.currency} {
      if k in CurrenciesOf(money) {
        var x :| x in money && x.currency == k;
        assert x in money + [m];
      }
      assert m in money + [m];
    }
    var more: set<string> := if IsValidAmountText(m.amount) then {} else {m.currency};
    forall k ensures k in UnreadableIn(money + [m]) <==> k in UnreadableIn(money) + more {
      if k in UnreadableIn(money) {
        var x :| x in money && !IsValidAmountText(x.amount) && x.currency == k;
        assert x in money + [m];
      }
      assert m in money + [m];
    }
  }

  ghost predicate Tallied(sums: map<string, nat>, malformed: set<string>, money: seq<Money>) {
    Sums(sums, money) && malformed == UnreadableIn(money) && sums.Keys + malformed == CurrenciesOf(money)
  }

  lemma {:induction false} TalliedStep(sums: map<string, nat>, malformed: set<string>, money: seq<Money>, m: Money)
    requires Tallied(sums, malformed, money)
    ensures IsValidAmountText(m.amount) ==>
      Tallied(sums[m.currency := Get(sums, m.currency) + ParseAmount(m.amount)], malformed, money + [m])
    ensures !IsValidAmountText(m.amount) ==> Tallied(sums, malformed + {m.currency}, money + [m])
  {
    SumsStep(sums, money, m);
    CurrenciesStep(money, m);
  }

  ghost predicate MalformedSaid(findings: seq<Finding>, ref: string, money: seq<Money>) {
    multiset(findings) == Gather(money, MalformedOf(ref))
  }

  lemma {:induction false} MalformedStep(findings: seq<Finding>, ref: string, money: seq<Money>, m: Money)
    requires MalformedSaid(findings, ref, money)
    ensures IsValidAmountText(m.amount) ==> MalformedSaid(findings, ref, money + [m])
    ensures !IsValidAmountText(m.amount) ==> MalformedSaid(findings + [Fail(MalformedAmount, ref)], ref, money + [m])
  {
    GatherAppend(money, m, MalformedOf(ref));
  }

  /** Sums the amounts by currency; an amount that cannot be read is said. */
  method AddUp(ref: string, money: seq<Money>)
    returns (sums: map<string, nat>, malformed: set<string>, findings: seq<Finding>)
    ensures MalformedSaid(findings, ref, money)
    ensures Tallied(sums, malformed, money)
  {
    sums, malformed, findings := map[], {}, [];
    ghost var done: seq<Money> := [];
    for i := 0 to |money|
      invariant done == money[..i]
      invariant MalformedSaid(findings, ref, done)
      invariant Tallied(sums, malformed, done)
    {
      PrefixStep(money, i);
      sums, malformed, findings := AddOne(ref, done, money[i], sums, malformed, findings);
      done := done + [money[i]];
    }
    assert done == money;
  }

  method AddOne(
      ref: string, ghost done: seq<Money>, m: Money, sums: map<string, nat>, malformed: set<string>,
      findings: seq<Finding>)
    returns (sums': map<string, nat>, malformed': set<string>, findings': seq<Finding>)
    requires MalformedSaid(findings, ref, done) && Tallied(sums, malformed, done)
    ensures MalformedSaid(findings', ref, done + [m])
    ensures Tallied(sums', malformed', done + [m])
  {
    sums', malformed', findings' := sums, malformed, findings;
    if IsValidAmountText(m.amount) {
      sums' := sums[m.currency := Get(sums, m.currency) + ParseAmount(m.amount)];
    } else {
      malformed' := malformed + {m.currency};
      findings' := findings + [Fail(MalformedAmount, ref)];
    }
    TalliedStep(sums, malformed, done, m);
    MalformedStep(findings, ref, done, m);
  }

  /** A repeated ref must not hide the amount that is unaccounted for. */
  method SpendAggregate(ref: string, receipted: seq<Money>, settled: seq<Money>) returns (findings: seq<Finding>)
    ensures multiset(findings) == AggregateBag(ref, settled, receipted)
  {
    var paid, unreadRows, ofRows := AddUp(ref, settled);
    var signed, unreadReceipts, ofReceipts := AddUp(ref, receipted);
    var currencies := paid.Keys + signed.Keys - (unreadRows + unreadReceipts);
    TalliedComparable(paid, unreadRows, settled, signed, unreadReceipts, receipted);
    var differences := Differences(ref, settled, receipted, paid, signed, currencies);
    findings := ofRows + ofReceipts + differences;
    AggregateSaid(ref, settled, receipted, ofRows, ofReceipts, differences);
  }

  lemma {:induction false} TalliedComparable(
      paid: map<string, nat>, unreadRows: set<string>, settled: seq<Money>,
      signed: map<string, nat>, unreadReceipts: set<string>, receipted: seq<Money>)
    requires Tallied(paid, unreadRows, settled) && Tallied(signed, unreadReceipts, receipted)
    ensures paid.Keys + signed.Keys - (unreadRows + unreadReceipts) == Comparable(settled, receipted)
  {
  }

  lemma {:induction false} AggregateSaid(
      ref: string, settled: seq<Money>, receipted: seq<Money>,
      ofRows: seq<Finding>, ofReceipts: seq<Finding>, differences: seq<Finding>)
    requires MalformedSaid(ofRows, ref, settled) && MalformedSaid(ofReceipts, ref, receipted)
    requires multiset(differences) == GatherSet(Comparable(settled, receipted), CompareOf(ref, settled, receipted))
    ensures multiset(ofRows + ofReceipts + differences) == AggregateBag(ref, settled, receipted)
  {
    var a, b := Gather(settled, MalformedOf(ref)), Gather(receipted, MalformedOf(ref));
    Appended(ofRows, ofReceipts, a, b);
    Appended(ofRows + ofReceipts, differences, a + b, multiset(differences));
  }

  method Compare(
      ref: string, ghost settled: seq<Money>, ghost receipted: seq<Money>, paid: map<string, nat>,
      signed: map<string, nat>,
      k: string)
    returns (findings: seq<Finding>)
    requires Sums(paid, settled) && Sums(signed, receipted)
    ensures multiset(findings) == CompareOf(ref, settled, receipted)(k)
  {
    if Get(paid, k) > Get(signed, k) {
      findings := [Fail(SettlementWithoutReceipt, ref)];
    } else if Get(paid, k) < Get(signed, k) {
      findings := [Fail(SettlementMismatch, ref)];
    } else {
      findings := [];
    }
  }

  method Differences(
      ref: string, ghost settled: seq<Money>, ghost receipted: seq<Money>, paid: map<string, nat>,
      signed: map<string, nat>,
      currencies: set<string>)
    returns (findings: seq<Finding>)
    requires Sums(paid, settled) && Sums(signed, receipted)
    ensures multiset(findings) == GatherSet(currencies, CompareOf(ref, settled, receipted))
  {
    ghost var f := CompareOf(ref, settled, receipted);
    findings := [];
    var todo := currencies;
    while todo != {}
      invariant todo <= currencies
      invariant multiset(findings) == GatherSet(currencies - todo, f)
      decreases |todo|
    {
      var k :| k in todo;
      var more := Compare(ref, settled, receipted, paid, signed, k);
      Appended(findings, more, GatherSet(currencies - todo, f), f(k));
      GatherSetMove(currencies, todo, k, f);
      findings, todo := findings + more, todo - {k};
    }
    assert currencies - {} == currencies;
  }

  // ---------------------------------------------------------------------- indexes

  method ReceiptRefs(receipts: seq<Receipt>) returns (refs: seq<string>)
    ensures multiset(refs) == Gather(receipts, RefOf())
  {
    refs := [];
    for i := 0 to |receipts|
      invariant multiset(refs) == Gather(receipts[..i], RefOf())
    {
      GatherPrefix(receipts, i, RefOf());
      if receipts[i].settled && receipts[i].ref.Some? {
        refs := refs + [receipts[i].ref.value];
      }
    }
    assert receipts[..|receipts|] == receipts;
  }

  method RowRefs(rows: seq<Row>) returns (refs: seq<string>)
    ensures multiset(refs) == Gather(rows, RowRefOf())
  {
    refs := [];
    for i := 0 to |rows|
      invariant multiset(refs) == Gather(rows[..i], RowRefOf())
    {
      GatherPrefix(rows, i, RowRefOf());
      refs := refs + [rows[i].ref];
    }
    assert rows[..|rows|] == rows;
  }

  method IndexReceipts(receipts: seq<Receipt>, skip: set<string>) returns (byRef: map<string, Receipt>)
    ensures forall ref :: ref in byRef <==> ref !in skip && ref in Gather(receipts, RefOf())
    ensures forall ref :: ref in byRef ==> byRef[ref] in receipts && HasRef(byRef[ref], ref)
  {
    byRef := map[];
    for i := 0 to |receipts|
      invariant forall ref :: ref in byRef <==> ref !in skip && ref in Gather(receipts[..i], RefOf())
      invariant forall ref :: ref in byRef ==> byRef[ref] in receipts && HasRef(byRef[ref], ref)
    {
      GatherPrefix(receipts, i, RefOf());
      var r := receipts[i];
      if r.settled && r.ref.Some? && r.ref.value !in skip {
        byRef := byRef[r.ref.value := r];
      }
    }
    assert receipts[..|receipts|] == receipts;
  }

  /** When one receipt alone names the ref, it alone is paired with the row. */
  lemma {:induction false} PairedAlone(receipts: seq<Receipt>, r: Receipt, s: Row)
    requires r in receipts && HasRef(r, s.ref) && Gather(receipts, RefOf())[s.ref] == 1
    ensures Gather(receipts, PairedWith(s)) == multiset(PairFindings(r, s))
  {
    var i :| 0 <= i < |receipts| && receipts[i] == r;
    GatherRemove(receipts, i, RefOf());
    GatherRemove(receipts, i, PairedWith(s));
    NobodyPaired(receipts[..i] + receipts[i + 1..], s);
  }

  lemma {:induction false} NobodyPaired(receipts: seq<Receipt>, s: Row)
    requires Gather(receipts, RefOf())[s.ref] == 0
    ensures Gather(receipts, PairedWith(s)) == multiset{}
  {
    if receipts != [] {
      NobodyPaired(receipts[..|receipts| - 1], s);
      assert RefOf()(receipts[|receipts| - 1])[s.ref] == 0;
    }
  }

  // ------------------------------------------------------------------------ walks

  datatype RowWalk = RowWalk(
    findings: seq<Finding>, deferredRows: seq<DeferredRow>, matched: seq<string>, counts: RowCounts)

  ghost predicate RowsWalked(w: RowWalk, done: seq<Row>, c: Ctx, receipts: seq<Receipt>) {
    && multiset(w.findings) == Gather(done, RowFindingOf(c)) + Gather(done, PairFindingOf(c, receipts))
    && multiset(w.deferredRows) == Gather(done, DeferredOf(c))
    && multiset(w.matched) == Gather(done, MatchedOf(c))
    && RowCountsAre(w.counts, Gather(done, RowClassOf(c)))
  }

  lemma {:induction false} NoRowsWalked(c: Ctx, receipts: seq<Receipt>)
    ensures RowsWalked(RowWalk([], [], [], RowCounts(0, 0, 0, 0, 0)), [], c, receipts)
  {
  }

  /** One more row, of class k; `pair` is what its pairing gave. */
  function AfterRow(w: RowWalk, s: Row, k: RowClass, pair: seq<Finding>): RowWalk {
    var n := w.counts.(rows := w.counts.rows + 1);
    match k
    case RowRepeated => w.(counts := n.(repeated := n.repeated + 1))
    case RowMatched =>
      w.(counts := n.(matched := n.matched + 1), matched := w.matched + [s.ref], findings := w.findings + pair)
    case RowDeferred(open, close) =>
      w.(counts := n.(deferred := n.deferred + 1),
         deferredRows := w.deferredRows + [DeferredRow(s.ref, open, close)],
         findings := w.findings + [Finding(BoundaryDeferred, s.ref, true, Receipts)])
    case RowUncovered =>
      w.(counts := n.(unmatched := n.unmatched + 1), findings := w.findings + [Fail(SettlementWithoutReceipt, s.ref)])
  }

  lemma {:induction false} AfterRowKeeps(
      w: RowWalk, done: seq<Row>, s: Row, c: Ctx, receipts: seq<Receipt>, pair: seq<Finding>)
    requires RowsWalked(w, done, c, receipts)
    requires ClassOfRow(c, s) == RowMatched ==> multiset(pair) == Gather(receipts, PairedWith(s))
    ensures RowsWalked(AfterRow(w, s, ClassOfRow(c, s), pair), done + [s], c, receipts)
  {
    AfterRowFindings(w, s, c, pair, Gather(done, RowFindingOf(c)), Gather(done, PairFindingOf(c, receipts)),
      Gather(receipts, PairedWith(s)));
    AfterRowLists(w, s, c, pair, Gather(done, DeferredOf(c)), Gather(done, MatchedOf(c)));
    AfterRowCounts(w, s, c, pair, Gather(done, RowClassOf(c)));
    GatherAppend(done, s, RowFindingOf(c));
    GatherAppend(done, s, PairFindingOf(c, receipts));
    GatherAppend(done, s, DeferredOf(c));
    GatherAppend(done, s, MatchedOf(c));
    GatherAppend(done, s, RowClassOf(c));
  }

  lemma {:induction false} AfterRowFindings(
      w: RowWalk, s: Row, c: Ctx, pair: seq<Finding>, x: multiset<Finding>, y: multiset<Finding>, p: multiset<Finding>)
    requires multiset(w.findings) == x + y
    requires ClassOfRow(c, s) == RowMatched ==> multiset(pair) == p
    ensures multiset(AfterRow(w, s, ClassOfRow(c, s), pair).findings)
      == (x + RowFindingOf(c)(s)) + (y + if ClassOfRow(c, s) == RowMatched then p else multiset{})
  {
    var k := ClassOfRow(c, s);
    var more := if k == RowMatched then pair else RowFindings(c, s);
    assert AfterRow(w, s, k, pair).findings == w.findings + more;
    Appended(w.findings, more, x + y, multiset(more));
  }

  lemma {:induction false} AfterRowLists(
      w: RowWalk, s: Row, c: Ctx, pair: seq<Finding>, d: multiset<DeferredRow>, m: multiset<string>)
    requires multiset(w.deferredRows) == d && multiset(w.matched) == m
    ensures multiset(AfterRow(w, s, ClassOfRow(c, s), pair).deferredRows) == d + DeferredOf(c)(s)
    ensures multiset(AfterRow(w, s, ClassOfRow(c, s), pair).matched) == m + MatchedOf(c)(s)
  {
  }

  lemma {:induction false} AfterRowCounts(w: RowWalk, s: Row, c: Ctx, pair: seq<Finding>, k: multiset<RowClass>)
    requires RowCountsAre(w.counts, k)
    ensures RowCountsAre(AfterRow(w, s, ClassOfRow(c, s), pair).counts, k + RowClassOf(c)(s))
  {
  }

  ghost predicate Indexed(
      skip: set<string>, byRef: map<string, Receipt>, receipts: seq<Receipt>, rows: seq<Row>, c: Ctx)
  {
    && c.receiptRefs == Gather(receipts, RefOf()) && c.rowRefs == Gather(rows, RowRefOf())
    && (forall ref :: ref in skip <==> SkipRef(c, ref))
    && (forall ref :: ref in byRef <==> ref !in skip && ref in c.receiptRefs)
    && (forall ref :: ref in byRef ==> byRef[ref] in receipts && HasRef(byRef[ref], ref))
  }

  method ClassifyRow(
      s: Row, skip: set<string>, byRef: map<string, Receipt>, b: Option<Boundary>,
      ghost receipts: seq<Receipt>, ghost rows: seq<Row>, ghost c: Ctx)
    returns (k: RowClass, pair: seq<Finding>)
    requires Indexed(skip, byRef, receipts, rows, c) && c.b == b
    ensures k == ClassOfRow(c, s)
    ensures k == RowMatched ==> multiset(pair) == Gather(receipts, PairedWith(s))
  {
    k, pair := RowRepeated, [];
    if s.ref !in skip {
      if s.ref in byRef {
        k, pair := RowMatched, PairFindings(byRef[s.ref], s);
        PairedAlone(receipts, byRef[s.ref], s);
      } else if NearOpen(b, s.timestampMs) || NearClose(b, s.timestampMs) {
        k := RowDeferred(NearOpen(b, s.timestampMs), NearClose(b, s.timestampMs));
      } else {
        k := RowUncovered;
      }
    }
  }

  method WalkRows(
      rows: seq<Row>, skip: set<string>, byRef: map<string, Receipt>, b: Option<Boundary>,
      ghost receipts: seq<Receipt>, ghost c: Ctx)
    returns (w: RowWalk)
    requires Indexed(skip, byRef, receipts, rows, c) && c.b == b
    ensures RowsWalked(w, rows, c, receipts)
  {
    w := RowWalk([], [], [], RowCounts(0, 0, 0, 0, 0));
    NoRowsWalked(c, receipts);
    ghost var done: seq<Row> := [];
    for i := 0 to |rows|
      invariant done == rows[..i]
      invariant RowsWalked(w, done, c, receipts)
    {
      var k, pair := ClassifyRow(rows[i], skip, byRef, b, receipts, rows, c);
      AfterRowKeeps(w, done, rows[i], c, receipts, pair);
      PrefixStep(rows, i);
      w, done := AfterRow(w, rows[i], k, pair), done + [rows[i]];
    }
    assert done == rows;
  }

  /** The class of a settled receipt that no row of this window names. */
  method AtEdge(r: Receipt, b: Option<Boundary>) returns (k: ReceiptClass)
    ensures k == EdgeClass(b, r)
  {
    var open, close := NearOpen(b, r.timestampMs), NearClose(b, r.timestampMs);
    if !open && !close {
      return Uncovered;
    }
    var namedByPrev := Search(b.value.prev, r, Opening, b.value.skewMs);
    var namedByNext := Search(b.value.next, r, Closing, b.value.skewMs);
    if (open && namedByPrev) || (close && namedByNext) {
      k := Carried(if open && namedByPrev then Opening else Closing);
    } else if (close && b.value.next.Some?) || (open && b.value.prev.Some?) {
      k := Uncovered;
    } else {
      k := Deferred(if close then Closing else Opening);
    }
  }

  method Search(n: Option<Neighbour>, r: Receipt, edge: Edge, skewMs: int) returns (found: bool)
    ensures found == Names(n, r, edge, skewMs)
  {
    if n.None? {
      return false;
    }
    for i := 0 to |n.value.rows|
      invariant forall k :: 0 <= k < i ==> !NamesAt(n.value, k, r, edge, skewMs)
    {
      if NamesAt(n.value, i, r, edge, skewMs) {
        return true;
      }
    }
    return false;
  }

  datatype ReceiptWalk = ReceiptWalk(findings: seq<Finding>, carried: seq<EdgeRef>, counts: ReceiptCounts)

  ghost predicate ReceiptsWalked(w: ReceiptWalk, done: seq<Receipt>, c: Ctx) {
    && multiset(w.findings) == Gather(done, ReceiptFindingOf(c))
    && multiset(w.carried) == Gather(done, CarriedOf(c))
    && ReceiptCountsAre(w.counts, Gather(done, ReceiptClassOf(c)))
  }

  function AfterReceipt(w: ReceiptWalk, r: Receipt, k: ReceiptClass): ReceiptWalk {
    var n := w.counts.(settled := w.counts.settled + 1);
    match k
    case Aborted => w.(counts := w.counts.(aborted := w.counts.aborted + 1))
    case Refless => w.(counts := n.(unmatched := n.unmatched + 1))
    case Repeated => w.(counts := n.(repeated := n.repeated + 1))
    case Matched => w.(counts := n.(matched := n.matched + 1))
    case Carried(edge) => w.(counts := n.(carried := n.carried + 1), carried := w.carried + [EdgeRef(RefText(r), edge)])
    case Deferred(edge) =>
      w.(counts := n.(deferred := n.deferred + 1),
         findings := w.findings
           + [Finding(BoundaryDeferred, r.nonce, true, if edge == Closing then NextExtract else PreviousExtract)])
    case Uncovered =>
      w.(counts := n.(unmatched := n.unmatched + 1), findings := w.findings + [Fail(ReceiptWithoutSettlement, r.nonce)])
  }

  lemma {:induction false} AfterReceiptKeeps(w: ReceiptWalk, done: seq<Receipt>, r: Receipt, c: Ctx)
    requires ReceiptsWalked(w, done, c)
    ensures ReceiptsWalked(AfterReceipt(w, r, ClassOfReceipt(c, r)), done + [r], c)
  {
    AfterReceiptLists(w, r, c, Gather(done, ReceiptFindingOf(c)), Gather(done, CarriedOf(c)));
    AfterReceiptCounts(w, r, ClassOfReceipt(c, r), Gather(done, ReceiptClassOf(c)));
    GatherAppend(done, r, ReceiptFindingOf(c));
    GatherAppend(done, r, CarriedOf(c));
    GatherAppend(done, r, ReceiptClassOf(c));
  }

  lemma {:induction false} AfterReceiptLists(
      w: ReceiptWalk, r: Receipt, c: Ctx, x: multiset<Finding>, y: multiset<EdgeRef>)
    requires multiset(w.findings) == x && multiset(w.carried) == y
    ensures multiset(AfterReceipt(w, r, ClassOfReceipt(c, r)).findings) == x + ReceiptFindingOf(c)(r)
    ensures multiset(AfterReceipt(w, r, ClassOfReceipt(c, r)).carried) == y + CarriedOf(c)(r)
  {
    var k := ClassOfReceipt(c, r);
    AfterClassFindings(w, r, k);
    AfterClassCarried(w, r, k);
  }

  lemma {:induction false} AfterClassFindings(w: ReceiptWalk, r: Receipt, k: ReceiptClass)
    ensures AfterReceipt(w, r, k).findings == w.findings + ClassFindings(r, k)
  {
  }

  lemma {:induction false} AfterClassCarried(w: ReceiptWalk, r: Receipt, k: ReceiptClass)
    ensures AfterReceipt(w, r, k).carried == w.carried + if k.Carried? then [EdgeRef(RefText(r), k.edge)] else []
  {
  }

  lemma {:induction false} AfterReceiptCounts(w: ReceiptWalk, r: Receipt, x: ReceiptClass, k: multiset<ReceiptClass>)
    requires ReceiptCountsAre(w.counts, k)
    ensures ReceiptCountsAre(AfterReceipt(w, r, x).counts, k + multiset{x})
  {
    match x
    case Carried(edge) => assert edge == Opening || edge == Closing;
    case Deferred(edge) => assert edge == Opening || edge == Closing;
    case _ =>
  }

  method WalkReceipts(
      receipts: seq<Receipt>, skip: set<string>, rowRefs: set<string>, b: Option<Boundary>, ghost c: Ctx)
    returns (w: ReceiptWalk)
    requires c.b == b
    requires forall ref :: ref in skip <==> SkipRef(c, ref)
    requires forall ref :: ref in rowRefs <==> ref in c.rowRefs
    ensures ReceiptsWalked(w, receipts, c)
  {
    w := ReceiptWalk([], [], ReceiptCounts(0, 0, 0, 0, 0, 0, 0));
    for i := 0 to |receipts|
      invariant ReceiptsWalked(w, receipts[..i], c)
    {
      var r := receipts[i];
      PrefixStep(receipts, i);
      var k: ReceiptClass;
      if !r.settled {
        k := Aborted;
      } else if r.ref.None? {
        k := Refless;
      } else if r.ref.value in skip {
        k := Repeated;
      } else if r.ref.value in rowRefs {
        k := Matched;
      } else {
        k := AtEdge(r, b);
      }
      assert k == ClassOfReceipt(c, r);
      AfterReceiptKeeps(w, receipts[..i], r, c);
      w := AfterReceipt(w, r, k);
    }
    assert receipts[..|receipts|] == receipts;
  }

  // ------------------------------------------------------------------- the whole

  ghost predicate Answers(
      out: Outcome, receipts: seq<Receipt>, rows: seq<Row>, b: Option<Boundary>)
  {
    var c := CtxOf(receipts, rows, b);
    && multiset(out.findings) == FindingBag(receipts, rows, b)
    && multiset(out.carried) == Gather(receipts, CarriedOf(c))
    && multiset(out.deferredRows) == Gather(rows, DeferredOf(c))
    && multiset(out.matched) == Gather(rows, MatchedOf(c))
    && ReceiptCountsAre(out.receipts, Gather(receipts, ReceiptClassOf(c)))
    && RowCountsAre(out.rows, Gather(rows, RowClassOf(c)))
  }

  method AggregateRef(ref: string, receipts: seq<Receipt>, rows: seq<Row>) returns (findings: seq<Finding>)
    ensures multiset(findings) == AggregateOf(receipts, rows)(ref)
  {
    findings := SpendAggregate(ref, ReceiptMoney(ref, receipts), RowMoney(ref, rows));
  }

  ghost predicate AggregatesSaid(findings: seq<Finding>, refs: set<string>, receipts: seq<Receipt>, rows: seq<Row>) {
    multiset(findings) == GatherSet(refs, AggregateOf(receipts, rows))
  }

  lemma {:induction false} AggregatesStep(
      findings: seq<Finding>, more: seq<Finding>, skip: set<string>, todo: set<string>, ref: string,
      receipts: seq<Receipt>, rows: seq<Row>)
    requires ref in todo && todo <= skip
    requires AggregatesSaid(findings, skip - todo, receipts, rows)
    requires multiset(more) == AggregateOf(receipts, rows)(ref)
    ensures AggregatesSaid(findings + more, skip - (todo - {ref}), receipts, rows)
  {
    var f := AggregateOf(receipts, rows);
    GatherSetMove(skip, todo, ref, f);
    Appended(findings, more, GatherSet(skip - todo, f), f(ref));
  }

  method Aggregates(skip: set<string>, receipts: seq<Receipt>, rows: seq<Row>) returns (findings: seq<Finding>)
    ensures AggregatesSaid(findings, skip, receipts, rows)
  {
    findings := [];
    var todo := skip;
    while todo != {}
      invariant todo <= skip
      invariant AggregatesSaid(findings, skip - todo, receipts, rows)
      decreases |todo|
    {
      var ref :| ref in todo;
      var more := AggregateRef(ref, receipts, rows);
      AggregatesStep(findings, more, skip, todo, ref, receipts, rows);
      findings, todo := findings + more, todo - {ref};
    }
    assert skip - {} == skip;
  }

  method ClassifySettlementMatches(receipts: seq<Receipt>, rows: seq<Row>, b: Option<Boundary>) returns (out: Outcome)
    ensures Answers(out, receipts, rows, b)
  {
    ghost var c := CtxOf(receipts, rows, b);
    var receiptRefs := ReceiptRefs(receipts);
    var rowRefs := RowRefs(rows);
    var dupeReceipts, _ := DuplicateRefs(receiptRefs);
    var dupeRows, duplicates := DuplicateRefs(rowRefs);
    var skip := dupeRows + dupeReceipts;
    var aggregates := Aggregates(skip, receipts, rows);
    var byRef := IndexReceipts(receipts, skip);
    assert forall ref :: ref in rowRefs <==> ref in multiset(rowRefs);
    var ofRows := WalkRows(rows, skip, byRef, b, receipts, c);
    var ofReceipts := WalkReceipts(receipts, skip, (set ref | ref in rowRefs), b, c);
    out := Outcome(
      duplicates + aggregates + ofRows.findings + ofReceipts.findings, ofReceipts.counts, ofRows.counts,
      ofReceipts.carried, ofRows.deferredRows, ofRows.matched);
    AllSaid(
      duplicates, aggregates, ofRows.findings, ofReceipts.findings,
      GatherSet(RepeatedIn(c.rowRefs), DuplicateOf()), GatherSet(skip, AggregateOf(receipts, rows)),
      Gather(rows, RowFindingOf(c)), Gather(rows, PairFindingOf(c, receipts)), Gather(receipts, ReceiptFindingOf(c)));
  }

  lemma {:induction false} AllSaid(
      a: seq<Finding>, b: seq<Finding>, c: seq<Finding>, d: seq<Finding>,
      x: multiset<Finding>, y: multiset<Finding>, z: multiset<Finding>, z': multiset<Finding>, w: multiset<Finding>)
    requires multiset(a) == x && multiset(b) == y && multiset(c) == z + z' && multiset(d) == w
    ensures multiset(a + b + c + d) == x + y + z + z' + w
  {
  }

  /** The counts balance: every settled receipt and every row is counted in one class, and
      as many receipts as rows are matched. */
  lemma {:induction false} CountsBalance(out: Outcome, receipts: seq<Receipt>, rows: seq<Row>, b: Option<Boundary>)
    requires Answers(out, receipts, rows, b)
    ensures out.receipts.matched == out.rows.matched == |out.matched|
    ensures out.receipts.carried == |out.carried| && out.rows.deferred == |out.deferredRows|
    ensures var n := out.receipts;
      n.settled == n.matched + n.deferred + n.carried + n.unmatched + n.repeated && n.settled + n.aborted == |receipts|
    ensures var n := out.rows;
      n.rows == |rows| == n.matched + n.deferred + n.unmatched + n.repeated
  {
    var c := CtxOf(receipts, rows, b);
    MatchCountsAgree(receipts, rows, b);
    assert |out.matched| == |multiset(out.matched)|;
    assert |out.carried| == |multiset(out.carried)|;
    assert |out.deferredRows| == |multiset(out.deferredRows)|;
    CarriedCount(receipts, c);
    DeferredCount(rows, c);
    ReceiptClassesAddUp(receipts, c);
    ReceiptClassesSize(receipts, c);
    RowClassesAddUp(rows, c);
    RowClassesSize(rows, c);
  }

  lemma {:induction false} CarriedCount(receipts: seq<Receipt>, c: Ctx)
    ensures var k := Gather(receipts, ReceiptClassOf(c));
      |Gather(receipts, CarriedOf(c))| == k[Carried(Opening)] + k[Carried(Closing)]
  {
    if receipts != [] {
      var init, last := receipts[..|receipts| - 1], receipts[|receipts| - 1];
      CarriedCount(init, c);
      OneMoreCarried(Gather(init, CarriedOf(c)), Gather(init, ReceiptClassOf(c)), c, last);
    }
  }

  lemma {:induction false} OneMoreCarried(x: multiset<EdgeRef>, k: multiset<ReceiptClass>, c: Ctx, r: Receipt)
    requires |x| == k[Carried(Opening)] + k[Carried(Closing)]
    ensures var l := k + ReceiptClassOf(c)(r); |x + CarriedOf(c)(r)| == l[Carried(Opening)] + l[Carried(Closing)]
  {
  }

  lemma {:induction false} DeferredCount(rows: seq<Row>, c: Ctx)
    ensures |Gather(rows, DeferredOf(c))| == DeferredRows(Gather(rows, RowClassOf(c)))
  {
    if rows != [] {
      var init, last := rows[..|rows| - 1], rows[|rows| - 1];
      DeferredCount(init, c);
      OneMoreDeferred(Gather(init, DeferredOf(c)), Gather(init, RowClassOf(c)), c, last);
    }
  }

  lemma {:induction false} OneMoreDeferred(x: multiset<DeferredRow>, k: multiset<RowClass>, c: Ctx, s: Row)
    requires |x| == DeferredRows(k)
    ensures |x + DeferredOf(c)(s)| == DeferredRows(k + RowClassOf(c)(s))
  {
  }

  lemma {:induction false} RowClassesSize(rows: seq<Row>, c: Ctx)
    ensures |Gather(rows, RowClassOf(c))| == |rows|
  {
    if rows != [] {
      RowClassesSize(rows[..|rows| - 1], c);
    }
  }

  lemma {:induction false} ReceiptClassesSize(receipts: seq<Receipt>, c: Ctx)
    ensures |Gather(receipts, ReceiptClassOf(c))| == |receipts|
  {
    if receipts != [] {
      ReceiptClassesSize(receipts[..|receipts| - 1], c);
    }
  }
}
