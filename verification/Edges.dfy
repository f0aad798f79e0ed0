/** The bookkeeping across the edges of a run: what waits on one side is what the other side
    carries, and along the whole run the two cancel out. It is stated over any classing of
    receipts and rows that fits. */
module EdgeAccounting {
  import opened Records
  import opened Bags
  import opened Reconcile
  import opened Audit
  import opened Windows

  datatype Classing = Classing(receipts: map<Receipt, ReceiptClass>, rows: map<Row, RowClass>) {
    function OfReceipt(r: Receipt): ReceiptClass { if r in receipts then receipts[r] else Aborted }

    function OfRow(s: Row): RowClass { if s in rows then rows[s] else RowUncovered }
  }

  /** What a receipt or a row says moved. */
  datatype Paid = Paid(ref: string, amount: string, currency: string)

  function PaidBy(r: Receipt): Paid { Paid(RefText(r), r.amount, r.currency) }

  function PaidIn(s: Row): Paid { Paid(s.ref, s.amount, s.currency) }

  ghost function SettledPaid(): Receipt -> multiset<Paid> {
    (r: Receipt) => if r.settled then multiset{PaidBy(r)} else multiset{}
  }

  ghost function RowPaid(): Row -> multiset<Paid> { (s: Row) => multiset{PaidIn(s)} }

  ghost function MatchedReceiptPaid(c: Classing): Receipt -> multiset<Paid> {
    (r: Receipt) => if c.OfReceipt(r) == Matched then multiset{PaidBy(r)} else multiset{}
  }

  ghost function CarriedPaid(c: Classing, edge: Edge): Receipt -> multiset<Paid> {
    (r: Receipt) => if c.OfReceipt(r) == Carried(edge) then multiset{PaidBy(r)} else multiset{}
  }

  ghost function MatchedRowPaid(c: Classing): Row -> multiset<Paid> {
    (s: Row) => if c.OfRow(s) == RowMatched then multiset{PaidIn(s)} else multiset{}
  }

  ghost function DeferredRowPaid(c: Classing): Row -> multiset<Paid> {
    (s: Row) => if c.OfRow(s).RowDeferred? then multiset{PaidIn(s)} else multiset{}
  }

  ghost function CarriedRefs(c: Classing): Receipt -> multiset<EdgeRef> {
    (r: Receipt) => if c.OfReceipt(r).Carried? then multiset{EdgeRef(RefText(r), c.OfReceipt(r).edge)} else multiset{}
  }

  ghost function DeferredRefs(c: Classing): Row -> multiset<DeferredRow> {
    (s: Row) => match c.OfRow(s)
      case RowDeferred(open, close) => multiset{DeferredRow(s.ref, open, close)}
      case _ => multiset{}
  }

  ghost function MatchedRefs(c: Classing): Row -> multiset<string> {
    (s: Row) => if c.OfRow(s) == RowMatched then multiset{s.ref} else multiset{}
  }

  ghost predicate ReceiptFits(r: Receipt, rows: seq<Row>, c: Classing) {
    && (if r.settled then c.OfReceipt(r) == Matched || c.OfReceipt(r).Carried? else c.OfReceipt(r) == Aborted)
    && (c.OfReceipt(r) == Matched ==> r.ref.Some? && r.ref.value in Gather(rows, RowRefOf()))
  }

  ghost predicate RowFits(s: Row, receipts: seq<Receipt>, c: Classing) {
    (c.OfRow(s) == RowMatched && s.ref in Gather(receipts, RefOf())) || c.OfRow(s).RowDeferred?
  }

  predicate PairFits(r: Receipt, s: Row, c: Classing) {
    HasRef(r, s.ref) ==> c.OfReceipt(r) == Matched && c.OfRow(s) == RowMatched && SameTerms(r, s)
  }

  ghost predicate RefsSingle(receipts: seq<Receipt>, rows: seq<Row>) {
    forall ref :: Gather(receipts, RefOf())[ref] <= 1 && Gather(rows, RowRefOf())[ref] <= 1
  }

  /** A window with nothing wrong in it but rows that wait at an edge. */
  ghost predicate Tidy(receipts: seq<Receipt>, rows: seq<Row>, c: Classing) {
    && RefsSingle(receipts, rows)
    && (forall r :: r in receipts ==> ReceiptFits(r, rows, c))
    && (forall s :: s in rows ==> RowFits(s, receipts, c))
    && (forall r, s :: r in receipts && s in rows ==> PairFits(r, s, c))
  }

  lemma {:induction false} ReceiptsSplit(receipts: seq<Receipt>, rows: seq<Row>, c: Classing)
    requires Tidy(receipts, rows, c)
    ensures Gather(receipts, SettledPaid())
      == Gather(receipts, MatchedReceiptPaid(c)) + Gather(receipts, CarriedPaid(c, Opening))
      + Gather(receipts, CarriedPaid(c, Closing))
  {
    forall i | 0 <= i < |receipts|
      ensures SettledPaid()(receipts[i]) == MatchedReceiptPaid(c)(receipts[i]) + CarriedAnyPaid(c)(receipts[i])
      ensures CarriedAnyPaid(c)(receipts[i])
        == CarriedPaid(c, Opening)(receipts[i]) + CarriedPaid(c, Closing)(receipts[i])
    {
      assert receipts[i] in receipts && ReceiptFits(receipts[i], rows, c);
      PaidSplit(receipts[i], c);
    }
    GatherSplit(receipts, SettledPaid(), MatchedReceiptPaid(c), CarriedAnyPaid(c));
    GatherSplit(receipts, CarriedAnyPaid(c), CarriedPaid(c, Opening), CarriedPaid(c, Closing));
  }

  ghost function CarriedAnyPaid(c: Classing): Receipt -> multiset<Paid> {
    (r: Receipt) => if c.OfReceipt(r).Carried? then multiset{PaidBy(r)} else multiset{}
  }

  lemma {:induction false} PaidSplit(r: Receipt, c: Classing)
    requires if r.settled then c.OfReceipt(r) == Matched || c.OfReceipt(r).Carried? else c.OfReceipt(r) == Aborted
    ensures SettledPaid()(r) == MatchedReceiptPaid(c)(r) + CarriedAnyPaid(c)(r)
    ensures CarriedAnyPaid(c)(r) == CarriedPaid(c, Opening)(r) + CarriedPaid(c, Closing)(r)
  {
    var k := c.OfReceipt(r);
    if k.Carried? {
      assert k.edge == Opening || k.edge == Closing;
    }
  }

  lemma {:induction false} RowsSplit(receipts: seq<Receipt>, rows: seq<Row>, c: Classing)
    requires Tidy(receipts, rows, c)
    ensures Gather(rows, RowPaid()) == Gather(rows, MatchedRowPaid(c)) + Gather(rows, DeferredRowPaid(c))
  {
    forall i | 0 <= i < |rows| ensures RowPaid()(rows[i]) == MatchedRowPaid(c)(rows[i]) + DeferredRowPaid(c)(rows[i]) {
      assert rows[i] in rows && RowFits(rows[i], receipts, c);
    }
    GatherSplit(rows, RowPaid(), MatchedRowPaid(c), DeferredRowPaid(c));
  }

  lemma {:induction false} RowNaming(rows: seq<Row>, ref: string) returns (i: nat)
    requires ref in Gather(rows, RowRefOf())
    ensures i < |rows| && rows[i].ref == ref
  {
    i := GatherFind(rows, RowRefOf(), ref);
  }

  lemma {:induction false} ReceiptNaming(receipts: seq<Receipt>, ref: string) returns (i: nat)
    requires ref in Gather(receipts, RefOf())
    ensures i < |receipts| && HasRef(receipts[i], ref)
  {
    i := GatherFind(receipts, RefOf(), ref);
  }

  /** Two rows of one ref are one row, where no ref repeats. */
  lemma {:induction false} OneRowPerRef(rows: seq<Row>, i: nat, j: nat)
    requires i < |rows| && j < |rows| && rows[i].ref == rows[j].ref
    requires Gather(rows, RowRefOf())[rows[i].ref] <= 1
    ensures i == j
  {
    if i < j {
      GatherTwice(rows, i, j, RowRefOf(), rows[i].ref);
    } else if j < i {
      GatherTwice(rows, j, i, RowRefOf(), rows[i].ref);
    }
  }

  /** What is paid under a ref is gathered no more often than the ref. */
  lemma {:induction false} MatchedAtMostOnce(receipts: seq<Receipt>, rows: seq<Row>, c: Classing, u: Paid)
    requires Tidy(receipts, rows, c)
    ensures Gather(receipts, MatchedReceiptPaid(c))[u] <= 1
    ensures Gather(rows, MatchedRowPaid(c))[u] <= 1
  {
    forall i | 0 <= i < |receipts| ensures MatchedReceiptPaid(c)(receipts[i])[u] <= RefOf()(receipts[i])[u.ref] {
      assert receipts[i] in receipts && ReceiptFits(receipts[i], rows, c);
    }
    GatherAtMost(receipts, MatchedReceiptPaid(c), u, RefOf(), u.ref);
    GatherAtMost(rows, MatchedRowPaid(c), u, RowRefOf(), u.ref);
  }

  lemma {:induction false} RowOfMatched(receipts: seq<Receipt>, rows: seq<Row>, c: Classing, k: nat) returns (i: nat)
    requires Tidy(receipts, rows, c) && k < |receipts| && c.OfReceipt(receipts[k]) == Matched
    ensures i < |rows| && c.OfRow(rows[i]) == RowMatched && PaidIn(rows[i]) == PaidBy(receipts[k])
  {
    assert receipts[k] in receipts && ReceiptFits(receipts[k], rows, c);
    i := RowNaming(rows, receipts[k].ref.value);
    assert rows[i] in rows && PairFits(receipts[k], rows[i], c);
  }

  lemma {:induction false} ReceiptOfMatched(
      receipts: seq<Receipt>, rows: seq<Row>, c: Classing, k: nat) returns (i: nat)
    requires Tidy(receipts, rows, c) && k < |rows| && c.OfRow(rows[k]) == RowMatched
    ensures i < |receipts| && c.OfReceipt(receipts[i]) == Matched && PaidBy(receipts[i]) == PaidIn(rows[k])
  {
    assert rows[k] in rows && RowFits(rows[k], receipts, c);
    i := ReceiptNaming(receipts, rows[k].ref);
    assert receipts[i] in receipts && PairFits(receipts[i], rows[k], c);
  }

  lemma {:induction false} MatchedReceiptHasRow(receipts: seq<Receipt>, rows: seq<Row>, c: Classing, u: Paid)
    requires Tidy(receipts, rows, c) && u in Gather(receipts, MatchedReceiptPaid(c))
    ensures u in Gather(rows, MatchedRowPaid(c))
  {
    var k := GatherFind(receipts, MatchedReceiptPaid(c), u);
    var i := RowOfMatched(receipts, rows, c, k);
    GatherHas(rows, i, MatchedRowPaid(c), PaidIn(rows[i]));
  }

  lemma {:induction false} MatchedRowHasReceipt(receipts: seq<Receipt>, rows: seq<Row>, c: Classing, u: Paid)
    requires Tidy(receipts, rows, c) && u in Gather(rows, MatchedRowPaid(c))
    ensures u in Gather(receipts, MatchedReceiptPaid(c))
  {
    var k := GatherFind(rows, MatchedRowPaid(c), u);
    var i := ReceiptOfMatched(receipts, rows, c, k);
    GatherHas(receipts, i, MatchedReceiptPaid(c), PaidBy(receipts[i]));
  }

  lemma {:induction false} MatchedPaidAgree(receipts: seq<Receipt>, rows: seq<Row>, c: Classing)
    requires Tidy(receipts, rows, c)
    ensures Gather(receipts, MatchedReceiptPaid(c)) == Gather(rows, MatchedRowPaid(c))
  {
    forall u ensures Gather(receipts, MatchedReceiptPaid(c))[u] == Gather(rows, MatchedRowPaid(c))[u] {
      MatchedAtMostOnce(receipts, rows, c, u);
      if u in Gather(receipts, MatchedReceiptPaid(c)) {
        MatchedReceiptHasRow(receipts, rows, c, u);
      } else if u in Gather(rows, MatchedRowPaid(c)) {
        MatchedRowHasReceipt(receipts, rows, c, u);
      }
    }
  }

  // --------------------------------------------------------------- across the edges

  /** One window as reconciled: the receipts in scope, the rows, and what they are classed by. */
  datatype Side = Side(receipts: seq<Receipt>, rows: seq<Row>, c: Classing)

  function Beside(i: nat, edge: Edge): int { if edge == Closing then i + 1 else i - 1 }

  /** A row of the window beside this one says what the receipt says. */
  predicate NamedBeside(sides: seq<Side>, i: nat, r: Receipt, edge: Edge) {
    0 <= Beside(i, edge) < |sides|
    && exists k :: 0 <= k < |sides[Beside(i, edge)].rows| && PaidIn(sides[Beside(i, edge)].rows[k]) == PaidBy(r)
  }

  ghost predicate Listed(s: Side, d: Detail) {
    && multiset(d.carried) == Gather(s.receipts, CarriedRefs(s.c))
    && multiset(d.deferredRows) == Gather(s.rows, DeferredRefs(s.c))
    && multiset(d.matched) == Gather(s.rows, MatchedRefs(s.c))
  }

  ghost predicate CarriedNamed(sides: seq<Side>, i: nat)
    requires i < |sides|
  {
    forall r :: r in sides[i].receipts && sides[i].c.OfReceipt(r).Carried? ==>
      NamedBeside(sides, i, r, sides[i].c.OfReceipt(r).edge)
  }

  ghost predicate AllResolved(details: seq<Detail>, i: nat)
    requires i < |details|
  {
    forall d :: d in details[i].deferredRows ==> VerdictOf(details, i, d) == Resolved
  }

  /** What a clean run has shown of one of its windows. */
  ghost predicate Sound(sides: seq<Side>, details: seq<Detail>, i: nat)
    requires i < |sides| == |details|
  {
    && Tidy(sides[i].receipts, sides[i].rows, sides[i].c)
    && Listed(sides[i], details[i])
    && CarriedNamed(sides, i)
    && AllResolved(details, i)
  }

  ghost predicate UsedOnce(details: seq<Detail>) { forall u :: Uses(details)[u] <= 1 }

  ghost predicate Joined(sides: seq<Side>, details: seq<Detail>) {
    |sides| == |details| && UsedOnce(details) && forall i :: 0 <= i < |sides| ==> Sound(sides, details, i)
  }

  // ---------------------------------------------------------------- uses of one row

  lemma {:induction false} MatchedUses(matched: seq<string>, i: int, ref: string)
    ensures Gather(matched, MatchedUse(i))[Use(i, ref)] == multiset(matched)[ref]
  {
    if matched != [] {
      MatchedUses(matched[..|matched| - 1], i, ref);
      assert matched == matched[..|matched| - 1] + [matched[|matched| - 1]];
    }
  }

  lemma {:induction false} CarriedUses(carried: seq<EdgeRef>, i: int, e: EdgeRef)
    ensures multiset(carried)[e] <= Gather(carried, CarriedUse(i))[UsedBy(i, e)]
  {
    if carried != [] {
      CarriedUses(carried[..|carried| - 1], i, e);
      assert carried == carried[..|carried| - 1] + [carried[|carried| - 1]];
    }
  }

  function CarriedTimes(details: seq<Detail>, i: int, e: EdgeRef): nat {
    if 0 <= i < |details| then multiset(details[i].carried)[e] else 0
  }

  /** How often each window uses the row. */
  ghost function UseCounts(details: seq<Detail>, u: Use): (n: seq<nat>)
    ensures |n| == |details|
    ensures forall i :: 0 <= i < |details| ==> n[i] == UsesAt(i, details[i])[u]
  {
    if details == [] then [] else
    UseCounts(details[..|details| - 1], u) + [UsesAt(|details| - 1, details[|details| - 1])[u]]
  }

  lemma {:induction false} UsesAreSummed(details: seq<Detail>, u: Use)
    ensures Uses(details)[u] == SumNat(UseCounts(details, u))
  {
    if details != [] {
      UsesAreSummed(details[..|details| - 1], u);
      var n := UseCounts(details, u);
      assert n[..|n| - 1] == UseCounts(details[..|details| - 1], u);
    }
  }

  lemma {:induction false} MatchedIsUse(details: seq<Detail>, j: nat, ref: string)
    requires j < |details|
    ensures multiset(details[j].matched)[ref] <= NatAt(UseCounts(details, Use(j, ref)), j)
  {
    MatchedUses(details[j].matched, j, ref);
  }

  lemma {:induction false} CarriedIsUse(details: seq<Detail>, i: int, e: EdgeRef, u: Use)
    requires u == UsedBy(i, e)
    ensures CarriedTimes(details, i, e) <= NatAt(UseCounts(details, u), i)
  {
    if 0 <= i < |details| {
      CarriedUses(details[i].carried, i, e);
    }
  }

  /** The run counts every use of a row: matched in its window, carried by either side. */
  lemma {:induction false} UsesCount(details: seq<Detail>, j: nat, ref: string)
    requires j < |details|
    ensures multiset(details[j].matched)[ref] + CarriedTimes(details, j - 1, EdgeRef(ref, Closing))
        + CarriedTimes(details, j + 1, EdgeRef(ref, Opening)) <= Uses(details)[Use(j, ref)]
  {
    UsesAreSummed(details, Use(j, ref));
    MatchedIsUse(details, j, ref);
    CarriedIsUse(details, j - 1, EdgeRef(ref, Closing), Use(j, ref));
    CarriedIsUse(details, j + 1, EdgeRef(ref, Opening), Use(j, ref));
    SumNear(UseCounts(details, Use(j, ref)), j);
  }

  // -------------------------------------------- what is deferred is what is carried

  /** What the receipts of a window carry past one of its edges. */
  ghost function CarriedAt(sides: seq<Side>, i: int, edge: Edge): multiset<Paid> {
    if 0 <= i < |sides| then Gather(sides[i].receipts, CarriedPaid(sides[i].c, edge)) else multiset{}
  }

  ghost function DeferredAt(sides: seq<Side>, i: int): multiset<Paid> {
    if 0 <= i < |sides| then Gather(sides[i].rows, DeferredRowPaid(sides[i].c)) else multiset{}
  }

  ghost function GivenTo(sides: seq<Side>, j: int): multiset<Paid> {
    CarriedAt(sides, j - 1, Closing) + CarriedAt(sides, j + 1, Opening)
  }

  lemma {:induction false} CarriedPaidIsListed(s: Side, d: Detail, edge: Edge, u: Paid)
    requires Listed(s, d)
    ensures Gather(s.receipts, CarriedPaid(s.c, edge))[u] <= multiset(d.carried)[EdgeRef(u.ref, edge)]
  {
    forall i | 0 <= i < |s.receipts|
      ensures CarriedPaid(s.c, edge)(s.receipts[i])[u] <= CarriedRefs(s.c)(s.receipts[i])[EdgeRef(u.ref, edge)]
    {
    }
    GatherAtMost(s.receipts, CarriedPaid(s.c, edge), u, CarriedRefs(s.c), EdgeRef(u.ref, edge));
  }

  lemma {:induction false} CarriedAtIsListed(sides: seq<Side>, details: seq<Detail>, i: int, edge: Edge, u: Paid)
    requires Joined(sides, details)
    ensures CarriedAt(sides, i, edge)[u] <= CarriedTimes(details, i, EdgeRef(u.ref, edge))
  {
    if 0 <= i < |sides| {
      assert Sound(sides, details, i);
      CarriedPaidIsListed(sides[i], details[i], edge, u);
    }
  }

  lemma {:induction false} GivenAtMostOnce(sides: seq<Side>, details: seq<Detail>, j: nat, u: Paid)
    requires Joined(sides, details) && j < |sides|
    ensures GivenTo(sides, j)[u] + multiset(details[j].matched)[u.ref] <= 1
  {
    UsesCount(details, j, u.ref);
    CarriedAtIsListed(sides, details, j - 1, Closing, u);
    CarriedAtIsListed(sides, details, j + 1, Opening, u);
  }

  lemma {:induction false} DeferredAtMostOnce(sides: seq<Side>, details: seq<Detail>, j: nat, u: Paid)
    requires Joined(sides, details) && j < |sides|
    ensures DeferredAt(sides, j)[u] <= 1
  {
    assert Sound(sides, details, j);
    var rows, c := sides[j].rows, sides[j].c;
    forall i | 0 <= i < |rows| ensures DeferredRowPaid(c)(rows[i])[u] <= RowRefOf()(rows[i])[u.ref] {
    }
    GatherAtMost(rows, DeferredRowPaid(c), u, RowRefOf(), u.ref);
  }

  lemma {:induction false} GivenCounts(sides: seq<Side>, j: nat, i: nat, edge: Edge, u: Paid)
    requires Beside(i, edge) == j && u in CarriedAt(sides, i, edge)
    ensures GivenTo(sides, j)[u] >= 1
  {
    var before, behind := CarriedAt(sides, j - 1, Closing), CarriedAt(sides, j + 1, Opening);
    if edge == Closing { assert u in before; } else { assert u in behind; }
    InEither(before, behind, u);
  }

  lemma {:induction false} InEither(a: multiset<Paid>, b: multiset<Paid>, u: Paid)
    ensures u in a || u in b ==> (a + b)[u] >= 1
  {
  }

  /** The row of the window beside that a carried receipt stands for. */
  lemma {:induction false} CarriedHasRow(
      sides: seq<Side>, details: seq<Detail>, i: nat, edge: Edge, u: Paid) returns (k: nat)
    requires Joined(sides, details) && i < |sides| && u in CarriedAt(sides, i, edge)
    ensures 0 <= Beside(i, edge) < |sides|
    ensures k < |sides[Beside(i, edge)].rows| && PaidIn(sides[Beside(i, edge)].rows[k]) == u
  {
    assert Sound(sides, details, i);
    var m := GatherFind(sides[i].receipts, CarriedPaid(sides[i].c, edge), u);
    var r := sides[i].receipts[m];
    assert NamedBeside(sides, i, r, edge);
    k :| 0 <= k < |sides[Beside(i, edge)].rows| && PaidIn(sides[Beside(i, edge)].rows[k]) == PaidBy(r);
  }

  /** A row named from next door is not matched here as well, and is not repeated or uncovered:
      it waits at the edge. */
  lemma {:induction false} GivenIsDeferred(sides: seq<Side>, details: seq<Detail>, j: nat, i: nat, edge: Edge, u: Paid)
    requires Joined(sides, details) && i < |sides| && Beside(i, edge) == j && u in CarriedAt(sides, i, edge)
    ensures u in DeferredAt(sides, j)
  {
    var k := CarriedHasRow(sides, details, i, edge, u);
    GivenAtMostOnce(sides, details, j, u);
    GivenCounts(sides, j, i, edge, u);
    assert Sound(sides, details, j);
    NotMatched(sides[j], details[j], k);
    WaitsAtEdge(sides[j], k);
  }

  lemma {:induction false} NotMatched(s: Side, d: Detail, k: nat)
    requires Listed(s, d) && k < |s.rows| && multiset(d.matched)[s.rows[k].ref] == 0
    ensures s.c.OfRow(s.rows[k]) != RowMatched
  {
    if s.c.OfRow(s.rows[k]) == RowMatched {
      GatherHas(s.rows, k, MatchedRefs(s.c), s.rows[k].ref);
    }
  }

  lemma {:induction false} WaitsAtEdge(s: Side, k: nat)
    requires Tidy(s.receipts, s.rows, s.c) && k < |s.rows| && s.c.OfRow(s.rows[k]) != RowMatched
    ensures PaidIn(s.rows[k]) in Gather(s.rows, DeferredRowPaid(s.c))
  {
    assert s.rows[k] in s.rows && RowFits(s.rows[k], s.receipts, s.c);
    GatherHas(s.rows, k, DeferredRowPaid(s.c), PaidIn(s.rows[k]));
  }

  lemma {:induction false} DeferralListed(s: Side, d: Detail, u: Paid) returns (k: nat, e: DeferredRow)
    requires Listed(s, d) && u in Gather(s.rows, DeferredRowPaid(s.c))
    ensures k < |s.rows| && PaidIn(s.rows[k]) == u && e.ref == u.ref && e in d.deferredRows
  {
    k := GatherFind(s.rows, DeferredRowPaid(s.c), u);
    e := DeferredRow(s.rows[k].ref, s.c.OfRow(s.rows[k]).opening, s.c.OfRow(s.rows[k]).closing);
    GatherHas(s.rows, k, DeferredRefs(s.c), e);
    assert e in multiset(d.deferredRows);
  }

  /** An entry carried over the facing edge belongs to the very row that waits there. */
  lemma {:induction false} CarriedBesideIsGiven(
      sides: seq<Side>, details: seq<Detail>, j: nat, k: nat, i: nat, edge: Edge)
    requires Joined(sides, details) && j < |sides| && k < |sides[j].rows| && i < |sides| && Beside(i, edge) == j
    requires EdgeRef(sides[j].rows[k].ref, edge) in details[i].carried
    ensures PaidIn(sides[j].rows[k]) in CarriedAt(sides, i, edge)
  {
    assert Sound(sides, details, i);
    var u := EntryHasReceipt(sides[i], details[i], sides[j].rows[k].ref, edge);
    var l := CarriedHasRow(sides, details, i, edge, u);
    assert Sound(sides, details, j);
    OneRowPerRef(sides[j].rows, k, l);
  }

  lemma {:induction false} EntryHasReceipt(s: Side, d: Detail, ref: string, edge: Edge) returns (u: Paid)
    requires Listed(s, d) && EdgeRef(ref, edge) in d.carried
    ensures u.ref == ref && u in Gather(s.receipts, CarriedPaid(s.c, edge))
  {
    assert EdgeRef(ref, edge) in multiset(d.carried);
    var m := GatherFind(s.receipts, CarriedRefs(s.c), EdgeRef(ref, edge));
    u := PaidBy(s.receipts[m]);
    GatherHas(s.receipts, m, CarriedPaid(s.c, edge), u);
  }

  lemma {:induction false} DeferredIsGiven(sides: seq<Side>, details: seq<Detail>, j: nat, u: Paid)
    requires Joined(sides, details) && j < |sides| && u in DeferredAt(sides, j)
    ensures u in CarriedAt(sides, j - 1, Closing) || u in CarriedAt(sides, j + 1, Opening)
  {
    assert Sound(sides, details, j);
    var k, e := DeferralListed(sides[j], details[j], u);
    assert VerdictOf(details, j, e) == Resolved;
    if j > 0 && EdgeRef(e.ref, Closing) in details[j - 1].carried {
      CarriedBesideIsGiven(sides, details, j, k, j - 1, Closing);
    } else {
      CarriedBesideIsGiven(sides, details, j, k, j + 1, Opening);
    }
  }

  lemma {:induction false} GivenFromBelow(sides: seq<Side>, details: seq<Detail>, j: nat, u: Paid)
    requires Joined(sides, details) && u in CarriedAt(sides, j - 1, Closing)
    ensures u in DeferredAt(sides, j)
  {
    GivenIsDeferred(sides, details, j, j - 1, Closing, u);
  }

  lemma {:induction false} GivenFromAbove(sides: seq<Side>, details: seq<Detail>, j: nat, u: Paid)
    requires Joined(sides, details) && u in CarriedAt(sides, j + 1, Opening)
    ensures u in DeferredAt(sides, j)
  {
    GivenIsDeferred(sides, details, j, j + 1, Opening, u);
  }

  lemma {:induction false} DeferredIffGiven(sides: seq<Side>, details: seq<Detail>, j: nat, u: Paid)
    requires Joined(sides, details) && j < |sides|
    ensures u in DeferredAt(sides, j) <==> u in GivenTo(sides, j)
  {
    if u in DeferredAt(sides, j) {
      DeferredIsGiven(sides, details, j, u);
    } else if u in CarriedAt(sides, j - 1, Closing) {
      GivenFromBelow(sides, details, j, u);
    } else if u in CarriedAt(sides, j + 1, Opening) {
      GivenFromAbove(sides, details, j, u);
    }
  }

  /** Across inner edges, what waits on the row side is exactly what the neighbours carry. */
  lemma {:induction false} DeferredEqualsGiven(sides: seq<Side>, details: seq<Detail>, j: nat)
    requires Joined(sides, details) && j < |sides|
    ensures DeferredAt(sides, j) == GivenTo(sides, j)
  {
    forall u ensures DeferredAt(sides, j)[u] == GivenTo(sides, j)[u] {
      DeferredAtMostOnce(sides, details, j, u);
      GivenAtMostOnce(sides, details, j, u);
      DeferredIffGiven(sides, details, j, u);
    }
  }

  // --------------------------------------------------------------------- telescoping

  ghost function SettledLine(sides: seq<Side>): (s: seq<multiset<Paid>>)
    ensures |s| == |sides| && forall i :: 0 <= i < |s| ==> s[i] == Gather(sides[i].receipts, SettledPaid())
  {
    seq(|sides|, i requires 0 <= i < |sides| => Gather(sides[i].receipts, SettledPaid()))
  }

  ghost function RowLine(sides: seq<Side>): (s: seq<multiset<Paid>>)
    ensures |s| == |sides| && forall i :: 0 <= i < |s| ==> s[i] == Gather(sides[i].rows, RowPaid())
  {
    seq(|sides|, i requires 0 <= i < |sides| => Gather(sides[i].rows, RowPaid()))
  }

  ghost function MatchedLine(sides: seq<Side>): (s: seq<multiset<Paid>>)
    ensures |s| == |sides| && forall i :: 0 <= i < |s| ==> s[i] == Gather(sides[i].rows, MatchedRowPaid(sides[i].c))
  {
    seq(|sides|, i requires 0 <= i < |sides| => Gather(sides[i].rows, MatchedRowPaid(sides[i].c)))
  }

  ghost function CarriedLine(sides: seq<Side>, edge: Edge): (s: seq<multiset<Paid>>)
    ensures |s| == |sides| && forall i :: 0 <= i < |s| ==> s[i] == CarriedAt(sides, i, edge)
  {
    seq(|sides|, i requires 0 <= i < |sides| => CarriedAt(sides, i, edge))
  }

  /** The receipts of a window are its matched rows and what it carries both ways. */
  lemma {:induction false} ReceiptBalance(sides: seq<Side>, details: seq<Detail>, i: nat)
    requires Joined(sides, details) && i < |sides|
    ensures SettledLine(sides)[i]
      == MatchedLine(sides)[i] + CarriedLine(sides, Opening)[i] + CarriedLine(sides, Closing)[i]
  {
    assert Sound(sides, details, i);
    ReceiptsSplit(sides[i].receipts, sides[i].rows, sides[i].c);
    MatchedPaidAgree(sides[i].receipts, sides[i].rows, sides[i].c);
  }

  /** Its rows are its matched rows and what both neighbours carry to it. */
  lemma {:induction false} RowBalance(sides: seq<Side>, details: seq<Detail>, i: nat)
    requires Joined(sides, details) && i < |sides|
    ensures RowLine(sides)[i]
      == MatchedLine(sides)[i] + BagAt(CarriedLine(sides, Closing), i - 1) + BagAt(CarriedLine(sides, Opening), i + 1)
  {
    assert Sound(sides, details, i);
    RowsSplit(sides[i].receipts, sides[i].rows, sides[i].c);
    DeferredEqualsGiven(sides, details, i);
  }

  /** No receipt of a clean run looks outside it. */
  lemma {:induction false} OuterEdgeCarriesNothing(sides: seq<Side>, details: seq<Detail>, i: nat, edge: Edge)
    requires Joined(sides, details) && i < |sides| && !(0 <= Beside(i, edge) < |sides|)
    ensures CarriedAt(sides, i, edge) == multiset{}
  {
    forall u ensures CarriedAt(sides, i, edge)[u] == 0 {
      if u in CarriedAt(sides, i, edge) {
        var k := CarriedHasRow(sides, details, i, edge, u);
      }
    }
  }

  lemma {:induction false} EndsCarryNothing(sides: seq<Side>, details: seq<Detail>)
    requires Joined(sides, details)
    ensures BagAt(CarriedLine(sides, Opening), 0) == multiset{}
    ensures BagAt(CarriedLine(sides, Closing), |sides| - 1) == multiset{}
  {
    if sides != [] {
      OuterEdgeCarriesNothing(sides, details, 0, Opening);
      OuterEdgeCarriesNothing(sides, details, |sides| - 1, Closing);
    }
  }

  lemma {:induction false} ReceiptsLeave(sides: seq<Side>, details: seq<Detail>)
    requires Joined(sides, details)
    ensures Leaves(SettledLine(sides), MatchedLine(sides), CarriedLine(sides, Opening), CarriedLine(sides, Closing))
  {
    var r, m, down, up :=
      SettledLine(sides), MatchedLine(sides), CarriedLine(sides, Opening), CarriedLine(sides, Closing);
    forall i | 0 <= i < |r| ensures r[i] == m[i] + down[i] + up[i] { ReceiptBalance(sides, details, i); }
  }

  lemma {:induction false} RowsArrive(sides: seq<Side>, details: seq<Detail>)
    requires Joined(sides, details)
    ensures Arrives(RowLine(sides), MatchedLine(sides), CarriedLine(sides, Opening), CarriedLine(sides, Closing))
  {
    var w, m, down, up := RowLine(sides), MatchedLine(sides), CarriedLine(sides, Opening), CarriedLine(sides, Closing);
    forall i | 0 <= i < |w| ensures w[i] == m[i] + BagAt(up, i - 1) + BagAt(down, i + 1) {
      RowBalance(sides, details, i);
    }
  }

  lemma {:induction false} JoinedBalances(sides: seq<Side>, details: seq<Detail>)
    requires Joined(sides, details)
    ensures SumBags(SettledLine(sides)) == SumBags(RowLine(sides))
  {
    ReceiptsLeave(sides, details);
    RowsArrive(sides, details);
    EndsCarryNothing(sides, details);
    TelescopeWhole(
      SettledLine(sides), RowLine(sides), MatchedLine(sides), CarriedLine(sides, Opening), CarriedLine(sides, Closing));
  }

  // ------------------------------------------------------------------ carried is resolved

  ghost function DeferredLine(sides: seq<Side>): (s: seq<multiset<Paid>>)
    ensures |s| == |sides| && forall i :: 0 <= i < |s| ==> s[i] == DeferredAt(sides, i)
  {
    seq(|sides|, i requires 0 <= i < |sides| => DeferredAt(sides, i))
  }

  ghost function CarriedBoth(sides: seq<Side>): (s: seq<multiset<Paid>>)
    ensures |s| == |sides|
    ensures forall i :: 0 <= i < |s| ==> s[i] == CarriedAt(sides, i, Opening) + CarriedAt(sides, i, Closing)
  {
    seq(|sides|, i requires 0 <= i < |sides| => CarriedAt(sides, i, Opening) + CarriedAt(sides, i, Closing))
  }

  ghost function EmptyLine(n: nat): (s: seq<multiset<Paid>>)
    ensures |s| == n && forall i :: 0 <= i < n ==> s[i] == multiset{}
  {
    seq(n, _ => multiset{})
  }

  lemma {:induction false} CarriedBalance(sides: seq<Side>, i: nat)
    requires i < |sides|
    ensures CarriedBoth(sides)[i] == multiset{} + CarriedLine(sides, Opening)[i] + CarriedLine(sides, Closing)[i]
  {
  }

  lemma {:induction false} DeferredBalance(sides: seq<Side>, details: seq<Detail>, i: nat)
    requires Joined(sides, details) && i < |sides|
    ensures DeferredLine(sides)[i]
      == multiset{} + BagAt(CarriedLine(sides, Closing), i - 1) + BagAt(CarriedLine(sides, Opening), i + 1)
  {
    DeferredEqualsGiven(sides, details, i);
  }

  /** Every row that waits is carried by one receipt, and every carried receipt has such a row. */
  lemma {:induction false} DeferredAreCarried(sides: seq<Side>, details: seq<Detail>)
    requires Joined(sides, details)
    ensures SumBags(CarriedBoth(sides)) == SumBags(DeferredLine(sides))
  {
    var r, w, m := CarriedBoth(sides), DeferredLine(sides), EmptyLine(|sides|);
    var down, up := CarriedLine(sides, Opening), CarriedLine(sides, Closing);
    forall i | 0 <= i < |r| ensures r[i] == m[i] + down[i] + up[i] { CarriedBalance(sides, i); }
    forall i | 0 <= i < |r| ensures w[i] == m[i] + BagAt(up, i - 1) + BagAt(down, i + 1) {
      DeferredBalance(sides, details, i);
    }
    EndsCarryNothing(sides, details);
    TelescopeWhole(r, w, m, down, up);
  }

  lemma {:induction false} CarriedSizes(receipts: seq<Receipt>, c: Classing)
    ensures |Gather(receipts, CarriedRefs(c))|
      == |Gather(receipts, CarriedPaid(c, Opening))| + |Gather(receipts, CarriedPaid(c, Closing))|
  {
    if receipts != [] {
      var init, last := receipts[..|receipts| - 1], receipts[|receipts| - 1];
      CarriedSizes(init, c);
      CarriedSize(last, c);
      SizesAdd(Gather(init, CarriedRefs(c)), CarriedRefs(c)(last));
      SizesAdd(Gather(init, CarriedPaid(c, Opening)), CarriedPaid(c, Opening)(last));
      SizesAdd(Gather(init, CarriedPaid(c, Closing)), CarriedPaid(c, Closing)(last));
    }
  }

  lemma {:induction false} CarriedSize(r: Receipt, c: Classing)
    ensures |CarriedRefs(c)(r)| == |CarriedPaid(c, Opening)(r)| + |CarriedPaid(c, Closing)(r)|
  {
    var k := c.OfReceipt(r);
    if k.Carried? {
      assert k.edge == Opening || k.edge == Closing;
    }
  }

  lemma {:induction false} SizesAdd<T>(a: multiset<T>, b: multiset<T>)
    ensures |a + b| == |a| + |b|
  {
  }

  lemma {:induction false} DeferredSizes(rows: seq<Row>, c: Classing)
    ensures |Gather(rows, DeferredRefs(c))| == |Gather(rows, DeferredRowPaid(c))|
  {
    if rows != [] {
      var init, last := rows[..|rows| - 1], rows[|rows| - 1];
      DeferredSizes(init, c);
      SizesAdd(Gather(init, DeferredRefs(c)), DeferredRefs(c)(last));
      SizesAdd(Gather(init, DeferredRowPaid(c)), DeferredRowPaid(c)(last));
    }
  }

  function CarriedCounts(details: seq<Detail>): (n: seq<nat>)
    ensures |n| == |details| && forall i :: 0 <= i < |n| ==> n[i] == |details[i].carried|
  {
    seq(|details|, i requires 0 <= i < |details| => |details[i].carried|)
  }

  function DeferredCounts(details: seq<Detail>): (n: seq<nat>)
    ensures |n| == |details| && forall i :: 0 <= i < |n| ==> n[i] == |details[i].deferredRows|
  {
    seq(|details|, i requires 0 <= i < |details| => |details[i].deferredRows|)
  }

  lemma {:induction false} ListedSizes(s: Side, d: Detail)
    requires Listed(s, d)
    ensures |d.carried|
      == |Gather(s.receipts, CarriedPaid(s.c, Opening))| + |Gather(s.receipts, CarriedPaid(s.c, Closing))|
    ensures |d.deferredRows| == |Gather(s.rows, DeferredRowPaid(s.c))|
  {
    CarriedSizes(s.receipts, s.c);
    DeferredSizes(s.rows, s.c);
    assert |d.carried| == |multiset(d.carried)|;
    assert |d.deferredRows| == |multiset(d.deferredRows)|;
  }

  lemma {:induction false} AllOnes(rows: seq<DeferredRow>, f: DeferredRow -> int)
    requires forall i :: 0 <= i < |rows| ==> f(rows[i]) == 1
    ensures Total(rows, f) == |rows|
  {
    if rows != [] {
      var init := rows[..|rows| - 1];
      assert forall i :: 0 <= i < |init| ==> init[i] == rows[i];
      AllOnes(init, f);
    }
  }

  lemma {:induction false} ResolvedAll(details: seq<Detail>, n: nat, counts: seq<nat>)
    requires n <= |details| == |counts| && forall i :: 0 <= i < |details| ==> AllResolved(details, i)
    requires forall i :: 0 <= i < |details| ==> counts[i] == |details[i].deferredRows|
    ensures ResolvedUpTo(details, n) == SumNat(counts[..n])
  {
    if n > 0 {
      ResolvedAll(details, n - 1, counts);
      assert counts[..n][..n - 1] == counts[..n - 1];
      assert AllResolved(details, n - 1);
      AllOnes(details[n - 1].deferredRows, ResolvedOf(details, n - 1));
    }
  }

  lemma {:induction false} SizesAt(sides: seq<Side>, details: seq<Detail>, i: nat)
    requires Joined(sides, details) && i < |sides|
    ensures |CarriedBoth(sides)[i]| == |details[i].carried| && |DeferredLine(sides)[i]| == |details[i].deferredRows|
  {
    assert Sound(sides, details, i);
    ListedSizes(sides[i], details[i]);
    SizesAdd(CarriedAt(sides, i, Opening), CarriedAt(sides, i, Closing));
  }

  /** As many deferrals are resolved as receipts were carried. */
  lemma {:induction false} ResolvedEqualsCarried(sides: seq<Side>, details: seq<Detail>)
    requires Joined(sides, details)
    ensures ResolvedUpTo(details, |details|) == SumNat(CarriedCounts(details))
  {
    var n, m := CarriedCounts(details), DeferredCounts(details);
    forall i | 0 <= i < |sides| ensures |CarriedBoth(sides)[i]| == n[i] && |DeferredLine(sides)[i]| == m[i] {
      SizesAt(sides, details, i);
    }
    SumBagsSize(CarriedBoth(sides), n);
    SumBagsSize(DeferredLine(sides), m);
    DeferredAreCarried(sides, details);
    forall i | 0 <= i < |details| ensures AllResolved(details, i) { assert Sound(sides, details, i); }
    ResolvedAll(details, |details|, m);
    assert m[..|details|] == m;
  }

  // ------------------------------------------------------------------ totals by currency

  function AmountPaid(currency: string): Paid -> int {
    (p: Paid) => if p.currency == currency && IsValidAmountText(p.amount) then ParseAmount(p.amount) else 0
  }

  function SettledAmount(currency: string): Receipt -> int {
    (r: Receipt) => if r.settled then AmountPaid(currency)(PaidBy(r)) else 0
  }

  function RowAmount(currency: string): Row -> int { (s: Row) => AmountPaid(currency)(PaidIn(s)) }

  /** Per window, what its settled receipts in scope say moved in a currency. */
  ghost function SettledTotals(sides: seq<Side>, currency: string): (n: seq<int>)
    ensures |n| == |sides| && forall i :: 0 <= i < |n| ==> n[i] == Total(sides[i].receipts, SettledAmount(currency))
  {
    seq(|sides|, i requires 0 <= i < |sides| => Total(sides[i].receipts, SettledAmount(currency)))
  }

  ghost function RowTotals(sides: seq<Side>, currency: string): (n: seq<int>)
    ensures |n| == |sides| && forall i :: 0 <= i < |n| ==> n[i] == Total(sides[i].rows, RowAmount(currency))
  {
    seq(|sides|, i requires 0 <= i < |sides| => Total(sides[i].rows, RowAmount(currency)))
  }

  lemma {:induction false} WeighOne(p: Paid, currency: string)
    ensures Weigh(multiset{p}, AmountPaid(currency)) == AmountPaid(currency)(p)
  {
    WeighStep(multiset{p}, p, AmountPaid(currency));
    assert multiset{p} - multiset{p} == multiset{};
  }

  lemma {:induction false} SettledWeight(receipts: seq<Receipt>, currency: string)
    ensures Weigh(Gather(receipts, SettledPaid()), AmountPaid(currency)) == Total(receipts, SettledAmount(currency))
  {
    forall i | 0 <= i < |receipts|
      ensures SettledAmount(currency)(receipts[i]) == Weigh(SettledPaid()(receipts[i]), AmountPaid(currency))
    {
      WeighOne(PaidBy(receipts[i]), currency);
    }
    WeighGather(receipts, SettledPaid(), AmountPaid(currency), SettledAmount(currency));
  }

  lemma {:induction false} RowWeight(rows: seq<Row>, currency: string)
    ensures Weigh(Gather(rows, RowPaid()), AmountPaid(currency)) == Total(rows, RowAmount(currency))
  {
    forall i | 0 <= i < |rows|
      ensures RowAmount(currency)(rows[i]) == Weigh(RowPaid()(rows[i]), AmountPaid(currency))
    {
      WeighOne(PaidIn(rows[i]), currency);
    }
    WeighGather(rows, RowPaid(), AmountPaid(currency), RowAmount(currency));
  }

  /** Equal bags, equal totals. */
  lemma {:induction false} JoinedTotals(sides: seq<Side>, details: seq<Detail>, currency: string)
    requires Joined(sides, details)
    ensures SumInt(SettledTotals(sides, currency)) == SumInt(RowTotals(sides, currency))
  {
    JoinedBalances(sides, details);
    SettledTotalsWeigh(sides, currency);
    RowTotalsWeigh(sides, currency);
  }

  lemma {:induction false} SettledTotalsWeigh(sides: seq<Side>, currency: string)
    ensures Weigh(SumBags(SettledLine(sides)), AmountPaid(currency)) == SumInt(SettledTotals(sides, currency))
  {
    var s, n := SettledLine(sides), SettledTotals(sides, currency);
    forall i | 0 <= i < |sides| ensures n[i] == Weigh(s[i], AmountPaid(currency)) {
      SettledWeight(sides[i].receipts, currency);
    }
    WeighSumBags(s, AmountPaid(currency), n);
  }

  lemma {:induction false} RowTotalsWeigh(sides: seq<Side>, currency: string)
    ensures Weigh(SumBags(RowLine(sides)), AmountPaid(currency)) == SumInt(RowTotals(sides, currency))
  {
    var s, n := RowLine(sides), RowTotals(sides, currency);
    forall i | 0 <= i < |sides| ensures n[i] == Weigh(s[i], AmountPaid(currency)) {
      RowWeight(sides[i].rows, currency);
    }
    WeighSumBags(s, AmountPaid(currency), n);
  }
}
