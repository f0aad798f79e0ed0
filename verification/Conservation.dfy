/** What "ok, unconditional" means for a whole run of windows: every settled receipt in scope
    has its own row, with the same ref, amount and currency, and no row is left over. */
module RunConservation {
  import opened Options
  import opened Records
  import opened Bags
  import opened Reconcile
  import opened Audit
  import opened Windows
  import opened EdgeAccounting

  // ------------------------------------------------- what silence says of one window

  /** Said, and yet no bar to "ok, unconditional". */
  ghost predicate Excused(details: seq<Detail>, i: nat, f: Finding)
    requires i < |details|
  {
    f.warn && (f.code == CounterpartyUnbound || Settled(details, i, f))
  }

  ghost predicate Quiet(input: Input, details: seq<Detail>, i: nat)
    requires i < |details|
  {
    forall f :: f in Said(input) ==> Excused(details, i, f)
  }

  lemma WindowIsAudited(out: Report, run: Run, i: nat)
    requires Reports(out, run) && i < |out.windows|
    ensures i < |run.windows| && Audits(out.windows[i], WindowInput(run, i))
  {
    assert AuditedAt(run)(i, out.windows[i]);
  }

  lemma OnlyWarned(d: Detail, said: multiset<Finding>, f: Finding)
    requires multiset(d.findings) + multiset(d.warnings) == said && Graded(d) && d.ok
    requires f in said
    ensures f in d.warnings && f.warn
  {
    assert f in multiset(d.findings) + multiset(d.warnings);
  }

  lemma {:induction false} CleanRunIsQuiet(out: Report, run: Run, i: nat)
    requires Reports(out, run) && out.ok && out.unconditional && i < |out.windows|
    ensures Quiet(WindowInput(run, i), out.windows, i)
  {
    var input := WindowInput(run, i);
    WindowIsAudited(out, run, i);
    assert OnlyScopeWarnings(out.windows, i);
    forall f | f in Said(input) ensures Excused(out.windows, i, f) { OnlyWarned(out.windows[i], Said(input), f); }
  }

  lemma {:induction false} RecordsAreSaid(input: Input, f: Finding)
    requires f in Gather(input.receipts, DefectOf()) || f in ClashBag(input) || f in ReconcileBag(input)
    ensures f in Said(input)
  {
    assert f in RecordsBag(input);
  }

  lemma {:induction false} RefusalIsSaid(input: Input)
    requires Refused(input)
    ensures Warn(SettlementComparisonSkipped, "extract") in Said(input)
  {
    RecordsAreSaid(input, Warn(SettlementComparisonSkipped, "extract"));
  }

  lemma {:induction false} ReconciledIsSaid(input: Input, f: Finding)
    requires !Refused(input)
    requires f in FindingBag(InScopeOf(input), RowsOf(input), BoundaryOf(input))
    ensures f in Said(input)
  {
    RecordsAreSaid(input, f);
  }

  lemma {:induction false} RepeatedRowIsSaid(input: Input, ref: string)
    requires !Refused(input) && WindowCtx(input).rowRefs[ref] > 1
    ensures Fail(DuplicateRef, ref) in Said(input)
  {
    var c := WindowCtx(input);
    GatherSetMember(RepeatedIn(c.rowRefs), ref, DuplicateOf());
    ReconciledIsSaid(input, Fail(DuplicateRef, ref));
  }

  /** The sieve and the pin only take receipts away, so a clash inside the scope is one outside it. */
  lemma {:induction false} RepeatedReceiptIsSaid(input: Input, ref: string)
    requires Gather(InScopeOf(input), RefOf())[ref] > 1
    ensures Fail(DuplicateRef, ref) in Said(input) || Warn(DuplicateRef, ref) in Said(input)
  {
    GatherKept(Attested(input), (r: Receipt) => InScope(input, r), RefOf(), ref);
    GatherKept(input.receipts, (r: Receipt) => Attests(input, r), RefOf(), ref);
    if PinUsable(input) {
      GatherSetMember(RepeatedIn(Gather(Attested(input), RefOf())), ref, DuplicateOf());
      RecordsAreSaid(input, Fail(DuplicateRef, ref));
    } else {
      GatherSetMember(RepeatedIn(Gather(input.receipts, RefOf())), ref, DuplicateWarningOf());
      RecordsAreSaid(input, Warn(DuplicateRef, ref));
    }
  }

  lemma {:induction false} ReflessIsSaid(input: Input, r: Receipt)
    requires r in input.receipts && r.settled && r.ref.None?
    ensures Fail(SettledWithoutRef, r.nonce) in Said(input)
  {
    var k :| 0 <= k < |input.receipts| && input.receipts[k] == r;
    GatherHas(input.receipts, k, DefectOf(), Fail(SettledWithoutRef, r.nonce));
    RecordsAreSaid(input, Fail(SettledWithoutRef, r.nonce));
  }

  lemma {:induction false} ReceiptIsSaid(input: Input, r: Receipt, f: Finding)
    requires !Refused(input) && r in InScopeOf(input) && f in ReceiptFindings(WindowCtx(input), r)
    ensures f in Said(input)
  {
    var c, receipts := WindowCtx(input), InScopeOf(input);
    var k :| 0 <= k < |receipts| && receipts[k] == r;
    GatherHas(receipts, k, ReceiptFindingOf(c), f);
    ReconciledIsSaid(input, f);
  }

  lemma {:induction false} RowIsSaid(input: Input, k: nat, f: Finding)
    requires !Refused(input) && k < |RowsOf(input)| && f in RowFindings(WindowCtx(input), RowsOf(input)[k])
    ensures f in Said(input)
  {
    GatherHas(RowsOf(input), k, RowFindingOf(WindowCtx(input)), f);
    ReconciledIsSaid(input, f);
  }

  lemma {:induction false} PairIsSaid(input: Input, j: nat, k: nat, f: Finding)
    requires !Refused(input) && j < |InScopeOf(input)| && k < |RowsOf(input)|
    requires HasRef(InScopeOf(input)[j], RowsOf(input)[k].ref) && !SkipRef(WindowCtx(input), RowsOf(input)[k].ref)
    requires f in PairFindings(InScopeOf(input)[j], RowsOf(input)[k])
    ensures f in Said(input)
  {
    var c, receipts, rows := WindowCtx(input), InScopeOf(input), RowsOf(input);
    RefCounted(receipts, j);
    GatherHas(receipts, j, PairedWith(rows[k]), f);
    GatherHas(rows, k, PairFindingOf(c, receipts), f);
    ReconciledIsSaid(input, f);
  }

  lemma {:induction false} QuietExcuses(input: Input, details: seq<Detail>, i: nat, f: Finding)
    requires i < |details| && Quiet(input, details, i) && f in Said(input)
    ensures f.warn
    ensures f.code == CounterpartyUnbound
      || (f.code == BoundaryDeferred && f.needs == Receipts && Removed(details, i, f.id))
  {
    assert Excused(details, i, f);
  }

  lemma {:induction false} QuietIsNotRefused(input: Input, details: seq<Detail>, i: nat)
    requires i < |details| && Quiet(input, details, i)
    ensures !Refused(input)
  {
    if Refused(input) {
      RefusalIsSaid(input);
      QuietExcuses(input, details, i, Warn(SettlementComparisonSkipped, "extract"));
    }
  }

  lemma {:induction false} QuietRefsAreSingle(input: Input, details: seq<Detail>, i: nat, ref: string)
    requires i < |details| && Quiet(input, details, i) && !Refused(input)
    ensures !SkipRef(WindowCtx(input), ref)
  {
    if WindowCtx(input).rowRefs[ref] > 1 {
      RepeatedRowIsSaid(input, ref);
      QuietExcuses(input, details, i, Fail(DuplicateRef, ref));
    } else if WindowCtx(input).receiptRefs[ref] > 1 {
      RepeatedReceiptIsSaid(input, ref);
      var f := if Fail(DuplicateRef, ref) in Said(input) then Fail(DuplicateRef, ref) else Warn(DuplicateRef, ref);
      QuietExcuses(input, details, i, f);
    }
  }

  lemma {:induction false} QuietReceipt(input: Input, details: seq<Detail>, i: nat, r: Receipt)
    requires i < |details| && Quiet(input, details, i) && !Refused(input)
    requires r in InScopeOf(input) && r.settled
    ensures r.ref.Some? && ReceiptFindings(WindowCtx(input), r) == []
  {
    if r.ref.None? {
      InScopeIsPresented(input, r);
      ReflessIsSaid(input, r);
      QuietExcuses(input, details, i, Fail(SettledWithoutRef, r.nonce));
    } else if ReceiptFindings(WindowCtx(input), r) != [] {
      var f := ReceiptFindings(WindowCtx(input), r)[0];
      ReceiptIsSaid(input, r, f);
      QuietExcuses(input, details, i, f);
      ReceiptFindingsBar(WindowCtx(input), r, f);
    }
  }

  lemma {:induction false} ReceiptFindingsBar(c: Ctx, r: Receipt, f: Finding)
    requires f in ReceiptFindings(c, r)
    ensures f.code == ReceiptWithoutSettlement || (f.code == BoundaryDeferred && f.needs != Receipts)
  {
  }

  lemma {:induction false} InScopeIsPresented(input: Input, r: Receipt)
    requires r in InScopeOf(input)
    ensures r in input.receipts
  {
  }

  lemma {:induction false} NothingToSay(c: Ctx, r: Receipt)
    requires r.settled && r.ref.Some? && !SkipRef(c, r.ref.value) && ReceiptFindings(c, r) == []
    ensures ClassOfReceipt(c, r) == Matched || ClassOfReceipt(c, r).Carried?
  {
  }

  lemma {:induction false} QuietRow(input: Input, details: seq<Detail>, i: nat, k: nat)
    requires i < |details| && Quiet(input, details, i) && !Refused(input) && k < |RowsOf(input)|
    ensures ClassOfRow(WindowCtx(input), RowsOf(input)[k]) != RowUncovered
    ensures ClassOfRow(WindowCtx(input), RowsOf(input)[k]).RowDeferred? ==> Removed(details, i, RowsOf(input)[k].ref)
  {
    var fs := RowFindings(WindowCtx(input), RowsOf(input)[k]);
    if fs != [] {
      RowIsSaid(input, k, fs[0]);
      QuietExcuses(input, details, i, fs[0]);
    }
  }

  lemma {:induction false} QuietPair(input: Input, details: seq<Detail>, i: nat, j: nat, k: nat)
    requires i < |details| && Quiet(input, details, i) && !Refused(input)
    requires j < |InScopeOf(input)| && k < |RowsOf(input)| && HasRef(InScopeOf(input)[j], RowsOf(input)[k].ref)
    requires !SkipRef(WindowCtx(input), RowsOf(input)[k].ref)
    ensures SameTerms(InScopeOf(input)[j], RowsOf(input)[k])
  {
    var fs := PairFindings(InScopeOf(input)[j], RowsOf(input)[k]);
    if fs != [] {
      PairIsSaid(input, j, k, fs[0]);
      QuietExcuses(input, details, i, fs[0]);
    }
  }

  /** The classes of a window, as a plain table. */
  ghost function ClassingOf(input: Input): Classing {
    Classing(
      map r | r in InScopeOf(input) :: ClassOfReceipt(WindowCtx(input), r),
      map s | s in RowsOf(input) :: ClassOfRow(WindowCtx(input), s))
  }

  lemma {:induction false} QuietReceiptFits(input: Input, details: seq<Detail>, i: nat, r: Receipt)
    requires i < |details| && Quiet(input, details, i) && !Refused(input) && r in InScopeOf(input)
    ensures ReceiptFits(r, RowsOf(input), ClassingOf(input))
  {
    if r.settled {
      QuietReceipt(input, details, i, r);
      QuietRefsAreSingle(input, details, i, r.ref.value);
      NothingToSay(WindowCtx(input), r);
    }
  }

  lemma {:induction false} QuietRowFits(input: Input, details: seq<Detail>, i: nat, k: nat)
    requires i < |details| && Quiet(input, details, i) && !Refused(input) && k < |RowsOf(input)|
    ensures RowFits(RowsOf(input)[k], InScopeOf(input), ClassingOf(input))
  {
    QuietRow(input, details, i, k);
    QuietRefsAreSingle(input, details, i, RowsOf(input)[k].ref);
    assert RowsOf(input)[k] in RowsOf(input);
  }

  lemma {:induction false} QuietPairFits(input: Input, details: seq<Detail>, i: nat, j: nat, k: nat)
    requires i < |details| && Quiet(input, details, i) && !Refused(input)
    requires j < |InScopeOf(input)| && k < |RowsOf(input)|
    ensures PairFits(InScopeOf(input)[j], RowsOf(input)[k], ClassingOf(input))
  {
    var r, s := InScopeOf(input)[j], RowsOf(input)[k];
    if HasRef(r, s.ref) {
      QuietRefsAreSingle(input, details, i, s.ref);
      QuietPair(input, details, i, j, k);
      RefCounted(InScopeOf(input), j);
      RowRefCounted(RowsOf(input), k);
      assert r in InScopeOf(input) && s in RowsOf(input);
    }
  }

  lemma {:induction false} QuietRowsFit(input: Input, details: seq<Detail>, i: nat)
    requires i < |details| && Quiet(input, details, i) && !Refused(input)
    ensures forall s :: s in RowsOf(input) ==> RowFits(s, InScopeOf(input), ClassingOf(input))
  {
    var rows := RowsOf(input);
    forall s | s in rows ensures RowFits(s, InScopeOf(input), ClassingOf(input)) {
      var k :| 0 <= k < |rows| && rows[k] == s;
      QuietRowFits(input, details, i, k);
    }
  }

  lemma {:induction false} QuietPairsFit(input: Input, details: seq<Detail>, i: nat)
    requires i < |details| && Quiet(input, details, i) && !Refused(input)
    ensures forall r, s :: r in InScopeOf(input) && s in RowsOf(input) ==> PairFits(r, s, ClassingOf(input))
  {
    var receipts, rows := InScopeOf(input), RowsOf(input);
    forall r, s | r in receipts && s in rows ensures PairFits(r, s, ClassingOf(input)) {
      var j :| 0 <= j < |receipts| && receipts[j] == r;
      var k :| 0 <= k < |rows| && rows[k] == s;
      QuietPairFits(input, details, i, j, k);
    }
  }

  lemma {:induction false} QuietRefsSingle(input: Input, details: seq<Detail>, i: nat)
    requires i < |details| && Quiet(input, details, i) && !Refused(input)
    ensures RefsSingle(InScopeOf(input), RowsOf(input))
  {
    forall ref ensures Gather(InScopeOf(input), RefOf())[ref] <= 1 && Gather(RowsOf(input), RowRefOf())[ref] <= 1 {
      QuietRefsAreSingle(input, details, i, ref);
    }
  }

  lemma {:induction false} QuietIsTidy(input: Input, details: seq<Detail>, i: nat)
    requires i < |details| && Quiet(input, details, i)
    ensures !Refused(input) && Tidy(InScopeOf(input), RowsOf(input), ClassingOf(input))
  {
    QuietIsNotRefused(input, details, i);
    QuietRefsSingle(input, details, i);
    forall r | r in InScopeOf(input) ensures ReceiptFits(r, RowsOf(input), ClassingOf(input)) {
      QuietReceiptFits(input, details, i, r);
    }
    QuietRowsFit(input, details, i);
    QuietPairsFit(input, details, i);
  }

  // ------------------------------------------------------------- from the report to this

  ghost function SideOf(run: Run, i: nat): Side
    requires i < |run.windows|
  {
    var input := WindowInput(run, i);
    Side(InScopeOf(input), RowsOf(input), ClassingOf(input))
  }

  ghost function SidesOf(run: Run): (s: seq<Side>)
    ensures |s| == |run.windows| && forall i :: 0 <= i < |s| ==> s[i] == SideOf(run, i)
  {
    seq(|run.windows|, i requires 0 <= i < |run.windows| => SideOf(run, i))
  }

  ghost predicate Clean(out: Report, run: Run) { Reports(out, run) && out.ok && out.unconditional }

  lemma {:induction false} CleanIsTidy(out: Report, run: Run, i: nat)
    requires Clean(out, run) && i < |run.windows|
    ensures |out.windows| == |run.windows| && Quiet(WindowInput(run, i), out.windows, i)
    ensures !Refused(WindowInput(run, i))
    ensures var s := SideOf(run, i); Tidy(s.receipts, s.rows, s.c)
  {
    CleanRunIsQuiet(out, run, i);
    QuietIsTidy(WindowInput(run, i), out.windows, i);
  }

  lemma {:induction false} CleanIsListed(out: Report, run: Run, i: nat)
    requires Clean(out, run) && i < |run.windows|
    ensures |out.windows| == |run.windows| && Listed(SideOf(run, i), out.windows[i])
  {
    CleanIsTidy(out, run, i);
    assert AuditedAt(run)(i, out.windows[i]);
    ListsOf(out.windows[i], WindowInput(run, i));
  }

  lemma {:induction false} ListsOf(d: Detail, input: Input)
    requires Audits(d, input) && !Refused(input)
    ensures Listed(Side(InScopeOf(input), RowsOf(input), ClassingOf(input)), d)
  {
    CarriedTable(input, InScopeOf(input));
    DeferredTable(input, RowsOf(input));
    MatchedTable(input, RowsOf(input));
  }

  lemma {:induction false} CarriedTable(input: Input, receipts: seq<Receipt>)
    requires receipts == InScopeOf(input)
    ensures Gather(receipts, CarriedOf(WindowCtx(input))) == Gather(receipts, CarriedRefs(ClassingOf(input)))
  {
    forall i | 0 <= i < |receipts|
      ensures CarriedOf(WindowCtx(input))(receipts[i]) == CarriedRefs(ClassingOf(input))(receipts[i])
    {
      assert receipts[i] in receipts;
    }
    GatherSame(receipts, CarriedOf(WindowCtx(input)), CarriedRefs(ClassingOf(input)));
  }

  lemma {:induction false} DeferredTable(input: Input, rows: seq<Row>)
    requires rows == RowsOf(input)
    ensures Gather(rows, DeferredOf(WindowCtx(input))) == Gather(rows, DeferredRefs(ClassingOf(input)))
  {
    forall i | 0 <= i < |rows|
      ensures DeferredOf(WindowCtx(input))(rows[i]) == DeferredRefs(ClassingOf(input))(rows[i])
    {
      assert rows[i] in rows;
    }
    GatherSame(rows, DeferredOf(WindowCtx(input)), DeferredRefs(ClassingOf(input)));
  }

  lemma {:induction false} MatchedTable(input: Input, rows: seq<Row>)
    requires rows == RowsOf(input)
    ensures Gather(rows, MatchedOf(WindowCtx(input))) == Gather(rows, MatchedRefs(ClassingOf(input)))
  {
    forall i | 0 <= i < |rows| ensures MatchedOf(WindowCtx(input))(rows[i]) == MatchedRefs(ClassingOf(input))(rows[i]) {
      assert rows[i] in rows;
    }
    GatherSame(rows, MatchedOf(WindowCtx(input)), MatchedRefs(ClassingOf(input)));
  }

  /** A carried receipt names a row of the extract beside it, on its own terms. */
  lemma {:induction false} CarriedNamesRow(run: Run, i: nat, r: Receipt, edge: Edge)
    requires i < |run.windows| && ClassOfReceipt(WindowCtx(WindowInput(run, i)), r) == Carried(edge)
    ensures 0 <= Beside(i, edge) < |run.windows|
    ensures exists k :: (0 <= k < |run.windows[Beside(i, edge)].extract.rows|
      && PaidIn(run.windows[Beside(i, edge)].extract.rows[k]) == PaidBy(r))
  {
    var b := BoundaryOf(WindowInput(run, i)).value;
    var n := if edge == Opening then b.prev.value else b.next.value;
    var j :| 0 <= j < |n.rows| && NamesAt(n, j, r, edge, b.skewMs);
    assert n.rows[j] in n.rows;
    var rows := run.windows[Beside(i, edge)].extract.rows;
    assert n.rows[j] in rows;
    var k :| 0 <= k < |rows| && rows[k] == n.rows[j];
  }

  lemma {:induction false} RunCarriedNamed(run: Run, i: nat)
    requires i < |run.windows|
    ensures CarriedNamed(SidesOf(run), i)
  {
    var sides := SidesOf(run);
    forall r | r in sides[i].receipts && sides[i].c.OfReceipt(r).Carried?
      ensures NamedBeside(sides, i, r, sides[i].c.OfReceipt(r).edge)
    {
      var edge := sides[i].c.OfReceipt(r).edge;
      CarriedNamesRow(run, i, r, edge);
      assert sides[Beside(i, edge)].rows == run.windows[Beside(i, edge)].extract.rows;
    }
  }

  lemma {:induction false} HardenedIsSaid(details: seq<Detail>, n: nat, j: nat, d: DeferredRow)
    requires j < n <= |details| && d in details[j].deferredRows && VerdictOf(details, j, d).Hardened?
    ensures HardenedUpTo(details, n) != multiset{}
  {
    if j < n - 1 {
      HardenedIsSaid(details, n - 1, j, d);
    } else {
      var k :| 0 <= k < |details[j].deferredRows| && details[j].deferredRows[k] == d;
      GatherHas(details[j].deferredRows, k, HardenedOf(details, j),
        RunFinding(Fail(SettlementWithoutReceipt, d.ref), Some(j)));
    }
  }

  lemma {:induction false} NothingHardened(out: Report, run: Run)
    requires Clean(out, run)
    ensures HardenedUpTo(out.windows, |out.windows|) == multiset{}
  {
    assert multiset(out.findings) == multiset{};
  }

  /** Rows of one ref are one row, so their deferrals are one deferral. */
  lemma {:induction false} OneDeferralPerRef(s: Side, d: Detail, e: DeferredRow, f: DeferredRow)
    requires Tidy(s.receipts, s.rows, s.c) && Listed(s, d)
    requires e in d.deferredRows && f in d.deferredRows && e.ref == f.ref
    ensures e == f
  {
    assert e in multiset(d.deferredRows) && f in multiset(d.deferredRows);
    var k := GatherFind(s.rows, DeferredRefs(s.c), e);
    var l := GatherFind(s.rows, DeferredRefs(s.c), f);
    OneRowPerRef(s.rows, k, l);
  }

  lemma {:induction false} DeferralIsRemoved(input: Input, details: seq<Detail>, i: nat, e: DeferredRow)
    requires i < |details| && Quiet(input, details, i) && !Refused(input)
    requires e in Gather(RowsOf(input), DeferredRefs(ClassingOf(input)))
    ensures Removed(details, i, e.ref)
  {
    var k := GatherFind(RowsOf(input), DeferredRefs(ClassingOf(input)), e);
    QuietRow(input, details, i, k);
  }

  lemma {:induction false} DeferralIsResolved(out: Report, run: Run, j: nat, e: DeferredRow)
    requires Clean(out, run) && j < |run.windows| && |out.windows| == |run.windows| && e in out.windows[j].deferredRows
    ensures VerdictOf(out.windows, j, e) == Resolved
  {
    CleanIsListed(out, run, j);
    CleanIsTidy(out, run, j);
    assert e in multiset(out.windows[j].deferredRows);
    DeferralIsRemoved(WindowInput(run, j), out.windows, j, e);
    var m :| 0 <= m < |out.windows[j].deferredRows| && out.windows[j].deferredRows[m].ref == e.ref
      && !VerdictOf(out.windows, j, out.windows[j].deferredRows[m]).Stays?;
    OneDeferralPerRef(SideOf(run, j), out.windows[j], e, out.windows[j].deferredRows[m]);
    if VerdictOf(out.windows, j, e).Hardened? {
      HardenedIsSaid(out.windows, |out.windows|, j, e);
      NothingHardened(out, run);
    }
  }

  lemma {:induction false} ReuseIsSaid(run: Run, details: seq<Detail>, u: Use)
    requires Uses(details)[u] > 1
    ensures RunFinding(Fail(DuplicateRef, u.ref), Some(u.window)) in RunBag(run, details)
  {
    GatherSetMember(ReusedRows(Uses(details)), u, ReuseOf());
  }

  lemma {:induction false} CleanUsesOnce(out: Report, run: Run)
    requires Clean(out, run)
    ensures UsedOnce(out.windows)
  {
    forall u ensures Uses(out.windows)[u] <= 1 {
      if Uses(out.windows)[u] > 1 {
        ReuseIsSaid(run, out.windows, u);
      }
    }
  }

  lemma {:induction false} CleanIsSound(out: Report, run: Run, i: nat)
    requires Clean(out, run) && i < |run.windows|
    ensures |out.windows| == |run.windows| && Sound(SidesOf(run), out.windows, i)
  {
    CleanIsTidy(out, run, i);
    CleanIsListed(out, run, i);
    RunCarriedNamed(run, i);
    forall e | e in out.windows[i].deferredRows ensures VerdictOf(out.windows, i, e) == Resolved {
      DeferralIsResolved(out, run, i, e);
    }
  }

  lemma {:induction false} CleanIsJoined(out: Report, run: Run)
    requires Clean(out, run)
    ensures Joined(SidesOf(run), out.windows)
  {
    CleanUsesOnce(out, run);
    forall i | 0 <= i < |run.windows| ensures Sound(SidesOf(run), out.windows, i) {
      CleanIsSound(out, run, i);
    }
  }

  /** A run that reports ok and unconditional: over all its windows, the settled receipts in
      scope and the rows are the same bag of (ref, amount, currency), and the deferrals it
      resolved are as many as the receipts it carried. */
  lemma {:induction false} CleanRunConserves(out: Report, run: Run)
    requires Reports(out, run) && out.ok && out.unconditional
    ensures SumBags(SettledLine(SidesOf(run))) == SumBags(RowLine(SidesOf(run)))
    ensures out.resolved == SumNat(CarriedCounts(out.windows))
  {
    CleanIsJoined(out, run);
    JoinedBalances(SidesOf(run), out.windows);
    ResolvedEqualsCarried(SidesOf(run), out.windows);
  }

  /** So the totals agree, currency by currency. */
  lemma {:induction false} CurrencyTotalsAgree(out: Report, run: Run, currency: string)
    requires Reports(out, run) && out.ok && out.unconditional
    ensures SumInt(SettledTotals(SidesOf(run), currency)) == SumInt(RowTotals(SidesOf(run), currency))
  {
    CleanIsJoined(out, run);
    JoinedTotals(SidesOf(run), out.windows, currency);
  }
}
