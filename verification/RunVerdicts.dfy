/** What a run of windows says and what makes it ok, said of the windows and of what each hands to the next. */
module RunVerdicts {
  import opened Audit
  import opened Bags
  import opened Options
  import opened Reconcile
  import opened Records
  import opened Statements
  import opened Verdicts
  import opened Windows

  // -------------------------------------------------------------------------- the tiling

  /** Every window starts where the one before it ends. */
  predicate Abut(windows: seq<WindowIn>) {
    forall i :: 0 <= i < |windows| - 1 ==> windows[i + 1].extract.startMs == windows[i].extract.endMs
  }

  /** A period stated at both ends is the windows' own, from the first start to the last end. */
  predicate Spans(windows: seq<WindowIn>, trust: Option<RailPin>) {
    trust.Some? && trust.value.startMs.Some? && trust.value.endMs.Some? ==>
      && windows != [] && windows[0].extract.startMs == trust.value.startMs.value
      && windows[|windows| - 1].extract.endMs == trust.value.endMs.value
  }

  lemma {:induction false} TilesExactly(windows: seq<WindowIn>, trust: Option<RailPin>)
    ensures Tiles(windows, trust) <==> windows != [] && Abut(windows) && Spans(windows, trust)
  {
    if Abut(windows) {
      forall i | 0 < i < |windows| ensures windows[i].extract.startMs == windows[i - 1].extract.endMs {
        assert windows[(i - 1) + 1].extract.startMs == windows[i - 1].extract.endMs;
      }
    }
  }

  predicate InWindow(windows: seq<WindowIn>, i: nat, t: int) {
    i < |windows| && windows[i].extract.startMs <= t < windows[i].extract.endMs
  }

  lemma {:induction false} LaterStarts(windows: seq<WindowIn>, i: nat, j: nat)
    requires Abut(windows) && i < j < |windows|
    requires forall k :: 0 <= k < |windows| ==> windows[k].extract.startMs <= windows[k].extract.endMs
    ensures windows[i].extract.endMs <= windows[j].extract.startMs
    decreases j - i
  {
    assert windows[i + 1].extract.startMs == windows[i].extract.endMs;
    if i + 1 < j { LaterStarts(windows, i + 1, j); }
  }

  lemma {:induction false} SomeWindow(windows: seq<WindowIn>, t: int, n: nat) returns (i: nat)
    requires Abut(windows) && n < |windows| && windows[0].extract.startMs <= t < windows[n].extract.endMs
    ensures i <= n && InWindow(windows, i, t)
  {
    if t >= windows[n].extract.startMs {
      i := n;
    } else {
      assert windows[(n - 1) + 1].extract.startMs == windows[n - 1].extract.endMs;
      i := SomeWindow(windows, t, n - 1);
    }
  }

  /** So when nothing is wrong with the tiling, and no window ends before it starts, every time of the stated
      period lies in one window and in no other. */
  lemma {:induction false} TiledOnce(windows: seq<WindowIn>, trust: Option<RailPin>, t: int) returns (i: nat)
    requires Tiles(windows, trust) && Stated(trust)
    requires forall k :: 0 <= k < |windows| ==> windows[k].extract.startMs <= windows[k].extract.endMs
    requires trust.value.startMs.value <= t < trust.value.endMs.value
    ensures InWindow(windows, i, t) && forall j: nat :: InWindow(windows, j, t) ==> j == i
  {
    TilesExactly(windows, trust);
    i := SomeWindow(windows, t, |windows| - 1);
    forall j: nat | InWindow(windows, j, t) ensures j == i {
      if j < i { LaterStarts(windows, j, i); }
      if i < j { LaterStarts(windows, i, j); }
    }
  }

  // ------------------------------------------------------------------------ rows used twice

  function Times<T(==)>(s: seq<T>, x: T): nat {
    if s == [] then 0 else Times(s[..|s| - 1], x) + if s[|s| - 1] == x then 1 else 0
  }

  function MatchedTimes(details: seq<Detail>, w: int, ref: string): nat {
    if 0 <= w < |details| then Times(details[w].matched, ref) else 0
  }

  function CarriedTimes(details: seq<Detail>, w: int, ref: string, edge: Edge): nat {
    if 0 <= w < |details| then Times(details[w].carried, EdgeRef(ref, edge)) else 0
  }

  /** How often a row of a window answers for a receipt: in its own window, or carried from either side. */
  function Answers(details: seq<Detail>, w: int, ref: string): nat {
    MatchedTimes(details, w, ref)
    + CarriedTimes(details, w - 1, ref, Closing) + CarriedTimes(details, w + 1, ref, Opening)
  }

  lemma {:induction false} MatchedGathered(i: int, matched: seq<string>, w: int, ref: string)
    ensures Gather(matched, MatchedUse(i))[Use(w, ref)] == if w == i then Times(matched, ref) else 0
  {
    if matched != [] { MatchedGathered(i, matched[..|matched| - 1], w, ref); }
  }

  lemma {:induction false} CarriedGathered(i: int, carried: seq<EdgeRef>, w: int, ref: string)
    ensures Gather(carried, CarriedUse(i))[Use(w, ref)] ==
      if w == i + 1 then Times(carried, EdgeRef(ref, Closing))
      else if w == i - 1 then Times(carried, EdgeRef(ref, Opening)) else 0
  {
    if carried != [] { CarriedGathered(i, carried[..|carried| - 1], w, ref); }
  }

  lemma {:induction false} AnswersOneMore(details: seq<Detail>, d: Detail, w: int, ref: string)
    ensures var n := |details|;
      Answers(details + [d], w, ref) == Answers(details, w, ref)
        + (if w == n then Times(d.matched, ref) else 0)
        + (if w == n + 1 then Times(d.carried, EdgeRef(ref, Closing))
           else if w == n - 1 then Times(d.carried, EdgeRef(ref, Opening)) else 0)
  {
    var all, n := details + [d], |details|;
    assert all[n] == d && forall k :: 0 <= k < n ==> all[k] == details[k];
    assert MatchedTimes(all, w, ref) == MatchedTimes(details, w, ref) + if w == n then Times(d.matched, ref) else 0;
    forall v: int, edge
      ensures CarriedTimes(all, v, ref, edge)
        == CarriedTimes(details, v, ref, edge) + if v == n then Times(d.carried, EdgeRef(ref, edge)) else 0
    {
    }
  }

  lemma {:induction false} UsesOneMore(details: seq<Detail>, d: Detail, w: int, ref: string)
    ensures var n := |details|;
      Uses(details + [d])[Use(w, ref)] == Uses(details)[Use(w, ref)]
        + (if w == n then Times(d.matched, ref) else 0)
        + (if w == n + 1 then Times(d.carried, EdgeRef(ref, Closing))
           else if w == n - 1 then Times(d.carried, EdgeRef(ref, Opening)) else 0)
  {
    UsesAppend(details, d);
    MatchedGathered(|details|, d.matched, w, ref);
    CarriedGathered(|details|, d.carried, w, ref);
  }

  lemma {:induction false} UsesExactly(details: seq<Detail>, w: int, ref: string)
    ensures Uses(details)[Use(w, ref)] == Answers(details, w, ref)
  {
    if details != [] {
      var init, d := details[..|details| - 1], details[|details| - 1];
      assert details == init + [d];
      UsesExactly(init, w, ref);
      UsesOneMore(init, d, w, ref);
      AnswersOneMore(init, d, w, ref);
    }
  }

  // ---------------------------------------------------------------- rows that found nobody

  /** The window beside an inner edge carried a receipt to the row. */
  predicate FoundBeside(details: seq<Detail>, i: nat, d: DeferredRow) {
    || (d.opening && 0 < i < |details| && EdgeRef(d.ref, Closing) in details[i - 1].carried)
    || (d.closing && i + 1 < |details| && EdgeRef(d.ref, Opening) in details[i + 1].carried)
  }

  /** The row waits at inner edges only, and neither side has its receipt. */
  predicate LeftOver(details: seq<Detail>, i: nat, d: DeferredRow) {
    && i < |details| && d in details[i].deferredRows && !FoundBeside(details, i, d)
    && (d.opening || d.closing) && (d.opening ==> i > 0) && (d.closing ==> i + 1 < |details|)
  }

  ghost predicate HardenedBy(details: seq<Detail>, i: nat, d: DeferredRow, f: RunFinding) {
    LeftOver(details, i, d) && f == RunFinding(Fail(SettlementWithoutReceipt, d.ref), Some(i))
  }

  lemma VerdictMeans(details: seq<Detail>, i: nat, d: DeferredRow, f: RunFinding)
    requires i < |details| && d in details[i].deferredRows
    ensures f in HardenedOf(details, i)(d) <==> HardenedBy(details, i, d, f)
  {
  }

  lemma {:induction false} HardenedAt(details: seq<Detail>, i: nat, f: RunFinding)
    requires i < |details|
    ensures f in Gather(details[i].deferredRows, HardenedOf(details, i)) <==> exists d :: HardenedBy(details, i, d, f)
  {
    var rows, g := details[i].deferredRows, HardenedOf(details, i);
    GatherMember(rows, g, f);
    forall d | d in rows ensures f in g(d) <==> HardenedBy(details, i, d, f) { VerdictMeans(details, i, d, f); }
    if d :| HardenedBy(details, i, d, f) {
      var k :| 0 <= k < |rows| && rows[k] == d;
      assert f in g(rows[k]);
    }
  }

  ghost predicate HardenedBefore(details: seq<Detail>, n: nat, f: RunFinding) {
    exists i: nat, d :: i < n && HardenedBy(details, i, d, f)
  }

  lemma HardenedOneMore(details: seq<Detail>, n: nat, f: RunFinding)
    requires n < |details|
    ensures f in HardenedUpTo(details, n + 1) <==>
      f in HardenedUpTo(details, n) || f in Gather(details[n].deferredRows, HardenedOf(details, n))
  {
  }

  lemma HardenedBeforeNext(details: seq<Detail>, n: nat, f: RunFinding)
    ensures HardenedBefore(details, n + 1, f) <==>
      HardenedBefore(details, n, f) || exists d :: HardenedBy(details, n, d, f)
  {
  }

  lemma {:induction false} HardenedExactly(details: seq<Detail>, n: nat, f: RunFinding)
    requires n <= |details|
    ensures f in HardenedUpTo(details, n) <==> HardenedBefore(details, n, f)
  {
    if n > 0 {
      var m: nat := n - 1;
      HardenedExactly(details, m, f);
      HardenedAt(details, m, f);
      HardenedOneMore(details, m, f);
      HardenedBeforeNext(details, m, f);
    }
  }

  /** How many of the rows a window beside carried a receipt to. */
  function FoundAmong(details: seq<Detail>, i: nat, rows: seq<DeferredRow>): nat {
    if rows == [] then 0
    else FoundAmong(details, i, rows[..|rows| - 1]) + if FoundBeside(details, i, rows[|rows| - 1]) then 1 else 0
  }

  function FoundUpTo(details: seq<Detail>, n: nat): nat
    requires n <= |details|
  {
    if n == 0 then 0 else FoundUpTo(details, n - 1) + FoundAmong(details, n - 1, details[n - 1].deferredRows)
  }

  lemma {:induction false} ResolvedAmong(details: seq<Detail>, i: nat, rows: seq<DeferredRow>)
    requires i < |details|
    ensures Total(rows, ResolvedOf(details, i)) == FoundAmong(details, i, rows)
  {
    if rows != [] { ResolvedAmong(details, i, rows[..|rows| - 1]); }
  }

  /** What a run reports as resolved is the number of waiting rows that a window beside carried a receipt to. */
  lemma {:induction false} ResolvedExactly(details: seq<Detail>, n: nat)
    requires n <= |details|
    ensures ResolvedUpTo(details, n) == FoundUpTo(details, n)
  {
    if n > 0 {
      ResolvedExactly(details, n - 1);
      ResolvedAmong(details, n - 1, details[n - 1].deferredRows);
    }
  }

  // ------------------------------------------------------------------------ all of it

  /** The finding is among those of the run itself. */
  ghost predicate RunSays(run: Run, details: seq<Detail>, f: RunFinding) {
    || (f == RunFinding(Fail(ExtractScopeMismatch, "windows"), None)
        && !(run.windows != [] && Abut(run.windows) && Spans(run.windows, run.trust)))
    || (exists w: int, ref :: f == RunFinding(Fail(DuplicateRef, ref), Some(w)) && Answers(details, w, ref) >= 2)
    || HardenedBefore(details, |details|, f)
  }

  lemma {:induction false} ReuseExactly(details: seq<Detail>, f: RunFinding)
    ensures f in GatherSet(ReusedRows(Uses(details)), ReuseOf()) <==>
      exists w: int, ref :: f == RunFinding(Fail(DuplicateRef, ref), Some(w)) && Answers(details, w, ref) >= 2
  {
    var reused := ReusedRows(Uses(details));
    SetGathers(reused, ReuseOf(), f);
    forall u ensures u in reused <==> Answers(details, u.window, u.ref) >= 2 { UsesExactly(details, u.window, u.ref); }
    if w: int, ref :| f == RunFinding(Fail(DuplicateRef, ref), Some(w)) && Answers(details, w, ref) >= 2 {
      assert Use(w, ref) in reused && f in ReuseOf()(Use(w, ref));
    }
  }

  lemma {:induction false} RunBagExactly(run: Run, details: seq<Detail>, f: RunFinding)
    ensures f in RunBag(run, details) <==> RunSays(run, details, f)
  {
    TilesExactly(run.windows, run.trust);
    ReuseExactly(details, f);
    HardenedExactly(details, |details|, f);
  }

  /** A run says exactly that its tiling is broken, which rows answered for more than one receipt, and which
      rows waited at inner edges where nobody came for them; and it is ok exactly when it says nothing and
      every window is. */
  lemma {:induction false} RunSaysExactly(out: Report, run: Run)
    requires Reports(out, run)
    ensures forall f :: f in out.findings <==> RunSays(run, out.windows, f)
    ensures out.ok <==>
      (forall f :: !RunSays(run, out.windows, f)) && forall i :: 0 <= i < |out.windows| ==> out.windows[i].ok
    ensures out.resolved == FoundUpTo(out.windows, |out.windows|)
  {
    ResolvedExactly(out.windows, |out.windows|);
    forall f ensures f in out.findings <==> RunSays(run, out.windows, f) {
      RunBagExactly(run, out.windows, f);
      assert f in out.findings <==> f in multiset(out.findings);
    }
    if out.findings != [] {
      assert out.findings[0] in out.findings;
    }
  }

  // -------------------------------------------------------------- what "unconditional" says

  /** A row's deferral that an inner edge has settled, one way or the other. */
  ghost predicate SettledInside(details: seq<Detail>, i: nat, w: Finding) {
    && w.code == BoundaryDeferred && w.needs == Receipts && i < |details|
    && exists d ::
      d in details[i].deferredRows && d.ref == w.id && (FoundBeside(details, i, d) || LeftOver(details, i, d))
  }

  lemma {:induction false} SettledMeans(details: seq<Detail>, i: nat, w: Finding)
    requires i < |details|
    ensures Settled(details, i, w) <==> SettledInside(details, i, w)
  {
    var rows := details[i].deferredRows;
    forall d | d in rows
      ensures VerdictOf(details, i, d).Stays? <==> !FoundBeside(details, i, d) && !LeftOver(details, i, d)
    {
    }
    if d :| d in rows && d.ref == w.id && (FoundBeside(details, i, d) || LeftOver(details, i, d)) {
      var k :| 0 <= k < |rows| && rows[k] == d;
    }
  }

  /** No finding of the window leaves a doubt, and every warning is that no payee is bound or is a row's
      deferral that an inner edge has settled. */
  ghost predicate WindowFree(details: seq<Detail>, i: nat)
    requires i < |details|
  {
    && (forall f :: f in details[i].findings ==> !LeavesDoubt(f.code))
    && forall w :: w in details[i].warnings ==> w.code == CounterpartyUnbound || SettledInside(details, i, w)
  }

  lemma {:induction false} WindowFreeMeans(details: seq<Detail>, i: nat)
    requires i < |details|
    ensures OnlyScopeWarnings(details, i) && Undoubted(details, i) <==> WindowFree(details, i)
  {
    forall w ensures Settled(details, i, w) <==> SettledInside(details, i, w) { SettledMeans(details, i, w); }
  }

  lemma {:induction false} RunGuaranteeMeans(details: seq<Detail>, findings: seq<RunFinding>)
    ensures RunGuarantee(details, findings) <==>
      && (forall f :: f in findings ==> !LeavesDoubt(f.finding.code))
      && forall i: nat :: i < |details| ==> WindowFree(details, i)
  {
    forall i: nat | i < |details|
      ensures OnlyScopeWarnings(details, i) && Undoubted(details, i) <==> WindowFree(details, i)
    {
      WindowFreeMeans(details, i);
    }
  }

  /** A run is unconditional exactly when nothing it found leaves a doubt and every window is free. */
  lemma {:induction false} GuaranteeExactly(out: Report, run: Run)
    requires Reports(out, run)
    ensures out.unconditional <==>
      && (forall f :: f in out.findings ==> !LeavesDoubt(f.finding.code))
      && forall i: nat :: i < |out.windows| ==> WindowFree(out.windows, i)
  {
    RunGuaranteeMeans(out.windows, out.findings);
  }

  // ------------------------------------------------------------------ whose extracts they are

  /** The extract is sealed under a pinned key, and is of the account and the rail that are stated. */
  predicate Theirs(x: Extract, t: RailPin) {
    && SealedUnder(x, t.keys) && !SomeKeyDoesNotRead(t.keys)
    && (t.accountId.Some? ==> x.accountId == t.accountId.value) && (t.railId.Some? ==> x.railId == t.railId.value)
  }

  ghost predicate NothingFails(input: Input) { forall code, id :: !DocumentsFail(input, code, id) }

  lemma {:induction false} NothingFailsIsTheirs(input: Input)
    requires NothingFails(input) && input.extract.Some? && input.trust.Some?
    ensures Theirs(input.extract.value, input.trust.value)
    ensures forall s :: s in input.extract.value.rows ==> RowInside(input.extract.value, s)
  {
    var x, t := input.extract.value, input.trust.value;
    assert !DocumentsFail(input, TrustKeyUnreadable, "extract") && !DocumentsFail(input, ExtractKeyMismatch, "extract");
    assert !DocumentsFail(input, ExtractScopeMismatch, "extract");
    assert t.keys != [] && t.keys[0].Some?;
    forall s | s in x.rows ensures RowInside(x, s) {
      var i :| 0 <= i < |x.rows| && x.rows[i] == s;
      assert !DocumentsFail(input, ExtractScopeMismatch, s.ref);
    }
  }

  lemma {:induction false} OkIsTheirs(d: Detail, input: Input)
    requires Audits(d, input) && d.ok && input.extract.Some? && input.trust.Some?
    ensures Theirs(input.extract.value, input.trust.value)
    ensures forall s :: s in input.extract.value.rows ==> RowInside(input.extract.value, s)
  {
    forall code, id ensures !DocumentsFail(input, code, id) {
      if DocumentsFail(input, code, id) { FailIsNotOk(d, input, code, id); }
    }
    NothingFailsIsTheirs(input);
  }

  lemma {:induction false} FailIsNotOk(d: Detail, input: Input, code: Code, id: string)
    requires Audits(d, input) && DocumentsFail(input, code, id)
    ensures !d.ok
  {
    SaidIsReported(d, input, Fail(code, id));
  }

  /** The period a window answers for under a pin: its own when the run tiles a stated period, none when the
      tiling is broken, and otherwise what is stated. */
  predicate PeriodAsked(asked: RailPin, run: Run, x: Extract)
    requires run.trust.Some?
  {
    var t := run.trust.value;
    if !(Abut(run.windows) && Spans(run.windows, run.trust)) then asked.startMs == None && asked.endMs == None
    else if t.startMs.Some? && t.endMs.Some? then asked.startMs == Some(x.startMs) && asked.endMs == Some(x.endMs)
    else asked.startMs == t.startMs && asked.endMs == t.endMs
  }

  /** Each window is audited on its own records and extract, between the extracts before and behind it, under
      the keys, the account and the rail of the run. */
  lemma {:induction false} WindowPinned(run: Run, i: nat)
    requires i < |run.windows|
    ensures var w, input := run.windows[i], WindowInput(run, i);
      && input.receipts == w.receipts && input.checkpoints == w.checkpoints && input.extract == Some(w.extract)
      && input.settlements == None && input.rootPrev == w.rootPrev && input.others == w.others
      && input.issuer == run.issuer && input.payeeNamed == run.payeeNamed
      && (i == 0 ==> input.previous == None) && (i > 0 ==> input.previous == Some(run.windows[i - 1].extract))
      && (i + 1 == |run.windows| ==> input.next == None)
      && (i + 1 < |run.windows| ==> input.next == Some(run.windows[i + 1].extract))
      && (run.trust.None? ==> input.trust.None?)
      && (run.trust.Some? ==>
            && input.trust.Some? && input.trust.value.keys == run.trust.value.keys
            && input.trust.value.accountId == run.trust.value.accountId
            && input.trust.value.railId == run.trust.value.railId && PeriodAsked(input.trust.value, run, w.extract))
  {
    TilesExactly(run.windows, run.trust);
  }

  lemma WindowAudited(out: Report, run: Run, i: nat)
    requires Reports(out, run) && i < |out.windows|
    ensures i < |run.windows| && Audits(out.windows[i], WindowInput(run, i))
  {
    assert AuditedAt(run)(i, out.windows[i]);
  }

  /** Under a stated pin, a run is ok only when every window's extract is sealed under a pinned key, is of
      the account and the rail stated, and has no row outside its window. */
  lemma {:induction false} CleanRunIsTheirs(out: Report, run: Run, i: nat)
    requires Reports(out, run) && out.ok && run.trust.Some? && i < |run.windows|
    ensures Theirs(run.windows[i].extract, run.trust.value)
    ensures forall s :: s in run.windows[i].extract.rows ==> RowInside(run.windows[i].extract, s)
  {
    WindowAudited(out, run, i);
    WindowPinned(run, i);
    OkIsTheirs(out.windows[i], WindowInput(run, i));
  }

  /** And whatever run it is, a stranger's extract is named in its window, which hands nothing on. */
  lemma {:induction false} StrangerInRun(out: Report, run: Run, i: nat)
    requires Reports(out, run) && i < |run.windows| && Stranger(run.windows[i].extract, run.trust)
    ensures i < |out.windows| && !out.ok
    ensures var d := out.windows[i];
      Fail(ExtractKeyMismatch, "extract") in d.findings && d.matched == [] && d.carried == [] && d.deferredRows == []
  {
    WindowAudited(out, run, i);
    WindowPinned(run, i);
    StrangerIsRefused(out.windows[i], WindowInput(run, i));
  }
}
