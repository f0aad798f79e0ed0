/** A run of consecutive windows: each audited on its own extract with its neighbours beside
    it, and the edges between them settled by what both sides say. */
module Windows {
  import opened Options
  import opened Records
  import opened Bags
  import opened Reconcile
  import opened Audit

  datatype WindowIn = WindowIn(
    receipts: seq<Receipt>, checkpoints: bool, extract: Extract, rootPrev: Option<Hash>, others: seq<Finding>)

  datatype Run = Run(
    windows: seq<WindowIn>, trust: Option<RailPin>, issuer: Option<seq<Option<Key>>>, payeeNamed: bool)

  // -------------------------------------------------------------------- the tiling

  predicate Stated(trust: Option<RailPin>) { trust.Some? && trust.value.startMs.Some? && trust.value.endMs.Some? }

  /** Each window starts where the one before ends, and the run covers the stated period exactly. */
  predicate Tiles(windows: seq<WindowIn>, trust: Option<RailPin>) {
    && windows != []
    && (Stated(trust) ==>
      windows[0].extract.startMs == trust.value.startMs.value
      && windows[|windows| - 1].extract.endMs == trust.value.endMs.value)
    && forall i :: 0 < i < |windows| ==> windows[i].extract.startMs == windows[i - 1].extract.endMs
  }

  method TilingHolds(windows: seq<WindowIn>, trust: Option<RailPin>) returns (holds: bool)
    ensures holds == Tiles(windows, trust)
  {
    if windows == [] {
      return false;
    }
    if Stated(trust) && windows[0].extract.startMs != trust.value.startMs.value {
      return false;
    }
    var i := 1;
    while i < |windows|
      invariant 1 <= i <= |windows|
      invariant forall k :: 0 < k < i ==> windows[k].extract.startMs == windows[k - 1].extract.endMs
    {
      if windows[i].extract.startMs != windows[i - 1].extract.endMs {
        return false;
      }
      i := i + 1;
    }
    return !Stated(trust) || windows[|windows| - 1].extract.endMs == trust.value.endMs.value;
  }

  /** A tiled run answers for the stated period window by window; a broken tile inherits no bounds. */
  function TrustForWindow(trust: Option<RailPin>, x: Extract, tiled: bool): Option<RailPin> {
    if trust.None? then None
    else if tiled && Stated(trust) then Some(trust.value.(startMs := Some(x.startMs), endMs := Some(x.endMs)))
    else if !tiled then Some(trust.value.(startMs := None, endMs := None))
    else trust
  }

  function WindowInput(run: Run, i: nat): Input
    requires i < |run.windows|
  {
    var w := run.windows[i];
    Input(
      w.receipts, w.checkpoints, None, Some(w.extract),
      TrustForWindow(run.trust, w.extract, Tiles(run.windows, run.trust)), run.issuer,
      if i > 0 then Some(run.windows[i - 1].extract) else None,
      if i + 1 < |run.windows| then Some(run.windows[i + 1].extract) else None,
      w.rootPrev, run.payeeNamed, w.others)
  }

  // ------------------------------------------------------------------ uses of a row

  /** One receipt counted for the row `ref` of a window. */
  datatype Use = Use(window: int, ref: string)

  datatype RunFinding = RunFinding(finding: Finding, window: Option<int>)

  ghost function MatchedUse(i: int): string -> multiset<Use> { (ref: string) => multiset{Use(i, ref)} }

  function UsedBy(i: int, e: EdgeRef): Use { Use(if e.edge == Closing then i + 1 else i - 1, e.ref) }

  ghost function CarriedUse(i: int): EdgeRef -> multiset<Use> { (e: EdgeRef) => multiset{UsedBy(i, e)} }

  ghost function UsesAt(i: int, d: Detail): multiset<Use> {
    Gather(d.matched, MatchedUse(i)) + Gather(d.carried, CarriedUse(i))
  }

  ghost function Uses(details: seq<Detail>): multiset<Use> {
    if details == [] then multiset{} else Uses(details[..|details| - 1]) + UsesAt(|details| - 1, details[|details| - 1])
  }

  ghost function ReusedRows(uses: multiset<Use>): set<Use> { set u | u in uses && uses[u] >= 2 }

  ghost function ReuseOf(): Use -> multiset<RunFinding> {
    (u: Use) => multiset{RunFinding(Fail(DuplicateRef, u.ref), Some(u.window))}
  }

  // -------------------------------------------------------------------- inner edges

  /** A deferred row stays deferred, is resolved by the window beside it, or hardens. */
  datatype Verdict = Stays | Resolved | Hardened

  predicate CarriedBeside(details: seq<Detail>, i: nat, d: DeferredRow)
    requires i < |details|
  {
    (d.opening && i > 0 && EdgeRef(d.ref, Closing) in details[i - 1].carried)
    || (d.closing && i + 1 < |details| && EdgeRef(d.ref, Opening) in details[i + 1].carried)
  }

  function VerdictOf(details: seq<Detail>, i: nat, d: DeferredRow): Verdict
    requires i < |details|
  {
    if CarriedBeside(details, i, d) then Resolved
    else if (d.opening && i == 0) || (d.closing && i + 1 == |details|) || !(d.opening || d.closing) then Stays
    else Hardened
  }

  predicate Removed(details: seq<Detail>, i: nat, ref: string)
    requires i < |details|
  {
    exists k :: 0 <= k < |details[i].deferredRows| && details[i].deferredRows[k].ref == ref
      && !VerdictOf(details, i, details[i].deferredRows[k]).Stays?
  }

  ghost function HardenedOf(details: seq<Detail>, i: nat): DeferredRow -> multiset<RunFinding>
    requires i < |details|
  {
    (d: DeferredRow) =>
      if VerdictOf(details, i, d).Hardened? then multiset{RunFinding(Fail(SettlementWithoutReceipt, d.ref), Some(i))}
      else multiset{}
  }

  ghost function ResolvedOf(details: seq<Detail>, i: nat): DeferredRow -> int
    requires i < |details|
  {
    (d: DeferredRow) => if VerdictOf(details, i, d).Resolved? then 1 else 0
  }

  ghost function HardenedUpTo(details: seq<Detail>, n: nat): multiset<RunFinding>
    requires n <= |details|
  {
    if n == 0 then multiset{} else
    HardenedUpTo(details, n - 1) + Gather(details[n - 1].deferredRows, HardenedOf(details, n - 1))
  }

  ghost function ResolvedUpTo(details: seq<Detail>, n: nat): int
    requires n <= |details|
  {
    if n == 0 then 0 else
    ResolvedUpTo(details, n - 1) + Total(details[n - 1].deferredRows, ResolvedOf(details, n - 1))
  }

  // ------------------------------------------------------------------- the run report

  datatype Report = Report(
    ok: bool, unconditional: bool, findings: seq<RunFinding>, windows: seq<Detail>, resolved: int)

  /** A row's deferral that an inner edge has settled is no longer a warning of the run. */
  predicate Settled(details: seq<Detail>, i: nat, w: Finding)
    requires i < |details|
  {
    w.code == BoundaryDeferred && w.needs == Receipts && Removed(details, i, w.id)
  }

  ghost function TileBag(run: Run): multiset<RunFinding> {
    if Tiles(run.windows, run.trust) then multiset{}
      else multiset{RunFinding(Fail(ExtractScopeMismatch, "windows"), None)}
  }

  ghost function RunBag(run: Run, details: seq<Detail>): multiset<RunFinding> {
    TileBag(run) + GatherSet(ReusedRows(Uses(details)), ReuseOf()) + HardenedUpTo(details, |details|)
  }

  ghost predicate OnlyScopeWarnings(details: seq<Detail>, i: nat)
    requires i < |details|
  {
    forall w :: w in details[i].warnings && !Settled(details, i, w) ==> w.code == CounterpartyUnbound
  }

  ghost predicate Undoubted(details: seq<Detail>, i: nat)
    requires i < |details|
  {
    forall f :: f in details[i].findings ==> !Doubts(f)
  }

  ghost predicate RunGuarantee(details: seq<Detail>, findings: seq<RunFinding>) {
    && (forall f :: f in findings ==> !Doubts(f.finding))
    && (forall i :: 0 <= i < |details| ==> OnlyScopeWarnings(details, i) && Undoubted(details, i))
  }

  ghost function AuditedAt(run: Run): (nat, Detail) -> bool {
    (i: nat, d: Detail) => i < |run.windows| && Audits(d, WindowInput(run, i))
  }

  ghost predicate AuditedAll(run: Run, details: seq<Detail>) {
    |details| == |run.windows| && EachAt(details, AuditedAt(run))
  }

  ghost predicate Reports(out: Report, run: Run) {
    && AuditedAll(run, out.windows)
    && multiset(out.findings) == RunBag(run, out.windows)
    && out.resolved == ResolvedUpTo(out.windows, |out.windows|)
    && (out.ok <==> out.findings == [] && forall i :: 0 <= i < |out.windows| ==> out.windows[i].ok)
    && (out.unconditional <==> RunGuarantee(out.windows, out.findings))
  }

  method AuditWindows(run: Run, h: ReceiptHash) returns (details: seq<Detail>)
    ensures AuditedAll(run, details)
  {
    details := [];
    while |details| < |run.windows|
      invariant |details| <= |run.windows| && EachAt(details, AuditedAt(run))
    {
      var d := AuditDetailed(WindowInput(run, |details|), h);
      OneMoreEach(details, d, AuditedAt(run));
      details := details + [d];
    }
  }

  function Count(uses: map<Use, nat>, u: Use): nat { if u in uses then uses[u] else 0 }

  ghost predicate Tallies(uses: map<Use, nat>, bag: multiset<Use>) { forall u :: Count(uses, u) == bag[u] }

  function Add(uses: map<Use, nat>, u: Use): map<Use, nat> { uses[u := Count(uses, u) + 1] }

  lemma {:induction false} AddTallies(uses: map<Use, nat>, bag: multiset<Use>, u: Use)
    requires Tallies(uses, bag)
    ensures Tallies(Add(uses, u), bag + multiset{u})
  {
  }

  method CountMatched(
      uses0: map<Use, nat>, i: int, matched: seq<string>, ghost bag: multiset<Use>) returns (uses: map<Use, nat>)
    requires Tallies(uses0, bag)
    ensures Tallies(uses, bag + Gather(matched, MatchedUse(i)))
  {
    uses := uses0;
    ghost var done: seq<string> := [];
    assert Gather(done, MatchedUse(i)) == multiset{};
    for k := 0 to |matched|
      invariant done == matched[..k]
      invariant Tallies(uses, bag + Gather(done, MatchedUse(i)))
    {
      PrefixStep(matched, k);
      GatherAppend(done, matched[k], MatchedUse(i));
      AddTallies(uses, bag + Gather(done, MatchedUse(i)), Use(i, matched[k]));
      assert bag + Gather(done, MatchedUse(i)) + multiset{Use(i, matched[k])}
        == bag + Gather(done + [matched[k]], MatchedUse(i));
      uses, done := Add(uses, Use(i, matched[k])), done + [matched[k]];
    }
    assert done == matched;
  }

  method CountCarried(
      uses0: map<Use, nat>, i: int, carried: seq<EdgeRef>, ghost bag: multiset<Use>) returns (uses: map<Use, nat>)
    requires Tallies(uses0, bag)
    ensures Tallies(uses, bag + Gather(carried, CarriedUse(i)))
  {
    uses := uses0;
    ghost var done: seq<EdgeRef> := [];
    assert Gather(done, CarriedUse(i)) == multiset{};
    for k := 0 to |carried|
      invariant done == carried[..k]
      invariant Tallies(uses, bag + Gather(done, CarriedUse(i)))
    {
      PrefixStep(carried, k);
      GatherAppend(done, carried[k], CarriedUse(i));
      AddTallies(uses, bag + Gather(done, CarriedUse(i)), UsedBy(i, carried[k]));
      assert bag + Gather(done, CarriedUse(i)) + multiset{UsedBy(i, carried[k])}
        == bag + Gather(done + [carried[k]], CarriedUse(i));
      uses, done := Add(uses, UsedBy(i, carried[k])), done + [carried[k]];
    }
    assert done == carried;
  }

  method CountUses(details: seq<Detail>) returns (uses: map<Use, nat>)
    ensures Tallies(uses, Uses(details))
  {
    uses := map[];
    ghost var done: seq<Detail> := [];
    for i := 0 to |details|
      invariant done == details[..i]
      invariant Tallies(uses, Uses(done))
    {
      PrefixStep(details, i);
      ghost var bag := Uses(done);
      var d := details[i];
      var some := CountMatched(uses, i, d.matched, bag);
      uses := CountCarried(some, i, d.carried, bag + Gather(d.matched, MatchedUse(i)));
      UsesAppend(done, d);
      done := done + [d];
    }
    assert done == details;
  }

  lemma {:induction false} UsesAppend(details: seq<Detail>, d: Detail)
    ensures Uses(details + [d])
      == Uses(details) + Gather(d.matched, MatchedUse(|details|)) + Gather(d.carried, CarriedUse(|details|))
  {
    assert (details + [d])[..|details|] == details;
  }

  /** One settlement row covers one receipt; across an inner edge only the run sees both. */
  method FindReuse(details: seq<Detail>) returns (findings: seq<RunFinding>)
    ensures multiset(findings) == GatherSet(ReusedRows(Uses(details)), ReuseOf())
  {
    var uses := CountUses(details);
    var reused := set u | u in uses && uses[u] >= 2;
    ReusedAre(uses, Uses(details), reused);
    findings := [];
    var todo := reused;
    while todo != {}
      invariant todo <= reused
      invariant multiset(findings) == GatherSet(reused - todo, ReuseOf())
      decreases |todo|
    {
      var u :| u in todo;
      GatherSetMove(reused, todo, u, ReuseOf());
      findings, todo := findings + [RunFinding(Fail(DuplicateRef, u.ref), Some(u.window))], todo - {u};
    }
    assert reused - {} == reused;
  }

  lemma {:induction false} ReusedAre(uses: map<Use, nat>, bag: multiset<Use>, reused: set<Use>)
    requires Tallies(uses, bag)
    requires reused == set u | u in uses && uses[u] >= 2
    ensures reused == ReusedRows(bag)
  {
    forall u ensures u in reused <==> u in ReusedRows(bag) {
      assert Count(uses, u) == bag[u];
    }
  }

  method SettleWindow(details: seq<Detail>, i: nat) returns (findings: seq<RunFinding>, resolved: int)
    requires i < |details|
    ensures multiset(findings) == Gather(details[i].deferredRows, HardenedOf(details, i))
    ensures resolved == Total(details[i].deferredRows, ResolvedOf(details, i))
  {
    findings, resolved := [], 0;
    var rows := details[i].deferredRows;
    ghost var done: seq<DeferredRow> := [];
    for k := 0 to |rows|
      invariant done == rows[..k]
      invariant multiset(findings) == Gather(done, HardenedOf(details, i))
      invariant resolved == Total(done, ResolvedOf(details, i))
    {
      var d := rows[k];
      PrefixStep(rows, k);
      GatherAppend(done, d, HardenedOf(details, i));
      TotalAppend(done, d, ResolvedOf(details, i));
      done := done + [d];
      var innerOpening, innerClosing := d.opening && i > 0, d.closing && i + 1 < |details|;
      if innerOpening || innerClosing {
        var carried :=
          (innerOpening && EdgeRef(d.ref, Closing) in details[i - 1].carried)
          || (innerClosing && EdgeRef(d.ref, Opening) in details[i + 1].carried);
        if carried {
          resolved := resolved + 1;
        } else if innerOpening == d.opening && innerClosing == d.closing {
          findings := findings + [RunFinding(Fail(SettlementWithoutReceipt, d.ref), Some(i))];
        }
      }
    }
    assert done == rows;
  }

  method SettleEdges(details: seq<Detail>) returns (findings: seq<RunFinding>, resolved: int)
    ensures multiset(findings) == HardenedUpTo(details, |details|)
    ensures resolved == ResolvedUpTo(details, |details|)
  {
    findings, resolved := [], 0;
    for i := 0 to |details|
      invariant multiset(findings) == HardenedUpTo(details, i)
      invariant resolved == ResolvedUpTo(details, i)
    {
      var more, n := SettleWindow(details, i);
      Appended(findings, more, HardenedUpTo(details, i), Gather(details[i].deferredRows, HardenedOf(details, i)));
      findings, resolved := findings + more, resolved + n;
    }
  }

  method GuaranteeHolds(details: seq<Detail>, findings: seq<RunFinding>) returns (holds: bool)
    ensures holds == RunGuarantee(details, findings)
  {
    holds := forall f :: f in findings ==> !Doubts(f.finding);
    for i := 0 to |details|
      invariant holds <==>
        (forall f :: f in findings ==> !Doubts(f.finding))
        && (forall k :: 0 <= k < i ==> OnlyScopeWarnings(details, k) && Undoubted(details, k))
    {
      var clear := forall w :: w in details[i].warnings ==> Settled(details, i, w) || w.code == CounterpartyUnbound;
      var undoubted := forall f :: f in details[i].findings ==> !Doubts(f);
      assert clear == OnlyScopeWarnings(details, i) && undoubted == Undoubted(details, i);
      holds := holds && clear && undoubted;
    }
  }

  method RunWindows(run: Run, h: ReceiptHash) returns (out: Report)
    ensures Reports(out, run)
  {
    var tiled := TilingHolds(run.windows, run.trust);
    var tile := if tiled then [] else [RunFinding(Fail(ExtractScopeMismatch, "windows"), None)];
    var details := AuditWindows(run, h);
    var reuse := FindReuse(details);
    var hardened, resolved := SettleEdges(details);
    var findings := tile + reuse + hardened;
    Appended(tile, reuse, multiset(tile), multiset(reuse));
    Appended(tile + reuse, hardened, multiset(tile) + multiset(reuse), multiset(hardened));
    var unconditional := GuaranteeHolds(details, findings);
    var allOk := forall i :: 0 <= i < |details| ==> details[i].ok;
    out := Report(findings == [] && allOk, unconditional, findings, details, resolved);
  }
}
