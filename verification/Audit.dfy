/** The settlement part of one audit: the rail pin, the receipts that count, the scope sieve,
    the extracts next door, and what the report may claim. The checks it does not model enter
    as `others`: whatever else was said. */
module Audit {
  import opened Options
  import opened Records
  import opened Bags
  import opened Reconcile
  import opened Classify
  import Chain = IssuerChain

  const DEFAULT_CLOCK_SKEW_MS := 300000

  /** A signed rail extract. `carries` is the key travelling with it, when it can be read;
      `isSealed` says that it has the declared shape and its signature verifies under that key. */
  datatype Extract = Extract(
    rows: seq<Row>, startMs: int, endMs: int, clockSkewMs: Option<int>,
    accountId: string, railId: string, carries: Option<Key>, isSealed: bool)

  /** What the verifier states of the rail. A key that cannot be read is None. */
  datatype RailPin = RailPin(
    keys: seq<Option<Key>>, accountId: Option<string>, railId: Option<string>,
    startMs: Option<int>, endMs: Option<int>)

  datatype Input = Input(
    receipts: seq<Receipt>, checkpoints: bool, settlements: Option<seq<Row>>, extract: Option<Extract>,
    trust: Option<RailPin>, issuer: Option<seq<Option<Key>>>, previous: Option<Extract>, next: Option<Extract>,
    rootPrev: Option<Hash>, payeeNamed: bool, others: seq<Finding>)

  // ------------------------------------------------------------------ the rail pin

  predicate Readable(keys: seq<Option<Key>>) { exists k :: k in keys && k.Some? }

  predicate Unreadable(keys: seq<Option<Key>>) { None in keys || !Readable(keys) }

  /** With a pin stated, the extract answers to a pinned key; without one, to its own. */
  predicate Verifies(x: Extract, trust: Option<RailPin>) {
    x.isSealed && x.carries.Some? && (trust.Some? ==> x.carries in trust.value.keys)
  }

  predicate Rejected(x: Extract, trust: Option<RailPin>) {
    trust.Some? && Readable(trust.value.keys) && !Verifies(x, trust)
  }

  predicate Inside(x: Extract, s: Row) { x.startMs <= s.timestampMs < x.endMs }

  ghost function OutsideOf(x: Extract): Row -> multiset<Finding> {
    (s: Row) => if Inside(x, s) then multiset{} else multiset{Fail(ExtractScopeMismatch, s.ref)}
  }

  function Unless(holds: bool, f: Finding): seq<Finding> { if holds then [] else [f] }

  function PinFindings(x: Extract, t: RailPin): seq<Finding> {
    Unless(!Unreadable(t.keys), Fail(TrustKeyUnreadable, "extract"))
    + Unless(!Rejected(x, Some(t)), Fail(ExtractKeyMismatch, "extract"))
    + ScopeFindings(x, t)
    + Unless(t.startMs.Some? && t.endMs.Some?, Warn(UnstatedAuditWindow, "extract"))
    + Unless(t.accountId.Some? && t.railId.Some?, Warn(UnstatedAuditScope, "extract"))
  }

  /** The extract against the account, the rail and the period stated. */
  function ScopeFindings(x: Extract, t: RailPin): seq<Finding> {
    Unless(t.accountId.None? || t.accountId.value == x.accountId, Fail(ExtractScopeMismatch, "extract"))
    + Unless(t.railId.None? || t.railId.value == x.railId, Fail(ExtractScopeMismatch, "extract"))
    + Unless(t.startMs.None? || x.startMs <= t.startMs.value, Fail(ExtractScopeMismatch, "extract"))
    + Unless(t.endMs.None? || x.endMs >= t.endMs.value, Fail(ExtractScopeMismatch, "extract"))
  }

  datatype RowKey = RowKey(ref: string, amount: string, currency: string, timestampMs: int)

  function KeysOf(rows: seq<Row>): (k: seq<RowKey>)
    ensures |k| == |rows|
  {
    seq(|rows|, i requires 0 <= i < |rows| =>
      RowKey(rows[i].ref, rows[i].amount, rows[i].currency, rows[i].timestampMs))
  }

  /** The same rows by key, in any order. */
  predicate SameSettlements(a: seq<Row>, b: seq<Row>) { multiset(KeysOf(a)) == multiset(KeysOf(b)) }

  function StatedFindings(input: Input): seq<Finding> {
    match input.extract
    case None => [Warn(UnauthenticatedExtract, "extract")]
    case Some(x) =>
      Unless(
        input.settlements.None? || SameSettlements(input.settlements.value, x.rows),
        Fail(ExtractSettlementMismatch, "extract"))
      + if input.trust.None? then [Warn(UnauthenticatedExtract, "extract")] else PinFindings(x, input.trust.value)
  }

  /** The rows under audit: those of the extract, when there is one. */
  function RowsOf(input: Input): seq<Row> {
    match input.extract
    case Some(x) => x.rows
    case None => if input.settlements.Some? then input.settlements.value else []
  }

  predicate Refused(input: Input) { input.extract.Some? && Rejected(input.extract.value, input.trust) }

  // ------------------------------------------------------------ receipts that count

  predicate PinUsable(input: Input) { input.issuer.Some? && Readable(input.issuer.value) }

  function IssuerFindings(input: Input): seq<Finding> {
    match input.issuer
    case None => Unless(input.receipts == [] && !input.checkpoints, Warn(UnauthenticatedIssuer, "issuer"))
    case Some(pins) => Unless(!Unreadable(pins), Fail(TrustKeyUnreadable, "issuer"))
  }

  predicate Attests(input: Input, r: Receipt) {
    r.cose && (input.issuer.Some? ==> r.signedBy.Some? && r.signedBy in input.issuer.value)
  }

  function Attested(input: Input): seq<Receipt> { Keep(input.receipts, (r: Receipt) => Attests(input, r)) }

  /** A receipt whose ref the extract names is in scope wherever its own time lies; the window
      decides only for the others. A refused extract sieves nothing. */
  predicate InScope(input: Input, r: Receipt) {
    input.extract.None? || Refused(input)
    || (exists i :: 0 <= i < |input.extract.value.rows| && r.ref == Some(input.extract.value.rows[i].ref))
    || input.extract.value.startMs <= r.timestampMs < input.extract.value.endMs
  }

  function Sieve(input: Input, receipts: seq<Receipt>): seq<Receipt> {
    Keep(receipts, (r: Receipt) => InScope(input, r))
  }

  ghost function DefectOf(): Receipt -> multiset<Finding> {
    (r: Receipt) => if r.settled && r.ref.None? then multiset{Fail(SettledWithoutRef, r.nonce)} else multiset{}
  }

  ghost function DuplicateWarningOf(): string -> multiset<Finding> {
    (ref: string) => multiset{Warn(DuplicateRef, ref)}
  }

  /** Two receipts on one ref: a charge against the issuer when its pin is usable, else only said. */
  ghost function ClashBag(input: Input): multiset<Finding> {
    if PinUsable(input) then GatherSet(RepeatedIn(Gather(Attested(input), RefOf())), DuplicateOf())
    else GatherSet(RepeatedIn(Gather(input.receipts, RefOf())), DuplicateWarningOf())
  }

  // ------------------------------------------------------------------- next door

  function ScopeGaps(x: Extract, n: Extract, edge: Edge): seq<Finding> {
    var id := if edge == Closing then "nextExtract" else "previousExtract";
    Unless(n.accountId == x.accountId, Fail(ExtractScopeMismatch, id))
    + Unless(n.railId == x.railId, Fail(ExtractScopeMismatch, id))
    + Unless(if edge == Closing then n.startMs == x.endMs else n.endMs == x.startMs, Fail(ExtractScopeMismatch, id))
  }

  function GapFindings(x: Extract, n: Option<Extract>, edge: Edge, trust: Option<RailPin>): seq<Finding> {
    if n.Some? && Verifies(n.value, trust) && !Rejected(x, trust) then ScopeGaps(x, n.value, edge) else []
  }

  predicate Usable(x: Extract, n: Option<Extract>, edge: Edge, trust: Option<RailPin>) {
    n.Some? && Verifies(n.value, trust) && GapFindings(x, n, edge, trust) == []
  }

  function InsideRows(x: Extract): seq<Row> { Keep(x.rows, (s: Row) => Inside(x, s)) }

  /** A verified adjacent extract closes the edge, unless every row it has lies outside its window. */
  function NeighbourOf(x: Extract, n: Option<Extract>, edge: Edge, trust: Option<RailPin>): Option<Neighbour> {
    if Usable(x, n, edge, trust) && (n.value.rows == [] || InsideRows(n.value) != [])
    then Some(Neighbour(InsideRows(n.value), if edge == Closing then n.value.startMs else n.value.endMs))
    else None
  }

  ghost function NextDoorBag(x: Extract, n: Option<Extract>, edge: Edge, trust: Option<RailPin>): multiset<Finding> {
    multiset(GapFindings(x, n, edge, trust))
    + if Usable(x, n, edge, trust) then Gather(n.value.rows, OutsideOf(n.value)) else multiset{}
  }

  function SkewOf(x: Extract): int { if x.clockSkewMs.Some? then x.clockSkewMs.value else DEFAULT_CLOCK_SKEW_MS }

  function BoundaryOf(input: Input): Option<Boundary> {
    match input.extract
    case None => None
    case Some(x) => Some(Boundary(x.startMs, x.endMs, SkewOf(x),
      NeighbourOf(x, input.previous, Opening, input.trust), NeighbourOf(x, input.next, Closing, input.trust)))
  }

  function CounterpartyFindings(input: Input): seq<Finding> {
    Unless(input.extract.None? || input.payeeNamed || exists s :: s in RowsOf(input) && s.beneficiary.Some?,
      Warn(CounterpartyUnbound, "counterparty"))
  }

  // ------------------------------------------------------------------- the report

  ghost function EdgeBag(input: Input): multiset<Finding> {
    if input.extract.None? then multiset{} else
    var x := input.extract.value;
    Gather(x.rows, OutsideOf(x))
    + NextDoorBag(x, input.next, Closing, input.trust) + NextDoorBag(x, input.previous, Opening, input.trust)
  }

  ghost function InScopeOf(input: Input): seq<Receipt> { Sieve(input, Attested(input)) }

  ghost function ReconcileBag(input: Input): multiset<Finding> {
    if Refused(input) then multiset{Warn(SettlementComparisonSkipped, "extract")}
    else FindingBag(InScopeOf(input), RowsOf(input), BoundaryOf(input))
  }

  /** What is said of the receipts and rows themselves. */
  ghost function RecordsBag(input: Input): multiset<Finding> {
    Gather(input.receipts, DefectOf()) + ClashBag(input) + ReconcileBag(input)
  }

  /** What is said of the documents around them. */
  ghost function EvidenceBag(input: Input): multiset<Finding> {
    multiset(StatedFindings(input)) + multiset(IssuerFindings(input)) + EdgeBag(input)
    + multiset(CounterpartyFindings(input)) + multiset(input.others)
  }

  /** Everything one audit says, findings and warnings alike. */
  ghost function Said(input: Input): multiset<Finding> { EvidenceBag(input) + RecordsBag(input) }

  predicate Doubts(f: Finding) {
    f.code in {
      ExtractKeyMismatch, TrustKeyUnreadable, ExtractScopeMismatch, ExtractSettlementMismatch, IssuerKeyMismatch,
      ManifestKeyMismatch}
  }

  /** Unconditional: no warning but the scope-only one, and no finding that doubts the evidence. */
  predicate Guarantee(warnings: seq<Finding>, hard: seq<Finding>) {
    (forall w :: w in warnings ==> w.code == CounterpartyUnbound) && (forall f :: f in hard ==> !Doubts(f))
  }

  datatype Detail = Detail(
    ok: bool, unconditional: bool, findings: seq<Finding>, warnings: seq<Finding>,
    carried: seq<EdgeRef>, deferredRows: seq<DeferredRow>, matched: seq<string>)

  ghost function WindowCtx(input: Input): Ctx { CtxOf(InScopeOf(input), RowsOf(input), BoundaryOf(input)) }

  /** Findings and warnings apart, and what they make of ok and of the guarantee. */
  ghost predicate Graded(d: Detail) {
    && (forall f :: f in d.findings ==> !f.warn)
    && (forall f :: f in d.warnings ==> f.warn)
    && (d.ok <==> d.findings == [])
    && (d.unconditional <==> Guarantee(d.warnings, d.findings))
  }

  ghost predicate Audits(d: Detail, input: Input) {
    && multiset(d.findings) + multiset(d.warnings) == Said(input)
    && Graded(d)
    && Classes(d.carried, d.deferredRows, d.matched, input)
  }

  ghost predicate Classes(carried: seq<EdgeRef>, deferredRows: seq<DeferredRow>, matched: seq<string>, input: Input) {
    if Refused(input) then carried == [] && deferredRows == [] && matched == [] else
    var c := WindowCtx(input);
    && multiset(carried) == Gather(InScopeOf(input), CarriedOf(c))
    && multiset(deferredRows) == Gather(RowsOf(input), DeferredOf(c))
    && multiset(matched) == Gather(RowsOf(input), MatchedOf(c))
  }

  method OutsideFindings(x: Extract) returns (findings: seq<Finding>)
    ensures multiset(findings) == Gather(x.rows, OutsideOf(x))
  {
    findings := [];
    ghost var done: seq<Row> := [];
    for i := 0 to |x.rows|
      invariant done == x.rows[..i]
      invariant multiset(findings) == Gather(done, OutsideOf(x))
    {
      GatherAppend(done, x.rows[i], OutsideOf(x));
      PrefixStep(x.rows, i);
      done := done + [x.rows[i]];
      if !Inside(x, x.rows[i]) {
        findings := findings + [Fail(ExtractScopeMismatch, x.rows[i].ref)];
      }
    }
    assert done == x.rows;
  }

  method NextDoor(x: Extract, n: Option<Extract>, edge: Edge, trust: Option<RailPin>) returns (findings: seq<Finding>)
    ensures multiset(findings) == NextDoorBag(x, n, edge, trust)
  {
    findings := GapFindings(x, n, edge, trust);
    if Usable(x, n, edge, trust) {
      var outside := OutsideFindings(n.value);
      Appended(findings, outside, multiset(findings), Gather(n.value.rows, OutsideOf(n.value)));
      findings := findings + outside;
    }
  }

  method EdgeFindings(input: Input) returns (findings: seq<Finding>)
    ensures multiset(findings) == EdgeBag(input)
  {
    if input.extract.None? {
      return [];
    }
    var x := input.extract.value;
    var own := OutsideFindings(x);
    var next := NextDoor(x, input.next, Closing, input.trust);
    var prev := NextDoor(x, input.previous, Opening, input.trust);
    Appended(own, next, multiset(own), multiset(next));
    Appended(own + next, prev, multiset(own) + multiset(next), multiset(prev));
    findings := own + next + prev;
  }

  method FindReceiptDefects(receipts: seq<Receipt>) returns (findings: seq<Finding>)
    ensures multiset(findings) == Gather(receipts, DefectOf())
  {
    findings := [];
    ghost var done: seq<Receipt> := [];
    for i := 0 to |receipts|
      invariant done == receipts[..i]
      invariant multiset(findings) == Gather(done, DefectOf())
    {
      GatherAppend(done, receipts[i], DefectOf());
      PrefixStep(receipts, i);
      done := done + [receipts[i]];
      if receipts[i].settled && receipts[i].ref.None? {
        findings := findings + [Fail(SettledWithoutRef, receipts[i].nonce)];
      }
    }
    assert done == receipts;
  }

  function AsWarnings(findings: seq<Finding>): seq<Finding> {
    if findings == [] then [] else
    AsWarnings(findings[..|findings| - 1]) + [findings[|findings| - 1].(warn := true)]
  }

  ghost function WarningOf(): Finding -> multiset<Finding> { (f: Finding) => multiset{f.(warn := true)} }

  lemma {:induction false} AsWarningsGathered(findings: seq<Finding>)
    ensures multiset(AsWarnings(findings)) == Gather(findings, WarningOf())
  {
    if findings != [] {
      AsWarningsGathered(findings[..|findings| - 1]);
    }
  }

  lemma {:induction false} PickDuplicate(
      findings: seq<Finding>, refs: set<string>, ref: string) returns (rest: seq<Finding>)
    requires ref in refs && multiset(findings) == GatherSet(refs, DuplicateOf())
    ensures multiset(rest) == GatherSet(refs - {ref}, DuplicateOf())
    ensures Gather(findings, WarningOf()) == Gather(rest, WarningOf()) + multiset{Warn(DuplicateRef, ref)}
  {
    var dup := Fail(DuplicateRef, ref);
    GatherSetStep(refs, ref, DuplicateOf());
    GatherSetMember(refs, ref, DuplicateOf());
    var i := TakeOut(findings, dup);
    rest := findings[..i] + findings[i + 1..];
    GatherRemove(findings, i, WarningOf());
  }

  /** Warning-grade duplicates are the duplicates with their severity lowered. */
  lemma {:induction false} LoweredDuplicates(findings: seq<Finding>, refs: set<string>)
    requires multiset(findings) == GatherSet(refs, DuplicateOf())
    ensures Gather(findings, WarningOf()) == GatherSet(refs, DuplicateWarningOf())
    decreases |refs|
  {
    if refs == {} {
      assert |findings| == |multiset(findings)| == 0;
    } else {
      var ref :| ref in refs;
      var rest := PickDuplicate(findings, refs, ref);
      LoweredDuplicates(rest, refs - {ref});
      GatherSetStep(refs, ref, DuplicateWarningOf());
    }
  }

  /** Receipts that share a ref, said as the pin allows. */
  method FindClashes(input: Input, attested: seq<Receipt>) returns (findings: seq<Finding>)
    requires multiset(attested) == multiset(Attested(input))
    ensures multiset(findings) == ClashBag(input)
  {
    var refs := ReceiptRefs(if PinUsable(input) then attested else input.receipts);
    var dupes, clashes := DuplicateRefs(refs);
    GatherPermuted(attested, Attested(input), RefOf());
    if PinUsable(input) {
      findings := clashes;
    } else {
      LoweredDuplicates(clashes, dupes);
      AsWarningsGathered(clashes);
      findings := AsWarnings(clashes);
    }
  }

  /** The settlement comparison, or the word that it was skipped. The chain order of the
      receipts cannot matter to it. */
  method ReconcileWindow(input: Input, attested: seq<Receipt>)
    returns (findings: seq<Finding>, carried: seq<EdgeRef>, deferredRows: seq<DeferredRow>, matched: seq<string>)
    requires multiset(attested) == multiset(Attested(input))
    ensures multiset(findings) == ReconcileBag(input)
    ensures Classes(carried, deferredRows, matched, input)
  {
    if Refused(input) {
      return [Warn(SettlementComparisonSkipped, "extract")], [], [], [];
    }
    var inScope := Sieve(input, attested);
    var out := ClassifySettlementMatches(inScope, RowsOf(input), BoundaryOf(input));
    KeepPermuted(attested, Attested(input), (r: Receipt) => InScope(input, r));
    OrderIsIdle(inScope, InScopeOf(input), RowsOf(input), RowsOf(input), BoundaryOf(input));
    return out.findings, out.carried, out.deferredRows, out.matched;
  }

  method AuditDetailed(input: Input, h: ReceiptHash) returns (d: Detail)
    ensures Audits(d, input)
  {
    var ordered, leftover := Chain.OrderByIssuerChain(Attested(input), input.rootPrev, h);
    var attested := ordered + leftover;
    var edges := EdgeFindings(input);
    var defects := FindReceiptDefects(input.receipts);
    var clashes := FindClashes(input, attested);
    var compared, carried, deferredRows, matched := ReconcileWindow(input, attested);
    var said := StatedFindings(input) + IssuerFindings(input) + edges + defects + clashes + compared
      + CounterpartyFindings(input) + input.others;
    SaidInOrder(input, edges, defects, clashes, compared);
    var hard, warnings := BySeverity(said);
    d := Detail(hard == [], Guarantee(warnings, hard), hard, warnings, carried, deferredRows, matched);
  }

  method BySeverity(said: seq<Finding>) returns (hard: seq<Finding>, warnings: seq<Finding>)
    ensures multiset(hard) + multiset(warnings) == multiset(said)
    ensures (forall f :: f in hard ==> !f.warn) && (forall f :: f in warnings ==> f.warn)
  {
    var isWarning := (f: Finding) => f.warn;
    var isHard := (f: Finding) => !f.warn;
    hard, warnings := Keep(said, isHard), Keep(said, isWarning);
    KeepSplit(said, isHard, isWarning);
  }

  lemma {:induction false} SaidInOrder(
      input: Input, edges: seq<Finding>, defects: seq<Finding>, clashes: seq<Finding>, compared: seq<Finding>)
    requires multiset(edges) == EdgeBag(input) && multiset(defects) == Gather(input.receipts, DefectOf())
    requires multiset(clashes) == ClashBag(input) && multiset(compared) == ReconcileBag(input)
    ensures multiset(
      StatedFindings(input) + IssuerFindings(input) + edges + defects + clashes + compared
      + CounterpartyFindings(input) + input.others) == Said(input)
  {
    AllOf(
      StatedFindings(input), IssuerFindings(input), edges, defects, clashes, compared, CounterpartyFindings(input),
      input.others,
      EvidenceBag(input), RecordsBag(input));
  }

  lemma {:induction false} AllOf(
      a: seq<Finding>, b: seq<Finding>, c: seq<Finding>, d: seq<Finding>,
      e: seq<Finding>, f: seq<Finding>, g: seq<Finding>, i: seq<Finding>, x: multiset<Finding>, y: multiset<Finding>)
    requires x == multiset(a) + multiset(b) + multiset(c) + multiset(g) + multiset(i)
    requires y == multiset(d) + multiset(e) + multiset(f)
    ensures multiset(a + b + c + d + e + f + g + i) == x + y
  {
    assert multiset(a + b + c + d + e + f + g + i)
      == multiset(a) + multiset(b) + multiset(c) + multiset(d) + multiset(e) + multiset(f) + multiset(g) + multiset(i);
  }

  /** With a stated allowance of zero no receipt is carried or deferred: one that the extract
      does not name is in scope only inside the window. */
  lemma {:induction false} ZeroAllowanceCarriesNothing(input: Input)
    requires input.extract.Some? && !Refused(input) && SkewOf(input.extract.value) == 0
    ensures forall r :: r in InScopeOf(input) ==>
      !ClassOfReceipt(WindowCtx(input), r).Carried? && !ClassOfReceipt(WindowCtx(input), r).Deferred?
  {
    forall r | r in InScopeOf(input)
      ensures !ClassOfReceipt(WindowCtx(input), r).Carried? && !ClassOfReceipt(WindowCtx(input), r).Deferred?
    {
      ZeroAllowanceOf(input, r);
    }
  }

  lemma {:induction false} ZeroAllowanceOf(input: Input, r: Receipt)
    requires input.extract.Some? && !Refused(input) && SkewOf(input.extract.value) == 0 && InScope(input, r)
    ensures !ClassOfReceipt(WindowCtx(input), r).Carried? && !ClassOfReceipt(WindowCtx(input), r).Deferred?
  {
    var rows := RowsOf(input);
    if i :| 0 <= i < |rows| && r.ref == Some(rows[i].ref) {
      RowRefCounted(rows, i);
    } else {
      var b := BoundaryOf(input);
      assert !NearOpen(b, r.timestampMs) && !NearClose(b, r.timestampMs);
    }
  }
}
