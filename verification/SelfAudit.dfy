/** What a session reports when it audits itself: the chain is whole, the one checkpoint covers it
    with the right totals and head, ledger and receipts cancel out; and the report is ok exactly
    when the claims of that checkpoint are short enough to be read back. */
module SelfAudit {
  import opened Bags
  import opened Published
  import opened Options
  import opened Records
  import opened Sessions
  import opened SessionSteps
  import opened SharedState
  import A = Audit
  import C = Checkpoints
  import Chain = IssuerChain
  import D = CborDecoder
  import R = Reconcile
  import Signing
  import Utf8

  const AUDIT_MAX_RECEIPTS := 4096

  /** What the session hands to the audit of itself: its own ledger, no extract, and the issuer key
      when the caller states one. `others` is what the checks of chain and checkpoints found. */
  function SelfInput(img: Image, pinned: bool, others: seq<R.Finding>): A.Input {
    A.Input(
      img.receipts, img.cut.Some?, Some(img.settlements), None, None,
      if pinned then Some([Some(img.key)]) else None, None, None, None, false, others)
  }

  function CheckpointsOf(img: Image, verified: bool, hash: Hash): seq<C.Checkpoint> {
    match img.cut
    case None => []
    case Some(cut) =>
      [C.Checkpoint(1, cut.startMs, cut.endMs, cut.count, cut.head, Some(cut.totals), None, hash, verified)]
  }

  // --------------------------------------------------------------- refs are distinct

  lemma {:induction false} SameRef(a: string, b: string)
    requires RefFor(a) == RefFor(b)
    ensures a == b
  {
    assert RefFor(a)[5..] == a && RefFor(b)[5..] == b;
  }

  ghost predicate AllMinted(receipts: seq<Receipt>, key: Key) { forall r :: r in receipts ==> Minted(r, key) }

  lemma {:induction false} RefsOnce(receipts: seq<Receipt>, key: Key, u: string)
    requires AllMinted(receipts, key) && NoncesDiffer(receipts)
    ensures Gather(receipts, R.RefOf())[u] <= 1
  {
    if receipts != [] {
      var init, last := receipts[..|receipts| - 1], receipts[|receipts| - 1];
      assert forall r :: r in init ==> r in receipts;
      RefsOnce(init, key, u);
      assert last in receipts;
      forall k | 0 <= k < |init| ensures init[k].ref != last.ref { OtherRef(receipts, key, k); }
      if RefFor(last.nonce) == u && u in Gather(init, R.RefOf()) {
        var k := GatherFind(init, R.RefOf(), u);
      }
    }
  }

  lemma {:induction false} OtherRef(receipts: seq<Receipt>, key: Key, k: nat)
    requires AllMinted(receipts, key) && NoncesDiffer(receipts) && k + 1 < |receipts|
    ensures receipts[k].ref != receipts[|receipts| - 1].ref
  {
    var last := receipts[|receipts| - 1];
    assert receipts[k] in receipts && last in receipts;
    assert receipts[k].nonce != last.nonce;
    if RefFor(receipts[k].nonce) == RefFor(last.nonce) {
      SameRef(receipts[k].nonce, last.nonce);
    }
  }

  lemma {:induction false} RefOnce(receipts: seq<Receipt>, key: Key, i: nat)
    requires AllMinted(receipts, key) && NoncesDiffer(receipts) && i < |receipts|
    ensures Gather(receipts, R.RefOf())[RefFor(receipts[i].nonce)] == 1
  {
    assert receipts[i] in receipts;
    RefsOnce(receipts, key, RefFor(receipts[i].nonce));
    R.RefCounted(receipts, i);
  }

  ghost predicate RowsMirror(receipts: seq<Receipt>, rows: seq<Row>) {
    |rows| == |receipts| && forall i :: 0 <= i < |rows| ==> rows[i] == RowFor(receipts[i])
  }

  lemma {:induction false} RowRefsAreRefs(receipts: seq<Receipt>, rows: seq<Row>, key: Key)
    requires AllMinted(receipts, key) && RowsMirror(receipts, rows)
    ensures Gather(rows, R.RowRefOf()) == Gather(receipts, R.RefOf())
  {
    if receipts != [] {
      var n := |receipts| - 1;
      assert forall r :: r in receipts[..n] ==> r in receipts;
      RowRefsAreRefs(receipts[..n], rows[..n], key);
      assert receipts[n] in receipts;
    }
  }

  // ------------------------------------------------------------------- reconciliation

  ghost predicate Balanced(receipts: seq<Receipt>, rows: seq<Row>, key: Key) {
    AllMinted(receipts, key) && NoncesDiffer(receipts) && RowsMirror(receipts, rows)
  }

  lemma {:induction false} ReceiptMatched(receipts: seq<Receipt>, rows: seq<Row>, key: Key, i: nat)
    requires Balanced(receipts, rows, key) && i < |receipts|
    ensures var c := R.CtxOf(receipts, rows, None);
      R.ClassOfReceipt(c, receipts[i]) == R.Matched && R.ClassOfRow(c, rows[i]) == R.RowMatched
  {
    RefOnce(receipts, key, i);
    RowRefsAreRefs(receipts, rows, key);
    assert receipts[i] in receipts;
  }

  lemma {:induction false} NothingGathered<T, U(!new)>(s: seq<T>, f: T -> multiset<U>)
    requires forall i :: 0 <= i < |s| ==> f(s[i]) == multiset{}
    ensures Gather(s, f) == multiset{}
  {
    if s != [] {
      var init := s[..|s| - 1];
      assert forall i :: 0 <= i < |init| ==> init[i] == s[i];
      NothingGathered(init, f);
    }
  }

  lemma {:induction false} ReceiptsSaySilent(receipts: seq<Receipt>, rows: seq<Row>, key: Key)
    requires Balanced(receipts, rows, key)
    ensures var c := R.CtxOf(receipts, rows, None);
      Gather(receipts, R.ReceiptFindingOf(c)) == multiset{} && Gather(rows, R.RowFindingOf(c)) == multiset{}
  {
    var c := R.CtxOf(receipts, rows, None);
    forall i | 0 <= i < |receipts|
      ensures R.ReceiptFindingOf(c)(receipts[i]) == multiset{} && R.RowFindingOf(c)(rows[i]) == multiset{}
    {
      ReceiptMatched(receipts, rows, key, i);
    }
    NothingGathered(receipts, R.ReceiptFindingOf(c));
    NothingGathered(rows, R.RowFindingOf(c));
  }

  lemma {:induction false} PairSilent(receipts: seq<Receipt>, rows: seq<Row>, key: Key, i: nat)
    requires Balanced(receipts, rows, key) && i < |rows|
    ensures Gather(receipts, R.PairedWith(rows[i])) == multiset{}
  {
    forall k | 0 <= k < |receipts| ensures R.PairedWith(rows[i])(receipts[k]) == multiset{} {
      assert receipts[k] in receipts && receipts[i] in receipts;
      if R.HasRef(receipts[k], rows[i].ref) {
        SameRef(receipts[k].nonce, receipts[i].nonce);
        assert k == i;
      }
    }
    NothingGathered(receipts, R.PairedWith(rows[i]));
  }

  lemma {:induction false} PairsSilent(receipts: seq<Receipt>, rows: seq<Row>, key: Key)
    requires Balanced(receipts, rows, key)
    ensures Gather(rows, R.PairFindingOf(R.CtxOf(receipts, rows, None), receipts)) == multiset{}
  {
    var c := R.CtxOf(receipts, rows, None);
    forall i | 0 <= i < |rows| ensures R.PairFindingOf(c, receipts)(rows[i]) == multiset{} {
      PairSilent(receipts, rows, key, i);
    }
    NothingGathered(rows, R.PairFindingOf(c, receipts));
  }

  lemma {:induction false} NothingRepeats(receipts: seq<Receipt>, rows: seq<Row>, key: Key)
    requires Balanced(receipts, rows, key)
    ensures R.RepeatedIn(Gather(receipts, R.RefOf())) == {} && R.RepeatedIn(Gather(rows, R.RowRefOf())) == {}
  {
    RowRefsAreRefs(receipts, rows, key);
    forall u ensures u !in R.RepeatedIn(Gather(receipts, R.RefOf())) { RefsOnce(receipts, key, u); }
  }

  /** Receipts and rows that mirror each other reconcile without a word. */
  lemma {:induction false} BalancedIsSilent(receipts: seq<Receipt>, rows: seq<Row>, key: Key)
    requires Balanced(receipts, rows, key)
    ensures R.FindingBag(receipts, rows, None) == multiset{}
  {
    NothingRepeats(receipts, rows, key);
    ReceiptsSaySilent(receipts, rows, key);
    PairsSilent(receipts, rows, key);
  }

  lemma {:induction false} GoodIsBalanced(img: Image, h: ReceiptHash)
    requires Good(img, h, true)
    ensures Balanced(img.receipts, img.settlements, img.key)
  {
    forall r | r in img.receipts ensures Minted(r, img.key) {
      var i :| 0 <= i < |img.receipts| && img.receipts[i] == r;
      assert MirroredAt(img, i);
    }
    forall i | 0 <= i < |img.settlements| ensures img.settlements[i] == RowFor(img.receipts[i]) {
      assert MirroredAt(img, i);
    }
  }

  lemma {:induction false} KeepAll<T(!new)>(s: seq<T>, p: T -> bool)
    requires forall i :: 0 <= i < |s| ==> p(s[i])
    ensures Keep(s, p) == s
  {
    if s != [] {
      var init, last := s[..|s| - 1], s[|s| - 1];
      assert s == init + [last];
      forall i | 0 <= i < |init| ensures p(init[i]) { assert init[i] == s[i]; }
      KeepAll(init, p);
    }
  }

  lemma {:induction false} AllInScope(img: Image, pinned: bool, others: seq<R.Finding>, h: ReceiptHash)
    requires Good(img, h, true)
    ensures A.Attested(SelfInput(img, pinned, others)) == img.receipts
    ensures A.InScopeOf(SelfInput(img, pinned, others)) == img.receipts
  {
    var input := SelfInput(img, pinned, others);
    GoodIsBalanced(img, h);
    forall i | 0 <= i < |img.receipts| ensures A.Attests(input, img.receipts[i]) && A.InScope(input, img.receipts[i]) {
      assert img.receipts[i] in img.receipts;
    }
    KeepAll(img.receipts, (r: Receipt) => A.Attests(input, r));
    KeepAll(img.receipts, (r: Receipt) => A.InScope(input, r));
  }

  lemma {:induction false} NotRefused(img: Image, pinned: bool, others: seq<R.Finding>)
    ensures !A.Refused(SelfInput(img, pinned, others)) && A.RowsOf(SelfInput(img, pinned, others)) == img.settlements
    ensures A.BoundaryOf(SelfInput(img, pinned, others)) == None
  {
  }

  lemma {:induction false} ReconcileSilent(img: Image, pinned: bool, others: seq<R.Finding>, h: ReceiptHash)
    requires Good(img, h, true)
    ensures A.ReconcileBag(SelfInput(img, pinned, others)) == multiset{}
  {
    NotRefused(img, pinned, others);
    AllInScope(img, pinned, others, h);
    GoodIsBalanced(img, h);
    BalancedIsSilent(img.receipts, img.settlements, img.key);
  }

  lemma {:induction false} ClashSilent(img: Image, pinned: bool, others: seq<R.Finding>, h: ReceiptHash)
    requires Good(img, h, true)
    ensures A.ClashBag(SelfInput(img, pinned, others)) == multiset{}
  {
    AllInScope(img, pinned, others, h);
    GoodIsBalanced(img, h);
    NothingRepeats(img.receipts, img.settlements, img.key);
  }

  lemma {:induction false} DefectSilent(img: Image, h: ReceiptHash)
    requires Good(img, h, true)
    ensures Gather(img.receipts, A.DefectOf()) == multiset{}
  {
    GoodIsBalanced(img, h);
    forall i | 0 <= i < |img.receipts| ensures A.DefectOf()(img.receipts[i]) == multiset{} {
      assert img.receipts[i] in img.receipts;
    }
    NothingGathered(img.receipts, A.DefectOf());
  }

  lemma {:induction false} RecordsSilent(img: Image, pinned: bool, others: seq<R.Finding>, h: ReceiptHash)
    requires Good(img, h, true)
    ensures A.RecordsBag(SelfInput(img, pinned, others)) == multiset{}
  {
    ReconcileSilent(img, pinned, others, h);
    ClashSilent(img, pinned, others, h);
    DefectSilent(img, h);
  }

  lemma {:induction false} EvidenceWarns(img: Image, pinned: bool, others: seq<R.Finding>, f: R.Finding)
    requires f in A.EvidenceBag(SelfInput(img, pinned, others)) && f !in others
    ensures f.warn
  {
    var input := SelfInput(img, pinned, others);
    assert A.EdgeBag(input) == multiset{} && A.CounterpartyFindings(input) == [];
    assert f in A.StatedFindings(input) || f in A.IssuerFindings(input);
    if pinned {
      assert Some(img.key) in input.issuer.value;
    }
  }

  /** Of receipts and rows the self-audit finds nothing wrong: besides what the other checks found
      it only says that nobody outside vouched for the rows and, unless the issuer key is stated,
      for the receipts. */
  lemma {:induction false} OnlyWarnings(img: Image, pinned: bool, others: seq<R.Finding>, h: ReceiptHash)
    requires Good(img, h, true)
    ensures forall f :: f in A.Said(SelfInput(img, pinned, others)) ==> f.warn || f in others
  {
    RecordsSilent(img, pinned, others, h);
    forall f | f in A.Said(SelfInput(img, pinned, others)) && f !in others ensures f.warn {
      EvidenceWarns(img, pinned, others, f);
    }
  }

  // --------------------------------------------------------------- chain and checkpoint

  ghost predicate HashesDiffer(receipts: seq<Receipt>, h: ReceiptHash) {
    forall i, k :: 0 <= i < k < |receipts| ==> h(receipts[i]) != h(receipts[k])
  }

  lemma {:induction false} AllInWindow(receipts: seq<Receipt>, cp: C.Checkpoint)
    requires forall i :: 0 <= i < |receipts| ==> C.InWindow(receipts[i], cp)
    ensures C.InWindowOnly(receipts, cp) == receipts
  {
    if receipts != [] {
      var init, last := receipts[..|receipts| - 1], receipts[|receipts| - 1];
      assert receipts == init + [last];
      forall i | 0 <= i < |init| ensures C.InWindow(init[i], cp) { assert init[i] == receipts[i]; }
      AllInWindow(init, cp);
    }
  }

  lemma {:induction false} CutAgrees(img: Image, h: ReceiptHash, hash: Hash)
    requires Good(img, h, true) && img.cut.Some?
    requires Chain.Walk(multiset(img.receipts), None, h) == img.receipts
    ensures C.Agrees(img.receipts, CheckpointsOf(img, true, hash)[0], None, h)
    ensures forall r :: r in img.receipts ==> C.InWindow(r, CheckpointsOf(img, true, hash)[0])
  {
    var cp := CheckpointsOf(img, true, hash)[0];
    forall r | r in img.receipts ensures C.InWindow(r, cp) { assert InCut(r, img.cut.value); }
    forall i | 0 <= i < |img.receipts| ensures C.InWindow(img.receipts[i], cp) {
      assert img.receipts[i] in img.receipts;
    }
    AllInWindow(img.receipts, cp);
    GoodIsBalanced(img, h);
    var last := img.receipts[|img.receipts| - 1];
    assert last in img.receipts && Signable(last, h);
  }

  lemma {:induction false} OneCheckpoint(cp: C.Checkpoint, r: Receipt)
    ensures C.SortByEpoch([cp]) == [cp]
    ensures C.Hits(r, [cp]) == if C.InWindow(r, cp) then 1 else 0
  {
    assert [cp][1..] == [] && [cp][..0] == [];
    assert C.SortByEpoch([cp][1..]) == [];
    assert C.Hits(r, [cp][..0]) == 0;
  }

  lemma {:induction false} CheckpointsCover(img: Image, h: ReceiptHash, hash: Hash)
    requires Good(img, h, true)
    requires img.cut.Some? ==> forall r :: r in img.receipts ==> C.InWindow(r, CheckpointsOf(img, true, hash)[0])
    ensures C.Covered(img.receipts, CheckpointsOf(img, true, hash))
  {
    if img.cut.Some? {
      var cp := CheckpointsOf(img, true, hash)[0];
      forall r | r in img.receipts ensures C.Hits(r, CheckpointsOf(img, true, hash)) == 1 { OneCheckpoint(cp, r); }
      OneCheckpoint(cp, img.receipts[0]);
    }
  }

  /** The one checkpoint, when it verifies, covers every receipt with the right totals and head. */
  lemma {:induction false} CheckpointsAgree(img: Image, h: ReceiptHash, hash: Hash)
    requires Good(img, h, true)
    requires Chain.Walk(multiset(img.receipts), None, h) == img.receipts
    ensures C.Covered(img.receipts, CheckpointsOf(img, true, hash))
    ensures C.TotalsAgree(img.receipts, CheckpointsOf(img, true, hash), None, None, h)
  {
    if img.cut.Some? {
      CutAgrees(img, h, hash);
      assert C.LinkedAt(CheckpointsOf(img, true, hash), 0, None);
    }
    CheckpointsCover(img, h, hash);
  }

  // -------------------------------------------------------------------- the report

  /** Whether the session's checkpoint verifies, as published. */
  ghost predicate CutVerified(img: Image, signer: Signing.Signer) {
    img.cut.Some? ==> CutVerifies(img.cut.value, signer)
  }

  /** With the issuer key stated, a checkpoint that does not verify under it is not the issuer's. */
  function AttestedCheckpoints(img: Image, pinned: bool, verified: bool, hash: Hash): seq<C.Checkpoint> {
    if pinned && !verified then [] else CheckpointsOf(img, verified, hash)
  }

  function VerifiesUnder(key: Key): Receipt -> bool { (r: Receipt) => r.signedBy == Some(key) }

  ghost predicate ChainHolds(img: Image, h: ReceiptHash) {
    && multiset(Chain.Walk(multiset(img.receipts), None, h)) == multiset(img.receipts)
    && forall r :: r in img.receipts ==> Chain.InProfile(r, VerifiesUnder(img.key))
  }

  /** Nothing is found against keys, chain, totals and coverage. */
  ghost predicate ChecksPass(img: Image, pinned: bool, verified: bool, h: ReceiptHash, hash: Hash) {
    var cps := AttestedCheckpoints(img, pinned, verified, hash);
    && (pinned ==> verified)
    && ChainHolds(img, h)
    && C.TotalsAgree(img.receipts, cps, None, None, h)
    && C.Covered(img.receipts, cps)
  }

  ghost predicate OthersFound(
      others: seq<R.Finding>, img: Image, pinned: bool, verified: bool, h: ReceiptHash, hash: Hash) {
    (forall f :: f in others ==> !f.warn) && (others == [] <==> ChecksPass(img, pinned, verified, h, hash))
  }

  /** A report of the session's audit of itself, given whether its checkpoint verified. */
  ghost predicate SelfReports(d: A.Detail, img: Image, pinned: bool, verified: bool, h: ReceiptHash, hash: Hash) {
    exists others :: OthersFound(others, img, pinned, verified, h, hash) && A.Audits(d, SelfInput(img, pinned, others))
  }

  function PrintInt(n: int): string { if n < 0 then "-" + PrintAmount(-n) else PrintAmount(n) }

  function Epoch(n: int): string { "epoch-" + PrintInt(n) }

  function ChainFinding(found: Chain.Break): R.Finding {
    R.Fail(R.OtherCode("receipt-chain-break"), if found.Unplaced? then found.receipt.nonce else "receipt")
  }

  function CheckpointFinding(f: C.Finding): R.Finding {
    match f
    case EpochGap(epoch) => R.Fail(R.OtherCode("window-coverage"), Epoch(epoch))
    case NotAdjacent(epoch) => R.Fail(R.OtherCode("window-coverage"), Epoch(epoch) + "-adjacent")
    case Uncovered(r) => R.Fail(R.OtherCode("window-coverage"), r.nonce)
    case CoveredTwice(r) => R.Fail(R.OtherCode("window-coverage"), r.nonce)
    case Unverified(epoch) => R.Fail(R.OtherCode("checkpoint-total-mismatch"), Epoch(epoch))
    case MalformedAmount(epoch) => R.Fail(R.MalformedAmount, Epoch(epoch))
    case TotalsMismatch(epoch) => R.Fail(R.OtherCode("checkpoint-total-mismatch"), Epoch(epoch))
    case CountMismatch(epoch) => R.Fail(R.OtherCode("checkpoint-total-mismatch"), Epoch(epoch) + "-count")
    case HeadRefused(epoch) => R.Fail(R.OtherCode("checkpoint-head-mismatch"), Epoch(epoch) + "-head")
    case HeadMismatch(epoch) => R.Fail(R.OtherCode("checkpoint-head-mismatch"), Epoch(epoch) + "-head")
    case ChainBroken(index) =>
      R.Fail(R.OtherCode("checkpoint-total-mismatch"), "checkpoint-chain-" + PrintAmount(index))
  }

  function CheckpointFindings(found: seq<C.Finding>): (findings: seq<R.Finding>)
    ensures |findings| == |found| && forall i :: 0 <= i < |found| ==> findings[i] == CheckpointFinding(found[i])
  {
    seq(|found|, i requires 0 <= i < |found| => CheckpointFinding(found[i]))
  }

  lemma {:induction false} NothingFound(
      foreign: seq<R.Finding>, broken: seq<R.Finding>, totals: seq<C.Finding>, coverage: seq<C.Finding>)
    requires (forall f :: f in foreign ==> !f.warn) && (forall f :: f in broken ==> !f.warn)
    ensures var all := foreign + broken + CheckpointFindings(totals) + CheckpointFindings(coverage);
      && (forall f :: f in all ==> !f.warn)
      && (all == [] <==> foreign == [] && broken == [] && totals == [] && coverage == [])
  {
  }

  method FindChain(img: Image, h: ReceiptHash) returns (found: seq<R.Finding>)
    ensures forall f :: f in found ==> !f.warn
    ensures found == [] <==> ChainHolds(img, h)
  {
    var broken := Chain.FindReceiptChainBreak(img.receipts, None, h, VerifiesUnder(img.key));
    if broken.Some? {
      return [ChainFinding(broken.value)];
    }
    return [];
  }

  method FindKey(pinned: bool, verified: bool) returns (found: seq<R.Finding>)
    ensures forall f :: f in found ==> !f.warn
    ensures found == [] <==> (pinned ==> verified)
  {
    return if pinned && !verified then [R.Fail(R.IssuerKeyMismatch, Epoch(1))] else [];
  }

  /** The checks of keys, chain and checkpoint, each run and its findings gathered. */
  method FindOthers(
      img: Image, pinned: bool, verified: bool, h: ReceiptHash, hash: Hash) returns (others: seq<R.Finding>)
    ensures OthersFound(others, img, pinned, verified, h, hash)
  {
    var cps := AttestedCheckpoints(img, pinned, verified, hash);
    var foreign := FindKey(pinned, verified);
    var broken := FindChain(img, h);
    var totals := C.FindCheckpointTotalMismatches(img.receipts, cps, None, None, h);
    var coverage := C.FindWindowCoverage(img.receipts, cps, None, h);
    NothingFound(foreign, broken, totals, coverage);
    others := foreign + broken + CheckpointFindings(totals) + CheckpointFindings(coverage);
  }

  /** audit: refused beyond the bound on one audit, else one report. */
  method AuditItself(img: Image, pinned: bool, verified: bool, h: ReceiptHash, hash: Hash) returns (d: Option<A.Detail>)
    ensures d.None? <==> |img.receipts| > 4096 || |img.settlements| > 4096
    ensures d.Some? ==> SelfReports(d.value, img, pinned, verified, h, hash)
  {
    if |img.receipts| > AUDIT_MAX_RECEIPTS || |img.settlements| > AUDIT_MAX_RECEIPTS {
      return None;
    }
    var others := FindOthers(img, pinned, verified, h, hash);
    var report := A.AuditDetailed(SelfInput(img, pinned, others), h);
    return Some(report);
  }

  lemma {:induction false} HardIsNotOk(d: A.Detail, input: A.Input, f: R.Finding)
    requires A.Audits(d, input) && f in input.others && !f.warn
    ensures !d.ok
  {
    assert f in multiset(input.others);
    assert f in A.EvidenceBag(input);
    assert f in A.Said(input);
    assert f in multiset(d.findings) || f in multiset(d.warnings);
  }

  lemma {:induction false} FoundIsSaid(d: A.Detail, input: A.Input, f: R.Finding)
    requires A.Audits(d, input) && f in d.findings
    ensures f in A.Said(input) && !f.warn
  {
    assert f in multiset(d.findings);
  }

  lemma {:induction false} SilentIsOk(d: A.Detail, input: A.Input)
    requires A.Audits(d, input) && forall f :: f in A.Said(input) ==> f.warn
    ensures d.ok
  {
    if d.findings != [] {
      FoundIsSaid(d, input, d.findings[0]);
    }
  }

  /** No report of a state that fails one of the checks is ok. */
  lemma {:induction false} FailedCheckIsNotOk(
      d: A.Detail, img: Image, pinned: bool, verified: bool, h: ReceiptHash, hash: Hash)
    requires SelfReports(d, img, pinned, verified, h, hash) && !ChecksPass(img, pinned, verified, h, hash)
    ensures !d.ok
  {
    var others :| OthersFound(others, img, pinned, verified, h, hash) && A.Audits(d, SelfInput(img, pinned, others));
    var f, input := others[0], SelfInput(img, pinned, others);
    assert input.others == others && f in others;
    HardIsNotOk(d, input, f);
  }

  lemma {:induction false} GoodChainHolds(img: Image, h: ReceiptHash)
    requires Good(img, h, true) && HashesDiffer(img.receipts, h)
    ensures ChainHolds(img, h) && Chain.Walk(multiset(img.receipts), None, h) == img.receipts
  {
    forall i | 0 <= i < |img.receipts| ensures h(img.receipts[i]) != None {
      assert img.receipts[i] in img.receipts && Signable(img.receipts[i], h);
    }
    Chain.DistinctHashesRecover(img.receipts, None, h);
    GoodIsBalanced(img, h);
  }

  lemma {:induction false} GoodChecksPass(img: Image, pinned: bool, h: ReceiptHash, hash: Hash)
    requires Good(img, h, true) && HashesDiffer(img.receipts, h)
    ensures ChecksPass(img, pinned, true, h, hash)
  {
    GoodChainHolds(img, h);
    CheckpointsAgree(img, h, hash);
  }

  /** A checkpoint that does not verify is always found out. */
  lemma {:induction false} UnverifiedFails(img: Image, pinned: bool, h: ReceiptHash, hash: Hash)
    requires img.cut.Some?
    ensures !ChecksPass(img, pinned, false, h, hash)
  {
    if !pinned {
      assert !C.Agrees(img.receipts, CheckpointsOf(img, false, hash)[0], None, h);
    }
  }

  // -------------------------------------------------------- what decides the report

  /** The claims of the session's checkpoint fit into one byte string. */
  ghost predicate CutShort(img: Image) { img.cut.Some? ==> CutSize(img.cut.value) <= D.CBOR_MAX_STRING }

  lemma {:induction false} FewCurrencies(receipts: seq<Receipt>)
    ensures |C.Currencies(receipts)| <= |receipts|
  {
    if receipts != [] {
      var init, last := receipts[..|receipts| - 1], receipts[|receipts| - 1];
      assert receipts == init + [last];
      FewCurrencies(init);
      C.CurrenciesAppend(init, last);
    }
  }

  lemma {:induction false} GoodCutTexts(img: Image, h: ReceiptHash)
    requires Good(img, h, true) && img.cut.Some? && |img.receipts| <= AUDIT_MAX_RECEIPTS
    ensures CutTexts(img.cut.value)
  {
    var cut := img.cut.value;
    FewCurrencies(img.receipts);
    assert cut.totals.Keys == C.Currencies(img.receipts);
    assert |cut.totals| == |cut.totals.Keys|;
    forall k | k in cut.totals ensures |Utf8.EncodeText(k)| <= D.CBOR_MAX_STRING {
      var r :| r in img.receipts && r.settled && r.currency == k;
      assert Signable(r, h);
    }
  }

  lemma {:induction false} PassingIsOk(
      d: A.Detail, img: Image, pinned: bool, verified: bool, h: ReceiptHash, hash: Hash)
    requires Good(img, h, true) && SelfReports(d, img, pinned, verified, h, hash)
      && ChecksPass(img, pinned, verified, h, hash)
    ensures d.ok
  {
    var others :| OthersFound(others, img, pinned, verified, h, hash) && A.Audits(d, SelfInput(img, pinned, others));
    OnlyWarnings(img, pinned, others, h);
    SilentIsOk(d, SelfInput(img, pinned, others));
  }

  lemma {:induction false} VerifiedExactly(img: Image, signer: Signing.Signer, h: ReceiptHash)
    requires Good(img, h, true) && |img.receipts| <= AUDIT_MAX_RECEIPTS && signer.Valid()
    ensures CutVerified(img, signer) <==> CutShort(img)
  {
    if img.cut.Some? {
      GoodCutTexts(img, h);
      CutVerifiesExactly(img.cut.value, signer);
    }
  }

  lemma {:induction false} OkExactlyWhenVerified(
      d: A.Detail, img: Image, pinned: bool, verified: bool, h: ReceiptHash, hash: Hash)
    requires Good(img, h, true) && HashesDiffer(img.receipts, h) && (img.cut.None? ==> verified)
    requires SelfReports(d, img, pinned, verified, h, hash)
    ensures d.ok <==> verified
  {
    if verified {
      GoodChecksPass(img, pinned, h, hash);
      PassingIsOk(d, img, pinned, verified, h, hash);
    } else {
      UnverifiedFails(img, pinned, h, hash);
      FailedCheckIsNotOk(d, img, pinned, verified, h, hash);
    }
  }

  /** A whole state within the bound of one audit is reported ok exactly when the claims of its
      checkpoint fit into one byte string. */
  lemma {:induction false} GoodAuditsCleanExactly(
      d: A.Detail, img: Image, pinned: bool, signer: Signing.Signer, h: ReceiptHash, hash: Hash)
    requires Good(img, h, true) && HashesDiffer(img.receipts, h) && |img.receipts| <= AUDIT_MAX_RECEIPTS
    requires signer.Valid() && SelfReports(d, img, pinned, CutVerified(img, signer), h, hash)
    ensures d.ok <==> CutShort(img)
  {
    VerifiedExactly(img, signer, h);
    OkExactlyWhenVerified(d, img, pinned, CutVerified(img, signer), h, hash);
  }

  /** A receipt pushed without a new checkpoint is always found out: the old checkpoint does not
      cover it, or counts one too few. */
  lemma {:induction false} StrandedFails(
      img: Image, r: Receipt, pinned: bool, verified: bool, h: ReceiptHash, hash: Hash)
    requires Whole(img, h)
    ensures !ChecksPass(Push(img, r), pinned, verified, h, hash)
  {
    var stranded := Push(img, r);
    var cps := AttestedCheckpoints(stranded, pinned, verified, hash);
    assert r in stranded.receipts;
    if cps == [] {
      assert C.Hits(r, cps) == 0;
    } else if C.Covered(stranded.receipts, cps) {
      var cp := cps[0];
      assert cps == [cp];
      forall i | 0 <= i < |stranded.receipts| ensures C.InWindow(stranded.receipts[i], cp) {
        assert stranded.receipts[i] in stranded.receipts;
        OneCheckpoint(cp, stranded.receipts[i]);
      }
      AllInWindow(stranded.receipts, cp);
      assert cp.receiptCount != |C.InWindowOnly(stranded.receipts, cp)|;
      assert !C.Agrees(stranded.receipts, cps[0], None, h);
    }
  }

  lemma {:induction false} StrandedIsNotClean(
      d: A.Detail, img: Image, r: Receipt, pinned: bool, verified: bool, h: ReceiptHash, hash: Hash)
    requires Whole(img, h) && SelfReports(d, Push(img, r), pinned, verified, h, hash)
    ensures !d.ok
  {
    StrandedFails(img, r, pinned, verified, h, hash);
    FailedCheckIsNotOk(d, Push(img, r), pinned, verified, h, hash);
  }

  ghost predicate AuditsCleanExactly(img: Image, signer: Signing.Signer, h: ReceiptHash, hash: Hash) {
    HashesDiffer(img.receipts, h) && |img.receipts| <= AUDIT_MAX_RECEIPTS ==>
      forall pinned: bool, d :: SelfReports(d, img, pinned, CutVerified(img, signer), h, hash) ==>
        (d.ok <==> CutShort(img))
  }

  lemma {:induction false} WholeAuditsCleanExactly(img: Image, signer: Signing.Signer, h: ReceiptHash, hash: Hash)
    requires Good(img, h, true) && signer.Valid()
    ensures AuditsCleanExactly(img, signer, h, hash)
  {
    if HashesDiffer(img.receipts, h) && |img.receipts| <= AUDIT_MAX_RECEIPTS {
      forall pinned: bool, d | SelfReports(d, img, pinned, CutVerified(img, signer), h, hash)
        ensures d.ok <==> CutShort(img)
      {
        GoodAuditsCleanExactly(d, img, pinned, signer, h, hash);
      }
    }
  }

  /** Whatever crashed, failed or was retried on the way: as long as no clock or evidence stood at
      the last safe integer, every session still running, and the file itself, is reported ok
      exactly when the claims of its checkpoint fit into one byte string. */
  lemma {:induction false} EveryReachableStateAuditsClean(
      actions: seq<Action>, signer: Signing.Signer, h: ReceiptHash, hash: Hash)
    requires TimelyRun(actions) && signer.Valid()
    ensures forall id :: id in After(actions, h).members ==>
      AuditsCleanExactly(After(actions, h).members[id].mem, signer, h, hash)
    ensures After(actions, h).disk.Some? ==> AuditsCleanExactly(After(actions, h).disk.value, signer, h, hash)
  {
    var w := After(actions, h);
    RunKeeps(actions, h, true);
    forall id | id in w.members ensures AuditsCleanExactly(w.members[id].mem, signer, h, hash) {
      assert MemberOk(w, w.members[id], h, true);
      WholeAuditsCleanExactly(w.members[id].mem, signer, h, hash);
    }
    if w.disk.Some? {
      WholeAuditsCleanExactly(w.disk.value, signer, h, hash);
    }
  }
}
