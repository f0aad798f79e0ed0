/** Checkpoint totals over windows: what the issuer publishes, the two checks the
    audit makes of it, and what their silence means. */
module Checkpoints {
  import opened Options
  import opened Records
  import Chain = IssuerChain

  type Totals = map<string, string>

  /** A checkpoint as presented; `verifies` says whether it does under the audit's
      key, `hash` is its checkpointHash. */
  datatype Checkpoint = Checkpoint(
    epoch: int, startMs: int, endMs: int, receiptCount: int, chainHead: Option<Hash>,
    totals: Option<Totals>, prevHash: Option<Hash>, hash: Hash, verifies: bool)

  // ------------------------------------------------------------------------ totals

  /** Whether a receipt enters the totals of a currency. */
  predicate Paid(r: Receipt, currency: string) { r.settled && r.currency == currency }

  predicate Readable(r: Receipt) { r.settled ==> IsValidAmountText(r.amount) }

  function AmountOf(r: Receipt): nat {
    if IsValidAmountText(r.amount) then ParseAmount(r.amount) else 0
  }

  /** The money receipted in one currency. */
  function SumOf(receipts: seq<Receipt>, currency: string): nat {
    if receipts == [] then 0
    else
      var r := receipts[|receipts| - 1];
      SumOf(receipts[..|receipts| - 1], currency) + if Paid(r, currency) then AmountOf(r) else 0
  }

  /** The currencies with a non-aborted receipt. */
  function Currencies(receipts: seq<Receipt>): set<string> {
    set r | r in receipts && r.settled :: r.currency
  }

  function TotalsOf(receipts: seq<Receipt>): Totals {
    map c | c in Currencies(receipts) :: PrintAmount(SumOf(receipts, c))
  }

  lemma {:induction false} SumAppend(receipts: seq<Receipt>, r: Receipt, c: string)
    ensures SumOf(receipts + [r], c) == SumOf(receipts, c) + if Paid(r, c) then AmountOf(r) else 0
  {
    assert (receipts + [r])[..|receipts|] == receipts;
  }

  lemma {:induction false} NoneOfCurrency(receipts: seq<Receipt>, c: string)
    requires c !in Currencies(receipts)
    ensures SumOf(receipts, c) == 0
  {
    if receipts != [] {
      var init, r := receipts[..|receipts| - 1], receipts[|receipts| - 1];
      assert r in receipts;
      assert forall x :: x in init ==> x in receipts;
      NoneOfCurrency(init, c);
    }
  }

  /** totalsFromReceipts: refuses a spelling outside the amount grammar, else sums
      what did not abort, one entry per currency. */
  method TotalsFromReceipts(receipts: seq<Receipt>) returns (out: Option<Totals>)
    ensures out.Some? <==> forall r :: r in receipts ==> Readable(r)
    ensures out.Some? ==> out.value == TotalsOf(receipts)
  {
    var acc: map<string, nat> := map[];
    for i := 0 to |receipts|
      invariant forall k :: 0 <= k < i ==> Readable(receipts[k])
      invariant Sums(acc, receipts[..i])
    {
      var r := receipts[i];
      assert receipts[..i + 1] == receipts[..i] + [r];
      assert r in receipts;
      if r.settled && !IsValidAmountText(r.amount) { return None; }
      SumsStep(acc, receipts[..i], r);
      if r.settled {
        var prev := if r.currency in acc then acc[r.currency] else 0;
        acc := acc[r.currency := prev + ParseAmount(r.amount)];
      }
    }
    assert receipts[..|receipts|] == receipts;
    SumsPrinted(acc, receipts);
    return Some(Printed(acc));
  }

  function Printed(acc: map<string, nat>): Totals { map c | c in acc :: PrintAmount(acc[c]) }

  lemma {:induction false} SumsPrinted(acc: map<string, nat>, receipts: seq<Receipt>)
    requires Sums(acc, receipts)
    ensures Printed(acc) == TotalsOf(receipts)
  {
  }

  ghost predicate Sums(acc: map<string, nat>, receipts: seq<Receipt>) {
    acc.Keys == Currencies(receipts) && forall c :: c in acc ==> acc[c] == SumOf(receipts, c)
  }

  lemma {:induction false} SumsStep(acc: map<string, nat>, receipts: seq<Receipt>, r: Receipt)
    requires Sums(acc, receipts) && Readable(r)
    ensures !r.settled ==> Sums(acc, receipts + [r])
    ensures r.settled ==>
      Sums(acc[r.currency := (if r.currency in acc then acc[r.currency] else 0) + ParseAmount(r.amount)],
        receipts + [r])
  {
    CurrenciesAppend(receipts, r);
    if r.currency !in acc { NoneOfCurrency(receipts, r.currency); }
    forall c ensures SumOf(receipts + [r], c) == SumOf(receipts, c) + if Paid(r, c) then AmountOf(r) else 0 {
      SumAppend(receipts, r, c);
    }
  }

  lemma {:induction false} CurrenciesAppend(receipts: seq<Receipt>, r: Receipt)
    ensures Currencies(receipts + [r]) == Currencies(receipts) + if r.settled then {r.currency} else {}
  {
    assert forall x :: x in receipts + [r] <==> x in receipts || x == r;
  }

  // ----------------------------------------------------------------------- windows

  predicate InWindow(r: Receipt, cp: Checkpoint) { cp.startMs <= r.timestampMs < cp.endMs }

  function InWindowOnly(receipts: seq<Receipt>, cp: Checkpoint): (s: seq<Receipt>)
    ensures forall r :: r in s <==> r in receipts && InWindow(r, cp)
  {
    if receipts == [] then []
    else
      var r := receipts[|receipts| - 1];
      InWindowOnly(receipts[..|receipts| - 1], cp) + if InWindow(r, cp) then [r] else []
  }

  /** In how many checkpoint windows a receipt lies. */
  function Hits(r: Receipt, cps: seq<Checkpoint>): nat {
    if cps == [] then 0
    else Hits(r, cps[..|cps| - 1]) + if InWindow(r, cps[|cps| - 1]) then 1 else 0
  }

  function InsertEpoch(cp: Checkpoint, s: seq<Checkpoint>): seq<Checkpoint> {
    if s == [] || cp.epoch <= s[0].epoch then [cp] + s else [s[0]] + InsertEpoch(cp, s[1..])
  }

  /** Stable order by epoch. */
  function SortByEpoch(cps: seq<Checkpoint>): seq<Checkpoint> {
    if cps == [] then [] else InsertEpoch(cps[0], SortByEpoch(cps[1..]))
  }

  datatype Finding =
    | EpochGap(epoch: int) | NotAdjacent(epoch: int) | Uncovered(receipt: Receipt) | CoveredTwice(receipt: Receipt)
    | Unverified(epoch: int) | MalformedAmount(epoch: int) | TotalsMismatch(epoch: int)
    | CountMismatch(epoch: int) | HeadRefused(epoch: int) | HeadMismatch(epoch: int) | ChainBroken(index: nat)

  ghost predicate Follows(cp: Checkpoint, before: Checkpoint) {
    cp.epoch == before.epoch + 1 && cp.startMs == before.endMs
  }

  ghost predicate Adjacent(s: seq<Checkpoint>) { forall i :: 0 < i < |s| ==> Follows(s[i], s[i - 1]) }

  /** What the coverage check is silent about. */
  ghost predicate Covered(receipts: seq<Receipt>, cps: seq<Checkpoint>) {
    Adjacent(SortByEpoch(cps)) && forall r :: r in receipts ==> Hits(r, cps) == 1
  }

  method CheckAdjacent(ordered: seq<Checkpoint>) returns (findings: seq<Finding>)
    ensures findings == [] <==> Adjacent(ordered)
  {
    findings := [];
    var i := 1;
    while i < |ordered|
      invariant 1 <= i
      invariant findings == [] <==> forall k :: 0 < k < i && k < |ordered| ==> Follows(ordered[k], ordered[k - 1])
    {
      var cp, before := ordered[i], ordered[i - 1];
      if cp.epoch != before.epoch + 1 { findings := findings + [EpochGap(cp.epoch)]; }
      if cp.startMs != before.endMs { findings := findings + [NotAdjacent(cp.epoch)]; }
      i := i + 1;
    }
  }

  /** findWindowCoverage over the chain order. */
  method FindWindowCoverage(receipts: seq<Receipt>, cps: seq<Checkpoint>, root: Option<Hash>, h: ReceiptHash)
    returns (findings: seq<Finding>)
    ensures findings == [] <==> Covered(receipts, cps)
  {
    findings := CheckAdjacent(SortByEpoch(cps));
    var chained, leftover := Chain.OrderByIssuerChain(receipts, root, h);
    var all := chained + leftover;
    SameMembers(all, receipts);
    var more := CheckHits(all, cps);
    findings := findings + more;
  }

  method CheckHits(receipts: seq<Receipt>, cps: seq<Checkpoint>) returns (findings: seq<Finding>)
    ensures findings == [] <==> forall r :: r in receipts ==> Hits(r, cps) == 1
  {
    findings := [];
    for i := 0 to |receipts|
      invariant findings == [] <==> forall k :: 0 <= k < i ==> Hits(receipts[k], cps) == 1
    {
      var hits := CountHits(receipts[i], cps);
      if hits == 0 { findings := findings + [Uncovered(receipts[i])]; }
      else if hits > 1 { findings := findings + [CoveredTwice(receipts[i])]; }
    }
  }

  method CountHits(r: Receipt, cps: seq<Checkpoint>) returns (n: nat)
    ensures n == Hits(r, cps)
  {
    n := 0;
    for i := 0 to |cps|
      invariant n == Hits(r, cps[..i])
    {
      assert cps[..i + 1][..i] == cps[..i];
      if InWindow(r, cps[i]) { n := n + 1; }
    }
    assert cps[..|cps|] == cps;
  }

  lemma {:induction false} SameMembers(a: seq<Receipt>, b: seq<Receipt>)
    requires multiset(a) == multiset(b)
    ensures forall r :: r in a <==> r in b
  {
    forall r ensures r in a <==> r in b {
      assert r in a <==> r in multiset(a);
      assert r in b <==> r in multiset(b);
    }
  }

  // ---------------------------------------------------------------------- totals check

  ghost predicate LinkedAt(cps: seq<Checkpoint>, i: nat, firstPrev: Option<Hash>)
    requires i < |cps|
  {
    cps[i].verifies && cps[i].prevHash == if i == 0 then firstPrev else Some(cps[i - 1].hash)
  }

  ghost predicate ChainLinked(cps: seq<Checkpoint>, firstPrev: Option<Hash>) {
    forall i :: 0 <= i < |cps| ==> LinkedAt(cps, i, firstPrev)
  }

  /** findCheckpointChainBreak: the first checkpoint that does not verify or link. */
  method FindCheckpointChainBreak(cps: seq<Checkpoint>, firstPrev: Option<Hash>) returns (at: Option<nat>)
    ensures at.None? <==> ChainLinked(cps, firstPrev)
    ensures at.Some? ==>
      && at.value < |cps| && !LinkedAt(cps, at.value, firstPrev)
      && forall k :: 0 <= k < at.value ==> LinkedAt(cps, k, firstPrev)
  {
    for i := 0 to |cps|
      invariant forall k :: 0 <= k < i ==> LinkedAt(cps, k, firstPrev)
    {
      var expected := firstPrev;
      if i > 0 { expected := Some(cps[i - 1].hash); }
      assert LinkedAt(cps, i, firstPrev) <==> cps[i].verifies && cps[i].prevHash == expected;
      if !cps[i].verifies { return Some(i); }
      if cps[i].prevHash != expected { return Some(i); }
    }
    return None;
  }

  /** The chain head a checkpoint of these receipts must name: the hash of the last
      receipt, in chain order, of its window. */
  ghost predicate HeadMatches(receipts: seq<Receipt>, cp: Checkpoint, root: Option<Hash>, h: ReceiptHash) {
    HeadOf(Chain.Walk(multiset(receipts), root, h), cp, h)
  }

  predicate HeadOf(chain: seq<Receipt>, cp: Checkpoint, h: ReceiptHash) {
    var onChain := InWindowOnly(chain, cp);
    if onChain == [] then cp.chainHead == None
    else h(onChain[|onChain| - 1]).Some? && cp.chainHead == h(onChain[|onChain| - 1])
  }

  ghost predicate Agrees(receipts: seq<Receipt>, cp: Checkpoint, root: Option<Hash>, h: ReceiptHash) {
    var mine := InWindowOnly(receipts, cp);
    && cp.verifies
    && (forall r :: r in mine ==> Readable(r))
    && (cp.totals.Some? ==> cp.totals.value == TotalsOf(mine))
    && cp.receiptCount == |mine|
    && HeadMatches(receipts, cp, root, h)
  }

  /** What the totals check is silent about. */
  ghost predicate TotalsAgree(
    receipts: seq<Receipt>, cps: seq<Checkpoint>, root: Option<Hash>, firstPrev: Option<Hash>, h: ReceiptHash)
  {
    (forall i :: 0 <= i < |cps| ==> Agrees(receipts, cps[i], root, h)) && ChainLinked(cps, firstPrev)
  }

  /** One checkpoint's share of findCheckpointTotalMismatches. */
  method CheckOne(receipts: seq<Receipt>, onChain: seq<Receipt>, cp: Checkpoint, root: Option<Hash>, h: ReceiptHash)
    returns (findings: seq<Finding>)
    requires onChain == Chain.Walk(multiset(receipts), root, h)
    ensures findings == [] <==> Agrees(receipts, cp, root, h)
  {
    findings := [];
    if !cp.verifies { return [Unverified(cp.epoch)]; }
    var mine := InWindowOnly(receipts, cp);
    var mineOnChain := InWindowOnly(onChain, cp);
    var expected := TotalsFromReceipts(mine);
    if expected.None? { findings := findings + [MalformedAmount(cp.epoch)]; }
    if expected.Some? && cp.totals.Some? && expected.value != cp.totals.value {
      findings := findings + [TotalsMismatch(cp.epoch)];
    }
    if |mine| != cp.receiptCount { findings := findings + [CountMismatch(cp.epoch)]; }
    var head: Option<Hash> := None;
    if mineOnChain != [] {
      head := h(mineOnChain[|mineOnChain| - 1]);
      if head.None? { return findings + [HeadRefused(cp.epoch)]; }
    }
    if cp.chainHead != head { findings := findings + [HeadMismatch(cp.epoch)]; }
  }

  method CheckEach(
      receipts: seq<Receipt>, onChain: seq<Receipt>, cps: seq<Checkpoint>, root: Option<Hash>, h: ReceiptHash)
    returns (findings: seq<Finding>)
    requires onChain == Chain.Walk(multiset(receipts), root, h)
    ensures findings == [] <==> forall k :: 0 <= k < |cps| ==> Agrees(receipts, cps[k], root, h)
  {
    findings := [];
    for i := 0 to |cps|
      invariant findings == [] <==> forall k :: 0 <= k < i ==> Agrees(receipts, cps[k], root, h)
    {
      var mine := CheckOne(receipts, onChain, cps[i], root, h);
      OneMoreAgrees(receipts, cps, i, root, h);
      findings := findings + mine;
    }
  }

  lemma OneMoreAgrees(receipts: seq<Receipt>, cps: seq<Checkpoint>, i: nat, root: Option<Hash>, h: ReceiptHash)
    requires i < |cps|
    ensures (forall k :: 0 <= k < i + 1 ==> Agrees(receipts, cps[k], root, h)) <==>
      (forall k :: 0 <= k < i ==> Agrees(receipts, cps[k], root, h)) && Agrees(receipts, cps[i], root, h)
  {
  }

  /** findCheckpointTotalMismatches. */
  method FindCheckpointTotalMismatches(
      receipts: seq<Receipt>, cps: seq<Checkpoint>, root: Option<Hash>, firstPrev: Option<Hash>, h: ReceiptHash)
    returns (findings: seq<Finding>)
    ensures findings == [] <==> TotalsAgree(receipts, cps, root, firstPrev, h)
  {
    var onChain, _ := Chain.OrderByIssuerChain(receipts, root, h);
    findings := CheckEach(receipts, onChain, cps, root, h);
    var broken := FindCheckpointChainBreak(cps, firstPrev);
    if broken.Some? { findings := findings + [ChainBroken(broken.value)]; }
  }

  // --------------------------------------------------- what the two silences add up to

  function SumCounts(cps: seq<Checkpoint>): int {
    if cps == [] then 0 else SumCounts(cps[..|cps| - 1]) + cps[|cps| - 1].receiptCount
  }

  /** A checkpoint's published total in one currency; a currency it does not name is
      a total of nothing. */
  function Published(cp: Checkpoint, c: string): nat {
    if cp.totals.Some? && c in cp.totals.value && IsValidAmountText(cp.totals.value[c])
    then ParseAmount(cp.totals.value[c]) else 0
  }

  function SumPublished(cps: seq<Checkpoint>, c: string): nat {
    if cps == [] then 0 else SumPublished(cps[..|cps| - 1], c) + Published(cps[|cps| - 1], c)
  }

  /** The same receipts, counted window by window and receipt by receipt. */
  function CountByWindow(receipts: seq<Receipt>, cps: seq<Checkpoint>): nat {
    if cps == [] then 0
    else CountByWindow(receipts, cps[..|cps| - 1]) + |InWindowOnly(receipts, cps[|cps| - 1])|
  }

  function MoneyByWindow(receipts: seq<Receipt>, cps: seq<Checkpoint>, c: string): nat {
    if cps == [] then 0
    else MoneyByWindow(receipts, cps[..|cps| - 1], c) + SumOf(InWindowOnly(receipts, cps[|cps| - 1]), c)
  }

  lemma {:induction false} CountOneMore(receipts: seq<Receipt>, r: Receipt, cps: seq<Checkpoint>)
    ensures CountByWindow(receipts + [r], cps) == CountByWindow(receipts, cps) + Hits(r, cps)
  {
    if cps != [] {
      CountOneMore(receipts, r, cps[..|cps| - 1]);
      InWindowAppend(receipts, r, cps[|cps| - 1]);
    }
  }

  /** What one receipt adds to the money of the windows it lies in. */
  function Share(r: Receipt, cps: seq<Checkpoint>, c: string): nat {
    if cps == [] then 0
    else Share(r, cps[..|cps| - 1], c) + if InWindow(r, cps[|cps| - 1]) && Paid(r, c) then AmountOf(r) else 0
  }

  lemma {:induction false} ShareOfHits(r: Receipt, cps: seq<Checkpoint>, c: string)
    ensures Hits(r, cps) == 0 ==> Share(r, cps, c) == 0
    ensures Hits(r, cps) == 1 ==> Share(r, cps, c) == if Paid(r, c) then AmountOf(r) else 0
  {
    if cps != [] { ShareOfHits(r, cps[..|cps| - 1], c); }
  }

  lemma {:induction false} MoneyOneMore(receipts: seq<Receipt>, r: Receipt, cps: seq<Checkpoint>, c: string)
    ensures MoneyByWindow(receipts + [r], cps, c) == MoneyByWindow(receipts, cps, c) + Share(r, cps, c)
  {
    if cps != [] {
      var init, cp := cps[..|cps| - 1], cps[|cps| - 1];
      MoneyOneMore(receipts, r, init, c);
      var mine := InWindowOnly(receipts, cp);
      InWindowAppend(receipts, r, cp);
      SumAppend(mine, r, c);
      assert mine + [] == mine;
    }
  }

  lemma {:induction false} InWindowAppend(receipts: seq<Receipt>, r: Receipt, cp: Checkpoint)
    ensures InWindowOnly(receipts + [r], cp) == InWindowOnly(receipts, cp) + if InWindow(r, cp) then [r] else []
  {
    assert (receipts + [r])[..|receipts|] == receipts;
  }

  lemma {:induction false} CountedOnce(receipts: seq<Receipt>, cps: seq<Checkpoint>, c: string)
    requires forall r :: r in receipts ==> Hits(r, cps) == 1
    ensures CountByWindow(receipts, cps) == |receipts|
    ensures MoneyByWindow(receipts, cps, c) == SumOf(receipts, c)
  {
    if receipts == [] {
      NothingByWindow(cps, c);
    } else {
      var init, r := receipts[..|receipts| - 1], receipts[|receipts| - 1];
      assert receipts == init + [r];
      assert forall x :: x in init ==> x in receipts;
      assert r in receipts;
      CountedOnce(init, cps, c);
      CountOneMore(init, r, cps);
      MoneyOneMore(init, r, cps, c);
      ShareOfHits(r, cps, c);
      SumAppend(init, r, c);
    }
  }

  lemma {:induction false} NothingByWindow(cps: seq<Checkpoint>, c: string)
    ensures CountByWindow([], cps) == 0 && MoneyByWindow([], cps, c) == 0
  {
    if cps != [] { NothingByWindow(cps[..|cps| - 1], c); }
  }

  lemma {:induction false} PublishedIsSum(receipts: seq<Receipt>, cp: Checkpoint, c: string)
    requires cp.totals == Some(TotalsOf(receipts))
    ensures Published(cp, c) == SumOf(receipts, c)
  {
    PrintParses(SumOf(receipts, c));
    if c !in Currencies(receipts) { NoneOfCurrency(receipts, c); }
  }

  lemma {:induction false} SumsByWindow(
      receipts: seq<Receipt>, cps: seq<Checkpoint>, root: Option<Hash>, h: ReceiptHash, c: string)
    requires forall i :: 0 <= i < |cps| ==> Agrees(receipts, cps[i], root, h) && cps[i].totals.Some?
    ensures SumCounts(cps) == CountByWindow(receipts, cps)
    ensures SumPublished(cps, c) == MoneyByWindow(receipts, cps, c)
  {
    if cps != [] {
      var init, cp := cps[..|cps| - 1], cps[|cps| - 1];
      assert forall i :: 0 <= i < |init| ==> init[i] == cps[i];
      SumsByWindow(receipts, init, root, h, c);
      PublishedIsSum(InWindowOnly(receipts, cp), cp, c);
    }
  }

  /** When neither check reports anything and no totals are redacted, the published
      counts add up to the receipts and the published totals, per currency, to the
      money of all that did not abort. */
  lemma {:induction false} SilenceConserves(
      receipts: seq<Receipt>, cps: seq<Checkpoint>, root: Option<Hash>, firstPrev: Option<Hash>,
      h: ReceiptHash, c: string)
    requires Covered(receipts, cps) && TotalsAgree(receipts, cps, root, firstPrev, h)
    requires forall i :: 0 <= i < |cps| ==> cps[i].totals.Some?
    ensures SumCounts(cps) == |receipts|
    ensures SumPublished(cps, c) == SumOf(receipts, c)
  {
    SumsByWindow(receipts, cps, root, h, c);
    CountedOnce(receipts, cps, c);
  }
}
