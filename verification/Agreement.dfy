/** When the checks of checkpoints are silent, said of the receipts and the checkpoints one by one. */
module Agreement {
  import opened Checkpoints
  import opened Options
  import opened Records
  import Chain = IssuerChain

  predicate Dated(r: Receipt, startMs: int, endMs: int) { startMs <= r.timestampMs < endMs }

  /** How many receipts lie in the window. */
  function NumberIn(receipts: seq<Receipt>, startMs: int, endMs: int): nat {
    if receipts == [] then 0
    else
      NumberIn(receipts[..|receipts| - 1], startMs, endMs)
      + if Dated(receipts[|receipts| - 1], startMs, endMs) then 1 else 0
  }

  /** The money that receipts of the window that did not abort name in a currency. */
  function MoneyIn(receipts: seq<Receipt>, startMs: int, endMs: int, currency: string): nat {
    if receipts == [] then 0
    else
      var r := receipts[|receipts| - 1];
      MoneyIn(receipts[..|receipts| - 1], startMs, endMs, currency)
      + if Dated(r, startMs, endMs) && r.settled && r.currency == currency && IsValidAmountText(r.amount)
        then ParseAmount(r.amount) else 0
  }

  /** Some receipt of the window that did not abort is in the currency. */
  predicate Moves(receipts: seq<Receipt>, startMs: int, endMs: int, currency: string) {
    exists r :: r in receipts && Dated(r, startMs, endMs) && r.settled && r.currency == currency
  }

  /** The last receipt of the chain that lies in the window. */
  predicate LastIn(chain: seq<Receipt>, i: nat, startMs: int, endMs: int) {
    i < |chain| && Dated(chain[i], startMs, endMs) && forall k :: i < k < |chain| ==> !Dated(chain[k], startMs, endMs)
  }

  lemma {:induction false} WindowNumber(receipts: seq<Receipt>, cp: Checkpoint)
    ensures |InWindowOnly(receipts, cp)| == NumberIn(receipts, cp.startMs, cp.endMs)
  {
    if receipts != [] { WindowNumber(receipts[..|receipts| - 1], cp); }
  }

  lemma {:induction false} WindowMoney(receipts: seq<Receipt>, cp: Checkpoint, currency: string)
    ensures SumOf(InWindowOnly(receipts, cp), currency) == MoneyIn(receipts, cp.startMs, cp.endMs, currency)
  {
    if receipts != [] {
      var init, r := receipts[..|receipts| - 1], receipts[|receipts| - 1];
      WindowMoney(init, cp, currency);
      if InWindow(r, cp) {
        SumAppend(InWindowOnly(init, cp), r, currency);
        assert InWindowOnly(receipts, cp) == InWindowOnly(init, cp) + [r];
      } else {
        assert InWindowOnly(receipts, cp) == InWindowOnly(init, cp);
      }
    }
  }

  lemma {:induction false} WindowLast(chain: seq<Receipt>, cp: Checkpoint) returns (i: nat)
    ensures InWindowOnly(chain, cp) == [] <==> forall k: nat :: !LastIn(chain, k, cp.startMs, cp.endMs)
    ensures InWindowOnly(chain, cp) != [] ==>
      var s := InWindowOnly(chain, cp);
      LastIn(chain, i, cp.startMs, cp.endMs) && chain[i] == s[|s| - 1]
  {
    i := 0;
    if chain != [] {
      var init, r := chain[..|chain| - 1], chain[|chain| - 1];
      assert chain == init + [r];
      InWindowAppend(init, r, cp);
      i := WindowLast(init, cp);
      forall k: nat
        ensures LastIn(chain, k, cp.startMs, cp.endMs) <==>
          if InWindow(r, cp) then k == |init| else LastIn(init, k, cp.startMs, cp.endMs)
      {
        LastOneMore(init, r, k, cp.startMs, cp.endMs);
      }
      if InWindow(r, cp) { i := |init|; }
      assert LastIn(chain, i, cp.startMs, cp.endMs) <==> InWindowOnly(chain, cp) != [];
    }
  }

  lemma {:induction false} LastOneMore(chain: seq<Receipt>, r: Receipt, k: nat, startMs: int, endMs: int)
    ensures LastIn(chain + [r], k, startMs, endMs) <==>
      if Dated(r, startMs, endMs) then k == |chain| else LastIn(chain, k, startMs, endMs)
  {
    var all := chain + [r];
    assert forall m :: 0 <= m < |chain| ==> all[m] == chain[m];
    assert all[|chain|] == r;
  }

  /** The published totals: one entry for every currency that moved in the window, with its sum. */
  ghost predicate TotalsRight(receipts: seq<Receipt>, cp: Checkpoint, totals: Totals) {
    && (forall c :: c in totals <==> Moves(receipts, cp.startMs, cp.endMs, c))
    && forall c :: c in totals ==> totals[c] == PrintAmount(MoneyIn(receipts, cp.startMs, cp.endMs, c))
  }

  lemma {:induction false} MovesMeans(receipts: seq<Receipt>, cp: Checkpoint, c: string)
    ensures c in Currencies(InWindowOnly(receipts, cp)) <==> Moves(receipts, cp.startMs, cp.endMs, c)
  {
    if r :| r in receipts && Dated(r, cp.startMs, cp.endMs) && r.settled && r.currency == c {
      assert r in InWindowOnly(receipts, cp);
    }
  }

  lemma {:induction false} TotalsMean(receipts: seq<Receipt>, cp: Checkpoint, totals: Totals)
    ensures totals == TotalsOf(InWindowOnly(receipts, cp)) <==> TotalsRight(receipts, cp, totals)
  {
    var right := TotalsOf(InWindowOnly(receipts, cp));
    forall c
      ensures c in right <==> Moves(receipts, cp.startMs, cp.endMs, c)
      ensures c in right ==> right[c] == PrintAmount(MoneyIn(receipts, cp.startMs, cp.endMs, c))
    {
      MovesMeans(receipts, cp, c);
      WindowMoney(receipts, cp, c);
    }
    if TotalsRight(receipts, cp, totals) { SameMaps(totals, right); }
  }

  lemma SameMaps(a: Totals, b: Totals)
    requires forall c :: c in a <==> c in b
    requires forall c :: c in a && c in b ==> a[c] == b[c]
    ensures a == b
  {
  }

  /** The head: none when the chain has no receipt in the window, else the hash of its last one there. */
  ghost predicate HeadRight(chain: seq<Receipt>, cp: Checkpoint, h: ReceiptHash) {
    if i: nat :| LastIn(chain, i, cp.startMs, cp.endMs) then h(chain[i]).Some? && cp.chainHead == h(chain[i])
    else cp.chainHead == None
  }

  lemma {:induction false} HeadOnChain(chain: seq<Receipt>, cp: Checkpoint, h: ReceiptHash)
    ensures HeadOf(chain, cp, h) <==> HeadRight(chain, cp, h)
  {
    var i := WindowLast(chain, cp);
    forall k: nat | LastIn(chain, k, cp.startMs, cp.endMs) ensures k == i {
      LastIsOne(chain, i, k, cp.startMs, cp.endMs);
    }
  }

  lemma {:induction false} HeadMeans(receipts: seq<Receipt>, cp: Checkpoint, root: Option<Hash>, h: ReceiptHash)
    ensures HeadMatches(receipts, cp, root, h) <==> HeadRight(Chain.Walk(multiset(receipts), root, h), cp, h)
  {
    HeadOnChain(Chain.Walk(multiset(receipts), root, h), cp, h);
  }

  lemma LastIsOne(chain: seq<Receipt>, i: nat, k: nat, startMs: int, endMs: int)
    requires LastIn(chain, k, startMs, endMs) && LastIn(chain, i, startMs, endMs)
    ensures k == i
  {
  }

  /** The check of one checkpoint is silent exactly when it verifies, every amount of its window reads, its
      totals are those of the window or withheld, it counts the window's receipts, and names the chain's last. */
  lemma {:induction false} AgreesExactly(receipts: seq<Receipt>, cp: Checkpoint, root: Option<Hash>, h: ReceiptHash)
    ensures Agrees(receipts, cp, root, h) <==>
      && cp.verifies
      && (forall r :: r in receipts && Dated(r, cp.startMs, cp.endMs) && r.settled ==> IsValidAmountText(r.amount))
      && (cp.totals.Some? ==> TotalsRight(receipts, cp, cp.totals.value))
      && cp.receiptCount == NumberIn(receipts, cp.startMs, cp.endMs)
      && HeadRight(Chain.Walk(multiset(receipts), root, h), cp, h)
  {
    if cp.totals.Some? { TotalsMean(receipts, cp, cp.totals.value); }
    WindowNumber(receipts, cp);
    HeadMeans(receipts, cp, root, h);
    forall r | r in receipts && Dated(r, cp.startMs, cp.endMs) ensures r in InWindowOnly(receipts, cp) { }
  }

  // --------------------------------------------------------------------------- coverage

  ghost predicate HitTwice(r: Receipt, cps: seq<Checkpoint>) {
    exists i: nat, j: nat ::
      i < j < |cps| && Dated(r, cps[i].startMs, cps[i].endMs) && Dated(r, cps[j].startMs, cps[j].endMs)
  }

  ghost predicate HitOnce(r: Receipt, cps: seq<Checkpoint>) {
    exists i: nat :: i < |cps| && Dated(r, cps[i].startMs, cps[i].endMs)
  }

  /** A receipt hits as many windows as it lies in: one exactly when it lies in some and not in two. */
  lemma {:induction false} HitsMean(r: Receipt, cps: seq<Checkpoint>)
    ensures Hits(r, cps) >= 1 <==> HitOnce(r, cps)
    ensures Hits(r, cps) >= 2 <==> HitTwice(r, cps)
  {
    if cps != [] {
      var n := |cps| - 1;
      var init := cps[..n];
      HitsMean(r, init);
      assert forall k :: 0 <= k < n ==> init[k] == cps[k];
    }
  }
}
