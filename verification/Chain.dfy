/** Rebuilding the issuer's order from a bag of receipts: presentation order carries
    no weight, only the prevReceiptHash links do. */
module IssuerChain {
  import opened Options
  import opened Records

  // -------------------------------------------------------------- the walk on a bag

  /** r is the one occurrence in the bag that links to prev. */
  ghost predicate Only(bag: multiset<Receipt>, prev: Option<Hash>, r: Receipt) {
    && bag[r] == 1 && r.prevHash == prev
    && forall x :: x in bag && x.prevHash == prev ==> x == r
  }

  /** Follow the links as long as the next receipt is unambiguous. */
  ghost function Walk(bag: multiset<Receipt>, prev: Option<Hash>, h: ReceiptHash): (w: seq<Receipt>)
    ensures multiset(w) <= bag
    decreases |bag|
  {
    if r :| Only(bag, prev, r) then
      var rest := if h(r).Some? then Walk(bag - multiset{r}, h(r), h) else [];
      assert multiset([r] + rest) == multiset{r} + multiset(rest);
      [r] + rest
    else []
  }

  ghost function WalkAfter(bag: multiset<Receipt>, r: Receipt, h: ReceiptHash): (w: seq<Receipt>)
    ensures multiset(w) <= bag - multiset{r}
  {
    if h(r).Some? then Walk(bag - multiset{r}, h(r), h) else []
  }

  lemma {:induction false} WalkStep(bag: multiset<Receipt>, prev: Option<Hash>, h: ReceiptHash, r: Receipt)
    requires Only(bag, prev, r)
    ensures Walk(bag, prev, h) == [r] + WalkAfter(bag, r, h)
  {
    assert forall x :: Only(bag, prev, x) ==> x == r;
  }

  /** The receipt at i links to the one before it, the first to the root. */
  ghost predicate LinkAt(s: seq<Receipt>, i: nat, root: Option<Hash>, h: ReceiptHash)
    requires i < |s|
  {
    if i == 0 then s[i].prevHash == root else h(s[i - 1]).Some? && s[i].prevHash == h(s[i - 1])
  }

  ghost predicate IsChain(s: seq<Receipt>, root: Option<Hash>, h: ReceiptHash) {
    forall i :: 0 <= i < |s| ==> LinkAt(s, i, root, h)
  }

  lemma {:induction false} ChainCons(r: Receipt, tail: seq<Receipt>, root: Option<Hash>, h: ReceiptHash)
    ensures IsChain([r] + tail, root, h) <==>
      r.prevHash == root && (tail != [] ==> h(r).Some? && IsChain(tail, h(r), h))
  {
    var s := [r] + tail;
    forall i | 0 <= i < |tail| && h(r).Some?
      ensures LinkAt(tail, i, h(r), h) <==> LinkAt(s, i + 1, root, h)
    {
      if i > 0 { assert s[i] == tail[i - 1]; }
    }
    if IsChain(s, root, h) {
      assert LinkAt(s, 0, root, h);
      if tail != [] { assert LinkAt(s, 1, root, h); }
      forall i | 0 <= i < |tail| ensures LinkAt(tail, i, h(r), h) { assert LinkAt(s, i + 1, root, h); }
    }
    if r.prevHash == root && (tail != [] ==> h(r).Some? && IsChain(tail, h(r), h)) {
      forall i | 0 <= i < |s| ensures LinkAt(s, i, root, h) {
        if i > 0 { assert LinkAt(tail, i - 1, h(r), h); }
      }
    }
  }

  /** What the walk orders is a chain from the root, so comparing every link again
      afterwards can never find a mismatch. */
  lemma {:induction false} WalkIsChain(bag: multiset<Receipt>, root: Option<Hash>, h: ReceiptHash)
    ensures IsChain(Walk(bag, root, h), root, h)
    decreases |bag|
  {
    if r :| Only(bag, root, r) {
      WalkStep(bag, root, h, r);
      if h(r).Some? { WalkIsChain(bag - multiset{r}, h(r), h); }
      ChainCons(r, WalkAfter(bag, r, h), root, h);
    }
  }

  ghost predicate LinksDiffer(s: seq<Receipt>) {
    forall i, j :: 0 <= i < j < |s| ==> s[i].prevHash != s[j].prevHash
  }

  lemma {:induction false} LinksDifferCons(r: Receipt, tail: seq<Receipt>)
    ensures LinksDiffer([r] + tail) <==>
      (forall x :: x in tail ==> x.prevHash != r.prevHash) && LinksDiffer(tail)
  {
    var s := [r] + tail;
    if LinksDiffer(s) {
      forall x | x in tail ensures x.prevHash != r.prevHash {
        var j :| 0 <= j < |tail| && tail[j] == x;
        assert s[0] == r && s[j + 1] == x;
      }
      forall i, j | 0 <= i < j < |tail| ensures tail[i].prevHash != tail[j].prevHash {
        assert s[i + 1] == tail[i] && s[j + 1] == tail[j];
      }
    }
  }

  lemma {:induction false} OnlyHead(r: Receipt, tail: seq<Receipt>)
    requires forall x :: x in tail ==> x.prevHash != r.prevHash
    ensures Only(multiset([r] + tail), r.prevHash, r)
    ensures multiset([r] + tail) - multiset{r} == multiset(tail)
  {
    var bag := multiset([r] + tail);
    assert bag == multiset{r} + multiset(tail);
    forall x | x in bag && x.prevHash == r.prevHash ensures x == r {
      assert x in multiset(tail) ==> x in tail;
    }
    assert r !in multiset(tail);
  }

  /** A chain whose links all differ is walked from end to end, whatever the order
      its receipts were presented in. */
  lemma {:induction false} ChainIsRecovered(s: seq<Receipt>, root: Option<Hash>, h: ReceiptHash)
    requires IsChain(s, root, h) && LinksDiffer(s)
    ensures Walk(multiset(s), root, h) == s
    decreases |s|
  {
    if s == [] {
      assert multiset(s) == multiset{};
    } else {
      var r, tail := s[0], s[1..];
      assert s == [r] + tail;
      ChainCons(r, tail, root, h);
      LinksDifferCons(r, tail);
      OnlyHead(r, tail);
      WalkStep(multiset(s), root, h, r);
      if tail != [] {
        ChainIsRecovered(tail, h(r), h);
      } else {
        assert multiset(tail) == multiset{};
      }
    }
  }

  /** Conversely, the links of a walk that leaves nothing over all differ. */
  lemma {:induction false} FullWalkLinksDiffer(bag: multiset<Receipt>, root: Option<Hash>, h: ReceiptHash)
    requires multiset(Walk(bag, root, h)) == bag
    ensures LinksDiffer(Walk(bag, root, h))
    decreases |bag|
  {
    if r :| Only(bag, root, r) {
      WalkStep(bag, root, h, r);
      var rest := WalkAfter(bag, r, h);
      assert multiset([r] + rest) == multiset{r} + multiset(rest);
      assert multiset(rest) == bag - multiset{r};
      if h(r).Some? { FullWalkLinksDiffer(bag - multiset{r}, h(r), h); }
      forall x | x in rest ensures x.prevHash != root {
        assert x in multiset(rest);
        assert x in bag && x != r;
      }
      LinksDifferCons(r, rest);
    }
  }

  /** A bag is fully recovered exactly when it is some chain from the root whose
      links all differ. */
  lemma {:induction false} FullyRecoveredExactlyWhenChain(bag: multiset<Receipt>, root: Option<Hash>, h: ReceiptHash)
    ensures multiset(Walk(bag, root, h)) == bag <==>
      exists s :: multiset(s) == bag && IsChain(s, root, h) && LinksDiffer(s)
  {
    var w := Walk(bag, root, h);
    if multiset(w) == bag {
      WalkIsChain(bag, root, h);
      FullWalkLinksDiffer(bag, root, h);
    }
    if s :| multiset(s) == bag && IsChain(s, root, h) && LinksDiffer(s) {
      ChainIsRecovered(s, root, h);
    }
  }

  /** Distinct hashes, none of them the root, are enough: the chain itself is the
      order recovered. */
  lemma {:induction false} DistinctHashesRecover(s: seq<Receipt>, root: Option<Hash>, h: ReceiptHash)
    requires IsChain(s, root, h)
    requires forall i :: 0 <= i < |s| ==> h(s[i]) != root
    requires forall i, j :: 0 <= i < j < |s| ==> h(s[i]) != h(s[j])
    ensures Walk(multiset(s), root, h) == s
  {
    forall i, j | 0 <= i < j < |s| ensures s[i].prevHash != s[j].prevHash {
      assert LinkAt(s, i, root, h) && LinkAt(s, j, root, h);
      if i > 0 { assert h(s[i - 1]) != h(s[j - 1]); }
    }
    ChainIsRecovered(s, root, h);
  }

  // -------------------------------------------------------------- the walk as it runs

  /** The positions of the receipts that link to prev. */
  function LinkedTo(s: seq<Receipt>, prev: Option<Hash>): (l: seq<nat>)
    ensures forall i :: i in l <==> 0 <= i < |s| && s[i].prevHash == prev
    ensures forall i, j :: 0 <= i < j < |l| ==> l[i] < l[j]
  {
    if s == [] then []
    else
      var n := |s| - 1;
      var before := LinkedTo(s[..n], prev);
      assert forall i :: 0 <= i < n ==> s[..n][i] == s[i];
      assert forall i :: 0 <= i < |before| ==> before[i] in before;
      if s[n].prevHash == prev then before + [n] else before
  }

  lemma {:induction false} OccursElsewhere(s: seq<Receipt>, i: nat)
    requires i < |s|
    ensures multiset(s)[s[i]] >= 1
    ensures multiset(s)[s[i]] > 1 <==> exists k :: 0 <= k < |s| && k != i && s[k] == s[i]
  {
    var r := RemoveAt(s, i);
    assert r == s[..i] + s[i + 1..];
    if multiset(s)[s[i]] > 1 {
      assert s[i] in multiset(r);
      var k :| 0 <= k < |r| && r[k] == s[i];
      assert s[if k < i then k else k + 1] == s[i];
    }
    if k :| 0 <= k < |s| && k != i && s[k] == s[i] {
      assert r[if k < i then k else k - 1] == s[i];
      assert s[i] in multiset(r);
    }
  }

  /** One position links to prev exactly when one occurrence in the bag does. */
  lemma {:induction false} OneLinkedIsOnly(s: seq<Receipt>, prev: Option<Hash>)
    ensures var l := LinkedTo(s, prev);
            && (|l| == 1 ==> l[0] in l && Only(multiset(s), prev, s[l[0]]))
            && (forall r :: Only(multiset(s), prev, r) ==> |l| == 1)
  {
    var l := LinkedTo(s, prev);
    var bag := multiset(s);
    if |l| > 1 { assert l[0] < l[1]; }
    if |l| == 1 {
      var i := l[0];
      assert i in l;
      assert forall k :: k in l ==> k == i;
      OccursElsewhere(s, i);
      forall x | x in bag && x.prevHash == prev ensures x == s[i] {
        var k :| 0 <= k < |s| && s[k] == x;
        assert k in l;
      }
    }
    forall r | Only(bag, prev, r) ensures |l| == 1 {
      assert r in bag;
      var i :| 0 <= i < |s| && s[i] == r;
      OccursElsewhere(s, i);
      assert i in l;
      forall k | 0 <= k < |l| ensures l[k] == i {
        assert l[k] in l;
        assert s[l[k]] in bag;
      }
    }
  }

  /** orderByIssuerChain, with the remaining positions kept as the list of the
      receipts at them. `ordered` depends on the bag alone, and with `leftover` it is
      the whole bag. */
  method OrderByIssuerChain(receipts: seq<Receipt>, root: Option<Hash>, h: ReceiptHash)
    returns (ordered: seq<Receipt>, leftover: seq<Receipt>)
    ensures ordered == Walk(multiset(receipts), root, h)
    ensures multiset(ordered) + multiset(leftover) == multiset(receipts)
  {
    var remaining := receipts;
    ordered := [];
    var current: Option<nat> := FindOnly(remaining, root);
    ghost var rest := Walk(multiset(receipts), root, h);
    ghost var whole, prev := rest, root;
    while current.Some?
      invariant multiset(ordered) + multiset(remaining) == multiset(receipts)
      invariant whole == ordered + rest
      invariant current.Some? ==>
        current.value < |remaining| && Only(multiset(remaining), prev, remaining[current.value])
      invariant rest == if current.Some? then Walk(multiset(remaining), prev, h) else []
      decreases |remaining|
    {
      var r := remaining[current.value];
      WalkStep(multiset(remaining), prev, h, r);
      rest := WalkAfter(multiset(remaining), r, h);
      MoveOne(ordered, rest, multiset(remaining), r);
      ordered := ordered + [r];
      prev := h(r);
      remaining, current := TakeNext(remaining, current.value, h);
    }
    leftover := remaining;
  }

  /** Remove the receipt at i and look for the one receipt that links to it. */
  method TakeNext(s: seq<Receipt>, i: nat, h: ReceiptHash) returns (rest: seq<Receipt>, next: Option<nat>)
    requires i < |s|
    ensures |rest| < |s| && multiset(rest) == multiset(s) - multiset{s[i]}
    ensures next.Some? ==> next.value < |rest| && Only(multiset(rest), h(s[i]), rest[next.value])
    ensures WalkAfter(multiset(s), s[i], h) == if next.Some? then Walk(multiset(rest), h(s[i]), h) else []
  {
    rest := RemoveAt(s, i);
    next := None;
    var nextHash := h(s[i]);
    if nextHash.Some? { next := FindOnly(rest, nextHash); }
  }

  lemma {:induction false} MoveOne(ordered: seq<Receipt>, rest: seq<Receipt>, bag: multiset<Receipt>, r: Receipt)
    requires r in bag
    ensures ordered + ([r] + rest) == ordered + [r] + rest
    ensures multiset(ordered + [r]) + (bag - multiset{r}) == multiset(ordered) + bag
  {
  }

  /** The position to go on from: where exactly one receipt links to prev. */
  method FindOnly(s: seq<Receipt>, prev: Option<Hash>) returns (at: Option<nat>)
    ensures at.Some? ==> at.value < |s| && Only(multiset(s), prev, s[at.value])
    ensures at.None? ==> forall r :: !Only(multiset(s), prev, r)
  {
    OneLinkedIsOnly(s, prev);
    var l := LinkedTo(s, prev);
    if |l| == 1 { assert l[0] in l; }
    at := if |l| == 1 then Some(l[0]) else None;
  }

  // ------------------------------------------------------------- the chain check

  /** What findReceiptChainBreak can say. */
  datatype Break =
    | Unplaced(receipt: Receipt) | NotCose(i: nat) | BadSignature(i: nat) | HashRefused | LinkMismatch

  predicate InProfile(r: Receipt, verifies: Receipt -> bool) { r.cose && verifies(r) }

  /** The loop over the ordered receipts. Its two link refusals are unreachable. */
  method CheckOrdered(
      ordered: seq<Receipt>, root: Option<Hash>, h: ReceiptHash, verifies: Receipt -> bool)
    returns (found: Option<Break>)
    requires IsChain(ordered, root, h)
    ensures found.None? <==> forall k :: 0 <= k < |ordered| ==> InProfile(ordered[k], verifies)
    ensures found.Some? ==> found.value.NotCose? || found.value.BadSignature?
  {
    for i := 0 to |ordered|
      invariant forall k :: 0 <= k < i ==> InProfile(ordered[k], verifies)
    {
      if !ordered[i].cose { return Some(NotCose(i)); }
      if !verifies(ordered[i]) { return Some(BadSignature(i)); }
      assert LinkAt(ordered, i, root, h);
      var expected := root;
      if i > 0 {
        expected := h(ordered[i - 1]);
        if expected.None? { return Some(HashRefused); }
      }
      if ordered[i].prevHash != expected { return Some(LinkMismatch); }
    }
    return None;
  }

  /** findReceiptChainBreak: no break exactly when every receipt is placed, in the
      profile's encoding and verifies; and never a link refusal. */
  method FindReceiptChainBreak(
      receipts: seq<Receipt>, root: Option<Hash>, h: ReceiptHash, verifies: Receipt -> bool)
    returns (found: Option<Break>)
    ensures found.None? <==>
      && multiset(Walk(multiset(receipts), root, h)) == multiset(receipts)
      && forall r :: r in receipts ==> r.cose && verifies(r)
    ensures found != Some(HashRefused) && found != Some(LinkMismatch)
    ensures found.Some? && found.value.Unplaced? ==> found.value.receipt in receipts
  {
    var ordered, leftover := OrderByIssuerChain(receipts, root, h);
    WalkIsChain(multiset(receipts), root, h);
    SameBag(ordered, leftover, receipts);
    if leftover != [] { return Some(Unplaced(leftover[0])); }
    AllInProfile(ordered, receipts, verifies);
    found := CheckOrdered(ordered, root, h, verifies);
  }

  lemma {:induction false} SameBag(ordered: seq<Receipt>, leftover: seq<Receipt>, receipts: seq<Receipt>)
    requires multiset(ordered) + multiset(leftover) == multiset(receipts)
    ensures leftover == [] <==> multiset(ordered) == multiset(receipts)
    ensures forall r :: r in leftover ==> r in receipts
    ensures forall r :: r in ordered ==> r in receipts
  {
    forall r | r in leftover ensures r in receipts {
      assert r in multiset(leftover);
      assert r in multiset(receipts);
    }
    forall r | r in ordered ensures r in receipts {
      assert r in multiset(ordered);
      assert r in multiset(receipts);
    }
    if leftover != [] {
      assert leftover[0] in multiset(leftover);
      assert multiset(receipts)[leftover[0]] > multiset(ordered)[leftover[0]];
    } else {
      assert multiset(leftover) == multiset{};
    }
  }

  lemma {:induction false} AllInProfile(ordered: seq<Receipt>, receipts: seq<Receipt>, verifies: Receipt -> bool)
    requires multiset(ordered) == multiset(receipts)
    ensures (forall k :: 0 <= k < |ordered| ==> InProfile(ordered[k], verifies))
      <==> (forall r :: r in receipts ==> InProfile(r, verifies))
  {
    forall r ensures r in ordered <==> r in receipts {
      assert r in receipts <==> r in multiset(receipts);
      assert r in ordered <==> r in multiset(ordered);
    }
  }
}
