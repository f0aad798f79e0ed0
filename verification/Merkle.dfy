/** The Merkle tree of the transparency log: odd levels pair their last node with
    itself, nodes carry no leaf or interior tag, and the hash of a pair is a
    parameter about which nothing is assumed. */
module Merkle {
  import opened Options

  // ------------------------------------------------------------- the tree itself

  function PadEven<H>(level: seq<H>): (p: seq<H>)
    ensures |p| == |level| + |level| % 2
  {
    if |level| % 2 == 1 then level + [level[|level| - 1]] else level
  }

  function NextLevel<H>(level: seq<H>, parent: (H, H) -> H): (next: seq<H>)
    ensures |next| == (|level| + 1) / 2
  {
    var p := PadEven(level);
    seq(|p| / 2, i requires 0 <= i < |p| / 2 => parent(p[2 * i], p[2 * i + 1]))
  }

  function Root<H>(leaves: seq<H>, parent: (H, H) -> H, empty: H): H
    decreases |leaves|
  {
    if leaves == [] then empty
    else if |leaves| == 1 then leaves[0]
    else Root(NextLevel(leaves, parent), parent, empty)
  }

  /** The node paired with the one at idx. */
  function Sibling<H>(level: seq<H>, idx: nat): H
    requires idx < |level|
  {
    var p := PadEven(level);
    if idx % 2 == 0 then p[idx + 1] else p[idx - 1]
  }

  /** The sibling hashes from leaf idx up to the root. */
  function Path<H>(leaves: seq<H>, idx: nat, parent: (H, H) -> H): seq<H>
    requires idx < |leaves|
    decreases |leaves|
  {
    if |leaves| == 1 then []
    else [Sibling(leaves, idx)] + Path(NextLevel(leaves, parent), idx / 2, parent)
  }

  function Pair<H>(hash: H, idx: nat, sibling: H): (H, H) {
    if idx % 2 == 0 then (hash, sibling) else (sibling, hash)
  }

  function Apply<H>(hash: H, idx: nat, siblings: seq<H>, parent: (H, H) -> H): H
    decreases |siblings|
  {
    if siblings == [] then hash
    else
      var (l, r) := Pair(hash, idx, siblings[0]);
      Apply(parent(l, r), idx / 2, siblings[1..], parent)
  }

  /** The number of levels above n leaves. */
  function Height(n: nat): nat {
    if n <= 1 then 0 else 1 + Height((n + 1) / 2)
  }

  function Pow2(k: nat): (p: nat)
    ensures p > 0
  {
    if k == 0 then 1 else 2 * Pow2(k - 1)
  }

  // ------------------------------------------------------------------- completeness

  /** The height is the exact ceiling of the base-2 logarithm. */
  lemma {:induction false} HeightIsCeilingOfLog(n: nat)
    requires n >= 1
    ensures n <= Pow2(Height(n))
    ensures n > 1 ==> Pow2(Height(n) - 1) < n
  {
    if n > 1 { HeightIsCeilingOfLog((n + 1) / 2); }
  }

  lemma {:induction false} PairInNextLevel<H>(leaves: seq<H>, idx: nat, parent: (H, H) -> H)
    requires idx < |leaves| && |leaves| > 1
    ensures var (l, r) := Pair(leaves[idx], idx, Sibling(leaves, idx));
            NextLevel(leaves, parent)[idx / 2] == parent(l, r)
  {
    var p := PadEven(leaves);
    assert p[idx] == leaves[idx];
    assert idx % 2 == 0 ==> 2 * (idx / 2) == idx;
    assert idx % 2 == 1 ==> 2 * (idx / 2) + 1 == idx;
  }

  /** The built path, applied to its leaf, gives the root; it has one sibling per
      level, and its index resolves under it. */
  lemma {:induction false} PathReproducesRoot<H>(leaves: seq<H>, idx: nat, parent: (H, H) -> H, empty: H)
    requires idx < |leaves|
    ensures Apply(leaves[idx], idx, Path(leaves, idx, parent), parent) == Root(leaves, parent, empty)
    ensures |Path(leaves, idx, parent)| == Height(|leaves|)
    ensures idx < Pow2(|Path(leaves, idx, parent)|)
    decreases |leaves|
  {
    if |leaves| > 1 {
      PairInNextLevel(leaves, idx, parent);
      PathReproducesRoot(NextLevel(leaves, parent), idx / 2, parent, empty);
    }
  }

  // ---------------------------------------------------------------------- soundness

  /** Two different pairs with one parent hash. */
  datatype Collision<H> = Collision(a: (H, H), b: (H, H)) {
    ghost predicate Shows(parent: (H, H) -> H) {
      a != b && parent(a.0, a.1) == parent(b.0, b.1)
    }
  }

  /** Walks a submitted path beside the tree and reports the first level where a
      different pair has the tree's parent hash. */
  function FindCollision<H(==)>(
      leaves: seq<H>, hash: H, idx: nat, siblings: seq<H>, parent: (H, H) -> H): (c: Option<Collision<H>>)
    requires idx < |leaves| && |siblings| == Height(|leaves|)
    ensures c.Some? ==> c.value.Shows(parent)
    decreases |leaves|
  {
    if |leaves| == 1 then None
    else
      var ours := Pair(leaves[idx], idx, Sibling(leaves, idx));
      var theirs := Pair(hash, idx, siblings[0]);
      if ours != theirs && parent(ours.0, ours.1) == parent(theirs.0, theirs.1) then
        Some(Collision(ours, theirs))
      else
        FindCollision(NextLevel(leaves, parent), parent(theirs.0, theirs.1), idx / 2, siblings[1..], parent)
  }

  lemma FirstAndRest<H>(s: seq<H>)
    requires s != []
    ensures s == [s[0]] + s[1..]
  {
  }

  /** One level up: no collision here or above, and the rest of the path gives what it gave. */
  lemma {:induction false} OneLevelUp<H>(leaves: seq<H>, hash: H, idx: nat, siblings: seq<H>, parent: (H, H) -> H)
    requires idx < |leaves| && |leaves| > 1 && |siblings| == Height(|leaves|)
    requires FindCollision(leaves, hash, idx, siblings, parent).None?
    ensures var ours, theirs := Pair(leaves[idx], idx, Sibling(leaves, idx)), Pair(hash, idx, siblings[0]);
      var next, up := NextLevel(leaves, parent), parent(theirs.0, theirs.1);
      && (ours == theirs || parent(ours.0, ours.1) != up)
      && idx / 2 < |next| && |siblings| - 1 == Height(|next|)
      && FindCollision(next, up, idx / 2, siblings[1..], parent).None?
      && Apply(hash, idx, siblings, parent) == Apply(up, idx / 2, siblings[1..], parent)
  {
  }

  /** A path with one sibling per level that reproduces the root starts at the leaf
      it names and is the built path, or it exhibits a collision. */
  lemma {:induction false} PathIsSound<H>(
      leaves: seq<H>, hash: H, idx: nat, siblings: seq<H>, parent: (H, H) -> H, empty: H)
    requires idx < |leaves| && |siblings| == Height(|leaves|)
    requires Apply(hash, idx, siblings, parent) == Root(leaves, parent, empty)
    requires FindCollision(leaves, hash, idx, siblings, parent).None?
    ensures hash == leaves[idx] && siblings == Path(leaves, idx, parent)
    decreases |leaves|
  {
    if |leaves| > 1 {
      var ours := Pair(leaves[idx], idx, Sibling(leaves, idx));
      var theirs := Pair(hash, idx, siblings[0]);
      var up := parent(theirs.0, theirs.1);
      OneLevelUp(leaves, hash, idx, siblings, parent);
      PairInNextLevel(leaves, idx, parent);
      PathIsSound(NextLevel(leaves, parent), up, idx / 2, siblings[1..], parent, empty);
      assert ours == theirs;
      FirstAndRest(siblings);
    }
  }

  /** Logs of one size with one head hold the same leaves, or a differing leaf
      exhibits a collision. */
  lemma {:induction false} EqualHeadsEqualLogs<H>(a: seq<H>, b: seq<H>, i: nat, parent: (H, H) -> H, empty: H)
    requires |a| == |b| && Root(a, parent, empty) == Root(b, parent, empty)
    requires i < |a| && a[i] != b[i]
    ensures |Path(b, i, parent)| == Height(|a|)
    ensures FindCollision(a, b[i], i, Path(b, i, parent), parent).Some?
  {
    PathReproducesRoot(b, i, parent, empty);
    if FindCollision(a, b[i], i, Path(b, i, parent), parent).None? {
      PathIsSound(a, b[i], i, Path(b, i, parent), parent, empty);
    }
  }

  // ---------------------------------------- why size and length have to be known

  /** An odd log and the same log with its last leaf written twice have one head,
      so a head without its size does not determine the log; and the last leaf
      verifies at the index one past the end. */
  lemma {:induction false} OddLogSharesItsHead<H>(leaves: seq<H>, parent: (H, H) -> H, empty: H)
    requires |leaves| % 2 == 1 && |leaves| > 1
    ensures var last := leaves[|leaves| - 1]; var longer := leaves + [last];
            && Root(longer, parent, empty) == Root(leaves, parent, empty)
            && |Path(longer, |leaves|, parent)| == Height(|leaves|)
            && Apply(last, |leaves|, Path(longer, |leaves|, parent), parent) == Root(leaves, parent, empty)
            && |leaves| < Pow2(Height(|leaves|))
  {
    var n := |leaves|;
    var longer := leaves + [leaves[n - 1]];
    assert NextLevel(longer, parent) == NextLevel(leaves, parent);
    PathReproducesRoot(longer, n, parent, empty);
    assert Height(n + 1) == 1 + Height((n + 2) / 2) && (n + 2) / 2 == (n + 1) / 2;
  }

  /** A path one level short starts at an interior node and still reproduces the
      root under an index that resolves, so the length is part of the claim. */
  lemma {:induction false} ShortPathStartsInside<H>(leaves: seq<H>, j: nat, parent: (H, H) -> H, empty: H)
    requires |leaves| > 1 && j < (|leaves| + 1) / 2
    ensures var inner := NextLevel(leaves, parent);
            && |Path(inner, j, parent)| == Height(|leaves|) - 1
            && Apply(inner[j], j, Path(inner, j, parent), parent) == Root(leaves, parent, empty)
            && j < Pow2(Height(|leaves|) - 1)
  {
    PathReproducesRoot(NextLevel(leaves, parent), j, parent, empty);
  }

  /** A leaf that is itself the hash of a pair can be opened one level further. */
  lemma {:induction false} LongPathStartsBelow<H>(
      leaves: seq<H>, i: nat, x: H, y: H, parent: (H, H) -> H, empty: H)
    requires i < |leaves| && leaves[i] == parent(x, y)
    ensures Apply(x, 2 * i, [y] + Path(leaves, i, parent), parent) == Root(leaves, parent, empty)
    ensures 2 * i < Pow2(|[y] + Path(leaves, i, parent)|)
  {
    PathReproducesRoot(leaves, i, parent, empty);
    var path := [y] + Path(leaves, i, parent);
    assert path[1..] == Path(leaves, i, parent);
    assert Pair(x, 2 * i, y) == (x, y) && 2 * i / 2 == i;
    assert Pow2(|path|) == 2 * Pow2(|path| - 1);
  }

  // ----------------------------------------------------------------- the loops

  method MerkleNext<H>(level: seq<H>, parent: (H, H) -> H) returns (next: seq<H>)
    ensures next == NextLevel(level, parent)
  {
    var padded := PadEven(level);
    next := [];
    var i := 0;
    while i < |padded|
      invariant i % 2 == 0 && i <= |padded|
      invariant next == NextLevel(level, parent)[..i / 2]
    {
      next := next + [parent(padded[i], padded[i + 1])];
      i := i + 2;
    }
  }

  method MerkleRoot<H>(leaves: seq<H>, parent: (H, H) -> H, empty: H) returns (root: H)
    ensures root == Root(leaves, parent, empty)
  {
    if leaves == [] { return empty; }
    var level := leaves;
    while |level| > 1
      invariant level != []
      invariant Root(level, parent, empty) == Root(leaves, parent, empty)
      decreases |level|
    {
      level := MerkleNext(level, parent);
    }
    return level[0];
  }

  lemma {:induction false} PathUnfold<H>(level: seq<H>, idx: nat, next: seq<H>, parent: (H, H) -> H)
    requires idx < |level| && |level| > 1 && next == NextLevel(level, parent)
    ensures Path(level, idx, parent) == [Sibling(level, idx)] + Path(next, idx / 2, parent)
  {
  }

  method PickSibling<H>(level: seq<H>, idx: nat) returns (sib: H)
    requires idx < |level|
    ensures sib == Sibling(level, idx)
  {
    var padded := PadEven(level);
    sib := if idx % 2 == 0 then padded[idx + 1] else padded[idx - 1];
  }

  lemma {:induction false} OneMoved<H>(s: seq<H>, x: H, rest: seq<H>)
    ensures s + ([x] + rest) == s + [x] + rest
  {
  }

  method BuildInclusionProof<H>(leaves: seq<H>, leafIndex: nat, parent: (H, H) -> H) returns (siblings: seq<H>)
    requires leafIndex < |leaves|
    ensures siblings == Path(leaves, leafIndex, parent)
  {
    ghost var whole := Path(leaves, leafIndex, parent);
    ghost var rest := whole;
    siblings := [];
    var level := leaves;
    var idx: nat := leafIndex;
    while |level| > 1
      invariant idx < |level|
      invariant rest == Path(level, idx, parent)
      invariant whole == siblings + rest
      decreases |level|
    {
      var sib := PickSibling(level, idx);
      var next := MerkleNext(level, parent);
      PathUnfold(level, idx, next, parent);
      OneMoved(siblings, sib, Path(next, idx / 2, parent));
      siblings := siblings + [sib];
      rest := Path(next, idx / 2, parent);
      level, idx := next, idx / 2;
    }
    assert rest == [];
  }

  /** A proof as presented: any index and any siblings. */
  datatype InclusionProof<H> = InclusionProof(leafIndex: int, siblings: seq<H>)

  const MAX_SAFE: nat := 0x1F_FFFF_FFFF_FFFF

  /** The shape the walk is defined over: a non-negative safe index that resolves to
      the root when the path ends. */
  predicate ValidInclusionProof<H>(proof: InclusionProof<H>) {
    0 <= proof.leafIndex <= MAX_SAFE && proof.leafIndex < Pow2(|proof.siblings|)
  }

  method ApplyInclusionProof<H>(leaf: H, proof: InclusionProof<H>, parent: (H, H) -> H) returns (root: Option<H>)
    ensures root.Some? <==> ValidInclusionProof(proof)
    ensures root.Some? ==> root.value == Apply(leaf, proof.leafIndex, proof.siblings, parent)
  {
    if !ValidInclusionProof(proof) { return None; }
    var hash := leaf;
    var idx: nat := proof.leafIndex;
    for i := 0 to |proof.siblings|
      invariant Apply(hash, idx, proof.siblings[i..], parent)
             == Apply(leaf, proof.leafIndex, proof.siblings, parent)
    {
      var sibling := proof.siblings[i];
      assert proof.siblings[i..][1..] == proof.siblings[i + 1..];
      hash := if idx % 2 == 0 then parent(hash, sibling) else parent(sibling, hash);
      idx := idx / 2;
    }
    return Some(hash);
  }
}

/** The append-only log and its signed inclusion receipts. Statements are octets,
    hashes and keys are abstract, and a signature is the fact that a key signed a
    payload. */
module TransparencyLog {
  import opened Options
  import opened Merkle

  type Statement = seq<bv8>

  datatype Envelope<H, K> = Envelope(signer: K, statementHash: H, index: int, treeHead: H)

  datatype InclusionReceipt<H, K> = InclusionReceipt(
    statementHash: H, index: int, treeHead: H, issuerKey: K,
    envelope: Envelope<H, K>, proof: Option<InclusionProof<H>>)

  predicate VerifyInclusionEnvelope<H(==), K(==)>(r: InclusionReceipt<H, K>, expected: K) {
    && r.issuerKey == expected
    && r.envelope == Envelope(r.issuerKey, r.statementHash, r.index, r.treeHead)
  }

  /** The tier-2 check: the receipt covers these statement octets under the pinned key. */
  predicate VerifyInclusion<H(==), K(==)>(
      r: InclusionReceipt<H, K>, candidate: Statement, expected: K,
      leafHash: Statement -> H, parent: (H, H) -> H)
  {
    && VerifyInclusionEnvelope(r, expected)
    && candidate != []
    && r.statementHash == leafHash(candidate)
    && r.proof.Some? && ValidInclusionProof(r.proof.value)
    && r.proof.value.leafIndex == r.index
    && Apply(leafHash(candidate), r.index, r.proof.value.siblings, parent) == r.treeHead
  }

  class MemoryTransparencyService<H(==, !new), K(==, !new)> {
    const key: K
    const empty: H
    const leafHash: Statement -> H
    const parent: (H, H) -> H
    var leaves: seq<H>
    var treeHead: H
    /** Every receipt handed out, with the statement it was for. */
    ghost var issued: seq<(InclusionReceipt<H, K>, Statement)>

    ghost predicate Valid()
      reads this
    {
      && treeHead == Root(leaves, parent, empty)
      && |issued| == |leaves| <= MAX_SAFE
      && forall i :: 0 <= i < |issued| ==>
           && issued[i].0.index == i
           && issued[i].0.treeHead == Root(leaves[..i + 1], parent, empty)
           && Verifies(issued[i].0, issued[i].1)
    }

    constructor (key: K, empty: H, leafHash: Statement -> H, parent: (H, H) -> H)
      ensures Valid() && leaves == []
      ensures this.key == key && this.empty == empty && this.leafHash == leafHash && this.parent == parent
    {
      this.key, this.empty, this.leafHash, this.parent := key, empty, leafHash, parent;
      leaves, treeHead, issued := [], empty, [];
    }

    /** The log answering about its own receipt. */
    predicate Verifies(r: InclusionReceipt<H, K>, candidate: Statement)
      reads this
    {
      && 0 <= r.index < |leaves| && leaves[r.index] == r.statementHash
      && VerifyInclusion(r, candidate, key, leafHash, parent)
    }

    /** Appends the statement's hash and signs the new head. A statement that is not
        hex octets is refused. Every receipt of this log, old or new, verifies after. */
    method Register(statement: Option<Statement>) returns (r: Option<InclusionReceipt<H, K>>)
      requires Valid() && |leaves| < MAX_SAFE
      modifies this
      ensures Valid()
      ensures r.Some? <==> statement.Some? && statement.value != []
      ensures r.None? ==> leaves == old(leaves) && issued == old(issued) && treeHead == old(treeHead)
      ensures r.Some? ==>
        && leaves == old(leaves) + [leafHash(statement.value)]
        && issued == old(issued) + [(r.value, statement.value)]
        && r.value.index == |old(leaves)| && r.value.treeHead == treeHead
    {
      if statement.None? || statement.value == [] { return None; }
      var hash := leafHash(statement.value);
      var index := |leaves|;
      leaves := leaves + [hash];
      treeHead := MerkleRoot(leaves, parent, empty);
      var siblings := BuildInclusionProof(leaves, index, parent);
      PathReproducesRoot(leaves, index, parent, empty);
      var receipt := InclusionReceipt(
        hash, index, treeHead, key, Envelope(key, hash, index, treeHead),
        Some(InclusionProof(index, siblings)));
      issued := issued + [(receipt, statement.value)];
      forall i | 0 <= i < |issued|
        ensures issued[i].0.index == i
        ensures issued[i].0.treeHead == Root(leaves[..i + 1], parent, empty)
        ensures Verifies(issued[i].0, issued[i].1)
      {
        if i == index {
          assert leaves[..i + 1] == leaves;
        } else {
          assert issued[i] == old(issued)[i];
          assert leaves[..i + 1] == old(leaves)[..i + 1];
        }
      }
      return Some(receipt);
    }
  }

  /** A receipt verifies exactly when the expected key is named and signed this candidate's hash, index and
      head, and a proof with that index leads from the hash to the head. */
  lemma {:induction false} VerifiedIsSigned<H, K>(
      r: InclusionReceipt<H, K>, candidate: Statement, expected: K, leafHash: Statement -> H, parent: (H, H) -> H)
    ensures VerifyInclusion(r, candidate, expected, leafHash, parent) <==>
      && candidate != [] && r.issuerKey == expected && r.statementHash == leafHash(candidate)
      && r.envelope.signer == expected && r.envelope.statementHash == leafHash(candidate)
      && r.envelope.index == r.index && r.envelope.treeHead == r.treeHead
      && r.proof.Some? && r.proof.value.leafIndex == r.index
      && 0 <= r.index <= 9007199254740991 && r.index < Pow2(|r.proof.value.siblings|)
      && Apply(leafHash(candidate), r.index, r.proof.value.siblings, parent) == r.treeHead
  {
  }

  /** What a verified receipt of full height proves about the log it names: the
      candidate's hash is the leaf at that index, or a collision is exhibited. */
  lemma {:induction false} VerifiedReceiptIsMembership<H, K>(
      r: InclusionReceipt<H, K>, candidate: Statement, expected: K,
      leafHash: Statement -> H, parent: (H, H) -> H, leaves: seq<H>, empty: H)
    requires VerifyInclusion(r, candidate, expected, leafHash, parent)
    requires r.treeHead == Root(leaves, parent, empty)
    requires 0 <= r.index < |leaves| && |r.proof.value.siblings| == Height(|leaves|)
    ensures leaves[r.index] == leafHash(candidate)
         || FindCollision(leaves, leafHash(candidate), r.index, r.proof.value.siblings, parent).Some?
  {
    if FindCollision(leaves, leafHash(candidate), r.index, r.proof.value.siblings, parent).None? {
      PathIsSound(leaves, leafHash(candidate), r.index, r.proof.value.siblings, parent, empty);
    }
  }
}
