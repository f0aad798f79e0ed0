/** Octet strings: big-endian integers, bytewise lexicographic order, and the
    stable sort by a byte-string key that the map encoder relies on. */
module Octets {
  type octet = n: int | 0 <= n < 256
  type Octets = seq<octet>

  // ---------------------------------------------------------------- big-endian

  function Pow256(k: nat): (p: nat)
    ensures p > 0
  {
    if k == 0 then 1 else 256 * Pow256(k - 1)
  }

  function BigEndian(n: nat, width: nat): (b: Octets)
    ensures |b| == width
  {
    if width == 0 then [] else BigEndian(n / 256, width - 1) + [n % 256]
  }

  function FromBigEndian(b: Octets): nat {
    if b == [] then 0 else FromBigEndian(b[..|b| - 1]) * 256 + b[|b| - 1]
  }

  lemma {:induction false} FromBigEndianAppend(b: Octets, last: octet)
    ensures FromBigEndian(b + [last]) == FromBigEndian(b) * 256 + last
  {
    assert (b + [last])[..|b|] == b;
  }

  lemma {:induction false} BigEndianRoundTrip(n: nat, width: nat)
    requires n < Pow256(width)
    ensures FromBigEndian(BigEndian(n, width)) == n
  {
    if width > 0 {
      var init := BigEndian(n / 256, width - 1);
      assert Pow256(width) == 256 * Pow256(width - 1);
      BigEndianRoundTrip(n / 256, width - 1);
      FromBigEndianAppend(init, n % 256);
    }
  }

  lemma {:induction false} FromBigEndianRoundTrip(b: Octets)
    ensures FromBigEndian(b) < Pow256(|b|)
    ensures BigEndian(FromBigEndian(b), |b|) == b
  {
    if b != [] {
      var init, last := b[..|b| - 1], b[|b| - 1];
      FromBigEndianRoundTrip(init);
      assert FromBigEndian(b) == FromBigEndian(init) * 256 + last;
      assert FromBigEndian(b) / 256 == FromBigEndian(init);
      assert FromBigEndian(b) % 256 == last;
      assert b == init + [last];
    }
  }

  // ------------------------------------------------------- lexicographic order

  ghost predicate LexLess(a: Octets, b: Octets) {
    if b == [] then false
    else if a == [] then true
    else a[0] < b[0] || (a[0] == b[0] && LexLess(a[1..], b[1..]))
  }

  predicate LexLeq(a: Octets, b: Octets) {
    if a == [] then true
    else if b == [] then false
    else a[0] < b[0] || (a[0] == b[0] && LexLeq(a[1..], b[1..]))
  }

  lemma {:induction false} LexLeqIsNotGreater(a: Octets, b: Octets)
    ensures LexLeq(a, b) <==> !LexLess(b, a)
    ensures LexLeq(a, b) <==> LexLess(a, b) || a == b
  {
    if a != [] && b != [] {
      LexLeqIsNotGreater(a[1..], b[1..]);
      assert a == [a[0]] + a[1..] && b == [b[0]] + b[1..];
    }
  }

  lemma {:induction false} LexLessTransitive(a: Octets, b: Octets, c: Octets)
    requires LexLess(a, b) && LexLess(b, c)
    ensures LexLess(a, c)
  {
    if a != [] && a[0] == b[0] && b[0] == c[0] {
      LexLessTransitive(a[1..], b[1..], c[1..]);
    }
  }

  lemma {:induction false} LexLessIrreflexive(a: Octets)
    ensures !LexLess(a, a)
  {
    if a != [] { LexLessIrreflexive(a[1..]); }
  }

  lemma {:induction false} LexLeqTransitive(a: Octets, b: Octets, c: Octets)
    requires LexLeq(a, b) && LexLeq(b, c)
    ensures LexLeq(a, c)
  {
    LexLeqIsNotGreater(a, b);
    LexLeqIsNotGreater(b, c);
    LexLeqIsNotGreater(a, c);
    if a != b && b != c { LexLessTransitive(a, b, c); }
  }

  /** The comparison loop of the map encoder: first differing octet decides,
      then the shorter string. Its sign is the lexicographic order. */
  method CompareEncodedKeys(a: Octets, b: Octets) returns (c: int)
    ensures c < 0 <==> LexLess(a, b)
    ensures c == 0 <==> a == b
    ensures c > 0 <==> LexLess(b, a)
  {
    var n := if |a| < |b| then |a| else |b|;
    for i := 0 to n
      invariant a[..i] == b[..i]
    {
      if a[i] != b[i] {
        LexLessAfterPrefix(a, b, i);
        LexLessAfterPrefix(b, a, i);
        return a[i] as int - b[i] as int;
      }
    }
    LexLessAfterPrefix(a, b, n);
    LexLessAfterPrefix(b, a, n);
    assert |a| == |b| ==> a[..n] == a && b[..n] == b;
    return |a| - |b|;
  }

  lemma {:induction false} LexLessAfterPrefix(a: Octets, b: Octets, i: nat)
    requires i <= |a| && i <= |b| && a[..i] == b[..i]
    ensures LexLess(a, b) <==> LexLess(a[i..], b[i..])
  {
    if i > 0 {
      assert a[0] == a[..i][0] == b[..i][0] == b[0];
      assert a[1..][..i - 1] == a[..i][1..] == b[..i][1..] == b[1..][..i - 1];
      LexLessAfterPrefix(a[1..], b[1..], i - 1);
      assert a[1..][i - 1..] == a[i..] && b[1..][i - 1..] == b[i..];
    }
  }

  // ------------------------------------------------------------- sort by a key

  function InsertBy<T>(x: T, s: seq<T>, key: T -> Octets): (r: seq<T>)
    ensures multiset(r) == multiset([x]) + multiset(s)
    ensures |r| == |s| + 1
  {
    if s == [] then [x]
    else if LexLeq(key(x), key(s[0])) then [x] + s
    else
      assert s == [s[0]] + s[1..];
      [s[0]] + InsertBy(x, s[1..], key)
  }

  /** Stable sort by key: what Array.prototype.sort does with a total preorder. */
  function SortBy<T>(s: seq<T>, key: T -> Octets): (r: seq<T>)
    ensures multiset(r) == multiset(s)
    ensures |r| == |s|
  {
    if s == [] then []
    else
      assert s == [s[0]] + s[1..];
      InsertBy(s[0], SortBy(s[1..], key), key)
  }

  ghost predicate Ascending<T>(s: seq<T>, key: T -> Octets) {
    forall i, j :: 0 <= i < j < |s| ==> LexLeq(key(s[i]), key(s[j]))
  }

  ghost predicate StrictlyAscending<T>(s: seq<T>, key: T -> Octets) {
    forall i, j :: 0 <= i < j < |s| ==> LexLess(key(s[i]), key(s[j]))
  }

  ghost predicate DistinctKeys<T>(s: seq<T>, key: T -> Octets) {
    forall i, j :: 0 <= i < j < |s| ==> key(s[i]) != key(s[j])
  }

  predicate AdjacentDuplicate<T>(s: seq<T>, key: T -> Octets) {
    exists i :: 1 <= i < |s| && key(s[i]) == key(s[i - 1])
  }

  lemma {:induction false} InsertAscending<T>(x: T, s: seq<T>, key: T -> Octets)
    requires Ascending(s, key)
    ensures Ascending(InsertBy(x, s, key), key)
  {
    if s == [] {
    } else if LexLeq(key(x), key(s[0])) {
      forall j | 0 <= j < |s| ensures LexLeq(key(x), key(s[j])) {
        if j > 0 { LexLeqTransitive(key(x), key(s[0]), key(s[j])); }
      }
    } else {
      var t := InsertBy(x, s[1..], key);
      InsertAscending(x, s[1..], key);
      LexLeqIsNotGreater(key(x), key(s[0]));
      LexLeqIsNotGreater(key(s[0]), key(x));
      forall j | 0 <= j < |t| ensures LexLeq(key(s[0]), key(t[j])) {
        assert t[j] in multiset(t);
        assert t[j] == x || t[j] in multiset(s[1..]);
      }
    }
  }

  lemma {:induction false} SortAscending<T>(s: seq<T>, key: T -> Octets)
    ensures Ascending(SortBy(s, key), key)
  {
    if s != [] {
      SortAscending(s[1..], key);
      InsertAscending(s[0], SortBy(s[1..], key), key);
    }
  }

  /** After sorting, looking at neighbours only is enough to find every repeated
      key: none is adjacent exactly when the keys strictly ascend. */
  lemma {:induction false} AdjacentCheckIsComplete<T>(s: seq<T>, key: T -> Octets)
    requires Ascending(s, key)
    ensures !AdjacentDuplicate(s, key) <==> StrictlyAscending(s, key)
    ensures !AdjacentDuplicate(s, key) <==> DistinctKeys(s, key)
  {
    if StrictlyAscending(s, key) {
      forall i, j | 0 <= i < j < |s| ensures key(s[i]) != key(s[j]) {
        LexLessIrreflexive(key(s[i]));
      }
    }
    if DistinctKeys(s, key) {
      assert !AdjacentDuplicate(s, key);
    }
    if !AdjacentDuplicate(s, key) {
      forall i, j | 0 <= i < j < |s| ensures LexLess(key(s[i]), key(s[j])) {
        LexLeqIsNotGreater(key(s[j - 1]), key(s[j]));
        if i < j - 1 {
          LexLeqIsNotGreater(key(s[i]), key(s[j - 1]));
          if key(s[i]) != key(s[j - 1]) {
            LexLessTransitive(key(s[i]), key(s[j - 1]), key(s[j]));
          }
        }
      }
    }
  }

  ghost predicate Fresh<T>(x: T, s: seq<T>, key: T -> Octets) {
    forall t :: t in s ==> key(t) != key(x)
  }

  lemma {:induction false} FreshSplit<T>(x: T, y: T, s: seq<T>, t: seq<T>, key: T -> Octets)
    requires multiset(t) == multiset([y]) + multiset(s)
    ensures Fresh(x, t, key) <==> key(y) != key(x) && Fresh(x, s, key)
  {
    assert forall e :: e in t <==> e in multiset(t);
    assert forall e :: e in s <==> e in multiset(s);
    assert forall e :: e in t <==> e == y || e in s;
    assert y in t;
  }

  lemma {:induction false} DistinctCons<T>(x: T, s: seq<T>, key: T -> Octets)
    ensures DistinctKeys([x] + s, key) <==> Fresh(x, s, key) && DistinctKeys(s, key)
  {
    var r := [x] + s;
    if DistinctKeys(r, key) {
      forall i, j | 0 <= i < j < |s| ensures key(s[i]) != key(s[j]) {
        assert r[i + 1] == s[i] && r[j + 1] == s[j];
      }
      forall t | t in s ensures key(t) != key(x) {
        var i :| 0 <= i < |s| && s[i] == t;
        assert r[0] == x && r[i + 1] == t;
      }
    }
  }

  lemma {:induction false} InsertDistinct<T>(x: T, s: seq<T>, key: T -> Octets)
    ensures DistinctKeys(InsertBy(x, s, key), key) <==> DistinctKeys([x] + s, key)
  {
    if s != [] && !LexLeq(key(x), key(s[0])) {
      var y, tail := s[0], s[1..];
      assert s == [y] + tail;
      InsertDistinct(x, tail, key);
      DistinctBehind(x, y, tail, InsertBy(x, tail, key), key);
    }
  }

  lemma {:induction false} DistinctBehind<T>(x: T, y: T, tail: seq<T>, r: seq<T>, key: T -> Octets)
    requires multiset(r) == multiset([x]) + multiset(tail)
    requires DistinctKeys(r, key) <==> DistinctKeys([x] + tail, key)
    ensures DistinctKeys([y] + r, key) <==> DistinctKeys([x] + ([y] + tail), key)
  {
    DistinctCons(x, tail, key);
    DistinctCons(y, r, key);
    DistinctCons(y, tail, key);
    DistinctCons(x, [y] + tail, key);
    FreshSplit(y, x, tail, r, key);
    FreshSplit(x, y, tail, [y] + tail, key);
  }

  lemma {:induction false} FreshPermuted<T>(x: T, s: seq<T>, t: seq<T>, key: T -> Octets)
    requires multiset(s) == multiset(t)
    ensures Fresh(x, s, key) <==> Fresh(x, t, key)
  {
    forall e ensures e in s <==> e in t {
      assert e in s <==> e in multiset(s);
      assert e in t <==> e in multiset(t);
    }
  }

  /** Whether keys repeat does not depend on the order of the list. */
  lemma {:induction false} SortDistinct<T>(s: seq<T>, key: T -> Octets)
    ensures DistinctKeys(SortBy(s, key), key) <==> DistinctKeys(s, key)
  {
    if s != [] {
      var x, tail := s[0], s[1..];
      var r := SortBy(tail, key);
      SortDistinct(tail, key);
      InsertDistinct(x, r, key);
      DistinctCons(x, r, key);
      DistinctCons(x, tail, key);
      FreshPermuted(x, r, tail, key);
      assert s == [x] + tail;
    }
  }

  /** Sorting a strictly ascending list changes nothing. */
  lemma {:induction false} SortOfAscending<T>(s: seq<T>, key: T -> Octets)
    requires StrictlyAscending(s, key)
    ensures SortBy(s, key) == s
  {
    if s != [] {
      SortOfAscending(s[1..], key);
      if |s| > 1 {
        assert LexLess(key(s[0]), key(s[1]));
        LexLeqIsNotGreater(key(s[0]), key(s[1]));
        assert s[1..][0] == s[1];
      }
      assert s == [s[0]] + s[1..];
    }
  }

  function MapSeq<T, U>(s: seq<T>, f: T -> U): (r: seq<U>)
    ensures |r| == |s|
    ensures forall i :: 0 <= i < |s| ==> r[i] == f(s[i])
  {
    seq(|s|, i requires 0 <= i < |s| => f(s[i]))
  }

  lemma {:induction false} MapCons<T, U>(x: T, s: seq<T>, f: T -> U)
    ensures MapSeq([x] + s, f) == [f(x)] + MapSeq(s, f)
  {
  }

  lemma {:induction false} InsertMapped<T, U>(x: T, s: seq<T>, f: T -> U, key: U -> Octets, keyT: T -> Octets)
    requires forall t :: key(f(t)) == keyT(t)
    ensures MapSeq(InsertBy(x, s, keyT), f) == InsertBy(f(x), MapSeq(s, f), key)
  {
    MapCons(x, s, f);
    if s != [] {
      var y, tail := s[0], s[1..];
      var ftail := MapSeq(tail, f);
      assert s == [y] + tail;
      MapCons(y, tail, f);
      assert MapSeq(s, f) == [f(y)] + ftail && MapSeq(s, f)[1..] == ftail;
      assert key(f(x)) == keyT(x) && key(f(y)) == keyT(y);
      if !LexLeq(keyT(x), keyT(y)) {
        InsertMapped(x, tail, f, key, keyT);
        MapCons(y, InsertBy(x, tail, keyT), f);
      }
    }
  }

  /** Sorting commutes with replacing each element by an image with the same key. */
  lemma {:induction false} SortMapped<T, U>(s: seq<T>, f: T -> U, key: U -> Octets, keyT: T -> Octets)
    requires forall t :: key(f(t)) == keyT(t)
    ensures MapSeq(SortBy(s, keyT), f) == SortBy(MapSeq(s, f), key)
  {
    if s != [] {
      SortMapped(s[1..], f, key, keyT);
      assert MapSeq(s, f)[1..] == MapSeq(s[1..], f);
      InsertMapped(s[0], SortBy(s[1..], keyT), f, key, keyT);
    }
  }
}
