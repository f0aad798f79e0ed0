/** Bags gathered from sequences: what is collected from every element, whatever the
    order of the elements. */
module Bags {

  lemma {:induction false} PrefixStep<T>(s: seq<T>, i: nat)
    requires i < |s|
    ensures s[..i + 1] == s[..i] + [s[i]]
    ensures s[..|s|] == s
  {
  }

  /** The sum, over the elements, of what f gives for each. */
  ghost function Gather<T, U(!new)>(s: seq<T>, f: T -> multiset<U>): multiset<U> {
    if s == [] then multiset{} else Gather(s[..|s| - 1], f) + f(s[|s| - 1])
  }

  ghost function Total<T>(s: seq<T>, f: T -> int): int {
    if s == [] then 0 else Total(s[..|s| - 1], f) + f(s[|s| - 1])
  }

  lemma {:induction false} GatherAppend<T, U(!new)>(s: seq<T>, x: T, f: T -> multiset<U>)
    ensures Gather(s + [x], f) == Gather(s, f) + f(x)
  {
    assert (s + [x])[..|s|] == s;
  }

  lemma {:induction false} GatherPrefix<T, U(!new)>(s: seq<T>, i: nat, f: T -> multiset<U>)
    requires i < |s|
    ensures Gather(s[..i + 1], f) == Gather(s[..i], f) + f(s[i])
  {
    assert s[..i + 1] == s[..i] + [s[i]];
    GatherAppend(s[..i], s[i], f);
  }

  lemma {:induction false} TotalAppend<T>(s: seq<T>, x: T, f: T -> int)
    ensures Total(s + [x], f) == Total(s, f) + f(x)
  {
    assert (s + [x])[..|s|] == s;
  }

  /** One element taken out of the middle. */
  lemma {:induction false} GatherRemove<T, U(!new)>(s: seq<T>, i: nat, f: T -> multiset<U>)
    requires i < |s|
    ensures Gather(s, f) == Gather(s[..i] + s[i + 1..], f) + f(s[i])
    decreases |s|
  {
    var n := |s| - 1;
    if i == n {
      assert s[..i] + s[i + 1..] == s[..n];
    } else {
      GatherRemove(s[..n], i, f);
      var r := s[..n][..i] + s[..n][i + 1..];
      assert s[..i] + s[i + 1..] == r + [s[n]];
      GatherAppend(r, s[n], f);
    }
  }

  lemma {:induction false} TotalRemove<T>(s: seq<T>, i: nat, f: T -> int)
    requires i < |s|
    ensures Total(s, f) == Total(s[..i] + s[i + 1..], f) + f(s[i])
    decreases |s|
  {
    var n := |s| - 1;
    if i == n {
      assert s[..i] + s[i + 1..] == s[..n];
    } else {
      TotalRemove(s[..n], i, f);
      var r := s[..n][..i] + s[..n][i + 1..];
      assert s[..i] + s[i + 1..] == r + [s[n]];
      TotalAppend(r, s[n], f);
    }
  }

  lemma {:induction false} TakeOut<T>(s: seq<T>, x: T) returns (i: nat)
    requires x in multiset(s)
    ensures i < |s| && s[i] == x
    ensures multiset(s[..i] + s[i + 1..]) == multiset(s) - multiset{x}
  {
    i :| 0 <= i < |s| && s[i] == x;
    assert s == s[..i] + [x] + s[i + 1..];
    assert multiset(s) == multiset(s[..i] + s[i + 1..]) + multiset{x};
  }

  lemma {:induction false} FindIn<T>(s: seq<T>, t: seq<T>) returns (i: nat)
    requires s != [] && multiset(s) == multiset(t)
    ensures i < |t| && t[i] == s[|s| - 1]
    ensures multiset(s[..|s| - 1]) == multiset(t[..i] + t[i + 1..])
  {
    var x := s[|s| - 1];
    assert s == s[..|s| - 1] + [x];
    assert multiset(s) == multiset(s[..|s| - 1]) + multiset{x};
    i := TakeOut(t, x);
  }

  /** Presentation order does not matter to what is gathered. */
  lemma {:induction false} GatherPermuted<T, U(!new)>(s: seq<T>, t: seq<T>, f: T -> multiset<U>)
    requires multiset(s) == multiset(t)
    ensures Gather(s, f) == Gather(t, f)
    decreases |s|
  {
    if s == [] {
      assert |t| == |multiset(t)| == 0;
    } else {
      var i := FindIn(s, t);
      GatherPermuted(s[..|s| - 1], t[..i] + t[i + 1..], f);
      GatherRemove(t, i, f);
    }
  }

  lemma {:induction false} TotalPermuted<T>(s: seq<T>, t: seq<T>, f: T -> int)
    requires multiset(s) == multiset(t)
    ensures Total(s, f) == Total(t, f)
    decreases |s|
  {
    if s == [] {
      assert |t| == |multiset(t)| == 0;
    } else {
      var i := FindIn(s, t);
      TotalPermuted(s[..|s| - 1], t[..i] + t[i + 1..], f);
      TotalRemove(t, i, f);
    }
  }

  /** What each element gives in two parts is gathered in two parts. */
  lemma {:induction false} GatherSplit<T, U(!new)>(
      s: seq<T>, f: T -> multiset<U>, g: T -> multiset<U>, h: T -> multiset<U>)
    requires forall i :: 0 <= i < |s| ==> f(s[i]) == g(s[i]) + h(s[i])
    ensures Gather(s, f) == Gather(s, g) + Gather(s, h)
  {
    if s != [] {
      var init := s[..|s| - 1];
      assert forall i :: 0 <= i < |init| ==> init[i] == s[i];
      GatherSplit(init, f, g, h);
      assert f(s[|s| - 1]) == g(s[|s| - 1]) + h(s[|s| - 1]);
    }
  }

  lemma {:induction false} GatherSame<T, U(!new)>(s: seq<T>, f: T -> multiset<U>, g: T -> multiset<U>)
    requires forall i :: 0 <= i < |s| ==> f(s[i]) == g(s[i])
    ensures Gather(s, f) == Gather(s, g)
  {
    if s != [] {
      var init := s[..|s| - 1];
      assert forall i :: 0 <= i < |init| ==> init[i] == s[i];
      GatherSame(init, f, g);
    }
  }

  lemma {:induction false} GatherMember<T, U(!new)>(s: seq<T>, f: T -> multiset<U>, u: U)
    ensures u in Gather(s, f) <==> exists i :: 0 <= i < |s| && u in f(s[i])
  {
    if s != [] {
      var init := s[..|s| - 1];
      assert forall i :: 0 <= i < |init| ==> init[i] == s[i];
      GatherMember(init, f, u);
    }
  }

  lemma {:induction false} GatherFind<T, U(!new)>(s: seq<T>, f: T -> multiset<U>, u: U) returns (i: nat)
    requires u in Gather(s, f)
    ensures i < |s| && u in f(s[i]) && s[i] in s
  {
    GatherMember(s, f, u);
    i :| 0 <= i < |s| && u in f(s[i]);
  }

  lemma {:induction false} GatherHas<T, U(!new)>(s: seq<T>, i: nat, f: T -> multiset<U>, u: U)
    requires i < |s| && u in f(s[i])
    ensures u in Gather(s, f)
  {
    GatherRemove(s, i, f);
  }

  /** What no element gives is not gathered; what one element alone gives, is gathered
      as often as it gives it. */
  lemma {:induction false} GatherOnlyAt<T, U(!new)>(s: seq<T>, i: nat, f: T -> multiset<U>, u: U)
    requires i < |s|
    requires forall j :: 0 <= j < |s| && j != i ==> f(s[j])[u] == 0
    ensures Gather(s, f)[u] == f(s[i])[u]
  {
    GatherRemove(s, i, f);
    var r := s[..i] + s[i + 1..];
    assert forall k :: 0 <= k < |r| ==> r[k] == s[if k < i then k else k + 1];
    GatherMember(r, f, u);
    assert u !in Gather(r, f);
  }

  /** Two elements that give the same thing are gathered at least twice. */
  lemma {:induction false} GatherTwice<T, U(!new)>(s: seq<T>, i: nat, j: nat, f: T -> multiset<U>, u: U)
    requires i < j < |s| && u in f(s[i]) && u in f(s[j])
    ensures Gather(s, f)[u] >= 2
  {
    GatherRemove(s, i, f);
    var r := s[..i] + s[i + 1..];
    assert r[j - 1] == s[j];
    GatherMember(r, f, u);
  }

  /** What f gives is at most what g gives. */
  lemma {:induction false} GatherAtMost<T, U(!new), V(!new)>(
      s: seq<T>, f: T -> multiset<U>, u: U, g: T -> multiset<V>, v: V)
    requires forall i :: 0 <= i < |s| ==> f(s[i])[u] <= g(s[i])[v]
    ensures Gather(s, f)[u] <= Gather(s, g)[v]
  {
    if s != [] {
      var init := s[..|s| - 1];
      assert forall i :: 0 <= i < |init| ==> init[i] == s[i];
      GatherAtMost(init, f, u, g, v);
    }
  }

  /** f gives u exactly as often as g gives v. */
  lemma {:induction false} GatherAlike<T, U(!new), V(!new)>(
      s: seq<T>, f: T -> multiset<U>, u: U, g: T -> multiset<V>, v: V)
    requires forall i :: 0 <= i < |s| ==> f(s[i])[u] == g(s[i])[v]
    ensures Gather(s, f)[u] == Gather(s, g)[v]
  {
    GatherAtMost(s, f, u, g, v);
    GatherAtMost(s, g, v, f, u);
  }

  /** What each member of a set gives. */
  ghost function GatherSet<T(!new), U(!new)>(s: set<T>, f: T -> multiset<U>): multiset<U> {
    if s == {} then multiset{} else
    var x :| x in s;
    GatherSet(s - {x}, f) + f(x)
  }

  lemma {:induction false} GatherSetStep<T(!new), U(!new)>(s: set<T>, x: T, f: T -> multiset<U>)
    requires x in s
    ensures GatherSet(s, f) == GatherSet(s - {x}, f) + f(x)
    decreases |s|
  {
    var y :| y in s && GatherSet(s, f) == GatherSet(s - {y}, f) + f(y);
    if y != x {
      GatherSetStep(s - {y}, x, f);
      GatherSetStep(s - {x}, y, f);
      assert s - {y} - {x} == s - {x} - {y};
    }
  }

  lemma {:induction false} GatherSetGrow<T(!new), U(!new)>(s: set<T>, x: T, f: T -> multiset<U>)
    requires x !in s
    ensures GatherSet(s + {x}, f) == GatherSet(s, f) + f(x)
  {
    GatherSetStep(s + {x}, x, f);
    assert s + {x} - {x} == s;
  }

  /** One member moved from what is left to what is done. */
  lemma {:induction false} GatherSetMove<T(!new), U(!new)>(s: set<T>, todo: set<T>, x: T, f: T -> multiset<U>)
    requires x in todo && todo <= s
    ensures GatherSet(s - (todo - {x}), f) == GatherSet(s - todo, f) + f(x)
  {
    GatherSetGrow(s - todo, x, f);
    assert s - (todo - {x}) == s - todo + {x};
  }

  lemma {:induction false} GatherSetSame<T(!new), U(!new)>(s: set<T>, f: T -> multiset<U>, g: T -> multiset<U>)
    requires forall x :: x in s ==> f(x) == g(x)
    ensures GatherSet(s, f) == GatherSet(s, g)
    decreases |s|
  {
    if s != {} {
      var x :| x in s;
      GatherSetSame(s - {x}, f, g);
      GatherSetStep(s, x, f);
      GatherSetStep(s, x, g);
    }
  }

  lemma {:induction false} GatherSetMember<T(!new), U(!new)>(s: set<T>, x: T, f: T -> multiset<U>)
    requires x in s
    ensures f(x) <= GatherSet(s, f)
  {
    GatherSetStep(s, x, f);
  }

  lemma {:induction false} Appended<T>(s: seq<T>, more: seq<T>, a: multiset<T>, b: multiset<T>)
    requires multiset(s) == a && multiset(more) == b
    ensures multiset(s + more) == a + b
  {
  }

  /** The elements that pass, in their order. */
  function Keep<T(!new)>(s: seq<T>, p: T -> bool): (k: seq<T>)
    ensures forall x :: x in k <==> x in s && p(x)
  {
    if s == [] then [] else Keep(s[..|s| - 1], p) + if p(s[|s| - 1]) then [s[|s| - 1]] else []
  }

  lemma {:induction false} KeepCount<T(!new)>(s: seq<T>, p: T -> bool, x: T)
    ensures multiset(Keep(s, p))[x] == if p(x) then multiset(s)[x] else 0
  {
    if s != [] {
      KeepCount(s[..|s| - 1], p, x);
      assert s == s[..|s| - 1] + [s[|s| - 1]];
    }
  }

  lemma {:induction false} KeepPermuted<T(!new)>(s: seq<T>, t: seq<T>, p: T -> bool)
    requires multiset(s) == multiset(t)
    ensures multiset(Keep(s, p)) == multiset(Keep(t, p))
  {
    forall x ensures multiset(Keep(s, p))[x] == multiset(Keep(t, p))[x] {
      KeepCount(s, p, x);
      KeepCount(t, p, x);
    }
  }

  lemma {:induction false} KeepSplit<T(!new)>(s: seq<T>, p: T -> bool, q: T -> bool)
    requires forall x :: x in s ==> q(x) == !p(x)
    ensures multiset(Keep(s, p)) + multiset(Keep(s, q)) == multiset(s)
  {
    forall x ensures (multiset(Keep(s, p)) + multiset(Keep(s, q)))[x] == multiset(s)[x] {
      KeepCount(s, p, x);
      KeepCount(s, q, x);
      if x !in s {
        assert multiset(s)[x] == 0;
      }
    }
  }

  /** Fewer elements gather no more. */
  lemma {:induction false} GatherKept<T(!new), U(!new)>(s: seq<T>, p: T -> bool, f: T -> multiset<U>, u: U)
    ensures Gather(Keep(s, p), f)[u] <= Gather(s, f)[u]
  {
    if s != [] {
      var init, last := s[..|s| - 1], s[|s| - 1];
      GatherKept(init, p, f, u);
      GatherAppend(init, last, f);
      if p(last) {
        GatherAppend(Keep(init, p), last, f);
      } else {
        assert Keep(s, p) == Keep(init, p);
      }
    }
  }

  ghost predicate EachAt<T>(s: seq<T>, p: (nat, T) -> bool) { forall i: nat :: i < |s| ==> p(i, s[i]) }

  lemma {:induction false} OneMoreEach<T>(s: seq<T>, x: T, p: (nat, T) -> bool)
    requires EachAt(s, p) && p(|s|, x)
    ensures EachAt(s + [x], p)
  {
    forall i: nat | i < |s + [x]| ensures p(i, (s + [x])[i]) {
      if i < |s| {
        assert (s + [x])[i] == s[i];
      }
    }
  }

  // ------------------------------------------------------------------ along a line

  function NatAt(s: seq<nat>, i: int): nat { if 0 <= i < |s| then s[i] else 0 }

  function SumNat(s: seq<nat>): nat { if s == [] then 0 else SumNat(s[..|s| - 1]) + s[|s| - 1] }

  lemma {:induction false} SumContains(s: seq<nat>, j: int)
    ensures NatAt(s, j) <= SumNat(s)
  {
    if 0 <= j < |s| - 1 {
      SumContains(s[..|s| - 1], j);
    }
  }

  /** A place and the two beside it add up to no more than everything. */
  lemma {:induction false} SumNear(s: seq<nat>, j: nat)
    requires j < |s|
    ensures NatAt(s, j - 1) + NatAt(s, j) + NatAt(s, j + 1) <= SumNat(s)
  {
    if j < |s| - 1 {
      SumNear(s[..|s| - 1], j);
    } else {
      SumContains(s[..|s| - 1], j - 1);
    }
  }

  ghost function BagAt<U(!new)>(s: seq<multiset<U>>, i: int): multiset<U> { if 0 <= i < |s| then s[i] else multiset{} }

  ghost function SumBags<U(!new)>(s: seq<multiset<U>>): multiset<U> {
    if s == [] then multiset{} else SumBags(s[..|s| - 1]) + s[|s| - 1]
  }

  lemma {:induction false} SumBagsSize<U(!new)>(s: seq<multiset<U>>, n: seq<nat>)
    requires |s| == |n| && forall i :: 0 <= i < |s| ==> |s[i]| == n[i]
    ensures |SumBags(s)| == SumNat(n)
  {
    if s != [] {
      SumBagsSize(s[..|s| - 1], n[..|n| - 1]);
    }
  }

  /** What each place passes down and up the line arrives at the places beside it, so along the
      line it cancels out, once nothing leaves at the ends. */
  lemma {:induction false} Telescope<U(!new)>(
      n: nat, r: seq<multiset<U>>, w: seq<multiset<U>>, m: seq<multiset<U>>,
      down: seq<multiset<U>>, up: seq<multiset<U>>)
    requires n <= |r| == |w| == |m| == |down| == |up|
    requires forall i :: 0 <= i < n ==> r[i] == m[i] + down[i] + up[i]
    requires forall i :: 0 <= i < n ==> w[i] == m[i] + BagAt(up, i - 1) + BagAt(down, i + 1)
    requires BagAt(down, 0) == multiset{}
    ensures SumBags(r[..n]) + BagAt(down, n) == SumBags(w[..n]) + BagAt(up, n - 1)
  {
    if n > 0 {
      Telescope(n - 1, r, w, m, down, up);
      assert r[..n][..n - 1] == r[..n - 1] && w[..n][..n - 1] == w[..n - 1];
      Pass(
        SumBags(r[..n - 1]), SumBags(w[..n - 1]), r[n - 1], w[n - 1], m[n - 1],
        down[n - 1], BagAt(down, n), BagAt(up, n - 2), up[n - 1]);
    }
  }

  lemma {:induction false} Pass<U(!new)>(
      p: multiset<U>, q: multiset<U>, r: multiset<U>, w: multiset<U>, m: multiset<U>,
      down: multiset<U>, down': multiset<U>, up: multiset<U>, up': multiset<U>)
    requires p + down == q + up && r == m + down + up' && w == m + up + down'
    ensures p + r + down' == q + w + up'
  {
    forall u ensures (p + r + down')[u] == (q + w + up')[u] {
      assert (p + down)[u] == (q + up)[u];
    }
  }

  /** At each place r keeps m and passes the rest on. */
  ghost predicate Leaves<U(!new)>(
      r: seq<multiset<U>>, m: seq<multiset<U>>, down: seq<multiset<U>>, up: seq<multiset<U>>) {
    |r| == |m| == |down| == |up| && forall i :: 0 <= i < |r| ==> r[i] == m[i] + down[i] + up[i]
  }

  /** At each place w has m and what comes from the places beside it. */
  ghost predicate Arrives<U(!new)>(
      w: seq<multiset<U>>, m: seq<multiset<U>>, down: seq<multiset<U>>, up: seq<multiset<U>>) {
    |w| == |m| == |down| == |up| && forall i :: 0 <= i < |w| ==> w[i] == m[i] + BagAt(up, i - 1) + BagAt(down, i + 1)
  }

  /** With nothing leaving at either end, the two lines gather the same. */
  lemma {:induction false} TelescopeWhole<U(!new)>(
      r: seq<multiset<U>>, w: seq<multiset<U>>, m: seq<multiset<U>>, down: seq<multiset<U>>, up: seq<multiset<U>>)
    requires Leaves(r, m, down, up) && Arrives(w, m, down, up)
    requires BagAt(down, 0) == multiset{} && BagAt(up, |up| - 1) == multiset{}
    ensures SumBags(r) == SumBags(w)
  {
    Telescope(|r|, r, w, m, down, up);
    assert r[..|r|] == r && w[..|w|] == w;
    assert SumBags(r) + multiset{} == SumBags(r) && SumBags(w) + multiset{} == SumBags(w);
  }

  // ---------------------------------------------------------------------- weighing

  /** The sum over a bag. */
  ghost function Weigh<U(!new)>(b: multiset<U>, w: U -> int): int
    decreases |b|
  {
    if b == multiset{} then 0 else
    var x :| x in b;
    Weigh(b - multiset{x}, w) + w(x)
  }

  lemma {:induction false} WeighStep<U(!new)>(b: multiset<U>, x: U, w: U -> int)
    requires x in b
    ensures Weigh(b, w) == Weigh(b - multiset{x}, w) + w(x)
    decreases |b|
  {
    var y :| y in b && Weigh(b, w) == Weigh(b - multiset{y}, w) + w(y);
    if y != x {
      WeighStep(b - multiset{y}, x, w);
      WeighStep(b - multiset{x}, y, w);
      assert b - multiset{y} - multiset{x} == b - multiset{x} - multiset{y};
    }
  }

  lemma {:induction false} WeighPlus<U(!new)>(a: multiset<U>, b: multiset<U>, w: U -> int)
    ensures Weigh(a + b, w) == Weigh(a, w) + Weigh(b, w)
    decreases |b|
  {
    if b == multiset{} {
      assert a + b == a;
    } else {
      var x :| x in b;
      WeighStep(b, x, w);
      WeighStep(a + b, x, w);
      assert a + b - multiset{x} == a + (b - multiset{x});
      WeighPlus(a, b - multiset{x}, w);
    }
  }

  lemma {:induction false} WeighGather<T, U(!new)>(s: seq<T>, f: T -> multiset<U>, w: U -> int, g: T -> int)
    requires forall i :: 0 <= i < |s| ==> g(s[i]) == Weigh(f(s[i]), w)
    ensures Weigh(Gather(s, f), w) == Total(s, g)
  {
    if s != [] {
      var init := s[..|s| - 1];
      assert forall i :: 0 <= i < |init| ==> init[i] == s[i];
      WeighGather(init, f, w, g);
      WeighPlus(Gather(init, f), f(s[|s| - 1]), w);
    }
  }

  function SumInt(s: seq<int>): int { if s == [] then 0 else SumInt(s[..|s| - 1]) + s[|s| - 1] }

  lemma {:induction false} WeighSumBags<U(!new)>(s: seq<multiset<U>>, w: U -> int, n: seq<int>)
    requires |s| == |n| && forall i :: 0 <= i < |s| ==> n[i] == Weigh(s[i], w)
    ensures Weigh(SumBags(s), w) == SumInt(n)
  {
    if s != [] {
      WeighSumBags(s[..|s| - 1], w, n[..|n| - 1]);
      WeighPlus(SumBags(s[..|s| - 1]), s[|s| - 1], w);
    }
  }
}
