/** The append-only intent log of settlements that leave the process, and what is read
    back out of it. */
module Journal {
  import opened Options
  import opened Records

  datatype Phase = Prepared | Submitted | Settled | Failed | Indeterminate

  datatype Entry = Entry(nonce: string, amount: string, currency: string, payee: string, phase: Phase, atMs: int)

  // -------------------------------------------------------------- what the log says

  /** The last entry of a nonce. */
  function Fold(j: seq<Entry>, nonce: string): Option<Entry> {
    if j == [] then None
    else if j[|j| - 1].nonce == nonce then Some(j[|j| - 1])
    else Fold(j[..|j| - 1], nonce)
  }

  predicate InPhase(j: seq<Entry>, nonce: string, phases: set<Phase>) {
    Fold(j, nonce).Some? && Fold(j, nonce).value.phase in phases
  }

  /** The rail may still take, or has taken, the payment. */
  predicate Out(j: seq<Entry>, nonce: string) { InPhase(j, nonce, {Submitted, Indeterminate, Settled}) }

  /** Not yet decided either way. */
  predicate Pending(j: seq<Entry>, nonce: string) { InPhase(j, nonce, {Prepared, Submitted, Indeterminate}) }

  /** The nonce is spoken for. */
  predicate Bound(j: seq<Entry>, nonce: string) { InPhase(j, nonce, {Prepared, Submitted, Indeterminate, Settled}) }

  /** When the latest reserve of the nonce was made. */
  function ReservedAt(j: seq<Entry>, nonce: string): Option<int> {
    if j == [] then None
    else
      var e := j[|j| - 1];
      if e.nonce == nonce && e.phase == Prepared then Some(e.atMs) else ReservedAt(j[..|j| - 1], nonce)
  }

  function LastSubmitted(j: seq<Entry>, nonce: string): Option<int> {
    if j == [] then None
    else
      var e := j[|j| - 1];
      if e.nonce == nonce && e.phase == Submitted then Some(e.atMs) else LastSubmitted(j[..|j| - 1], nonce)
  }

  /** The times of every submit since the latest reserve. */
  function SubmitsSince(j: seq<Entry>, nonce: string): seq<int> {
    if j == [] then []
    else
      var e := j[|j| - 1];
      var before := SubmitsSince(j[..|j| - 1], nonce);
      if e.nonce != nonce then before
      else if e.phase == Prepared then []
      else if e.phase == Submitted then before + [e.atMs]
      else before
  }

  lemma {:induction false} Appending(j: seq<Entry>, e: Entry, nonce: string)
    ensures Fold(j + [e], nonce) == if e.nonce == nonce then Some(e) else Fold(j, nonce)
    ensures SubmitsSince(j + [e], nonce) ==
      if e.nonce != nonce then SubmitsSince(j, nonce)
      else if e.phase == Prepared then []
      else if e.phase == Submitted then SubmitsSince(j, nonce) + [e.atMs]
      else SubmitsSince(j, nonce)
  {
    assert (j + [e])[..|j|] == j;
  }

  // --------------------------------------------------- the same, by position in the log

  predicate EntryAt(j: seq<Entry>, i: nat, nonce: string, phases: set<Phase>) {
    i < |j| && j[i].nonce == nonce && j[i].phase in phases
  }

  const ANY: set<Phase> := {Prepared, Submitted, Settled, Failed, Indeterminate}

  /** The entry is in one of the phases and no later one of its nonce is. */
  ghost predicate LatestAt(j: seq<Entry>, i: nat, nonce: string, phases: set<Phase>) {
    EntryAt(j, i, nonce, phases) && forall k: nat :: i < k ==> !EntryAt(j, k, nonce, phases)
  }

  lemma {:induction false} LatestOneMore(j: seq<Entry>, e: Entry, i: nat, nonce: string, phases: set<Phase>)
    ensures LatestAt(j + [e], i, nonce, phases) <==>
      if e.nonce == nonce && e.phase in phases then i == |j| else LatestAt(j, i, nonce, phases)
  {
    var all := j + [e];
    forall k: nat | k < |j| ensures EntryAt(all, k, nonce, phases) <==> EntryAt(j, k, nonce, phases) {
      assert all[k] == j[k];
    }
    assert EntryAt(all, |j|, nonce, phases) <==> e.nonce == nonce && e.phase in phases;
  }

  lemma AnyPhase(p: Phase)
    ensures p in ANY
  {
    assert p == Prepared || p == Submitted || p == Settled || p == Failed || p == Indeterminate;
  }

  /** The fold of a nonce is its last entry. */
  lemma {:induction false} FoldIsLatest(j: seq<Entry>, nonce: string, e: Entry)
    ensures Fold(j, nonce) == Some(e) <==> exists i: nat :: LatestAt(j, i, nonce, ANY) && j[i] == e
  {
    if j != [] {
      var init, last := j[..|j| - 1], j[|j| - 1];
      assert j == init + [last];
      AnyPhase(last.phase);
      FoldIsLatest(init, nonce, e);
      forall i: nat
        ensures LatestAt(j, i, nonce, ANY) <==>
          if last.nonce == nonce then i == |init| else LatestAt(init, i, nonce, ANY)
      {
        LatestOneMore(init, last, i, nonce, ANY);
      }
    }
  }

  /** A reserve is dated by the last prepared entry. */
  lemma {:induction false} ReservedAtIsLatest(j: seq<Entry>, nonce: string, t: int)
    ensures ReservedAt(j, nonce) == Some(t) <==> exists i: nat :: LatestAt(j, i, nonce, {Prepared}) && j[i].atMs == t
  {
    if j != [] {
      var init, last := j[..|j| - 1], j[|j| - 1];
      assert j == init + [last];
      ReservedAtIsLatest(init, nonce, t);
      forall i: nat
        ensures LatestAt(j, i, nonce, {Prepared}) <==>
          if last.nonce == nonce && last.phase == Prepared then i == |init| else LatestAt(init, i, nonce, {Prepared})
      {
        LatestOneMore(init, last, i, nonce, {Prepared});
      }
    }
  }

  /** The last submit is the last submitted entry. */
  lemma {:induction false} LastSubmittedIsLatest(j: seq<Entry>, nonce: string, t: int)
    ensures LastSubmitted(j, nonce) == Some(t) <==>
      exists i: nat :: LatestAt(j, i, nonce, {Submitted}) && j[i].atMs == t
  {
    if j != [] {
      var init, last := j[..|j| - 1], j[|j| - 1];
      assert j == init + [last];
      LastSubmittedIsLatest(init, nonce, t);
      forall i: nat
        ensures LatestAt(j, i, nonce, {Submitted}) <==>
          if last.nonce == nonce && last.phase == Submitted then i == |init| else LatestAt(init, i, nonce, {Submitted})
      {
        LatestOneMore(init, last, i, nonce, {Submitted});
      }
    }
  }

  /** A submit that no later reserve of its nonce follows. */
  ghost predicate SubmitStands(j: seq<Entry>, i: nat, nonce: string) {
    EntryAt(j, i, nonce, {Submitted}) && forall k: nat :: i < k ==> !EntryAt(j, k, nonce, {Prepared})
  }

  lemma {:induction false} SubmitOneMore(j: seq<Entry>, e: Entry, i: nat, nonce: string)
    ensures SubmitStands(j + [e], i, nonce) <==>
      if e.nonce == nonce && e.phase == Prepared then false
      else SubmitStands(j, i, nonce) || (i == |j| && e.nonce == nonce && e.phase == Submitted)
  {
    var all := j + [e];
    forall k: nat, phases: set<Phase> | k < |j|
      ensures EntryAt(all, k, nonce, phases) <==> EntryAt(j, k, nonce, phases)
    {
      assert all[k] == j[k];
    }
    assert EntryAt(all, |j|, nonce, {Prepared}) <==> e.nonce == nonce && e.phase == Prepared;
    assert EntryAt(all, |j|, nonce, {Submitted}) <==> e.nonce == nonce && e.phase == Submitted;
  }

  /** The submits since the latest reserve are those that no reserve follows. */
  lemma {:induction false} SubmitsSinceStand(j: seq<Entry>, nonce: string, t: int)
    ensures t in SubmitsSince(j, nonce) <==> exists i: nat :: SubmitStands(j, i, nonce) && j[i].atMs == t
  {
    if j != [] {
      var init, last := j[..|j| - 1], j[|j| - 1];
      assert j == init + [last];
      SubmitsSinceStand(init, nonce, t);
      forall i: nat
        ensures SubmitStands(j, i, nonce) <==>
          if last.nonce == nonce && last.phase == Prepared then false
          else SubmitStands(init, i, nonce) || (i == |init| && last.nonce == nonce && last.phase == Submitted)
      {
        SubmitOneMore(init, last, i, nonce);
      }
    }
  }

  // ------------------------------------------------------------------------ the fold

  /** A map entry written: in place when the nonce is there, at the end when it is new. */
  function Put(rows: seq<Entry>, e: Entry): seq<Entry> {
    if rows == [] then [e]
    else if rows[0].nonce == e.nonce then [e] + rows[1..]
    else [rows[0]] + Put(rows[1..], e)
  }

  /** One row per nonce, in order of first appearance. */
  function Intents(j: seq<Entry>): seq<Entry> {
    if j == [] then [] else Put(Intents(j[..|j| - 1]), j[|j| - 1])
  }

  predicate OnePerNonce(rows: seq<Entry>) {
    forall i, k :: 0 <= i < k < |rows| ==> rows[i].nonce != rows[k].nonce
  }

  lemma OnePerNonceParts(rows: seq<Entry>)
    requires rows != [] && OnePerNonce(rows)
    ensures OnePerNonce(rows[1..]) && forall x :: x in rows[1..] ==> x.nonce != rows[0].nonce
  {
  }

  lemma OnePerNonceJoined(first: Entry, tail: seq<Entry>)
    requires OnePerNonce(tail) && forall x :: x in tail ==> x.nonce != first.nonce
    ensures OnePerNonce([first] + tail)
  {
  }

  lemma {:induction false} PutKeeps(rows: seq<Entry>, e: Entry)
    requires OnePerNonce(rows)
    ensures OnePerNonce(Put(rows, e))
    ensures forall x :: x in Put(rows, e) <==> x == e || (x in rows && x.nonce != e.nonce)
  {
    if rows != [] {
      var first, tail := rows[0], rows[1..];
      assert rows == [first] + tail;
      OnePerNonceParts(rows);
      if first.nonce == e.nonce {
        OnePerNonceJoined(e, tail);
      } else {
        PutKeeps(tail, e);
        OnePerNonceJoined(first, Put(tail, e));
      }
    }
  }

  /** The fold holds exactly the last entry of every nonce, once. */
  lemma {:induction false} IntentsAreLast(j: seq<Entry>)
    ensures OnePerNonce(Intents(j))
    ensures forall e :: e in Intents(j) <==> Fold(j, e.nonce) == Some(e)
  {
    if j != [] {
      var init, last := j[..|j| - 1], j[|j| - 1];
      IntentsAreLast(init);
      PutKeeps(Intents(init), last);
      forall e ensures e in Intents(j) <==> Fold(j, e.nonce) == Some(e) {
        FoldNames(init, e.nonce);
      }
    }
  }

  lemma {:induction false} FoldNames(j: seq<Entry>, nonce: string)
    ensures Fold(j, nonce).Some? ==> Fold(j, nonce).value.nonce == nonce && Fold(j, nonce).value in j
  {
    if j != [] && j[|j| - 1].nonce != nonce {
      FoldNames(j[..|j| - 1], nonce);
    }
  }

  ghost predicate Listed(order: seq<string>, byNonce: map<string, Entry>) {
    forall n :: n in order <==> n in byNonce
  }

  function RowsOf(order: seq<string>, byNonce: map<string, Entry>): (rows: seq<Entry>)
    requires Listed(order, byNonce)
    ensures |rows| == |order| && forall i :: 0 <= i < |rows| ==> rows[i] == byNonce[order[i]]
  {
    seq(|order|, i requires 0 <= i < |order| => assert order[i] in order; byNonce[order[i]])
  }

  ghost predicate Keyed(order: seq<string>, byNonce: map<string, Entry>) {
    && Listed(order, byNonce)
    && (forall i, k :: 0 <= i < k < |order| ==> order[i] != order[k])
    && (forall n :: n in byNonce ==> byNonce[n].nonce == n)
  }

  lemma {:induction false} PutAt(rows: seq<Entry>, e: Entry, i: nat)
    requires i < |rows| && rows[i].nonce == e.nonce && forall k :: 0 <= k < i ==> rows[k].nonce != e.nonce
    ensures Put(rows, e) == rows[i := e]
  {
    if i > 0 {
      PutAt(rows[1..], e, i - 1);
      assert rows[i := e] == [rows[0]] + rows[1..][i - 1 := e];
    }
  }

  lemma {:induction false} PutNew(rows: seq<Entry>, e: Entry)
    requires forall k :: 0 <= k < |rows| ==> rows[k].nonce != e.nonce
    ensures Put(rows, e) == rows + [e]
  {
    if rows != [] {
      PutNew(rows[1..], e);
      assert rows + [e] == [rows[0]] + (rows[1..] + [e]);
    }
  }

  lemma WriteOverKeyed(order: seq<string>, byNonce: map<string, Entry>, e: Entry)
    requires Keyed(order, byNonce) && e.nonce in byNonce
    ensures Keyed(order, byNonce[e.nonce := e])
  {
  }

  lemma {:induction false} WriteOver(order: seq<string>, byNonce: map<string, Entry>, e: Entry)
    requires Keyed(order, byNonce) && e.nonce in byNonce
    ensures Keyed(order, byNonce[e.nonce := e])
    ensures RowsOf(order, byNonce[e.nonce := e]) == Put(RowsOf(order, byNonce), e)
  {
    var rows := RowsOf(order, byNonce);
    forall k | 0 <= k < |rows| ensures rows[k].nonce == order[k] { assert order[k] in order; }
    var i :| 0 <= i < |order| && order[i] == e.nonce;
    WriteOverKeyed(order, byNonce, e);
    PutAt(rows, e, i);
    assert RowsOf(order, byNonce[e.nonce := e]) == rows[i := e];
  }

  lemma {:induction false} WriteNewKeyed(order: seq<string>, byNonce: map<string, Entry>, e: Entry)
    requires Keyed(order, byNonce) && e.nonce !in byNonce
    ensures Keyed(order + [e.nonce], byNonce[e.nonce := e])
  {
    var all := order + [e.nonce];
    forall i, k | 0 <= i < k < |all| ensures all[i] != all[k] {
      assert all[i] in order;
    }
  }

  lemma {:induction false} WriteNew(order: seq<string>, byNonce: map<string, Entry>, e: Entry)
    requires Keyed(order, byNonce) && e.nonce !in byNonce
    ensures Keyed(order + [e.nonce], byNonce[e.nonce := e])
    ensures RowsOf(order + [e.nonce], byNonce[e.nonce := e]) == Put(RowsOf(order, byNonce), e)
  {
    var rows := RowsOf(order, byNonce);
    WriteNewKeyed(order, byNonce, e);
    forall k | 0 <= k < |rows| ensures rows[k].nonce != e.nonce && order[k] != e.nonce { assert order[k] in order; }
    PutNew(rows, e);
    assert RowsOf(order + [e.nonce], byNonce[e.nonce := e]) == rows + [e];
  }

  method FoldJournal(j: seq<Entry>) returns (rows: seq<Entry>)
    ensures rows == Intents(j)
  {
    var order: seq<string>, byNonce: map<string, Entry> := [], map[];
    for i := 0 to |j|
      invariant Keyed(order, byNonce) && RowsOf(order, byNonce) == Intents(j[..i])
    {
      assert j[..i + 1][..i] == j[..i];
      if j[i].nonce in byNonce {
        WriteOver(order, byNonce, j[i]);
      } else {
        WriteNew(order, byNonce, j[i]);
        order := order + [j[i].nonce];
      }
      byNonce := byNonce[j[i].nonce := j[i]];
    }
    assert j[..|j|] == j;
    rows := RowsOf(order, byNonce);
  }

  method ReservedAtMs(j: seq<Entry>, nonce: string) returns (at: Option<int>)
    ensures at == ReservedAt(j, nonce)
  {
    var i := |j|;
    assert j[..|j|] == j;
    while i > 0
      invariant 0 <= i <= |j|
      invariant ReservedAt(j, nonce) == ReservedAt(j[..i], nonce)
    {
      i := i - 1;
      assert j[..i + 1][..i] == j[..i];
      if j[i].nonce == nonce && j[i].phase == Prepared {
        return Some(j[i].atMs);
      }
    }
    return None;
  }

  method LastSubmittedAtMs(j: seq<Entry>, nonce: string) returns (at: Option<int>)
    ensures at == LastSubmitted(j, nonce)
  {
    at := None;
    for i := 0 to |j|
      invariant at == LastSubmitted(j[..i], nonce)
    {
      assert j[..i + 1][..i] == j[..i];
      if j[i].nonce == nonce && j[i].phase == Submitted {
        at := Some(j[i].atMs);
      }
    }
    assert j[..|j|] == j;
  }

  method SubmittedTimesSinceReserve(j: seq<Entry>, nonce: string) returns (times: seq<int>)
    ensures times == SubmitsSince(j, nonce)
  {
    times := [];
    for i := 0 to |j|
      invariant times == SubmitsSince(j[..i], nonce)
    {
      assert j[..i + 1][..i] == j[..i];
      if j[i].nonce == nonce {
        if j[i].phase == Prepared {
          times := [];
        } else if j[i].phase == Submitted {
          times := times + [j[i].atMs];
        }
      }
    }
    assert j[..|j|] == j;
  }
}
