/** Insertion and removal by index, and what a sequence of holders holds, counted as multisets. */
module Sequences {
  function InsertAt<T>(s: seq<T>, i: nat, x: T): seq<T>
    requires i <= |s|
  {
    s[..i] + [x] + s[i..]
  }

  function RemoveAt<T>(s: seq<T>, i: nat): seq<T>
    requires i < |s|
  {
    s[..i] + s[i + 1..]
  }

  lemma RemovesInserted<T>(s: seq<T>, i: nat, x: T)
    requires i <= |s|
    ensures RemoveAt(InsertAt(s, i, x), i) == s
  {
  }

  lemma InsertedPlaces<T>(s: seq<T>, i: nat, x: T)
    requires i <= |s|
    ensures multiset(InsertAt(s, i, x)) == multiset(s) + multiset{x}
  {
    assert s == s[..i] + s[i..];
  }

  lemma RemovedPlaces<T>(s: seq<T>, i: nat)
    requires i < |s|
    ensures multiset(RemoveAt(s, i)) == multiset(s) - multiset{s[i]}
    ensures s[i] in multiset(s)
  {
    assert s == s[..i] + [s[i]] + s[i + 1..];
  }

  lemma NotCountedNotIn<T>(s: seq<T>, x: T)
    requires multiset(s)[x] == 0
    ensures x !in s
  {
    assert x in s ==> x in multiset(s);
  }

  /** Everything the holders hold. */
  function Gather<T>(ts: seq<T>, held: T -> multiset<nat>): multiset<nat> {
    if ts == [] then multiset{} else Gather(ts[..|ts| - 1], held) + held(ts[|ts| - 1])
  }

  lemma {:induction false} GatherUpdate<T>(ts: seq<T>, held: T -> multiset<nat>, i: nat, t: T)
    requires i < |ts|
    ensures held(ts[i]) <= Gather(ts, held)
    ensures Gather(ts[i := t], held) == Gather(ts, held) - held(ts[i]) + held(t)
  {
    var last := |ts| - 1;
    if i == last {
      assert ts[i := t][..last] == ts[..last];
    } else {
      GatherUpdate(ts[..last], held, i, t);
      assert ts[i := t][..last] == ts[..last][i := t];
    }
  }

  lemma GatherAppend<T>(ts: seq<T>, held: T -> multiset<nat>, t: T)
    ensures Gather(ts + [t], held) == Gather(ts, held) + held(t)
  {
    assert (ts + [t])[..|ts|] == ts;
  }

  lemma {:induction false} GatherNothing<T>(ts: seq<T>, held: T -> multiset<nat>)
    requires forall i :: 0 <= i < |ts| ==> held(ts[i]) == multiset{}
    ensures Gather(ts, held) == multiset{}
  {
    if ts != [] {
      GatherNothing(ts[..|ts| - 1], held);
    }
  }

  /** The ranks of all, together. */
  function Total<T>(ts: seq<T>, rank: T -> nat): nat {
    if ts == [] then 0 else Total(ts[..|ts| - 1], rank) + rank(ts[|ts| - 1])
  }

  lemma {:induction false} TotalUpdate<T>(ts: seq<T>, rank: T -> nat, i: nat, t: T)
    requires i < |ts|
    ensures Total(ts[i := t], rank) == Total(ts, rank) - rank(ts[i]) + rank(t)
  {
    var last := |ts| - 1;
    if i == last {
      assert ts[i := t][..last] == ts[..last];
    } else {
      TotalUpdate(ts[..last], rank, i, t);
      assert ts[i := t][..last] == ts[..last][i := t];
    }
  }

  lemma TotalAppend<T>(ts: seq<T>, rank: T -> nat, t: T)
    ensures Total(ts + [t], rank) == Total(ts, rank) + rank(t)
  {
    assert (ts + [t])[..|ts|] == ts;
  }

  /** Moving members between two bags keeps their sum. */
  lemma Rebalance(bag: multiset<nat>, gone: multiset<nat>, come: multiset<nat>, before: multiset<nat>,
                  after: multiset<nat>)
    requires gone <= bag && come + after == gone + before
    ensures (bag - gone + come) + after == bag + before
  {
    forall r: nat
      ensures ((bag - gone + come) + after)[r] == (bag + before)[r]
    {
      assert (come + after)[r] == (gone + before)[r];
    }
  }
}
