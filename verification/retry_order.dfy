/**
 The order of the monitor's retry list, on values: the binary searches of `addSort` and `delete`, the
 scan of `delete`, and what they mean for a sequence of entries.
 */
module RetryOrder {
  import opened Sequences
  import opened Wrappers
  import opened Types

  /** What the list reads of a request: the key of the map, the value the scan matches, and the time. */
  datatype Entry = Entry(id: nat, hash: string, nextRetry: int) {
    function Milli(): int {
      UnixMilli(nextRetry)
    }
  }

  // ---------------------------------------------------------------- binary search

  /** The bisection of Go's sort.Search on the interval [lo, hi), for the outcomes `p` of its predicate. */
  function Search(p: seq<bool>, lo: nat, hi: nat): (i: nat)
    requires lo <= hi <= |p|
    ensures lo <= i <= hi
    ensures lo < i ==> !p[i - 1]
    ensures i < hi ==> p[i]
    decreases hi - lo
  {
    if lo == hi then lo
    else
      var h := (lo + hi) / 2;
      if p[h] then Search(p, lo, h) else Search(p, h + 1, hi)
  }

  /** Where `addSort` inserts: sort.Search for the first key greater than `k`. */
  function UpperBound(keys: seq<int>, k: int): (i: nat)
    ensures i <= |keys|
  {
    Search(seq(|keys|, i requires 0 <= i < |keys| => keys[i] > k), 0, |keys|)
  }

  /** Where `delete` starts its scan: sort.Search for the first key not less than `k`. */
  function LowerBound(keys: seq<int>, k: int): (i: nat)
    ensures i <= |keys|
  {
    Search(seq(|keys|, i requires 0 <= i < |keys| => keys[i] >= k), 0, |keys|)
  }

  predicate Ascending(keys: seq<int>) {
    forall i, j :: 0 <= i < j < |keys| ==> keys[i] <= keys[j]
  }

  lemma UpperBoundSplits(keys: seq<int>, k: int)
    requires Ascending(keys)
    ensures forall j :: 0 <= j < |keys| ==> (j < UpperBound(keys, k) <==> keys[j] <= k)
  {
    var u := UpperBound(keys, k);
    assert 0 < u ==> keys[u - 1] <= k;
  }

  lemma LowerBoundSplits(keys: seq<int>, k: int)
    requires Ascending(keys)
    ensures forall j :: 0 <= j < |keys| ==> (j < LowerBound(keys, k) <==> keys[j] < k)
  {
    var g := LowerBound(keys, k);
    assert 0 < g ==> keys[g - 1] < k;
  }

  // ---------------------------------------------------------------- the list operations

  function Millis(es: seq<Entry>): (keys: seq<int>)
    ensures |keys| == |es|
    ensures forall i :: 0 <= i < |es| ==> keys[i] == es[i].Milli()
  {
    seq(|es|, i requires 0 <= i < |es| => es[i].Milli())
  }

  /** The scan of `delete`: stop at the end or at a different exact time, break at the same hash. */
  function Scan(es: seq<Entry>, i: nat, e: Entry): (hit: Option<nat>)
    requires i <= |es|
    ensures hit.Some? ==> i <= hit.value < |es|
    decreases |es| - i
  {
    if i == |es| then None
    else if es[i].nextRetry != e.nextRetry then None
    else if es[i].hash == e.hash then Some(i)
    else Scan(es, i + 1, e)
  }

  /** The index `delete` removes for the stored entry `e`, given the keys its comparator sees. */
  function Locate(keys: seq<int>, es: seq<Entry>, e: Entry): (hit: Option<nat>)
    requires |keys| == |es|
    ensures hit.Some? ==> hit.value < |es|
  {
    Scan(es, LowerBound(keys, e.Milli()), e)
  }

  /** Entry `j` can be reached by the scan that starts at `g`, and carries the hash looked for. */
  predicate Reaches(es: seq<Entry>, g: nat, j: nat, e: Entry) {
    && g <= j < |es|
    && es[j].hash == e.hash
    && forall m :: g <= m <= j ==> es[m].nextRetry == e.nextRetry
  }

  /** Passing an entry of the same time and another hash changes nothing that can be reached. */
  lemma ScanPasses(es: seq<Entry>, g: nat, j: nat, e: Entry)
    requires g < |es| && es[g].nextRetry == e.nextRetry && es[g].hash != e.hash
    ensures Reaches(es, g, j, e) <==> Reaches(es, g + 1, j, e)
  {
  }

  lemma ScanStops(es: seq<Entry>, g: nat, j: nat, e: Entry)
    requires g < |es| ==> es[g].nextRetry != e.nextRetry
    ensures !Reaches(es, g, j, e)
  {
    assert g <= j < |es| ==> es[g].nextRetry != e.nextRetry;
  }

  lemma {:induction false} ScanFindsFirstReachable(es: seq<Entry>, g: nat, e: Entry)
    requires g <= |es|
    ensures Scan(es, g, e).Some? <==> exists j: nat :: Reaches(es, g, j, e)
    ensures Scan(es, g, e).Some? ==>
              && Reaches(es, g, Scan(es, g, e).value, e)
              && forall j: nat :: g <= j < Scan(es, g, e).value ==> !Reaches(es, g, j, e)
    decreases |es| - g
  {
    if g == |es| || es[g].nextRetry != e.nextRetry {
      forall j: nat
        ensures !Reaches(es, g, j, e)
      {
        ScanStops(es, g, j, e);
      }
    } else if es[g].hash == e.hash {
      assert Reaches(es, g, g, e);
    } else {
      ScanFindsFirstReachable(es, g + 1, e);
      var hit := Scan(es, g, e);
      forall j: nat | Reaches(es, g, j, e)
        ensures hit.Some? && hit.value <= j
      {
        ScanPasses(es, g, j, e);
      }
      if hit.Some? {
        ScanPasses(es, g, hit.value, e);
      }
    }
  }

  /** `delete` for a present id, exactly: which index it removes, and when it finds none. */
  lemma DeleteExactly(keys: seq<int>, es: seq<Entry>, e: Entry)
    requires |keys| == |es|
    ensures
      var g := LowerBound(keys, e.Milli());
      && (Locate(keys, es, e).Some? <==> exists j: nat :: Reaches(es, g, j, e))
      && (Locate(keys, es, e).Some? ==>
            && Reaches(es, g, Locate(keys, es, e).value, e)
            && forall j: nat :: g <= j < Locate(keys, es, e).value ==> !Reaches(es, g, j, e))
  {
    ScanFindsFirstReachable(es, LowerBound(keys, e.Milli()), e);
  }

  // ---------------------------------------------------------------- when delete hits its own entry

  predicate Sorted(es: seq<Entry>) {
    forall i, j :: 0 <= i < j < |es| ==> es[i].Milli() <= es[j].Milli()
  }

  predicate DistinctIds(es: seq<Entry>) {
    forall i, j :: 0 <= i < j < |es| ==> es[i].id != es[j].id
  }

  /** No earlier entry of the same millisecond stops the scan: neither by its exact time nor by its hash. */
  predicate Unobstructed(es: seq<Entry>, own: nat)
    requires own < |es|
  {
    forall m :: 0 <= m < own && es[m].Milli() == es[own].Milli() ==>
                  es[m].nextRetry == es[own].nextRetry && es[m].hash != es[own].hash
  }

  /** `delete` removes the entry of the requested id if and only if nothing obstructs the scan before it. */
  lemma DeleteHitsOwnEntryIff(es: seq<Entry>, own: nat)
    requires own < |es| && Sorted(es)
    ensures Locate(Millis(es), es, es[own]) == Some(own) <==> Unobstructed(es, own)
  {
    var e := es[own];
    var g := LowerBound(Millis(es), e.Milli());
    LowerBoundSplits(Millis(es), e.Milli());
    DeleteExactly(Millis(es), es, e);
    assert forall m :: g <= m <= own ==> es[m].Milli() == e.Milli();
    if Unobstructed(es, own) {
      assert Reaches(es, g, own, e);
    } else {
      var m: nat :| m < own && es[m].Milli() == e.Milli()
                    && !(es[m].nextRetry == e.nextRetry && es[m].hash != e.hash);
      assert g <= m;
      if Reaches(es, g, own, e) {
        assert es[m].nextRetry == e.nextRetry && es[m].hash == e.hash;
        assert Reaches(es, g, m, e);
      }
    }
  }

  /** Two entries of one millisecond with different exact times: the later one is present and not found. */
  lemma DeleteCanMissAPresentEntry()
    ensures
      var a, b := Entry(1, "0x01", 1_000_001), Entry(2, "0x02", 1_000_002);
      Sorted([a, b]) && DistinctIds([a, b]) && Locate(Millis([a, b]), [a, b], b) == None
  {
    var a, b := Entry(1, "0x01", 1_000_001), Entry(2, "0x02", 1_000_002);
    DeleteHitsOwnEntryIff([a, b], 1);
    var es := [a, b];
    LowerBoundSplits(Millis(es), b.Milli());
    assert LowerBound(Millis(es), b.Milli()) == 0;
  }

  /** Two ids that carry one hash at one time: asking for the second removes the first. */
  lemma DeleteCanRemoveAnotherId()
    ensures
      var a, b := Entry(1, "0x01", 1_000_001), Entry(2, "0x01", 1_000_001);
      Sorted([a, b]) && DistinctIds([a, b]) && Locate(Millis([a, b]), [a, b], b) == Some(0)
  {
    var a, b := Entry(1, "0x01", 1_000_001), Entry(2, "0x01", 1_000_001);
    var es := [a, b];
    LowerBoundSplits(Millis(es), b.Milli());
    assert LowerBound(Millis(es), b.Milli()) == 0;
  }

  /** The first entry of a millisecond group is always removed, whatever its hash or its neighbours. */
  lemma FirstOfMilliIsHit(es: seq<Entry>, own: nat)
    requires own < |es| && Sorted(es)
    requires forall m :: 0 <= m < own ==> es[m].Milli() < es[own].Milli()
    ensures Locate(Millis(es), es, es[own]) == Some(own)
  {
    DeleteHitsOwnEntryIff(es, own);
  }

  // ---------------------------------------------------------------- values that collapse the two orders

  /** Equal milliseconds mean equal times, and no two ids share a hash. */
  predicate Unambiguous(es: seq<Entry>) {
    && (forall i, j :: 0 <= i < j < |es| && es[i].Milli() == es[j].Milli() ==> es[i].nextRetry == es[j].nextRetry)
    && (forall i, j :: 0 <= i < j < |es| ==> es[i].hash != es[j].hash)
  }

  function Insert(es: seq<Entry>, e: Entry): seq<Entry> {
    InsertAt(es, UpperBound(Millis(es), e.Milli()), e)
  }

  lemma InsertKeepsSorted(es: seq<Entry>, e: Entry)
    requires Sorted(es)
    ensures Sorted(Insert(es, e))
  {
    UpperBoundSplits(Millis(es), e.Milli());
  }

  /** On unambiguous lists every present id is found, and its own entry is the one removed. */
  lemma DeleteIsCompleteWhenUnambiguous(es: seq<Entry>, own: nat)
    requires own < |es| && Sorted(es) && Unambiguous(es)
    ensures Locate(Millis(es), es, es[own]) == Some(own)
  {
    DeleteHitsOwnEntryIff(es, own);
  }

  lemma InsertKeepsUnambiguous(es: seq<Entry>, u: nat, e: Entry)
    requires u <= |es| && Unambiguous(es + [e])
    ensures Unambiguous(InsertAt(es, u, e))
  {
    var added, appended := InsertAt(es, u, e), es + [e];
    forall i, j | 0 <= i < j < |added|
      ensures added[i].Milli() == added[j].Milli() ==> added[i].nextRetry == added[j].nextRetry
      ensures added[i].hash != added[j].hash
    {
      var x := if i == u then |es| else if i < u then i else i - 1;
      var y := if j == u then |es| else if j < u then j else j - 1;
      assert added[i] == appended[x] && added[j] == appended[y];
      assert x < y || y < x;
    }
  }

  /** What is inserted lands behind everything of its millisecond and before everything later. */
  lemma InsertedIsHit(es: seq<Entry>, e: Entry)
    requires Sorted(es) && Unambiguous(es + [e])
    ensures
      var u, added := UpperBound(Millis(es), e.Milli()), Insert(es, e);
      added[u] == e && Locate(Millis(added), added, e) == Some(u)
  {
    var u, added := UpperBound(Millis(es), e.Milli()), Insert(es, e);
    InsertKeepsSorted(es, e);
    InsertKeepsUnambiguous(es, u, e);
    assert added[u] == e;
    DeleteIsCompleteWhenUnambiguous(added, u);
  }

  /** There, deleting what was just added gives back the list as it was, in the same order. */
  lemma DeleteUndoesAdd(es: seq<Entry>, e: Entry)
    requires Sorted(es) && Unambiguous(es + [e])
    ensures
      var added := Insert(es, e);
      var hit := Locate(Millis(added), added, e);
      hit.Some? && RemoveAt(added, hit.value) == es
  {
    var u := UpperBound(Millis(es), e.Milli());
    InsertedIsHit(es, e);
    RemovesInserted(es, u, e);
  }
}
