/** What the sorted slice is, independently of how it is computed: the stable sort of the arrivals. */
module StableOrder {
  import opened RetryOrder
  import opened Sequences

  function Filter<T>(s: seq<T>, keep: T -> bool): seq<T> {
    if s == [] then [] else (if keep(s[0]) then [s[0]] else []) + Filter(s[1..], keep)
  }

  function ByMilli(k: int): Entry -> bool {
    (e: Entry) => e.Milli() == k
  }

  function ByOtherId(id: nat): Entry -> bool {
    (e: Entry) => e.id != id
  }

  /** The entries of one millisecond, in their order. */
  function Group(es: seq<Entry>, k: int): seq<Entry> {
    Filter(es, ByMilli(k))
  }

  /** The entries of every other id, in their order. */
  function Without(es: seq<Entry>, id: nat): seq<Entry> {
    Filter(es, ByOtherId(id))
  }

  /** Sorted by millisecond, and within each millisecond the same entries in the same order. */
  ghost predicate IsStableSortOf(es: seq<Entry>, arrivals: seq<Entry>) {
    Sorted(es) && forall k :: Group(es, k) == Group(arrivals, k)
  }

  lemma {:induction false} FilterOfConcat<T>(a: seq<T>, b: seq<T>, keep: T -> bool)
    ensures Filter(a + b, keep) == Filter(a, keep) + Filter(b, keep)
  {
    if a == [] {
      assert a + b == b;
    } else {
      var head := if keep(a[0]) then [a[0]] else [];
      var rest, more := Filter(a[1..], keep), Filter(b, keep);
      assert (a + b)[0] == a[0] && (a + b)[1..] == a[1..] + b;
      FilterOfConcat(a[1..], b, keep);
      assert Filter(a + b, keep) == head + (rest + more);
      assert head + (rest + more) == (head + rest) + more;
    }
  }

  lemma {:induction false} FilterMembers<T>(s: seq<T>, keep: T -> bool)
    ensures forall x :: x in Filter(s, keep) <==> x in s && keep(x)
  {
    if s != [] {
      FilterMembers(s[1..], keep);
    }
  }

  lemma {:induction false} FilterAll<T>(s: seq<T>, keep: T -> bool)
    requires forall x :: x in s ==> keep(x)
    ensures Filter(s, keep) == s
  {
    if s != [] {
      FilterAll(s[1..], keep);
    }
  }

  lemma {:induction false} FilterNone<T>(s: seq<T>, keep: T -> bool)
    requires forall x :: x in s ==> !keep(x)
    ensures Filter(s, keep) == []
  {
    if s != [] {
      FilterNone(s[1..], keep);
    }
  }

  lemma {:induction false} FiltersCommute<T>(s: seq<T>, p: T -> bool, q: T -> bool)
    ensures Filter(Filter(s, p), q) == Filter(Filter(s, q), p)
  {
    if s != [] {
      FiltersCommute(s[1..], p, q);
      FilterOfConcat(if p(s[0]) then [s[0]] else [], Filter(s[1..], p), q);
      FilterOfConcat(if q(s[0]) then [s[0]] else [], Filter(s[1..], q), p);
    }
  }

  /** Cutting a filtered list at a position: what the two sides and the element between contribute. */
  lemma FilterAround<T>(a: seq<T>, x: T, b: seq<T>, keep: T -> bool)
    ensures Filter(a + [x] + b, keep) == Filter(a, keep) + (if keep(x) then [x] else []) + Filter(b, keep)
  {
    FilterOfConcat(a + [x], b, keep);
    FilterOfConcat(a, [x], keep);
  }

  /** The stable sort is unique: the relation above determines the list. */
  lemma {:induction false} StableSortIsUnique(a: seq<Entry>, b: seq<Entry>, arrivals: seq<Entry>)
    requires IsStableSortOf(a, arrivals) && IsStableSortOf(b, arrivals)
    ensures a == b
  {
    SameGroupsSameList(a, b);
  }

  lemma {:induction false} SameGroupsSameList(a: seq<Entry>, b: seq<Entry>)
    requires Sorted(a) && Sorted(b)
    requires forall k :: Group(a, k) == Group(b, k)
    ensures a == b
  {
    if a == [] || b == [] {
      SameGroupsSameEmpty(a, b);
      SameGroupsSameEmpty(b, a);
    } else {
      SameGroupsSameHead(a, b);
      forall k
        ensures Group(a[1..], k) == Group(b[1..], k)
      {
        var head := if a[0].Milli() == k then [a[0]] else [];
        assert Group(a, k) == head + Group(a[1..], k);
        assert Group(b, k) == head + Group(b[1..], k);
        assert Group(a[1..], k) == Group(a, k)[|head|..];
        assert Group(b[1..], k) == Group(b, k)[|head|..];
      }
      SameGroupsSameList(a[1..], b[1..]);
      assert a == [a[0]] + a[1..] && b == [b[0]] + b[1..];
    }
  }

  lemma SameGroupsSameEmpty(a: seq<Entry>, b: seq<Entry>)
    requires forall k :: Group(a, k) == Group(b, k)
    ensures a == [] ==> b == []
  {
    if b != [] {
      var k := b[0].Milli();
      assert b[0] in Group(b, k) by { FilterMembers(b, ByMilli(k)); }
      assert Group(a, k) == Group(b, k);
    }
  }

  lemma SameGroupsSameHead(a: seq<Entry>, b: seq<Entry>)
    requires Sorted(a) && Sorted(b) && a != [] && b != []
    requires forall k :: Group(a, k) == Group(b, k)
    ensures a[0] == b[0]
  {
    var ka, kb := a[0].Milli(), b[0].Milli();
    assert a[0] in Group(a, ka) && b[0] in Group(b, kb) by {
      FilterMembers(a, ByMilli(ka));
      FilterMembers(b, ByMilli(kb));
    }
    assert a[0] in b && b[0] in a by {
      FilterMembers(b, ByMilli(ka));
      FilterMembers(a, ByMilli(kb));
    }
    assert Group(a, ka)[0] == a[0] && Group(b, kb)[0] == b[0];
  }

  lemma InsertKeepsStable(es: seq<Entry>, arrivals: seq<Entry>, e: Entry)
    requires IsStableSortOf(es, arrivals)
    ensures IsStableSortOf(Insert(es, e), arrivals + [e])
  {
    InsertKeepsSorted(es, e);
    UpperBoundSplits(Millis(es), e.Milli());
    var u := UpperBound(Millis(es), e.Milli());
    forall k
      ensures Group(Insert(es, e), k) == Group(arrivals + [e], k)
    {
      InsertedGroup(es, u, e, k);
      FilterOfConcat(arrivals, [e], ByMilli(k));
    }
  }

  lemma InsertedGroup(es: seq<Entry>, u: nat, e: Entry, k: int)
    requires u <= |es| && forall j :: u <= j < |es| ==> es[j].Milli() != e.Milli()
    ensures Group(InsertAt(es, u, e), k) == Group(es, k) + Group([e], k)
  {
    FilterAround(es[..u], e, es[u..], ByMilli(k));
    FilterOfConcat(es[..u], es[u..], ByMilli(k));
    assert es == es[..u] + es[u..];
    if k == e.Milli() {
      FilterNone(es[u..], ByMilli(k));
      assert Filter([e], ByMilli(k)) == [e];
    } else {
      assert Filter([e], ByMilli(k)) == [];
    }
  }

  /** Removing an id's own entry by index keeps the list the stable sort of the surviving arrivals. */
  lemma RemoveKeepsStable(es: seq<Entry>, arrivals: seq<Entry>, own: nat)
    requires IsStableSortOf(es, arrivals) && DistinctIds(es) && own < |es|
    ensures IsStableSortOf(RemoveAt(es, own), Without(arrivals, es[own].id))
  {
    var id := es[own].id;
    RemovedIsWithout(es, own);
    forall k
      ensures Group(RemoveAt(es, own), k) == Group(Without(arrivals, id), k)
    {
      FiltersCommute(es, ByOtherId(id), ByMilli(k));
      FiltersCommute(arrivals, ByOtherId(id), ByMilli(k));
      assert Group(es, k) == Group(arrivals, k);
    }
  }

  lemma WithoutOthers(es: seq<Entry>, id: nat)
    requires forall i :: 0 <= i < |es| ==> es[i].id != id
    ensures Without(es, id) == es
  {
    FilterAll(es, ByOtherId(id));
  }

  lemma WithoutAround(a: seq<Entry>, e: Entry, b: seq<Entry>)
    requires Without(a, e.id) == a && Without(b, e.id) == b
    ensures Without(a + [e] + b, e.id) == a + b
  {
    FilterAround(a, e, b, ByOtherId(e.id));
    assert !ByOtherId(e.id)(e) && a + [] == a;
  }

  lemma RemovedIsWithout(es: seq<Entry>, own: nat)
    requires DistinctIds(es) && own < |es|
    ensures Without(es, es[own].id) == RemoveAt(es, own)
  {
    assert es == es[..own] + [es[own]] + es[own + 1..];
    WithoutOthers(es[..own], es[own].id);
    WithoutOthers(es[own + 1..], es[own].id);
    WithoutAround(es[..own], es[own], es[own + 1..]);
  }

  // ---------------------------------------------------------------- whole histories of the list

  datatype Op = Add(e: Entry) | Delete(id: nat)

  predicate Has(es: seq<Entry>, id: nat) {
    exists i :: 0 <= i < |es| && es[i].id == id
  }

  function IndexOf(es: seq<Entry>, id: nat): (i: nat)
    requires Has(es, id)
    ensures i < |es| && es[i].id == id
  {
    if es[0].id == id then 0
    else
      assert Has(es[1..], id) by {
        var i :| 0 <= i < |es| && es[i].id == id;
        assert es[1..][i - 1].id == id;
      }
      1 + IndexOf(es[1..], id)
  }

  /** One call on the sorted slice: `add` refuses a present id, `delete` removes what its search locates. */
  function Apply(es: seq<Entry>, op: Op): seq<Entry> {
    match op
    case Add(e) => if Has(es, e.id) then es else Insert(es, e)
    case Delete(id) =>
      if !Has(es, id) then es
      else
        var e := es[IndexOf(es, id)];
        var hit := Locate(Millis(es), es, e);
        if hit.Some? then RemoveAt(es, hit.value) else es
  }

  /** The same call on the plain record of who is waiting, in order of arrival. */
  function Record(arrivals: seq<Entry>, op: Op): seq<Entry> {
    match op
    case Add(e) => if Has(arrivals, e.id) then arrivals else arrivals + [e]
    case Delete(id) => Without(arrivals, id)
  }

  /** A delete that finds the requested id's own entry: nothing obstructs its scan. */
  predicate FindsOwn(es: seq<Entry>, op: Op) {
    op.Delete? && Has(es, op.id) ==> Unobstructed(es, IndexOf(es, op.id))
  }

  function ApplyAll(es: seq<Entry>, ops: seq<Op>): seq<Entry> {
    if ops == [] then es else Apply(ApplyAll(es, ops[..|ops| - 1]), ops[|ops| - 1])
  }

  function RecordAll(arrivals: seq<Entry>, ops: seq<Op>): seq<Entry> {
    if ops == [] then arrivals else Record(RecordAll(arrivals, ops[..|ops| - 1]), ops[|ops| - 1])
  }

  lemma SameIds(es: seq<Entry>, arrivals: seq<Entry>, id: nat)
    requires forall k :: Group(es, k) == Group(arrivals, k)
    requires Has(es, id)
    ensures Has(arrivals, id)
  {
    var i :| 0 <= i < |es| && es[i].id == id;
    var k := es[i].Milli();
    FilterMembers(es, ByMilli(k));
    FilterMembers(arrivals, ByMilli(k));
    assert es[i] in Group(arrivals, k);
  }

  /**
   After any sequence of adds and of deletes that find their own entry, the slice is the stable sort by
   millisecond of the survivors in order of arrival, and holds each id once.
   */
  lemma {:induction false} HistoryIsStableSort(ops: seq<Op>)
    requires forall n :: 0 <= n < |ops| ==> FindsOwn(ApplyAll([], ops[..n]), ops[n])
    ensures IsStableSortOf(ApplyAll([], ops), RecordAll([], ops))
    ensures DistinctIds(ApplyAll([], ops))
  {
    if ops != [] {
      var last := |ops| - 1;
      var op := ops[last];
      forall n | 0 <= n < last
        ensures FindsOwn(ApplyAll([], ops[..last][..n]), ops[..last][n])
      {
        assert ops[..last][..n] == ops[..n];
      }
      HistoryIsStableSort(ops[..last]);
      var es, arrivals := ApplyAll([], ops[..last]), RecordAll([], ops[..last]);
      assert FindsOwn(es, op);
      StepIsStableSort(es, arrivals, op);
    }
  }

  lemma StepIsStableSort(es: seq<Entry>, arrivals: seq<Entry>, op: Op)
    requires IsStableSortOf(es, arrivals) && DistinctIds(es) && FindsOwn(es, op)
    ensures IsStableSortOf(Apply(es, op), Record(arrivals, op))
    ensures DistinctIds(Apply(es, op))
  {
    var id := if op.Add? then op.e.id else op.id;
    assert Has(es, id) <==> Has(arrivals, id) by {
      if Has(es, id) {
        SameIds(es, arrivals, id);
      } else if Has(arrivals, id) {
        SameIds(arrivals, es, id);
      }
    }
    match op
    case Add(e) => AddIsStableSort(es, arrivals, e);
    case Delete(_) => DeleteIsStableSort(es, arrivals, id);
  }

  lemma InsertKeepsDistinct(es: seq<Entry>, u: nat, e: Entry)
    requires DistinctIds(es) && u <= |es| && !Has(es, e.id)
    ensures DistinctIds(InsertAt(es, u, e))
  {
    var grown := InsertAt(es, u, e);
    forall i, j | 0 <= i < j < |grown|
      ensures grown[i].id != grown[j].id
    {
      assert grown[i] == if i < u then es[i] else if i == u then e else es[i - 1];
      assert grown[j] == if j < u then es[j] else if j == u then e else es[j - 1];
    }
  }

  lemma AddIsStableSort(es: seq<Entry>, arrivals: seq<Entry>, e: Entry)
    requires IsStableSortOf(es, arrivals) && DistinctIds(es)
    requires Has(es, e.id) <==> Has(arrivals, e.id)
    ensures IsStableSortOf(Apply(es, Add(e)), Record(arrivals, Add(e)))
    ensures DistinctIds(Apply(es, Add(e)))
  {
    if !Has(es, e.id) {
      InsertKeepsStable(es, arrivals, e);
      InsertKeepsDistinct(es, UpperBound(Millis(es), e.Milli()), e);
    }
  }

  lemma DeleteIsStableSort(es: seq<Entry>, arrivals: seq<Entry>, id: nat)
    requires IsStableSortOf(es, arrivals) && DistinctIds(es) && FindsOwn(es, Delete(id))
    requires Has(es, id) <==> Has(arrivals, id)
    ensures IsStableSortOf(Apply(es, Delete(id)), Record(arrivals, Delete(id)))
    ensures DistinctIds(Apply(es, Delete(id)))
  {
    if Has(es, id) {
      var own := IndexOf(es, id);
      OwnIsApplied(es, own);
      RemoveKeepsStable(es, arrivals, own);
    } else {
      WithoutOthers(arrivals, id);
    }
  }

  lemma OwnIsApplied(es: seq<Entry>, own: nat)
    requires own < |es| && Sorted(es) && DistinctIds(es) && Unobstructed(es, own)
    requires Has(es, es[own].id) && IndexOf(es, es[own].id) == own
    ensures Apply(es, Delete(es[own].id)) == RemoveAt(es, own) && DistinctIds(RemoveAt(es, own))
  {
    DeleteHitsOwnEntryIff(es, own);
  }
}
