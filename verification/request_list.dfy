/** The monitor's retry list as the code keeps it: a map by id, a sorted slice, and shared request objects. */
module RequestList {
  import opened Wrappers
  import opened Types
  import opened RetryOrder
  import opened Sequences
  import opened StableOrder

  class MonitorRequest {
    const l2Tx: L2Transaction
    var nextRetry: int

    constructor (l2Tx: L2Transaction, nextRetry: int)
      ensures this.l2Tx == l2Tx && this.nextRetry == nextRetry
    {
      this.l2Tx := l2Tx;
      this.nextRetry := nextRetry;
    }

    function ToEntry(): Entry
      reads this
    {
      Entry(l2Tx.id, l2Tx.hash, nextRetry)
    }
  }

  function EntriesOf(requests: seq<MonitorRequest>): (es: seq<Entry>)
    reads requests
    ensures |es| == |requests|
    ensures forall i :: 0 <= i < |requests| ==> es[i] == requests[i].ToEntry()
  {
    seq(|requests|, i requires 0 <= i < |requests| reads requests => requests[i].ToEntry())
  }

  /** The keys a comparator sees: it goes from the slice to the map by id, and reads the object found there. */
  function KeysOf(list: map<nat, MonitorRequest>, requests: seq<MonitorRequest>): (keys: seq<int>)
    requires forall r :: r in requests ==> r.l2Tx.id in list
    reads list.Values
    ensures |keys| == |requests|
    ensures forall i :: 0 <= i < |requests| ==> keys[i] == UnixMilli(list[requests[i].l2Tx.id].nextRetry)
  {
    seq(|requests|, i requires 0 <= i < |requests| && requests[i].l2Tx.id in list reads list.Values =>
      UnixMilli(list[requests[i].l2Tx.id].nextRetry))
  }

  /** The map leads from the id to a request of that id in the slice. */
  predicate Leads(list: map<nat, MonitorRequest>, sorted: seq<MonitorRequest>, id: nat)
    requires id in list
  {
    list[id].l2Tx.id == id && list[id] in sorted
  }

  /** Map and slice hold the same objects, each id once. */
  ghost predicate Agrees(list: map<nat, MonitorRequest>, sorted: seq<MonitorRequest>)
  {
    && (forall i :: 0 <= i < |sorted| ==> sorted[i].l2Tx.id in list && list[sorted[i].l2Tx.id] == sorted[i])
    && (forall i, j :: 0 <= i < j < |sorted| ==> sorted[i].l2Tx.id != sorted[j].l2Tx.id)
    && (forall id {:trigger Leads(list, sorted, id)} :: id in list ==> Leads(list, sorted, id))
  }

  lemma AgreedEntries(list: map<nat, MonitorRequest>, sorted: seq<MonitorRequest>)
    requires Agrees(list, sorted)
    ensures DistinctIds(EntriesOf(sorted))
    ensures KeysOf(list, sorted) == Millis(EntriesOf(sorted))
    ensures forall id :: id in list <==> Has(EntriesOf(sorted), id)
  {
    var es := EntriesOf(sorted);
    forall id | id in list
      ensures Has(es, id)
    {
      assert Leads(list, sorted, id);
      var i :| 0 <= i < |sorted| && sorted[i] == list[id];
      assert es[i].id == id;
    }
  }

  lemma AgreedKeys(list: map<nat, MonitorRequest>, sorted: seq<MonitorRequest>, id: nat)
    requires forall r :: r in sorted ==> r.l2Tx.id in list
    ensures Agrees(list, sorted) ==>
              KeysOf(list, sorted) == Millis(EntriesOf(sorted)) && (id in list <==> Has(EntriesOf(sorted), id))
  {
    if Agrees(list, sorted) {
      AgreedEntries(list, sorted);
    }
  }

  lemma EntriesOfInsert(sorted: seq<MonitorRequest>, u: nat, request: MonitorRequest)
    requires u <= |sorted|
    ensures EntriesOf(InsertAt(sorted, u, request)) == InsertAt(EntriesOf(sorted), u, request.ToEntry())
  {
    var grown := InsertAt(sorted, u, request);
    var es, want := EntriesOf(grown), InsertAt(EntriesOf(sorted), u, request.ToEntry());
    forall j | 0 <= j < |grown|
      ensures es[j] == want[j]
    {
      assert es[j] == grown[j].ToEntry();
    }
  }

  lemma EntriesOfRemove(sorted: seq<MonitorRequest>, own: nat)
    requires own < |sorted|
    ensures EntriesOf(RemoveAt(sorted, own)) == RemoveAt(EntriesOf(sorted), own)
  {
  }

  lemma AddKeepsAgreement(list: map<nat, MonitorRequest>, sorted: seq<MonitorRequest>, request: MonitorRequest, u: nat)
    requires Agrees(list, sorted) && request.l2Tx.id !in list && u <= |sorted|
    ensures Agrees(list[request.l2Tx.id := request], InsertAt(sorted, u, request))
  {
    var more, grown := list[request.l2Tx.id := request], InsertAt(sorted, u, request);
    forall id | id in more
      ensures Leads(more, grown, id)
    {
      if id == request.l2Tx.id {
        assert grown[u] == request;
      } else {
        assert Leads(list, sorted, id);
        var i :| 0 <= i < |sorted| && sorted[i] == list[id];
        assert grown[if i < u then i else i + 1] == list[id];
      }
    }
  }

  lemma DeleteKeepsAgreement(list: map<nat, MonitorRequest>, sorted: seq<MonitorRequest>, own: nat)
    requires Agrees(list, sorted) && own < |sorted|
    ensures Agrees(list - {sorted[own].l2Tx.id}, RemoveAt(sorted, own))
  {
    var less, shrunk := list - {sorted[own].l2Tx.id}, RemoveAt(sorted, own);
    forall id | id in less
      ensures Leads(less, shrunk, id)
    {
      assert Leads(list, sorted, id);
      var i :| 0 <= i < |sorted| && sorted[i] == list[id];
      assert shrunk[if i < own then i else i - 1] == list[id];
    }
  }

  /** A validated list stays valid under `add`, which is then the insertion of the value-level list. */
  lemma AddKeepsValid(list: map<nat, MonitorRequest>, sorted: seq<MonitorRequest>, arrivals: seq<Entry>,
                      request: MonitorRequest, grown: seq<MonitorRequest>)
    requires Agrees(list, sorted) && IsStableSortOf(EntriesOf(sorted), arrivals) && request.l2Tx.id !in list
    requires grown == InsertAt(sorted, UpperBound(Millis(EntriesOf(sorted)), UnixMilli(request.nextRetry)), request)
    ensures Agrees(list[request.l2Tx.id := request], grown)
    ensures EntriesOf(grown) == Insert(EntriesOf(sorted), request.ToEntry())
    ensures IsStableSortOf(EntriesOf(grown), arrivals + [request.ToEntry()])
  {
    var u := UpperBound(Millis(EntriesOf(sorted)), UnixMilli(request.nextRetry));
    AgreedEntries(list, sorted);
    AddKeepsAgreement(list, sorted, request, u);
    EntriesOfInsert(sorted, u, request);
    InsertKeepsStable(EntriesOf(sorted), arrivals, request.ToEntry());
  }

  /** The request was inserted behind everything due in its millisecond or earlier, before everything later. */
  predicate LandsBehind(sorted: seq<MonitorRequest>, request: MonitorRequest, grown: seq<MonitorRequest>)
    reads sorted, request
  {
    exists u: nat ::
      && u <= |sorted| && grown == InsertAt(sorted, u, request)
      && forall i :: 0 <= i < |sorted| ==> (i < u <==> sorted[i].nextRetry / 1_000_000 <= request.nextRetry / 1_000_000)
  }

  /** The place of an insertion, in time: behind everything due in the same millisecond or an earlier one. */
  lemma InsertedBehind(sorted: seq<MonitorRequest>, arrivals: seq<Entry>, request: MonitorRequest)
    requires IsStableSortOf(EntriesOf(sorted), arrivals)
    ensures
      var u := UpperBound(Millis(EntriesOf(sorted)), UnixMilli(request.nextRetry));
      && u <= |sorted|
      && forall i :: 0 <= i < |sorted| ==> (i < u <==> sorted[i].nextRetry / 1_000_000 <= request.nextRetry / 1_000_000)
  {
    UpperBoundSplits(Millis(EntriesOf(sorted)), UnixMilli(request.nextRetry));
    forall i | 0 <= i < |sorted|
      ensures Millis(EntriesOf(sorted))[i] == sorted[i].nextRetry / 1_000_000
    {
      assert EntriesOf(sorted)[i].Milli() == UnixMilli(sorted[i].nextRetry);
    }
  }

  /** No request of a valid list is due a millisecond or more before one in front of it. */
  lemma SortedInTime(l: MonitorRequestList)
    requires l.Valid()
    ensures
      var sorted := l.sorted;
      forall i, j :: 0 <= i < j < |sorted| ==> sorted[i].nextRetry < sorted[j].nextRetry + 1_000_000
  {
    var sorted := l.sorted;
    forall i, j | 0 <= i < j < |sorted|
      ensures sorted[i].nextRetry < sorted[j].nextRetry + 1_000_000
    {
      assert EntriesOf(sorted)[i].Milli() <= EntriesOf(sorted)[j].Milli();
      EarlierMilliIsEarlier(sorted[i].nextRetry, sorted[j].nextRetry);
    }
  }

  /** A validated list stays valid under a `delete` that removes the requested id's own entry. */
  lemma DeleteKeepsValid(list: map<nat, MonitorRequest>, sorted: seq<MonitorRequest>, arrivals: seq<Entry>, own: nat)
    requires Agrees(list, sorted) && IsStableSortOf(EntriesOf(sorted), arrivals) && own < |sorted|
    ensures
      var id := sorted[own].l2Tx.id;
      var shrunk := RemoveAt(sorted, own);
      && Agrees(list - {id}, shrunk)
      && EntriesOf(shrunk) == RemoveAt(EntriesOf(sorted), own)
      && IsStableSortOf(EntriesOf(shrunk), Without(arrivals, id))
  {
    AgreedEntries(list, sorted);
    DeleteKeepsAgreement(list, sorted, own);
    EntriesOfRemove(sorted, own);
    RemoveKeepsStable(EntriesOf(sorted), arrivals, own);
  }

  /** The two together, where the list was valid before. */
  lemma AddMayKeepValid(list: map<nat, MonitorRequest>, sorted: seq<MonitorRequest>, arrivals: seq<Entry>,
                        request: MonitorRequest, grown: seq<MonitorRequest>)
    requires request.l2Tx.id !in list
    requires Agrees(list, sorted) && IsStableSortOf(EntriesOf(sorted), arrivals) ==>
               grown == InsertAt(sorted, UpperBound(Millis(EntriesOf(sorted)), UnixMilli(request.nextRetry)), request)
    ensures Agrees(list, sorted) && IsStableSortOf(EntriesOf(sorted), arrivals) ==>
              && Agrees(list[request.l2Tx.id := request], grown)
              && EntriesOf(grown) == Insert(EntriesOf(sorted), request.ToEntry())
              && IsStableSortOf(EntriesOf(grown), arrivals + [request.ToEntry()])
              && LandsBehind(sorted, request, grown)
  {
    if Agrees(list, sorted) && IsStableSortOf(EntriesOf(sorted), arrivals) {
      AddKeepsValid(list, sorted, arrivals, request, grown);
      InsertedBehind(sorted, arrivals, request);
    }
  }

  lemma DeleteMayKeepValid(list: map<nat, MonitorRequest>, sorted: seq<MonitorRequest>, arrivals: seq<Entry>, i: nat)
    requires i < |sorted|
    ensures Agrees(list, sorted) && IsStableSortOf(EntriesOf(sorted), arrivals) ==>
              && Agrees(list - {sorted[i].l2Tx.id}, RemoveAt(sorted, i))
              && IsStableSortOf(EntriesOf(RemoveAt(sorted, i)), Without(arrivals, sorted[i].l2Tx.id))
  {
    if Agrees(list, sorted) && IsStableSortOf(EntriesOf(sorted), arrivals) {
      DeleteKeepsValid(list, sorted, arrivals, i);
    }
  }

  class MonitorRequestList {
    var list: map<nat, MonitorRequest>
    var sorted: seq<MonitorRequest>

    /** History: the entries that were added and not deleted, in order of arrival. */
    ghost var arrivals: seq<Entry>

    /** No comparator call can dereference a missing map entry. */
    predicate Covered()
      reads this
    {
      forall r :: r in sorted ==> r.l2Tx.id in list
    }

    function Entries(): (es: seq<Entry>)
      reads this, sorted
      ensures |es| == |sorted|
    {
      EntriesOf(sorted)
    }

    function Keys(): (keys: seq<int>)
      requires Covered()
      reads this, list.Values
      ensures |keys| == |sorted|
    {
      KeysOf(list, sorted)
    }

    /** Map and slice agree object for object, and the slice is the stable sort of who is waiting. */
    ghost predicate Valid()
      reads this, sorted
    {
      Agrees(list, sorted) && IsStableSortOf(Entries(), arrivals)
    }

    constructor ()
      ensures Valid() && sorted == [] && arrivals == []
    {
      list := map[];
      sorted := [];
      arrivals := [];
    }

    /** Adds the request unless its id is present: after the entries of the same millisecond. */
    method Add(request: MonitorRequest) returns (added: bool)
      requires Covered()
      modifies this
      ensures added <==> request.l2Tx.id !in old(list)
      ensures !added ==> list == old(list) && sorted == old(sorted) && arrivals == old(arrivals)
      ensures added ==>
                && list == old(list)[request.l2Tx.id := request]
                && sorted == InsertAt(old(sorted), UpperBound(old(Keys()), UnixMilli(request.nextRetry)), request)
                && arrivals == old(arrivals) + [request.ToEntry()]
      ensures old(Valid()) ==>
                && Valid()
                && Entries() == (if Has(old(Entries()), request.l2Tx.id) then old(Entries())
                                 else Insert(old(Entries()), request.ToEntry()))
                && (added ==> LandsBehind(old(sorted), request, sorted))
    {
      ghost var list0, sorted0, arrivals0, keys, es := list, sorted, arrivals, Keys(), Entries();
      AgreedKeys(list, sorted, request.l2Tx.id);
      if request.l2Tx.id !in list {
        list := list[request.l2Tx.id := request];
        assert Keys() == keys;
        AddSort(request);
        arrivals := arrivals + [request.ToEntry()];
        added := true;
        assert EntriesOf(sorted0) == es;
        AddMayKeepValid(list0, sorted0, arrivals0, request, sorted);
      } else {
        added := false;
      }
    }

    method AddSort(request: MonitorRequest)
      requires Covered()
      modifies this`sorted
      ensures sorted == InsertAt(old(sorted), UpperBound(old(Keys()), UnixMilli(request.nextRetry)), request)
    {
      var i := UpperBound(Keys(), UnixMilli(request.nextRetry));
      var n := |sorted|;
      var grown: seq<MonitorRequest?> := sorted + [null];
      grown := grown[..i + 1] + grown[i..n];
      grown := grown[i := request];
      assert grown == InsertAt(sorted, i, request);
      sorted := grown;
    }

    /**
     Removes the slice entry the scan finds for the object stored under the request's id, and that id from
     the map; returns false and changes nothing when the id is absent or the scan finds no entry.
     */
    method Delete(request: MonitorRequest) returns (deleted: bool)
      requires Covered()
      modifies this
      ensures deleted <==>
                && request.l2Tx.id in old(list)
                && Locate(old(Keys()), old(Entries()), old(list[request.l2Tx.id].ToEntry())).Some?
      ensures !deleted ==> list == old(list) && sorted == old(sorted) && arrivals == old(arrivals)
      ensures deleted ==>
                var hit := Locate(old(Keys()), old(Entries()), old(list[request.l2Tx.id].ToEntry())).value;
                && list == old(list) - {request.l2Tx.id}
                && sorted == RemoveAt(old(sorted), hit)
                && arrivals == Without(old(arrivals), request.l2Tx.id)
                && (old(Valid()) && old(sorted)[hit].l2Tx.id == request.l2Tx.id ==> Valid())
    {
      if request.l2Tx.id in list {
        var stored := list[request.l2Tx.id];
        var n := |sorted|;
        var i := LowerBound(Keys(), UnixMilli(stored.nextRetry));
        ghost var list0, sorted0, arrivals0, es, e := list, sorted, arrivals, Entries(), stored.ToEntry();
        while true
          invariant i <= n
          invariant Scan(es, i, e) == Locate(old(Keys()), es, e)
          invariant list == old(list) && sorted == old(sorted) && arrivals == old(arrivals)
          decreases n - i
        {
          if i == n {
            return false;
          }
          if sorted[i].nextRetry != stored.nextRetry {
            return false;
          }
          if sorted[i].l2Tx.hash == stored.l2Tx.hash {
            break;
          }
          i := i + 1;
        }
        list := list - {request.l2Tx.id};
        var shifted := sorted[..i] + sorted[i + 1..] + [sorted[n - 1]];
        sorted := shifted[..n - 1];
        assert sorted == RemoveAt(old(sorted), i);
        arrivals := Without(arrivals, request.l2Tx.id);
        deleted := true;
        assert EntriesOf(sorted0) == es;
        DeleteMayKeepValid(list0, sorted0, arrivals0, i);
      } else {
        deleted := false;
      }
    }

    method GetByIndex(i: nat) returns (request: MonitorRequest)
      requires i < |sorted|
      ensures request == sorted[i]
    {
      request := sorted[i];
    }

    method Len() returns (n: nat)
      ensures n == |sorted|
    {
      n := |sorted|;
    }
  }
}
