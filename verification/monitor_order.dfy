/** In every run the slice is the stable sort of the listed requests in the order of their listing. */
module MonitorOrder {
  import opened Wrappers
  import opened Types
  import opened RetryOrder
  import opened Sequences
  import opened MonitorMachine
  import opened MonitorSafety
  import O = StableOrder

  /** The call on the list that a step makes, if it makes one. */
  function ListCall(s: State, a: Action): Option<O.Op>
    requires Wf(s)
  {
    if a.Advance? && a.i < |s.threads| && s.threads[a.i].Listing? then
      Some(O.Add(s.heap[s.threads[a.i].ref].ToEntry()))
    else if a.Advance? && a.i < |s.threads| && s.threads[a.i].Deleting? then
      Some(O.Delete(s.heap[s.threads[a.i].ref].l2Tx.id))
    else if a.Dispatch? && (s.disp.Discarding? || s.disp.Dropping?) then
      Some(O.Delete(s.heap[s.disp.ref].l2Tx.id))
    else None
  }

  /** The calls of the first `n` steps of a run, in their order. */
  ghost function Calls(states: seq<State>, steps: seq<Action>, n: nat): seq<O.Op>
    requires n <= |steps| < |states|
  {
    if n == 0 then []
    else
      var before := Calls(states, steps, n - 1);
      if Wf(states[n - 1]) && ListCall(states[n - 1], steps[n - 1]).Some?
      then before + [ListCall(states[n - 1], steps[n - 1]).value] else before
  }

  lemma EntriesAreDistinct(s: State)
    requires Wf(s) && Conserved(s) && Mapped(s)
    ensures DistinctIds(Entries(s))
  {
    forall i, j | 0 <= i < j < |s.sorted|
      ensures Entries(s)[i].id != Entries(s)[j].id
    {
      ListedIsTracked(s, j);
    }
  }

  lemma ListedIffHas(s: State, id: nat)
    requires Wf(s) && Mapped(s)
    ensures id in s.list <==> O.Has(Entries(s), id)
  {
    if id in s.list {
      var i :| 0 <= i < |s.sorted| && s.sorted[i] == s.list[id];
      assert Entries(s)[i].id == id;
    }
  }

  lemma SameEntries(s: State, s': State)
    requires Wf(s) && Wf(s') && SameList(s, s')
    ensures Entries(s') == Entries(s)
  {
  }

  lemma InsertedEntries(s: State, s': State, r: Ref)
    requires Wf(s) && Wf(s') && r < |s.heap| && Mapped(s) && Covered(s) && s.heap[r].l2Tx.id !in s.list
    requires Inserted(s, s', r, UpperBound(Keys(s), s.heap[r].Milli()))
    ensures Entries(s') == O.Apply(Entries(s), O.Add(s.heap[r].ToEntry()))
  {
    var u, e := UpperBound(Keys(s), s.heap[r].Milli()), s.heap[r].ToEntry();
    ComparatorsAreSafe(s);
    ListedIffHas(s, e.id);
    forall k | 0 <= k < |s'.sorted|
      ensures Entries(s')[k] == InsertAt(Entries(s), u, e)[k]
    {
      InsertedEntryAt(s, s', r, u, k);
    }
    assert Entries(s') == InsertAt(Entries(s), u, e);
  }

  lemma InsertedEntryAt(s: State, s': State, r: Ref, u: nat, k: nat)
    requires Wf(s) && Wf(s') && r < |s.heap| && Inserted(s, s', r, u) && k < |s'.sorted|
    ensures Entries(s')[k] == InsertAt(Entries(s), u, s.heap[r].ToEntry())[k]
  {
    assert s'.sorted[k] == if k < u then s.sorted[k] else if k == u then r else s.sorted[k - 1];
  }

  /** The dispatcher's delete, on values: nothing obstructs the search for the first of a millisecond. */
  lemma FirstIsApplied(es: seq<Entry>, g: nat)
    requires g < |es| && Sorted(es) && DistinctIds(es)
    requires forall m :: 0 <= m < g ==> es[m].Milli() < es[g].Milli()
    ensures O.FindsOwn(es, O.Delete(es[g].id)) && O.Apply(es, O.Delete(es[g].id)) == RemoveAt(es, g)
  {
    assert O.Has(es, es[g].id);
    assert O.IndexOf(es, es[g].id) == g;
    FirstOfMilliIsHit(es, g);
  }

  lemma RemovedEntries(s: State, s': State, g: nat)
    requires Wf(s) && Wf(s') && g < |s.sorted| && Removed(s, s', g)
    ensures Entries(s') == RemoveAt(Entries(s), g)
  {
  }

  /** Each step does to the entries what its call on the list says; each delete that finds an id finds its own entry. */
  lemma EntriesNext(cfg: Config, s: State, a: Action)
    requires Inv(cfg, s) && Enabled(cfg, s, a)
    ensures Wf(Apply(cfg, s, a))
    ensures ListCall(s, a) == None ==> Entries(Apply(cfg, s, a)) == Entries(s)
    ensures ListCall(s, a).Some? ==>
              && O.FindsOwn(Entries(s), ListCall(s, a).value)
              && Entries(Apply(cfg, s, a)) == O.Apply(Entries(s), ListCall(s, a).value)
  {
    ListCallsWork(cfg, s, a);
    WfNext(cfg, s, a);
    if ChangesList(s, a) {
      if a.Advance? {
        ThreadAdds(cfg, s, a.i);
      } else {
        DispatcherDeletes(cfg, s, a.ok);
      }
    } else {
      WritesMissTheList(cfg, s, a);
      SameEntries(s, Apply(cfg, s, a));
      if a.Advance? && s.threads[a.i].Deleting? {
        WorkerDeletesNothing(cfg, s, a.i);
      }
    }
  }

  lemma WorkerDeletesNothing(cfg: Config, s: State, i: nat)
    requires Inv(cfg, s) && i < |s.threads| && s.threads[i].Deleting?
    ensures
      var op := O.Delete(s.heap[s.threads[i].ref].l2Tx.id);
      O.FindsOwn(Entries(s), op) && O.Apply(Entries(s), op) == Entries(s)
  {
    AddIsAccepted(cfg, s, i);
    ListedIffHas(s, s.heap[s.threads[i].ref].l2Tx.id);
  }

  lemma ThreadAdds(cfg: Config, s: State, i: nat)
    requires Inv(cfg, s) && Enabled(cfg, s, Advance(i)) && s.threads[i].Listing?
    ensures Wf(Apply(cfg, s, Advance(i)))
    ensures Entries(Apply(cfg, s, Advance(i))) == O.Apply(Entries(s), O.Add(s.heap[s.threads[i].ref].ToEntry()))
  {
    ListCallsWork(cfg, s, Advance(i));
    WfNext(cfg, s, Advance(i));
    AddStep(cfg, s, i);
    InsertedEntries(s, Apply(cfg, s, Advance(i)), s.threads[i].ref);
  }

  lemma DispatcherDeletes(cfg: Config, s: State, ok: bool)
    requires Inv(cfg, s) && Enabled(cfg, s, Dispatch(ok)) && (s.disp.Discarding? || s.disp.Dropping?)
    ensures Wf(Apply(cfg, s, Dispatch(ok)))
    ensures
      var op := O.Delete(s.heap[s.disp.ref].l2Tx.id);
      O.FindsOwn(Entries(s), op) && Entries(Apply(cfg, s, Dispatch(ok))) == O.Apply(Entries(s), op)
  {
    ListCallsWork(cfg, s, Dispatch(ok));
    WfNext(cfg, s, Dispatch(ok));
    var g: nat :| FirstOfMilliAt(s, s.disp.ref, g);
    DeleteStep(cfg, s, ok, g);
    RemovedEntries(s, Apply(cfg, s, Dispatch(ok)), g);
    EntriesAreDistinct(s);
    FirstIsApplied(Entries(s), g);
  }

  lemma OrderNext(cfg: Config, s: State, a: Action, arrivals: seq<Entry>)
    requires Inv(cfg, s) && Enabled(cfg, s, a) && O.IsStableSortOf(Entries(s), arrivals)
    ensures Wf(Apply(cfg, s, a))
    ensures
      var es := Entries(Apply(cfg, s, a));
      O.IsStableSortOf(es, match ListCall(s, a) case None => arrivals case Some(op) => O.Record(arrivals, op))
  {
    EntriesNext(cfg, s, a);
    if ListCall(s, a).Some? {
      EntriesAreDistinct(s);
      O.StepIsStableSort(Entries(s), arrivals, ListCall(s, a).value);
    }
  }

  /**
   In every run, whatever the interleaving: the slice is the stable sort by millisecond of the requests that
   were listed and not deleted, in the order of their listing; it is what the calls on the list, made one
   after the other on values, leave; and it has each id once.
   */
  lemma {:induction false} RunIsStableSort(cfg: Config, states: seq<State>, steps: seq<Action>, n: nat)
    requires Run(cfg, states, steps) && DisciplinedRun(states, steps) && n < |states|
    ensures Wf(states[n]) && DistinctIds(Entries(states[n]))
    ensures O.IsStableSortOf(Entries(states[n]), O.RecordAll([], Calls(states, steps, n)))
    ensures Entries(states[n]) == O.ApplyAll([], Calls(states, steps, n))
  {
    RunInv(cfg, states, steps, n);
    EntriesAreDistinct(states[n]);
    if n > 0 {
      RunIsStableSort(cfg, states, steps, n - 1);
      RunInv(cfg, states, steps, n - 1);
      var s, a, ops := states[n - 1], steps[n - 1], Calls(states, steps, n - 1);
      OrderNext(cfg, s, a, O.RecordAll([], ops));
      EntriesNext(cfg, s, a);
      CallsExtend(ops, ListCall(s, a));
    }
  }

  /** So in every run no listed request is due a millisecond, 10^6 nanoseconds, or more before one in front of it. */
  lemma RunIsSortedInTime(cfg: Config, states: seq<State>, steps: seq<Action>, n: nat)
    requires Run(cfg, states, steps) && DisciplinedRun(states, steps) && n < |states|
    ensures Wf(states[n])
    ensures
      var s := states[n];
      forall i, j :: 0 <= i < j < |s.sorted| ==>
                       s.heap[s.sorted[i]].nextRetry < s.heap[s.sorted[j]].nextRetry + 1_000_000
  {
    RunInv(cfg, states, steps, n);
    var s := states[n];
    forall i, j | 0 <= i < j < |s.sorted|
      ensures s.heap[s.sorted[i]].nextRetry < s.heap[s.sorted[j]].nextRetry + 1_000_000
    {
      EarlierMilliIsEarlier(s.heap[s.sorted[i]].nextRetry, s.heap[s.sorted[j]].nextRetry);
    }
  }

  lemma CallsExtend(ops: seq<O.Op>, call: Option<O.Op>)
    ensures call.Some? ==>
              && O.RecordAll([], ops + [call.value]) == O.Record(O.RecordAll([], ops), call.value)
              && O.ApplyAll([], ops + [call.value]) == O.Apply(O.ApplyAll([], ops), call.value)
  {
    if call.Some? {
      assert (ops + [call.value])[..|ops|] == ops;
    }
  }
}
