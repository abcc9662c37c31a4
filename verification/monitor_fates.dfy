/** What the monitor writes to a row, and how that is tied to where the row's request is. */
module MonitorFates {
  import opened Wrappers
  import opened Types
  import opened Sequences
  import opened MonitorMachine
  import opened MonitorSafety
  import opened MonitorTiming

  datatype Write = Write(id: nat, status: Status)

  /** The status update of the step that succeeds, if there is one. */
  function Wrote(s: State, a: Action): Option<Write>
    requires Wf(s)
  {
    match a
    case Record(i, ok) =>
      if ok && i < |s.threads| && s.threads[i].Writing?
      then Some(Write(s.heap[s.threads[i].ref].l2Tx.id, s.threads[i].status)) else None
    case Dispatch(ok) =>
      if ok && s.disp.Expiring? then Some(Write(s.heap[s.disp.ref].l2Tx.id, Expired)) else None
    case _ => None
  }

  predicate Final(status: Status) {
    status.Confirmed? || status.Failed? || status.Expired?
  }

  predicate ThreadFits(heap: seq<Request>, t: Thread)
    requires t.Holds() ==> t.ref < |heap|
  {
    && (t.Holds() ==> if t.Deleting? then heap[t.ref].fate.Settled? else heap[t.ref].fate.Watched?)
    && (t.Writing? ==> Final(t.status))
  }

  /** A request leaves the monitor's hands only after a final status was written, or its expiry write failed. */
  ghost predicate Fated(s: State)
    requires Wf(s)
  {
    && (forall i :: 0 <= i < |s.threads| ==> ThreadFits(s.heap, s.threads[i]))
    && (forall r: Ref :: r < |s.heap| && (r in s.blocked || r in s.queue) ==> s.heap[r].fate.Watched?)
    && (forall r: Ref :: r < |s.heap| && r in s.sorted ==> s.heap[r].fate.Watched? || s.disp == Discarding(r))
    && (forall r: Ref :: r < |s.heap| && r in s.finished ==> !s.heap[r].fate.Watched?)
    && (s.disp.Discarding? ==> !s.heap[s.disp.ref].fate.Watched?)
    && (s.disp.Requeueing? ==> s.heap[s.disp.ref].fate.Watched?)
    && (forall r: Ref :: r < |s.heap| && s.heap[r].fate.Settled? ==> Final(s.heap[r].fate.status))
  }

  /** The fate of a request after a step: unchanged, or what the step wrote to its row. */
  function FateAfter(s: State, a: Action, r: Ref): Fate
    requires Wf(s) && r < |s.heap|
  {
    if a.Record? && a.ok && a.i < |s.threads| && s.threads[a.i].Writing? && s.threads[a.i].ref == r
    then Settled(s.threads[a.i].status)
    else if a.Dispatch? && s.disp == Expiring(r) then (if a.ok then Settled(Expired) else Forsaken)
    else s.heap[r].fate
  }

  lemma FateSteps(cfg: Config, s: State, a: Action, r: Ref)
    requires Wf(s) && Enabled(cfg, s, a) && r < |s.heap|
    ensures r < |Apply(cfg, s, a).heap| && Apply(cfg, s, a).heap[r].fate == FateAfter(s, a, r)
  {
    HeapGrows(cfg, s, a);
    if a.Advance? {
      AdvanceKeepsFate(cfg, s, a.i, r);
    } else if a.Dispatch? {
      DispatchFate(cfg, s, a.ok, r);
    }
  }

  lemma AdvanceKeepsFate(cfg: Config, s: State, i: nat, r: Ref)
    requires Wf(s) && Enabled(cfg, s, Advance(i)) && r < |s.heap|
    ensures |AdvanceThread(cfg, s, i).heap| == |s.heap|
    ensures AdvanceThread(cfg, s, i).heap[r].fate == s.heap[r].fate
  {
  }

  lemma DispatchFate(cfg: Config, s: State, ok: bool, r: Ref)
    requires Wf(s) && Enabled(cfg, s, Dispatch(ok)) && r < |s.heap|
    ensures |AdvanceDispatcher(cfg, s, ok).heap| == |s.heap|
    ensures AdvanceDispatcher(cfg, s, ok).heap[r].fate
         == if s.disp == Expiring(r) then (if ok then Settled(Expired) else Forsaken) else s.heap[r].fate
  {
  }

  /** Where the members of the containers come from, the finished included. */
  lemma FinishedOrigin(cfg: Config, s: State, a: Action, r: Ref)
    requires Wf(s) && Enabled(cfg, s, a) && r in Apply(cfg, s, a).finished
    ensures r in s.finished || (a.Advance? && s.threads[a.i] == Deleting(r)) || (a.Dispatch? && s.disp == Discarding(r))
  {
  }

  /** A request that stops being tracked had its final status written, or its expiry write failed. */
  lemma FinishedIsFated(cfg: Config, s: State, a: Action, r: Ref)
    requires Wf(s) && Fated(s) && Enabled(cfg, s, a) && r < |s.heap| && r in Apply(cfg, s, a).finished
    ensures !s.heap[r].fate.Watched?
  {
    FinishedOrigin(cfg, s, a, r);
    if a.Advance? {
      assert ThreadFits(s.heap, s.threads[a.i]);
    }
  }

  /** A write concerns a request that is tracked, listed or held by a thread, and still watched. */
  lemma WrittenIsWatched(cfg: Config, s: State, a: Action, r: Ref)
    requires Inv(cfg, s) && Fated(s) && Enabled(cfg, s, a) && r < |s.heap| && FateAfter(s, a, r) != s.heap[r].fate
    ensures Tracked(s, r) && s.heap[r].fate.Watched?
    ensures r !in s.blocked && r !in s.queue && s.disp != Requeueing(r) && s.disp != Discarding(r)
    ensures a.Record? ==> r !in s.sorted && s.threads[a.i].Holds() && s.threads[a.i].ref == r
    ensures a.Dispatch? ==>
              r in s.sorted && forall i :: 0 <= i < |s.threads| && s.threads[i].Holds() ==> s.threads[i].ref != r
  {
    if a.Record? {
      HeldIsElsewhereAbsent(s, a.i);
      assert ThreadFits(s.heap, s.threads[a.i]);
      if s.disp.Discarding? {
        var g: nat :| FirstOfMilliAt(s, s.disp.ref, g);
        assert s.disp.ref in s.sorted;
      }
    } else {
      ExpiringIsListed(cfg, s);
    }
  }

  lemma ExpiringIsListed(cfg: Config, s: State)
    requires Inv(cfg, s) && Fated(s) && s.disp.Expiring?
    ensures
      var r := s.disp.ref;
      && r in s.sorted && Tracked(s, r) && s.heap[r].fate.Watched? && r !in s.blocked && r !in s.queue
      && forall i :: 0 <= i < |s.threads| && s.threads[i].Holds() ==> s.threads[i].ref != r
  {
    var g: nat :| FirstOfMilliAt(s, s.disp.ref, g);
    ListedIsTracked(s, g);
    ListedIsElsewhereAbsent(s, g);
  }

  /** A listed request is not in the channel, and no thread holds it. */
  lemma ListedIsElsewhereAbsent(s: State, g: nat)
    requires Wf(s) && Conserved(s) && g < |s.sorted|
    ensures
      var r := s.sorted[g];
      && r !in s.blocked && r !in s.queue
      && forall i :: 0 <= i < |s.threads| && s.threads[i].Holds() ==> s.threads[i].ref != r
  {
    var r := s.sorted[g];
    RemovedPlaces(s.sorted, g);
    assert multiset(s.sorted)[r] >= 1 && Places(s)[r] == 1;
    assert multiset(s.blocked)[r] == 0 && multiset(s.queue)[r] == 0;
    NotCountedNotIn(s.blocked, r);
    NotCountedNotIn(s.queue, r);
    forall i | 0 <= i < |s.threads| && s.threads[i].Holds()
      ensures s.threads[i].ref != r
    {
      HeldIsElsewhereAbsent(s, i);
    }
  }

  // ---------------------------------------------------------------- preservation

  lemma ThreadFitsNext(cfg: Config, s: State, a: Action, i: nat)
    requires Inv(cfg, s) && Fated(s) && Enabled(cfg, s, a) && Works(s, a)
    requires Wf(Apply(cfg, s, a)) && i < |Apply(cfg, s, a).threads|
    ensures ThreadFits(Apply(cfg, s, a).heap, Apply(cfg, s, a).threads[i])
  {
    ThreadShapes(cfg, s, a, i);
    if (a.Poll? || a.Record? || a.Advance?) && a.i == i {
      MovedThreadFits(cfg, s, a);
    } else if a.Submit? && i == |s.threads| {
      assert Apply(cfg, s, a).heap[|s.heap|].fate == Watched;
    } else if (a.Receive? || a.HandOff?) && a.i == i {
      var r := if a.Receive? then s.queue[0] else s.blocked[a.k];
      FateSteps(cfg, s, a, r);
    } else {
      assert ThreadFits(s.heap, s.threads[i]);
      if s.threads[i].Holds() {
        var r := s.threads[i].ref;
        FateSteps(cfg, s, a, r);
        HeldIsElsewhereAbsent(s, i);
        if FateAfter(s, a, r) != s.heap[r].fate {
          WrittenIsWatched(cfg, s, a, r);
        }
      }
    }
  }

  lemma MovedThreadFits(cfg: Config, s: State, a: Action)
    requires Wf(s) && Fated(s) && Enabled(cfg, s, a) && (a.Poll? || a.Record? || a.Advance?)
    requires Wf(Apply(cfg, s, a)) && a.i < |Apply(cfg, s, a).threads|
    ensures ThreadFits(Apply(cfg, s, a).heap, Apply(cfg, s, a).threads[a.i])
  {
    assert ThreadFits(s.heap, s.threads[a.i]);
    if s.threads[a.i].Holds() {
      FateSteps(cfg, s, a, s.threads[a.i].ref);
      MovedThreadShape(cfg, s, a);
    }
  }

  lemma MovedThreadShape(cfg: Config, s: State, a: Action)
    requires Wf(s) && Enabled(cfg, s, a) && (a.Poll? || a.Record? || a.Advance?) && s.threads[a.i].Holds()
    ensures |Apply(cfg, s, a).threads| == |s.threads|
    ensures
      var t, t' := s.threads[a.i], Apply(cfg, s, a).threads[a.i];
      && (t'.Holds() ==> t'.ref == t.ref && !t.Deleting?)
      && (t'.Deleting? <==> a.Record? && a.ok)
      && (t'.Writing? ==> Final(t'.status))
  {
  }

  lemma ChannelFitsNext(cfg: Config, s: State, a: Action, r: Ref)
    requires Inv(cfg, s) && Fated(s) && Enabled(cfg, s, a) && Works(s, a) && r < |Apply(cfg, s, a).heap|
    requires r in Apply(cfg, s, a).blocked || r in Apply(cfg, s, a).queue
    ensures Apply(cfg, s, a).heap[r].fate.Watched?
  {
    Origins(cfg, s, a, r);
    if a.Advance? {
      assert ThreadFits(s.heap, s.threads[a.i]);
    }
    FateSteps(cfg, s, a, r);
    if FateAfter(s, a, r) != s.heap[r].fate {
      WrittenIsWatched(cfg, s, a, r);
    }
  }

  lemma ListFitsNext(cfg: Config, s: State, a: Action, r: Ref)
    requires Inv(cfg, s) && Fated(s) && Enabled(cfg, s, a)
    ensures r < |Apply(cfg, s, a).heap| && r in Apply(cfg, s, a).sorted ==>
              Apply(cfg, s, a).heap[r].fate.Watched? || Apply(cfg, s, a).disp == Discarding(r)
  {
    if r in Apply(cfg, s, a).sorted {
      ListCallsWork(cfg, s, a);
      ListedWasWatched(cfg, s, a, r);
      DiscardingStays(cfg, s, a, r);
      FateSteps(cfg, s, a, r);
      if FateAfter(s, a, r) != s.heap[r].fate {
        WrittenIsWatched(cfg, s, a, r);
      }
    }
  }

  lemma ListedWasWatched(cfg: Config, s: State, a: Action, r: Ref)
    requires Wf(s) && Fated(s) && Enabled(cfg, s, a) && Works(s, a)
    requires r in Apply(cfg, s, a).sorted
    ensures r < |s.heap| && (s.heap[r].fate.Watched? || s.disp == Discarding(r))
  {
    Origins(cfg, s, a, r);
    if a.Advance? {
      assert ThreadFits(s.heap, s.threads[a.i]);
    }
  }

  /** The dispatcher discards what it expired, and a discarded request is listed no longer. */
  lemma DiscardingStays(cfg: Config, s: State, a: Action, r: Ref)
    requires Inv(cfg, s) && Enabled(cfg, s, a)
    ensures s.disp == Discarding(r) ==> Apply(cfg, s, a).disp == Discarding(r) || r !in Apply(cfg, s, a).sorted
    ensures a.Dispatch? && s.disp == Expiring(r) ==> Apply(cfg, s, a).disp == Discarding(r)
  {
    if a.Dispatch? && s.disp == Discarding(r) {
      DiscardedIsUnlisted(cfg, s, a.ok);
    } else if a.Dispatch? {
      ExpiringThenDiscarding(cfg, s, a.ok);
    } else {
      DispatcherStays(cfg, s, a);
    }
  }

  lemma DiscardedIsUnlisted(cfg: Config, s: State, ok: bool)
    requires Inv(cfg, s) && Enabled(cfg, s, Dispatch(ok)) && s.disp.Discarding?
    ensures s.disp.ref !in Apply(cfg, s, Dispatch(ok)).sorted
  {
    var g: nat :| FirstOfMilliAt(s, s.disp.ref, g);
    ListedIsTracked(s, g);
    DeleteStep(cfg, s, ok, g);
  }

  lemma ExpiringThenDiscarding(cfg: Config, s: State, ok: bool)
    requires Wf(s) && Enabled(cfg, s, Dispatch(ok))
    ensures s.disp.Expiring? ==> Apply(cfg, s, Dispatch(ok)).disp == Discarding(s.disp.ref)
  {
  }

  lemma DispatcherStays(cfg: Config, s: State, a: Action)
    requires Wf(s) && Enabled(cfg, s, a) && !a.Dispatch?
    ensures s.disp.Discarding? ==> Apply(cfg, s, a).disp == s.disp
  {
  }

  lemma FinishedNext(cfg: Config, s: State, a: Action, r: Ref)
    requires Inv(cfg, s) && Fated(s) && Enabled(cfg, s, a) && r < |Apply(cfg, s, a).heap|
    requires r in Apply(cfg, s, a).finished && r < |s.heap|
    ensures !Apply(cfg, s, a).heap[r].fate.Watched?
  {
    FinishedIsFated(cfg, s, a, r);
    FateSteps(cfg, s, a, r);
  }

  lemma FinishedIsOld(cfg: Config, s: State, a: Action, r: Ref)
    requires Inv(cfg, s) && Enabled(cfg, s, a) && r in Apply(cfg, s, a).finished
    ensures r < |s.heap|
  {
    FinishedOrigin(cfg, s, a, r);
    if r in s.finished {
      assert r in multiset(s.finished);
      assert Places(s)[r] >= 1;
    }
  }

  lemma DispatcherFitsNext(cfg: Config, s: State, a: Action)
    requires Inv(cfg, s) && Fated(s) && Enabled(cfg, s, a) && Wf(Apply(cfg, s, a))
    ensures
      var s' := Apply(cfg, s, a);
      && (s'.disp.Discarding? ==> !s'.heap[s'.disp.ref].fate.Watched?)
      && (s'.disp.Requeueing? ==> s'.heap[s'.disp.ref].fate.Watched?)
  {
    if a.Dispatch? {
      DispatchFits(cfg, s, a.ok);
    } else {
      DispatcherWaits(cfg, s, a);
      if s.disp.Discarding? || s.disp.Requeueing? {
        FateSteps(cfg, s, a, s.disp.ref);
        if FateAfter(s, a, s.disp.ref) != s.heap[s.disp.ref].fate {
          WrittenIsWatched(cfg, s, a, s.disp.ref);
        }
      }
    }
  }

  lemma DispatchFits(cfg: Config, s: State, ok: bool)
    requires Inv(cfg, s) && Fated(s) && Enabled(cfg, s, Dispatch(ok)) && Wf(Apply(cfg, s, Dispatch(ok)))
    ensures
      var s' := Apply(cfg, s, Dispatch(ok));
      && (s'.disp.Discarding? ==> !s'.heap[s'.disp.ref].fate.Watched?)
      && (s'.disp.Requeueing? ==> s'.heap[s'.disp.ref].fate.Watched?)
  {
    DispatcherCameFrom(cfg, s, ok);
    if s.disp.Expiring? || s.disp.Dropping? {
      FateSteps(cfg, s, Dispatch(ok), s.disp.ref);
      var g: nat :| FirstOfMilliAt(s, s.disp.ref, g);
      assert s.disp.ref in s.sorted;
    }
  }

  lemma DispatcherCameFrom(cfg: Config, s: State, ok: bool)
    requires Wf(s) && Enabled(cfg, s, Dispatch(ok))
    ensures
      var d := Apply(cfg, s, Dispatch(ok)).disp;
      && (d.Discarding? ==> s.disp == Expiring(d.ref))
      && (d.Requeueing? ==> s.disp == Dropping(d.ref))
  {
  }

  lemma FatedNext(cfg: Config, s: State, a: Action)
    requires Inv(cfg, s) && Fated(s) && Enabled(cfg, s, a) && Wf(Apply(cfg, s, a)) && Works(s, a)
    ensures Fated(Apply(cfg, s, a))
  {
    var s' := Apply(cfg, s, a);
    forall i | 0 <= i < |s'.threads|
      ensures ThreadFits(s'.heap, s'.threads[i])
    {
      ThreadFitsNext(cfg, s, a, i);
    }
    forall r: Ref | r < |s'.heap| && (r in s'.blocked || r in s'.queue)
      ensures s'.heap[r].fate.Watched?
    {
      ChannelFitsNext(cfg, s, a, r);
    }
    forall r: Ref | r < |s'.heap| && r in s'.sorted
      ensures s'.heap[r].fate.Watched? || s'.disp == Discarding(r)
    {
      ListFitsNext(cfg, s, a, r);
    }
    forall r: Ref | r < |s'.heap| && r in s'.finished
      ensures !s'.heap[r].fate.Watched?
    {
      FinishedIsOld(cfg, s, a, r);
      FinishedNext(cfg, s, a, r);
    }
    DispatcherFitsNext(cfg, s, a);
    forall r: Ref | r < |s'.heap| && s'.heap[r].fate.Settled?
      ensures Final(s'.heap[r].fate.status)
    {
      SettledIsFinal(cfg, s, a, r);
    }
  }

  lemma SettledIsFinal(cfg: Config, s: State, a: Action, r: Ref)
    requires Inv(cfg, s) && Fated(s) && Enabled(cfg, s, a)
    requires r < |Apply(cfg, s, a).heap| && Apply(cfg, s, a).heap[r].fate.Settled?
    ensures Final(Apply(cfg, s, a).heap[r].fate.status)
  {
    if r < |s.heap| {
      FateSteps(cfg, s, a, r);
      if a.Record? {
        assert ThreadFits(s.heap, s.threads[a.i]);
      }
    } else {
      HeapGrows(cfg, s, a);
    }
  }
}
