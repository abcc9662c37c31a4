/** What every step of the monitor keeps, when an id is only submitted while nothing tracks it. */
module MonitorSafety {
  import opened Wrappers
  import opened Types
  import opened RetryOrder
  import opened Sequences
  import opened MonitorMachine

  /** A created request is tracked until it is finished. */
  predicate Tracked(s: State, r: Ref) {
    r < |s.heap| && r !in s.finished
  }

  /** The assumption the code relies on: an id enters AddL2Transaction only while no request tracks it. */
  ghost predicate Disciplined(s: State, a: Action) {
    a.Submit? ==> forall r: Ref :: Tracked(s, r) ==> s.heap[r].l2Tx.id != a.l2Tx.id
  }

  ghost predicate UniqueIds(s: State) {
    forall a: Ref, b: Ref :: Tracked(s, a) && Tracked(s, b) && s.heap[a].l2Tx.id == s.heap[b].l2Tx.id ==> a == b
  }

  /** Map and slice agree reference for reference. */
  ghost predicate Mapped(s: State)
    requires Wf(s)
  {
    && (forall i :: 0 <= i < |s.sorted| ==>
          && s.heap[s.sorted[i]].l2Tx.id in s.list
          && s.list[s.heap[s.sorted[i]].l2Tx.id] == s.sorted[i])
    && (forall id :: id in s.list ==> s.heap[s.list[id]].l2Tx.id == id && s.list[id] in s.sorted)
  }

  ghost predicate Ordered(s: State)
    requires Wf(s)
  {
    forall i, j :: 0 <= i < j < |s.sorted| ==> s.heap[s.sorted[i]].Milli() <= s.heap[s.sorted[j]].Milli()
  }

  /** Position `g` of the slice holds `r`, and everything before it is of an earlier millisecond. */
  ghost predicate FirstOfMilliAt(s: State, r: Ref, g: nat)
    requires Wf(s)
  {
    && g < |s.sorted| && s.sorted[g] == r
    && forall j :: 0 <= j < g ==> s.heap[s.sorted[j]].Milli() < s.heap[r].Milli()
  }

  ghost predicate FirstOfMilli(s: State, r: Ref)
    requires Wf(s)
  {
    exists g :: FirstOfMilliAt(s, r, g)
  }

  /** The dispatcher works on a request it has read and not yet removed. */
  predicate Reading(d: Dispatcher) {
    d.Judging? || d.Expiring? || d.Discarding? || d.Dropping? || d.Sleeping?
  }

  /** The index 0 the dispatcher will read exists; the request it has read still leads its millisecond. */
  ghost predicate DispatcherReady(s: State)
    requires Wf(s)
  {
    && (s.disp.NonEmpty? || s.disp.Clocked? ==> s.sorted != [])
    && (Reading(s.disp) ==> FirstOfMilli(s, s.disp.ref))
  }

  ghost predicate Inv(cfg: Config, s: State) {
    && Wf(s) && !s.panicked
    && |s.queue| <= cfg.queueSize && |s.threads| >= cfg.workers
    && Conserved(s) && UniqueIds(s) && Mapped(s) && Ordered(s) && DispatcherReady(s)
  }

  lemma InitInv(cfg: Config, s: State)
    requires Init(cfg, s)
    ensures Inv(cfg, s)
  {
    GatherNothing(s.threads, HeldBy);
  }

  // ---------------------------------------------------------------- one place at a time

  /** A request a thread holds is nowhere else: not in the list, not in the channel, with no other thread. */
  lemma HeldIsElsewhereAbsent(s: State, i: nat)
    requires Wf(s) && Conserved(s) && i < |s.threads| && s.threads[i].Holds()
    ensures
      var r := s.threads[i].ref;
      && r !in s.sorted && r !in s.blocked && r !in s.queue && r !in s.finished
      && (s.disp.Requeueing? ==> s.disp.ref != r)
      && forall j :: 0 <= j < |s.threads| && j != i && s.threads[j].Holds() ==> s.threads[j].ref != r
  {
    var r := s.threads[i].ref;
    HeldUpdate(s.threads, i, Idle);
    assert Held(s.threads)[r] >= 1 && Places(s)[r] == 1;
    assert multiset(s.sorted)[r] == 0 && multiset(s.blocked)[r] == 0 && multiset(s.queue)[r] == 0
           && multiset(s.finished)[r] == 0;
    NotCountedNotIn(s.sorted, r);
    NotCountedNotIn(s.blocked, r);
    NotCountedNotIn(s.queue, r);
    NotCountedNotIn(s.finished, r);
    assert Held(s.threads[i := Idle])[r] == 0;
    forall j | 0 <= j < |s.threads| && j != i && s.threads[j].Holds()
      ensures s.threads[j].ref != r
    {
      HeldUpdate(s.threads[i := Idle], j, Idle);
    }
  }

  lemma ListedIsTracked(s: State, k: nat)
    requires Wf(s) && Conserved(s) && k < |s.sorted|
    ensures Tracked(s, s.sorted[k])
    ensures forall m :: 0 <= m < |s.sorted| && m != k ==> s.sorted[m] != s.sorted[k]
  {
    var r, rest := s.sorted[k], RemoveAt(s.sorted, k);
    RemovedPlaces(s.sorted, k);
    assert multiset(s.sorted)[r] >= 1 && Places(s)[r] == 1;
    assert r in s.finished ==> r in multiset(s.finished);
    assert multiset(rest)[r] == 0;
    assert r in rest ==> r in multiset(rest);
    forall m | 0 <= m < |s.sorted| && m != k
      ensures s.sorted[m] != r
    {
      assert s.sorted[m] == rest[if m < k then m else m - 1];
    }
  }

  // ---------------------------------------------------------------- what the list calls do

  /** No comparator meets an unmapped entry, and the keys it sees are those of the slice. */
  lemma ComparatorsAreSafe(s: State)
    requires Wf(s) && Mapped(s)
    ensures Covered(s) && Keys(s) == Millis(Entries(s))
  {
  }

  /** A worker, or an adder, that adds a request finds its id absent. */
  lemma AddIsAccepted(cfg: Config, s: State, i: nat)
    requires Inv(cfg, s) && i < |s.threads| && s.threads[i].Holds()
    ensures s.heap[s.threads[i].ref].l2Tx.id !in s.list
  {
    var r := s.threads[i].ref;
    HeldIsElsewhereAbsent(s, i);
    var id := s.heap[r].l2Tx.id;
    if id in s.list {
      var k :| 0 <= k < |s.sorted| && s.sorted[k] == s.list[id];
      ListedIsTracked(s, k);
      assert Tracked(s, r);
    }
  }

  /** The delete of a worker that wrote a final status changes nothing: its request is not listed. */
  lemma WorkerDeleteIsNoOp(cfg: Config, s: State, i: nat)
    requires Inv(cfg, s) && i < |s.threads| && s.threads[i].Deleting?
    ensures ListDelete(s, s.threads[i].ref) == s
  {
    AddIsAccepted(cfg, s, i);
  }

  /**
   The delete of the dispatcher removes exactly the request it read at index 0, at whatever position later
   insertions have left it: neither a different exact time in the millisecond nor a shared hash matters.
   */
  lemma DispatcherDeleteHits(s: State, g: nat)
    requires Wf(s) && Mapped(s) && Ordered(s)
    requires s.disp.Refers() && FirstOfMilliAt(s, s.disp.ref, g)
    ensures Covered(s) && ListHit(s, s.disp.ref) == Some(g)
    ensures ListDelete(s, s.disp.ref)
         == s.(list := s.list - {s.heap[s.disp.ref].l2Tx.id}, sorted := RemoveAt(s.sorted, g))
  {
    ComparatorsAreSafe(s);
    var es := Entries(s);
    FirstOfMilliIsHit(es, g);
  }

  // ---------------------------------------------------------------- aliasing

  /** The step neither changes the slice or the map nor what a listed request shows. */
  ghost predicate SameList(s: State, s': State)
    requires Wf(s)
  {
    && s'.sorted == s.sorted && s'.list == s.list
    && |s.heap| <= |s'.heap|
    && (forall r: Ref :: r < |s.heap| ==> s'.heap[r].l2Tx == s.heap[r].l2Tx)
    && (forall i :: 0 <= i < |s.sorted| ==> s'.heap[s.sorted[i]].nextRetry == s.heap[s.sorted[i]].nextRetry)
  }

  predicate ChangesList(s: State, a: Action) {
    || (a.Advance? && a.i < |s.threads| && s.threads[a.i].Listing?)
    || (a.Dispatch? && (s.disp.Discarding? || s.disp.Dropping?))
  }

  /** In-place writes to requests never reach a listed one: only `add` and the dispatcher change the list. */
  lemma WritesMissTheList(cfg: Config, s: State, a: Action)
    requires Inv(cfg, s) && Enabled(cfg, s, a) && !ChangesList(s, a)
    ensures SameList(s, Apply(cfg, s, a))
  {
    if a.Poll? || a.Record? || a.Advance? {
      ThreadWritesMissTheList(cfg, s, a);
    } else {
      OtherWritesMissTheList(cfg, s, a);
    }
  }

  lemma OtherWritesMissTheList(cfg: Config, s: State, a: Action)
    requires Wf(s) && Enabled(cfg, s, a) && !ChangesList(s, a) && !a.Poll? && !a.Record? && !a.Advance?
    ensures SameList(s, Apply(cfg, s, a))
  {
  }

  lemma ThreadWritesMissTheList(cfg: Config, s: State, a: Action)
    requires Inv(cfg, s) && Enabled(cfg, s, a) && !ChangesList(s, a)
    requires a.Poll? || a.Record? || a.Advance?
    ensures SameList(s, Apply(cfg, s, a))
  {
    if s.threads[a.i].Deleting? {
      WorkerDeleteIsNoOp(cfg, s, a.i);
      DeletingChangesNothing(cfg, s, a);
    } else if s.threads[a.i].Holds() {
      HeldIsElsewhereAbsent(s, a.i);
      assert forall i :: 0 <= i < |s.sorted| ==> s.sorted[i] != s.threads[a.i].ref;
      HeldWriteMissesTheList(cfg, s, a);
    }
  }

  lemma DeletingChangesNothing(cfg: Config, s: State, a: Action)
    requires Wf(s) && Enabled(cfg, s, a) && a.Advance? && s.threads[a.i].Deleting?
    requires ListDelete(s, s.threads[a.i].ref) == s
    ensures SameList(s, Apply(cfg, s, a))
  {
  }

  lemma HeldWriteMissesTheList(cfg: Config, s: State, a: Action)
    requires Wf(s) && Enabled(cfg, s, a) && (a.Poll? || a.Record? || a.Advance?)
    requires s.threads[a.i].Holds() && !s.threads[a.i].Deleting? && !s.threads[a.i].Listing?
    requires forall i :: 0 <= i < |s.sorted| ==> s.sorted[i] != s.threads[a.i].ref
    ensures SameList(s, Apply(cfg, s, a))
  {
  }

  // ---------------------------------------------------------------- preservation

  /** The list call of this step does what its caller means: no panic, the request added, or its own entry removed. */
  predicate Works(s: State, a: Action)
    requires Wf(s)
  {
    && (a.Advance? && a.i < |s.threads| && s.threads[a.i].Listing? ==>
          Covered(s) && s.heap[s.threads[a.i].ref].l2Tx.id !in s.list)
    && (a.Advance? && a.i < |s.threads| && s.threads[a.i].Deleting? ==>
          s.heap[s.threads[a.i].ref].l2Tx.id !in s.list)
    && (a.Dispatch? && (s.disp.Discarding? || s.disp.Dropping?) ==>
          && Covered(s) && s.heap[s.disp.ref].l2Tx.id in s.list
          && ListHit(s, s.disp.ref).Some? && s.sorted[ListHit(s, s.disp.ref).value] == s.disp.ref)
  }

  lemma ListCallsWork(cfg: Config, s: State, a: Action)
    requires Inv(cfg, s) && Enabled(cfg, s, a)
    ensures Works(s, a)
  {
    if a.Advance? && (s.threads[a.i].Listing? || s.threads[a.i].Deleting?) {
      ComparatorsAreSafe(s);
      AddIsAccepted(cfg, s, a.i);
    } else if a.Dispatch? && (s.disp.Discarding? || s.disp.Dropping?) {
      var g: nat :| FirstOfMilliAt(s, s.disp.ref, g);
      DispatcherDeleteHits(s, g);
    }
  }

  lemma WfNext(cfg: Config, s: State, a: Action)
    requires Wf(s) && Enabled(cfg, s, a) && Works(s, a)
    ensures Wf(Apply(cfg, s, a))
  {
    if a.Advance? {
      WfAdvance(cfg, s, a.i);
    } else if a.Dispatch? {
      WfDispatch(cfg, s, a.ok);
    } else if a.Poll? || a.Record? || a.Submit? {
      WfWrite(cfg, s, a);
    } else {
      WfChannel(cfg, s, a);
    }
  }

  lemma WfWrite(cfg: Config, s: State, a: Action)
    requires Wf(s) && Enabled(cfg, s, a) && (a.Poll? || a.Record? || a.Submit?)
    ensures Wf(Apply(cfg, s, a))
  {
  }

  lemma WfChannel(cfg: Config, s: State, a: Action)
    requires Wf(s) && Enabled(cfg, s, a) && (a.Tick? || a.Send? || a.Receive? || a.HandOff?)
    ensures Wf(Apply(cfg, s, a))
  {
  }

  lemma WfAdvance(cfg: Config, s: State, i: nat)
    requires Wf(s) && Enabled(cfg, s, Advance(i)) && Works(s, Advance(i))
    ensures Wf(AdvanceThread(cfg, s, i))
  {
    if s.threads[i].Deleting? {
      WfDelete(s, s.threads[i].ref);
    } else if s.threads[i].Listing? {
      WfAdd(s, s.threads[i].ref);
    } else {
      WfStatement(cfg, s, i);
    }
  }

  lemma WfAdd(s: State, r: Ref)
    requires Wf(s) && r < |s.heap|
    ensures Wf(ListAdd(s, r))
    ensures
      var t := ListAdd(s, r);
      |t.heap| == |s.heap| && t.blocked == s.blocked && t.queue == s.queue && t.threads == s.threads
  {
  }

  lemma WfStatement(cfg: Config, s: State, i: nat)
    requires Wf(s) && Enabled(cfg, s, Advance(i)) && !s.threads[i].Deleting? && !s.threads[i].Listing?
    ensures Wf(AdvanceThread(cfg, s, i))
  {
  }

  lemma WfDispatch(cfg: Config, s: State, ok: bool)
    requires Wf(s) && Enabled(cfg, s, Dispatch(ok)) && Works(s, Dispatch(ok))
    ensures Wf(AdvanceDispatcher(cfg, s, ok))
  {
    if s.disp.Discarding? || s.disp.Dropping? {
      WfDelete(s, s.disp.ref);
    } else {
      WfTurn(cfg, s, ok);
    }
  }

  lemma WfTurn(cfg: Config, s: State, ok: bool)
    requires Wf(s) && Enabled(cfg, s, Dispatch(ok)) && !s.disp.Discarding? && !s.disp.Dropping?
    ensures Wf(AdvanceDispatcher(cfg, s, ok))
  {
  }

  lemma WfDelete(s: State, r: Ref)
    requires Wf(s) && r < |s.heap|
    ensures Wf(ListDelete(s, r))
    ensures
      var t := ListDelete(s, r);
      t.heap == s.heap && t.blocked == s.blocked && t.queue == s.queue && t.threads == s.threads
  {
  }

  function Elsewhere(s: State): multiset<Ref> {
    multiset(s.sorted) + HeldByDispatcher(s.disp) + multiset(s.blocked) + multiset(s.queue) + multiset(s.finished)
  }

  lemma PlacesSplit(s: State)
    ensures Places(s) == Held(s.threads) + Elsewhere(s)
  {
  }

  /** What a thread gives up, another place receives. */
  lemma ThreadMoves(s: State, s': State, i: nat, t: Thread)
    requires i < |s.threads| && s'.threads == s.threads[i := t]
    requires HeldBy(t) + Elsewhere(s') == HeldBy(s.threads[i]) + Elsewhere(s)
    ensures Places(s') == Places(s)
  {
    HeldUpdate(s.threads, i, t);
    PlacesSplit(s);
    PlacesSplit(s');
    Rebalance(Held(s.threads), HeldBy(s.threads[i]), HeldBy(t), Elsewhere(s), Elsewhere(s'));
  }

  lemma DispatcherMoves(s: State, s': State)
    requires s'.threads == s.threads && Elsewhere(s') == Elsewhere(s)
    ensures Places(s') == Places(s)
  {
    PlacesSplit(s);
    PlacesSplit(s');
  }

  /** The containers after a step of thread `i`: the places it moved its request between. */
  predicate ThreadMoved(s: State, s': State, i: nat) {
    && i < |s.threads| && |s'.threads| == |s.threads| && s'.threads == s.threads[i := s'.threads[i]]
    && s'.queue == s.queue && (s'.disp.Requeueing? || s.disp.Requeueing? ==> s'.disp == s.disp)
    && var t, t' := s.threads[i], s'.threads[i];
       || (s'.sorted == s.sorted && s'.blocked == s.blocked && s'.finished == s.finished && HeldBy(t') == HeldBy(t))
       || (&& s'.sorted == s.sorted && s'.finished == s.finished
           && t.Holds() && !t'.Holds() && s'.blocked == s.blocked + [t.ref])
       || (&& s'.sorted == s.sorted && s'.blocked == s.blocked
           && t.Holds() && !t'.Holds() && s'.finished == s.finished + [t.ref])
       || (&& s'.blocked == s.blocked && s'.finished == s.finished && t.Holds() && !t'.Holds()
           && exists u: nat :: u <= |s.sorted| && s'.sorted == InsertAt(s.sorted, u, t.ref))
  }

  predicate DispatcherMoved(s: State, s': State) {
    && s'.threads == s.threads && s'.queue == s.queue
    && (|| (&& s'.sorted == s.sorted && s'.blocked == s.blocked && s'.finished == s.finished
            && !s.disp.Requeueing? && !s'.disp.Requeueing?)
        || (&& s'.sorted == s.sorted && s'.finished == s.finished
            && s.disp.Requeueing? && !s'.disp.Requeueing? && s'.blocked == s.blocked + [s.disp.ref])
        || (&& s'.blocked == s.blocked && !s.disp.Requeueing? && s.disp.Refers()
            && (exists j: nat :: j < |s.sorted| && s.sorted[j] == s.disp.ref && s'.sorted == RemoveAt(s.sorted, j))
            && (|| (s'.disp == Requeueing(s.disp.ref) && s'.finished == s.finished)
                || (!s'.disp.Requeueing? && s'.finished == s.finished + [s.disp.ref]))))
  }

  lemma AdvanceMoves(cfg: Config, s: State, i: nat)
    requires Wf(s) && Enabled(cfg, s, Advance(i)) && Works(s, Advance(i))
    ensures ThreadMoved(s, AdvanceThread(cfg, s, i), i)
  {
    if s.threads[i].Listing? {
      var u := UpperBound(Keys(s), s.heap[s.threads[i].ref].Milli());
      assert AdvanceThread(cfg, s, i).sorted == InsertAt(s.sorted, u, s.threads[i].ref);
    }
  }

  lemma AnswerMoves(cfg: Config, s: State, a: Action)
    requires Wf(s) && Enabled(cfg, s, a) && (a.Poll? || a.Record?)
    ensures ThreadMoved(s, Apply(cfg, s, a), a.i)
  {
  }

  lemma DispatchMoves(cfg: Config, s: State, ok: bool)
    requires Wf(s) && Enabled(cfg, s, Dispatch(ok)) && Works(s, Dispatch(ok))
    ensures DispatcherMoved(s, AdvanceDispatcher(cfg, s, ok))
  {
    if s.disp.Discarding? || s.disp.Dropping? {
      DeleteMoves(cfg, s, ok);
    } else {
      TurnMoves(cfg, s, ok);
    }
  }

  lemma TurnMoves(cfg: Config, s: State, ok: bool)
    requires Wf(s) && Enabled(cfg, s, Dispatch(ok)) && !s.disp.Discarding? && !s.disp.Dropping?
    ensures DispatcherMoved(s, AdvanceDispatcher(cfg, s, ok))
  {
  }

  lemma DeleteMoves(cfg: Config, s: State, ok: bool)
    requires Wf(s) && Enabled(cfg, s, Dispatch(ok)) && Works(s, Dispatch(ok))
    requires s.disp.Discarding? || s.disp.Dropping?
    ensures DispatcherMoved(s, AdvanceDispatcher(cfg, s, ok))
  {
    var j := ListHit(s, s.disp.ref).value;
    assert AdvanceDispatcher(cfg, s, ok).sorted == RemoveAt(s.sorted, j);
  }

  lemma ThreadMovedConserves(s: State, s': State, i: nat)
    requires ThreadMoved(s, s', i)
    ensures Places(s') == Places(s)
  {
    var t, t' := s.threads[i], s'.threads[i];
    ElsewhereBalances(s, s', i);
    ThreadMoves(s, s', i, t');
  }

  /** What the thread gives up is what the other places gain. */
  lemma ElsewhereBalances(s: State, s': State, i: nat)
    requires ThreadMoved(s, s', i)
    ensures HeldBy(s'.threads[i]) + Elsewhere(s') == HeldBy(s.threads[i]) + Elsewhere(s)
  {
    var t := s.threads[i];
    assert HeldByDispatcher(s'.disp) == HeldByDispatcher(s.disp);
    if s'.sorted != s.sorted {
      var u: nat :| u <= |s.sorted| && s'.sorted == InsertAt(s.sorted, u, t.ref);
      InsertedPlaces(s.sorted, u, t.ref);
      ListedMoves(s, s', t.ref);
      OneGivenUp(Elsewhere(s), t.ref);
    } else if s'.blocked != s.blocked {
      BlockedMoves(s, s', t.ref);
      OneGivenUp(Elsewhere(s), t.ref);
    } else if s'.finished != s.finished {
      FinishedMoves(s, s', t.ref);
      OneGivenUp(Elsewhere(s), t.ref);
    } else {
      NothingMoves(s, s');
    }
  }

  lemma OneGivenUp(bag: multiset<Ref>, r: Ref)
    ensures multiset{} + (bag + multiset{r}) == multiset{r} + bag
  {
  }

  lemma NothingMoves(s: State, s': State)
    requires s'.sorted == s.sorted && s'.blocked == s.blocked && s'.queue == s.queue && s'.finished == s.finished
    requires HeldByDispatcher(s'.disp) == HeldByDispatcher(s.disp)
    ensures Elsewhere(s') == Elsewhere(s)
  {
  }

  lemma ListedMoves(s: State, s': State, r: Ref)
    requires s'.blocked == s.blocked && s'.queue == s.queue && s'.finished == s.finished
    requires HeldByDispatcher(s'.disp) == HeldByDispatcher(s.disp)
    requires multiset(s'.sorted) == multiset(s.sorted) + multiset{r}
    ensures Elsewhere(s') == Elsewhere(s) + multiset{r}
  {
  }

  lemma BlockedMoves(s: State, s': State, r: Ref)
    requires s'.sorted == s.sorted && s'.queue == s.queue && s'.finished == s.finished
    requires HeldByDispatcher(s'.disp) == HeldByDispatcher(s.disp) && s'.blocked == s.blocked + [r]
    ensures Elsewhere(s') == Elsewhere(s) + multiset{r}
  {
  }

  lemma FinishedMoves(s: State, s': State, r: Ref)
    requires s'.sorted == s.sorted && s'.queue == s.queue && s'.blocked == s.blocked
    requires HeldByDispatcher(s'.disp) == HeldByDispatcher(s.disp) && s'.finished == s.finished + [r]
    ensures Elsewhere(s') == Elsewhere(s) + multiset{r}
  {
  }

  lemma DispatcherMovedConserves(s: State, s': State)
    requires DispatcherMoved(s, s')
    ensures Places(s') == Places(s)
  {
    if s.disp.Requeueing? {
      assert Elsewhere(s') == Elsewhere(s);
    } else if s'.blocked == s.blocked && s'.finished == s.finished && !s'.disp.Requeueing? {
      assert s'.sorted == s.sorted;
      assert HeldByDispatcher(s'.disp) == HeldByDispatcher(s.disp);
    } else {
      var j: nat :| j < |s.sorted| && s.sorted[j] == s.disp.ref && s'.sorted == RemoveAt(s.sorted, j);
      RemovedPlaces(s.sorted, j);
      UnlistedMoves(s, s', s.disp.ref);
    }
    DispatcherMoves(s, s');
  }

  lemma UnlistedMoves(s: State, s': State, r: Ref)
    requires s'.blocked == s.blocked && s'.queue == s.queue && !s.disp.Requeueing?
    requires r in multiset(s.sorted) && multiset(s'.sorted) == multiset(s.sorted) - multiset{r}
    requires
      || (s'.disp == Requeueing(r) && s'.finished == s.finished)
      || (!s'.disp.Requeueing? && s'.finished == s.finished + [r])
    ensures Elsewhere(s') == Elsewhere(s)
  {
  }

  lemma ConservedNext(cfg: Config, s: State, a: Action)
    requires Wf(s) && Enabled(cfg, s, a) && Works(s, a) && Conserved(s)
    ensures Conserved(Apply(cfg, s, a))
  {
    PlacesNext(cfg, s, a);
    HeapGrows(cfg, s, a);
    ConservedStill(s, Apply(cfg, s, a), a.Submit?);
  }

  lemma PlacesNext(cfg: Config, s: State, a: Action)
    requires Wf(s) && Enabled(cfg, s, a) && Works(s, a)
    ensures Places(Apply(cfg, s, a)) == Places(s) + if a.Submit? then multiset{|s.heap|} else multiset{}
  {
    match a
    case Submit(_) => SubmitMoves(s, Apply(cfg, s, a));
    case Advance(i) =>
      AdvanceMoves(cfg, s, i);
      ThreadMovedConserves(s, Apply(cfg, s, a), i);
    case Dispatch(ok) =>
      DispatchMoves(cfg, s, ok);
      DispatcherMovedConserves(s, Apply(cfg, s, a));
    case _ => WorkerPlaces(cfg, s, a);
  }

  lemma WorkerPlaces(cfg: Config, s: State, a: Action)
    requires Wf(s) && Enabled(cfg, s, a) && !a.Submit? && !a.Advance? && !a.Dispatch?
    ensures Places(Apply(cfg, s, a)) == Places(s)
  {
    var s' := Apply(cfg, s, a);
    match a
    case Poll(i, _) =>
      AnswerMoves(cfg, s, a);
      ThreadMovedConserves(s, s', i);
    case Record(i, _) =>
      AnswerMoves(cfg, s, a);
      ThreadMovedConserves(s, s', i);
    case Receive(i) => ReceiveMoves(s, s', i);
    case HandOff(k, i) => HandOffMoves(s, s', k, i);
    case Send(k) => SendMoves(s, s', k);
    case Tick(_) => DispatcherMoves(s, s');
  }

  lemma ConservedStill(s: State, s': State, created: bool)
    requires Conserved(s) && |s'.heap| == |s.heap| + if created then 1 else 0
    requires Places(s') == Places(s) + if created then multiset{|s.heap|} else multiset{}
    ensures Conserved(s')
  {
    assert Places(s)[|s.heap|] == 0;
  }

  lemma SubmitMoves(s: State, s': State)
    requires s'.threads == s.threads + [Fresh(|s.heap|)] && Elsewhere(s') == Elsewhere(s)
    ensures Places(s') == Places(s) + multiset{|s.heap|}
  {
    GatherAppend(s.threads, HeldBy, Fresh(|s.heap|));
    PlacesSplit(s);
    PlacesSplit(s');
  }

  lemma ReceiveMoves(s: State, s': State, i: nat)
    requires i < |s.threads| && s.threads[i].Idle? && s.queue != []
    requires s' == s.(threads := s.threads[i := Polling(s.queue[0])], queue := s.queue[1..])
    ensures Places(s') == Places(s)
  {
    assert s.queue == [s.queue[0]] + s.queue[1..];
    ThreadMoves(s, s', i, s'.threads[i]);
  }

  lemma HandOffMoves(s: State, s': State, k: nat, i: nat)
    requires i < |s.threads| && s.threads[i].Idle? && k < |s.blocked|
    requires s' == s.(threads := s.threads[i := Polling(s.blocked[k])], blocked := RemoveAt(s.blocked, k))
    ensures Places(s') == Places(s)
  {
    RemovedPlaces(s.blocked, k);
    ThreadMoves(s, s', i, s'.threads[i]);
  }

  lemma SendMoves(s: State, s': State, k: nat)
    requires k < |s.blocked|
    requires s' == s.(queue := s.queue + [s.blocked[k]], blocked := RemoveAt(s.blocked, k))
    ensures Places(s') == Places(s)
  {
    RemovedPlaces(s.blocked, k);
    DispatcherMoves(s, s');
  }

  lemma HeapGrows(cfg: Config, s: State, a: Action)
    requires Wf(s) && Enabled(cfg, s, a)
    ensures |Apply(cfg, s, a).heap| == |s.heap| + if a.Submit? then 1 else 0
  {
    if a.Advance? {
      AdvanceKeepsHeap(cfg, s, a.i);
    } else if a.Dispatch? {
      DispatchKeepsHeap(cfg, s, a.ok);
    }
  }

  lemma AdvanceKeepsHeap(cfg: Config, s: State, i: nat)
    requires Wf(s) && Enabled(cfg, s, Advance(i))
    ensures |AdvanceThread(cfg, s, i).heap| == |s.heap|
    ensures forall r: Ref :: r < |s.heap| ==> AdvanceThread(cfg, s, i).heap[r].l2Tx == s.heap[r].l2Tx
    ensures s.finished <= AdvanceThread(cfg, s, i).finished
  {
  }

  lemma DispatchKeepsHeap(cfg: Config, s: State, ok: bool)
    requires Wf(s) && Enabled(cfg, s, Dispatch(ok))
    ensures |AdvanceDispatcher(cfg, s, ok).heap| == |s.heap|
    ensures forall r: Ref :: r < |s.heap| ==> AdvanceDispatcher(cfg, s, ok).heap[r].l2Tx == s.heap[r].l2Tx
    ensures s.finished <= AdvanceDispatcher(cfg, s, ok).finished
  {
  }

  lemma HeapKeepsTx(cfg: Config, s: State, a: Action, r: Ref)
    requires Wf(s) && Enabled(cfg, s, a) && r < |s.heap|
    ensures |s.heap| <= |Apply(cfg, s, a).heap|
    ensures Apply(cfg, s, a).heap[r].l2Tx == s.heap[r].l2Tx
    ensures r in s.finished ==> r in Apply(cfg, s, a).finished
  {
    if a.Advance? {
      AdvanceKeepsHeap(cfg, s, a.i);
    } else if a.Dispatch? {
      DispatchKeepsHeap(cfg, s, a.ok);
    }
  }

  lemma UniqueIdsNext(cfg: Config, s: State, a: Action)
    requires Wf(s) && UniqueIds(s) && Enabled(cfg, s, a) && Disciplined(s, a)
    ensures UniqueIds(Apply(cfg, s, a))
  {
    var s' := Apply(cfg, s, a);
    forall r: Ref | r < |s.heap|
      ensures s'.heap[r].l2Tx == s.heap[r].l2Tx && (Tracked(s', r) ==> Tracked(s, r))
    {
      HeapKeepsTx(cfg, s, a, r);
    }
    assert |s'.heap| <= |s.heap| + 1;
  }

  // ---------------------------------------------------------------- the list through a step

  lemma SameListLooksTheSame(s: State, s': State)
    requires Wf(s) && Wf(s') && SameList(s, s')
    ensures Mapped(s) ==> Mapped(s')
    ensures Ordered(s) ==> Ordered(s')
    ensures forall r: Ref, g: nat :: FirstOfMilliAt(s, r, g) ==> FirstOfMilliAt(s', r, g)
  {
  }

  /** The slice after an add: inserted at the upper bound, so after its millisecond and before later ones. */
  ghost predicate Inserted(s: State, s': State, r: Ref, u: nat)
    requires Wf(s) && r < |s.heap|
  {
    && u <= |s.sorted| && s'.sorted == InsertAt(s.sorted, u, r)
    && s'.list == s.list[s.heap[r].l2Tx.id := r]
    && |s'.heap| == |s.heap|
    && (forall x: Ref :: x < |s.heap| ==>
          s'.heap[x].l2Tx == s.heap[x].l2Tx && s'.heap[x].nextRetry == s.heap[x].nextRetry)
    && (forall j :: 0 <= j < u ==> s.heap[s.sorted[j]].Milli() <= s.heap[r].Milli())
    && (forall j :: u <= j < |s.sorted| ==> s.heap[s.sorted[j]].Milli() > s.heap[r].Milli())
  }

  lemma AddInserts(s: State, r: Ref)
    requires Wf(s) && Mapped(s) && Ordered(s) && r < |s.heap| && s.heap[r].l2Tx.id !in s.list
    ensures Covered(s)
    ensures Inserted(s, ListAdd(s, r), r, UpperBound(Keys(s), s.heap[r].Milli()))
  {
    ComparatorsAreSafe(s);
    AddSplits(s, r);
    AddShape(s, r);
  }

  /** The insertion point separates the listed requests by millisecond. */
  lemma AddSplits(s: State, r: Ref)
    requires Wf(s) && Covered(s) && Ordered(s) && r < |s.heap| && Keys(s) == Millis(Entries(s))
    ensures
      var u := UpperBound(Keys(s), s.heap[r].Milli());
      && (forall j :: 0 <= j < u ==> s.heap[s.sorted[j]].Milli() <= s.heap[r].Milli())
      && (forall j :: u <= j < |s.sorted| ==> s.heap[s.sorted[j]].Milli() > s.heap[r].Milli())
  {
    assert forall j :: 0 <= j < |s.sorted| ==> Keys(s)[j] == s.heap[s.sorted[j]].Milli();
    UpperBoundSplits(Keys(s), s.heap[r].Milli());
  }

  lemma AddShape(s: State, r: Ref)
    requires Wf(s) && Covered(s) && r < |s.heap| && s.heap[r].l2Tx.id !in s.list
    ensures
      var t := ListAdd(s, r);
      && t.sorted == InsertAt(s.sorted, UpperBound(Keys(s), s.heap[r].Milli()), r)
      && t.list == s.list[s.heap[r].l2Tx.id := r] && |t.heap| == |s.heap|
      && forall x: Ref :: x < |s.heap| ==>
           t.heap[x].l2Tx == s.heap[x].l2Tx && t.heap[x].nextRetry == s.heap[x].nextRetry
  {
  }

  lemma InsertedKeepsOrder(s: State, s': State, r: Ref, u: nat)
    requires Wf(s) && Wf(s') && r < |s.heap| && Inserted(s, s', r, u) && Ordered(s)
    ensures Ordered(s')
  {
    forall i, j | 0 <= i < j < |s'.sorted|
      ensures s'.heap[s'.sorted[i]].Milli() <= s'.heap[s'.sorted[j]].Milli()
    {
      assert s'.sorted[i] == if i < u then s.sorted[i] else if i == u then r else s.sorted[i - 1];
      assert s'.sorted[j] == if j < u then s.sorted[j] else if j == u then r else s.sorted[j - 1];
    }
  }

  lemma InsertedKeepsMap(s: State, s': State, r: Ref, u: nat)
    requires Wf(s) && Wf(s') && r < |s.heap| && s.heap[r].l2Tx.id !in s.list
    requires Inserted(s, s', r, u) && Mapped(s)
    ensures Mapped(s')
  {
    forall i | 0 <= i < |s'.sorted|
      ensures s'.heap[s'.sorted[i]].l2Tx.id in s'.list && s'.list[s'.heap[s'.sorted[i]].l2Tx.id] == s'.sorted[i]
    {
      InsertedKeepsKey(s, s', r, u, i);
    }
    InsertedKeepsValues(s, s', r, u);
  }

  lemma InsertedKeepsKey(s: State, s': State, r: Ref, u: nat, i: nat)
    requires Wf(s) && Wf(s') && r < |s.heap| && s.heap[r].l2Tx.id !in s.list && i < |s'.sorted|
    requires Inserted(s, s', r, u)
    requires forall j :: 0 <= j < |s.sorted| ==>
                           && s.heap[s.sorted[j]].l2Tx.id in s.list
                           && s.list[s.heap[s.sorted[j]].l2Tx.id] == s.sorted[j]
    ensures s'.heap[s'.sorted[i]].l2Tx.id in s'.list && s'.list[s'.heap[s'.sorted[i]].l2Tx.id] == s'.sorted[i]
  {
    assert s'.sorted[i] == if i < u then s.sorted[i] else if i == u then r else s.sorted[i - 1];
  }

  lemma InsertedKeepsValues(s: State, s': State, r: Ref, u: nat)
    requires Wf(s) && Wf(s') && r < |s.heap| && Inserted(s, s', r, u)
    requires forall id :: id in s.list ==> s.heap[s.list[id]].l2Tx.id == id && s.list[id] in s.sorted
    ensures forall id :: id in s'.list ==> s'.heap[s'.list[id]].l2Tx.id == id && s'.list[id] in s'.sorted
  {
    forall id | id in s'.list
      ensures s'.heap[s'.list[id]].l2Tx.id == id && s'.list[id] in s'.sorted
    {
      if id == s.heap[r].l2Tx.id {
        assert s'.sorted[u] == r;
      } else {
        var i :| 0 <= i < |s.sorted| && s.sorted[i] == s.list[id];
        assert s'.sorted[if i < u then i else i + 1] == s.list[id];
      }
    }
  }

  /** The first request of a millisecond stays first, whatever is added. */
  lemma InsertedKeepsFirst(s: State, s': State, r: Ref, u: nat, first: Ref, g: nat)
    requires Wf(s) && Wf(s') && r < |s.heap| && Inserted(s, s', r, u) && Ordered(s)
    requires FirstOfMilliAt(s, first, g)
    ensures FirstOfMilliAt(s', first, if u <= g then g + 1 else g)
  {
    var g' := if u <= g then g + 1 else g;
    assert s'.sorted[g'] == first;
    forall j | 0 <= j < g'
      ensures s'.heap[s'.sorted[j]].Milli() < s'.heap[first].Milli()
    {
      if j == u {
        assert s.heap[s.sorted[u]].Milli() <= s.heap[s.sorted[g]].Milli();
      } else {
        assert s'.sorted[j] == s.sorted[if j < u then j else j - 1];
      }
    }
  }

  ghost predicate Removed(s: State, s': State, j: nat)
    requires Wf(s) && j < |s.sorted|
  {
    && s'.heap == s.heap && s'.sorted == RemoveAt(s.sorted, j)
    && s'.list == s.list - {s.heap[s.sorted[j]].l2Tx.id}
  }

  lemma RemovedKeepsOrder(s: State, s': State, j: nat)
    requires Wf(s) && Wf(s') && j < |s.sorted| && Ordered(s) && Removed(s, s', j)
    ensures Ordered(s')
  {
    forall a, b | 0 <= a < b < |s'.sorted|
      ensures s'.heap[s'.sorted[a]].Milli() <= s'.heap[s'.sorted[b]].Milli()
    {
      assert s'.sorted[a] == s.sorted[if a < j then a else a + 1];
      assert s'.sorted[b] == s.sorted[if b < j then b else b + 1];
    }
  }

  lemma RemovedKeepsMap(s: State, s': State, j: nat)
    requires Wf(s) && Wf(s') && j < |s.sorted| && Mapped(s) && Removed(s, s', j)
    requires forall m :: 0 <= m < |s.sorted| && m != j ==> s.sorted[m] != s.sorted[j]
    ensures Mapped(s')
  {
    forall id | id in s'.list
      ensures s'.heap[s'.list[id]].l2Tx.id == id && s'.list[id] in s'.sorted
    {
      RemovedKeepsValue(s, s', j, id);
    }
    forall i | 0 <= i < |s'.sorted|
      ensures s'.heap[s'.sorted[i]].l2Tx.id in s'.list && s'.list[s'.heap[s'.sorted[i]].l2Tx.id] == s'.sorted[i]
    {
      RemovedKeepsKey(s, s', j, i);
    }
  }

  lemma RemovedKeepsValue(s: State, s': State, j: nat, id: nat)
    requires Wf(s) && Wf(s') && j < |s.sorted| && Removed(s, s', j) && id in s'.list
    requires s.heap[s.list[id]].l2Tx.id == id && s.list[id] in s.sorted
    ensures s'.heap[s'.list[id]].l2Tx.id == id && s'.list[id] in s'.sorted
  {
    var i :| 0 <= i < |s.sorted| && s.sorted[i] == s.list[id];
    assert s'.sorted[if i < j then i else i - 1] == s.list[id];
  }

  lemma RemovedKeepsKey(s: State, s': State, j: nat, i: nat)
    requires Wf(s) && Wf(s') && j < |s.sorted| && Mapped(s) && Removed(s, s', j) && i < |s'.sorted|
    requires forall m :: 0 <= m < |s.sorted| && m != j ==> s.sorted[m] != s.sorted[j]
    ensures s'.heap[s'.sorted[i]].l2Tx.id in s'.list && s'.list[s'.heap[s'.sorted[i]].l2Tx.id] == s'.sorted[i]
  {
    var k := if i < j then i else i + 1;
    assert s'.sorted[i] == s.sorted[k];
    assert s.list[s.heap[s.sorted[k]].l2Tx.id] == s.sorted[k] && s.list[s.heap[s.sorted[j]].l2Tx.id] == s.sorted[j];
  }

  lemma ListNext(cfg: Config, s: State, a: Action)
    requires Inv(cfg, s) && Enabled(cfg, s, a) && Wf(Apply(cfg, s, a))
    ensures Mapped(Apply(cfg, s, a)) && Ordered(Apply(cfg, s, a))
  {
    var s' := Apply(cfg, s, a);
    if !ChangesList(s, a) {
      WritesMissTheList(cfg, s, a);
      SameListLooksTheSame(s, s');
    } else if a.Advance? {
      AddStep(cfg, s, a.i);
      var r := s.threads[a.i].ref;
      InsertedKeepsOrder(s, s', r, UpperBound(Keys(s), s.heap[r].Milli()));
      InsertedKeepsMap(s, s', r, UpperBound(Keys(s), s.heap[r].Milli()));
    } else {
      var g: nat :| FirstOfMilliAt(s, s.disp.ref, g);
      DeleteStep(cfg, s, a.ok, g);
      ListedIsTracked(s, g);
      RemovedKeepsOrder(s, s', g);
      RemovedKeepsMap(s, s', g);
    }
  }

  lemma AddStep(cfg: Config, s: State, i: nat)
    requires Inv(cfg, s) && Enabled(cfg, s, Advance(i)) && s.threads[i].Listing?
    ensures
      var r := s.threads[i].ref;
      var s' := Apply(cfg, s, Advance(i));
      && s.heap[r].l2Tx.id !in s.list && Covered(s)
      && Inserted(s, s', r, UpperBound(Keys(s), s.heap[r].Milli())) && s'.disp == s.disp
  {
    AddIsAccepted(cfg, s, i);
    AddInserts(s, s.threads[i].ref);
  }

  lemma DeleteStep(cfg: Config, s: State, ok: bool, g: nat)
    requires Wf(s) && Mapped(s) && Ordered(s) && !s.panicked
    requires (s.disp.Discarding? || s.disp.Dropping?) && FirstOfMilliAt(s, s.disp.ref, g)
    ensures
      var s' := Apply(cfg, s, Dispatch(ok));
      Removed(s, s', g) && !s'.panicked && (s'.disp.Top? || s'.disp.Requeueing?)
  {
    DispatcherDeleteHits(s, g);
    DeleteStepShape(cfg, s, ok);
  }

  lemma DeleteStepShape(cfg: Config, s: State, ok: bool)
    requires Wf(s) && !s.panicked && (s.disp.Discarding? || s.disp.Dropping?)
    ensures
      var s', t := Apply(cfg, s, Dispatch(ok)), ListDelete(s, s.disp.ref);
      && s'.heap == t.heap && s'.sorted == t.sorted && s'.list == t.list && s'.panicked == t.panicked
      && (s'.disp.Top? || s'.disp.Requeueing?)
  {
  }

  lemma DispatcherReadyNext(cfg: Config, s: State, a: Action)
    requires Inv(cfg, s) && Enabled(cfg, s, a) && Wf(Apply(cfg, s, a))
    ensures DispatcherReady(Apply(cfg, s, a))
  {
    if a.Dispatch? {
      DispatchReadyNext(cfg, s, a.ok);
    } else if ChangesList(s, a) {
      AddReadyNext(cfg, s, a.i);
    } else {
      DispatcherWaits(cfg, s, a);
      WritesMissTheList(cfg, s, a);
      ReadyInSameList(s, Apply(cfg, s, a));
    }
  }

  lemma ReadyInSameList(s: State, s': State)
    requires Wf(s) && Wf(s') && SameList(s, s') && DispatcherReady(s)
    requires s'.disp == s.disp || s'.disp.Top?
    ensures DispatcherReady(s')
  {
    SameListLooksTheSame(s, s');
  }

  lemma AddReadyNext(cfg: Config, s: State, i: nat)
    requires Inv(cfg, s) && Enabled(cfg, s, Advance(i)) && s.threads[i].Listing?
    requires Wf(Apply(cfg, s, Advance(i)))
    ensures DispatcherReady(Apply(cfg, s, Advance(i)))
  {
    AddStep(cfg, s, i);
    var r := s.threads[i].ref;
    ReadyInGrownList(s, Apply(cfg, s, Advance(i)), r, UpperBound(Keys(s), s.heap[r].Milli()));
  }

  lemma ReadyInGrownList(s: State, s': State, r: Ref, u: nat)
    requires Wf(s) && Wf(s') && r < |s.heap| && Inserted(s, s', r, u) && Ordered(s) && DispatcherReady(s)
    requires s'.disp == s.disp
    ensures DispatcherReady(s')
  {
    if Reading(s.disp) {
      var g: nat :| FirstOfMilliAt(s, s.disp.ref, g);
      InsertedKeepsFirst(s, s', r, u, s.disp.ref, g);
    }
  }

  lemma DispatcherWaits(cfg: Config, s: State, a: Action)
    requires Wf(s) && Enabled(cfg, s, a) && !a.Dispatch?
    ensures Apply(cfg, s, a).disp == s.disp || Apply(cfg, s, a).disp.Top?
  {
  }

  lemma DispatchReadyNext(cfg: Config, s: State, ok: bool)
    requires Inv(cfg, s) && Enabled(cfg, s, Dispatch(ok)) && Wf(Apply(cfg, s, Dispatch(ok)))
    ensures DispatcherReady(Apply(cfg, s, Dispatch(ok)))
  {
    var s' := Apply(cfg, s, Dispatch(ok));
    if s.disp.Discarding? || s.disp.Dropping? {
      var g: nat :| FirstOfMilliAt(s, s.disp.ref, g);
      DeleteStep(cfg, s, ok, g);
    } else {
      WritesMissTheList(cfg, s, Dispatch(ok));
      DispatcherTurns(cfg, s, ok);
      ReadyAfterTurn(s, s');
    }
  }

  /** The dispatcher's next request is the one it works on, or the head of the slice it has just read. */
  lemma DispatcherTurns(cfg: Config, s: State, ok: bool)
    requires Wf(s) && Enabled(cfg, s, Dispatch(ok)) && !s.disp.Discarding? && !s.disp.Dropping?
    requires s.disp.Clocked? ==> s.sorted != []
    ensures Turns(s, Apply(cfg, s, Dispatch(ok)).disp)
  {
  }

  predicate Turns(s: State, d: Dispatcher) {
    && (d.NonEmpty? ==> s.sorted != [])
    && (d.Clocked? ==> s.disp.NonEmpty?)
    && (Reading(d) ==> (Reading(s.disp) && d.ref == s.disp.ref) || (s.sorted != [] && d.ref == s.sorted[0]))
  }

  lemma ReadyAfterTurn(s: State, s': State)
    requires Wf(s) && Wf(s') && SameList(s, s') && DispatcherReady(s) && Turns(s, s'.disp)
    ensures DispatcherReady(s')
  {
    if Reading(s'.disp) {
      var r := s'.disp.ref;
      if s.sorted != [] && r == s.sorted[0] {
        assert FirstOfMilliAt(s', r, 0);
      } else {
        var g: nat :| FirstOfMilliAt(s, r, g);
        SameListLooksTheSame(s, s');
        assert FirstOfMilliAt(s', r, g);
      }
    }
  }

  lemma SafeNext(cfg: Config, s: State, a: Action)
    requires Wf(s) && !s.panicked && |s.queue| <= cfg.queueSize && |s.threads| >= cfg.workers
    requires Enabled(cfg, s, a) && Works(s, a) && (s.disp.Clocked? ==> s.sorted != [])
    ensures
      var s' := Apply(cfg, s, a);
      !s'.panicked && |s'.queue| <= cfg.queueSize && |s'.threads| >= cfg.workers
  {
  }

  /** Every step keeps the invariant, as long as ids are submitted only while untracked. */
  lemma InvNext(cfg: Config, s: State, a: Action)
    requires Inv(cfg, s) && Enabled(cfg, s, a) && Disciplined(s, a)
    ensures Inv(cfg, Apply(cfg, s, a))
  {
    ListCallsWork(cfg, s, a);
    WfNext(cfg, s, a);
    SafeNext(cfg, s, a);
    ConservedNext(cfg, s, a);
    UniqueIdsNext(cfg, s, a);
    ListNext(cfg, s, a);
    DispatcherReadyNext(cfg, s, a);
  }

  /** For a submission the assumption is exact: the invariant survives it if and only if the id is untracked. */
  lemma SubmitKeepsInvIff(cfg: Config, s: State, l2Tx: L2Transaction)
    requires Inv(cfg, s)
    ensures Inv(cfg, Apply(cfg, s, Submit(l2Tx))) <==> Disciplined(s, Submit(l2Tx))
  {
    if Disciplined(s, Submit(l2Tx)) {
      InvNext(cfg, s, Submit(l2Tx));
    } else {
      var r: Ref :| Tracked(s, r) && s.heap[r].l2Tx.id == l2Tx.id;
      SharedIdIsNotUnique(cfg, s, l2Tx, r);
    }
  }

  lemma SharedIdIsNotUnique(cfg: Config, s: State, l2Tx: L2Transaction, r: Ref)
    requires Wf(s) && Conserved(s) && !s.panicked && Tracked(s, r) && s.heap[r].l2Tx.id == l2Tx.id
    ensures !UniqueIds(Apply(cfg, s, Submit(l2Tx)))
  {
    var s' := Apply(cfg, s, Submit(l2Tx));
    assert Places(s)[|s.heap|] == 0;
    NotCountedNotIn(s.finished, |s.heap|);
    assert Tracked(s', r) && Tracked(s', |s.heap|) && s'.heap[|s.heap|].l2Tx == l2Tx;
  }

  /** An add whose id is already listed is ignored, and its request is then in no place at all. */
  lemma AddConservesIff(cfg: Config, s: State, i: nat)
    requires Wf(s) && Covered(s) && Conserved(s) && Enabled(cfg, s, Advance(i)) && s.threads[i].Listing?
    ensures Conserved(Apply(cfg, s, Advance(i))) <==> s.heap[s.threads[i].ref].l2Tx.id !in s.list
  {
    var r, s' := s.threads[i].ref, Apply(cfg, s, Advance(i));
    if s.heap[r].l2Tx.id !in s.list {
      ConservedNext(cfg, s, Advance(i));
    } else {
      assert s' == s.(threads := s.threads[i := Counting]);
      HeldUpdate(s.threads, i, Counting);
      PlacesSplit(s);
      PlacesSplit(s');
      assert Places(s)[r] == 1 && Held(s.threads)[r] >= 1;
      assert Places(s')[r] == 0;
    }
  }

  // ---------------------------------------------------------------- whole runs

  /** A run: its states, and the step taken between each two. */
  ghost predicate Run(cfg: Config, states: seq<State>, steps: seq<Action>) {
    && |states| == |steps| + 1 && Init(cfg, states[0])
    && forall n {:trigger steps[n]} :: 0 <= n < |steps| ==>
                     && Wf(states[n]) && Enabled(cfg, states[n], steps[n])
                     && states[n + 1] == Apply(cfg, states[n], steps[n])
  }

  ghost predicate DisciplinedRun(states: seq<State>, steps: seq<Action>)
    requires |states| == |steps| + 1
  {
    forall n {:trigger steps[n]} :: 0 <= n < |steps| ==> Disciplined(states[n], steps[n])
  }

  lemma {:induction false} RunInv(cfg: Config, states: seq<State>, steps: seq<Action>, n: nat)
    requires Run(cfg, states, steps) && DisciplinedRun(states, steps) && n < |states|
    ensures Inv(cfg, states[n])
  {
    if n == 0 {
      InitInv(cfg, states[0]);
    } else {
      RunInv(cfg, states, steps, n - 1);
      assert Disciplined(states[n - 1], steps[n - 1]);
      InvNext(cfg, states[n - 1], steps[n - 1]);
    }
  }

  /** In every run, each created request is in exactly one place, and the channel buffer fits its size. */
  lemma NoRequestLostOrDuplicated(cfg: Config, states: seq<State>, steps: seq<Action>, n: nat, r: Ref)
    requires Run(cfg, states, steps) && DisciplinedRun(states, steps) && n < |states|
    ensures Places(states[n])[r] == if r < |states[n].heap| then 1 else 0
    ensures |states[n].queue| <= cfg.queueSize
  {
    RunInv(cfg, states, steps, n);
  }

  /**
   In every run and every interleaving: no list call panics, index 0 exists whenever the dispatcher reads
   it, and map and slice agree, so no comparator meets a missing entry.
   */
  lemma RunNeverPanics(cfg: Config, states: seq<State>, steps: seq<Action>, n: nat)
    requires Run(cfg, states, steps) && DisciplinedRun(states, steps) && n < |states|
    ensures !states[n].panicked
    ensures states[n].disp.Clocked? ==> states[n].sorted != []
    ensures Wf(states[n]) && Mapped(states[n]) && Covered(states[n])
  {
    RunInv(cfg, states, steps, n);
    ComparatorsAreSafe(states[n]);
  }

  /**
   In every run, the dispatcher's delete of the request it read at index 0 succeeds, and removes that
   request and nothing else, however many requests were added since it was read.
   */
  lemma DispatcherDeletesWhatItRead(cfg: Config, states: seq<State>, steps: seq<Action>, n: nat)
    requires Run(cfg, states, steps) && DisciplinedRun(states, steps) && n < |steps|
    requires steps[n].Dispatch? && (states[n].disp.Discarding? || states[n].disp.Dropping?)
    ensures
      var s, s' := states[n], states[n + 1];
      var r := s.disp.ref;
      && r < |s.heap|
      && s'.list == s.list - {s.heap[r].l2Tx.id} && s.heap[r].l2Tx.id in s.list
      && exists g: nat :: g < |s.sorted| && s.sorted[g] == r && s'.sorted == RemoveAt(s.sorted, g)
  {
    var s := states[n];
    RunInv(cfg, states, steps, n);
    var g: nat :| FirstOfMilliAt(s, s.disp.ref, g);
    DispatcherDeleteHits(s, g);
    DeleteStep(cfg, s, steps[n].ok, g);
  }

  /** In every run, only the dispatcher shrinks the list: a worker's delete finds nothing to remove. */
  lemma WorkersNeverShrinkTheList(cfg: Config, states: seq<State>, steps: seq<Action>, n: nat)
    requires Run(cfg, states, steps) && DisciplinedRun(states, steps) && n < |steps|
    requires !steps[n].Dispatch?
    ensures
      || states[n + 1].sorted == states[n].sorted
      || exists u: nat, r: Ref :: u <= |states[n].sorted| && states[n + 1].sorted == InsertAt(states[n].sorted, u, r)
  {
    RunInv(cfg, states, steps, n);
    if ChangesList(states[n], steps[n]) {
      AddStep(cfg, states[n], steps[n].i);
    } else {
      WritesMissTheList(cfg, states[n], steps[n]);
    }
  }

  /**
   Aliasing: in every run, a request that a thread holds is not listed, so writing its `nextRetry` in
   place changes no key of the slice.
   */
  lemma HeldRequestsAreNotListed(cfg: Config, states: seq<State>, steps: seq<Action>, n: nat, i: nat)
    requires Run(cfg, states, steps) && DisciplinedRun(states, steps) && n < |states|
    requires i < |states[n].threads| && states[n].threads[i].Holds()
    ensures states[n].threads[i].ref !in states[n].sorted
    ensures Wf(states[n]) && forall j, k :: 0 <= j < k < |states[n].sorted| ==>
              states[n].heap[states[n].sorted[j]].Milli() <= states[n].heap[states[n].sorted[k]].Milli()
  {
    RunInv(cfg, states, steps, n);
    HeldIsElsewhereAbsent(states[n], i);
  }
}
