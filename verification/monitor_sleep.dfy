/** How late the dispatcher can be: while it sleeps, and when a wake-up signal is lost. */
module MonitorSleep {
  import opened Types
  import opened MonitorMachine
  import opened MonitorSafety
  import opened MonitorTiming

  // ---------------------------------------------------------------- sleeping

  /**
   Against the request the dispatcher judged at its clock reading `now`: not of an earlier millisecond, or
   listed no earlier than either.
   */
  predicate NotPassed(s: State, r: Ref, now: int, x: Ref)
    requires r < |s.heap| && x < |s.heap|
  {
    || s.heap[x].Milli() >= s.heap[r].Milli()
    || (s.heap[x].listedAt >= s.heap[r].listedAt && s.heap[x].listedAt >= now)
  }

  ghost predicate NonePasses(s: State, r: Ref, now: int) {
    && r < |s.heap|
    && forall x: Ref :: x < |s.heap| && x in s.sorted ==> NotPassed(s, r, now, x)
  }

  ghost predicate SleepSound(s: State) {
    s.disp.Judging? || s.disp.Sleeping? ==> NonePasses(s, s.disp.ref, s.disp.now)
  }

  lemma SleepSoundNext(cfg: Config, s: State, a: Action)
    requires Inv(cfg, s) && Timed(cfg, s) && SleepSound(s) && Enabled(cfg, s, a) && Works(s, a)
    ensures SleepSound(Apply(cfg, s, a))
  {
    if Apply(cfg, s, a).disp.Judging? || Apply(cfg, s, a).disp.Sleeping? {
      NonePassesNext(cfg, s, a, Apply(cfg, s, a).disp.ref, Apply(cfg, s, a).disp.now);
    }
  }

  lemma NonePassesNext(cfg: Config, s: State, a: Action, r: Ref, now: int)
    requires Inv(cfg, s) && Timed(cfg, s) && SleepSound(s) && Enabled(cfg, s, a) && Works(s, a)
    requires Apply(cfg, s, a).disp.Judging? || Apply(cfg, s, a).disp.Sleeping?
    requires r == Apply(cfg, s, a).disp.ref && now == Apply(cfg, s, a).disp.now
    ensures NonePasses(Apply(cfg, s, a), r, now)
  {
    SleeperOrigin(cfg, s, a);
    HeapGrows(cfg, s, a);
    forall x: Ref | x < |Apply(cfg, s, a).heap| && x in Apply(cfg, s, a).sorted
      ensures NotPassed(Apply(cfg, s, a), r, now, x)
    {
      NotPassedNext(cfg, s, a, r, now, x);
    }
  }

  lemma NotPassedNext(cfg: Config, s: State, a: Action, r: Ref, now: int, x: Ref)
    requires Inv(cfg, s) && Timed(cfg, s) && SleepSound(s) && Enabled(cfg, s, a) && Works(s, a)
    requires Apply(cfg, s, a).disp.Judging? || Apply(cfg, s, a).disp.Sleeping?
    requires r == Apply(cfg, s, a).disp.ref && now == Apply(cfg, s, a).disp.now
    requires x < |Apply(cfg, s, a).heap| && x in Apply(cfg, s, a).sorted
    ensures r < |Apply(cfg, s, a).heap| && NotPassed(Apply(cfg, s, a), r, now, x)
  {
    SleeperOrigin(cfg, s, a);
    Origins(cfg, s, a, x);
    if x in s.sorted {
      HeadIsNotPassed(cfg, s, a, x);
      StillNotPassed(cfg, s, a, r, now, x);
    } else {
      assert now <= s.clock && Listed(cfg, s.heap[r], s.clock);
      AddedDoesNotPass(cfg, s, a.i, r, now);
    }
  }

  lemma StillNotPassed(cfg: Config, s: State, a: Action, r: Ref, now: int, x: Ref)
    requires Inv(cfg, s) && Enabled(cfg, s, a)
    requires r < |s.heap| && x < |s.heap| && r in s.sorted && x in s.sorted && NotPassed(s, r, now, x)
    ensures r < |Apply(cfg, s, a).heap| && x < |Apply(cfg, s, a).heap| && NotPassed(Apply(cfg, s, a), r, now, x)
  {
    UntouchedElsewhere(cfg, s, a, r);
    OthersKeepTimes(cfg, s, a, r);
    UntouchedElsewhere(cfg, s, a, x);
    OthersKeepTimes(cfg, s, a, x);
  }

  lemma AddedDoesNotPass(cfg: Config, s: State, i: nat, r: Ref, now: int)
    requires Inv(cfg, s) && Enabled(cfg, s, Advance(i)) && s.threads[i].Listing?
    requires r < |s.heap| && r in s.sorted && Listed(cfg, s.heap[r], s.clock) && now <= s.clock
    ensures
      var s', x := Apply(cfg, s, Advance(i)), s.threads[i].ref;
      r < |s'.heap| && x < |s'.heap| && NotPassed(s', r, now, x)
  {
    ListCallsWork(cfg, s, Advance(i));
    AddedNow(cfg, s, i);
    UntouchedElsewhere(cfg, s, Advance(i), r);
    OthersKeepTimes(cfg, s, Advance(i), r);
  }

  /** The request the dispatcher judges or sleeps for after a step is listed before it. */
  lemma SleeperOrigin(cfg: Config, s: State, a: Action)
    requires Inv(cfg, s) && Enabled(cfg, s, a)
    requires Apply(cfg, s, a).disp.Judging? || Apply(cfg, s, a).disp.Sleeping?
    ensures
      var r, now := Apply(cfg, s, a).disp.ref, Apply(cfg, s, a).disp.now;
      && r < |s.heap| && r in s.sorted
      && (((s.disp.Judging? || s.disp.Sleeping?) && s.disp.ref == r && s.disp.now == now)
          || (s.disp.Clocked? && s.disp.now == now && a.Dispatch? && s.sorted != [] && s.sorted[0] == r))
      && (DispatcherTimed(cfg, s.heap, s.disp, s.clock) ==> now <= s.clock)
  {
    if a.Dispatch? {
      DispatchOrigin(cfg, s, a.ok);
    } else {
      DispatcherWaits(cfg, s, a);
    }
    ReadIsListed(s);
  }

  lemma ReadIsListed(s: State)
    requires Wf(s) && DispatcherReady(s)
    ensures Reading(s.disp) ==> s.disp.ref in s.sorted
  {
    if Reading(s.disp) {
      var g: nat :| FirstOfMilliAt(s, s.disp.ref, g);
    }
  }

  lemma DispatchOrigin(cfg: Config, s: State, ok: bool)
    requires Wf(s) && Enabled(cfg, s, Dispatch(ok))
    requires AdvanceDispatcher(cfg, s, ok).disp.Judging? || AdvanceDispatcher(cfg, s, ok).disp.Sleeping?
    requires s.disp.Clocked? ==> s.sorted != []
    ensures
      var r, now := AdvanceDispatcher(cfg, s, ok).disp.ref, AdvanceDispatcher(cfg, s, ok).disp.now;
      || (s.disp.Judging? && s.disp.ref == r && s.disp.now == now)
      || (s.disp.Clocked? && s.disp.now == now && s.sorted != [] && s.sorted[0] == r)
  {
  }

  lemma HeadIsNotPassed(cfg: Config, s: State, a: Action, x: Ref)
    requires Inv(cfg, s) && SleepSound(s) && Enabled(cfg, s, a)
    requires Apply(cfg, s, a).disp.Judging? || Apply(cfg, s, a).disp.Sleeping?
    requires x < |s.heap| && x in s.sorted
    ensures
      var d := Apply(cfg, s, a).disp;
      d.ref < |s.heap| && NotPassed(s, d.ref, d.now, x)
  {
    SleeperOrigin(cfg, s, a);
    if s.disp.Clocked? {
      var k :| 0 <= k < |s.sorted| && s.sorted[k] == x;
      assert s.heap[s.sorted[0]].Milli() <= s.heap[s.sorted[k]].Milli();
    }
  }

  lemma AddedNow(cfg: Config, s: State, i: nat)
    requires Wf(s) && Enabled(cfg, s, Advance(i)) && Works(s, Advance(i)) && s.threads[i].Listing?
    ensures
      var s' := Apply(cfg, s, Advance(i));
      |s'.heap| == |s.heap| && s'.heap[s.threads[i].ref].listedAt == s.clock
  {
  }

  /** The instant of the dispatcher's call of Sleep, as the deadline tells it. */
  function SleepStart(s: State): int
    requires s.disp.Sleeping? && s.disp.ref < |s.heap|
  {
    s.disp.now + (s.disp.until - s.heap[s.disp.ref].nextRetry)
  }

  /** The request the dispatcher sleeps for was listed before it fell asleep. */
  ghost predicate AsleepAfterListing(s: State) {
    s.disp.Sleeping? ==> s.disp.ref < |s.heap| && s.heap[s.disp.ref].listedAt <= SleepStart(s)
  }

  lemma AsleepNext(cfg: Config, s: State, a: Action)
    requires Inv(cfg, s) && Timed(cfg, s) && AsleepAfterListing(s) && Enabled(cfg, s, a)
    ensures AsleepAfterListing(Apply(cfg, s, a))
  {
    if Apply(cfg, s, a).disp.Sleeping? {
      SleeperOrigin(cfg, s, a);
      var r := Apply(cfg, s, a).disp.ref;
      assert Listed(cfg, s.heap[r], s.clock);
      if a.Dispatch? {
        FallsAsleep(cfg, s, a.ok);
      } else {
        UntouchedElsewhere(cfg, s, a, r);
        OthersKeepTimes(cfg, s, a, r);
        DispatcherWaits(cfg, s, a);
      }
    }
  }

  /** The delay between clock reading and call of Sleep is what the deadline exceeds the due time by. */
  lemma FallsAsleep(cfg: Config, s: State, ok: bool)
    requires Wf(s) && Enabled(cfg, s, Dispatch(ok)) && Apply(cfg, s, Dispatch(ok)).disp.Sleeping?
    ensures
      var s' := Apply(cfg, s, Dispatch(ok));
      s.disp.Judging? && s'.disp.ref == s.disp.ref && s'.heap == s.heap && SleepStart(s') == s.clock
  {
  }

  lemma {:induction false} RunSleepSound(cfg: Config, states: seq<State>, steps: seq<Action>, n: nat)
    requires Run(cfg, states, steps) && DisciplinedRun(states, steps) && n < |states|
    ensures Inv(cfg, states[n]) && Timed(cfg, states[n]) && SleepSound(states[n]) && AsleepAfterListing(states[n])
  {
    RunTimed(cfg, states, steps, n);
    if n > 0 {
      RunSleepSound(cfg, states, steps, n - 1);
      ListCallsWork(cfg, states[n - 1], steps[n - 1]);
      SleepSoundNext(cfg, states[n - 1], steps[n - 1]);
      AsleepNext(cfg, states[n - 1], steps[n - 1]);
    }
  }

  function Gap(cfg: Config): nat {
    if cfg.initialWait <= 0 then 0
    else if cfg.retryWait >= cfg.initialWait then cfg.retryWait - cfg.initialWait
    else cfg.initialWait - cfg.retryWait
  }

  /**
   In every run, while the dispatcher sleeps, and besides the delay between its clock reading and its call of
   Sleep: a request that was listed at that reading is passed by the deadline by less than one millisecond,
   and one stamped and inserted at one instant during the sleep by at most the difference of the two waits,
   which is nothing when they are equal or there is no initial wait. In between, one of the two holds.
   */
  lemma OversleepBound(cfg: Config, states: seq<State>, steps: seq<Action>, n: nat, x: Ref)
    requires Run(cfg, states, steps) && DisciplinedRun(states, steps) && n < |states|
    requires states[n].disp.Sleeping? && x in states[n].sorted && x < |states[n].heap|
    ensures Wf(states[n])
    ensures
      var s := states[n];
      var delay := SleepStart(s) - s.disp.now;
      var late := s.disp.until - s.heap[x].nextRetry;
      && delay >= 0
      && (s.heap[x].listedAt < s.disp.now ==> late < delay + 1_000_000)
      && (s.heap[x].stampedAt == s.heap[x].listedAt >= SleepStart(s) ==> late <= delay + Gap(cfg))
      && (s.heap[x].stampedAt == s.heap[x].listedAt ==>
            late <= delay + Gap(cfg) || late < delay + 1_000_000)
  {
    var s := states[n];
    RunSleepSound(cfg, states, steps, n);
    var r := s.disp.ref;
    var g: nat :| FirstOfMilliAt(s, r, g);
    assert r in s.sorted;
    assert Listed(cfg, s.heap[r], s.clock) && Listed(cfg, s.heap[x], s.clock);
    assert NotPassed(s, r, s.disp.now, x);
    EarlierMilliIsEarlier(s.heap[r].nextRetry, s.heap[x].nextRetry);
    if s.heap[x].stampedAt == s.heap[x].listedAt >= s.heap[r].listedAt {
      LaterStampIsDueLater(cfg, s.heap[r], s.heap[x], s.clock);
    }
  }

  lemma LaterStampIsDueLater(cfg: Config, q: Request, q': Request, clock: int)
    requires Listed(cfg, q, clock) && Listed(cfg, q', clock) && q'.stampedAt >= q.listedAt
    ensures q.nextRetry - q'.nextRetry <= Gap(cfg)
  {
  }

  /** That start of the sleep is the clock at the call of Sleep, for a request neither expired nor due. */
  lemma SleepDelay(cfg: Config, s: State, ok: bool)
    requires Wf(s) && Enabled(cfg, s, Dispatch(ok)) && s.disp.Judging?
    requires Apply(cfg, s, Dispatch(ok)).disp.Sleeping?
    ensures
      var s' := Apply(cfg, s, Dispatch(ok));
      && SleepStart(s') == s.clock
      && s'.heap[s'.disp.ref].nextRetry >= s.disp.now
      && s'.heap[s'.disp.ref].l2Tx.receivedAt + cfg.lifeTimeMax >= s.disp.now
  {
    FallsAsleep(cfg, s, ok);
  }

  /** A step that ends the sleep is the dispatcher's own, at the deadline or later: no signal cuts it short. */
  lemma SleepEnds(cfg: Config, s: State, a: Action)
    requires Wf(s) && Enabled(cfg, s, a) && s.disp.Sleeping? && Apply(cfg, s, a).disp != s.disp
    ensures a.Dispatch? && s.clock >= s.disp.until && Apply(cfg, s, a).disp == Top
  {
    if a.Dispatch? {
      WakesByItself(cfg, s, a.ok);
    }
  }

  lemma WakesByItself(cfg: Config, s: State, ok: bool)
    requires Wf(s) && Enabled(cfg, s, Dispatch(ok)) && s.disp.Sleeping?
    ensures AdvanceDispatcher(cfg, s, ok) == s.(disp := Top)
  {
  }

  lemma SleepsOn(cfg: Config, s: State, a: Action)
    requires Wf(s) && Enabled(cfg, s, a) && s.disp.Sleeping? && s.clock < s.disp.until
    ensures Apply(cfg, s, a).disp == s.disp
  {
  }

  /** In every run the dispatcher that fell asleep is asleep until the clock has reached the deadline. */
  lemma {:induction false} SleepsToTheEnd(cfg: Config, states: seq<State>, steps: seq<Action>, n: nat, m: nat)
    requires Run(cfg, states, steps) && n <= m < |states| && states[n].disp.Sleeping?
    requires forall k :: n <= k < m ==> states[k].clock < states[n].disp.until
    ensures states[m].disp == states[n].disp
  {
    if n < m {
      SleepsToTheEnd(cfg, states, steps, n, m - 1);
      SleepsOn(cfg, states[m - 1], steps[m - 1]);
    }
  }

  // ---------------------------------------------------------------- parked

  /** No goroutine is about to signal, and none can find the list of length one any more. */
  ghost predicate NoWakerLeft(s: State) {
    && (forall i :: 0 <= i < |s.threads| ==> !s.threads[i].Signalling?)
    && (|s.sorted| >= 2 || forall i :: 0 <= i < |s.threads| ==> !s.threads[i].Counting?)
  }

  /** The dispatcher waits for a signal although requests are listed, and no signal will come. */
  ghost predicate Stranded(s: State) {
    s.disp.Parked? && s.sorted != [] && NoWakerLeft(s)
  }

  lemma StrandedNext(cfg: Config, s: State, a: Action)
    requires Inv(cfg, s) && Stranded(s) && Enabled(cfg, s, a)
    ensures Stranded(Apply(cfg, s, a))
  {
    if ChangesList(s, a) {
      AddStep(cfg, s, a.i);
      StrandedByAdd(cfg, s, a.i);
    } else {
      WritesMissTheList(cfg, s, a);
      StrandedInSameList(cfg, s, a);
    }
  }

  lemma StrandedByAdd(cfg: Config, s: State, i: nat)
    requires Wf(s) && Stranded(s) && Enabled(cfg, s, Advance(i)) && s.threads[i].Listing?
    requires |Apply(cfg, s, Advance(i)).sorted| == |s.sorted| + 1
    ensures Stranded(Apply(cfg, s, Advance(i)))
  {
  }

  lemma StrandedInSameList(cfg: Config, s: State, a: Action)
    requires Wf(s) && Stranded(s) && Enabled(cfg, s, a) && !ChangesList(s, a)
    requires Apply(cfg, s, a).sorted == s.sorted
    ensures Stranded(Apply(cfg, s, a))
  {
  }

  /** A run continued from any state that satisfies the invariant. */
  ghost predicate Continues(cfg: Config, states: seq<State>, steps: seq<Action>) {
    && |states| == |steps| + 1 && Inv(cfg, states[0])
    && forall n {:trigger steps[n]} :: 0 <= n < |steps| ==>
                     && Wf(states[n]) && Enabled(cfg, states[n], steps[n]) && Disciplined(states[n], steps[n])
                     && states[n + 1] == Apply(cfg, states[n], steps[n])
  }

  lemma StrandedStep(cfg: Config, s: State, a: Action)
    requires Inv(cfg, s) && Stranded(s) && Enabled(cfg, s, a) && Disciplined(s, a)
    ensures Inv(cfg, Apply(cfg, s, a)) && Stranded(Apply(cfg, s, a))
  {
    StrandedNext(cfg, s, a);
    InvNext(cfg, s, a);
  }

  lemma StrandedStepOf(cfg: Config, states: seq<State>, steps: seq<Action>, n: nat)
    requires Continues(cfg, states, steps) && 0 < n < |states| && Inv(cfg, states[n - 1]) && Stranded(states[n - 1])
    ensures Inv(cfg, states[n]) && Stranded(states[n])
  {
    var s, a := states[n - 1], steps[n - 1];
    assert Enabled(cfg, s, a) && Disciplined(s, a) && states[n - 1 + 1] == Apply(cfg, s, a);
    StrandedStep(cfg, s, a);
  }

  lemma {:induction false} StrandedForever(cfg: Config, states: seq<State>, steps: seq<Action>, n: nat)
    requires Continues(cfg, states, steps) && Stranded(states[0]) && n < |states|
    ensures Inv(cfg, states[n]) && Stranded(states[n])
  {
    if n > 0 {
      StrandedForever(cfg, states, steps, n - 1);
      StrandedStepOf(cfg, states, steps, n);
    }
  }

  /** Otherwise some goroutine can wake it: one that signals, or one that will find the length one. */
  lemma WakeIfNotStranded(cfg: Config, s: State) returns (steps: seq<Action>, states: seq<State>)
    requires Inv(cfg, s) && s.disp.Parked? && s.sorted != [] && !NoWakerLeft(s)
    ensures Continues(cfg, states, steps) && states[0] == s && states[|steps|].disp.Top?
  {
    if i :| 0 <= i < |s.threads| && s.threads[i].Signalling? {
      steps := [Advance(i)];
      states := [s, Apply(cfg, s, Advance(i))];
    } else {
      var i :| 0 <= i < |s.threads| && s.threads[i].Counting?;
      var s1 := Apply(cfg, s, Advance(i));
      assert s1 == s.(threads := s.threads[i := Signalling]);
      InvNext(cfg, s, Advance(i));
      steps := [Advance(i), Advance(i)];
      states := [s, s1, Apply(cfg, s1, Advance(i))];
    }
  }

  lemma Prepend(cfg: Config, s: State, a: Action, states: seq<State>, steps: seq<Action>)
    requires Continues(cfg, states, steps) && Inv(cfg, s) && Enabled(cfg, s, a) && Disciplined(s, a)
    requires states[0] == Apply(cfg, s, a)
    ensures Continues(cfg, [s] + states, [a] + steps)
  {
    var all, acts := [s] + states, [a] + steps;
    forall n | 0 <= n < |acts|
      ensures Wf(all[n]) && Enabled(cfg, all[n], acts[n]) && Disciplined(all[n], acts[n])
              && all[n + 1] == Apply(cfg, all[n], acts[n])
    {
      assert n > 0 ==> all[n] == states[n - 1] && acts[n] == steps[n - 1];
    }
  }

  /** Between the dispatcher's length check and its Wait, a signal is lost: one add there strands it. */
  lemma SignalBeforeWaitIsLost(cfg: Config, s: State, i: nat) returns (steps: seq<Action>, states: seq<State>)
    requires Inv(cfg, s) && s.disp.Vacant? && s.sorted == []
    requires i < |s.threads| && s.threads[i].Listing?
    requires forall j :: 0 <= j < |s.threads| && j != i ==> !s.threads[j].Counting? && !s.threads[j].Signalling?
    ensures Continues(cfg, states, steps) && states[0] == s && Stranded(states[|steps|])
  {
    var s1 := AddToEmpty(cfg, s, i);
    InvNext(cfg, s, Advance(i));
    var steps1, states1 := CountThenWait(cfg, s1, i);
    Prepend(cfg, s, Advance(i), states1, steps1);
    steps := [Advance(i)] + steps1;
    states := [s] + states1;
  }

  lemma CountThenWait(cfg: Config, s: State, i: nat) returns (steps: seq<Action>, states: seq<State>)
    requires Inv(cfg, s) && s.disp.Vacant? && |s.sorted| == 1
    requires i < |s.threads| && s.threads[i].Counting?
    requires forall j :: 0 <= j < |s.threads| && j != i ==> !s.threads[j].Counting? && !s.threads[j].Signalling?
    ensures Continues(cfg, states, steps) && states[0] == s && Stranded(states[|steps|])
    ensures |steps| == 3
  {
    var go, wait := Advance(i), Dispatch(true);
    var s1 := s.(threads := s.threads[i := Signalling]);
    assert s1 == Apply(cfg, s, go);
    InvNext(cfg, s, go);
    var s2 := s1.(threads := s1.threads[i := Resting(cfg, i)]);
    assert s2 == Apply(cfg, s1, go);
    InvNext(cfg, s1, go);
    var s3 := s2.(disp := Parked);
    assert s3 == Apply(cfg, s2, wait);
    steps := [go, go, wait];
    states := [s, s1, s2, s3];
  }

  lemma AddToEmpty(cfg: Config, s: State, i: nat) returns (s1: State)
    requires Inv(cfg, s) && s.sorted == [] && i < |s.threads| && s.threads[i].Listing?
    ensures Enabled(cfg, s, Advance(i)) && s1 == Apply(cfg, s, Advance(i))
    ensures |s1.sorted| == 1 && s1.threads == s.threads[i := Counting] && s1.disp == s.disp
  {
    s1 := Apply(cfg, s, Advance(i));
    AddStep(cfg, s, i);
  }

  // ---------------------------------------------------------------- from the start

  /** The dispatcher finds the list empty, and before it waits a request is listed and signalled. */
  lemma StrandsFromTop(cfg: Config, s: State, i: nat) returns (steps: seq<Action>, states: seq<State>)
    requires Inv(cfg, s) && s.disp == Top && s.sorted == []
    requires i < |s.threads| && s.threads[i].Listing?
    requires forall j :: 0 <= j < |s.threads| && j != i ==> !s.threads[j].Counting? && !s.threads[j].Signalling?
    ensures Continues(cfg, states, steps) && states[0] == s && Stranded(states[|steps|])
  {
    var check := Dispatch(true);
    var s1 := s.(disp := Vacant);
    assert Apply(cfg, s, check) == s1;
    InvNext(cfg, s, check);
    var steps1, states1 := SignalBeforeWaitIsLost(cfg, s1, i);
    Prepend(cfg, s, check, states1, steps1);
    steps := [check] + steps1;
    states := [s] + states1;
  }

  /** What submitting changes. */
  lemma Submitted(cfg: Config, s: State, l2Tx: L2Transaction)
    requires Wf(s) && Enabled(cfg, s, Submit(l2Tx))
    ensures
      var t := Apply(cfg, s, Submit(l2Tx));
      && t.threads == s.threads + [Fresh(|s.heap|)] && t.disp == s.disp && t.sorted == s.sorted
      && t.blocked == s.blocked && t.queue == s.queue && !t.panicked
  {
  }

  /** What the first statement of an adder changes. */
  lemma AdderStarts(cfg: Config, s: State, i: nat)
    requires Wf(s) && Enabled(cfg, s, Advance(i)) && s.threads[i].Fresh?
    ensures
      var t, r := Apply(cfg, s, Advance(i)), s.threads[i].ref;
      && t.disp == s.disp && t.sorted == s.sorted && t.queue == s.queue && !t.panicked
      && t.threads == s.threads[i := if cfg.initialWait > 0 then Listing(r) else Resting(cfg, i)]
      && t.blocked == if cfg.initialWait > 0 then s.blocked else s.blocked + [r]
  {
  }

  /** A fresh id is submitted, and its adder makes its first statement. */
  lemma AddedOnce(cfg: Config, s: State, l2Tx: L2Transaction) returns (s1: State, s2: State)
    requires Inv(cfg, s) && Disciplined(s, Submit(l2Tx))
    ensures s1 == Apply(cfg, s, Submit(l2Tx)) && Inv(cfg, s1) && Enabled(cfg, s1, Advance(|s.threads|))
    ensures s2 == Apply(cfg, s1, Advance(|s.threads|)) && Inv(cfg, s2)
    ensures s2.disp == s.disp && s2.sorted == s.sorted && s2.queue == s.queue
    ensures s2.threads == s.threads + [if cfg.initialWait > 0 then Listing(|s.heap|) else Resting(cfg, |s.threads|)]
    ensures s2.blocked == if cfg.initialWait > 0 then s.blocked else s.blocked + [|s.heap|]
  {
    var i := |s.threads|;
    s1 := Apply(cfg, s, Submit(l2Tx));
    Submitted(cfg, s, l2Tx);
    InvNext(cfg, s, Submit(l2Tx));
    s2 := Apply(cfg, s1, Advance(i));
    AdderStarts(cfg, s1, i);
    InvNext(cfg, s1, Advance(i));
  }

  /** With an initial wait the adder itself lists the request; without one a live worker does, after a poll. */
  lemma AddStrands(cfg: Config, s: State, l2Tx: L2Transaction, j: nat)
    returns (steps: seq<Action>, states: seq<State>)
    requires Inv(cfg, s) && Disciplined(s, Submit(l2Tx)) && s.disp == Top && s.sorted == []
    requires s.queue == [] && s.blocked == []
    requires forall k :: 0 <= k < |s.threads| ==> s.threads[k].Idle? || s.threads[k].Gone?
    requires cfg.initialWait > 0 || (j < |s.threads| && s.threads[j].Idle?)
    ensures Continues(cfg, states, steps) && states[0] == s && Stranded(states[|steps|])
  {
    var s1, s2 := AddedOnce(cfg, s, l2Tx);
    if cfg.initialWait > 0 {
      steps, states := StrandsFromTop(cfg, s2, |s.threads|);
    } else {
      steps, states := StrandsByPoll(cfg, s2, j);
    }
    steps, states := Preceded(cfg, s1, Advance(|s.threads|), states, steps);
    steps, states := Preceded(cfg, s, Submit(l2Tx), states, steps);
  }

  /** A waiting worker takes the only request there is, polls it in vain, and stamps it. */
  lemma PolledInVain(cfg: Config, s: State, j: nat) returns (s1: State, s2: State, s3: State)
    requires Inv(cfg, s) && s.queue == [] && |s.blocked| == 1 && j < |s.threads| && s.threads[j].Idle?
    ensures Enabled(cfg, s, HandOff(0, j)) && s1 == Apply(cfg, s, HandOff(0, j)) && Inv(cfg, s1)
    ensures Enabled(cfg, s1, Poll(j, NoReceipt)) && s2 == Apply(cfg, s1, Poll(j, NoReceipt)) && Inv(cfg, s2)
    ensures Enabled(cfg, s2, Advance(j)) && s3 == Apply(cfg, s2, Advance(j)) && Inv(cfg, s3)
    ensures s3.disp == s.disp && s3.sorted == s.sorted && s3.threads == s.threads[j := Listing(s.blocked[0])]
  {
    s1 := Apply(cfg, s, HandOff(0, j));
    InvNext(cfg, s, HandOff(0, j));
    s2 := Apply(cfg, s1, Poll(j, NoReceipt));
    InvNext(cfg, s1, Poll(j, NoReceipt));
    s3 := Apply(cfg, s2, Advance(j));
    InvNext(cfg, s2, Advance(j));
  }

  lemma StrandsByPoll(cfg: Config, s: State, j: nat) returns (steps: seq<Action>, states: seq<State>)
    requires Inv(cfg, s) && s.disp == Top && s.sorted == [] && s.queue == [] && |s.blocked| == 1
    requires j < |s.threads| && s.threads[j].Idle?
    requires forall k :: 0 <= k < |s.threads| ==> s.threads[k].Idle? || s.threads[k].Gone?
    ensures Continues(cfg, states, steps) && states[0] == s && Stranded(states[|steps|])
  {
    var s1, s2, s3 := PolledInVain(cfg, s, j);
    steps, states := StrandsFromTop(cfg, s3, j);
    steps, states := Preceded(cfg, s2, Advance(j), states, steps);
    steps, states := Preceded(cfg, s1, Poll(j, NoReceipt), states, steps);
    steps, states := Preceded(cfg, s, HandOff(0, j), states, steps);
  }

  lemma Preceded(cfg: Config, s: State, a: Action, states: seq<State>, steps: seq<Action>)
    returns (steps': seq<Action>, states': seq<State>)
    requires Continues(cfg, states, steps) && Inv(cfg, s) && Enabled(cfg, s, a) && Disciplined(s, a)
    requires states[0] == Apply(cfg, s, a)
    ensures Continues(cfg, states', steps') && states'[0] == s && states'[|steps'|] == states[|steps|]
  {
    Prepend(cfg, s, a, states, steps);
    steps', states' := [a] + steps, [s] + states;
  }

  /**
   So from every initial state of every configuration, with an initial wait or a live worker, a run in which
   every id is fresh strands the dispatcher on a listed request, from which it never recovers.
   */
  lemma SomeRunStrands(cfg: Config, s: State, l2Tx: L2Transaction, j: nat)
    returns (steps: seq<Action>, states: seq<State>)
    requires Init(cfg, s) && (cfg.initialWait > 0 || (j < |s.threads| && s.threads[j].Idle?))
    ensures Run(cfg, states, steps) && DisciplinedRun(states, steps) && states[0] == s
    ensures Stranded(states[|steps|])
  {
    InitInv(cfg, s);
    steps, states := AddStrands(cfg, s, l2Tx, j);
    ContinuesIsRun(cfg, states, steps);
  }

  lemma ContinuesIsRun(cfg: Config, states: seq<State>, steps: seq<Action>)
    requires Continues(cfg, states, steps) && Init(cfg, states[0])
    ensures Run(cfg, states, steps) && DisciplinedRun(states, steps)
  {
    forall n | 0 <= n < |steps|
      ensures Wf(states[n]) && Enabled(cfg, states[n], steps[n]) && Disciplined(states[n], steps[n])
      ensures states[n + 1] == Apply(cfg, states[n], steps[n])
    {
      var a := steps[n];
    }
  }
}
