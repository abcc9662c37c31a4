/**
 What becomes of a listed request: with a worker alive, a continuation in which it is polled or finished exists
 exactly when the dispatcher is not stranded, or about to be.
 */
module MonitorProgress {
  import opened Wrappers
  import opened Types
  import opened Sequences
  import opened Paths
  import opened MonitorMachine
  import opened MonitorSafety
  import opened MonitorTiming
  import opened MonitorWorkers
  import MonitorSleep
  import MonitorDrain

  /** The dispatcher waits, or has decided to, although requests are listed; and no signal will come. */
  ghost predicate Stuck(s: State) {
    (s.disp.Vacant? || s.disp.Parked?) && s.sorted != [] && MonitorSleep.NoWakerLeft(s)
  }

  /** Since `s`, the request has been polled again, or the monitor has finished with it. */
  predicate Served(s: State, t: State, r: Ref) {
    r < |s.heap| <= |t.heap| && (t.heap[r].polls > s.heap[r].polls || r in t.finished)
  }

  // ---------------------------------------------------------------- stuck for ever

  lemma StuckNext(cfg: Config, s: State, a: Action, r: Ref)
    requires Inv(cfg, s) && Stuck(s) && Enabled(cfg, s, a) && r in s.sorted
    ensures Stuck(Apply(cfg, s, a)) && r in Apply(cfg, s, a).sorted && r < |s.heap| <= |Apply(cfg, s, a).heap|
    ensures Apply(cfg, s, a).heap[r].polls == s.heap[r].polls
  {
    UntouchedElsewhere(cfg, s, a, r);
    OthersKeepTimes(cfg, s, a, r);
    HeapGrows(cfg, s, a);
    if ChangesList(s, a) {
      AddStep(cfg, s, a.i);
      StuckByAdd(cfg, s, a.i, r);
    } else {
      WritesMissTheList(cfg, s, a);
      StuckInSameList(cfg, s, a);
    }
  }

  lemma StuckByAdd(cfg: Config, s: State, i: nat, r: Ref)
    requires Wf(s) && Stuck(s) && Enabled(cfg, s, Advance(i)) && s.threads[i].Listing? && r in s.sorted
    requires exists u: nat :: Inserted(s, Apply(cfg, s, Advance(i)), s.threads[i].ref, u)
    requires Apply(cfg, s, Advance(i)).disp == s.disp
    ensures Stuck(Apply(cfg, s, Advance(i))) && r in Apply(cfg, s, Advance(i)).sorted
  {
    var s' := Apply(cfg, s, Advance(i));
    var u: nat :| Inserted(s, s', s.threads[i].ref, u);
    AdderCounts(cfg, s, i);
    StuckWithMore(s, s', i, s.threads[i].ref, u, r);
  }

  lemma StuckWithMore(s: State, s': State, i: nat, x: Ref, u: nat, r: Ref)
    requires Stuck(s) && s'.disp == s.disp && i < |s.threads| && s'.threads == s.threads[i := Counting]
    requires u <= |s.sorted| && s'.sorted == InsertAt(s.sorted, u, x) && r in s.sorted
    ensures Stuck(s') && r in s'.sorted
  {
    var k :| 0 <= k < |s.sorted| && s.sorted[k] == r;
    assert s'.sorted[if k < u then k else k + 1] == r;
  }

  lemma AdderCounts(cfg: Config, s: State, i: nat)
    requires Wf(s) && Enabled(cfg, s, Advance(i)) && s.threads[i].Listing?
    ensures Apply(cfg, s, Advance(i)).threads == s.threads[i := Counting]
  {
    var t := OwnFollows(cfg, s, Advance(i));
  }

  lemma StuckInSameList(cfg: Config, s: State, a: Action)
    requires Wf(s) && Stuck(s) && Enabled(cfg, s, a) && !ChangesList(s, a)
    requires Apply(cfg, s, a).sorted == s.sorted
    ensures Stuck(Apply(cfg, s, a))
  {
  }

  /** Once stuck, the dispatcher stays so, and what is listed stays listed and unpolled, whatever is submitted. */
  lemma {:induction false} StuckForever(cfg: Config, s: State, steps: seq<Action>, t: State, r: Ref)
    requires Inv(cfg, s) && Stuck(s) && r in s.sorted && DisciplinedTo(cfg, s, steps, t)
    ensures Inv(cfg, t) && Stuck(t) && r in t.sorted && r < |s.heap| <= |t.heap| && !Served(s, t, r)
    ensures t.heap[r].polls == s.heap[r].polls
    decreases |steps|
  {
    if steps == [] {
      var k :| 0 <= k < |s.sorted| && s.sorted[k] == r;
      ListedIsTracked(s, k);
    } else {
      StuckNext(cfg, s, steps[0], r);
      InvNext(cfg, s, steps[0]);
      StuckForever(cfg, Apply(cfg, s, steps[0]), steps[1..], t, r);
    }
  }

  /** `t` follows from `s` by steps in which an id is submitted only while nothing tracks it. */
  ghost predicate DisciplinedTo(cfg: Config, s: State, steps: seq<Action>, t: State)
    decreases |steps|
  {
    if steps == [] then t == s
    else
      && Wf(s) && Enabled(cfg, s, steps[0]) && Disciplined(s, steps[0])
      && DisciplinedTo(cfg, Apply(cfg, s, steps[0]), steps[1..], t)
  }

  lemma {:induction false} WithoutSubmissions(cfg: Config, s: State, steps: seq<Action>, t: State)
    requires LeadsTo(cfg, s, steps, t)
    ensures DisciplinedTo(cfg, s, steps, t)
    decreases |steps|
  {
    if steps != [] {
      assert forall n :: 0 <= n < |steps| - 1 ==> steps[1..][n] == steps[n + 1];
      WithoutSubmissions(cfg, Apply(cfg, s, steps[0]), steps[1..], t);
    }
  }

  // ---------------------------------------------------------------- one step, one path

  lemma OneStep(cfg: Config, s: State, a: Action) returns (steps: seq<Action>)
    requires Wf(s) && Enabled(cfg, s, a) && !a.Submit?
    ensures LeadsTo(cfg, s, steps, Apply(cfg, s, a))
  {
    steps := [a];
    One(ByAny(cfg), s, a, Apply(cfg, s, a));
  }

  lemma Then(cfg: Config, s: State, steps: seq<Action>, t: State, more: seq<Action>, u: State)
    returns (all: seq<Action>)
    requires LeadsTo(cfg, s, steps, t) && LeadsTo(cfg, t, more, u)
    ensures LeadsTo(cfg, s, all, u)
  {
    all := steps + more;
    Further(ByAny(cfg), s, steps, t, more, u);
  }

  /** Along the way the invariant and the worker live on, and no poll is forgotten. */
  lemma {:induction false} OnTheWay(cfg: Config, s: State, steps: seq<Action>, t: State, live: nat, r: Ref)
    requires Going(cfg, s, live) && LeadsTo(cfg, s, steps, t) && r < |s.heap|
    ensures Going(cfg, t, live) && r < |t.heap| && t.heap[r].polls >= s.heap[r].polls && |s.heap| <= |t.heap|
    decreases |steps|
  {
    if steps != [] {
      assert forall n :: 0 <= n < |steps| - 1 ==> steps[1..][n] == steps[n + 1];
      GoingNext(cfg, s, steps[0], live);
      PollsAfter(cfg, s, steps[0], r);
      HeapGrows(cfg, s, steps[0]);
      OnTheWay(cfg, Apply(cfg, s, steps[0]), steps[1..], t, live, r);
    }
  }

  // ---------------------------------------------------------------- from the channel to a poll

  /** The workers can always empty the channel. */
  lemma {:induction false} WorkToQuiet(cfg: Config, s: State, live: nat) returns (steps: seq<Action>, t: State)
    requires Going(cfg, s, live)
    ensures WorksTo(cfg, s, steps, t) && Quiet(t)
    decreases WorkLeft(s)
  {
    if s.blocked == [] && s.queue == [] && forall i :: 0 <= i < |s.threads| ==> AtRest(s.threads[i]) {
      steps, t := [], s;
    } else {
      var a := NoRequestIsStuck(cfg, s, live);
      GoingNext(cfg, s, a, live);
      WorkRunsOut(cfg, s, a);
      var more;
      more, t := WorkToQuiet(cfg, Apply(cfg, s, a), live);
      steps := [a] + more;
      assert steps[1..] == more;
    }
  }

  lemma FromChannel(cfg: Config, s: State, live: nat, r: Ref) returns (steps: seq<Action>, t: State)
    requires Going(cfg, s, live) && r in s.blocked
    ensures LeadsTo(cfg, s, steps, t) && Served(s, t, r)
  {
    var k :| 0 <= k < |s.blocked| && s.blocked[k] == r;
    steps, t := WorkToQuiet(cfg, s, live);
    WorkEnds(cfg, s, steps, t, live, r);
    OnTheWay(cfg, s, steps, t, live, r);
  }

  // ---------------------------------------------------------------- from the list to the channel

  lemma {:induction false} DispatchedLeads(cfg: Config, s: State, oks: seq<bool>, t: State)
    returns (steps: seq<Action>)
    requires MonitorDrain.DispatchedTo(cfg, s, oks, t)
    ensures LeadsTo(cfg, s, steps, t)
    decreases |oks|
  {
    if oks == [] {
      steps := [];
    } else {
      var more := DispatchedLeads(cfg, Apply(cfg, s, Dispatch(oks[0])), oks[1..], t);
      steps := [Dispatch(oks[0])] + more;
      assert steps[1..] == more;
    }
  }

  /** How many of the leading requests the dispatcher lets go of. */
  function LeadingCount(cfg: Config, heap: seq<Request>, refs: seq<Ref>, now: int): (n: nat)
    requires MonitorDrain.RefsIn(heap, refs)
    ensures n <= |refs|
    ensures forall i :: 0 <= i < n ==> MonitorDrain.LetsGo(cfg, heap[refs[i]], now)
    ensures n < |refs| ==> !MonitorDrain.LetsGo(cfg, heap[refs[n]], now)
  {
    if refs == [] || !MonitorDrain.LetsGo(cfg, heap[refs[0]], now) then 0
    else 1 + LeadingCount(cfg, heap, refs[1..], now)
  }

  function Rounds(n: nat): (rounds: seq<MonitorDrain.Round>)
    ensures |rounds| == n
  {
    seq(n, _ => MonitorDrain.Round(true, true, true, true, true, true))
  }

  /** A request overdue by a millisecond, and with it everything in front of it, is let go of. */
  lemma OverdueLeads(cfg: Config, s: State, k: nat)
    requires Wf(s) && Ordered(s) && k < |s.sorted| && s.clock > s.heap[s.sorted[k]].nextRetry + 1_000_000
    ensures k < LeadingCount(cfg, s.heap, s.sorted, s.clock)
  {
    var n := LeadingCount(cfg, s.heap, s.sorted, s.clock);
    if n <= k {
      EarlierMilliIsEarlier(s.heap[s.sorted[n]].nextRetry, s.heap[s.sorted[k]].nextRetry);
    }
  }

  /** From the test of the list: a burst at a late enough clock lets go of the request. */
  lemma BurstServes(cfg: Config, s: State, r: Ref) returns (steps: seq<Action>, t: State)
    requires Inv(cfg, s) && s.disp == Top && r in s.sorted && r < |s.heap|
    requires s.clock > s.heap[r].nextRetry + 1_000_000
    ensures LeadsTo(cfg, s, steps, t) && (r in t.blocked || r in t.finished)
  {
    var k :| 0 <= k < |s.sorted| && s.sorted[k] == r;
    OverdueLeads(cfg, s, k);
    var rounds := Rounds(LeadingCount(cfg, s.heap, s.sorted, s.clock));
    t := MonitorDrain.AfterBurst(cfg, s, rounds);
    MonitorDrain.BurstDrains(cfg, s, rounds, t);
    steps := DispatchedLeads(cfg, s, MonitorDrain.Flat(rounds), t);
    assert s.sorted[..|rounds|][k] == r;
  }

  /** The clock moves on, far enough. */
  lemma TickServes(cfg: Config, s: State, r: Ref) returns (steps: seq<Action>, t: State)
    requires Inv(cfg, s) && s.disp == Top && r in s.sorted && r < |s.heap|
    ensures LeadsTo(cfg, s, steps, t) && (r in t.blocked || r in t.finished)
  {
    var due := s.heap[r].nextRetry + 1_000_001;
    var a := Tick(if due > s.clock then due - s.clock else 0);
    InvNext(cfg, s, a);
    var first := OneStep(cfg, s, a);
    var more;
    more, t := BurstServes(cfg, Apply(cfg, s, a), r);
    steps := Then(cfg, s, first, Apply(cfg, s, a), more, t);
  }

  // ---------------------------------------------------------------- back to the test of the list

  /** The dispatcher's statements, and the end of its sleep, left before it tests the list again. */
  function TurnLeft(s: State): nat {
    match s.disp
    case NonEmpty => 6
    case Clocked(_) => 5
    case Judging(_, _) => 4
    case Expiring(_) => 2
    case Discarding(_) => 1
    case Dropping(_) => 2
    case Requeueing(_) => 1
    case Sleeping(_, _, until) => if until > s.clock then 2 else 1
    case _ => 0
  }

  predicate OutOfReach(s: State) {
    s.disp.Vacant? || s.disp.Parked?
  }

  /** Listed, in the dispatcher's hands, on the way to the channel, or finished. */
  predicate Underway(s: State, r: Ref) {
    r in s.sorted || s.disp == Requeueing(r) || r in s.blocked || r in s.finished
  }

  /** In its turn the dispatcher has a next step, at the latest when its sleep is over, and each brings it nearer. */
  lemma DispatcherGoesOn(cfg: Config, s: State) returns (a: Action)
    requires Inv(cfg, s) && s.disp != Top && !OutOfReach(s)
    ensures Enabled(cfg, s, a) && (a.Dispatch? || a.Tick?)
    ensures TurnLeft(Apply(cfg, s, a)) < TurnLeft(s) && !OutOfReach(Apply(cfg, s, a))
  {
    if s.disp.Sleeping? && s.disp.until > s.clock {
      a := Tick(s.disp.until - s.clock);
    } else {
      a := Dispatch(true);
      DispatchGoesOn(cfg, s);
    }
  }

  lemma DispatchGoesOn(cfg: Config, s: State)
    requires Wf(s) && Enabled(cfg, s, Dispatch(true)) && s.disp != Top && !OutOfReach(s)
    requires s.disp.Clocked? ==> s.sorted != []
    ensures TurnLeft(AdvanceDispatcher(cfg, s, true)) < TurnLeft(s) && !OutOfReach(AdvanceDispatcher(cfg, s, true))
  {
  }

  lemma StaysUnderway(cfg: Config, s: State, a: Action, r: Ref)
    requires Inv(cfg, s) && Enabled(cfg, s, a) && (a.Dispatch? || a.Tick?) && Underway(s, r)
    ensures Underway(Apply(cfg, s, a), r)
  {
    if a.Dispatch? {
      if s.disp.Discarding? || s.disp.Dropping? {
        var g: nat :| FirstOfMilliAt(s, s.disp.ref, g);
        DispatcherDeleteHits(s, g);
        MonitorDrain.Deletes(cfg, s, a.ok);
        RemovedStaysUnderway(s, Apply(cfg, s, a), g, r);
      } else {
        TurnKeeps(cfg, s, a.ok);
      }
    }
  }

  lemma TurnKeeps(cfg: Config, s: State, ok: bool)
    requires Wf(s) && Enabled(cfg, s, Dispatch(ok)) && !s.disp.Discarding? && !s.disp.Dropping?
    ensures
      var s' := AdvanceDispatcher(cfg, s, ok);
      && s'.sorted == s.sorted && s'.finished == s.finished
      && s'.blocked == if s.disp.Requeueing? then s.blocked + [s.disp.ref] else s.blocked
  {
  }

  lemma RemovedStaysUnderway(s: State, s': State, g: nat, r: Ref)
    requires (s.disp.Discarding? || s.disp.Dropping?) && Underway(s, r)
    requires g < |s.sorted| && s.sorted[g] == s.disp.ref && s'.sorted == RemoveAt(s.sorted, g)
    requires s'.blocked == s.blocked
    requires s.disp.Dropping? ==> s'.disp == Requeueing(s.disp.ref) && s'.finished == s.finished
    requires s.disp.Discarding? ==> s'.finished == s.finished + [s.disp.ref]
    ensures Underway(s', r)
  {
    if k :| 0 <= k < |s.sorted| && s.sorted[k] == r && r != s.disp.ref {
      assert s'.sorted[if k < g then k else k - 1] == r;
    } else if r == s.disp.ref {
      assert s.disp.Discarding? ==> s'.finished[|s.finished|] == r;
    }
  }

  lemma {:induction false} ToTop(cfg: Config, s: State, live: nat, r: Ref) returns (steps: seq<Action>, t: State)
    requires Going(cfg, s, live) && Underway(s, r) && !OutOfReach(s)
    ensures LeadsTo(cfg, s, steps, t) && t.disp == Top && Underway(t, r)
    decreases TurnLeft(s)
  {
    if s.disp == Top {
      steps, t := [], s;
    } else {
      var a := DispatcherGoesOn(cfg, s);
      var u := Apply(cfg, s, a);
      GoingNext(cfg, s, a, live);
      StaysUnderway(cfg, s, a, r);
      var first := OneStep(cfg, s, a);
      var more;
      more, t := ToTop(cfg, u, live, r);
      steps := Then(cfg, s, first, u, more, t);
    }
  }

  /** From the test of the list, a request that is listed, blocked or finished can be served. */
  lemma TopServes(cfg: Config, s: State, live: nat, r: Ref) returns (steps: seq<Action>, t: State)
    requires Going(cfg, s, live) && s.disp == Top && Underway(s, r) && r < |s.heap|
    ensures LeadsTo(cfg, s, steps, t) && Served(s, t, r)
  {
    steps, t := [], s;
    if r in s.sorted {
      steps, t := TickServes(cfg, s, r);
      OnTheWay(cfg, s, steps, t, live, r);
    }
    if r !in t.finished {
      var more, u := FromChannel(cfg, t, live, r);
      steps := Then(cfg, s, steps, t, more, u);
      t := u;
    }
  }

  lemma AwakeServes(cfg: Config, s: State, live: nat, r: Ref) returns (steps: seq<Action>, t: State)
    requires Going(cfg, s, live) && r in s.sorted && !OutOfReach(s)
    ensures LeadsTo(cfg, s, steps, t) && Served(s, t, r)
  {
    var u;
    steps, u := ToTop(cfg, s, live, r);
    OnTheWay(cfg, s, steps, u, live, r);
    var more;
    more, t := TopServes(cfg, u, live, r);
    steps := Then(cfg, s, steps, u, more, t);
  }

  // ---------------------------------------------------------------- waking up

  lemma Signals(cfg: Config, s: State, i: nat)
    requires Wf(s) && !s.panicked && s.disp.Parked? && i < |s.threads| && s.threads[i].Signalling?
    ensures Enabled(cfg, s, Advance(i))
    ensures
      var t := Apply(cfg, s, Advance(i));
      t.disp == Top && t.sorted == s.sorted && t.heap == s.heap
  {
  }

  lemma Counts(cfg: Config, s: State, i: nat)
    requires Wf(s) && !s.panicked && |s.sorted| == 1 && i < |s.threads| && s.threads[i].Counting?
    ensures Enabled(cfg, s, Advance(i)) && Apply(cfg, s, Advance(i)) == s.(threads := s.threads[i := Signalling])
  {
  }

  /** A goroutine that signals, or that will find the length one, wakes the dispatcher. */
  lemma Wakes(cfg: Config, s: State, live: nat) returns (steps: seq<Action>, t: State)
    requires Going(cfg, s, live) && s.disp.Parked? && s.sorted != [] && !MonitorSleep.NoWakerLeft(s)
    ensures LeadsTo(cfg, s, steps, t) && t.disp == Top && t.sorted == s.sorted && t.heap == s.heap
  {
    if i :| 0 <= i < |s.threads| && s.threads[i].Signalling? {
      Signals(cfg, s, i);
      t := Apply(cfg, s, Advance(i));
      steps := OneStep(cfg, s, Advance(i));
    } else {
      var i :| 0 <= i < |s.threads| && s.threads[i].Counting?;
      Counts(cfg, s, i);
      var u := Apply(cfg, s, Advance(i));
      GoingNext(cfg, s, Advance(i), live);
      Signals(cfg, u, i);
      t := Apply(cfg, u, Advance(i));
      var first := OneStep(cfg, s, Advance(i));
      var more := OneStep(cfg, u, Advance(i));
      steps := Then(cfg, s, first, u, more, t);
    }
  }

  lemma ParkedServes(cfg: Config, s: State, live: nat, r: Ref) returns (steps: seq<Action>, t: State)
    requires Going(cfg, s, live) && r in s.sorted && s.disp.Parked? && !MonitorSleep.NoWakerLeft(s)
    ensures LeadsTo(cfg, s, steps, t) && Served(s, t, r)
  {
    var u;
    steps, u := Wakes(cfg, s, live);
    OnTheWay(cfg, s, steps, u, live, r);
    var more;
    more, t := TopServes(cfg, u, live, r);
    steps := Then(cfg, s, steps, u, more, t);
  }

  lemma VacantServes(cfg: Config, s: State, live: nat, r: Ref) returns (steps: seq<Action>, t: State)
    requires Going(cfg, s, live) && r in s.sorted && s.disp.Vacant? && !MonitorSleep.NoWakerLeft(s)
    ensures LeadsTo(cfg, s, steps, t) && Served(s, t, r)
  {
    var wait := Dispatch(true);
    var u := Apply(cfg, s, wait);
    assert u == s.(disp := Parked);
    GoingNext(cfg, s, wait, live);
    var first := OneStep(cfg, s, wait);
    var more;
    more, t := ParkedServes(cfg, u, live, r);
    steps := Then(cfg, s, first, u, more, t);
  }

  /** Unless the dispatcher is stuck, a listed request can be served, even without a new submission. */
  lemma UnlessStuck(cfg: Config, s: State, live: nat, r: Ref) returns (steps: seq<Action>, t: State)
    requires Going(cfg, s, live) && r in s.sorted && !Stuck(s)
    ensures LeadsTo(cfg, s, steps, t) && Served(s, t, r)
  {
    if s.disp.Vacant? {
      steps, t := VacantServes(cfg, s, live, r);
    } else if s.disp.Parked? {
      steps, t := ParkedServes(cfg, s, live, r);
    } else {
      steps, t := AwakeServes(cfg, s, live, r);
    }
  }

  ghost predicate CanBeServed(cfg: Config, s: State, r: Ref) {
    exists steps: seq<Action>, t: State :: DisciplinedTo(cfg, s, steps, t) && Served(s, t, r)
  }

  /**
   In every run with a live worker, and at every instant of it: a listed request can still be polled again or
   finished if and only if the dispatcher is not parked, or about to park, with no signal to come.
   */
  lemma ServedIffNotStuck(cfg: Config, states: seq<State>, steps: seq<Action>, n: nat, live: nat, r: Ref)
    requires Run(cfg, states, steps) && DisciplinedRun(states, steps) && n < |states|
    requires live < cfg.workers && live < |states[0].threads| && states[0].threads[live] == Idle
    requires r in states[n].sorted
    ensures CanBeServed(cfg, states[n], r) <==> !Stuck(states[n])
  {
    RunRoles(cfg, states, steps, n);
    if Stuck(states[n]) {
      forall more: seq<Action>, t: State | DisciplinedTo(cfg, states[n], more, t)
        ensures !Served(states[n], t, r)
      {
        StuckForever(cfg, states[n], more, t, r);
      }
    } else {
      var more, t := UnlessStuck(cfg, states[n], live, r);
      WithoutSubmissions(cfg, states[n], more, t);
    }
  }
}
