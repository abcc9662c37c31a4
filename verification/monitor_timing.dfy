/** What the clock guarantees: how often a request is polled, and how long the dispatcher can oversleep. */
module MonitorTiming {
  import opened Types
  import opened MonitorMachine
  import opened MonitorSafety

  function FirstWait(cfg: Config): nat {
    if cfg.initialWait > 0 then cfg.initialWait else 0
  }

  /** The earliest instant at which a request that was polled `n` times can be due again. */
  function Floor(cfg: Config, q: Request, n: int): int {
    q.addedAt + FirstWait(cfg) + n * cfg.retryWait
  }

  lemma FloorStep(cfg: Config, q: Request, n: int)
    ensures Floor(cfg, q, n + 1) == Floor(cfg, q, n) + cfg.retryWait
  {
    assert (n + 1) * cfg.retryWait == n * cfg.retryWait + cfg.retryWait;
  }

  /** A request counts as retried once the dispatcher, rather than its adder, has sent it to a worker. */
  predicate Retried(cfg: Config, polls: int) {
    polls >= 2 || (polls >= 1 && cfg.initialWait > 0)
  }

  // ---------------------------------------------------------------- stages of a request

  predicate Created(q: Request, clock: int) {
    q.polls == 0 && q.addedAt <= clock
  }

  predicate Stamped(cfg: Config, q: Request, clock: int) {
    && q.nextRetry >= Floor(cfg, q, q.polls) && Retried(cfg, q.polls + 1)
    && q.nextRetry == q.stampedAt + (if q.polls == 0 then cfg.initialWait else cfg.retryWait)
    && q.stampedAt <= clock
  }

  predicate Listed(cfg: Config, q: Request, clock: int) {
    Stamped(cfg, q, clock) && q.stampedAt <= q.listedAt <= clock
  }

  predicate Dispatched(cfg: Config, q: Request, clock: int) {
    && clock >= Floor(cfg, q, q.polls)
    && (Retried(cfg, q.polls + 1) ==> Floor(cfg, q, q.polls) < q.l2Tx.receivedAt + cfg.lifeTimeMax)
  }

  predicate Answered(cfg: Config, q: Request, clock: int) {
    q.polls >= 1 && clock >= Floor(cfg, q, q.polls - 1)
  }

  predicate Bounded(cfg: Config, q: Request) {
    Retried(cfg, q.polls) ==> Floor(cfg, q, q.polls - 1) < q.l2Tx.receivedAt + cfg.lifeTimeMax
  }

  predicate ThreadTimed(cfg: Config, heap: seq<Request>, t: Thread, clock: int)
    requires t.Holds() ==> t.ref < |heap|
  {
    match t
    case Fresh(r) => Created(heap[r], clock)
    case Polling(r) => Dispatched(cfg, heap[r], clock)
    case Writing(r, _) => Answered(cfg, heap[r], clock)
    case Deleting(r) => Answered(cfg, heap[r], clock)
    case Retrying(r) => Answered(cfg, heap[r], clock)
    case Listing(r) => Stamped(cfg, heap[r], clock)
    case _ => true
  }

  predicate DispatcherTimed(cfg: Config, heap: seq<Request>, d: Dispatcher, clock: int)
    requires d.Refers() ==> d.ref < |heap|
  {
    match d
    case Clocked(now) => now <= clock
    case Judging(now, _) => now <= clock
    case Dropping(r) => Dispatched(cfg, heap[r], clock)
    case Requeueing(r) => Dispatched(cfg, heap[r], clock)
    case Sleeping(r, now, until) => now <= clock && until >= heap[r].nextRetry
    case _ => true
  }

  ghost predicate Timed(cfg: Config, s: State)
    requires Wf(s)
  {
    && (forall r: Ref :: r < |s.heap| ==> Bounded(cfg, s.heap[r]))
    && (forall r: Ref :: r < |s.heap| && r in s.sorted ==> Listed(cfg, s.heap[r], s.clock))
    && (forall r: Ref :: r < |s.heap| && r in s.blocked ==> Dispatched(cfg, s.heap[r], s.clock))
    && (forall r: Ref :: r < |s.heap| && r in s.queue ==> Dispatched(cfg, s.heap[r], s.clock))
    && (forall i :: 0 <= i < |s.threads| ==> ThreadTimed(cfg, s.heap, s.threads[i], s.clock))
    && DispatcherTimed(cfg, s.heap, s.disp, s.clock)
  }

  // ---------------------------------------------------------------- preservation

  /** What the stages read of a request. */
  predicate SameTimes(q: Request, q': Request) {
    && q'.l2Tx == q.l2Tx && q'.nextRetry == q.nextRetry && q'.addedAt == q.addedAt && q'.stampedAt == q.stampedAt
    && q'.polls == q.polls
  }

  lemma LaterStillTimed(cfg: Config, q: Request, q': Request, clock: int, clock': int)
    requires SameTimes(q, q') && clock <= clock'
    ensures Created(q, clock) ==> Created(q', clock')
    ensures Stamped(cfg, q, clock) ==> Stamped(cfg, q', clock')
    ensures Dispatched(cfg, q, clock) ==> Dispatched(cfg, q', clock')
    ensures Answered(cfg, q, clock) ==> Answered(cfg, q', clock')
    ensures Bounded(cfg, q) ==> Bounded(cfg, q')
    ensures q'.listedAt == q.listedAt && Listed(cfg, q, clock) ==> Listed(cfg, q', clock')
  {
  }

  /** The request a step writes in place, if it writes one. */
  predicate Touches(s: State, a: Action, r: Ref) {
    || (a.Submit? && r == |s.heap|)
    || ((a.Poll? || a.Record? || a.Advance?) && a.i < |s.threads| && s.threads[a.i].Holds() && s.threads[a.i].ref == r)
  }

  /** Every other request shows the same times, and its listing instant is unchanged. */
  lemma OthersKeepTimes(cfg: Config, s: State, a: Action, r: Ref)
    requires Wf(s) && Enabled(cfg, s, a) && r < |s.heap| && !Touches(s, a, r)
    ensures
      var s' := Apply(cfg, s, a);
      r < |s'.heap| && SameTimes(s.heap[r], s'.heap[r]) && s'.heap[r].listedAt == s.heap[r].listedAt
  {
    if a.Dispatch? {
      DispatcherKeepsTimes(cfg, s, a.ok, r);
    }
  }

  lemma DispatcherKeepsTimes(cfg: Config, s: State, ok: bool, r: Ref)
    requires Wf(s) && Enabled(cfg, s, Dispatch(ok)) && r < |s.heap|
    ensures
      var s' := AdvanceDispatcher(cfg, s, ok);
      |s'.heap| == |s.heap| && SameTimes(s.heap[r], s'.heap[r]) && s'.heap[r].listedAt == s.heap[r].listedAt
      && s'.clock == s.clock
  {
  }

  lemma ClockGrows(cfg: Config, s: State, a: Action)
    requires Wf(s) && Enabled(cfg, s, a)
    ensures Apply(cfg, s, a).clock >= s.clock
  {
  }

  /** Where the members of the containers come from. */
  lemma Origins(cfg: Config, s: State, a: Action, r: Ref)
    requires Wf(s) && Enabled(cfg, s, a) && Works(s, a)
    ensures
      var s' := Apply(cfg, s, a);
      && (r in s'.sorted ==> r in s.sorted || (a.Advance? && s.threads[a.i] == Listing(r)))
      && (r in s'.queue ==> r in s.queue || r in s.blocked)
      && (r in s'.blocked ==>
            || r in s.blocked || (a.Advance? && s.threads[a.i] == Fresh(r) && cfg.initialWait <= 0)
            || (a.Dispatch? && s.disp == Requeueing(r)))
  {
    if a.Advance? {
      AdvanceOrigins(cfg, s, a.i, r);
    } else if a.Dispatch? {
      DispatchOrigins(cfg, s, a.ok, r);
    }
  }

  lemma AdvanceOrigins(cfg: Config, s: State, i: nat, r: Ref)
    requires Wf(s) && Enabled(cfg, s, Advance(i)) && Works(s, Advance(i))
    ensures
      var s' := AdvanceThread(cfg, s, i);
      && (r in s'.sorted ==> r in s.sorted || s.threads[i] == Listing(r))
      && s'.queue == s.queue
      && (r in s'.blocked ==> r in s.blocked || (s.threads[i] == Fresh(r) && cfg.initialWait <= 0))
  {
  }

  lemma DispatchOrigins(cfg: Config, s: State, ok: bool, r: Ref)
    requires Wf(s) && Enabled(cfg, s, Dispatch(ok))
    ensures
      var s' := AdvanceDispatcher(cfg, s, ok);
      && (r in s'.sorted ==> r in s.sorted)
      && s'.queue == s.queue && s'.threads == s.threads
      && (r in s'.blocked ==> r in s.blocked || s.disp == Requeueing(r))
  {
  }

  /** The request a step of a thread touches enters the stage of the place it moves to. */
  ghost predicate EntersStage(cfg: Config, s: State, s': State, i: nat)
    requires Wf(s) && i < |s.threads| && i < |s'.threads|
  {
    var t, t' := s.threads[i], s'.threads[i];
    && (t'.Holds() ==> t'.ref < |s'.heap|) && ThreadTimed(cfg, s'.heap, t', s'.clock)
    && (t.Holds() ==>
          && t.ref < |s'.heap|
          && var q' := s'.heap[t.ref];
             && Bounded(cfg, q')
             && (t.Listing? ==> Listed(cfg, q', s'.clock))
             && (t.Fresh? && cfg.initialWait <= 0 ==> Dispatched(cfg, q', s'.clock)))
  }

  lemma AnswerEntersStage(cfg: Config, s: State, a: Action)
    requires Wf(s) && Timed(cfg, s) && Enabled(cfg, s, a) && (a.Poll? || a.Record?)
    ensures EntersStage(cfg, s, Apply(cfg, s, a), a.i)
  {
    assert ThreadTimed(cfg, s.heap, s.threads[a.i], s.clock);
    assert Bounded(cfg, s.heap[s.threads[a.i].ref]);
  }

  /** The stamp of a retry is due no earlier than the polls so far allow. */
  lemma RetryIsStamped(cfg: Config, s: State, i: nat)
    requires Wf(s) && Timed(cfg, s) && Enabled(cfg, s, Advance(i)) && (s.threads[i].Retrying? || s.threads[i].Fresh?)
    ensures EntersStage(cfg, s, AdvanceThread(cfg, s, i), i)
  {
    var t := s.threads[i];
    var q := s.heap[t.ref];
    assert ThreadTimed(cfg, s.heap, t, s.clock) && Bounded(cfg, q);
    FloorStep(cfg, q, q.polls - 1);
  }

  lemma CallEntersStage(cfg: Config, s: State, i: nat)
    requires Wf(s) && Timed(cfg, s) && Enabled(cfg, s, Advance(i)) && Works(s, Advance(i))
    requires !s.threads[i].Retrying? && !s.threads[i].Fresh?
    ensures EntersStage(cfg, s, AdvanceThread(cfg, s, i), i)
  {
    var t := s.threads[i];
    assert ThreadTimed(cfg, s.heap, t, s.clock);
    assert t.Holds() ==> Bounded(cfg, s.heap[t.ref]);
  }

  lemma AdvanceEntersStage(cfg: Config, s: State, i: nat)
    requires Wf(s) && Timed(cfg, s) && Enabled(cfg, s, Advance(i)) && Works(s, Advance(i))
    ensures EntersStage(cfg, s, AdvanceThread(cfg, s, i), i)
  {
    if s.threads[i].Retrying? || s.threads[i].Fresh? {
      RetryIsStamped(cfg, s, i);
    } else {
      CallEntersStage(cfg, s, i);
    }
  }

  lemma TouchedEntersStage(cfg: Config, s: State, a: Action)
    requires Wf(s) && Timed(cfg, s) && Enabled(cfg, s, a) && Works(s, a)
    requires a.Poll? || a.Record? || a.Advance?
    ensures |Apply(cfg, s, a).threads| == |s.threads|
    ensures EntersStage(cfg, s, Apply(cfg, s, a), a.i)
  {
    if a.Advance? {
      AdvanceEntersStage(cfg, s, a.i);
      AdvanceMoves(cfg, s, a.i);
    } else {
      AnswerEntersStage(cfg, s, a);
      AnswerMoves(cfg, s, a);
    }
  }

  lemma BoundedNext(cfg: Config, s: State, a: Action, r: Ref)
    requires Inv(cfg, s) && Timed(cfg, s) && Enabled(cfg, s, a) && Works(s, a) && r < |Apply(cfg, s, a).heap|
    ensures Bounded(cfg, Apply(cfg, s, a).heap[r])
  {
    HeapGrows(cfg, s, a);
    if a.Submit? && r == |s.heap| {
      FreshIsBounded(cfg, s, a.l2Tx);
    } else if Touches(s, a, r) {
      TouchedEntersStage(cfg, s, a);
    } else {
      assert Bounded(cfg, s.heap[r]);
      OthersStayBounded(cfg, s, a, r);
    }
  }

  lemma FreshIsBounded(cfg: Config, s: State, l2Tx: L2Transaction)
    requires Wf(s) && Enabled(cfg, s, Submit(l2Tx))
    ensures |Apply(cfg, s, Submit(l2Tx)).heap| == |s.heap| + 1
    ensures Bounded(cfg, Apply(cfg, s, Submit(l2Tx)).heap[|s.heap|])
  {
  }

  lemma OthersStayBounded(cfg: Config, s: State, a: Action, r: Ref)
    requires Wf(s) && Enabled(cfg, s, a) && r < |s.heap| && !Touches(s, a, r) && Bounded(cfg, s.heap[r])
    ensures r < |Apply(cfg, s, a).heap| && Bounded(cfg, Apply(cfg, s, a).heap[r])
  {
    OthersKeepTimes(cfg, s, a, r);
  }

  lemma ListedNext(cfg: Config, s: State, a: Action, r: Ref)
    requires Inv(cfg, s) && Timed(cfg, s) && Enabled(cfg, s, a) && Works(s, a) && r < |Apply(cfg, s, a).heap|
    requires r in Apply(cfg, s, a).sorted
    ensures Listed(cfg, Apply(cfg, s, a).heap[r], Apply(cfg, s, a).clock)
  {
    Origins(cfg, s, a, r);
    if r in s.sorted {
      UntouchedElsewhere(cfg, s, a, r);
      StaysListed(cfg, s, a, r);
    } else {
      AddedIsListed(cfg, s, a.i);
    }
  }

  lemma AddedIsListed(cfg: Config, s: State, i: nat)
    requires Wf(s) && Timed(cfg, s) && Enabled(cfg, s, Advance(i)) && Works(s, Advance(i)) && s.threads[i].Listing?
    ensures s.threads[i].ref < |AdvanceThread(cfg, s, i).heap|
    ensures Listed(cfg, AdvanceThread(cfg, s, i).heap[s.threads[i].ref], AdvanceThread(cfg, s, i).clock)
  {
    AdvanceEntersStage(cfg, s, i);
  }

  lemma StaysListed(cfg: Config, s: State, a: Action, r: Ref)
    requires Wf(s) && Enabled(cfg, s, a) && r < |s.heap| && !Touches(s, a, r) && Listed(cfg, s.heap[r], s.clock)
    ensures r < |Apply(cfg, s, a).heap| && Listed(cfg, Apply(cfg, s, a).heap[r], Apply(cfg, s, a).clock)
  {
    var s' := Apply(cfg, s, a);
    OthersKeepTimes(cfg, s, a, r);
    ClockGrows(cfg, s, a);
    LaterStillTimed(cfg, s.heap[r], s'.heap[r], s.clock, s'.clock);
  }

  /** What is in the list or in the channel is not written by the step. */
  lemma UntouchedElsewhere(cfg: Config, s: State, a: Action, r: Ref)
    requires Inv(cfg, s) && Enabled(cfg, s, a) && (r in s.sorted || r in s.blocked || r in s.queue)
    ensures r < |s.heap| && !Touches(s, a, r)
  {
    if (a.Poll? || a.Record? || a.Advance?) && s.threads[a.i].Holds() {
      HeldIsElsewhereAbsent(s, a.i);
    }
  }

  lemma ChannelNext(cfg: Config, s: State, a: Action, r: Ref)
    requires Inv(cfg, s) && Timed(cfg, s) && Enabled(cfg, s, a) && Works(s, a) && r < |Apply(cfg, s, a).heap|
    requires r in Apply(cfg, s, a).blocked || r in Apply(cfg, s, a).queue
    ensures Dispatched(cfg, Apply(cfg, s, a).heap[r], Apply(cfg, s, a).clock)
  {
    var s' := Apply(cfg, s, a);
    Origins(cfg, s, a, r);
    ClockGrows(cfg, s, a);
    if r in s.blocked || r in s.queue {
      UntouchedElsewhere(cfg, s, a, r);
      OthersKeepTimes(cfg, s, a, r);
      LaterStillTimed(cfg, s.heap[r], s'.heap[r], s.clock, s'.clock);
    } else if a.Advance? {
      TouchedEntersStage(cfg, s, a);
    } else {
      OthersKeepTimes(cfg, s, a, r);
      LaterStillTimed(cfg, s.heap[r], s'.heap[r], s.clock, s'.clock);
    }
  }

  /** A thread the step does not move keeps its request in the same stage. */
  lemma BystanderNext(cfg: Config, s: State, a: Action, i: nat)
    requires Inv(cfg, s) && Timed(cfg, s) && Enabled(cfg, s, a)
    requires i < |s.threads| && !((a.Poll? || a.Record? || a.Advance?) && a.i == i)
    requires s.threads[i].Holds() ==> s.threads[i].ref < |Apply(cfg, s, a).heap|
    ensures ThreadTimed(cfg, Apply(cfg, s, a).heap, s.threads[i], Apply(cfg, s, a).clock)
  {
    var s' := Apply(cfg, s, a);
    ClockGrows(cfg, s, a);
    assert ThreadTimed(cfg, s.heap, s.threads[i], s.clock);
    if s.threads[i].Holds() {
      var r := s.threads[i].ref;
      HeldIsElsewhereAbsent(s, i);
      OthersKeepTimes(cfg, s, a, r);
      LaterStillTimed(cfg, s.heap[r], s'.heap[r], s.clock, s'.clock);
    }
  }

  lemma ThreadShapes(cfg: Config, s: State, a: Action, i: nat)
    requires Wf(s) && Enabled(cfg, s, a) && Works(s, a) && i < |Apply(cfg, s, a).threads|
    ensures
      var s' := Apply(cfg, s, a);
      || (i < |s.threads| && s'.threads[i] == s.threads[i])
      || ((a.Poll? || a.Record? || a.Advance?) && a.i == i)
      || (a.Submit? && i == |s.threads| && s'.threads[i] == Fresh(|s.heap|))
      || (a.Receive? && a.i == i && s.queue != [] && s'.threads[i] == Polling(s.queue[0]))
      || (a.HandOff? && a.i == i && a.k < |s.blocked| && s'.threads[i] == Polling(s.blocked[a.k]))
  {
  }

  lemma ThreadNext(cfg: Config, s: State, a: Action, i: nat)
    requires Inv(cfg, s) && Timed(cfg, s) && Enabled(cfg, s, a) && Works(s, a)
    requires Wf(Apply(cfg, s, a)) && i < |Apply(cfg, s, a).threads|
    ensures ThreadTimed(cfg, Apply(cfg, s, a).heap, Apply(cfg, s, a).threads[i], Apply(cfg, s, a).clock)
  {
    var s' := Apply(cfg, s, a);
    ThreadShapes(cfg, s, a, i);
    if (a.Poll? || a.Record? || a.Advance?) && a.i == i {
      TouchedEntersStage(cfg, s, a);
    } else if a.Submit? && i == |s.threads| {
      assert s'.heap[|s.heap|].polls == 0;
    } else if (a.Receive? || a.HandOff?) && a.i == i {
      var r := if a.Receive? then s.queue[0] else s.blocked[a.k];
      UntouchedElsewhere(cfg, s, a, r);
      OthersKeepTimes(cfg, s, a, r);
      ClockGrows(cfg, s, a);
      LaterStillTimed(cfg, s.heap[r], s'.heap[r], s.clock, s'.clock);
    } else {
      BystanderNext(cfg, s, a, i);
    }
  }

  lemma DispatcherTimedNext(cfg: Config, s: State, a: Action)
    requires Inv(cfg, s) && Timed(cfg, s) && Enabled(cfg, s, a) && Works(s, a) && Wf(Apply(cfg, s, a))
    ensures DispatcherTimed(cfg, Apply(cfg, s, a).heap, Apply(cfg, s, a).disp, Apply(cfg, s, a).clock)
  {
    var s' := Apply(cfg, s, a);
    ClockGrows(cfg, s, a);
    if a.Dispatch? {
      if s.disp.Judging? {
        var g: nat :| FirstOfMilliAt(s, s.disp.ref, g);
        assert s.disp.ref in s.sorted;
      }
      DispatchTimedNext(cfg, s, a.ok);
    } else {
      DispatcherWaits(cfg, s, a);
      if s.disp.Dropping? || s.disp.Requeueing? || s.disp.Sleeping? {
        DispatcherRefIsFree(cfg, s, a);
        OthersKeepTimes(cfg, s, a, s.disp.ref);
        LaterStillTimed(cfg, s.heap[s.disp.ref], s'.heap[s.disp.ref], s.clock, s'.clock);
      }
    }
  }

  lemma DispatcherRefIsFree(cfg: Config, s: State, a: Action)
    requires Inv(cfg, s) && Enabled(cfg, s, a)
    requires s.disp.Dropping? || s.disp.Requeueing? || s.disp.Sleeping?
    ensures !Touches(s, a, s.disp.ref)
  {
    if (a.Poll? || a.Record? || a.Advance?) && s.threads[a.i].Holds() {
      HeldIsElsewhereAbsent(s, a.i);
      if !s.disp.Requeueing? {
        var g: nat :| FirstOfMilliAt(s, s.disp.ref, g);
        assert s.disp.ref in s.sorted;
      }
    }
  }

  lemma DispatchTimedNext(cfg: Config, s: State, ok: bool)
    requires Wf(s) && Enabled(cfg, s, Dispatch(ok)) && DispatcherTimed(cfg, s.heap, s.disp, s.clock)
    requires s.disp.Judging? ==> Listed(cfg, s.heap[s.disp.ref], s.clock)
    requires Wf(AdvanceDispatcher(cfg, s, ok))
    ensures
      var s' := AdvanceDispatcher(cfg, s, ok);
      DispatcherTimed(cfg, s'.heap, s'.disp, s'.clock)
  {
  }

  lemma TimedNext(cfg: Config, s: State, a: Action)
    requires Inv(cfg, s) && Timed(cfg, s) && Enabled(cfg, s, a) && Disciplined(s, a)
    ensures Wf(Apply(cfg, s, a)) && Timed(cfg, Apply(cfg, s, a))
  {
    var s' := Apply(cfg, s, a);
    ListCallsWork(cfg, s, a);
    WfNext(cfg, s, a);
    forall r: Ref | r < |s'.heap|
      ensures Bounded(cfg, s'.heap[r])
    {
      BoundedNext(cfg, s, a, r);
    }
    forall r: Ref | r < |s'.heap| && r in s'.sorted
      ensures Listed(cfg, s'.heap[r], s'.clock)
    {
      ListedNext(cfg, s, a, r);
    }
    forall r: Ref | r < |s'.heap| && (r in s'.blocked || r in s'.queue)
      ensures Dispatched(cfg, s'.heap[r], s'.clock)
    {
      ChannelNext(cfg, s, a, r);
    }
    forall i | 0 <= i < |s'.threads|
      ensures ThreadTimed(cfg, s'.heap, s'.threads[i], s'.clock)
    {
      ThreadNext(cfg, s, a, i);
    }
    DispatcherTimedNext(cfg, s, a);
  }

  lemma {:induction false} RunTimed(cfg: Config, states: seq<State>, steps: seq<Action>, n: nat)
    requires Run(cfg, states, steps) && DisciplinedRun(states, steps) && n < |states|
    ensures Inv(cfg, states[n]) && Timed(cfg, states[n])
  {
    RunInv(cfg, states, steps, n);
    if n > 0 {
      RunTimed(cfg, states, steps, n - 1);
      assert Disciplined(states[n - 1], steps[n - 1]);
      TimedNext(cfg, states[n - 1], steps[n - 1]);
    }
  }

  /** A stamp is the clock at its own step plus the wait it is for, and nothing else of the request changes with it. */
  lemma StampsFromNow(cfg: Config, s: State, i: nat)
    requires Wf(s) && Enabled(cfg, s, Advance(i))
    requires s.threads[i].Retrying? || (s.threads[i].Fresh? && cfg.initialWait > 0)
    ensures
      var r, s' := s.threads[i].ref, Apply(cfg, s, Advance(i));
      && |s'.heap| == |s.heap|
      && s'.heap[r].nextRetry == s.clock + (if s.threads[i].Retrying? then cfg.retryWait else cfg.initialWait)
      && s'.heap[r].l2Tx == s.heap[r].l2Tx && s'.heap[r].polls == s.heap[r].polls
      && s'.threads[i] == Listing(r)
  {
  }

  /** In every run what is listed is due its initial wait, or its retry wait, after an instant that is past. */
  lemma ListedAfterItsWait(cfg: Config, states: seq<State>, steps: seq<Action>, n: nat, r: Ref)
    requires Run(cfg, states, steps) && DisciplinedRun(states, steps) && n < |states|
    requires r in states[n].sorted && r < |states[n].heap|
    ensures
      var q := states[n].heap[r];
      && q.nextRetry == q.stampedAt + (if q.polls == 0 then cfg.initialWait else cfg.retryWait)
      && q.stampedAt <= q.listedAt <= states[n].clock
  {
    RunTimed(cfg, states, steps, n);
    assert Listed(cfg, states[n].heap[r], states[n].clock);
  }

  /**
   In every run: a request polled n times, with n >= 2 or a positive initial wait, has spent its first wait
   and n - 1 retry waits between the instant it was added and the end of its life time.
   */
  lemma PollsFitTheLifeTime(cfg: Config, states: seq<State>, steps: seq<Action>, n: nat, r: Ref)
    requires Run(cfg, states, steps) && DisciplinedRun(states, steps) && n < |states| && r < |states[n].heap|
    requires Retried(cfg, states[n].heap[r].polls)
    ensures
      var q := states[n].heap[r];
      var spent := FirstWait(cfg) + (q.polls - 1) * cfg.retryWait;
      && q.addedAt + spent < q.l2Tx.receivedAt + cfg.lifeTimeMax
      && (q.l2Tx.receivedAt <= q.addedAt ==> spent < cfg.lifeTimeMax)
  {
    RunTimed(cfg, states, steps, n);
    assert Bounded(cfg, states[n].heap[r]);
  }

  /**
   So with a positive retry wait, a transaction received no later than it was added is polled at most once
   more than the retry wait fits into the life time: in every run, every request's polling ends.
   */
  lemma PollsAreBounded(cfg: Config, states: seq<State>, steps: seq<Action>, n: nat, r: Ref)
    requires Run(cfg, states, steps) && DisciplinedRun(states, steps) && n < |states| && r < |states[n].heap|
    requires cfg.retryWait > 0 && cfg.lifeTimeMax >= 0
    requires states[n].heap[r].l2Tx.receivedAt <= states[n].heap[r].addedAt
    ensures states[n].heap[r].polls <= 1 + cfg.lifeTimeMax / cfg.retryWait
  {
    var polls := states[n].heap[r].polls;
    if Retried(cfg, polls) {
      PollsFitTheLifeTime(cfg, states, steps, n, r);
      AtMostQuotient(polls - 1, cfg.retryWait, cfg.lifeTimeMax);
    }
  }

  lemma AtMostQuotient(k: nat, wait: nat, life: nat)
    requires wait > 0 && k * wait < life
    ensures k <= life / wait
  {
    var q := life / wait;
    assert life < (q + 1) * wait;
    assert k >= q + 1 ==> k * wait >= (q + 1) * wait;
  }
}
