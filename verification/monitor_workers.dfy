/**
 The workers of the monitor: who is one and for how long, how a turn ends, and that as long as one lives no
 request is left waiting in the channel.
 */
module MonitorWorkers {
  import opened Types
  import opened Sequences
  import opened Wrappers
  import opened MonitorMachine
  import opened MonitorSafety
  import opened Paths

  // ---------------------------------------------------------------- who does what

  /** The first `workers` threads receive from the channel; the others are adders, which never do. */
  predicate InRole(cfg: Config, i: nat, t: Thread) {
    if i < cfg.workers then !t.Fresh?
    else t.Fresh? || t.Listing? || t.Counting? || t.Signalling? || t.Gone?
  }

  ghost predicate Roles(cfg: Config, s: State) {
    forall i :: 0 <= i < |s.threads| ==> InRole(cfg, i, s.threads[i])
  }

  /** A worker whose client could be created. */
  predicate Live(cfg: Config, s: State, i: nat) {
    i < cfg.workers && i < |s.threads| && !s.threads[i].Gone?
  }

  predicate AtRest(t: Thread) {
    t.Idle? || t.Gone?
  }

  /** The end of a turn: a worker receives again, an adder returns. */
  predicate Ends(cfg: Config, i: nat, t: Thread) {
    if i < cfg.workers then t == Idle else t == Gone
  }

  /** The order of a thread's statements, read off the methods. */
  predicate Follows(cfg: Config, i: nat, t: Thread, t': Thread) {
    match t
    case Fresh(r) => t' == Listing(r) || Ends(cfg, i, t')
    case Polling(r) => t' == Retrying(r) || t' == Writing(r, Confirmed) || t' == Writing(r, Failed)
    case Writing(r, _) => t' == Deleting(r) || t' == Retrying(r)
    case Deleting(_) => Ends(cfg, i, t')
    case Retrying(r) => t' == Listing(r)
    case Listing(_) => t' == Counting
    case Counting => t' == Signalling || Ends(cfg, i, t')
    case Signalling => Ends(cfg, i, t')
    case _ => false
  }

  /** A statement of thread `i` itself, other than receiving. */
  predicate Own(a: Action, i: nat) {
    (a.Poll? || a.Record? || a.Advance?) && a.i == i
  }

  predicate Receives(a: Action, i: nat) {
    (a.Receive? || a.HandOff?) && a.i == i
  }

  lemma AnswerFollows(cfg: Config, s: State, a: Action)
    requires Wf(s) && Enabled(cfg, s, a) && (a.Poll? || a.Record?)
    ensures
      exists t: Thread :: Follows(cfg, a.i, s.threads[a.i], t) && Apply(cfg, s, a).threads == s.threads[a.i := t]
  {
    var t := Apply(cfg, s, a).threads[a.i];
    assert Follows(cfg, a.i, s.threads[a.i], t) && Apply(cfg, s, a).threads == s.threads[a.i := t];
  }

  lemma AdvanceFollows(cfg: Config, s: State, i: nat)
    requires Wf(s) && Enabled(cfg, s, Advance(i))
    ensures
      exists t: Thread :: Follows(cfg, i, s.threads[i], t) && AdvanceThread(cfg, s, i).threads == s.threads[i := t]
  {
    var t := AdvanceThread(cfg, s, i).threads[i];
    assert Follows(cfg, i, s.threads[i], t) && AdvanceThread(cfg, s, i).threads == s.threads[i := t];
  }

  lemma OwnFollows(cfg: Config, s: State, a: Action) returns (t: Thread)
    requires Wf(s) && Enabled(cfg, s, a) && (a.Poll? || a.Record? || a.Advance?)
    ensures Follows(cfg, a.i, s.threads[a.i], t) && Apply(cfg, s, a).threads == s.threads[a.i := t]
  {
    if a.Advance? {
      AdvanceFollows(cfg, s, a.i);
    } else {
      AnswerFollows(cfg, s, a);
    }
    t :| Follows(cfg, a.i, s.threads[a.i], t) && Apply(cfg, s, a).threads == s.threads[a.i := t];
  }

  /** What every other step does to the threads. */
  lemma OtherThreads(cfg: Config, s: State, a: Action)
    requires Wf(s) && Enabled(cfg, s, a) && !a.Poll? && !a.Record? && !a.Advance?
    ensures
      Apply(cfg, s, a).threads
      == match a
         case Submit(_) => s.threads + [Fresh(|s.heap|)]
         case Receive(i) => s.threads[i := Polling(s.queue[0])]
         case HandOff(k, i) => s.threads[i := Polling(s.blocked[k])]
         case _ => s.threads
  {
    if a.Dispatch? {
      DispatcherMovesNoThread(cfg, s, a.ok);
    }
  }

  lemma DispatcherMovesNoThread(cfg: Config, s: State, ok: bool)
    requires Wf(s) && Enabled(cfg, s, Dispatch(ok))
    ensures AdvanceDispatcher(cfg, s, ok).threads == s.threads
  {
  }

  /** Every step keeps the roles, and neither ends nor revives a worker; nothing but its own step moves a thread. */
  lemma RolesNext(cfg: Config, s: State, a: Action, i: nat)
    requires Wf(s) && Enabled(cfg, s, a) && Roles(cfg, s) && |s.threads| >= cfg.workers
    ensures Roles(cfg, Apply(cfg, s, a)) && |Apply(cfg, s, a).threads| >= |s.threads|
    ensures i < cfg.workers ==> (Apply(cfg, s, a).threads[i].Gone? <==> s.threads[i].Gone?)
    ensures i < |s.threads| && !Own(a, i) && !Receives(a, i) ==> Apply(cfg, s, a).threads[i] == s.threads[i]
  {
    if a.Poll? || a.Record? || a.Advance? {
      assert InRole(cfg, a.i, s.threads[a.i]);
      var t := OwnFollows(cfg, s, a);
    } else {
      OtherThreads(cfg, s, a);
      if a.Receive? || a.HandOff? {
        assert InRole(cfg, a.i, s.threads[a.i]);
      }
    }
  }

  lemma {:induction false} RunRoles(cfg: Config, states: seq<State>, steps: seq<Action>, n: nat)
    requires Run(cfg, states, steps) && DisciplinedRun(states, steps) && n < |states|
    ensures Inv(cfg, states[n]) && Roles(cfg, states[n])
    ensures forall i :: 0 <= i < cfg.workers ==> (states[n].threads[i].Gone? <==> states[0].threads[i].Gone?)
  {
    RunInv(cfg, states, steps, n);
    if n > 0 {
      RunRoles(cfg, states, steps, n - 1);
      var s, a := states[n - 1], steps[n - 1];
      forall i | 0 <= i < cfg.workers
        ensures states[n].threads[i].Gone? <==> states[0].threads[i].Gone?
      {
        RolesNext(cfg, s, a, i);
      }
      RolesNext(cfg, s, a, 0);
    }
  }

  /** In every run a worker that was started lives on, whatever it meets; and adders never take its work. */
  lemma WorkersLiveOn(cfg: Config, states: seq<State>, steps: seq<Action>, n: nat, i: nat)
    requires Run(cfg, states, steps) && DisciplinedRun(states, steps) && n < |states| && i < |states[n].threads|
    ensures i < cfg.workers ==> (states[n].threads[i] == Gone <==> states[0].threads[i] == Gone)
    ensures i >= cfg.workers ==> !states[n].threads[i].Idle? && !states[n].threads[i].Polling?
  {
    RunRoles(cfg, states, steps, n);
    assert InRole(cfg, i, states[n].threads[i]);
  }

  // ---------------------------------------------------------------- a turn ends

  /** Statements left of a thread's turn; the sending of an adder's request included. */
  function ThreadRank(t: Thread): nat {
    match t
    case Fresh(_) => 9
    case Polling(_) => 6
    case Writing(_, _) => 5
    case Retrying(_) => 4
    case Listing(_) => 3
    case Counting => 2
    case Signalling => 1
    case Deleting(_) => 1
    case _ => 0
  }

  /** A thread in its turn has a next statement, and can make it whatever the others do. */
  lemma OwnIsEnabled(cfg: Config, s: State, i: nat) returns (a: Action)
    requires Wf(s) && !s.panicked && i < |s.threads| && !AtRest(s.threads[i])
    ensures Enabled(cfg, s, a) && Own(a, i)
  {
    a := if s.threads[i].Polling? then Poll(i, NoReceipt)
         else if s.threads[i].Writing? then Record(i, true) else Advance(i);
  }

  /** It is then nearer to the end of its turn, and at rest when there. */
  lemma OwnRunsDown(cfg: Config, s: State, a: Action)
    requires Wf(s) && Enabled(cfg, s, a) && (a.Poll? || a.Record? || a.Advance?)
    ensures |Apply(cfg, s, a).threads| == |s.threads|
    ensures ThreadRank(Apply(cfg, s, a).threads[a.i]) < ThreadRank(s.threads[a.i])
    ensures ThreadRank(Apply(cfg, s, a).threads[a.i]) == 0 <==> Ends(cfg, a.i, Apply(cfg, s, a).threads[a.i])
  {
    var t := OwnFollows(cfg, s, a);
  }

  /** How many of the steps are statements of thread `i`. */
  function Owned(steps: seq<Action>, i: nat): nat {
    if steps == [] then 0
    else Owned(steps[..|steps| - 1], i) + if Own(steps[|steps| - 1], i) then 1 else 0
  }

  /**
   A worker's turn takes at most six statements of its own after it has received a request, however many
   steps of others come between: it is then back at the channel.
   */
  lemma {:induction false} TurnEnds(cfg: Config, states: seq<State>, steps: seq<Action>, i: nat)
    requires |states| == |steps| + 1 && i < |states[0].threads|
    requires Inv(cfg, states[0]) && Roles(cfg, states[0])
    requires forall n {:trigger steps[n]} :: 0 <= n < |steps| ==>
               && Wf(states[n]) && Enabled(cfg, states[n], steps[n]) && Disciplined(states[n], steps[n])
               && states[n + 1] == Apply(cfg, states[n], steps[n]) && !Receives(steps[n], i)
    ensures Inv(cfg, states[|steps|]) && Roles(cfg, states[|steps|]) && i < |states[|steps|].threads|
    ensures Owned(steps, i) + ThreadRank(states[|steps|].threads[i]) <= ThreadRank(states[0].threads[i])
  {
    if steps != [] {
      var last := |steps| - 1;
      assert forall n :: 0 <= n < last ==> steps[..last][n] == steps[n] && states[..last + 1][n] == states[n];
      TurnEnds(cfg, states[..last + 1], steps[..last], i);
      RolesNext(cfg, states[last], steps[last], i);
      InvNext(cfg, states[last], steps[last]);
      if Own(steps[last], i) {
        OwnRunsDown(cfg, states[last], steps[last]);
      }
    }
  }

  // ---------------------------------------------------------------- the channel drains

  /** A step of a worker, of an adder, or of the channel between them. */
  predicate WorkStep(a: Action) {
    !a.Tick? && !a.Submit? && !a.Dispatch?
  }

  /** Work left before the channel is empty and every thread at rest. */
  function WorkLeft(s: State): nat {
    Total(s.threads, ThreadRank) + 8 * |s.blocked| + 7 * |s.queue|
  }

  lemma ChannelsAfter(cfg: Config, s: State, a: Action)
    requires Wf(s) && Enabled(cfg, s, a) && WorkStep(a)
    ensures |Apply(cfg, s, a).blocked|
         == |s.blocked| + (if a.Send? || a.HandOff? then -1
                           else if a.Advance? && s.threads[a.i].Fresh? && cfg.initialWait <= 0 then 1 else 0)
    ensures |Apply(cfg, s, a).queue| == |s.queue| + if a.Send? then 1 else if a.Receive? then -1 else 0
  {
    if a.Advance? {
      AdvanceChannels(cfg, s, a.i);
    }
  }

  lemma AdvanceChannels(cfg: Config, s: State, i: nat)
    requires Wf(s) && Enabled(cfg, s, Advance(i))
    ensures AdvanceThread(cfg, s, i).queue == s.queue
    ensures AdvanceThread(cfg, s, i).blocked
         == if s.threads[i].Fresh? && cfg.initialWait <= 0 then s.blocked + [s.threads[i].ref] else s.blocked
    ensures s.threads[i].Fresh? && cfg.initialWait <= 0 ==> AdvanceThread(cfg, s, i).threads[i] == Resting(cfg, i)
  {
  }

  lemma WorkRunsOut(cfg: Config, s: State, a: Action)
    requires Wf(s) && Enabled(cfg, s, a) && WorkStep(a)
    ensures WorkLeft(Apply(cfg, s, a)) < WorkLeft(s)
  {
    var s' := Apply(cfg, s, a);
    ChannelsAfter(cfg, s, a);
    if a.Poll? || a.Record? || a.Advance? {
      var t := OwnFollows(cfg, s, a);
      TotalUpdate(s.threads, ThreadRank, a.i, t);
      if a.Advance? {
        AdvanceChannels(cfg, s, a.i);
      }
    } else {
      OtherThreads(cfg, s, a);
      if a.Receive? || a.HandOff? {
        TotalUpdate(s.threads, ThreadRank, a.i, s'.threads[a.i]);
      }
    }
  }

  /** While a worker lives, a request in the channel or a thread in its turn leaves such a step possible. */
  lemma NoRequestIsStuck(cfg: Config, s: State, live: nat) returns (a: Action)
    requires Wf(s) && !s.panicked && Live(cfg, s, live)
    requires s.blocked != [] || s.queue != [] || exists i :: 0 <= i < |s.threads| && !AtRest(s.threads[i])
    ensures Enabled(cfg, s, a) && WorkStep(a)
  {
    if i :| 0 <= i < |s.threads| && !AtRest(s.threads[i]) {
      a := OwnIsEnabled(cfg, s, i);
    } else {
      assert s.threads[live] == Idle;
      a := if s.queue != [] then Receive(live) else HandOff(0, live);
    }
  }

  /** The channel is empty, and every thread waits for it or has returned. */
  predicate Quiet(s: State) {
    s.blocked == [] && s.queue == [] && forall i :: 0 <= i < |s.threads| ==> AtRest(s.threads[i])
  }

  /** The request is in the channel, or a worker is about to poll it. */
  predicate Awaits(s: State, r: Ref) {
    r in s.blocked || r in s.queue || exists i :: 0 <= i < |s.threads| && s.threads[i] == Polling(r)
  }

  function ByAny(cfg: Config): (State, Action) -> Option<State> {
    (s: State, a: Action) => if Wf(s) && Enabled(cfg, s, a) then Some(Apply(cfg, s, a)) else None
  }

  /** `t` follows from `s` by the steps; no id is submitted in them. */
  ghost predicate LeadsTo(cfg: Config, s: State, steps: seq<Action>, t: State) {
    Path(ByAny(cfg), s, steps, t) && forall n :: 0 <= n < |steps| ==> !steps[n].Submit?
  }

  ghost predicate WorksTo(cfg: Config, s: State, steps: seq<Action>, t: State) {
    Path(ByAny(cfg), s, steps, t) && forall n :: 0 <= n < |steps| ==> WorkStep(steps[n])
  }

  /** What lives on through every step: the invariant, the roles, and a worker. */
  ghost predicate Going(cfg: Config, s: State, live: nat) {
    Inv(cfg, s) && Roles(cfg, s) && Live(cfg, s, live)
  }

  lemma GoingNext(cfg: Config, s: State, a: Action, live: nat)
    requires Going(cfg, s, live) && Enabled(cfg, s, a) && !a.Submit?
    ensures Going(cfg, Apply(cfg, s, a), live)
  {
    InvNext(cfg, s, a);
    RolesNext(cfg, s, a, live);
  }

  /** Polls are only added. */
  lemma PollsAfter(cfg: Config, s: State, a: Action, r: Ref)
    requires Wf(s) && Enabled(cfg, s, a) && r < |s.heap|
    ensures r < |Apply(cfg, s, a).heap|
    ensures Apply(cfg, s, a).heap[r].polls
         == s.heap[r].polls + if a.Poll? && s.threads[a.i].ref == r then 1 else 0
  {
    HeapGrows(cfg, s, a);
    if a.Advance? {
      AdvanceKeepsPolls(cfg, s, a.i, r);
    } else if a.Dispatch? {
      DispatchKeepsPolls(cfg, s, a.ok, r);
    }
  }

  lemma AdvanceKeepsPolls(cfg: Config, s: State, i: nat, r: Ref)
    requires Wf(s) && Enabled(cfg, s, Advance(i)) && r < |s.heap|
    ensures |AdvanceThread(cfg, s, i).heap| == |s.heap|
    ensures AdvanceThread(cfg, s, i).heap[r].polls == s.heap[r].polls
  {
  }

  lemma DispatchKeepsPolls(cfg: Config, s: State, ok: bool, r: Ref)
    requires Wf(s) && Enabled(cfg, s, Dispatch(ok)) && r < |s.heap|
    ensures |AdvanceDispatcher(cfg, s, ok).heap| == |s.heap|
    ensures AdvanceDispatcher(cfg, s, ok).heap[r].polls == s.heap[r].polls
  {
  }

  /** A request leaves the channel only to a worker, and that worker only by being polled. */
  lemma AwaitsNext(cfg: Config, s: State, a: Action, r: Ref)
    requires Wf(s) && Enabled(cfg, s, a) && Awaits(s, r) && WorkStep(a)
    ensures Awaits(Apply(cfg, s, a), r) || (a.Poll? && s.threads[a.i].ref == r)
  {
    var s' := Apply(cfg, s, a);
    if a.Poll? || a.Record? || a.Advance? {
      var t := OwnFollows(cfg, s, a);
      if a.Advance? {
        AdvanceChannels(cfg, s, a.i);
      }
      if i :| 0 <= i < |s.threads| && s.threads[i] == Polling(r) {
        assert i != a.i ==> s'.threads[i] == Polling(r);
      }
    } else {
      ChannelKeepsAwaiting(cfg, s, a, r);
    }
  }

  lemma ChannelKeepsAwaiting(cfg: Config, s: State, a: Action, r: Ref)
    requires Wf(s) && Enabled(cfg, s, a) && Awaits(s, r) && (a.Send? || a.Receive? || a.HandOff?)
    ensures Awaits(Apply(cfg, s, a), r)
  {
    var s' := Apply(cfg, s, a);
    if i :| 0 <= i < |s.threads| && s.threads[i] == Polling(r) {
      assert s'.threads[i] == Polling(r);
    } else if k :| 0 <= k < |s.blocked| && s.blocked[k] == r {
      StillBlocked(s, s', a, k);
    } else {
      var k :| 0 <= k < |s.queue| && s.queue[k] == r;
      assert a.Receive? && k > 0 ==> s'.queue[k - 1] == r;
      assert a.Receive? && k == 0 ==> s'.threads[a.i] == Polling(r);
      assert a.Send? ==> s'.queue[k] == r;
    }
  }

  lemma StillBlocked(s: State, s': State, a: Action, k: nat)
    requires k < |s.blocked|
    requires a.Receive? ==> s'.blocked == s.blocked
    requires a.Send? || a.HandOff? ==> a.k < |s.blocked| && s'.blocked == RemoveAt(s.blocked, a.k)
    requires a.Send? ==> s'.queue == s.queue + [s.blocked[a.k]]
    requires a.HandOff? ==> a.i < |s'.threads| && s'.threads[a.i] == Polling(s.blocked[a.k])
    requires a.Receive? || a.Send? || a.HandOff?
    ensures Awaits(s', s.blocked[k])
  {
    if a.Receive? {
      assert s'.blocked[k] == s.blocked[k];
    } else if k == a.k {
      assert a.Send? ==> s'.queue[|s.queue|] == s.blocked[k];
    } else {
      assert s'.blocked[if k < a.k then k else k - 1] == s.blocked[k];
    }
  }

  /**
   However the steps of workers, adders and channel are scheduled: no more than `WorkLeft` of them fit before
   the next submission, clock tick or step of the dispatcher, and a request in the channel is polled in them or
   still awaits it.
   */
  lemma {:induction false} WorkEnds(cfg: Config, s: State, steps: seq<Action>, t: State, live: nat, r: Ref)
    requires Going(cfg, s, live) && WorksTo(cfg, s, steps, t) && r < |s.heap|
    ensures Going(cfg, t, live) && |steps| + WorkLeft(t) <= WorkLeft(s)
    ensures r < |t.heap| && t.heap[r].polls >= s.heap[r].polls
    ensures Awaits(s, r) ==> Awaits(t, r) || t.heap[r].polls > s.heap[r].polls
    decreases |steps|
  {
    if steps != [] {
      var u := Apply(cfg, s, steps[0]);
      assert forall n :: 0 <= n < |steps| - 1 ==> steps[1..][n] == steps[n + 1];
      GoingNext(cfg, s, steps[0], live);
      WorkRunsOut(cfg, s, steps[0]);
      PollsAfter(cfg, s, steps[0], r);
      if Awaits(s, r) {
        AwaitsNext(cfg, s, steps[0], r);
      }
      WorkEnds(cfg, u, steps[1..], t, live, r);
    }
  }

  /**
   And when no such step is left, with a worker alive: the channel is empty, every thread is at rest, and every
   request that was in the channel has been polled.
   */
  lemma AllPolledAtTheEnd(cfg: Config, s: State, steps: seq<Action>, t: State, live: nat, r: Ref)
    requires Going(cfg, s, live) && WorksTo(cfg, s, steps, t) && r < |s.heap|
    requires forall a: Action :: Enabled(cfg, t, a) ==> !WorkStep(a)
    ensures Quiet(t) && r < |t.heap|
    ensures Awaits(s, r) ==> t.heap[r].polls > s.heap[r].polls
  {
    WorkEnds(cfg, s, steps, t, live, r);
    if t.blocked != [] || t.queue != [] || exists i :: 0 <= i < |t.threads| && !AtRest(t.threads[i]) {
      var a := NoRequestIsStuck(cfg, t, live);
    }
  }

  // ---------------------------------------------------------------- the buffer is a queue

  /** The requests that filled a slot of the buffer in the first `n` steps, in that order. */
  ghost function Buffered(states: seq<State>, steps: seq<Action>, n: nat): seq<Ref>
    requires n <= |steps| < |states|
  {
    if n == 0 then []
    else
      var before := Buffered(states, steps, n - 1);
      var s := states[n - 1];
      match steps[n - 1]
      case Send(k) => if k < |s.blocked| then before + [s.blocked[k]] else before
      case _ => before
  }

  /** The requests that workers had in their hands after taking one from the buffer, in the order of the taking. */
  ghost function Taken(states: seq<State>, steps: seq<Action>, n: nat): seq<Ref>
    requires n <= |steps| < |states|
  {
    if n == 0 then []
    else
      var before := Taken(states, steps, n - 1);
      var s' := states[n];
      match steps[n - 1]
      case Receive(i) => if i < |s'.threads| && s'.threads[i].Polling? then before + [s'.threads[i].ref] else before
      case _ => before
  }

  /** No request that is not in the buffer yet reaches a worker before those that are. */
  lemma NoneOvertakes(cfg: Config, states: seq<State>, steps: seq<Action>, n: nat)
    requires Run(cfg, states, steps) && n < |steps| && steps[n].HandOff?
    ensures states[n].queue == []
  {
  }

  /** In every run the buffer hands out what was put into it, in that order, and each request once. */
  lemma {:induction false} BufferIsFifo(cfg: Config, states: seq<State>, steps: seq<Action>, n: nat)
    requires Run(cfg, states, steps) && n <= |steps|
    ensures Buffered(states, steps, n) == Taken(states, steps, n) + states[n].queue
  {
    if n > 0 {
      BufferIsFifo(cfg, states, steps, n - 1);
      QueueAfter(cfg, states[n - 1], steps[n - 1]);
    }
  }

  lemma QueueAfter(cfg: Config, s: State, a: Action)
    requires Wf(s) && Enabled(cfg, s, a)
    ensures
      var s' := Apply(cfg, s, a);
      match a
      case Send(k) => s'.queue == s.queue + [s.blocked[k]]
      case Receive(i) => i < |s'.threads| && s'.threads[i].Polling? && s.queue == [s'.threads[i].ref] + s'.queue
      case _ => s'.queue == s.queue
  {
    if a.Advance? {
      AdvanceChannels(cfg, s, a.i);
    } else if a.Dispatch? {
      DispatcherMovesNoThread(cfg, s, a.ok);
    }
  }
}
