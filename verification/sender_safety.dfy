/** What every step of the sender keeps, what each caller gets, and why no caller is left waiting. */
module SenderSafety {
  import opened Wrappers
  import opened Types
  import opened Sequences
  import opened SenderMachine

  // ---------------------------------------------------------------- where requests are

  lemma WorkerMoves(s: State, s': State, i: nat, w: Worker)
    requires i < |s.workers| && s'.workers == s.workers[i := w]
    requires HeldBy(w) + (multiset(s'.blocked) + multiset(s'.queue))
          == HeldBy(s.workers[i]) + (multiset(s.blocked) + multiset(s.queue))
    ensures InFlight(s') == InFlight(s)
  {
    GatherUpdate(s.workers, HeldBy, i, w);
    Rebalance(Gather(s.workers, HeldBy), HeldBy(s.workers[i]), HeldBy(w),
              multiset(s.blocked) + multiset(s.queue), multiset(s'.blocked) + multiset(s'.queue));
    assert InFlight(s) == Gather(s.workers, HeldBy) + (multiset(s.blocked) + multiset(s.queue));
    assert InFlight(s') == Gather(s'.workers, HeldBy) + (multiset(s'.blocked) + multiset(s'.queue));
  }

  lemma ReceiveMoves(s: State, s': State, i: nat)
    requires i < |s.workers| && s.workers[i].Idle? && s.queue != []
    requires s' == s.(workers := s.workers[i := Sending(s.queue[0])], queue := s.queue[1..])
    ensures InFlight(s') == InFlight(s)
  {
    assert s.queue == [s.queue[0]] + s.queue[1..];
    WorkerMoves(s, s', i, Sending(s.queue[0]));
  }

  lemma HandOffMoves(s: State, s': State, k: nat, i: nat)
    requires i < |s.workers| && s.workers[i].Idle? && k < |s.blocked|
    requires s' == s.(workers := s.workers[i := Sending(s.blocked[k])], blocked := RemoveAt(s.blocked, k))
    ensures InFlight(s') == InFlight(s)
  {
    RemovedPlaces(s.blocked, k);
    WorkerMoves(s, s', i, Sending(s.blocked[k]));
  }

  lemma SendMoves(s: State, s': State, k: nat)
    requires k < |s.blocked|
    requires s' == s.(queue := s.queue + [s.blocked[k]], blocked := RemoveAt(s.blocked, k))
    ensures InFlight(s') == InFlight(s)
  {
    RemovedPlaces(s.blocked, k);
  }

  lemma BlockedMoves(s: State, s': State, c: CallId)
    requires s'.workers == s.workers && s'.queue == s.queue && s'.blocked == s.blocked + [c]
    ensures InFlight(s') == InFlight(s) + multiset{c}
  {
  }

  lemma CompletedMoves(s: State, s': State, i: nat)
    requires i < |s.workers| && s.workers[i].Holds()
    requires s'.workers == s.workers[i := Idle] && s'.queue == s.queue && s'.blocked == s.blocked
    ensures InFlight(s') == InFlight(s) - multiset{s.workers[i].call}
  {
    GatherUpdate(s.workers, HeldBy, i, Idle);
  }

  /** Which calls the step makes outstanding, and which it settles. */
  predicate Starts(s: State, a: Action, c: CallId) {
    a.Resume? && a.c == c && c < |s.calls| && s.calls[c].pc.Enqueuing?
  }

  predicate Settles(s: State, a: Action, c: CallId) {
    a.Work? && a.i < |s.workers| && s.workers[a.i] == Completing(c)
  }

  /** The requests on their way after a step: one more, one less, or the same. */
  function InFlightAfter(s: State, a: Action): multiset<CallId> {
    if a.Resume? && a.c < |s.calls| && s.calls[a.c].pc.Enqueuing? then InFlight(s) + multiset{a.c}
    else if a.Work? && a.i < |s.workers| && s.workers[a.i].Completing? then InFlight(s) - multiset{s.workers[a.i].call}
    else InFlight(s)
  }

  predicate WorkerStepped(s: State, s': State, i: nat) {
    && i < |s.workers| == |s'.workers| && s.workers[i].Holds()
    && s'.workers == s.workers[i := s'.workers[i]] && s'.blocked == s.blocked && s'.queue == s.queue
    && if s.workers[i].Completing? then s'.workers[i] == Idle else HeldBy(s'.workers[i]) == HeldBy(s.workers[i])
  }

  lemma WorkerSteps(cfg: Config, s: State, a: Action)
    requires Wf(s) && Enabled(cfg, s, a) && (a.Answer? || a.Work?)
    ensures WorkerStepped(s, Apply(cfg, s, a), a.i)
  {
  }

  lemma WorkerInFlight(s: State, s': State, i: nat)
    requires WorkerStepped(s, s', i)
    ensures InFlight(s')
         == if s.workers[i].Completing? then InFlight(s) - multiset{s.workers[i].call} else InFlight(s)
  {
    if s.workers[i].Completing? {
      CompletedMoves(s, s', i);
    } else {
      WorkerMoves(s, s', i, s'.workers[i]);
    }
  }

  lemma CallerInFlight(cfg: Config, s: State, a: Action)
    requires Wf(s) && Enabled(cfg, s, a) && (a.Enter? || a.Resume?)
    ensures InFlight(Apply(cfg, s, a)) == InFlightAfter(s, a)
  {
    if a.Resume? && s.calls[a.c].pc.Enqueuing? {
      BlockedMoves(s, Apply(cfg, s, a), a.c);
    }
  }

  lemma SendInFlight(cfg: Config, s: State, k: nat)
    requires Wf(s) && Enabled(cfg, s, Send(k))
    ensures InFlight(Apply(cfg, s, Send(k))) == InFlight(s)
  {
    SendMoves(s, Apply(cfg, s, Send(k)), k);
  }

  lemma ReceiveInFlight(cfg: Config, s: State, i: nat)
    requires Wf(s) && Enabled(cfg, s, Receive(i))
    ensures InFlight(Apply(cfg, s, Receive(i))) == InFlight(s)
  {
    ReceiveMoves(s, Apply(cfg, s, Receive(i)), i);
  }

  lemma HandOffInFlight(cfg: Config, s: State, k: nat, i: nat)
    requires Wf(s) && Enabled(cfg, s, HandOff(k, i))
    ensures InFlight(Apply(cfg, s, HandOff(k, i))) == InFlight(s)
  {
    HandOffMoves(s, Apply(cfg, s, HandOff(k, i)), k, i);
  }

  lemma ChannelInFlight(cfg: Config, s: State, a: Action)
    requires Wf(s) && Enabled(cfg, s, a) && (a.Send? || a.Receive? || a.HandOff?)
    ensures InFlight(Apply(cfg, s, a)) == InFlight(s)
  {
    if a.Send? {
      SendInFlight(cfg, s, a.k);
    } else if a.Receive? {
      ReceiveInFlight(cfg, s, a.i);
    } else {
      HandOffInFlight(cfg, s, a.k, a.i);
    }
  }

  lemma InFlightNext(cfg: Config, s: State, a: Action)
    requires Wf(s) && Enabled(cfg, s, a)
    ensures InFlight(Apply(cfg, s, a)) == InFlightAfter(s, a)
  {
    if a.Answer? || a.Work? {
      WorkerSteps(cfg, s, a);
      WorkerInFlight(s, Apply(cfg, s, a), a.i);
    } else if a.Enter? || a.Resume? {
      CallerInFlight(cfg, s, a);
    } else {
      ChannelInFlight(cfg, s, a);
    }
  }

  lemma InFlightCount(s: State, a: Action, c: CallId)
    ensures InFlightAfter(s, a)[c]
         == InFlight(s)[c] + (if Starts(s, a, c) then 1 else 0)
            - (if Settles(s, a, c) && InFlight(s)[c] > 0 then 1 else 0)
  {
  }

  lemma ResumedOutstanding(cfg: Config, s: State, c: CallId, ok: bool)
    requires Wf(s) && Enabled(cfg, s, Resume(c, ok)) && CallSound(s.calls[c])
    ensures |Apply(cfg, s, Resume(c, ok)).calls| == |s.calls|
    ensures forall d: CallId :: d < |s.calls| && d != c ==> Apply(cfg, s, Resume(c, ok)).calls[d] == s.calls[d]
    ensures Outstanding(Apply(cfg, s, Resume(c, ok)), c) <==> s.calls[c].pc.Enqueuing?
    ensures !Outstanding(s, c)
  {
  }

  lemma WorkedOutstanding(cfg: Config, s: State, a: Action, c: CallId)
    requires Wf(s) && Enabled(cfg, s, a) && (a.Answer? || a.Work?)
    requires Outstanding(s, s.workers[a.i].call)
    ensures Outstanding(Apply(cfg, s, a), c) <==> Outstanding(s, c) && !Settles(s, a, c)
    ensures Settles(s, a, c) ==> Outstanding(s, c)
  {
  }

  lemma OutstandingNext(cfg: Config, s: State, a: Action, c: CallId)
    requires Inv(cfg, s) && Enabled(cfg, s, a)
    ensures Outstanding(Apply(cfg, s, a), c) <==> (Outstanding(s, c) || Starts(s, a, c)) && !Settles(s, a, c)
    ensures Starts(s, a, c) ==> !Outstanding(s, c)
    ensures Settles(s, a, c) ==> Outstanding(s, c)
  {
    if a.Answer? || a.Work? {
      HeldOnce(cfg, s, a.i);
      WorkedOutstanding(cfg, s, a, c);
    } else if a.Resume? {
      ResumedOutstanding(cfg, s, a.c, a.ok);
    }
  }

  lemma MatchedNext(cfg: Config, s: State, a: Action)
    requires Inv(cfg, s) && Enabled(cfg, s, a)
    ensures Matched(Apply(cfg, s, a))
  {
    forall c: CallId
      ensures InFlight(Apply(cfg, s, a))[c] == if Outstanding(Apply(cfg, s, a), c) then 1 else 0
    {
      InFlightNext(cfg, s, a);
      InFlightCount(s, a, c);
      OutstandingNext(cfg, s, a, c);
      assert InFlight(s)[c] == if Outstanding(s, c) then 1 else 0;
    }
  }

  // ---------------------------------------------------------------- preservation

  lemma CallsNext(cfg: Config, s: State, a: Action, c: CallId)
    requires Inv(cfg, s) && Enabled(cfg, s, a) && c < |Apply(cfg, s, a).calls|
    ensures CallSound(Apply(cfg, s, a).calls[c])
  {
    assert c < |s.calls| ==> CallSound(s.calls[c]);
    if a.Answer? || a.Work? {
      HeldOnce(cfg, s, a.i);
      WorkerStepKeepsCall(cfg, s, a, c);
    }
  }

  lemma WorkerStepKeepsCall(cfg: Config, s: State, a: Action, c: CallId)
    requires Wf(s) && Enabled(cfg, s, a) && (a.Answer? || a.Work?) && c < |s.calls| && CallSound(s.calls[c])
    requires Outstanding(s, s.workers[a.i].call) && WorkerSound(s.calls, s.workers[a.i])
    ensures CallSound(Apply(cfg, s, a).calls[c])
  {
  }

  lemma WfNext(cfg: Config, s: State, a: Action)
    requires Inv(cfg, s) && Enabled(cfg, s, a)
    ensures Wf(Apply(cfg, s, a)) && |Apply(cfg, s, a).queue| <= cfg.queueSize
    ensures |Apply(cfg, s, a).workers| == cfg.workers
  {
  }

  lemma WorkersNext(cfg: Config, s: State, a: Action, j: nat)
    requires Inv(cfg, s) && Enabled(cfg, s, a) && Wf(Apply(cfg, s, a)) && j < |s.workers|
    requires |Apply(cfg, s, a).workers| == |s.workers|
    ensures WorkerSound(Apply(cfg, s, a).calls, Apply(cfg, s, a).workers[j])
  {
    assert WorkerSound(s.calls, s.workers[j]);
    if s.workers[j].Holds() {
      HeldOnce(cfg, s, j);
      WorkerKeepsRequest(cfg, s, a, j);
    } else if a.Receive? || a.HandOff? {
      assert a.Receive? ==> s.queue[0] in s.queue;
      assert a.HandOff? ==> s.blocked[a.k] in s.blocked;
    }
  }

  lemma WorkerKeepsRequest(cfg: Config, s: State, a: Action, j: nat)
    requires Wf(s) && Enabled(cfg, s, a) && Wf(Apply(cfg, s, a)) && j < |s.workers| && s.workers[j].Holds()
    requires |Apply(cfg, s, a).workers| == |s.workers| && WorkerSound(s.calls, s.workers[j])
    requires forall i :: 0 <= i < |s.workers| && i != j && s.workers[i].Holds() ==>
                           s.workers[i].call != s.workers[j].call
    ensures WorkerSound(Apply(cfg, s, a).calls, Apply(cfg, s, a).workers[j])
  {
  }

  /** What is blocked or in the buffer was so before, or is the request of the caller that starts its goroutine. */
  lemma UnsentOrigin(cfg: Config, s: State, a: Action, c: CallId)
    requires Wf(s) && Enabled(cfg, s, a)
    requires c in Apply(cfg, s, a).blocked || c in Apply(cfg, s, a).queue
    ensures c < |s.calls| && (c in s.blocked || c in s.queue || (a.Resume? && a.c == c && s.calls[c].pc.Enqueuing?))
  {
  }

  lemma RpcsSteps(cfg: Config, s: State, a: Action, c: CallId)
    requires Wf(s) && Enabled(cfg, s, a) && c < |s.calls| && !(a.Answer? && s.workers[a.i].call == c)
    ensures c < |Apply(cfg, s, a).calls| && Apply(cfg, s, a).calls[c].rpcs == s.calls[c].rpcs
  {
  }

  lemma UnsentNext(cfg: Config, s: State, a: Action, c: CallId)
    requires Inv(cfg, s) && Enabled(cfg, s, a) && c < |Apply(cfg, s, a).calls|
    requires c in Apply(cfg, s, a).blocked || c in Apply(cfg, s, a).queue
    ensures Apply(cfg, s, a).calls[c].rpcs == []
  {
    UnsentOrigin(cfg, s, a, c);
    if a.Answer? {
      HeldOnce(cfg, s, a.i);
    }
    RpcsSteps(cfg, s, a, c);
    assert CallSound(s.calls[c]);
  }

  lemma InvNext(cfg: Config, s: State, a: Action)
    requires Inv(cfg, s) && Enabled(cfg, s, a)
    ensures Inv(cfg, Apply(cfg, s, a))
  {
    var s' := Apply(cfg, s, a);
    WfNext(cfg, s, a);
    MatchedNext(cfg, s, a);
    forall c | 0 <= c < |s'.calls|
      ensures CallSound(s'.calls[c])
    {
      CallsNext(cfg, s, a, c);
    }
    forall j | 0 <= j < |s'.workers|
      ensures WorkerSound(s'.calls, s'.workers[j])
    {
      WorkersNext(cfg, s, a, j);
    }
    forall c: CallId | c < |s'.calls| && (c in s'.blocked || c in s'.queue)
      ensures s'.calls[c].rpcs == []
    {
      UnsentNext(cfg, s, a, c);
    }
  }

  // ---------------------------------------------------------------- whole runs

  ghost predicate Run(cfg: Config, states: seq<State>, steps: seq<Action>) {
    && |states| == |steps| + 1 && Init(cfg, states[0])
    && forall n {:trigger steps[n]} :: 0 <= n < |steps| ==>
                     && Wf(states[n]) && Enabled(cfg, states[n], steps[n])
                     && states[n + 1] == Apply(cfg, states[n], steps[n])
  }

  lemma {:induction false} RunInv(cfg: Config, states: seq<State>, steps: seq<Action>, n: nat)
    requires Run(cfg, states, steps) && n < |states|
    ensures Inv(cfg, states[n])
  {
    if n == 0 {
      InitInv(cfg, states[0]);
    } else {
      RunInv(cfg, states, steps, n - 1);
      InvNext(cfg, states[n - 1], steps[n - 1]);
    }
  }

  /**
   In every run, a caller that returned got the result of the one remote call made with its own payload;
   its WaitGroup was completed once; its row got the one status that result calls for; and the monitor was
   given the transaction once if the result was success, and never otherwise.
   */
  lemma CallerGetsItsOwnResult(cfg: Config, states: seq<State>, steps: seq<Action>, n: nat, c: CallId)
    requires Run(cfg, states, steps) && n < |states| && c < |states[n].calls| && states[n].calls[c].pc.Returned?
    ensures
      var call := states[n].calls[c];
      exists error: Option<string> ::
        && call.rpcs == [Rpc(call.l2Tx.encoded, error)] && call.reply == Some(error)
        && call.completions == 1 && call.pending == 0
        && call.writes == [if error.Some? then Invalid else Sent]
        && call.handed == if error.Some? then 0 else 1
  {
    RunInv(cfg, states, steps, n);
    assert CallSound(states[n].calls[c]);
  }

  /** In every run, at every instant: at most one worker has a request, at most one call is made for it. */
  lemma OneWorkerPerRequest(cfg: Config, states: seq<State>, steps: seq<Action>, n: nat, i: nat, j: nat)
    requires Run(cfg, states, steps) && n < |states| && i < j < |states[n].workers|
    requires states[n].workers[i].Holds() && states[n].workers[j].Holds()
    ensures states[n].workers[i].call != states[n].workers[j].call
    ensures Wf(states[n]) && |states[n].calls[states[n].workers[i].call].rpcs| <= 1
  {
    RunInv(cfg, states, steps, n);
    HeldOnce(cfg, states[n], i);
    assert WorkerSound(states[n].calls, states[n].workers[i]);
  }

  // ---------------------------------------------------------------- no caller is left waiting

  /** Statements left to a caller. */
  function CallRank(call: Call): nat {
    match call.pc
    case Enqueuing => 9
    case Waiting => 3
    case WritingInvalid => 1
    case WritingSent => 2
    case HandingOver => 1
    case Returned => 0
  }

  function WorkerRank(w: Worker): nat {
    match w
    case Sending(_) => 3
    case Storing(_, _) => 2
    case Completing(_) => 1
    case _ => 0
  }

  /** Work left before every caller that has entered returns. */
  function Remaining(s: State): nat {
    Total(s.calls, CallRank) + Total(s.workers, WorkerRank) + 5 * |s.blocked| + 4 * |s.queue|
  }

  /** Every step but a new call leaves strictly less to do, so the steps between two new calls are finitely many. */
  lemma StepsRunOut(cfg: Config, s: State, a: Action)
    requires Inv(cfg, s) && Enabled(cfg, s, a) && !a.Enter?
    ensures Remaining(Apply(cfg, s, a)) < Remaining(s)
  {
    var s' := Apply(cfg, s, a);
    match a
    case Send(k) =>
    case Receive(i) => TotalUpdate(s.workers, WorkerRank, i, s'.workers[i]);
    case HandOff(k, i) => TotalUpdate(s.workers, WorkerRank, i, s'.workers[i]);
    case Answer(_, _) => WorkerStepRunsOut(cfg, s, a);
    case Work(_) => WorkerStepRunsOut(cfg, s, a);
    case Resume(c, _) => TotalUpdate(s.calls, CallRank, c, s'.calls[c]);
  }

  lemma WorkerStepRunsOut(cfg: Config, s: State, a: Action)
    requires Wf(s) && Enabled(cfg, s, a) && (a.Answer? || a.Work?)
    ensures Remaining(Apply(cfg, s, a)) < Remaining(s)
  {
    var s' := Apply(cfg, s, a);
    var c := s.workers[a.i].call;
    TotalUpdate(s.workers, WorkerRank, a.i, s'.workers[a.i]);
    TotalUpdate(s.calls, CallRank, c, s'.calls[c]);
  }

  /** With one worker alive, as long as some caller has not returned some step other than a new call is possible. */
  lemma NoCallerIsStuck(cfg: Config, s: State, live: nat, c: CallId) returns (a: Action)
    requires Inv(cfg, s) && live < |s.workers| && !s.workers[live].Dead?
    requires c < |s.calls| && !s.calls[c].pc.Returned?
    ensures Enabled(cfg, s, a) && !a.Enter?
  {
    assert CallSound(s.calls[c]);
    if !s.calls[c].pc.Waiting? || s.calls[c].pending == 0 {
      return Resume(c, true);
    }
    assert Outstanding(s, c);
    assert InFlight(s)[c] == 1;
    if w :| 0 <= w < |s.workers| && s.workers[w].Holds() {
      a := if s.workers[w].Sending? then Answer(w, None) else Work(w);
    } else {
      GatherNothing(s.workers, HeldBy);
      assert c in multiset(s.blocked) + multiset(s.queue);
      assert s.workers[live].Idle?;
      a := if s.queue != [] then Receive(live) else HandOff(0, live);
    }
  }

  ghost predicate Continues(cfg: Config, states: seq<State>, steps: seq<Action>) {
    && |states| == |steps| + 1 && Inv(cfg, states[0])
    && forall n {:trigger steps[n]} :: 0 <= n < |steps| ==>
                     && Wf(states[n]) && Enabled(cfg, states[n], steps[n])
                     && states[n + 1] == Apply(cfg, states[n], steps[n])
  }

  lemma ContinuesBefore(cfg: Config, states: seq<State>, steps: seq<Action>, n: nat)
    requires Continues(cfg, states, steps) && n <= |steps|
    ensures Continues(cfg, states[..n + 1], steps[..n])
  {
    var before, taken := states[..n + 1], steps[..n];
    forall m | 0 <= m < n
      ensures Wf(before[m]) && Enabled(cfg, before[m], taken[m]) && before[m + 1] == Apply(cfg, before[m], taken[m])
    {
      assert taken[m] == steps[m];
    }
  }

  /** However the steps are scheduled, at most `Remaining` of them fit before a new call. */
  lemma {:induction false} RunsWithoutNewCallsEnd(cfg: Config, states: seq<State>, steps: seq<Action>)
    requires Continues(cfg, states, steps) && forall n :: 0 <= n < |steps| ==> !steps[n].Enter?
    ensures Inv(cfg, states[|steps|]) && |steps| + Remaining(states[|steps|]) <= Remaining(states[0])
  {
    if steps != [] {
      var last := |steps| - 1;
      ContinuesBefore(cfg, states, steps, last);
      RunsWithoutNewCallsEnd(cfg, states[..last + 1], steps[..last]);
      StepsRunOut(cfg, states[last], steps[last]);
      InvNext(cfg, states[last], steps[last]);
    }
  }

  /** And when no such step is left, with one worker alive, every caller has returned. */
  lemma AllReturnedAtTheEnd(cfg: Config, s: State, live: nat, c: CallId)
    requires Inv(cfg, s) && live < |s.workers| && !s.workers[live].Dead? && c < |s.calls|
    requires forall a: Action :: Enabled(cfg, s, a) ==> a.Enter?
    ensures s.calls[c].pc.Returned?
  {
    if !s.calls[c].pc.Returned? {
      var a := NoCallerIsStuck(cfg, s, live, c);
    }
  }

  // ---------------------------------------------------------------- the workers live on

  /** No step ends or revives a worker: after each request it receives the next. */
  lemma WorkerLivesOn(cfg: Config, s: State, a: Action, i: nat)
    requires Wf(s) && Enabled(cfg, s, a) && i < |s.workers|
    ensures |Apply(cfg, s, a).workers| == |s.workers|
    ensures Apply(cfg, s, a).workers[i] == Dead <==> s.workers[i] == Dead
    ensures a.Work? && a.i == i && s.workers[i].Completing? ==> Apply(cfg, s, a).workers[i] == Idle
  {
  }

  lemma {:induction false} WorkersLiveOn(cfg: Config, states: seq<State>, steps: seq<Action>, n: nat, i: nat)
    requires Run(cfg, states, steps) && n < |states| && i < cfg.workers
    ensures i < |states[n].workers| && i < |states[0].workers|
    ensures states[n].workers[i] == Dead <==> states[0].workers[i] == Dead
  {
    if n > 0 {
      WorkersLiveOn(cfg, states, steps, n - 1, i);
      WorkerLivesOn(cfg, states[n - 1], steps[n - 1], i);
    }
  }

  /** In every run in which a worker was started: where nothing but a new call is possible, every call has returned. */
  lemma RunReturns(cfg: Config, states: seq<State>, steps: seq<Action>, n: nat, live: nat, c: CallId)
    requires Run(cfg, states, steps) && n < |states| && live < cfg.workers && c < |states[n].calls|
    requires live < |states[0].workers| && states[0].workers[live] == Idle
    requires forall a: Action :: Enabled(cfg, states[n], a) ==> a.Enter?
    ensures states[n].calls[c].pc.Returned?
  {
    RunInv(cfg, states, steps, n);
    WorkersLiveOn(cfg, states, steps, n, live);
    AllReturnedAtTheEnd(cfg, states[n], live, c);
  }

  // ---------------------------------------------------------------- the buffer is a queue

  /** The requests that filled a slot of the buffer in the first `n` steps, in that order. */
  ghost function Buffered(states: seq<State>, steps: seq<Action>, n: nat): seq<CallId>
    requires n <= |steps| < |states|
  {
    if n == 0 then []
    else
      var before := Buffered(states, steps, n - 1);
      var s := states[n - 1];
      match steps[n - 1]
      case Send(k) => if k < |s.blocked| then before + [s.blocked[k]] else before
      case _ => before
  }

  /** The requests that workers had in their hands after taking one from the buffer, in the order of the taking. */
  ghost function Taken(states: seq<State>, steps: seq<Action>, n: nat): seq<CallId>
    requires n <= |steps| < |states|
  {
    if n == 0 then []
    else
      var before := Taken(states, steps, n - 1);
      var s' := states[n];
      match steps[n - 1]
      case Receive(i) => if i < |s'.workers| && s'.workers[i].Sending? then before + [s'.workers[i].call] else before
      case _ => before
  }

  /** No request that is not in the buffer yet reaches a worker before those that are. */
  lemma NoneOvertakes(cfg: Config, states: seq<State>, steps: seq<Action>, n: nat)
    requires Run(cfg, states, steps) && n < |steps| && steps[n].HandOff?
    ensures states[n].queue == []
  {
  }

  /** In every run the buffer hands out what was put into it, in that order, and each request once. */
  lemma {:induction false} BufferIsFifo(cfg: Config, states: seq<State>, steps: seq<Action>, n: nat)
    requires Run(cfg, states, steps) && n <= |steps|
    ensures Buffered(states, steps, n) == Taken(states, steps, n) + states[n].queue
  {
    if n > 0 {
      BufferIsFifo(cfg, states, steps, n - 1);
      QueueAfter(cfg, states[n - 1], steps[n - 1]);
    }
  }

  lemma QueueAfter(cfg: Config, s: State, a: Action)
    requires Wf(s) && Enabled(cfg, s, a)
    ensures
      var s' := Apply(cfg, s, a);
      match a
      case Send(k) => s'.queue == s.queue + [s.blocked[k]]
      case Receive(i) => i < |s'.workers| && s'.workers[i].Sending? && s.queue == [s'.workers[i].call] + s'.queue
      case _ => s'.queue == s.queue
  {
  }
}
