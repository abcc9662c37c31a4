/** What the monitor writes to a row is true: the node said so, or the life time is over. */
module MonitorTruth {
  import opened Types
  import opened MonitorMachine
  import opened MonitorSafety
  import opened MonitorTiming
  import opened MonitorFates

  /** The reason a status may be written for: the node's last answer about the request, or its age. */
  predicate Justified(cfg: Config, q: Request, status: Status, clock: int) {
    match status
    case Confirmed => q.answer.Receipt? && q.answer.status != 0
    case Failed => q.answer.Receipt? && q.answer.status == 0
    case Expired => q.l2Tx.receivedAt + cfg.lifeTimeMax < clock
    case _ => false
  }

  predicate ThreadTruthful(cfg: Config, heap: seq<Request>, t: Thread, clock: int)
    requires t.Holds() ==> t.ref < |heap|
  {
    t.Writing? ==> !t.status.Expired? && Justified(cfg, heap[t.ref], t.status, clock)
  }

  ghost predicate Truthful(cfg: Config, s: State)
    requires Wf(s)
  {
    && (forall i :: 0 <= i < |s.threads| ==> ThreadTruthful(cfg, s.heap, s.threads[i], s.clock))
    && (forall r: Ref :: r < |s.heap| && s.heap[r].fate.Settled? ==>
                           Justified(cfg, s.heap[r], s.heap[r].fate.status, s.clock))
    && (s.disp.Expiring? ==> Justified(cfg, s.heap[s.disp.ref], Expired, s.clock))
  }

  /** Only a poll changes the answer of a request, and only that of the request it is about. */
  lemma AnswerSteps(cfg: Config, s: State, a: Action, r: Ref)
    requires Wf(s) && Enabled(cfg, s, a) && r < |s.heap|
    ensures
      var s' := Apply(cfg, s, a);
      && r < |s'.heap| && s'.heap[r].l2Tx == s.heap[r].l2Tx
      && s'.heap[r].answer == if a.Poll? && s.threads[a.i].ref == r then a.outcome else s.heap[r].answer
  {
    HeapGrows(cfg, s, a);
    if a.Advance? {
      AdvanceKeepsAnswer(cfg, s, a.i, r);
    } else if a.Dispatch? {
      DispatchKeepsAnswer(cfg, s, a.ok, r);
    }
  }

  lemma AdvanceKeepsAnswer(cfg: Config, s: State, i: nat, r: Ref)
    requires Wf(s) && Enabled(cfg, s, Advance(i)) && r < |s.heap|
    ensures |AdvanceThread(cfg, s, i).heap| == |s.heap|
    ensures AdvanceThread(cfg, s, i).heap[r].answer == s.heap[r].answer
    ensures AdvanceThread(cfg, s, i).heap[r].l2Tx == s.heap[r].l2Tx
  {
  }

  lemma DispatchKeepsAnswer(cfg: Config, s: State, ok: bool, r: Ref)
    requires Wf(s) && Enabled(cfg, s, Dispatch(ok)) && r < |s.heap|
    ensures |AdvanceDispatcher(cfg, s, ok).heap| == |s.heap|
    ensures AdvanceDispatcher(cfg, s, ok).heap[r].answer == s.heap[r].answer
    ensures AdvanceDispatcher(cfg, s, ok).heap[r].l2Tx == s.heap[r].l2Tx
  {
  }

  /** A justification outlasts every step that does not poll the request. */
  lemma StaysJustified(cfg: Config, s: State, a: Action, r: Ref, status: Status)
    requires Wf(s) && Enabled(cfg, s, a) && r < |s.heap| && !(a.Poll? && s.threads[a.i].ref == r)
    requires Justified(cfg, s.heap[r], status, s.clock)
    ensures r < |Apply(cfg, s, a).heap| && Justified(cfg, Apply(cfg, s, a).heap[r], status, Apply(cfg, s, a).clock)
  {
    AnswerSteps(cfg, s, a, r);
    ClockGrows(cfg, s, a);
  }

  // ---------------------------------------------------------------- preservation

  lemma SettledNext(cfg: Config, s: State, a: Action, r: Ref)
    requires Inv(cfg, s) && Fated(s) && Truthful(cfg, s) && Enabled(cfg, s, a)
    requires r < |Apply(cfg, s, a).heap| && Apply(cfg, s, a).heap[r].fate.Settled?
    ensures Justified(cfg, Apply(cfg, s, a).heap[r], Apply(cfg, s, a).heap[r].fate.status, Apply(cfg, s, a).clock)
  {
    HeapGrows(cfg, s, a);
    if r < |s.heap| {
      FateSteps(cfg, s, a, r);
      PolledIsWatched(s, a);
      if a.Record? {
        assert ThreadTruthful(cfg, s.heap, s.threads[a.i], s.clock);
      }
      StaysJustified(cfg, s, a, r, FateAfter(s, a, r).status);
    }
  }

  lemma PolledIsWatched(s: State, a: Action)
    requires Wf(s) && Fated(s)
    ensures a.Poll? && a.i < |s.threads| && s.threads[a.i].Polling? ==> s.heap[s.threads[a.i].ref].fate.Watched?
  {
    if a.Poll? && a.i < |s.threads| {
      assert ThreadFits(s.heap, s.threads[a.i]);
    }
  }

  /** A thread comes to write a status only by polling, and then with the status of that answer. */
  lemma WriterOrigin(cfg: Config, s: State, a: Action, i: nat)
    requires Wf(s) && Enabled(cfg, s, a) && Works(s, a) && i < |Apply(cfg, s, a).threads|
    requires Apply(cfg, s, a).threads[i].Writing?
    ensures
      var t := Apply(cfg, s, a).threads[i];
      || (i < |s.threads| && s.threads[i] == t && !((a.Poll? || a.Record? || a.Advance?) && a.i == i))
      || (a.Poll? && a.i == i && s.threads[i].ref == t.ref && a.outcome.Receipt?
          && t.status == if a.outcome.status == 0 then Failed else Confirmed)
  {
    ThreadShapes(cfg, s, a, i);
    if a.Advance? && a.i == i {
      AdvanceNeverWrites(cfg, s, i);
    }
  }

  lemma AdvanceNeverWrites(cfg: Config, s: State, i: nat)
    requires Wf(s) && Enabled(cfg, s, Advance(i))
    ensures |AdvanceThread(cfg, s, i).threads| == |s.threads| && !AdvanceThread(cfg, s, i).threads[i].Writing?
  {
  }

  lemma WriterNext(cfg: Config, s: State, a: Action, i: nat)
    requires Inv(cfg, s) && Truthful(cfg, s) && Enabled(cfg, s, a) && Works(s, a)
    requires Wf(Apply(cfg, s, a)) && i < |Apply(cfg, s, a).threads|
    ensures ThreadTruthful(cfg, Apply(cfg, s, a).heap, Apply(cfg, s, a).threads[i], Apply(cfg, s, a).clock)
  {
    var t := Apply(cfg, s, a).threads[i];
    if t.Writing? {
      WriterOrigin(cfg, s, a, i);
      if a.Poll? && a.i == i {
        AnswerSteps(cfg, s, a, t.ref);
      } else {
        assert ThreadTruthful(cfg, s.heap, s.threads[i], s.clock);
        HeldIsElsewhereAbsent(s, i);
        StaysJustified(cfg, s, a, t.ref, t.status);
      }
    }
  }

  lemma ExpiringNext(cfg: Config, s: State, a: Action)
    requires Wf(s) && DispatcherTimed(cfg, s.heap, s.disp, s.clock) && Enabled(cfg, s, a)
    requires s.disp.Expiring? ==> Justified(cfg, s.heap[s.disp.ref], Expired, s.clock)
    requires Apply(cfg, s, a).disp.Expiring?
    ensures Apply(cfg, s, a).disp.ref < |Apply(cfg, s, a).heap|
    ensures Justified(cfg, Apply(cfg, s, a).heap[Apply(cfg, s, a).disp.ref], Expired, Apply(cfg, s, a).clock)
  {
    ExpiringOrigin(cfg, s, a);
    StaysOld(cfg, s, a, Apply(cfg, s, a).disp.ref);
  }

  lemma ExpiringOrigin(cfg: Config, s: State, a: Action)
    requires Wf(s) && DispatcherTimed(cfg, s.heap, s.disp, s.clock) && Enabled(cfg, s, a)
    requires Apply(cfg, s, a).disp.Expiring?
    requires s.disp.Expiring? ==> Justified(cfg, s.heap[s.disp.ref], Expired, s.clock)
    ensures
      var r := Apply(cfg, s, a).disp.ref;
      r < |s.heap| && Justified(cfg, s.heap[r], Expired, s.clock)
  {
    if a.Dispatch? {
      DispatchExpires(cfg, s, a.ok);
    } else {
      DispatcherWaits(cfg, s, a);
    }
  }

  lemma DispatchExpires(cfg: Config, s: State, ok: bool)
    requires Wf(s) && DispatcherTimed(cfg, s.heap, s.disp, s.clock) && Enabled(cfg, s, Dispatch(ok))
    requires AdvanceDispatcher(cfg, s, ok).disp.Expiring?
    ensures
      var r := AdvanceDispatcher(cfg, s, ok).disp.ref;
      r < |s.heap| && Justified(cfg, s.heap[r], Expired, s.clock)
  {
  }

  lemma StaysOld(cfg: Config, s: State, a: Action, r: Ref)
    requires Wf(s) && Enabled(cfg, s, a) && r < |s.heap| && Justified(cfg, s.heap[r], Expired, s.clock)
    ensures r < |Apply(cfg, s, a).heap| && Justified(cfg, Apply(cfg, s, a).heap[r], Expired, Apply(cfg, s, a).clock)
  {
    AnswerSteps(cfg, s, a, r);
    ClockGrows(cfg, s, a);
  }

  lemma TruthfulNext(cfg: Config, s: State, a: Action)
    requires Inv(cfg, s) && Timed(cfg, s) && Fated(s) && Truthful(cfg, s)
    requires Enabled(cfg, s, a) && Works(s, a) && Wf(Apply(cfg, s, a))
    ensures Truthful(cfg, Apply(cfg, s, a))
  {
    var s' := Apply(cfg, s, a);
    forall i | 0 <= i < |s'.threads|
      ensures ThreadTruthful(cfg, s'.heap, s'.threads[i], s'.clock)
    {
      WriterNext(cfg, s, a, i);
    }
    forall r: Ref | r < |s'.heap| && s'.heap[r].fate.Settled?
      ensures Justified(cfg, s'.heap[r], s'.heap[r].fate.status, s'.clock)
    {
      SettledNext(cfg, s, a, r);
    }
    if s'.disp.Expiring? {
      ExpiringNext(cfg, s, a);
    }
  }

  // ---------------------------------------------------------------- runs

  lemma {:induction false} RunTruthful(cfg: Config, states: seq<State>, steps: seq<Action>, n: nat)
    requires Run(cfg, states, steps) && DisciplinedRun(states, steps) && n < |states|
    ensures Inv(cfg, states[n]) && Timed(cfg, states[n]) && Fated(states[n]) && Truthful(cfg, states[n])
  {
    RunTimed(cfg, states, steps, n);
    if n > 0 {
      RunTruthful(cfg, states, steps, n - 1);
      ListCallsWork(cfg, states[n - 1], steps[n - 1]);
      FatedNext(cfg, states[n - 1], steps[n - 1]);
      TruthfulNext(cfg, states[n - 1], steps[n - 1]);
    }
  }

  /**
   In every run, each status the monitor writes is true when it is written: confirmed or failed as the node's
   last answer about that very transaction says, expired only when the transaction has outlived its time.
   */
  lemma WritesAreTrue(cfg: Config, states: seq<State>, steps: seq<Action>, n: nat)
    requires Run(cfg, states, steps) && DisciplinedRun(states, steps) && n < |steps|
    requires Wf(states[n]) && Wrote(states[n], steps[n]).Some?
    ensures
      var s, w := states[n], Wrote(states[n], steps[n]).value;
      exists r: Ref ::
        && Tracked(s, r) && s.heap[r].l2Tx.id == w.id
        && match w.status
           case Confirmed => s.heap[r].answer.Receipt? && s.heap[r].answer.status != 0
           case Failed => s.heap[r].answer == Receipt(0)
           case Expired => s.heap[r].l2Tx.receivedAt + cfg.lifeTimeMax < s.clock
           case _ => false
  {
    var s, a := states[n], steps[n];
    RunTruthful(cfg, states, steps, n);
    var r := if a.Record? then s.threads[a.i].ref else s.disp.ref;
    if a.Record? {
      assert ThreadTruthful(cfg, s.heap, s.threads[a.i], s.clock);
      HeldIsElsewhereAbsent(s, a.i);
    } else {
      ExpiringIsListed(cfg, s);
    }
    assert Tracked(s, r) && Justified(cfg, s.heap[r], Wrote(s, a).value.status, s.clock);
  }

  // ---------------------------------------------------------------- each write has its poll

  /** Step `m` was the poll that worker `i`, which writes the status for `r`, got its answer from. */
  ghost predicate PolledAt(states: seq<State>, steps: seq<Action>, m: nat, i: nat, r: Ref, status: Status)
    requires |steps| < |states|
  {
    && m < |steps| && i < |states[m].threads| && states[m].threads[i] == Polling(r)
    && ((status == Confirmed && exists k: nat :: k != 0 && steps[m] == Poll(i, Receipt(k)))
        || (status == Failed && steps[m] == Poll(i, Receipt(0))))
  }

  lemma {:induction false} WriterHasPolled(cfg: Config, states: seq<State>, steps: seq<Action>, n: nat, i: nat)
    returns (m: nat)
    requires Run(cfg, states, steps) && DisciplinedRun(states, steps) && n < |states|
    requires i < |states[n].threads| && states[n].threads[i].Writing?
    ensures m < n && PolledAt(states, steps, m, i, states[n].threads[i].ref, states[n].threads[i].status)
    ensures forall k :: m < k <= n ==> i < |states[k].threads| && states[k].threads[i] == states[n].threads[i]
  {
    m := n - 1;
    RunInv(cfg, states, steps, m);
    ListCallsWork(cfg, states[m], steps[m]);
    WriterOrigin(cfg, states[m], steps[m], i);
    if !(steps[m].Poll? && steps[m].i == i) {
      m := WriterHasPolled(cfg, states, steps, m, i);
    }
  }

  /**
   In every run, a worker's write of a status has its own poll: that worker asked the node about that very
   request, got a receipt of nonzero status for confirmed and of status zero for failed, and has been writing
   it ever since.
   */
  lemma WriteFollowsItsPoll(cfg: Config, states: seq<State>, steps: seq<Action>, n: nat) returns (m: nat)
    requires Run(cfg, states, steps) && DisciplinedRun(states, steps) && n < |steps|
    requires steps[n].Record? && steps[n].ok
    ensures Wf(states[n]) && Wrote(states[n], steps[n]).Some?
    ensures
      var i := steps[n].i;
      && m < n && i < |states[n].threads| && states[n].threads[i].Writing?
      && Wrote(states[n], steps[n]).value.id == states[n].heap[states[n].threads[i].ref].l2Tx.id
      && PolledAt(states, steps, m, i, states[n].threads[i].ref, Wrote(states[n], steps[n]).value.status)
      && forall k :: m < k <= n ==> i < |states[k].threads| && states[k].threads[i] == states[n].threads[i]
  {
    m := WriterHasPolled(cfg, states, steps, n, steps[n].i);
  }

  /** And it stays true: what was written for a request agrees with all the node has said about it. */
  lemma SettledIsJustified(cfg: Config, states: seq<State>, steps: seq<Action>, n: nat, r: Ref)
    requires Run(cfg, states, steps) && DisciplinedRun(states, steps) && n < |states|
    requires r < |states[n].heap| && states[n].heap[r].fate.Settled?
    ensures
      var q := states[n].heap[r];
      match q.fate.status
      case Confirmed => q.answer.Receipt? && q.answer.status != 0
      case Failed => q.answer == Receipt(0)
      case Expired => q.l2Tx.receivedAt + cfg.lifeTimeMax < states[n].clock
      case _ => false
  {
    RunTruthful(cfg, states, steps, n);
  }
}
