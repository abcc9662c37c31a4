/**
 The engine comes to rest: what has entered it is sent and handed on after a bounded number of steps, and then
 no pending row is left.
 */
module SystemRest {
  import opened Wrappers
  import opened Types
  import opened Sequences
  import opened Pool
  import M = MonitorMachine
  import MS = MonitorSafety
  import S = SenderMachine
  import SS = SenderSafety
  import opened System
  import opened SystemSafety
  import opened SystemRuns

  /** A step that serves what is in the engine already: of a caller, a load, the sender, or a hand-over. */
  predicate Serves(a: Action) {
    || a.SendArrived? || a.SendPending? || a.PendingDone? || a.SendResend? || a.ResendDone? || a.MonitorSent?
    || a.SenderStep?
  }

  function WaitLeft(load: Loader): nat {
    12 * |load.queue| + if load.waiting.Some? then 1 else 0
  }

  /** Work left before everything that has entered is served. */
  function WorkLeft(s: State): nat {
    SS.Remaining(s.sender) + 12 * |s.arriving| + WaitLeft(s.pendingLoad) + WaitLeft(s.resendLoad) + |s.sentLoad|
  }

  lemma EnterAddsWork(cfg: S.Config, s: S.State, l2Tx: L2Transaction)
    requires S.Wf(s)
    ensures SS.Remaining(S.Apply(cfg, s, S.Enter(l2Tx))) == SS.Remaining(s) + 9
  {
    TotalAppend(s.calls, SS.CallRank, S.Apply(cfg, s, S.Enter(l2Tx)).calls[|s.calls|]);
  }

  lemma ServingRunsOut(cfg: Config, s: State, a: Action)
    requires Inv(cfg, s) && Enabled(cfg, s, a) && Serves(a)
    ensures WorkLeft(Apply(cfg, s, a)) < WorkLeft(s)
  {
    if a.SenderStep? {
      SenderStepRunsOut(cfg, s, a);
    } else if a.SendArrived? || a.SendPending? || a.SendResend? {
      EnterAddsWork(cfg.sender, s.sender, SenderPart(s, a).value.l2Tx);
    }
  }

  lemma SenderStepRunsOut(cfg: Config, s: State, a: Action)
    requires Inv(cfg, s) && Enabled(cfg, s, a) && a.SenderStep?
    ensures WorkLeft(Apply(cfg, s, a)) < WorkLeft(s)
  {
    SS.StepsRunOut(cfg.sender, s.sender, a.send);
    SenderStepKeepsLoads(cfg, s, a);
  }

  lemma SenderStepKeepsLoads(cfg: Config, s: State, a: Action)
    requires Wf(s) && Enabled(cfg, s, a) && a.SenderStep?
    ensures
      var s' := Apply(cfg, s, a);
      && s'.arriving == s.arriving && s'.pendingLoad == s.pendingLoad && s'.resendLoad == s.resendLoad
      && s'.sentLoad == s.sentLoad && s'.sender == S.Apply(cfg.sender, s.sender, a.send)
  {
  }

  // ---------------------------------------------------------------- loads wait for calls there are

  predicate WaitsFor(load: Loader, s: S.State) {
    load.waiting.Some? ==> load.waiting.value < |s.calls|
  }

  predicate Waiting(s: State) {
    WaitsFor(s.pendingLoad, s.sender) && WaitsFor(s.resendLoad, s.sender)
  }

  lemma WaitingNext(cfg: Config, s: State, a: Action)
    requires Wf(s) && Waiting(s) && Enabled(cfg, s, a)
    ensures Waiting(Apply(cfg, s, a))
  {
    if !a.Restart? {
      Projects(cfg, s, a);
      if SenderPart(s, a).Some? {
        SenderKeepsCalls(cfg.sender, s.sender, SenderPart(s, a).value, 0);
      }
      LoadsAfter(cfg, s, a);
    }
  }

  lemma LoadsAfter(cfg: Config, s: State, a: Action)
    requires Wf(s) && Enabled(cfg, s, a) && !a.Restart?
    ensures
      var s' := Apply(cfg, s, a);
      && (s'.pendingLoad.waiting in {s.pendingLoad.waiting, None}
          || (a.SendPending? && s'.pendingLoad.waiting == Some(|s.sender.calls|)))
      && (s'.resendLoad.waiting in {s.resendLoad.waiting, None}
          || (a.SendResend? && s'.resendLoad.waiting == Some(|s.sender.calls|)))
  {
  }

  lemma {:induction false} RunWaiting(cfg: Config, states: seq<State>, steps: seq<Action>, n: nat)
    requires Run(cfg, states, steps) && n < |states|
    ensures Inv(cfg, states[n]) && Waiting(states[n])
  {
    RunInv(cfg, states, steps, n);
    if n > 0 {
      RunWaiting(cfg, states, steps, n - 1);
      WaitingNext(cfg, states[n - 1], steps[n - 1]);
    }
  }

  // ---------------------------------------------------------------- at rest

  /** Nobody is between insert and answer, no load has rows left, and every call has returned. */
  predicate AtRest(s: State) {
    && s.arriving == [] && s.pendingLoad == Loader([], None) && s.resendLoad == Loader([], None) && s.sentLoad == []
    && forall c :: 0 <= c < |s.sender.calls| ==> s.sender.calls[c].pc.Returned?
  }

  /** With a worker of the sender alive, what is not at rest has a next step. */
  lemma NothingIsStuck(cfg: Config, s: State, live: nat) returns (a: Action)
    requires Inv(cfg, s) && Waiting(s) && !AtRest(s)
    requires live < |s.sender.workers| && !s.sender.workers[live].Dead?
    ensures Enabled(cfg, s, a) && Serves(a)
  {
    if c :| 0 <= c < |s.sender.calls| && !s.sender.calls[c].pc.Returned? {
      var b := SS.NoCallerIsStuck(cfg.sender, s.sender, live, c);
      a := SenderStep(b);
    } else {
      a := if s.arriving != [] then SendArrived(0)
           else if s.pendingLoad.waiting.Some? then PendingDone
           else if s.pendingLoad.queue != [] then SendPending
           else if s.resendLoad.waiting.Some? then ResendDone
           else if s.resendLoad.queue != [] then SendResend
           else MonitorSent;
    }
  }

  /** At rest, the owners that are left are requests of the monitor. */
  lemma OnlyTheMonitorOwns(s: State, o: Owner, id: nat)
    requires AtRest(s) && Owns(s, o, id)
    ensures o.Watching?
  {
  }

  /**
   In every run with a worker of the sender alive, where no such step is possible: no row is pending and no
   resend row is in the engine, unless it was given up; and a sent row is watched by the monitor.
   */
  lemma NothingIsLeftPending(cfg: Config, states: seq<State>, steps: seq<Action>, n: nat, live: nat, id: nat)
    requires Run(cfg, states, steps) && n < |states| && id in states[n].table && id !in states[n].abandoned
    requires live < |states[n].sender.workers| && !states[n].sender.workers[live].Dead?
    requires forall a: Action :: Enabled(cfg, states[n], a) ==> !Serves(a)
    ensures AtRest(states[n]) && !states[n].table[id].status.Pending?
    ensures states[n].table[id].status.Resend? ==> Unowned(states[n], id)
    ensures states[n].table[id].status.Sent? ==>
              exists r: M.Ref :: MS.Tracked(states[n].monitor, r) && states[n].monitor.heap[r].l2Tx.id == id
  {
    var s := states[n];
    RunWaiting(cfg, states, steps, n);
    if !AtRest(s) {
      var a := NothingIsStuck(cfg, s, live);
    }
    if o: Owner :| Owns(s, o, id) {
      OnlyTheMonitorOwns(s, o, id);
      assert FitsRow(s, o, id);
      assert MS.Tracked(s.monitor, o.r);
    }
  }

  // ---------------------------------------------------------------- after finitely many steps

  ghost predicate ServedTo(cfg: Config, s: State, steps: seq<Action>, t: State)
    decreases |steps|
  {
    if steps == [] then t == s
    else
      && Wf(s) && Enabled(cfg, s, steps[0]) && Disciplined(s, steps[0]) && Serves(steps[0])
      && ServedTo(cfg, Apply(cfg, s, steps[0]), steps[1..], t)
  }

  /** However they are scheduled, no more than `WorkLeft` such steps fit before something new enters the engine. */
  lemma {:induction false} ServingEnds(cfg: Config, s: State, steps: seq<Action>, t: State)
    requires Inv(cfg, s) && Waiting(s) && ServedTo(cfg, s, steps, t)
    ensures Inv(cfg, t) && Waiting(t) && |steps| + WorkLeft(t) <= WorkLeft(s)
    decreases |steps|
  {
    if steps != [] {
      ServingRunsOut(cfg, s, steps[0]);
      InvNext(cfg, s, steps[0]);
      WaitingNext(cfg, s, steps[0]);
      ServingEnds(cfg, Apply(cfg, s, steps[0]), steps[1..], t);
    }
  }

  // ---------------------------------------------------------------- loads send one row after the other

  lemma ReturnedStays(cfg: Config, s: State, a: Action, c: S.CallId)
    requires Wf(s) && Enabled(cfg, s, a) && !a.Restart? && CallReturned(s.sender, c)
    ensures CallReturned(Apply(cfg, s, a).sender, c)
  {
    Projects(cfg, s, a);
    if SenderPart(s, a).Some? {
      SenderKeepsCalls(cfg.sender, s.sender, SenderPart(s, a).value, c);
    }
  }

  function LoadOf(s: State, pending: bool): Loader {
    if pending then s.pendingLoad else s.resendLoad
  }

  /** The load still waits for the call, or the call has returned. */
  predicate Awaited(s: State, pending: bool, c: S.CallId) {
    LoadOf(s, pending).waiting == Some(c) || CallReturned(s.sender, c)
  }

  lemma AwaitedAtFirst(cfg: Config, s: State, a: Action)
    requires Wf(s) && Enabled(cfg, s, a) && (a.SendPending? || a.SendResend?)
    ensures Awaited(Apply(cfg, s, a), a.SendPending?, |s.sender.calls|)
  {
  }

  lemma AwaitedNext(cfg: Config, s: State, a: Action, pending: bool, c: S.CallId)
    requires Wf(s) && Enabled(cfg, s, a) && !a.Restart? && Awaited(s, pending, c)
    ensures Awaited(Apply(cfg, s, a), pending, c)
  {
    if CallReturned(s.sender, c) {
      ReturnedStays(cfg, s, a, c);
    } else if a.SenderStep? {
      SenderStepKeepsLoads(cfg, s, a);
    } else {
      LoadsAfter(cfg, s, a);
      LoadGoesOn(cfg, s, a);
    }
  }

  /** A load stops waiting only when its call has returned. */
  lemma LoadGoesOn(cfg: Config, s: State, a: Action)
    requires Wf(s) && Enabled(cfg, s, a) && !a.Restart?
    ensures
      var s' := Apply(cfg, s, a);
      && (s.pendingLoad.waiting.Some? && s'.pendingLoad.waiting != s.pendingLoad.waiting ==>
            CallReturned(s.sender, s.pendingLoad.waiting.value))
      && (s.resendLoad.waiting.Some? && s'.resendLoad.waiting != s.resendLoad.waiting ==>
            CallReturned(s.sender, s.resendLoad.waiting.value))
  {
  }

  lemma {:induction false} LoadAwaits(cfg: Config, states: seq<State>, steps: seq<Action>, m: nat, n: nat)
    requires Run(cfg, states, steps) && m < n < |states| && (steps[m].SendPending? || steps[m].SendResend?)
    requires forall k :: m <= k < n ==> !steps[k].Restart?
    ensures Awaited(states[n], steps[m].SendPending?, |states[m].sender.calls|)
  {
    if n == m + 1 {
      AwaitedAtFirst(cfg, states[m], steps[m]);
    } else {
      LoadAwaits(cfg, states, steps, m, n - 1);
      AwaitedNext(cfg, states[n - 1], steps[n - 1], steps[m].SendPending?, |states[m].sender.calls|);
    }
  }

  /** In every run, when a load sends its next row, the call for each row it sent before has returned. */
  lemma LoadsSendOneAtATime(cfg: Config, states: seq<State>, steps: seq<Action>, m: nat, n: nat)
    requires Run(cfg, states, steps) && m < n < |steps| && (steps[m].SendPending? || steps[m].SendResend?)
    requires steps[n] == steps[m] && forall k :: m <= k < n ==> !steps[k].Restart?
    ensures CallReturned(states[n].sender, |states[m].sender.calls|)
  {
    LoadAwaits(cfg, states, steps, m, n);
  }

  // ---------------------------------------------------------------- loads lose no row

  predicate SendsNext(a: Action, pending: bool) {
    if pending then a.SendPending? else a.SendResend?
  }

  predicate EndsWith<T(==)>(all: seq<T>, rest: seq<T>) {
    |rest| <= |all| && all[|all| - |rest|..] == rest
  }

  /** When the head leaves the line, it was the first of the rest, or the rest is still at the end of the line. */
  lemma LineMoves<T>(line: seq<T>, rest: seq<T>, line': seq<T>, moves: bool)
    requires EndsWith(line, rest) && rest != [] && line' == if moves then line[1..] else line
    ensures if moves && |line| == |rest| then line[0] == rest[0] else EndsWith(line', rest)
  {
    if moves && |line| > |rest| {
      assert line'[|line'| - |rest|..] == line[|line| - |rest|..];
    }
  }

  lemma QueueAfter(cfg: Config, s: State, a: Action, pending: bool)
    requires Wf(s) && Enabled(cfg, s, a) && !a.Restart? && LoadOf(s, pending).queue != []
    ensures LoadOf(Apply(cfg, s, a), pending).queue
         == if SendsNext(a, pending) then LoadOf(s, pending).queue[1..] else LoadOf(s, pending).queue
    ensures SendsNext(a, pending) ==> Called(s, Apply(cfg, s, a), LoadOf(s, pending).queue[0])
  {
    if a.SenderStep? {
      SenderStepKeepsLoads(cfg, s, a);
    }
  }

  /** The step that led from `s` to `s'` is the entry of a call for the transaction. */
  predicate Called(s: State, s': State, l2Tx: L2Transaction) {
    |s'.sender.calls| == |s.sender.calls| + 1 && s'.sender.calls[|s.sender.calls|].l2Tx == l2Tx
  }

  lemma StillInLine(cfg: Config, s: State, a: Action, pending: bool, rest: seq<L2Transaction>) returns (still: bool)
    requires Wf(s) && Enabled(cfg, s, a) && !a.Restart? && EndsWith(LoadOf(s, pending).queue, rest) && rest != []
    ensures still ==> EndsWith(LoadOf(Apply(cfg, s, a), pending).queue, rest)
    ensures !still ==> SendsNext(a, pending) && Called(s, Apply(cfg, s, a), rest[0])
  {
    var line := LoadOf(s, pending).queue;
    assert line != [];
    QueueAfter(cfg, s, a, pending);
    LineMoves(line, rest, LoadOf(Apply(cfg, s, a), pending).queue, SendsNext(a, pending));
    still := !(SendsNext(a, pending) && |line| == |rest|);
  }

  /**
   In every run, however long, every row a load has brought is still to be sent by it, at its place in line, or a
   call for it was made; only a crash loses it.
   */
  lemma {:induction false} LoadsLoseNothing(cfg: Config, states: seq<State>, steps: seq<Action>, n: nat, m: nat,
                                            pending: bool, k: nat) returns (j: nat)
    requires Run(cfg, states, steps) && n <= m < |states| && k < |LoadOf(states[n], pending).queue|
    requires forall i :: n <= i < m ==> !steps[i].Restart?
    ensures n <= j <= m
    ensures j == m ==> EndsWith(LoadOf(states[m], pending).queue, LoadOf(states[n], pending).queue[k..])
    ensures j < m ==>
              SendsNext(steps[j], pending) && Called(states[j], states[j + 1], LoadOf(states[n], pending).queue[k])
    decreases m
  {
    j := m;
    if n < m {
      j := LoadsLoseNothing(cfg, states, steps, n, m - 1, pending, k);
      if j == m - 1 {
        var still := StillInLine(cfg, states[j], steps[j], pending, LoadOf(states[n], pending).queue[k..]);
        j := if still then m else j;
      }
    }
  }

  lemma ArrivalGoesOn(cfg: Config, s: State, a: Action, l2Tx: L2Transaction) returns (still: bool)
    requires Wf(s) && Enabled(cfg, s, a) && !a.Restart? && l2Tx in s.arriving
    ensures still ==> l2Tx in Apply(cfg, s, a).arriving
    ensures !still ==> a.SendArrived? && Called(s, Apply(cfg, s, a), l2Tx)
  {
    var k :| 0 <= k < |s.arriving| && s.arriving[k] == l2Tx;
    if a.SenderStep? {
      SenderStepKeepsLoads(cfg, s, a);
    } else if a.SendArrived? && a.k != k {
      assert Apply(cfg, s, a).arriving[if k < a.k then k else k - 1] == l2Tx;
    } else if a.Insert? {
      assert Apply(cfg, s, a).arriving[k] == l2Tx;
    }
    still := !(a.SendArrived? && a.k == k);
  }

  /**
   In every run, whether its insert worked or not, a transaction that has reached the endpoint is still about to be
   sent by it, or a call for it was made; only a crash loses it.
   */
  lemma {:induction false} ArrivalsAreSent(cfg: Config, states: seq<State>, steps: seq<Action>, n: nat, m: nat)
    returns (j: nat)
    requires Run(cfg, states, steps) && n < m < |states| && steps[n].Insert?
    requires forall i :: n < i < m ==> !steps[i].Restart?
    ensures n < j <= m
    ensures j == m ==> steps[n].l2Tx in states[m].arriving
    ensures j < m ==> steps[j].SendArrived? && Called(states[j], states[j + 1], steps[n].l2Tx)
    decreases m
  {
    j := m;
    if n + 1 < m {
      j := ArrivalsAreSent(cfg, states, steps, n, m - 1);
      if j == m - 1 {
        var still := ArrivalGoesOn(cfg, states[j], steps[j], steps[n].l2Tx);
        j := if still then m else j;
      }
    } else {
      InsertArrives(cfg, states[n], steps[n]);
    }
  }

  lemma InsertArrives(cfg: Config, s: State, a: Action)
    requires Wf(s) && Enabled(cfg, s, a) && a.Insert?
    ensures a.l2Tx in Apply(cfg, s, a).arriving
  {
    assert Apply(cfg, s, a).arriving[|s.arriving|] == a.l2Tx;
  }
}
