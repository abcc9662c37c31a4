/** What holds of every row in every run of the whole engine, across crashes and restarts. */
module SystemRuns {
  import opened Wrappers
  import opened Types
  import opened Pool
  import M = MonitorMachine
  import MS = MonitorSafety
  import MF = MonitorFates
  import S = SenderMachine
  import opened System
  import opened SystemSafety

  ghost predicate Run(cfg: Config, states: seq<State>, steps: seq<Action>) {
    && |states| == |steps| + 1 && Init(cfg, states[0])
    && forall n {:trigger steps[n]} :: 0 <= n < |steps| ==>
                     && Wf(states[n]) && Enabled(cfg, states[n], steps[n]) && Disciplined(states[n], steps[n])
                     && states[n + 1] == Apply(cfg, states[n], steps[n])
  }

  lemma InitInv(cfg: Config, s: State)
    requires Init(cfg, s)
    ensures Inv(cfg, s)
  {
    S.InitInv(cfg.sender, s.sender);
    MonitorInit(cfg.monitor, s.monitor);
    forall o: Owner, id: nat
      ensures !Owns(s, o, id)
    {
    }
  }

  lemma {:induction false} RunInv(cfg: Config, states: seq<State>, steps: seq<Action>, n: nat)
    requires Run(cfg, states, steps) && n < |states|
    ensures Inv(cfg, states[n])
  {
    if n == 0 {
      InitInv(cfg, states[0]);
    } else {
      RunInv(cfg, states, steps, n - 1);
      InvNext(cfg, states[n - 1], steps[n - 1]);
    }
  }

  // ---------------------------------------------------------------- the life of a row

  predicate Terminal(status: Status) {
    status.Invalid? || MF.Final(status)
  }

  /** The edges of the status automaton that the engine itself takes. */
  predicate Edge(before: Status, after: Status) {
    || ((before.Pending? || before.Resend?) && (after.Sent? || after.Invalid?))
    || (before.Sent? && MF.Final(after))
  }

  lemma StepFollowsEdges(cfg: Config, s: State, a: Action, id: nat)
    requires Inv(cfg, s) && Enabled(cfg, s, a) && Disciplined(s, a) && !a.RequestResend? && id in s.table
    ensures id in Apply(cfg, s, a).table
    ensures
      var before, after := s.table[id].status, Apply(cfg, s, a).table[id].status;
      after == before || Edge(before, after)
  {
    RowsNext(cfg, s, a);
    if WrittenId(s, a) != Some(id) {
      OtherRowsStay(cfg, s, a, id);
    } else if a.SenderStep? {
      CallerWritesWhat(cfg, s, a);
      assert Owns(s, Calling(a.send.c), id);
      assert FitsRow(s, Calling(a.send.c), id);
    } else {
      var r := WrittenRef(s.monitor, a.watch);
      WatchedBefore(cfg, s, a.watch, r);
      assert Owns(s, Watching(r), id);
      assert FitsRow(s, Watching(r), id);
      WatcherWrites(cfg, s, a, Watching(r), id);
      WrittenIsFinal(cfg, s, a.watch);
    }
  }

  lemma WrittenIsFinal(cfg: Config, s: State, a: M.Action)
    requires MS.Inv(cfg.monitor, s.monitor) && MF.Fated(s.monitor) && M.Enabled(cfg.monitor, s.monitor, a)
    requires MF.Wrote(s.monitor, a).Some?
    ensures MF.Final(MF.Wrote(s.monitor, a).value.status)
  {
    if a.Record? {
      assert MF.ThreadFits(s.monitor.heap, s.monitor.threads[a.i]);
    }
  }

  /**
   In every run, each step of the engine leaves the status of a row alone or moves it along the automaton:
   pending or resend to sent or invalid, sent to confirmed, failed or expired. Only the operator leaves it.
   */
  lemma StatusLifecycle(cfg: Config, states: seq<State>, steps: seq<Action>, n: nat, id: nat)
    requires Run(cfg, states, steps) && n < |steps| && id in states[n].table && !steps[n].RequestResend?
    ensures id in states[n + 1].table
    ensures states[n + 1].table[id].status == states[n].table[id].status
         || Edge(states[n].table[id].status, states[n + 1].table[id].status)
  {
    RunInv(cfg, states, steps, n);
    StepFollowsEdges(cfg, states[n], steps[n], id);
  }

  /** A terminal status stays, through crashes and restarts, until the operator requests a resend of that row. */
  lemma {:induction false} TerminalStays(cfg: Config, states: seq<State>, steps: seq<Action>, n: nat, m: nat, id: nat)
    requires Run(cfg, states, steps) && n <= m < |states| && id in states[n].table
    requires Terminal(states[n].table[id].status)
    requires forall i :: n <= i < m ==> steps[i] != RequestResend(id)
    ensures id in states[m].table && states[m].table[id].status == states[n].table[id].status
  {
    if n < m {
      TerminalStays(cfg, states, steps, n, m - 1, id);
      RunInv(cfg, states, steps, m - 1);
      TerminalStep(cfg, states[m - 1], steps[m - 1], id);
    }
  }

  lemma TerminalStep(cfg: Config, s: State, a: Action, id: nat)
    requires Inv(cfg, s) && Enabled(cfg, s, a) && Disciplined(s, a) && id in s.table
    requires Terminal(s.table[id].status) && a != RequestResend(id)
    ensures id in Apply(cfg, s, a).table && Apply(cfg, s, a).table[id].status == s.table[id].status
  {
    if a.RequestResend? {
      OtherRowsStay(cfg, s, a, id);
    } else {
      StepFollowsEdges(cfg, s, a, id);
    }
  }

  // ---------------------------------------------------------------- no row is forgotten

  /** Who may be responsible for a sent row: the startup load, a caller about to hand over, or one tracked request. */
  ghost predicate AnswersForSent(s: State, o: Owner, id: nat) {
    && Owns(s, o, id)
    && (|| o.SentQ?
        || (o.Calling? && s.sender.calls[o.c].pc.HandingOver?)
        || (o.Watching? && s.monitor.heap[o.r].fate.Watched? && M.Places(s.monitor)[o.r] == 1))
  }

  ghost predicate AnswersForPending(s: State, o: Owner, id: nat) {
    && Owns(s, o, id)
    && (o.Arriving? || o.PendingQ? || (o.Calling? && !s.sender.calls[o.c].pc.HandingOver?))
  }

  /** In every run, a sent row has exactly one owner, which watches it, unless its expiry write or its load failed. */
  lemma NoSentRowIsForgotten(cfg: Config, states: seq<State>, steps: seq<Action>, n: nat, id: nat)
    requires Run(cfg, states, steps) && n < |states| && id in states[n].table
    requires states[n].table[id].status == Sent && id !in states[n].abandoned
    ensures exists o: Owner ::
              AnswersForSent(states[n], o, id) && forall o': Owner :: Owns(states[n], o', id) ==> o' == o
  {
    var s := states[n];
    RunInv(cfg, states, steps, n);
    var o: Owner :| Owns(s, o, id);
    assert FitsRow(s, o, id);
    if o.Watching? {
      WatchedInOnePlace(cfg, s, o.r);
    }
    assert AnswersForSent(s, o, id);
  }

  lemma WatchedInOnePlace(cfg: Config, s: State, r: M.Ref)
    requires MS.Inv(cfg.monitor, s.monitor) && r < |s.monitor.heap|
    ensures M.Places(s.monitor)[r] == 1
  {
  }

  /** In every run, a pending row has exactly one owner, which will send it, unless its startup load missed it. */
  lemma NoPendingRowIsForgotten(cfg: Config, states: seq<State>, steps: seq<Action>, n: nat, id: nat)
    requires Run(cfg, states, steps) && n < |states| && id in states[n].table
    requires states[n].table[id].status == Pending && id !in states[n].abandoned
    ensures exists o: Owner ::
              AnswersForPending(states[n], o, id) && forall o': Owner :: Owns(states[n], o', id) ==> o' == o
  {
    var s := states[n];
    RunInv(cfg, states, steps, n);
    var o: Owner :| Owns(s, o, id);
    assert FitsRow(s, o, id);
    assert AnswersForPending(s, o, id);
  }

  /** A resend row is owned only by the resend loop, so while the loop is between rounds its query sees it free. */
  lemma ResendRowsBelongToTheLoop(cfg: Config, states: seq<State>, steps: seq<Action>, n: nat, id: nat, o: Owner)
    requires Run(cfg, states, steps) && n < |states| && id in states[n].table
    requires states[n].table[id].status == Resend && Owns(states[n], o, id)
    ensures o.ResendQ? || (o.Calling? && states[n].resendLoad.waiting == Some(o.c))
  {
    RunInv(cfg, states, steps, n);
    assert FitsRow(states[n], o, id);
  }

  /**
   A query of the resend loop that brings all its rows puts each of them in the loop's hands: once, and as the
   only owner.
   */
  lemma ResendLoadTakesAll(cfg: Config, states: seq<State>, steps: seq<Action>, n: nat, id: nat)
    requires Run(cfg, states, steps) && n < |steps| && steps[n].LoadResend?
    requires id in states[n].table && states[n].table[id].status == Resend
    requires Complete(states[n].table, Resend, steps[n].rows)
    ensures exists k: nat :: At(states[n + 1].resendLoad.queue, k, id) && OnlyOwner(states[n + 1], ResendQ(k), id)
  {
    RunInv(cfg, states, steps, n + 1);
    LoadedForResend(cfg, states[n], steps[n], id);
  }

  lemma LoadedForResend(cfg: Config, s: State, a: Action, id: nat)
    requires Wf(s) && Enabled(cfg, s, a) && a.LoadResend? && id in s.table && s.table[id].status == Resend
    requires Complete(s.table, Resend, a.rows) && Unique(Apply(cfg, s, a))
    ensures
      var s' := Apply(cfg, s, a);
      exists k: nat :: At(s'.resendLoad.queue, k, id) && OnlyOwner(s', ResendQ(k), id)
  {
    var s' := Apply(cfg, s, a);
    var k: nat :| k < |a.rows| && a.rows[k].id == id;
    assert Owns(s', ResendQ(k), id);
    assert At(s'.resendLoad.queue, k, id) && OnlyOwner(s', ResendQ(k), id);
  }

  /** A terminal row is owned at most by the monitor, between writing that very status and letting go. */
  lemma TerminalRowsAreLetGo(cfg: Config, states: seq<State>, steps: seq<Action>, n: nat, id: nat, o: Owner)
    requires Run(cfg, states, steps) && n < |states| && id in states[n].table
    requires Terminal(states[n].table[id].status) && Owns(states[n], o, id)
    ensures o.Watching? && states[n].monitor.heap[o.r].fate == M.Settled(states[n].table[id].status)
  {
    RunInv(cfg, states, steps, n);
    assert FitsRow(states[n], o, id);
  }

  /** The step is an expiry write for the row, and it fails. */
  predicate ExpiryFails(s: State, a: Action, id: nat) {
    && a.MonitorStep? && a.watch == M.Dispatch(false) && s.monitor.disp.Expiring?
    && s.monitor.disp.ref < |s.monitor.heap| && s.monitor.heap[s.monitor.disp.ref].l2Tx.id == id
  }

  /** The row has the status of a startup query that does not bring it. */
  predicate MissedAtStart(s: State, a: Action, id: nat) {
    && a.Restart? && id in s.table
    && ((s.table[id].status == Pending && forall k :: 0 <= k < |a.pending| ==> a.pending[k].id != id)
        || (s.table[id].status == Sent && forall k :: 0 <= k < |a.sent| ==> a.sent[k].id != id))
  }

  /**
   Rows are given up in two ways only, a failed expiry write or a startup query that does not bring them, and
   for no longer than until the next start or the operator's request.
   */
  lemma GivenUp(cfg: Config, states: seq<State>, steps: seq<Action>, n: nat, id: nat)
    requires Run(cfg, states, steps) && n < |steps|
    ensures
      var s, a := states[n], steps[n];
      id in states[n + 1].abandoned
      <==> || MissedAtStart(s, a, id)
           || ExpiryFails(s, a, id)
           || (id in s.abandoned && !a.Restart? && a != RequestResend(id))
  {
    AbandonedBy(cfg, states[n], steps[n], id);
  }

  lemma AbandonedBy(cfg: Config, s: State, a: Action, id: nat)
    requires Wf(s) && Enabled(cfg, s, a)
    ensures id in Apply(cfg, s, a).abandoned
       <==> || MissedAtStart(s, a, id)
            || ExpiryFails(s, a, id)
            || (id in s.abandoned && !a.Restart? && a != RequestResend(id))
  {
    if a.Restart? {
      assert id in Missed(s.table, Pending, a.pending) + Missed(s.table, Sent, a.sent) <==> MissedAtStart(s, a, id);
    } else if a.MonitorStep? {
      MonitorAbandons(cfg, s, a, id);
    }
  }

  lemma MonitorAbandons(cfg: Config, s: State, a: Action, id: nat)
    requires Wf(s) && Enabled(cfg, s, a) && a.MonitorStep?
    ensures id in Apply(cfg, s, a).abandoned <==> id in s.abandoned || ExpiryFails(s, a, id)
  {
  }

  // ---------------------------------------------------------------- crash and restart

  /**
   From any reachable state, a crash that loses everything but the table, followed by startup queries that
   bring all their rows: each pending row waits with the sender and each sent row with the monitor, once;
   every other row is free, the resend rows for the loop to see; and nothing is abandoned any more.
   */
  lemma RestartRecovers(cfg: Config, states: seq<State>, steps: seq<Action>, n: nat, id: nat)
    requires Run(cfg, states, steps) && n < |steps| && steps[n].Restart? && id in states[n].table
    requires Complete(states[n].table, Pending, steps[n].pending) && Complete(states[n].table, Sent, steps[n].sent)
    ensures states[n + 1].table == states[n].table && states[n + 1].abandoned == {}
    ensures
      var s := states[n + 1];
      match s.table[id].status
      case Pending => exists k: nat :: At(s.pendingLoad.queue, k, id) && OnlyOwner(s, PendingQ(k), id)
      case Sent => exists k: nat :: At(s.sentLoad, k, id) && OnlyOwner(s, SentQ(k), id)
      case _ => Unowned(s, id)
  {
    RunInv(cfg, states, steps, n);
    RunInv(cfg, states, steps, n + 1);
    NothingMissed(states[n].table, Pending, steps[n].pending);
    NothingMissed(states[n].table, Sent, steps[n].sent);
    RecoveredOwner(cfg, states[n], steps[n], id);
  }

  lemma RecoveredOwner(cfg: Config, s: State, a: Action, id: nat)
    requires Wf(s) && Enabled(cfg, s, a) && a.Restart? && id in s.table
    requires Complete(s.table, Pending, a.pending) && Complete(s.table, Sent, a.sent)
    requires Unique(Apply(cfg, s, a))
    ensures
      var s' := Apply(cfg, s, a);
      match s'.table[id].status
      case Pending => exists k: nat :: At(s'.pendingLoad.queue, k, id) && OnlyOwner(s', PendingQ(k), id)
      case Sent => exists k: nat :: At(s'.sentLoad, k, id) && OnlyOwner(s', SentQ(k), id)
      case _ => Unowned(s', id)
  {
    var s' := Apply(cfg, s, a);
    match s.table[id].status
    case Pending =>
      var k: nat :| k < |a.pending| && a.pending[k].id == id;
      assert At(s'.pendingLoad.queue, k, id) && Owns(s', PendingQ(k), id);
      assert OnlyOwner(s', PendingQ(k), id);
    case Sent =>
      var k: nat :| k < |a.sent| && a.sent[k].id == id;
      assert At(s'.sentLoad, k, id) && Owns(s', SentQ(k), id);
      assert OnlyOwner(s', SentQ(k), id);
    case _ =>
      forall o: Owner
        ensures !Owns(s', o, id)
      {
        if Owns(s', o, id) {
          RestartFits(cfg, s, a, o, id);
        }
      }
  }

  ghost predicate OnlyOwner(s: State, o: Owner, id: nat) {
    Owns(s, o, id) && forall o': Owner :: Owns(s, o', id) ==> o' == o
  }

  lemma NothingMissed(table: Table, status: Status, rows: seq<L2Transaction>)
    requires Complete(table, status, rows)
    ensures Missed(table, status, rows) == {}
  {
  }

  // ---------------------------------------------------------------- unique ownership is earned

  /** In every run, whatever is handed to the monitor has an id that no request of the monitor tracks. */
  lemma MonitorIsHandedFreshIds(cfg: Config, states: seq<State>, steps: seq<Action>, n: nat)
    requires Run(cfg, states, steps) && n < |steps| && MonitorPart(states[n], steps[n]).Some?
    ensures MS.Disciplined(states[n].monitor, MonitorPart(states[n], steps[n]).value)
  {
    RunInv(cfg, states, steps, n);
    PartIsDisciplined(cfg, states[n], steps[n]);
  }

  /** So the shared monitor never panics, whatever the interleaving with the sender and the crashes. */
  lemma EngineNeverPanics(cfg: Config, states: seq<State>, steps: seq<Action>, n: nat)
    requires Run(cfg, states, steps) && n < |states|
    ensures !states[n].monitor.panicked && |states[n].monitor.queue| <= cfg.monitor.queueSize
    ensures M.Wf(states[n].monitor) && M.Covered(states[n].monitor)
  {
    RunInv(cfg, states, steps, n);
    MS.ComparatorsAreSafe(states[n].monitor);
  }

  /**
   The assumption on the sender's writes is exact: for a row that was not given up, the agreement of owners
   and statuses survives the write if and only if it succeeds, or fails on an invalid row due for resending.
   */
  lemma SenderWriteIff(cfg: Config, s: State, c: S.CallId, ok: bool)
    requires Inv(cfg, s) && c < |s.sender.calls| && Writes(s, S.Resume(c, ok))
    requires s.sender.calls[c].l2Tx.id in s.table && s.sender.calls[c].l2Tx.id !in s.abandoned
    ensures Inv(cfg, Apply(cfg, s, SenderStep(S.Resume(c, ok)))) <==> ok || Harmless(s, s.sender.calls[c])
  {
    var a := SenderStep(S.Resume(c, ok));
    if ok || Harmless(s, s.sender.calls[c]) {
      InvNext(cfg, s, a);
    } else {
      FailedWriteHarms(cfg, s, c);
    }
  }

  lemma FailedWriteHarms(cfg: Config, s: State, c: S.CallId)
    requires Inv(cfg, s) && c < |s.sender.calls| && Writes(s, S.Resume(c, false))
    requires s.sender.calls[c].l2Tx.id in s.table && s.sender.calls[c].l2Tx.id !in s.abandoned
    requires !Harmless(s, s.sender.calls[c])
    ensures !Inv(cfg, Apply(cfg, s, SenderStep(S.Resume(c, false))))
  {
    var a, id := SenderStep(S.Resume(c, false)), s.sender.calls[c].l2Tx.id;
    var s' := Apply(cfg, s, a);
    CallerWritesWhat(cfg, s, a);
    SenderKeepsCalls(cfg.sender, s.sender, a.send, c);
    assert Owns(s, Calling(c), id) && FitsRow(s, Calling(c), id);
    if s.sender.calls[c].pc.WritingSent? {
      assert Owns(s', Calling(c), id) && !FitsRow(s', Calling(c), id);
    } else {
      forall o: Owner
        ensures !Owns(s', o, id)
      {
        if Owns(s', o, id) {
          OwnerOrigin(cfg, s, a, o, id);
        }
      }
      assert s'.table[id].status == Pending && id !in s'.abandoned;
    }
  }
}
