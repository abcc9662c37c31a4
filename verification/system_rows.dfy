/** What the rows say, and that whoever is responsible for a row works on that row's own transaction. */
module SystemRows {
  import opened Wrappers
  import opened Types
  import opened Sequences
  import opened Pool
  import M = MonitorMachine
  import MS = MonitorSafety
  import MF = MonitorFates
  import MT = MonitorTruth
  import T = MonitorTiming
  import S = SenderMachine
  import opened System
  import opened SystemSafety
  import opened SystemRuns

  // ---------------------------------------------------------------- what a step does to a row

  /** The monitor writes the row: its own transaction stays, and the error is cleared. */
  lemma MonitorRow(cfg: Config, s: State, a: Action, id: nat)
    requires Wf(s) && Enabled(cfg, s, a) && a.MonitorStep? && id in s.table
    ensures id in Apply(cfg, s, a).table
    ensures
      var w := MF.Wrote(s.monitor, a.watch);
      Apply(cfg, s, a).table[id]
      == if w.Some? && w.value.id == id then Row(s.table[id].l2Tx, w.value.status, "") else s.table[id]
  {
  }

  /** A caller writes the row: sent without an error, or invalid with the error its request came back with. */
  lemma CallerRow(cfg: Config, s: State, a: Action, id: nat)
    requires Wf(s) && S.Inv(cfg.sender, s.sender) && Enabled(cfg, s, a) && a.SenderStep? && id in s.table
    ensures id in Apply(cfg, s, a).table
    ensures
      Apply(cfg, s, a).table[id]
      == if Writes(s, a.send) && a.send.ok && s.sender.calls[a.send.c].l2Tx.id == id
         then match s.sender.calls[a.send.c].err
              case None => Row(s.table[id].l2Tx, Sent, "")
              case Some(error) => Row(s.table[id].l2Tx, Invalid, error)
         else s.table[id]
  {
    if Writes(s, a.send) {
      assert S.CallSound(s.sender.calls[a.send.c]);
    }
  }

  /** Every other step leaves it, apart from the operator's request. */
  lemma OtherRow(cfg: Config, s: State, a: Action, id: nat)
    requires Wf(s) && Enabled(cfg, s, a) && !a.SenderStep? && !a.MonitorStep? && id in s.table
    ensures id in Apply(cfg, s, a).table
    ensures Apply(cfg, s, a).table[id]
         == if a == RequestResend(id) then Row(s.table[id].l2Tx, Resend, s.table[id].error) else s.table[id]
  {
  }

  lemma RowKeepsTx(cfg: Config, s: State, a: Action, id: nat)
    requires Inv(cfg, s) && Enabled(cfg, s, a) && id in s.table
    ensures id in Apply(cfg, s, a).table && Apply(cfg, s, a).table[id].l2Tx == s.table[id].l2Tx
  {
    if a.SenderStep? {
      CallerRow(cfg, s, a, id);
    } else if a.MonitorStep? {
      MonitorRow(cfg, s, a, id);
    } else {
      OtherRow(cfg, s, a, id);
    }
  }

  /** In every run a row, once inserted, is there for ever and keeps its transaction. */
  lemma {:induction false} RowsStay(cfg: Config, states: seq<State>, steps: seq<Action>, n: nat, m: nat, id: nat)
    requires Run(cfg, states, steps) && n <= m < |states| && id in states[n].table
    ensures id in states[m].table && states[m].table[id].l2Tx == states[n].table[id].l2Tx
  {
    if n < m {
      RowsStay(cfg, states, steps, n, m - 1, id);
      RunInv(cfg, states, steps, m - 1);
      RowKeepsTx(cfg, states[m - 1], steps[m - 1], id);
    }
  }

  // ---------------------------------------------------------------- errors

  /** Only a rejected row, or one that is to be sent again, carries an error. */
  ghost predicate CleanRows(table: Table) {
    forall id :: id in table && table[id].error != "" ==> table[id].status.Invalid? || table[id].status.Resend?
  }

  lemma CleanNext(cfg: Config, s: State, a: Action)
    requires Inv(cfg, s) && Enabled(cfg, s, a) && CleanRows(s.table)
    ensures CleanRows(Apply(cfg, s, a).table)
  {
    forall id | id in Apply(cfg, s, a).table && Apply(cfg, s, a).table[id].error != ""
      ensures Apply(cfg, s, a).table[id].status.Invalid? || Apply(cfg, s, a).table[id].status.Resend?
    {
      if id in s.table {
        CleanRow(cfg, s, a, id);
      } else {
        NewRow(cfg, s, a, id);
      }
    }
  }

  lemma CleanRow(cfg: Config, s: State, a: Action, id: nat)
    requires Inv(cfg, s) && Enabled(cfg, s, a) && id in s.table
    requires s.table[id].error != "" ==> s.table[id].status.Invalid? || s.table[id].status.Resend?
    ensures id in Apply(cfg, s, a).table
    ensures Apply(cfg, s, a).table[id].error != "" ==>
              Apply(cfg, s, a).table[id].status.Invalid? || Apply(cfg, s, a).table[id].status.Resend?
  {
    if a.SenderStep? {
      CallerRow(cfg, s, a, id);
    } else if a.MonitorStep? {
      MonitorRow(cfg, s, a, id);
    } else {
      OtherRow(cfg, s, a, id);
    }
  }

  lemma NewRow(cfg: Config, s: State, a: Action, id: nat)
    requires Wf(s) && Enabled(cfg, s, a) && id in Apply(cfg, s, a).table && id !in s.table
    ensures a.Insert? && a.ok && id == a.l2Tx.id && Apply(cfg, s, a).table[id] == Row(a.l2Tx, Pending, "")
  {
    if WrittenId(s, a) != Some(id) {
      OtherRowsStay(cfg, s, a, id);
    }
  }

  /** In every run a pending, sent, confirmed, failed or expired row has no error. */
  lemma {:induction false} ErrorsAreOfRejections(cfg: Config, states: seq<State>, steps: seq<Action>, n: nat)
    requires Run(cfg, states, steps) && n < |states|
    ensures CleanRows(states[n].table)
  {
    if n > 0 {
      ErrorsAreOfRejections(cfg, states, steps, n - 1);
      RunInv(cfg, states, steps, n - 1);
      CleanNext(cfg, states[n - 1], steps[n - 1]);
    }
  }

  // ---------------------------------------------------------------- every owner carries its row's transaction

  /** The transaction an owner holds. */
  function HeldTx(s: State, o: Owner, id: nat): L2Transaction
    requires Owns(s, o, id)
  {
    match o
    case Arriving(k) => s.arriving[k]
    case PendingQ(k) => s.pendingLoad.queue[k]
    case ResendQ(k) => s.resendLoad.queue[k]
    case SentQ(k) => s.sentLoad[k]
    case Calling(c) => s.sender.calls[c].l2Tx
    case Watching(r) => s.monitor.heap[r].l2Tx
  }

  ghost predicate Carrying(s: State) {
    forall o: Owner, id: nat :: Owns(s, o, id) && id in s.table ==> HeldTx(s, o, id) == s.table[id].l2Tx
  }

  /** Passing a row on passes on its transaction. */
  lemma TxOrigin(cfg: Config, s: State, a: Action, o: Owner, id: nat)
    requires Wf(s) && Enabled(cfg, s, a) && Owns(Apply(cfg, s, a), o, id)
    requires Pre(s, a, o).Some? ==> Owns(s, Pre(s, a, o).value, id)
    ensures Pre(s, a, o).Some? ==> HeldTx(Apply(cfg, s, a), o, id) == HeldTx(s, Pre(s, a, o).value, id)
    ensures a.Insert? && Pre(s, a, o) == None ==> HeldTx(Apply(cfg, s, a), o, id) == a.l2Tx
  {
    if o.Calling? {
      CallTxOrigin(cfg, s, a, o, id);
    } else if o.Watching? {
      WatchTxOrigin(cfg, s, a, o, id);
    } else {
      QueueTxOrigin(cfg, s, a, o, id);
    }
  }

  lemma QueueTxOrigin(cfg: Config, s: State, a: Action, o: Owner, id: nat)
    requires Wf(s) && Enabled(cfg, s, a) && Owns(Apply(cfg, s, a), o, id) && !o.Calling? && !o.Watching?
    requires Pre(s, a, o).Some? ==> Owns(s, Pre(s, a, o).value, id)
    ensures Pre(s, a, o).Some? ==> HeldTx(Apply(cfg, s, a), o, id) == HeldTx(s, Pre(s, a, o).value, id)
    ensures a.Insert? && Pre(s, a, o) == None ==> HeldTx(Apply(cfg, s, a), o, id) == a.l2Tx
  {
  }

  lemma CallTxOrigin(cfg: Config, s: State, a: Action, o: Owner, id: nat)
    requires Wf(s) && Enabled(cfg, s, a) && Owns(Apply(cfg, s, a), o, id) && o.Calling?
    requires Pre(s, a, o).Some? ==> Owns(s, Pre(s, a, o).value, id)
    ensures Pre(s, a, o).Some? ==> HeldTx(Apply(cfg, s, a), o, id) == HeldTx(s, Pre(s, a, o).value, id)
    ensures Pre(s, a, o) == None ==> a.Restart?
  {
    if !a.Restart? {
      Projects(cfg, s, a);
      if SenderPart(s, a).Some? {
        SenderKeepsCalls(cfg.sender, s.sender, SenderPart(s, a).value, o.c);
      }
    }
  }

  lemma WatchTxOrigin(cfg: Config, s: State, a: Action, o: Owner, id: nat)
    requires Wf(s) && Enabled(cfg, s, a) && Owns(Apply(cfg, s, a), o, id) && o.Watching?
    requires Pre(s, a, o).Some? ==> Owns(s, Pre(s, a, o).value, id)
    ensures Pre(s, a, o).Some? ==> HeldTx(Apply(cfg, s, a), o, id) == HeldTx(s, Pre(s, a, o).value, id)
    ensures Pre(s, a, o) == None ==> a.Restart?
  {
    if !a.Restart? {
      Projects(cfg, s, a);
      if MonitorPart(s, a).Some? {
        TrackedBefore(cfg.monitor, s.monitor, MonitorPart(s, a).value, o.r);
      }
    }
  }

  /** What a load brings is what the table has. */
  lemma LoadedTx(cfg: Config, s: State, a: Action, o: Owner, id: nat)
    requires Wf(s) && Enabled(cfg, s, a) && Owns(Apply(cfg, s, a), o, id) && Pre(s, a, o) == None
    requires a.LoadResend? || a.Restart?
    ensures id in s.table && HeldTx(Apply(cfg, s, a), o, id) == s.table[id].l2Tx
  {
    OwnerOrigin(cfg, s, a, o, id);
  }

  lemma CarriesNext(cfg: Config, s: State, a: Action, o: Owner, id: nat)
    requires Inv(cfg, s) && Carrying(s) && Enabled(cfg, s, a) && Owns(Apply(cfg, s, a), o, id)
    requires id in Apply(cfg, s, a).table
    ensures HeldTx(Apply(cfg, s, a), o, id) == Apply(cfg, s, a).table[id].l2Tx
  {
    OwnerOrigin(cfg, s, a, o, id);
    TxOrigin(cfg, s, a, o, id);
    if id in s.table {
      RowKeepsTx(cfg, s, a, id);
      if Pre(s, a, o) == None {
        if a.LoadResend? || a.Restart? {
          LoadedTx(cfg, s, a, o, id);
        } else {
          NewIsInserted(cfg, s, a, o, id);
        }
      }
    } else {
      NewRow(cfg, s, a, id);
      FreshIdIsNew(cfg, s, a, o, id);
    }
  }

  lemma NewIsInserted(cfg: Config, s: State, a: Action, o: Owner, id: nat)
    requires Inv(cfg, s) && Enabled(cfg, s, a) && Owns(Apply(cfg, s, a), o, id) && Pre(s, a, o) == None
    requires !a.LoadResend? && !a.Restart?
    ensures id !in s.table
  {
    OwnerOrigin(cfg, s, a, o, id);
  }

  lemma FreshIdIsNew(cfg: Config, s: State, a: Action, o: Owner, id: nat)
    requires Inv(cfg, s) && Enabled(cfg, s, a) && a.Insert? && a.ok && id == a.l2Tx.id
    requires Owns(Apply(cfg, s, a), o, id)
    ensures Pre(s, a, o) == None
  {
    OwnerOrigin(cfg, s, a, o, id);
  }

  lemma {:induction false} RunCarrying(cfg: Config, states: seq<State>, steps: seq<Action>, n: nat)
    requires Run(cfg, states, steps) && n < |states|
    ensures Carrying(states[n])
  {
    if n > 0 {
      RunCarrying(cfg, states, steps, n - 1);
      RunInv(cfg, states, steps, n - 1);
      var s, a, s' := states[n - 1], steps[n - 1], states[n];
      forall o: Owner, id: nat | Owns(s', o, id) && id in s'.table
        ensures HeldTx(s', o, id) == s'.table[id].l2Tx
      {
        CarriesNext(cfg, s, a, o, id);
      }
    }
  }

  /** In every run whoever is responsible for a row, in whatever part of the engine, holds that row's transaction. */
  lemma OwnersHoldTheirRow(cfg: Config, states: seq<State>, steps: seq<Action>, n: nat, o: Owner, id: nat)
    requires Run(cfg, states, steps) && n < |states| && Owns(states[n], o, id) && id in states[n].table
    ensures HeldTx(states[n], o, id) == states[n].table[id].l2Tx
  {
    RunCarrying(cfg, states, steps, n);
  }

  // ---------------------------------------------------------------- why a row changes

  /** What the monitor knows in every state of the engine, restarts included. */
  ghost predicate MonitorSound(cfg: Config, m: M.State)
    requires M.Wf(m)
  {
    T.Timed(cfg.monitor, m) && MT.Truthful(cfg.monitor, m)
  }

  lemma SoundNext(cfg: Config, m: M.State, a: M.Action)
    requires MS.Inv(cfg.monitor, m) && MF.Fated(m) && MonitorSound(cfg, m)
    requires M.Enabled(cfg.monitor, m, a) && MS.Disciplined(m, a)
    ensures M.Wf(M.Apply(cfg.monitor, m, a)) && MonitorSound(cfg, M.Apply(cfg.monitor, m, a))
  {
    MS.ListCallsWork(cfg.monitor, m, a);
    T.TimedNext(cfg.monitor, m, a);
    MT.TruthfulNext(cfg.monitor, m, a);
  }

  lemma SoundAtFirst(cfg: Config, m: M.State)
    requires M.Init(cfg.monitor, m)
    ensures M.Wf(m) && MonitorSound(cfg, m)
  {
  }

  lemma {:induction false} RunSound(cfg: Config, states: seq<State>, steps: seq<Action>, n: nat)
    requires Run(cfg, states, steps) && n < |states|
    ensures Inv(cfg, states[n]) && MonitorSound(cfg, states[n].monitor)
  {
    RunInv(cfg, states, steps, n);
    if n == 0 {
      SoundAtFirst(cfg, states[0].monitor);
    } else {
      RunSound(cfg, states, steps, n - 1);
      SoundStep(cfg, states[n - 1], steps[n - 1]);
    }
  }

  lemma SoundStep(cfg: Config, s: State, a: Action)
    requires Inv(cfg, s) && Enabled(cfg, s, a) && MonitorSound(cfg, s.monitor)
    ensures M.Wf(Apply(cfg, s, a).monitor) && MonitorSound(cfg, Apply(cfg, s, a).monitor)
  {
    if a.Restart? {
      SoundAtFirst(cfg, a.monitor);
    } else {
      Projects(cfg, s, a);
      if MonitorPart(s, a).Some? {
        PartIsDisciplined(cfg, s, a);
        SoundNext(cfg, s.monitor, MonitorPart(s, a).value);
      }
    }
  }

  /** Some call was answered so by the sequencer, to the row's own payload. */
  predicate AnsweredSo(s: State, l2Tx: L2Transaction, error: Option<string>) {
    exists c :: 0 <= c < |s.sender.calls| && s.sender.calls[c].l2Tx == l2Tx
                && s.sender.calls[c].rpcs == [S.Rpc(l2Tx.encoded, error)]
  }

  /** Some request for this very transaction has a receipt, of status zero or not. */
  predicate HasReceipt(s: State, l2Tx: L2Transaction, failed: bool) {
    exists r :: 0 <= r < |s.monitor.heap| && s.monitor.heap[r].l2Tx == l2Tx
                && s.monitor.heap[r].answer.Receipt? && (s.monitor.heap[r].answer.status == 0) == failed
  }

  /** The reason for what a row says now that it did not say before. */
  predicate Reason(cfg: Config, s: State, a: Action, row: Row) {
    match row.status
    case Pending => false
    case Sent => row.error == "" && AnsweredSo(s, row.l2Tx, None)
    case Invalid => AnsweredSo(s, row.l2Tx, Some(row.error))
    case Confirmed => row.error == "" && HasReceipt(s, row.l2Tx, false)
    case Failed => row.error == "" && HasReceipt(s, row.l2Tx, true)
    case Expired => row.error == "" && row.l2Tx.receivedAt + cfg.monitor.lifeTimeMax < s.monitor.clock
    case Resend => a == RequestResend(row.l2Tx.id)
  }

  lemma CallerReason(cfg: Config, s: State, a: Action, id: nat)
    requires Inv(cfg, s) && Carrying(s) && Enabled(cfg, s, a) && a.SenderStep? && id in s.table
    requires Apply(cfg, s, a).table[id] != s.table[id]
    ensures Reason(cfg, s, a, Apply(cfg, s, a).table[id])
  {
    CallerRow(cfg, s, a, id);
    var call := s.sender.calls[a.send.c];
    assert S.CallSound(call);
    assert Owns(s, Calling(a.send.c), id);
    assert HeldTx(s, Calling(a.send.c), id) == call.l2Tx;
    assert AnsweredSo(s, call.l2Tx, call.err);
  }

  lemma MonitorReason(cfg: Config, s: State, a: Action, id: nat)
    requires Inv(cfg, s) && Carrying(s) && MonitorSound(cfg, s.monitor) && Enabled(cfg, s, a) && a.MonitorStep?
    requires id in s.table && Apply(cfg, s, a).table[id] != s.table[id]
    ensures Reason(cfg, s, a, Apply(cfg, s, a).table[id])
  {
    MonitorRow(cfg, s, a, id);
    var m := s.monitor;
    var r := WrittenRef(m, a.watch);
    WatchedBefore(cfg, s, a.watch, r);
    assert Owns(s, Watching(r), id);
    assert HeldTx(s, Watching(r), id) == m.heap[r].l2Tx;
    WrittenIsJustified(cfg, m, a.watch);
    assert m.heap[r].l2Tx == s.table[id].l2Tx;
  }

  lemma WrittenIsJustified(cfg: Config, m: M.State, a: M.Action)
    requires M.Wf(m) && MT.Truthful(cfg.monitor, m) && M.Enabled(cfg.monitor, m, a) && MF.Wrote(m, a).Some?
    ensures WrittenRef(m, a) < |m.heap|
    ensures
      var q := m.heap[WrittenRef(m, a)];
      match MF.Wrote(m, a).value.status
      case Confirmed => q.answer.Receipt? && q.answer.status != 0
      case Failed => q.answer == M.Receipt(0)
      case Expired => q.l2Tx.receivedAt + cfg.monitor.lifeTimeMax < m.clock
      case _ => false
  {
    if a.Record? {
      assert MT.ThreadTruthful(cfg.monitor, m.heap, m.threads[a.i], m.clock);
    }
  }

  /**
   In every run, whenever a row changes it says why, in terms of its own transaction: sent and invalid by the
   sequencer's answer to its payload, with that very error; confirmed and failed by a receipt for it; expired by
   its own age; resend by the operator. Nothing goes back to pending.
   */
  lemma RowsSayWhy(cfg: Config, states: seq<State>, steps: seq<Action>, n: nat, id: nat)
    requires Run(cfg, states, steps) && n < |steps| && id in states[n].table
    ensures id in states[n + 1].table
    ensures states[n + 1].table[id] != states[n].table[id] ==>
              Reason(cfg, states[n], steps[n], states[n + 1].table[id])
  {
    RunSound(cfg, states, steps, n);
    RunCarrying(cfg, states, steps, n);
    var s, a := states[n], steps[n];
    RowKeepsTx(cfg, s, a, id);
    if states[n + 1].table[id] != s.table[id] {
      if a.SenderStep? {
        CallerReason(cfg, s, a, id);
      } else if a.MonitorStep? {
        MonitorReason(cfg, s, a, id);
      } else {
        OtherRow(cfg, s, a, id);
      }
    }
  }
}
