/** What every step of the whole engine keeps, under the stated discipline, and what follows for the rows. */
module SystemSafety {
  import opened Wrappers
  import opened Types
  import opened Sequences
  import opened Pool
  import M = MonitorMachine
  import MS = MonitorSafety
  import MF = MonitorFates
  import S = SenderMachine
  import SS = SenderSafety
  import opened System

  // ---------------------------------------------------------------- where owners come from

  predicate HandsOver(s: State, a: Action) {
    a.SenderStep? && a.send.Resume? && a.send.c < |s.sender.calls| && s.sender.calls[a.send.c].pc.HandingOver?
  }

  /** The owner before the step of what `o` owns after it; None for an owner the step introduces. */
  function Pre(s: State, a: Action, o: Owner): Option<Owner> {
    match a
    case Insert(_, _) => if o == Arriving(|s.arriving|) then None else Some(o)
    case SendArrived(k) =>
      if o == Calling(|s.sender.calls|) then Some(Arriving(k))
      else if o.Arriving? && o.k >= k then Some(Arriving(o.k + 1)) else Some(o)
    case SendPending =>
      if o == Calling(|s.sender.calls|) then Some(PendingQ(0))
      else if o.PendingQ? then Some(PendingQ(o.k + 1)) else Some(o)
    case SendResend =>
      if o == Calling(|s.sender.calls|) then Some(ResendQ(0))
      else if o.ResendQ? then Some(ResendQ(o.k + 1)) else Some(o)
    case LoadResend(_) => if o.ResendQ? then None else Some(o)
    case MonitorSent =>
      if o == Watching(|s.monitor.heap|) then Some(SentQ(0))
      else if o.SentQ? then Some(SentQ(o.k + 1)) else Some(o)
    case SenderStep(b) =>
      if HandsOver(s, a) && o == Watching(|s.monitor.heap|) then Some(Calling(b.c)) else Some(o)
    case Restart(_, _, _, _) => None
    case _ => Some(o)
  }

  lemma SenderKeepsCalls(cfg: S.Config, s: S.State, a: S.Action, c: S.CallId)
    requires S.Wf(s) && S.Enabled(cfg, s, a)
    ensures
      var s' := S.Apply(cfg, s, a);
      && |s'.calls| == |s.calls| + (if a.Enter? then 1 else 0)
      && (c < |s.calls| ==>
            && s'.calls[c].l2Tx == s.calls[c].l2Tx
            && ((a.Resume? && a.c == c) || s'.calls[c].pc == s.calls[c].pc)
            && (s.calls[c].pc.Returned? ==> s'.calls[c].pc.Returned?))
      && (a.Enter? ==> s'.calls[|s.calls|].l2Tx == a.l2Tx && s'.calls[|s.calls|].pc.Enqueuing?)
  {
  }

  lemma TrackedBefore(cfg: M.Config, m: M.State, a: M.Action, r: M.Ref)
    requires M.Wf(m) && M.Enabled(cfg, m, a) && MS.Tracked(M.Apply(cfg, m, a), r)
    ensures
      || (r < |m.heap| && MS.Tracked(m, r) && M.Apply(cfg, m, a).heap[r].l2Tx == m.heap[r].l2Tx)
      || (a.Submit? && r == |m.heap| && M.Apply(cfg, m, a).heap[r].l2Tx == a.l2Tx
          && M.Apply(cfg, m, a).heap[r].fate == M.Watched)
  {
    MS.HeapGrows(cfg, m, a);
    if r < |m.heap| {
      MS.HeapKeepsTx(cfg, m, a, r);
    }
  }

  lemma OwnerOrigin(cfg: Config, s: State, a: Action, o: Owner, id: nat)
    requires Wf(s) && Enabled(cfg, s, a) && Owns(Apply(cfg, s, a), o, id)
    ensures Pre(s, a, o).Some? ==> Owns(s, Pre(s, a, o).value, id)
    ensures a.Insert? && Pre(s, a, o) == None ==> id == a.l2Tx.id
    ensures a.LoadResend? && Pre(s, a, o) == None ==> o.ResendQ? && At(a.rows, o.k, id)
    ensures a.Restart? ==> (o.PendingQ? && At(a.pending, o.k, id)) || (o.SentQ? && At(a.sent, o.k, id))
  {
    if a.SenderStep? || a.MonitorStep? {
      OwnerOfStep(cfg, s, a, o, id);
    } else if a.SendArrived? || a.SendPending? || a.SendResend? {
      OwnerOfEntry(cfg, s, a, o, id);
    } else if a.MonitorSent? {
      OwnerOfLoaded(cfg, s, o, id);
    } else {
      OwnerOfOther(cfg, s, a, o, id);
    }
  }

  /** The caller that enters now was a goroutine or a loader holding the row. */
  lemma OwnerOfEntry(cfg: Config, s: State, a: Action, o: Owner, id: nat)
    requires Wf(s) && Enabled(cfg, s, a) && Owns(Apply(cfg, s, a), o, id)
    requires a.SendArrived? || a.SendPending? || a.SendResend?
    ensures Pre(s, a, o).Some? && Owns(s, Pre(s, a, o).value, id)
  {
    var tx := if a.SendArrived? then s.arriving[a.k]
              else if a.SendPending? then s.pendingLoad.queue[0] else s.resendLoad.queue[0];
    SenderKeepsCalls(cfg.sender, s.sender, S.Enter(tx), if o.Calling? then o.c else 0);
  }

  lemma OwnerOfLoaded(cfg: Config, s: State, o: Owner, id: nat)
    requires Wf(s) && Enabled(cfg, s, MonitorSent) && Owns(Apply(cfg, s, MonitorSent), o, id)
    ensures Pre(s, MonitorSent, o).Some? && Owns(s, Pre(s, MonitorSent, o).value, id)
  {
    if o.Watching? {
      TrackedBefore(cfg.monitor, s.monitor, M.Submit(s.sentLoad[0]), o.r);
    }
  }

  lemma OwnerOfOther(cfg: Config, s: State, a: Action, o: Owner, id: nat)
    requires Wf(s) && Enabled(cfg, s, a) && Owns(Apply(cfg, s, a), o, id)
    requires a.Insert? || a.PendingDone? || a.LoadResend? || a.ResendDone? || a.RequestResend? || a.Restart?
    ensures Pre(s, a, o).Some? ==> Owns(s, Pre(s, a, o).value, id)
    ensures a.Insert? && Pre(s, a, o) == None ==> id == a.l2Tx.id
    ensures a.LoadResend? && Pre(s, a, o) == None ==> o.ResendQ? && At(a.rows, o.k, id)
    ensures a.Restart? ==> (o.PendingQ? && At(a.pending, o.k, id)) || (o.SentQ? && At(a.sent, o.k, id))
  {
  }

  lemma OwnerOfStep(cfg: Config, s: State, a: Action, o: Owner, id: nat)
    requires Wf(s) && Enabled(cfg, s, a) && Owns(Apply(cfg, s, a), o, id) && (a.SenderStep? || a.MonitorStep?)
    ensures Pre(s, a, o).Some? && Owns(s, Pre(s, a, o).value, id)
  {
    if a.MonitorStep? {
      if o.Watching? {
        TrackedBefore(cfg.monitor, s.monitor, a.watch, o.r);
      }
    } else {
      SenderKeepsCalls(cfg.sender, s.sender, a.send, if o.Calling? then o.c else 0);
      if HandsOver(s, a) && o.Watching? {
        TrackedBefore(cfg.monitor, s.monitor, M.Submit(s.sender.calls[a.send.c].l2Tx), o.r);
      }
    }
  }

  /** Two owners after a step never have the same predecessor. */
  lemma PreInjective(cfg: Config, s: State, a: Action, o: Owner, o': Owner, id: nat)
    requires Wf(s) && Enabled(cfg, s, a) && Owns(Apply(cfg, s, a), o, id) && Owns(Apply(cfg, s, a), o', id)
    requires Pre(s, a, o).Some? && Pre(s, a, o) == Pre(s, a, o')
    ensures o == o'
  {
    if HandsOver(s, a) {
      HandedOverReturns(cfg, s, a);
      assert !Owns(Apply(cfg, s, a), Calling(a.send.c), id);
    } else if a.SendArrived? || a.SendPending? || a.SendResend? || a.MonitorSent? {
      EnteredOnce(s, a, o, o');
    }
  }

  lemma HandedOverReturns(cfg: Config, s: State, a: Action)
    requires Wf(s) && Enabled(cfg, s, a) && HandsOver(s, a)
    ensures |Apply(cfg, s, a).sender.calls| == |s.sender.calls|
    ensures Apply(cfg, s, a).sender.calls[a.send.c].pc.Returned?
  {
  }

  lemma EnteredOnce(s: State, a: Action, o: Owner, o': Owner)
    requires a.SendArrived? || a.SendPending? || a.SendResend? || a.MonitorSent?
    requires Pre(s, a, o).Some? && Pre(s, a, o) == Pre(s, a, o')
    ensures o == o'
  {
  }

  /** What a step introduces had no owner before it. */
  lemma NewIsUnowned(cfg: Config, s: State, a: Action, o: Owner, id: nat)
    requires Inv(cfg, s) && Enabled(cfg, s, a) && Disciplined(s, a) && !a.Restart?
    requires Owns(Apply(cfg, s, a), o, id) && Pre(s, a, o) == None
    ensures Unowned(s, id)
  {
    OwnerOrigin(cfg, s, a, o, id);
    forall p: Owner
      ensures !Owns(s, p, id)
    {
      if Owns(s, p, id) {
        assert false;
      }
    }
  }

  lemma UniqueNext(cfg: Config, s: State, a: Action)
    requires Inv(cfg, s) && Enabled(cfg, s, a) && Disciplined(s, a)
    ensures Unique(Apply(cfg, s, a))
  {
    forall o: Owner, o': Owner, id: nat | Owns(Apply(cfg, s, a), o, id) && Owns(Apply(cfg, s, a), o', id)
      ensures o == o'
    {
      OneOwner(cfg, s, a, o, o', id);
    }
  }

  lemma OneOwner(cfg: Config, s: State, a: Action, o: Owner, o': Owner, id: nat)
    requires Inv(cfg, s) && Enabled(cfg, s, a) && Disciplined(s, a)
    requires Owns(Apply(cfg, s, a), o, id) && Owns(Apply(cfg, s, a), o', id)
    ensures o == o'
  {
    OwnerOrigin(cfg, s, a, o, id);
    OwnerOrigin(cfg, s, a, o', id);
    if a.Restart? {
      RestartOwner(cfg, s, a, o, o', id);
    } else if Pre(s, a, o).Some? && Pre(s, a, o').Some? {
      assert Pre(s, a, o).value == Pre(s, a, o').value;
      PreInjective(cfg, s, a, o, o', id);
    } else {
      NewOwner(cfg, s, a, o, o', id);
    }
  }

  lemma NewOwner(cfg: Config, s: State, a: Action, o: Owner, o': Owner, id: nat)
    requires Inv(cfg, s) && Enabled(cfg, s, a) && Disciplined(s, a) && !a.Restart?
    requires Owns(Apply(cfg, s, a), o, id) && Owns(Apply(cfg, s, a), o', id)
    requires Pre(s, a, o) == None || Pre(s, a, o') == None
    ensures o == o'
  {
    OwnerOrigin(cfg, s, a, o, id);
    OwnerOrigin(cfg, s, a, o', id);
    NewIsUnowned(cfg, s, a, if Pre(s, a, o) == None then o else o', id);
  }

  lemma RestartOwner(cfg: Config, s: State, a: Action, o: Owner, o': Owner, id: nat)
    requires Enabled(cfg, s, a) && a.Restart?
    requires (o.PendingQ? && At(a.pending, o.k, id)) || (o.SentQ? && At(a.sent, o.k, id))
    requires (o'.PendingQ? && At(a.pending, o'.k, id)) || (o'.SentQ? && At(a.sent, o'.k, id))
    ensures o == o'
  {
    assert o.PendingQ? ==> s.table[id].status == Pending;
    assert o.SentQ? ==> s.table[id].status == Sent;
  }

  // ---------------------------------------------------------------- the parts

  /** Unique ownership is what the monitor relies on: whatever is handed to it is not tracked yet. */
  lemma HandedIsUntracked(s: State, o: Owner, l2Tx: L2Transaction)
    requires Unique(s) && !o.Watching? && Owns(s, o, l2Tx.id)
    ensures MS.Disciplined(s.monitor, M.Submit(l2Tx))
  {
    forall r: M.Ref | MS.Tracked(s.monitor, r)
      ensures s.monitor.heap[r].l2Tx.id != l2Tx.id
    {
      assert s.monitor.heap[r].l2Tx.id == l2Tx.id ==> Owns(s, Watching(r), l2Tx.id);
    }
  }

  lemma MonitorNext(cfg: M.Config, m: M.State, a: M.Action)
    requires MS.Inv(cfg, m) && MF.Fated(m) && M.Enabled(cfg, m, a) && MS.Disciplined(m, a)
    ensures MS.Inv(cfg, M.Apply(cfg, m, a)) && MF.Fated(M.Apply(cfg, m, a))
  {
    MS.InvNext(cfg, m, a);
    MS.ListCallsWork(cfg, m, a);
    MF.FatedNext(cfg, m, a);
  }

  lemma MonitorInit(cfg: M.Config, m: M.State)
    requires M.Init(cfg, m)
    ensures MS.Inv(cfg, m) && MF.Fated(m)
  {
    MS.InitInv(cfg, m);
  }

  /** The monitor action that is part of a step of the engine. */
  function MonitorPart(s: State, a: Action): Option<M.Action> {
    if a.MonitorStep? then Some(a.watch)
    else if a.MonitorSent? && s.sentLoad != [] then Some(M.Submit(s.sentLoad[0]))
    else if HandsOver(s, a) then Some(M.Submit(s.sender.calls[a.send.c].l2Tx))
    else None
  }

  function SenderPart(s: State, a: Action): Option<S.Action> {
    match a
    case SenderStep(b) => Some(b)
    case SendArrived(k) => if k < |s.arriving| then Some(S.Enter(s.arriving[k])) else None
    case SendPending => if s.pendingLoad.queue != [] then Some(S.Enter(s.pendingLoad.queue[0])) else None
    case SendResend => if s.resendLoad.queue != [] then Some(S.Enter(s.resendLoad.queue[0])) else None
    case _ => None
  }

  /** A step of the engine is a step of each of its parts, or leaves the part alone. */
  lemma Projects(cfg: Config, s: State, a: Action)
    requires Wf(s) && Enabled(cfg, s, a) && !a.Restart?
    ensures
      match MonitorPart(s, a)
      case Some(b) =>
        M.Enabled(cfg.monitor, s.monitor, b) && Apply(cfg, s, a).monitor == M.Apply(cfg.monitor, s.monitor, b)
      case None => Apply(cfg, s, a).monitor == s.monitor
    ensures
      match SenderPart(s, a)
      case Some(b) =>
        S.Enabled(cfg.sender, s.sender, b) && Apply(cfg, s, a).sender == S.Apply(cfg.sender, s.sender, b)
      case None => Apply(cfg, s, a).sender == s.sender
  {
  }

  lemma PartsNext(cfg: Config, s: State, a: Action)
    requires Inv(cfg, s) && Enabled(cfg, s, a)
    ensures S.Inv(cfg.sender, Apply(cfg, s, a).sender)
    ensures MS.Inv(cfg.monitor, Apply(cfg, s, a).monitor) && MF.Fated(Apply(cfg, s, a).monitor)
  {
    if a.Restart? {
      S.InitInv(cfg.sender, a.sender);
      MonitorInit(cfg.monitor, a.monitor);
    } else {
      Projects(cfg, s, a);
      if MonitorPart(s, a).Some? {
        PartIsDisciplined(cfg, s, a);
        MonitorNext(cfg.monitor, s.monitor, MonitorPart(s, a).value);
      }
      if SenderPart(s, a).Some? {
        SS.InvNext(cfg.sender, s.sender, SenderPart(s, a).value);
      }
    }
  }

  lemma PartIsDisciplined(cfg: Config, s: State, a: Action)
    requires Wf(s) && Unique(s) && Enabled(cfg, s, a) && MonitorPart(s, a).Some?
    ensures MS.Disciplined(s.monitor, MonitorPart(s, a).value)
  {
    if a.MonitorSent? {
      HandedIsUntracked(s, SentQ(0), s.sentLoad[0]);
    } else if HandsOver(s, a) {
      HandedIsUntracked(s, Calling(a.send.c), s.sender.calls[a.send.c].l2Tx);
    }
  }

  // ---------------------------------------------------------------- owners fit their rows

  /** The row a step writes, if it writes one. */
  function WrittenId(s: State, a: Action): Option<nat>
    requires Wf(s)
  {
    match a
    case Insert(l2Tx, ok) => if ok then Some(l2Tx.id) else None
    case RequestResend(id) => Some(id)
    case SenderStep(b) => if Writes(s, b) && b.ok then Some(s.sender.calls[b.c].l2Tx.id) else None
    case MonitorStep(b) => (match MF.Wrote(s.monitor, b) case Some(w) => Some(w.id) case None => None)
    case _ => None
  }

  lemma OtherRowsStay(cfg: Config, s: State, a: Action, id: nat)
    requires Wf(s) && Enabled(cfg, s, a) && WrittenId(s, a) != Some(id)
    ensures id in Apply(cfg, s, a).table <==> id in s.table
    ensures id in s.table ==> Apply(cfg, s, a).table[id] == s.table[id]
  {
  }

  lemma InsertFits(cfg: Config, s: State, a: Action, o: Owner, id: nat)
    requires Inv(cfg, s) && Enabled(cfg, s, a) && a.Insert? && Owns(Apply(cfg, s, a), o, id)
    ensures FitsRow(Apply(cfg, s, a), o, id)
  {
    OwnerOrigin(cfg, s, a, o, id);
    if Pre(s, a, o).Some? {
      assert FitsRow(s, o, id);
    }
  }

  /** Calls, loads and hand-overs: the row is the same, and the new owner expects what the old one did. */
  lemma EntryFits(cfg: Config, s: State, a: Action, o: Owner, id: nat)
    requires Inv(cfg, s) && Enabled(cfg, s, a) && Owns(Apply(cfg, s, a), o, id)
    requires a.SendArrived? || a.SendPending? || a.SendResend?
    ensures FitsRow(Apply(cfg, s, a), o, id)
  {
    OwnerOfEntry(cfg, s, a, o, id);
    assert FitsRow(s, Pre(s, a, o).value, id);
    EnteredFits(cfg, s, a, o, id);
  }

  lemma EnteredFits(cfg: Config, s: State, a: Action, o: Owner, id: nat)
    requires Wf(s) && Enabled(cfg, s, a) && Owns(Apply(cfg, s, a), o, id)
    requires a.SendArrived? || a.SendPending? || a.SendResend?
    requires Pre(s, a, o).Some? && Owns(s, Pre(s, a, o).value, id) && FitsRow(s, Pre(s, a, o).value, id)
    ensures FitsRow(Apply(cfg, s, a), o, id)
  {
    SenderKeepsCalls(cfg.sender, s.sender, SenderPart(s, a).value, if o.Calling? then o.c else 0);
  }

  lemma LoadFits(cfg: Config, s: State, a: Action, o: Owner, id: nat)
    requires Inv(cfg, s) && Enabled(cfg, s, a) && Owns(Apply(cfg, s, a), o, id)
    requires a.LoadResend? || a.PendingDone? || a.ResendDone?
    ensures FitsRow(Apply(cfg, s, a), o, id)
  {
    OwnerOrigin(cfg, s, a, o, id);
    if Pre(s, a, o).Some? {
      assert FitsRow(s, o, id);
    }
  }

  lemma RequestFits(cfg: Config, s: State, a: Action, o: Owner, id: nat)
    requires Inv(cfg, s) && Enabled(cfg, s, a) && Disciplined(s, a) && a.RequestResend?
    requires Owns(Apply(cfg, s, a), o, id)
    ensures FitsRow(Apply(cfg, s, a), o, id)
  {
    OwnerOrigin(cfg, s, a, o, id);
    assert FitsRow(s, o, id);
    assert id != a.id;
  }

  lemma RestartFits(cfg: Config, s: State, a: Action, o: Owner, id: nat)
    requires Wf(s) && Enabled(cfg, s, a) && a.Restart? && Owns(Apply(cfg, s, a), o, id)
    ensures FitsRow(Apply(cfg, s, a), o, id)
  {
    OwnerOrigin(cfg, s, a, o, id);
  }

  /** A request that is handed to the monitor is watched, and its row says sent. */
  lemma HandedFits(cfg: Config, s: State, a: Action, o: Owner, id: nat)
    requires Inv(cfg, s) && Enabled(cfg, s, a) && Owns(Apply(cfg, s, a), o, id)
    requires a.MonitorSent? || HandsOver(s, a)
    ensures FitsRow(Apply(cfg, s, a), o, id)
  {
    OwnerOrigin(cfg, s, a, o, id);
    assert FitsRow(s, Pre(s, a, o).value, id);
    if a.MonitorSent? {
      LoadedFits(cfg, s, o, id);
    } else {
      HandedOverFits(cfg, s, a, o, id);
    }
  }

  lemma LoadedFits(cfg: Config, s: State, o: Owner, id: nat)
    requires Wf(s) && Enabled(cfg, s, MonitorSent) && Owns(Apply(cfg, s, MonitorSent), o, id)
    requires Pre(s, MonitorSent, o).Some? && Owns(s, Pre(s, MonitorSent, o).value, id)
    requires FitsRow(s, Pre(s, MonitorSent, o).value, id)
    ensures FitsRow(Apply(cfg, s, MonitorSent), o, id)
  {
    if o.Watching? {
      HandedFate(cfg.monitor, s.monitor, M.Submit(s.sentLoad[0]), o.r);
    }
  }

  lemma HandedOverFits(cfg: Config, s: State, a: Action, o: Owner, id: nat)
    requires Wf(s) && Enabled(cfg, s, a) && HandsOver(s, a) && Owns(Apply(cfg, s, a), o, id)
    requires Pre(s, a, o).Some? && Owns(s, Pre(s, a, o).value, id) && FitsRow(s, Pre(s, a, o).value, id)
    ensures FitsRow(Apply(cfg, s, a), o, id)
  {
    if o.Watching? {
      HandedFate(cfg.monitor, s.monitor, M.Submit(s.sender.calls[a.send.c].l2Tx), o.r);
    } else if o.Calling? {
      SenderKeepsCalls(cfg.sender, s.sender, a.send, o.c);
    }
  }

  lemma HandedFate(cfg: M.Config, m: M.State, a: M.Action, r: M.Ref)
    requires M.Wf(m) && M.Enabled(cfg, m, a) && a.Submit? && r < |M.Apply(cfg, m, a).heap|
    ensures M.Apply(cfg, m, a).heap[r].fate == if r < |m.heap| then m.heap[r].fate else M.Watched
  {
  }

  /** A caller's status write concerns its own row, and no one else's. */
  lemma CallerFits(cfg: Config, s: State, a: Action, o: Owner, id: nat)
    requires Inv(cfg, s) && Enabled(cfg, s, a) && Disciplined(s, a) && a.SenderStep? && !HandsOver(s, a)
    requires Owns(Apply(cfg, s, a), o, id)
    ensures FitsRow(Apply(cfg, s, a), o, id)
  {
    OwnerOrigin(cfg, s, a, o, id);
    if Writes(s, a.send) && s.sender.calls[a.send.c].l2Tx.id == id {
      WriterFits(cfg, s, a, o, id);
    } else {
      assert FitsRow(s, o, id);
      SenderKeepsCalls(cfg.sender, s.sender, a.send, if o.Calling? then o.c else 0);
      OtherRowsStay(cfg, s, a, id);
      CallerAdvances(cfg, s, a);
    }
  }

  lemma WriterFits(cfg: Config, s: State, a: Action, o: Owner, id: nat)
    requires Inv(cfg, s) && Enabled(cfg, s, a) && Disciplined(s, a) && a.SenderStep? && Writes(s, a.send)
    requires s.sender.calls[a.send.c].l2Tx.id == id && Owns(s, o, id) && Owns(Apply(cfg, s, a), o, id)
    ensures FitsRow(Apply(cfg, s, a), o, id)
  {
    assert Owns(s, Calling(a.send.c), id);
    assert o == Calling(a.send.c);
    assert FitsRow(s, o, id);
    CallerWritesWhat(cfg, s, a);
  }

  lemma CallerWritesWhat(cfg: Config, s: State, a: Action)
    requires S.Inv(cfg.sender, s.sender) && M.Wf(s.monitor) && Enabled(cfg, s, a)
    requires a.SenderStep? && Writes(s, a.send)
    ensures
      var c, s' := a.send.c, Apply(cfg, s, a);
      var id := s.sender.calls[c].l2Tx.id;
      && (s.sender.calls[c].pc.WritingInvalid? ==>
            s'.sender.calls[c].pc.Returned? && (a.send.ok && id in s.table ==> s'.table[id].status == Invalid))
      && (s.sender.calls[c].pc.WritingSent? ==>
            s'.sender.calls[c].pc.HandingOver? && (a.send.ok && id in s.table ==> s'.table[id].status == Sent))
      && (id in s'.table <==> id in s.table)
      && (!a.send.ok ==> s'.table == s.table)
  {
    assert S.CallSound(s.sender.calls[a.send.c]);
  }

  /** A caller starts to hand over only through its write. */
  lemma CallerAdvances(cfg: Config, s: State, a: Action)
    requires Wf(s) && Enabled(cfg, s, a) && a.SenderStep? && !HandsOver(s, a)
    ensures
      forall c: S.CallId :: c < |s.sender.calls| && Apply(cfg, s, a).sender.calls[c].pc.HandingOver?
        ==> s.sender.calls[c].pc.HandingOver? || (Writes(s, a.send) && a.send.c == c)
    ensures
      forall c: S.CallId :: c < |s.sender.calls| && s.sender.calls[c].pc.HandingOver?
        ==> Apply(cfg, s, a).sender.calls[c].pc.HandingOver?
  {
  }

  /** A status write of the monitor concerns a row that only the written request owns. */
  lemma WatcherFits(cfg: Config, s: State, a: Action, o: Owner, id: nat)
    requires Inv(cfg, s) && Enabled(cfg, s, a) && a.MonitorStep? && Owns(Apply(cfg, s, a), o, id)
    ensures FitsRow(Apply(cfg, s, a), o, id)
  {
    OwnerOrigin(cfg, s, a, o, id);
    assert FitsRow(s, o, id);
    if o.Watching? {
      MF.FateSteps(cfg.monitor, s.monitor, a.watch, o.r);
    }
    WatcherWrites(cfg, s, a, o, id);
  }

  lemma WatcherWrites(cfg: Config, s: State, a: Action, o: Owner, id: nat)
    requires Inv(cfg, s) && Enabled(cfg, s, a) && a.MonitorStep? && Owns(s, o, id)
    ensures
      var t', m := Apply(cfg, s, a).table, s.monitor;
      && (id in t' <==> id in s.table)
      && (id in s.table ==>
            t'[id].status == if o.Watching? && MF.FateAfter(m, a.watch, o.r) != m.heap[o.r].fate
                                && MF.FateAfter(m, a.watch, o.r).Settled?
                             then MF.FateAfter(m, a.watch, o.r).status else s.table[id].status)
  {
    if WrittenId(s, a) == Some(id) {
      var r := WrittenRef(s.monitor, a.watch);
      assert MF.FateAfter(s.monitor, a.watch, r).Settled?;
      WatchedBefore(cfg, s, a.watch, r);
      assert Owns(s, Watching(r), id);
      assert o == Watching(r);
    } else {
      OtherRowsStay(cfg, s, a, id);
      if o.Watching? {
        WatcherElsewhere(cfg, s, a, o, id);
      }
    }
  }

  function WrittenRef(m: M.State, a: M.Action): M.Ref
    requires M.Wf(m) && MF.Wrote(m, a).Some?
  {
    if a.Record? then m.threads[a.i].ref else m.disp.ref
  }

  lemma WatchedBefore(cfg: Config, s: State, a: M.Action, r: M.Ref)
    requires MS.Inv(cfg.monitor, s.monitor) && MF.Fated(s.monitor) && M.Enabled(cfg.monitor, s.monitor, a)
    requires MF.Wrote(s.monitor, a).Some? && r == WrittenRef(s.monitor, a)
    ensures MS.Tracked(s.monitor, r) && s.monitor.heap[r].fate == M.Watched
    ensures MF.FateAfter(s.monitor, a, r) == M.Settled(MF.Wrote(s.monitor, a).value.status)
  {
    if a.Record? {
      assert MF.ThreadFits(s.monitor.heap, s.monitor.threads[a.i]);
      MS.HeldIsElsewhereAbsent(s.monitor, a.i);
    } else {
      MF.ExpiringIsListed(cfg.monitor, s.monitor);
    }
  }

  lemma WatcherElsewhere(cfg: Config, s: State, a: Action, o: Owner, id: nat)
    requires Inv(cfg, s) && Enabled(cfg, s, a) && a.MonitorStep? && Owns(s, o, id) && WrittenId(s, a) != Some(id)
    requires o.Watching?
    ensures MF.FateAfter(s.monitor, a.watch, o.r) == s.monitor.heap[o.r].fate
         || !MF.FateAfter(s.monitor, a.watch, o.r).Settled?
  {
  }

  lemma FitsNext(cfg: Config, s: State, a: Action, o: Owner, id: nat)
    requires Inv(cfg, s) && Enabled(cfg, s, a) && Disciplined(s, a) && Owns(Apply(cfg, s, a), o, id)
    ensures FitsRow(Apply(cfg, s, a), o, id)
  {
    match a
    case Insert(_, _) => InsertFits(cfg, s, a, o, id);
    case SendArrived(_) => EntryFits(cfg, s, a, o, id);
    case SendPending => EntryFits(cfg, s, a, o, id);
    case SendResend => EntryFits(cfg, s, a, o, id);
    case PendingDone => LoadFits(cfg, s, a, o, id);
    case ResendDone => LoadFits(cfg, s, a, o, id);
    case LoadResend(_) => LoadFits(cfg, s, a, o, id);
    case MonitorSent => HandedFits(cfg, s, a, o, id);
    case SenderStep(_) =>
      if HandsOver(s, a) {
        HandedFits(cfg, s, a, o, id);
      } else {
        CallerFits(cfg, s, a, o, id);
      }
    case MonitorStep(_) => WatcherFits(cfg, s, a, o, id);
    case RequestResend(_) => RequestFits(cfg, s, a, o, id);
    case Restart(_, _, _, _) => RestartFits(cfg, s, a, o, id);
  }

  // ---------------------------------------------------------------- rows that need the engine have an owner

  /** Where an owner's responsibility goes in a step that does not end it. */
  function Post(s: State, a: Action, o: Owner): Owner {
    match a
    case SendArrived(k) =>
      if o == Arriving(k) then Calling(|s.sender.calls|)
      else if o.Arriving? && o.k > k then Arriving(o.k - 1) else o
    case SendPending =>
      if o == PendingQ(0) then Calling(|s.sender.calls|) else if o.PendingQ? then PendingQ(o.k - 1) else o
    case SendResend =>
      if o == ResendQ(0) then Calling(|s.sender.calls|) else if o.ResendQ? then ResendQ(o.k - 1) else o
    case MonitorSent =>
      if o == SentQ(0) then Watching(|s.monitor.heap|) else if o.SentQ? then SentQ(o.k - 1) else o
    case SenderStep(b) => if HandsOver(s, a) && o == Calling(b.c) then Watching(|s.monitor.heap|) else o
    case _ => o
  }

  predicate Open(status: Status) {
    status.Pending? || status.Sent?
  }

  /** The owner of a row that still needs the engine after the step passes it on, or the row was abandoned. */
  lemma PassedOn(cfg: Config, s: State, a: Action, o: Owner, id: nat)
    requires Inv(cfg, s) && Enabled(cfg, s, a) && Disciplined(s, a) && !a.Restart?
    requires Owns(s, o, id) && id in s.table && id in Apply(cfg, s, a).table
    requires Open(Apply(cfg, s, a).table[id].status) && id !in Apply(cfg, s, a).abandoned
    ensures Owns(Apply(cfg, s, a), Post(s, a, o), id)
  {
    match a
    case SenderStep(_) => SenderPassesOn(cfg, s, a, o, id);
    case MonitorStep(_) => MonitorPassesOn(cfg, s, a, o, id);
    case MonitorSent => HandedPassesOn(cfg, s, a, o, id);
    case SendArrived(_) => EntryPassesOn(cfg, s, a, o, id);
    case SendPending => EntryPassesOn(cfg, s, a, o, id);
    case SendResend => EntryPassesOn(cfg, s, a, o, id);
    case _ =>
  }

  lemma EntryPassesOn(cfg: Config, s: State, a: Action, o: Owner, id: nat)
    requires Wf(s) && Enabled(cfg, s, a) && Owns(s, o, id) && (a.SendArrived? || a.SendPending? || a.SendResend?)
    ensures Owns(Apply(cfg, s, a), Post(s, a, o), id)
  {
    SenderKeepsCalls(cfg.sender, s.sender, SenderPart(s, a).value, if o.Calling? then o.c else 0);
  }

  lemma SenderPassesOn(cfg: Config, s: State, a: Action, o: Owner, id: nat)
    requires Inv(cfg, s) && Enabled(cfg, s, a) && Disciplined(s, a) && a.SenderStep?
    requires Owns(s, o, id) && id in s.table && id in Apply(cfg, s, a).table
    requires Open(Apply(cfg, s, a).table[id].status)
    ensures Owns(Apply(cfg, s, a), Post(s, a, o), id)
  {
    SenderKeepsCalls(cfg.sender, s.sender, a.send, if o.Calling? then o.c else 0);
    if HandsOver(s, a) {
      HandedPassesOn(cfg, s, a, o, id);
    } else if Writes(s, a.send) && o == Calling(a.send.c) {
      CallerWritesWhat(cfg, s, a);
    } else if o.Calling? {
      CallerReturns(cfg, s, a, o.c);
    }
  }

  /** A call ends only by its write of the invalid status, or by handing over. */
  lemma CallerReturns(cfg: Config, s: State, a: Action, c: S.CallId)
    requires Wf(s) && Enabled(cfg, s, a) && a.SenderStep? && !HandsOver(s, a) && c < |s.sender.calls|
    requires !(Writes(s, a.send) && a.send.c == c) && !s.sender.calls[c].pc.Returned?
    ensures |Apply(cfg, s, a).sender.calls| == |s.sender.calls| && !Apply(cfg, s, a).sender.calls[c].pc.Returned?
  {
  }

  lemma HandedPassesOn(cfg: Config, s: State, a: Action, o: Owner, id: nat)
    requires Inv(cfg, s) && Enabled(cfg, s, a) && (a.MonitorSent? || HandsOver(s, a)) && Owns(s, o, id)
    ensures Owns(Apply(cfg, s, a), Post(s, a, o), id)
  {
    Projects(cfg, s, a);
    SubmitTracks(cfg.monitor, s.monitor, MonitorPart(s, a).value);
    if HandsOver(s, a) && o.Calling? {
      SenderKeepsCalls(cfg.sender, s.sender, a.send, o.c);
    }
  }

  lemma SubmitTracks(cfg: M.Config, m: M.State, a: M.Action)
    requires MS.Inv(cfg, m) && M.Enabled(cfg, m, a) && a.Submit?
    ensures
      var m' := M.Apply(cfg, m, a);
      && MS.Tracked(m', |m.heap|) && m'.heap[|m.heap|].l2Tx == a.l2Tx
      && forall r: M.Ref :: MS.Tracked(m, r) ==> MS.Tracked(m', r) && m'.heap[r].l2Tx == m.heap[r].l2Tx
  {
    assert M.Places(m)[|m.heap|] == 0;
    NotCountedNotIn(m.finished, |m.heap|);
  }

  lemma MonitorPassesOn(cfg: Config, s: State, a: Action, o: Owner, id: nat)
    requires Inv(cfg, s) && Enabled(cfg, s, a) && a.MonitorStep?
    requires Owns(s, o, id) && id in s.table && id in Apply(cfg, s, a).table
    requires Open(Apply(cfg, s, a).table[id].status) && id !in Apply(cfg, s, a).abandoned
    ensures Owns(Apply(cfg, s, a), o, id)
  {
    if o.Watching? {
      assert FitsRow(s, o, id);
      WatcherWrites(cfg, s, a, o, id);
      MS.HeapGrows(cfg.monitor, s.monitor, a.watch);
      MS.HeapKeepsTx(cfg.monitor, s.monitor, a.watch, o.r);
      if o.r in Apply(cfg, s, a).monitor.finished {
        MF.FinishedIsFated(cfg.monitor, s.monitor, a.watch, o.r);
        MF.FinishedOrigin(cfg.monitor, s.monitor, a.watch, o.r);
      }
    }
  }

  lemma CoveredNext(cfg: Config, s: State, a: Action, id: nat)
    requires Inv(cfg, s) && Enabled(cfg, s, a) && Disciplined(s, a)
    requires id in Apply(cfg, s, a).table && Open(Apply(cfg, s, a).table[id].status)
    requires id !in Apply(cfg, s, a).abandoned
    ensures exists o: Owner :: Owns(Apply(cfg, s, a), o, id)
  {
    if a.Restart? {
      RestartCovers(cfg, s, a, id);
    } else if a.Insert? && a.ok && id == a.l2Tx.id {
      assert Owns(Apply(cfg, s, a), Arriving(|s.arriving|), id);
    } else {
      var o := OwnerBefore(cfg, s, a, id);
      PassedOn(cfg, s, a, o, id);
    }
  }

  lemma RestartCovers(cfg: Config, s: State, a: Action, id: nat)
    requires Wf(s) && Enabled(cfg, s, a) && a.Restart?
    requires id in Apply(cfg, s, a).table && Open(Apply(cfg, s, a).table[id].status)
    requires id !in Apply(cfg, s, a).abandoned
    ensures exists o: Owner :: Owns(Apply(cfg, s, a), o, id)
  {
    if s.table[id].status == Pending {
      var k: nat :| k < |a.pending| && a.pending[k].id == id;
      assert Owns(Apply(cfg, s, a), PendingQ(k), id);
    } else {
      var k: nat :| k < |a.sent| && a.sent[k].id == id;
      assert Owns(Apply(cfg, s, a), SentQ(k), id);
    }
  }

  /** A row that needs the engine after a step had an owner before it. */
  lemma OwnerBefore(cfg: Config, s: State, a: Action, id: nat) returns (o: Owner)
    requires Inv(cfg, s) && Enabled(cfg, s, a) && Disciplined(s, a) && !a.Restart?
    requires id in Apply(cfg, s, a).table && Open(Apply(cfg, s, a).table[id].status)
    requires id !in Apply(cfg, s, a).abandoned && !(a.Insert? && a.ok && id == a.l2Tx.id)
    ensures id in s.table && Owns(s, o, id)
  {
    if WrittenId(s, a) == Some(id) {
      o := WriterOwns(cfg, s, a, id);
    } else {
      OtherRowsStay(cfg, s, a, id);
      o :| Owns(s, o, id);
    }
  }

  lemma WriterOwns(cfg: Config, s: State, a: Action, id: nat) returns (o: Owner)
    requires Inv(cfg, s) && Enabled(cfg, s, a) && Disciplined(s, a) && !a.Restart? && !a.Insert?
    requires id in Apply(cfg, s, a).table && WrittenId(s, a) == Some(id) && !a.RequestResend?
    ensures id in s.table && Owns(s, o, id)
  {
    if a.SenderStep? {
      o := Calling(a.send.c);
      CallerWritesWhat(cfg, s, a);
    } else {
      o := Watching(WrittenRef(s.monitor, a.watch));
      WatchedBefore(cfg, s, a.watch, WrittenRef(s.monitor, a.watch));
      WatcherWrites(cfg, s, a, o, id);
    }
  }

  lemma RowsNext(cfg: Config, s: State, a: Action)
    requires Wf(s) && RowsKeyed(s.table) && Enabled(cfg, s, a)
    ensures RowsKeyed(Apply(cfg, s, a).table)
    ensures forall id :: id in s.table ==> id in Apply(cfg, s, a).table
  {
  }

  /** Every step of the engine, crashes and restarts included, keeps ownership and statuses in agreement. */
  lemma InvNext(cfg: Config, s: State, a: Action)
    requires Inv(cfg, s) && Enabled(cfg, s, a) && Disciplined(s, a)
    ensures Inv(cfg, Apply(cfg, s, a))
  {
    PartsNext(cfg, s, a);
    RowsNext(cfg, s, a);
    UniqueNext(cfg, s, a);
    forall o: Owner, id: nat | Owns(Apply(cfg, s, a), o, id)
      ensures FitsRow(Apply(cfg, s, a), o, id)
    {
      FitsNext(cfg, s, a, o, id);
    }
    forall id: nat | id in Apply(cfg, s, a).table && Open(Apply(cfg, s, a).table[id].status)
                     && id !in Apply(cfg, s, a).abandoned
      ensures exists o: Owner :: Owns(Apply(cfg, s, a), o, id)
    {
      CoveredNext(cfg, s, a, id);
    }
  }
}
