/**
 The whole engine: endpoint goroutines, the sender, the monitor, their startup loads, the resend loop, an
 operator who requests resends, crashes with restarts, and the durable table they all share.
 */
module System {
  import opened Wrappers
  import opened Types
  import opened Sequences
  import opened Pool
  import M = MonitorMachine
  import MS = MonitorSafety
  import MF = MonitorFates
  import S = SenderMachine

  datatype Config = Config(monitor: M.Config, sender: S.Config)

  /** A goroutine that sends loaded rows one after the other, and the call it is waiting for. */
  datatype Loader = Loader(queue: seq<L2Transaction>, waiting: Option<S.CallId>)

  datatype State = State(table: Table, sender: S.State, monitor: M.State,
                         arriving: seq<L2Transaction>,   // endpoints between the insert and SendL2Transaction
                         pendingLoad: Loader,            // the sender's startup load
                         resendLoad: Loader,             // the resend loop
                         sentLoad: seq<L2Transaction>,   // the monitor's startup load
                         abandoned: set<nat>)            // history: rows a load missed or whose expiry write failed

  datatype Action =
    | Insert(l2Tx: L2Transaction, ok: bool)       // SendRawTransaction inserts the row, or fails to and keeps id 0
    | SendArrived(k: nat)                         // it calls SendL2Transaction
    | SendPending                                 // the startup load calls SendL2Transaction for its next row
    | PendingDone                                 // that call returned
    | LoadResend(rows: seq<L2Transaction>)        // the resend loop queries the table
    | SendResend                                  // it calls SendL2Transaction for its next row
    | ResendDone                                  // that call returned
    | MonitorSent                                 // the monitor's startup load calls AddL2Transaction
    | SenderStep(send: S.Action)                  // any other step of the sender
    | MonitorStep(watch: M.Action)                // any other step of the monitor
    | RequestResend(id: nat)                      // the operator sets a row to resend
    | Restart(pending: seq<L2Transaction>, sent: seq<L2Transaction>, sender: S.State, monitor: M.State)

  ghost predicate Init(cfg: Config, s: State) {
    && s.table == map[] && S.Init(cfg.sender, s.sender) && M.Init(cfg.monitor, s.monitor)
    && s.arriving == [] && s.pendingLoad == Loader([], None) && s.resendLoad == Loader([], None)
    && s.sentLoad == [] && s.abandoned == {}
  }

  predicate CallReturned(s: S.State, c: S.CallId) {
    c < |s.calls| && s.calls[c].pc.Returned?
  }

  ghost predicate Wf(s: State) {
    S.Wf(s.sender) && M.Wf(s.monitor)
  }

  ghost predicate Enabled(cfg: Config, s: State, a: Action) {
    match a
    case Insert(l2Tx, ok) => if ok then l2Tx.id > 0 && l2Tx.id !in s.table else l2Tx.id == 0
    case SendArrived(k) => k < |s.arriving|
    case SendPending => s.pendingLoad.queue != [] && s.pendingLoad.waiting == None
    case PendingDone => s.pendingLoad.waiting.Some? && CallReturned(s.sender, s.pendingLoad.waiting.value)
    case LoadResend(rows) =>
      s.resendLoad.queue == [] && s.resendLoad.waiting == None && QueryResult(s.table, Resend, rows)
    case SendResend => s.resendLoad.queue != [] && s.resendLoad.waiting == None
    case ResendDone => s.resendLoad.waiting.Some? && CallReturned(s.sender, s.resendLoad.waiting.value)
    case MonitorSent => s.sentLoad != [] && !s.monitor.panicked
    case SenderStep(b) => !b.Enter? && S.Enabled(cfg.sender, s.sender, b) && !s.monitor.panicked
    case MonitorStep(b) => !b.Submit? && M.Enabled(cfg.monitor, s.monitor, b)
    case RequestResend(id) => id in s.table
    case Restart(pending, sent, sender, monitor) =>
      && QueryResult(s.table, Pending, pending) && QueryResult(s.table, Sent, sent)
      && S.Init(cfg.sender, sender) && M.Init(cfg.monitor, monitor) && monitor.clock >= s.monitor.clock
  }

  function Enter(cfg: Config, s: State, l2Tx: L2Transaction): S.State
    requires S.Wf(s.sender)
  {
    S.Apply(cfg.sender, s.sender, S.Enter(l2Tx))
  }

  /** What a caller's statement does to the table. */
  function CallerWrites(table: Table, call: S.Call, ok: bool): Table {
    if ok && call.pc.WritingInvalid? && call.err.Some? then SetStatus(table, call.l2Tx.id, Invalid, call.err.value)
    else if ok && call.pc.WritingSent? then SetStatus(table, call.l2Tx.id, Sent, "")
    else table
  }

  function MonitorWrites(table: Table, m: M.State, a: M.Action): Table
    requires M.Wf(m)
  {
    match MF.Wrote(m, a)
    case Some(w) => SetStatus(table, w.id, w.status, "")
    case None => table
  }

  /** The rows of a status that a load did not bring. */
  function Missed(table: Table, status: Status, rows: seq<L2Transaction>): set<nat> {
    set id | id in table && table[id].status == status && forall k :: 0 <= k < |rows| ==> rows[k].id != id
  }

  function StepSender(cfg: Config, s: State, a: S.Action): State
    requires Wf(s) && S.Enabled(cfg.sender, s.sender, a) && !s.monitor.panicked
  {
    var next := s.(sender := S.Apply(cfg.sender, s.sender, a));
    if !a.Resume? then next
    else
      var call := s.sender.calls[a.c];
      if call.pc.HandingOver? then next.(monitor := M.Apply(cfg.monitor, s.monitor, M.Submit(call.l2Tx)))
      else next.(table := CallerWrites(s.table, call, a.ok))
  }

  function StepMonitor(cfg: Config, s: State, a: M.Action): State
    requires Wf(s) && M.Enabled(cfg.monitor, s.monitor, a)
  {
    s.(monitor := M.Apply(cfg.monitor, s.monitor, a),
       table := MonitorWrites(s.table, s.monitor, a),
       abandoned := s.abandoned + if a.Dispatch? && !a.ok && s.monitor.disp.Expiring?
                                  then {s.monitor.heap[s.monitor.disp.ref].l2Tx.id} else {})
  }

  function Apply(cfg: Config, s: State, a: Action): State
    requires Wf(s) && Enabled(cfg, s, a)
  {
    match a
    case Insert(l2Tx, ok) =>
      s.(table := if ok then s.table[l2Tx.id := Row(l2Tx, Pending, "")] else s.table, arriving := s.arriving + [l2Tx])
    case SendArrived(k) => s.(sender := Enter(cfg, s, s.arriving[k]), arriving := RemoveAt(s.arriving, k))
    case SendPending =>
      s.(sender := Enter(cfg, s, s.pendingLoad.queue[0]),
         pendingLoad := Loader(s.pendingLoad.queue[1..], Some(|s.sender.calls|)))
    case PendingDone => s.(pendingLoad := s.pendingLoad.(waiting := None))
    case LoadResend(rows) => s.(resendLoad := Loader(rows, None))
    case SendResend =>
      s.(sender := Enter(cfg, s, s.resendLoad.queue[0]),
         resendLoad := Loader(s.resendLoad.queue[1..], Some(|s.sender.calls|)))
    case ResendDone => s.(resendLoad := s.resendLoad.(waiting := None))
    case MonitorSent =>
      s.(monitor := M.Apply(cfg.monitor, s.monitor, M.Submit(s.sentLoad[0])), sentLoad := s.sentLoad[1..])
    case SenderStep(b) => StepSender(cfg, s, b)
    case MonitorStep(b) => StepMonitor(cfg, s, b)
    case RequestResend(id) =>
      s.(table := SetStatus(s.table, id, Resend, s.table[id].error), abandoned := s.abandoned - {id})
    case Restart(pending, sent, sender, monitor) =>
      State(s.table, sender, monitor, [], Loader(pending, None), Loader([], None), sent,
            Missed(s.table, Pending, pending) + Missed(s.table, Sent, sent))
  }

  // ---------------------------------------------------------------- ownership

  /** Everything that can be responsible for a row: a goroutine holding it, a call, a tracked request. */
  datatype Owner =
    | Arriving(k: nat) | PendingQ(k: nat) | ResendQ(k: nat) | SentQ(k: nat)
    | Calling(c: S.CallId) | Watching(r: M.Ref)

  predicate At(txs: seq<L2Transaction>, k: nat, id: nat) {
    k < |txs| && txs[k].id == id
  }

  predicate Owns(s: State, o: Owner, id: nat) {
    match o
    case Arriving(k) => At(s.arriving, k, id)
    case PendingQ(k) => At(s.pendingLoad.queue, k, id)
    case ResendQ(k) => At(s.resendLoad.queue, k, id)
    case SentQ(k) => At(s.sentLoad, k, id)
    case Calling(c) => c < |s.sender.calls| && !s.sender.calls[c].pc.Returned? && s.sender.calls[c].l2Tx.id == id
    case Watching(r) => MS.Tracked(s.monitor, r) && s.monitor.heap[r].l2Tx.id == id
  }

  /** No id has two owners. */
  ghost predicate Unique(s: State) {
    forall o: Owner, o': Owner, id: nat :: Owns(s, o, id) && Owns(s, o', id) ==> o == o'
  }

  ghost predicate Unowned(s: State, id: nat) {
    forall o: Owner :: !Owns(s, o, id)
  }

  /** The status an owner's row has while it is owned. */
  predicate Fits(s: State, o: Owner, id: nat, status: Status)
    requires Owns(s, o, id)
  {
    match o
    case Arriving(_) => status == Pending
    case PendingQ(_) => status == Pending
    case ResendQ(_) => status == Resend
    case SentQ(_) => status == Sent
    case Calling(c) =>
      if s.sender.calls[c].pc.HandingOver? then status == Sent
      else status == Pending || (status == Resend && s.resendLoad.waiting == Some(c))
    case Watching(r) =>
      (match s.monitor.heap[r].fate
       case Watched => status == Sent
       case Settled(written) => status == written && MF.Final(written)
       case Forsaken => status == Sent && id in s.abandoned)
  }

  /** Only the id 0 of a failed insert has an owner without having a row. */
  predicate FitsRow(s: State, o: Owner, id: nat)
    requires Owns(s, o, id)
  {
    if id in s.table then Fits(s, o, id, s.table[id].status) else id == 0
  }

  ghost predicate Fitting(s: State) {
    forall o: Owner, id: nat :: Owns(s, o, id) ==> FitsRow(s, o, id)
  }

  /** A row that still needs the engine has an owner, unless it was abandoned. */
  ghost predicate Covered(s: State) {
    forall id: nat :: id in s.table && s.table[id].status in {Pending, Sent} && id !in s.abandoned ==>
                        exists o: Owner :: Owns(s, o, id)
  }

  ghost predicate Inv(cfg: Config, s: State) {
    && S.Inv(cfg.sender, s.sender) && MS.Inv(cfg.monitor, s.monitor) && MF.Fated(s.monitor)
    && RowsKeyed(s.table) && Unique(s) && Fitting(s) && Covered(s)
  }

  /** A caller's statement that updates the row. */
  predicate Writes(s: State, a: S.Action) {
    && a.Resume? && a.c < |s.sender.calls|
    && (s.sender.calls[a.c].pc.WritingInvalid? || s.sender.calls[a.c].pc.WritingSent?)
  }

  /** A failed status write that does no harm: no row to write, or an invalid row that stays due for resending. */
  predicate Harmless(s: State, call: S.Call) {
    call.l2Tx.id in s.table ==> call.pc.WritingInvalid? && s.table[call.l2Tx.id].status == Resend
  }

  /**
   What the engine relies on and does not enforce: a failed insert (id 0) is not repeated while it is in
   progress, the sender's status writes succeed or do no harm, and the operator leaves owned rows alone.
   */
  ghost predicate Disciplined(s: State, a: Action) {
    && (a.Insert? && !a.ok ==> Unowned(s, 0))
    && (a.SenderStep? && Writes(s, a.send) && !a.send.ok ==> Harmless(s, s.sender.calls[a.send.c]))
    && (a.RequestResend? ==> Unowned(s, a.id))
  }
}
