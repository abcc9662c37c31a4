/**
 The sender as a step machine: any number of callers inside SendL2Transaction, each blocked on its own
 WaitGroup, a bounded channel with any number of goroutines blocked on it, and the workers.
 */
module SenderMachine {
  import opened Wrappers
  import opened Types
  import opened Sequences

  datatype Config = Config(workers: nat, queueSize: nat)

  /** Each call of SendL2Transaction makes one request, and both carry the same number here. */
  type CallId = nat

  /** One eth_sendRawTransaction: the payload that was sent, and the error that came back. */
  datatype Rpc = Rpc(payload: string, error: Option<string>)

  datatype CallPc =
    | Enqueuing           // start the goroutine that sends to the channel
    | Waiting             // wg.Wait
    | WritingInvalid      // write the invalid status
    | WritingSent         // write the sent status
    | HandingOver         // monitor.AddL2Transaction
    | Returned

  /** `rpcs`, `completions`, `writes`, `handed` and `reply` are history; the rest is the request and its caller. */
  datatype Call = Call(l2Tx: L2Transaction, err: Option<string>, pending: int, pc: CallPc, rpcs: seq<Rpc>,
                       completions: nat, writes: seq<Status>, handed: nat, reply: Option<Option<string>>)

  datatype Worker =
    | Idle                                                // receive from the channel
    | Sending(call: CallId)                               // the remote call
    | Storing(call: CallId, error: Option<string>)        // request.err = err
    | Completing(call: CallId)                            // wg.Done
    | Dead                                                // its client could not be created
  {
    predicate Holds() {
      Sending? || Storing? || Completing?
    }
  }

  datatype State = State(calls: seq<Call>, blocked: seq<CallId>, queue: seq<CallId>, workers: seq<Worker>)

  datatype Action =
    | Enter(l2Tx: L2Transaction)                    // a caller enters SendL2Transaction
    | Send(k: nat)                                  // a blocked goroutine fills a free slot of the buffer
    | Receive(i: nat)                               // worker i takes the head of the buffer
    | HandOff(k: nat, i: nat)                       // a blocked goroutine meets waiting worker i
    | Answer(i: nat, error: Option<string>)         // the sequencer answers worker i
    | Work(i: nat)                                  // the next statement of worker i
    | Resume(c: CallId, ok: bool)                   // the next statement of a caller; `ok` answers its write

  ghost predicate Init(cfg: Config, s: State) {
    && s.calls == [] && s.blocked == [] && s.queue == [] && |s.workers| == cfg.workers
    && forall i :: 0 <= i < |s.workers| ==> s.workers[i] in {Idle, Dead}
  }

  predicate Wf(s: State) {
    && (forall k :: 0 <= k < |s.blocked| ==> s.blocked[k] < |s.calls|)
    && (forall k :: 0 <= k < |s.queue| ==> s.queue[k] < |s.calls|)
    && (forall i :: 0 <= i < |s.workers| && s.workers[i].Holds() ==> s.workers[i].call < |s.calls|)
  }

  predicate Enabled(cfg: Config, s: State, a: Action) {
    match a
    case Enter(_) => true
    case Send(k) => k < |s.blocked| && |s.queue| < cfg.queueSize
    case Receive(i) => i < |s.workers| && s.workers[i].Idle? && s.queue != []
    case HandOff(k, i) => i < |s.workers| && s.workers[i].Idle? && k < |s.blocked| && s.queue == []
    case Answer(i, _) => i < |s.workers| && s.workers[i].Sending?
    case Work(i) => i < |s.workers| && (s.workers[i].Storing? || s.workers[i].Completing?)
    case Resume(c, _) =>
      c < |s.calls| && !s.calls[c].pc.Returned? && (s.calls[c].pc.Waiting? ==> s.calls[c].pending == 0)
  }

  function SetCall(s: State, c: CallId, call: Call): State
    requires c < |s.calls|
  {
    s.(calls := s.calls[c := call])
  }

  function Apply(cfg: Config, s: State, a: Action): State
    requires Wf(s) && Enabled(cfg, s, a)
  {
    match a
    case Enter(l2Tx) => s.(calls := s.calls + [Call(l2Tx, None, 1, Enqueuing, [], 0, [], 0, None)])
    case Send(k) => s.(queue := s.queue + [s.blocked[k]], blocked := RemoveAt(s.blocked, k))
    case Receive(i) => s.(workers := s.workers[i := Sending(s.queue[0])], queue := s.queue[1..])
    case HandOff(k, i) => s.(workers := s.workers[i := Sending(s.blocked[k])], blocked := RemoveAt(s.blocked, k))
    case Answer(i, error) =>
      var c := s.workers[i].call;
      var call := s.calls[c];
      SetCall(s, c, call.(rpcs := call.rpcs + [Rpc(call.l2Tx.encoded, error)]))
      .(workers := s.workers[i := Storing(c, error)])
    case Work(i) =>
      var c := s.workers[i].call;
      var call := s.calls[c];
      if s.workers[i].Storing? then
        SetCall(s, c, call.(err := s.workers[i].error)).(workers := s.workers[i := Completing(c)])
      else
        SetCall(s, c, call.(pending := call.pending - 1, completions := call.completions + 1))
        .(workers := s.workers[i := Idle])
    case Resume(c, _) => ResumeCall(s, c)
  }

  function ResumeCall(s: State, c: CallId): State
    requires c < |s.calls| && !s.calls[c].pc.Returned?
  {
    var call := s.calls[c];
    match call.pc
    case Enqueuing => SetCall(s, c, call.(pc := Waiting)).(blocked := s.blocked + [c])
    case Waiting => SetCall(s, c, call.(pc := if call.err.Some? then WritingInvalid else WritingSent))
    case WritingInvalid =>
      SetCall(s, c, call.(pc := Returned, writes := call.writes + [Invalid], reply := Some(call.err)))
    case WritingSent => SetCall(s, c, call.(pc := HandingOver, writes := call.writes + [Sent]))
    case HandingOver => SetCall(s, c, call.(pc := Returned, handed := call.handed + 1, reply := Some(call.err)))
  }

  // ---------------------------------------------------------------- invariant

  function HeldBy(w: Worker): multiset<CallId> {
    if w.Holds() then multiset{w.call} else multiset{}
  }

  /** Requests on their way: blocked on the channel, in its buffer, or with a worker. */
  function InFlight(s: State): multiset<CallId> {
    Gather(s.workers, HeldBy) + multiset(s.blocked) + multiset(s.queue)
  }

  predicate Outstanding(s: State, c: CallId) {
    c < |s.calls| && s.calls[c].pc.Waiting? && s.calls[c].pending == 1
  }

  /** Exactly the requests whose callers still wait are on their way, each once. */
  ghost predicate Matched(s: State) {
    forall c: CallId :: InFlight(s)[c] == if Outstanding(s, c) then 1 else 0
  }

  /** One remote call was made, with the call's own payload, and its result is what the request carries. */
  predicate Answered(call: Call) {
    call.pending == 0 && call.completions == 1 && call.rpcs == [Rpc(call.l2Tx.encoded, call.err)]
  }

  predicate Unanswered(call: Call) {
    call.pending == 1 && call.completions == 0
  }

  /** Nothing was written, handed over or returned yet. */
  predicate Silent(call: Call) {
    call.writes == [] && call.handed == 0 && call.reply == None
  }

  predicate CallSound(call: Call) {
    match call.pc
    case Enqueuing => Unanswered(call) && call.rpcs == [] && Silent(call)
    case Waiting => (Unanswered(call) || Answered(call)) && Silent(call)
    case WritingInvalid => Answered(call) && call.err.Some? && Silent(call)
    case WritingSent => Answered(call) && call.err == None && Silent(call)
    case HandingOver =>
      Answered(call) && call.err == None && call.writes == [Sent] && call.handed == 0 && call.reply == None
    case Returned =>
      && Answered(call) && call.reply == Some(call.err)
      && (call.err.Some? ==> call.writes == [Invalid] && call.handed == 0)
      && (call.err == None ==> call.writes == [Sent] && call.handed == 1)
  }

  predicate WorkerSound(calls: seq<Call>, w: Worker)
    requires w.Holds() ==> w.call < |calls|
  {
    match w
    case Sending(c) => calls[c].rpcs == []
    case Storing(c, error) => calls[c].rpcs == [Rpc(calls[c].l2Tx.encoded, error)]
    case Completing(c) => calls[c].rpcs == [Rpc(calls[c].l2Tx.encoded, calls[c].err)]
    case _ => true
  }

  ghost predicate Inv(cfg: Config, s: State) {
    && Wf(s) && |s.queue| <= cfg.queueSize && |s.workers| == cfg.workers
    && Matched(s)
    && (forall c :: 0 <= c < |s.calls| ==> CallSound(s.calls[c]))
    && (forall i :: 0 <= i < |s.workers| ==> WorkerSound(s.calls, s.workers[i]))
    && (forall c: CallId :: c < |s.calls| && (c in s.blocked || c in s.queue) ==> s.calls[c].rpcs == [])
  }

  lemma InitInv(cfg: Config, s: State)
    requires Init(cfg, s)
    ensures Inv(cfg, s)
  {
    GatherNothing(s.workers, HeldBy);
  }

  /** A request with a worker is nowhere else, and its caller is waiting for it. */
  lemma HeldOnce(cfg: Config, s: State, i: nat)
    requires Inv(cfg, s) && i < |s.workers| && s.workers[i].Holds()
    ensures
      var c := s.workers[i].call;
      && Outstanding(s, c) && c !in s.blocked && c !in s.queue
      && forall j :: 0 <= j < |s.workers| && j != i && s.workers[j].Holds() ==> s.workers[j].call != c
  {
    var c := s.workers[i].call;
    GatherUpdate(s.workers, HeldBy, i, Idle);
    assert InFlight(s)[c] == 1;
    NotCountedNotIn(s.blocked, c);
    NotCountedNotIn(s.queue, c);
    assert Gather(s.workers[i := Idle], HeldBy)[c] == 0;
    forall j | 0 <= j < |s.workers| && j != i && s.workers[j].Holds()
      ensures s.workers[j].call != c
    {
      GatherUpdate(s.workers[i := Idle], HeldBy, j, Idle);
    }
  }
}
