/**
 The monitor as a step machine: one dispatcher, the workers, any number of goroutines inside
 AddL2Transaction, a bounded channel with any number of goroutines blocked on it, and a clock.

 A request is an object: the list, the channel and the threads hold references into `heap`, and a retry
 writes `nextRetry` in place. Each call on the mutex-protected list is one step, and so is every other
 statement that touches shared state.
 */
module MonitorMachine {
  import opened Wrappers
  import opened Types
  import opened RetryOrder
  import opened Sequences

  datatype Config = Config(initialWait: int, retryWait: int, lifeTimeMax: int, workers: nat, queueSize: nat)

  type Ref = nat

  /** History of a request: what the monitor has written to its row. */
  datatype Fate = Watched | Settled(status: Status) | Forsaken

  datatype Outcome = NoReceipt | Receipt(status: nat)

  /**
   `addedAt`, `stampedAt`, `listedAt`, `polls`, `answer` (the node's last) and `fate` are history; the code
   keeps the first two fields.
   */
  datatype Request = Request(l2Tx: L2Transaction, nextRetry: int, addedAt: int, stampedAt: int, listedAt: int,
                             polls: nat, answer: Outcome, fate: Fate)
  {
    function ToEntry(): Entry {
      Entry(l2Tx.id, l2Tx.hash, nextRetry)
    }

    function Milli(): int {
      UnixMilli(nextRetry)
    }
  }

  /** The zero value of time.Time, before any stamp. */
  const ZERO_TIME := -62_135_596_800_000_000_000

  /** What a worker, or a goroutine inside AddL2Transaction, does next. */
  datatype Thread =
    | Idle                                // worker: receive from the channel
    | Fresh(ref: Ref)                     // adder: object created
    | Polling(ref: Ref)                   // worker: ask for the receipt
    | Writing(ref: Ref, status: Status)   // worker: write the final status
    | Deleting(ref: Ref)                  // worker: list.delete
    | Retrying(ref: Ref)                  // worker: stamp the next retry
    | Listing(ref: Ref)                   // list.add
    | Counting                            // list.len() == 1 ?
    | Signalling                          // cond.Signal
    | Gone                                // an adder that returned, or a worker that never started
  {
    predicate Holds() {
      !(Idle? || Counting? || Signalling? || Gone?)
    }
  }

  /** What the dispatcher does next. */
  datatype Dispatcher =
    | Top                                            // list.len() > 0 ?
    | NonEmpty                                       // read the clock
    | Clocked(now: int)                              // list.getByIndex(0)
    | Judging(now: int, ref: Ref)                    // expired, due, or too early ?
    | Expiring(ref: Ref)                             // write the expired status
    | Discarding(ref: Ref)                           // list.delete, then loop
    | Dropping(ref: Ref)                             // list.delete, then enqueue
    | Requeueing(ref: Ref)                           // start the goroutine that sends to the channel
    | Sleeping(ref: Ref, now: int, until: int)       // time.Sleep
    | Vacant                                         // cond.Wait
    | Parked                                         // inside cond.Wait
  {
    predicate Refers() {
      !(Top? || NonEmpty? || Clocked? || Vacant? || Parked?)
    }
  }

  datatype State = State(heap: seq<Request>, list: map<nat, Ref>, sorted: seq<Ref>, blocked: seq<Ref>,
                         queue: seq<Ref>, threads: seq<Thread>, disp: Dispatcher, finished: seq<Ref>,
                         clock: int, panicked: bool)

  datatype Action =
    | Tick(nanos: nat)
    | Submit(l2Tx: L2Transaction)         // a caller enters AddL2Transaction
    | Send(k: nat)                        // a blocked goroutine fills a free slot of the channel buffer
    | Receive(i: nat)                     // worker i takes the head of the buffer
    | HandOff(k: nat, i: nat)             // a blocked goroutine meets waiting worker i, the buffer being empty
    | Poll(i: nat, outcome: Outcome)      // worker i gets the answer of the node
    | Record(i: nat, ok: bool)            // worker i gets the answer of the database
    | Advance(i: nat)                     // any other statement of thread i
    | Dispatch(ok: bool)                  // one statement of the dispatcher; `ok` answers its status write

  // ---------------------------------------------------------------- the shared list

  predicate Wf(s: State) {
    && (forall i :: 0 <= i < |s.sorted| ==> s.sorted[i] < |s.heap|)
    && (forall id :: id in s.list ==> s.list[id] < |s.heap|)
    && (forall i :: 0 <= i < |s.blocked| ==> s.blocked[i] < |s.heap|)
    && (forall i :: 0 <= i < |s.queue| ==> s.queue[i] < |s.heap|)
    && (forall i :: 0 <= i < |s.threads| && s.threads[i].Holds() ==> s.threads[i].ref < |s.heap|)
    && (s.disp.Refers() ==> s.disp.ref < |s.heap|)
  }

  predicate Covered(s: State)
    requires Wf(s)
  {
    forall i :: 0 <= i < |s.sorted| ==> s.heap[s.sorted[i]].l2Tx.id in s.list
  }

  function Keys(s: State): (keys: seq<int>)
    requires Wf(s) && Covered(s)
    ensures |keys| == |s.sorted|
  {
    seq(|s.sorted|, i requires 0 <= i < |s.sorted| => s.heap[s.list[s.heap[s.sorted[i]].l2Tx.id]].Milli())
  }

  function Entries(s: State): (es: seq<Entry>)
    requires Wf(s)
    ensures |es| == |s.sorted|
    ensures forall i :: 0 <= i < |es| ==> es[i] == s.heap[s.sorted[i]].ToEntry()
  {
    seq(|s.sorted|, i requires 0 <= i < |s.sorted| => s.heap[s.sorted[i]].ToEntry())
  }

  /** `add`: a present id is refused; a comparator that meets an unmapped entry panics. */
  function ListAdd(s: State, r: Ref): State
    requires Wf(s) && r < |s.heap|
  {
    var q := s.heap[r];
    if q.l2Tx.id in s.list then s
    else if !Covered(s) then s.(panicked := true)
    else s.(list := s.list[q.l2Tx.id := r],
            sorted := InsertAt(s.sorted, UpperBound(Keys(s), q.Milli()), r),
            heap := s.heap[r := q.(listedAt := s.clock)])
  }

  /** The index `delete` would remove. */
  function ListHit(s: State, r: Ref): (hit: Option<nat>)
    requires Wf(s) && Covered(s) && r < |s.heap|
    ensures hit.Some? ==> hit.value < |s.sorted|
  {
    var id := s.heap[r].l2Tx.id;
    if id in s.list then Locate(Keys(s), Entries(s), s.heap[s.list[id]].ToEntry()) else None
  }

  function ListDelete(s: State, r: Ref): State
    requires Wf(s) && r < |s.heap|
  {
    if s.heap[r].l2Tx.id !in s.list then s
    else if !Covered(s) then s.(panicked := true)
    else
      match ListHit(s, r)
      case None => s
      case Some(j) => s.(list := s.list - {s.heap[r].l2Tx.id}, sorted := RemoveAt(s.sorted, j))
  }

  // ---------------------------------------------------------------- the steps

  ghost predicate Init(cfg: Config, s: State) {
    && s.heap == [] && s.list == map[] && s.sorted == [] && s.blocked == [] && s.queue == [] && s.finished == []
    && |s.threads| == cfg.workers
    && (forall i :: 0 <= i < |s.threads| ==> s.threads[i] in {Idle, Gone})
    && s.disp == Top && !s.panicked
  }

  predicate Enabled(cfg: Config, s: State, a: Action) {
    && !s.panicked
    && match a
       case Tick(_) => true
       case Submit(_) => true
       case Send(k) => k < |s.blocked| && |s.queue| < cfg.queueSize
       case Receive(i) => i < |s.threads| && s.threads[i].Idle? && s.queue != []
       case HandOff(k, i) => i < |s.threads| && s.threads[i].Idle? && k < |s.blocked| && s.queue == []
       case Poll(i, _) => i < |s.threads| && s.threads[i].Polling?
       case Record(i, _) => i < |s.threads| && s.threads[i].Writing?
       case Advance(i) =>
         && i < |s.threads|
         && var t := s.threads[i];
            t.Fresh? || t.Deleting? || t.Retrying? || t.Listing? || t.Counting? || t.Signalling?
       case Dispatch(_) => (s.disp.Sleeping? ==> s.disp.until <= s.clock) && !s.disp.Parked?
  }

  function Resting(cfg: Config, i: nat): Thread {
    if i < cfg.workers then Idle else Gone
  }

  function Apply(cfg: Config, s: State, a: Action): State
    requires Wf(s) && Enabled(cfg, s, a)
  {
    match a
    case Tick(nanos) => s.(clock := s.clock + nanos)
    case Submit(l2Tx) =>
      s.(heap := s.heap + [Request(l2Tx, ZERO_TIME, s.clock, s.clock, s.clock, 0, NoReceipt, Watched)],
         threads := s.threads + [Fresh(|s.heap|)])
    case Send(k) => s.(queue := s.queue + [s.blocked[k]], blocked := RemoveAt(s.blocked, k))
    case Receive(i) => s.(threads := s.threads[i := Polling(s.queue[0])], queue := s.queue[1..])
    case HandOff(k, i) => s.(threads := s.threads[i := Polling(s.blocked[k])], blocked := RemoveAt(s.blocked, k))
    case Poll(i, outcome) =>
      var r := s.threads[i].ref;
      var polled := s.(heap := s.heap[r := s.heap[r].(polls := s.heap[r].polls + 1, answer := outcome)]);
      (match outcome
       case NoReceipt => polled.(threads := s.threads[i := Retrying(r)])
       case Receipt(status) =>
         polled.(threads := s.threads[i := Writing(r, if status == 0 then Failed else Confirmed)]))
    case Record(i, ok) =>
      var r := s.threads[i].ref;
      if ok then
        s.(heap := s.heap[r := s.heap[r].(fate := Settled(s.threads[i].status))],
           threads := s.threads[i := Deleting(r)])
      else s.(threads := s.threads[i := Retrying(r)])
    case Advance(i) => AdvanceThread(cfg, s, i)
    case Dispatch(ok) => AdvanceDispatcher(cfg, s, ok)
  }

  function Stamp(s: State, r: Ref, wait: int): State
    requires r < |s.heap|
  {
    s.(heap := s.heap[r := s.heap[r].(nextRetry := s.clock + wait, stampedAt := s.clock)])
  }

  function AdvanceThread(cfg: Config, s: State, i: nat): State
    requires Wf(s) && Enabled(cfg, s, Advance(i))
  {
    match s.threads[i]
    case Fresh(r) =>
      if cfg.initialWait > 0 then Stamp(s, r, cfg.initialWait).(threads := s.threads[i := Listing(r)])
      else s.(blocked := s.blocked + [r], threads := s.threads[i := Resting(cfg, i)])
    case Deleting(r) =>
      ListDelete(s, r).(threads := s.threads[i := Resting(cfg, i)], finished := s.finished + [r])
    case Retrying(r) => Stamp(s, r, cfg.retryWait).(threads := s.threads[i := Listing(r)])
    case Listing(r) => ListAdd(s, r).(threads := s.threads[i := Counting])
    case Counting => s.(threads := s.threads[i := if |s.sorted| == 1 then Signalling else Resting(cfg, i)])
    case Signalling =>
      s.(threads := s.threads[i := Resting(cfg, i)], disp := if s.disp.Parked? then Top else s.disp)
  }

  function AdvanceDispatcher(cfg: Config, s: State, ok: bool): State
    requires Wf(s) && Enabled(cfg, s, Dispatch(ok))
  {
    match s.disp
    case Top => s.(disp := if |s.sorted| > 0 then NonEmpty else Vacant)
    case NonEmpty => s.(disp := Clocked(s.clock))
    case Clocked(now) => if s.sorted == [] then s.(panicked := true) else s.(disp := Judging(now, s.sorted[0]))
    case Judging(now, r) =>
      var q := s.heap[r];
      if IsExpired(q.l2Tx, cfg.lifeTimeMax, now) then s.(disp := Expiring(r))
      else if q.nextRetry < now then s.(disp := Dropping(r))
      else s.(disp := Sleeping(r, now, s.clock + (q.nextRetry - now)))
    case Expiring(r) =>
      s.(heap := s.heap[r := s.heap[r].(fate := if ok then Settled(Expired) else Forsaken)], disp := Discarding(r))
    case Discarding(r) => ListDelete(s, r).(disp := Top, finished := s.finished + [r])
    case Dropping(r) => ListDelete(s, r).(disp := Requeueing(r))
    case Requeueing(r) => s.(blocked := s.blocked + [r], disp := Top)
    case Sleeping(_, _, _) => s.(disp := Top)
    case Vacant => s.(disp := Parked)
  }

  // ---------------------------------------------------------------- conservation

  function HeldBy(t: Thread): multiset<Ref> {
    if t.Holds() then multiset{t.ref} else multiset{}
  }

  function Held(ts: seq<Thread>): multiset<Ref> {
    Gather(ts, HeldBy)
  }

  function HeldByDispatcher(d: Dispatcher): multiset<Ref> {
    if d.Requeueing? then multiset{d.ref} else multiset{}
  }

  /** Every place a request can be: thread, list, dispatcher, blocked sender, channel buffer, or finished. */
  function Places(s: State): multiset<Ref> {
    Held(s.threads) + multiset(s.sorted) + HeldByDispatcher(s.disp) + multiset(s.blocked) + multiset(s.queue)
    + multiset(s.finished)
  }

  /** Each request created is in exactly one place, exactly once. */
  ghost predicate Conserved(s: State) {
    forall r: Ref :: Places(s)[r] == if r < |s.heap| then 1 else 0
  }

  lemma HeldUpdate(ts: seq<Thread>, i: nat, t: Thread)
    requires i < |ts|
    ensures HeldBy(ts[i]) <= Held(ts)
    ensures Held(ts[i := t]) == Held(ts) - HeldBy(ts[i]) + HeldBy(t)
  {
    GatherUpdate(ts, HeldBy, i, t);
  }
}
