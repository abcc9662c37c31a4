/**
 The dispatcher of the step machine, run by itself at one clock reading: the steps between two tests of the
 list make one round, and a burst of rounds drains the list as MonitorLoop's method does, whatever the
 database answers to the status writes in between.
 */
module MonitorDrain {
  import opened Wrappers
  import opened Types
  import opened Sequences
  import opened MonitorMachine
  import opened MonitorSafety
  import opened Paths

  /** One statement of the dispatcher; `ok` answers its status write. */
  predicate Dispatches(cfg: Config, s: State, ok: bool, t: State) {
    Wf(s) && Enabled(cfg, s, Dispatch(ok)) && t == Apply(cfg, s, Dispatch(ok))
  }

  function ByDispatcher(cfg: Config): (State, bool) -> Option<State> {
    (s: State, ok: bool) => if Wf(s) && Enabled(cfg, s, Dispatch(ok)) then Some(Apply(cfg, s, Dispatch(ok))) else None
  }

  /** `t` follows from `s` by dispatcher steps alone; `oks` are the answers to their status writes. */
  ghost predicate DispatchedTo(cfg: Config, s: State, oks: seq<bool>, t: State) {
    Path(ByDispatcher(cfg), s, oks, t)
  }

  lemma {:induction false} DispatchedKeepsInv(cfg: Config, s: State, oks: seq<bool>, t: State)
    requires Inv(cfg, s) && DispatchedTo(cfg, s, oks, t)
    ensures Inv(cfg, t)
    decreases |oks|
  {
    if oks != [] {
      InvNext(cfg, s, Dispatch(oks[0]));
      DispatchedKeepsInv(cfg, Apply(cfg, s, Dispatch(oks[0])), oks[1..], t);
    }
  }

  // ---------------------------------------------------------------- one round

  predicate LetsGo(cfg: Config, q: Request, now: int) {
    q.l2Tx.receivedAt + cfg.lifeTimeMax < now || q.nextRetry < now
  }

  /** The fate an expiry write leaves behind. */
  function ExpiryFate(ok: bool): Fate {
    if ok then Settled(Expired) else Forsaken
  }

  /** The state a whole round leads to: the head is removed, and written and finished, or sent to the workers. */
  function AfterRound(cfg: Config, s: State, ok: bool): State
    requires Wf(s) && s.sorted != []
  {
    var r := s.sorted[0];
    var t := s.(list := s.list - {s.heap[r].l2Tx.id}, sorted := s.sorted[1..]);
    if IsExpired(s.heap[r].l2Tx, cfg.lifeTimeMax, s.clock) then
      t.(heap := s.heap[r := s.heap[r].(fate := ExpiryFate(ok))], finished := s.finished + [r])
    else t.(blocked := s.blocked + [r])
  }

  /** The length check, the clock reading, and getByIndex(0). */
  lemma Looks(cfg: Config, s: State, ok: bool)
    requires Wf(s) && !s.panicked && s.sorted != []
    ensures s.disp == Top ==> Dispatches(cfg, s, ok, s.(disp := NonEmpty))
    ensures s.disp == NonEmpty ==> Dispatches(cfg, s, ok, s.(disp := Clocked(s.clock)))
    ensures s.disp == Clocked(s.clock) ==> Dispatches(cfg, s, ok, s.(disp := Judging(s.clock, s.sorted[0])))
  {
  }

  lemma ReadsHead(cfg: Config, s: State, oks: seq<bool>)
    requires |oks| == 3 && Wf(s) && !s.panicked && s.disp == Top && s.sorted != []
    ensures DispatchedTo(cfg, s, oks, s.(disp := Judging(s.clock, s.sorted[0])))
  {
    var s1, s2 := s.(disp := NonEmpty), s.(disp := Clocked(s.clock));
    Looks(cfg, s, oks[0]);
    Looks(cfg, s1, oks[1]);
    Looks(cfg, s2, oks[2]);
    Three(ByDispatcher(cfg), s, oks, s1, s2, s.(disp := Judging(s.clock, s.sorted[0])));
  }

  lemma HeadIsDeleted(s: State)
    requires Wf(s) && Mapped(s) && Ordered(s) && s.disp.Refers() && s.sorted != [] && s.disp.ref == s.sorted[0]
    ensures ListDelete(s, s.sorted[0])
         == s.(list := s.list - {s.heap[s.sorted[0]].l2Tx.id}, sorted := s.sorted[1..])
  {
    assert FirstOfMilliAt(s, s.sorted[0], 0);
    DispatcherDeleteHits(s, 0);
    assert RemoveAt(s.sorted, 0) == s.sorted[1..];
  }

  lemma Judges(cfg: Config, s: State, ok: bool)
    requires Wf(s) && !s.panicked && s.disp.Judging? && LetsGo(cfg, s.heap[s.disp.ref], s.disp.now)
    ensures
      var r := s.disp.ref;
      Dispatches(cfg, s, ok, s.(disp := if IsExpired(s.heap[r].l2Tx, cfg.lifeTimeMax, s.disp.now) then Expiring(r)
                                        else Dropping(r)))
  {
  }

  lemma Expires(cfg: Config, s: State, ok: bool)
    requires Wf(s) && !s.panicked && s.disp.Expiring?
    ensures
      var r := s.disp.ref;
      Dispatches(cfg, s, ok, s.(heap := s.heap[r := s.heap[r].(fate := ExpiryFate(ok))], disp := Discarding(r)))
  {
  }

  lemma Deletes(cfg: Config, s: State, ok: bool)
    requires Wf(s) && !s.panicked && (s.disp.Dropping? || s.disp.Discarding?)
    ensures
      var r := s.disp.ref;
      Apply(cfg, s, Dispatch(ok))
      == if s.disp.Dropping? then ListDelete(s, r).(disp := Requeueing(r))
         else ListDelete(s, r).(disp := Top, finished := s.finished + [r])
  {
  }

  /** A fate changes nothing that the list, or a later round, looks at. */
  predicate SameKeys(heap: seq<Request>, heap': seq<Request>) {
    && |heap'| == |heap|
    && forall r: Ref :: r < |heap| ==> heap'[r].l2Tx == heap[r].l2Tx && heap'[r].nextRetry == heap[r].nextRetry
  }

  /** Neither what the dispatcher does next nor a fate matters to the list. */
  lemma KeepsOrder(s: State, t: State)
    requires Wf(s) && Wf(t) && Mapped(s) && Ordered(s)
    requires t.sorted == s.sorted && t.list == s.list && SameKeys(s.heap, t.heap)
    ensures Mapped(t) && Ordered(t)
  {
    forall id | id in t.list
      ensures t.heap[t.list[id]].l2Tx.id == id && t.list[id] in t.sorted
    {
      assert s.heap[s.list[id]].l2Tx.id == id;
    }
  }

  /** Deleting the head, and what the dispatcher does next. */
  lemma DeletesHead(cfg: Config, s: State, ok: bool)
    requires Wf(s) && Mapped(s) && Ordered(s) && !s.panicked && (s.disp.Dropping? || s.disp.Discarding?)
    requires s.sorted != [] && s.disp.ref == s.sorted[0]
    ensures
      var r := s.sorted[0];
      var t := s.(list := s.list - {s.heap[r].l2Tx.id}, sorted := s.sorted[1..]);
      Apply(cfg, s, Dispatch(ok))
      == if s.disp.Dropping? then t.(disp := Requeueing(r)) else t.(disp := Top, finished := s.finished + [r])
  {
    HeadIsDeleted(s);
    Deletes(cfg, s, ok);
  }

  lemma Requeues(cfg: Config, s: State, ok: bool)
    requires Wf(s) && !s.panicked && s.disp.Requeueing?
    ensures Apply(cfg, s, Dispatch(ok)) == s.(blocked := s.blocked + [s.disp.ref], disp := Top)
  {
  }

  function DroppingHead(s: State): State
    requires s.sorted != []
  {
    s.(disp := Dropping(s.sorted[0]))
  }

  function DroppedHead(s: State): State
    requires Wf(s) && s.sorted != []
  {
    var r := s.sorted[0];
    s.(disp := Requeueing(r), list := s.list - {s.heap[r].l2Tx.id}, sorted := s.sorted[1..])
  }

  lemma DropsHead(cfg: Config, s: State, ok: bool)
    requires Wf(s) && Mapped(s) && Ordered(s) && !s.panicked && s.sorted != []
    ensures Dispatches(cfg, DroppingHead(s), ok, DroppedHead(s))
  {
    KeepsOrder(s, DroppingHead(s));
    DeletesHead(cfg, DroppingHead(s), ok);
  }

  lemma RequeuesHead(cfg: Config, s: State, ok: bool, any: bool)
    requires Wf(s) && !s.panicked && s.disp == Top && s.sorted != []
    requires !IsExpired(s.heap[s.sorted[0]].l2Tx, cfg.lifeTimeMax, s.clock)
    ensures Dispatches(cfg, DroppedHead(s), ok, AfterRound(cfg, s, any))
  {
    Requeues(cfg, DroppedHead(s), ok);
  }

  lemma DropsDueHead(cfg: Config, s: State, oks: seq<bool>)
    requires |oks| == 3 && Wf(s) && Mapped(s) && Ordered(s) && !s.panicked && s.disp == Top && s.sorted != []
    requires !IsExpired(s.heap[s.sorted[0]].l2Tx, cfg.lifeTimeMax, s.clock)
    requires s.heap[s.sorted[0]].nextRetry < s.clock
    ensures DispatchedTo(cfg, s.(disp := Judging(s.clock, s.sorted[0])), oks, AfterRound(cfg, s, oks[1]))
  {
    var s1 := s.(disp := Judging(s.clock, s.sorted[0]));
    Judges(cfg, s1, oks[0]);
    DropsHead(cfg, s, oks[1]);
    RequeuesHead(cfg, s, oks[2], oks[1]);
    Three(ByDispatcher(cfg), s1, oks, DroppingHead(s), DroppedHead(s), AfterRound(cfg, s, oks[1]));
  }

  function DiscardingHead(s: State, ok: bool): State
    requires Wf(s) && s.sorted != []
  {
    var r := s.sorted[0];
    s.(disp := Discarding(r), heap := s.heap[r := s.heap[r].(fate := ExpiryFate(ok))])
  }

  lemma DiscardsHead(cfg: Config, s: State, ok: bool, any: bool)
    requires Wf(s) && Mapped(s) && Ordered(s) && !s.panicked && s.disp == Top && s.sorted != []
    requires IsExpired(s.heap[s.sorted[0]].l2Tx, cfg.lifeTimeMax, s.clock)
    ensures Dispatches(cfg, DiscardingHead(s, ok), any, AfterRound(cfg, s, ok))
  {
    KeepsOrder(s, DiscardingHead(s, ok));
    DeletesHead(cfg, DiscardingHead(s, ok), any);
  }

  lemma DiscardsExpiredHead(cfg: Config, s: State, oks: seq<bool>)
    requires |oks| == 3 && Wf(s) && Mapped(s) && Ordered(s) && !s.panicked && s.disp == Top && s.sorted != []
    requires IsExpired(s.heap[s.sorted[0]].l2Tx, cfg.lifeTimeMax, s.clock)
    ensures DispatchedTo(cfg, s.(disp := Judging(s.clock, s.sorted[0])), oks, AfterRound(cfg, s, oks[1]))
  {
    var r := s.sorted[0];
    var s1, s2 := s.(disp := Judging(s.clock, r)), s.(disp := Expiring(r));
    Judges(cfg, s1, oks[0]);
    Expires(cfg, s2, oks[1]);
    DiscardsHead(cfg, s, oks[1], oks[2]);
    Three(ByDispatcher(cfg), s1, oks, s2, DiscardingHead(s, oks[1]), AfterRound(cfg, s, oks[1]));
  }

  /** Any six steps of the dispatcher, with nothing in between, make one round; the fifth answer is the write's. */
  lemma SixStepsAreARound(cfg: Config, s: State, oks: seq<bool>, t: State)
    requires Inv(cfg, s) && s.disp == Top && s.sorted != [] && LetsGo(cfg, s.heap[s.sorted[0]], s.clock)
    requires |oks| == 6
    ensures DispatchedTo(cfg, s, oks, t) <==> t == AfterRound(cfg, s, oks[4])
  {
    RoundIsDispatched(cfg, s, oks);
    if DispatchedTo(cfg, s, oks, t) {
      Unique(ByDispatcher(cfg), s, oks, t, AfterRound(cfg, s, oks[4]));
    }
  }

  lemma RoundIsDispatched(cfg: Config, s: State, oks: seq<bool>)
    requires Inv(cfg, s) && s.disp == Top && s.sorted != [] && LetsGo(cfg, s.heap[s.sorted[0]], s.clock)
    requires |oks| == 6
    ensures DispatchedTo(cfg, s, oks, AfterRound(cfg, s, oks[4]))
  {
    ReadsHead(cfg, s, oks[..3]);
    if IsExpired(s.heap[s.sorted[0]].l2Tx, cfg.lifeTimeMax, s.clock) {
      DiscardsExpiredHead(cfg, s, oks[3..]);
    } else {
      DropsDueHead(cfg, s, oks[3..]);
    }
    Further(ByDispatcher(cfg), s, oks[..3], s.(disp := Judging(s.clock, s.sorted[0])), oks[3..],
            AfterRound(cfg, s, oks[4]));
    assert oks[..3] + oks[3..] == oks;
  }

  // ---------------------------------------------------------------- the burst

  /** The answers to the six steps of one round; only the one to an expiry write is looked at. */
  datatype Round = Round(check: bool, clock: bool, head: bool, judge: bool, write: bool, last: bool) {
    function Answers(): (oks: seq<bool>)
      ensures |oks| == 6 && oks[4] == write
    {
      [check, clock, head, judge, write, last]
    }
  }

  /** The answers of a burst, step by step. */
  function Flat(rounds: seq<Round>): seq<bool> {
    if rounds == [] then [] else rounds[0].Answers() + Flat(rounds[1..])
  }

  /** Every sequence of six answers for each of `n` rounds is one. */
  lemma {:induction false} InRounds(oks: seq<bool>, n: nat) returns (rounds: seq<Round>)
    requires |oks| == 6 * n
    ensures |rounds| == n && Flat(rounds) == oks
    decreases n
  {
    if n == 0 {
      rounds := [];
    } else {
      var first := Round(oks[0], oks[1], oks[2], oks[3], oks[4], oks[5]);
      var rest := InRounds(oks[6..], n - 1);
      rounds := [first] + rest;
      assert rounds[1..] == rest && first.Answers() + oks[6..] == oks;
    }
  }

  predicate RefsIn(heap: seq<Request>, refs: seq<Ref>) {
    forall i :: 0 <= i < |refs| ==> refs[i] < |heap|
  }

  /** Those of the requests that are expired, or those that are not, in their order. */
  function Chosen(cfg: Config, heap: seq<Request>, refs: seq<Ref>, now: int, expired: bool): seq<Ref>
    requires RefsIn(heap, refs)
  {
    if refs == [] then []
    else
      (if IsExpired(heap[refs[0]].l2Tx, cfg.lifeTimeMax, now) == expired then [refs[0]] else [])
      + Chosen(cfg, heap, refs[1..], now, expired)
  }

  lemma {:induction false} ChosenMembers(cfg: Config, heap: seq<Request>, refs: seq<Ref>, now: int, expired: bool)
    requires RefsIn(heap, refs)
    ensures forall i :: 0 <= i < |refs| && (heap[refs[i]].l2Tx.receivedAt + cfg.lifeTimeMax < now) == expired ==>
                          refs[i] in Chosen(cfg, heap, refs, now, expired)
  {
    if refs != [] {
      ChosenMembers(cfg, heap, refs[1..], now, expired);
      assert forall i :: 0 < i < |refs| ==> refs[1..][i - 1] == refs[i];
    }
  }

  function IdsOf(heap: seq<Request>, refs: seq<Ref>): set<nat>
    requires RefsIn(heap, refs)
  {
    set i | 0 <= i < |refs| :: heap[refs[i]].l2Tx.id
  }

  /** The requests after the expiry writes of a burst. */
  function FatesWritten(cfg: Config, heap: seq<Request>, refs: seq<Ref>, rounds: seq<Round>, now: int)
    : (r: seq<Request>)
    requires RefsIn(heap, refs) && |rounds| == |refs|
    ensures SameKeys(heap, r)
    decreases |refs|
  {
    if refs == [] then heap
    else
      var q := heap[refs[0]];
      var written := if IsExpired(q.l2Tx, cfg.lifeTimeMax, now) then q.(fate := ExpiryFate(rounds[0].write)) else q;
      FatesWritten(cfg, heap[refs[0] := written], refs[1..], rounds[1..], now)
  }

  /** Each expired request gets the fate of its own write, and no other request is written. */
  lemma {:induction false} FatesWrittenMean(cfg: Config, heap: seq<Request>, refs: seq<Ref>, rounds: seq<Round>,
                                            now: int, r: Ref)
    requires RefsIn(heap, refs) && |rounds| == |refs| && r < |heap|
    requires forall i, j :: 0 <= i < j < |refs| ==> refs[i] != refs[j]
    ensures r !in refs ==> FatesWritten(cfg, heap, refs, rounds, now)[r] == heap[r]
    ensures forall i :: 0 <= i < |refs| && refs[i] == r ==>
              FatesWritten(cfg, heap, refs, rounds, now)[r]
              == if IsExpired(heap[r].l2Tx, cfg.lifeTimeMax, now) then heap[r].(fate := ExpiryFate(rounds[i].write))
                 else heap[r]
    decreases |refs|
  {
    if refs != [] {
      var q := heap[refs[0]];
      var written := if IsExpired(q.l2Tx, cfg.lifeTimeMax, now) then q.(fate := ExpiryFate(rounds[0].write)) else q;
      FatesWrittenMean(cfg, heap[refs[0] := written], refs[1..], rounds[1..], now, r);
      assert forall i :: 0 < i < |refs| ==> refs[1..][i - 1] == refs[i] && rounds[1..][i - 1] == rounds[i];
    }
  }

  /** The first `n` requests, and no more, are let go of. */
  predicate LeadingLetGo(cfg: Config, s: State, n: nat)
    requires Wf(s)
  {
    && n <= |s.sorted|
    && (forall i :: 0 <= i < n ==> LetsGo(cfg, s.heap[s.sorted[i]], s.clock))
    && (n < |s.sorted| ==> !LetsGo(cfg, s.heap[s.sorted[n]], s.clock))
  }

  /** The state a burst leads to. */
  function AfterBurst(cfg: Config, s: State, rounds: seq<Round>): State
    requires Wf(s) && |rounds| <= |s.sorted|
  {
    var gone := s.sorted[..|rounds|];
    s.(heap := FatesWritten(cfg, s.heap, gone, rounds, s.clock),
       list := s.list - IdsOf(s.heap, gone),
       sorted := s.sorted[|rounds|..],
       blocked := s.blocked + Chosen(cfg, s.heap, gone, s.clock, false),
       finished := s.finished + Chosen(cfg, s.heap, gone, s.clock, true))
  }

  lemma {:induction false} ChosenSame(cfg: Config, heap: seq<Request>, heap': seq<Request>, refs: seq<Ref>, now: int,
                                      expired: bool)
    requires SameKeys(heap, heap') && RefsIn(heap, refs)
    ensures RefsIn(heap', refs) && Chosen(cfg, heap', refs, now, expired) == Chosen(cfg, heap, refs, now, expired)
  {
    if refs != [] {
      ChosenSame(cfg, heap, heap', refs[1..], now, expired);
    }
  }

  lemma ChosenOneMore(cfg: Config, heap: seq<Request>, heap': seq<Request>, refs: seq<Ref>, now: int, expired: bool,
                      all: seq<Ref>)
    requires SameKeys(heap, heap') && RefsIn(heap, refs) && refs != []
    ensures RefsIn(heap', refs[1..])
    ensures all + Chosen(cfg, heap, refs, now, expired)
         == (if IsExpired(heap[refs[0]].l2Tx, cfg.lifeTimeMax, now) == expired then all + [refs[0]] else all)
            + Chosen(cfg, heap', refs[1..], now, expired)
  {
    ChosenSame(cfg, heap, heap', refs[1..], now, expired);
    Regroup(all, refs[0], Chosen(cfg, heap, refs[1..], now, expired));
  }

  lemma Regroup(all: seq<Ref>, r: Ref, more: seq<Ref>)
    ensures all + ([r] + more) == (all + [r]) + more && all + ([] + more) == all + more
  {
    assert [] + more == more;
  }

  lemma IdsOneMore(heap: seq<Request>, heap': seq<Request>, refs: seq<Ref>, list: map<nat, Ref>)
    requires SameKeys(heap, heap') && RefsIn(heap, refs) && refs != []
    ensures RefsIn(heap', refs[1..])
    ensures list - IdsOf(heap, refs) == (list - {heap[refs[0]].l2Tx.id}) - IdsOf(heap', refs[1..])
  {
    var ids, first, more := IdsOf(heap, refs), heap[refs[0]].l2Tx.id, IdsOf(heap', refs[1..]);
    forall id
      ensures id in ids <==> id == first || id in more
    {
      if i :| 0 < i < |refs| && heap[refs[i]].l2Tx.id == id {
        assert heap'[refs[1..][i - 1]].l2Tx.id == id;
      }
    }
  }

  /** A round followed by a burst is a longer burst. */
  lemma BurstOneMore(cfg: Config, s: State, rounds: seq<Round>)
    requires Wf(s) && 0 < |rounds| <= |s.sorted| && Wf(AfterRound(cfg, s, rounds[0].write))
    ensures AfterBurst(cfg, AfterRound(cfg, s, rounds[0].write), rounds[1..]) == AfterBurst(cfg, s, rounds)
  {
    var n := |rounds|;
    var u, gone := AfterRound(cfg, s, rounds[0].write), s.sorted[..n];
    assert u.sorted[..n - 1] == gone[1..] && u.sorted[n - 1..] == s.sorted[n..] && gone[0] == s.sorted[0];
    ChosenOneMore(cfg, s.heap, u.heap, gone, s.clock, false, s.blocked);
    ChosenOneMore(cfg, s.heap, u.heap, gone, s.clock, true, s.finished);
    IdsOneMore(s.heap, u.heap, gone, s.list);
    HeapOneMore(cfg, s, rounds);
  }

  lemma HeapOneMore(cfg: Config, s: State, rounds: seq<Round>)
    requires Wf(s) && 0 < |rounds| <= |s.sorted| && Wf(AfterRound(cfg, s, rounds[0].write))
    ensures
      var u, gone := AfterRound(cfg, s, rounds[0].write), s.sorted[..|rounds|];
      FatesWritten(cfg, u.heap, gone[1..], rounds[1..], s.clock) == FatesWritten(cfg, s.heap, gone, rounds, s.clock)
  {
    var gone := s.sorted[..|rounds|];
    assert gone[0] == s.sorted[0];
    var q := s.heap[gone[0]];
    assert s.heap[gone[0] := q] == s.heap;
  }

  lemma LetGoBehind(cfg: Config, s: State, ok: bool, n: nat)
    requires Wf(s) && LeadingLetGo(cfg, s, n) && 0 < n && Wf(AfterRound(cfg, s, ok))
    ensures LeadingLetGo(cfg, AfterRound(cfg, s, ok), n - 1)
  {
    var u := AfterRound(cfg, s, ok);
    forall i | 0 <= i < |u.sorted|
      ensures LetsGo(cfg, u.heap[u.sorted[i]], u.clock) <==> LetsGo(cfg, s.heap[s.sorted[i + 1]], s.clock)
    {
    }
  }

  /** The dispatcher is about to test the list, and will let go of its first `n` requests. */
  ghost predicate Poised(cfg: Config, s: State, n: nat) {
    Inv(cfg, s) && s.disp == Top && LeadingLetGo(cfg, s, n)
  }

  lemma RoundGoesOn(cfg: Config, s: State, round: Round, n: nat)
    requires Poised(cfg, s, n) && 0 < n
    ensures Poised(cfg, AfterRound(cfg, s, round.write), n - 1)
  {
    RoundIsDispatched(cfg, s, round.Answers());
    DispatchedKeepsInv(cfg, s, round.Answers(), AfterRound(cfg, s, round.write));
    LetGoBehind(cfg, s, round.write, n);
  }

  lemma BurstByNothing(cfg: Config, s: State)
    requires Wf(s)
    ensures AfterBurst(cfg, s, []) == s
  {
    assert s.sorted[0..] == s.sorted && s.sorted[..0] == [];
    assert IdsOf(s.heap, []) == {} && s.list - {} == s.list;
  }

  lemma {:induction false} BurstIsDispatched(cfg: Config, s: State, rounds: seq<Round>)
    requires Poised(cfg, s, |rounds|)
    ensures DispatchedTo(cfg, s, Flat(rounds), AfterBurst(cfg, s, rounds))
    decreases |rounds|
  {
    if rounds == [] {
      BurstByNothing(cfg, s);
    } else {
      var u := AfterRound(cfg, s, rounds[0].write);
      RoundIsDispatched(cfg, s, rounds[0].Answers());
      RoundGoesOn(cfg, s, rounds[0], |rounds|);
      BurstOneMore(cfg, s, rounds);
      var t := AfterBurst(cfg, u, rounds[1..]);
      BurstIsDispatched(cfg, u, rounds[1..]);
      Further(ByDispatcher(cfg), s, rounds[0].Answers(), u, Flat(rounds[1..]), t);
    }
  }

  /**
   From any state in which the dispatcher is about to test the list, whatever the database answers: its steps
   alone, with the clock standing still, lead after six steps for each request of the longest prefix that is
   expired or due to this state and to no other. That prefix is gone from slice and map, those of it that are
   not expired are on their way to the workers in order, the expired ones are finished, each with the fate of
   its own write, no other request is written, and what is listed is not overdue by a millisecond.
   */
  lemma BurstDrains(cfg: Config, s: State, rounds: seq<Round>, t: State)
    requires Poised(cfg, s, |rounds|)
    ensures DispatchedTo(cfg, s, Flat(rounds), t) <==> t == AfterBurst(cfg, s, rounds)
    ensures Inv(cfg, AfterBurst(cfg, s, rounds))
    ensures Drained(cfg, s, rounds, AfterBurst(cfg, s, rounds))
  {
    var u := AfterBurst(cfg, s, rounds);
    BurstIsDispatched(cfg, s, rounds);
    DispatchedKeepsInv(cfg, s, Flat(rounds), u);
    if DispatchedTo(cfg, s, Flat(rounds), t) {
      Unique(ByDispatcher(cfg), s, Flat(rounds), t, u);
    }
    BurstHasDrained(cfg, s, rounds);
  }

  /** What a burst means, request by request. */
  ghost predicate Drained(cfg: Config, s: State, rounds: seq<Round>, t: State)
    requires Wf(s) && Wf(t) && |rounds| <= |s.sorted|
  {
    var gone := s.sorted[..|rounds|];
    && t.disp == Top && t.clock == s.clock && t.threads == s.threads && t.queue == s.queue && !t.panicked
    && t.sorted == s.sorted[|rounds|..]
    && t.blocked == s.blocked + Chosen(cfg, s.heap, gone, s.clock, false)
    && t.finished == s.finished + Chosen(cfg, s.heap, gone, s.clock, true)
    && |t.heap| == |s.heap|
    && (forall r: Ref :: r < |s.heap| && r !in gone ==> t.heap[r] == s.heap[r])
    && (forall i :: 0 <= i < |gone| ==>
          t.heap[gone[i]]
          == if s.heap[gone[i]].l2Tx.receivedAt + cfg.lifeTimeMax < s.clock
             then s.heap[gone[i]].(fate := ExpiryFate(rounds[i].write)) else s.heap[gone[i]])
    && (forall i :: 0 <= i < |gone| ==>
          if s.heap[gone[i]].l2Tx.receivedAt + cfg.lifeTimeMax < s.clock
          then gone[i] in t.finished else s.heap[gone[i]].nextRetry < s.clock && gone[i] in t.blocked)
    && (forall i :: 0 <= i < |t.sorted| ==> t.heap[t.sorted[i]].nextRetry > t.clock - 1_000_000)
  }

  lemma BurstHasDrained(cfg: Config, s: State, rounds: seq<Round>)
    requires Wf(s) && Conserved(s) && Ordered(s) && !s.panicked && s.disp == Top && LeadingLetGo(cfg, s, |rounds|)
    requires Wf(AfterBurst(cfg, s, rounds))
    ensures Drained(cfg, s, rounds, AfterBurst(cfg, s, rounds))
  {
    ListedOnce(s);
    FatesOfBurst(cfg, s.heap, s.sorted[..|rounds|], rounds, s.clock);
    NothingOverdue(cfg, s, |rounds|);
    ChosenMembers(cfg, s.heap, s.sorted[..|rounds|], s.clock, false);
    ChosenMembers(cfg, s.heap, s.sorted[..|rounds|], s.clock, true);
  }

  // ---------------------------------------------------------------- the end of a burst

  lemma FallsAsleep(cfg: Config, s: State, ok: bool)
    requires Wf(s) && !s.panicked && s.disp.Judging? && !LetsGo(cfg, s.heap[s.disp.ref], s.disp.now)
    ensures
      var until := s.clock + (s.heap[s.disp.ref].nextRetry - s.disp.now);
      Dispatches(cfg, s, ok, s.(disp := Sleeping(s.disp.ref, s.disp.now, until)))
  {
  }

  /** The dispatcher cannot let go of the head: it sleeps until the very instant that is due. */
  lemma ThenSleeps(cfg: Config, s: State, oks: seq<bool>, t: State)
    requires Poised(cfg, s, 0) && s.sorted != [] && |oks| == 4
    ensures
      var head := s.heap[s.sorted[0]];
      && head.l2Tx.receivedAt + cfg.lifeTimeMax >= s.clock && head.nextRetry >= s.clock
      && (DispatchedTo(cfg, s, oks, t) <==> t == s.(disp := Sleeping(s.sorted[0], s.clock, head.nextRetry)))
  {
    var s3 := s.(disp := Judging(s.clock, s.sorted[0]));
    var s4 := s.(disp := Sleeping(s.sorted[0], s.clock, s.heap[s.sorted[0]].nextRetry));
    ReadsHead(cfg, s, oks[..3]);
    FallsAsleep(cfg, s3, oks[3]);
    One(ByDispatcher(cfg), s3, oks[3], s4);
    Further(ByDispatcher(cfg), s, oks[..3], s3, [oks[3]], s4);
    assert oks[..3] + [oks[3]] == oks;
    if DispatchedTo(cfg, s, oks, t) {
      Unique(ByDispatcher(cfg), s, oks, t, s4);
    }
  }

  /** There is nothing to dispatch: it waits. */
  lemma ThenWaits(cfg: Config, s: State, oks: seq<bool>, t: State)
    requires Poised(cfg, s, 0) && s.sorted == [] && |oks| == 2
    ensures DispatchedTo(cfg, s, oks, t) <==> t == s.(disp := Parked)
  {
    var s1, s2 := s.(disp := Vacant), s.(disp := Parked);
    assert Dispatches(cfg, s, oks[0], s1) && Dispatches(cfg, s1, oks[1], s2);
    One(ByDispatcher(cfg), s, oks[0], s1);
    One(ByDispatcher(cfg), s1, oks[1], s2);
    Further(ByDispatcher(cfg), s, [oks[0]], s1, [oks[1]], s2);
    assert [oks[0]] + [oks[1]] == oks;
    if DispatchedTo(cfg, s, oks, t) {
      Unique(ByDispatcher(cfg), s, oks, t, s2);
    }
  }

  lemma FatesOfBurst(cfg: Config, heap: seq<Request>, gone: seq<Ref>, rounds: seq<Round>, now: int)
    requires RefsIn(heap, gone) && |rounds| == |gone|
    requires forall i, j :: 0 <= i < j < |gone| ==> gone[i] != gone[j]
    ensures
      var written := FatesWritten(cfg, heap, gone, rounds, now);
      && (forall r: Ref :: r < |heap| && r !in gone ==> written[r] == heap[r])
      && (forall i :: 0 <= i < |gone| ==>
            written[gone[i]] == if IsExpired(heap[gone[i]].l2Tx, cfg.lifeTimeMax, now)
                                then heap[gone[i]].(fate := ExpiryFate(rounds[i].write)) else heap[gone[i]])
  {
    forall r: Ref | r < |heap| && r !in gone
      ensures FatesWritten(cfg, heap, gone, rounds, now)[r] == heap[r]
    {
      FatesWrittenMean(cfg, heap, gone, rounds, now, r);
    }
    forall i | 0 <= i < |gone|
      ensures FatesWritten(cfg, heap, gone, rounds, now)[gone[i]]
           == if IsExpired(heap[gone[i]].l2Tx, cfg.lifeTimeMax, now)
              then heap[gone[i]].(fate := ExpiryFate(rounds[i].write)) else heap[gone[i]]
    {
      FatesWrittenMean(cfg, heap, gone, rounds, now, gone[i]);
    }
  }

  lemma ListedOnce(s: State)
    requires Wf(s) && Conserved(s)
    ensures forall i, j :: 0 <= i < j < |s.sorted| ==> s.sorted[i] != s.sorted[j]
  {
    forall i, j | 0 <= i < j < |s.sorted|
      ensures s.sorted[i] != s.sorted[j]
    {
      ListedIsTracked(s, j);
    }
  }

  lemma NothingOverdue(cfg: Config, s: State, n: nat)
    requires Wf(s) && Ordered(s) && LeadingLetGo(cfg, s, n)
    ensures forall i :: n <= i < |s.sorted| ==> s.heap[s.sorted[i]].nextRetry > s.clock - 1_000_000
  {
    forall i | n <= i < |s.sorted|
      ensures s.heap[s.sorted[i]].nextRetry > s.clock - 1_000_000
    {
      EarlierMilliIsEarlier(s.heap[s.sorted[n]].nextRetry, s.heap[s.sorted[i]].nextRetry);
    }
  }
}
