/** What follows when an id that is tracked already is submitted again: a request is lost. */
module MonitorHarm {
  import opened Wrappers
  import opened Types
  import opened Sequences
  import opened MonitorMachine
  import opened MonitorSafety
  import opened Paths
  import MonitorSleep

  predicate Moves(cfg: Config, s: State, a: Action, t: State) {
    Wf(s) && Enabled(cfg, s, a) && t == Apply(cfg, s, a)
  }

  function AnyStep(cfg: Config): (State, Action) -> Option<State> {
    (s: State, a: Action) => if Wf(s) && Enabled(cfg, s, a) then Some(Apply(cfg, s, a)) else None
  }

  /** `t` follows from `s` by these steps; nothing is assumed of the ids they submit. */
  ghost predicate Reaches(cfg: Config, s: State, steps: seq<Action>, t: State) {
    Path(AnyStep(cfg), s, steps, t)
  }

  // ---------------------------------------------------------------- the refused add

  /** Request `r` exists and is in no place at all. */
  predicate Lost(s: State, r: Ref) {
    r < |s.heap| && Places(s)[r] == 0
  }

  /** An add of a listed id leaves its request nowhere. */
  lemma RefusedIsLost(cfg: Config, s: State, i: nat)
    requires Wf(s) && !s.panicked && i < |s.threads| && s.threads[i].Listing?
    requires s.heap[s.threads[i].ref].l2Tx.id in s.list && Places(s)[s.threads[i].ref] == 1
    ensures Moves(cfg, s, Advance(i), s.(threads := s.threads[i := Counting]))
    ensures Lost(s.(threads := s.threads[i := Counting]), s.threads[i].ref)
  {
    var r, t := s.threads[i].ref, s.(threads := s.threads[i := Counting]);
    assert Apply(cfg, s, Advance(i)) == t;
    HeldUpdate(s.threads, i, Counting);
    PlacesSplit(s);
    PlacesSplit(t);
    assert Held(s.threads)[r] >= 1;
  }

  /** The places of a request whose thread goes on holding it do not change. */
  lemma HolderKeepsPlaces(s: State, t: State, i: nat)
    requires i < |s.threads| && |t.threads| == |s.threads| && t.threads == s.threads[i := t.threads[i]]
    requires HeldBy(t.threads[i]) == HeldBy(s.threads[i])
    requires t.sorted == s.sorted && t.disp == s.disp && t.blocked == s.blocked && t.queue == s.queue
    requires t.finished == s.finished
    ensures Places(t) == Places(s)
  {
    ThreadMoves(s, t, i, t.threads[i]);
  }

  lemma SubmittedOnce(cfg: Config, s: State, l2Tx: L2Transaction) returns (t: State)
    requires Wf(s) && Conserved(s) && Enabled(cfg, s, Submit(l2Tx))
    ensures Moves(cfg, s, Submit(l2Tx), t) && Wf(t) && !t.panicked && t.list == s.list
    ensures |t.heap| == |s.heap| + 1 && t.heap[|s.heap|].l2Tx == l2Tx
    ensures t.threads == s.threads + [Fresh(|s.heap|)] && Places(t)[|s.heap|] == 1
  {
    t := Apply(cfg, s, Submit(l2Tx));
    ConservedNext(cfg, s, Submit(l2Tx));
  }

  lemma AdderStamps(cfg: Config, s: State, i: nat) returns (t: State)
    requires Wf(s) && cfg.initialWait > 0 && Enabled(cfg, s, Advance(i)) && s.threads[i].Fresh?
    ensures Moves(cfg, s, Advance(i), t) && Wf(t) && !t.panicked && t.list == s.list
    ensures |t.heap| == |s.heap| && t.heap[s.threads[i].ref].l2Tx == s.heap[s.threads[i].ref].l2Tx
    ensures t.threads == s.threads[i := Listing(s.threads[i].ref)] && Places(t) == Places(s)
  {
    t := Apply(cfg, s, Advance(i));
    HolderKeepsPlaces(s, t, i);
  }

  /** In every state with each request in its place: submit a listed id again, and its request ends up nowhere. */
  lemma ResubmittedIsLost(cfg: Config, s: State, l2Tx: L2Transaction) returns (steps: seq<Action>, t: State)
    requires Wf(s) && Conserved(s) && !s.panicked && cfg.initialWait > 0 && l2Tx.id in s.list
    ensures steps == [Submit(l2Tx), Advance(|s.threads|), Advance(|s.threads|)] && Reaches(cfg, s, steps, t)
    ensures Lost(t, |s.heap|) && t.heap[|s.heap|].l2Tx == l2Tx && !Conserved(t)
  {
    var i := |s.threads|;
    var s1 := SubmittedOnce(cfg, s, l2Tx);
    var s2 := AdderStamps(cfg, s1, i);
    RefusedIsLost(cfg, s2, i);
    t := s2.(threads := s2.threads[i := Counting]);
    steps := [Submit(l2Tx), Advance(i), Advance(i)];
    Three(AnyStep(cfg), s, steps, s1, s2, t);
  }

  /** So from every initial state with an initial wait, submitting a transaction twice loses the second request. */
  lemma SubmittedTwiceIsLost(cfg: Config, s: State, l2Tx: L2Transaction)
    returns (steps: seq<Action>, states: seq<State>)
    requires Init(cfg, s) && cfg.initialWait > 0
    ensures Run(cfg, states, steps) && states[0] == s
    ensures steps == [Submit(l2Tx), Advance(|s.threads|), Advance(|s.threads|)]
                     + [Submit(l2Tx), Advance(|s.threads| + 1), Advance(|s.threads| + 1)]
    ensures Lost(states[6], 1) && !Conserved(states[6])
  {
    var t := ListedOnce(cfg, s, l2Tx);
    var again, u := ResubmittedIsLost(cfg, t, l2Tx);
    var once := [Submit(l2Tx), Advance(|s.threads|), Advance(|s.threads|)];
    Further(AnyStep(cfg), s, once, t, again, u);
    steps := once + again;
    states := PathIsRun(cfg, s, steps, u);
  }

  lemma PathIsRun(cfg: Config, s: State, steps: seq<Action>, t: State) returns (states: seq<State>)
    requires Init(cfg, s) && Reaches(cfg, s, steps, t)
    ensures Run(cfg, states, steps) && states[0] == s && states[|steps|] == t
  {
    states := StatesAlong(AnyStep(cfg), s, steps, t);
    forall n | 0 <= n < |steps|
      ensures Wf(states[n]) && Enabled(cfg, states[n], steps[n])
      ensures states[n + 1] == Apply(cfg, states[n], steps[n])
    {
      assert Moves(cfg, states[n], steps[n], states[n + 1]);
    }
  }

  lemma ListedOnce(cfg: Config, s: State, l2Tx: L2Transaction) returns (t: State)
    requires Init(cfg, s) && cfg.initialWait > 0
    ensures Reaches(cfg, s, [Submit(l2Tx), Advance(|s.threads|), Advance(|s.threads|)], t)
    ensures Inv(cfg, t) && l2Tx.id in t.list && |t.heap| == 1 && |t.threads| == |s.threads| + 1
  {
    var i := |s.threads|;
    InitInv(cfg, s);
    var s1, s2 := MonitorSleep.AddedOnce(cfg, s, l2Tx);
    InvNext(cfg, s2, Advance(i));
    t := Apply(cfg, s2, Advance(i));
    ListsFirst(cfg, s, l2Tx, s1, s2, t);
    Three(AnyStep(cfg), s, [Submit(l2Tx), Advance(i), Advance(i)], s1, s2, t);
  }

  lemma ListsFirst(cfg: Config, s: State, l2Tx: L2Transaction, s1: State, s2: State, s3: State)
    requires Init(cfg, s) && cfg.initialWait > 0 && Wf(s) && Enabled(cfg, s, Submit(l2Tx))
    requires s1 == Apply(cfg, s, Submit(l2Tx)) && Wf(s1) && Enabled(cfg, s1, Advance(|s.threads|))
    requires s2 == Apply(cfg, s1, Advance(|s.threads|)) && Wf(s2) && Enabled(cfg, s2, Advance(|s.threads|))
    requires s3 == Apply(cfg, s2, Advance(|s.threads|))
    ensures l2Tx.id in s3.list && |s3.heap| == 1 && |s3.threads| == |s.threads| + 1
  {
  }
}
