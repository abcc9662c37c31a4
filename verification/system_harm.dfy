/**
 What follows when a status write of the sender fails: a run in which every other assumption is met sends a
 transaction twice and overwrites a terminal status.
 */
module SystemHarm {
  import opened Wrappers
  import opened Types
  import opened Sequences
  import opened Pool
  import M = MonitorMachine
  import S = SenderMachine
  import opened System
  import opened SystemRuns
  import opened Paths

  /** The steps that respect the stated discipline. */
  ghost function DisciplinedStep(cfg: Config): (State, Action) -> Option<State> {
    (s: State, a: Action) =>
      if Wf(s) && Enabled(cfg, s, a) && Disciplined(s, a) then Some(Apply(cfg, s, a)) else None
  }

  ghost predicate Steps(cfg: Config, s: State, a: Action, t: State) {
    Wf(s) && Enabled(cfg, s, a) && Disciplined(s, a) && Apply(cfg, s, a) == t
  }

  /** `t` follows from `s` by such steps. */
  ghost predicate Reaches(cfg: Config, s: State, steps: seq<Action>, t: State) {
    Path(DisciplinedStep(cfg), s, steps, t)
  }

  lemma OneStep(s: State, a: Action, t: State)
    requires Steps(CFG, s, a, t)
    ensures Reaches(CFG, s, [a], t)
  {
    One(DisciplinedStep(CFG), s, a, t);
  }

  lemma ThreeSteps(s: State, steps: seq<Action>, s1: State, s2: State, t: State)
    requires |steps| == 3
    requires Steps(CFG, s, steps[0], s1) && Steps(CFG, s1, steps[1], s2) && Steps(CFG, s2, steps[2], t)
    ensures Reaches(CFG, s, steps, t)
  {
    Three(DisciplinedStep(CFG), s, steps, s1, s2, t);
  }

  // ---------------------------------------------------------------- one transaction, one worker of each kind

  const CFG := Config(M.Config(0, 1, 1, 1, 1), S.Config(1, 1))
  const TX := L2Transaction(1, "0x01", 0, "0xf8")

  function Start(): State {
    State(map[], S.State([], [], [], [S.Idle]), M.State([], map[], [], [], [], [M.Idle], M.Top, [], 0, false),
          [], Loader([], None), Loader([], None), [], {})
  }

  function Asked(): S.Call {
    S.Call(TX, None, 1, S.Enqueuing, [], 0, [], 0, None)
  }

  function Heard(answer: Option<string>): S.Call {
    S.Call(TX, answer, 0, if answer.Some? then S.WritingInvalid else S.WritingSent,
           [S.Rpc(TX.encoded, answer)], 1, [], 0, None)
  }

  function Back(answer: Option<string>): S.Call {
    Heard(answer).(pc := S.Returned, reply := Some(answer), writes := [if answer.Some? then Invalid else Sent],
                   handed := if answer.Some? then 0 else 1)
  }

  function Calls(s: State, calls: seq<S.Call>): State {
    s.(sender := S.State(calls, [], [], [S.Idle]))
  }

  /** The steps from a call's start to the sequencer's answer. */
  function AnswerSteps(c: S.CallId, answer: Option<string>): seq<Action> {
    [SenderStep(S.Resume(c, true)), SenderStep(S.HandOff(0, 0)), SenderStep(S.Answer(0, answer))]
    + [SenderStep(S.Work(0)), SenderStep(S.Work(0)), SenderStep(S.Resume(c, true))]
  }

  /** A step of the sender that neither writes a row nor hands over changes nothing but the sender. */
  lemma SenderSteps(s: State, b: S.Action, sender: S.State)
    requires Wf(s) && !s.monitor.panicked && !b.Enter? && S.Enabled(CFG.sender, s.sender, b)
    requires S.Apply(CFG.sender, s.sender, b) == sender
    requires b.Resume? ==> s.sender.calls[b.c].pc.Enqueuing? || s.sender.calls[b.c].pc.Waiting?
    ensures Steps(CFG, s, SenderStep(b), s.(sender := sender))
  {
  }

  lemma CallIsEnqueued(s: State, calls: seq<S.Call>)
    requires M.Wf(s.monitor) && !s.monitor.panicked && s == Calls(s, calls + [Asked()])
    ensures Steps(CFG, s, SenderStep(S.Resume(|calls|, true)),
                  s.(sender := S.State(calls + [Asked().(pc := S.Waiting)], [|calls|], [], [S.Idle])))
  {
    var waiting := Asked().(pc := S.Waiting);
    assert (calls + [Asked()])[|calls| := waiting] == calls + [waiting];
    SenderSteps(s, S.Resume(|calls|, true), S.State(calls + [waiting], [|calls|], [], [S.Idle]));
  }

  lemma WorkerTakesCall(s: State, calls: seq<S.Call>, c: S.CallId)
    requires M.Wf(s.monitor) && !s.monitor.panicked && c < |calls|
    requires s.sender == S.State(calls, [c], [], [S.Idle])
    ensures Steps(CFG, s, SenderStep(S.HandOff(0, 0)), s.(sender := S.State(calls, [], [], [S.Sending(c)])))
  {
    assert RemoveAt([c], 0) == [];
    SenderSteps(s, S.HandOff(0, 0), S.State(calls, [], [], [S.Sending(c)]));
  }

  lemma SequencerAnswers(s: State, calls: seq<S.Call>, answer: Option<string>)
    requires M.Wf(s.monitor) && !s.monitor.panicked
    requires s.sender == S.State(calls + [Asked().(pc := S.Waiting)], [], [], [S.Sending(|calls|)])
    ensures
      var sent := Asked().(pc := S.Waiting, rpcs := [S.Rpc(TX.encoded, answer)]);
      Steps(CFG, s, SenderStep(S.Answer(0, answer)),
            s.(sender := S.State(calls + [sent], [], [], [S.Storing(|calls|, answer)])))
  {
    var c, waiting := |calls|, Asked().(pc := S.Waiting);
    var sent := waiting.(rpcs := [S.Rpc(TX.encoded, answer)]);
    assert (calls + [waiting])[c := sent] == calls + [sent];
    assert waiting.rpcs + [S.Rpc(TX.encoded, answer)] == sent.rpcs;
    SenderSteps(s, S.Answer(0, answer), S.State(calls + [sent], [], [], [S.Storing(c, answer)]));
  }

  lemma TakenByWorker(s: State, calls: seq<S.Call>, answer: Option<string>)
    requires M.Wf(s.monitor) && !s.monitor.panicked && s == Calls(s, calls + [Asked()])
    ensures
      var c := |calls|;
      var sent := Asked().(pc := S.Waiting, rpcs := [S.Rpc(TX.encoded, answer)]);
      Reaches(CFG, s, AnswerSteps(c, answer)[..3],
              s.(sender := S.State(calls + [sent], [], [], [S.Storing(c, answer)])))
  {
    var c, waiting := |calls|, Asked().(pc := S.Waiting);
    var sent := waiting.(rpcs := [S.Rpc(TX.encoded, answer)]);
    var s1 := s.(sender := S.State(calls + [waiting], [c], [], [S.Idle]));
    var s2 := s.(sender := S.State(calls + [waiting], [], [], [S.Sending(c)]));
    var s3 := s.(sender := S.State(calls + [sent], [], [], [S.Storing(c, answer)]));
    CallIsEnqueued(s, calls);
    WorkerTakesCall(s1, calls + [waiting], c);
    SequencerAnswers(s2, calls, answer);
    ThreeSteps(s, AnswerSteps(c, answer)[..3], s1, s2, s3);
  }

  lemma CompletedByWorker(s: State, calls: seq<S.Call>, answer: Option<string>)
    requires M.Wf(s.monitor) && !s.monitor.panicked
    requires
      var sent := Asked().(pc := S.Waiting, rpcs := [S.Rpc(TX.encoded, answer)]);
      s.sender == S.State(calls + [sent], [], [], [S.Storing(|calls|, answer)])
    ensures Reaches(CFG, s, AnswerSteps(|calls|, answer)[3..], Calls(s, calls + [Heard(answer)]))
  {
    var c := |calls|;
    var stored := Asked().(pc := S.Waiting, rpcs := [S.Rpc(TX.encoded, answer)], err := answer);
    var released := stored.(pending := 0, completions := 1);
    var t1 := S.State(calls + [stored], [], [], [S.Completing(c)]);
    var t2 := S.State(calls + [released], [], [], [S.Idle]);
    var t3 := S.State(calls + [Heard(answer)], [], [], [S.Idle]);
    SenderSteps(s, S.Work(0), t1);
    SenderSteps(s.(sender := t1), S.Work(0), t2);
    SenderSteps(s.(sender := t2), S.Resume(c, true), t3);
    ThreeSteps(s, AnswerSteps(c, answer)[3..], s.(sender := t1), s.(sender := t2),
          s.(sender := t3));
  }

  /** The last call that was started is answered, and nothing else happens. */
  lemma CallIsAnswered(s: State, calls: seq<S.Call>, answer: Option<string>)
    requires M.Wf(s.monitor) && !s.monitor.panicked && s == Calls(s, calls + [Asked()])
    ensures Reaches(CFG, s, AnswerSteps(|calls|, answer), Calls(s, calls + [Heard(answer)]))
  {
    var c, steps := |calls|, AnswerSteps(|calls|, answer);
    var sent := Asked().(pc := S.Waiting, rpcs := [S.Rpc(TX.encoded, answer)]);
    var mid := s.(sender := S.State(calls + [sent], [], [], [S.Storing(c, answer)]));
    TakenByWorker(s, calls, answer);
    CompletedByWorker(mid, calls, answer);
    Further(DisciplinedStep(CFG), s, steps[..3], mid, steps[3..], Calls(s, calls + [Heard(answer)]));
    assert steps[..3] + steps[3..] == steps;
  }

  // ---------------------------------------------------------------- the run

  function TableOf(status: Status, error: string): Table {
    map[1 := Row(TX, status, error)]
  }

  /** The transaction is inserted, sent, and rejected: its row is invalid. */
  function Rejected(): State {
    Calls(Start(), [Back(Some("full"))]).(table := TableOf(Invalid, "full"))
  }

  function Inserted(): State {
    Calls(Start(), [] + [Asked()]).(table := TableOf(Pending, ""))
  }

  lemma FirstCallStarts()
    ensures Reaches(CFG, Start(), [Insert(TX, true), SendArrived(0)], Inserted())
  {
    var s1 := Start().(table := TableOf(Pending, ""), arriving := [TX]);
    assert [TX][..0] + [TX][1..] == [] && [] + [TX] == [TX];
    assert map[][1 := Row(TX, Pending, "")] == TableOf(Pending, "");
    OneStep(Start(), Insert(TX, true), s1);
    OneStep(s1, SendArrived(0), Inserted());
    Further(DisciplinedStep(CFG), Start(), [Insert(TX, true)], s1, [SendArrived(0)], Inserted());
    assert [Insert(TX, true)] + [SendArrived(0)] == [Insert(TX, true), SendArrived(0)];
  }

  lemma FirstCall()
    ensures Reaches(CFG, Start(), [Insert(TX, true), SendArrived(0)] + AnswerSteps(0, Some("full"))
                                  + [SenderStep(S.Resume(0, true))], Rejected())
  {
    var s := Calls(Inserted(), [] + [Heard(Some("full"))]);
    FirstCallStarts();
    CallIsAnswered(Inserted(), [], Some("full"));
    Further(DisciplinedStep(CFG), Start(), [Insert(TX, true), SendArrived(0)], Inserted(),
            AnswerSteps(0, Some("full")), s);
    RejectionIsWritten(s);
    OneStep(s, SenderStep(S.Resume(0, true)), Rejected());
    Further(DisciplinedStep(CFG), Start(), [Insert(TX, true), SendArrived(0)] + AnswerSteps(0, Some("full")), s,
                   [SenderStep(S.Resume(0, true))], Rejected());
  }

  lemma RejectionIsWritten(s: State)
    requires s == Calls(Inserted(), [] + [Heard(Some("full"))])
    ensures Steps(CFG, s, SenderStep(S.Resume(0, true)), Rejected())
  {
    var heard := Heard(Some("full"));
    assert heard.writes + [Invalid] == [Invalid];
    assert [heard][0 := Back(Some("full"))] == [Back(Some("full"))];
    assert S.ResumeCall(s.sender, 0).calls == [Back(Some("full"))];
    assert s.table[1 := Row(TX, Invalid, "full")] == TableOf(Invalid, "full");
  }

  /** The operator has the row sent again, and the resend loop starts a second call for it. */
  function Resent(): State {
    Calls(Start(), [Back(Some("full"))] + [Asked()])
    .(table := TableOf(Resend, "full"), resendLoad := Loader([], Some(1)))
  }

  lemma RejectedIsFree()
    ensures Unowned(Rejected(), 1)
  {
  }

  lemma SecondCall()
    ensures Reaches(CFG, Rejected(), [RequestResend(1), LoadResend([TX]), SendResend], Resent())
  {
    var s1 := Rejected().(table := TableOf(Resend, "full"));
    var s2 := s1.(resendLoad := Loader([TX], None));
    RejectedIsFree();
    assert Rejected().table[1 := Row(TX, Resend, "full")] == TableOf(Resend, "full");
    assert Rejected().abandoned - {1} == {} && [TX][1..] == [];
    ThreeSteps(Rejected(), [RequestResend(1), LoadResend([TX]), SendResend], s1, s2, Resent());
  }

  /** The sequencer accepts it, and the caller is about to write the row. */
  function Accepted(): State {
    Resent().(sender := S.State([Back(Some("full"))] + [Heard(None)], [], [], [S.Idle]))
  }

  lemma SecondAnswer()
    ensures Reaches(CFG, Resent(), AnswerSteps(1, None), Accepted())
  {
    CallIsAnswered(Resent(), [Back(Some("full"))], None);
  }

  /** The write that fails. */
  const FAIL := SenderStep(S.Resume(1, false))

  /** It has failed: the row still says resend, and the transaction goes to the monitor. */
  function Unwritten(): State {
    Accepted().(sender := S.State([Back(Some("full")), Heard(None).(pc := S.HandingOver, writes := [Sent])],
                                  [], [], [S.Idle]))
  }

  lemma TheWriteFails()
    ensures Wf(Accepted()) && Enabled(CFG, Accepted(), FAIL) && Apply(CFG, Accepted(), FAIL) == Unwritten()
    ensures !Disciplined(Accepted(), FAIL)
  {
    assert Heard(None).writes + [Sent] == [Sent];
    assert ([Back(Some("full"))] + [Heard(None)])[1 := Heard(None).(pc := S.HandingOver, writes := [Sent])]
        == [Back(Some("full")), Heard(None).(pc := S.HandingOver, writes := [Sent])];
  }

  const WATCHED := M.Request(TX, M.ZERO_TIME, 0, 0, 0, 0, M.NoReceipt, M.Watched)

  function Watching(s: State, threads: seq<M.Thread>, blocked: seq<M.Ref>, q: M.Request): State {
    s.(monitor := M.State([q], map[], [], blocked, [], threads, M.Top, [], 0, false))
  }

  /** The monitor watches it, and the resend loop, which finds the row again, starts a third call for it. */
  function SentAgain(): State {
    Watching(Calls(Accepted(), [Back(Some("full")), Back(None)] + [Asked()]).(resendLoad := Loader([], Some(2))),
             [M.Idle, M.Fresh(0)], [], WATCHED)
  }

  lemma ThirdCall()
    ensures Reaches(CFG, Unwritten(), [SenderStep(S.Resume(1, true)), ResendDone, LoadResend([TX])] + [SendResend],
                    SentAgain())
  {
    var s1 := Watching(Calls(Accepted(), [Back(Some("full")), Back(None)]), [M.Idle, M.Fresh(0)], [], WATCHED);
    var s2 := s1.(resendLoad := Loader([], None));
    var s3 := s1.(resendLoad := Loader([TX], None));
    HandsOver(s1);
    var steps := [SenderStep(S.Resume(1, true)), ResendDone, LoadResend([TX])];
    ThreeSteps(Unwritten(), steps, s1, s2, s3);
    FoundAgain(s3);
    OneStep(s3, SendResend, SentAgain());
    Further(DisciplinedStep(CFG), Unwritten(), steps, s3, [SendResend], SentAgain());
  }

  lemma FoundAgain(s: State)
    requires s == Watching(Calls(Accepted(), [Back(Some("full")), Back(None)]), [M.Idle, M.Fresh(0)], [], WATCHED)
                  .(resendLoad := Loader([TX], None))
    ensures Steps(CFG, s, SendResend, SentAgain())
  {
    assert [TX][1..] == [];
  }

  lemma HandsOver(s1: State)
    requires s1 == Watching(Calls(Accepted(), [Back(Some("full")), Back(None)]), [M.Idle, M.Fresh(0)], [], WATCHED)
    ensures Steps(CFG, Unwritten(), SenderStep(S.Resume(1, true)), s1)
  {
    var calls := Unwritten().sender.calls;
    assert calls[1 := Back(None)] == [Back(Some("full")), Back(None)];
    assert [] + [WATCHED] == [WATCHED] && [M.Idle] + [M.Fresh(0)] == [M.Idle, M.Fresh(0)];
  }

  /** The monitor finds the receipt of the second call and confirms the row. */
  function Watched(): State {
    Watching(SentAgain(), [M.Deleting(0), M.Gone], [],
             WATCHED.(polls := 1, answer := M.Receipt(1), fate := M.Settled(Confirmed)))
    .(table := TableOf(Confirmed, ""))
  }

  /** A step of the monitor that writes no row changes nothing but the monitor. */
  lemma MonitorSteps(s: State, b: M.Action, m: M.State)
    requires Wf(s) && !b.Submit? && !b.Dispatch? && !b.Record? && M.Enabled(CFG.monitor, s.monitor, b)
    requires M.Apply(CFG.monitor, s.monitor, b) == m
    ensures Steps(CFG, s, MonitorStep(b), s.(monitor := m))
  {
    assert s.abandoned + {} == s.abandoned;
  }

  const POLLED := WATCHED.(polls := 1, answer := M.Receipt(1))

  lemma AdderSends()
    ensures Steps(CFG, SentAgain(), MonitorStep(M.Advance(1)), Watching(SentAgain(), [M.Idle, M.Gone], [0], WATCHED))
  {
    assert [M.Idle, M.Fresh(0)][1 := M.Gone] == [M.Idle, M.Gone] && [] + [0 as M.Ref] == [0];
    MonitorSteps(SentAgain(), M.Advance(1), Watching(SentAgain(), [M.Idle, M.Gone], [0], WATCHED).monitor);
  }

  lemma WorkerTakes()
    ensures Steps(CFG, Watching(SentAgain(), [M.Idle, M.Gone], [0], WATCHED), MonitorStep(M.HandOff(0, 0)),
                  Watching(SentAgain(), [M.Polling(0), M.Gone], [], WATCHED))
  {
    assert [M.Idle, M.Gone][0 := M.Polling(0)] == [M.Polling(0), M.Gone] && RemoveAt([0 as M.Ref], 0) == [];
    MonitorSteps(Watching(SentAgain(), [M.Idle, M.Gone], [0], WATCHED), M.HandOff(0, 0),
                 Watching(SentAgain(), [M.Polling(0), M.Gone], [], WATCHED).monitor);
  }

  lemma WorkerPolls()
    ensures Steps(CFG, Watching(SentAgain(), [M.Polling(0), M.Gone], [], WATCHED),
                  MonitorStep(M.Poll(0, M.Receipt(1))),
                  Watching(SentAgain(), [M.Writing(0, Confirmed), M.Gone], [], POLLED))
  {
    assert [M.Polling(0), M.Gone][0 := M.Writing(0, Confirmed)] == [M.Writing(0, Confirmed), M.Gone];
    assert [WATCHED][0 := POLLED] == [POLLED];
    MonitorSteps(Watching(SentAgain(), [M.Polling(0), M.Gone], [], WATCHED), M.Poll(0, M.Receipt(1)),
                 Watching(SentAgain(), [M.Writing(0, Confirmed), M.Gone], [], POLLED).monitor);
  }

  lemma MonitorPolls()
    ensures Reaches(CFG, SentAgain(), [MonitorStep(M.Advance(1)), MonitorStep(M.HandOff(0, 0)),
                                       MonitorStep(M.Poll(0, M.Receipt(1)))],
                    Watching(SentAgain(), [M.Writing(0, Confirmed), M.Gone], [], POLLED))
  {
    AdderSends();
    WorkerTakes();
    WorkerPolls();
    ThreeSteps(SentAgain(),
          [MonitorStep(M.Advance(1)), MonitorStep(M.HandOff(0, 0)), MonitorStep(M.Poll(0, M.Receipt(1)))],
          Watching(SentAgain(), [M.Idle, M.Gone], [0], WATCHED),
          Watching(SentAgain(), [M.Polling(0), M.Gone], [], WATCHED),
          Watching(SentAgain(), [M.Writing(0, Confirmed), M.Gone], [], POLLED));
  }

  lemma MonitorConfirms()
    ensures Reaches(CFG, SentAgain(),
                    [MonitorStep(M.Advance(1)), MonitorStep(M.HandOff(0, 0)), MonitorStep(M.Poll(0, M.Receipt(1)))]
                    + [MonitorStep(M.Record(0, true))], Watched())
  {
    var s := Watching(SentAgain(), [M.Writing(0, Confirmed), M.Gone], [], POLLED);
    MonitorPolls();
    Confirms(s);
    OneStep(s, MonitorStep(M.Record(0, true)), Watched());
    Further(DisciplinedStep(CFG), SentAgain(),
                   [MonitorStep(M.Advance(1)), MonitorStep(M.HandOff(0, 0)), MonitorStep(M.Poll(0, M.Receipt(1)))],
                   s, [MonitorStep(M.Record(0, true))], Watched());
  }

  lemma Confirms(s: State)
    requires s == Watching(SentAgain(), [M.Writing(0, Confirmed), M.Gone], [], POLLED)
    ensures Steps(CFG, s, MonitorStep(M.Record(0, true)), Watched())
  {
    assert [POLLED][0 := POLLED.(fate := M.Settled(Confirmed))] == [POLLED.(fate := M.Settled(Confirmed))];
    assert [M.Writing(0, Confirmed), M.Gone][0 := M.Deleting(0)] == [M.Deleting(0), M.Gone];
    assert TableOf(Resend, "full")[1 := Row(TX, Confirmed, "")] == TableOf(Confirmed, "");
    assert s.abandoned + {} == s.abandoned;
  }

  /** The third call is accepted too. */
  function AcceptedAgain(): State {
    Watched().(sender := S.State([Back(Some("full")), Back(None)] + [Heard(None)], [], [], [S.Idle]))
  }

  lemma ThirdAnswer()
    ensures Reaches(CFG, Watched(), AnswerSteps(2, None), AcceptedAgain())
  {
    CallIsAnswered(Watched(), [Back(Some("full")), Back(None)], None);
  }

  /** Its write succeeds. */
  const OVERWRITE := SenderStep(S.Resume(2, true))

  lemma TheStatusIsOverwritten()
    ensures Wf(AcceptedAgain()) && Enabled(CFG, AcceptedAgain(), OVERWRITE) && Disciplined(AcceptedAgain(), OVERWRITE)
    ensures Apply(CFG, AcceptedAgain(), OVERWRITE).table == TableOf(Sent, "")
  {
    assert TableOf(Confirmed, "")[1 := Row(TX, Sent, "")] == TableOf(Sent, "");
  }

  lemma UpToTheFailure() returns (steps: seq<Action>)
    ensures Reaches(CFG, Start(), steps, Accepted())
  {
    var first := [Insert(TX, true), SendArrived(0)] + AnswerSteps(0, Some("full")) + [SenderStep(S.Resume(0, true))];
    var second := [RequestResend(1), LoadResend([TX]), SendResend];
    FirstCall();
    SecondCall();
    SecondAnswer();
    Further(DisciplinedStep(CFG), Rejected(), second, Resent(), AnswerSteps(1, None), Accepted());
    Further(DisciplinedStep(CFG), Start(), first, Rejected(), second + AnswerSteps(1, None), Accepted());
    steps := first + (second + AnswerSteps(1, None));
  }

  lemma FromTheFailure() returns (steps: seq<Action>)
    ensures Reaches(CFG, Unwritten(), steps, AcceptedAgain())
  {
    var third := [SenderStep(S.Resume(1, true)), ResendDone, LoadResend([TX])] + [SendResend];
    var watch := [MonitorStep(M.Advance(1)), MonitorStep(M.HandOff(0, 0)), MonitorStep(M.Poll(0, M.Receipt(1)))]
                 + [MonitorStep(M.Record(0, true))];
    ThirdCall();
    MonitorConfirms();
    ThirdAnswer();
    Further(DisciplinedStep(CFG), SentAgain(), watch, Watched(), AnswerSteps(2, None), AcceptedAgain());
    Further(DisciplinedStep(CFG), Unwritten(), third, SentAgain(), watch + AnswerSteps(2, None), AcceptedAgain());
    steps := third + (watch + AnswerSteps(2, None));
  }

  /**
   A run from the start in which a single assumption fails, once: the write of the sent status of a row that is
   being resent. After it the transaction is sent and accepted a second time, and its row, confirmed meanwhile,
   is set back to sent: a terminal status is overwritten, on an edge the life cycle does not have.
   */
  lemma FailedWriteOverwritesATerminalStatus()
    returns (before: seq<Action>, s: State, after: seq<Action>, t: State)
    ensures Init(CFG, Start()) && Reaches(CFG, Start(), before, s)
    ensures Wf(s) && Enabled(CFG, s, FAIL) && !Disciplined(s, FAIL)
    ensures |s.sender.calls| == 2 && s.sender.calls[1].pc.WritingSent? && 1 in s.table && s.table[1].status == Resend
    ensures Reaches(CFG, Apply(CFG, s, FAIL), after, t)
    ensures |t.sender.calls| == 3 && t.sender.calls[1].l2Tx == t.sender.calls[2].l2Tx == TX
    ensures t.sender.calls[1].rpcs == t.sender.calls[2].rpcs == [S.Rpc(TX.encoded, None)]
    ensures Wf(t) && Enabled(CFG, t, OVERWRITE) && Disciplined(t, OVERWRITE)
    ensures
      var u := Apply(CFG, t, OVERWRITE);
      && 1 in t.table && 1 in u.table && Terminal(t.table[1].status) && u.table[1].status == Sent
      && !Edge(t.table[1].status, u.table[1].status)
  {
    before := UpToTheFailure();
    s := Accepted();
    TheWriteFails();
    after := FromTheFailure();
    t := AcceptedAgain();
    TheStatusIsOverwritten();
  }
}
