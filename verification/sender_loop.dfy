/**
 The sender's methods as the code writes them, each running alone on the shared table and monitor. Their
 interleavings are the subject of SenderMachine and System; the answers of sequencer, database and clock are
 arguments.
 */
module SenderLoop {
  import opened Wrappers
  import opened Types
  import opened Sequences
  import opened Pool
  import opened MonitorLoop
  import RetryOrder

  /** What SendL2Transaction writes for an answer of the sequencer; `works` answers the write. */
  function Report(table: Table, id: nat, answer: Option<string>, works: bool): Table {
    if !works then table
    else if answer.Some? then SetStatus(table, id, Invalid, answer.value)
    else SetStatus(table, id, Sent, "")
  }

  /** The table after a loop over the rows; `works` are the ids whose write succeeds. */
  function ReportAll(table: Table, l2Txs: seq<L2Transaction>, answers: seq<Option<string>>, works: set<nat>): Table
    requires |answers| == |l2Txs|
  {
    if l2Txs == [] then table
    else
      var k := |l2Txs| - 1;
      Report(ReportAll(table, l2Txs[..k], answers[..k], works), l2Txs[k].id, answers[k], l2Txs[k].id in works)
  }

  lemma ReportOneMore(table: Table, l2Txs: seq<L2Transaction>, answers: seq<Option<string>>, works: set<nat>, k: nat)
    requires k < |l2Txs| == |answers|
    ensures
      ReportAll(table, l2Txs[..k + 1], answers[..k + 1], works)
      == Report(ReportAll(table, l2Txs[..k], answers[..k], works), l2Txs[k].id, answers[k], l2Txs[k].id in works)
  {
    assert l2Txs[..k + 1][..k] == l2Txs[..k] && answers[..k + 1][..k] == answers[..k];
  }

  /** A row outside the loop, or whose write failed, stays as it was. */
  lemma {:induction false} UnreportedStay(table: Table, l2Txs: seq<L2Transaction>, answers: seq<Option<string>>,
                                          works: set<nat>, id: nat)
    requires |answers| == |l2Txs| && id in table
    requires id !in works || forall i :: 0 <= i < |l2Txs| ==> l2Txs[i].id != id
    ensures id in ReportAll(table, l2Txs, answers, works) && ReportAll(table, l2Txs, answers, works)[id] == table[id]
  {
    if l2Txs != [] {
      UnreportedStay(table, l2Txs[..|l2Txs| - 1], answers[..|l2Txs| - 1], works, id);
    }
  }

  /** Each row of the loop ends with the status of its own answer, whatever came before and after it. */
  lemma {:induction false} ReportedByOwnAnswer(table: Table, l2Txs: seq<L2Transaction>, answers: seq<Option<string>>,
                                               works: set<nat>, k: nat)
    requires k < |l2Txs| == |answers| && DistinctIds(l2Txs) && l2Txs[k].id in table && l2Txs[k].id in works
    ensures
      var id, done := l2Txs[k].id, ReportAll(table, l2Txs, answers, works);
      && id in done
      && done[id] == match answers[k]
                     case None => table[id].(status := Sent, error := "")
                     case Some(error) => table[id].(status := Invalid, error := error)
  {
    var last, id := |l2Txs| - 1, l2Txs[k].id;
    if k < last {
      ReportedByOwnAnswer(table, l2Txs[..last], answers[..last], works, k);
    } else {
      UnreportedStay(table, l2Txs[..last], answers[..last], works, id);
    }
  }

  /** After a load that brought every row of its status, and writes that all succeed, none is left in it. */
  lemma LoadEmptiesItsStatus(table: Table, status: Status, l2Txs: seq<L2Transaction>, answers: seq<Option<string>>,
                             works: set<nat>, id: nat)
    requires |answers| == |l2Txs| && QueryResult(table, status, l2Txs) && Complete(table, status, l2Txs)
    requires (status.Pending? || status.Resend?) && forall i :: 0 <= i < |l2Txs| ==> l2Txs[i].id in works
    requires id in table
    ensures id in ReportAll(table, l2Txs, answers, works)
    ensures ReportAll(table, l2Txs, answers, works)[id].status != status
  {
    if i :| 0 <= i < |l2Txs| && l2Txs[i].id == id {
      ReportedByOwnAnswer(table, l2Txs, answers, works, i);
    } else {
      UnreportedStay(table, l2Txs, answers, works, id);
    }
  }

  // ---------------------------------------------------------------- what the monitor is handed

  /** The rows that go with an answer of success, in their order, each with the instant of its own turn. */
  function Accepted(l2Txs: seq<L2Transaction>, answers: seq<Option<string>>, nows: seq<int>): seq<Handover>
    requires |answers| == |nows| == |l2Txs|
  {
    if l2Txs == [] then []
    else
      var k := |l2Txs| - 1;
      Accepted(l2Txs[..k], answers[..k], nows[..k]) + if answers[k] == None then [Handover(l2Txs[k], nows[k])] else []
  }

  /** Exactly the rows answered with success are handed over, each at the instant of its own turn. */
  lemma {:induction false} AcceptedMembers(l2Txs: seq<L2Transaction>, answers: seq<Option<string>>, nows: seq<int>,
                                           h: Handover)
    requires |answers| == |nows| == |l2Txs|
    ensures h in Accepted(l2Txs, answers, nows)
       <==> exists i :: 0 <= i < |l2Txs| && answers[i] == None && h == Handover(l2Txs[i], nows[i])
  {
    if l2Txs != [] {
      AcceptedMembers(l2Txs[..|l2Txs| - 1], answers[..|l2Txs| - 1], nows[..|l2Txs| - 1], h);
    }
  }

  lemma HandOneMore(t: Tracking, initialWait: int, l2Txs: seq<L2Transaction>, answers: seq<Option<string>>,
                    nows: seq<int>, k: nat)
    requires k < |l2Txs| == |answers| == |nows|
    ensures
      var before := TrackAll(t, initialWait, Accepted(l2Txs[..k], answers[..k], nows[..k]));
      TrackAll(t, initialWait, Accepted(l2Txs[..k + 1], answers[..k + 1], nows[..k + 1]))
      == if answers[k] == None then Track(before, initialWait, Handover(l2Txs[k], nows[k])) else before
  {
    assert l2Txs[..k + 1][..k] == l2Txs[..k] && answers[..k + 1][..k] == answers[..k];
    assert nows[..k + 1][..k] == nows[..k];
    var more := if answers[k] == None then [Handover(l2Txs[k], nows[k])] else [];
    assert Accepted(l2Txs[..k + 1], answers[..k + 1], nows[..k + 1])
        == Accepted(l2Txs[..k], answers[..k], nows[..k]) + more;
    assert answers[k].Some? ==> Accepted(l2Txs[..k], answers[..k], nows[..k]) + more
                                == Accepted(l2Txs[..k], answers[..k], nows[..k]);
    TrackOneMore(t, initialWait, Accepted(l2Txs[..k], answers[..k], nows[..k]), Handover(l2Txs[k], nows[k]));
  }

  predicate IsAccepted(l2Txs: seq<L2Transaction>, answers: seq<Option<string>>, l2Tx: L2Transaction)
    requires |answers| == |l2Txs|
  {
    exists i :: 0 <= i < |l2Txs| && answers[i] == None && l2Txs[i] == l2Tx
  }

  /** What is listed or sent anew is for a row answered with success; a rejected row stays out unless it was in. */
  ghost predicate RejectedStayOut(before: Tracking, after: Tracking, l2Txs: seq<L2Transaction>,
                                  answers: seq<Option<string>>)
    requires |answers| == |l2Txs|
  {
    && (forall e :: e in after.listed && e !in before.listed ==>
          exists i :: 0 <= i < |l2Txs| && answers[i] == None && l2Txs[i].id == e.id && l2Txs[i].hash == e.hash)
    && before.sent <= after.sent
    && (forall k :: |before.sent| <= k < |after.sent| ==> IsAccepted(l2Txs, answers, after.sent[k]))
  }

  lemma OnlyAcceptedAreTracked(t: Tracking, initialWait: int, l2Txs: seq<L2Transaction>, answers: seq<Option<string>>,
                               nows: seq<int>)
    requires |answers| == |nows| == |l2Txs|
    ensures RejectedStayOut(t, TrackAll(t, initialWait, Accepted(l2Txs, answers, nows)), l2Txs, answers)
  {
    var hs := Accepted(l2Txs, answers, nows);
    if initialWait <= 0 {
      SendsOnlyAccepted(t, initialWait, l2Txs, answers, nows, TrackAll(t, initialWait, hs));
    } else {
      ListsOnlyAccepted(t, initialWait, l2Txs, answers, nows, TrackAll(t, initialWait, hs));
    }
  }

  lemma SendsOnlyAccepted(t: Tracking, initialWait: int, l2Txs: seq<L2Transaction>, answers: seq<Option<string>>,
                          nows: seq<int>, after: Tracking)
    requires |answers| == |nows| == |l2Txs| && initialWait <= 0
    requires after == TrackAll(t, initialWait, Accepted(l2Txs, answers, nows))
    ensures RejectedStayOut(t, after, l2Txs, answers)
  {
    var hs := Accepted(l2Txs, answers, nows);
    TrackAllSends(t, initialWait, hs);
    assert after.sent[..|t.sent|] == t.sent;
    forall k | |t.sent| <= k < |after.sent|
      ensures IsAccepted(l2Txs, answers, after.sent[k])
    {
      AcceptedMembers(l2Txs, answers, nows, hs[k - |t.sent|]);
      var i :| 0 <= i < |l2Txs| && hs[k - |t.sent|] == Handover(l2Txs[i], nows[i]) && answers[i] == None;
      assert l2Txs[i] == after.sent[k];
    }
  }

  lemma ListsOnlyAccepted(t: Tracking, initialWait: int, l2Txs: seq<L2Transaction>, answers: seq<Option<string>>,
                          nows: seq<int>, after: Tracking)
    requires |answers| == |nows| == |l2Txs| && initialWait > 0
    requires after == TrackAll(t, initialWait, Accepted(l2Txs, answers, nows))
    ensures RejectedStayOut(t, after, l2Txs, answers)
  {
    var hs := Accepted(l2Txs, answers, nows);
    TrackAllLists(t, initialWait, hs, 0, RetryOrder.Entry(0, "", 0));
    forall e | e in after.listed && e !in t.listed
      ensures exists i :: 0 <= i < |l2Txs| && answers[i] == None && l2Txs[i].id == e.id && l2Txs[i].hash == e.hash
    {
      TrackAllLists(t, initialWait, hs, e.id, e);
      var h :| 0 <= h < |hs| && e == RetryOrder.Entry(hs[h].l2Tx.id, hs[h].l2Tx.hash, hs[h].now + initialWait);
      AcceptedMembers(l2Txs, answers, nows, hs[h]);
      var i :| 0 <= i < |l2Txs| && hs[h] == Handover(l2Txs[i], nows[i]) && answers[i] == None;
      assert l2Txs[i].id == e.id && l2Txs[i].hash == e.hash;
    }
  }

  /** `pending` is the counter of the WaitGroup. */
  class SendRequest {
    const l2Tx: L2Transaction
    var pending: int
    var err: Option<string>

    constructor (l2Tx: L2Transaction)
      ensures this.l2Tx == l2Tx && pending == 0 && err == None
    {
      this.l2Tx := l2Tx;
      pending := 0;
      err := None;
    }
  }

  class Sender {
    const poolDB: PoolDB
    const monitor: Monitor

    /** The requests goroutines were started for, to send them to the channel, or in its buffer. */
    var requests: seq<SendRequest>

    ghost predicate Valid()
      reads poolDB, monitor, monitor.requestRetryList, monitor.requestRetryList.sorted, monitor.poolDB
    {
      monitor.Valid() && monitor.poolDB == poolDB
    }

    constructor (poolDB: PoolDB, monitor: Monitor)
      requires monitor.Valid() && monitor.poolDB == poolDB
      ensures Valid() && this.poolDB == poolDB && this.monitor == monitor && requests == []
    {
      this.poolDB := poolDB;
      this.monitor := monitor;
      requests := [];
    }

    method EnqueueSenderRequest(request: SendRequest)
      modifies this`requests
      ensures requests == old(requests) + [request]
    {
      requests := requests + [request];
    }

    /** One turn of a worker: it receives the request at `k`, stores the answer, and completes the WaitGroup. */
    method WorkerTurn(k: nat, answer: Option<string>)
      requires k < |requests|
      modifies this`requests, requests[k]
      ensures requests == RemoveAt(old(requests), k)
      ensures old(requests)[k].err == answer && old(requests)[k].pending == old(requests[k].pending) - 1
    {
      var request := requests[k];
      requests := RemoveAt(requests, k);
      request.err := answer;
      request.pending := request.pending - 1;
    }

    /** The request of a call, from its start to the end of the wait. */
    method Await(l2Tx: L2Transaction, answer: Option<string>) returns (request: SendRequest)
      modifies this`requests
      ensures fresh(request) && request.l2Tx == l2Tx && request.pending == 0 && request.err == answer
      ensures requests == old(requests)
    {
      request := new SendRequest(l2Tx);
      request.pending := request.pending + 1;
      EnqueueSenderRequest(request);
      WorkerTurn(|requests| - 1, answer);
    }

    /**
     Sends the transaction and returns the sequencer's answer; the row gets the status of that answer, and
     the monitor gets the transaction exactly when the answer is success.
     */
    method SendL2Transaction(l2Tx: L2Transaction, answer: Option<string>, works: bool, now: int)
      returns (err: Option<string>)
      requires Valid()
      modifies this`requests, poolDB, monitor, monitor.requestRetryList
      ensures Valid() && err == answer && requests == old(requests)
      ensures poolDB.table == Report(old(poolDB.table), l2Tx.id, answer, works)
      ensures answer.Some? ==>
                && monitor.senders == old(monitor.senders)
                && monitor.requestRetryList.list == old(monitor.requestRetryList.list)
                && monitor.requestRetryList.sorted == old(monitor.requestRetryList.sorted)
      ensures monitor.Tracked()
           == if answer == None then Track(old(monitor.Tracked()), monitor.cfg.initialWait, Handover(l2Tx, now))
              else old(monitor.Tracked())
    {
      var request := Await(l2Tx, answer);
      if request.err.Some? {
        var ok := poolDB.UpdateL2TransactionStatus(l2Tx.id, Invalid, request.err.value, works);
      } else {
        var ok := poolDB.UpdateL2TransactionStatus(l2Tx.id, Sent, "", works);
        monitor.AddL2Transaction(l2Tx, now);
      }
      err := request.err;
    }

    /**
     The loop both loads share, one row after the other, each at its own instant: the monitor is handed exactly
     the rows whose answer is success, once each and in order.
     */
    method SendAll(l2Txs: seq<L2Transaction>, answers: seq<Option<string>>, works: set<nat>, nows: seq<int>)
      requires Valid() && |answers| == |nows| == |l2Txs|
      modifies this`requests, poolDB, monitor, monitor.requestRetryList
      ensures Valid() && requests == old(requests)
      ensures poolDB.table == ReportAll(old(poolDB.table), l2Txs, answers, works)
      ensures monitor.Tracked()
           == TrackAll(old(monitor.Tracked()), monitor.cfg.initialWait, Accepted(l2Txs, answers, nows))
      ensures RejectedStayOut(old(monitor.Tracked()), monitor.Tracked(), l2Txs, answers)
    {
      for n := 0 to |l2Txs|
        invariant Valid() && requests == old(requests)
        invariant poolDB.table == ReportAll(old(poolDB.table), l2Txs[..n], answers[..n], works)
        invariant monitor.Tracked()
               == TrackAll(old(monitor.Tracked()), monitor.cfg.initialWait,
                           Accepted(l2Txs[..n], answers[..n], nows[..n]))
      {
        ReportOneMore(old(poolDB.table), l2Txs, answers, works, n);
        HandOneMore(old(monitor.Tracked()), monitor.cfg.initialWait, l2Txs, answers, nows, n);
        var err := SendL2Transaction(l2Txs[n], answers[n], l2Txs[n].id in works, nows[n]);
      }
      assert l2Txs[..|l2Txs|] == l2Txs && answers[..|l2Txs|] == answers && nows[..|l2Txs|] == nows;
      OnlyAcceptedAreTracked(old(monitor.Tracked()), monitor.cfg.initialWait, l2Txs, answers, nows);
    }

    /**
     The startup load: every pending row the query delivers gets the status of its own answer, and is handed to
     the monitor if and only if that is success; no other row is touched.
     */
    method SendL2TransactionsFromPoolDB(cursor: seq<nat>, scans: seq<bool>, answers: seq<Option<string>>,
                                        works: set<nat>, nows: seq<int>)
      requires Valid() && |scans| == |answers| == |nows| == |cursor|
      requires forall i :: 0 <= i < |cursor| ==> cursor[i] in poolDB.table && poolDB.table[cursor[i]].status == Pending
      requires forall i, j :: 0 <= i < j < |cursor| ==> cursor[i] != cursor[j]
      modifies this`requests, poolDB, monitor, monitor.requestRetryList
      ensures Valid()
      ensures forall i :: 0 <= i < |scans| && !scans[i] ==>
                poolDB.table == old(poolDB.table) && monitor.Tracked() == old(monitor.Tracked())
      ensures (forall i :: 0 <= i < |scans| ==> scans[i]) ==>
                && Loaded(old(poolDB.table), cursor, answers, works, poolDB.table)
                && Handed(old(monitor.Tracked()), monitor.cfg.initialWait, RowsAt(old(poolDB.table), cursor), answers,
                          nows, monitor.Tracked())
    {
      ghost var table := poolDB.table;
      var loaded := poolDB.GetL2TransactionsByStatus(Pending, cursor, scans);
      if loaded.Some? {
        assert loaded.value == RowsAt(table, cursor);
        SendAll(loaded.value, answers, works, nows);
        LoadedRows(table, loaded.value, cursor, answers, works);
      }
    }

    /** One round of the resend loop; it sleeps when the query failed or brought nothing. */
    method CheckL2TransactionsToResend(cursor: seq<nat>, scans: seq<bool>, answers: seq<Option<string>>,
                                       works: set<nat>, nows: seq<int>)
      returns (sleeps: bool)
      requires Valid() && |scans| == |answers| == |nows| == |cursor|
      requires forall i :: 0 <= i < |cursor| ==> cursor[i] in poolDB.table && poolDB.table[cursor[i]].status == Resend
      requires forall i, j :: 0 <= i < j < |cursor| ==> cursor[i] != cursor[j]
      modifies this`requests, poolDB, monitor, monitor.requestRetryList
      ensures Valid()
      ensures sleeps <==> cursor == [] || exists i :: 0 <= i < |scans| && !scans[i]
      ensures sleeps ==> poolDB.table == old(poolDB.table) && monitor.Tracked() == old(monitor.Tracked())
      ensures !sleeps ==>
                && Loaded(old(poolDB.table), cursor, answers, works, poolDB.table)
                && Handed(old(monitor.Tracked()), monitor.cfg.initialWait, RowsAt(old(poolDB.table), cursor), answers,
                          nows, monitor.Tracked())
    {
      ghost var table := poolDB.table;
      var loaded := poolDB.GetL2TransactionsByStatus(Resend, cursor, scans);
      if loaded == None {
        return true;
      }
      assert loaded.value == RowsAt(table, cursor);
      SendAll(loaded.value, answers, works, nows);
      LoadedRows(table, loaded.value, cursor, answers, works);
      return |loaded.value| == 0;
    }
  }

  /** Each row of a load whose write worked has the status and error of its own answer; every other row is as before. */
  predicate Loaded(table: Table, cursor: seq<nat>, answers: seq<Option<string>>, works: set<nat>, table': Table)
    requires |answers| == |cursor|
  {
    && (forall i :: 0 <= i < |cursor| && cursor[i] in table && cursor[i] in works ==>
          && cursor[i] in table'
          && table'[cursor[i]] == match answers[i]
                                  case None => Row(table[cursor[i]].l2Tx, Sent, "")
                                  case Some(error) => Row(table[cursor[i]].l2Tx, Invalid, error))
    && (forall id :: id in table && (id !in cursor || id !in works) ==> id in table' && table'[id] == table[id])
  }

  /** The monitor was handed the rows answered with success and no others. */
  ghost predicate Handed(before: Tracking, initialWait: int, l2Txs: seq<L2Transaction>, answers: seq<Option<string>>,
                         nows: seq<int>, after: Tracking)
    requires |answers| == |nows| == |l2Txs|
  {
    && after == TrackAll(before, initialWait, Accepted(l2Txs, answers, nows))
    && RejectedStayOut(before, after, l2Txs, answers)
  }

  lemma LoadedRows(table: Table, l2Txs: seq<L2Transaction>, cursor: seq<nat>, answers: seq<Option<string>>,
                   works: set<nat>)
    requires |answers| == |l2Txs| == |cursor| && DistinctIds(l2Txs)
    requires forall i :: 0 <= i < |cursor| ==> cursor[i] in table && l2Txs[i].id == cursor[i]
    ensures Loaded(table, cursor, answers, works, ReportAll(table, l2Txs, answers, works))
  {
    var done := ReportAll(table, l2Txs, answers, works);
    forall i | 0 <= i < |cursor| && cursor[i] in works
      ensures cursor[i] in done
      ensures done[cursor[i]] == match answers[i]
                                 case None => Row(table[cursor[i]].l2Tx, Sent, "")
                                 case Some(error) => Row(table[cursor[i]].l2Tx, Invalid, error)
    {
      ReportedByOwnAnswer(table, l2Txs, answers, works, i);
    }
    forall id | id in table && (id !in cursor || id !in works)
      ensures id in done && done[id] == table[id]
    {
      UnreportedStay(table, l2Txs, answers, works, id);
    }
  }
}
