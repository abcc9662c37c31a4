/**
 The monitor's methods as the code writes them, each running alone on the shared list, table and channel.
 Their interleavings are the subject of MonitorMachine; the answers of node, database and clock are arguments.
 */
module MonitorLoop {
  import opened Wrappers
  import opened Types
  import opened RetryOrder
  import opened Sequences
  import opened RequestList
  import opened StableOrder
  import opened Pool
  import M = MonitorMachine

  /** The dispatcher lets go of the request: it has outlived its time, or its retry is due. */
  predicate Ready(request: MonitorRequest, lifeTime: int, now: int)
    reads request
  {
    request.l2Tx.receivedAt + lifeTime < now || request.nextRetry < now
  }

  /** The length of the longest prefix of requests the dispatcher lets go of. */
  function LeadingReady(requests: seq<MonitorRequest>, lifeTime: int, now: int): (n: nat)
    reads requests
    ensures n <= |requests|
    ensures forall i :: 0 <= i < n ==> Ready(requests[i], lifeTime, now)
    ensures n < |requests| ==> !Ready(requests[n], lifeTime, now)
  {
    if requests == [] || !Ready(requests[0], lifeTime, now) then 0
    else 1 + LeadingReady(requests[1..], lifeTime, now)
  }

  /** Those of the requests that are polled again, in their order. */
  function Requeued(requests: seq<MonitorRequest>, lifeTime: int, now: int): seq<MonitorRequest> {
    if requests == [] then []
    else
      var last := requests[|requests| - 1];
      Requeued(requests[..|requests| - 1], lifeTime, now) + if IsExpired(last.l2Tx, lifeTime, now) then [] else [last]
  }

  /** The table after the expiry writes of the requests; `works` are the ids whose write succeeds. */
  function ExpireAll(table: Table, requests: seq<MonitorRequest>, lifeTime: int, now: int, works: set<nat>): Table {
    if requests == [] then table
    else
      var k := |requests| - 1;
      var before := ExpireAll(table, requests[..k], lifeTime, now, works);
      if IsExpired(requests[k].l2Tx, lifeTime, now) && requests[k].l2Tx.id in works
      then SetStatus(before, requests[k].l2Tx.id, Expired, "") else before
  }

  /** The requests polled again are exactly those whose life time is not over. */
  lemma {:induction false} RequeuedMeans(requests: seq<MonitorRequest>, lifeTime: int, now: int,
                                         request: MonitorRequest)
    ensures request in Requeued(requests, lifeTime, now)
       <==> request in requests && request.l2Tx.receivedAt + lifeTime >= now
  {
    if requests != [] {
      RequeuedMeans(requests[..|requests| - 1], lifeTime, now, request);
    }
  }

  /** What a burst that let go of the requests has done to senders and table. */
  predicate Released(requests: seq<MonitorRequest>, lifeTime: int, now: int, works: set<nat>,
                     senders: seq<MonitorRequest>, table: Table, senders': seq<MonitorRequest>, table': Table)
  {
    && senders' == senders + Requeued(requests, lifeTime, now)
    && table' == ExpireAll(table, requests, lifeTime, now, works)
  }

  lemma OneMoreReleased(was: seq<MonitorRequest>, k: nat, lifeTime: int, now: int, works: set<nat>,
                        senders: seq<MonitorRequest>, table: Table, senders': seq<MonitorRequest>, table': Table)
    returns (sendersNext: seq<MonitorRequest>, tableNext: Table)
    requires k < |was|
    requires Released(was[..k], lifeTime, now, works, senders, table, senders', table')
    ensures sendersNext == if IsExpired(was[k].l2Tx, lifeTime, now) then senders' else senders' + [was[k]]
    ensures tableNext == if IsExpired(was[k].l2Tx, lifeTime, now) && was[k].l2Tx.id in works
                         then SetStatus(table', was[k].l2Tx.id, Expired, "") else table'
    ensures Released(was[..k + 1], lifeTime, now, works, senders, table, sendersNext, tableNext)
  {
    sendersNext := if IsExpired(was[k].l2Tx, lifeTime, now) then senders' else senders' + [was[k]];
    tableNext := if IsExpired(was[k].l2Tx, lifeTime, now) && was[k].l2Tx.id in works
                 then SetStatus(table', was[k].l2Tx.id, Expired, "") else table';
    assert was[..k + 1][..k] == was[..k];
  }

  /** Exactly the rows of expired requests whose write worked become expired; every other row stays as it was. */
  lemma {:induction false} ExpireAllMeans(table: Table, requests: seq<MonitorRequest>, lifeTime: int, now: int,
                                          works: set<nat>, id: nat)
    requires id in table
    ensures id in ExpireAll(table, requests, lifeTime, now, works)
    ensures
      ExpireAll(table, requests, lifeTime, now, works)[id]
      == if id in works && exists i :: 0 <= i < |requests| && requests[i].l2Tx.id == id
                                       && requests[i].l2Tx.receivedAt + lifeTime < now
         then table[id].(status := Expired, error := "") else table[id]
  {
    if requests != [] {
      ExpireAllMeans(table, requests[..|requests| - 1], lifeTime, now, works, id);
    }
  }

  /** On a valid list the search for the request at index 0 finds index 0. */
  lemma FirstIsLocated(l: MonitorRequestList)
    requires l.Valid() && l.sorted != []
    ensures l.Covered() && l.list[l.sorted[0].l2Tx.id] == l.sorted[0]
    ensures Locate(l.Keys(), l.Entries(), l.sorted[0].ToEntry()) == Some(0)
  {
    AgreedEntries(l.list, l.sorted);
    FirstOfMilliIsHit(l.Entries(), 0);
  }

  /** Nothing is overdue by a millisecond. */
  predicate Recent(requests: seq<MonitorRequest>, now: int)
    reads requests
  {
    forall i :: 0 <= i < |requests| ==> requests[i].nextRetry > now - 1_000_000
  }

  lemma RestIsRecent(l: MonitorRequestList, now: int)
    requires l.Valid() && (l.sorted != [] ==> l.sorted[0].nextRetry >= now)
    ensures Recent(l.sorted, now)
  {
    forall i | 0 <= i < |l.sorted|
      ensures l.sorted[i].nextRetry > now - 1_000_000
    {
      assert l.Entries()[0].Milli() <= l.Entries()[i].Milli();
      EarlierMilliIsEarlier(l.sorted[0].nextRetry, l.sorted[i].nextRetry);
    }
  }

  // ---------------------------------------------------------------- what the monitor tracks, on values

  /** The listed entries, and the transactions of the requests on their way to the channel. */
  datatype Tracking = Tracking(listed: seq<Entry>, sent: seq<L2Transaction>)

  function TxsOf(requests: seq<MonitorRequest>): (l2Txs: seq<L2Transaction>)
    ensures |l2Txs| == |requests|
    ensures forall i :: 0 <= i < |requests| ==> l2Txs[i] == requests[i].l2Tx
  {
    seq(|requests|, i requires 0 <= i < |requests| => requests[i].l2Tx)
  }

  /** A transaction handed over at the instant `now`. */
  datatype Handover = Handover(l2Tx: L2Transaction, now: int) {
    /** What is listed for it with an initial wait: due that long after it was handed over. */
    function FirstEntry(initialWait: int): Entry {
      Entry(l2Tx.id, l2Tx.hash, now + initialWait)
    }
  }

  function Handovers(l2Txs: seq<L2Transaction>, nows: seq<int>): (hs: seq<Handover>)
    requires |nows| == |l2Txs|
    ensures |hs| == |l2Txs| && forall i :: 0 <= i < |l2Txs| ==> hs[i] == Handover(l2Txs[i], nows[i])
  {
    seq(|l2Txs|, i requires 0 <= i < |l2Txs| => Handover(l2Txs[i], nows[i]))
  }

  function Track(t: Tracking, initialWait: int, h: Handover): Tracking {
    if initialWait <= 0 then t.(sent := t.sent + [h.l2Tx])
    else if Has(t.listed, h.l2Tx.id) then t
    else t.(listed := Insert(t.listed, h.FirstEntry(initialWait)))
  }

  /** One transaction after the other. */
  function TrackAll(t: Tracking, initialWait: int, hs: seq<Handover>): Tracking {
    if hs == [] then t else Track(TrackAll(t, initialWait, hs[..|hs| - 1]), initialWait, hs[|hs| - 1])
  }

  lemma TrackOneMore(t: Tracking, initialWait: int, hs: seq<Handover>, h: Handover)
    ensures TrackAll(t, initialWait, hs + [h]) == Track(TrackAll(t, initialWait, hs), initialWait, h)
  {
    assert (hs + [h])[..|hs|] == hs;
  }

  lemma TrackNext(t: Tracking, initialWait: int, hs: seq<Handover>, n: nat)
    requires n < |hs|
    ensures TrackAll(t, initialWait, hs[..n + 1]) == Track(TrackAll(t, initialWait, hs[..n]), initialWait, hs[n])
  {
    assert hs[..n + 1] == hs[..n] + [hs[n]];
    TrackOneMore(t, initialWait, hs[..n], hs[n]);
  }

  /** Without an initial wait all of them go to the channel, in order, once for each time they are handed over. */
  lemma {:induction false} TrackAllSends(t: Tracking, initialWait: int, hs: seq<Handover>)
    requires initialWait <= 0
    ensures TrackAll(t, initialWait, hs).listed == t.listed
    ensures TrackAll(t, initialWait, hs).sent == t.sent + seq(|hs|, i requires 0 <= i < |hs| => hs[i].l2Tx)
  {
    if hs != [] {
      TrackAllSends(t, initialWait, hs[..|hs| - 1]);
    }
  }

  lemma InsertedMembers(es: seq<Entry>, e: Entry)
    ensures forall x :: x in Insert(es, e) <==> x in es || x == e
    ensures forall id :: Has(Insert(es, e), id) <==> Has(es, id) || id == e.id
  {
    var u := UpperBound(Millis(es), e.Milli());
    var added := Insert(es, e);
    assert added[u] == e && es == es[..u] + es[u..];
    forall id
      ensures Has(added, id) <==> Has(es, id) || id == e.id
    {
      if i :| 0 <= i < |es| && es[i].id == id {
        assert added[if i < u then i else i + 1].id == id;
      }
    }
  }

  /** One transaction is handed over for this entry. */
  predicate EntryOf(hs: seq<Handover>, initialWait: int, e: Entry) {
    exists i :: 0 <= i < |hs| && e == Entry(hs[i].l2Tx.id, hs[i].l2Tx.hash, hs[i].now + initialWait)
  }

  predicate HandsId(hs: seq<Handover>, id: nat) {
    exists i :: 0 <= i < |hs| && hs[i].l2Tx.id == id
  }

  lemma HandsOneMore(hs: seq<Handover>, initialWait: int, id: nat, e: Entry)
    requires hs != []
    ensures HandsId(hs, id) <==> HandsId(hs[..|hs| - 1], id) || hs[|hs| - 1].l2Tx.id == id
    ensures EntryOf(hs[..|hs| - 1], initialWait, e) || e == hs[|hs| - 1].FirstEntry(initialWait) ==>
              EntryOf(hs, initialWait, e)
  {
    var front := hs[..|hs| - 1];
    if EntryOf(front, initialWait, e) {
      var i :| 0 <= i < |front| && e == Entry(front[i].l2Tx.id, front[i].l2Tx.hash, front[i].now + initialWait);
      assert hs[i] == front[i];
    }
  }

  /**
   With an initial wait nothing goes to the channel: the listed ids are the old ones and those handed over, what
   was listed stays, and every new entry is for one of the transactions, due its initial wait after that instant.
   */
  lemma {:induction false} TrackAllLists(t: Tracking, initialWait: int, hs: seq<Handover>, id: nat, e: Entry)
    requires initialWait > 0
    ensures
      var after := TrackAll(t, initialWait, hs);
      && after.sent == t.sent
      && (Has(after.listed, id) <==> Has(t.listed, id) || HandsId(hs, id))
      && (e in t.listed ==> e in after.listed)
      && (e in after.listed ==> e in t.listed || EntryOf(hs, initialWait, e))
  {
    if hs != [] {
      var before, last := TrackAll(t, initialWait, hs[..|hs| - 1]), hs[|hs| - 1];
      TrackAllLists(t, initialWait, hs[..|hs| - 1], id, e);
      InsertedMembers(before.listed, last.FirstEntry(initialWait));
      HandsOneMore(hs, initialWait, id, e);
    }
  }

  class Monitor {
    const cfg: M.Config
    const requestRetryList: MonitorRequestList
    const poolDB: PoolDB

    /** The requests that goroutines were started for, to send them to the channel. */
    var senders: seq<MonitorRequest>
    var signals: nat

    ghost predicate Valid()
      reads this, requestRetryList, requestRetryList.sorted, poolDB
    {
      requestRetryList.Valid() && poolDB.Valid()
    }

    function Tracked(): Tracking
      reads this, requestRetryList, requestRetryList.sorted
    {
      Tracking(requestRetryList.Entries(), TxsOf(senders))
    }

    constructor (cfg: M.Config, poolDB: PoolDB)
      requires poolDB.Valid()
      ensures Valid() && this.cfg == cfg && this.poolDB == poolDB
      ensures fresh(requestRetryList) && requestRetryList.sorted == [] && senders == []
    {
      this.cfg := cfg;
      this.poolDB := poolDB;
      requestRetryList := new MonitorRequestList();
      senders := [];
      signals := 0;
    }

    /** A new transaction is listed for its first poll, or sent to the workers at once. */
    method AddL2Transaction(l2Tx: L2Transaction, now: int)
      requires Valid()
      modifies this, requestRetryList
      ensures Valid() && Tracked() == Track(old(Tracked()), cfg.initialWait, Handover(l2Tx, now))
      ensures cfg.initialWait <= 0 ==>
                && requestRetryList.list == old(requestRetryList.list)
                && requestRetryList.sorted == old(requestRetryList.sorted)
                && exists request: MonitorRequest ::
                     fresh(request) && request.l2Tx == l2Tx && senders == old(senders) + [request]
      ensures cfg.initialWait > 0 ==>
                && senders == old(senders)
                && (l2Tx.id in old(requestRetryList.list) ==>
                      requestRetryList.Entries() == old(requestRetryList.Entries()))
                && (l2Tx.id !in old(requestRetryList.list) ==>
                      requestRetryList.Entries()
                      == Insert(old(requestRetryList.Entries()), Entry(l2Tx.id, l2Tx.hash, now + cfg.initialWait)))
    {
      ghost var t := Tracked();
      var request := new MonitorRequest(l2Tx, M.ZERO_TIME);
      if cfg.initialWait > 0 {
        request.nextRetry := now + cfg.initialWait;
        ghost var e := Entry(l2Tx.id, l2Tx.hash, now + cfg.initialWait);
        assert Tracked() == t && request.ToEntry() == e;
        AddRequestToRetryList(request);
        assert TxsOf(senders) == t.sent;
      } else {
        EnqueueMonitorRequest(request);
        assert Tracked() == Tracking(t.listed, t.sent + [l2Tx]);
      }
    }

    method EnqueueMonitorRequest(request: MonitorRequest)
      modifies this`senders
      ensures senders == old(senders) + [request]
    {
      senders := senders + [request];
    }

    /** Lists the request unless its id is listed, and signals when the list has one entry. */
    method AddRequestToRetryList(request: MonitorRequest)
      requires requestRetryList.Covered()
      modifies this`signals, requestRetryList
      ensures old(requestRetryList.Valid()) ==> requestRetryList.Valid()
      ensures request.l2Tx.id in old(requestRetryList.list) ==>
                && requestRetryList.list == old(requestRetryList.list)
                && requestRetryList.sorted == old(requestRetryList.sorted)
      ensures request.l2Tx.id !in old(requestRetryList.list) ==>
                requestRetryList.list == old(requestRetryList.list)[request.l2Tx.id := request]
      ensures old(requestRetryList.Valid()) ==>
                requestRetryList.Entries()
                == if Has(old(requestRetryList.Entries()), request.l2Tx.id) then old(requestRetryList.Entries())
                   else Insert(old(requestRetryList.Entries()), request.ToEntry())
      ensures signals == old(signals) + if |requestRetryList.sorted| == 1 then 1 else 0
    {
      var added := requestRetryList.Add(request);
      var n := requestRetryList.Len();
      if n == 1 {
        signals := signals + 1;
      }
    }

    /** list.delete of the request read at index 0, with nothing in between: it removes index 0. */
    method DeleteFirst(request: MonitorRequest)
      requires requestRetryList.Valid() && requestRetryList.sorted != [] && request == requestRetryList.sorted[0]
      modifies requestRetryList
      ensures requestRetryList.Valid() && requestRetryList.sorted == old(requestRetryList.sorted)[1..]
    {
      FirstIsLocated(requestRetryList);
      var deleted := requestRetryList.Delete(request);
    }

    /**
     Stamps the next retry in place and lists the request. For an unlisted id the list stays valid; for a
     listed one the add is refused, and the stamp may have changed a key under the searches.
     */
    method ScheduleRequestRetry(request: MonitorRequest, now: int)
      requires Valid()
      modifies request`nextRetry, this`signals, requestRetryList
      ensures request.nextRetry == now + cfg.retryWait
      ensures request.l2Tx.id !in old(requestRetryList.list) ==>
                && Valid()
                && requestRetryList.list == old(requestRetryList.list)[request.l2Tx.id := request]
                && requestRetryList.Entries() == Insert(old(requestRetryList.Entries()), request.ToEntry())
      ensures request.l2Tx.id in old(requestRetryList.list) ==>
                && requestRetryList.list == old(requestRetryList.list)
                && requestRetryList.sorted == old(requestRetryList.sorted)
    {
      AgreedEntries(requestRetryList.list, requestRetryList.sorted);
      request.nextRetry := now + cfg.retryWait;
      AddRequestToRetryList(request);
    }

    /** list.delete after a final status: nothing happens unless the id is listed. */
    method DeleteFinished(request: MonitorRequest)
      requires requestRetryList.Valid()
      modifies requestRetryList
      ensures request.l2Tx.id !in old(requestRetryList.list) ==>
                && requestRetryList.Valid()
                && requestRetryList.list == old(requestRetryList.list)
                && requestRetryList.sorted == old(requestRetryList.sorted)
                && requestRetryList.Entries() == old(requestRetryList.Entries())
      ensures request.l2Tx.id in old(requestRetryList.list) ==>
                var hit := Locate(old(requestRetryList.Keys()), old(requestRetryList.Entries()),
                                  old(requestRetryList.list[request.l2Tx.id].ToEntry()));
                if hit.Some? then
                  && requestRetryList.list == old(requestRetryList.list) - {request.l2Tx.id}
                  && requestRetryList.sorted == RemoveAt(old(requestRetryList.sorted), hit.value)
                else
                  && requestRetryList.list == old(requestRetryList.list)
                  && requestRetryList.sorted == old(requestRetryList.sorted)
    {
      var deleted := requestRetryList.Delete(request);
    }

    /**
     One poll: `receipt` is the node's answer. A request whose id is not listed is listed again, unless a
     final status was written: then the list is left as it was. For an id that is listed the stamp is all that
     happens without a final status, and after one the listed entry that `delete` locates is removed.
     */
    method WorkerProcessRequest(request: MonitorRequest, receipt: Option<nat>, works: bool, now: int)
      requires Valid()
      modifies request`nextRetry, this`signals, requestRetryList, poolDB
      ensures poolDB.table
           == if receipt.Some? && works
              then SetStatus(old(poolDB.table), request.l2Tx.id, if receipt.value == 0 then Failed else Confirmed, "")
              else old(poolDB.table)
      ensures poolDB.table.Keys == old(poolDB.table).Keys
      ensures forall id :: id in old(poolDB.table) ==>
                poolDB.table[id]
                == if receipt.Some? && works && id == request.l2Tx.id
                   then Row(old(poolDB.table)[id].l2Tx, if receipt.value == 0 then Failed else Confirmed, "")
                   else old(poolDB.table)[id]
      ensures request.l2Tx.id !in old(requestRetryList.list) ==> Valid()
      ensures request.l2Tx.id !in old(requestRetryList.list) && receipt.Some? && works ==>
                && requestRetryList.list == old(requestRetryList.list)
                && requestRetryList.sorted == old(requestRetryList.sorted)
                && requestRetryList.Entries() == old(requestRetryList.Entries())
      ensures request.l2Tx.id !in old(requestRetryList.list) && !(receipt.Some? && works) ==>
                && request.nextRetry == now + cfg.retryWait
                && requestRetryList.list == old(requestRetryList.list)[request.l2Tx.id := request]
                && requestRetryList.Entries() == Insert(old(requestRetryList.Entries()), request.ToEntry())
      ensures request.l2Tx.id in old(requestRetryList.list) && !(receipt.Some? && works) ==>
                && request.nextRetry == now + cfg.retryWait
                && requestRetryList.list == old(requestRetryList.list)
                && requestRetryList.sorted == old(requestRetryList.sorted)
      ensures request.l2Tx.id in old(requestRetryList.list) && receipt.Some? && works ==>
                && request.nextRetry == old(request.nextRetry)
                && var hit := Locate(old(requestRetryList.Keys()), old(requestRetryList.Entries()),
                                     old(requestRetryList.list[request.l2Tx.id].ToEntry()));
                   if hit.Some? then
                     && requestRetryList.list == old(requestRetryList.list) - {request.l2Tx.id}
                     && requestRetryList.sorted == RemoveAt(old(requestRetryList.sorted), hit.value)
                   else
                     && requestRetryList.list == old(requestRetryList.list)
                     && requestRetryList.sorted == old(requestRetryList.sorted)
    {
      match receipt
      case None =>
        ScheduleRequestRetry(request, now);
      case Some(status) =>
        var l2TxStatus := if status == 0 then Failed else Confirmed;
        var ok := poolDB.UpdateL2TransactionStatus(request.l2Tx.id, l2TxStatus, "", works);
        if !ok {
          ScheduleRequestRetry(request, now);
        } else {
          DeleteFinished(request);
        }
    }

    /**
     One round of the dispatcher on a list that is not empty: an expired head is written to the table and
     removed, a due one is removed and sent to the workers, and for any other it sleeps until it is due.
     */
    method CheckFirstRequest(now: int, works: set<nat>) returns (sleep: Option<int>)
      requires Valid() && requestRetryList.sorted != []
      modifies this`senders, requestRetryList, poolDB
      ensures Valid()
      ensures
        var first := old(requestRetryList.sorted[0]);
        if first.l2Tx.receivedAt + cfg.lifeTimeMax < now then
          && sleep == None && senders == old(senders) && requestRetryList.sorted == old(requestRetryList.sorted)[1..]
          && poolDB.table == (if first.l2Tx.id in works then SetStatus(old(poolDB.table), first.l2Tx.id, Expired, "")
                              else old(poolDB.table))
          && poolDB.table.Keys == old(poolDB.table).Keys
          && (forall id :: id in old(poolDB.table) ==>
                poolDB.table[id]
                == if id == first.l2Tx.id && id in works then Row(old(poolDB.table)[id].l2Tx, Expired, "")
                   else old(poolDB.table)[id])
        else if first.nextRetry < now then
          && sleep == None && senders == old(senders) + [first]
          && requestRetryList.sorted == old(requestRetryList.sorted)[1..] && poolDB.table == old(poolDB.table)
        else
          && sleep == Some(first.nextRetry - now) && senders == old(senders)
          && requestRetryList.sorted == old(requestRetryList.sorted) && poolDB.table == old(poolDB.table)
          && Recent(requestRetryList.sorted, now)
    {
      var request := requestRetryList.GetByIndex(0);
      if IsExpired(request.l2Tx, cfg.lifeTimeMax, now) {
        var ok := poolDB.UpdateL2TransactionStatus(request.l2Tx.id, Expired, "", request.l2Tx.id in works);
        DeleteFirst(request);
        sleep := None;
      } else if request.nextRetry < now {
        DeleteFirst(request);
        EnqueueMonitorRequest(request);
        sleep := None;
      } else {
        RestIsRecent(requestRetryList, now);
        sleep := Some(request.nextRetry - now);
      }
    }

    /** The same round as part of a burst that began with the slice `was` and has let go of `k` requests of it. */
    method CheckNextRequest(now: int, works: set<nat>, ghost was: seq<MonitorRequest>, ghost k: nat,
                            ghost waiting: seq<MonitorRequest>, ghost table: Table)
      returns (sleep: Option<int>)
      requires Valid() && k < |was| && requestRetryList.sorted == was[k..]
      requires Released(was[..k], cfg.lifeTimeMax, now, works, waiting, table, senders, poolDB.table)
      modifies this`senders, requestRetryList, poolDB
      ensures Valid() && (sleep == None <==> old(Ready(was[k], cfg.lifeTimeMax, now)))
      ensures sleep == None ==>
                && requestRetryList.sorted == was[k + 1..]
                && Released(was[..k + 1], cfg.lifeTimeMax, now, works, waiting, table, senders, poolDB.table)
      ensures sleep.Some? ==>
                && sleep == Some(was[k].nextRetry - now) && requestRetryList.sorted == was[k..]
                && Released(was[..k], cfg.lifeTimeMax, now, works, waiting, table, senders, poolDB.table)
                && Recent(requestRetryList.sorted, now)
    {
      ghost var sendersNext, tableNext :=
        OneMoreReleased(was, k, cfg.lifeTimeMax, now, works, waiting, table, senders, poolDB.table);
      assert requestRetryList.sorted[0] == was[k] && requestRetryList.sorted[1..] == was[k + 1..];
      sleep := CheckFirstRequest(now, works);
      assert sleep == None ==> senders == sendersNext && poolDB.table == tableNext;
    }

    /**
     The dispatcher at one clock reading, until it sleeps or waits: it removes exactly the longest prefix of
     requests that are expired or due, writes the expired ones to the table, starts a sender for each other
     one in order, and leaves nothing that is overdue by a millisecond. `sleep` is None when it waits.
     */
    method CheckMonitorRequestRetries(now: int, works: set<nat>) returns (sleep: Option<int>)
      requires Valid()
      modifies this`senders, requestRetryList, poolDB
      ensures Valid()
      ensures
        var was, n := old(requestRetryList.sorted), old(LeadingReady(requestRetryList.sorted, cfg.lifeTimeMax, now));
        && requestRetryList.sorted == was[n..]
        && Released(was[..n], cfg.lifeTimeMax, now, works, old(senders), old(poolDB.table), senders, poolDB.table)
        && sleep == if n < |was| then Some(was[n].nextRetry - now) else None
      ensures Recent(requestRetryList.sorted, now)
    {
      ghost var was, waiting, table, k := requestRetryList.sorted, senders, poolDB.table, 0;
      ghost var n := LeadingReady(was, cfg.lifeTimeMax, now);
      while true
        invariant 0 <= k <= n <= |was| && requestRetryList.sorted == was[k..]
        invariant Valid()
        invariant Released(was[..k], cfg.lifeTimeMax, now, works, waiting, table, senders, poolDB.table)
        decreases |was| - k
      {
        var length := requestRetryList.Len();
        if length == 0 {
          assert k == n == |was|;
          return None;
        }
        assert k < n <==> Ready(was[k], cfg.lifeTimeMax, now);
        sleep := CheckNextRequest(now, works, was, k, waiting, table);
        if sleep.Some? {
          return;
        }
        k := k + 1;
      }
    }

    /**
     The startup load: every sent row the query delivers is handed over once, in order, each at the instant
     `nows` has for it; a failed query hands over nothing. The table stays as it is.
     */
    method MonitorL2TransactionsFromPoolDB(cursor: seq<nat>, scans: seq<bool>, nows: seq<int>)
      requires Valid() && |scans| == |nows| == |cursor|
      requires forall i :: 0 <= i < |cursor| ==> cursor[i] in poolDB.table && poolDB.table[cursor[i]].status == Sent
      requires forall i, j :: 0 <= i < j < |cursor| ==> cursor[i] != cursor[j]
      modifies this, requestRetryList
      ensures Valid()
      ensures Tracked()
           == if forall i :: 0 <= i < |scans| ==> scans[i]
              then TrackAll(old(Tracked()), cfg.initialWait, Handovers(RowsAt(old(poolDB.table), cursor), nows))
              else old(Tracked())
    {
      var loaded := poolDB.GetL2TransactionsByStatus(Sent, cursor, scans);
      if loaded.Some? {
        assert loaded.value == RowsAt(poolDB.table, cursor);
        ghost var hs := Handovers(loaded.value, nows);
        for n := 0 to |loaded.value|
          invariant Valid() && Tracked() == TrackAll(old(Tracked()), cfg.initialWait, hs[..n])
        {
          TrackNext(old(Tracked()), cfg.initialWait, hs, n);
          AddL2Transaction(loaded.value[n], nows[n]);
        }
        assert hs[..|hs|] == hs;
      }
    }
  }
}
