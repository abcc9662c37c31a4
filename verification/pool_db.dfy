/** The durable transaction table: what an insert, a status update and a query by status do to it. */
module Pool {
  import opened Wrappers
  import opened Types

  datatype Row = Row(l2Tx: L2Transaction, status: Status, error: string)

  type Table = map<nat, Row>

  /** UPDATE ... WHERE id: a missing id is no error and changes nothing. */
  function SetStatus(table: Table, id: nat, status: Status, error: string): Table {
    if id in table then table[id := table[id].(status := status, error := error)] else table
  }

  predicate DistinctIds(txs: seq<L2Transaction>) {
    forall i, j :: 0 <= i < j < |txs| ==> txs[i].id != txs[j].id
  }

  /** Rows of the status, each at most once, in any order; a result set that breaks off early is a part of them. */
  predicate QueryResult(table: Table, status: Status, txs: seq<L2Transaction>) {
    && DistinctIds(txs)
    && forall k :: 0 <= k < |txs| ==>
                     txs[k].id in table && table[txs[k].id].l2Tx == txs[k] && table[txs[k].id].status == status
  }

  predicate Complete(table: Table, status: Status, txs: seq<L2Transaction>) {
    forall id :: id in table && table[id].status == status ==> exists k :: 0 <= k < |txs| && txs[k].id == id
  }

  /** The transactions of the rows with these ids, in order. */
  function RowsAt(table: Table, ids: seq<nat>): (l2Txs: seq<L2Transaction>)
    requires forall i :: 0 <= i < |ids| ==> ids[i] in table
    ensures |l2Txs| == |ids| && forall i :: 0 <= i < |ids| ==> l2Txs[i] == table[ids[i]].l2Tx
  {
    seq(|ids|, i requires 0 <= i < |ids| => table[ids[i]].l2Tx)
  }

  predicate RowsKeyed(table: Table) {
    forall id :: id in table ==> table[id].l2Tx.id == id && id > 0
  }

  class PoolDB {
    var table: Table
    var lastId: nat

    predicate Valid()
      reads this
    {
      RowsKeyed(table) && forall id :: id in table ==> id <= lastId
    }

    constructor ()
      ensures Valid() && table == map[]
    {
      table := map[];
      lastId := 0;
    }

    /** Inserts a row under an id never used before; a failed insert changes nothing and yields id 0. */
    method AddL2Transaction(tx: L2Transaction, status: Status, works: bool) returns (id: nat)
      requires Valid()
      modifies this
      ensures Valid()
      ensures works ==>
                && id !in old(table) && id > 0
                && table == old(table)[id := Row(tx.(id := id), status, "")]
      ensures !works ==> id == 0 && table == old(table)
    {
      if works {
        lastId := lastId + 1;
        id := lastId;
        table := table[id := Row(tx.(id := id), status, "")];
      } else {
        id := 0;
      }
    }

    method UpdateL2TransactionStatus(id: nat, newStatus: Status, errorMsg: string, works: bool) returns (ok: bool)
      requires Valid()
      modifies this
      ensures Valid() && ok == works
      ensures table == if works then SetStatus(old(table), id, newStatus, errorMsg) else old(table)
      ensures table.Keys == old(table).Keys
      ensures forall k :: k in old(table) ==>
                table[k] == if works && k == id then Row(old(table)[k].l2Tx, newStatus, errorMsg) else old(table)[k]
    {
      if works {
        if id in table {
          table := table[id := table[id].(status := newStatus, error := errorMsg)];
        }
      }
      ok := works;
    }

    /**
     Collects the rows the database delivers: `cursor` lists their ids in the order of delivery and may
     break off early without an error, and the scan of a row may fail.
     */
    method GetL2TransactionsByStatus(status: Status, cursor: seq<nat>, scans: seq<bool>)
      returns (result: Option<seq<L2Transaction>>)
      requires Valid() && |scans| == |cursor|
      requires forall i :: 0 <= i < |cursor| ==> cursor[i] in table && table[cursor[i]].status == status
      requires forall i, j :: 0 <= i < j < |cursor| ==> cursor[i] != cursor[j]
      ensures result.Some? <==> forall i :: 0 <= i < |scans| ==> scans[i]
      ensures result.Some? ==>
                && QueryResult(table, status, result.value) && |result.value| == |cursor|
                && (forall i :: 0 <= i < |cursor| ==> result.value[i] == table[cursor[i]].l2Tx)
                && (Complete(table, status, result.value)
                    <==> forall id :: id in table && table[id].status == status ==> id in cursor)
    {
      var txs := [];
      for n := 0 to |cursor|
        invariant forall i :: 0 <= i < n ==> scans[i]
        invariant |txs| == n && forall i :: 0 <= i < n ==> txs[i] == table[cursor[i]].l2Tx
      {
        if !scans[n] {
          return None;
        }
        txs := txs + [table[cursor[n]].l2Tx];
      }
      assert forall i :: 0 <= i < |txs| ==> txs[i].id == cursor[i];
      return Some(txs);
    }
  }
}
