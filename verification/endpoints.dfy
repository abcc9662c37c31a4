/** The endpoint that takes a raw transaction, inserts its row, and has it sent. */
module Server {
  import opened Wrappers
  import opened Types
  import opened Pool
  import Hex
  import opened MonitorLoop
  import SenderLoop

  datatype RpcError = InvalidInput | ParseError | Rejected(message: string)

  /** `hash` is what decoding and signing make of the bytes, None where they cannot be decoded. */
  class Endpoints {
    const poolDB: PoolDB
    const sender: SenderLoop.Sender

    constructor (poolDB: PoolDB, sender: SenderLoop.Sender)
      requires sender.Valid() && sender.poolDB == poolDB
      ensures this.poolDB == poolDB && this.sender == sender
    {
      this.poolDB := poolDB;
      this.sender := sender;
    }

    /** Inserts the row, keeping id 0 if that fails, and sends the transaction under the id it has then. */
    method AddAndSend(tx: L2Transaction, handed: int, inserts: bool, answer: Option<string>, works: bool)
      returns (err: Option<string>)
      requires sender.Valid() && sender.poolDB == poolDB
      modifies sender`requests, poolDB, sender.monitor, sender.monitor.requestRetryList
      ensures sender.Valid() && err == answer
      ensures
        exists id: nat ::
          && (if inserts then id > 0 && id !in old(poolDB.table) else id == 0)
          && var l2Tx := tx.(id := id);
             var table := if inserts then old(poolDB.table)[id := Row(l2Tx, Pending, "")] else old(poolDB.table);
             && poolDB.table == SenderLoop.Report(table, id, answer, works)
             && sender.monitor.Tracked()
                == if answer == None
                   then Track(old(sender.monitor.Tracked()), sender.monitor.cfg.initialWait, Handover(l2Tx, handed))
                   else old(sender.monitor.Tracked())
    {
      var id := poolDB.AddL2Transaction(tx, Pending, inserts);
      err := sender.SendL2Transaction(tx.(id := id), answer, works, handed);
    }

    /**
     A bad input touches nothing. Otherwise the reply is the sequencer's answer, also after a failed insert,
     when the id stays 0; and a row inserted under a fresh id has the status of that answer, while all other
     rows stay as they were. The clock is read on arrival (`now`), and again at the hand-over (`handed`).
     */
    method SendRawTransaction(input: string, hash: Option<string>, marshals: bool, now: int, inserts: bool,
                              answer: Option<string>, works: bool, handed: int)
      returns (reply: Result<string, RpcError>)
      requires sender.Valid() && sender.poolDB == poolDB
      modifies sender`requests, poolDB, sender.monitor, sender.monitor.requestRetryList
      ensures sender.Valid()
      ensures reply == if !Hex.Valid(input) || hash == None then Err(InvalidInput)
                       else if !marshals then Err(ParseError)
                       else if answer.Some? then Err(Rejected(answer.value)) else Ok(hash.value)
      ensures reply in {Err(InvalidInput), Err(ParseError)} ==>
                && poolDB.table == old(poolDB.table)
                && sender.monitor.senders == old(sender.monitor.senders)
                && sender.monitor.requestRetryList.list == old(sender.monitor.requestRetryList.list)
                && sender.monitor.requestRetryList.sorted == old(sender.monitor.requestRetryList.sorted)
      ensures reply.Err? ==> sender.monitor.Tracked() == old(sender.monitor.Tracked())
      ensures reply !in {Err(InvalidInput), Err(ParseError)} ==>
                exists id: nat ::
                  && (if inserts then id > 0 && id !in old(poolDB.table) else id == 0)
                  && var l2Tx := L2Transaction(id, hash.value, now, input);
                     var table := if inserts then old(poolDB.table)[id := Row(l2Tx, Pending, "")]
                                  else old(poolDB.table);
                     && poolDB.table == SenderLoop.Report(table, id, answer, works)
                     && (answer == None ==>
                           sender.monitor.Tracked()
                           == Track(old(sender.monitor.Tracked()), sender.monitor.cfg.initialWait,
                                    Handover(l2Tx, handed)))
      ensures reply !in {Err(InvalidInput), Err(ParseError)} && inserts && works ==>
                exists id: nat ::
                  && id !in old(poolDB.table)
                  && poolDB.table == old(poolDB.table)[id := Row(L2Transaction(id, hash.value, now, input),
                                                                 if answer.Some? then Invalid else Sent,
                                                                 if answer.Some? then answer.value else "")]
    {
      var bytes := Hex.DecodeHex(input);
      Hex.DecodeHexMeaning(input);
      if bytes.Err? || hash == None {
        return Err(InvalidInput);
      }
      if !marshals {
        return Err(ParseError);
      }
      var err := AddAndSend(L2Transaction(0, hash.value, now, input), handed, inserts, answer, works);
      if err.Some? {
        return Err(Rejected(err.value));
      }
      return Ok(hash.value);
    }
  }
}
