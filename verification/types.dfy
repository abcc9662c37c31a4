/** Small carrier datatypes shared by every module. */
module Wrappers {
  datatype Option<+T> = None | Some(value: T)

  datatype Result<+T, +E> = Ok(value: T) | Err(error: E)
}

/** The transaction record, its seven status values, and the time arithmetic the retry list relies on. */
module Types {
  datatype Status = Pending | Invalid | Confirmed | Sent | Failed | Resend | Expired

  /** The fields the engine inspects: the remaining columns of the record are only carried along. */
  datatype L2Transaction = L2Transaction(id: nat, hash: string, receivedAt: int, encoded: string)

  /** time.Time.Before on the end of the life time: a transaction is not yet expired at that very instant. */
  predicate IsExpired(l2Tx: L2Transaction, lifeTime: int, now: int) {
    l2Tx.receivedAt + lifeTime < now
  }

  const NANOS_PER_MILLI := 1_000_000

  /** An instant is a number of nanoseconds; its millisecond is the floor of the division. */
  function UnixMilli(t: int): int {
    t / NANOS_PER_MILLI
  }

  /** Millisecond `k` is these 10^6 instants and no others, also before the year 1970. */
  lemma MilliIs(t: int, k: int)
    ensures UnixMilli(t) == k <==> 1_000_000 * k <= t < 1_000_000 * (k + 1)
  {
  }

  lemma EarlierMilliIsEarlier(t: int, u: int)
    ensures UnixMilli(t) < UnixMilli(u) ==> t < u
    ensures UnixMilli(t) <= UnixMilli(u) ==> t < u + 1_000_000
  {
  }
}
