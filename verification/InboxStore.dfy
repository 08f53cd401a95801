/** The durable consumer inbox table: packages/kafka/src/inbox/postgres-kafka-inbox.store.ts.
    Each SQL statement is a function on the row it can touch; the class applies
    those functions to its table and touches no other row. */
module InboxStore {
  import opened Common

  type Token = nat
  type Time = int

  datatype Status = Processing | Prepared | Completed

  /** `result` is None both for SQL NULL and for a stored JSON null: the driver
      maps the two to the same JavaScript null. */
  datatype Row<+V> = Row(status: Status, result: Option<V>, lockToken: Option<Token>,
                         lockedUntil: Option<Time>, attempts: nat, completedAt: Option<Time>)

  datatype Key = Key(consumerName: string, eventId: string)

  datatype Record<+V> = Record(status: Status, result: Option<V>, lockToken: Option<Token>)

  function InsertedRow<V>(token: Token, lockedUntil: Time): Row<V> {
    Row(Processing, None, Some(token), Some(lockedUntil), 1, None)
  }

  predicate Acquirable<V>(row: Row<V>, now: Time) {
    && row.status != Completed
    && (row.lockedUntil.None? || row.lockedUntil.value <= now)
  }

  function AcquiredRow<V>(row: Row<V>, token: Token, lockedUntil: Time): Row<V> {
    row.(lockToken := Some(token), lockedUntil := Some(lockedUntil), attempts := row.attempts + 1)
  }

  predicate CanSave<V>(row: Option<Row<V>>, token: Token) {
    row.Some? && row.value.lockToken == Some(token) && row.value.status == Processing
  }

  function SavedRow<V>(row: Row<V>, result: Option<V>): Row<V> {
    row.(status := Prepared, result := result)
  }

  predicate CanComplete<V>(row: Option<Row<V>>, token: Token) {
    row.Some? && row.value.lockToken == Some(token) && row.value.status == Prepared
  }

  function CompletedRow<V>(row: Row<V>, now: Time): Row<V> {
    row.(status := Completed, lockToken := None, lockedUntil := None, completedAt := Some(now))
  }

  predicate CanRelease<V>(row: Option<Row<V>>, token: Token) {
    row.Some? && row.value.lockToken == Some(token) && row.value.status != Completed
  }

  function ReleasedRow<V>(row: Row<V>, now: Time): Row<V> {
    row.(lockToken := None, lockedUntil := Some(now))
  }

  function AsRecord<V>(row: Row<V>): Record<V> {
    Record(row.status, row.result, row.lockToken)
  }

  function Lookup<V>(rows: map<Key, Row<V>>, k: Key): Option<Row<V>> {
    if k in rows then Some(rows[k]) else None
  }

  /** The row one undisturbed `claim` transaction leaves behind. */
  function RowAfterClaim<V>(row: Option<Row<V>>, token: Token, lockedUntil: Time, now: Time): Row<V> {
    match row
    case None => InsertedRow(token, lockedUntil)
    case Some(r) => if Acquirable(r, now) then AcquiredRow(r, token, lockedUntil) else r
  }

  class PostgresKafkaInboxStore<V(==)> {
    var rows: map<Key, Row<V>>

    constructor ()
      ensures rows == map[]
    {
      rows := map[];
    }

    /** Inserts the row, or takes over an unfinished one whose lease has ended,
        or reads it. A token comes back only to a caller that now owns the lease. */
    method Claim(k: Key, token: Token, lockedUntil: Time, now: Time) returns (r: Record<V>)
      modifies this
      ensures rows == old(rows)[k := RowAfterClaim(Lookup(old(rows), k), token, lockedUntil, now)]
      ensures r.status == rows[k].status && r.result == rows[k].result
      ensures r.lockToken.Some? <==>
              || k !in old(rows)
              || (&& old(rows)[k].status != Completed
                  && (old(rows)[k].lockedUntil.None? || old(rows)[k].lockedUntil.value <= now))
      ensures r.lockToken.Some? ==> r.lockToken == Some(token) == rows[k].lockToken
      ensures r.lockToken.Some? ==> rows[k].lockedUntil == Some(lockedUntil)
      ensures r.lockToken.Some? ==> rows[k].attempts == 1 + if k in old(rows) then old(rows)[k].attempts else 0
      ensures r.lockToken.None? ==> rows == old(rows)
    {
      if k !in rows {
        rows := rows[k := InsertedRow(token, lockedUntil)];
        return AsRecord(rows[k]);
      }
      if Acquirable(rows[k], now) {
        rows := rows[k := AcquiredRow(rows[k], token, lockedUntil)];
        return AsRecord(rows[k]);
      }
      r := AsRecord(rows[k]).(lockToken := None);
    }

    method SavePrepared(k: Key, token: Token, result: Option<V>) returns (ok: bool)
      modifies this
      ensures ok == CanSave(Lookup(old(rows), k), token)
      ensures ok ==> rows == old(rows)[k := SavedRow(old(rows)[k], result)]
      ensures !ok ==> rows == old(rows)
    {
      ok := CanSave(Lookup(rows, k), token);
      if ok {
        rows := rows[k := SavedRow(rows[k], result)];
      }
    }

    method MarkCompleted(k: Key, token: Token, now: Time) returns (ok: bool)
      modifies this
      ensures ok == CanComplete(Lookup(old(rows), k), token)
      ensures ok ==> rows == old(rows)[k := CompletedRow(old(rows)[k], now)]
      ensures !ok ==> rows == old(rows)
    {
      ok := CanComplete(Lookup(rows, k), token);
      if ok {
        rows := rows[k := CompletedRow(rows[k], now)];
      }
    }

    method Release(k: Key, token: Token, now: Time)
      modifies this
      ensures CanRelease(Lookup(old(rows), k), token) ==> rows == old(rows)[k := ReleasedRow(old(rows)[k], now)]
      ensures !CanRelease(Lookup(old(rows), k), token) ==> rows == old(rows)
    {
      if CanRelease(Lookup(rows, k), token) {
        rows := rows[k := ReleasedRow(rows[k], now)];
      }
    }
  }
}
