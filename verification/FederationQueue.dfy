/**
 The outbound federation queue: the table `federation_queues`, claimed under a
 lease and a fencing token. One method is one transaction or one statement, proved
 against a declarative function of the rows it found.
 */
module FederationQueue {
  import opened Wrappers

  /** Fencing tokens; `NO_TOKEN` is the empty lease owner. */
  type Token = nat

  const NO_TOKEN: Token := 0
  const LEASE: Time := 120
  const MAX_ATTEMPTS := 10

  datatype Status = Pending | Sending | Failed

  /** What is to be delivered, and where. */
  datatype Content = Content(pduId: string, payload: string, targetUrl: string)

  datatype Row = Row(content: Content, status: Status, attempts: int, nextRetry: Time, leaseOwner: Token,
                     leaseUntil: Time)

  /** A worker's own copy of a row. */
  datatype Item = Item(id: nat, row: Row)

  type Table = map<nat, Row>

  function FreshRow(content: Content, now: Time): Row {
    Row(content, Pending, 0, now, NO_TOKEN, 0)
  }

  /** A row a worker may take: due, or abandoned past its lease. */
  predicate Claimable(row: Row, now: Time) {
    (row.status.Pending? && row.nextRetry <= now) || (row.status.Sending? && row.leaseUntil <= now)
  }

  /** Abandoned rows come first, then the earliest retry. */
  predicate Precedes(a: Row, b: Row) {
    (a.status.Sending? && !b.status.Sending?) || (a.status.Sending? == b.status.Sending? && a.nextRetry < b.nextRetry)
  }

  predicate IsNext(rows: Table, id: nat, now: Time) {
    && id in rows && Claimable(rows[id], now)
    && forall other :: other in rows && Claimable(rows[other], now) ==> !Precedes(rows[other], rows[id])
  }

  function ClaimedRow(row: Row, now: Time, token: Token): Row {
    row.(status := Sending, attempts := row.attempts + 1, leaseOwner := token, leaseUntil := now + LEASE)
  }

  /** The row is being sent under exactly the token of this copy. */
  predicate Current(rows: Table, item: Item) {
    item.id in rows && rows[item.id].status.Sending? && rows[item.id].leaseOwner == item.row.leaseOwner
  }

  function DeleteRows(rows: Table, item: Item): Table {
    if Current(rows, item) then rows - {item.id} else rows
  }

  function SaveRows(rows: Table, item: Item): Table {
    if Current(rows, item) then rows[item.id := item.row.(leaseOwner := NO_TOKEN, leaseUntil := 0)] else rows
  }

  function Backoff(attempts: int): Time { 10 * attempts * attempts }

  /** The copy a worker saves after a failed send. */
  function Rescheduled(item: Item, now: Time): Item {
    if item.row.attempts >= MAX_ATTEMPTS then item.(row := item.row.(status := Failed))
    else item.(row := item.row.(status := Pending, nextRetry := now + Backoff(item.row.attempts)))
  }

  class QueueStore {
    var rows: Table
    var next: nat

    ghost predicate Valid()
      reads this
    {
      next >= 1 && forall id :: id in rows ==> 1 <= id < next
    }

    constructor()
      ensures Valid() && rows == map[] && next == 1
    {
      rows, next := map[], 1;
    }

    /** `AddFederationQueueItem`, as `QueueOutgoingPDU` calls it; row ids are never reused. */
    method Add(content: Content, now: Time) returns (id: nat)
      requires Valid()
      modifies this
      ensures Valid() && id == old(next) && next == old(next) + 1
      ensures id !in old(rows) && rows == old(rows)[id := FreshRow(content, now)]
    {
      id := next;
      rows := rows[id := FreshRow(content, now)];
      next := next + 1;
    }

    /** The `ORDER BY ... LIMIT 1` of the claim, in any scan order. */
    method SelectNext(now: Time) returns (found: Option<nat>)
      ensures found.None? ==> forall id :: id in rows ==> !Claimable(rows[id], now)
      ensures found.Some? ==> IsNext(rows, found.value, now)
    {
      found := None;
      var unseen := rows.Keys;
      while unseen != {}
        invariant unseen <= rows.Keys
        invariant found.None? ==> forall id :: id in rows && id !in unseen ==> !Claimable(rows[id], now)
        invariant found.Some? ==> found.value in rows && Claimable(rows[found.value], now)
                                  && forall id :: id in rows && id !in unseen && Claimable(rows[id], now) ==>
                                                    !Precedes(rows[id], rows[found.value])
        decreases |unseen|
      {
        var id :| id in unseen;
        unseen := unseen - {id};
        if Claimable(rows[id], now) && (found.None? || Precedes(rows[id], rows[found.value])) {
          found := Some(id);
        }
      }
    }

    /** `ClaimNextFederationQueueItem`: select, then update under the same condition. */
    method ClaimNext(now: Time, token: Token) returns (claimed: Option<Item>)
      modifies this`rows
      ensures claimed.None? ==> rows == old(rows) && forall id :: id in rows ==> !Claimable(rows[id], now)
      ensures claimed.Some? ==>
        && IsNext(old(rows), claimed.value.id, now)
        && claimed.value.row == ClaimedRow(old(rows)[claimed.value.id], now, token)
        && rows == old(rows)[claimed.value.id := claimed.value.row]
    {
      var found := SelectNext(now);
      if found.None? {
        return None;
      }
      var id := found.value;
      var row := rows[id].(status := Sending, attempts := rows[id].attempts + 1,
                           leaseOwner := token, leaseUntil := now + LEASE);
      rows := rows[id := row];
      return Some(Item(id, row));
    }

    /** `DeleteFederationQueueItem`: false is the error that the lease is invalid or lost. */
    method Delete(item: Item) returns (ok: bool)
      modifies this`rows
      ensures ok == (item.id != 0 && item.row.leaseOwner != NO_TOKEN && Current(old(rows), item))
      ensures rows == if ok then DeleteRows(old(rows), item) else old(rows)
    {
      if item.id == 0 || item.row.leaseOwner == NO_TOKEN {
        return false;
      }
      ok := item.id in rows && rows[item.id].status == Sending && rows[item.id].leaseOwner == item.row.leaseOwner;
      if ok {
        rows := map id | id in rows && id != item.id :: rows[id];
      }
    }

    /** `SaveFederationQueueItem`: false is the error that the lease is invalid or lost. */
    method Save(item: Item) returns (ok: bool)
      modifies this`rows
      ensures ok == (item.id != 0 && item.row.leaseOwner != NO_TOKEN && Current(old(rows), item))
      ensures rows == if ok then SaveRows(old(rows), item) else old(rows)
    {
      if item.id == 0 || item.row.leaseOwner == NO_TOKEN {
        return false;
      }
      ok := item.id in rows && rows[item.id].status == Sending && rows[item.id].leaseOwner == item.row.leaseOwner;
      if ok {
        rows := rows[item.id := Row(item.row.content, item.row.status, item.row.attempts, item.row.nextRetry,
                                    NO_TOKEN, 0)];
      }
    }

    /** `rescheduleForRetry`: give up at the tenth attempt, otherwise back off quadratically. */
    method Reschedule(item: Item, now: Time) returns (ok: bool)
      modifies this`rows
      ensures ok == (item.id != 0 && item.row.leaseOwner != NO_TOKEN && Current(old(rows), item))
      ensures rows == if ok then SaveRows(old(rows), Rescheduled(item, now)) else old(rows)
    {
      var row := item.row;
      if row.attempts >= MAX_ATTEMPTS {
        row := row.(status := Failed);
      } else {
        row := row.(nextRetry := now + 10 * row.attempts * row.attempts, status := Pending);
      }
      ok := Save(Item(item.id, row));
    }
  }
}
