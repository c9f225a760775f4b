/**
 The inbound federation replay guard: the persistent table
 `federation_replay_guard` with its lease, and the two in-memory maps of the
 federation service. One method is one transaction or one mutex section; each is
 proved against a declarative function of the state it found.
 */
module ReplayGuard {
  import opened Wrappers

  /** Ticks in a second; clock values and delays are in ticks. */
  type Resolution = x: int | x >= 1 witness 1

  /** Timestamp window of an incoming PDU, in seconds either way. */
  const SKEW := 3600
  /** How long the process remembers a processed PDU id, in seconds. */
  const MEMORY := 3600
  /** How long a completed row survives in the table, in seconds. */
  const RETENTION := 7200
  /** How long a claim may be held before another claim may take it over, in seconds. */
  const LEASE := 300
  /** Size of the in-memory cache at which new PDUs are turned away. */
  const CACHE_LIMIT := 50000

  /** A PDU as the guard sees it: the origin is the sender's domain, the creation time is in seconds. */
  datatype Pdu = Pdu(origin: string, id: string, createdAt: int)

  datatype Key = Key(origin: string, id: string)

  function KeyOf(pdu: Pdu): Key { Key(pdu.origin, pdu.id) }

  /** The skew check of an incoming PDU, which reads the clock in whole seconds. */
  predicate InWindow(res: Resolution, pdu: Pdu, now: Time) {
    now / res - SKEW <= pdu.createdAt <= now / res + SKEW
  }

  // ----- The persistent table

  datatype Row = Processing(leaseUntil: Time) | Completed(processedAt: Time)

  type Table = map<Key, Row>

  predicate Outdated(row: Row, now: Time, retention: Time) {
    row.Completed? && row.processedAt < now - retention
  }

  /** A claim succeeds on a key that is free, outdated, or held past its lease. */
  predicate Claimable(rows: Table, key: Key, now: Time, retention: Time) {
    key in rows ==> match rows[key]
      case Completed(processedAt) => processedAt < now - retention
      case Processing(leaseUntil) => leaseUntil < now
  }

  /** The table after a claim: outdated rows are gone, the claimed row is leased. */
  function ClaimRows(rows: Table, key: Key, now: Time, leaseUntil: Time, retention: Time): Table {
    map k | k in rows.Keys + {key} && (k == key || !Outdated(rows[k], now, retention)) ::
      if k == key && Claimable(rows, key, now, retention) then Processing(leaseUntil) else rows[k]
  }

  function CompleteRows(rows: Table, key: Key, now: Time): Table {
    if key in rows && rows[key].Processing? then rows[key := Completed(now)] else rows
  }

  function ReleaseRows(rows: Table, key: Key): Table {
    if key in rows && rows[key].Processing? then rows - {key} else rows
  }

  class ReplayStore {
    var rows: Table
    const retention: Time

    /** The store keeps completed rows for two hours. */
    constructor(res: Resolution)
      ensures rows == map[] && retention == RETENTION * res
    {
      rows, retention := map[], RETENTION * res;
    }

    /** `ClaimFederationPDU`: one serializable transaction of three statements. */
    method Claim(key: Key, now: Time, leaseUntil: Time) returns (claimed: bool)
      modifies this
      ensures claimed == Claimable(old(rows), key, now, retention)
      ensures rows == ClaimRows(old(rows), key, now, leaseUntil, retention)
    {
      rows := map k | k in rows && !(rows[k].Completed? && rows[k].processedAt < now - retention) :: rows[k];
      var affected := 0;
      if key !in rows {
        rows := rows[key := Processing(leaseUntil)];
        affected := 1;
      }
      if affected == 0 {
        if rows[key].Processing? && rows[key].leaseUntil < now {
          rows := rows[key := Processing(leaseUntil)];
          affected := 1;
        }
      }
      claimed := affected == 1;
    }

    /** `CompleteFederationPDU`: fails when no row is being processed under the key. */
    method Complete(key: Key, now: Time) returns (ok: bool)
      modifies this
      ensures ok == (key in old(rows) && old(rows)[key].Processing?)
      ensures rows == CompleteRows(old(rows), key, now)
    {
      ok := false;
      if key in rows && rows[key].Processing? {
        rows := rows[key := Completed(now)];
        ok := true;
      }
    }

    /** `ReleaseFederationPDU`. */
    method Release(key: Key)
      modifies this
      ensures rows == ReleaseRows(old(rows), key)
    {
      rows := map k | k in rows && !(k == key && rows[k].Processing?) :: rows[k];
    }
  }

  // ----- The two maps in memory

  datatype Memory = Memory(processed: map<string, Time>, processing: set<string>)

  datatype Admission = Admitted | AlreadyProcessed | CacheFull

  /** The entries young enough to survive an eviction sweep. */
  function Remembered(res: Resolution, processed: map<string, Time>, now: Time): map<string, Time> {
    map id | id in processed && now - processed[id] <= MEMORY * res :: processed[id]
  }

  function Admit(res: Resolution, memory: Memory, id: string, now: Time): Admission {
    if id in memory.processed && now - memory.processed[id] <= MEMORY * res then AlreadyProcessed
    else if id in memory.processing then AlreadyProcessed
    else if |Remembered(res, memory.processed, now)| >= CACHE_LIMIT then CacheFull
    else Admitted
  }

  function BeginMemory(res: Resolution, memory: Memory, id: string, now: Time): Memory {
    Memory(Remembered(res, memory.processed, now),
           if Admit(res, memory, id, now) == Admitted then memory.processing + {id} else memory.processing)
  }

  function FinishMemory(memory: Memory, id: string, persisted: bool, now: Time): Memory {
    Memory(if persisted then memory.processed[id := now] else memory.processed, memory.processing - {id})
  }

  class Service {
    var processedPDUs: map<string, Time>
    var processingPDUs: set<string>

    ghost function Contents(): Memory
      reads this
    {
      Memory(processedPDUs, processingPDUs)
    }

    const res: Resolution

    constructor(resolution: Resolution)
      ensures Contents() == Memory(map[], {}) && res == resolution
    {
      processedPDUs, processingPDUs, res := map[], {}, resolution;
    }

    /** The first mutex section of `beginPDUProcessing`. */
    method Begin(id: string, now: Time) returns (admission: Admission)
      modifies this
      ensures admission == Admit(res, old(Contents()), id, now)
      ensures Contents() == BeginMemory(res, old(Contents()), id, now)
    {
      Evict(now);
      if id in processedPDUs {
        return AlreadyProcessed;
      }
      if id in processingPDUs {
        return AlreadyProcessed;
      }
      if |processedPDUs| >= CACHE_LIMIT {
        return CacheFull;
      }
      processingPDUs := processingPDUs + {id};
      return Admitted;
    }

    /** The sweep at the head of `beginPDUProcessing`, in any iteration order. */
    method Evict(now: Time)
      modifies this`processedPDUs
      ensures processedPDUs == Remembered(res, old(processedPDUs), now)
    {
      var pending := processedPDUs.Keys;
      while pending != {}
        invariant pending <= processedPDUs.Keys <= old(processedPDUs).Keys
        invariant forall id :: id in processedPDUs ==> processedPDUs[id] == old(processedPDUs)[id]
        invariant forall id :: id in old(processedPDUs) && id !in pending ==>
                    (id in processedPDUs <==> now - old(processedPDUs)[id] <= MEMORY * res)
        decreases |pending|
      {
        var id :| id in pending;
        pending := pending - {id};
        if now - processedPDUs[id] > MEMORY * res {
          processedPDUs := processedPDUs - {id};
        }
      }
    }

    /** The section that gives the id back after a refused claim. */
    method Drop(id: string)
      modifies this
      ensures Contents() == FinishMemory(old(Contents()), id, false, 0)
    {
      processingPDUs := processingPDUs - {id};
    }

    /** The mutex section of `finishPDUProcessing`. */
    method Finish(id: string, persisted: bool, now: Time)
      modifies this
      ensures Contents() == FinishMemory(old(Contents()), id, persisted, now)
    {
      processingPDUs := processingPDUs - {id};
      if persisted {
        processedPDUs := processedPDUs[id := now];
      }
    }
  }
}
