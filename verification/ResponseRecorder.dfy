/**
 The bounded recorder behind `Execute`: a response is recorded whole or refused.
 */
module ResponseRecorder {
  import opened Wrappers

  const STATUS_OK := 200

  datatype Recording = Recording(body: seq<Byte>, status: int, exceeded: bool)

  const FRESH := Recording([], 0, false)

  function Wrote(r: Recording, limit: nat, data: seq<Byte>): Recording {
    var status := if r.status == 0 then STATUS_OK else r.status;
    if r.exceeded || |r.body| + |data| > limit then Recording(r.body, status, true)
    else Recording(r.body + data, status, false)
  }

  class Recorder {
    var body: seq<Byte>
    var status: int
    var exceeded: bool
    const limit: nat

    ghost function State(): Recording
      reads this
    {
      Recording(body, status, exceeded)
    }

    constructor (bound: nat)
      ensures limit == bound && State() == FRESH
    {
      body, status, exceeded, limit := [], 0, false, bound;
    }

    method WriteHeader(statusCode: int)
      modifies this`status
      ensures State() == Did(old(State()), limit, Head(statusCode))
    {
      if status == 0 {
        status := statusCode;
      }
    }

    method StatusCode() returns (code: int)
      ensures code == Reported(State())
    {
      if status == 0 {
        return STATUS_OK;
      }
      return status;
    }

    method Write(data: seq<Byte>) returns (ok: bool)
      modifies this
      ensures State() == Did(old(State()), limit, Chunk(data)) && ok == !exceeded
    {
      if status == 0 {
        status := STATUS_OK;
      }
      if exceeded || |body| + |data| > limit {
        exceeded := true;
        return false;
      }
      body := body + data;
      return true;
    }
  }

  /** A handler that says nothing answers 200. */
  function Reported(r: Recording): int { if r.status == 0 then STATUS_OK else r.status }

  function Recorded(limit: nat, chunks: seq<seq<Byte>>): Recording {
    if chunks == [] then FRESH else Wrote(Recorded(limit, chunks[..|chunks| - 1]), limit, chunks[|chunks| - 1])
  }

  function Concat(chunks: seq<seq<Byte>>): seq<Byte> {
    if chunks == [] then [] else Concat(chunks[..|chunks| - 1]) + chunks[|chunks| - 1]
  }

  /** The response is the whole output exactly when the output fits; otherwise it is refused. */
  lemma {:induction false} WholeOrRefused(limit: nat, chunks: seq<seq<Byte>>)
    ensures Recorded(limit, chunks).exceeded <==> |Concat(chunks)| > limit
    ensures !Recorded(limit, chunks).exceeded ==> Recorded(limit, chunks).body == Concat(chunks)
    ensures |Recorded(limit, chunks).body| <= limit && Recorded(limit, chunks).body <= Concat(chunks)
  {
    if chunks != [] {
      WholeOrRefused(limit, chunks[..|chunks| - 1]);
    }
  }

  // ----- The status

  /** What a handler does to its response. */
  datatype Op = Head(code: int) | Chunk(data: seq<Byte>)

  function Did(r: Recording, limit: nat, op: Op): Recording {
    match op
    case Head(code) => if r.status == 0 then r.(status := code) else r
    case Chunk(data) => Wrote(r, limit, data)
  }

  function After(limit: nat, ops: seq<Op>): Recording {
    if ops == [] then FRESH else Did(After(limit, ops[..|ops| - 1]), limit, ops[|ops| - 1])
  }

  function ChunksOf(ops: seq<Op>): seq<seq<Byte>> {
    if ops == [] then []
    else ChunksOf(ops[..|ops| - 1]) + (if ops[|ops| - 1].Chunk? then [ops[|ops| - 1].data] else [])
  }

  /** The first operation that says something: a chunk says 200, a header of zero says nothing. */
  function FirstSaid(ops: seq<Op>): int {
    if ops == [] then 0
    else if ops[0].Chunk? then 200
    else if ops[0].code != 0 then ops[0].code
    else FirstSaid(ops[1..])
  }

  lemma {:induction false} FirstSaidOneMore(ops: seq<Op>, op: Op)
    ensures FirstSaid(ops + [op]) == if FirstSaid(ops) != 0 then FirstSaid(ops) else if op.Chunk? then 200 else op.code
  {
    if ops == [] {
      assert ops + [op] == [op] && [op][1..] == [];
    } else {
      assert (ops + [op])[1..] == ops[1..] + [op];
      FirstSaidOneMore(ops[1..], op);
    }
  }

  /** Over whatever a handler does, its status is the first it said, or 200. */
  lemma {:induction false} StatusIsTheFirstSaid(limit: nat, ops: seq<Op>)
    ensures After(limit, ops).status == FirstSaid(ops)
    ensures Reported(After(limit, ops)) == if FirstSaid(ops) == 0 then 200 else FirstSaid(ops)
  {
    if ops != [] {
      StatusIsTheFirstSaid(limit, ops[..|ops| - 1]);
      FirstSaidOneMore(ops[..|ops| - 1], ops[|ops| - 1]);
      assert ops[..|ops| - 1] + [ops[|ops| - 1]] == ops;
    }
  }

  lemma RecordedOneMore(limit: nat, chunks: seq<seq<Byte>>, data: seq<Byte>)
    ensures Recorded(limit, chunks + [data]) == Wrote(Recorded(limit, chunks), limit, data)
  {
    assert (chunks + [data])[..|chunks|] == chunks;
  }

  /** And its body what its chunks alone come to. */
  lemma {:induction false} BodyIsItsChunks(limit: nat, ops: seq<Op>)
    ensures After(limit, ops).body == Recorded(limit, ChunksOf(ops)).body
    ensures After(limit, ops).exceeded == Recorded(limit, ChunksOf(ops)).exceeded
  {
    if ops != [] {
      var front, last := ops[..|ops| - 1], ops[|ops| - 1];
      BodyIsItsChunks(limit, front);
      if last.Chunk? {
        RecordedOneMore(limit, ChunksOf(front), last.data);
      } else {
        assert ChunksOf(ops) == ChunksOf(front);
      }
    }
  }
}
