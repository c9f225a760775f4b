/**
 What senders are answered, over every run and whatever the delays: when a PDU is said to
 be processed already, when it is turned away, and what such an answer is worth.
 */
module ReplayAnswers {
  import opened Wrappers
  import opened ReplayGuard
  import opened ReplayRuns

  // ----- One answer

  /** An id is known if it is being processed, or was processed in the last hour. */
  predicate Known(res: Resolution, memory: Memory, id: string, now: Time) {
    id in memory.processing || (id in memory.processed && now - memory.processed[id] <= 3600 * res)
  }

  function LastHour(res: Resolution, processed: map<string, Time>, now: Time): set<string> {
    set id | id in processed && now - processed[id] <= 3600 * res
  }

  /** A known id is answered as processed, an unknown one is turned away when 50000 were processed in the last hour,
      and admitted otherwise. */
  lemma AdmitsExactly(res: Resolution, memory: Memory, id: string, now: Time)
    ensures Admit(res, memory, id, now) == AlreadyProcessed <==> Known(res, memory, id, now)
    ensures Admit(res, memory, id, now) == CacheFull <==>
            !Known(res, memory, id, now) && |LastHour(res, memory.processed, now)| >= 50000
  {
    assert Remembered(res, memory.processed, now).Keys == LastHour(res, memory.processed, now);
  }

  // ----- The history of marks

  /** When each id was last marked as processed, since the process started. */
  type Marks = map<string, Time>

  function Marking(s: State, step: Step, marks: Marks): Marks {
    if step.Restart? then map[]
    else if step.Mark? && step.h in s.handlers then marks[s.handlers[step.h].pdu.id := s.now]
    else marks
  }

  ghost function MarksOf(policy: Policy, s: State, steps: seq<Step>, marks: Marks): Marks
    requires Allowed(policy, s, steps)
    decreases |steps|
  {
    if steps == [] then marks
    else MarksOf(policy, Apply(policy, s, steps[0]), steps[1..], Marking(s, steps[0], marks))
  }

  /** A handler is on this id: it was admitted and has neither marked it nor given it back. */
  predicate On(x: Handler, id: string) {
    (x.Begun? || x.Refused? || x.Claimed? || x.Failed? || x.Persisted?) && x.pdu.id == id
  }

  predicate Handled(s: State, id: string) { exists h :: h in s.handlers && On(s.handlers[h], id) }

  /** The processing set holds exactly the ids handlers are on, each one handler's. */
  ghost predicate ProcessingIsHandled(s: State) {
    && (forall id :: id in s.memory.processing <==> Handled(s, id))
    && (forall h, g, id :: h in s.handlers && g in s.handlers && On(s.handlers[h], id) && On(s.handlers[g], id) ==>
          h == g)
  }

  /** The cache holds marks, and every one of the last hour. */
  predicate CacheIsMarks(res: Resolution, s: State, marks: Marks) {
    && (forall id :: id in s.memory.processed ==> id in marks && marks[id] == s.memory.processed[id])
    && (forall id :: id in marks && s.now - marks[id] <= 3600 * res ==> id in s.memory.processed)
  }

  /** Only this handler may have moved, to another id or none. */
  ghost predicate MovesOnly(s: State, t: State, h: nat) {
    forall g :: g != h ==>
      (g in t.handlers <==> g in s.handlers) && (g in s.handlers ==> t.handlers[g] == s.handlers[g])
  }

  lemma LeavingKeepsHandled(s: State, t: State, h: nat, gone: string)
    requires ProcessingIsHandled(s) && MovesOnly(s, t, h) && h in s.handlers && On(s.handlers[h], gone)
    requires h in t.handlers ==> !On(t.handlers[h], t.handlers[h].pdu.id)
    requires t.memory.processing == s.memory.processing - {gone}
    ensures ProcessingIsHandled(t)
  {
    forall id ensures id in t.memory.processing <==> Handled(t, id) {
      if id in t.memory.processing {
        var g :| g in s.handlers && On(s.handlers[g], id);
        assert g != h;
        assert On(t.handlers[g], id);
      }
    }
  }

  lemma StayingKeepsHandled(s: State, t: State, h: nat)
    requires ProcessingIsHandled(s) && MovesOnly(s, t, h) && t.memory.processing == s.memory.processing
    requires forall id :: (h in s.handlers && On(s.handlers[h], id)) <==> (h in t.handlers && On(t.handlers[h], id))
    ensures ProcessingIsHandled(t)
  {
    forall id ensures Handled(s, id) <==> Handled(t, id) {
      if Handled(s, id) {
        var g :| g in s.handlers && On(s.handlers[g], id);
        assert g in t.handlers && On(t.handlers[g], id);
      }
    }
  }

  lemma BeginKeepsHandled(policy: Policy, s: State, h: nat)
    requires ProcessingIsHandled(s) && Enabled(policy, s, Begin(h))
    ensures ProcessingIsHandled(Apply(policy, s, Begin(h)))
  {
    var t := Apply(policy, s, Begin(h));
    var id := s.handlers[h].pdu.id;
    if Admit(policy.res, s.memory, id, s.now) == Admitted {
      assert On(t.handlers[h], id);
      forall i ensures i in t.memory.processing <==> Handled(t, i) {
        if i != id && Handled(s, i) {
          var g :| g in s.handlers && On(s.handlers[g], i);
          assert g in t.handlers && On(t.handlers[g], i);
        }
      }
    } else {
      StayingKeepsHandled(s, t, h);
    }
  }

  lemma StepKeepsHandled(policy: Policy, s: State, step: Step)
    requires ProcessingIsHandled(s) && Enabled(policy, s, step)
    ensures ProcessingIsHandled(Apply(policy, s, step))
  {
    var t := Apply(policy, s, step);
    match step
    case Tick(_) =>
    case Begin(h) => BeginKeepsHandled(policy, s, h);
    case Drop(h) => LeavingKeepsHandled(s, t, h, s.handlers[h].pdu.id);
    case Unmark(h) => LeavingKeepsHandled(s, t, h, s.handlers[h].pdu.id);
    case Mark(h) => LeavingKeepsHandled(s, t, h, s.handlers[h].pdu.id);
    case Restart =>
    case _ => StayingKeepsHandled(s, t, step.h);
  }

  lemma StepKeepsCache(policy: Policy, s: State, step: Step, marks: Marks)
    requires CacheIsMarks(policy.res, s, marks) && Enabled(policy, s, step)
    ensures CacheIsMarks(policy.res, Apply(policy, s, step), Marking(s, step, marks))
  {
  }

  lemma {:induction false} RunKeepsAnswers(policy: Policy, s: State, steps: seq<Step>, marks: Marks)
    requires ProcessingIsHandled(s) && CacheIsMarks(policy.res, s, marks) && Allowed(policy, s, steps)
    ensures ProcessingIsHandled(Run(policy, s, steps))
    ensures CacheIsMarks(policy.res, Run(policy, s, steps), MarksOf(policy, s, steps, marks))
    decreases |steps|
  {
    if steps != [] {
      StepKeepsHandled(policy, s, steps[0]);
      StepKeepsCache(policy, s, steps[0], marks);
      RunKeepsAnswers(policy, Apply(policy, s, steps[0]), steps[1..], Marking(s, steps[0], marks));
    }
  }

  // ----- Every answer of every run

  /** Marked within the hour, by this process. */
  predicate MarkedLately(res: Resolution, marks: Marks, id: string, now: Time) {
    id in marks && now - marks[id] <= 3600 * res
  }

  lemma AnswersByHistory(policy: Policy, s: State, marks: Marks, id: string)
    requires ProcessingIsHandled(s) && CacheIsMarks(policy.res, s, marks)
    ensures var answer := Admit(policy.res, s.memory, id, s.now);
            var known := Handled(s, id) || MarkedLately(policy.res, marks, id, s.now);
            && (answer == AlreadyProcessed <==> known)
            && (answer == CacheFull <==> !known && |LastHour(policy.res, marks, s.now)| >= 50000)
  {
    AdmitsExactly(policy.res, s.memory, id, s.now);
    assert LastHour(policy.res, s.memory.processed, s.now) == LastHour(policy.res, marks, s.now);
  }

  /**
   Over every run, whatever its delays: a request is answered that its PDU is processed already exactly if a handler
   is on its id or this process marked the id within the hour, and that the cache is full exactly if neither is so
   and 50000 ids were marked within the hour.
   */
  lemma AnswersExactly(policy: Policy, start: Time, steps: seq<Step>, h: nat)
    requires Allowed(policy, Init(start), steps) && Enabled(policy, Run(policy, Init(start), steps), Begin(h))
    ensures var s, marks := Run(policy, Init(start), steps), MarksOf(policy, Init(start), steps, map[]);
            var id := s.handlers[h].pdu.id;
            var answer := Admit(policy.res, s.memory, id, s.now);
            var known := Handled(s, id) || MarkedLately(policy.res, marks, id, s.now);
            && (answer == AlreadyProcessed <==> known)
            && (answer == CacheFull <==> !known && |LastHour(policy.res, marks, s.now)| >= 50000)
  {
    RunKeepsAnswers(policy, Init(start), steps, map[]);
    var s := Run(policy, Init(start), steps);
    AnswersByHistory(policy, s, MarksOf(policy, Init(start), steps, map[]), s.handlers[h].pdu.id);
  }

  lemma {:induction false} MarkStays(policy: Policy, s: State, steps: seq<Step>, marks: Marks, id: string, at: Time)
    requires Allowed(policy, s, steps) && id in marks && at <= marks[id] && at <= s.now
    requires forall i :: 0 <= i < |steps| ==> !steps[i].Restart?
    ensures id in MarksOf(policy, s, steps, marks) && at <= MarksOf(policy, s, steps, marks)[id]
    decreases |steps|
  {
    if steps != [] {
      MarkStays(policy, Apply(policy, s, steps[0]), steps[1..], Marking(s, steps[0], marks), id, at);
    }
  }

  /** Once marked, an id is answered as processed for an hour, in every run without a restart. */
  lemma MarkedIsRepeat(policy: Policy, start: Time, before: seq<Step>, h: nat, after: seq<Step>, g: nat)
    requires Allowed(policy, Init(start), before) && Enabled(policy, Run(policy, Init(start), before), Mark(h))
    requires var s := Run(policy, Init(start), before);
             && Allowed(policy, Apply(policy, s, Mark(h)), after)
             && (forall i :: 0 <= i < |after| ==> !after[i].Restart?)
             && var t := Run(policy, Apply(policy, s, Mark(h)), after);
                && Enabled(policy, t, Begin(g)) && t.handlers[g].pdu.id == s.handlers[h].pdu.id
                && t.now - s.now <= 3600 * policy.res
    ensures var s := Run(policy, Init(start), before);
            var t := Run(policy, Apply(policy, s, Mark(h)), after);
            Admit(policy.res, t.memory, t.handlers[g].pdu.id, t.now) == AlreadyProcessed
  {
    var s, marks := Run(policy, Init(start), before), MarksOf(policy, Init(start), before, map[]);
    var id, s1, marks1 := s.handlers[h].pdu.id, Apply(policy, s, Mark(h)), Marking(s, Mark(h), marks);
    RunKeepsAnswers(policy, Init(start), before, map[]);
    StepKeepsHandled(policy, s, Mark(h));
    StepKeepsCache(policy, s, Mark(h), marks);
    RunKeepsAnswers(policy, s1, after, marks1);
    MarkStays(policy, s1, after, marks1, id, s.now);
    AnswersByHistory(policy, Run(policy, s1, after), MarksOf(policy, s1, after, marks1), id);
  }

  // ----- What an answer is worth

  /** What a request ends with: stored, told that it is processed already, which its sender takes for delivered,
      or an error, after which the sender tries again. */
  datatype Reply = Accepted | Repeat | Error

  /** The reply a step settles, if it settles one. */
  function ReplyOf(policy: Policy, s: State, step: Step): Option<Reply>
    requires Enabled(policy, s, step)
  {
    match step
    case Begin(h) =>
      (match Admit(policy.res, s.memory, s.handlers[h].pdu.id, s.now)
       case AlreadyProcessed => Some(Repeat)
       case CacheFull => Some(Error)
       case Admitted => None)
    case Claim(h, _) =>
      if Claimable(s.rows, KeyOf(s.handlers[h].pdu), s.now, policy.retention) then None else Some(Repeat)
    case ClaimError(h) => Some(Error)
    case Persist(h, ok) => if ok then None else Some(Error)
    case Complete(h) =>
      var key := KeyOf(s.handlers[h].pdu);
      Some(if key in s.rows && s.rows[key].Processing? then Accepted else Error)
    case _ => None
  }

  predicate StoredKey(s: State, key: Key) { exists i :: 0 <= i < |s.stored| && KeyOf(s.stored[i]) == key }

  predicate StoredId(s: State, id: string) { exists i :: 0 <= i < |s.stored| && s.stored[i].id == id }

  /** Whoever says so has stored, and so did whoever left a mark or a completed row. */
  predicate WordsAreTrue(s: State, marks: Marks) {
    && (forall h :: h in s.handlers && (s.handlers[h].Persisted? || s.handlers[h].Marked?) ==>
          StoredKey(s, KeyOf(s.handlers[h].pdu)))
    && (forall key :: key in s.rows && s.rows[key].Completed? ==> StoredKey(s, key))
    && (forall id :: id in marks ==> StoredId(s, id))
  }

  lemma StoredStays(s: State, t: State)
    requires s.stored <= t.stored
    ensures forall key :: StoredKey(s, key) ==> StoredKey(t, key)
    ensures forall id :: StoredId(s, id) ==> StoredId(t, id)
  {
    forall key | StoredKey(s, key) ensures StoredKey(t, key) {
      var i :| 0 <= i < |s.stored| && KeyOf(s.stored[i]) == key;
      assert t.stored[i] == s.stored[i];
    }
    forall id | StoredId(s, id) ensures StoredId(t, id) {
      var i :| 0 <= i < |s.stored| && s.stored[i].id == id;
      assert t.stored[i] == s.stored[i];
    }
  }

  lemma KeyHasId(s: State, key: Key)
    requires StoredKey(s, key)
    ensures StoredId(s, key.id)
  {
    var i :| 0 <= i < |s.stored| && KeyOf(s.stored[i]) == key;
    assert s.stored[i].id == key.id;
  }

  lemma StepKeepsWords(policy: Policy, s: State, step: Step, marks: Marks)
    requires WordsAreTrue(s, marks) && Enabled(policy, s, step)
    ensures WordsAreTrue(Apply(policy, s, step), Marking(s, step, marks))
  {
    var t := Apply(policy, s, step);
    StoredStays(s, t);
    match step
    case Persist(h, ok) =>
      if ok {
        assert t.stored[|s.stored|] == s.handlers[h].pdu;
      }
    case Mark(h) => KeyHasId(s, KeyOf(s.handlers[h].pdu));
    case _ =>
  }

  lemma {:induction false} RunKeepsWords(policy: Policy, s: State, steps: seq<Step>, marks: Marks)
    requires WordsAreTrue(s, marks) && Allowed(policy, s, steps)
    ensures WordsAreTrue(Run(policy, s, steps), MarksOf(policy, s, steps, marks))
    decreases |steps|
  {
    if steps != [] {
      StepKeepsWords(policy, s, steps[0], marks);
      RunKeepsWords(policy, Apply(policy, s, steps[0]), steps[1..], Marking(s, steps[0], marks));
    }
  }

  /** The row is leased, by a handler or by a process that is gone. */
  predicate Leased(s: State, key: Key) { key in s.rows && s.rows[key].Processing? && s.now <= s.rows[key].leaseUntil }

  /** A handler is on this id and has not stored. */
  predicate StillOpen(s: State, id: string) {
    exists h :: h in s.handlers && On(s.handlers[h], id) && !s.handlers[h].Persisted?
  }

  /**
   Over every run: a PDU is accepted only when it is stored. It is called a repeat only when a PDU of its id was
   stored, be it of another origin, when its row is leased, or when a handler is on its id and has not stored.
   */
  lemma RepliesAreTrue(policy: Policy, start: Time, steps: seq<Step>, step: Step)
    requires Allowed(policy, Init(start), steps) && Enabled(policy, Run(policy, Init(start), steps), step)
    requires step.Begin? || step.Claim? || step.Complete?
    ensures var s := Run(policy, Init(start), steps);
            var pdu := s.handlers[step.h].pdu;
            && (ReplyOf(policy, s, step) == Some(Accepted) ==> StoredKey(s, KeyOf(pdu)))
            && (ReplyOf(policy, s, step) == Some(Repeat) ==>
                  StoredId(s, pdu.id) || Leased(s, KeyOf(pdu)) || StillOpen(s, pdu.id))
  {
    RunKeepsWords(policy, Init(start), steps, map[]);
    var s := Run(policy, Init(start), steps);
    var pdu := s.handlers[step.h].pdu;
    if StoredKey(s, KeyOf(pdu)) {
      KeyHasId(s, KeyOf(pdu));
    }
    if step.Begin? {
      AnswersExactly(policy, start, steps, step.h);
      if Handled(s, pdu.id) && !StillOpen(s, pdu.id) {
        var g :| g in s.handlers && On(s.handlers[g], pdu.id);
        KeyHasId(s, KeyOf(s.handlers[g].pdu));
      }
    }
  }

  // ----- A repeat that was never stored

  lemma RunOfTwo(policy: Policy, s: State, a: Step, rest: seq<Step>)
    requires Enabled(policy, s, a) && Allowed(policy, Apply(policy, s, a), rest)
    ensures Allowed(policy, s, [a] + rest) && Run(policy, s, [a] + rest) == Run(policy, Apply(policy, s, a), rest)
  {
    assert ([a] + rest)[1..] == rest;
  }

  /** Two requests with one PDU arrive, and the first is admitted. */
  lemma FirstOfTwo(policy: Policy, pdu: Pdu, start: Time) returns (s: State, steps: seq<Step>)
    requires InWindow(policy.res, pdu, start)
    ensures Allowed(policy, Init(start), steps) && Run(policy, Init(start), steps) == s
    ensures s.now == start && s.rows == map[] && s.stored == [] && s.memory == Memory(map[], {pdu.id})
    ensures s.handlers == map[0 := Begun(pdu, start), 1 := Validated(pdu, start)]
  {
    var s0 := Init(start);
    var s1 := Apply(policy, s0, Arrive(0, pdu));
    var s2 := Apply(policy, s1, Arrive(1, pdu));
    AdmitsExactly(policy.res, s2.memory, pdu.id, s2.now);
    assert LastHour(policy.res, s2.memory.processed, s2.now) == {};
    s := Apply(policy, s2, Begin(0));
    assert s.handlers == map[0 := Begun(pdu, start), 1 := Validated(pdu, start)];
    assert s.memory.processed == map[];
    RunOfTwo(policy, s2, Begin(0), []);
    RunOfTwo(policy, s1, Arrive(1, pdu), [Begin(0)] + []);
    RunOfTwo(policy, s0, Arrive(0, pdu), [Arrive(1, pdu)] + ([Begin(0)] + []));
    steps := [Arrive(0, pdu)] + ([Arrive(1, pdu)] + ([Begin(0)] + []));
  }

  /** After the second was told so, the first fails to store, and nothing is left to tell. */
  lemma FirstFails(policy: Policy, s: State) returns (after: seq<Step>)
    requires 0 in s.handlers && s.handlers[0].Begun? && s.handlers[0].at == s.now && s.rows == map[] && s.stored == []
    ensures Allowed(policy, s, after) && Run(policy, s, after).stored == []
    ensures Run(policy, s, after).handlers == s.handlers - {0} && Run(policy, s, after).rows == map[]
  {
    var pdu := s.handlers[0].pdu;
    var s1 := Apply(policy, s, Claim(0, s.now));
    assert s1.handlers[0] == Claimed(pdu, s.now);
    var s2 := Apply(policy, s1, Persist(0, false));
    var s3 := Apply(policy, s2, Unmark(0));
    var s4 := Apply(policy, s3, Release(0));
    assert s4.rows == map[] && s4.handlers == s.handlers - {0};
    RunOfTwo(policy, s3, Release(0), []);
    RunOfTwo(policy, s2, Unmark(0), [Release(0)] + []);
    RunOfTwo(policy, s1, Persist(0, false), [Unmark(0)] + ([Release(0)] + []));
    RunOfTwo(policy, s, Claim(0, s.now), [Persist(0, false)] + ([Unmark(0)] + ([Release(0)] + [])));
    after := [Claim(0, s.now)] + ([Persist(0, false)] + ([Unmark(0)] + ([Release(0)] + [])));
  }

  /** So a sender can be told that a PDU is processed already and it is never stored: no other condition of
      `RepliesAreTrue` holds then, but that a handler was on it and had not stored. */
  lemma RepeatIsLost(policy: Policy, pdu: Pdu, start: Time) returns (before: seq<Step>, after: seq<Step>)
    requires InWindow(policy.res, pdu, start)
    ensures Allowed(policy, Init(start), before) && Enabled(policy, Run(policy, Init(start), before), Begin(1))
    ensures ReplyOf(policy, Run(policy, Init(start), before), Begin(1)) == Some(Repeat)
    ensures var s := Apply(policy, Run(policy, Init(start), before), Begin(1));
            Allowed(policy, s, after) && Run(policy, s, after).stored == [] && Run(policy, s, after).handlers == map[]
  {
    var s;
    s, before := FirstOfTwo(policy, pdu, start);
    AdmitsExactly(policy.res, s.memory, pdu.id, s.now);
    var t := Apply(policy, s, Begin(1));
    after := FirstFails(policy, t);
    assert t.handlers == map[0 := Begun(pdu, start)];
  }

  // ----- The table keeps its word

  lemma StepKeepsCompleted(policy: Policy, s: State, step: Step, key: Key, at: Time)
    requires Enabled(policy, s, step) && key in s.rows && s.rows[key] == Completed(at)
    requires s.now <= at + policy.retention
    ensures key in Apply(policy, s, step).rows && Apply(policy, s, step).rows[key] == Completed(at)
    ensures s.now <= Apply(policy, s, step).now
  {
  }

  lemma {:induction false} ClockGoesOn(policy: Policy, s: State, steps: seq<Step>)
    requires Allowed(policy, s, steps)
    ensures s.now <= Run(policy, s, steps).now
    decreases |steps|
  {
    if steps != [] {
      ClockGoesOn(policy, Apply(policy, s, steps[0]), steps[1..]);
    }
  }

  /**
   Over every run, whatever fails or comes late and however often the process restarts: a completed row is there until
   its retention is over, and until then every claim of its key is refused.
   */
  lemma {:induction false} CompletedIsKept(policy: Policy, s: State, steps: seq<Step>, key: Key, at: Time)
    requires Allowed(policy, s, steps) && key in s.rows && s.rows[key] == Completed(at)
    requires Run(policy, s, steps).now <= at + policy.retention
    ensures var t := Run(policy, s, steps);
            && key in t.rows && t.rows[key] == Completed(at)
            && forall h, leaseFrom ::
                 Enabled(policy, t, Claim(h, leaseFrom)) && KeyOf(t.handlers[h].pdu) == key ==>
                   Apply(policy, t, Claim(h, leaseFrom)).handlers[h] == Refused(t.handlers[h].pdu)
    decreases |steps|
  {
    if steps != [] {
      var next := Apply(policy, s, steps[0]);
      ClockGoesOn(policy, s, steps);
      StepKeepsCompleted(policy, s, steps[0], key, at);
      CompletedIsKept(policy, next, steps[1..], key, at);
    }
  }
}
