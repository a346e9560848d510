/**
 Claiming the generation of a summary: backend/src/ai_summary/service.rs and repository.rs.
 One entity, whose stored row is shared by any number of requests that interleave between
 database statements. Times are read from one clock that never runs backwards.
 */
module SummaryClaims {
  import opened Wrappers
  import opened Sequences

  datatype Status = Idle | Generating | Ready | Failed

  datatype Row = Row(id: nat, status: Status, requestedAt: int, userPrompt: Option<string>,
                     userPromptUsed: Option<string>, summaryText: Option<string>, errorMessage: Option<string>,
                     summarizedEntityCount: Option<int>, generatedAt: Option<int>)

  datatype Outcome = Summarized(text: string, entityCount: Option<int>) | GenerationFailed(message: string)

  const STALE_GENERATION_TIMEOUT := 5 * 60_000

  // ---------- Statements on the row ----------

  predicate Claimable(row: Option<Row>, staleBefore: int)
  {
    row.Some? && (row.value.status != Generating || row.value.requestedAt < staleBefore)
  }

  function MarkedGenerating(row: Row, now: int): Row
  {
    row.(status := Generating, requestedAt := now)
  }

  function NewRow(id: nat, status: Status, now: int, userPrompt: Option<string>): Row
  {
    Row(id, status, now, userPrompt, None, None, None, None, None)
  }

  function Recorded(row: Row, outcome: Outcome, promptUsed: Option<string>, now: int): Row
  {
    match outcome
    case Summarized(text, entityCount) =>
      row.(status := Ready, summaryText := Some(text), errorMessage := None, summarizedEntityCount := entityCount,
           userPromptUsed := promptUsed, generatedAt := Some(now))
    case GenerationFailed(message) => row.(status := Failed, errorMessage := Some(message))
  }

  /** The repository: each method is one statement, or a statement that looks the row up first. */
  class SummaryTable {
    var row: Option<Row>
    var nextId: nat

    constructor ()
      ensures row == None
    {
      row, nextId := None, 0;
    }

    method TryMarkGenerating(now: int, staleBefore: int) returns (affected: nat)
      modifies this`row
      ensures affected == if Claimable(old(row), staleBefore) then 1 else 0
      ensures row == if Claimable(old(row), staleBefore) then Some(MarkedGenerating(old(row).value, now)) else old(row)
    {
      affected := 0;
      if row.Some? && (row.value.status != Generating || row.value.requestedAt < staleBefore) {
        row := Some(row.value.(status := Generating, requestedAt := now));
        affected := 1;
      }
    }

    /** Fails when the unique index already holds the entity. */
    method InsertGenerating(now: int) returns (inserted: Option<Row>)
      modifies this
      ensures inserted.Some? <==> old(row).None?
      ensures row == if old(row).None? then Some(NewRow(old(nextId), Generating, now, None)) else old(row)
      ensures inserted.Some? ==> inserted == row
      ensures nextId == old(nextId) + if old(row).None? then 1 else 0
    {
      inserted := None;
      if row.None? {
        row := Some(Row(nextId, Generating, now, None, None, None, None, None, None));
        nextId := nextId + 1;
        inserted := row;
      }
    }

    method SetUserPrompt(now: int, userPrompt: Option<string>)
      modifies this
      ensures row == Some(if old(row).Some? then old(row).value.(userPrompt := userPrompt)
                          else NewRow(old(nextId), Idle, now, userPrompt))
      ensures nextId == old(nextId) + if old(row).None? then 1 else 0
    {
      if row.Some? {
        row := Some(row.value.(userPrompt := userPrompt));
      } else {
        row := Some(Row(nextId, Idle, now, userPrompt, None, None, None, None, None));
        nextId := nextId + 1;
      }
    }

    method RecordGenerationResult(now: int, outcome: Outcome, promptUsed: Option<string>) returns (found: bool)
      modifies this`row
      ensures found <==> old(row).Some?
      ensures row == if old(row).Some? then Some(Recorded(old(row).value, outcome, promptUsed, now)) else None
    {
      found := row.Some?;
      if found {
        match outcome
        case Summarized(text, entityCount) =>
          row := Some(row.value.(status := Ready, summaryText := Some(text), errorMessage := None,
                                 summarizedEntityCount := entityCount, userPromptUsed := promptUsed,
                                 generatedAt := Some(now)));
        case GenerationFailed(message) =>
          row := Some(row.value.(status := Failed, errorMessage := Some(message)));
      }
    }

    method DeleteForEntity()
      modifies this`row
      ensures row == None
    {
      row := None;
    }

    /** A request that nobody interrupts, with its clock reading. */
    method TryStartGeneration(now: int) returns (started: bool, userPrompt: Option<string>)
      modifies this
      ensures started <==> old(row).None? || Claimable(old(row), now - STALE_GENERATION_TIMEOUT)
      ensures !started ==> row == old(row)
      ensures started ==>
              row == Some(if old(row).Some? then old(row).value.(status := Generating, requestedAt := now)
                          else Row(old(nextId), Generating, now, None, None, None, None, None, None))
      ensures nextId == old(nextId) + if old(row).None? then 1 else 0
      ensures started ==>
              userPrompt == row.value.userPrompt == if old(row).Some? then old(row).value.userPrompt else None
    {
      var affected := TryMarkGenerating(now, now - STALE_GENERATION_TIMEOUT);
      if affected > 0 {
        return true, row.value.userPrompt;
      }
      if row.Some? {
        return false, None;
      }
      var inserted := InsertGenerating(now);
      return inserted.Some?, inserted.value.userPrompt;
    }
  }

  // ---------- Interleaved requests ----------

  type RequestId = nat

  /** How far one request got. */
  datatype Phase =
    | Begun(started: int)                             // the staleness bound was computed
    | Stamped(started: int, stamp: int)               // the conditional update is about to run
    | Missed(started: int)                            // it touched no row
    | Absent(started: int)                            // no row was found either
    | Inserting(started: int, stamp: int)             // the insert is about to run
    | Refused                                         // the insert failed
    | Claimed(stamp: int)                             // the claim is ours, the prompt not yet read
    | Working(stamp: int, prompt: Option<string>)     // the model is running
      // the row to record in was found, at clock `found`
    | Recording(stamp: int, prompt: Option<string>, rowId: nat, found: int)
    | PromptBegun(newPrompt: Option<string>)
    | PromptFound(newPrompt: Option<string>, rowId: nat)
    | PromptAbsent(newPrompt: Option<string>)
    | Over

  /** The run holds a claim it has neither recorded nor lost. */
  predicate Live(phase: Phase)
  {
    phase.Claimed? || phase.Working? || phase.Recording?
  }

  datatype Event =
    | ClaimEvent(request: RequestId, started: int, stamp: int)
    | RecordEvent(request: RequestId)
    | DeleteEvent

  datatype System = System(row: Option<Row>, nextId: nat, clock: int, requests: map<RequestId, Phase>, log: seq<Event>)

  datatype Step =
    | Tick(elapsed: nat)
    | Begin(r: RequestId)
    | ReadClock(r: RequestId)
    | TryMark(r: RequestId)
    | Look(r: RequestId)
    | TryInsert(r: RequestId)
    | Snapshot(r: RequestId)
    | FindToRecord(r: RequestId)
    | Record(r: RequestId, outcome: Outcome)
    | Lose(r: RequestId)
    | BeginPrompt(r: RequestId, newPrompt: Option<string>)
    | FindToPrompt(r: RequestId)
    | WritePrompt(r: RequestId)
    | Delete

  function Start(clock: int): System
  {
    System(None, 0, clock, map[], [])
  }

  function Go(s: System, r: RequestId, phase: Phase): System
  {
    s.(requests := s.requests[r := phase])
  }

  function Log(s: System, e: Event): System
  {
    s.(log := s.log + [e])
  }

  /** One step of one request; a step its request is not ready for changes nothing. */
  function Next(s: System, step: Step): System
  {
    match step
    case Tick(elapsed) => s.(clock := s.clock + elapsed)
    case Delete => Log(s.(row := None), DeleteEvent)
    case Begin(r) => if r in s.requests then s else Go(s, r, Begun(s.clock))
    case BeginPrompt(r, newPrompt) => if r in s.requests then s else Go(s, r, PromptBegun(newPrompt))
    case _ => if step.r in s.requests then Continue(s, step.r, s.requests[step.r], step) else s
  }

  function Continue(s: System, r: RequestId, phase: Phase, step: Step): System
    requires !step.Tick? && !step.Delete?
  {
    match (step, phase)
    case (ReadClock(_), Begun(started)) => Go(s, r, Stamped(started, s.clock))
    case (TryMark(_), Stamped(started, stamp)) =>
      if Claimable(s.row, started - STALE_GENERATION_TIMEOUT) then
        Log(Go(s.(row := Some(MarkedGenerating(s.row.value, stamp))), r, Claimed(stamp)), ClaimEvent(r, started, stamp))
      else Go(s, r, Missed(started))
    case (Look(_), Missed(started)) => if s.row.Some? then Go(s, r, Over) else Go(s, r, Absent(started))
    case (ReadClock(_), Absent(started)) => Go(s, r, Inserting(started, s.clock))
    case (TryInsert(_), Inserting(started, stamp)) =>
      if s.row.None? then
        Log(Go(s.(row := Some(NewRow(s.nextId, Generating, stamp, None)), nextId := s.nextId + 1), r,
               Working(stamp, None)),
            ClaimEvent(r, started, stamp))
      else Go(s, r, Refused)
    case (Look(_), Refused) => Go(s, r, Over)
    case (Snapshot(_), Claimed(stamp)) => Go(s, r, Working(stamp, if s.row.Some? then s.row.value.userPrompt else None))
    case (FindToRecord(_), Working(stamp, prompt)) =>
      if s.row.Some? then Go(s, r, Recording(stamp, prompt, s.row.value.id, s.clock)) else Go(s, r, Over)
    case (Record(_, outcome), Recording(_, prompt, rowId, now)) =>
      if s.row.Some? && s.row.value.id == rowId then
        Log(Go(s.(row := Some(Recorded(s.row.value, outcome, prompt, now))), r, Over), RecordEvent(r))
      else Go(s, r, Over)
    case (Lose(_), _) => Go(s, r, Over)
    case (FindToPrompt(_), PromptBegun(newPrompt)) =>
      if s.row.Some? then Go(s, r, PromptFound(newPrompt, s.row.value.id)) else Go(s, r, PromptAbsent(newPrompt))
    case (WritePrompt(_), PromptFound(newPrompt, rowId)) =>
      if s.row.Some? && s.row.value.id == rowId then
        Go(s.(row := Some(s.row.value.(userPrompt := newPrompt))), r, Over)
      else Go(s, r, Over)
    case (WritePrompt(_), PromptAbsent(newPrompt)) =>
      if s.row.None? then
        Go(s.(row := Some(NewRow(s.nextId, Idle, s.clock, newPrompt)), nextId := s.nextId + 1), r, Over)
      else Go(s, r, Over)
    case _ => s
  }

  function Run(s: System, steps: seq<Step>): System
  {
    if steps == [] then s else Next(Run(s, steps[..|steps| - 1]), steps[|steps| - 1])
  }

  predicate StepOf(step: Step, r: RequestId)
  {
    !step.Tick? && !step.Delete? && step.r == r
  }

  lemma {:induction false} RunAppend(s: System, a: seq<Step>, b: seq<Step>)
    ensures Run(s, a + b) == Run(Run(s, a), b)
    decreases |b|
  {
    if b == [] {
      Unit(a);
    } else {
      var init := b[..|b| - 1];
      assert (a + b)[..|a + b| - 1] == a + init;
      RunAppend(s, a, init);
    }
  }

  lemma RunThree(s: System, a: Step, b: Step, c: Step)
    ensures Run(s, [a, b, c]) == Next(Next(Next(s, a), b), c)
  {
    hide Next;
    assert [a, b, c][..2] == [a, b] && [a, b][..1] == [a] && [a][..0] == [];
    assert Run(s, []) == s;
    assert Run(s, [a]) == Next(s, a);
    assert Run(s, [a, b]) == Next(Next(s, a), b);
  }

  // ---------- Claims exclude each other ----------

  /** The stamp of the last claim, unless a record or a deletion ended it. */
  function Holder(log: seq<Event>): Option<int>
  {
    if log == [] then None
    else
      match log[|log| - 1]
      case ClaimEvent(_, _, stamp) => Some(stamp)
      case _ => None
  }

  predicate HolderStored(s: System)
  {
    var holder := Holder(s.log);
    holder.Some? ==> s.row.Some? && s.row.value.status == Generating && s.row.value.requestedAt == holder.value
  }

  /** The claim at position j either follows the end of the one before it, or came too late for it. */
  predicate Excluded(log: seq<Event>, j: nat)
    requires j < |log|
  {
    var holder := Holder(log[..j]);
    log[j].ClaimEvent? && holder.Some? ==> log[j].started > holder.value + STALE_GENERATION_TIMEOUT
  }

  lemma NextKeepsExclusion(s: System, step: Step)
    requires HolderStored(s)
    ensures HolderStored(Next(s, step))
    ensures s.log <= Next(s, step).log && |Next(s, step).log| <= |s.log| + 1
    ensures |Next(s, step).log| == |s.log| + 1 ==> Excluded(Next(s, step).log, |s.log|)
  {
    var log := Next(s, step).log;
    assert |log| == |s.log| + 1 ==> log[..|s.log|] == s.log;
  }

  lemma {:induction false} RunKeepsExclusion(clock: int, steps: seq<Step>)
    ensures HolderStored(Run(Start(clock), steps))
    ensures forall j :: 0 <= j < |Run(Start(clock), steps).log| ==> Excluded(Run(Start(clock), steps).log, j)
    decreases |steps|
  {
    if steps != [] {
      var before := Run(Start(clock), steps[..|steps| - 1]);
      var after := Next(before, steps[|steps| - 1]);
      RunKeepsExclusion(clock, steps[..|steps| - 1]);
      NextKeepsExclusion(before, steps[|steps| - 1]);
      forall j | 0 <= j < |after.log|
        ensures Excluded(after.log, j)
      {
        if j < |before.log| {
          assert after.log[j] == before.log[j] && after.log[..j] == before.log[..j];
          assert Excluded(before.log, j);
        }
      }
    }
  }

  /**
   In every interleaving of any number of requests, two consecutive claims are separated by a
   recorded result or a deletion, or the later request began more than five minutes after
   the earlier claim's stamp.
   */
  lemma ConsecutiveClaims(clock: int, steps: seq<Step>, i: nat, j: nat)
    requires var log := Run(Start(clock), steps).log;
             i < j < |log| && log[i].ClaimEvent? && log[j].ClaimEvent? &&
             forall k :: i < k < j ==> !log[k].ClaimEvent?
    ensures var log := Run(Start(clock), steps).log;
            (exists k :: i < k < j && (log[k].RecordEvent? || log[k].DeleteEvent?)) ||
            log[j].started > log[i].stamp + STALE_GENERATION_TIMEOUT
  {
    RunKeepsExclusion(clock, steps);
    var log := Run(Start(clock), steps).log;
    if j == i + 1 {
      assert Excluded(log, j);
      assert log[..j][|log[..j]| - 1] == log[i];
    } else {
      assert log[i + 1].RecordEvent? || log[i + 1].DeleteEvent?;
    }
  }

  /** Every live run is within five minutes of its stamp. */
  predicate Timely(s: System)
  {
    forall r :: r in s.requests && Live(s.requests[r]) ==> s.clock <= s.requests[r].stamp + STALE_GENERATION_TIMEOUT
  }

  predicate Quiet(s: System)
  {
    forall r :: r in s.requests ==> !Live(s.requests[r])
  }

  /** No run overstays its five minutes, and the row is not deleted under a live run. */
  predicate WellBehaved(s: System, steps: seq<Step>)
  {
    forall k :: 0 <= k < |steps| ==>
      Timely(Run(s, steps[..k])) && (steps[k].Delete? ==> Quiet(Run(s, steps[..k])))
  }

  /** The row names the one live run; clock readings are in the past. */
  predicate LiveStored(s: System)
  {
    && (forall r :: r in s.requests && Live(s.requests[r]) ==>
          s.row.Some? && s.row.value.status == Generating && s.row.value.requestedAt == s.requests[r].stamp)
    && (forall r, q :: r in s.requests && q in s.requests && Live(s.requests[r]) && Live(s.requests[q]) ==> r == q)
    && (forall r :: r in s.requests && (s.requests[r].Begun? || s.requests[r].Stamped?) ==>
      s.requests[r].started <= s.clock)
  }

  function Stored(row: Option<Row>): Option<(Status, int)>
  {
    if row.Some? then Some((row.value.status, row.value.requestedAt)) else None
  }

  function Has(s: System, r: RequestId): Phase
  {
    if r in s.requests then s.requests[r] else Over
  }

  predicate Asking(phase: Phase)
  {
    phase.Begun? || phase.Stamped?
  }

  /** A request takes the claim: the row was free, or stale for a request begun when this one was. */
  predicate Takes(s: System, next: System, r: RequestId)
  {
    var before, after := Has(s, r), Has(next, r);
    !Live(before) && Live(after) && Stored(next.row) == Some((Generating, after.stamp)) &&
    (s.row.None? || (before.Stamped? && Claimable(s.row, before.started - STALE_GENERATION_TIMEOUT)))
  }

  /** What a step can do to its request and to the part of the row that carries the claim. */
  ghost predicate Effect(s: System, next: System, r: RequestId)
  {
    var before, after := Has(s, r), Has(next, r);
    && (forall q :: q != r ==> Has(next, q) == Has(s, q))
    && next.clock == s.clock
    && (Takes(s, next, r) || (s.row.None? && !Live(after)) || (Live(before) && !Live(after)) ||
        (Stored(next.row) == Stored(s.row) && (Live(after) ==> Live(before) && after.stamp == before.stamp)))
    && (Asking(after) ==> after.started == s.clock || (Asking(before) && after.started == before.started))
  }

  lemma NextEffect(s: System, step: Step, r: RequestId)
    requires StepOf(step, r)
    ensures Effect(s, Next(s, step), r)
  {
  }

  lemma EffectKeepsLiveStored(s: System, next: System, r: RequestId)
    requires LiveStored(s) && Timely(s) && Effect(s, next, r)
    ensures LiveStored(next)
  {
    forall q | q != r && Live(Has(next, q))
      ensures !Live(Has(next, r)) && Stored(next.row) == Some((Generating, Has(next, q).stamp))
    {
      assert q in s.requests && s.requests[q] == Has(next, q);
      assert Live(Has(s, r)) ==> r in s.requests;
    }
    forall q | q in next.requests
      ensures Has(next, q) == next.requests[q]
      ensures Asking(next.requests[q]) ==> next.requests[q].started <= next.clock
    {
    }
  }

  lemma NextKeepsLiveStored(s: System, step: Step)
    requires LiveStored(s) && Timely(s) && (step.Delete? ==> Quiet(s))
    ensures LiveStored(Next(s, step))
  {
    if !step.Tick? && !step.Delete? {
      hide Next, Effect;
      NextEffect(s, step, step.r);
      EffectKeepsLiveStored(s, Next(s, step), step.r);
    }
  }

  /** If runs record within five minutes and no row is deleted under them, at most one is live. */
  lemma {:induction false} AtMostOneLive(clock: int, steps: seq<Step>, r: RequestId, q: RequestId)
    requires WellBehaved(Start(clock), steps)
    ensures LiveStored(Run(Start(clock), steps))
    ensures var s := Run(Start(clock), steps);
            r in s.requests && q in s.requests && Live(s.requests[r]) && Live(s.requests[q]) ==> r == q
    decreases |steps|
  {
    if steps != [] {
      var n := |steps| - 1;
      assert WellBehaved(Start(clock), steps[..n]) by {
        forall k | 0 <= k < n
          ensures Timely(Run(Start(clock), steps[..n][..k])) &&
                  (steps[..n][k].Delete? ==> Quiet(Run(Start(clock), steps[..n][..k])))
        {
          assert steps[..n][..k] == steps[..k];
        }
      }
      AtMostOneLive(clock, steps[..n], r, q);
      NextKeepsLiveStored(Run(Start(clock), steps[..n]), steps[n]);
    }
  }

  /**
   The hypothesis is needed: a run that overstays records without owning the claim any more,
   so the run that took over from it and a third one are live at the same time, both in time.
   */
  lemma OverdueRecordAdmitsTwo()
    returns (steps: seq<Step>)
    ensures var s := Run(Start(0), steps);
            1 in s.requests && 2 in s.requests && Live(s.requests[1]) && Live(s.requests[2]) && Timely(s)
  {
    hide Next, Run;
    var a, b := [Begin(0), ReadClock(0), TryMark(0)], [Look(0), ReadClock(0), TryInsert(0)];
    var c, d := [FindToRecord(0), Tick(LATE), Begin(1)], [ReadClock(1), TryMark(1), Record(0, GenerationFailed(""))];
    var e := [Begin(2), ReadClock(2), TryMark(2)];
    steps := a + b + c + d + e;
    RunAppend(Start(0), a, b);
    RunAppend(Start(0), a + b, c);
    RunAppend(Start(0), a + b + c, d);
    RunAppend(Start(0), a + b + c + d, e);
    FirstRunMisses();
    FirstRunInserts();
    FirstRunOverstays();
    SecondRunTakesOver();
    ThirdRunClaims();
  }

  /**
   So is the other one: when the row is deleted under a live run, the next request inserts a new
   one and both runs are live, without any time passing.
   */
  lemma DeletionAdmitsTwo() returns (steps: seq<Step>)
    ensures forall k :: 0 <= k < |steps| ==> !steps[k].Tick?
    ensures var s := Run(Start(0), steps);
            0 in s.requests && 1 in s.requests && Live(s.requests[0]) && Live(s.requests[1]) && Timely(s)
  {
    hide Next, Run;
    var a, b := [Begin(0), ReadClock(0), TryMark(0)], [Look(0), ReadClock(0), TryInsert(0)];
    var c, d := [Delete, Begin(1), ReadClock(1)], [TryMark(1), Look(1), ReadClock(1)];
    steps := a + b + c + d + [TryInsert(1)];
    RunAppend(Start(0), a, b);
    RunAppend(Start(0), a + b, c);
    RunAppend(Start(0), a + b + c, d);
    RunSnoc(Start(0), a + b + c + d, TryInsert(1));
    FirstRunMisses();
    FirstRunInserts();
    RowIsDeleted();
    NextRunFindsNothing();
    NextRunInserts();
  }

  lemma RunSnoc(s: System, steps: seq<Step>, last: Step)
    ensures Run(s, steps + [last]) == Next(Run(s, steps), last)
  {
    hide Next;
    assert (steps + [last])[..|steps|] == steps;
  }

  const AFTER_DELETE := System(None, 1, 0, map[0 := Working(0, None), 1 := Stamped(0, 0)],
    [ClaimEvent(0, 0, 0), DeleteEvent])

  lemma RowIsDeleted()
    ensures Run(AFTER_INSERT, [Delete, Begin(1), ReadClock(1)]) == AFTER_DELETE
  {
    RunThree(AFTER_INSERT, Delete, Begin(1), ReadClock(1));
  }

  lemma NextRunFindsNothing()
    ensures Run(AFTER_DELETE, [TryMark(1), Look(1), ReadClock(1)]) ==
            AFTER_DELETE.(requests := map[0 := Working(0, None), 1 := Inserting(0, 0)])
  {
    RunThree(AFTER_DELETE, TryMark(1), Look(1), ReadClock(1));
  }

  lemma NextRunInserts()
    ensures var s := Next(AFTER_DELETE.(requests := map[0 := Working(0, None), 1 := Inserting(0, 0)]), TryInsert(1));
            s.clock == 0 && s.requests == map[0 := Working(0, None), 1 := Working(0, None)]
  {
  }

  const LATE := STALE_GENERATION_TIMEOUT + 1

  const ROW := NewRow(0, Generating, 0, None)

  const FAILED_ROW := ROW.(status := Failed, requestedAt := LATE, errorMessage := Some(""))

  const AFTER_MISS := System(None, 0, 0, map[0 := Missed(0)], [])

  const AFTER_INSERT := System(Some(ROW), 1, 0, map[0 := Working(0, None)], [ClaimEvent(0, 0, 0)])

  const AFTER_OVERSTAY := System(Some(ROW), 1, LATE, map[0 := Recording(0, None, 0, 0), 1 := Begun(LATE)],
    [ClaimEvent(0, 0, 0)])

  const AFTER_TAKEOVER := System(Some(FAILED_ROW), 1, LATE, map[0 := Over, 1 := Claimed(LATE)],
                                 [ClaimEvent(0, 0, 0), ClaimEvent(1, LATE, LATE), RecordEvent(0)])

  lemma FirstRunMisses()
    ensures Run(Start(0), [Begin(0), ReadClock(0), TryMark(0)]) == AFTER_MISS
  {
    RunThree(Start(0), Begin(0), ReadClock(0), TryMark(0));
  }

  lemma FirstRunInserts()
    ensures Run(AFTER_MISS, [Look(0), ReadClock(0), TryInsert(0)]) == AFTER_INSERT
  {
    RunThree(AFTER_MISS, Look(0), ReadClock(0), TryInsert(0));
  }

  lemma FirstRunOverstays()
    ensures Run(AFTER_INSERT, [FindToRecord(0), Tick(LATE), Begin(1)]) == AFTER_OVERSTAY
  {
    RunThree(AFTER_INSERT, FindToRecord(0), Tick(LATE), Begin(1));
  }

  lemma SecondRunTakesOver()
    ensures Run(AFTER_OVERSTAY, [ReadClock(1), TryMark(1), Record(0, GenerationFailed(""))]) == AFTER_TAKEOVER
  {
    RunThree(AFTER_OVERSTAY, ReadClock(1), TryMark(1), Record(0, GenerationFailed("")));
  }

  lemma ThirdRunClaims()
    ensures Run(AFTER_TAKEOVER, [Begin(2), ReadClock(2), TryMark(2)]) ==
            System(Some(FAILED_ROW.(status := Generating)), 1, LATE,
                   map[0 := Over, 1 := Claimed(LATE), 2 := Claimed(LATE)],
                   AFTER_TAKEOVER.log + [ClaimEvent(2, LATE, LATE)])
  {
    RunThree(AFTER_TAKEOVER, Begin(2), ReadClock(2), TryMark(2));
  }

  // ---------- A lost run does not block its entity ----------

  /**
   Whatever left the row GENERATING, a request claims it exactly when it began more than five
   minutes after the row's stamp; otherwise it reports the run in progress.
   */
  lemma ClaimableExactlyWhenStale(s: System, r: RequestId)
    requires s.row.Some? && s.row.value.status == Generating
    requires r in s.requests && s.requests[r].Begun?
    ensures var after := Run(s, [ReadClock(r), TryMark(r), Look(r)]);
            var claims := s.requests[r].started > s.row.value.requestedAt + STALE_GENERATION_TIMEOUT;
            (Live(Has(after, r)) <==> claims) &&
            (!claims ==> Has(after, r).Over? && after.row == s.row) &&
            (claims ==> after.row == Some(s.row.value.(status := Generating, requestedAt := s.clock)))
  {
    RunThree(s, ReadClock(r), TryMark(r), Look(r));
  }

  lemma RunFive(s: System, a: Step, b: Step, c: Step, d: Step, e: Step)
    ensures Run(s, [a, b, c, d, e]) == Next(Next(Next(Next(Next(s, a), b), c), d), e)
  {
    hide Next;
    RunThree(s, a, b, c);
    RunSnoc(s, [a, b, c], d);
    RunSnoc(s, [a, b, c, d], e);
    assert [a, b, c] + [d] == [a, b, c, d] && [a, b, c, d] + [e] == [a, b, c, d, e];
  }

  /** Everything a request does until it has the claim or gives up. */
  function Attempt(q: RequestId): seq<Step>
  {
    [ReadClock(q), TryMark(q), Look(q), ReadClock(q), TryInsert(q)]
  }

  /** In any state, a fresh request that nobody disturbs starts exactly when there is no row or a claimable one. */
  lemma FreshRequestStarts(s: System, q: RequestId)
    requires q !in s.requests
    ensures Live(Has(Run(Next(s, Begin(q)), Attempt(q)), q)) <==>
            s.row.None? || s.row.value.status != Generating || s.row.value.requestedAt < s.clock - 300_000
  {
    RunFive(Next(s, Begin(q)), ReadClock(q), TryMark(q), Look(q), ReadClock(q), TryInsert(q));
    hide Run;
  }

  /** Whenever a row is deleted under a live run, the next undisturbed request starts beside it. */
  lemma DeletionAdmitsAnother(s: System, r: RequestId, q: RequestId)
    requires r in s.requests && Live(s.requests[r]) && q !in s.requests
    ensures var after := Run(Next(Next(s, Delete), Begin(q)), Attempt(q));
            Live(Has(after, r)) && Live(Has(after, q))
  {
    FreshRequestStarts(Next(s, Delete), q);
    hide Run;
    OthersLeaveRequest(Next(Next(s, Delete), Begin(q)), Attempt(q), r);
  }

  /**
   While a run is live in a well-behaved system, a fresh request that nobody disturbs starts
   exactly when the clock has passed the run's five minutes.
   */
  lemma FreshRequestStartsIffOverdue(clock: int, steps: seq<Step>, r: RequestId, q: RequestId)
    requires WellBehaved(Start(clock), steps)
    requires var s := Run(Start(clock), steps);
             r in s.requests && Live(s.requests[r]) && q !in s.requests
    ensures var s := Run(Start(clock), steps);
            Live(Has(Run(Next(s, Begin(q)), [ReadClock(q), TryMark(q), Look(q)]), q)) <==>
            s.clock > s.requests[r].stamp + STALE_GENERATION_TIMEOUT
  {
    var s := Run(Start(clock), steps);
    AtMostOneLive(clock, steps, r, r);
    hide Run;
    ClaimableExactlyWhenStale(Next(s, Begin(q)), q);
  }

  // ---------- The prompt a run is recorded with ----------

  lemma {:induction false} OthersLeaveRequest(s: System, steps: seq<Step>, r: RequestId)
    requires forall k :: 0 <= k < |steps| ==> !StepOf(steps[k], r)
    ensures Has(Run(s, steps), r) == Has(s, r)
    decreases |steps|
  {
    if steps != [] {
      var init, step := steps[..|steps| - 1], steps[|steps| - 1];
      OthersLeaveRequest(s, init, r);
      if !step.Tick? && !step.Delete? {
        NextEffect(Run(s, init), step, step.r);
      }
    }
  }

  /** The row with the outcome in it: a result replaces the old one and clears the error, a failure keeps the result. */
  predicate RecordedAs(before: Row, after: Row, outcome: Outcome, promptUsed: Option<string>, found: int)
  {
    && after.id == before.id && after.requestedAt == before.requestedAt && after.userPrompt == before.userPrompt
    && match outcome
       case Summarized(text, entityCount) =>
         && after.status == Ready && after.summaryText == Some(text) && after.errorMessage == None
         && after.summarizedEntityCount == entityCount && after.generatedAt == Some(found)
         && after.userPromptUsed == promptUsed
       case GenerationFailed(message) =>
         && after.status == Failed && after.errorMessage == Some(message) && after.summaryText == before.summaryText
         && after.summarizedEntityCount == before.summarizedEntityCount && after.generatedAt == before.generatedAt
         && after.userPromptUsed == before.userPromptUsed
  }

  lemma RecordingRun(s: System, r: RequestId, outcome: Outcome)
    ensures Has(s, r).Claimed? && s.row.Some? ==>
            Has(Next(s, Snapshot(r)), r) == Working(Has(s, r).stamp, s.row.value.userPrompt)
    ensures Has(s, r).Working? ==>
              Has(Next(s, FindToRecord(r)), r) ==
              if s.row.Some? then Recording(Has(s, r).stamp, Has(s, r).prompt, s.row.value.id, s.clock) else Over
    ensures Has(s, r).Over? ==> Next(s, Record(r, outcome)).row == s.row
    ensures Has(s, r).Recording? ==>
              var after := Next(s, Record(r, outcome)).row;
              if s.row.Some? && s.row.value.id == Has(s, r).rowId
              then after.Some? && RecordedAs(s.row.value, after.value, outcome, Has(s, r).prompt, Has(s, r).found)
              else after == s.row
  {
  }

  /**
   Whatever others do between a run's snapshot and its record, prompt edits included: if the row it
   found is still there, its outcome is recorded with the prompt it read, its time is when it found
   the row, and the edited prompt stays; otherwise nothing is changed.
   */
  lemma SnapshotIsRecorded(s: System, r: RequestId, during: seq<Step>, finding: seq<Step>, outcome: Outcome)
    requires r in s.requests && s.requests[r].Claimed? && s.row.Some?
    requires forall k :: 0 <= k < |during| ==> !StepOf(during[k], r)
    requires forall k :: 0 <= k < |finding| ==> !StepOf(finding[k], r)
    ensures var read := Run(Next(s, Snapshot(r)), during);
            var found := Run(Next(read, FindToRecord(r)), finding);
            var after := Next(found, Record(r, outcome));
            if read.row.Some? && found.row.Some? && found.row.value.id == read.row.value.id
            then after.row.Some? &&
                 RecordedAs(found.row.value, after.row.value, outcome, s.row.value.userPrompt, read.clock)
            else after.row == found.row
  {
    hide Next, Run, RecordedAs;
    var read := Run(Next(s, Snapshot(r)), during);
    var found := Run(Next(read, FindToRecord(r)), finding);
    RecordingRun(s, r, outcome);
    OthersLeaveRequest(Next(s, Snapshot(r)), during, r);
    RecordingRun(read, r, outcome);
    OthersLeaveRequest(Next(read, FindToRecord(r)), finding, r);
    RecordingRun(found, r, outcome);
  }

  /** An edit of the prompt that nobody disturbs changes the prompt alone, or makes an idle row. */
  lemma PromptIsStored(s: System, r: RequestId, newPrompt: Option<string>)
    requires r !in s.requests
    ensures var after := Run(s, [BeginPrompt(r, newPrompt), FindToPrompt(r), WritePrompt(r)]).row;
            after == Some(if s.row.Some? then s.row.value.(userPrompt := newPrompt)
                          else Row(s.nextId, Idle, s.clock, newPrompt, None, None, None, None, None))
  {
    RunThree(s, BeginPrompt(r, newPrompt), FindToPrompt(r), WritePrompt(r));
    hide Run;
  }

  lemma ClaimReadsPrompt(s: System, q: RequestId)
    requires q !in s.requests && s.row.Some? && Claimable(s.row, s.clock - STALE_GENERATION_TIMEOUT)
    ensures var after := Next(Run(Next(s, Begin(q)), Attempt(q)), Snapshot(q));
            Has(after, q) == Working(s.clock, s.row.value.userPrompt) &&
            after.row == Some(s.row.value.(status := Generating, requestedAt := s.clock))
  {
    RunFive(Next(s, Begin(q)), ReadClock(q), TryMark(q), Look(q), ReadClock(q), TryInsert(q));
    hide Run;
  }

  lemma InsertReadsNoPrompt(s: System, q: RequestId)
    requires q !in s.requests && s.row.None?
    ensures var after := Next(Run(Next(s, Begin(q)), Attempt(q)), Snapshot(q));
            Has(after, q) == Working(s.clock, None) &&
            after.row == Some(Row(s.nextId, Generating, s.clock, None, None, None, None, None, None))
  {
    RunFive(Next(s, Begin(q)), ReadClock(q), TryMark(q), Look(q), ReadClock(q), TryInsert(q));
    hide Run;
  }

  /** A run that starts reads the prompt that is in the row, and starting changes its status and stamp alone. */
  lemma StartReadsPrompt(s: System, q: RequestId)
    requires q !in s.requests
    requires s.row.None? || s.row.value.status != Generating || s.row.value.requestedAt < s.clock - 300_000
    ensures var after := Next(Run(Next(s, Begin(q)), Attempt(q)), Snapshot(q));
            Has(after, q) == Working(s.clock, if s.row.Some? then s.row.value.userPrompt else None) &&
            after.row == Some(if s.row.Some? then s.row.value.(status := Generating, requestedAt := s.clock)
                              else Row(s.nextId, Generating, s.clock, None, None, None, None, None, None))
  {
    hide Run, Next, Attempt;
    if s.row.Some? {
      ClaimReadsPrompt(s, q);
    } else {
      InsertReadsNoPrompt(s, q);
    }
  }
}
