/**
 Finishing an answer: the producing task and the persisting task of `execute_completion` in
 backend/src/conversational_analytics/conversation/service.rs, joined by a bounded channel.
 Every step of either task may interleave with the other, and every store call may fail,
 with or without having taken effect. Within the pipeline several senders may be at work at once,
 as the narration and the visualization are.
 */
module CompletionPipeline {
  import opened Wrappers
  import opened Sequences

  const CHANNEL_SIZE := 32

  datatype Event =
    | Progress(kind: nat)
    | Narrated(narration: string)
    | Completed
    | AwaitingClarification
    | Rejected
    | Error(message: string)
  {
    predicate Terminal()
    {
      !Progress? && !Narrated?
    }
  }

  datatype MessageStatus =
    StatusProcessing | StatusProcessed | StatusAwaitingClarification | StatusRejected | StatusFailed

  datatype ContentType = Narration | DataAnalysisResponse

  datatype ContentRow = ContentRow(sequenceNumber: nat, contentType: ContentType, event: Event)

  datatype Outcome = OutcomeCompleted | OutcomeAwaitingClarification | OutcomeRejected | OutcomeError(message: string)

  function FinalEvent(outcome: Outcome): Event
  {
    match outcome
    case OutcomeCompleted => Completed
    case OutcomeAwaitingClarification => AwaitingClarification
    case OutcomeRejected => Rejected
    case OutcomeError(message) => Error(message)
  }

  function FinalStatus(outcome: Outcome): MessageStatus
  {
    match outcome
    case OutcomeCompleted => StatusProcessed
    case OutcomeAwaitingClarification => StatusAwaitingClarification
    case OutcomeRejected => StatusRejected
    case OutcomeError(_) => StatusFailed
  }

  function ContentTypeForEvent(event: Event): ContentType
  {
    if event.Narrated? then Narration else DataAnalysisResponse
  }

  // ---------- The two tasks ----------

  datatype Producer =
    | Running                                            // inside the pipeline
    | Sending(event: Event, status: MessageStatus)       // the final event is to be queued
    | Joining(queued: bool, event: Event, status: MessageStatus) // channel closed, awaiting the persister
    | Storing(event: Event, status: MessageStatus)       // the status is to be written
    | Announcing(event: Event)                           // the final event is to be sent to the client
    | Finished

  type Sender = nat

  /** An event on its way. */
  datatype Send =
    | Telling(event: Event, both: bool)                  // waiting for room in the client's channel
    | Offering(event: Event)                             // sent to the client, not yet to the persister

  datatype Persister = Reading | Succeeded | Broken

  /**
   `sends` is what each sender of the pipeline has on its way. `sse` is what was offered to the
   client, of which the last `unread` events are still in its channel; `accepted` and `outcome`
   record what happened, and no task reads them.
   */
  datatype System = System(
    producer: Producer, sends: map<Sender, Send>, persister: Persister, queue: seq<Event>, accepted: seq<Event>,
    rows: seq<ContentRow>, stored: MessageStatus, sse: seq<Event>, outcome: Option<Outcome>,
    unread: nat, clientGone: bool)

  datatype StoreResult = StoreOk | StoreFailed(written: bool)

  datatype Step =
    | SendSseOnly(sender: Sender, event: Event)
    | SendToClient(sender: Sender, event: Event)
    | Deliver(sender: Sender)
    | SendToPersister(sender: Sender)
    | EndPipeline(outcome: Outcome)
    | SendFinal
    | Join
    | StoreStatus(result: StoreResult)
    | Announce
    | Persist(result: StoreResult)
    | CloseChannel
    | PersisterPanics
    | ClientReads
    | ClientLeaves

  const START := System(Running, map[], Reading, [], [], [], StatusProcessing, [], None, 0, false)

  const SAVE_FAILED := Error("Failed to save the answer")
  const STATUS_FAILED := Error("Failed to save the answer status")

  predicate ChannelOpen(s: System)
  {
    s.producer.Running? || s.producer.Sending?
  }

  /** A bounded channel takes an event unless it is full or its reader is gone. */
  predicate Accepts(s: System)
  {
    s.persister.Reading? && |s.queue| < CHANNEL_SIZE
  }

  /** The client's channel is bounded too; an event for a client that left is dropped. */
  predicate ClientTakes(s: System)
  {
    s.clientGone || s.unread < CHANNEL_SIZE
  }

  function Offered(s: System, event: Event): System
  {
    s.(sse := s.sse + [event], unread := if s.clientGone then 0 else s.unread + 1)
  }

  function Queued(s: System, event: Event): System
  {
    s.(queue := s.queue + [event], accepted := s.accepted + [event])
  }

  function WithRow(s: System, event: Event): System
  {
    s.(rows := s.rows + [ContentRow(|s.rows| + 1, ContentTypeForEvent(event), event)])
  }

  function Broke(s: System): System
  {
    s.(persister := Broken, queue := [])
  }

  /** A sender that is at work starts no other event. */
  function Began(s: System, sender: Sender, event: Event, both: bool): System
  {
    if s.producer.Running? && sender !in s.sends && !event.Terminal()
    then s.(sends := s.sends[sender := Telling(event, both)])
    else s
  }

  /** One step of one task; a step its task is not ready for changes nothing. */
  function Next(s: System, step: Step): System
  {
    match step
    case SendSseOnly(sender, event) => Began(s, sender, event, false)
    case SendToClient(sender, event) => Began(s, sender, event, true)
    case Deliver(sender) =>
      if sender in s.sends && s.sends[sender].Telling? && ClientTakes(s) then
        var send := s.sends[sender];
        Offered(s, send.event).(sends := if send.both then s.sends[sender := Offering(send.event)]
                                         else s.sends - {sender})
      else s
    case SendToPersister(sender) =>
      if sender !in s.sends || !s.sends[sender].Offering? then s
      else if Accepts(s) then Queued(s, s.sends[sender].event).(sends := s.sends - {sender})
      else if s.persister.Broken? then s.(sends := s.sends - {sender})
      else s
    case EndPipeline(outcome) =>
      if s.producer.Running? && s.sends == map[]
      then s.(producer := Sending(FinalEvent(outcome), FinalStatus(outcome)), outcome := Some(outcome))
      else s
    case SendFinal =>
      if !s.producer.Sending? then s
      else if Accepts(s)
      then Queued(s, s.producer.event).(producer := Joining(true, s.producer.event, s.producer.status))
      else if s.persister.Broken? then s.(producer := Joining(false, s.producer.event, s.producer.status))
      else s
    case Join =>
      if !s.producer.Joining? || s.persister.Reading? then s
      else if s.persister.Succeeded? && s.producer.queued
      then s.(producer := Storing(s.producer.event, s.producer.status))
      else s.(producer := Storing(SAVE_FAILED, StatusFailed))
    case StoreStatus(result) =>
      if !s.producer.Storing? then s
      else
        (match result
         case StoreOk => s.(stored := s.producer.status, producer := Announcing(s.producer.event))
         case StoreFailed(written) =>
           s.(stored := if written then s.producer.status else s.stored, producer := Announcing(STATUS_FAILED)))
    case Announce =>
      if s.producer.Announcing? && ClientTakes(s) then Offered(s, s.producer.event).(producer := Finished) else s
    case Persist(result) =>
      if !s.persister.Reading? || s.queue == [] then s
      else
        (match result
         case StoreOk => WithRow(s, s.queue[0]).(queue := s.queue[1..])
         case StoreFailed(written) => Broke(if written then WithRow(s, s.queue[0]) else s))
    case CloseChannel =>
      if s.persister.Reading? && s.queue == [] && !ChannelOpen(s) then s.(persister := Succeeded) else s
    case PersisterPanics =>
      if s.persister.Reading? then Broke(s) else s
    case ClientReads => if s.unread > 0 then s.(unread := s.unread - 1) else s
    case ClientLeaves => s.(clientGone := true, unread := 0)
  }

  function Run(steps: seq<Step>): System
  {
    if steps == [] then START else Next(Run(steps[..|steps| - 1]), steps[|steps| - 1])
  }

  // ---------- What every step keeps ----------

  predicate NoTerminal(events: seq<Event>)
  {
    forall e :: e in events ==> !e.Terminal()
  }

  predicate Numbered(rows: seq<ContentRow>, events: seq<Event>)
  {
    |rows| == |events| &&
    forall i :: 0 <= i < |rows| ==> rows[i] == ContentRow(i + 1, ContentTypeForEvent(events[i]), events[i])
  }

  /** While the persister lives, the rows are what it took from the queue so far. */
  predicate RowsMatch(s: System)
  {
    s.persister != Broken ==>
      |s.rows| <= |s.accepted| && s.queue == s.accepted[|s.rows|..] && Numbered(s.rows, s.accepted[..|s.rows|])
  }

  predicate EndsWith(events: seq<Event>, last: Event)
  {
    events != [] && events[|events| - 1] == last && last.Terminal() && NoTerminal(events[..|events| - 1])
  }

  predicate Matching(event: Event, status: MessageStatus)
  {
    match status
    case StatusProcessed => event == Completed
    case StatusAwaitingClarification => event == AwaitingClarification
    case StatusRejected => event == Rejected
    case StatusFailed => event.Error?
    case StatusProcessing => false
  }

  /** Everything accepted was stored, and the last of it is the final event. */
  predicate Saved(s: System, event: Event)
  {
    s.persister.Succeeded? && s.queue == [] && EndsWith(s.accepted, event) && Numbered(s.rows, s.accepted)
  }

  /** The event a stored status stands for. */
  function EventOf(status: MessageStatus): Option<Event>
  {
    match status
    case StatusProcessed => Some(Completed)
    case StatusAwaitingClarification => Some(AwaitingClarification)
    case StatusRejected => Some(Rejected)
    case _ => None
  }

  predicate SavedIfAnswered(s: System)
  {
    EventOf(s.stored).Some? ==> Saved(s, EventOf(s.stored).value)
  }

  predicate ProducerGood(s: System)
  {
    match s.producer
    case Running => s.stored.StatusProcessing? && NoTerminal(s.accepted)
    case Sending(event, status) =>
      s.stored.StatusProcessing? && NoTerminal(s.accepted) && event.Terminal() && Matching(event, status)
    case Joining(queued, event, status) =>
      s.stored.StatusProcessing? && Matching(event, status) &&
        (if queued then EndsWith(s.accepted, event) else s.persister.Broken?)
    case Storing(event, status) =>
      s.stored.StatusProcessing? && Matching(event, status) && (status.StatusFailed? || Saved(s, event))
    case Announcing(event) => event.Terminal() && SavedIfAnswered(s) && (event.Error? || Matching(event, s.stored))
    case Finished => SavedIfAnswered(s)
  }

  predicate SendsGood(s: System)
  {
    (s.sends != map[] ==> s.producer.Running?) &&
    forall sender :: sender in s.sends ==> !s.sends[sender].event.Terminal()
  }

  predicate ClientGood(s: System)
  {
    if s.producer.Finished? then
      s.sse != [] && EndsWith(s.sse, s.sse[|s.sse| - 1]) &&
      (s.sse[|s.sse| - 1].Error? || Matching(s.sse[|s.sse| - 1], s.stored))
    else NoTerminal(s.sse)
  }

  predicate Good(s: System)
  {
    && |s.queue| <= CHANNEL_SIZE && s.unread <= CHANNEL_SIZE
    && (s.persister.Succeeded? ==> s.queue == [] && !ChannelOpen(s))
    && SendsGood(s) && RowsMatch(s) && ProducerGood(s) && ClientGood(s)
  }

  lemma EndsWithSnoc(events: seq<Event>, last: Event)
    requires NoTerminal(events) && last.Terminal()
    ensures EndsWith(events + [last], last)
  {
    assert (events + [last])[..|events|] == events;
  }

  lemma PersistKeepsRows(s: System)
    requires s.persister.Reading? && RowsMatch(s) && s.queue != []
    ensures RowsMatch(WithRow(s, s.queue[0]).(queue := s.queue[1..]))
  {
    var n := |s.rows|;
    assert s.accepted[..n + 1] == s.accepted[..n] + [s.accepted[n]];
    assert s.accepted[n..][1..] == s.accepted[n + 1..];
  }

  lemma QueueKeepsRows(s: System, event: Event)
    requires RowsMatch(s)
    ensures RowsMatch(Queued(s, event))
  {
    var accepted := s.accepted + [event];
    if s.persister != Broken {
      assert accepted[..|s.rows|] == s.accepted[..|s.rows|];
      assert accepted[|s.rows|..] == s.accepted[|s.rows|..] + [event];
    }
  }

  lemma NextKeepsRows(s: System, step: Step)
    requires RowsMatch(s)
    ensures RowsMatch(Next(s, step))
  {
    hide Numbered;
    if step.Persist? && s.persister.Reading? && s.queue != [] {
      PersistKeepsRows(s);
    }
    if s.producer.Sending? {
      QueueKeepsRows(s, s.producer.event);
    }
    if step.SendToPersister? && step.sender in s.sends {
      QueueKeepsRows(s, s.sends[step.sender].event);
    }
  }

  lemma NextKeepsProducer(s: System, step: Step)
    requires Good(s)
    ensures ProducerGood(Next(s, step))
  {
    hide Numbered, EndsWith, ClientGood, ContentTypeForEvent, NoTerminal, RowsMatch;
    if s.producer.Sending? {
      EndsWithSnoc(s.accepted, s.producer.event);
    }
    if step.SendToPersister? && step.sender in s.sends {
      NoTerminalSnoc(s.accepted, s.sends[step.sender].event);
    }
    if s.persister.Succeeded? {
      AllRowsStored(s);
    }
  }

  lemma NoTerminalSnoc(events: seq<Event>, event: Event)
    requires NoTerminal(events) && !event.Terminal()
    ensures NoTerminal(events + [event])
  {
  }

  lemma AllRowsStored(s: System)
    requires RowsMatch(s) && s.persister.Succeeded? && s.queue == []
    ensures Numbered(s.rows, s.accepted)
  {
    hide Numbered;
    assert s.accepted[..|s.accepted|] == s.accepted;
  }

  lemma NextKeepsClient(s: System, step: Step)
    requires Good(s)
    ensures ClientGood(Next(s, step))
  {
    hide EndsWith, RowsMatch, Saved;
    if s.producer.Announcing? {
      EndsWithSnoc(s.sse, s.producer.event);
    }
  }

  lemma NextKeepsSends(s: System, step: Step)
    requires SendsGood(s)
    ensures SendsGood(Next(s, step))
  {
  }

  lemma NextKeepsGood(s: System, step: Step)
    requires Good(s)
    ensures Good(Next(s, step))
  {
    NextKeepsRows(s, step);
    NextKeepsProducer(s, step);
    NextKeepsClient(s, step);
    NextKeepsSends(s, step);
    hide RowsMatch, ProducerGood, ClientGood, SendsGood;
  }

  lemma {:induction false} RunIsGood(steps: seq<Step>)
    ensures Good(Run(steps))
    decreases |steps|
  {
    if steps != [] {
      RunIsGood(steps[..|steps| - 1]);
      NextKeepsGood(Run(steps[..|steps| - 1]), steps[|steps| - 1]);
    }
  }

  // ---------- What was sent ----------

  /**
   The event the step makes this sender begin, if the pipeline runs and the sender is idle: one for
   both channels, or also one for the client alone.
   */
  function Begun(s: System, step: Step, sender: Sender, onlyBoth: bool): seq<Event>
  {
    if (step.SendToClient? || (step.SendSseOnly? && !onlyBoth)) && step.sender == sender &&
       s.producer.Running? && sender !in s.sends && !step.event.Terminal()
    then [step.event] else []
  }

  /** The events one sender began to send, in order. */
  function SentBy(steps: seq<Step>, sender: Sender, onlyBoth: bool): seq<Event>
  {
    if steps == [] then []
    else
      var before, step := steps[..|steps| - 1], steps[|steps| - 1];
      SentBy(before, sender, onlyBoth) + Begun(Run(before), step, sender, onlyBoth)
  }

  /** The events that came from one sender, when `senders` says where each came from. */
  function Picked(events: seq<Event>, senders: seq<Sender>, sender: Sender): seq<Event>
    requires |events| == |senders|
  {
    if events == [] then []
    else
      var n := |events| - 1;
      Picked(events[..n], senders[..n], sender) + if senders[n] == sender then [events[n]] else []
  }

  /** The events are all that the senders sent, each sender's in its order: nothing is lost, added or repeated. */
  ghost predicate Interleaves(events: seq<Event>, steps: seq<Step>, onlyBoth: bool)
  {
    exists senders: seq<Sender> :: MergesTo(events, senders, steps, onlyBoth)
  }

  ghost predicate MergesTo(events: seq<Event>, senders: seq<Sender>, steps: seq<Step>, onlyBoth: bool)
  {
    |senders| == |events| &&
    forall sender :: Picked(events, senders, sender) == SentBy(steps, sender, onlyBoth)
  }

  /** What a sender began and has not handed over: to the persister, or to the client. */
  function Pending(s: System, sender: Sender, onlyBoth: bool): seq<Event>
  {
    if sender !in s.sends then []
    else if onlyBoth then
      if s.sends[sender].Offering? || s.sends[sender].both then [s.sends[sender].event] else []
    else if s.sends[sender].Telling? then [s.sends[sender].event]
    else []
  }

  ghost predicate Merging(
    events: seq<Event>, senders: seq<Sender>, s: System, steps: seq<Step>, onlyBoth: bool)
  {
    |senders| == |events| &&
    forall sender :: Picked(events, senders, sender) + Pending(s, sender, onlyBoth) == SentBy(steps, sender, onlyBoth)
  }

  /** The events before the final one. */
  function Body(events: seq<Event>): seq<Event>
  {
    if events != [] && events[|events| - 1].Terminal() then events[..|events| - 1] else events
  }

  /** The sender whose event the step hands over. */
  function Hands(s: System, step: Step, onlyBoth: bool): Option<Sender>
  {
    if onlyBoth then
      if step.SendToPersister? && step.sender in s.sends && s.sends[step.sender].Offering? && Accepts(s)
      then Some(step.sender) else None
    else if step.Deliver? && step.sender in s.sends && s.sends[step.sender].Telling? && ClientTakes(s)
    then Some(step.sender) else None
  }

  lemma HandsOneOfMany(s: System, step: Step, onlyBoth: bool)
    requires Hands(s, step, onlyBoth).Some?
    ensures Hands(s, step, onlyBoth).value in s.sends
  {
  }

  lemma BodySnoc(events: seq<Event>, event: Event)
    requires NoTerminal(events)
    ensures Body(events) == events
    ensures Body(events + [event]) == if event.Terminal() then events else events + [event]
  {
    assert (events + [event])[..|events|] == events;
    assert events != [] ==> events[|events| - 1] in events;
  }

  lemma AcceptedBody(s: System, step: Step)
    requires Good(s) && !Next(s, step).persister.Broken?
    ensures var next, from := Next(s, step), Hands(s, step, true);
            Body(next.accepted) == Body(s.accepted) + if from.Some? then [s.sends[from.value].event] else []
  {
    hide Numbered, EndsWith, ClientGood, RowsMatch, NoTerminal, Saved, Body;
    Unit(Body(s.accepted));
    if step.SendToPersister? && step.sender in s.sends {
      BodySnoc(s.accepted, s.sends[step.sender].event);
    }
    if step.SendFinal? && s.producer.Sending? {
      BodySnoc(s.accepted, s.producer.event);
    }
  }

  lemma OfferedBody(s: System, step: Step)
    requires Good(s)
    ensures var next, from := Next(s, step), Hands(s, step, false);
            Body(next.sse) == Body(s.sse) + if from.Some? then [s.sends[from.value].event] else []
  {
    hide Numbered, EndsWith, ProducerGood, RowsMatch, NoTerminal, Saved, Body;
    Unit(Body(s.sse));
    if step.Deliver? && step.sender in s.sends {
      BodySnoc(s.sse, s.sends[step.sender].event);
    }
    if step.Announce? && s.producer.Announcing? {
      AnnouncedIsTerminal(s);
      BodySnoc(s.sse, s.producer.event);
    }
  }

  lemma AnnouncedIsTerminal(s: System)
    requires Good(s) && s.producer.Announcing?
    ensures s.producer.event.Terminal()
  {
  }

  /** A sender's events are sent, on their way, or handed over. */
  lemma PendingNext(s: System, step: Step, sender: Sender, onlyBoth: bool)
    requires Good(s) && (onlyBoth ==> !Next(s, step).persister.Broken?)
    ensures var next, from := Next(s, step), Hands(s, step, onlyBoth);
            Pending(s, sender, onlyBoth) + Begun(s, step, sender, onlyBoth) ==
            (if from == Some(sender) then [s.sends[sender].event] else []) + Pending(next, sender, onlyBoth)
  {
    hide Numbered, EndsWith, ClientGood, ProducerGood, RowsMatch, NoTerminal, Saved;
  }

  lemma PickedSnoc(events: seq<Event>, senders: seq<Sender>, event: Event, from: Sender, sender: Sender)
    requires |events| == |senders|
    ensures Picked(events + [event], senders + [from], sender) ==
            Picked(events, senders, sender) + if from == sender then [event] else []
  {
    assert (events + [event])[..|events|] == events && (senders + [from])[..|senders|] == senders;
  }

  lemma SentNext(steps: seq<Step>, step: Step, sender: Sender, onlyBoth: bool)
    ensures SentBy(steps + [step], sender, onlyBoth) ==
            SentBy(steps, sender, onlyBoth) + Begun(Run(steps), step, sender, onlyBoth)
  {
    assert (steps + [step])[..|steps|] == steps;
    hide Begun;
  }

  lemma RunNext(steps: seq<Step>, step: Step)
    ensures Run(steps + [step]) == Next(Run(steps), step)
  {
    assert (steps + [step])[..|steps|] == steps;
    hide Next;
  }

  lemma MergingNext(events: seq<Event>, senders: seq<Sender>, steps: seq<Step>, step: Step, onlyBoth: bool)
    requires Good(Run(steps)) && Merging(events, senders, Run(steps), steps, onlyBoth)
    requires onlyBoth ==> !Next(Run(steps), step).persister.Broken?
    ensures var s, from := Run(steps), Hands(Run(steps), step, onlyBoth);
            if from.Some? then
              from.value in s.sends &&
              Merging(events + [s.sends[from.value].event], senders + [from.value], Next(s, step), steps + [step],
                      onlyBoth)
            else Merging(events, senders, Next(s, step), steps + [step], onlyBoth)
  {
    var s, from := Run(steps), Hands(Run(steps), step, onlyBoth);
    hide Run, Next, Good, Hands, Begun, Pending, Picked, SentBy;
    if from.Some? {
      HandsOneOfMany(s, step, onlyBoth);
    }
    forall sender
      ensures var picked := if from == Some(sender) then [s.sends[sender].event] else [];
              Picked(events, senders, sender) + (picked + Pending(Next(s, step), sender, onlyBoth)) ==
              SentBy(steps + [step], sender, onlyBoth)
    {
      PendingNext(s, step, sender, onlyBoth);
      SentNext(steps, step, sender, onlyBoth);
      Assoc(Picked(events, senders, sender), Pending(s, sender, onlyBoth), Begun(s, step, sender, onlyBoth));
      Unit(Pending(Next(s, step), sender, onlyBoth));
    }
    if from.Some? {
      HandedOn(events, senders, s, step, steps, onlyBoth, from.value);
    }
  }

  lemma HandedOn(events: seq<Event>, senders: seq<Sender>, s: System, step: Step, steps: seq<Step>, onlyBoth: bool,
                 from: Sender)
    requires |senders| == |events| && from in s.sends
    requires forall sender ::
               var picked := if from == sender then [s.sends[sender].event] else [];
               Picked(events, senders, sender) + (picked + Pending(Next(s, step), sender, onlyBoth)) ==
               SentBy(steps + [step], sender, onlyBoth)
    ensures Merging(events + [s.sends[from].event], senders + [from], Next(s, step), steps + [step], onlyBoth)
  {
    hide Next, Pending, Picked, SentBy;
    forall sender
      ensures Picked(events + [s.sends[from].event], senders + [from], sender) +
              Pending(Next(s, step), sender, onlyBoth) == SentBy(steps + [step], sender, onlyBoth)
    {
      var picked := if from == sender then [s.sends[sender].event] else [];
      Assoc(Picked(events, senders, sender), picked, Pending(Next(s, step), sender, onlyBoth));
      PickedSnoc(events, senders, s.sends[from].event, from, sender);
      Unit(Picked(events, senders, sender));
    }
  }

  /** What the persister took, while it lives, and what the client was offered, are merged from what was sent. */
  lemma {:induction false} RunMerges(steps: seq<Step>, onlyBoth: bool) returns (senders: seq<Sender>)
    requires onlyBoth ==> !Run(steps).persister.Broken?
    ensures var s := Run(steps);
            Merging(Body(if onlyBoth then s.accepted else s.sse), senders, s, steps, onlyBoth)
    decreases |steps|
  {
    if steps == [] {
      senders := [];
    } else {
      var before, step := steps[..|steps| - 1], steps[|steps| - 1];
      assert steps == before + [step];
      var s := Run(before);
      RunNext(before, step);
      RunIsGood(before);
      StaysBroken(s, step);
      hide Run, Next, Good, Body, Hands, Merging;
      senders := RunMerges(before, onlyBoth);
      var events, from := Body(if onlyBoth then s.accepted else s.sse), Hands(s, step, onlyBoth);
      MergingNext(events, senders, before, step, onlyBoth);
      if onlyBoth {
        AcceptedBody(s, step);
      } else {
        OfferedBody(s, step);
      }
      if from.Some? {
        senders := senders + [from.value];
      } else {
        Unit(events);
      }
    }
  }

  lemma StaysBroken(s: System, step: Step)
    ensures s.persister.Broken? ==> Next(s, step).persister.Broken?
  {
  }

  // ---------- All or failed ----------

  /** The rows are these events, numbered from 1, a narration filed as such and all else as an answer. */
  predicate RowsOf(rows: seq<ContentRow>, events: seq<Event>)
  {
    |rows| == |events| &&
    forall i :: 0 <= i < |rows| ==>
      rows[i].sequenceNumber == i + 1 && rows[i].event == events[i] &&
      rows[i].contentType == (if events[i].Narrated? then Narration else DataAnalysisResponse)
  }

  /**
   In every interleaving, with any failures: if the stored status is PROCESSED, the content rows are
   exactly the events the pipeline sent for storing, each sender's in order, and then Completed;
   likewise for the statuses of a clarification and a rejection. What was sent to the client alone
   is not among them.
   */
  lemma AnsweredMeansEverythingStored(steps: seq<Step>)
    ensures var s := Run(steps);
            EventOf(s.stored).Some? ==>
              exists sent :: Interleaves(sent, steps, true) && RowsOf(s.rows, sent + [EventOf(s.stored).value])
  {
    hide *;
    var s := Run(steps);
    RunIsGood(steps);
    if EventOf(s.stored).Some? {
      AnsweredIsSaved(s);
      var senders := RunMerges(steps, true);
      AllHandedOver(Body(s.accepted), senders, s, steps, true);
    }
  }

  lemma AnsweredIsSaved(s: System)
    requires Good(s) && EventOf(s.stored).Some?
    ensures !s.persister.Broken? && s.sends == map[]
    ensures RowsOf(s.rows, Body(s.accepted) + [EventOf(s.stored).value])
  {
    assert Saved(s, EventOf(s.stored).value);
    SavedRows(s, EventOf(s.stored).value);
  }

  lemma SavedRows(s: System, event: Event)
    requires Saved(s, event)
    ensures RowsOf(s.rows, Body(s.accepted) + [event])
  {
    Snoc(s.accepted);
  }

  lemma AllHandedOver(events: seq<Event>, senders: seq<Sender>, s: System, steps: seq<Step>, onlyBoth: bool)
    requires Merging(events, senders, s, steps, onlyBoth) && s.sends == map[]
    ensures Interleaves(events, steps, onlyBoth)
  {
    hide Picked, SentBy;
    assert MergesTo(events, senders, steps, onlyBoth) by {
      forall sender
        ensures Picked(events, senders, sender) == SentBy(steps, sender, onlyBoth)
      {
        assert Pending(s, sender, onlyBoth) == [];
        Unit(Picked(events, senders, sender));
      }
    }
  }

  /** When the answer is finished, the client was offered exactly what was sent, and a terminal event. */
  lemma ClientIsOfferedWhatWasSent(steps: seq<Step>)
    requires Run(steps).producer.Finished?
    ensures var s := Run(steps);
            exists sent, last: Event :: Interleaves(sent, steps, false) && last.Terminal() && s.sse == sent + [last]
  {
    hide *;
    var s := Run(steps);
    RunIsGood(steps);
    FinishedIsDone(s);
    var senders := RunMerges(steps, false);
    AllHandedOver(Body(s.sse), senders, s, steps, false);
  }

  lemma FinishedIsDone(s: System)
    requires Good(s) && s.producer.Finished?
    ensures s.sends == map[] && s.sse != [] && s.sse[|s.sse| - 1].Terminal()
    ensures s.sse == Body(s.sse) + [s.sse[|s.sse| - 1]]
  {
    hide RowsMatch, ProducerGood;
  }

  lemma {:induction false} PickedFromOne(events: seq<Event>, senders: seq<Sender>, sender: Sender)
    requires |senders| == |events| && forall k :: 0 <= k < |senders| ==> senders[k] == sender
    ensures Picked(events, senders, sender) == events
  {
    if events != [] {
      PickedFromOne(events[..|events| - 1], senders[..|events| - 1], sender);
      Snoc(events);
    }
  }

  lemma {:induction false} PickedSome(events: seq<Event>, senders: seq<Sender>, k: nat)
    requires |senders| == |events| && k < |senders|
    ensures Picked(events, senders, senders[k]) != []
    decreases |events|
  {
    if k < |events| - 1 {
      PickedSome(events[..|events| - 1], senders[..|events| - 1], k);
    }
  }

  lemma {:induction false} OthersSentNothing(steps: seq<Step>, sender: Sender, other: Sender, onlyBoth: bool)
    requires other != sender
    requires forall step :: step in steps && (step.SendToClient? || step.SendSseOnly?) ==> step.sender == sender
    ensures SentBy(steps, other, onlyBoth) == []
  {
    if steps != [] {
      hide Next;
      OthersSentNothing(steps[..|steps| - 1], sender, other, onlyBoth);
    }
  }

  /** With one sender at work there is only one way to interleave: the events are those sent, in order. */
  lemma OneSenderInOrder(events: seq<Event>, steps: seq<Step>, sender: Sender, onlyBoth: bool)
    requires Interleaves(events, steps, onlyBoth)
    requires forall step :: step in steps && (step.SendToClient? || step.SendSseOnly?) ==> step.sender == sender
    ensures events == SentBy(steps, sender, onlyBoth)
  {
    var senders :| MergesTo(events, senders, steps, onlyBoth);
    forall k | 0 <= k < |senders|
      ensures senders[k] == sender
    {
      PickedSome(events, senders, k);
      if senders[k] != sender {
        OthersSentNothing(steps, sender, senders[k], onlyBoth);
      }
    }
    PickedFromOne(events, senders, sender);
  }

  /**
   The client is offered exactly one terminal event, last; and a last event other than an
   error tells the status that was stored.
   */
  lemma OneTerminalEventLast(steps: seq<Step>)
    ensures var s := Run(steps);
            if s.producer.Finished? then
              s.sse != [] && NoTerminal(s.sse[..|s.sse| - 1]) && s.sse[|s.sse| - 1].Terminal() &&
              (s.sse[|s.sse| - 1].Error? || Matching(s.sse[|s.sse| - 1], s.stored))
            else NoTerminal(s.sse)
  {
    RunIsGood(steps);
  }

  predicate Healthy(step: Step)
  {
    !step.PersisterPanics? && (step.StoreStatus? || step.Persist? ==> step.result.StoreOk?)
  }

  /** What each outcome is stored and announced as. */
  predicate Announces(outcome: Outcome, status: MessageStatus, event: Event)
  {
    match outcome
    case OutcomeCompleted => status == StatusProcessed && event == Completed
    case OutcomeAwaitingClarification => status == StatusAwaitingClarification && event == AwaitingClarification
    case OutcomeRejected => status == StatusRejected && event == Rejected
    case OutcomeError(message) => status == StatusFailed && event == Error(message)
  }

  predicate OutcomeKept(s: System)
  {
    && !s.persister.Broken?
    && (s.producer.Running? <==> s.outcome.None?)
    && match s.producer
       case Running => true
       case Sending(event, status) => Announces(s.outcome.value, status, event)
       case Joining(queued, event, status) => queued && Announces(s.outcome.value, status, event)
       case Storing(event, status) => Announces(s.outcome.value, status, event)
       case Announcing(event) => Announces(s.outcome.value, s.stored, event)
       case Finished => s.sse != [] && Announces(s.outcome.value, s.stored, s.sse[|s.sse| - 1])
  }

  lemma FinalIsAnnounced(outcome: Outcome)
    ensures Announces(outcome, FinalStatus(outcome), FinalEvent(outcome))
  {
  }

  lemma NextKeepsOutcome(s: System, step: Step)
    requires OutcomeKept(s) && SendsGood(s) && Healthy(step)
    ensures OutcomeKept(Next(s, step))
  {
    if step.EndPipeline? {
      FinalIsAnnounced(step.outcome);
    }
    hide Announces, FinalEvent, FinalStatus, WithRow;
  }

  lemma {:induction false} HealthyRun(steps: seq<Step>)
    requires forall k :: 0 <= k < |steps| ==> Healthy(steps[k])
    ensures OutcomeKept(Run(steps))
    decreases |steps|
  {
    if steps != [] {
      HealthyRun(steps[..|steps| - 1]);
      RunIsGood(steps[..|steps| - 1]);
      NextKeepsOutcome(Run(steps[..|steps| - 1]), steps[|steps| - 1]);
    }
  }

  /** The outcome is the one the pipeline ended with. */
  lemma {:induction false} OutcomeIsOfStep(steps: seq<Step>) returns (k: nat)
    requires Run(steps).outcome.Some?
    ensures k < |steps| && steps[k] == EndPipeline(Run(steps).outcome.value)
    ensures Run(steps[..k]).producer.Running? && !Run(steps[..k + 1]).producer.Running?
    decreases |steps|
  {
    hide Next;
    var before, step := steps[..|steps| - 1], steps[|steps| - 1];
    OutcomeNext(Run(before), step);
    if Next(Run(before), step).outcome == Run(before).outcome {
      k := OutcomeIsOfStep(before);
      assert before[..k] == steps[..k] && before[..k + 1] == steps[..k + 1];
    } else {
      k := |steps| - 1;
      assert steps[..k] == before && steps[..k + 1] == steps;
    }
  }

  lemma OutcomeNext(s: System, step: Step)
    ensures var next := Next(s, step);
            next.outcome == s.outcome ||
            (next.outcome.Some? && step == EndPipeline(next.outcome.value) &&
             s.producer.Running? && !next.producer.Running?)
  {
  }

  /** Without a failure the outcome the pipeline ended with is what is stored and announced. */
  lemma HealthyRunAnnouncesOutcome(steps: seq<Step>) returns (k: nat)
    requires forall k :: 0 <= k < |steps| ==> Healthy(steps[k])
    requires Run(steps).producer.Finished?
    ensures var s := Run(steps);
            k < |steps| && steps[k].EndPipeline? && Run(steps[..k]).producer.Running? &&
            !Run(steps[..k + 1]).producer.Running? &&
            s.sse != [] && Announces(steps[k].outcome, s.stored, s.sse[|s.sse| - 1])
  {
    HealthyRun(steps);
    k := OutcomeIsOfStep(steps);
  }

  // ---------- The tasks never wait for each other forever ----------

  predicate Ended(s: System)
  {
    !s.producer.Running?
  }

  /** An upper bound on the steps left once the pipeline ended. */
  function Remaining(s: System): nat
  {
    |s.queue| + s.unread + (if s.persister.Reading? then 1 else 0) + (if s.clientGone then 0 else 1) +
    (match s.producer
     case Running => 8
     case Sending(_, _) => 7
     case Joining(_, _, _) => 5
     case Storing(_, _) => 3
     case Announcing(_) => 2
     case Finished => 0)
  }

  /** Once the pipeline ended, every step that changes anything brings the end closer. */
  lemma EveryStepAdvances(s: System, step: Step)
    requires Ended(s) && SendsGood(s)
    ensures Ended(Next(s, step))
    ensures Next(s, step) == s || Remaining(Next(s, step)) < Remaining(s)
  {
  }

  /** A step that can be taken: of the persister first, then of the producer, then of the client. */
  ghost function Ready(s: System, result: StoreResult): Step
  {
    if s.persister.Reading? && s.queue != [] then Persist(result)
    else if s.persister.Reading? && !ChannelOpen(s) then CloseChannel
    else
      match s.producer
      case Running =>
        if s.sends == map[] then EndPipeline(OutcomeError(""))
        else
          var sender :| sender in s.sends;
          if s.sends[sender].Offering? then SendToPersister(sender)
          else if ClientTakes(s) then Deliver(sender)
          else ClientReads
      case Sending(_, _) => SendFinal
      case Joining(_, _, _) => Join
      case Storing(_, _) => StoreStatus(result)
      case Announcing(_) => if ClientTakes(s) then Announce else ClientReads
      case Finished => Announce
  }

  /**
   No reachable state is stuck before the end: some task can step, even when the channel between
   them is full, or they wait for a client whose channel is full, and the client can read; at most
   2 * CHANNEL_SIZE + 9 steps follow the end of the pipeline.
   */
  lemma NeverStuck(steps: seq<Step>, result: StoreResult)
    ensures var s := Run(steps);
            (!s.producer.Finished? ==> Next(s, Ready(s, result)) != s) &&
            (!s.producer.Finished? && Ready(s, result).ClientReads? ==>
               s.unread == CHANNEL_SIZE &&
               (s.producer.Announcing? || exists sender :: sender in s.sends && s.sends[sender].Telling?)) &&
            (Ended(s) ==> Remaining(s) <= 2 * CHANNEL_SIZE + 9)
  {
    RunIsGood(steps);
    var s := Run(steps);
    if s.persister.Reading? && s.queue != [] {
      assert Next(s, Ready(s, result)).queue != s.queue;
    }
  }
}
