/**
 The log of one conversation and the history read back from it: service.rs, history.rs and
 constants.rs in backend/src/conversational_analytics/conversation, and `select_relevant` in
 backend/src/ai/dto.rs. Each request is one step; requests are served one after another.
 */
module Conversation {
  import opened Wrappers
  import opened Text

  const MAX_QUESTION_LENGTH := 16_384
  const MAX_USER_MESSAGES_PER_CONVERSATION := 10
  const CONVERSATION_HISTORY_SCAN_MESSAGE_LIMIT := 2 * (MAX_USER_MESSAGES_PER_CONVERSATION + 1)

  type Id = nat

  datatype Sender = Human | Assistant

  datatype MessageStatus = Processing | Processed | Failed | AwaitingClarification | Rejected

  /** A message; a human one carries the plain text and commands of its one content row. */
  datatype Message = Message(id: Id, sequenceNumber: int, sender: Sender, status: MessageStatus, text: string,
      hasCommands: bool)

  datatype Log = Log(exists_: bool, messages: seq<Message>, nextId: Id)

  datatype AppendError = NotFound | ConversationBusy | UserMessageLimitReached | AppendQuestion(error: QuestionError)

  datatype QuestionError = EmptyQuestion | QuestionTooLong

  datatype CompletionError =
    | ConversationNotFound | NoQuestionsToAnswer | LastSenderNotHuman | CompletionQuestion(error: QuestionError)

  function ValidateQuestion(text: string): Result<string, QuestionError>
  {
    var question := Trim(text);
    if question == "" then Err(EmptyQuestion)
    else if |question| > MAX_QUESTION_LENGTH then Err(QuestionTooLong)
    else Ok(question)
  }

  /** A message of commands alone needs no question. */
  function Question(text: string, hasCommands: bool): Result<string, QuestionError>
  {
    if Trim(text) == "" && hasCommands then Ok("") else ValidateQuestion(text)
  }

  function CountHumans(messages: seq<Message>): nat
  {
    if messages == [] then 0
    else CountHumans(messages[..|messages| - 1]) + if messages[|messages| - 1].sender == Human then 1 else 0
  }

  predicate UserMessageLimit(count: nat)
  {
    count >= MAX_USER_MESSAGES_PER_CONVERSATION
  }

  function Last(log: Log): Message
    requires log.messages != []
  {
    log.messages[|log.messages| - 1]
  }

  // ---------- Steps ----------

  function Appended(log: Log, sequenceNumber: int, sender: Sender, status: MessageStatus, text: string,
      hasCommands: bool): Log
  {
    log.(messages := log.messages + [Message(log.nextId, sequenceNumber, sender, status, text, hasCommands)],
         nextId := log.nextId + 1)
  }

  function AppendCheck(log: Log, text: string, hasCommands: bool): Result<string, AppendError>
  {
    if !log.exists_ then Err(NotFound)
    else if log.messages == [] then Err(ConversationBusy)
    else if Last(log).sender != Assistant || Last(log).status == Processing then Err(ConversationBusy)
    else if UserMessageLimit(CountHumans(log.messages)) then Err(UserMessageLimitReached)
    else
      match Question(text, hasCommands)
      case Ok(question) => Ok(question)
      case Err(error) => Err(AppendQuestion(error))
  }

  function CompletionCheck(log: Log): Result<string, CompletionError>
  {
    if !log.exists_ then Err(ConversationNotFound)
    else if log.messages == [] then Err(NoQuestionsToAnswer)
    else if Last(log).sender != Human then Err(LastSenderNotHuman)
    else
      match Question(Last(log).text, Last(log).hasCommands)
      case Ok(question) => Ok(question)
      case Err(error) => Err(CompletionQuestion(error))
  }

  function WithStatus(messages: seq<Message>, id: Id, status: MessageStatus): (r: seq<Message>)
    ensures |r| == |messages|
    ensures forall i :: 0 <= i < |messages| ==>
              r[i] == if messages[i].id == id then messages[i].(status := status) else messages[i]
  {
    seq(|messages|, i requires 0 <= i < |messages| =>
      if messages[i].id == id then messages[i].(status := status) else messages[i])
  }

  datatype Step =
    | Create(text: string, hasCommands: bool)
    | Append(text: string, hasCommands: bool)
    | StartCompletion
    | Finish(id: Id, status: MessageStatus)
    | Delete

  const NO_CONVERSATION := Log(false, [], 0)

  /** A completion finishes an assistant message with a terminal status. */
  predicate Possible(log: Log, step: Step)
  {
    step.Finish? ==>
      (step.status != Processing &&
       forall i :: 0 <= i < |log.messages| && log.messages[i].id == step.id ==> log.messages[i].sender == Assistant)
  }

  function Next(log: Log, step: Step): Log
  {
    match step
    case Create(text, hasCommands) =>
      if log.exists_ then log else Appended(log.(exists_ := true), 1, Human, Processed, text, hasCommands)
    case Append(text, hasCommands) =>
      if AppendCheck(log, text, hasCommands).Err? then log
      else Appended(log, Last(log).sequenceNumber + 1, Human, Processed, text, hasCommands)
    case StartCompletion =>
      if CompletionCheck(log).Err? then log
      else Appended(log, Last(log).sequenceNumber + 1, Assistant, Processing, "", false)
    case Finish(id, status) => log.(messages := WithStatus(log.messages, id, status))
    case Delete => log.(exists_ := false, messages := [])
  }

  function Run(steps: seq<Step>): Log
  {
    if steps == [] then NO_CONVERSATION else Next(Run(steps[..|steps| - 1]), steps[|steps| - 1])
  }

  predicate PossibleRun(steps: seq<Step>)
  {
    forall k :: 0 <= k < |steps| ==> Possible(Run(steps[..k]), steps[k])
  }

  /** The stored conversation; one request at a time changes it. */
  class ConversationStore {
    var exists_: bool
    var messages: seq<Message>
    var nextId: Id

    constructor ()
      ensures View() == NO_CONVERSATION
    {
      exists_, messages, nextId := false, [], 0;
    }

    function View(): Log
      reads this
    {
      Log(exists_, messages, nextId)
    }

    method CreateMessage(sequenceNumber: int, sender: Sender, status: MessageStatus, text: string, hasCommands: bool)
        returns (id: Id)
      modifies this
      ensures View() == Appended(old(View()), sequenceNumber, sender, status, text, hasCommands)
      ensures id == old(nextId)
    {
      id := nextId;
      messages := messages + [Message(id, sequenceNumber, sender, status, text, hasCommands)];
      nextId := nextId + 1;
    }

    method CreateConversation(text: string, hasCommands: bool)
      requires !exists_
      modifies this
      ensures View() == Next(old(View()), Create(text, hasCommands))
    {
      exists_ := true;
      var _ := CreateMessage(1, Human, Processed, text, hasCommands);
    }

    method AppendUserMessage(text: string, hasCommands: bool) returns (r: Result<Id, AppendError>)
      modifies this
      ensures View() == Next(old(View()), Append(text, hasCommands))
      ensures var check := AppendCheck(old(View()), text, hasCommands);
              if check.Ok? then r == Ok(old(nextId)) else r == Err(check.error)
    {
      hide Trim, CountHumans;
      if !exists_ {
        return Err(NotFound);
      }
      if messages == [] {
        return Err(ConversationBusy);
      }
      var lastMessage := messages[|messages| - 1];
      if lastMessage.sender != Assistant || lastMessage.status == Processing {
        return Err(ConversationBusy);
      }
      var userMessages := CountHumans(messages);
      if UserMessageLimit(userMessages) {
        return Err(UserMessageLimitReached);
      }
      if !(Trim(text) == "" && hasCommands) {
        var valid := ValidateQuestion(text);
        if valid.Err? {
          return Err(AppendQuestion(valid.error));
        }
      }
      var id := CreateMessage(lastMessage.sequenceNumber + 1, Human, Processed, text, hasCommands);
      return Ok(id);
    }

    method ExecuteCompletion() returns (r: Result<(string, Id), CompletionError>)
      modifies this
      ensures View() == Next(old(View()), StartCompletion)
      ensures var check := CompletionCheck(old(View()));
              if check.Ok? then r == Ok((check.value, old(nextId))) else r == Err(check.error)
    {
      hide Trim;
      if !exists_ {
        return Err(ConversationNotFound);
      }
      if messages == [] {
        return Err(NoQuestionsToAnswer);
      }
      var lastMessage := messages[|messages| - 1];
      if lastMessage.sender != Human {
        return Err(LastSenderNotHuman);
      }
      var question := "";
      if !(Trim(lastMessage.text) == "" && lastMessage.hasCommands) {
        var valid := ValidateQuestion(lastMessage.text);
        if valid.Err? {
          return Err(CompletionQuestion(valid.error));
        }
        question := valid.value;
      }
      var id := CreateMessage(lastMessage.sequenceNumber + 1, Assistant, Processing, "", false);
      return Ok((question, id));
    }

    method UpdateMessageStatus(id: Id, status: MessageStatus)
      modifies this
      ensures View() == Next(old(View()), Finish(id, status))
    {
      messages := WithStatus(messages, id, status);
    }
  }

  // ---------- The invariant of the log ----------

  predicate Regular(log: Log, i: nat)
    requires i < |log.messages|
  {
    var m := log.messages[i];
    && m.sequenceNumber == i + 1
    && m.sender == (if i % 2 == 0 then Human else Assistant)
    && (m.status == Processing ==> i == |log.messages| - 1 && m.sender == Assistant)
    && m.id < log.nextId
  }

  predicate Good(log: Log)
  {
    && (log.exists_ <==> log.messages != [])
    && |log.messages| <= 2 * MAX_USER_MESSAGES_PER_CONVERSATION
    && (forall i :: 0 <= i < |log.messages| ==> Regular(log, i))
    && (forall i, j :: 0 <= i < j < |log.messages| ==> log.messages[i].id != log.messages[j].id)
  }

  lemma {:induction false} HalfAreHuman(log: Log, n: nat)
    requires n <= |log.messages| && forall i :: 0 <= i < n ==> Regular(log, i)
    ensures CountHumans(log.messages[..n]) == (n + 1) / 2
  {
    if n > 0 {
      HalfAreHuman(log, n - 1);
      assert log.messages[..n][..n - 1] == log.messages[..n - 1];
      assert Regular(log, n - 1);
    }
  }

  lemma AppendKeepsGood(log: Log, sender: Sender, status: MessageStatus, text: string, hasCommands: bool)
    requires Good(log) && |log.messages| < 2 * MAX_USER_MESSAGES_PER_CONVERSATION
    requires sender == if |log.messages| % 2 == 0 then Human else Assistant
    requires status == Processing ==> sender == Assistant
    requires log.messages != [] ==> Last(log).status != Processing
    ensures Good(Appended(log.(exists_ := true), |log.messages| + 1, sender, status, text, hasCommands))
  {
    var next := Appended(log.(exists_ := true), |log.messages| + 1, sender, status, text, hasCommands);
    forall i | 0 <= i < |next.messages|
      ensures Regular(next, i)
    {
      assert i < |log.messages| ==> Regular(log, i);
    }
    forall i | 0 <= i < |log.messages|
      ensures next.messages[i].id != log.nextId
    {
      assert Regular(log, i);
    }
  }

  lemma StatusKeepsGood(log: Log, id: Id, status: MessageStatus)
    requires Good(log) && Possible(log, Finish(id, status))
    ensures Good(log.(messages := WithStatus(log.messages, id, status)))
  {
    var next := log.(messages := WithStatus(log.messages, id, status));
    forall i | 0 <= i < |next.messages|
      ensures Regular(next, i)
    {
      assert Regular(log, i);
    }
  }

  /** Room left for a human message, read off the parity of the log. */
  lemma RoomToAppend(log: Log)
    requires Good(log) && log.messages != []
    ensures Last(log).sequenceNumber == |log.messages|
    ensures Last(log).sender == (if |log.messages| % 2 == 0 then Assistant else Human)
    ensures Last(log).sender == Human ==> Last(log).status != Processing
    ensures CountHumans(log.messages) == (|log.messages| + 1) / 2
  {
    HalfAreHuman(log, |log.messages|);
    assert log.messages[..|log.messages|] == log.messages;
    assert Regular(log, |log.messages| - 1);
  }

  lemma NextKeepsGood(log: Log, step: Step)
    requires Good(log) && Possible(log, step)
    ensures Good(Next(log, step))
  {
    hide Regular, CountHumans, Question;
    if log.messages != [] {
      RoomToAppend(log);
    }
    match step
    case Create(text, hasCommands) =>
      if !log.exists_ {
        AppendKeepsGood(log, Human, Processed, text, hasCommands);
      }
    case Append(text, hasCommands) =>
      if AppendCheck(log, text, hasCommands).Ok? {
        AppendKeepsGood(log, Human, Processed, text, hasCommands);
      }
    case StartCompletion =>
      if CompletionCheck(log).Ok? {
        AppendKeepsGood(log, Assistant, Processing, "", false);
      }
    case Finish(id, status) => StatusKeepsGood(log, id, status);
    case Delete =>
  }

  lemma {:induction false} RunIsGood(steps: seq<Step>)
    requires PossibleRun(steps)
    ensures Good(Run(steps))
    decreases |steps|
  {
    if steps != [] {
      var n := |steps| - 1;
      forall k | 0 <= k < n
        ensures Possible(Run(steps[..n][..k]), steps[..n][k])
      {
        assert steps[..n][..k] == steps[..k];
      }
      RunIsGood(steps[..n]);
      NextKeepsGood(Run(steps[..n]), steps[n]);
    }
  }

  lemma NoHumans()
    ensures CountHumans([]) == 0
  {
  }

  /**
   After any run: human and assistant messages alternate, starting with a human one, numbered
   from 1 without gaps; at most 10 are human and 20 in all; only the last may be PROCESSING.
   */
  lemma LogInvariant(steps: seq<Step>)
    requires PossibleRun(steps)
    ensures var messages := Run(steps).messages;
            CountHumans(messages) <= MAX_USER_MESSAGES_PER_CONVERSATION &&
            |messages| <= 2 * MAX_USER_MESSAGES_PER_CONVERSATION &&
            forall i :: 0 <= i < |messages| ==>
              messages[i].sequenceNumber == i + 1 &&
              (messages[i].sender == Human <==> i % 2 == 0) &&
              (messages[i].status == Processing ==> i == |messages| - 1 && messages[i].sender == Assistant)
  {
    hide Run, CountHumans, PossibleRun;
    RunIsGood(steps);
    var log := Run(steps);
    if log.messages != [] {
      RoomToAppend(log);
    } else {
      NoHumans();
    }
    forall i | 0 <= i < |log.messages|
      ensures log.messages[i].sequenceNumber == i + 1 && (log.messages[i].sender == Human <==> i % 2 == 0)
      ensures log.messages[i].status == Processing ==> i == |log.messages| - 1 && log.messages[i].sender == Assistant
    {
      assert Regular(log, i);
    }
  }

  /** A text that may be asked: 1 to 16384 characters between its first and last, or commands alone. */
  ghost predicate Askable(text: string, hasCommands: bool)
  {
    if HasText(text) then exists t :: IsTrimmed(text, t) && |t| <= 16384 else hasCommands
  }

  lemma QuestionIs(text: string, hasCommands: bool)
    ensures Question(text, hasCommands).Ok? <==> Askable(text, hasCommands)
    ensures Question(text, hasCommands).Ok? ==> IsTrimmed(text, Question(text, hasCommands).value)
    ensures Question(text, hasCommands).Err? ==>
              Question(text, hasCommands).error == if HasText(text) then QuestionTooLong else EmptyQuestion
  {
    TrimIsTrimmed(text);
    BlankHasNoText(text);
    hide Trim;
    if Askable(text, hasCommands) && HasText(text) {
      var t :| IsTrimmed(text, t) && |t| <= 16384;
      TrimmedIsUnique(text, t);
    }
  }

  lemma BlankHasNoText(text: string)
    ensures Trim(text) == "" <==> !HasText(text)
  {
    hide IsWhitespace;
  }

  /**
   In every reachable log an append is taken exactly when there is a last message that is a finished
   answer, fewer than 10 are human and the text may be asked; it then adds that text at the end, as
   the next human message, and otherwise changes nothing.
   */
  lemma AppendTakenIff(steps: seq<Step>, text: string, hasCommands: bool)
    requires PossibleRun(steps)
    ensures var log := Run(steps);
            var messages, after := log.messages, Next(log, Append(text, hasCommands)).messages;
            if messages != [] && Last(log).sender == Assistant && Last(log).status != Processing &&
               |messages| < 20 && Askable(text, hasCommands)
            then after ==
                 messages + [Message(log.nextId, |messages| + 1, Human, Processed, text, hasCommands)]
            else after == messages
  {
    var log := Run(steps);
    hide Run, PossibleRun, CountHumans, Question, Askable;
    RunIsGood(steps);
    QuestionIs(text, hasCommands);
    if log.messages != [] {
      RoomToAppend(log);
    }
  }

  /** And a completion starts exactly when the last message is human and may be asked. */
  lemma CompletionTakenIff(steps: seq<Step>)
    requires PossibleRun(steps)
    ensures var log := Run(steps);
            var messages, after := log.messages, Next(log, StartCompletion).messages;
            if messages != [] && Last(log).sender == Human && Askable(Last(log).text, Last(log).hasCommands)
            then after == messages + [Message(log.nextId, |messages| + 1, Assistant, Processing, "", false)] &&
                 CompletionCheck(log).Ok? && IsTrimmed(Last(log).text, CompletionCheck(log).value)
            else after == messages && CompletionCheck(log).Err?
  {
    var log := Run(steps);
    hide Run, PossibleRun, CountHumans, Question, Askable, IsTrimmed;
    RunIsGood(steps);
    if log.messages != [] {
      QuestionIs(Last(log).text, Last(log).hasCommands);
      RoomToAppend(log);
    }
  }

  /** A question the append accepted can be answered, and is the one answered. */
  lemma AppendedQuestionIsAnswered(log: Log, text: string, hasCommands: bool)
    requires AppendCheck(log, text, hasCommands).Ok?
    ensures var check := CompletionCheck(Next(log, Append(text, hasCommands)));
            check == Ok(AppendCheck(log, text, hasCommands).value) && IsTrimmed(text, check.value)
  {
    QuestionIs(text, hasCommands);
    hide Question, IsTrimmed, CountHumans;
  }

  /** The first question is not validated when it is stored: it can be answered iff it is valid. */
  lemma FirstQuestionIsAnsweredIffValid(log: Log, text: string, hasCommands: bool)
    requires !log.exists_
    ensures CompletionCheck(Next(log, Create(text, hasCommands))).Ok? <==>
            (hasCommands && Trim(text) == "") || 0 < |Trim(text)| <= MAX_QUESTION_LENGTH
  {
  }

  // ---------- Reading the history back ----------

  datatype TerminalStatus = TurnCompleted | TurnAwaitingClarification | TurnRejected | TurnFailed

  predicate IsRelevant(status: TerminalStatus, isLatestTurn: bool)
  {
    match status
    case TurnCompleted => true
    case TurnAwaitingClarification => isLatestTurn
    case _ => false
  }

  function TerminalStatusOf(status: MessageStatus): Option<TerminalStatus>
  {
    match status
    case Processed => Some(TurnCompleted)
    case AwaitingClarification => Some(TurnAwaitingClarification)
    case Rejected => Some(TurnRejected)
    case Failed => Some(TurnFailed)
    case Processing => None
  }

  datatype Turn = Turn(human: Id, assistant: Id, status: TerminalStatus)

  function RelevantFrom<T>(turns: seq<T>, i: nat, statusOf: T -> TerminalStatus): seq<T>
    requires i <= |turns|
    decreases |turns| - i
  {
    if i == |turns| then []
    else (if IsRelevant(statusOf(turns[i]), i + 1 == |turns|) then [turns[i]] else []) +
         RelevantFrom(turns, i + 1, statusOf)
  }

  function SelectRelevant<T>(turns: seq<T>, limit: nat, statusOf: T -> TerminalStatus): seq<T>
  {
    var relevant := RelevantFrom(turns, 0, statusOf);
    if |relevant| <= limit then relevant else relevant[|relevant| - limit..]
  }

  /** Turns so far and the question still waiting for its answer, oldest message first. */
  datatype Pairing = Pairing(turns: seq<Turn>, pending: Option<Message>)

  function PairOne(p: Pairing, message: Message, current: Id): Pairing
  {
    if message.id == current then p
    else if message.sender == Human then p.(pending := Some(message))
    else if p.pending.None? then p
    else
      match TerminalStatusOf(message.status)
      case None => p.(pending := None)
      case Some(status) => Pairing(p.turns + [Turn(p.pending.value.id, message.id, status)], None)
  }

  function Paired(messages: seq<Message>, current: Id): Pairing
  {
    if messages == [] then Pairing([], None)
    else PairOne(Paired(messages[..|messages| - 1], current), messages[|messages| - 1], current)
  }

  /** The newest messages up to the scan limit, oldest first. */
  function Scanned(messages: seq<Message>): seq<Message>
  {
    if |messages| <= CONVERSATION_HISTORY_SCAN_MESSAGE_LIMIT then messages
    else messages[|messages| - CONVERSATION_HISTORY_SCAN_MESSAGE_LIMIT..]
  }

  function StatusOf(turn: Turn): TerminalStatus
  {
    turn.status
  }

  function LoadHistory(messages: seq<Message>, current: Id): seq<Turn>
  {
    var selected := SelectRelevant(Paired(Scanned(messages), current).turns, MAX_USER_MESSAGES_PER_CONVERSATION,
      StatusOf);
    SelectRelevant(selected, MAX_USER_MESSAGES_PER_CONVERSATION, StatusOf)
  }

  method PairTurns(messages: seq<Message>, current: Id) returns (candidates: seq<Turn>)
    ensures candidates == Paired(messages, current).turns
  {
    candidates := [];
    var pendingHuman: Option<Message> := None;
    for k := 0 to |messages|
      invariant Pairing(candidates, pendingHuman) == Paired(messages[..k], current)
    {
      var message := messages[k];
      assert messages[..k + 1][..k] == messages[..k];
      if message.id == current {
        continue;
      }
      match message.sender
      case Human => pendingHuman := Some(message);
      case Assistant =>
        var human := pendingHuman;
        pendingHuman := None;
        if human.Some? {
          var status := TerminalStatusOf(message.status);
          if status.Some? {
            candidates := candidates + [Turn(human.value.id, message.id, status.value)];
          }
        }
    }
    assert messages[..|messages|] == messages;
  }

  // ---------- Selecting twice ----------

  predicate SelfRelevant<T>(turns: seq<T>, statusOf: T -> TerminalStatus)
  {
    forall i :: 0 <= i < |turns| ==> IsRelevant(statusOf(turns[i]), i + 1 == |turns|)
  }

  lemma {:induction false} RelevantIsSelfRelevant<T>(turns: seq<T>, i: nat, statusOf: T -> TerminalStatus)
    requires i <= |turns|
    ensures SelfRelevant(RelevantFrom(turns, i, statusOf), statusOf)
    ensures i < |turns| && RelevantFrom(turns, i + 1, statusOf) != [] ==> i + 1 < |turns|
    decreases |turns| - i
  {
    if i < |turns| {
      RelevantIsSelfRelevant(turns, i + 1, statusOf);
      if IsRelevant(statusOf(turns[i]), i + 1 == |turns|) {
        SelfRelevantCons(turns[i], RelevantFrom(turns, i + 1, statusOf), statusOf);
      }
    }
  }

  lemma SelfRelevantCons<T>(turn: T, rest: seq<T>, statusOf: T -> TerminalStatus)
    requires IsRelevant(statusOf(turn), rest == []) && SelfRelevant(rest, statusOf)
    ensures SelfRelevant([turn] + rest, statusOf)
  {
    var all := [turn] + rest;
    forall i | 0 < i < |all|
      ensures IsRelevant(statusOf(all[i]), i + 1 == |all|)
    {
      assert all[i] == rest[i - 1];
    }
  }

  lemma {:induction false} SelfRelevantKept<T>(turns: seq<T>, i: nat, statusOf: T -> TerminalStatus)
    requires i <= |turns| && SelfRelevant(turns, statusOf)
    ensures RelevantFrom(turns, i, statusOf) == turns[i..]
    decreases |turns| - i
  {
    if i < |turns| {
      SelfRelevantKept(turns, i + 1, statusOf);
    }
  }

  /** The newest are kept. */
  lemma NewestAreSelected<T>(turns: seq<T>, limit: nat, statusOf: T -> TerminalStatus)
    ensures var all, selected := RelevantFrom(turns, 0, statusOf), SelectRelevant(turns, limit, statusOf);
            |selected| == (if |all| < limit then |all| else limit) && selected == all[|all| - |selected|..]
  {
    hide RelevantFrom;
  }

  /** Selecting from a selection, as loading does, selects all of it. */
  lemma SelectTwice<T>(turns: seq<T>, limit: nat, statusOf: T -> TerminalStatus)
    ensures var selected := SelectRelevant(turns, limit, statusOf);
            |selected| <= limit && SelectRelevant(selected, limit, statusOf) == selected
  {
    RelevantIsSelfRelevant(turns, 0, statusOf);
    SelfRelevantKept(SelectRelevant(turns, limit, statusOf), 0, statusOf);
  }

  lemma SelectAll<T>(turns: seq<T>, limit: nat, statusOf: T -> TerminalStatus)
    requires |RelevantFrom(turns, 0, statusOf)| <= limit
    ensures SelectRelevant(turns, limit, statusOf) == RelevantFrom(turns, 0, statusOf)
  {
  }

  // ---------- The history of a reachable log ----------

  /** The earlier turns that matter, read off the log by position: turn t is messages 2t and 2t + 1. */
  function EarlierTurns(messages: seq<Message>, t: nat, turns: nat): seq<Turn>
    requires t <= turns && 2 * turns <= |messages|
    decreases turns - t
  {
    if t == turns then []
    else
      var answer := messages[2 * t + 1];
      (if answer.status == Processed then [Turn(messages[2 * t].id, answer.id, TurnCompleted)]
       else if answer.status == AwaitingClarification && t + 1 == turns
       then [Turn(messages[2 * t].id, answer.id, TurnAwaitingClarification)]
       else []) + EarlierTurns(messages, t + 1, turns)
  }

  function AllTurns(messages: seq<Message>, turns: nat): (r: seq<Turn>)
    requires 2 * turns <= |messages|
    requires forall t :: 0 <= t < turns ==> TerminalStatusOf(messages[2 * t + 1].status).Some?
    ensures |r| == turns
  {
    if turns == 0 then []
    else AllTurns(messages, turns - 1) +
         [Turn(messages[2 * turns - 2].id, messages[2 * turns - 1].id,
           TerminalStatusOf(messages[2 * turns - 1].status).value)]
  }

  lemma {:induction false} AllTurnsAt(messages: seq<Message>, turns: nat, t: nat)
    requires 2 * turns <= |messages| && t < turns
    requires forall t :: 0 <= t < turns ==> TerminalStatusOf(messages[2 * t + 1].status).Some?
    ensures AllTurns(messages, turns)[t] ==
            Turn(messages[2 * t].id, messages[2 * t + 1].id, TerminalStatusOf(messages[2 * t + 1].status).value)
  {
    if t < turns - 1 {
      AllTurnsAt(messages, turns - 1, t);
    }
  }

  /** Every earlier question of a good log is answered with a terminal status, and none is current. */
  predicate Settled(log: Log, turns: nat, current: Id)
  {
    2 * turns <= |log.messages| && Good(log) &&
    (forall t :: 0 <= t < turns ==> TerminalStatusOf(log.messages[2 * t + 1].status).Some?) &&
    forall i :: 0 <= i < 2 * turns ==> log.messages[i].id != current
  }

  lemma {:induction false} PairedTurns(log: Log, turns: nat, current: Id)
    requires Settled(log, turns, current)
    ensures Paired(log.messages[..2 * turns], current) == Pairing(AllTurns(log.messages, turns), None)
  {
    if turns > 0 {
      var k := 2 * turns - 2;
      PairedTurns(log, turns - 1, current);
      PairedStep(log.messages, k, current);
      assert Regular(log, k) && Regular(log, k + 1);
      hide Paired, Good;
    }
  }

  lemma PairedStep(messages: seq<Message>, k: nat, current: Id)
    requires k + 2 <= |messages|
    ensures Paired(messages[..k + 2], current) ==
            PairOne(PairOne(Paired(messages[..k], current), messages[k], current), messages[k + 1], current)
  {
    hide PairOne;
    assert messages[..k + 1][..k] == messages[..k] && messages[..k + 2][..k + 1] == messages[..k + 1];
  }

  lemma {:induction false} RelevantAreEarlier(log: Log, t: nat, turns: nat, current: Id)
    requires Settled(log, turns, current) && t <= turns
    ensures RelevantFrom(AllTurns(log.messages, turns), t, StatusOf) == EarlierTurns(log.messages, t, turns)
    ensures |EarlierTurns(log.messages, t, turns)| <= turns - t
    decreases turns - t
  {
    if t < turns {
      AllTurnsAt(log.messages, turns, t);
      RelevantAreEarlier(log, t + 1, turns, current);
    }
  }

  lemma SettledBeforeCurrent(log: Log)
    requires Good(log) && log.messages != [] && Last(log).status == Processing
    ensures |log.messages| % 2 == 0
    ensures Settled(log, |log.messages| / 2 - 1, Last(log).id)
  {
    var n := |log.messages|;
    assert Regular(log, n - 1);
    forall t | 0 <= t < n / 2 - 1
      ensures TerminalStatusOf(log.messages[2 * t + 1].status).Some?
    {
      assert Regular(log, 2 * t + 1);
    }
  }

  /**
   On every reachable log whose last message is being answered, loading returns, in order,
   exactly the earlier PROCESSED turns and the turn before this one if it awaits
   clarification: neither the scan limit nor the turn limit drops any.
   */
  lemma HistoryIsExact(steps: seq<Step>)
    requires PossibleRun(steps)
    requires Run(steps).messages != [] && Last(Run(steps)).status == Processing
    ensures var log := Run(steps);
            |log.messages| % 2 == 0 &&
            LoadHistory(log.messages, Last(log).id) == EarlierTurns(log.messages, 0, |log.messages| / 2 - 1)
  {
    RunIsGood(steps);
    LoadOnGoodLog(Run(steps));
  }

  /** Within both limits loading is one pass over the paired turns. */
  lemma LoadWithinLimits(messages: seq<Message>, current: Id)
    requires |messages| <= CONVERSATION_HISTORY_SCAN_MESSAGE_LIMIT
    requires |RelevantFrom(Paired(messages, current).turns, 0, StatusOf)| <= MAX_USER_MESSAGES_PER_CONVERSATION
    ensures LoadHistory(messages, current) == RelevantFrom(Paired(messages, current).turns, 0, StatusOf)
  {
    hide Paired, RelevantFrom, SelectRelevant;
    var turns := Paired(messages, current).turns;
    SelectAll(turns, MAX_USER_MESSAGES_PER_CONVERSATION, StatusOf);
    SelectTwice(turns, MAX_USER_MESSAGES_PER_CONVERSATION, StatusOf);
  }

  lemma LoadOnGoodLog(log: Log)
    requires Good(log) && log.messages != [] && Last(log).status == Processing
    ensures |log.messages| % 2 == 0
    ensures LoadHistory(log.messages, Last(log).id) == EarlierTurns(log.messages, 0, |log.messages| / 2 - 1)
  {
    assert |log.messages| <= 2 * MAX_USER_MESSAGES_PER_CONVERSATION;
    hide *;
    SettledBeforeCurrent(log);
    var turns, current := |log.messages| / 2 - 1, Last(log).id;
    SettledTurns(log, turns);
    PairedTurns(log, turns, current);
    PairedTail(log, current);
    RelevantAreEarlier(log, 0, turns, current);
    LoadWithinLimits(log.messages, current);
  }

  lemma SettledTurns(log: Log, turns: nat)
    requires log.messages != [] && Settled(log, turns, Last(log).id)
    ensures forall t :: 0 <= t < turns ==> TerminalStatusOf(log.messages[2 * t + 1].status).Some?
  {
  }

  /** The question being answered opens a pair that its own answer does not close. */
  lemma PairedTail(log: Log, current: Id)
    requires Good(log) && log.messages != [] && Last(log).status == Processing && Last(log).id == current
    requires |log.messages| % 2 == 0
    ensures Paired(log.messages, current).turns == Paired(log.messages[..|log.messages| - 2], current).turns
  {
    var m, n := log.messages, |log.messages|;
    assert Regular(log, n - 2);
    PairedStep(m, n - 2, current);
    assert m[..n] == m;
  }
}
