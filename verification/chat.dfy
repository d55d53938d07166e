/**
 * The per-session state of the assistant page and one rerun of the page
 * script over it. The completion service is not called: its outcome is a
 * parameter, so every step is deterministic.
 */
module Chat {
  import opened Options
  import opened Prompt
  import opened Quota
  import opened Questions
  import opened History

  /** What the completion service did with a request. */
  datatype Outcome = Success(reply: string) | Failure(reason: string)

  /** What one rerun shows and hands on. */
  datatype Page = Page(
    welcome: bool,                      // the greeting and the question flow
    warning: bool,                      // the low-quota notice
    limitNotice: bool,                  // the quota-exhausted notice
    request: Option<string>,            // the prompt sent to the completion service
    error: Option<string>,              // the reason a call failed
    transcript: seq<Line>,              // the conversation history as drawn
    saved: Option<seq<Message>>)       // the log handed to the save action

  /** The widget values and the service outcome of one rerun. */
  datatype Input = Input(
    nameInput: string, choice: nat, custom: string, send: bool, outcome: Outcome, save: bool)

  /** The entries one submitted question appends to the log. */
  function Turn(question: string, outcome: Outcome): (entries: seq<Message>)
    ensures |entries| == if outcome.Success? then 2 else 1
    ensures entries[0] == Message(User, question)
    ensures outcome.Success? ==> entries[1] == Message(Assistant, outcome.reply)
  {
    match outcome
    case Success(reply) => [Message(User, question), Message(Assistant, reply)]
    case Failure(_) => [Message(User, question)]
  }

  class Session {
    var name: string
    var messages: seq<Message>
    var questionsAsked: nat

    /**
     * The counter stays within the quota and equals the number of answers in
     * the log; every answer follows its question; questions are asked only
     * once a name is set.
     */
    ghost predicate Valid()
      reads this
    {
      && questionsAsked <= QuestionLimit
      && questionsAsked == Count(messages, Assistant)
      && WellPaired(messages)
      && (messages != [] ==> name != "")
    }

    /**
     * In a valid session the counter never exceeds the number of questions
     * in the log, and answered exchanges fill at most half of it.
     */
    lemma CounterBoundedByLog()
      requires Valid()
      ensures questionsAsked <= Count(messages, User)
      ensures 2 * questionsAsked <= |messages|
    {
      AnswersNeverExceedQuestions(messages);
      AnswersAtMostHalf(messages);
    }

    /** A fresh session: no name, an empty log, no questions answered. */
    constructor ()
      ensures Valid()
      ensures name == "" && messages == [] && questionsAsked == 0
    {
      name := "";
      messages := [];
      questionsAsked := 0;
    }

    /** The name is taken from the input only while it is still empty. */
    method EnterName(input: string)
      requires Valid()
      modifies this`name
      ensures Valid()
      ensures old(name) == "" ==> name == input
      ensures old(name) != "" ==> name == old(name)
    {
      if name == "" {
        name := input;
      }
    }

    /**
     * Submits one question. The question is logged before the call; the
     * answer is logged and the counter raised only when the call succeeds,
     * so a failure leaves the question in the log without an answer.
     */
    method Submit(question: string, outcome: Outcome) returns (request: string, error: Option<string>)
      requires Valid() && name != "" && CanSubmit(questionsAsked)
      modifies this`messages, this`questionsAsked
      ensures Valid()
      ensures request == BuildPrompt(question)
      ensures messages == old(messages) + Turn(question, outcome)
      ensures questionsAsked == old(questionsAsked) + (if outcome.Success? then 1 else 0)
      ensures error == (if outcome.Failure? then Some(outcome.reason) else None)
    {
      AppendTurn(messages, question, if outcome.Success? then outcome.reply else "");
      CountAppend(messages, Message(User, question), Assistant);
      messages := messages + [Message(User, question)];
      request := BuildPrompt(question);
      match outcome {
        case Success(reply) =>
          CountAppend(messages, Message(Assistant, reply), Assistant);
          messages := messages + [Message(Assistant, reply)];
          questionsAsked := questionsAsked + 1;
          error := None;
        case Failure(reason) =>
          error := Some(reason);
      }
    }

    /**
     * One rerun of the page script. `nameInput` is the name box, `choice` the
     * radio option, `custom` the free-text box, `send` and `save` the two
     * buttons, and `outcome` what the completion service would return.
     */
    method Run(nameInput: string, choice: nat, custom: string, send: bool, outcome: Outcome, save: bool)
      returns (page: Page)
      requires Valid() && choice < |SuggestedQuestions|
      modifies this
      ensures Valid()
      ensures name == (if old(name) == "" then nameInput else old(name))
      ensures page.welcome <==> name != ""
      ensures page.warning <==> name != "" && ShowWarning(old(questionsAsked))
      ensures page.limitNotice <==> name != "" && !CanSubmit(old(questionsAsked))
      ensures var asked := name != "" && CanSubmit(old(questionsAsked)) && send;
              && page.request == (if asked then Some(BuildPrompt(SelectQuestion(choice, custom))) else None)
              && messages == old(messages) + (if asked then Turn(SelectQuestion(choice, custom), outcome) else [])
              && questionsAsked == old(questionsAsked) + (if asked && outcome.Success? then 1 else 0)
              && page.error == (if asked && outcome.Failure? then Some(outcome.reason) else None)
      ensures page.transcript == Transcript(messages)
      ensures page.saved == (if save then Some(messages) else None)
    {
      EnterName(nameInput);
      var request: Option<string> := None;
      var error: Option<string> := None;
      var warning, limitNotice := false, false;
      if name != "" {
        warning := ShowWarning(questionsAsked);
        if CanSubmit(questionsAsked) {
          var question := SelectQuestion(choice, custom);
          if send {
            var sent;
            sent, error := Submit(question, outcome);
            request := Some(sent);
          }
        } else {
          limitNotice := true;
        }
      }
      var saved := if save then Some(messages) else None;
      page := Page(name != "", warning, limitNotice, request, error, Transcript(messages), saved);
    }

    /**
     * A sequence of reruns. `counters[i]` is the counter that rerun i reads;
     * successive counters move by at most one, so `Quota.WarningReached`
     * applies to any session driven this way.
     */
    method RunAll(inputs: seq<Input>) returns (pages: seq<Page>, counters: seq<nat>)
      requires Valid()
      requires forall i :: 0 <= i < |inputs| ==> inputs[i].choice < |SuggestedQuestions|
      modifies this
      ensures Valid()
      ensures |pages| == |inputs| && |counters| == |inputs| + 1
      ensures counters[0] == old(questionsAsked) && counters[|inputs|] == questionsAsked
      ensures StepsByAtMostOne(counters)
      ensures forall i :: 0 <= i < |inputs| ==> (pages[i].warning <==> pages[i].welcome && ShowWarning(counters[i]))
      ensures old(messages) <= messages
    {
      pages, counters := [], [questionsAsked];
      ghost var start := messages;
      var k := 0;
      while k < |inputs|
        invariant 0 <= k <= |inputs|
        invariant Valid()
        invariant |pages| == k && |counters| == k + 1
        invariant counters[0] == old(questionsAsked) && counters[k] == questionsAsked
        invariant StepsByAtMostOne(counters)
        invariant forall i :: 0 <= i < k ==> (pages[i].warning <==> pages[i].welcome && ShowWarning(counters[i]))
        invariant start <= messages
      {
        var input := inputs[k];
        var page := Run(input.nameInput, input.choice, input.custom, input.send, input.outcome, input.save);
        pages := pages + [page];
        counters := counters + [questionsAsked];
        k := k + 1;
      }
    }
  }

  /**
   * A session that is named "Ana" on its first rerun, sends ten questions,
   * all answered, and then tries an eleventh and a new name. The notice
   * appears only on the rerun made at eight answers; the eleventh question is
   * refused without a request; the log holds ten questions and ten answers.
   */
  method QuotaScenario(reply: string) returns (pages: seq<Page>, name: string, log: seq<Message>)
    ensures |pages| == QuestionLimit + 2
    ensures !pages[0].warning && pages[0].request == None && pages[0].welcome
    ensures forall i :: 1 <= i < |pages| ==> (pages[i].warning <==> i == WarningAt + 1)
    ensures forall i :: 1 <= i <= QuestionLimit ==> pages[i].request.Some? && !pages[i].limitNotice
    ensures pages[QuestionLimit + 1].limitNotice && pages[QuestionLimit + 1].request == None
    ensures name == "Ana"
    ensures |log| == 2 * QuestionLimit
    ensures Count(log, Assistant) == QuestionLimit && Count(log, User) == QuestionLimit
  {
    var s := new Session();
    var naming := s.Run("Ana", 0, "", false, Success(reply), false);
    pages := [naming];
    var i := 0;
    while i < QuestionLimit
      invariant 0 <= i <= QuestionLimit
      invariant s.Valid() && s.name == "Ana"
      invariant s.questionsAsked == i && |s.messages| == 2 * i
      invariant |pages| == i + 1 && pages[0] == naming
      invariant forall j :: 1 <= j <= i ==> (pages[j].warning <==> j == WarningAt + 1)
      invariant forall j :: 1 <= j <= i ==> pages[j].request.Some? && !pages[j].limitNotice
    {
      var page := s.Run("Ana", 0, "", true, Success(reply), false);
      pages := pages + [page];
      i := i + 1;
    }
    var last := s.Run("Bruno", 0, "", true, Success(reply), false);
    pages := pages + [last];
    name, log := s.name, s.messages;
    CountsCoverLog(log);
  }
}
