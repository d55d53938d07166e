/**
 * The message log: an append-only sequence of role/content records, the
 * counts the quota relies on, and the transcript drawn from it.
 */
module History {
  datatype Role = User | Assistant
  datatype Message = Message(role: Role, content: string)

  /** Number of entries with role `r`, counted from the end of the log. */
  function Count(log: seq<Message>, r: Role): (n: nat)
    ensures n <= |log|
    ensures n == 0 <==> forall i :: 0 <= i < |log| ==> log[i].role != r
  {
    if log == [] then 0
    else
      var init := log[..|log| - 1];
      assert forall i :: 0 <= i < |init| ==> init[i] == log[i];
      Count(init, r) + (if log[|log| - 1].role == r then 1 else 0)
  }

  /** Appending one entry adds one to its role's count and nothing to the other's. */
  lemma CountAppend(log: seq<Message>, m: Message, r: Role)
    ensures Count(log + [m], r) == Count(log, r) + (if m.role == r then 1 else 0)
  {
    assert (log + [m])[..|log|] == log;
  }

  /** Every entry is a question or an answer. */
  lemma {:induction false} CountsCoverLog(log: seq<Message>)
    ensures Count(log, User) + Count(log, Assistant) == |log|
  {
    if log != [] {
      CountsCoverLog(log[..|log| - 1]);
    }
  }

  /**
   * Every answer sits immediately after a question: the log is a run of
   * turns, each a question alone (the model call failed) or a question
   * followed by its answer.
   */
  ghost predicate WellPaired(log: seq<Message>)
  {
    forall i :: 0 <= i < |log| && log[i].role == Assistant ==> 0 < i && log[i - 1].role == User
  }

  /** A well-paired log has at least as many questions as answers, one more when it ends in a question. */
  lemma {:induction false} AnswersNeverExceedQuestions(log: seq<Message>)
    requires WellPaired(log)
    ensures Count(log, Assistant) + (if log != [] && log[|log| - 1].role == User then 1 else 0)
            <= Count(log, User)
  {
    if log != [] {
      var init := log[..|log| - 1];
      assert forall i :: 0 <= i < |init| ==> init[i] == log[i];
      assert WellPaired(init);
      AnswersNeverExceedQuestions(init);
      CountAppend(init, log[|log| - 1], Assistant);
      CountAppend(init, log[|log| - 1], User);
      assert init + [log[|log| - 1]] == log;
    }
  }

  /** Answered questions take up at most half of a well-paired log. */
  lemma AnswersAtMostHalf(log: seq<Message>)
    requires WellPaired(log)
    ensures 2 * Count(log, Assistant) <= |log|
  {
    AnswersNeverExceedQuestions(log);
    CountsCoverLog(log);
  }

  /** Appending a question, or a question and its answer, keeps the log well paired. */
  lemma AppendTurn(log: seq<Message>, question: string, answer: string)
    requires WellPaired(log)
    ensures WellPaired(log + [Message(User, question)])
    ensures WellPaired(log + [Message(User, question), Message(Assistant, answer)])
  {
  }

  /** The speaker label shown in front of an entry. */
  function RoleLabel(r: Role): (speaker: string)
  {
    if r == User then "Você" else "Assistente"
  }

  /** The two roles are shown under different labels. */
  lemma LabelsDistinguishRoles(a: Role, b: Role)
    ensures RoleLabel(a) == RoleLabel(b) <==> a == b
  {
  }

  datatype Line = Line(speaker: string, text: string)

  /** The conversation history as displayed: one line per entry, in log order. */
  function Transcript(log: seq<Message>): (lines: seq<Line>)
  {
    if log == [] then []
    else Transcript(log[..|log| - 1]) + [Line(RoleLabel(log[|log| - 1].role), log[|log| - 1].content)]
  }

  /** The displayed history has exactly one line per entry. */
  lemma {:induction false} TranscriptLength(log: seq<Message>)
    ensures |Transcript(log)| == |log|
  {
    if log != [] {
      TranscriptLength(log[..|log| - 1]);
    }
  }

  /** The displayed history has one line per entry, labelled by its role and showing its content verbatim. */
  lemma {:induction false} TranscriptAt(log: seq<Message>, k: nat)
    requires k < |log|
    ensures |Transcript(log)| == |log|
    ensures Transcript(log)[k] == Line(RoleLabel(log[k].role), log[k].content)
  {
    var init := log[..|log| - 1];
    if k < |init| {
      TranscriptAt(init, k);
    } else if init != [] {
      TranscriptAt(init, 0);
    }
  }
}
