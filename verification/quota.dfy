/**
 * The per-session question quota: ten answered questions, with a notice
 * when exactly two remain. Both tests read the counter of answered
 * questions; neither changes it.
 */
module Quota {
  const QuestionLimit: nat := 10
  const WarningAt: nat := 8

  /** The low-quota notice is an equality test, evaluated on every rerun. */
  function ShowWarning(questionsAsked: nat): (shown: bool)
    ensures shown <==> QuestionLimit - questionsAsked == 2
  {
    questionsAsked == WarningAt
  }

  /** Questions are accepted only while the counter is below the limit. */
  function CanSubmit(questionsAsked: nat): (open: bool)
    ensures open <==> QuestionLimit - questionsAsked > 0
    ensures ShowWarning(questionsAsked) ==> open
  {
    questionsAsked < QuestionLimit
  }

  /** Each rerun leaves the counter alone or adds one to it. */
  ghost predicate StepsByAtMostOne(trace: seq<nat>)
  {
    forall i :: 0 < i < |trace| ==> trace[i] == trace[i - 1] || trace[i] == trace[i - 1] + 1
  }

  /**
   * A counter that moves by steps of at most one cannot pass the warning
   * value without holding it; the equality test is only safe because of that.
   */
  lemma {:induction false} WarningReached(trace: seq<nat>)
    requires |trace| > 0 && StepsByAtMostOne(trace)
    requires trace[0] <= WarningAt <= trace[|trace| - 1]
    ensures exists i :: 0 <= i < |trace| && ShowWarning(trace[i])
  {
    var last := |trace| - 1;
    if trace[last] == WarningAt {
      assert ShowWarning(trace[last]);
    } else {
      assert trace[last - 1] >= WarningAt;
      var prefix := trace[..last];
      assert StepsByAtMostOne(prefix) by {
        forall i | 0 < i < |prefix|
          ensures prefix[i] == prefix[i - 1] || prefix[i] == prefix[i - 1] + 1
        {
          assert prefix[i] == trace[i] && prefix[i - 1] == trace[i - 1];
        }
      }
      WarningReached(prefix);
      var i :| 0 <= i < |prefix| && ShowWarning(prefix[i]);
      assert trace[i] == prefix[i];
    }
  }
}
