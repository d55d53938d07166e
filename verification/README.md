# Session bookkeeping of the real-estate assistant page

The page (app.py) asks for the visitor's name, offers five suggested
real-estate questions plus a free-text box, and sends the chosen question to a
hosted language model behind a fixed instruction that restricts it to the
real-estate domain. Around that call sits a small state machine over three
per-session fields: `name` (set once), `messages` (an append-only log of
`{role, content}` records) and `questions_asked` (the number of answered
questions, capped at ten, with a notice when exactly eight have been answered).

This project models that state machine and the pure logic around it:

- `Prompt`: the fixed instruction, the `"\nUsuário: "` separator, the prompt
  built from them, and its inverse `QuestionOf`.
- `Quota`: the limit of ten, the notice at eight, and the two tests on the counter.
- `Questions`: the five suggested questions and the rule that a non-empty
  free-text question overrides the radio choice.
- `History`: roles, messages, role counts, the "every answer follows a
  question" invariant and the displayed transcript.
- `Chat`: the `Session` class with its three fields, the name gate, the
  `Submit` transition and `Run`, one rerun of the whole page script; and a
  client scenario that exhausts the quota.

The language model is not called: `Submit` and `Run` take its outcome as a
parameter (`Success(reply)` or `Failure(reason)`), and `Run`'s page reports the
prompt that would be sent. Widget values (name box, radio choice, free-text
box, the two buttons) are parameters of `Run`.

Two behaviours of the code differ from what a reader might expect; the model
follows the code:

- A failed model call is not atomic. The question is appended before the call,
  so after a failure the log ends in a question with no answer. `WellPaired`
  allows exactly that, and `Submit`'s contract states it.
- The low-quota notice is not shown once only. It is an equality test on the
  counter, evaluated on every rerun, and it reads the counter as it was before
  that rerun's submission. So it appears on every rerun made while eight
  questions are answered, and never in the rerun that records the eighth answer.
  `Quota.WarningReached` shows that a counter moving by steps of at most one
  cannot skip eight.

## Model

| member | source | states |
|---|---|---|
| `Prompt.BuildPrompt` | app.py:77-78 | the request begins with the fixed instruction unchanged, continues with the separator, and ends with the question verbatim; its length is the sum of the three |
| `Prompt.QuestionOf` | app.py:78 | the inverse of the concatenation at app.py:78, which the page itself never performs: a question is read back exactly when the request begins with the instruction and the separator, and the request is then that header followed by the question |
| `Prompt.PromptRoundTrip` | app.py:77-78 | reading back a built request gives the question it was built from |
| `Prompt.PromptParsesBack` | app.py:77-78 | any request that reads back as a question is the one built from that question |
| `Prompt.BuildPromptInjective` | app.py:78 | different questions are never sent as the same request |
| `Quota.ShowWarning` | app.py:46-47 | the low-quota notice is shown exactly when two questions of the ten remain (counter equal to eight, not a range) |
| `Quota.CanSubmit` | app.py:50 | questions are accepted exactly while some of the ten remain; whenever the notice shows, questions are still accepted |
| `Quota.WarningReached` | app.py:46 | a counter that starts at or below eight, reaches at least eight and moves by at most one per rerun holds eight at some rerun, so the equality test is reached; `Chat.Session.RunAll` supplies such counters |
| `Questions.SelectQuestion` | app.py:61-68 | a non-empty free-text question is sent; otherwise the chosen suggested question is sent; the sent question is never empty |
| `History.CountAppend` | app.py:72 | appending an entry raises its own role's count by one and leaves the other role's count alone |
| `History.CountsCoverLog` | app.py:72 | every log entry is either a question or an answer |
| `History.AnswersNeverExceedQuestions` | app.py:72-87 | in a well-paired log the answers are at most the questions, one fewer when the log ends in a question |
| `History.AnswersAtMostHalf` | app.py:72-87 | answers fill at most half of a well-paired log |
| `History.AppendTurn` | app.py:72-84 | appending a lone question, or a question followed by its answer, keeps the log well paired |
| `History.LabelsDistinguishRoles` | app.py:98 | the two roles are displayed under different labels |
| `History.TranscriptLength` | app.py:97 | the displayed history has exactly one line per log entry, the empty log included |
| `History.TranscriptAt` | app.py:96-100 | the displayed history has one line per log entry, in log order, labelled by the entry's role and showing its content verbatim |
| `Chat.Turn` | app.py:72-87 | a submitted question adds the question, then the reply when the call succeeded: two entries on success, one on failure |
| `Chat.Session.constructor` | app.py:20-27 | a fresh session has an empty name, an empty log and a zero counter, and satisfies the session invariant |
| `Chat.Session.CounterBoundedByLog` | app.py:50-87 | in a valid session the counter is at most the number of questions in the log and at most half its length |
| `Chat.Session.EnterName` | app.py:38-39 | the name is taken from the input only while it is empty; once set it never changes |
| `Chat.Session.Submit` | app.py:70-90 | the prompt sent is the built prompt of the question; the log is the old log plus the question, plus the reply on success; the counter rises by one exactly on success; a failure reports its reason; the invariant (counter at most ten, equal to the number of answers, answers follow questions) is kept |
| `Chat.Session.Run` | app.py:37-109 | one rerun: the name gate; the notice exactly when named and the old counter is eight; the limit notice exactly when named and the old counter is at least ten; a request is made only when named, under the limit and the button is pressed, otherwise the log and the counter are unchanged; the transcript and the saved log are the whole log |
| `Chat.Session.RunAll` | app.py:46-87 | a sequence of reruns: the counter each rerun reads moves by at most one from rerun to rerun, starts at the old counter and ends at the new one; each page shows the notice exactly when named and that counter is eight; the log only grows |
| `Chat.QuotaScenario` | app.py:38-93 | a naming rerun that sends nothing, then ten answered questions under the name "Ana": the notice appears only on the rerun made at eight answers; the eleventh rerun makes no request and shows the limit notice; a later name does not replace "Ana"; the log holds ten questions and ten answers |

## Left out

- The language model client and its call (app.py:14, 81): a network call, replaced by the `Outcome` parameter; the temperature setting and model name are not modelled.
- Environment and secret loading (app.py:7-11): configuration I/O.
- `Chat.Session.Run`: the inputs over-approximate what the page can produce. `send` may be true on the rerun that first sets the name, although the send button is not yet on screen; `send` and `save` may both be true, although one rerun reports one click. Every property proved holds for all these inputs, so it holds for the ones the page can produce.
- Widget rendering (title, greeting text, radio, text boxes, buttons, chat bubbles, markdown) and the rerun mechanism: widget values are parameters of `Run`; of the displayed text only the speaker labels and the entry contents are modelled.
- The save action's file write (app.py:103-109): JSON serialisation to a file. The model only states that the whole log is handed to it unchanged (`Page.saved`).
- The error notice's display prefix (app.py:90): the page carries only the failure's reason.
