# Quiz state machine

A Dafny model of the quiz reducer of a React quiz application. The reducer
owns the whole quiz state: the question list, the status (`Loading`,
`Error`, `Ready`, `Active`, `Finished`), the index of the current question,
the chosen answer, the points of the current attempt and the high score.
For each of seven action types it builds a fresh state. For any other type
it throws. The App component also derives two values from the state:
`numQuestions`, the length of the question list, and `maxPossiblePoints`,
a left fold that sums the questions' points.

Files:

- `wrappers.dfy`: `Option` stands for `null` and `Result` stands for a thrown error.
- `enums.dfy`: the five status codes.
- `app.dfy`: questions, state, the initial state, the actions, the reducer
  (`Reduce`), a dispatch loop over a sequence of actions (`Run`), the derived
  values, and the proof that the fold equals the reference total `SumPoints`.
- `transitions.dfy`: what each action does, field by field, and what
  follows for sequences of actions.
- `score_bound.dfy`: the score bound, which holds only for callers that
  follow the state diagram.

Modelling decisions:

- An action is one of the seven typed cases, with its payload, or
  `Unknown(tag)`. The tag's type excludes the seven known type strings.
  `Reduce` returns `Failure(ActionUnknown)` for `Unknown`, and never
  produces a state for it.
- `newAnswer` reads `questions.at(index)`. `At` models `Array.prototype.at`
  exactly, negative indices included. When there is no element there, the
  source fails when it reads `correctOption`; the model returns
  `Failure(NoCurrentQuestion)`.
- Answers are compared with strict equality on numbers, so the model uses
  `int` equality.

Two behaviours of the code differ from what a reader might expect, and
the model follows the code:

- `restart` spreads the initial state, so the high score returns to 0. A
  session-long high score that survives a restart is what the
  application's description suggests. The code does not keep it.
  `Transitions.RestartResets` and `Transitions.TwoQuestionWalkthrough` state
  this.
- `newAnswer` does not check whether the current question already has an
  answer. Answering correctly twice credits the question twice.
  `points <= maxPossiblePoints` therefore holds only for callers that follow
  the state diagram. `ScoreBound.LegalRunScoreBound` proves the bound for
  such callers. `Transitions.DoubleAnswerExceedsMaximum` shows a run that
  breaks it.

## Model

| member | source | states |
|---|---|---|
| `App.Type` | src/components/App.js:23-64 | an action's type string is one of the seven reducer cases exactly when the action is not `Unknown` |
| `App.At` | src/components/App.js:35 | `questions.at(index)` is defined exactly for `-len <= index < len`; it counts from the front, or from the back for a negative index |
| `App.Reduce` | src/components/App.js:22-66 | the reducer fails with "Action unknown" exactly for an unknown type, and fails on `correctOption` exactly for an answer with no question at `index`; only `dataReceived` replaces the question list; only `restart` lowers the high score, and it sets it to 0 |
| `App.MaxPossiblePoints` | src/components/App.js:73-76 | the `reduce` fold from 0 equals the total of all question points |
| `App.ReducePointsIsSum` | src/components/App.js:73-76 | the fold from any starting value adds the total of the question points to it |
| `App.SumPrefixBelowTotal` | src/components/App.js:73-76 | with non-negative points, the total over the first k questions lies between 0 and the full total |
| `Transitions.DataReceivedLoads` | src/components/App.js:24-29 | `dataReceived` stores the payload as the questions and sets `Ready`; index, answer, points and high score are unchanged |
| `Transitions.DataFailedOnlySetsError` | src/components/App.js:30-31 | `dataFailed` sets `Error` and changes nothing else |
| `Transitions.StartOnlyActivates` | src/components/App.js:32-33 | `start` sets `Active` and changes nothing else |
| `Transitions.NewAnswerScores` | src/components/App.js:34-44 | with a valid index, `newAnswer(p)` records `p` and adds the question's points exactly when `p` is its correct option; questions, status, index and high score are unchanged |
| `Transitions.NewAnswerFailsPastEnd` | src/components/App.js:35-41 | with a non-negative index, `newAnswer` fails exactly when the index is past the last question |
| `Transitions.NewAnswerGainBounded` | src/components/App.js:40-43 | one answer adds either nothing or the full value of the question; with non-negative points it never lowers the score |
| `Transitions.NextQuestionAdvances` | src/components/App.js:45-46 | `nextQuestion` increments the index and clears the answer; questions, status, points and high score are unchanged |
| `Transitions.FinishRecordsHighscore` | src/components/App.js:47-55 | `finish` sets `Finished` and makes the high score the larger of the old high score and the points; nothing else changes |
| `Transitions.RestartResets` | src/components/App.js:56-61 | `restart` keeps the questions and sets `Ready`; index, answer, points and high score take their initial values, so the high score becomes 0 |
| `Transitions.UnknownActionRejected` | src/components/App.js:63-64 | an action of unknown type yields the "Action unknown" failure and no state |
| `Transitions.HighscoreNeverDropsWithoutRestart` | src/components/App.js:47-55 | over any run without `restart`, the high score never decreases |
| `Transitions.QuestionsFrozenWithoutLoad` | src/components/App.js:22-76 | over any run without `dataReceived`, the questions, `numQuestions` and `maxPossiblePoints` stay the same |
| `Transitions.AnsweringTwiceCreditsTwice` | src/components/App.js:34-44 | answering the current question correctly twice adds its points twice |
| `Transitions.DoubleAnswerExceedsMaximum` | src/components/App.js:34-44 | a 10-point, one-question quiz answered correctly twice ends with 20 points, which exceeds `maxPossiblePoints` |
| `Transitions.TwoQuestionWalkthrough` | src/components/App.js:13-61 | a two-question session finishes with 10 points and a high score of 10, and a restart then keeps the questions and resets the high score to 0 |
| `ScoreBound.CeilingBelowTotal` | src/components/App.js:73-76 | the points of the passed questions plus those of an answered current question never exceed `maxPossiblePoints` |
| `ScoreBound.InitialStateWellScored` | src/components/App.js:13-20 | the initial state meets the score invariant |
| `ScoreBound.LegalStepKeepsWellScored` | src/components/App.js:22-66 | every action a caller issues where the state diagram allows it preserves the score invariant |
| `ScoreBound.LegalRunKeepsWellScored` | src/components/App.js:22-66 | a run of such actions preserves the score invariant |
| `ScoreBound.LegalRunScoreBound` | src/components/App.js:34-76 | after a legal run from the initial state, `0 <= points <= maxPossiblePoints` and `0 <= highscore <= maxPossiblePoints` |
| `ScoreBound.DoubleAnswerIsIllegal` | src/components/App.js:34-44 | the run that over-credits a question is not a legal run |
| `ScoreBound.LegalRunCanOverrunQuestions` | src/components/App.js:45-46 | legal use can leave an active quiz whose index is past the last question, where an answer fails |

## Left out

- The question fetch and the JSON decoding (network I/O). Its two
  outcomes are modelled only as the `dataReceived` and `dataFailed` actions.
- React's `useReducer`, `dispatch` and the JSX for each status. `Run` stands
  for dispatching actions one after another. A thrown error ends the run.
- The progress bar component. It only displays values.
- Question ids, question text and option strings. No behaviour depends on
  them.
- Numbers are modelled as unbounded integers. JavaScript floating point is
  not modelled.
- Payloads of the wrong shape, for example a `newAnswer` without a number,
  are not modelled. Each action carries the payload type its case reads.
- The status codes' string values (`"loading"`, and so on) are not
  modelled. The reducer only stores and compares them.
- Checks on fetched questions are not modelled because the code has none.
  Non-negative points appear only as preconditions of the lemmas that need them.
