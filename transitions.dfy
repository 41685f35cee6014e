/**
 What each action does to the quiz state, field by field, and what follows
 for sequences of actions: the high score only falls on a restart, the
 question list only changes on a data load, and answering the same question
 twice credits it twice.
 */
module Transitions {
  import opened Wrappers
  import opened Enums
  import opened App

  /** Loading questions stores them and makes the quiz ready; the position
      and the scores are left as they were. */
  lemma DataReceivedLoads(s: QuizState, qs: seq<Question>)
    ensures Reduce(s, DataReceived(qs)).Success?
    ensures var t := Reduce(s, DataReceived(qs)).value;
      && t.questions == qs && t.status == Ready
      && t.index == s.index && t.answer == s.answer
      && t.points == s.points && t.highscore == s.highscore
  {}

  /** A failed load only moves the status to Error. */
  lemma DataFailedOnlySetsError(s: QuizState)
    ensures Reduce(s, DataFailed) == Success(s.(status := Error))
    ensures Reduce(s, DataFailed).value.status == Error
  {}

  /** Starting only moves the status to Active. */
  lemma StartOnlyActivates(s: QuizState)
    ensures Reduce(s, Start) == Success(s.(status := Active))
    ensures Reduce(s, Start).value.status == Active
  {}

  /** Answering the current question records the answer and adds the
      question's points exactly when the chosen option is the correct one;
      nothing else changes. */
  lemma NewAnswerScores(s: QuizState, p: int)
    requires 0 <= s.index < |s.questions|
    ensures Reduce(s, NewAnswer(p)).Success?
    ensures var q := s.questions[s.index]; var t := Reduce(s, NewAnswer(p)).value;
      && t.answer == Some(p)
      && (p == q.correctOption ==> t.points == s.points + q.points)
      && (p != q.correctOption ==> t.points == s.points)
      && t.questions == s.questions && t.status == s.status
      && t.index == s.index && t.highscore == s.highscore
  {}

  /** With a non-negative index, an answer fails exactly when the index has
      run past the last question. */
  lemma NewAnswerFailsPastEnd(s: QuizState, p: int)
    requires s.index >= 0
    ensures Reduce(s, NewAnswer(p)).Failure? <==> s.index >= |s.questions|
    ensures Reduce(s, NewAnswer(p)).Failure? ==> Reduce(s, NewAnswer(p)).error == NoCurrentQuestion
  {}

  /** One answer changes the score by either nothing or the full value of the
      current question; with non-negative question points it never lowers
      the score and raises it by at most that value. */
  lemma NewAnswerGainBounded(s: QuizState, p: int)
    requires 0 <= s.index < |s.questions|
    ensures var q := s.questions[s.index]; var t := Reduce(s, NewAnswer(p)).value;
      && (t.points == s.points || t.points == s.points + q.points)
      && (q.points >= 0 ==> s.points <= t.points <= s.points + q.points)
  {}

  /** Moving on advances the index by one and clears the answer; the list,
      the status and both scores are kept. */
  lemma NextQuestionAdvances(s: QuizState)
    ensures Reduce(s, NextQuestion).Success?
    ensures var t := Reduce(s, NextQuestion).value;
      && t.index == s.index + 1 && t.answer == None
      && t.questions == s.questions && t.status == s.status
      && t.points == s.points && t.highscore == s.highscore
  {}

  /** Finishing sets the status to Finished and raises the high score to the
      larger of itself and the points; nothing else changes. */
  lemma FinishRecordsHighscore(s: QuizState)
    ensures Reduce(s, Finish).Success?
    ensures var t := Reduce(s, Finish).value;
      && t.status == Finished
      && t.highscore >= s.highscore && t.highscore >= s.points
      && (t.highscore == s.highscore || t.highscore == s.points)
      && t.questions == s.questions && t.index == s.index
      && t.answer == s.answer && t.points == s.points
  {}

  /** A restart keeps the question list and makes the quiz ready again, but
      every other field, the high score included, goes back to its initial
      value. */
  lemma RestartResets(s: QuizState)
    ensures Reduce(s, Restart).Success?
    ensures var t := Reduce(s, Restart).value;
      && t.questions == s.questions && t.status == Ready
      && t.index == InitialState.index == 0
      && t.answer == InitialState.answer == None
      && t.points == InitialState.points == 0
      && t.highscore == InitialState.highscore == 0
  {}

  /** An action of unknown type is refused and yields no state. */
  lemma UnknownActionRejected(s: QuizState, t: UnknownType)
    ensures Reduce(s, Unknown(t)) == Failure(ActionUnknown)
  {}

  /** Over any run of actions without a restart, the high score never falls. */
  lemma {:induction false} HighscoreNeverDropsWithoutRestart(s: QuizState, acts: seq<Action>)
    requires forall i :: 0 <= i < |acts| ==> !acts[i].Restart?
    requires Run(s, acts).Success?
    ensures Run(s, acts).value.highscore >= s.highscore
    decreases |acts|
  {
    if acts != [] {
      var t := Reduce(s, acts[0]).value;
      HighscoreNeverDropsWithoutRestart(t, acts[1..]);
    }
  }

  /** Over any run of actions that loads no data, the question list, and with
      it both derived values, stays as it was. */
  lemma {:induction false} QuestionsFrozenWithoutLoad(s: QuizState, acts: seq<Action>)
    requires forall i :: 0 <= i < |acts| ==> !acts[i].DataReceived?
    requires Run(s, acts).Success?
    ensures Run(s, acts).value.questions == s.questions
    ensures NumQuestions(Run(s, acts).value) == NumQuestions(s)
    ensures MaxPossiblePoints(Run(s, acts).value) == MaxPossiblePoints(s)
    decreases |acts|
  {
    if acts != [] {
      var t := Reduce(s, acts[0]).value;
      QuestionsFrozenWithoutLoad(t, acts[1..]);
    }
  }

  /** Nothing stops an answer from being given twice: answering the current
      question correctly twice adds its points twice. */
  lemma AnsweringTwiceCreditsTwice(s: QuizState, p: int)
    requires 0 <= s.index < |s.questions|
    requires p == s.questions[s.index].correctOption
    ensures var q := s.questions[s.index];
      && Reduce(s, NewAnswer(p)).Success?
      && Reduce(Reduce(s, NewAnswer(p)).value, NewAnswer(p)).Success?
      && Reduce(Reduce(s, NewAnswer(p)).value, NewAnswer(p)).value.points == s.points + 2 * q.points
  {}

  /** A one-question quiz worth 10 points, answered correctly twice, ends with
      20 points: the score is not bounded by `maxPossiblePoints`. */
  lemma DoubleAnswerExceedsMaximum()
    ensures var acts := [DataReceived([Question(0, 10)]), Start, NewAnswer(0), NewAnswer(0)];
      && Run(InitialState, acts).Success?
      && Run(InitialState, acts).value.points == 20
      && MaxPossiblePoints(Run(InitialState, acts).value) == 10
  {}

  /** Two questions worth 10 and 20, the first answered correctly and the
      second wrongly: the quiz finishes with 10 points and a high score of 10,
      and a restart then keeps the questions but sets the high score to 0. */
  lemma TwoQuestionWalkthrough()
    ensures var qs := [Question(1, 10), Question(0, 20)];
      var acts := [DataReceived(qs), Start, NewAnswer(1), NextQuestion, NewAnswer(1), Finish];
      && Run(InitialState, acts) == Success(QuizState(qs, Finished, 1, Some(1), 10, 10))
      && Run(InitialState, acts + [Restart]) == Success(QuizState(qs, Ready, 0, None, 0, 0))
  {
    var qs := [Question(1, 10), Question(0, 20)];
    var tail := [NewAnswer(1), NextQuestion, NewAnswer(1), Finish];
    var s2 := QuizState(qs, Active, 0, None, 0, 0);
    var s3 := QuizState(qs, Active, 0, Some(1), 10, 0);
    var s4 := QuizState(qs, Active, 1, None, 10, 0);
    var s5 := QuizState(qs, Active, 1, Some(1), 10, 0);
    var s6 := QuizState(qs, Finished, 1, Some(1), 10, 10);
    forall rest: seq<Action> ensures Run(InitialState, [DataReceived(qs), Start] + tail + rest) == Run(s6, rest) {
      var acts := [DataReceived(qs), Start] + tail + rest;
      assert acts[1..][1..] == tail + rest;
      assert (tail + rest)[1..][1..][1..][1..] == rest;
      assert Run(s2, tail + rest) == Run(s3, (tail + rest)[1..]);
      assert Run(s3, (tail + rest)[1..]) == Run(s4, (tail + rest)[1..][1..]);
      assert Run(s4, (tail + rest)[1..][1..]) == Run(s5, (tail + rest)[1..][1..][1..]);
    }
    assert [Restart][1..] == [];
    assert [DataReceived(qs), Start] + tail + [] == [DataReceived(qs), Start, NewAnswer(1), NextQuestion, NewAnswer(1), Finish];
    assert [DataReceived(qs), Start] + tail + [Restart] == [DataReceived(qs), Start, NewAnswer(1), NextQuestion, NewAnswer(1), Finish] + [Restart];
  }
}
