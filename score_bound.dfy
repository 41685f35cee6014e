/**
 The score bound `0 <= points <= maxPossiblePoints` does not hold for every
 action sequence (an answer may be given twice). It does hold when callers
 issue each action only where the quiz's state diagram allows it: data
 arrives once, while loading, with non-negative points; `start` only when
 ready; answers only while active and only to an unanswered question;
 `nextQuestion` and `finish` only while active. This module proves that.
 */
module ScoreBound {
  import opened Wrappers
  import opened Enums
  import opened App

  /** The caller obligations under which the reducer is meant to be used. */
  predicate Legal(s: QuizState, a: Action)
  {
    match a
    case DataReceived(qs) => s.status == Loading && NonNegativePoints(qs)
    case DataFailed => s.status == Loading
    case Start => s.status == Ready
    case NewAnswer(_) => s.status == Active && s.answer.None?
    case NextQuestion => s.status == Active
    case Finish => s.status == Active
    case Restart => true
    case Unknown(_) => true
  }

  /** Every action of the run is legal in the state it is dispatched in. */
  predicate LegalRun(s: QuizState, acts: seq<Action>)
    decreases |acts|
  {
    acts == [] ||
    (Legal(s, acts[0]) &&
     (Reduce(s, acts[0]).Success? ==> LegalRun(Reduce(s, acts[0]).value, acts[1..])))
  }

  /** The most the score can be: the points of the questions already passed,
      plus those of the current question once it has been answered. */
  function ScoreCeiling(s: QuizState): int
    requires s.index >= 0
  {
    var qs := s.questions;
    var passed := if s.index < |qs| then s.index else |qs|;
    SumPoints(qs[..passed]) + (if s.answer.Some? && s.index < |qs| then qs[s.index].points else 0)
  }

  /** The invariant that legal use keeps. */
  predicate WellScored(s: QuizState)
  {
    && NonNegativePoints(s.questions)
    && s.index >= 0
    && 0 <= s.points <= ScoreCeiling(s)
    && 0 <= s.highscore <= MaxPossiblePoints(s)
    && (s.status == Loading ==>
          s.index == 0 && s.answer == None && s.points == 0 && s.highscore == 0)
  }

  /** The ceiling never exceeds the total of all question points. */
  lemma CeilingBelowTotal(s: QuizState)
    requires NonNegativePoints(s.questions) && s.index >= 0
    ensures ScoreCeiling(s) <= MaxPossiblePoints(s)
  {
    var qs := s.questions;
    if s.index < |qs| {
      SumPrefixStep(qs, s.index);
      SumPrefixBelowTotal(qs, s.index + 1);
    } else {
      assert qs[..|qs|] == qs;
    }
  }

  /** The initial state is well scored. */
  lemma InitialStateWellScored()
    ensures WellScored(InitialState)
  {}

  /** A legal action keeps the state well scored. */
  lemma LegalStepKeepsWellScored(s: QuizState, a: Action)
    requires WellScored(s) && Legal(s, a)
    ensures Reduce(s, a).Success? ==> WellScored(Reduce(s, a).value)
  {
    var qs := s.questions;
    match a
    case DataReceived(qs') =>
      assert qs'[..0] == [];
      SumNonNegative(qs');
    case DataFailed =>
    case Start =>
    case NewAnswer(p) =>
      if s.index < |qs| {
        assert qs[s.index].points >= 0;
      }
    case NextQuestion =>
      if s.index < |qs| {
        SumPrefixStep(qs, s.index);
        assert qs[s.index].points >= 0;
      }
    case Finish =>
      CeilingBelowTotal(s);
    case Restart =>
      assert qs[..0] == [];
      SumNonNegative(qs);
    case Unknown(_) =>
  }

  /** A legal run keeps the state well scored. */
  lemma {:induction false} LegalRunKeepsWellScored(s: QuizState, acts: seq<Action>)
    requires WellScored(s) && LegalRun(s, acts)
    ensures Run(s, acts).Success? ==> WellScored(Run(s, acts).value)
    decreases |acts|
  {
    if acts != [] {
      LegalStepKeepsWellScored(s, acts[0]);
      if Reduce(s, acts[0]).Success? {
        LegalRunKeepsWellScored(Reduce(s, acts[0]).value, acts[1..]);
      }
    }
  }

  /** After any legal run from the initial state, the score and the high
      score both lie between 0 and `maxPossiblePoints`. */
  lemma LegalRunScoreBound(acts: seq<Action>)
    requires LegalRun(InitialState, acts)
    requires Run(InitialState, acts).Success?
    ensures var t := Run(InitialState, acts).value;
      && 0 <= t.points <= MaxPossiblePoints(t)
      && 0 <= t.highscore <= MaxPossiblePoints(t)
  {
    InitialStateWellScored();
    LegalRunKeepsWellScored(InitialState, acts);
    var t := Run(InitialState, acts).value;
    CeilingBelowTotal(t);
  }

  /** The run that answers one question twice is not a legal run: the second
      answer is given to a question that already has one. */
  lemma DoubleAnswerIsIllegal()
    ensures !LegalRun(InitialState, [DataReceived([Question(0, 10)]), Start, NewAnswer(0), NewAnswer(0)])
  {}

  /** Legal use does not keep the index inside the list while the quiz is
      active: moving on from the last question leaves an active quiz with no
      current question, where an answer fails. */
  lemma LegalRunCanOverrunQuestions()
    ensures var acts := [DataReceived([Question(0, 10)]), Start, NextQuestion];
      && LegalRun(InitialState, acts)
      && Run(InitialState, acts).Success?
      && var t := Run(InitialState, acts).value;
      && t.status == Active && t.index == |t.questions|
      && Reduce(t, NewAnswer(0)) == Failure(NoCurrentQuestion)
  {}
}
