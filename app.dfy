/**
 The quiz state machine: the state record, the initial state, the actions,
 the reducer that maps a state and an action to the next state, and the two
 values the App component derives from the state.
 */
module App {
  import opened Wrappers
  import opened Enums

  /** One quiz item. Only the fields the reducer reads are kept: the index
      of the correct option and the points a correct answer earns. */
  datatype Question = Question(correctOption: int, points: int)

  /** The whole quiz state. `answer` is `None` where the source holds `null`. */
  datatype QuizState = QuizState(
    questions: seq<Question>,
    status: Status,
    index: int,
    answer: Option<int>,
    points: int,
    highscore: int)

  /** The state a session starts in, and the base a restart spreads. */
  const InitialState: QuizState := QuizState([], Loading, 0, None, 0, 0)

  /** The `type` strings the reducer's switch has a case for. */
  const KnownTypes: set<string> :=
    {"dataReceived", "dataFailed", "start", "newAnswer", "nextQuestion", "finish", "restart"}

  /** A `type` string that matches none of the reducer's cases. */
  type UnknownType = t: string | t !in KnownTypes witness ""

  /** A dispatched action: the seven cases with their payloads, and any
      action whose `type` is none of them. */
  datatype Action =
    | DataReceived(questions: seq<Question>)
    | DataFailed
    | Start
    | NewAnswer(option: int)
    | NextQuestion
    | Finish
    | Restart
    | Unknown(tag: UnknownType)

  /** What the reducer throws: the "Action unknown" error, or the failure to
      read `correctOption` when there is no question at `index`. */
  datatype ReduceError = ActionUnknown | NoCurrentQuestion

  /** The `type` field of an action. */
  function Type(a: Action): (t: string)
    ensures t in KnownTypes <==> !a.Unknown?
  {
    match a
    case DataReceived(_) => "dataReceived"
    case DataFailed => "dataFailed"
    case Start => "start"
    case NewAnswer(_) => "newAnswer"
    case NextQuestion => "nextQuestion"
    case Finish => "finish"
    case Restart => "restart"
    case Unknown(t) => t
  }

  /** `qs.at(i)`: a non-negative index counts from the front, a negative one
      from the back, and outside `-|qs| .. |qs|-1` there is no element. */
  function At(qs: seq<Question>, i: int): (r: Option<Question>)
    ensures r.Some? <==> -|qs| <= i < |qs|
    ensures 0 <= i < |qs| ==> r == Some(qs[i])
    ensures -|qs| <= i < 0 ==> r == Some(qs[|qs| + i])
  {
    if 0 <= i < |qs| then Some(qs[i])
    else if -|qs| <= i < 0 then Some(qs[|qs| + i])
    else None
  }

  /** The reducer. Every case builds a fresh state from `s` (or, for a
      restart, from the initial state); an unknown type, or an answer with no
      question at `index`, produces no state at all. */
  function Reduce(s: QuizState, a: Action): (r: Result<QuizState, ReduceError>)
    ensures r == Failure(ActionUnknown) <==> Type(a) !in KnownTypes
    ensures r == Failure(NoCurrentQuestion) <==> a.NewAnswer? && At(s.questions, s.index).None?
    ensures r.Success? ==> r.value.questions == (if a.DataReceived? then a.questions else s.questions)
    ensures r.Success? && !a.Restart? ==> r.value.highscore >= s.highscore
    ensures r.Success? && a.Restart? ==> r.value.highscore == 0
  {
    match a
    case DataReceived(qs) => Success(s.(questions := qs, status := Ready))
    case DataFailed => Success(s.(status := Error))
    case Start => Success(s.(status := Active))
    case NewAnswer(p) =>
      (match At(s.questions, s.index)
       case None => Failure(NoCurrentQuestion)
       case Some(q) =>
         Success(s.(answer := Some(p),
                    points := if p == q.correctOption then s.points + q.points else s.points)))
    case NextQuestion => Success(s.(index := s.index + 1, answer := None))
    case Finish =>
      Success(s.(status := Finished,
                 highscore := if s.points > s.highscore then s.points else s.highscore))
    case Restart => Success(InitialState.(questions := s.questions, status := Ready))
    case Unknown(_) => Failure(ActionUnknown)
  }

  /** Dispatching a sequence of actions one after another; the first error
      stops the session. */
  function Run(s: QuizState, acts: seq<Action>): Result<QuizState, ReduceError>
    decreases |acts|
  {
    if acts == [] then Success(s)
    else
      match Reduce(s, acts[0])
      case Failure(e) => Failure(e)
      case Success(t) => Run(t, acts[1..])
  }

  /** `numQuestions`: the length of the question list. */
  function NumQuestions(s: QuizState): nat
  {
    |s.questions|
  }

  /** Reference total of the question points, taking the last question off. */
  function SumPoints(qs: seq<Question>): int
  {
    if qs == [] then 0 else SumPoints(qs[..|qs| - 1]) + qs[|qs| - 1].points
  }

  /** `qs.reduce((prev, cur) => prev + cur.points, prev)`: a left fold. */
  function ReducePoints(prev: int, qs: seq<Question>): int
    decreases |qs|
  {
    if qs == [] then prev else ReducePoints(prev + qs[0].points, qs[1..])
  }

  /** `maxPossiblePoints`: the fold from 0, which is the total of all points. */
  function MaxPossiblePoints(s: QuizState): (m: int)
    ensures m == SumPoints(s.questions)
  {
    ReducePointsIsSum(0, s.questions);
    ReducePoints(0, s.questions)
  }

  /** The total with the first question taken off instead of the last. */
  lemma {:induction false} SumPointsCons(qs: seq<Question>)
    requires qs != []
    ensures SumPoints(qs) == qs[0].points + SumPoints(qs[1..])
    decreases |qs|
  {
    if |qs| > 1 {
      var n := |qs|;
      SumPointsCons(qs[..n - 1]);
      assert qs[..n - 1][1..] == qs[1..][..n - 2];
      assert qs[1..][n - 2] == qs[n - 1];
    } else {
      assert qs[..0] == [];
      assert qs[1..] == [];
    }
  }

  /** The left fold adds the total of the points to its starting value. */
  lemma {:induction false} ReducePointsIsSum(prev: int, qs: seq<Question>)
    ensures ReducePoints(prev, qs) == prev + SumPoints(qs)
    decreases |qs|
  {
    if qs != [] {
      ReducePointsIsSum(prev + qs[0].points, qs[1..]);
      SumPointsCons(qs);
    }
  }

  /** Every question is worth a non-negative number of points. */
  predicate NonNegativePoints(qs: seq<Question>)
  {
    forall i :: 0 <= i < |qs| ==> qs[i].points >= 0
  }

  /** Extending a prefix by one question adds that question's points. */
  lemma SumPrefixStep(qs: seq<Question>, k: nat)
    requires k < |qs|
    ensures SumPoints(qs[..k + 1]) == SumPoints(qs[..k]) + qs[k].points
  {
    assert qs[..k + 1][..k] == qs[..k];
  }

  /** With non-negative points the total is non-negative. */
  lemma {:induction false} SumNonNegative(qs: seq<Question>)
    requires NonNegativePoints(qs)
    ensures SumPoints(qs) >= 0
    decreases |qs|
  {
    if qs != [] {
      SumNonNegative(qs[..|qs| - 1]);
    }
  }

  /** With non-negative points, a prefix lies between zero and the total. */
  lemma {:induction false} SumPrefixBelowTotal(qs: seq<Question>, k: nat)
    requires NonNegativePoints(qs)
    requires k <= |qs|
    ensures 0 <= SumPoints(qs[..k]) <= SumPoints(qs)
    decreases |qs| - k
  {
    SumNonNegative(qs[..k]);
    if k == |qs| {
      assert qs[..k] == qs;
    } else {
      SumPrefixBelowTotal(qs, k + 1);
      SumPrefixStep(qs, k);
    }
  }
}
