/**
 * The quiz game of `components/BibleQuiz.tsx`: a state machine over the score, the streak of
 * correct answers, seven lives, the answer feedback and a 60-second countdown per question. The
 * interval that counts down and the `setTimeout`s that follow an answer are explicit events here:
 * `Second` is one tick of the interval, `FollowUpFires` is the scheduled timeout running, and
 * `Arrived` is the generated question coming back.
 */
module BibleQuiz {
  import opened Wrappers
  import opened Records

  datatype Difficulty = Easy | Medium | Hard
  datatype GameState = MenuState | Playing | GameOver
  datatype Feedback = Correct | Wrong | Timeout

  /** What the timeout set after an answer will do: load the next question, or end the game. */
  datatype FollowUp = LoadNext | EndGame

  const StartingLives: int := 7
  const QuestionSeconds: nat := 60

  /** Everything the component keeps in state (the interval handle is implied by `TimerRunning`). */
  datatype Quiz = Quiz(
    state: GameState, difficulty: Difficulty, question: Option<QuizQuestion>,
    score: nat, streak: nat, lives: int, loading: bool, feedback: Option<Feedback>,
    timeLeft: nat, scheduled: Option<FollowUp>)

  function Initial(): Quiz {
    Quiz(MenuState, Medium, None, 0, 0, StartingLives, false, None, QuestionSeconds, None)
  }

  function BasePoints(d: Difficulty): nat {
    match d
    case Easy => 10
    case Medium => 20
    case Hard => 30
  }

  /** The points of a correct answer: the difficulty's base, 5 per answer of the streak so far, and half the seconds left. */
  function Points(d: Difficulty, streak: nat, timeLeft: nat): nat {
    BasePoints(d) + 5 * streak + timeLeft / 2
  }

  /** Points grow with the difficulty, the streak and the time left, and stay within base + 5·streak + 30. */
  lemma PointsBounds(d: Difficulty, streak: nat, timeLeft: nat, streak': nat, timeLeft': nat)
    requires streak <= streak' && timeLeft <= timeLeft'
    ensures BasePoints(d) + 5 * streak <= Points(d, streak, timeLeft)
    ensures timeLeft <= QuestionSeconds ==> Points(d, streak, timeLeft) <= BasePoints(d) + 5 * streak + 30
    ensures Points(d, streak, timeLeft) <= Points(d, streak', timeLeft')
    ensures Points(Easy, streak, timeLeft) < Points(Medium, streak, timeLeft) < Points(Hard, streak, timeLeft)
  {
  }

  /** The effect that starts the interval runs it exactly in this situation. */
  predicate TimerRunning(q: Quiz) {
    q.state == Playing && q.question.Some? && !q.loading && q.feedback.None?
  }

  /** `loadQuestion` up to the request: loading, no feedback, the clock back at 60. */
  function BeginLoad(q: Quiz): Quiz {
    q.(loading := true, feedback := None, timeLeft := QuestionSeconds)
  }

  /** `startGame`. */
  function StartGame(q: Quiz, d: Difficulty): Quiz {
    BeginLoad(q.(difficulty := d, score := 0, streak := 0, lives := StartingLives, state := Playing))
  }

  /** `handleMistake`: the decision about the end of the game uses the lives before the decrement. */
  function Mistake(q: Quiz, kind: Feedback): Quiz {
    q.(streak := 0, lives := q.lives - 1, feedback := Some(kind),
       scheduled := Some(if q.lives - 1 <= 0 then EndGame else LoadNext))
  }

  /** `handleAnswer`. */
  function Answer(q: Quiz, choice: int): Quiz {
    if q.question.None? || q.feedback.Some? then q
    else if choice == q.question.value.correctOptionIndex then
      q.(score := q.score + Points(q.difficulty, q.streak, q.timeLeft), streak := q.streak + 1,
         feedback := Some(Correct), scheduled := Some(LoadNext))
    else Mistake(q, Wrong)
  }

  /** One tick of the interval: reaching 0 is a timeout mistake, and the clock stays at 0. */
  function Tick(q: Quiz): Quiz {
    if !TimerRunning(q) then q
    else if q.timeLeft <= 1 then Mistake(q.(timeLeft := 0), Timeout)
    else q.(timeLeft := q.timeLeft - 1)
  }

  /** The question arrives and loading ends; the interval then restarts at 60. */
  function Loaded(q: Quiz, r: QuizQuestion): Quiz {
    var q' := q.(question := Some(r), loading := false);
    if TimerRunning(q') then q'.(timeLeft := QuestionSeconds) else q'
  }

  /** The scheduled timeout runs. */
  function Fire(q: Quiz): Quiz {
    match q.scheduled
    case None => q
    case Some(LoadNext) => BeginLoad(q.(scheduled := None))
    case Some(EndGame) => q.(state := GameOver, scheduled := None)
  }

  datatype Event =
    | Start(d: Difficulty)
    | Choose(choice: int)
    | Second
    | Arrived(r: QuizQuestion)
    | FollowUpFires
    | PlayAgain

  /**
   * An event as the screen delivers it: the difficulty buttons exist only on the menu, the option
   * buttons only while playing and not loading, "Jogar Novamente" only on the game-over screen,
   * and a question only arrives for a request in flight.
   */
  function Apply(q: Quiz, e: Event): Quiz {
    match e
    case Start(d) => if q.state == MenuState then StartGame(q, d) else q
    case Choose(i) => if q.state == Playing && !q.loading then Answer(q, i) else q
    case Second => Tick(q)
    case Arrived(r) => if q.loading then Loaded(q, r) else q
    case FollowUpFires => Fire(q)
    case PlayAgain => if q.state == GameOver then q.(state := MenuState) else q
  }

  function Run(q: Quiz, es: seq<Event>): Quiz
    decreases |es|
  {
    if es == [] then q else Run(Apply(q, es[0]), es[1..])
  }

  /**
   * What holds in every reachable state: lives stay within 0..7 and the clock within 0..60, a game
   * with no lives left shows its last feedback, the next question is only ever scheduled with a
   * life left, a scheduled timeout waits behind the feedback of the answer, and outside a game nothing is scheduled or loading and no answer would be taken.
   */
  ghost predicate Inv(q: Quiz) {
    && 0 <= q.lives <= StartingLives
    && q.timeLeft <= QuestionSeconds
    && (q.lives == 0 ==> q.feedback.Some?)
    && (q.scheduled == Some(LoadNext) ==> q.lives > 0)
    && (q.scheduled.Some? ==> !q.loading && q.feedback.Some?)
    && (q.state != Playing ==> q.scheduled.None? && !q.loading && (q.question.None? || q.feedback.Some?))
  }

  lemma InitialInv()
    ensures Inv(Initial())
  {
  }

  /** A new game starts from 0 points, no streak, 7 lives and a question on its way, whatever came before. */
  lemma StartGameResets(q: Quiz, d: Difficulty)
    requires Inv(q) && q.state == MenuState
    ensures var s := StartGame(q, d);
      s.score == 0 && s.streak == 0 && s.lives == 7 && s.state == Playing && s.difficulty == d
      && s.loading && s.feedback.None? && s.timeLeft == 60 && Inv(s)
  {
  }

  /** An answer without a question, or after the feedback is shown, changes nothing. */
  lemma AnswerIgnored(q: Quiz, choice: int)
    requires q.question.None? || q.feedback.Some?
    ensures Answer(q, choice) == q
  {
  }

  /** A correct answer adds the points for the streak before it, then lengthens the streak; lives are untouched. */
  lemma CorrectAnswerScores(q: Quiz, choice: int)
    requires q.question.Some? && q.feedback.None? && choice == q.question.value.correctOptionIndex
    ensures var a := Answer(q, choice);
      a.score == q.score + BasePoints(q.difficulty) + 5 * q.streak + q.timeLeft / 2
      && a.streak == q.streak + 1 && a.lives == q.lives && a.feedback == Some(Correct)
      && a.scheduled == Some(LoadNext)
  {
  }

  /** A wrong answer costs a life and the streak, and ends the game exactly when it was the last life. */
  lemma WrongAnswerCosts(q: Quiz, choice: int)
    requires q.question.Some? && q.feedback.None? && choice != q.question.value.correctOptionIndex
    ensures var a := Answer(q, choice);
      a.score == q.score && a.streak == 0 && a.lives == q.lives - 1 && a.feedback == Some(Wrong)
      && (a.scheduled == Some(EndGame) <==> q.lives <= 1)
      && (a.scheduled == Some(LoadNext) <==> q.lives > 1)
  {
  }

  /** After the last life is lost, the scheduled timeout shows the game-over screen with the final score. */
  lemma LastLifeEndsGame(q: Quiz, choice: int)
    requires Inv(q) && TimerRunning(q) && q.lives == 1 && choice != q.question.value.correctOptionIndex
    ensures var g := Fire(Apply(q, Choose(choice)));
      g.state == GameOver && g.lives == 0 && g.score == q.score && Inv(g)
  {
  }

  /** Every event keeps the invariant. */
  lemma ApplyKeepsInv(q: Quiz, e: Event)
    requires Inv(q)
    ensures Inv(Apply(q, e))
  {
  }

  lemma {:induction false} RunKeepsInv(q: Quiz, es: seq<Event>)
    requires Inv(q)
    ensures Inv(Run(q, es))
    decreases |es|
  {
    if es != [] {
      ApplyKeepsInv(q, es[0]);
      RunKeepsInv(Apply(q, es[0]), es[1..]);
    }
  }

  /** Within a game (no new game started), the score never goes down. */
  lemma {:induction false} ScoreNeverDecreases(q: Quiz, es: seq<Event>)
    requires forall k :: 0 <= k < |es| ==> !es[k].Start?
    ensures Run(q, es).score >= q.score
    decreases |es|
  {
    if es != [] {
      assert Apply(q, es[0]).score >= q.score;
      ScoreNeverDecreases(Apply(q, es[0]), es[1..]);
    }
  }

  function Seconds(n: nat): (es: seq<Event>)
    ensures |es| == n && forall k :: 0 <= k < n ==> es[k] == Second
  {
    if n == 0 then [] else [Second] + Seconds(n - 1)
  }

  /** While the clock runs, k ticks take k seconds off it and change nothing else. */
  lemma {:induction false} CountdownRuns(q: Quiz, k: nat)
    requires TimerRunning(q) && k < q.timeLeft
    ensures Run(q, Seconds(k)) == q.(timeLeft := q.timeLeft - k)
    decreases k
  {
    if k > 0 {
      assert Seconds(k)[1..] == Seconds(k - 1);
      var q1 := Apply(q, Second);
      assert q1 == q.(timeLeft := q.timeLeft - 1);
      CountdownRuns(q1, k - 1);
    }
  }

  /** Left unanswered, a question times out after exactly as many ticks as it had seconds: a mistake, with the clock at 0. */
  lemma CountdownTimesOut(q: Quiz)
    requires TimerRunning(q) && q.timeLeft >= 1
    ensures var t := Run(q, Seconds(q.timeLeft));
      t.timeLeft == 0 && t.feedback == Some(Timeout) && t.lives == q.lives - 1 && t.streak == 0
      && t.score == q.score && !TimerRunning(t)
  {
    var n := q.timeLeft;
    var p := Run(q, Seconds(n - 1));
    CountdownRuns(q, n - 1);
    RunSplit(q, Seconds(n - 1), [Second]);
    assert Seconds(n - 1) + [Second] == Seconds(n);
    assert Run(p, [Second]) == Apply(p, Second);
  }

  lemma {:induction false} RunSplit(q: Quiz, a: seq<Event>, b: seq<Event>)
    ensures Run(q, a + b) == Run(Run(q, a), b)
    decreases |a|
  {
    if a == [] {
      assert a + b == b;
    } else {
      assert (a + b)[0] == a[0] && (a + b)[1..] == a[1..] + b;
      RunSplit(Apply(q, a[0]), a[1..], b);
    }
  }

  /** The quiz screen, with the component's state as fields. */
  class QuizGame {
    var state: GameState
    var difficulty: Difficulty
    var question: Option<QuizQuestion>
    var score: nat
    var streak: nat
    var lives: int
    var loading: bool
    var feedback: Option<Feedback>
    var timeLeft: nat
    var scheduled: Option<FollowUp>

    ghost function Snapshot(): Quiz
      reads this
    {
      Quiz(state, difficulty, question, score, streak, lives, loading, feedback, timeLeft, scheduled)
    }

    ghost predicate Valid()
      reads this
    {
      Inv(Snapshot())
    }

    constructor()
      ensures Snapshot() == Initial() && Valid()
    {
      state, difficulty, question := MenuState, Medium, None;
      score, streak, lives := 0, 0, StartingLives;
      loading, feedback, timeLeft, scheduled := false, None, QuestionSeconds, None;
    }

    /** `startGame` from the menu. */
    method StartGame(d: Difficulty)
      requires Valid() && state == MenuState
      modifies this
      ensures Valid() && Snapshot() == Apply(old(Snapshot()), Start(d))
    {
      difficulty, score, streak, lives, state := d, 0, 0, StartingLives, Playing;
      LoadQuestion();
    }

    /** `loadQuestion` up to the request. */
    method LoadQuestion()
      modifies this
      ensures Snapshot() == BeginLoad(old(Snapshot()))
    {
      loading, feedback, timeLeft := true, None, QuestionSeconds;
    }

    /** `handleMistake`. */
    method HandleMistake(kind: Feedback)
      modifies this
      ensures Snapshot() == Mistake(old(Snapshot()), kind)
    {
      var wasLastLife := lives - 1 <= 0;
      streak := 0;
      lives := lives - 1;
      feedback := Some(kind);
      scheduled := Some(if wasLastLife then EndGame else LoadNext);
    }

    /** `handleAnswer`, from an option button of the question on screen. */
    method HandleAnswer(choice: int)
      requires Valid() && state == Playing && !loading
      modifies this
      ensures Valid() && Snapshot() == Apply(old(Snapshot()), Choose(choice))
    {
      ghost var before := Snapshot();
      if question.None? || feedback.Some? {
        return;
      }
      if choice == question.value.correctOptionIndex {
        score := score + Points(difficulty, streak, timeLeft);
        streak := streak + 1;
        feedback := Some(Correct);
        scheduled := Some(LoadNext);
      } else {
        HandleMistake(Wrong);
      }
      ApplyKeepsInv(before, Choose(choice));
    }

    /** One tick of the countdown interval. */
    method Tick()
      requires Valid()
      modifies this
      ensures Valid() && Snapshot() == Apply(old(Snapshot()), Second)
    {
      ghost var before := Snapshot();
      if state == Playing && question.Some? && !loading && feedback.None? {
        if timeLeft <= 1 {
          timeLeft := 0;
          HandleMistake(Timeout);
        } else {
          timeLeft := timeLeft - 1;
        }
      }
      ApplyKeepsInv(before, Second);
    }

    /** The requested question arrives. */
    method QuestionLoaded(r: QuizQuestion)
      requires Valid() && loading
      modifies this
      ensures Valid() && Snapshot() == Apply(old(Snapshot()), Arrived(r))
    {
      ghost var before := Snapshot();
      question := Some(r);
      loading := false;
      if state == Playing && feedback.None? {
        timeLeft := QuestionSeconds;
      }
      ApplyKeepsInv(before, Arrived(r));
    }

    /** The timeout scheduled after an answer runs. */
    method RunFollowUp()
      requires Valid()
      modifies this
      ensures Valid() && Snapshot() == Apply(old(Snapshot()), FollowUpFires)
    {
      ghost var before := Snapshot();
      match scheduled {
        case None =>
        case Some(LoadNext) =>
          scheduled := None;
          LoadQuestion();
        case Some(EndGame) =>
          state := GameOver;
          scheduled := None;
      }
      ApplyKeepsInv(before, FollowUpFires);
    }

    /** "Jogar Novamente" on the game-over screen. */
    method BackToMenu()
      requires Valid() && state == GameOver
      modifies this
      ensures Valid() && Snapshot() == Apply(old(Snapshot()), PlayAgain)
    {
      state := MenuState;
    }
  }
}
