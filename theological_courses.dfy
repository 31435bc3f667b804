/**
 * The courses screen of `components/TheologicalCourses.tsx`: a topic's syllabus, a module's
 * lesson, and the module's exam, graded as the rounded percentage of correct answers with a pass
 * mark of 70 and recorded in the progress map under `<topic>-<module id>`. The generated syllabus,
 * lesson and questions arrive as parameters.
 */
module TheologicalCourses {
  import opened Wrappers
  import opened Text
  import opened Records
  import opened Storage

  datatype CourseModule = CourseModule(id: int, title: string, description: string)
  datatype CourseContent = CourseContent(title: string, content: string)

  datatype CourseView = Selection | Syllabus | Learning | Exam | Result

  const PassMark: int := 70
  /** The value of an answer not given yet. */
  const Unanswered: int := -1

  /** Whether question `i` is answered correctly; an answer missing from the array is `undefined` and never is. */
  predicate RightAt(questions: seq<QuizQuestion>, answers: seq<int>, i: nat)
    requires i < |questions|
  {
    i < |answers| && questions[i].correctOptionIndex == answers[i]
  }

  /** The number of correctly answered questions, counted from the front. */
  function CorrectCount(questions: seq<QuizQuestion>, answers: seq<int>): (c: nat)
    ensures c <= |questions|
    ensures c == |questions| <==> forall i :: 0 <= i < |questions| ==> RightAt(questions, answers, i)
    ensures c == 0 <==> forall i :: 0 <= i < |questions| ==> !RightAt(questions, answers, i)
  {
    if questions == [] then 0
    else
      var n := |questions| - 1;
      var front := CorrectCount(questions[..n], answers);
      assert forall i :: 0 <= i < n ==> (RightAt(questions[..n], answers, i) <==> RightAt(questions, answers, i));
      front + (if RightAt(questions, answers, n) then 1 else 0)
  }

  /** The questions answered correctly, as a set of indices. */
  function RightSet(questions: seq<QuizQuestion>, answers: seq<int>): set<nat> {
    set i: nat | i < |questions| && RightAt(questions, answers, i)
  }

  /** The count is the number of correctly answered questions. */
  lemma {:induction false} CorrectCountIsSize(questions: seq<QuizQuestion>, answers: seq<int>)
    ensures CorrectCount(questions, answers) == |RightSet(questions, answers)|
  {
    if questions != [] {
      CorrectCountIsSize(questions[..|questions| - 1], answers);
      RightSetSnoc(questions, answers);
    }
  }

  /** The set for all questions is the set for all but the last, plus the last when it is right. */
  lemma RightSetSnoc(questions: seq<QuizQuestion>, answers: seq<int>)
    requires questions != []
    ensures |questions| - 1 !in RightSet(questions[..|questions| - 1], answers)
    ensures RightAt(questions, answers, |questions| - 1) ==>
      RightSet(questions, answers) == RightSet(questions[..|questions| - 1], answers) + {|questions| - 1}
    ensures !RightAt(questions, answers, |questions| - 1) ==>
      RightSet(questions, answers) == RightSet(questions[..|questions| - 1], answers)
  {
    var n := |questions| - 1;
    assert forall i :: 0 <= i < n ==> (RightAt(questions[..n], answers, i) <==> RightAt(questions, answers, i));
  }

  /** The counting loop of `finishQuiz`. */
  method CountCorrect(questions: seq<QuizQuestion>, answers: seq<int>) returns (correct: nat)
    ensures correct == CorrectCount(questions, answers)
  {
    correct := 0;
    var idx := 0;
    while idx < |questions|
      invariant idx <= |questions|
      invariant correct == CorrectCount(questions[..idx], answers)
    {
      assert questions[..idx + 1][..idx] == questions[..idx];
      if idx < |answers| && questions[idx].correctOptionIndex == answers[idx] {
        correct := correct + 1;
      }
      idx := idx + 1;
    }
    assert questions[..idx] == questions;
  }

  /**
   * `Math.round(correct / n * 100)` over exact rationals: half up, `(200c + n) div 2n`; with no
   * questions it is `0 / 0`, NaN.
   */
  function Percentage(correct: nat, n: nat): (p: Number)
    requires correct <= n
    ensures p.NaN? <==> n == 0
    ensures p.Num? ==> 0 <= p.value <= 100
    ensures p.Num? ==> 2 * n * p.value - n <= 200 * correct < 2 * n * p.value + n
  {
    if n == 0 then NaN
    else
      var a, b := 200 * correct + n, 2 * n;
      assert b * (a / b) + a % b == a;
      DivBelow(a, b, 101);
      Num(a / b)
  }

  /** The award shows when the score is at least 70. */
  predicate ShowsAward(score: Number) {
    score.Num? && score.value >= PassMark
  }

  /** "Tentar Novamente" shows when the score is below 70. */
  predicate OffersRetry(score: Number) {
    score.Num? && score.value < PassMark
  }

  /**
   * With questions, the exam is passed exactly when 200·correct ≥ 139·n (the rounded score reaches
   * 70), and exactly one of the award and the retry shows.
   */
  lemma PassIff(correct: nat, n: nat)
    requires correct <= n && n > 0
    ensures ShowsAward(Percentage(correct, n)) <==> 200 * correct >= 139 * n
    ensures ShowsAward(Percentage(correct, n)) != OffersRetry(Percentage(correct, n))
  {
    var p := (200 * correct + n) / (2 * n);
    if 200 * correct >= 139 * n {
      assert 200 * correct + n >= 140 * n;
      DivAtLeast(200 * correct + n, 2 * n, 70);
    } else {
      assert 200 * correct + n < 140 * n;
      DivBelow(200 * correct + n, 2 * n, 70);
    }
  }

  lemma DivAtLeast(a: nat, b: nat, k: nat)
    requires b > 0 && a >= b * k
    ensures a / b >= k
  {
    var q := a / b;
    assert b * q + a % b == a;
    assert b * (q + 1 - k) == b * q + b - b * k;
    PositiveFactor(b, q + 1 - k);
  }

  lemma DivBelow(a: nat, b: nat, k: nat)
    requires b > 0 && a < b * k
    ensures a / b < k
  {
    var q := a / b;
    assert b * q + a % b == a;
    assert b * (k - q) == b * k - b * q;
    PositiveFactor(b, k - q);
  }

  lemma PositiveFactor(b: int, d: int)
    requires b > 0 && b * d > 0
    ensures d > 0
  {
  }

  /** All right is 100, none right is 0, and one more right answer never lowers the score. */
  lemma PercentageEnds(correct: nat, n: nat)
    requires correct < n
    ensures Percentage(n, n) == Num(100) && Percentage(0, n) == Num(0)
    ensures Percentage(correct, n).value <= Percentage(correct + 1, n).value
  {
    DivExact(2 * n, 100, n);
    DivBelow(n, 2 * n, 1);
    DivMonotone(200 * correct + n, 200 * (correct + 1) + n, 2 * n);
  }

  lemma DivExact(b: nat, k: nat, r: nat)
    requires b > 0 && r < b
    ensures (b * k + r) / b == k
  {
    DivAtLeast(b * k + r, b, k);
    DivBelow(b * k + r, b, k + 1);
  }

  lemma DivMonotone(a: nat, a': nat, b: nat)
    requires b > 0 && a <= a'
    ensures a / b <= a' / b
  {
    DivAtLeast(a', b, a / b);
  }

  /** The answer sheet of a new attempt: one unanswered slot per question. */
  function FreshAnswers(n: nat): (answers: seq<int>)
    ensures |answers| == n && forall i :: 0 <= i < n ==> answers[i] == Unanswered
  {
    seq(n, _ => Unanswered)
  }

  /** "Finalizar Prova" is disabled while any answer is still -1. */
  predicate CanFinish(answers: seq<int>) {
    Unanswered !in answers
  }

  /** The questions still to answer. */
  function Open(answers: seq<int>): set<nat> {
    set i: nat | i < |answers| && answers[i] == Unanswered
  }

  lemma CanFinishIff(answers: seq<int>)
    ensures CanFinish(answers) <==> Open(answers) == {}
  {
    if !CanFinish(answers) {
      var i :| 0 <= i < |answers| && answers[i] == Unanswered;
      assert i in Open(answers);
    }
  }

  /** A new attempt with questions cannot be finished before every question is answered. */
  lemma FreshAnswersBlockFinish(n: nat)
    requires n > 0
    ensures !CanFinish(FreshAnswers(n)) && forall i: nat :: i < n <==> i in Open(FreshAnswers(n))
  {
    assert FreshAnswers(n)[0] == Unanswered;
  }

  /** `handleAnswer`: the copied sheet with slot `qIndex` set. */
  function SetAnswer(answers: seq<int>, qIndex: nat, option: int): (r: seq<int>)
    requires qIndex < |answers|
    ensures |r| == |answers| && r[qIndex] == option
    ensures forall i :: 0 <= i < |answers| && i != qIndex ==> r[i] == answers[i]
  {
    answers[qIndex := option]
  }

  /** Choosing an option (its index is never negative) closes exactly that question. */
  lemma SetAnswerCloses(answers: seq<int>, qIndex: nat, option: nat)
    requires qIndex < |answers|
    ensures Open(SetAnswer(answers, qIndex, option)) == Open(answers) - {qIndex}
  {
  }

  /** The progress key: topic, a dash, and the module id, or `undefined` with no module. */
  function ProgressKeyFor(topic: string, current: Option<CourseModule>): string {
    topic + "-" + (if current.Some? then IntToString(current.value.id) else "undefined")
  }

  /** Distinct modules of one topic have distinct keys. */
  lemma ProgressKeysDistinct(topic: string, m1: CourseModule, m2: CourseModule)
    requires m1.id != m2.id
    ensures ProgressKeyFor(topic, Some(m1)) != ProgressKeyFor(topic, Some(m2))
  {
    var k1 := ProgressKeyFor(topic, Some(m1));
    var k2 := ProgressKeyFor(topic, Some(m2));
    var pre := topic + "-";
    assert k1 == pre + IntToString(m1.id) && k2 == pre + IntToString(m2.id);
    if k1 == k2 {
      assert k1[|pre|..] == IntToString(m1.id);
      assert k2[|pre|..] == IntToString(m2.id);
      ParseIntToString(m1.id);
      ParseIntToString(m2.id);
    }
  }

  /** The recorded score: a number, or JSON `null` for NaN. */
  function Recorded(score: Number): Option<int> {
    if score.Num? then Some(score.value) else None
  }

  /** The progress map after an exam: only the exam's key changes. */
  function RecordProgress(history: map<string, Option<int>>, key: string, score: Number): (h: map<string, Option<int>>)
    ensures key in h && h[key] == Recorded(score)
    ensures forall k :: k != key ==> (k in h <==> k in history) && (k in history ==> h[k] == history[k])
  {
    history[key := Recorded(score)]
  }

  /** The stored progress map, `{}` when there is none. */
  function History(stored: Option<Value>): map<string, Option<int>> {
    if stored.Some? && stored.value.Progress? then stored.value.progress else map[]
  }

  /**
   * An exam whose generation failed has no questions: it can be finished at once, its score is
   * NaN, and the result screen offers neither the award nor another attempt.
   */
  lemma EmptyExamStrands()
    ensures CanFinish(FreshAnswers(0))
    ensures Percentage(CorrectCount([], FreshAnswers(0)), 0) == NaN
    ensures !ShowsAward(NaN) && !OffersRetry(NaN)
  {
  }

  /** The finish gate with an empty exam excluded. */
  predicate CanFinishExam(questions: seq<QuizQuestion>, answers: seq<int>) {
    |questions| > 0 && CanFinish(answers)
  }

  /** Behind that gate every finished exam has a score in 0..100 and shows exactly one of award and retry. */
  lemma FinishedExamDecides(questions: seq<QuizQuestion>, answers: seq<int>)
    requires CanFinishExam(questions, answers)
    ensures var p := Percentage(CorrectCount(questions, answers), |questions|);
      p.Num? && 0 <= p.value <= 100 && ShowsAward(p) != OffersRetry(p)
  {
    PassIff(CorrectCount(questions, answers), |questions|);
  }

  /** The courses screen and the store it writes its progress to. */
  class CoursesScreen {
    const store: Store
    var view: CourseView
    var selectedTopic: string
    var syllabus: seq<CourseModule>
    var currentModule: Option<CourseModule>
    var moduleContent: Option<CourseContent>
    var quizQuestions: seq<QuizQuestion>
    var quizAnswers: seq<int>
    var score: Number

    ghost predicate Valid()
      reads this, store
    {
      store.Valid()
    }

    constructor(s: Store)
      requires s.Valid()
      ensures Valid() && store == s && view == Selection && selectedTopic == ""
      ensures syllabus == [] && currentModule.None? && moduleContent.None?
      ensures quizQuestions == [] && quizAnswers == [] && score == Num(0)
    {
      store := s;
      view := Selection;
      selectedTopic := "";
      syllabus := [];
      currentModule := None;
      moduleContent := None;
      quizQuestions := [];
      quizAnswers := [];
      score := Num(0);
    }

    /** `loadSyllabus`, with the generated syllabus. */
    method LoadSyllabus(topic: string, data: seq<CourseModule>)
      modifies this
      ensures selectedTopic == topic && syllabus == data && view == Syllabus
      ensures currentModule == old(currentModule) && moduleContent == old(moduleContent)
      ensures quizQuestions == old(quizQuestions) && quizAnswers == old(quizAnswers) && score == old(score)
    {
      selectedTopic := topic;
      syllabus := data;
      view := Syllabus;
    }

    /** `startModule`, with the generated lesson. */
    method StartModule(chosen: CourseModule, content: CourseContent)
      modifies this
      ensures currentModule == Some(chosen) && moduleContent == Some(content) && view == Learning
      ensures selectedTopic == old(selectedTopic) && syllabus == old(syllabus)
      ensures quizQuestions == old(quizQuestions) && quizAnswers == old(quizAnswers) && score == old(score)
    {
      currentModule := Some(chosen);
      moduleContent := Some(content);
      view := Learning;
    }

    /** `startQuiz`: nothing without a lesson; otherwise a fresh answer sheet for the generated questions. */
    method StartQuiz(questions: seq<QuizQuestion>)
      modifies this
      ensures old(moduleContent).None? ==>
        view == old(view) && quizQuestions == old(quizQuestions) && quizAnswers == old(quizAnswers)
      ensures old(moduleContent).Some? ==>
        view == Exam && quizQuestions == questions && quizAnswers == FreshAnswers(|questions|)
      ensures selectedTopic == old(selectedTopic) && currentModule == old(currentModule)
      ensures moduleContent == old(moduleContent) && syllabus == old(syllabus) && score == old(score)
    {
      if moduleContent.None? {
        return;
      }
      quizQuestions := questions;
      quizAnswers := FreshAnswers(|questions|);
      view := Exam;
    }

    /** `handleAnswer`, from an option button of question `qIndex`. */
    method HandleAnswer(qIndex: nat, option: nat)
      requires qIndex < |quizAnswers|
      modifies this
      ensures quizAnswers == SetAnswer(old(quizAnswers), qIndex, option)
      ensures Open(quizAnswers) == Open(old(quizAnswers)) - {qIndex}
      ensures view == old(view) && quizQuestions == old(quizQuestions) && score == old(score)
      ensures selectedTopic == old(selectedTopic) && currentModule == old(currentModule)
    {
      SetAnswerCloses(quizAnswers, qIndex, option);
      quizAnswers := SetAnswer(quizAnswers, qIndex, option);
    }

    /** `finishQuiz`, enabled only when no answer is -1: grade, show the result, record the score. */
    method FinishQuiz()
      requires Valid() && CanFinish(quizAnswers)
      modifies this, store
      ensures Valid()
      ensures score == Percentage(CorrectCount(quizQuestions, quizAnswers), |quizQuestions|)
      ensures view == Result
      ensures store.items == old(store.items)[ProgressKey := Progress(
        RecordProgress(History(old(store.Get(ProgressKey))), ProgressKeyFor(selectedTopic, currentModule), score))]
      ensures quizQuestions == old(quizQuestions) && quizAnswers == old(quizAnswers)
      ensures selectedTopic == old(selectedTopic) && currentModule == old(currentModule)
    {
      var correct := CountCorrect(quizQuestions, quizAnswers);
      score := Percentage(correct, |quizQuestions|);
      view := Result;
      var history := History(store.Get(ProgressKey));
      var key := ProgressKeyFor(selectedTopic, currentModule);
      store.SetItem(ProgressKey, Progress(RecordProgress(history, key, score)));
    }

    /** "Voltar ao Curso" on the result screen. */
    method BackToCourse()
      modifies this
      ensures view == Syllabus && score == old(score) && quizAnswers == old(quizAnswers)
      ensures selectedTopic == old(selectedTopic) && syllabus == old(syllabus)
    {
      view := Syllabus;
    }
  }
}
