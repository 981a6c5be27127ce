/** The completion card of the quiz session: score, percentage, difficulty tallies, the
    answer review and Retake (`Frontend/src/components/results/QuizComplete.jsx`). */
module QuizComplete {
  import opened Common
  import opened QuizModel
  import opened AppState
  import QuizQuestion

  /** `calculateScore`: walks the questions once and counts those answered correctly. */
  method CalculateScore(quiz: seq<Question>, answers: Answers) returns (score: nat)
    ensures score == |CorrectPositions(quiz, answers)|
    ensures score <= |quiz|
  {
    score := 0;
    var i := 0;
    while i < |quiz|
      invariant 0 <= i <= |quiz|
      invariant score == |CorrectBelow(quiz, answers, i)|
      invariant score <= i
    {
      CorrectBelowStep(quiz, answers, i);
      if IsCorrect(quiz[i], answers) {
        score := score + 1;
      }
      i := i + 1;
    }
  }

  lemma CorrectBelowStep(quiz: seq<Question>, answers: Answers, i: nat)
    requires i < |quiz|
    ensures i !in CorrectBelow(quiz, answers, i)
    ensures CorrectBelow(quiz, answers, i + 1)
         == CorrectBelow(quiz, answers, i) + (if IsCorrect(quiz[i], answers) then {i} else {})
  {
  }

  /** `Math.round((score / quiz.length) * 100)`, computed exactly: the whole percentage
      nearest to the score's share, halves rounded up. */
  function Percentage(score: nat, total: nat): (p: nat)
    requires 0 < total && score <= total
    ensures p <= 100
    ensures (2 * total) * p <= 200 * score + total < (2 * total) * (p + 1)
  {
    var p := (200 * score + total) / (2 * total);
    FloorDivBounds(200 * score + total, 2 * total);
    assert (2 * total) * p < (2 * total) * 101;
    MulCancelLess(2 * total, p, 101);
    p
  }

  lemma FloorDivBounds(num: nat, den: nat)
    requires den > 0
    ensures den * (num / den) <= num < den * (num / den + 1)
  {
    var q := num / den;
    assert num == den * q + num % den;
    assert den * (q + 1) == den * q + den;
  }

  lemma MulCancelLess(d: nat, a: nat, b: nat)
    requires d > 0 && d * a < d * b
    ensures a < b
  {
    if a >= b {
      MulMonotone(d, b, a);
    }
  }

  lemma MulMonotone(d: nat, a: nat, b: nat)
    requires a <= b
    ensures d * a <= d * b
  {
    assert d * b == d * a + d * (b - a);
  }

  /** Full marks read 100% and no correct answer reads 0%, and a higher score never reads
      as a lower percentage. */
  lemma PercentageMonotone(s1: nat, s2: nat, total: nat)
    requires 0 < total && s1 <= s2 <= total
    ensures Percentage(s1, total) <= Percentage(s2, total)
    ensures Percentage(total, total) == 100 && Percentage(0, total) == 0
  {
    var p1 := Percentage(s1, total);
    var p2 := Percentage(s2, total);
    var d := 2 * total;
    if p1 > p2 {
      MulMonotone(d, p2 + 1, p1);
    }
    var pt := Percentage(total, total);
    assert d * 100 == 200 * total + total - total;
    if pt < 100 {
      MulMonotone(d, pt + 1, 100);
    }
    var p0 := Percentage(0, total);
    if p0 > 0 {
      MulMonotone(d, 1, p0);
    }
  }

  /** The "Correct answer" line under a reviewed question: `answers[q.id] !== q.correct`. */
  predicate ShowsCorrectAnswer(q: Question, answers: Answers)
  {
    !(q.id in answers && answers[q.id] == q.correct)
  }

  /** The positions among the first `n` questions that the review marks wrong. */
  function WrongBelow(quiz: seq<Question>, answers: Answers, n: nat): set<nat>
    requires n <= |quiz|
  {
    set i: nat | i < n && ShowsCorrectAnswer(quiz[i], answers)
  }

  /** The review shows the correct-answer line under exactly the questions the score did
      not count, so their number is the quiz length minus the score. */
  lemma {:induction false} CorrectionLinesComplementScore(quiz: seq<Question>, answers: Answers, n: nat)
    requires n <= |quiz|
    ensures forall i :: 0 <= i < n ==> (i in WrongBelow(quiz, answers, n) <==> i !in CorrectBelow(quiz, answers, n))
    ensures |WrongBelow(quiz, answers, n)| == n - |CorrectBelow(quiz, answers, n)|
  {
    if n > 0 {
      CorrectionLinesComplementScore(quiz, answers, n - 1);
      CorrectBelowStep(quiz, answers, n - 1);
      var m := n - 1;
      assert WrongBelow(quiz, answers, n)
          == WrongBelow(quiz, answers, m) + (if ShowsCorrectAnswer(quiz[m], answers) then {m} else {});
      assert m !in WrongBelow(quiz, answers, m);
    } else {
      assert WrongBelow(quiz, answers, 0) == {};
      assert CorrectBelow(quiz, answers, 0) == {};
    }
  }

  /** The Easy, Medium and Hard tallies never add up to more than the quiz length, and add
      up to exactly it when every question carries one of the three labels. */
  lemma {:induction false} TalliesWithinLength(quiz: seq<Question>)
    ensures CountWithDifficulty(quiz, "easy") + CountWithDifficulty(quiz, "medium") + CountWithDifficulty(quiz, "hard") <= |quiz|
    ensures CountWithDifficulty(quiz, "easy") + CountWithDifficulty(quiz, "medium") + CountWithDifficulty(quiz, "hard") == |quiz|
        <== (forall i :: 0 <= i < |quiz| ==> quiz[i].difficulty in {"easy", "medium", "hard"})
  {
    if quiz != [] {
      var init := quiz[..|quiz| - 1];
      assert forall i :: 0 <= i < |init| ==> init[i] == quiz[i];
      TalliesWithinLength(init);
    }
  }

  /** `resetQuiz` (Retake): a fresh attempt at the same questions. */
  function ResetQuiz(s: State): (r: State)
    ensures r.answers == map[] && r.currentQuestion == 0 && !r.showResults
    ensures r.(answers := s.answers, currentQuestion := s.currentQuestion, showResults := s.showResults) == s
  {
    s.(answers := map[], currentQuestion := 0, showResults := false)
  }

  /** After Retake nothing is scored yet, and the new attempt can be played through to the
      end again. */
  lemma RetakeStartsOver(s: State, choices: seq<int>)
    requires |s.quiz| > 0 && |choices| == |s.quiz|
    ensures CorrectPositions(ResetQuiz(s).quiz, ResetQuiz(s).answers) == {}
    ensures QuizQuestion.Play(ResetQuiz(s), choices, true).showResults
  {
    QuizQuestion.PlayFinishes(ResetQuiz(s), choices, true);
  }

  /** Applies a sequence of answer clicks, each a (question id, option index) pair. */
  function Replay(s: State, clicks: seq<(int, int)>): State
  {
    if clicks == [] then s
    else
      var last := clicks[|clicks| - 1];
      QuizQuestion.SelectAnswer(Replay(s, clicks[..|clicks| - 1]), last.0, last.1)
  }

  /** The option index of the last click on question `id`, if there was one. */
  function LastChoice(clicks: seq<(int, int)>, id: int): Option<int>
  {
    if clicks == [] then None
    else if clicks[|clicks| - 1].0 == id then Some(clicks[|clicks| - 1].1)
    else LastChoice(clicks[..|clicks| - 1], id)
  }

  /** After a run of clicks each question holds its last chosen option; questions never
      clicked keep what they had. */
  lemma {:induction false} ReplayKeepsLastChoice(s: State, clicks: seq<(int, int)>, id: int)
    ensures Replay(s, clicks).(answers := s.answers) == s
    ensures LastChoice(clicks, id).Some? ==> id in Replay(s, clicks).answers && Replay(s, clicks).answers[id] == LastChoice(clicks, id).value
    ensures LastChoice(clicks, id).None? ==> (id in Replay(s, clicks).answers <==> id in s.answers)
    ensures LastChoice(clicks, id).None? && id in s.answers ==> Replay(s, clicks).answers[id] == s.answers[id]
  {
    if clicks != [] {
      ReplayKeepsLastChoice(s, clicks[..|clicks| - 1], id);
    }
  }

  /** The score depends only on each question's last chosen option: two click sequences that
      end on the same choice for every question give the same correct set, whatever the
      order of the clicks and however often an answer was changed. */
  lemma ScoreDependsOnlyOnLastChoices(s: State, c1: seq<(int, int)>, c2: seq<(int, int)>)
    requires forall id :: LastChoice(c1, id) == LastChoice(c2, id)
    ensures Replay(s, c1) == Replay(s, c2)
    ensures CorrectPositions(s.quiz, Replay(s, c1).answers) == CorrectPositions(s.quiz, Replay(s, c2).answers)
  {
    var a1 := Replay(s, c1).answers;
    var a2 := Replay(s, c2).answers;
    forall id
      ensures (id in a1 <==> id in a2) && (id in a1 ==> a1[id] == a2[id])
    {
      ReplayKeepsLastChoice(s, c1, id);
      ReplayKeepsLastChoice(s, c2, id);
    }
    ReplayKeepsLastChoice(s, c1, 0);
    ReplayKeepsLastChoice(s, c2, 0);
    assert a1 == a2;
  }
}
