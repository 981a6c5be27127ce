/** The question card of the quiz session: answer recording, Next/Previous movement and the
    guards on the two buttons (`Frontend/src/components/results/QuizQuestion.jsx`; the
    mock controller in `QuizSummarizerApp.jsx` repeats the same handlers). */
module QuizQuestion {
  import opened Common
  import opened QuizModel
  import opened AppState

  /** `handleAnswerSelect`: upserts the chosen option index under the question id. */
  function SelectAnswer(s: State, questionId: int, index: int): (r: State)
    ensures r.(answers := s.answers) == s
    ensures questionId in r.answers && r.answers[questionId] == index
    ensures r.answers.Keys == s.answers.Keys + {questionId}
    ensures forall k :: k in s.answers && k != questionId ==> r.answers[k] == s.answers[k]
  {
    s.(answers := s.answers[questionId := index])
  }

  /** The question on screen, `quiz[currentQuestion]`, or `undefined` out of range. */
  function Current(s: State): (q: Option<Question>)
    ensures q.Some? <==> 0 <= s.currentQuestion < |s.quiz|
    ensures q.Some? ==> q.value in s.quiz
  {
    if 0 <= s.currentQuestion < |s.quiz| then Some(s.quiz[s.currentQuestion]) else None
  }

  /** True when the pointer is on the last question. */
  predicate OnLast(s: State)
  {
    s.currentQuestion == |s.quiz| - 1
  }

  /** `nextQuestion`: moves forward, or on the last question marks the quiz finished. */
  function Next(s: State): (r: State)
    ensures r.(currentQuestion := s.currentQuestion, showResults := s.showResults) == s
    ensures s.currentQuestion < |s.quiz| - 1 ==> r.currentQuestion == s.currentQuestion + 1 && r.showResults == s.showResults
    ensures s.currentQuestion >= |s.quiz| - 1 ==> r.currentQuestion == s.currentQuestion && r.showResults
  {
    if s.currentQuestion < |s.quiz| - 1 then s.(currentQuestion := s.currentQuestion + 1)
    else s.(showResults := true)
  }

  /** `prevQuestion`: moves back unless already on the first question. */
  function Prev(s: State): (r: State)
    ensures r.(currentQuestion := s.currentQuestion) == s
    ensures s.currentQuestion > 0 ==> r.currentQuestion == s.currentQuestion - 1
    ensures s.currentQuestion <= 0 ==> r == s
  {
    if s.currentQuestion > 0 then s.(currentQuestion := s.currentQuestion - 1) else s
  }

  /** The Previous button's `disabled` attribute. */
  predicate PrevDisabled(s: State)
  {
    s.currentQuestion == 0
  }

  /** The Next button's `disabled` attribute as written: `!answers[currentQ?.id]`. An
      option index is a number, and the number 0 is falsy, so picking the first option
      leaves the button disabled. */
  predicate NextDisabled(s: State)
  {
    match Current(s)
    case None => true
    case Some(q) => !(q.id in s.answers && s.answers[q.id] != 0)
  }

  /** The guard the button evidently means: disabled until the current question has an
      answer recorded, whichever option it is. */
  predicate NextDisabledIntended(s: State)
  {
    match Current(s)
    case None => true
    case Some(q) => q.id !in s.answers
  }

  /** The Next button reads 'Finish' on the last question. */
  predicate ShowsFinish(s: State)
  {
    OnLast(s)
  }

  /** The 'Finish' caption is shown exactly where pressing Next ends the quiz; elsewhere
      Next moves on to the following question. */
  lemma FinishLabelMeansFinish(s: State)
    requires InRange(s) && !s.showResults
    ensures ShowsFinish(s) <==> Next(s).showResults
    ensures !ShowsFinish(s) ==> Next(s).currentQuestion == s.currentQuestion + 1
  {
  }

  /** The pointer invariant of a session with at least one question. */
  predicate InRange(s: State)
  {
    |s.quiz| > 0 && 0 <= s.currentQuestion < |s.quiz|
  }

  /** Next and Previous keep the pointer on a question. */
  lemma NavigationKeepsRange(s: State)
    requires InRange(s)
    ensures InRange(Next(s)) && InRange(Prev(s))
    ensures Prev(s).showResults == s.showResults
  {
  }

  /** Previous is disabled exactly when pressing it would do nothing. */
  lemma PrevDisabledIffNoop(s: State)
    requires s.currentQuestion >= 0
    ensures PrevDisabled(s) <==> Prev(s) == s
  {
  }

  /** Pressing Next on the question card: nothing happens while the button is disabled. */
  function PressNext(s: State, intended: bool): (r: State)
    ensures (if intended then NextDisabledIntended(s) else NextDisabled(s)) ==> r == s
    ensures !(if intended then NextDisabledIntended(s) else NextDisabled(s)) ==> r == Next(s)
  {
    if (if intended then NextDisabledIntended(s) else NextDisabled(s)) then s else Next(s)
  }

  /** The user answers the question on screen with each choice in turn, pressing Next after
      each; `intended` selects the guard the Next button uses. */
  function Play(s: State, choices: seq<int>, intended: bool): State
    decreases |choices|
  {
    if choices == [] then s
    else
      match Current(s)
      case None => s
      case Some(q) => Play(PressNext(SelectAnswer(s, q.id, choices[0]), intended), choices[1..], intended)
  }

  /** Answering every remaining question and pressing Next after each finishes the quiz on
      the last question, provided each press is accepted: always with the intended guard,
      and with the guard as written only when no answer is the first option. */
  lemma {:induction false} PlayFinishes(s: State, choices: seq<int>, intended: bool)
    requires InRange(s) && !s.showResults
    requires |choices| == |s.quiz| - s.currentQuestion
    requires !intended ==> forall i :: 0 <= i < |choices| ==> choices[i] != 0
    ensures Play(s, choices, intended).showResults
    ensures Play(s, choices, intended).currentQuestion == |s.quiz| - 1
    ensures Play(s, choices, intended).quiz == s.quiz
    decreases |choices|
  {
    var q := s.quiz[s.currentQuestion];
    var a := SelectAnswer(s, q.id, choices[0]);
    assert Current(a) == Some(q);
    assert !NextDisabledIntended(a) && (!intended ==> !NextDisabled(a));
    var b := PressNext(a, intended);
    assert b == Next(a);
    if s.currentQuestion == |s.quiz| - 1 {
      assert choices[1..] == [];
      assert Play(s, choices, intended) == b;
    } else {
      assert InRange(b) && !b.showResults;
      PlayFinishes(b, choices[1..], intended);
    }
  }

  /** With the guard as written, answering a question with its first option blocks the
      session: pressing Next leaves the pointer and the completion flag where they were. */
  lemma FirstOptionBlocksNext(s: State)
    requires InRange(s) && !s.showResults
    ensures var r := PressNext(SelectAnswer(s, s.quiz[s.currentQuestion].id, 0), false);
      r.currentQuestion == s.currentQuestion && !r.showResults
    ensures !PressNext(SelectAnswer(s, s.quiz[s.currentQuestion].id, 0), true).showResults ==>
      PressNext(SelectAnswer(s, s.quiz[s.currentQuestion].id, 0), true).currentQuestion == s.currentQuestion + 1
  {
  }

  /** Recording an answer for the question on screen keeps the answered ids among the
      quiz's question ids. */
  lemma AnswerKeysStayInQuiz(s: State, index: int)
    requires s.answers.Keys <= Ids(s.quiz)
    requires Current(s).Some?
    ensures SelectAnswer(s, Current(s).value.id, index).answers.Keys <= Ids(s.quiz)
  {
  }
}
