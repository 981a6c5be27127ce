/** The results screen: a spinner while processing, otherwise the summary panel, the quiz
    panel and the "no results" note, each shown on its own condition
    (`Frontend/src/components/Results.jsx`, with the two-way switch of `QuizResults.jsx`). */
module Results {
  import opened AppState

  /** What the results screen renders. */
  datatype View =
    | Spinner
    | Panels(summaryPanel: bool, quizPanel: bool, fallback: bool)

  /** The card the quiz panel holds: the question card or the completion card. */
  datatype QuizCard = QuestionCard | CompleteCard

  /** The render of the results screen from `processing`, `summary` and `quiz`. */
  function Render(s: State): (v: View)
  {
    if s.processing then Spinner
    else Panels(s.summary != [], |s.quiz| > 0, !s.processing && s.summary == [] && |s.quiz| == 0)
  }

  /** `QuizResults`: the completion card once the quiz is finished, the question card before. */
  function QuizPanel(s: State): (c: QuizCard)
  {
    if s.showResults then CompleteCard else QuestionCard
  }

  /** The screen shows the spinner exactly while processing, and otherwise each panel on its
      condition: the summary panel iff there is summary text, the quiz panel iff there are
      questions, and the note iff there is neither. */
  lemma RenderShowsEachPanelOnItsCondition(s: State)
    ensures Render(s).Spinner? <==> s.processing
    ensures !s.processing ==> (Render(s).summaryPanel <==> s.summary != [])
    ensures !s.processing ==> (Render(s).quizPanel <==> |s.quiz| > 0)
    ensures !s.processing ==> (Render(s).fallback <==> s.summary == [] && s.quiz == [])
  {
  }

  /** Outside processing the screen is never blank, and the fallback note never shares the
      screen with a result panel. */
  lemma FallbackExcludesPanels(s: State)
    requires !s.processing
    ensures Render(s).summaryPanel || Render(s).quizPanel || Render(s).fallback
    ensures Render(s).fallback ==> !Render(s).summaryPanel && !Render(s).quizPanel
  {
  }

  /** The completion card is shown exactly when the quiz has been finished. */
  lemma QuizPanelFollowsShowResults(s: State)
    ensures QuizPanel(s) == CompleteCard <==> s.showResults
  {
  }
}
