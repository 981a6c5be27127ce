/** The configure screen's frame: the quiz panel's visibility and the Back and Generate
    buttons (`Frontend/src/components/ConfigureAction.jsx`). Generate's effect is
    `App.ProcessContent`. */
module ConfigureAction {
  import opened AppState
  import ActionSelection

  /** The Generate button's `disabled` attribute: no action chosen, or a run in progress. */
  predicate GenerateDisabled(s: State)
  {
    s.actionType == NoAction || s.processing
  }

  /** The quiz settings panel is rendered iff the chosen action is Quiz. */
  predicate ShowsQuizConfig(s: State)
  {
    s.actionType == Quiz
  }

  /** The Generate button's caption. */
  function GenerateLabel(s: State): (caption: string)
    ensures s.processing ==> caption == "Processing..."
    ensures !s.processing ==> (caption == "Generate Quiz" <==> s.actionType == Quiz)
    ensures !s.processing && s.actionType != Quiz ==> caption == "Generate Summary"
  {
    if s.processing then "Processing..."
    else if s.actionType == Quiz then "Generate Quiz" else "Generate Summary"
  }

  /** Back: returns to the upload screen, keeping the action and the quiz settings. */
  function Back(s: State): (r: State)
    ensures r.step == Upload && r.(step := s.step) == s
  {
    s.(step := Upload)
  }

  /** Generate is enabled exactly when an action has been chosen and nothing is running. */
  lemma GenerateEnabledIff(s: State)
    ensures !GenerateDisabled(s) <==> s.actionType in {Summarize, Quiz} && !s.processing
  {
  }

  /** The quiz settings appear exactly after the Quiz card is clicked, and Back keeps
      them as they were. */
  lemma QuizPanelFollowsChoice(s: State, a: Action)
    requires a in ActionSelection.Offered(s.contentType)
    ensures ShowsQuizConfig(ActionSelection.SetAction(s, a)) <==> a == Quiz
    ensures ShowsQuizConfig(Back(s)) == ShowsQuizConfig(s)
  {
  }
}
