/** The action cards on the configure screen (`Frontend/src/components/configure/ActionSelection.jsx`). */
module ActionSelection {
  import opened AppState

  /** The cards rendered for a content source: Summary is skipped for web search. */
  function Offered(ct: ContentType): (opts: seq<Action>)
  {
    if ct == WebSearch then [Quiz] else [Summarize, Quiz]
  }

  /** A click on a rendered card stores that card's id as the action; nothing else changes. */
  function SetAction(s: State, a: Action): (r: State)
    requires a in Offered(s.contentType)
    ensures r.actionType == a && r.actionType != NoAction
    ensures r.(actionType := s.actionType) == s
  {
    s.(actionType := a)
  }

  /** A card is highlighted iff the stored action is its id. */
  predicate Highlighted(s: State, a: Action)
  {
    s.actionType == a
  }

  /** Quiz is offered for every source, Summary for every source but web search, and the
      empty action never. */
  lemma OfferedPerSource(ct: ContentType)
    ensures Quiz in Offered(ct)
    ensures Summarize in Offered(ct) <==> ct != WebSearch
    ensures NoAction !in Offered(ct)
  {
  }

  /** After a click exactly one rendered card is highlighted, the clicked one. */
  lemma ClickHighlightsOnlyThatCard(s: State, a: Action, b: Action)
    requires a in Offered(s.contentType) && b in Offered(s.contentType)
    ensures Highlighted(SetAction(s, a), b) <==> a == b
  {
  }
}
