/** The upload screen's navigation: the guard on Next and the Back and Next transitions
    (`Frontend/src/components/ContentUpload.jsx`). */
module ContentUpload {
  import opened Common
  import opened Text
  import opened AppState
  import ContentTypeSelection

  /** `canProceedFromUpload`, read for truthiness. The web-search branch reads
      `state.webSearchQuery`, a field the record handed in may not have: `query` is that
      field, and `None` for it means reading `.trim()` of `undefined` throws, which this
      function reports as `None`. */
  function CanProceed(s: State, query: Option<string>): (r: Option<bool>)
    ensures r.None? <==> s.contentType == WebSearch && query.None?
    ensures s.contentType == Pdf ==> r == Some(s.file.Some?)
    ensures s.contentType == YouTube ==> r == Some(!IsBlank(s.youtubeUrl))
    ensures s.contentType == WebSearch && query.Some? ==> r == Some(!IsBlank(query.value))
    ensures s.contentType == Unset ==> r == Some(false)
  {
    TrimEmptyIffBlank(s.youtubeUrl);
    match s.contentType
    case Pdf => Some(s.file.Some?)
    case YouTube => Some(Trim(s.youtubeUrl) != [])
    case WebSearch =>
      (match query
       case None => None
       case Some(q) => TrimEmptyIffBlank(q); Some(Trim(q) != []))
    case Unset => Some(false)
  }

  /** The Next button is enabled only when the guard evaluates to a truthy value. */
  predicate NextEnabled(s: State, query: Option<string>)
  {
    CanProceed(s, query) == Some(true)
  }

  /** Next: moves to the configure screen when enabled, otherwise nothing happens. */
  function Next(s: State, query: Option<string>): (r: State)
    ensures NextEnabled(s, query) ==> r == s.(step := Configure)
    ensures !NextEnabled(s, query) ==> r == s
  {
    if NextEnabled(s, query) then s.(step := Configure) else s
  }

  /** Back: returns to the source screen. The chosen source and the input are kept. */
  function Back(s: State): (r: State)
    ensures r.step == Select
    ensures r.(step := s.step) == s
  {
    s.(step := Select)
  }

  /** A YouTube URL lets the wizard advance iff it holds a character other than whitespace:
      a URL of spaces alone is refused. */
  lemma YouTubeGuardNeedsNonBlankUrl(s: State, query: Option<string>)
    requires s.contentType == YouTube
    ensures NextEnabled(s, query) <==> exists i :: 0 <= i < |s.youtubeUrl| && s.youtubeUrl[i] !in Whitespace
  {
  }

  /** The guard never lets an unset source through, and a PDF source only with a file. */
  lemma GuardNeedsInput(s: State, query: Option<string>)
    requires NextEnabled(s, query)
    ensures s.contentType != Unset
    ensures s.contentType == Pdf ==> s.file.Some?
    ensures s.contentType == YouTube ==> Trim(s.youtubeUrl) != []
  {
  }

  /** Choosing a source and pressing Back returns to the source screen with that source
      still recorded: Back does not undo the choice. */
  lemma SelectThenBackKeepsChoice(s: State, ct: ContentType)
    requires ct in ContentTypeSelection.Options
    ensures Back(ContentTypeSelection.HandleOptionSelect(s, ct)) == s.(contentType := ct, step := Select)
    ensures s.step == Select ==> Back(ContentTypeSelection.HandleOptionSelect(s, ct)) == s.(contentType := ct)
  {
  }
}
