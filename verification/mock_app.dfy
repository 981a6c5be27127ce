/** The self-contained demonstration controller of
    `Frontend/src/components/QuizSummarizerApp.jsx`: the same wizard record plus a
    web-search query, a generation step that never fails and draws questions from the
    sample pools, and a web-search path straight to quiz generation. The session handlers
    (answer, next, previous, score, retake) are the ones of `QuizQuestion` and
    `QuizComplete`, which this file repeats verbatim. */
module MockApp {
  import opened Common
  import opened Text
  import opened QuizModel
  import opened AppState
  import ContentUpload
  import StepIndicator
  import QuizUtils
  import App

  /** The wizard record and the extra `webSearchQuery` field this controller keeps. */
  datatype MockState = MockState(app: State, webSearchQuery: string)

  const PdfSummary: string := "This PDF document covers key concepts in the uploaded material. The main themes include comprehensive analysis of the subject matter, detailed explanations of core principles, and practical applications. The document provides structured information that serves as a valuable reference for understanding the topic in depth."
  const YouTubeSummaryHead: string := "This YouTube video ("
  const YouTubeSummaryTail: string := ") presents educational content with clear explanations and visual demonstrations. The main points covered include step-by-step processes, expert insights, and practical examples. The video format allows for engaging presentation of complex topics through multimedia elements."
  const WebSearchSummaryHead: string := "Based on web search results for \""
  const WebSearchSummaryTail: string := "\", the content covers current information and diverse perspectives on the subject. The research includes recent developments, expert opinions, and comprehensive coverage of the specified topic."

  /** The mock summary for a source: fixed text for a PDF, the URL or the query quoted
      inside fixed text for YouTube and web search, and the placeholder otherwise. */
  function MockSummary(ct: ContentType, url: string, query: string): (text: string)
    ensures text != []
    ensures ct == YouTube ==> |YouTubeSummaryHead| + |url| <= |text| && text[|YouTubeSummaryHead|..|YouTubeSummaryHead| + |url|] == url
    ensures ct == WebSearch ==> |WebSearchSummaryHead| + |query| <= |text| && text[|WebSearchSummaryHead|..|WebSearchSummaryHead| + |query|] == query
    ensures ct == Unset ==> text == App.Placeholder
  {
    match ct
    case Pdf => PdfSummary
    case YouTube => YouTubeSummaryHead + url + YouTubeSummaryTail
    case WebSearch => WebSearchSummaryHead + query + WebSearchSummaryTail
    case Unset => App.Placeholder
  }

  /** The mock `processContent(kind)`: clears the old results like `App.ProcessContent`,
      then always succeeds. `shuffled` is the order the random sort produced. */
  function MockProcessContent(m: MockState, kind: Action, shuffled: seq<Question>): (r: MockState)
    requires kind == Quiz ==> QuizUtils.IsPermutationOf(shuffled, QuizUtils.Pool(m.app.difficulty))
    ensures r.app.step == Results && !r.app.processing
    ensures r.webSearchQuery == m.webSearchQuery && App.SameInputs(r.app, m.app)
    ensures r.app.answers == map[] && r.app.currentQuestion == 0 && !r.app.showResults
    ensures kind == Summarize ==> r.app.quiz == [] && r.app.summary == MockSummary(m.app.contentType, m.app.youtubeUrl, m.webSearchQuery)
    ensures kind != Summarize ==> r.app.summary == []
    ensures kind == Quiz && m.app.numQuestions >= 0 ==> |r.app.quiz| == QuizUtils.Min(m.app.numQuestions, 5)
    ensures kind == Quiz ==> forall i :: 0 <= i < |r.app.quiz| ==> r.app.quiz[i].difficulty == m.app.difficulty.Id()
    ensures kind == NoAction ==> r.app.quiz == []
  {
    var pre := App.StartProcessing(m.app);
    var written :=
      if kind == Summarize then pre.(summary := MockSummary(m.app.contentType, m.app.youtubeUrl, m.webSearchQuery))
      else pre.(quiz := if kind == Quiz then QuizUtils.GenerateSampleQuiz(m.app.numQuestions, m.app.difficulty, shuffled) else []);
    m.(app := written.(processing := false, step := Results))
  }

  /** The mock `resetApp`: the reset of `App.ResetApp`, and the query cleared as well. */
  function MockReset(m: MockState): (r: MockState)
    ensures r.app == App.ResetApp(m.app) && r.webSearchQuery == ""
  {
    MockState(m.app.(step := Select, contentType := Unset, file := None, youtubeUrl := "", summary := "", quiz := [],
      answers := map[], showResults := false, currentQuestion := 0, actionType := NoAction, specificTopic := ""), "")
  }

  /** The mock `canProceedFromUpload`, which has the query field and so is total. */
  function CanProceedFromUpload(m: MockState): (ok: bool)
    ensures m.app.contentType == WebSearch ==> (ok <==> !IsBlank(m.webSearchQuery))
    ensures m.app.contentType == YouTube ==> (ok <==> !IsBlank(m.app.youtubeUrl))
    ensures m.app.contentType == Pdf ==> (ok <==> m.app.file.Some?)
    ensures m.app.contentType == Unset ==> !ok
  {
    TrimEmptyIffBlank(m.webSearchQuery);
    TrimEmptyIffBlank(m.app.youtubeUrl);
    match m.app.contentType
    case Pdf => m.app.file.Some?
    case YouTube => Trim(m.app.youtubeUrl) != []
    case WebSearch => Trim(m.webSearchQuery) != []
    case Unset => false
  }

  /** The mock guard is the upload guard evaluated with the query present: it always has a
      value, and it is the value `ContentUpload.CanProceed` computes. */
  lemma MockGuardIsTotalUploadGuard(m: MockState)
    ensures ContentUpload.CanProceed(m.app, Some(m.webSearchQuery)) == Some(CanProceedFromUpload(m))
  {
  }

  /** The mock step bar names the web-search upload step "Web Search"; for every other
      source its label is the one of `StepIndicator`. */
  function MockUploadStepName(ct: ContentType): (name: string)
    ensures ct == WebSearch ==> name == "Web Search"
    ensures ct != WebSearch ==> name == StepIndicator.UploadStepName(ct)
  {
    match ct
    case Pdf => "Upload PDF"
    case YouTube => "Enter URL"
    case WebSearch => "Web Search"
    case Unset => "Input"
  }

  /** The mock Generate: on the web-search configure screen it always asks for a quiz,
      whatever action is stored; elsewhere it runs the stored action when one is chosen. */
  function MockGenerate(m: MockState, shuffled: seq<Question>): (r: MockState)
    requires m.app.step == Configure
    requires QuizUtils.IsPermutationOf(shuffled, QuizUtils.Pool(m.app.difficulty))
    ensures m.app.processing ==> r == m
    ensures !m.app.processing && m.app.contentType == WebSearch ==> r == MockProcessContent(m, Quiz, shuffled)
    ensures !m.app.processing && m.app.contentType != WebSearch && m.app.actionType == NoAction ==> r == m
  {
    if m.app.processing then m
    else if m.app.contentType == WebSearch then MockProcessContent(m, Quiz, shuffled)
    else if m.app.actionType == NoAction then m
    else MockProcessContent(m, m.app.actionType, shuffled)
  }

  /** A web-search Generate yields a sample quiz even when no action was ever chosen: its
      length is the requested count capped at the pool size, and every question has the
      chosen level. */
  lemma WebSearchAlwaysQuizzes(m: MockState, shuffled: seq<Question>)
    requires m.app.step == Configure && !m.app.processing && m.app.contentType == WebSearch
    requires m.app.numQuestions >= 0
    requires QuizUtils.IsPermutationOf(shuffled, QuizUtils.Pool(m.app.difficulty))
    ensures var r := MockGenerate(m, shuffled);
      r.app.step == Results && r.app.summary == []
      && |r.app.quiz| == QuizUtils.Min(m.app.numQuestions, 5)
      && CountWithDifficulty(r.app.quiz, m.app.difficulty.Id()) == |r.app.quiz|
  {
    QuizUtils.SampleQuizTally(m.app.numQuestions, m.app.difficulty, shuffled);
  }

  /** Unlike `App.ProcessContent`, the mock run cannot fail: whatever the source and action,
      it ends on the results screen, with a non-empty summary whenever one was asked for. */
  lemma MockNeverFails(m: MockState, kind: Action, shuffled: seq<Question>)
    requires kind == Quiz ==> QuizUtils.IsPermutationOf(shuffled, QuizUtils.Pool(m.app.difficulty))
    ensures MockProcessContent(m, kind, shuffled).app.step == Results
    ensures kind == Summarize ==> MockProcessContent(m, kind, shuffled).app.summary != []
  {
  }
}
