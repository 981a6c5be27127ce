/** The wizard controller of `Frontend/src/App.jsx`: `processContent` (clear, dispatch to the
    backend, settle) and `resetApp`. The four HTTP helpers are the `Backend` parameter;
    an `await` is modelled as the helper's `Outcome`, and the run as one atomic step whose
    observable intermediate state is `StartProcessing`. */
module App {
  import opened Common
  import opened QuizModel
  import opened AppState
  import Results

  /** The summary written for a source the summarize dispatch has no helper for. */
  const Placeholder: string := "Content processed successfully with comprehensive analysis of key themes and concepts."

  /** The alert raised when a helper rejects. */
  const FailureAlert: string := "Error processing content. Please try again."

  /** `uploadAndSummarizePDF`, `fetchSummaryYoutube`, `fetchPDFQuiz` and `fetchQuizYoutube`:
      each resolves with the response field or rejects. */
  datatype Backend = Backend(
    summarizePdf: Option<File> -> Outcome<string>,
    summarizeYoutube: string -> Outcome<string>,
    quizPdf: (Option<File>, string, int, string) -> Outcome<seq<Question>>,
    quizYoutube: (string, string, int, string) -> Outcome<seq<Question>>)

  /** One call to a helper, with the arguments it receives. */
  datatype Request =
    | SummarizePdf(file: Option<File>)
    | SummarizeYoutube(url: string)
    | QuizPdf(file: Option<File>, topic: string, count: int, level: string)
    | QuizYoutube(url: string, topic: string, count: int, level: string)

  /** The helper call the dispatch makes for an action, if any: only PDF and YouTube sources
      reach the backend, and a quiz request carries the topic, count and difficulty. */
  function RequestFor(s: State, kind: Action): (req: Option<Request>)
    ensures req.Some? <==> kind != NoAction && (s.contentType == Pdf || s.contentType == YouTube)
    ensures req.Some? && kind == Summarize ==> req.value.SummarizePdf? || req.value.SummarizeYoutube?
    ensures req.Some? && kind == Quiz ==> req.value.QuizPdf? || req.value.QuizYoutube?
    ensures req.Some? && (req.value.SummarizePdf? || req.value.QuizPdf?) ==> req.value.file == s.file && s.contentType == Pdf
    ensures req.Some? && (req.value.SummarizeYoutube? || req.value.QuizYoutube?) ==> req.value.url == s.youtubeUrl && s.contentType == YouTube
    ensures req.Some? && kind == Quiz ==>
      req.value.topic == s.specificTopic && req.value.count == s.numQuestions && req.value.level == s.difficulty.Id()
  {
    match (kind, s.contentType)
    case (Summarize, Pdf) => Some(SummarizePdf(s.file))
    case (Summarize, YouTube) => Some(SummarizeYoutube(s.youtubeUrl))
    case (Quiz, Pdf) => Some(QuizPdf(s.file, s.specificTopic, s.numQuestions, s.difficulty.Id()))
    case (Quiz, YouTube) => Some(QuizYoutube(s.youtubeUrl, s.specificTopic, s.numQuestions, s.difficulty.Id()))
    case _ => None
  }

  /** The two locals `Summary` and `Quiz` once the dispatch has settled, or the rejection. */
  function Produce(b: Backend, s: State, kind: Action): (o: Outcome<(string, seq<Question>)>)
    ensures RequestFor(s, kind).None? ==> o == Ok((if kind == Summarize then Placeholder else "", []))
    ensures o.Ok? && kind != Summarize ==> o.value.0 == ""
    ensures o.Ok? && kind != Quiz ==> o.value.1 == []
  {
    match RequestFor(s, kind)
    case None => Ok((if kind == Summarize then Placeholder else "", []))
    case Some(req) =>
      match req
      case SummarizePdf(f) => (match b.summarizePdf(f) case Ok(t) => Ok((t, [])) case Failed(m) => Failed(m))
      case SummarizeYoutube(u) => (match b.summarizeYoutube(u) case Ok(t) => Ok((t, [])) case Failed(m) => Failed(m))
      case QuizPdf(f, t, n, d) => (match b.quizPdf(f, t, n, d) case Ok(q) => Ok(("", q)) case Failed(m) => Failed(m))
      case QuizYoutube(u, t, n, d) => (match b.quizYoutube(u, t, n, d) case Ok(q) => Ok(("", q)) case Failed(m) => Failed(m))
  }

  /** The results of an earlier run are gone: no summary, no questions, no answers, the
      pointer on the first question and the completion card hidden. */
  predicate ResultsCleared(s: State)
  {
    s.summary == [] && s.quiz == [] && s.answers == map[] && s.currentQuestion == 0 && !s.showResults
  }

  /** Two states agree on everything the user entered: source, inputs, action and settings. */
  predicate SameInputs(a: State, b: State)
  {
    a.contentType == b.contentType && a.file == b.file && a.youtubeUrl == b.youtubeUrl
    && a.actionType == b.actionType && a.numQuestions == b.numQuestions
    && a.difficulty == b.difficulty && a.specificTopic == b.specificTopic
  }

  /** The state React shows before the first helper call: processing, with the results of
      any earlier run cleared. */
  function StartProcessing(s: State): (r: State)
    ensures r.processing && ResultsCleared(r)
    ensures r.step == s.step && SameInputs(r, s)
  {
    s.(processing := true, summary := "", quiz := [], answers := map[], showResults := false, currentQuestion := 0)
  }

  /** `processContent(kind)`. On success exactly one result field is written, the summary for
      Summarize and the questions otherwise, and the wizard moves to the results screen. On
      a rejection the alert is raised and the wizard stays where it was with its results
      cleared. Either way processing ends and the user's inputs are untouched. */
  function ProcessContent(s: State, kind: Action, b: Backend): (r: (State, Effect))
    ensures !r.0.processing && SameInputs(r.0, s)
    ensures r.0.answers == map[] && r.0.currentQuestion == 0 && !r.0.showResults
    ensures Produce(b, s, kind).Ok? ==> r.1 == NoEffect && r.0.step == Results
    ensures Produce(b, s, kind).Ok? && kind == Summarize ==> r.0.summary == Produce(b, s, kind).value.0 && r.0.quiz == []
    ensures Produce(b, s, kind).Ok? && kind != Summarize ==> r.0.quiz == Produce(b, s, kind).value.1 && r.0.summary == []
    ensures Produce(b, s, kind).Failed? ==> r.1 == Alert(FailureAlert) && r.0.step == s.step && ResultsCleared(r.0)
  {
    var pre := StartProcessing(s);
    match Produce(b, s, kind)
    case Failed(_) => (pre.(processing := false), Alert(FailureAlert))
    case Ok(results) =>
      var written := if kind == Summarize then pre.(summary := results.0) else pre.(quiz := results.1);
      (written.(processing := false, step := Results), NoEffect)
  }

  /** `resetApp`: back to the source screen with everything cleared except the question
      count, the difficulty and the processing flag, which it does not touch. */
  function ResetApp(s: State): (r: State)
    ensures r == Initial.(numQuestions := s.numQuestions, difficulty := s.difficulty, processing := s.processing)
  {
    s.(step := Select, contentType := Unset, file := None, youtubeUrl := "", summary := "", quiz := [],
       answers := map[], showResults := false, currentQuestion := 0, actionType := NoAction, specificTopic := "")
  }

  /** Reset gives the start state exactly when the count, difficulty and processing flag are
      at their start values; resetting twice is resetting once. */
  lemma ResetIsInitialIff(s: State)
    ensures ResetApp(s) == Initial <==> s.numQuestions == 5 && s.difficulty == Medium && !s.processing
    ensures ResetApp(ResetApp(s)) == ResetApp(s)
  {
  }

  /** Clearing the old results before the call does not change what the backend is asked:
      every argument comes from the user's inputs. */
  lemma PreClearKeepsRequest(s: State, kind: Action)
    ensures RequestFor(StartProcessing(s), kind) == RequestFor(s, kind)
  {
  }

  /** The result of a run depends on the backend only through the one request it makes, and
      not at all for a source without a helper. */
  lemma OutcomeDependsOnlyOnRequest(s: State, kind: Action, b1: Backend, b2: Backend)
    requires RequestFor(s, kind).None?
    ensures ProcessContent(s, kind, b1) == ProcessContent(s, kind, b2)
    ensures kind == Summarize ==> ProcessContent(s, kind, b1).0.summary == Placeholder
    ensures kind != Summarize ==> ProcessContent(s, kind, b1).0.quiz == []
  {
  }

  /** After a rejection Generate can simply be pressed again: the retry sends the same
      request and, with the same backend answers, ends exactly as the first attempt would
      have. */
  lemma RetryAfterFailure(s: State, kind: Action, b: Backend)
    requires Produce(b, s, kind).Failed?
    ensures RequestFor(ProcessContent(s, kind, b).0, kind) == RequestFor(s, kind)
    ensures ProcessContent(ProcessContent(s, kind, b).0, kind, b) == ProcessContent(s, kind, b)
  {
    var r := ProcessContent(s, kind, b).0;
    assert RequestFor(r, kind) == RequestFor(s, kind);
    assert Produce(b, r, kind) == Produce(b, s, kind);
    assert StartProcessing(r) == StartProcessing(s);
  }

  /** A web-search quiz always ends on the results screen with no questions, so the screen
      shows only the "no results" note. */
  lemma WebSearchQuizShowsOnlyFallback(s: State, b: Backend)
    requires s.contentType == WebSearch
    ensures ProcessContent(s, Quiz, b).0.step == Results
    ensures Results.Render(ProcessContent(s, Quiz, b).0) == Results.Panels(false, false, true)
  {
  }

  /** A helper's answer is what the results screen shows: a summary text for Summarize, the
      question list for Quiz. */
  lemma SuccessShowsReply(s: State, kind: Action, b: Backend)
    requires kind != NoAction && Produce(b, s, kind).Ok?
    ensures kind == Summarize ==> ProcessContent(s, kind, b).0.summary == Produce(b, s, kind).value.0
    ensures kind == Summarize && s.contentType == Pdf ==> b.summarizePdf(s.file) == Ok(ProcessContent(s, kind, b).0.summary)
    ensures kind == Quiz && s.contentType == YouTube ==>
      b.quizYoutube(s.youtubeUrl, s.specificTopic, s.numQuestions, s.difficulty.Id()) == Ok(ProcessContent(s, kind, b).0.quiz)
  {
  }
}
