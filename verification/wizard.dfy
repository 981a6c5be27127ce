/** The whole wizard of `Frontend/src/App.jsx` as one reducer over user events. Each event
    acts only on the screen that renders its control, and only while that control is
    enabled; otherwise it changes nothing. */
module Wizard {
  import opened Common
  import opened QuizModel
  import opened AppState
  import ContentTypeSelection
  import ContentUpload
  import PdfUpload
  import ActionSelection
  import QuizConfiguration
  import ConfigureAction
  import QuizQuestion
  import QuizComplete
  import App

  /** The user's gestures, one per control of the four screens. */
  datatype Event =
    | ChooseSource(ct: ContentType)
    | PickFile(picked: Option<File>)
    | DropFile(dropped: Option<File>)
    | TypeUrl(url: string)
    | UploadBack
    | UploadNext
    | ChooseAction(a: Action)
    | ChooseCount(k: nat)
    | ChooseDifficulty(d: Difficulty)
    | TypeTopic(topic: string)
    | ConfigureBack
    | Generate
    | AnswerOption(index: nat)
    | NextQuestion
    | PrevQuestion
    | Retake
    | NewContent

  /** The question card is on screen. */
  predicate OnQuestionCard(s: State)
  {
    s.step == Results && !s.processing && |s.quiz| > 0 && !s.showResults
  }

  /** The completion card is on screen. */
  predicate OnCompleteCard(s: State)
  {
    s.step == Results && !s.processing && |s.quiz| > 0 && s.showResults
  }

  /** A "New Content" button is on screen: under the summary or on the completion card. */
  predicate OffersNewContent(s: State)
  {
    s.step == Results && !s.processing && (s.summary != [] || OnCompleteCard(s))
  }

  /** One user event. `App.jsx` hands the upload screen a record without `webSearchQuery`,
      so the upload guard is evaluated with that field absent. */
  function Apply(s: State, e: Event, b: App.Backend): (r: (State, Effect))
    ensures r.1 != NoEffect ==> e.PickFile? || e.Generate?
  {
    match e
    case ChooseSource(ct) =>
      if s.step == Select && ct in ContentTypeSelection.Options
      then (ContentTypeSelection.HandleOptionSelect(s, ct), NoEffect) else (s, NoEffect)
    case PickFile(f) =>
      if s.step == Upload && s.contentType == Pdf then PdfUpload.HandleFileUpload(s, f) else (s, NoEffect)
    case DropFile(f) =>
      if s.step == Upload && s.contentType == Pdf then (PdfUpload.HandleDrop(s, f), NoEffect) else (s, NoEffect)
    case TypeUrl(u) =>
      if s.step == Upload && s.contentType == YouTube then (s.(youtubeUrl := u), NoEffect) else (s, NoEffect)
    case UploadBack =>
      if s.step == Upload then (ContentUpload.Back(s), NoEffect) else (s, NoEffect)
    case UploadNext =>
      if s.step == Upload then (ContentUpload.Next(s, None), NoEffect) else (s, NoEffect)
    case ChooseAction(a) =>
      if s.step == Configure && a in ActionSelection.Offered(s.contentType)
      then (ActionSelection.SetAction(s, a), NoEffect) else (s, NoEffect)
    case ChooseCount(k) =>
      if s.step == Configure && ConfigureAction.ShowsQuizConfig(s) && k < |QuizConfiguration.CountOptions|
      then (QuizConfiguration.SelectCount(s, k), NoEffect) else (s, NoEffect)
    case ChooseDifficulty(d) =>
      if s.step == Configure && ConfigureAction.ShowsQuizConfig(s)
      then (QuizConfiguration.SetDifficulty(s, d), NoEffect) else (s, NoEffect)
    case TypeTopic(t) =>
      if s.step == Configure && ConfigureAction.ShowsQuizConfig(s)
      then (QuizConfiguration.SetTopic(s, t), NoEffect) else (s, NoEffect)
    case ConfigureBack =>
      if s.step == Configure then (ConfigureAction.Back(s), NoEffect) else (s, NoEffect)
    case Generate =>
      if s.step == Configure && !ConfigureAction.GenerateDisabled(s)
      then App.ProcessContent(s, s.actionType, b) else (s, NoEffect)
    case AnswerOption(i) =>
      if OnQuestionCard(s) && 0 <= s.currentQuestion < |s.quiz| && i < |s.quiz[s.currentQuestion].options|
      then (QuizQuestion.SelectAnswer(s, s.quiz[s.currentQuestion].id, i), NoEffect) else (s, NoEffect)
    case NextQuestion =>
      if OnQuestionCard(s) then (QuizQuestion.PressNext(s, false), NoEffect) else (s, NoEffect)
    case PrevQuestion =>
      if OnQuestionCard(s) && !QuizQuestion.PrevDisabled(s) then (QuizQuestion.Prev(s), NoEffect) else (s, NoEffect)
    case Retake =>
      if OnCompleteCard(s) then (QuizComplete.ResetQuiz(s), NoEffect) else (s, NoEffect)
    case NewContent =>
      if OffersNewContent(s) then (App.ResetApp(s), NoEffect) else (s, NoEffect)
  }

  /** The invariant of every state the wizard can reach from its start. */
  predicate Valid(s: State)
  {
    InputsValid(s) && SessionValid(s)
  }

  /** What the first three screens guarantee about the user's inputs. */
  predicate InputsValid(s: State)
  {
    && !s.processing
    && s.numQuestions in QuizConfiguration.CountOptions
    && (s.file.Some? ==> PdfUpload.IsPdf(s.file.value))
    && (s.step != Select ==> s.contentType != Unset)
    && (s.step == Configure || s.step == Results ==> ContentUpload.NextEnabled(s, None))
  }

  /** What the results screen's session keeps: one kind of result, a pointer on a
      question, and answers only for the quiz's questions. */
  predicate SessionValid(s: State)
  {
    && (s.step != Results ==> App.ResultsCleared(s))
    && (s.summary == [] || s.quiz == [])
    && (s.quiz == [] ==> s.currentQuestion == 0 && !s.showResults)
    && (s.quiz != [] ==> 0 <= s.currentQuestion < |s.quiz|)
    && s.answers.Keys <= Ids(s.quiz)
  }

  lemma InitialValid()
    ensures Valid(Initial)
  {
  }

  /** Every event keeps the wizard in a valid state, whatever the backend answers. */
  lemma ApplyPreservesValid(s: State, e: Event, b: App.Backend)
    requires Valid(s)
    ensures Valid(Apply(s, e, b).0)
  {
    match e
    case ChooseSource(ct) => ValidAfterChooseSource(s, ct, b);
    case PickFile(f) => ValidAfterFileEvent(s, e, b);
    case DropFile(f) => ValidAfterFileEvent(s, e, b);
    case TypeUrl(u) => ValidAfterTypeUrl(s, u, b);
    case UploadBack => ValidAfterUploadNavigation(s, e, b);
    case UploadNext => ValidAfterUploadNavigation(s, e, b);
    case ChooseAction(a) => ValidAfterSettings(s, e, b);
    case ChooseCount(k) => ValidAfterSettings(s, e, b);
    case ChooseDifficulty(d) => ValidAfterSettings(s, e, b);
    case TypeTopic(t) => ValidAfterSettings(s, e, b);
    case ConfigureBack => ValidAfterSettings(s, e, b);
    case Generate => ValidAfterGenerate(s, b);
    case AnswerOption(i) => ValidAfterAnswer(s, i, b);
    case NextQuestion => ValidAfterQuestionNavigation(s, e, b);
    case PrevQuestion => ValidAfterQuestionNavigation(s, e, b);
    case Retake => ValidAfterCompletionCard(s, e, b);
    case NewContent => ValidAfterCompletionCard(s, e, b);
  }

  /** Validity survives any change to the input fields that keeps a PDF file a PDF and,
      past the upload screen, keeps the upload guard passing. */
  lemma InputChangeValid(s: State, r: State)
    requires Valid(s)
    requires r == s.(step := r.step, contentType := r.contentType, file := r.file, youtubeUrl := r.youtubeUrl,
                     actionType := r.actionType, numQuestions := r.numQuestions, difficulty := r.difficulty,
                     specificTopic := r.specificTopic)
    requires r.numQuestions in QuizConfiguration.CountOptions
    requires r.file.Some? ==> PdfUpload.IsPdf(r.file.value)
    requires r.step != Select ==> r.contentType != Unset
    requires r.step != Results ==> App.ResultsCleared(s)
    requires r.step == Configure || r.step == Results ==> ContentUpload.NextEnabled(r, None)
    ensures Valid(r)
  {
  }

  /** Validity survives a move of the question pointer, the completion flag and the
      answers on a non-empty quiz, as long as the pointer stays on a question and the
      answers stay on the quiz's ids. */
  lemma SessionChangeValid(s: State, r: State)
    requires Valid(s) && s.step == Results && s.quiz != []
    requires r == s.(currentQuestion := r.currentQuestion, showResults := r.showResults, answers := r.answers)
    requires 0 <= r.currentQuestion < |s.quiz| && r.answers.Keys <= Ids(s.quiz)
    ensures Valid(r)
  {
    assert ContentUpload.CanProceed(r, None) == ContentUpload.CanProceed(s, None);
  }

  lemma ValidAfterChooseSource(s: State, ct: ContentType, b: App.Backend)
    requires Valid(s)
    ensures Valid(Apply(s, ChooseSource(ct), b).0)
  {
    var r := Apply(s, ChooseSource(ct), b).0;
    if s.step == Select && ct in ContentTypeSelection.Options {
      assert r == s.(step := Upload, contentType := ct);
      InputChangeValid(s, r);
    } else {
      assert r == s;
    }
  }

  lemma ValidAfterFileEvent(s: State, e: Event, b: App.Backend)
    requires Valid(s) && (e.PickFile? || e.DropFile?)
    ensures Valid(Apply(s, e, b).0)
  {
    var r := Apply(s, e, b).0;
    if s.step == Upload && s.contentType == Pdf {
      assert r == s.(file := r.file);
      InputChangeValid(s, r);
    } else {
      assert r == s;
    }
  }

  lemma ValidAfterTypeUrl(s: State, u: string, b: App.Backend)
    requires Valid(s)
    ensures Valid(Apply(s, TypeUrl(u), b).0)
  {
    var r := Apply(s, TypeUrl(u), b).0;
    if s.step == Upload && s.contentType == YouTube {
      assert r == s.(youtubeUrl := u);
      InputChangeValid(s, r);
    } else {
      assert r == s;
    }
  }

  lemma ValidAfterUploadNavigation(s: State, e: Event, b: App.Backend)
    requires Valid(s) && (e.UploadBack? || e.UploadNext?)
    ensures Valid(Apply(s, e, b).0)
  {
    var r := Apply(s, e, b).0;
    if s.step == Upload && e.UploadBack? {
      assert r == s.(step := Select);
      InputChangeValid(s, r);
    } else if s.step == Upload && ContentUpload.NextEnabled(s, None) {
      assert r == s.(step := Configure);
      assert ContentUpload.CanProceed(r, None) == ContentUpload.CanProceed(s, None);
      InputChangeValid(s, r);
    } else {
      assert r == s;
    }
  }

  lemma ValidAfterSettings(s: State, e: Event, b: App.Backend)
    requires Valid(s)
    requires e.ChooseAction? || e.ChooseCount? || e.ChooseDifficulty? || e.TypeTopic? || e.ConfigureBack?
    ensures Valid(Apply(s, e, b).0)
  {
    var r := Apply(s, e, b).0;
    if s.step == Configure {
      assert r == s.(actionType := r.actionType, numQuestions := r.numQuestions, difficulty := r.difficulty,
                     specificTopic := r.specificTopic, step := r.step);
      assert r.step == Configure || r.step == Upload;
      assert ContentUpload.CanProceed(r, None) == ContentUpload.CanProceed(s, None);
      InputChangeValid(s, r);
    } else {
      assert r == s;
    }
  }

  lemma ValidAfterGenerate(s: State, b: App.Backend)
    requires Valid(s)
    ensures Valid(Apply(s, Generate, b).0)
  {
    var go := s.step == Configure && !ConfigureAction.GenerateDisabled(s);
    GenerateStep(s, b);
    if go {
      GenerationSettlesValid(s, b);
    }
  }

  /** The generate button either runs the configured action or does nothing. */
  lemma GenerateStep(s: State, b: App.Backend)
    ensures Apply(s, Generate, b) ==
      if s.step == Configure && !ConfigureAction.GenerateDisabled(s) then App.ProcessContent(s, s.actionType, b)
      else (s, NoEffect)
  {
  }

  lemma GenerationSettlesValid(s: State, b: App.Backend)
    requires Valid(s) && s.step == Configure
    ensures Valid(App.ProcessContent(s, s.actionType, b).0)
  {
    var r := App.ProcessContent(s, s.actionType, b).0;
    assert r.step == Configure || r.step == Results;
    assert r.summary == [] || r.quiz == [];
    SettledStateValid(s, r);
  }

  /** A state that settles a generation from a valid configure screen is valid: the
      inputs are the configure screen's, and the session starts afresh. */
  lemma SettledStateValid(s: State, r: State)
    requires Valid(s) && s.step == Configure
    requires !r.processing && App.SameInputs(r, s)
    requires r.answers == map[] && r.currentQuestion == 0 && !r.showResults
    requires r.summary == [] || r.quiz == []
    requires r.step == Configure || r.step == Results
    requires r.step != Results ==> App.ResultsCleared(r)
    ensures Valid(r)
  {
    assert ContentUpload.CanProceed(r, None) == ContentUpload.CanProceed(s, None);
  }

  lemma ValidAfterAnswer(s: State, i: nat, b: App.Backend)
    requires Valid(s)
    ensures Valid(Apply(s, AnswerOption(i), b).0)
  {
    AnswerStep(s, i, b);
    if OnQuestionCard(s) && 0 <= s.currentQuestion < |s.quiz| && i < |s.quiz[s.currentQuestion].options| {
      var r := QuizQuestion.SelectAnswer(s, s.quiz[s.currentQuestion].id, i);
      QuizQuestion.AnswerKeysStayInQuiz(s, i);
      SessionChangeValid(s, r);
    }
  }

  /** An option click on the question card records it; anywhere else it does nothing. */
  lemma AnswerStep(s: State, i: nat, b: App.Backend)
    ensures Apply(s, AnswerOption(i), b) ==
      if OnQuestionCard(s) && 0 <= s.currentQuestion < |s.quiz| && i < |s.quiz[s.currentQuestion].options|
      then (QuizQuestion.SelectAnswer(s, s.quiz[s.currentQuestion].id, i), NoEffect)
      else (s, NoEffect)
  {
  }

  lemma ValidAfterQuestionNavigation(s: State, e: Event, b: App.Backend)
    requires Valid(s) && (e.NextQuestion? || e.PrevQuestion?)
    ensures Valid(Apply(s, e, b).0)
  {
    var r := Apply(s, e, b).0;
    if OnQuestionCard(s) {
      QuizQuestion.NavigationKeepsRange(s);
      if e.NextQuestion? {
        assert r == QuizQuestion.PressNext(s, false);
      } else if !QuizQuestion.PrevDisabled(s) {
        assert r == QuizQuestion.Prev(s);
      } else {
        assert r == s;
      }
      SessionChangeValid(s, r);
    } else {
      assert r == s;
    }
  }

  lemma ValidAfterCompletionCard(s: State, e: Event, b: App.Backend)
    requires Valid(s) && (e.Retake? || e.NewContent?)
    ensures Valid(Apply(s, e, b).0)
  {
    var r := Apply(s, e, b).0;
    if e.Retake? && OnCompleteCard(s) {
      assert r == QuizComplete.ResetQuiz(s);
      SessionChangeValid(s, r);
    } else if e.NewContent? && OffersNewContent(s) {
      assert r == App.ResetApp(s);
    } else {
      assert r == s;
    }
  }

  /** A run of events, oldest first. */
  function Run(s: State, events: seq<Event>, b: App.Backend): State
  {
    if events == [] then s else Apply(Run(s, events[..|events| - 1], b), events[|events| - 1], b).0
  }

  /** Every state reachable from the start satisfies the invariant. */
  lemma {:induction false} RunPreservesValid(s: State, events: seq<Event>, b: App.Backend)
    requires Valid(s)
    ensures Valid(Run(s, events, b))
  {
    if events != [] {
      RunPreservesValid(s, events[..|events| - 1], b);
      ApplyPreservesValid(Run(s, events[..|events| - 1], b), events[|events| - 1], b);
    }
  }

  /** Because the upload guard of `App.jsx` reads a query field its record does not have, a
      reachable state never has web search past the upload screen. */
  lemma WebSearchNeverPassesUpload(s: State, events: seq<Event>, b: App.Backend)
    requires Valid(s)
    ensures var t := Run(s, events, b); t.contentType == WebSearch ==> t.step == Select || t.step == Upload
  {
    RunPreservesValid(s, events, b);
  }

  /** The stored action changes only by a click on an action card or by New Content. */
  lemma ActionWrittenOnlyByItsControls(s: State, e: Event, b: App.Backend)
    ensures Apply(s, e, b).0.actionType != s.actionType ==> e.ChooseAction? || e.NewContent?
  {
  }

  /** The full PDF quiz path: choose PDF, pick a PDF file, go on, choose Quiz, generate. With
      the backend answering the request for the default settings, the results screen holds
      that quiz on its first question. */
  lemma PdfQuizPath(f: File, b: App.Backend, q: seq<Question>)
    requires PdfUpload.IsPdf(f)
    requires b.quizPdf(Some(f), "", 5, "medium") == Ok(q)
    ensures var t := Run(Initial, [ChooseSource(Pdf), PickFile(Some(f)), UploadNext, ChooseAction(Quiz), Generate], b);
      t.step == Results && t.quiz == q && t.currentQuestion == 0 && t.answers == map[] && !t.showResults
  {
    var events := [ChooseSource(Pdf), PickFile(Some(f)), UploadNext, ChooseAction(Quiz), Generate];
    var s1 := Apply(Initial, events[0], b).0;
    assert s1 == Initial.(contentType := Pdf, step := Upload);
    var s2 := Apply(s1, events[1], b).0;
    assert s2 == s1.(file := Some(f));
    var s3 := Apply(s2, events[2], b).0;
    assert s3 == s2.(step := Configure);
    var s4 := Apply(s3, events[3], b).0;
    assert s4 == s3.(actionType := Quiz);
    assert events[..1][..0] == [] && events[..1][0] == events[0];
    assert Run(Initial, events[..1], b) == s1;
    assert events[..2][..1] == events[..1] && events[..2][1] == events[1];
    assert Run(Initial, events[..2], b) == s2;
    assert events[..3][..2] == events[..2] && events[..3][2] == events[2];
    assert Run(Initial, events[..3], b) == s3;
    assert events[..4][..3] == events[..3] && events[..4][3] == events[3];
    assert Run(Initial, events[..4], b) == s4;
    assert events[..4] == events[..|events| - 1];
    assert App.RequestFor(s4, Quiz) == Some(App.QuizPdf(Some(f), "", 5, "medium"));
  }
}
