# Quiz Generator & Summarizer — a Dafny model of its core

The application turns a PDF or a YouTube video into a summary or a multiple-choice quiz.
A React wizard leads the user through four screens. On "select" they choose a source. On
"upload" they provide it. On "configure" they pick Summary or Quiz and the quiz settings.
On "results" they read the summary or take the quiz. A FastAPI backend does the work:

- it extracts YouTube video ids;
- it answers the summary and quiz routes with their error mapping;
- it pulls a JSON array out of a language model's free-text answer;
- it runs a multimodal summarisation chain over PDF pages and images, in one "stuff" call
  or by map-reduce over chunks of at most 10000 characters or of one larger document.

This project models that core as pure Dafny functions over immutable records and proves
what the code promises.

- `Common`, `Text`: options, outcomes, HTTP responses, effects. The string routines both
  languages rely on: `trim`/`strip`/`lstrip`, `find`/`rfind`, `split`/`join`, ASCII
  lower-casing, `str(n)` and `parseInt`.
- `QuizModel`, `AppState`: the question record, the answer map and the wizard's state.
- One module per screen component: `ContentTypeSelection`, `ContentUpload`, `PdfUpload`,
  `ActionSelection`, `QuizConfiguration`, `ConfigureAction`, `StepIndicator`, `Results`,
  `QuizQuestion`, `QuizComplete`.
- `App`: the controller of `App.jsx`, that is `processContent` and `resetApp`.
- `Wizard`: the whole wizard as a reducer over user events. It carries an invariant
  that every reachable state keeps.
- `QuizUtils`, `MockApp`: the sample question pools and the self-contained demonstration
  controller `QuizSummarizerApp.jsx`.
- `Helpers`: `extract_video_id` with the parts of `urlparse`/`parse_qs` it depends on.
  `Backend/routes/summarizeRoutes.py` holds an identical copy of this function.
- `SummarizeRoutes`, `QuizRoutes`: the two routers.
- `SummarizeController`: `MultimodalSummarizeChain`.

Collaborators the code calls but does not define become function-typed parameters that
return an `Outcome`. These are the HTTP helpers, the language models, `validators.url`,
the transcript fetcher, `get_related_docs` and `json.loads`. The random shuffle of the
sample quiz is a permutation parameter. An `await` is modelled as the awaited call's
outcome, and one `processContent` run as one atomic step. The state React renders before
the call is exposed as `App.StartProcessing`.

Where the code and the application's design description disagree, the model follows
the code:

- Back from the upload screen keeps the chosen source and its input; it does not clear
  the source (`ContentUpload.Back`).
- `App.jsx` makes no web-search generation call and does not force Quiz for web search.
  A web-search quiz there ends with no questions and the "no results" note
  (`App.WebSearchQuizShowsOnlyFallback`). Before that, the upload guard cannot pass
  (`Wizard.WebSearchNeverPassesUpload`). Only the demonstration controller asks for a quiz
  on web search whatever the action (`MockApp.WebSearchAlwaysQuizzes`).
- Reset is not a return to the defaults: it keeps the question count, the difficulty and
  the processing flag (`App.ResetApp`, `App.ResetIsInitialIff`).
- The source is not fixed until reset. Back leads to the first screen, and another
  source can be chosen there.

## Model

| member | source | states |
|---|---|---|
| Text.LStrip | Backend/utils/helpers.py:18 | `lstrip` removes exactly the longest prefix of stripped characters, and what is left does not start with one |
| Text.RStrip | Backend/routes/quizRoutes.py:180 | `rstrip` removes exactly the longest suffix of stripped characters |
| Text.Strip | Backend/routes/quizRoutes.py:177-182 | `strip` is empty iff every character is stripped; otherwise both ends are kept characters |
| Text.TrimEmptyIffBlank | Frontend/src/components/ContentUpload.jsx:13 | `trim()` gives the empty (falsy) string iff the input is all whitespace |
| Text.StripPadded | Backend/routes/quizRoutes.py:177-182 | stripping padding from both sides of a core whose ends are not padding gives back the core |
| Text.LStripPadded | Backend/routes/quizRoutes.py:180 | left-stripping a padding prefix gives back the rest |
| Text.RStripPadded | Backend/routes/quizRoutes.py:180 | right-stripping a padding suffix gives back the rest |
| Text.Find | Backend/routes/quizRoutes.py:184 | `find` returns -1 iff the character is absent, and otherwise its first position |
| Text.FindConcat | Backend/routes/quizRoutes.py:184 | searching `a + b` finds `a`'s occurrence first, else `b`'s shifted by `|a|` |
| Text.RFind | Backend/routes/quizRoutes.py:185 | `rfind` returns -1 iff the character is absent, and otherwise its last position |
| Text.Split | Backend/utils/helpers.py:16 | `split` on one separator gives at least one piece, and no piece holds the separator |
| Text.JoinSplit | Backend/utils/helpers.py:16 | joining the pieces of a split with the same separator gives back the string |
| Text.Join | Backend/controllers/summarizeController.py:61 | `join` starts with the first part and has room for every separator; `JoinSplit` is its inverse |
| Text.SplitConcat | Backend/utils/helpers.py:16 | splitting `a + sep + b` gives `a`'s pieces followed by `b`'s |
| Text.LowerChar | Backend/routes/quizRoutes.py:181 | `lower()` maps each of `A`-`Z` to the letter 32 code points later, in `a`-`z`, and leaves other characters alone |
| Text.Lower | Backend/routes/quizRoutes.py:181 | `lower()` keeps the length and lowers each character in place |
| Text.NatToString | Frontend/src/components/configure/QuizConfiguration.jsx:63-67 | the decimal text of a number is non-empty digits without a leading zero |
| Text.IntToString | Backend/controllers/summarizeController.py:46 | the decimal text of an integer starts with '-' iff it is negative |
| Text.IntToStringRoundTrip | Backend/controllers/summarizeController.py:46 | `parseInt` reads the decimal text of any integer, negative ones included, back as that integer |
| Text.ParseInt | Frontend/src/components/configure/QuizConfiguration.jsx:60 | `parseInt` is NaN iff, after the leading whitespace and optional sign, no hexadecimal digit follows a "0x"/"0X" prefix or, without that prefix, no decimal digit follows |
| Text.ParseIntOfHex | Frontend/src/components/configure/QuizConfiguration.jsx:60 | after a "0x"/"0X" prefix `parseInt` reads the digits in base 16 |
| Text.HexTen | Frontend/src/components/configure/QuizConfiguration.jsx:60 | `parseInt("0x10")` is 16 |
| Text.ParseIntOfNatToString | Frontend/src/components/configure/QuizConfiguration.jsx:60-67 | `parseInt` reads an option's decimal value back as that number |
| ContentTypeSelection.HandleOptionSelect | Frontend/src/components/ContentTypeSelection.jsx:57-60 | a click records the source and moves to upload; nothing else changes |
| ContentTypeSelection.ThreeDistinctOptions | Frontend/src/components/ContentTypeSelection.jsx:6-55 | exactly the sources pdf, youtube and websearch are offered, each once |
| ContentUpload.CanProceed | Frontend/src/components/ContentUpload.jsx:11-16 | the upload guard per source: PDF needs a file, YouTube a non-blank URL, web search a non-blank query; it throws iff the query field is absent |
| ContentUpload.Next | Frontend/src/components/ContentUpload.jsx:73-75 | Next moves to configure iff the guard is truthy, and otherwise changes nothing |
| ContentUpload.Back | Frontend/src/components/ContentUpload.jsx:66-67 | Back returns to select and keeps the source and its input |
| ContentUpload.YouTubeGuardNeedsNonBlankUrl | Frontend/src/components/ContentUpload.jsx:13 | a YouTube URL passes iff it holds a non-whitespace character |
| ContentUpload.GuardNeedsInput | Frontend/src/components/ContentUpload.jsx:11-16 | a passing guard implies a chosen source and, for PDF or YouTube, its input |
| ContentUpload.SelectThenBackKeepsChoice | Frontend/src/components/ContentUpload.jsx:66-67 | choosing a source and going back keeps the choice recorded |
| PdfUpload.HandleFileUpload | Frontend/src/components/upload/PDFUpload.jsx:8-15 | a picked PDF replaces the file; anything else alerts and keeps it |
| PdfUpload.HandleDrop | Frontend/src/components/upload/PDFUpload.jsx:21-27 | a dropped PDF replaces the file; anything else is silently ignored |
| PdfUpload.LastPdf | Frontend/src/components/upload/PDFUpload.jsx:21-27 | the last PDF among several drops is a PDF, and one of them |
| PdfUpload.LastAcceptedWins | Frontend/src/components/upload/PDFUpload.jsx:21-27 | after several drops the zone holds the last PDF dropped, or its earlier file when none was a PDF |
| PdfUpload.HeldFileStaysPdf | Frontend/src/components/upload/PDFUpload.jsx:8-27 | a held file stays a PDF whatever is picked or dropped |
| ActionSelection.SetAction | Frontend/src/components/configure/ActionSelection.jsx:72 | a card click stores that card's action; nothing else changes |
| ActionSelection.OfferedPerSource | Frontend/src/components/configure/ActionSelection.jsx:57-61 | Quiz is offered for every source; Summary for every source but web search |
| ActionSelection.ClickHighlightsOnlyThatCard | Frontend/src/components/configure/ActionSelection.jsx:64-65 | after a click exactly the clicked card is highlighted |
| QuizConfiguration.SelectCount | Frontend/src/components/configure/QuizConfiguration.jsx:58-68 | choosing an option stores that option's count, read back through `parseInt` |
| QuizConfiguration.SetDifficulty | Frontend/src/components/configure/QuizConfiguration.jsx:81 | a difficulty button stores its level and changes nothing else |
| QuizConfiguration.SetTopic | Frontend/src/components/configure/QuizConfiguration.jsx:43 | the topic field stores what was typed, a blank topic included |
| QuizConfiguration.ExactlyOneDifficultyHighlighted | Frontend/src/components/configure/QuizConfiguration.jsx:7-27 | exactly the stored level's button is highlighted |
| QuizConfiguration.CountOptionsWellFormed | Frontend/src/components/configure/QuizConfiguration.jsx:63-67 | the counts are positive, ascending and distinct, and include the default of 5 |
| ConfigureAction.GenerateLabel | Frontend/src/components/ConfigureAction.jsx:37-47 | the caption is "Processing..." while running, else "Generate Quiz" iff the action is Quiz |
| ConfigureAction.Back | Frontend/src/components/ConfigureAction.jsx:25-26 | Back returns to upload and keeps the settings |
| ConfigureAction.GenerateEnabledIff | Frontend/src/components/ConfigureAction.jsx:33-34 | Generate is enabled iff an action is chosen and nothing is running |
| ConfigureAction.QuizPanelFollowsChoice | Frontend/src/components/ConfigureAction.jsx:19-21 | the quiz settings panel shows iff the Quiz card was clicked, and Back keeps it as it was |
| StepIndicator.FindIndex | Frontend/src/components/StepIndicator.jsx:29 | `findIndex` is -1 iff the id is absent, and otherwise its first position |
| StepIndicator.UploadStepName | Frontend/src/components/StepIndicator.jsx:6-12 | the upload step's label per source, "Input" by default |
| StepIndicator.StepNames | Frontend/src/components/StepIndicator.jsx:22-27 | four labels, the second being the upload step's name |
| StepIndicator.Position | Frontend/src/components/StepIndicator.jsx:22-27 | each wizard step sits at the position holding its id |
| StepIndicator.StepIdsDistinct | Frontend/src/components/StepIndicator.jsx:22-27 | the four step ids are distinct |
| StepIndicator.ExactlyOneActive | Frontend/src/components/StepIndicator.jsx:29-36 | exactly the current step is active, and exactly the steps before it are completed |
| StepIndicator.UnknownStepShowsNothing | Frontend/src/components/StepIndicator.jsx:29-36 | an unknown step id leaves every step pending |
| StepIndicator.ConnectorsGreenBehind | Frontend/src/components/StepIndicator.jsx:54-58 | a connector is green iff the wizard is past its step |
| Results.RenderShowsEachPanelOnItsCondition | Frontend/src/components/Results.jsx:9-44 | spinner iff processing; summary panel iff there is a summary; quiz panel iff there are questions; note iff neither |
| Results.FallbackExcludesPanels | Frontend/src/components/Results.jsx:20-44 | outside processing the screen is never blank, and the note never shares it with a panel |
| Results.QuizPanelFollowsShowResults | Frontend/src/components/results/QuizResults.jsx:8-12 | the completion card shows iff the quiz is finished |
| QuizModel.CountWithDifficulty | Frontend/src/components/results/QuizComplete.jsx:40-48 | a difficulty tally never exceeds the quiz length |
| QuizQuestion.SelectAnswer | Frontend/src/components/results/QuizQuestion.jsx:8-13 | an answer click upserts that question's choice and keeps every other answer |
| QuizQuestion.Current | Frontend/src/components/results/QuizQuestion.jsx:29 | the shown question exists iff the pointer is in range, and is then a quiz question |
| QuizQuestion.Next | Frontend/src/components/results/QuizQuestion.jsx:15-21 | Next advances before the last question, and finishes the quiz on it |
| QuizQuestion.Prev | Frontend/src/components/results/QuizQuestion.jsx:23-27 | Previous steps back unless on the first question |
| QuizQuestion.NavigationKeepsRange | Frontend/src/components/results/QuizQuestion.jsx:15-27 | Next and Previous keep the pointer on a question |
| QuizQuestion.PrevDisabledIffNoop | Frontend/src/components/results/QuizQuestion.jsx:82-84 | Previous is disabled exactly when pressing it would do nothing |
| QuizQuestion.PressNext | Frontend/src/components/results/QuizQuestion.jsx:89-91 | a press on a disabled Next does nothing; on an enabled one it runs `nextQuestion` |
| QuizQuestion.FinishLabelMeansFinish | Frontend/src/components/results/QuizQuestion.jsx:94 | the button reads 'Finish' exactly where pressing it ends the quiz; elsewhere it moves to the next question |
| QuizQuestion.PlayFinishes | Frontend/src/components/results/QuizQuestion.jsx:15-21 | answering each remaining question and pressing Next finishes the quiz on its last question (intended guard) |
| QuizQuestion.FirstOptionBlocksNext | Frontend/src/components/results/QuizQuestion.jsx:91 | with the guard as written, answering with the first option blocks Next |
| QuizQuestion.AnswerKeysStayInQuiz | Frontend/src/components/results/QuizQuestion.jsx:66 | answers are recorded only under ids of the quiz's questions |
| QuizComplete.CalculateScore | Frontend/src/components/results/QuizComplete.jsx:8-16 | the score is the number of questions whose recorded answer equals the correct index |
| QuizComplete.Percentage | Frontend/src/components/results/QuizComplete.jsx:25 | `Math.round(score / n * 100)` is the whole percentage nearest the share, at most 100 |
| QuizComplete.PercentageMonotone | Frontend/src/components/results/QuizComplete.jsx:25 | a higher score never reads lower; full marks read 100 and none read 0 |
| QuizComplete.CorrectionLinesComplementScore | Frontend/src/components/results/QuizComplete.jsx:58-84 | the review shows the correct answer under exactly the unscored questions |
| QuizComplete.TalliesWithinLength | Frontend/src/components/results/QuizComplete.jsx:40-48 | the three tallies sum to at most the length, and to exactly it when every label is known |
| QuizComplete.ResetQuiz | Frontend/src/components/results/QuizComplete.jsx:18-22 | Retake clears the answers, pointer and flag and keeps the questions |
| QuizComplete.RetakeStartsOver | Frontend/src/components/results/QuizComplete.jsx:18-22 | after Retake nothing is scored, and the quiz can be played to the end again |
| QuizComplete.ReplayKeepsLastChoice | Frontend/src/components/results/QuizQuestion.jsx:8-13 | after several clicks each question holds its last chosen option |
| QuizComplete.ScoreDependsOnlyOnLastChoices | Frontend/src/components/results/QuizComplete.jsx:8-16 | the score depends only on each question's last choice |
| App.RequestFor | Frontend/src/App.jsx:99-125 | which helper a run calls: only PDF and YouTube sources reach the backend, with the file or URL and the quiz settings |
| App.Produce | Frontend/src/App.jsx:98-125 | a source without a helper gives the placeholder summary or no questions |
| App.StartProcessing | Frontend/src/App.jsx:89-94 | before the call the old results are cleared and processing is set |
| App.ProcessContent | Frontend/src/App.jsx:88-141 | success writes exactly one result and moves to results; failure alerts and stays; the inputs are untouched |
| App.ResetApp | Frontend/src/App.jsx:143-155 | reset is the start state except count, difficulty and processing |
| App.ResetIsInitialIff | Frontend/src/App.jsx:143-155 | reset gives the start state iff those three are at their start values; reset is idempotent |
| App.PreClearKeepsRequest | Frontend/src/App.jsx:88-125 | clearing the old results does not change the request |
| App.OutcomeDependsOnlyOnRequest | Frontend/src/App.jsx:107-123 | without a helper, the run ignores the backend |
| App.RetryAfterFailure | Frontend/src/App.jsx:135-140 | after a failure a retry sends the same request and ends the same way |
| App.WebSearchQuizShowsOnlyFallback | Frontend/src/App.jsx:114-134 | a web-search quiz ends on results with only the "no results" note |
| App.SuccessShowsReply | Frontend/src/App.jsx:99-131 | the results screen holds the helper's reply |
| Wizard.Apply | Frontend/src/App.jsx:208-240 | only Choose-file and Generate events raise an effect |
| Wizard.InitialValid | Frontend/src/App.jsx:10-23 | the start state satisfies the wizard invariant |
| Wizard.ApplyPreservesValid | Frontend/src/App.jsx:88-240 | every event keeps the invariant, whatever the backend answers |
| Wizard.InputChangeValid | Frontend/src/App.jsx:157-192 | changing only input fields in a guarded way keeps the invariant |
| Wizard.SessionChangeValid | Frontend/src/components/results/QuizQuestion.jsx:8-27 | moving the question pointer or answering within the quiz keeps the invariant |
| Wizard.ValidAfterChooseSource | Frontend/src/components/ContentTypeSelection.jsx:57-60 | choosing a source keeps the invariant |
| Wizard.ValidAfterFileEvent | Frontend/src/components/upload/PDFUpload.jsx:8-27 | picking or dropping a file keeps the invariant |
| Wizard.ValidAfterTypeUrl | Frontend/src/components/upload/YouTubeUpload.jsx:1-32 | typing a URL keeps the invariant |
| Wizard.ValidAfterUploadNavigation | Frontend/src/components/ContentUpload.jsx:66-75 | Back and Next on the upload screen keep the invariant |
| Wizard.ValidAfterSettings | Frontend/src/components/ConfigureAction.jsx:17-26 | the configure screen's controls keep the invariant |
| Wizard.ValidAfterGenerate | Frontend/src/components/ConfigureAction.jsx:33-34 | Generate keeps the invariant |
| Wizard.GenerateStep | Frontend/src/components/ConfigureAction.jsx:33-34 | Generate runs `processContent` with the stored action iff the button is enabled |
| Wizard.GenerationSettlesValid | Frontend/src/App.jsx:88-141 | a settled run from a valid configure screen is valid |
| Wizard.SettledStateValid | Frontend/src/App.jsx:127-140 | a state with the configure inputs and a fresh session is valid |
| Wizard.ValidAfterAnswer | Frontend/src/components/results/QuizQuestion.jsx:63-66 | answering keeps the invariant |
| Wizard.AnswerStep | Frontend/src/components/results/QuizQuestion.jsx:63-66 | an option click records the choice only on the question card, and does nothing elsewhere |
| Wizard.ValidAfterQuestionNavigation | Frontend/src/components/results/QuizQuestion.jsx:82-91 | Next and Previous keep the invariant |
| Wizard.ValidAfterCompletionCard | Frontend/src/components/results/QuizComplete.jsx:93-108 | Retake and New Content keep the invariant |
| Wizard.RunPreservesValid | Frontend/src/App.jsx:88-240 | every state reachable from a valid one is valid |
| Wizard.WebSearchNeverPassesUpload | Frontend/src/components/ContentUpload.jsx:14 | in `App.jsx` a web-search session never gets past the upload screen |
| Wizard.ActionWrittenOnlyByItsControls | Frontend/src/components/configure/ActionSelection.jsx:72 | the stored action changes only through a card click or New Content |
| Wizard.PdfQuizPath | Frontend/src/App.jsx:116-134 | choose PDF, pick a file, Next, Quiz, Generate ends on the backend's quiz at question 1 |
| QuizUtils.SliceEnd | Frontend/src/utils/quizUtils.js:118 | `slice`'s end index is clamped to the length, and a negative end counts back from it |
| QuizUtils.GenerateSampleQuiz | Frontend/src/utils/quizUtils.js:115-119 | the sample quiz has min(n, 5) distinct questions, all from the requested pool and at its level |
| QuizUtils.PoolWellFormed | Frontend/src/utils/quizUtils.js:1-113 | each pool has five distinct questions at its level, four options each, and a valid correct index |
| QuizUtils.PoolIdsUnique | Frontend/src/utils/quizUtils.js:1-113 | the ids run from 1 to 15 across the pools, so they are unique |
| QuizUtils.PermutationKeepsMembers | Frontend/src/utils/quizUtils.js:117 | the shuffle has the pool's members |
| QuizUtils.PermutationKeepsDistinct | Frontend/src/utils/quizUtils.js:117 | the shuffle of a pool without repeats has no repeats |
| QuizUtils.SampleQuizTally | Frontend/src/components/QuizSummarizerApp.jsx:1013-1021 | a sample quiz's tally at its own level is the whole quiz |
| MockApp.MockSummary | Frontend/src/components/QuizSummarizerApp.jsx:188-203 | the mock summary quotes the URL or query for YouTube and web search, and is otherwise fixed |
| MockApp.MockProcessContent | Frontend/src/components/QuizSummarizerApp.jsx:176-216 | the mock run always ends on results, with the summary or min(n, 5) questions at the chosen level |
| MockApp.MockReset | Frontend/src/components/QuizSummarizerApp.jsx:255-268 | the mock reset is `App.jsx`'s reset plus a cleared query |
| MockApp.CanProceedFromUpload | Frontend/src/components/QuizSummarizerApp.jsx:270-275 | the mock upload guard per source, web search needing a non-blank query |
| MockApp.MockGuardIsTotalUploadGuard | Frontend/src/components/QuizSummarizerApp.jsx:270-275 | the mock guard is the component guard evaluated with the query present |
| MockApp.MockUploadStepName | Frontend/src/components/QuizSummarizerApp.jsx:277-283 | the mock labels web search "Web Search", and other sources as the step bar does |
| MockApp.MockGenerate | Frontend/src/components/QuizSummarizerApp.jsx:751-752 | the mock Generate always asks for a quiz on web search, and otherwise runs the stored action |
| MockApp.WebSearchAlwaysQuizzes | Frontend/src/components/QuizSummarizerApp.jsx:874-875 | a web-search Generate yields a sample quiz even with no action chosen |
| MockApp.MockNeverFails | Frontend/src/components/QuizSummarizerApp.jsx:176-216 | the mock run never fails, and a requested summary is never empty |
| Helpers.FirstOf | Backend/utils/helpers.py:14 | the first delimiter position, with no delimiter before it |
| Helpers.SplitOnce | Backend/utils/helpers.py:14 | splitting at the first occurrence gives back the string with nothing lost |
| Helpers.SplitScheme | Backend/utils/helpers.py:14 | the scheme, when present, is a colon-free prefix followed by ':' |
| Helpers.SplitNetloc | Backend/utils/helpers.py:14 | the netloc after "//" runs up to the first '/', '?' or '#' |
| Helpers.UrlParse | Backend/utils/helpers.py:14 | a parsed netloc has balanced brackets and no '/', '?' or '#'; a path has no '?' or '#' |
| Helpers.PlusToSpace | Backend/utils/helpers.py:16 | `parse_qs` turns '+' into a space and keeps every other character |
| Helpers.QueryValues | Backend/utils/helpers.py:16 | `parse_qs` keeps only non-empty values |
| Helpers.QueryValuesConcat | Backend/utils/helpers.py:16 | the values of `a&b` are those of `a` followed by those of `b` |
| Helpers.PiecesValuesConcat | Backend/utils/helpers.py:16 | the values of two runs of pieces are read independently |
| Helpers.QueryPiece | Backend/utils/helpers.py:16 | one `name=value` piece lists its '+'-decoded value under its decoded name, unless the value is empty |
| Helpers.QueryPieceWithoutValue | Backend/utils/helpers.py:16 | a piece without '=' lists nothing |
| Helpers.IdOf | Backend/utils/helpers.py:15-19 | an id only for the two watch hosts, present iff a non-empty `v` value is, and then the first; on youtu.be always the path with its leading slashes removed |
| Helpers.ExtractVideoId | Backend/utils/helpers.py:10-19 | `ValueError` iff `urlparse` fails; otherwise the id its host rules give |
| Helpers.SchemeOf | Backend/utils/helpers.py:14 | a scheme of letters, digits, '+', '-' or '.', starting with a letter, is split off at the first ':' and lower-cased |
| Helpers.ShortExtract | Backend/utils/helpers.py:17-18 | a short-link address without fragment gives its path, the part before any query, with the leading slashes removed |
| Helpers.ShortUrlWithQuery | Backend/utils/helpers.py:17-18 | a query after a short-link id, such as `?si=...`, leaves the id unchanged |
| Helpers.WatchQueryExtract | Backend/utils/helpers.py:14-16 | the watch page of a watch host gives the first `v` value of its query, or none |
| Helpers.WatchPage | Backend/utils/helpers.py:14 | `.../watch?<query>` on a watch host parses to the path "/watch" and that query |
| Helpers.WatchUrlLaterParam | Backend/utils/helpers.py:16 | `v` need not be the first parameter: after pieces without a `v` value its value is the id |
| Helpers.WatchUrlAfterParam | Backend/utils/helpers.py:16 | a watch address such as `watch?feature=share&v=<id>` gives back the id |
| Helpers.WatchHostWithoutQuery | Backend/utils/helpers.py:15-16 | a watch-host address without a query gives no id |
| Helpers.HttpsExtract | Backend/utils/helpers.py:14-19 | an https URL is judged by its host, path and query alone |
| Helpers.QueryOfId | Backend/utils/helpers.py:16 | the query `v=<id>` gives back exactly the id |
| Helpers.WatchUrlRoundTrip | Backend/utils/helpers.py:15-16 | the watch URL built from an id gives back the id |
| Helpers.ShortUrlRoundTrip | Backend/utils/helpers.py:17-18 | the short URL built from an id gives back the id |
| Helpers.EmbedUrlHasNoId | Backend/utils/helpers.py:15-16 | an embed URL has no `v` parameter, so no id |
| Helpers.MobileHostHasNoId | Backend/utils/helpers.py:15-19 | the mobile host is not recognised |
| Helpers.PortedHostHasNoId | Backend/utils/helpers.py:15-19 | a host with a port is not recognised |
| SummarizeRoutes.SummarizeYoutube | Backend/routes/summarizeRoutes.py:56-69 | 400 iff the URL is invalid; any later failure is a 500 prefixed "Error summarizing video: "; success is the chain's summary |
| SummarizeRoutes.InvalidUrlRejectedBeforeFetch | Backend/routes/summarizeRoutes.py:58-59 | an invalid URL is rejected before any fetch |
| SummarizeRoutes.ValidUrlFailuresAre500 | Backend/routes/summarizeRoutes.py:61-69 | with a valid URL, success iff fetch and chain succeed; otherwise a 500 with the failing step's message |
| SummarizeRoutes.SummarizePdf | Backend/routes/summarizeRoutes.py:71-73 | the PDF route answers a fixed non-empty summary |
| SummarizeRoutes.PdfStubIgnoresInput | Backend/routes/summarizeRoutes.py:71-73 | the PDF route's answer does not depend on the upload |
| QuizRoutes.Slice | Backend/routes/quizRoutes.py:188 | the slice is empty when the end does not pass the start |
| QuizRoutes.ArraySpan | Backend/routes/quizRoutes.py:184-188 | `ValueError` iff a bracket is missing; a non-empty span opens with '[' and closes with ']' |
| QuizRoutes.ArraySpanCuts | Backend/routes/quizRoutes.py:184-188 | a non-empty span is cut from the answer with no '[' before it and no ']' after it; an empty span means the last ']' precedes the first '[' |
| QuizRoutes.ExtractJsonPayload | Backend/routes/quizRoutes.py:177-188 | a non-empty payload starts with '[' and ends with ']' |
| QuizRoutes.PayloadFailsIffBracketMissing | Backend/routes/quizRoutes.py:184-187 | extraction fails, with the "did not return a JSON array" message, iff the cleaned answer lacks a bracket |
| QuizRoutes.ArraySpanOfArray | Backend/routes/quizRoutes.py:184-188 | an array text is its own span |
| QuizRoutes.RFindConcat | Backend/routes/quizRoutes.py:185 | the last occurrence in `a + b` is found in `b` when `b` has one |
| QuizRoutes.Cleaned | Backend/routes/quizRoutes.py:177-182 | no answer text cleans to the empty string, an unfenced answer only loses its surrounding whitespace, and cleaning never lengthens the stripped text |
| QuizRoutes.CleanedFenced | Backend/routes/quizRoutes.py:177-182 | the cleaning turns "```json\n<p>\n```" into `p` |
| QuizRoutes.FencedAnswerRoundTrip | Backend/routes/quizRoutes.py:177-188 | a fenced array answer yields exactly the array |
| QuizRoutes.ArraySpanInProse | Backend/routes/quizRoutes.py:184-188 | prose without brackets around an array yields the array |
| QuizRoutes.ProseAroundArray | Backend/routes/quizRoutes.py:177-188 | an unfenced answer with prose around the array yields the array |
| QuizRoutes.RFindWithoutTail | Backend/routes/quizRoutes.py:185 | a tail without the character does not move `rfind` |
| QuizRoutes.MissingAnswerFails | Backend/routes/quizRoutes.py:177-187 | a `None` or empty answer fails with `ValueError` |
| QuizRoutes.ReversedBracketsGiveEmptyPayload | Backend/routes/quizRoutes.py:184-188 | "]x[" passes the check and gives the empty payload |
| QuizRoutes.YoutubeQuiz | Backend/routes/quizRoutes.py:116-144 | 400 iff the URL is invalid; later failures are 500 "Error generating quiz: "; success is the parsed answer |
| QuizRoutes.Error500 | Backend/routes/quizRoutes.py:143-144 | the 500 detail is the prefix followed by the message |
| QuizRoutes.InvalidVideoUrlRejectedFirst | Backend/routes/quizRoutes.py:118-119 | the 400 answer depends only on the validator |
| QuizRoutes.ValidVideoUrlNever400 | Backend/routes/quizRoutes.py:121-144 | a valid URL is never a 400, and succeeds iff fetch, chain and parse succeed |
| QuizRoutes.TextsOf | Backend/routes/quizRoutes.py:165 | the text filter keeps at most all parts |
| QuizRoutes.ImagesOf | Backend/routes/quizRoutes.py:166 | every part goes to exactly one of the two filters |
| QuizRoutes.FiltersDistribute | Backend/routes/quizRoutes.py:165-166 | both filters keep order, that is they distribute over concatenation |
| QuizRoutes.PdfAnswer | Backend/routes/quizRoutes.py:160-194 | every failure is a 500 prefixed "Error generating quiz from PDF: "; success means the related parts, Gemini on the prompt with their texts and images, the payload extraction and the parse all succeeded, and the body is the parse |
| QuizRoutes.PdfAnswerSteps | Backend/routes/quizRoutes.py:160-194 | the answer is the quiz iff every step succeeds; otherwise its detail is the prefix and the message of the first step that failed |
| QuizRoutes.PdfQuiz | Backend/routes/quizRoutes.py:147-198 | the answer is the one read from the saved file, which is written first and whose removal is attempted last, whatever the outcome |
| QuizRoutes.FencedPdfAnswerAccepted | Backend/routes/quizRoutes.py:162-191 | a fenced "```json" answer from Gemini still yields the quiz |
| SummarizeController.PageLabel | Backend/controllers/summarizeController.py:46 | "[Page p]" iff a page is present (page 0 included), else nothing |
| SummarizeController.TextPart | Backend/controllers/summarizeController.py:46-47 | a text part is the label, a newline, then the content |
| SummarizeController.Collect | Backend/controllers/summarizeController.py:42-47 | an image gives its `image_data` (`KeyError` when absent); other documents give a text part |
| SummarizeController.Partition | Backend/controllers/summarizeController.py:39-47 | partitioning fails iff an image lacks data; otherwise every document lands in exactly one list |
| SummarizeController.PartitionConcat | Backend/controllers/summarizeController.py:42-47 | partitioning distributes over concatenation, so both lists keep input order |
| SummarizeController.PartitionSingle | Backend/controllers/summarizeController.py:43-47 | a single document goes to exactly its list |
| SummarizeController.ImageContentIgnored | Backend/controllers/summarizeController.py:43-44 | an image document's page content never reaches the prompt |
| SummarizeController.Stuff | Backend/controllers/summarizeController.py:37-80 | a missing `image_data` fails the stuff chain |
| SummarizeController.TextOnlyStuff | Backend/controllers/summarizeController.py:70-74 | without images only the text-only chain is consulted, on the newline-joined parts |
| SummarizeController.NoImagesNoImageParts | Backend/controllers/summarizeController.py:42-47 | without image documents there are no image parts |
| SummarizeController.ImagesFallBackToText | Backend/controllers/summarizeController.py:76-80 | with images and Gemini failing, the answer is the text-only chain's over the newline-joined text parts |
| SummarizeController.ImagesUseMultimodal | Backend/controllers/summarizeController.py:65-69 | with images and Gemini answering, the answer is Gemini's |
| SummarizeController.GroupChunks | Backend/controllers/summarizeController.py:88-108 | the chunks concatenate to the input, each non-empty and within 10000 characters or a single document, and each next document overflows its predecessor |
| SummarizeController.ValidChunkingTail | Backend/controllers/summarizeController.py:92-103 | a chunking starts with a prefix of the input and chunks the rest |
| SummarizeController.NextDocOverflows | Backend/controllers/summarizeController.py:95 | a chunk closes only when the next document would overflow it |
| SummarizeController.FirstChunkNotShorter | Backend/controllers/summarizeController.py:95-103 | no valid chunking has a shorter first chunk than another |
| SummarizeController.FirstChunkUnique | Backend/controllers/summarizeController.py:95-103 | the first chunk is determined by the input |
| SummarizeController.ChunkingUnique | Backend/controllers/summarizeController.py:88-108 | the greedy grouping is the only valid chunking |
| SummarizeController.Combine | Backend/controllers/summarizeController.py:111 | the combined text is empty iff there are no summaries |
| SummarizeController.Sections | Backend/controllers/summarizeController.py:111 | one section per summary, the i-th headed "Section i+1: " |
| SummarizeController.SectionNumbersReadBack | Backend/controllers/summarizeController.py:111 | each section number reads back as its position plus one |
| SummarizeController.SummarizeChunks | Backend/controllers/summarizeController.py:97-108 | one summary per chunk, each the stuff chain's; a failure is the first failing chunk's, every earlier chunk having succeeded |
| SummarizeController.Reduce | Backend/controllers/summarizeController.py:119-126 | Gemini's reduce answer is returned whenever Gemini succeeds; the text-only fallback is asked only after a Gemini failure and its outcome is returned; so the step fails only when both fail |
| SummarizeController.MapReduce | Backend/controllers/summarizeController.py:82-126 | map-reduce groups validly, propagates the first chunk failure's message, and otherwise reduces the summaries |
| SummarizeController.Invoke | Backend/controllers/summarizeController.py:28-35 | "stuff" and "map_reduce" dispatch; any other type fails with "Unsupported chain type: " and the type |
| SummarizeController.SmallInputOneChunk | Backend/controllers/summarizeController.py:92-108 | input within 10000 characters is exactly one chunk |

## Left out

- Whitespace: the modelled set is space, tab, line feed, carriage return, vertical tab and form feed, the characters both `trim` and `strip` remove. Python's `strip()` also removes the separators `\x1c`-`\x1f`, `\x85` and the Unicode spaces, and JavaScript's `trim` removes `\xa0`, `\ufeff` and the Unicode spaces but not `\x1c`-`\x1f`; text padded with those characters is not modelled. Lower-casing is ASCII only.
- `urlparse` is modelled for what `extract_video_id` reads: scheme, netloc, path, query, and the `ValueError` on unbalanced brackets. Percent-decoding, `;` parameters and IPv6 validation beyond bracket balance are not modelled. The same applies to `parse_qs`.
- Helpers.UrlParse: does not model the input clean-up of `urlsplit`, which removes leading C0 control characters and spaces and deletes every tab, CR and LF anywhere in the URL; the model reads such characters as part of the components.
- Helpers.UrlParse: does not model the `ValueError` that `urlsplit` raises from `_checknetloc` when a non-ASCII location's NFKC form gains one of '/', '?', '#', '@' or ':' (for instance `https://youtu.be\uFF0Fabc`, where `extract_video_id` raises but `ExtractVideoId` answers `Ok(None)`); Unicode normalisation is outside the model.
- `get_youtube_content` (loader, transcript API, yt-dlp fallbacks), `get_related_docs`, `extract_multimodal_documents` and `retrieval_chain`: they are I/O and model calls, and they are parameters here.
- Prompt wording and LLM behaviour: each prompt is an input to a parameter, so the exact text is not modelled.
- FastAPI's `response_model` validation of the quiz schema: it is framework behaviour.
- `Math.round` is modelled exactly in integer arithmetic. JavaScript's floating-point rounding of `score / n * 100` is not modelled.
- Asynchrony: each `processContent` run is one atomic step. Clicks landing while a request is in flight, and React's batching, are not modelled.
- The mock's two-second delay and its spinner, the export button (it has no handler), the web-search topic list editors, and the icons, colours and titles: presentational.
- `SummarizeController.Stuff`: after a failed text-only call, the fallback repeats the same call. The model gives the repeat the same outcome, because a deterministic engine is assumed.
- `Wizard.Apply`: the web-search branch of the upload screen is evaluated with the query field absent. The `TypeError` this raises is modelled as the guard refusing, not as a crash of the render.
- `SummarizeController.MapReduce`: the chunk prompt wording is not modelled; only the section structure of the reduce input is.

## Findings

| source | as written | input that shows it | evidently intended | confidence | as-written member | corrected member |
|---|---|---|---|---|---|---|
| Frontend/src/components/results/QuizQuestion.jsx:91 | Next is disabled while `!answers[currentQ?.id]`, and the option index 0 is falsy; `QuizSummarizerApp.jsx` line 989 has the same guard | choose option A (index 0) on any question | Next is enabled once any option is chosen | not executed | QuizQuestion.FirstOptionBlocksNext | QuizQuestion.PlayFinishes |
| Frontend/src/components/ContentUpload.jsx:14 | the web-search guard reads `state.webSearchQuery`, which the state built in `App.jsx` (lines 157-173) does not have, so `.trim()` throws | choose Web Search on the first screen of `App.jsx` | the guard reads a query the controller keeps, as the demonstration controller does | not executed | Wizard.WebSearchNeverPassesUpload | MockApp.MockGuardIsTotalUploadGuard |
