/** The single wizard record `Frontend/src/App.jsx` keeps in React state, with the value
    domains its setters are called with. */
module AppState {
  import opened Common
  import opened QuizModel

  /** The four wizard screens, in display order. */
  datatype Step = Select | Upload | Configure | Results
  {
    function Id(): string
    {
      match this
      case Select => "select"
      case Upload => "upload"
      case Configure => "configure"
      case Results => "results"
    }
  }

  /** The content source; `Unset` is the empty string the wizard starts and resets with. */
  datatype ContentType = Unset | Pdf | YouTube | WebSearch
  {
    function Id(): string
    {
      match this
      case Unset => ""
      case Pdf => "pdf"
      case YouTube => "youtube"
      case WebSearch => "websearch"
    }
  }

  /** What to generate; `NoAction` is the empty string before the user picks one. */
  datatype Action = NoAction | Summarize | Quiz
  {
    function Id(): string
    {
      match this
      case NoAction => ""
      case Summarize => "summarize"
      case Quiz => "quiz"
    }
  }

  /** A browser `File` as far as the wizard looks at it. */
  datatype File = File(name: string, mimeType: string, size: nat)

  datatype State = State(
    step: Step,
    contentType: ContentType,
    file: Option<File>,
    youtubeUrl: string,
    processing: bool,
    summary: string,
    quiz: seq<Question>,
    currentQuestion: int,
    answers: Answers,
    showResults: bool,
    numQuestions: int,
    difficulty: Difficulty,
    specificTopic: string,
    actionType: Action)

  /** The values `useState` starts with. */
  const Initial: State := State(Select, Unset, None, "", false, "", [], 0, map[], false, 5, Medium, "", NoAction)
}
