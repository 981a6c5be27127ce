/** The question record every generator produces and the answer map the quiz session
    fills in. */
module QuizModel {

  /** One quiz item, shaped as the backend's response schema and the sample pools shape it;
      `difficulty` is the raw label the generator wrote ("easy", "medium", "hard", or
      anything else a language model returns). */
  datatype Question = Question(id: int, question: string, options: seq<string>, correct: int, difficulty: string)

  /** The session's answers: question id to the index of the chosen option. */
  type Answers = map<int, int>

  /** The difficulty levels the configuration screens offer. */
  datatype Difficulty = Easy | Medium | Hard
  {
    /** The label the frontend stores and sends to the backend. */
    function Id(): string
    {
      match this
      case Easy => "easy"
      case Medium => "medium"
      case Hard => "hard"
    }
  }

  /** `answers[q.id] === q.correct`: an unanswered question is never correct, since
      `undefined` is strictly equal to no number. */
  predicate IsCorrect(q: Question, answers: Answers)
  {
    q.id in answers && answers[q.id] == q.correct
  }

  /** The positions among the first `n` questions whose recorded answer is correct. */
  function CorrectBelow(quiz: seq<Question>, answers: Answers, n: nat): set<nat>
    requires n <= |quiz|
  {
    set i: nat | i < n && IsCorrect(quiz[i], answers)
  }

  /** The positions of all correctly answered questions; the score is its size. */
  function CorrectPositions(quiz: seq<Question>, answers: Answers): set<nat>
  {
    CorrectBelow(quiz, answers, |quiz|)
  }

  /** The ids of the questions in a quiz. */
  function Ids(quiz: seq<Question>): set<int>
  {
    set i | 0 <= i < |quiz| :: quiz[i].id
  }

  /** `quiz.filter(q => q.difficulty === level).length`. */
  function CountWithDifficulty(quiz: seq<Question>, level: string): (n: nat)
    ensures n <= |quiz|
  {
    if quiz == [] then 0
    else CountWithDifficulty(quiz[..|quiz| - 1], level) + (if quiz[|quiz| - 1].difficulty == level then 1 else 0)
  }
}
