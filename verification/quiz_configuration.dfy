/** The quiz settings panel: topic, question count and difficulty
    (`Frontend/src/components/configure/QuizConfiguration.jsx`). */
module QuizConfiguration {
  import opened Text
  import opened QuizModel
  import opened AppState

  /** The values of the count drop-down, in order. */
  const CountOptions: seq<int> := [3, 5, 10, 15, 20]

  /** The difficulty buttons, in order. */
  const DifficultyOptions: seq<Difficulty> := [Easy, Medium, Hard]

  /** Choosing the `k`-th count option: the browser hands the option's value over as its
      decimal text, and `parseInt` reads it back. */
  function SelectCount(s: State, k: nat): (r: State)
    requires k < |CountOptions|
    ensures r.numQuestions == CountOptions[k]
    ensures r.numQuestions in CountOptions
    ensures r.(numQuestions := s.numQuestions) == s
  {
    var text := NatToString(CountOptions[k]);
    ParseIntOfNatToString(CountOptions[k]);
    s.(numQuestions := ParseInt(text).value)
  }

  /** A difficulty button stores its level; nothing else changes. */
  function SetDifficulty(s: State, d: Difficulty): (r: State)
    ensures r.difficulty == d && r.(difficulty := s.difficulty) == s
  {
    s.(difficulty := d)
  }

  /** A difficulty button is highlighted iff its level is the stored one. */
  predicate DifficultyHighlighted(s: State, d: Difficulty)
  {
    s.difficulty == d
  }

  /** The topic field stores exactly what was typed. The field is marked required, but no
      form submission checks it, so a blank topic is stored as well. */
  function SetTopic(s: State, topic: string): (r: State)
    ensures r.specificTopic == topic && r.(specificTopic := s.specificTopic) == s
  {
    s.(specificTopic := topic)
  }

  /** Exactly one difficulty button is highlighted at any time, and the three buttons cover
      the three labels the backend accepts. */
  lemma ExactlyOneDifficultyHighlighted(s: State)
    ensures forall i :: 0 <= i < |DifficultyOptions| ==>
      (DifficultyHighlighted(s, DifficultyOptions[i]) <==> DifficultyOptions[i] == s.difficulty)
    ensures s.difficulty in DifficultyOptions
    ensures forall d: Difficulty :: d.Id() in {"easy", "medium", "hard"}
  {
    assert DifficultyOptions[0] == Easy && DifficultyOptions[1] == Medium && DifficultyOptions[2] == Hard;
  }

  /** The counts on offer are positive, ascending and distinct, and the default of 5 is
      one of them. */
  lemma CountOptionsWellFormed()
    ensures forall i, j :: 0 <= i < j < |CountOptions| ==> 0 < CountOptions[i] < CountOptions[j]
    ensures Initial.numQuestions in CountOptions
  {
  }
}
