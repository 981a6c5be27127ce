/** The sample question pools and the mock quiz generator
    (`Frontend/src/utils/quizUtils.js`; `QuizSummarizerApp.jsx` holds an identical copy).
    The random shuffle is a parameter: any permutation of the pool. */
module QuizUtils {
  import opened QuizModel

  const EasyPool: seq<Question> := [
    Question(1, "What is the main topic discussed in the content?",
      ["Technology", "Science", "History", "Literature"], 0, "easy"),
    Question(2, "Which field is primarily covered?",
      ["Medicine", "Engineering", "Arts", "Business"], 1, "easy"),
    Question(3, "What type of content is this?",
      ["Educational", "Entertainment", "News", "Fiction"], 0, "easy"),
    Question(4, "Is this content factual or opinion-based?",
      ["Factual", "Opinion", "Mixed", "Unclear"], 0, "easy"),
    Question(5, "What is the primary format of the content?",
      ["Text", "Video", "Audio", "Interactive"], 0, "easy")
  ]

  const MediumPool: seq<Question> := [
    Question(6, "Which concept is most emphasized in the content?",
      ["Innovation", "Tradition", "Analysis", "Implementation"], 2, "medium"),
    Question(7, "What methodology is primarily discussed?",
      ["Qualitative research", "Quantitative analysis", "Mixed methods", "Theoretical framework"], 1, "medium"),
    Question(8, "How does the content approach problem-solving?",
      ["Systematic", "Creative", "Traditional", "Experimental"], 0, "medium"),
    Question(9, "What is the scope of the discussion?",
      ["Local", "Regional", "National", "Global"], 3, "medium"),
    Question(10, "Which stakeholders are primarily addressed?",
      ["Students", "Professionals", "Researchers", "General public"], 2, "medium")
  ]

  const HardPool: seq<Question> := [
    Question(11, "What are the underlying theoretical implications of the presented framework?",
      ["Paradigm shift in methodology", "Incremental improvement", "Validation of existing theories", "Complete theoretical overhaul"], 0, "hard"),
    Question(12, "How do the presented findings challenge conventional wisdom?",
      ["They don't challenge it", "Partial contradiction", "Complete refutation", "Contextual disagreement"], 2, "hard"),
    Question(13, "What are the epistemological foundations of the arguments presented?",
      ["Empiricism", "Rationalism", "Constructivism", "Pragmatism"], 2, "hard"),
    Question(14, "Which critical analysis framework best applies to this content?",
      ["Deconstructive", "Comparative", "Systematic", "Meta-analytical"], 3, "hard"),
    Question(15, "What are the long-term implications for the field discussed?",
      ["Minimal impact", "Moderate evolution", "Significant transformation", "Revolutionary change"], 2, "hard")
  ]

  /** `questionPools[difficulty]`. */
  function Pool(d: Difficulty): seq<Question>
  {
    match d
    case Easy => EasyPool
    case Medium => MediumPool
    case Hard => HardPool
  }

  /** No element occurs twice. */
  predicate Distinct(s: seq<Question>)
  {
    forall i, j :: 0 <= i < j < |s| ==> s[i] != s[j]
  }

  /** `[...pool].sort(() => 0.5 - Math.random())` returns some reordering of the pool. */
  predicate IsPermutationOf(shuffled: seq<Question>, pool: seq<Question>)
  {
    multiset(shuffled) == multiset(pool)
  }

  function Min(a: int, b: int): int
  {
    if a <= b then a else b
  }

  /** The end index `Array.prototype.slice(0, end)` uses: a negative end counts back from
      the length, and the result is clamped to `[0, len]`. */
  function SliceEnd(len: nat, end: int): (k: nat)
    ensures k <= len
    ensures 0 <= end <= len ==> k == end
    ensures end > len ==> k == len
    ensures end < 0 ==> k == (if len + end < 0 then 0 else len + end)
  {
    if end < 0 then (if len + end < 0 then 0 else len + end)
    else if end > len then len
    else end
  }

  /** `generateSampleQuiz(numQuestions, difficulty)`: the first `min(numQuestions, 5)`
      questions of the shuffled pool. Every one comes from the requested pool and carries
      its label, and none repeats. */
  function GenerateSampleQuiz(numQuestions: int, d: Difficulty, shuffled: seq<Question>): (quiz: seq<Question>)
    requires IsPermutationOf(shuffled, Pool(d))
    ensures |quiz| <= |shuffled| && quiz == shuffled[..|quiz|]
    ensures numQuestions >= 0 ==> |quiz| == Min(numQuestions, 5)
    ensures numQuestions < 0 ==> |quiz| == (if 5 + numQuestions < 0 then 0 else 5 + numQuestions)
    ensures forall i :: 0 <= i < |quiz| ==> quiz[i] in Pool(d) && quiz[i].difficulty == d.Id()
    ensures Distinct(quiz)
  {
    PoolWellFormed(d);
    assert |shuffled| == |multiset(shuffled)| == |Pool(d)|;
    PermutationKeepsMembers(shuffled, Pool(d));
    PermutationKeepsDistinct(shuffled, Pool(d));
    shuffled[..SliceEnd(|shuffled|, Min(numQuestions, |Pool(d)|))]
  }

  /** Each pool holds five questions labelled with its level, each with four options and a
      correct index among them, and no question twice. */
  lemma PoolWellFormed(d: Difficulty)
    ensures |Pool(d)| == 5 && Distinct(Pool(d))
    ensures forall i :: 0 <= i < |Pool(d)| ==>
      Pool(d)[i].difficulty == d.Id() && |Pool(d)[i].options| == 4 && 0 <= Pool(d)[i].correct < 4
  {
    var first := FirstId(d);
    PoolShape(d);
    IdsInOrderDistinct(Pool(d), first);
  }

  /** The id of a pool's first question: the pools number their questions 1-5, 6-10
      and 11-15. */
  function FirstId(d: Difficulty): int
  {
    match d
    case Easy => 1
    case Medium => 6
    case Hard => 11
  }

  lemma PoolShape(d: Difficulty)
    ensures |Pool(d)| == 5
    ensures forall i :: 0 <= i < |Pool(d)| ==> Pool(d)[i].id == FirstId(d) + i
    ensures forall i :: 0 <= i < |Pool(d)| ==>
      Pool(d)[i].difficulty == d.Id() && |Pool(d)[i].options| == 4 && 0 <= Pool(d)[i].correct < 4
  {
    match d
    case Easy =>
    case Medium =>
    case Hard =>
  }

  /** Questions numbered consecutively are pairwise different. */
  lemma IdsInOrderDistinct(s: seq<Question>, first: int)
    requires forall i :: 0 <= i < |s| ==> s[i].id == first + i
    ensures Distinct(s)
  {
    forall i, j | 0 <= i < j < |s|
      ensures s[i] != s[j]
    {
      assert s[i].id != s[j].id;
    }
  }

  /** Across the three pools the ids run 1 to 15 in order, so every id is unique. */
  lemma PoolIdsUnique()
    ensures var all := EasyPool + MediumPool + HardPool;
      |all| == 15 && (forall i :: 0 <= i < |all| ==> all[i].id == i + 1)
    ensures var all := EasyPool + MediumPool + HardPool;
      forall i, j :: 0 <= i < j < |all| ==> all[i].id != all[j].id
  {
  }

  /** A reordering has the same members. */
  lemma PermutationKeepsMembers(shuffled: seq<Question>, pool: seq<Question>)
    requires IsPermutationOf(shuffled, pool)
    ensures forall x :: x in shuffled <==> x in pool
  {
    forall x
      ensures x in shuffled <==> x in pool
    {
      assert x in shuffled <==> x in multiset(shuffled);
      assert x in pool <==> x in multiset(pool);
    }
  }

  /** A reordering of a list without repeats has no repeats. */
  lemma PermutationKeepsDistinct(shuffled: seq<Question>, pool: seq<Question>)
    requires IsPermutationOf(shuffled, pool) && Distinct(pool)
    ensures Distinct(shuffled)
  {
    forall i, j | 0 <= i < j < |shuffled|
      ensures shuffled[i] != shuffled[j]
    {
      if shuffled[i] == shuffled[j] {
        RepeatCountsTwice(shuffled, i, j);
        DistinctCountsAtMostOne(pool, shuffled[i]);
        assert false;
      }
    }
  }

  lemma RepeatCountsTwice(s: seq<Question>, i: nat, j: nat)
    requires i < j < |s| && s[i] == s[j]
    ensures multiset(s)[s[i]] >= 2
  {
    var x := s[i];
    assert s == s[..i] + [x] + s[i + 1..j] + [x] + s[j + 1..];
    assert multiset(s) == multiset(s[..i]) + multiset{x} + multiset(s[i + 1..j]) + multiset{x} + multiset(s[j + 1..]);
  }

  lemma {:induction false} DistinctCountsAtMostOne(s: seq<Question>, x: Question)
    requires Distinct(s)
    ensures multiset(s)[x] <= 1
  {
    if s != [] {
      var rest := s[1..];
      assert Distinct(rest);
      DistinctCountsAtMostOne(rest, x);
      assert s == [s[0]] + rest;
      assert multiset(s) == multiset{s[0]} + multiset(rest);
      if x == s[0] {
        assert x !in rest;
        assert x !in multiset(rest);
      }
    }
  }

  /** A list whose questions all carry one label tallies all of them under that label. */
  lemma {:induction false} CountAllLabelled(quiz: seq<Question>, level: string)
    requires forall i :: 0 <= i < |quiz| ==> quiz[i].difficulty == level
    ensures CountWithDifficulty(quiz, level) == |quiz|
  {
    if quiz != [] {
      CountAllLabelled(quiz[..|quiz| - 1], level);
    }
  }

  /** On the completion card of a sample quiz, the requested level's tally is the whole quiz. */
  lemma SampleQuizTally(numQuestions: int, d: Difficulty, shuffled: seq<Question>)
    requires IsPermutationOf(shuffled, Pool(d))
    ensures var quiz := GenerateSampleQuiz(numQuestions, d, shuffled);
      CountWithDifficulty(quiz, d.Id()) == |quiz|
  {
    CountAllLabelled(GenerateSampleQuiz(numQuestions, d, shuffled), d.Id());
  }
}
