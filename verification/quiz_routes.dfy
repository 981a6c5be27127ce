/** The quiz routes of `Backend/routes/quizRoutes.py`: the YouTube route's error mapping,
    the PDF route's split of the retrieved context into text and image parts, the
    extraction of the JSON array from the model's answer, and the temporary file the PDF
    route always removes. Retrieval, generation, `json.loads` and URL validation are
    parameters. */
module QuizRoutes {
  import opened Common
  import opened Text
  import opened QuizModel
  import SummarizeController

  type ImageData = SummarizeController.ImageData

  const Fence: string := "```"
  const NoArray: string := "Model did not return a JSON array."
  const InvalidUrl: string := "Invalid URL"
  const VideoQuizErrorPrefix: string := "Error generating quiz: "
  const PdfQuizErrorPrefix: string := "Error generating quiz from PDF: "

  predicate StartsWith(s: string, prefix: string)
  {
    |prefix| <= |s| && s[..|prefix|] == prefix
  }

  /** Python's `t[i:j]` for indices within the string: empty when `j` does not exceed `i`. */
  function Slice(t: string, i: nat, j: nat): (r: string)
    requires i <= |t| && j <= |t|
    ensures j <= i ==> r == []
    ensures i < j ==> r == t[i..j]
  {
    if j <= i then [] else t[i..j]
  }

  /** `(response.text or "").strip()`, then the fence removal: text that starts with three
      backticks loses every leading and trailing backtick, and then a "json" tag in any
      letter case together with the whitespace around what follows it. */
  function Cleaned(text: Option<string>): (t: string)
    ensures text.None? ==> t == []
    ensures text.Some? && !StartsWith(Trim(text.value), Fence) ==> t == Trim(text.value)
    ensures |t| <= |Trim(match text case None => "" case Some(x) => x)|
  {
    var s := Trim(match text case None => "" case Some(x) => x);
    if StartsWith(s, Fence) then
      var u := Strip(s, {'`'});
      if StartsWith(Lower(u), "json") then Trim(u[4..]) else u
    else s
  }

  /** The span from the first '[' to the last ']' of a cleaned answer, both included;
      `ValueError` when either bracket is missing. When the last ']' comes before the
      first '[' the span is empty. */
  function ArraySpan(t: string): (r: Outcome<string>)
    ensures r.Failed? <==> '[' !in t || ']' !in t
    ensures r.Failed? ==> r.message == NoArray
    ensures r.Ok? && r.value != [] ==> r.value[0] == '[' && r.value[|r.value| - 1] == ']'
  {
    var start := Find(t, '[');
    var end := RFind(t, ']');
    if start == -1 || end == -1 then Failed(NoArray)
    else if end < start then Ok([])
    else Ok(t[start..end + 1])
  }

  /** A non-empty span is cut out of the answer with no '[' before it and no ']' after it;
      an empty span means the last ']' precedes the first '['. */
  lemma ArraySpanCuts(t: string)
    ensures var r := ArraySpan(t);
      r.Ok? && r.value != [] ==> exists pre, post ::
        t == pre + r.value + post && '[' !in pre && ']' !in post
    ensures var r := ArraySpan(t);
      r.Ok? && r.value == [] ==> exists i, j ::
        0 <= j < i < |t| && t[i] == '[' && '[' !in t[..i] && t[j] == ']' && ']' !in t[j + 1..]
  {
    var start := Find(t, '[');
    var end := RFind(t, ']');
    if start != -1 && end != -1 {
      if end < start {
        assert t[start] == '[' && '[' !in t[..start] && t[end] == ']' && ']' !in t[end + 1..];
      } else {
        SpanSplits(t, start, end);
        assert t == t[..start] + ArraySpan(t).value + t[end + 1..] && '[' !in t[..start] && ']' !in t[end + 1..];
      }
    }
  }

  /** Cutting a string around a span and gluing the three pieces gives it back. */
  lemma SpanSplits(t: string, start: nat, end: nat)
    requires start <= end < |t|
    ensures t == t[..start] + t[start..end + 1] + t[end + 1..]
  {
    assert t[..start] + t[start..end + 1] == t[..end + 1];
  }

  /** The JSON-array extraction of `pdfQuiz`: the bracketed span of the cleaned answer. */
  function ExtractJsonPayload(text: Option<string>): (r: Outcome<string>)
    ensures r.Ok? && r.value != [] ==> r.value[0] == '[' && r.value[|r.value| - 1] == ']'
  {
    ArraySpan(Cleaned(text))
  }

  /** The extraction fails, with `ValueError`'s message, exactly when the cleaned answer
      lacks an opening or a closing bracket. */
  lemma PayloadFailsIffBracketMissing(text: Option<string>)
    ensures var t := Cleaned(text);
      (ExtractJsonPayload(text).Failed? <==> '[' !in t || ']' !in t) &&
      (ExtractJsonPayload(text).Failed? ==> ExtractJsonPayload(text).message == NoArray)
  {
    var t := Cleaned(text);
    assert ExtractJsonPayload(text) == ArraySpan(t);
  }

  /** An array payload is its own span. */
  lemma ArraySpanOfArray(p: string)
    requires p != [] && p[0] == '[' && p[|p| - 1] == ']'
    ensures ArraySpan(p) == Ok(p)
  {
    assert Find(p, '[') == 0;
    assert RFind(p, ']') == |p| - 1;
    assert p[0..|p|] == p;
  }

  /** The last index of `c` in `a + b`, when `b` holds one, is found in `b`. */
  lemma {:induction false} RFindConcat(a: string, b: string, c: char)
    requires c in b
    ensures RFind(a + b, c) == |a| + RFind(b, c)
    decreases |b|
  {
    var s := a + b;
    if b[|b| - 1] != c {
      var b' := b[..|b| - 1];
      assert c in b' by {
        var k :| 0 <= k < |b| && b[k] == c;
        assert b'[k] == c;
      }
      assert s[..|s| - 1] == a + b';
      RFindConcat(a, b', c);
    }
  }

  /** A string whose two ends are not whitespace is left alone by `strip()`. */
  lemma TrimUnpadded(s: string)
    requires s != [] && s[0] !in Whitespace && s[|s| - 1] !in Whitespace
    ensures Trim(s) == s
  {
    StripPadded("", s, "", Whitespace);
    assert "" + s + "" == s;
  }

  /** Lower-casing a string lower-cases its prefixes. */
  lemma LowerPrefix(s: string, n: nat)
    requires n <= |s|
    ensures Lower(s)[..n] == Lower(s[..n])
  {
  }

  /** The steps of the cleaning of a fenced answer, taken one at a time. */
  lemma CleanedFencedSteps(text: string, u: string, p: string)
    requires Trim(text) == text && StartsWith(text, Fence)
    requires Strip(text, {'`'}) == u
    requires |u| >= 4 && StartsWith(Lower(u), "json") && Trim(u[4..]) == p
    ensures Cleaned(Some(text)) == p
  {
  }

  /** The outer layer of a fenced answer: `strip()` leaves it, it starts with the fence,
      and stripping backticks leaves the tagged body. */
  lemma FenceLayer(tag: string, p: string)
    requires |tag| == 4 && Lower(tag) == "json"
    requires p != []
    ensures var text := Fence + (tag + "\n" + p + "\n") + Fence;
      Trim(text) == text && StartsWith(text, Fence) && Strip(text, {'`'}) == tag + "\n" + p + "\n"
  {
    var core := tag + "\n" + p + "\n";
    var text := Fence + core + Fence;
    TrimUnpadded(text);
    assert text[..3] == Fence;
    assert Lower(tag)[0] == LowerChar(tag[0]);
    StripPadded(Fence, core, Fence, {'`'});
  }

  /** The inner layer: the tag reads "json" once lower-cased, and what follows it strips
      down to the array. */
  lemma TagLayer(tag: string, p: string)
    requires |tag| == 4 && Lower(tag) == "json"
    requires p != [] && p[0] !in Whitespace && p[|p| - 1] !in Whitespace
    ensures var core := tag + "\n" + p + "\n";
      StartsWith(Lower(core), "json") && Trim(core[4..]) == p
  {
    var core := tag + "\n" + p + "\n";
    assert core[..4] == tag;
    LowerPrefix(core, 4);
    assert core[4..] == "\n" + p + "\n";
    StripPadded("\n", p, "\n", Whitespace);
  }

  /** An answer fenced the way models fence code: "```", the tag, a newline, the body, a
      newline and "```". */
  function FencedAnswer(tag: string, body: string): string
  {
    Fence + (tag + "\n" + body + "\n") + Fence
  }

  /** The cleaning of a fenced answer whose tag reads "json" in any letter case leaves
      just the body. */
  lemma CleanedFenced(tag: string, p: string)
    requires |tag| == 4 && Lower(tag) == "json"
    requires p != [] && p[0] !in Whitespace && p[|p| - 1] !in Whitespace
    ensures Cleaned(Some(FencedAnswer(tag, p))) == p
  {
    var core := tag + "\n" + p + "\n";
    FenceLayer(tag, p);
    TagLayer(tag, p);
    CleanedFencedSteps(Fence + core + Fence, core, p);
  }

  /** A fenced answer, "```json" in any letter case, a newline, the array, a newline and
      the closing fence, gives back exactly the array. */
  lemma FencedAnswerRoundTrip(tag: string, p: string)
    requires |tag| == 4 && Lower(tag) == "json"
    requires p != [] && p[0] == '[' && p[|p| - 1] == ']'
    ensures ExtractJsonPayload(Some(FencedAnswer(tag, p))) == Ok(p)
  {
    CleanedFenced(tag, p);
    ArraySpanOfArray(p);
  }

  /** The span of an array with prose around it, when the prose before holds no '[' and
      the prose after no ']'. */
  lemma ArraySpanInProse(pre: string, p: string, post: string)
    requires p != [] && p[0] == '[' && p[|p| - 1] == ']'
    requires '[' !in pre && ']' !in post
    ensures ArraySpan(pre + p + post) == Ok(p)
  {
    var text := pre + p + post;
    assert text == pre + (p + post);
    FindConcat(pre, p + post, '[');
    FindConcat(p, post, '[');
    RFindConcat(pre, p, ']');
    RFindWithoutTail(pre + p, post, ']');
    assert Find(p, '[') == 0 && RFind(p, ']') == |p| - 1;
    assert text[|pre|..|pre| + |p|] == p;
  }

  /** An unfenced answer with prose around the array gives back the array, provided the
      prose before it holds no '[' and the prose after it no ']'. */
  lemma ProseAroundArray(pre: string, p: string, post: string)
    requires p != [] && p[0] == '[' && p[|p| - 1] == ']'
    requires '[' !in pre && ']' !in post
    requires pre != [] ==> pre[0] !in Whitespace && pre[0] != '`'
    requires post != [] ==> post[|post| - 1] !in Whitespace
    ensures ExtractJsonPayload(Some(pre + p + post)) == Ok(p)
  {
    var text := pre + p + post;
    assert text[0] == if pre != [] then pre[0] else p[0];
    assert text[|text| - 1] == if post != [] then post[|post| - 1] else p[|p| - 1];
    TrimUnpadded(text);
    assert !StartsWith(text, Fence);
    assert Cleaned(Some(text)) == text;
    ArraySpanInProse(pre, p, post);
  }

  lemma {:induction false} RFindWithoutTail(a: string, b: string, c: char)
    requires c in a && c !in b
    ensures RFind(a + b, c) == RFind(a, c)
    decreases |b|
  {
    if b == [] {
      assert a + b == a;
    } else {
      var b' := b[..|b| - 1];
      assert (a + b)[..|a + b| - 1] == a + b';
      RFindWithoutTail(a, b', c);
    }
  }

  /** No answer text at all is treated as the empty answer, which holds no array. */
  lemma MissingAnswerFails()
    ensures ExtractJsonPayload(None) == Failed(NoArray)
    ensures ExtractJsonPayload(Some("")) == Failed(NoArray)
  {
    assert Trim("") == "";
  }

  /** Brackets in the wrong order pass the check and give an empty payload, which
      `json.loads` then rejects. */
  lemma ReversedBracketsGiveEmptyPayload()
    ensures ExtractJsonPayload(Some("]x[")) == Ok("")
  {
    var t := "]x[";
    TrimUnpadded(t);
    assert !StartsWith(t, Fence);
    assert Find(t, '[') == 2;
    assert RFind(t, ']') == 0;
  }

  /** The request body of `POST /quiz/youtube`. */
  datatype QuizRequest = QuizRequest(url: string, specificArea: string, no: int, difficulty: string)

  /** The collaborators of the YouTube quiz route: URL validation, transcript fetching,
      the retrieval chain's answer, and `json.loads` read as a list of questions. */
  datatype VideoQuizzer = VideoQuizzer(
    isValidUrl: string -> bool,
    fetch: string -> Outcome<seq<string>>,
    answer: (seq<string>, QuizRequest) -> Outcome<string>,
    loads: string -> Outcome<seq<Question>>)

  /** `youtubeQuiz`: 400 for an invalid URL, before anything is fetched; 500 with the
      message for any later failure. The chain's answer goes to `json.loads` as it is,
      without the fence removal the PDF route applies. */
  function YoutubeQuiz(req: QuizRequest, z: VideoQuizzer): (r: Response<seq<Question>>)
    ensures !z.isValidUrl(req.url) <==> r == HttpError(400, InvalidUrl)
    ensures r.HttpError? ==> r.status == 400 || r.status == 500
    ensures r.HttpError? && r.status == 500 ==> StartsWith(r.detail, VideoQuizErrorPrefix)
    ensures r.Success? ==>
      (z.fetch(req.url).Ok? && z.answer(z.fetch(req.url).value, req).Ok? &&
       z.loads(z.answer(z.fetch(req.url).value, req).value) == Ok(r.body))
  {
    if !z.isValidUrl(req.url) then HttpError(400, InvalidUrl)
    else
      match z.fetch(req.url)
      case Failed(m) => Error500(VideoQuizErrorPrefix, m)
      case Ok(docs) =>
        match z.answer(docs, req)
        case Failed(m) => Error500(VideoQuizErrorPrefix, m)
        case Ok(raw) =>
          match z.loads(raw)
          case Failed(m) => Error500(VideoQuizErrorPrefix, m)
          case Ok(quiz) => Success(quiz)
  }

  /** A 500 answer whose detail is the prefix followed by the exception's message. */
  function Error500(prefix: string, message: string): (r: Response<seq<Question>>)
    ensures r.HttpError? && r.status == 500 && StartsWith(r.detail, prefix)
    ensures r.detail[|prefix|..] == message
  {
    assert (prefix + message)[..|prefix|] == prefix;
    HttpError(500, prefix + message)
  }

  /** The 400 answer does not depend on any collaborator but the validator. */
  lemma InvalidVideoUrlRejectedFirst(req: QuizRequest, z: VideoQuizzer, w: VideoQuizzer)
    requires !z.isValidUrl(req.url) && w.isValidUrl == z.isValidUrl
    ensures YoutubeQuiz(req, z) == YoutubeQuiz(req, w) == HttpError(400, InvalidUrl)
  {
  }

  /** A valid URL is never answered 400: every failure after validation is a 500. */
  lemma ValidVideoUrlNever400(req: QuizRequest, z: VideoQuizzer)
    requires z.isValidUrl(req.url)
    ensures YoutubeQuiz(req, z).HttpError? ==> YoutubeQuiz(req, z).status == 500
    ensures YoutubeQuiz(req, z).Success? <==>
      z.fetch(req.url).Ok? && z.answer(z.fetch(req.url).value, req).Ok? &&
      z.loads(z.answer(z.fetch(req.url).value, req).value).Ok?
  {
  }

  /** A context part `get_related_docs` returns: a string, or a dict holding an image. */
  datatype Part = TextChunk(text: string) | ImageChunk(image: ImageData)

  /** The text of a string part, as a list of zero or one strings. */
  function TextOf(part: Part): seq<string>
  {
    if part.TextChunk? then [part.text] else []
  }

  /** The image of a dict part, as a list of zero or one images. */
  function ImageOf(part: Part): seq<ImageData>
  {
    if part.ImageChunk? then [part.image] else []
  }

  /** `[part for part in context_parts if isinstance(part, str)]`. */
  function TextsOf(parts: seq<Part>): (texts: seq<string>)
    ensures |texts| <= |parts|
  {
    if parts == [] then [] else TextOf(parts[0]) + TextsOf(parts[1..])
  }

  /** `[part for part in context_parts if isinstance(part, dict)]`. */
  function ImagesOf(parts: seq<Part>): (images: seq<ImageData>)
    ensures |images| + |TextsOf(parts)| == |parts|
  {
    if parts == [] then [] else ImageOf(parts[0]) + ImagesOf(parts[1..])
  }

  /** The two filters keep the relative order: each distributes over concatenation. */
  lemma {:induction false} FiltersDistribute(a: seq<Part>, b: seq<Part>)
    ensures TextsOf(a + b) == TextsOf(a) + TextsOf(b)
    ensures ImagesOf(a + b) == ImagesOf(a) + ImagesOf(b)
    decreases |a|
  {
    if a == [] {
      assert a + b == b;
    } else {
      assert (a + b)[1..] == a[1..] + b;
      assert (a + b)[0] == a[0];
      FiltersDistribute(a[1..], b);
      assert TextOf(a[0]) + (TextsOf(a[1..]) + TextsOf(b)) == (TextOf(a[0]) + TextsOf(a[1..])) + TextsOf(b);
      assert ImageOf(a[0]) + (ImagesOf(a[1..]) + ImagesOf(b)) == (ImageOf(a[0]) + ImagesOf(a[1..])) + ImagesOf(b);
    }
  }

  /** The collaborators of the PDF quiz route: `get_related_docs` on the saved file and the
      topic, `create_quiz_prompt`, Gemini over the prompt and the images (whose `text` may
      be `None`), and `json.loads` read as a list of questions. */
  datatype PdfQuizzer = PdfQuizzer(
    related: (string, string) -> Outcome<seq<Part>>,
    prompt: (string, int, string) -> string,
    generate: (string, seq<ImageData>) -> Outcome<Option<string>>,
    loads: string -> Outcome<seq<Question>>)

  /** What the route does to the file system. */
  datatype FileOp = WriteTemp(path: string, contents: seq<bv8>) | RemoveTemp(path: string)

  /** The prompt sent with the PDF's images: the quiz prompt, then the text parts joined
      by newlines. */
  function PdfPrompt(area: string, no: int, difficulty: string, z: PdfQuizzer, parts: seq<Part>): string
  {
    z.prompt(area, no, difficulty) + Join(TextsOf(parts), "\n")
  }

  /** The answer of the PDF route before its `finally` clause: the prompt with the text
      parts joined by newlines, the images after it, the payload extraction and the
      parse; any failure is a 500. */
  function PdfAnswer(path: string, area: string, no: int, difficulty: string, z: PdfQuizzer): (r: Response<seq<Question>>)
    ensures r.HttpError? ==> r.status == 500 && StartsWith(r.detail, PdfQuizErrorPrefix)
    ensures r.Success? ==>
      && z.related(path, area).Ok?
      && var parts := z.related(path, area).value;
         var text := z.generate(PdfPrompt(area, no, difficulty, z, parts), ImagesOf(parts));
         && text.Ok?
         && ExtractJsonPayload(text.value).Ok?
         && z.loads(ExtractJsonPayload(text.value).value) == Ok(r.body)
  {
    match z.related(path, area)
    case Failed(m) => Error500(PdfQuizErrorPrefix, m)
    case Ok(parts) =>
      match z.generate(PdfPrompt(area, no, difficulty, z, parts), ImagesOf(parts))
      case Failed(m) => Error500(PdfQuizErrorPrefix, m)
      case Ok(text) =>
        match ExtractJsonPayload(text)
        case Failed(m) => Error500(PdfQuizErrorPrefix, m)
        case Ok(payload) =>
          match z.loads(payload)
          case Failed(m) => Error500(PdfQuizErrorPrefix, m)
          case Ok(quiz) => Success(quiz)
  }

  /** `pdfQuiz`: saves the upload to a temporary file, answers from it, and in every case
      then tries to remove the file. An error while removing is caught and dropped, so
      whether the removal worked cannot show in the answer and is not an input here. */
  function PdfQuiz(contents: seq<bv8>, area: string, no: int, difficulty: string, z: PdfQuizzer,
                   tmpPath: string): (r: (Response<seq<Question>>, seq<FileOp>))
    ensures r.0 == PdfAnswer(tmpPath, area, no, difficulty, z)
    ensures |r.1| == 2 && r.1[0] == WriteTemp(tmpPath, contents) && r.1[|r.1| - 1] == RemoveTemp(tmpPath)
    ensures r.0.HttpError? ==> r.0.status == 500
  {
    var answer := PdfAnswer(tmpPath, area, no, difficulty, z);
    (answer, [WriteTemp(tmpPath, contents), RemoveTemp(tmpPath)])
  }

  /** The PDF answer succeeds exactly when every step does, and otherwise its detail
      carries the message of the first step that failed. */
  lemma PdfAnswerSteps(path: string, area: string, no: int, difficulty: string, z: PdfQuizzer)
    ensures var r := PdfAnswer(path, area, no, difficulty, z);
      z.related(path, area).Failed? ==> r == Error500(PdfQuizErrorPrefix, z.related(path, area).message)
    ensures var r := PdfAnswer(path, area, no, difficulty, z);
      z.related(path, area).Ok? ==>
      var parts := z.related(path, area).value;
      var text := z.generate(PdfPrompt(area, no, difficulty, z, parts), ImagesOf(parts));
      && (text.Failed? ==> r == Error500(PdfQuizErrorPrefix, text.message))
      && (text.Ok? && ExtractJsonPayload(text.value).Failed? ==>
            r == Error500(PdfQuizErrorPrefix, ExtractJsonPayload(text.value).message))
      && (text.Ok? && ExtractJsonPayload(text.value).Ok? ==>
            var quiz := z.loads(ExtractJsonPayload(text.value).value);
            && (quiz.Failed? ==> r == Error500(PdfQuizErrorPrefix, quiz.message))
            && (quiz.Ok? ==> r == Success(quiz.value)))
  {
  }

  /** A model that fences its array, "```json" and all, still yields the quiz when the
      array parses. */
  lemma FencedPdfAnswerAccepted(path: string, area: string, no: int, difficulty: string, z: PdfQuizzer, p: string, quiz: seq<Question>)
    requires p != [] && p[0] == '[' && p[|p| - 1] == ']'
    requires z.related(path, area).Ok?
    requires var parts := z.related(path, area).value;
      z.generate(PdfPrompt(area, no, difficulty, z, parts), ImagesOf(parts)) == Ok(Some(FencedAnswer("json", p)))
    requires z.loads(p) == Ok(quiz)
    ensures PdfAnswer(path, area, no, difficulty, z) == Success(quiz)
  {
    assert Lower("json") == "json";
    FencedAnswerRoundTrip("json", p);
  }
}
