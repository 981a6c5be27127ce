/** The multimodal summarisation chain of `Backend/controllers/summarizeController.py`:
    dispatch on the chain type, the "stuff" strategy that splits documents into text and
    image parts, and the "map_reduce" strategy that groups documents into consecutive
    chunks of at most 10000 characters (or of one larger document alone), summarises
    each and numbers the sections. The two language models are parameters. */
module SummarizeController {
  import opened Common
  import opened Text

  /** The `image_data` payload of an image document. */
  datatype ImageData = ImageData(mimeType: string, data: seq<bv8>)

  /** A LangChain document as the chain reads it: the page content and the `type`,
      `page` and `image_data` metadata entries, each possibly missing. */
  datatype Doc = Doc(content: string, docType: Option<string>, page: Option<int>, imageData: Option<ImageData>)

  /** The models the chain consults. `multimodal` is Gemini given the stuff prompt built
      around the joined text parts plus the images; `reduce` is Gemini given the final
      prompt built around the combined section summaries; `fallback` is the text-only
      "stuff" summarize chain over one document. Prompt wording lives inside them. */
  datatype Engine = Engine(
    multimodal: (string, seq<ImageData>) -> Outcome<string>,
    reduce: string -> Outcome<string>,
    fallback: string -> Outcome<string>)

  /** The largest chunk, in characters, map-reduce fills before starting another. */
  const MaxChunkSize: nat := 10000

  /** `doc.metadata.get("type") == "image"`. */
  predicate IsImage(d: Doc)
  {
    d.docType == Some("image")
  }

  /** `[Page p]` when the page entry is present (page 0 included), and nothing otherwise. */
  function PageLabel(page: Option<int>): (tag: string)
    ensures tag == [] <==> page.None?
    ensures page.Some? ==> tag == "[Page " + IntToString(page.value) + "]"
  {
    match page
    case None => ""
    case Some(p) => "[Page " + IntToString(p) + "]"
  }

  /** The text part a non-image document contributes: its label, a newline, its content. */
  function TextPart(d: Doc): (part: string)
    ensures |part| == |PageLabel(d.page)| + 1 + |d.content|
    ensures part[|PageLabel(d.page)|] == '\n'
    ensures part[|PageLabel(d.page)| + 1..] == d.content
  {
    PageLabel(d.page) + "\n" + d.content
  }

  /** True when some image document has no `image_data` entry. */
  predicate MissingImageData(docs: seq<Doc>)
  {
    exists i :: 0 <= i < |docs| && IsImage(docs[i]) && docs[i].imageData.None?
  }

  /** The text parts and image parts collected so far, or the error that stopped the loop. */
  type Parts = Outcome<(seq<string>, seq<ImageData>)>

  /** One pass of the loop of `_stuff_chain`: an image document gives its `image_data`,
      any other document its text part. Reading the missing `image_data` of an image
      document raises `KeyError`. */
  function Collect(acc: Parts, d: Doc): (r: Parts)
    ensures acc.Failed? ==> r == acc
    ensures acc.Ok? && IsImage(d) && d.imageData.None? ==> r.Failed?
    ensures acc.Ok? && IsImage(d) && d.imageData.Some? ==> r == Ok((acc.value.0, acc.value.1 + [d.imageData.value]))
    ensures acc.Ok? && !IsImage(d) ==> r == Ok((acc.value.0 + [TextPart(d)], acc.value.1))
  {
    match acc
    case Failed(m) => Failed(m)
    case Ok((texts, images)) =>
      if IsImage(d) then
        if d.imageData.None? then Failed("'image_data'")
        else Ok((texts, images + [d.imageData.value]))
      else Ok((texts + [TextPart(d)], images))
  }

  /** The loop of `_stuff_chain` over all documents, in input order. */
  function Partition(docs: seq<Doc>): (r: Parts)
    ensures r.Failed? <==> MissingImageData(docs)
    ensures r.Ok? ==> |r.value.0| + |r.value.1| == |docs|
  {
    if docs == [] then Ok(([], []))
    else
      var init := docs[..|docs| - 1];
      assert forall i :: 0 <= i < |init| ==> init[i] == docs[i];
      Collect(Partition(init), docs[|docs| - 1])
  }

  /** The parts of two runs of the loop, one after the other: the first failure wins. */
  function Glue(p: Parts, q: Parts): Parts
  {
    if p.Failed? then p
    else if q.Failed? then q
    else Ok((p.value.0 + q.value.0, p.value.1 + q.value.1))
  }

  lemma CollectGlue(p: Parts, q: Parts, d: Doc)
    ensures Collect(Glue(p, q), d) == Glue(p, Collect(q, d))
  {
    if p.Ok? && q.Ok? {
      assert p.value.0 + q.value.0 + [TextPart(d)] == p.value.0 + (q.value.0 + [TextPart(d)]);
      if d.imageData.Some? {
        assert p.value.1 + q.value.1 + [d.imageData.value] == p.value.1 + (q.value.1 + [d.imageData.value]);
      }
    }
  }

  /** Partitioning distributes over concatenation: the parts of `a + b` are the parts of
      `a` followed by those of `b`, and a failure in `a` is the failure reported. */
  lemma {:induction false} PartitionConcat(a: seq<Doc>, b: seq<Doc>)
    ensures Partition(a + b) == Glue(Partition(a), Partition(b))
    decreases |b|
  {
    if b == [] {
      assert a + b == a;
      var p := Partition(a);
      if p.Ok? {
        assert p.value.0 + [] == p.value.0 && p.value.1 + [] == p.value.1;
      }
    } else {
      var b' := b[..|b| - 1];
      var x := b[|b| - 1];
      assert (a + b)[..|a + b| - 1] == a + b';
      assert (a + b)[|a + b| - 1] == x;
      PartitionConcat(a, b');
      CollectGlue(Partition(a), Partition(b'), x);
    }
  }

  /** A single document goes to exactly one of the two lists. */
  lemma PartitionSingle(d: Doc)
    ensures IsImage(d) && d.imageData.Some? ==> Partition([d]) == Ok(([], [d.imageData.value]))
    ensures IsImage(d) && d.imageData.None? ==> Partition([d]).Failed?
    ensures !IsImage(d) ==> Partition([d]) == Ok(([TextPart(d)], []))
  {
    assert [d][..0] == [];
    assert Partition([d]) == Collect(Ok(([], [])), d);
    assert [] + [TextPart(d)] == [TextPart(d)];
    if d.imageData.Some? {
      assert [] + [d.imageData.value] == [d.imageData.value];
    }
  }

  /** The page content of an image document never reaches either list: rewriting it
      leaves the parts unchanged. */
  lemma ImageContentIgnored(docs: seq<Doc>, i: nat, content: string)
    requires i < |docs| && IsImage(docs[i])
    ensures Partition(docs[i := docs[i].(content := content)]) == Partition(docs)
  {
    var d' := docs[i].(content := content);
    var docs' := docs[i := d'];
    assert docs == docs[..i] + [docs[i]] + docs[i + 1..];
    assert docs' == docs[..i] + [d'] + docs[i + 1..];
    PartitionConcat(docs[..i] + [docs[i]], docs[i + 1..]);
    PartitionConcat(docs[..i] + [d'], docs[i + 1..]);
    PartitionConcat(docs[..i], [docs[i]]);
    PartitionConcat(docs[..i], [d']);
    PartitionSingle(docs[i]);
    PartitionSingle(d');
  }

  /** `_stuff_chain`: Gemini over the prompt and the images when there are images, falling
      back to the text-only chain if Gemini fails; the text-only chain directly when there
      are none, called a second time by the exception handler if the first call fails. */
  function Stuff(docs: seq<Doc>, e: Engine): (r: Outcome<string>)
    ensures MissingImageData(docs) ==> r.Failed?
  {
    match Partition(docs)
    case Failed(m) => Failed(m)
    case Ok((texts, images)) =>
      var joined := Join(texts, "\n");
      if images != [] then
        match e.multimodal(joined, images)
        case Ok(s) => Ok(s)
        case Failed(_) => e.fallback(joined)
      else
        match e.fallback(joined)
        case Ok(s) => Ok(s)
        case Failed(_) => e.fallback(joined)
  }

  /** Without image documents the multimodal model is never consulted: the outcome is the
      text-only chain's over the joined text parts, and the retry in the handler cannot
      change it. */
  lemma TextOnlyStuff(docs: seq<Doc>, e: Engine, e': Engine)
    requires forall i :: 0 <= i < |docs| ==> !IsImage(docs[i])
    requires e'.fallback == e.fallback
    ensures Partition(docs).Ok? && Partition(docs).value.1 == []
    ensures Stuff(docs, e) == e.fallback(Join(Partition(docs).value.0, "\n"))
    ensures Stuff(docs, e) == Stuff(docs, e')
  {
    NoImagesNoImageParts(docs);
  }

  lemma {:induction false} NoImagesNoImageParts(docs: seq<Doc>)
    requires forall i :: 0 <= i < |docs| ==> !IsImage(docs[i])
    ensures Partition(docs).Ok? && Partition(docs).value.1 == []
  {
    if docs != [] {
      NoImagesNoImageParts(docs[..|docs| - 1]);
    }
  }

  /** With an image present and Gemini failing, the answer is the text-only chain's over
      the joined text parts, the images dropped. */
  lemma ImagesFallBackToText(docs: seq<Doc>, e: Engine)
    requires Partition(docs).Ok? && Partition(docs).value.1 != []
    requires e.multimodal(Join(Partition(docs).value.0, "\n"), Partition(docs).value.1).Failed?
    ensures Stuff(docs, e) == e.fallback(Join(Partition(docs).value.0, "\n"))
  {
  }

  /** With an image present and Gemini answering, the answer is Gemini's. */
  lemma ImagesUseMultimodal(docs: seq<Doc>, e: Engine)
    requires Partition(docs).Ok? && Partition(docs).value.1 != []
    requires e.multimodal(Join(Partition(docs).value.0, "\n"), Partition(docs).value.1).Ok?
    ensures Stuff(docs, e) == e.multimodal(Join(Partition(docs).value.0, "\n"), Partition(docs).value.1)
  {
  }

  /** The number of characters in a chunk, `len(doc.page_content)` summed. */
  function Size(chunk: seq<Doc>): nat
  {
    if chunk == [] then 0 else Size(chunk[..|chunk| - 1]) + |chunk[|chunk| - 1].content|
  }

  /** The documents of a list of chunks, in order. */
  function Flatten(chunks: seq<seq<Doc>>): seq<Doc>
  {
    if chunks == [] then [] else chunks[0] + Flatten(chunks[1..])
  }

  /** A chunk is within bounds when it holds one document or at most 10000 characters. */
  predicate Fits(chunk: seq<Doc>)
  {
    |chunk| == 1 || Size(chunk) <= MaxChunkSize
  }

  /** The shape every chunk the grouping loop closes has: non-empty and within bounds,
      and each closed only because the next document would have taken it past 10000
      characters. */
  predicate WellClosed(chunks: seq<seq<Doc>>)
  {
    && (forall k :: 0 <= k < |chunks| ==> chunks[k] != [] && Fits(chunks[k]))
    && (forall k :: 0 <= k < |chunks| - 1 ==> Size(chunks[k]) + |chunks[k + 1][0].content| > MaxChunkSize)
  }

  /** What the grouping loop of `_map_reduce_chain` produces: well-closed chunks that
      concatenate back to the input. */
  predicate ValidChunking(chunks: seq<seq<Doc>>, docs: seq<Doc>)
  {
    Flatten(chunks) == docs && WellClosed(chunks)
  }

  lemma {:induction false} FlattenAppend(chunks: seq<seq<Doc>>, c: seq<Doc>)
    ensures Flatten(chunks + [c]) == Flatten(chunks) + c
    decreases |chunks|
  {
    if chunks == [] {
      assert [c][1..] == [];
    } else {
      assert (chunks + [c])[1..] == chunks[1..] + [c];
      FlattenAppend(chunks[1..], c);
    }
  }

  /** Closing the open chunk and opening one with the overflowing document. */
  lemma CloseAndOpen(chunks: seq<seq<Doc>>, d: Doc)
    requires WellClosed(chunks) && chunks != []
    requires Size(chunks[|chunks| - 1]) + |d.content| > MaxChunkSize
    ensures WellClosed(chunks + [[d]])
  {
    var cs: seq<seq<Doc>> := chunks + [[d]];
    assert [d][..0] == [];
    assert Size([d]) == |d.content|;
    forall k | 0 <= k < |cs| - 1
      ensures Size(cs[k]) + |cs[k + 1][0].content| > MaxChunkSize
    {
      if k == |chunks| - 1 {
        assert cs[k + 1] == [d];
      } else {
        assert cs[k] == chunks[k] && cs[k + 1] == chunks[k + 1];
      }
    }
  }

  /** Adding a document to the open (last) chunk without passing the bound. */
  lemma GrowLast(chunks: seq<seq<Doc>>, c: seq<Doc>, d: Doc)
    requires WellClosed(chunks + [c]) && c != []
    requires Size(c) + |d.content| <= MaxChunkSize
    ensures WellClosed(chunks + [c + [d]])
  {
    var before: seq<seq<Doc>> := chunks + [c];
    var cs: seq<seq<Doc>> := chunks + [c + [d]];
    assert (c + [d])[..|c|] == c;
    assert Size(c + [d]) == Size(c) + |d.content|;
    assert (c + [d])[0] == c[0];
    forall k | 0 <= k < |cs|
      ensures cs[k] != [] && Fits(cs[k])
    {
      if k < |chunks| {
        assert cs[k] == before[k];
      }
    }
    forall k | 0 <= k < |cs| - 1
      ensures Size(cs[k]) + |cs[k + 1][0].content| > MaxChunkSize
    {
      assert cs[k] == before[k];
      if k + 1 < |chunks| {
        assert cs[k + 1] == before[k + 1];
      } else {
        assert cs[k + 1][0] == before[k + 1][0];
      }
    }
  }

  /** The grouping loop: a document joins the open chunk unless the chunk is non-empty and
      the document would take it past 10000 characters, in which case the chunk is closed
      and the document opens the next one; the last open chunk is closed at the end. */
  method GroupChunks(docs: seq<Doc>) returns (chunks: seq<seq<Doc>>)
    ensures ValidChunking(chunks, docs)
    ensures chunks == [] <==> docs == []
  {
    chunks := [];
    var current: seq<Doc> := [];
    var size: nat := 0;
    var i := 0;
    while i < |docs|
      invariant 0 <= i <= |docs|
      invariant Flatten(chunks) + current == docs[..i]
      invariant size == Size(current)
      invariant current == [] <==> i == 0
      invariant i == 0 ==> chunks == []
      invariant current != [] ==> WellClosed(chunks + [current])
    {
      var d := docs[i];
      assert docs[..i + 1] == docs[..i] + [d];
      SingleSize(d);
      if size + |d.content| > MaxChunkSize && current != [] {
        CloseStep(chunks, current, d, docs[..i]);
        chunks := chunks + [current];
        current := [d];
        size := |d.content|;
      } else if current == [] {
        current := [d];
        size := |d.content|;
      } else {
        GrowStep(chunks, current, d, docs[..i]);
        current := current + [d];
        size := size + |d.content|;
      }
      i := i + 1;
    }
    assert docs[..i] == docs;
    if current != [] {
      FlattenAppend(chunks, current);
      chunks := chunks + [current];
    }
  }

  lemma SingleSize(d: Doc)
    ensures Size([d]) == |d.content|
  {
    assert [d][..0] == [];
  }

  /** The loop's close-and-open step keeps its invariant. */
  lemma CloseStep(chunks: seq<seq<Doc>>, current: seq<Doc>, d: Doc, prefix: seq<Doc>)
    requires Flatten(chunks) + current == prefix
    requires current != [] && WellClosed(chunks + [current])
    requires Size(current) + |d.content| > MaxChunkSize
    ensures Flatten(chunks + [current]) + [d] == prefix + [d]
    ensures WellClosed(chunks + [current] + [[d]])
  {
    FlattenAppend(chunks, current);
    CloseAndOpen(chunks + [current], d);
  }

  /** The loop's grow step keeps its invariant. */
  lemma GrowStep(chunks: seq<seq<Doc>>, current: seq<Doc>, d: Doc, prefix: seq<Doc>)
    requires Flatten(chunks) + current == prefix
    requires current != [] && WellClosed(chunks + [current])
    requires Size(current) + |d.content| <= MaxChunkSize
    ensures Flatten(chunks) + (current + [d]) == prefix + [d]
    ensures WellClosed(chunks + [current + [d]])
    ensures Size(current + [d]) == Size(current) + |d.content|
  {
    GrowLast(chunks, current, d);
    assert (current + [d])[..|current|] == current;
  }

  /** Growing a chunk never shrinks its size. */
  lemma {:induction false} SizePrefix(chunk: seq<Doc>, j: nat)
    requires j < |chunk|
    ensures Size(chunk[..j + 1]) == Size(chunk[..j]) + |chunk[j].content|
    ensures Size(chunk[..j + 1]) <= Size(chunk)
    decreases |chunk| - j
  {
    assert chunk[..j + 1][..j] == chunk[..j];
    if j + 1 < |chunk| {
      SizePrefix(chunk, j + 1);
    } else {
      assert chunk[..j + 1] == chunk;
    }
  }

  /** A valid chunking of a non-empty input starts with a prefix of it, and the rest of
      the chunks validly chunk the rest of the input. */
  lemma ValidChunkingTail(chunks: seq<seq<Doc>>, docs: seq<Doc>)
    requires ValidChunking(chunks, docs) && chunks != []
    ensures |chunks[0]| <= |docs| && docs[..|chunks[0]|] == chunks[0]
    ensures ValidChunking(chunks[1..], docs[|chunks[0]|..])
  {
    assert docs == chunks[0] + Flatten(chunks[1..]);
    assert docs[|chunks[0]|..] == Flatten(chunks[1..]);
    var tail := chunks[1..];
    forall k | 0 <= k < |tail| - 1
      ensures Size(tail[k]) + |tail[k + 1][0].content| > MaxChunkSize
    {
      assert tail[k] == chunks[k + 1] && tail[k + 1] == chunks[k + 2];
    }
  }

  /** When a valid chunking's first chunk stops short of the input's end, a second chunk
      follows, starting with the document that would have overflowed the first. */
  lemma NextDocOverflows(chunks: seq<seq<Doc>>, docs: seq<Doc>)
    requires ValidChunking(chunks, docs) && chunks != [] && |chunks[0]| < |docs|
    ensures |chunks| > 1 && docs[|chunks[0]|] == chunks[1][0]
    ensures Size(chunks[0]) + |docs[|chunks[0]|].content| > MaxChunkSize
  {
    var n := |chunks[0]|;
    ValidChunkingTail(chunks, docs);
    assert docs[n..] == Flatten(chunks[1..]);
    assert chunks[1..] != [];
    assert Flatten(chunks[1..]) == chunks[1] + Flatten(chunks[2..]) by {
      assert chunks[1..][0] == chunks[1] && chunks[1..][1..] == chunks[2..];
    }
  }

  /** No valid chunking starts with a shorter first chunk than another. */
  lemma FirstChunkNotShorter(c1: seq<seq<Doc>>, c2: seq<seq<Doc>>, docs: seq<Doc>)
    requires ValidChunking(c1, docs) && ValidChunking(c2, docs) && c1 != [] && c2 != []
    ensures |c1[0]| >= |c2[0]|
  {
    ValidChunkingTail(c1, docs);
    ValidChunkingTail(c2, docs);
    var n := |c1[0]|;
    if n < |c2[0]| {
      NextDocOverflows(c1, docs);
      assert c2[0][..n] == c1[0];
      SizePrefix(c2[0], n);
      assert false;
    }
  }

  /** The first chunk is determined by the input. */
  lemma FirstChunkUnique(c1: seq<seq<Doc>>, c2: seq<seq<Doc>>, docs: seq<Doc>)
    requires ValidChunking(c1, docs) && ValidChunking(c2, docs) && c1 != [] && c2 != []
    ensures c1[0] == c2[0]
  {
    FirstChunkNotShorter(c1, c2, docs);
    FirstChunkNotShorter(c2, c1, docs);
    ValidChunkingTail(c1, docs);
    ValidChunkingTail(c2, docs);
  }

  /** Greedy grouping is the only valid chunking: any two chunkings meeting the contract
      of the grouping loop are equal, so that contract fixes its result. */
  lemma {:induction false} ChunkingUnique(c1: seq<seq<Doc>>, c2: seq<seq<Doc>>, docs: seq<Doc>)
    requires ValidChunking(c1, docs) && ValidChunking(c2, docs)
    ensures c1 == c2
    decreases |docs|
  {
    if c1 == [] || c2 == [] {
      if c1 != [] {
        ValidChunkingTail(c1, docs);
      }
      if c2 != [] {
        ValidChunkingTail(c2, docs);
      }
    } else {
      FirstChunkUnique(c1, c2, docs);
      ValidChunkingTail(c1, docs);
      ValidChunkingTail(c2, docs);
      ChunkingUnique(c1[1..], c2[1..], docs[|c1[0]|..]);
      assert c1 == [c1[0]] + c1[1..];
      assert c2 == [c2[0]] + c2[1..];
    }
  }

  /** The header of the `i`-th section, counting from 1. */
  function SectionHeader(i: nat): string
  {
    "Section " + NatToString(i + 1) + ": "
  }

  /** `"\n\n".join(f"Section {i+1}: {summary}" ...)`: one numbered section per chunk
      summary, in chunk order, separated by blank lines. */
  function Combine(summaries: seq<string>): (text: string)
    ensures summaries == [] <==> text == []
  {
    Join(Sections(summaries, 0), "\n\n")
  }

  /** The sections for `summaries`, numbered from `from + 1`. */
  function Sections(summaries: seq<string>, from: nat): (sections: seq<string>)
    ensures |sections| == |summaries|
    ensures forall i :: 0 <= i < |sections| ==> sections[i] == SectionHeader(from + i) + summaries[i]
    decreases |summaries|
  {
    if summaries == [] then []
    else [SectionHeader(from) + summaries[0]] + Sections(summaries[1..], from + 1)
  }

  /** Each section opens with "Section ", then a number that reads back as its position
      counting from 1, then ": " and the chunk's summary. */
  lemma SectionNumbersReadBack(summaries: seq<string>, i: nat)
    requires i < |summaries|
    ensures var s := Sections(summaries, 0)[i];
      exists digits :: s == "Section " + digits + ": " + summaries[i] && ParseInt(digits) == Some(i + 1)
  {
    ParseIntOfNatToString(i + 1);
    var digits := NatToString(i + 1);
    assert Sections(summaries, 0)[i] == "Section " + digits + ": " + summaries[i];
  }

  /** The chunk summaries in chunk order, stopping at the first chunk whose stuff chain
      raises. */
  function SummarizeChunks(chunks: seq<seq<Doc>>, e: Engine): (r: Outcome<seq<string>>)
    ensures r.Ok? ==> |r.value| == |chunks|
    ensures r.Ok? ==> forall k :: 0 <= k < |chunks| ==> Stuff(chunks[k], e) == Ok(r.value[k])
    ensures r.Failed? ==>
      exists k :: (0 <= k < |chunks| && Stuff(chunks[k], e) == Failed(r.message) &&
                   forall j :: 0 <= j < k ==> Stuff(chunks[j], e).Ok?)
  {
    if chunks == [] then Ok([])
    else
      match Stuff(chunks[0], e)
      case Failed(m) => Failed(m)
      case Ok(s) =>
        match SummarizeChunks(chunks[1..], e)
        case Failed(m) => Failed(m)
        case Ok(rest) => Ok([s] + rest)
  }

  /** The reduce step: Gemini over the final prompt; only when Gemini fails is the
      text-only chain asked, over the same combined sections. */
  function Reduce(summaries: seq<string>, e: Engine): (r: Outcome<string>)
    ensures var combined := Combine(summaries);
      r.Failed? <==> e.reduce(combined).Failed? && e.fallback(combined).Failed?
    ensures var combined := Combine(summaries);
      r.Ok? ==> r == e.reduce(combined) || r == e.fallback(combined)
    ensures var combined := Combine(summaries);
      e.reduce(combined).Ok? ==> r == e.reduce(combined)
    ensures var combined := Combine(summaries);
      e.reduce(combined).Failed? ==> r == e.fallback(combined)
  {
    var combined := Combine(summaries);
    match e.reduce(combined)
    case Ok(s) => Ok(s)
    case Failed(_) => e.fallback(combined)
  }

  /** `_map_reduce_chain`: groups the documents, summarises every chunk with the stuff
      strategy, and reduces the numbered sections. */
  method MapReduce(docs: seq<Doc>, e: Engine) returns (chunks: seq<seq<Doc>>, r: Outcome<string>)
    ensures ValidChunking(chunks, docs)
    ensures SummarizeChunks(chunks, e).Failed? ==> r == Failed(SummarizeChunks(chunks, e).message)
    ensures SummarizeChunks(chunks, e).Ok? ==> r == Reduce(SummarizeChunks(chunks, e).value, e)
  {
    chunks := GroupChunks(docs);
    match SummarizeChunks(chunks, e)
    case Failed(m) => r := Failed(m);
    case Ok(summaries) => r := Reduce(summaries, e);
  }

  /** `MultimodalSummarizeChain.invoke`: the two supported strategies, and `ValueError`
      for any other chain type. */
  method Invoke(chainType: string, docs: seq<Doc>, e: Engine) returns (r: Outcome<string>)
    ensures chainType == "stuff" ==> r == Stuff(docs, e)
    ensures chainType != "stuff" && chainType != "map_reduce" ==> r == Failed("Unsupported chain type: " + chainType)
    ensures chainType == "map_reduce" ==>
      (exists chunks :: ValidChunking(chunks, docs) &&
        (SummarizeChunks(chunks, e).Failed? ==> r == Failed(SummarizeChunks(chunks, e).message)) &&
        (SummarizeChunks(chunks, e).Ok? ==> r == Reduce(SummarizeChunks(chunks, e).value, e)))
  {
    if chainType == "stuff" {
      r := Stuff(docs, e);
    } else if chainType == "map_reduce" {
      var chunks;
      chunks, r := MapReduce(docs, e);
    } else {
      r := Failed("Unsupported chain type: " + chainType);
    }
  }

  /** Map-reduce over a short input is a single section: documents totalling at most
      10000 characters form one chunk, and an empty input forms none. */
  lemma SmallInputOneChunk(docs: seq<Doc>)
    requires docs != [] && Size(docs) <= MaxChunkSize
    ensures ValidChunking([docs], docs)
    ensures forall chunks :: ValidChunking(chunks, docs) ==> chunks == [docs]
  {
    assert [docs][1..] == [];
    forall chunks | ValidChunking(chunks, docs)
      ensures chunks == [docs]
    {
      ChunkingUnique(chunks, [docs], docs);
    }
  }
}
