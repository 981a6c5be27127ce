/** The summary routes of `Backend/routes/summarizeRoutes.py`: the YouTube route's error
    mapping and the fixed PDF stub. URL validation (`validators.url`), transcript fetching
    (`get_youtube_content`) and the "refine" summarize chain are parameters. */
module SummarizeRoutes {
  import opened Common

  /** The collaborators of `POST /summary/youtube`: the URL validator, the transcript
      fetcher returning page contents, and the refine chain over them. */
  datatype VideoSummarizer = VideoSummarizer(
    isValidUrl: string -> bool,
    fetch: string -> Outcome<seq<string>>,
    refine: seq<string> -> Outcome<string>)

  const InvalidUrl: string := "Invalid URL"
  const VideoErrorPrefix: string := "Error summarizing video: "

  /** `summarizeYoutube`: an invalid URL is answered 400 before anything is fetched; any
      exception raised while fetching or summarising is answered 500 with its message. */
  function SummarizeYoutube(url: string, v: VideoSummarizer): (r: Response<string>)
    ensures !v.isValidUrl(url) <==> r == HttpError(400, InvalidUrl)
    ensures r.HttpError? ==> r.status == 400 || r.status == 500
    ensures r.HttpError? && r.status == 500 ==>
      |VideoErrorPrefix| <= |r.detail| && r.detail[..|VideoErrorPrefix|] == VideoErrorPrefix
    ensures r.Success? ==> v.fetch(url).Ok? && v.refine(v.fetch(url).value) == Ok(r.body)
  {
    if !v.isValidUrl(url) then HttpError(400, InvalidUrl)
    else
      match v.fetch(url)
      case Failed(m) => HttpError(500, VideoErrorPrefix + m)
      case Ok(docs) =>
        match v.refine(docs)
        case Failed(m) => HttpError(500, VideoErrorPrefix + m)
        case Ok(summary) => Success(summary)
  }

  /** The 400 answer does not depend on the fetcher or the chain: an invalid URL is
      rejected before either is reached. */
  lemma InvalidUrlRejectedBeforeFetch(url: string, v: VideoSummarizer, w: VideoSummarizer)
    requires !v.isValidUrl(url) && w.isValidUrl == v.isValidUrl
    ensures SummarizeYoutube(url, v) == SummarizeYoutube(url, w) == HttpError(400, InvalidUrl)
  {
  }

  /** For a valid URL, the route succeeds exactly when fetching and summarising both
      succeed, and otherwise answers 500 with the failing step's message. */
  lemma ValidUrlFailuresAre500(url: string, v: VideoSummarizer)
    requires v.isValidUrl(url)
    ensures SummarizeYoutube(url, v).Success? <==> v.fetch(url).Ok? && v.refine(v.fetch(url).value).Ok?
    ensures v.fetch(url).Failed? ==> SummarizeYoutube(url, v) == HttpError(500, VideoErrorPrefix + v.fetch(url).message)
    ensures v.fetch(url).Ok? && v.refine(v.fetch(url).value).Failed? ==>
      SummarizeYoutube(url, v) == HttpError(500, VideoErrorPrefix + v.refine(v.fetch(url).value).message)
  {
  }

  /** `summarizePDF`: the stub answers the same fixed summary whatever is posted. */
  function SummarizePdf(upload: Option<seq<bv8>>): (r: Response<string>)
    ensures r.Success? && r.body != []
  {
    Success("Summary Content")
  }

  lemma PdfStubIgnoresInput(a: Option<seq<bv8>>, b: Option<seq<bv8>>)
    ensures SummarizePdf(a) == SummarizePdf(b) == Success("Summary Content")
  {
  }
}
