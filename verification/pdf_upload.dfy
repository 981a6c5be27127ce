/** The PDF drop zone: a picked or dropped file is kept only when the browser reports the
    PDF MIME type (`Frontend/src/components/upload/PDFUpload.jsx`). */
module PdfUpload {
  import opened Common
  import opened AppState

  const PdfMime: string := "application/pdf"
  const NotPdfAlert: string := "Please upload a PDF file"

  predicate IsPdf(f: File)
  {
    f.mimeType == PdfMime
  }

  /** `handleFileUpload`: `picked` is `event.target.files[0]`, `None` when the picker
      returned nothing. A PDF replaces the held file; anything else alerts and keeps it. */
  function HandleFileUpload(s: State, picked: Option<File>): (r: (State, Effect))
    ensures picked.Some? && IsPdf(picked.value) ==> r.0 == s.(file := picked) && r.1 == NoEffect
    ensures !(picked.Some? && IsPdf(picked.value)) ==> r.0 == s && r.1 == Alert(NotPdfAlert)
  {
    if picked.Some? && picked.value.mimeType == PdfMime then (s.(file := picked), NoEffect)
    else (s, Alert("Please upload a PDF file"))
  }

  /** `handleDrop`: the same rule without the alert. */
  function HandleDrop(s: State, dropped: Option<File>): (r: State)
    ensures dropped.Some? && IsPdf(dropped.value) ==> r == s.(file := dropped)
    ensures !(dropped.Some? && IsPdf(dropped.value)) ==> r == s
  {
    if dropped.Some? && dropped.value.mimeType == PdfMime then s.(file := dropped) else s
  }

  /** A run of drops onto the zone, oldest first. */
  function DropAll(s: State, drops: seq<Option<File>>): State
  {
    if drops == [] then s else HandleDrop(DropAll(s, drops[..|drops| - 1]), drops[|drops| - 1])
  }

  /** The last PDF in a run of drops, if any. */
  function LastPdf(drops: seq<Option<File>>): (f: Option<File>)
    ensures f.Some? ==> IsPdf(f.value) && Some(f.value) in drops
  {
    if drops == [] then None
    else
      var d := drops[|drops| - 1];
      if d.Some? && IsPdf(d.value) then d
      else
        var f := LastPdf(drops[..|drops| - 1]);
        assert f.Some? ==> Some(f.value) in drops[..|drops| - 1];
        f
  }

  /** After a run of drops the zone holds the last PDF dropped, or what it held before
      when no PDF was dropped; nothing but the file changes. */
  lemma {:induction false} LastAcceptedWins(s: State, drops: seq<Option<File>>)
    ensures DropAll(s, drops).(file := s.file) == s
    ensures LastPdf(drops).Some? ==> DropAll(s, drops).file == LastPdf(drops)
    ensures LastPdf(drops).None? ==> DropAll(s, drops).file == s.file
  {
    if drops != [] {
      LastAcceptedWins(s, drops[..|drops| - 1]);
    }
  }

  /** Whatever is picked or dropped, a held file is always a PDF if it was one before. */
  lemma HeldFileStaysPdf(s: State, picked: Option<File>)
    requires s.file.Some? ==> IsPdf(s.file.value)
    ensures HandleFileUpload(s, picked).0.file.Some? ==> IsPdf(HandleFileUpload(s, picked).0.file.value)
    ensures HandleDrop(s, picked).file.Some? ==> IsPdf(HandleDrop(s, picked).file.value)
  {
  }
}
