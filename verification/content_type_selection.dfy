/** The first wizard screen: three content sources, one click each
    (`Frontend/src/components/ContentTypeSelection.jsx`). */
module ContentTypeSelection {
  import opened AppState

  /** The offered sources, in display order. */
  const Options: seq<ContentType> := [Pdf, YouTube, WebSearch]

  /** `handleOptionSelect`: records the source and moves to the upload screen. Nothing else
      is written, so an input left over from an earlier visit stays in place. */
  function HandleOptionSelect(s: State, ct: ContentType): (r: State)
    requires ct in Options
    ensures r.step == Upload && r.contentType == ct && r.contentType != Unset
    ensures r.(step := s.step, contentType := s.contentType) == s
  {
    s.(contentType := ct, step := Upload)
  }

  /** Exactly the three sources 'pdf', 'youtube' and 'websearch' are offered, each once,
      and the empty "unset" value is not among them. */
  lemma ThreeDistinctOptions()
    ensures |Options| == 3
    ensures forall i, j :: 0 <= i < j < |Options| ==> Options[i].Id() != Options[j].Id()
    ensures Unset !in Options
    ensures forall ct: ContentType :: ct in Options <==> ct.Id() in {"pdf", "youtube", "websearch"}
  {
  }
}
