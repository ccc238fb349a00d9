/** Building an output string piece by piece while recording the UTF-8 byte range of the marked pieces. */
module Spans {
  import opened Options
  import opened Utf8

  datatype Piece<F> = Piece(text: string, mark: Option<F>)

  /** A marked byte range of the output, end exclusive. */
  datatype Span<F> = Span(start: nat, end: nat, mark: F)

  datatype Output<F> = Output(bytes: seq<byte>, spans: seq<Span<F>>)

  function Emit<F>(out: Output<F>, piece: Piece<F>): Output<F> {
    var bytes := out.bytes + Bytes(piece.text);
    Output(bytes, if piece.mark.Some? then out.spans + [Span(|out.bytes|, |bytes|, piece.mark.value)] else out.spans)
  }

  function Texts<F>(pieces: seq<Piece<F>>): string {
    if pieces == [] then "" else Texts(pieces[..|pieces| - 1]) + pieces[|pieces| - 1].text
  }

  function Rendered<F>(pieces: seq<Piece<F>>): Output<F> {
    if pieces == [] then Output([], []) else Emit(Rendered(pieces[..|pieces| - 1]), pieces[|pieces| - 1])
  }

  /** The span covers exactly the non-empty string `cut` of `text`, from character boundary to character boundary. */
  ghost predicate Cuts<F>(text: string, span: Span<F>, cut: string) {
    && cut != ""
    && exists before, after :: Around(text, cut, before, after) && span.start == |Bytes(before)| && span.end == |Bytes(before + cut)|
  }

  ghost predicate Around(text: string, cut: string, before: string, after: string) {
    text == before + cut + after
  }

  /** In bytes: what lies inside the span is the encoding of what it cuts. */
  lemma CutBytes<F>(text: string, span: Span<F>, cut: string)
    requires Cuts(text, span, cut)
    ensures span.start < span.end <= |Bytes(text)|
    ensures Bytes(text)[span.start..span.end] == Bytes(cut)
  {
    var before, after :| Around(text, cut, before, after) && span.start == |Bytes(before)| && span.end == |Bytes(before + cut)|;
    BytesConcat(before, cut);
    BytesConcat(before + cut, after);
    BytesNonEmpty(cut);
  }

  /** What converters promise of their spans; `fits` says which text a mark may stand on. */
  ghost predicate WellPlaced<F(!new)>(out: Output<F>, text: string, fits: (F, string) -> bool) {
    && out.bytes == Bytes(text)
    && (forall i, j :: 0 <= i < j < |out.spans| ==> out.spans[i].end <= out.spans[j].start)
    && (forall k :: 0 <= k < |out.spans| ==>
          && out.spans[k].start < out.spans[k].end <= |out.bytes|
          && CutsFitting(text, out.spans[k], fits))
  }

  ghost predicate CutsFitting<F(!new)>(text: string, span: Span<F>, fits: (F, string) -> bool) {
    exists cut :: Cuts(text, span, cut) && fits(span.mark, cut)
  }

  /** A piece whose mark fits its own, non-empty text. */
  ghost predicate Fit<F>(piece: Piece<F>, fits: (F, string) -> bool) {
    piece.mark.Some? ==> piece.text != "" && fits(piece.mark.value, piece.text)
  }

  /** Text written after a span does not move it. */
  lemma CutSurvives<F(!new)>(text: string, more: string, span: Span<F>, fits: (F, string) -> bool)
    requires CutsFitting(text, span, fits)
    ensures CutsFitting(text + more, span, fits)
  {
    var cut :| Cuts(text, span, cut) && fits(span.mark, cut);
    var before, after :| Around(text, cut, before, after) && span.start == |Bytes(before)| && span.end == |Bytes(before + cut)|;
    assert Around(text + more, cut, before, after + more);
    assert Cuts(text + more, span, cut);
  }

  /** A newly written piece is cut by its own span. */
  lemma NewCut<F(!new)>(text: string, piece: string, span: Span<F>, fits: (F, string) -> bool)
    requires piece != "" && fits(span.mark, piece)
    requires span.start == |Bytes(text)| && span.end == |Bytes(text + piece)|
    ensures CutsFitting(text + piece, span, fits)
  {
    assert Around(text + piece, piece, text, "");
    assert Cuts(text + piece, span, piece);
  }

  lemma EmitWellPlaced<F(!new)>(out: Output<F>, text: string, piece: Piece<F>, fits: (F, string) -> bool)
    requires WellPlaced(out, text, fits) && Fit(piece, fits)
    ensures WellPlaced(Emit(out, piece), text + piece.text, fits)
  {
    BytesConcat(text, piece.text);
    var out' := Emit(out, piece);
    forall k | 0 <= k < |out'.spans|
      ensures out'.spans[k].start < out'.spans[k].end <= |out'.bytes|
      ensures CutsFitting(text + piece.text, out'.spans[k], fits)
    {
      if k < |out.spans| {
        CutSurvives(text, piece.text, out.spans[k], fits);
      } else {
        BytesNonEmpty(piece.text);
        NewCut(text, piece.text, out'.spans[k], fits);
      }
    }
  }

  lemma {:induction false} RenderedWellPlaced<F(!new)>(pieces: seq<Piece<F>>, fits: (F, string) -> bool)
    requires forall piece :: piece in pieces ==> Fit(piece, fits)
    ensures WellPlaced(Rendered(pieces), Texts(pieces), fits)
  {
    if pieces != [] {
      var init := pieces[..|pieces| - 1];
      RenderedWellPlaced(init, fits);
      EmitWellPlaced(Rendered(init), Texts(init), pieces[|pieces| - 1], fits);
    }
  }
}
