/** A line as it is shown: highlighted, and then put together with its marks. */
module LineContent {
  import opened Text
  import opened Sparql
  import MarkSweep
  import Editor
  import SpanLists

  /** `lineContent`, for a line that has not been highlighted before */
  method LineContent(text: string, marked: seq<Span>, mode: SparqlMode) returns (fs: seq<MarkSweep.Fragment<Style>>)
    requires mode.Valid() && Forward(marked)
    modifies mode
    ensures mode.Valid()
    ensures text == "" ==> fs == [MarkSweep.Fragment(" ", Plain, [])]
    ensures text != "" ==>
      MarkSweep.FragmentText(fs) == text && MarkSweep.FragmentStyles(fs) == LineStyles(text, 0, old(mode.quote))
    ensures text != "" ==> forall p :: 0 <= p < |text| ==> MarkSweep.Exact(MarkSweep.FragmentMarks(fs)[p], marked, p)
  {
    var styles := Highlight(text, mode);
    fs := MarkSweep.GetContent(text, styles, marked, Plain);
  }

  /** Line `n` of an editor: it shows its text, and every character has the marks that cover it. */
  method EditorLine(e: Editor.Editor, n: nat, mode: SparqlMode) returns (fs: seq<MarkSweep.Fragment<Style>>)
    requires e.Valid() && n < |e.text| && mode.Valid()
    modifies mode
    ensures mode.Valid() && e.Valid() && e.Looks() == old(e.Looks())
    ensures var l := e.Looks()[n];
            if l.text == "" then fs == [MarkSweep.Fragment(" ", Plain, [])]
            else
              MarkSweep.FragmentText(fs) == l.text &&
              MarkSweep.FragmentStyles(fs) == LineStyles(l.text, 0, old(mode.quote)) &&
              forall p :: 0 <= p < |l.text| ==> MarkSweep.Exact(MarkSweep.FragmentMarks(fs)[p], l.spans, p)
  {
    assert e.Whole();
    var line := Editor.GetLine(e.doc, n, e.doc.Contents(), e.text);
    fs := LineContent(line.text, SpanLists.SpansOf(line.spans, e.lists), mode);
  }
}
