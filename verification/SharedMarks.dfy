/** What comes of lines that share a list of spans. */
module SharedMarks {
  import opened ChunkStore
  import opened Text
  import opened Marks
  import opened Coverage
  import opened SpanLists
  import Editor

  /** When several lines are inserted in the middle of a marker, their inner lines share a list. */
  lemma InnerLinesShare(s': seq<Stored>, lists: Lists, s: seq<Stored>, lists0: Lists, from: Pos, to: Pos,
                        newText: seq<string>, m: nat, r: Range, i: nat, j: nat)
    requires Editor.Redrawn(s', lists, s, lists0, from, to, newText) && Marked(LookOf(s, lists0), m, Some(r))
    requires Less(r.start, from) && Less(to, r.end) && from.line < i < j < from.line + |newText| - 1
    ensures j < |s'| && Share(s', i, j)
  {
    var v', r' := LookOf(s', lists), Moved(Some(r), from, to, NewEnd(from, newText));
    MarkStays(v', LookOf(s, lists0), from, to, newText, m, Some(r));
    StaysAcross(m, r, from, to, NewEnd(from, newText), i);
    OwnedShare(s', from.line, |newText|, i, j);
    assert Of(v'[i].spans, m) == Piece(m, r', i);
  }

  /** `MarkMoves` for an edit of the editor */
  lemma MarkStays(v': seq<Look>, v: seq<Look>, from: Pos, to: Pos, newText: seq<string>, m: nat, r: Option<Range>)
    requires Editor.IsEdited(v', v, from, to, newText) && Marked(v, m, r)
    ensures |newText| >= 1 && Marked(v', m, Moved(r, from, to, NewEnd(from, newText)))
  {
    MarkMoves(v, from, to, newText, m, r);
  }

  lemma StaysAcross(m: nat, r: Range, from: Pos, to: Pos, end: Pos, i: int)
    requires Less(r.start, from) && Less(to, r.end) && from.line < i < end.line && !Less(to, from)
    ensures var r' := Moved(Some(r), from, to, end); Proper(r') ==> Piece(m, r', i) != []
  {
  }

  lemma OwnedShare(s: seq<Stored>, a: int, n: nat, i: nat, j: nat)
    requires OwnLists(s, a, n) && a < i < j < a + n - 1
    ensures j < |s| && s[i].spans == s[j].spans
  {
    var block := s[a..a + n];
    assert block[i - a] == s[i] && block[j - a] == s[j];
  }

  /** So a marker that is then made on one of them does not cover exactly its range. */
  lemma InnerMarkSpreads(s: seq<Stored>, v: seq<Look>, v': seq<Look>, m: nat, r: Range, i: nat, j: nat)
    requires IsPushed(v', v, s, m, r) && Marked(v, m, None) && i < |s| && j < |s| && i != j && Share(s, i, j)
    requires r.start.line <= i <= r.end.line
    ensures !Marked(v', m, Some(r)) && (!(r.start.line <= j <= r.end.line) ==>
      v'[j] != v[j] && !SharedWithin(s, r.start.line, r.end.line))
  {
    MarkedIfUnshared(v', v, s, m, r);
    if !(r.start.line <= j <= r.end.line) { OthersStay(v', v, s, m, r, j); }
  }

  // ----- an example -----

  /** The lines after an edit */
  lemma EditedTexts(v': seq<Look>, v: seq<Look>, from: Pos, to: Pos, newText: seq<string>)
    requires Editor.IsEdited(v', v, from, to, newText)
    ensures 0 <= from.line <= to.line < |v| && 0 <= from.ch <= |v[from.line].text| &&
      0 <= to.ch <= |v[to.line].text| && |newText| >= 1
    ensures Texts(v') == Texts(v)[..from.line] +
      SewText(v[from.line].text[..from.ch], newText, v[to.line].text[to.ch..]) + Texts(v)[to.line + 1..]
  {
    var ls := Updated(v[from.line].spans, v[to.line].spans, from.ch, to.ch, newText);
    assert Texts(ls) == newText;
    RangeTexts(v, from, to, ls);
    SewnText(v[from.line].text[..from.ch], ls, v[to.line].text[to.ch..]);
  }

  /** In an editor the text ab is entered and marked. */
  method MarkedText() returns (e: Editor.Editor)
    ensures e.Valid() && e.Tracked() && fresh(e) && fresh(e.history) && fresh(e.doc) && fresh(e.doc.chunks) &&
      fresh(e.doc.lines)
    ensures Texts(e.Looks()) == ["ab"] && Marked(e.Looks(), 0, Some(Range(Pos(0, 0), Pos(0, 2)))) &&
      Marked(e.Looks(), 1, None)
  {
    e := EnteredText();
    ghost var s, v := e.text, e.Looks();
    e.MarkText(Pos(0, 0), Pos(0, 2), 0);
    OnlyLine(s, e.Looks(), v);
  }

  method EnteredText() returns (e: Editor.Editor)
    ensures e.Valid() && e.Tracked() && fresh(e) && fresh(e.history) && fresh(e.doc) && fresh(e.doc.chunks) &&
      fresh(e.doc.lines)
    ensures Texts(e.Looks()) == ["ab"] && Marked(e.Looks(), 0, None) && Marked(e.Looks(), 1, None)
    ensures ValidRange(e.text, Pos(0, 0), Pos(0, 2))
  {
    e := new Editor.Editor(100);
    ghost var v := e.Looks();
    e.UpdateLines(Pos(0, 0), Pos(0, 0), ["ab"], 0);
    FirstText(e.Looks(), v);
    assert Texts(e.text) == Texts(e.Looks());
  }

  lemma FirstText(v': seq<Look>, v: seq<Look>)
    requires v == [HL("", [])] && Editor.IsEdited(v', v, Pos(0, 0), Pos(0, 0), ["ab"])
    ensures Texts(v') == ["ab"] && Marked(v', 0, None) && Marked(v', 1, None)
  {
    EditedTexts(v', v, Pos(0, 0), Pos(0, 0), ["ab"]);
    assert Texts(v)[..0] == [] && Texts(v)[1..] == [] && "" + "ab" + "" == "ab";
    MarkStays(v', v, Pos(0, 0), Pos(0, 0), ["ab"], 0, None);
    MarkStays(v', v, Pos(0, 0), Pos(0, 0), ["ab"], 1, None);
  }

  lemma OnlyLine(s: seq<Stored>, v': seq<Look>, v: seq<Look>)
    requires |s| == |v| == 1 && IsPushed(v', v, s, 0, Range(Pos(0, 0), Pos(0, 2))) && Marked(v, 1, None)
    ensures Unshared(s, 0, 0) && SharedWithin(s, 0, 0) && Texts(v') == Texts(v) && Marked(v', 1, None)
  {
    PushedAt(v', v, s, 0, Range(Pos(0, 0), Pos(0, 2)), 0);
    OtherMarkersStay(v', v, s, 0, Range(Pos(0, 0), Pos(0, 2)), 1, None);
  }

  /** Then four lines are inserted between the two letters. */
  method InsertedLines() returns (e: Editor.Editor)
    ensures e.Valid() && e.Tracked() && fresh(e) && fresh(e.doc.lines)
    ensures Texts(e.Looks()) == ["ax", "abcd", "efgh", "wb"] && Marked(e.Looks(), 1, None) && |e.text| == 4 &&
      Share(e.text, 1, 2)
    ensures Texts(e.text) == ["ax", "abcd", "efgh", "wb"] && fresh(e.history) && fresh(e.doc) && fresh(e.doc.chunks)
  {
    e := MarkedText();
    ghost var s, lists, v := e.text, e.lists, e.Looks();
    assert Texts(s) == Texts(v) && s[0].text == Texts(s)[0] == "ab";
    e.UpdateLines(Pos(0, 1), Pos(0, 1), ["x", "abcd", "efgh", "w"], 0);
    MoreText(e.Looks(), v);
    InnerLinesShare(e.text, e.lists, s, lists, Pos(0, 1), Pos(0, 1), ["x", "abcd", "efgh", "w"], 0,
      Range(Pos(0, 0), Pos(0, 2)), 1, 2);
    assert Texts(e.text) == Texts(e.Looks());
  }

  lemma MoreText(v': seq<Look>, v: seq<Look>)
    requires Texts(v) == ["ab"] && Marked(v, 1, None) &&
      Editor.IsEdited(v', v, Pos(0, 1), Pos(0, 1), ["x", "abcd", "efgh", "w"])
    ensures Texts(v') == ["ax", "abcd", "efgh", "wb"] && Marked(v', 1, None)
  {
    EditedTexts(v', v, Pos(0, 1), Pos(0, 1), ["x", "abcd", "efgh", "w"]);
    assert v[0].text == Texts(v)[0];
    assert Texts(v)[..0] == [] && Texts(v)[1..] == [] && "ab"[..1] == "a" && "ab"[1..] == "b";
    assert ["x", "abcd", "efgh", "w"][1..3] == ["abcd", "efgh"] && "a" + "x" == "ax" && "w" + "b" == "wb";
    assert SewText("a", ["x", "abcd", "efgh", "w"], "b") == ["ax", "abcd", "efgh", "wb"];
    MarkStays(v', v, Pos(0, 1), Pos(0, 1), ["x", "abcd", "efgh", "w"], 1, None);
  }

  /**
   A marker on the second line only appears on the third line as well, and the log of changes does not mention that
   line.
   */
  method MarkOnInsertedLine() returns (e: Editor.Editor)
    ensures e.Valid() && Texts(e.Looks()) == ["ax", "abcd", "efgh", "wb"] && ValidPos(e.Looks(), Pos(2, 0)) &&
      Covered(e.Looks(), 1, Pos(2, 0))
    ensures !Marked(e.Looks(), 1, Some(Range(Pos(1, 0), Pos(1, 1)))) && !e.Tracked()
  {
    e := InsertedLines();
    ghost var s, v := e.text, e.Looks();
    FourLines(s);
    e.MarkText(Pos(1, 0), Pos(1, 1), 1);
    InnerMarkSpreads(s, v, e.Looks(), 1, Range(Pos(1, 0), Pos(1, 1)), 1, 2);
    ThirdLine(s, e.Looks(), v);
  }

  lemma FourLines<S>(s: seq<HL<S>>)
    requires Texts(s) == ["ax", "abcd", "efgh", "wb"]
    ensures |s| == 4 && s[0].text == "ax" && s[1].text == "abcd" && s[2].text == "efgh" && s[3].text == "wb"
  {
    assert Texts(s)[0] == s[0].text && Texts(s)[1] == s[1].text && Texts(s)[2] == s[2].text && Texts(s)[3] == s[3].text;
  }

  lemma ThirdLine(s: seq<Stored>, v': seq<Look>, v: seq<Look>)
    requires IsPushed(v', v, s, 1, Range(Pos(1, 0), Pos(1, 1))) && |s| == 4 && Share(s, 1, 2)
    requires Texts(v) == ["ax", "abcd", "efgh", "wb"]
    ensures Texts(v') == Texts(v) && ValidPos(v', Pos(2, 0)) && Covered(v', 1, Pos(2, 0))
  {
    var r := Range(Pos(1, 0), Pos(1, 1));
    forall i: nat | i < 4 ensures v'[i].text == v[i].text { PushedAt(v', v, s, 1, r, i); }
    PushedAt(v', v, s, 1, r, 2);
    assert v[2].text == Texts(v)[2] == "efgh";
    assert Pushes(s, 1, r, 2, 2) == [Span(1, Some(0), Some(1))];
    OfPushes(s, 1, r, 2, 2, v[2].spans, 1);
    var o := Of(v'[2].spans, 1);
    assert o[|o| - 1] == Span(1, Some(0), Some(1)) && Covers(o[|o| - 1], 0);
  }

  // ----- edits of lines that share their spans -----

  /** Of the spans of the new marker the second and the third line both have all. */
  lemma SpansOfBoth(v': seq<Look>, v: seq<Look>, s: seq<Stored>, r: Range, i: nat)
    requires IsPushed(v', v, s, 1, r) && Marked(v, 1, None) && |s| == 4 && Share(s, 1, 2) && 1 <= i <= 2
    requires 1 <= r.start.line <= r.end.line <= 2
    ensures |v'| == 4 && v'[i].text == v[i].text && Proper(Some(r)) &&
      Of(v'[i].spans, 1) == Piece(1, Some(r), 1) + Piece(1, Some(r), 2)
  {
    PushedAt(v', v, s, 1, r, i);
    OfPushes(s, 1, r, i, r.end.line + 1, v[i].spans, 1);
    assert Of(v[i].spans, 1) == Piece(1, None, i) == [];
    PushesToBoth(s, r, i);
    AddEmpty(Pushes(s, 1, r, i, r.end.line + 1));
  }

  lemma PushesToBoth(s: seq<Stored>, r: Range, i: nat)
    requires |s| == 4 && Share(s, 1, 2) && 1 <= i <= 2 && Proper(Some(r)) && 1 <= r.start.line <= r.end.line <= 2
    ensures Pushes(s, 1, r, i, r.end.line + 1) == Piece(1, Some(r), 1) + Piece(1, Some(r), 2)
  {
    var a, b := r.start.line, r.end.line;
    assert Pushes(s, 1, r, i, a) == [];
    assert Pushes(s, 1, r, i, a + 1) == Piece(1, Some(r), a);
    if b > a { assert Pushes(s, 1, r, i, b + 1) == Pushes(s, 1, r, i, b) + Piece(1, Some(r), b); }
  }

  /** The lines that share their list are marked. */
  method MarkOnBoth(from: Pos, to: Pos) returns (e: Editor.Editor, ghost v: seq<Look>, ghost s: seq<Stored>)
    requires 1 <= from.line <= to.line <= 2 && 0 <= from.ch <= 4 && 0 <= to.ch <= 4 && !Less(to, from)
    ensures e.Valid() && fresh(e) && fresh(e.history) && fresh(e.doc) && fresh(e.doc.chunks) && fresh(e.doc.lines)
    ensures IsPushed(e.Looks(), v, s, 1, Range(from, to)) && Marked(v, 1, None) && |s| == 4 && Share(s, 1, 2)
    ensures Texts(v) == ["ax", "abcd", "efgh", "wb"] && Texts(e.text) == Texts(e.Looks())
  {
    e := InsertedLines();
    s, v := e.text, e.Looks();
    FourLines(s);
    assert ValidPos(s, from) && ValidPos(s, to);
    e.MarkText(from, to, 1);
  }

  /**
   A marker from the last character of the second line to the first of the third. Then a character is typed at the
   beginning of the second line, and the marker covers two characters more of that line.
   */
  method JoinedToWrongSpan() returns (e: Editor.Editor, ghost v: seq<Look>)
    ensures e.Valid() && Editor.IsEdited(e.Looks(), v, Pos(1, 0), Pos(1, 0), ["x"])
    ensures Texts(v) == ["ax", "abcd", "efgh", "wb"] && ValidPos(v, Pos(1, 1)) && ValidPos(e.Looks(), Pos(1, 2))
    ensures !Covered(v, 1, Pos(1, 1)) && Covered(e.Looks(), 1, Pos(1, 2))
  {
    ghost var v0, s;
    e, v0, s := MarkOnBoth(Pos(1, 3), Pos(2, 1));
    v := e.Looks();
    BothSpans(v, v0, s);
    FourLines(v);
    e.UpdateLines(Pos(1, 0), Pos(1, 0), ["x"], 0);
    WrongSpan(v);
  }

  lemma BothSpans(v': seq<Look>, v: seq<Look>, s: seq<Stored>)
    requires IsPushed(v', v, s, 1, Range(Pos(1, 3), Pos(2, 1))) && Marked(v, 1, None) && |s| == 4 && Share(s, 1, 2)
    requires Texts(v) == ["ax", "abcd", "efgh", "wb"]
    ensures Texts(v') == Texts(v) && Of(v'[1].spans, 1) == [Span(1, Some(3), None), Span(1, None, Some(1))]
  {
    var r := Range(Pos(1, 3), Pos(2, 1));
    forall i: nat | i < 4 ensures v'[i].text == v[i].text { PushedAt(v', v, s, 1, r, i); }
    SpansOfBoth(v', v, s, r, 1);
  }

  lemma WrongSpan(v: seq<Look>)
    requires Texts(v) == ["ax", "abcd", "efgh", "wb"]
    requires Of(v[1].spans, 1) == [Span(1, Some(3), None), Span(1, None, Some(1))]
    ensures ValidRange(v, Pos(1, 0), Pos(1, 0)) && ValidPos(v, Pos(1, 1)) && !Covered(v, 1, Pos(1, 1))
    ensures var v' := Edited(v, Pos(1, 0), Pos(1, 0), ["x"]); ValidPos(v', Pos(1, 2)) && Covered(v', 1, Pos(1, 2))
  {
    FourLines(v);
    WrongSpanFirst(Of(v[1].spans, 1));
    BadlyJoined(v, Pos(1, 0), Pos(1, 0), "x", 1, Pos(1, 1), Pos(1, 2));
  }

  /** The coverage of a character behind the range changes if the spans are not joined well. */
  lemma BadlyJoined(doc: seq<Look>, from: Pos, to: Pos, text: string, m: nat, p: Pos, q: Pos)
    requires ValidRange(doc, from, to) && ValidPos(doc, p) && p.line == to.line && !Less(p, to)
    requires q == Pos(from.line, p.ch - to.ch + |text| + from.ch)
    requires !WellJoined(Of(doc[from.line].spans, m), Of(doc[to.line].spans, m), from.ch, to.ch, p.ch)
    ensures var doc' := Edited(doc, from, to, [text]);
            ValidPos(doc', q) && (Covered(doc', m, q) <==> !Covered(doc, m, p))
  {
    CoverageSurvives(doc, from, to, [text], m, p);
    assert q == Shift(p, to, NewEnd(from, [text]));
  }

  lemma WrongSpanFirst(l: seq<Span>)
    requires l == [Span(1, Some(3), None), Span(1, None, Some(1))]
    ensures !SomeCovers(l, 1) && !WellJoined(l, l, 0, 0, 1)
  {
    var a, b := Span(1, Some(3), None), Span(1, None, Some(1));
    assert |l| == 2 && l[0] == a && l[1] == b && l[..1] == [a];
    OnlyPast(l[..1], 0);
    assert FirstPast(l, 0) == Some(a);
    assert b in l && Reaches(l, 0, 0) && !Reaches(l, 0, 1) && !Begins(l, 0, 1);
  }

  /**
   A marker within the second line, which the third line gets as well. Then the text from the end of the marker to
   the third character of the third line is deleted, and that character, which is joined to the second line, is not
   covered any more.
   */
  method CutBetweenCopies() returns (e: Editor.Editor, ghost v: seq<Look>)
    ensures e.Valid() && Editor.IsEdited(e.Looks(), v, Pos(1, 3), Pos(2, 2), [""])
    ensures Texts(v) == ["ax", "abcd", "efgh", "wb"] && ValidPos(v, Pos(2, 2)) && ValidPos(e.Looks(), Pos(1, 3))
    ensures Covered(v, 1, Pos(2, 2)) && !Covered(e.Looks(), 1, Pos(1, 3))
  {
    ghost var v0, s;
    e, v0, s := MarkOnBoth(Pos(1, 1), Pos(1, 3));
    v := e.Looks();
    SpanOnBoth(v, v0, s);
    FourLines(v);
    e.UpdateLines(Pos(1, 3), Pos(2, 2), [""], 0);
    LostContinuation(v);
  }

  lemma SpanOnBoth(v': seq<Look>, v: seq<Look>, s: seq<Stored>)
    requires IsPushed(v', v, s, 1, Range(Pos(1, 1), Pos(1, 3))) && Marked(v, 1, None) && |s| == 4 && Share(s, 1, 2)
    requires Texts(v) == ["ax", "abcd", "efgh", "wb"]
    ensures Texts(v') == Texts(v) && Of(v'[1].spans, 1) == Of(v'[2].spans, 1) == [Span(1, Some(1), Some(3))]
  {
    var r := Range(Pos(1, 1), Pos(1, 3));
    forall i: nat | i < 4 ensures v'[i].text == v[i].text { PushedAt(v', v, s, 1, r, i); }
    SpansOfBoth(v', v, s, r, 1);
    SpansOfBoth(v', v, s, r, 2);
  }

  lemma LostContinuation(v: seq<Look>)
    requires Texts(v) == ["ax", "abcd", "efgh", "wb"]
    requires Of(v[1].spans, 1) == Of(v[2].spans, 1) == [Span(1, Some(1), Some(3))]
    ensures ValidRange(v, Pos(1, 3), Pos(2, 2)) && ValidPos(v, Pos(2, 2)) && Covered(v, 1, Pos(2, 2))
    ensures var v' := Edited(v, Pos(1, 3), Pos(2, 2), [""]); ValidPos(v', Pos(1, 3)) && !Covered(v', 1, Pos(1, 3))
  {
    FourLines(v);
    var l := [Span(1, Some(1), Some(3))];
    assert l[0] in l;
    OnlyPast(l, 2);
    assert SomeStarts(l, 3) && Reaches(l, 2, 2) && Covers(l[0], 2);
    assert !Begins(l, 2, 2) && !GoesOn(l, l, 3, 2, 2);
    BadlyJoined(v, Pos(1, 3), Pos(2, 2), "", 1, Pos(2, 2), Pos(1, 3));
  }
}
