/** Conversions between offsets in the text and positions. */
module Positions {
  import opened Text
  import opened ChunkTree
  import opened Document
  import opened TextEdit
  import Iteration
  import Lookup

  function Clamp(x: int, lo: int, hi: int): int {
    if x < lo then lo else if x > hi then hi else x
  }

  // ----- offsets -----

  /** The offset of the end is the length of the text. */
  lemma OffsetEnd(ts: seq<string>)
    requires ts != []
    ensures Offset(ts, |ts| - 1, |ts[|ts| - 1]|) == |Join(ts)|
  {
    var n := |ts| - 1;
    assert ts == ts[..n] + [ts[n]];
    JoinLength(ts[..n], ts[n]);
  }

  /** Different positions have different offsets, in the same order. */
  lemma OffsetsDiffer(ts: seq<string>, p: Pos, q: Pos)
    requires 0 <= p.line < |ts| && 0 <= p.ch <= |ts[p.line]| && 0 <= q.line < |ts| && 0 <= q.ch <= |ts[q.line]|
    ensures Offset(ts, p.line, p.ch) == Offset(ts, q.line, q.ch) <==> p == q
    ensures Offset(ts, p.line, p.ch) < Offset(ts, q.line, q.ch) <==> Less(p, q)
  {
    if Less(p, q) { OffsetsOrdered(ts, p, q); } else { OffsetsOrdered(ts, q, p); }
  }

  lemma SameOffset(ts: seq<string>, p: Pos, q: Pos)
    requires ValidIn(ts, p) && ValidIn(ts, q) && Offset(ts, p.line, p.ch) == Offset(ts, q.line, q.ch)
    ensures p == q
  {
    OffsetsDiffer(ts, p, q);
  }

  /** The offset of a position is at most the length of the text. */
  lemma OffsetInText(ts: seq<string>, p: Pos)
    requires ValidIn(ts, p)
    ensures ts != [] && Offset(ts, p.line, p.ch) <= |Join(ts)|
  {
    OffsetsDiffer(ts, p, Pos(|ts| - 1, |ts[|ts| - 1]|));
    OffsetEnd(ts);
  }

  // ----- the conversions -----

  /** The text of the lines of `d`. */
  ghost predicate Has(d: Doc, ts: seq<string>)
    reads d, d.root, d.chunks, d.lines, d.Contents()
  {
    true == (d.Valid() && |d.Contents()| >= 1 && ts == Texts(Shown(d.Contents())))
  }

  /** The position is one of the text. */
  predicate ValidIn(ts: seq<string>, p: Pos) {
    0 <= p.line < |ts| && 0 <= p.ch <= |ts[p.line]|
  }

  /** `clipPos`; a missing column is the end of the line. */
  method ClipPos(d: Doc, line: int, ch: int, missing: bool, ghost ts: seq<string>) returns (p: Pos)
    requires Has(d, ts)
    ensures ValidIn(ts, p)
    ensures line < 0 ==> p == Pos(0, 0)
    ensures line >= |ts| ==> p == Pos(|ts| - 1, |ts[|ts| - 1]|)
    ensures 0 <= line < |ts| ==> p == Pos(line, if missing then |ts[line]| else Clamp(ch, 0, |ts[line]|))
  {
    if line < 0 { return Pos(0, 0); }
    var size := Lookup.Size(d);
    if line >= size {
      var last := Lookup.GetLineAt(d, size - 1);
      return Pos(size - 1, |last.text|);
    }
    var l := Lookup.GetLineAt(d, line);
    var linelen := |l.text|;
    p := if missing || ch > linelen then Pos(line, linelen) else if ch < 0 then Pos(line, 0) else Pos(line, ch);
  }

  /** The first lines `ls` of a text have the lengths of those of `ts`. */
  ghost predicate Sized(ls: seq<Line>, ts: seq<string>)
    reads ls
  {
    true == (|ls| <= |ts| && forall i :: 0 <= i < |ls| ==> |ls[i].text| == |ts[i]|)
  }

  lemma SizedIter(d: Doc, ts: seq<string>, n: nat)
    requires Has(d, ts) && n <= |d.Contents()|
    ensures |ts| == |d.Contents()| >= 1 && Sized(d.Contents()[0..n], ts)
  {
  }

  /** `indexFromPos` */
  method IndexFromPos(d: Doc, coords: Pos, ghost ts: seq<string>) returns (index: nat)
    requires Has(d, ts)
    ensures coords.line < 0 || coords.ch < 0 ==> index == 0
    ensures 0 <= coords.line < |ts| && coords.ch >= 0 ==> index == Offset(ts, coords.line, coords.ch)
    ensures coords.line >= |ts| && coords.ch >= 0 ==> index == |Join(ts)| + 1 + coords.ch
  {
    if coords.line < 0 || coords.ch < 0 { return 0; }
    var size := Lookup.Size(d);
    var n := if coords.line < size then coords.line else size;
    SizedIter(d, ts, n);
    var ls := Iteration.Iter(d, 0, n);  // the walk ends with the document
    index := AddLengths(ls, coords.ch, ts);
    if coords.line < |ts| { OffsetCh(ts, coords.line, coords.ch); }
  }

  method AddLengths(ls: seq<Line>, ch: nat, ghost ts: seq<string>) returns (index: nat)
    requires ts != [] && Sized(ls, ts)
    ensures index == if |ls| < |ts| then Offset(ts, |ls|, 0) + ch else |Join(ts)| + 1 + ch
  {
    index := ch;
    for i := 0 to |ls|
      invariant index == if i < |ts| then Offset(ts, i, 0) + ch else |Join(ts)| + 1 + ch
    {
      if i + 1 < |ts| { OffsetNext(ts, i); } else { OffsetEnd(ts); OffsetCh(ts, i, |ts[i]|); }
      index := index + |ls[i].text| + 1;
    }
  }

  /** `posFromIndex`; offsets outside the text are clipped to its ends. */
  method PosFromIndex(d: Doc, off: int, ghost ts: seq<string>) returns (p: Pos)
    requires Has(d, ts)
    ensures ValidIn(ts, p) && Offset(ts, p.line, p.ch) == Clamp(off, 0, |Join(ts)|)
  {
    var size := Lookup.Size(d);
    SizedIter(d, ts, size);
    var ls := Iteration.Iter(d, 0, size);
    var lineNo, ch, missing := FindLine(ls, off, ts);
    p := ClipPos(d, lineNo, ch, missing, ts);
    OffsetEnd(ts);
    OffsetCh(ts, p.line, p.ch);
    OffsetsDiffer(ts, p, Pos(|ts| - 1, |ts[|ts| - 1]|));
  }

  /** The line in which the offset lies, and the column in it; none if the offset is past the end. */
  method FindLine(ls: seq<Line>, off0: int, ghost ts: seq<string>) returns (lineNo: nat, ch: int, missing: bool)
    requires ts != [] && Sized(ls, ts) && |ls| == |ts|
    ensures if missing then lineNo == |ts| && off0 > |Join(ts)|
            else lineNo < |ts| && off0 == Offset(ts, lineNo, 0) + ch && ch <= |ts[lineNo]| && (lineNo > 0 ==> ch >= 0)
  {
    var off := off0;
    lineNo, ch, missing := 0, 0, true;
    while lineNo < |ls|
      invariant lineNo <= |ls| && (lineNo > 0 ==> off >= 0)
      invariant if lineNo < |ls| then off0 == Offset(ts, lineNo, 0) + off else off0 > |Join(ts)|
    {
      var sz := |ls[lineNo].text| + 1;
      if sz > off { ch, missing := off, false; return; }
      if lineNo + 1 < |ts| { OffsetNext(ts, lineNo); } else { OffsetEnd(ts); OffsetCh(ts, lineNo, |ts[lineNo]|); }
      off := off - sz;
      lineNo := lineNo + 1;
    }
  }

  /** The two conversions are inverse to each other. */
  method PosOfIndexOf(d: Doc, p: Pos, ghost ts: seq<string>) returns (q: Pos)
    requires Has(d, ts) && ValidIn(ts, p)
    ensures q == p
  {
    var i := IndexFromPos(d, p, ts);
    OffsetInText(ts, p);
    q := PosFromIndex(d, i, ts);
    SameOffset(ts, p, q);
  }

  method IndexOfPosOf(d: Doc, k: int, ghost ts: seq<string>) returns (i: nat)
    requires Has(d, ts)
    ensures i == Clamp(k, 0, |Join(ts)|)
  {
    var p := PosFromIndex(d, k, ts);
    i := IndexFromPos(d, p, ts);
  }
}
