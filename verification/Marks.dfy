/**
 Range markers (without inclusive ends). A marker is stored in pieces, one span on every line that it touches.
 `updateMarkedSpans` computes the spans of the lines that replace a range from those of its first and last line.
 */
module Marks {
  import opened ChunkStore
  import opened Text

  // ----- the spans of one line -----

  predicate StartsBefore(s: Span, ch: int) {
    s.from == None || s.from.value < ch
  }

  predicate EndsAfter(s: Span, ch: int) {
    s.to == None || s.to.value > ch
  }

  /** The pieces of `s` before `startCh` and after `endCh`, as sequences of length 0 or 1. */
  function PieceBefore(s: Span, startCh: int): seq<Span> {
    if StartsBefore(s, startCh) then [Span(s.marker, s.from, if EndsAfter(s, startCh) then None else s.to)] else []
  }

  function PieceAfter(s: Span, endCh: nat): seq<Span> {
    if !EndsAfter(s, endCh) then [] else
      [Span(s.marker, if StartsBefore(s, endCh) then None else Some(s.from.value - endCh),
            if s.to == None then None else Some(s.to.value - endCh))]
  }

  function Before(spans: seq<Span>, startCh: nat): seq<Span> {
    if spans == [] then [] else Before(spans[..|spans| - 1], startCh) + PieceBefore(spans[|spans| - 1], startCh)
  }

  function After(spans: seq<Span>, endCh: nat): seq<Span> {
    if spans == [] then [] else After(spans[..|spans| - 1], endCh) + PieceAfter(spans[|spans| - 1], endCh)
  }

  /** The first span of marker `m`. */
  function Find(spans: seq<Span>, m: nat): Option<Span> {
    if spans == [] then None else
      var n := |spans| - 1;
      var f := Find(spans[..n], m);
      if f == None && spans[n].marker == m then Some(spans[n]) else f
  }

  /** Where the ends of a stretch that sticks out of the replaced range come to lie. */
  datatype Seam = Seam(startCh: nat, offset: nat, sameLine: bool)

  function ShiftEnd(e: Option<nat>, offset: nat): Option<nat> {
    if e == None then None else Some(e.value + offset)
  }

  /** An open end before the range is closed, or joined to its continuation after the range. */
  function FixedFirst(s: Span, last: seq<Span>, k: Seam): Span {
    if s.to != None then s else
      var f := Find(last, s.marker);
      if f == None then s.(to := Some(k.startCh)) else if k.sameLine then s.(to := ShiftEnd(f.value.to, k.offset))
      else s
  }

  function FixFirst(first: seq<Span>, last: seq<Span>, k: Seam): (r: seq<Span>)
    ensures |r| == |first| && forall i :: 0 <= i < |first| ==> r[i] == FixedFirst(first[i], last, k)
  {
    seq(|first|, i requires 0 <= i < |first| => FixedFirst(first[i], last, k))
  }

  /** A span after the range in its new place. */
  function FixedLast(s: Span, first: seq<Span>, k: Seam): Span {
    Span(s.marker,
         if s.from != None then Some(s.from.value + k.offset)
         else if Find(first, s.marker) == None then Some(k.offset) else None,
         ShiftEnd(s.to, k.offset))
  }

  /** `last` in its new place, and what of it goes to `first` when both are on one line. */
  function FixLast(first: seq<Span>, last: seq<Span>, k: Seam): (r: (seq<Span>, seq<Span>))
    ensures |r.1| == |last|
  {
    if last == [] then (first, []) else FixNext(FixLast(first, last[..|last| - 1], k), last[|last| - 1], k)
  }

  function FixNext(r: (seq<Span>, seq<Span>), s: Span, k: Seam): (seq<Span>, seq<Span>) {
    var t := FixedLast(s, r.0, k);
    (if k.sameLine && t.from != None then r.0 + [t] else r.0, r.1 + [t])
  }

  /** The whole-line spans of the markers that are still open at the end of the first line. */
  function Through(first: seq<Span>): seq<Span> {
    if first == [] then [] else
      var n := |first| - 1;
      Through(first[..n]) + if first[n].to == None then [Span(first[n].marker, None, None)] else []
  }

  function SeamOf(startCh: nat, newText: seq<string>): Seam
    requires |newText| >= 1
  {
    Seam(startCh, |newText[|newText| - 1]| + (if |newText| == 1 then startCh else 0), |newText| == 1)
  }

  /** The new lines with their spans. */
  function Dressed(newText: seq<string>, first: seq<Span>, last: seq<Span>): (r: seq<Look>)
    requires |newText| >= 1
    ensures |r| == |newText| && forall i :: 0 <= i < |r| ==> r[i].text == newText[i]
    ensures r[0].spans == first && (|r| > 1 ==> r[|r| - 1].spans == last)
    ensures forall i :: 0 < i < |r| - 1 ==> r[i].spans == Through(first)
  {
    seq(|newText|, i requires 0 <= i < |newText| =>
      HL(newText[i], if i == 0 then first else if i == |newText| - 1 then last else Through(first)))
  }

  /** The spans of the first and of the last new line. */
  function NewSpans(oldFirst: seq<Span>, oldLast: seq<Span>, startCh: nat, endCh: nat,
                    k: Seam): (seq<Span>, seq<Span>) {
    var after := After(oldLast, endCh);
    FixLast(FixFirst(Before(oldFirst, startCh), after, k), after, k)
  }

  function Updated(oldFirst: seq<Span>, oldLast: seq<Span>, startCh: nat, endCh: nat,
                   newText: seq<string>): (r: seq<Look>)
    requires |newText| >= 1
    ensures |r| == |newText| && forall i :: 0 <= i < |r| ==> r[i].text == newText[i]
  {
    var q := NewSpans(oldFirst, oldLast, startCh, endCh, SeamOf(startCh, newText));
    Dressed(newText, q.0, q.1)
  }

  // ----- the loops -----

  /** `getMarkedSpanFor` */
  method GetMarkedSpanFor(spans: seq<Span>, m: nat) returns (r: Option<Span>)
    ensures r == Find(spans, m)
  {
    for i := 0 to |spans|
      invariant Find(spans[..i], m) == None
    {
      assert spans[..i + 1][..i] == spans[..i];
      if spans[i].marker == m {
        FindPrefix(spans, i + 1, m);
        return Some(spans[i]);
      }
    }
    assert spans[..|spans|] == spans;
    return None;
  }

  lemma {:induction false} FindPrefix(spans: seq<Span>, i: nat, m: nat)
    requires i <= |spans| && Find(spans[..i], m) != None
    ensures Find(spans, m) == Find(spans[..i], m)
  {
    if i == |spans| {
      assert spans[..i] == spans;
    } else {
      assert spans[..|spans| - 1][..i] == spans[..i];
      FindPrefix(spans[..|spans| - 1], i, m);
    }
  }

  /** `markedSpansBefore` */
  method MarkedSpansBefore(old': seq<Span>, startCh: nat) returns (nw: seq<Span>)
    ensures nw == Before(old', startCh)
  {
    nw := [];
    for i := 0 to |old'|
      invariant nw == Before(old'[..i], startCh)
    {
      var span := old'[i];
      assert old'[..i + 1][..i] == old'[..i];
      if span.from == None || span.from.value < startCh {
        var endsAfter := span.to == None || span.to.value > startCh;
        nw := nw + [Span(span.marker, span.from, if endsAfter then None else span.to)];
      }
    }
    assert old'[..|old'|] == old';
  }

  /** `markedSpansAfter` */
  method MarkedSpansAfter(old': seq<Span>, endCh: nat) returns (nw: seq<Span>)
    ensures nw == After(old', endCh)
  {
    nw := [];
    for i := 0 to |old'|
      invariant nw == After(old'[..i], endCh)
    {
      var span := old'[i];
      assert old'[..i + 1][..i] == old'[..i];
      if span.to == None || span.to.value > endCh {
        var startsBefore := span.from == None || span.from.value < endCh;
        nw := nw + [Span(span.marker, if startsBefore then None else Some(span.from.value - endCh),
                         if span.to == None then None else Some(span.to.value - endCh))];
      }
    }
    assert old'[..|old'|] == old';
  }

  method FixUpFirst(first0: seq<Span>, last: seq<Span>, k: Seam) returns (first: seq<Span>)
    ensures first == FixFirst(first0, last, k)
  {
    first := first0;
    for i := 0 to |first0|
      invariant |first| == |first0|
      invariant forall j :: 0 <= j < i ==> first[j] == FixedFirst(first0[j], last, k)
      invariant forall j :: i <= j < |first| ==> first[j] == first0[j]
    {
      var span := first[i];
      if span.to == None {
        var found := GetMarkedSpanFor(last, span.marker);
        if found == None {
          first := first[i := span.(to := Some(k.startCh))];
        } else if k.sameLine {
          first := first[i := span.(to := if found.value.to == None then None
            else Some(found.value.to.value + k.offset))];
        }
      }
    }
  }

  method FixUpLast(first0: seq<Span>, last0: seq<Span>, k: Seam) returns (first: seq<Span>, last: seq<Span>)
    ensures (first, last) == FixLast(first0, last0, k)
  {
    first, last := first0, last0;
    for i := 0 to |last0|
      invariant |last| == |last0|
      invariant (first, last[..i]) == FixLast(first0, last0[..i], k)
      invariant last[i..] == last0[i..]
    {
      assert last[i] == last[i..][0] == last0[i] && last0[..i + 1][..i] == last0[..i];
      assert last[i + 1..] == last[i..][1..] == last0[i + 1..];
      var span := last[i];
      if span.to != None { span := span.(to := Some(span.to.value + k.offset)); }
      if span.from == None {
        var found := GetMarkedSpanFor(first, span.marker);
        if found == None {
          span := span.(from := Some(k.offset));
          if k.sameLine { first := first + [span]; }
        }
      } else {
        span := span.(from := Some(span.from.value + k.offset));
        if k.sameLine { first := first + [span]; }
      }
      ghost var before := last;
      last := last[i := span];
      assert last[..i + 1] == before[..i] + [span];
    }
    assert last[..|last0|] == last && last0[..|last0|] == last0;
  }

  method GapMarkers(first: seq<Span>) returns (r: seq<Span>)
    ensures r == Through(first)
  {
    r := [];
    for i := 0 to |first|
      invariant r == Through(first[..i])
    {
      assert first[..i + 1][..i] == first[..i];
      if first[i].to == None { r := r + [Span(first[i].marker, None, None)]; }
    }
    assert first[..|first|] == first;
  }

  // ----- spans go forward -----

  lemma ForwardPush(a: seq<Span>, b: seq<Span>)
    requires Forward(a) && Forward(b)
    ensures Forward(a + b)
  {
  }

  lemma {:induction false} BeforeForward(spans: seq<Span>, ch: nat)
    requires Forward(spans)
    ensures Forward(Before(spans, ch)) && forall i :: 0 <= i < |Before(spans, ch)| ==>
      StartsBefore(Before(spans, ch)[i], ch)
  {
    if spans != [] {
      var n := |spans| - 1;
      BeforeForward(spans[..n], ch);
      ForwardPush(Before(spans[..n], ch), PieceBefore(spans[n], ch));
    }
  }

  lemma {:induction false} AfterForward(spans: seq<Span>, ch: nat)
    requires Forward(spans)
    ensures Forward(After(spans, ch))
  {
    if spans != [] {
      var n := |spans| - 1;
      AfterForward(spans[..n], ch);
      ForwardPush(After(spans[..n], ch), PieceAfter(spans[n], ch));
    }
  }

  lemma FixFirstForward(first: seq<Span>, last: seq<Span>, k: Seam)
    requires Forward(first) && (forall i :: 0 <= i < |first| ==> StartsBefore(first[i], k.startCh)) &&
      (k.sameLine ==> k.startCh <= k.offset)
    ensures Forward(FixFirst(first, last, k))
  {
  }

  lemma {:induction false} FixLastForward(first: seq<Span>, last: seq<Span>, k: Seam)
    requires Forward(first) && Forward(last)
    ensures Forward(FixLast(first, last, k).0) && Forward(FixLast(first, last, k).1)
  {
    if last != [] {
      var n := |last| - 1;
      FixLastForward(first, last[..n], k);
      var r := FixLast(first, last[..n], k);
      assert IsForward(FixedLast(last[n], r.0, k));
      ForwardPush(r.0, [FixedLast(last[n], r.0, k)]);
      ForwardPush(r.1, [FixedLast(last[n], r.0, k)]);
    }
  }

  lemma {:induction false} ThroughForward(first: seq<Span>)
    ensures Forward(Through(first))
  {
    if first != [] {
      var n := |first| - 1;
      ThroughForward(first[..n]);
      ForwardPush(Through(first[..n]), if first[n].to == None then [Span(first[n].marker, None, None)] else []);
    }
  }

  /** No line gets a span that ends before it begins. */
  lemma NewSpansForward(oldFirst: seq<Span>, oldLast: seq<Span>, startCh: nat, endCh: nat, k: Seam)
    requires Forward(oldFirst) && Forward(oldLast) && k.startCh == startCh && (k.sameLine ==> startCh <= k.offset)
    ensures var q := NewSpans(oldFirst, oldLast, startCh, endCh, k);
            Forward(q.0) && Forward(q.1) && Forward(Through(q.0))
  {
    BeforeForward(oldFirst, startCh);
    AfterForward(oldLast, endCh);
    var b, a := Before(oldFirst, startCh), After(oldLast, endCh);
    FixFirstForward(b, a, k);
    FixLastForward(FixFirst(b, a, k), a, k);
    ThroughForward(NewSpans(oldFirst, oldLast, startCh, endCh, k).0);
  }

  // ----- one marker at a time -----

  /** The spans of marker `m`. */
  function Of(spans: seq<Span>, m: nat): seq<Span> {
    if spans == [] then [] else
      var n := |spans| - 1;
      Of(spans[..n], m) + if spans[n].marker == m then [spans[n]] else []
  }

  lemma OfPush(a: seq<Span>, s: Span, m: nat)
    ensures Of(a + [s], m) == Of(a, m) + if s.marker == m then [s] else []
  {
    assert (a + [s])[..|a|] == a;
  }

  lemma {:induction false} BeforeOf(spans: seq<Span>, ch: nat, m: nat)
    ensures Of(Before(spans, ch), m) == Before(Of(spans, m), ch)
  {
    if spans != [] {
      var n := |spans| - 1;
      BeforeOf(spans[..n], ch, m);
      var s, b, o := spans[n], Before(spans[..n], ch), Of(spans[..n], m);
      if StartsBefore(s, ch) { OfPush(b, PieceBefore(s, ch)[0], m); }
      assert (o + [s])[..|o|] == o && o + [] == o;
      assert b + [] == b && Of(b, m) + [] == Of(b, m);
    }
  }

  lemma {:induction false} AfterOf(spans: seq<Span>, ch: nat, m: nat)
    ensures Of(After(spans, ch), m) == After(Of(spans, m), ch)
  {
    if spans != [] {
      var n := |spans| - 1;
      AfterOf(spans[..n], ch, m);
      var s, b, o := spans[n], After(spans[..n], ch), Of(spans[..n], m);
      if EndsAfter(s, ch) { OfPush(b, PieceAfter(s, ch)[0], m); }
      assert (o + [s])[..|o|] == o && o + [] == o;
      assert b + [] == b && Of(b, m) + [] == Of(b, m);
    }
  }

  lemma {:induction false} FindOf(spans: seq<Span>, m: nat)
    ensures Find(Of(spans, m), m) == Find(spans, m)
    ensures Find(spans, m) == None <==> Of(spans, m) == []
  {
    if spans != [] {
      var n := |spans| - 1;
      FindOf(spans[..n], m);
      var o := Of(spans[..n], m);
      assert (o + [spans[n]])[..|o|] == o && o + [] == o;
    }
  }

  lemma {:induction false} FixFirstOf(first: seq<Span>, last: seq<Span>, k: Seam, m: nat)
    ensures Of(FixFirst(first, last, k), m) == FixFirst(Of(first, m), Of(last, m), k)
  {
    if first != [] {
      var n := |first| - 1;
      FixFirstOf(first[..n], last, k, m);
      FindOf(last, m);
      var s := first[n];
      assert FixFirst(first, last, k)[..n] == FixFirst(first[..n], last, k);
      var o := Of(first[..n], m);
      if s.marker == m {
        assert FixFirst(o + [s], Of(last, m), k) == FixFirst(o, Of(last, m), k) + [FixedFirst(s, last, k)];
      }
    }
  }

  lemma FixNextOf(r: (seq<Span>, seq<Span>), s: Span, k: Seam, m: nat)
    ensures var q, o := FixNext(r, s, k), (Of(r.0, m), Of(r.1, m));
            (Of(q.0, m), Of(q.1, m)) == if s.marker == m then FixNext(o, s, k) else o
  {
    var t := FixedLast(s, r.0, k);
    FindOf(r.0, m);
    OfPush(r.0, t, m);
    OfPush(r.1, t, m);
    assert Of(r.0, m) + [] == Of(r.0, m) && Of(r.1, m) + [] == Of(r.1, m);
  }

  lemma {:induction false} FixLastOf(first: seq<Span>, last: seq<Span>, k: Seam, m: nat)
    ensures var q := FixLast(first, last, k);
            (Of(q.0, m), Of(q.1, m)) == FixLast(Of(first, m), Of(last, m), k)
  {
    if last != [] {
      var n := |last| - 1;
      FixLastOf(first, last[..n], k, m);
      FixNextOf(FixLast(first, last[..n], k), last[n], k, m);
      var o := Of(last[..n], m);
      assert (o + [last[n]])[..|o|] == o && o + [] == o;
    }
  }

  lemma {:induction false} ThroughOf(first: seq<Span>, m: nat)
    ensures Of(Through(first), m) == Through(Of(first, m))
  {
    if first != [] {
      var n := |first| - 1;
      ThroughOf(first[..n], m);
      OfPush(Through(first[..n]), Span(first[n].marker, None, None), m);
      var o := Of(first[..n], m);
      assert (o + [first[n]])[..|o|] == o && o + [] == o;
      var t := Through(first[..n]);
      assert t + [] == t && Of(t, m) + [] == Of(t, m);
    }
  }

  /** Markers do not influence one another. */
  lemma UpdatedOf(oldFirst: seq<Span>, oldLast: seq<Span>, startCh: nat, endCh: nat, newText: seq<string>, m: nat,
                  i: nat)
    requires i < |newText|
    ensures Of(Updated(oldFirst, oldLast, startCh, endCh, newText)[i].spans, m)
         == Updated(Of(oldFirst, m), Of(oldLast, m), startCh, endCh, newText)[i].spans
  {
    var k := SeamOf(startCh, newText);
    NewSpansOf(oldFirst, oldLast, startCh, endCh, k, m);
    ThroughOf(NewSpans(oldFirst, oldLast, startCh, endCh, k).0, m);
  }

  lemma NewSpansOf(oldFirst: seq<Span>, oldLast: seq<Span>, startCh: nat, endCh: nat, k: Seam, m: nat)
    ensures var q := NewSpans(oldFirst, oldLast, startCh, endCh, k);
            (Of(q.0, m), Of(q.1, m)) == NewSpans(Of(oldFirst, m), Of(oldLast, m), startCh, endCh, k)
  {
    var before, after := Before(oldFirst, startCh), After(oldLast, endCh);
    BeforeOf(oldFirst, startCh, m);
    AfterOf(oldLast, endCh, m);
    FixFirstOf(before, after, k, m);
    FixLastOf(FixFirst(before, after, k), after, k, m);
  }

  // ----- markers as ranges -----

  datatype Range = Range(start: Pos, end: Pos)

  predicate Ordered(p: Pos, q: Pos) {
    true == (p.ch >= 0 && q.ch >= 0 && !Less(q, p))
  }

  predicate Proper(r: Option<Range>) {
    true == (r.Some? ==> Ordered(r.value.start, r.value.end))
  }

  /** The spans on line `n` of a marker of range `r`. */
  function Piece(m: nat, r: Option<Range>, n: int): (s: seq<Span>)
    requires Proper(r)
  {
    if r == None || n < r.value.start.line || n > r.value.end.line then [] else
      [Span(m, if n == r.value.start.line then Some(r.value.start.ch) else None,
            if n == r.value.end.line then Some(r.value.end.ch) else None)]
  }

  /** The marker `m` covers exactly the range `r` of the document. */
  ghost predicate Marked(doc: seq<Look>, m: nat, r: Option<Range>) {
    true == (Proper(r) && (r.Some? ==> ValidRange(doc, r.value.start, r.value.end)) &&
      forall n {:trigger Of(doc[n].spans, m)} :: 0 <= n < |doc| ==> Of(doc[n].spans, m) == Piece(m, r, n))
  }

  /** The end of the text `ls` written at `from`. */
  function NewEnd(from: Pos, ls: seq<string>): Pos
    requires |ls| >= 1
  {
    Pos(from.line + |ls| - 1, |ls[|ls| - 1]| + if |ls| == 1 then from.ch else 0)
  }

  /** Where a position from `to` on is found after the range up to `to` is replaced by a text that ends at `end`. */
  function Shift(p: Pos, to: Pos, end: Pos): Pos {
    Pos(p.line - to.line + end.line, if p.line == to.line then p.ch - to.ch + end.ch else p.ch)
  }

  /** The part of a marker that is inside the replaced range is lost; if nothing sticks out the marker is gone. */
  function Moved(r: Option<Range>, from: Pos, to: Pos, end: Pos): Option<Range> {
    if r == None || (!Less(r.value.start, from) && !Less(to, r.value.end)) then None else
      var s, e := r.value.start, r.value.end;
      Some(Range(if Less(s, from) then s else if Less(s, to) then end else Shift(s, to, end),
                 if !Less(from, e) then e else if !Less(to, e) then from else Shift(e, to, end)))
  }

  /** The document after an edit that keeps the markers up to date. */
  function Edited(doc: seq<Look>, from: Pos, to: Pos, newText: seq<string>): seq<Look>
    requires ValidRange(doc, from, to) && |newText| >= 1
  {
    ReplaceRange(doc, from, to, Updated(doc[from.line].spans, doc[to.line].spans, from.ch, to.ch, newText))
  }

  lemma One(x: Span, ch: nat)
    ensures Before([x], ch) == PieceBefore(x, ch) && After([x], ch) == PieceAfter(x, ch)
  {
    assert [x][..0] == [];
  }

  lemma AtMostOne(f: seq<Span>, ch: nat)
    requires |f| <= 1
    ensures Before(f, ch) == if f == [] then [] else PieceBefore(f[0], ch)
    ensures After(f, ch) == if f == [] then [] else PieceAfter(f[0], ch)
  {
    if f != [] {
      One(f[0], ch);
      assert f == [f[0]];
    }
  }

  lemma FixLastOne(first: seq<Span>, y: Span, k: Seam)
    ensures FixLast(first, [y], k) == FixNext((first, []), y, k)
  {
    assert [y][..0] == [];
  }

  lemma FindOne(x: Span)
    ensures Find([x], x.marker) == Some(x)
  {
    assert [x][..0] == [];
  }

  lemma ThroughOne(x: Span)
    ensures Through([x]) == if x.to == None then [Span(x.marker, None, None)] else []
  {
    assert [x][..0] == [];
  }

  /** What sticks out before and after the range, at most one span each, is closed or joined. */
  function JoinPieces(b: seq<Span>, a: seq<Span>, k: Seam): (seq<Span>, seq<Span>)
    requires |b| <= 1 && |a| <= 1
  {
    var b' := if b == [] then [] else [FixedFirst(b[0], a, k)];
    if a == [] then (b', []) else
      var t := FixedLast(a[0], b', k);
      (if !k.sameLine || t.from == None then b' else if b' == [] then [t] else [b'[0], t], [t])
  }

  /** `Updated` for a single marker, before the spans are given to the lines. */
  function Joined(f: seq<Span>, l: seq<Span>, startCh: nat, endCh: nat, k: Seam): (seq<Span>, seq<Span>)
    requires |f| <= 1 && |l| <= 1
  {
    JoinPieces(if f == [] then [] else PieceBefore(f[0], startCh), if l == [] then [] else PieceAfter(l[0], endCh), k)
  }

  lemma FixLastJoined(b: seq<Span>, y: Span, k: Seam)
    requires |b| <= 1
    ensures var t := FixedLast(y, b, k);
            FixLast(b, [y], k) == (if !k.sameLine || t.from == None then b else if b == [] then [t] else [b[0], t], [t])
  {
    FixLastOne(b, y, k);
    var t := FixedLast(y, b, k);
    assert [] + [t] == [t] && (b == [] || [b[0], t] == b + [t]);
  }

  lemma NewSpansOne(f: seq<Span>, l: seq<Span>, startCh: nat, endCh: nat, k: Seam)
    requires |f| <= 1 && |l| <= 1
    ensures NewSpans(f, l, startCh, endCh, k) == Joined(f, l, startCh, endCh, k)
  {
    AtMostOne(f, startCh);
    AtMostOne(l, endCh);
    var b, a := Before(f, startCh), After(l, endCh);
    FixedOne(b, a, k);
  }

  lemma FixedOne(b: seq<Span>, a: seq<Span>, k: Seam)
    requires |b| <= 1 && |a| <= 1
    ensures FixLast(FixFirst(b, a, k), a, k) == JoinPieces(b, a, k)
  {
    var b' := FixFirst(b, a, k);
    assert b' == if b == [] then [] else [FixedFirst(b[0], a, k)];
    if a != [] {
      FixLastJoined(b', a[0], k);
      assert a == [a[0]];
    }
  }

  /**
   The pieces of a marker at the two ends of a replaced range, and those of the moved marker at the ends of the new
   text.
   */
  lemma SameLinePiece(m: nat, r: Range, from: Pos, to: Pos, k: Seam, end: Pos)
    requires Ordered(from, to) && Proper(Some(r)) && k.sameLine && k.startCh == from.ch
    requires end == Pos(from.line, k.offset) && k.offset >= from.ch
    ensures var r' := Moved(Some(r), from, to, end);
            Proper(r') &&
            Joined(Piece(m, Some(r), from.line), Piece(m, Some(r), to.line), from.ch, to.ch, k).0
            == Piece(m, r', from.line)
  {
    var f, l := Piece(m, Some(r), from.line), Piece(m, Some(r), to.line);
    var a := if l == [] then [] else PieceAfter(l[0], to.ch);
    if a != [] { FindOne(a[0]); }
    var b := if f == [] then [] else PieceBefore(f[0], from.ch);
    if b != [] { FindOne(FixedFirst(b[0], a, k)); }
  }

  lemma SplitLinePiece(m: nat, r: Range, from: Pos, to: Pos, k: Seam, end: Pos)
    requires Ordered(from, to) && Proper(Some(r)) && !k.sameLine && k.startCh == from.ch
    requires end.line > from.line && end.ch == k.offset
    ensures var r' := Moved(Some(r), from, to, end);
            Proper(r') &&
            Joined(Piece(m, Some(r), from.line), Piece(m, Some(r), to.line), from.ch, to.ch, k) ==
            (Piece(m, r', from.line), Piece(m, r', end.line))
  {
    var f, l := Piece(m, Some(r), from.line), Piece(m, Some(r), to.line);
    var a := if l == [] then [] else PieceAfter(l[0], to.ch);
    if a != [] { FindOne(a[0]); }
    var b := if f == [] then [] else PieceBefore(f[0], from.ch);
    if b != [] { FindOne(FixedFirst(b[0], a, k)); }
  }

  lemma JoinedPiece(m: nat, r: Range, from: Pos, to: Pos, k: Seam, end: Pos)
    requires Ordered(from, to) && from.ch >= 0 && to.ch >= 0 && Proper(Some(r)) && k.startCh == from.ch
    requires end.ch == k.offset && (if k.sameLine then end.line == from.line && k.offset >= from.ch
      else end.line > from.line)
    ensures var r' := Moved(Some(r), from, to, end);
            var q := Joined(Piece(m, Some(r), from.line), Piece(m, Some(r), to.line), from.ch, to.ch, k);
            Proper(r') && q.0 == Piece(m, r', from.line) && (!k.sameLine ==> q.1 == Piece(m, r', end.line)) &&
            EndsAt(r', from.line, end.line)
  {
    if k.sameLine {
      SameLinePiece(m, r, from, to, k, end);
    } else {
      SplitLinePiece(m, r, from, to, k, end);
    }
  }

  /** No end of the range is on a line strictly between `a` and `b`. */
  predicate EndsAt(r: Option<Range>, a: int, b: int) {
    true == (r.Some? ==>
    (r.value.start.line <= a || b <= r.value.start.line) && (r.value.end.line <= a || b <= r.value.end.line))
  }

  lemma ThroughPiece(m: nat, r: Option<Range>, n: int, i: int, end: int)
    requires EndsAt(r, n, end) && n < i < end && Proper(r)
    ensures Through(Piece(m, r, n)) == Piece(m, r, i)
  {
    var p := Piece(m, r, n);
    if p != [] { ThroughOne(p[0]); assert p == [p[0]]; }
  }

  /** The same for a marker that may not be there. */
  lemma JoinedPieces(m: nat, r: Option<Range>, from: Pos, to: Pos, k: Seam, end: Pos)
    requires Ordered(from, to) && from.ch >= 0 && to.ch >= 0 && Proper(r) && k.startCh == from.ch
    requires end.ch == k.offset && (if k.sameLine then end.line == from.line && k.offset >= from.ch
      else end.line > from.line)
    ensures var r' := Moved(r, from, to, end);
            var q := Joined(Piece(m, r, from.line), Piece(m, r, to.line), from.ch, to.ch, k);
            Proper(r') && q.0 == Piece(m, r', from.line) && (!k.sameLine ==> q.1 == Piece(m, r', end.line)) &&
            EndsAt(r', from.line, end.line)
  {
    if r.Some? { JoinedPiece(m, r.value, from, to, k, end); }
  }

  lemma DressedPiece(newText: seq<string>, first: seq<Span>, last: seq<Span>, i: nat, m: nat, r: Option<Range>, n: int)
    requires i < |newText| && Proper(r) && EndsAt(r, n, n + |newText| - 1)
    requires first == Piece(m, r, n) && (|newText| > 1 ==> last == Piece(m, r, n + |newText| - 1))
    ensures Dressed(newText, first, last)[i].spans == Piece(m, r, n + i)
  {
    if 0 < i < |newText| - 1 {
      ThroughPiece(m, r, n, n + i, n + |newText| - 1);
    }
  }

  /** The lines in place of the edited range carry the pieces of the moved range. */
  lemma MovedPiece(m: nat, r: Option<Range>, from: Pos, to: Pos, newText: seq<string>, i: nat, u: seq<Look>)
    requires Ordered(from, to) && from.ch >= 0 && to.ch >= 0 && i < |newText| && Proper(r)
    requires IsUpdated(u, Piece(m, r, from.line), Piece(m, r, to.line), from.ch, to.ch, newText)
    ensures var r' := Moved(r, from, to, NewEnd(from, newText)); Proper(r') && u[i].spans == Piece(m, r', from.line + i)
  {
    var k, end := SeamOf(from.ch, newText), NewEnd(from, newText);
    var f, l := Piece(m, r, from.line), Piece(m, r, to.line);
    JoinedPieces(m, r, from, to, k, end);
    UpdatedJoined(f, l, from.ch, to.ch, newText, u);
    var q := Joined(f, l, from.ch, to.ch, k);
    DressedPiece(newText, q.0, q.1, i, m, Moved(r, from, to, end), from.line);
  }

  /** `u == Updated(f, l, startCh, endCh, newText)`, to be looked into only where `Updated` is mentioned. */
  ghost predicate IsUpdated(u: seq<Look>, f: seq<Span>, l: seq<Span>, startCh: nat, endCh: nat, newText: seq<string>) {
    true == (|u| == |newText| >= 1 &&
      forall x: nat {:trigger Updated(f, l, startCh, x, newText)} :: x == endCh ==>
      u == Updated(f, l, startCh, x, newText))
  }

  lemma UpdatedJoined(f: seq<Span>, l: seq<Span>, startCh: nat, endCh: nat, newText: seq<string>, u: seq<Look>)
    requires |f| <= 1 && |l| <= 1 && IsUpdated(u, f, l, startCh, endCh, newText)
    ensures var q := Joined(f, l, startCh, endCh, SeamOf(startCh, newText)); u == Dressed(newText, q.0, q.1)
  {
    NewSpansOne(f, l, startCh, endCh, SeamOf(startCh, newText));
    assert u == Updated(f, l, startCh, endCh, newText);
  }

  lemma UpdatedMarker(f: seq<Span>, l: seq<Span>, startCh: nat, endCh: nat, newText: seq<string>, u: seq<Look>, m: nat,
                      i: nat) returns (uo: seq<Look>)
    requires i < |newText| && IsUpdated(u, f, l, startCh, endCh, newText)
    ensures IsUpdated(uo, Of(f, m), Of(l, m), startCh, endCh, newText) && Of(u[i].spans, m) == uo[i].spans
  {
    uo := Updated(Of(f, m), Of(l, m), startCh, endCh, newText);
    UpdatedOf(f, l, startCh, endCh, newText, m, i);
  }

  /** A line that is not touched carries the same piece of the moved range. */
  lemma KeptPiece(m: nat, r: Option<Range>, from: Pos, to: Pos, end: Pos, n: int)
    requires Ordered(from, to) && Ordered(from, end) && Proper(r)
    ensures var r' := Moved(r, from, to, end);
            Proper(r') &&
            (n < from.line ==> Piece(m, r', n) == Piece(m, r, n)) &&
            (n > to.line ==> Piece(m, r', n - to.line + end.line) == Piece(m, r, n))
  {
  }

  lemma MovedValid(doc: seq<Look>, r: Option<Range>, from: Pos, to: Pos, ls: seq<Look>)
    requires ValidRange(doc, from, to) && |ls| >= 1 && (r.Some? ==> ValidRange(doc, r.value.start, r.value.end))
    ensures var r' := Moved(r, from, to, NewEnd(from, Texts(ls)));
            r'.Some? ==> ValidRange(ReplaceRange(doc, from, to, ls), r'.value.start, r'.value.end)
  {
    var doc', end := ReplaceRange(doc, from, to, ls), NewEnd(from, Texts(ls));
    NewEndValid(doc, from, to, ls);
    if r.Some? {
      KeptValid(doc, from, to, ls, r.value.start);
      KeptValid(doc, from, to, ls, r.value.end);
    }
  }

  lemma NewEndValid(doc: seq<Look>, from: Pos, to: Pos, ls: seq<Look>)
    requires ValidRange(doc, from, to) && |ls| >= 1
    ensures var doc', end := ReplaceRange(doc, from, to, ls), NewEnd(from, Texts(ls));
            ValidPos(doc', from) && ValidPos(doc', end) && !Less(end, from)
  {
    var doc' := ReplaceRange(doc, from, to, ls);
    var s := Replacement(doc, from, to, ls);
    assert doc'[from.line] == s[0];
    assert doc'[from.line + |ls| - 1] == s[|ls| - 1];
  }

  lemma KeptValid(doc: seq<Look>, from: Pos, to: Pos, ls: seq<Look>, p: Pos)
    requires ValidRange(doc, from, to) && |ls| >= 1 && ValidPos(doc, p)
    ensures var doc', end := ReplaceRange(doc, from, to, ls), NewEnd(from, Texts(ls));
            (!Less(from, p) ==> ValidPos(doc', p)) && (!Less(p, to) ==> ValidPos(doc', Shift(p, to, end)))
  {
    var doc' := ReplaceRange(doc, from, to, ls);
    var s := Replacement(doc, from, to, ls);
    assert doc'[from.line] == s[0];
    assert doc'[from.line + |ls| - 1] == s[|ls| - 1];
  }

  /** The lines of the edited document; those in place of the range have the spans of `ls`. */
  lemma EditedLines(doc: seq<Look>, from: Pos, to: Pos, newText: seq<string>) returns (ls: seq<Look>)
    requires ValidRange(doc, from, to) && |newText| >= 1
    ensures IsUpdated(ls, doc[from.line].spans, doc[to.line].spans, from.ch, to.ch, newText)
    ensures IsLines(Edited(doc, from, to, newText), doc, from.line, to.line, ls)
  {
    ls := Updated(doc[from.line].spans, doc[to.line].spans, from.ch, to.ch, newText);
    ReplaceRangeLines(doc, from, to, ls);
  }

  /** The spans of the marker on a line of the new text. */
  lemma UpdatedPiece(f: seq<Span>, l: seq<Span>, from: Pos, to: Pos, newText: seq<string>, m: nat, r: Option<Range>,
                     i: nat, u: seq<Look>)
    requires Ordered(from, to) && from.ch >= 0 && to.ch >= 0 && i < |newText| && Proper(r)
    requires Of(f, m) == Piece(m, r, from.line) && Of(l, m) == Piece(m, r, to.line) &&
      IsUpdated(u, f, l, from.ch, to.ch, newText)
    ensures var r' := Moved(r, from, to, NewEnd(from, newText));
            Proper(r') && Of(u[i].spans, m) == Piece(m, r', from.line + i)
  {
    var uo := UpdatedMarker(f, l, from.ch, to.ch, newText, u, m, i);
    MovedPiece(m, r, from, to, newText, i, uo);
  }

  lemma MarkMovesTo(doc: seq<Look>, doc': seq<Look>, from: Pos, to: Pos, newText: seq<string>, m: nat, r: Option<Range>,
                    ls: seq<Look>, n: nat)
    requires ValidRange(doc, from, to) && |newText| >= 1 && Marked(doc, m, r) && n < |doc'|
    requires IsUpdated(ls, doc[from.line].spans, doc[to.line].spans, from.ch, to.ch, newText) &&
      IsLines(doc', doc, from.line, to.line, ls)
    ensures var r' := Moved(r, from, to, NewEnd(from, newText)); Proper(r') && Of(doc'[n].spans, m) == Piece(m, r', n)
  {
    var end := NewEnd(from, newText);
    if from.line <= n <= end.line {
      var f, l := doc[from.line].spans, doc[to.line].spans;
      assert Of(f, m) == Piece(m, r, from.line) && Of(l, m) == Piece(m, r, to.line);
      var i: nat := n - from.line;
      assert doc'[n].spans == ls[i].spans && i < |newText| && n == from.line + i;
      UpdatedPiece(f, l, from, to, newText, m, r, i, ls);
    } else {
      MarkStaysAt(doc, doc', from, to, newText, m, r, ls, n);
    }
  }

  /** The lines outside the range keep their pieces. */
  lemma MarkStaysAt(doc: seq<Look>, doc': seq<Look>, from: Pos, to: Pos, newText: seq<string>, m: nat, r: Option<Range>,
                    ls: seq<Look>, n: nat)
    requires ValidRange(doc, from, to) && |newText| >= 1 && Marked(doc, m, r) && n < |doc'| && |ls| == |newText|
    requires IsLines(doc', doc, from.line, to.line, ls) && !(from.line <= n <= NewEnd(from, newText).line)
    ensures var r' := Moved(r, from, to, NewEnd(from, newText)); Proper(r') && Of(doc'[n].spans, m) == Piece(m, r', n)
  {
    var end := NewEnd(from, newText);
    var k := if n < from.line then n else n - end.line + to.line;
    assert doc'[n] == doc[k] && Of(doc[k].spans, m) == Piece(m, r, k);
    KeptPiece(m, r, from, to, end, k);
  }

  /** Editing moves a marker as a range: what happens to its spans is what happens to its two ends. */
  lemma MarkMoves(doc: seq<Look>, from: Pos, to: Pos, newText: seq<string>, m: nat, r: Option<Range>)
    requires ValidRange(doc, from, to) && |newText| >= 1 && Marked(doc, m, r)
    ensures Marked(Edited(doc, from, to, newText), m, Moved(r, from, to, NewEnd(from, newText)))
  {
    MovedIsValid(doc, from, to, newText, r);
    var ls := EditedLines(doc, from, to, newText);
    var doc', r' := Edited(doc, from, to, newText), Moved(r, from, to, NewEnd(from, newText));
    MarkMovesTo(doc, doc', from, to, newText, m, r, ls, 0);
    forall n | 0 <= n < |doc'| ensures Of(doc'[n].spans, m) == Piece(m, r', n) {
      MarkMovesTo(doc, doc', from, to, newText, m, r, ls, n);
    }
  }

  lemma MovedIsValid(doc: seq<Look>, from: Pos, to: Pos, newText: seq<string>, r: Option<Range>)
    requires ValidRange(doc, from, to) && |newText| >= 1 && (r.Some? ==> ValidRange(doc, r.value.start, r.value.end))
    ensures var r' := Moved(r, from, to, NewEnd(from, newText));
            |Edited(doc, from, to, newText)| > 0 &&
            (r'.Some? ==> ValidRange(Edited(doc, from, to, newText), r'.value.start, r'.value.end))
  {
    var ls := Updated(doc[from.line].spans, doc[to.line].spans, from.ch, to.ch, newText);
    assert Texts(ls) == newText;
    MovedValid(doc, r, from, to, ls);
  }

  // ----- making a marker -----

  /** The document with a span of marker `m` on every line that the range touches. */
  function WithMarker(doc: seq<Look>, m: nat, r: Range): (d: seq<Look>)
    requires Proper(Some(r))
    ensures |d| == |doc| && forall n :: 0 <= n < |doc| ==> d[n] == HL(doc[n].text, doc[n].spans + Piece(m, Some(r), n))
  {
    seq(|doc|, n requires 0 <= n < |doc| => HL(doc[n].text, doc[n].spans + Piece(m, Some(r), n)))
  }

  lemma OfPiece(spans: seq<Span>, m: nat, r: Range, n: int, x: nat)
    requires Proper(Some(r))
    ensures Of(spans + Piece(m, Some(r), n), x) == Of(spans, x) + if x == m then Piece(m, Some(r), n) else []
  {
    var p := Piece(m, Some(r), n);
    if p == [] {
      AddEmpty(spans);
      AddEmpty(Of(spans, x));
    } else {
      assert p == [p[0]];
      OfPush(spans, p[0], x);
    }
  }

  lemma MarkerMadeAt(spans: seq<Span>, m: nat, r: Range, n: int, x: nat, q: Option<Range>)
    requires Proper(Some(r)) && Proper(q) && Of(spans, m) == [] && Of(spans, x) == Piece(x, q, n)
    ensures Of(spans + Piece(m, Some(r), n), x) == Piece(x, if x == m then Some(r) else q, n)
  {
    OfPiece(spans, m, r, n, x);
    var o := Of(spans, x);
    if x == m {
      AddEmpty(Piece(m, Some(r), n));
    } else {
      AddEmpty(o);
    }
  }

  lemma AddEmpty(s: seq<Span>)
    ensures [] + s == s && s + [] == s
  {
  }

  /** A new marker covers its range, and the ranges of all other markers stay as they are. */
  lemma MarkerIsMade(doc: seq<Look>, m: nat, r: Range, x: nat, q: Option<Range>)
    requires Proper(Some(r)) && ValidRange(doc, r.start, r.end) && Marked(doc, m, None) && Marked(doc, x, q)
    ensures Marked(WithMarker(doc, m, r), x, if x == m then Some(r) else q)
  {
    var d := WithMarker(doc, m, r);
    var p := if x == m then Some(r) else q;
    assert ValidRange(d, r.start, r.end) && (q.Some? ==> ValidRange(d, q.value.start, q.value.end));
    forall n | 0 <= n < |d| ensures Of(d[n].spans, x) == Piece(x, p, n) {
      assert Of(doc[n].spans, m) == Piece(m, None, n) && Of(doc[n].spans, x) == Piece(x, q, n);
      MarkerMadeAt(doc[n].spans, m, r, n, x, q);
    }
  }
}
