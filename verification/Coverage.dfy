/**
 Which characters a marker covers before and after an edit. An edit looks at the spans of one marker on the first and
 on the last line of the replaced range, and nothing is demanded of them here: a marker can have several spans on a
 line, in any order, since lines that share a list get the spans of one another.
 */
module Coverage {
  import opened ChunkStore
  import opened Text
  import opened Marks

  predicate Covers(s: Span, ch: int) {
    (s.from == None || s.from.value <= ch) && EndsAfter(s, ch)
  }

  predicate SomeCovers(spans: seq<Span>, ch: int) {
    true == exists s :: s in spans && Covers(s, ch)
  }

  /** Marker `m` covers the character at `p`; the character at the end of a line is its newline. */
  predicate Covered(doc: seq<Look>, m: nat, p: Pos)
    requires ValidPos(doc, p)
  {
    true == SomeCovers(Of(doc[p.line].spans, m), p.ch)
  }

  // ----- the spans of a marker at the ends of a replaced range -----

  predicate SomeStarts(spans: seq<Span>, ch: int) {
    true == exists s :: s in spans && StartsBefore(s, ch)
  }

  predicate SomeEnds(spans: seq<Span>, ch: int) {
    true == exists s :: s in spans && EndsAfter(s, ch)
  }

  /** A span that starts before `a` ends after `b`. */
  predicate Reaches(spans: seq<Span>, a: int, b: int) {
    true == exists s :: s in spans && StartsBefore(s, a) && EndsAfter(s, b)
  }

  /** A span that starts at `a` or later covers `ch`. */
  predicate Begins(spans: seq<Span>, a: int, ch: int) {
    true == exists s :: s in spans && !StartsBefore(s, a) && Covers(s, ch)
  }

  /** The first span that ends after `ch`: an edit takes it for the continuation of what sticks out before the range. */
  function FirstPast(spans: seq<Span>, ch: int): Option<Span> {
    if spans == [] then None else
      var n := |spans| - 1;
      var f := FirstPast(spans[..n], ch);
      if f == None && EndsAfter(spans[n], ch) then Some(spans[n]) else f
  }

  /** That first span is kept, under a start on the left of the range or a new one, and it covers `ch`. */
  predicate GoesOn(f: seq<Span>, l: seq<Span>, startCh: int, endCh: int, ch: int) {
    var n := FirstPast(l, endCh);
    true == (n.Some? && EndsAfter(n.value, ch) &&
      (Reaches(f, startCh, startCh) || (!SomeStarts(f, startCh) && StartsBefore(n.value, endCh))))
  }

  /**
   When the range becomes text in one line: whether the edit is right about the character at `ch`, behind the range.
   It is if the character is covered by a span that starts behind the range, or if the first span that ends behind the
   range is taken over up to `ch` exactly if some span that starts before the end of the range goes on up to `ch`.
   */
  predicate WellJoined(f: seq<Span>, l: seq<Span>, startCh: int, endCh: int, ch: int) {
    true == (Begins(l, endCh, ch) || (GoesOn(f, l, startCh, endCh, ch) <==> Reaches(l, endCh, ch)))
  }

  // ----- the loops -----

  predicate OnlyOf(spans: seq<Span>, m: nat) {
    true == forall s :: s in spans ==> s.marker == m
  }

  lemma {:induction false} OfOnly(spans: seq<Span>, m: nat)
    ensures OnlyOf(Of(spans, m), m)
  {
    if spans != [] { OfOnly(spans[..|spans| - 1], m); }
  }

  lemma {:induction false} BeforeMember(spans: seq<Span>, ch: nat, t: Span)
    ensures t in Before(spans, ch) <==> exists s :: s in spans && PieceBefore(s, ch) == [t]
  {
    if spans != [] {
      var n := |spans| - 1;
      BeforeMember(spans[..n], ch, t);
      assert spans == spans[..n] + [spans[n]];
    }
  }

  lemma {:induction false} AfterMember(spans: seq<Span>, ch: nat, t: Span)
    ensures t in After(spans, ch) <==> exists s :: s in spans && PieceAfter(s, ch) == [t]
  {
    if spans != [] {
      var n := |spans| - 1;
      AfterMember(spans[..n], ch, t);
      assert spans == spans[..n] + [spans[n]];
    }
  }

  lemma {:induction false} FirstAfter(spans: seq<Span>, ch: nat)
    ensures var a, f := After(spans, ch), FirstPast(spans, ch);
            if a == [] then f == None else f.Some? && PieceAfter(f.value, ch) == [a[0]]
  {
    if spans != [] { FirstAfter(spans[..|spans| - 1], ch); }
  }

  lemma {:induction false} FindFirst(spans: seq<Span>, m: nat)
    requires OnlyOf(spans, m)
    ensures Find(spans, m) == if spans == [] then None else Some(spans[0])
  {
    if spans != [] {
      var n := |spans| - 1;
      FindFirst(spans[..n], m);
    }
  }

  /** What sticks out before the range: it covers what it covered, and is open if it went on into the range. */
  lemma BeforeCovers(f: seq<Span>, startCh: nat, m: nat)
    requires OnlyOf(f, m)
    ensures var b := Before(f, startCh);
            OnlyOf(b, m) && (b == [] <==> !SomeStarts(f, startCh)) &&
            (forall s :: s in b ==> StartsBefore(s, startCh) && (s.to == None || s.to.value <= startCh)) &&
            ((exists s :: s in b && s.to == None) <==> Reaches(f, startCh, startCh))
  {
    var b := Before(f, startCh);
    forall t ensures t in b <==> exists s :: s in f && PieceBefore(s, startCh) == [t] { BeforeMember(f, startCh, t); }
    forall s | s in f && StartsBefore(s, startCh) ensures PieceBefore(s, startCh)[0] in b {
      assert PieceBefore(s, startCh) == [PieceBefore(s, startCh)[0]];
    }
    if b != [] { assert b[0] in b; }
  }

  lemma BeforeCoversAt(f: seq<Span>, startCh: nat, x: int)
    requires x < startCh
    ensures SomeCovers(Before(f, startCh), x) <==> SomeCovers(f, x)
  {
    var b := Before(f, startCh);
    forall t ensures t in b <==> exists s :: s in f && PieceBefore(s, startCh) == [t] { BeforeMember(f, startCh, t); }
    forall s | s in f && Covers(s, x) ensures SomeCovers(b, x) {
      var t := PieceBefore(s, startCh)[0];
      assert PieceBefore(s, startCh) == [t];
      assert t in b && Covers(t, x);
    }
  }

  /** What sticks out behind the range, measured from its end. */
  lemma AfterCovers(l: seq<Span>, endCh: nat, m: nat)
    requires OnlyOf(l, m)
    ensures var a := After(l, endCh);
            OnlyOf(a, m) && (a == [] <==> !SomeEnds(l, endCh)) &&
            (HasUnstarted(a) <==> Reaches(l, endCh, endCh))
  {
    var a := After(l, endCh);
    forall t ensures t in a <==> exists s :: s in l && PieceAfter(s, endCh) == [t] { AfterMember(l, endCh, t); }
    forall s | s in l && EndsAfter(s, endCh) ensures PieceAfter(s, endCh)[0] in a {
      assert PieceAfter(s, endCh) == [PieceAfter(s, endCh)[0]];
    }
    if a != [] { assert a[0] in a; }
  }

  lemma AfterCoversAt(l: seq<Span>, endCh: nat, x: nat)
    ensures var a := After(l, endCh);
            (SomeCovers(a, x) <==> SomeCovers(l, endCh + x)) &&
            (HasStarted(a, x) <==> Begins(l, endCh, endCh + x))
  {
    var a := After(l, endCh);
    forall t ensures t in a <==> exists s :: s in l && PieceAfter(s, endCh) == [t] { AfterMember(l, endCh, t); }
    forall s | s in l && Covers(s, endCh + x)
      ensures PieceAfter(s, endCh)[0] in a && Covers(PieceAfter(s, endCh)[0], x)
    {
      assert PieceAfter(s, endCh) == [PieceAfter(s, endCh)[0]];
    }
  }

  /** The ends of the spans on the first line are closed or joined. */
  lemma FixFirstCovers(b: seq<Span>, a: seq<Span>, k: Seam, m: nat, x: int)
    requires OnlyOf(b, m) && OnlyOf(a, m) && (k.sameLine ==> k.startCh <= k.offset)
    requires forall s :: s in b ==> StartsBefore(s, k.startCh) && (s.to == None || s.to.value <= k.startCh)
    ensures var first, open := FixFirst(b, a, k), exists s :: s in b && s.to == None;
            OnlyOf(first, m) && (first == [] <==> b == []) &&
            (x < k.startCh ==> (SomeCovers(first, x) <==> SomeCovers(b, x))) &&
            (x >= k.startCh ==> (SomeCovers(first, x) <==>
            open && a != [] && (k.sameLine && a[0].to != None ==> x < a[0].to.value + k.offset)))
    ensures !k.sameLine ==> ((exists s :: s in FixFirst(b, a, k) && s.to == None) <==>
      (exists s :: s in b && s.to == None) && a != [])
  {
    FindFirst(a, m);
    var first := FixFirst(b, a, k);
    forall s | s in b ensures FixedFirst(s, a, k) in first {
      var i :| 0 <= i < |b| && b[i] == s;
      assert first[i] == FixedFirst(s, a, k);
    }
    forall t | t in first ensures exists s :: s in b && FixedFirst(s, a, k) == t {
      var i :| 0 <= i < |first| && first[i] == t;
      assert b[i] in b;
    }
  }

  predicate HasUnstarted(a: seq<Span>) {
    true == exists t :: t in a && t.from == None
  }

  /** A span with a start covers `y`. */
  predicate HasStarted(a: seq<Span>, y: int) {
    true == exists t :: t in a && t.from != None && Covers(t, y)
  }

  /** The first span has no start and covers `y`. */
  predicate Unstarted(a: seq<Span>, y: int) {
    a != [] && a[0].from == None && EndsAfter(a[0], y)
  }

  lemma PushCovers(q: seq<Span>, t: Span, x: int)
    ensures SomeCovers(q + [t], x) <==> SomeCovers(q, x) || Covers(t, x)
    ensures HasStarted(q + [t], x) <==> HasStarted(q, x) || (t.from != None && Covers(t, x))
  {
    assert forall u :: u in q + [t] <==> u in q || u == t;
  }

  /** In one line: spans with a start move to the first list, and one without a start if that list is empty. */
  lemma {:induction false} FixLastCovers(first: seq<Span>, a: seq<Span>, k: Seam, m: nat, x: int)
    requires OnlyOf(first, m) && OnlyOf(a, m) && k.sameLine
    ensures OnlyOf(FixLast(first, a, k).0, m) && (FixLast(first, a, k).0 == [] <==> first == [] && a == [])
    ensures SomeCovers(FixLast(first, a, k).0, x) <==>
      SomeCovers(first, x) || (x >= k.offset && MovesOver(first, a, x - k.offset))
  {
    if a != [] {
      var n := |a| - 1;
      FixLastCovers(first, a[..n], k, m, x);
      assert a == a[..n] + [a[n]];
      FixNextCovers(FixLast(first, a[..n], k), first, a[..n], a[n], k, m, x);
    }
  }

  /** A span behind the range that moves to the first list covers `y`. */
  predicate MovesOver(first: seq<Span>, a: seq<Span>, y: int) {
    true == (HasStarted(a, y) || (first == [] && Unstarted(a, y)))
  }

  lemma FixNextCovers(r: (seq<Span>, seq<Span>), first: seq<Span>, a: seq<Span>, s: Span, k: Seam, m: nat, x: int)
    requires OnlyOf(r.0, m) && OnlyOf(a + [s], m) && k.sameLine && (r.0 == [] <==> first == [] && a == [])
    requires SomeCovers(r.0, x) <==> SomeCovers(first, x) || (x >= k.offset && MovesOver(first, a, x - k.offset))
    ensures OnlyOf(FixNext(r, s, k).0, m) && FixNext(r, s, k).0 != []
    ensures SomeCovers(FixNext(r, s, k).0, x) <==>
      SomeCovers(first, x) || (x >= k.offset && MovesOver(first, a + [s], x - k.offset))
  {
    assert (a + [s])[|a|] == s && s in a + [s];
    FindFirst(r.0, m);
    PushCovers(a, s, x - k.offset);
    PushCovers(r.0, FixedLast(s, r.0, k), x);
    assert a != [] ==> (a + [s])[0] == a[0];
  }

  /** In several lines: the spans of the last line. */
  lemma {:induction false} LastCovers(first: seq<Span>, a: seq<Span>, k: Seam, m: nat, x: nat)
    requires OnlyOf(first, m) && OnlyOf(a, m) && !k.sameLine
    ensures FixLast(first, a, k).0 == first
    ensures var q := FixLast(first, a, k).1;
            if x < k.offset then SomeCovers(q, x) <==> first != [] && HasUnstarted(a)
            else SomeCovers(q, x) <==> SomeCovers(a, x - k.offset)
  {
    if a != [] {
      var n := |a| - 1;
      LastCovers(first, a[..n], k, m, x);
      FindFirst(first, m);
      var q, s := FixLast(first, a[..n], k).1, a[n];
      assert a == a[..n] + [s];
      PushCovers(a[..n], s, x - k.offset);
      PushCovers(q, FixedLast(s, first, k), x);
    }
  }

  lemma {:induction false} ThroughCovers(first: seq<Span>, x: nat)
    ensures SomeCovers(Through(first), x) <==> exists s :: s in first && s.to == None
  {
    if first != [] {
      var n := |first| - 1;
      ThroughCovers(first[..n], x);
      assert first == first[..n] + [first[n]];
      var t, u := Through(first[..n]), Span(first[n].marker, None, None);
      assert u in t + [u] && Covers(u, x);
    }
  }

  // ----- the new lines -----

  /** The marker goes into the range and some span of it ends behind the range. */
  predicate Crosses(f: seq<Span>, l: seq<Span>, startCh: int, endCh: int) {
    true == (Reaches(f, startCh, startCh) && SomeEnds(l, endCh))
  }

  /** What sticks out on both sides, with the ends before the range fixed. */
  lemma Sides(f: seq<Span>, l: seq<Span>, startCh: nat, endCh: nat, k: Seam, m: nat, x: int)
    returns (first: seq<Span>, a: seq<Span>)
    requires OnlyOf(f, m) && OnlyOf(l, m) && k.startCh == startCh && (k.sameLine ==> startCh <= k.offset)
    ensures NewSpans(f, l, startCh, endCh, k) == FixLast(first, a, k) && a == After(l, endCh)
    ensures OnlyOf(first, m) && OnlyOf(a, m) && (first == [] <==> !SomeStarts(f, startCh)) &&
      (a == [] <==> !SomeEnds(l, endCh)) && (HasUnstarted(a) <==> Reaches(l, endCh, endCh))
    ensures x < startCh ==> (SomeCovers(first, x) <==> SomeCovers(f, x))
    ensures x >= startCh ==> (SomeCovers(first, x) <==>
      Crosses(f, l, startCh, endCh) && (k.sameLine && a[0].to != None ==> x < a[0].to.value + k.offset))
    ensures !k.sameLine ==> ((exists s :: s in first && s.to == None) <==> Crosses(f, l, startCh, endCh))
  {
    var b := Before(f, startCh);
    a := After(l, endCh);
    first := FixFirst(b, a, k);
    BeforeCovers(f, startCh, m);
    AfterCovers(l, endCh, m);
    FixFirstCovers(b, a, k, m, x);
    if x < startCh { BeforeCoversAt(f, startCh, x); }
  }

  lemma SameLineCovers(f: seq<Span>, l: seq<Span>, startCh: nat, endCh: nat, k: Seam, m: nat, x: nat)
    requires OnlyOf(f, m) && OnlyOf(l, m) && k.sameLine && k.startCh == startCh <= k.offset && x < k.offset
    ensures var q := NewSpans(f, l, startCh, endCh, k).0;
            SomeCovers(q, x) <==> if x < startCh then SomeCovers(f, x) else Crosses(f, l, startCh, endCh)
  {
    var first, a := Sides(f, l, startCh, endCh, k, m, x);
    FixLastCovers(first, a, k, m, x);
  }

  lemma SameLineBehind(f: seq<Span>, l: seq<Span>, startCh: nat, endCh: nat, k: Seam, m: nat, y: nat)
    requires OnlyOf(f, m) && OnlyOf(l, m) && k.sameLine && k.startCh == startCh <= k.offset
    ensures var q := NewSpans(f, l, startCh, endCh, k).0;
            SomeCovers(q, k.offset + y) <==>
            Begins(l, endCh, endCh + y) || GoesOn(f, l, startCh, endCh, endCh + y)
  {
    var first, a := Sides(f, l, startCh, endCh, k, m, k.offset + y);
    FixLastCovers(first, a, k, m, k.offset + y);
    FirstAfterCovers(l, endCh, y);
    AfterCoversAt(l, endCh, y);
    assert SomeCovers(first, k.offset + y) <==> Crosses(f, l, startCh, endCh) && a != [] && EndsAfter(a[0], y);
    assert MovesOver(first, a, y) <==> Begins(l, endCh, endCh + y) || (first == [] && Unstarted(a, y));
  }

  lemma FirstAfterCovers(l: seq<Span>, endCh: nat, y: nat)
    ensures var a, n := After(l, endCh), FirstPast(l, endCh);
            (a == [] <==> n == None) && (a != [] ==>
            (a[0].from == None <==> StartsBefore(n.value, endCh)) &&
            (EndsAfter(a[0], y) <==> EndsAfter(n.value, endCh + y)))
  {
    FirstAfter(l, endCh);
  }

  lemma FirstLineCovers(f: seq<Span>, l: seq<Span>, startCh: nat, endCh: nat, k: Seam, m: nat, x: nat)
    requires OnlyOf(f, m) && OnlyOf(l, m) && !k.sameLine && k.startCh == startCh
    ensures var q := NewSpans(f, l, startCh, endCh, k).0;
            (SomeCovers(q, x) <==> if x < startCh then SomeCovers(f, x) else Crosses(f, l, startCh, endCh)) &&
            (SomeCovers(Through(q), x) <==> Crosses(f, l, startCh, endCh))
  {
    var first, a := Sides(f, l, startCh, endCh, k, m, x);
    LastCovers(first, a, k, m, x);
    ThroughCovers(first, x);
  }

  lemma LastLineCovers(f: seq<Span>, l: seq<Span>, startCh: nat, endCh: nat, k: Seam, m: nat, x: nat)
    requires OnlyOf(f, m) && OnlyOf(l, m) && !k.sameLine && k.startCh == startCh
    ensures var q := NewSpans(f, l, startCh, endCh, k).1;
            (x < k.offset ==> (SomeCovers(q, x) <==> SomeStarts(f, startCh) && Reaches(l, endCh, endCh))) &&
            (SomeCovers(q, k.offset + x) <==> SomeCovers(l, endCh + x))
  {
    var first, a := Sides(f, l, startCh, endCh, k, m, x);
    LastCovers(first, a, k, m, x);
    LastCovers(first, a, k, m, k.offset + x);
    AfterCoversAt(l, endCh, x);
  }

  // ----- the document -----

  /** `doc'` is the edited document; this is looked into only where `Edited` is mentioned. */
  ghost predicate IsEdit(doc': seq<Look>, doc: seq<Look>, from: Pos, to: Pos, newText: seq<string>) {
    true == (ValidRange(doc, from, to) && |newText| >= 1 &&
      forall t {:trigger Edited(doc, from, to, t)} :: t == newText ==> doc' == Edited(doc, from, to, t))
  }

  lemma EditedOf(doc': seq<Look>, doc: seq<Look>, from: Pos, to: Pos, newText: seq<string>, m: nat, i: nat)
    requires IsEdit(doc', doc, from, to, newText) && i < |newText|
    ensures ValidRange(doc, from, to) && 0 <= from.line <= to.line < |doc| && from.ch >= 0 && to.ch >= 0
    ensures var f, l := Of(doc[from.line].spans, m), Of(doc[to.line].spans, m);
            OnlyOf(f, m) && OnlyOf(l, m) && from.line + i < |doc'| &&
            Of(doc'[from.line + i].spans, m) == Updated(f, l, from.ch, to.ch, newText)[i].spans
  {
    OfOnly(doc[from.line].spans, m);
    OfOnly(doc[to.line].spans, m);
    assert doc' == Edited(doc, from, to, newText);
    var ls := EditedLines(doc, from, to, newText);
    UpdatedOf(doc[from.line].spans, doc[to.line].spans, from.ch, to.ch, newText, m, i);
    assert ls == Updated(doc[from.line].spans, doc[to.line].spans, from.ch, to.ch, newText);
  }

  /** Which of the characters up to the end of the new text are covered. */
  lemma NewLineCovers(doc': seq<Look>, doc: seq<Look>, from: Pos, to: Pos, newText: seq<string>, m: nat, i: nat, x: nat)
    requires IsEdit(doc', doc, from, to, newText) && ValidRange(doc, from, to)
    requires i < |newText| && Less(Pos(from.line + i, x), NewEnd(from, newText))
    ensures var f, l := Of(doc[from.line].spans, m), Of(doc[to.line].spans, m);
            from.line + i < |doc'| &&
            (SomeCovers(Of(doc'[from.line + i].spans, m), x) <==>
            if i == 0 && x < from.ch then SomeCovers(f, x)
            else if i == 0 || i < |newText| - 1 then Crosses(f, l, from.ch, to.ch)
            else SomeStarts(f, from.ch) && Reaches(l, to.ch, to.ch))
  {
    var f, l, k := Of(doc[from.line].spans, m), Of(doc[to.line].spans, m), SeamOf(from.ch, newText);
    EditedOf(doc', doc, from, to, newText, m, i);
    if k.sameLine {
      SameLineCovers(f, l, from.ch, to.ch, k, m, x);
    } else if i == |newText| - 1 {
      LastLineCovers(f, l, from.ch, to.ch, k, m, x);
    } else {
      FirstLineCovers(f, l, from.ch, to.ch, k, m, x);
    }
  }

  /** The spans on the line where the new text ends, and the column where it ends. */
  lemma EditedEndOf(doc': seq<Look>, doc: seq<Look>, from: Pos, to: Pos, newText: seq<string>, m: nat)
    requires IsEdit(doc', doc, from, to, newText) && ValidRange(doc, from, to) && |newText| >= 1
    ensures var end, k := NewEnd(from, newText), SeamOf(from.ch, newText);
            var f, l := Of(doc[from.line].spans, m), Of(doc[to.line].spans, m);
            OnlyOf(f, m) && OnlyOf(l, m) && 0 <= end.line < |doc'| && end.ch == k.offset &&
            k.startCh == from.ch && k.sameLine == (|newText| == 1) && (k.sameLine ==> k.startCh <= k.offset) &&
            var q := NewSpans(f, l, from.ch, to.ch, k);
            Of(doc'[end.line].spans, m) == if k.sameLine then q.0 else q.1
  {
    EditedOf(doc', doc, from, to, newText, m, |newText| - 1);
  }

  /** Which of the characters behind the new text are covered. */
  lemma EndLineCovers(doc': seq<Look>, doc: seq<Look>, from: Pos, to: Pos, newText: seq<string>, m: nat, y: nat)
    requires IsEdit(doc', doc, from, to, newText) && ValidRange(doc, from, to) && |newText| >= 1
    ensures var f, l, end := Of(doc[from.line].spans, m), Of(doc[to.line].spans, m), NewEnd(from, newText);
            0 <= end.line < |doc'| && (SomeCovers(Of(doc'[end.line].spans, m), end.ch + y) <==>
            if |newText| > 1 then SomeCovers(l, to.ch + y)
            else Begins(l, to.ch, to.ch + y) || GoesOn(f, l, from.ch, to.ch, to.ch + y))
  {
    var f, l, k := Of(doc[from.line].spans, m), Of(doc[to.line].spans, m), SeamOf(from.ch, newText);
    EditedEndOf(doc', doc, from, to, newText, m);
    assert NewEnd(from, newText).ch + y == k.offset + y;
    if k.sameLine {
      SameLineBehind(f, l, from.ch, to.ch, k, m, y);
    } else {
      LastLineCovers(f, l, from.ch, to.ch, k, m, y);
    }
  }

  lemma SurvivorsAreThere(doc': seq<Look>, doc: seq<Look>, from: Pos, to: Pos, newText: seq<string>, p: Pos)
    requires IsEdit(doc', doc, from, to, newText) && ValidRange(doc, from, to) && |newText| >= 1 && ValidPos(doc, p)
    ensures Less(p, from) ==> ValidPos(doc', p) && (p.line < from.line ==> doc'[p.line] == doc[p.line])
    ensures var q := Shift(p, to, NewEnd(from, newText));
            !Less(p, to) ==> ValidPos(doc', q) && (p.line > to.line ==> doc'[q.line] == doc[p.line])
  {
    assert doc' == Edited(doc, from, to, newText);
    var ls := Updated(doc[from.line].spans, doc[to.line].spans, from.ch, to.ch, newText);
    assert Texts(ls) == newText;
    KeptValid(doc, from, to, ls, p);
    ReplaceRangeLines(doc, from, to, ls);
  }

  /**
   A character before the range is covered after an edit exactly if it was before it. So is one behind the range if the
   new text has several lines or the character is in another line than the end of the range. In that line, when the new
   text has one line only, it is so exactly if the spans are joined well.
   */
  lemma CoverageSurvives(doc: seq<Look>, from: Pos, to: Pos, newText: seq<string>, m: nat, p: Pos)
    requires ValidRange(doc, from, to) && |newText| >= 1 && ValidPos(doc, p)
    ensures var doc', q := Edited(doc, from, to, newText), Shift(p, to, NewEnd(from, newText));
            (Less(p, from) ==> ValidPos(doc', p) && (Covered(doc', m, p) <==> Covered(doc, m, p))) &&
            (!Less(p, to) ==> (ValidPos(doc', q) && ((Covered(doc', m, q) <==> Covered(doc, m, p)) <==>
            (|newText| > 1 || p.line > to.line ||
            WellJoined(Of(doc[from.line].spans, m), Of(doc[to.line].spans, m), from.ch, to.ch, p.ch)))))
  {
    var doc' := Edited(doc, from, to, newText);
    if Less(p, from) {
      BeforeSurvives(doc', doc, from, to, newText, m, p);
    } else if !Less(p, to) {
      if p.line == to.line {
        EndLineSurvives(doc', doc, from, to, newText, m, p, p.ch - to.ch);
      } else {
        SurvivorsAreThere(doc', doc, from, to, newText, p);
      }
    }
  }

  lemma BeforeSurvives(doc': seq<Look>, doc: seq<Look>, from: Pos, to: Pos, newText: seq<string>, m: nat, p: Pos)
    requires IsEdit(doc', doc, from, to, newText) && ValidRange(doc, from, to) && |newText| >= 1
    requires ValidPos(doc, p) && Less(p, from)
    ensures ValidPos(doc', p) && (Covered(doc', m, p) <==> Covered(doc, m, p))
  {
    SurvivorsAreThere(doc', doc, from, to, newText, p);
    if p.line == from.line { NewLineCovers(doc', doc, from, to, newText, m, 0, p.ch); }
  }

  lemma EndLineSurvives(doc': seq<Look>, doc: seq<Look>, from: Pos, to: Pos, newText: seq<string>, m: nat, p: Pos,
                        y: nat)
    requires IsEdit(doc', doc, from, to, newText) && ValidRange(doc, from, to) && |newText| >= 1
    requires ValidPos(doc, p) && p == Pos(to.line, to.ch + y)
    ensures var q := Shift(p, to, NewEnd(from, newText));
            ValidPos(doc', q) && ((Covered(doc', m, q) <==> Covered(doc, m, p)) <==>
            (|newText| > 1 ||
            WellJoined(Of(doc[from.line].spans, m), Of(doc[to.line].spans, m), from.ch, to.ch, p.ch)))
  {
    var end := NewEnd(from, newText);
    SurvivorsAreThere(doc', doc, from, to, newText, p);
    assert Shift(p, to, end) == Pos(end.line, end.ch + y);
    EndLineCovers(doc', doc, from, to, newText, m, y);
    CoversSplit(Of(doc[to.line].spans, m), to.ch, p.ch);
  }

  /** What covers a character behind `a` starts before `a` or not. */
  lemma CoversSplit(spans: seq<Span>, a: int, ch: int)
    requires a <= ch
    ensures SomeCovers(spans, ch) <==> Begins(spans, a, ch) || Reaches(spans, a, ch)
  {
  }

  /** The marker goes into the range, and it comes out of it. */
  predicate Around(f: seq<Span>, l: seq<Span>, startCh: int, endCh: int) {
    Reaches(f, startCh, startCh) && Reaches(l, endCh, endCh)
  }

  /** `q` is on the last of several inserted lines. */
  predicate OnLast(q: Pos, from: Pos, newText: seq<string>) {
    |newText| > 1 && q.line == from.line + |newText| - 1
  }

  /**
   When an inserted character is covered. That is when the marker goes on from one side of the range to the other,
   except in two cases: the marker goes into the range and has behind it only spans that start there; or, on the last
   of several lines, the marker comes out of the range and has before it only spans that end there.
   */
  lemma CoverageInserted(doc: seq<Look>, from: Pos, to: Pos, newText: seq<string>, m: nat, q: Pos)
    requires ValidRange(doc, from, to) && |newText| >= 1
    requires ValidPos(Edited(doc, from, to, newText), q) && !Less(q, from) && Less(q, NewEnd(from, newText))
    ensures var f, l := Of(doc[from.line].spans, m), Of(doc[to.line].spans, m);
            (Covered(Edited(doc, from, to, newText), m, q) <==>
            if OnLast(q, from, newText) then SomeStarts(f, from.ch) && Reaches(l, to.ch, to.ch)
            else Crosses(f, l, from.ch, to.ch)) &&
            ((Covered(Edited(doc, from, to, newText), m, q) <==> Around(f, l, from.ch, to.ch)) <==>
            !(if OnLast(q, from, newText)
              then SomeStarts(f, from.ch) && !Reaches(f, from.ch, from.ch) && Reaches(l, to.ch, to.ch)
              else Reaches(f, from.ch, from.ch) && SomeEnds(l, to.ch) && !Reaches(l, to.ch, to.ch)))
  {
    NewLineCovers(Edited(doc, from, to, newText), doc, from, to, newText, m, q.line - from.line, q.ch);
  }

  // ----- markers that cover one range -----

  predicate Inside(r: Option<Range>, p: Pos) {
    r.Some? && !Less(p, r.value.start) && Less(p, r.value.end)
  }

  /** Looking at the spans of its line tells whether a character lies in the range of the marker. */
  lemma CoveredIsInside(doc: seq<Look>, m: nat, r: Option<Range>, p: Pos)
    requires Marked(doc, m, r) && ValidPos(doc, p)
    ensures Covered(doc, m, p) <==> Inside(r, p)
  {
    assert Of(doc[p.line].spans, m) == Piece(m, r, p.line);
    var o := Piece(m, r, p.line);
    if o != [] { assert o[0] in o; }
  }

  /** The pieces of one range are joined well. */
  lemma PiecesJoin(m: nat, r: Option<Range>, from: Pos, to: Pos, ch: int)
    requires Proper(r) && Ordered(from, to) && ch >= to.ch
    ensures var f, l := Piece(m, r, from.line), Piece(m, r, to.line);
            WellJoined(f, l, from.ch, to.ch, ch) &&
            (Crosses(f, l, from.ch, to.ch) <==> r.Some? && Less(r.value.start, from) && Less(to, r.value.end)) &&
            (SomeStarts(f, from.ch) && Reaches(l, to.ch, to.ch) <==> Crosses(f, l, from.ch, to.ch))
  {
    var f, l := Piece(m, r, from.line), Piece(m, r, to.line);
    if f != [] { assert f[0] in f; }
    if l != [] {
      assert l[0] in l;
      OnlyPast(l, to.ch);
    }
  }

  lemma OnlyPast(l: seq<Span>, ch: int)
    requires |l| == 1
    ensures FirstPast(l, ch) == if EndsAfter(l[0], ch) then Some(l[0]) else None
  {
    assert l[..0] == [];
  }

  /** If a marker covers one range, every character that survives is covered exactly if it was before. */
  lemma RangeSurvives(doc: seq<Look>, from: Pos, to: Pos, newText: seq<string>, m: nat, r: Option<Range>, p: Pos)
    requires ValidRange(doc, from, to) && |newText| >= 1 && Marked(doc, m, r) && ValidPos(doc, p)
    ensures var doc', q := Edited(doc, from, to, newText), Shift(p, to, NewEnd(from, newText));
            (Less(p, from) ==> ValidPos(doc', p) && (Covered(doc', m, p) <==> Covered(doc, m, p))) &&
            (!Less(p, to) ==> ValidPos(doc', q) && (Covered(doc', m, q) <==> Covered(doc, m, p)))
  {
    CoverageSurvives(doc, from, to, newText, m, p);
    assert Of(doc[from.line].spans, m) == Piece(m, r, from.line) && Of(doc[to.line].spans, m) == Piece(m, r, to.line);
    if p.line == to.line && !Less(p, to) { PiecesJoin(m, r, from, to, p.ch); }
  }

  /** Then an inserted character is covered exactly if the marker started before the range and ended after it. */
  lemma RangeInserted(doc: seq<Look>, from: Pos, to: Pos, newText: seq<string>, m: nat, r: Option<Range>, q: Pos)
    requires ValidRange(doc, from, to) && |newText| >= 1 && Marked(doc, m, r)
    requires ValidPos(Edited(doc, from, to, newText), q) && !Less(q, from) && Less(q, NewEnd(from, newText))
    ensures Covered(Edited(doc, from, to, newText), m, q) <==>
      r.Some? && Less(r.value.start, from) && Less(to, r.value.end)
  {
    CoverageInserted(doc, from, to, newText, m, q);
    assert Of(doc[from.line].spans, m) == Piece(m, r, from.line) && Of(doc[to.line].spans, m) == Piece(m, r, to.line);
    PiecesJoin(m, r, from, to, to.ch);
  }

  /** Every position of the new document is one of those of the lemmas above. */
  lemma PositionsSplit(doc: seq<Look>, from: Pos, to: Pos, ls: seq<Look>, q: Pos)
    requires ValidRange(doc, from, to) && |ls| >= 1 && ValidPos(ReplaceRange(doc, from, to, ls), q)
    ensures var end := NewEnd(from, Texts(ls));
            var p := Shift(q, end, to);
            (Less(q, from) && ValidPos(doc, q)) || (!Less(q, from) && Less(q, end)) ||
            (!Less(q, end) && ValidPos(doc, p) && !Less(p, to) && Shift(p, to, end) == q)
  {
    var doc' := ReplaceRange(doc, from, to, ls);
    var s := Replacement(doc, from, to, ls);
    assert doc'[from.line] == s[0];
    assert doc'[from.line + |ls| - 1] == s[|ls| - 1];
  }
}
