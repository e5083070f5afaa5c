/**
 The lists in which lines keep their spans. A list is an object that lines can share: the inner lines of a multi-line
 insertion get one list between them, and a marker that is pushed into it appears on all of these lines.
 */
module SpanLists {
  import opened ChunkStore
  import opened Sequences
  import opened Text
  import opened Marks

  /** All lists that have been made; a list is known by its number. */
  type Lists = seq<seq<Span>>

  function SpansOf(l: Option<nat>, lists: Lists): seq<Span> {
    if l.Some? && l.value < |lists| then lists[l.value] else []
  }

  /** How the lines look. */
  function LookOf(s: seq<Stored>, lists: Lists): (v: seq<Look>)
    ensures |v| == |s| && Texts(v) == Texts(s)
    ensures forall i :: 0 <= i < |s| ==> v[i] == HL(s[i].text, SpansOf(s[i].spans, lists))
  {
    seq(|s|, i requires 0 <= i < |s| => HL(s[i].text, SpansOf(s[i].spans, lists)))
  }

  /** The lists of the lines exist. */
  ghost predicate Below(s: seq<Stored>, n: nat) {
    true == forall i :: 0 <= i < |s| && s[i].spans.Some? ==> s[i].spans.value < n
  }

  /** The lists of the lines are new. */
  ghost predicate From(s: seq<Stored>, n: nat) {
    true == forall i :: 0 <= i < |s| && s[i].spans.Some? ==> s[i].spans.value >= n
  }

  /** The lists of `a` have been kept and lists have been added. */
  ghost predicate Grown(b: Lists, a: Lists) {
    true == (|a| <= |b| && forall i :: 0 <= i < |a| ==> b[i] == a[i])
  }

  /** No span in a list ends before it begins. */
  ghost predicate AllForward(lists: Lists) {
    true == forall i :: 0 <= i < |lists| ==> Forward(lists[i])
  }

  lemma LookStays(s: seq<Stored>, a: Lists, b: Lists)
    requires Below(s, |a|) && Grown(b, a)
    ensures LookOf(s, b) == LookOf(s, a) && Below(s, |b|)
  {
  }

  method ListOf(spans: seq<Span>, lists0: Lists) returns (l: Option<nat>, lists: Lists)
    ensures if spans == [] then l == None && lists == lists0 else l == Some(|lists0|) && lists == lists0 + [spans]
    ensures AllForward(lists0) && Forward(spans) ==> AllForward(lists)
  {
    if spans == [] { l, lists := None, lists0; } else { l, lists := Some(|lists0|), lists0 + [spans]; }
  }

  /** Lines `i` and `j` keep their spans in one list. */
  predicate Share(s: seq<Stored>, i: nat, j: nat)
    requires i < |s| && j < |s|
  {
    s[i].spans.Some? && s[i].spans == s[j].spans
  }

  /** Of the lines of an insertion, the inner ones share their list, if they have one, and no others. */
  ghost predicate InnerShare(ls: seq<Stored>) {
    true == ((forall i, j :: 0 < i < j < |ls| - 1 ==> ls[i].spans == ls[j].spans) &&
      forall i, j :: 0 <= i < j < |ls| && (i == 0 || j == |ls| - 1) ==> !Share(ls, i, j))
  }

  /** New lines with new lists */
  ghost predicate NewLists(ls: seq<Stored>, lists: Lists, lists0: Lists) {
    InnerShare(ls) && From(ls, |lists0|) && Below(ls, |lists|) && Grown(lists, lists0)
  }

  /** `updateMarkedSpans` */
  method UpdateMarkedSpans(oldFirst: Option<nat>, oldLast: Option<nat>, startCh: nat, endCh: nat, newText: seq<string>,
                           lists0: Lists) returns (newMarkers: seq<Stored>, lists: Lists)
    requires |newText| >= 1
    ensures LookOf(newMarkers, lists) == Updated(SpansOf(oldFirst, lists0), SpansOf(oldLast, lists0), startCh, endCh,
      newText)
    ensures NewLists(newMarkers, lists, lists0) && (AllForward(lists0) ==> AllForward(lists))
  {
    if oldFirst == None && oldLast == None {
      return seq(|newText|, i requires 0 <= i < |newText| => HL(newText[i], None)), lists0;
    }
    var first := MarkedSpansBefore(SpansOf(oldFirst, lists0), startCh);
    var last := MarkedSpansAfter(SpansOf(oldLast, lists0), endCh);
    var sameLine := |newText| == 1;
    var offset := |newText[|newText| - 1]| + if sameLine then startCh else 0;
    var k := Seam(startCh, offset, sameLine);
    first := FixUpFirst(first, last, k);
    first, last := FixUpLast(first, last, k);
    NewForward(oldFirst, oldLast, startCh, endCh, k, lists0);
    newMarkers, lists := DressLines(newText, first, last, lists0);
  }

  lemma NewForward(oldFirst: Option<nat>, oldLast: Option<nat>, startCh: nat, endCh: nat, k: Seam, lists: Lists)
    requires k.startCh == startCh && (k.sameLine ==> startCh <= k.offset)
    ensures var q := NewSpans(SpansOf(oldFirst, lists), SpansOf(oldLast, lists), startCh, endCh, k);
            AllForward(lists) ==> Forward(q.0) && Forward(q.1) && Forward(Through(q.0))
  {
    if AllForward(lists) { NewSpansForward(SpansOf(oldFirst, lists), SpansOf(oldLast, lists), startCh, endCh, k); }
  }

  /** The end of `updateMarkedSpans` */
  method DressLines(newText: seq<string>, first: seq<Span>, last: seq<Span>, lists0: Lists)
    returns (newMarkers: seq<Stored>, lists: Lists)
    requires |newText| >= 1
    ensures LookOf(newMarkers, lists) == Dressed(newText, first, last) && NewLists(newMarkers, lists, lists0)
    ensures AllForward(lists0) && Forward(first) && Forward(last) && Forward(Through(first)) ==> AllForward(lists)
  {
    var firstList, gapList, lastList;
    firstList, lists := ListOf(first, lists0);
    newMarkers := [HL(newText[0], firstList)];
    if |newText| == 1 {
      gapList, lastList := None, None;
    } else {
      var gap := |newText| - 2;
      var gapMarkers := GapMarkers(first);
      gapList, lists := ListOf(gapMarkers, lists);
      for i := 0 to gap
        invariant |newMarkers| == i + 1 && newMarkers[0] == HL(newText[0], firstList)
        invariant forall j :: 0 < j <= i ==> newMarkers[j] == HL(newText[j], gapList)
      {
        newMarkers := newMarkers + [HL(newText[i + 1], gapList)];
      }
      lastList, lists := ListOf(last, lists);
      newMarkers := newMarkers + [HL(newText[|newText| - 1], lastList)];
    }
    DressedLooks(newText, first, last, firstList, gapList, lastList, newMarkers, lists, lists0);
  }

  /** `l` is missing or a list from number `a` on. */
  predicate Since(l: Option<nat>, a: nat, lists: Lists) {
    l.Some? ==> a <= l.value < |lists|
  }

  lemma DressedLooks(newText: seq<string>, first: seq<Span>, last: seq<Span>, firstList: Option<nat>,
                     gapList: Option<nat>, lastList: Option<nat>, ls: seq<Stored>, lists: Lists, lists0: Lists)
    requires |ls| == |newText| >= 1 && ls[0] == HL(newText[0], firstList) && SpansOf(firstList, lists) == first
    requires |ls| > 1 ==>
      ls[|ls| - 1] == HL(newText[|ls| - 1], lastList) && SpansOf(lastList, lists) == last &&
      SpansOf(gapList, lists) == Through(first)
    requires forall j :: 0 < j < |ls| - 1 ==> ls[j] == HL(newText[j], gapList)
    requires Since(firstList, |lists0|, lists) && Since(gapList, |lists0|, lists) &&
      Since(lastList, |lists0|, lists) && Grown(lists, lists0)
    requires firstList == None || (firstList != gapList && firstList != lastList)
    requires gapList == None || gapList != lastList
    ensures LookOf(ls, lists) == Dressed(newText, first, last) && NewLists(ls, lists, lists0)
  {
    var n := |ls|;
    assert From(ls, |lists0|) && Below(ls, |lists|) by {
      forall i | 0 <= i < n ensures Since(ls[i].spans, |lists0|, lists) {
        assert ls[i].spans == if i == 0 then firstList else if i == n - 1 then lastList else gapList;
      }
    }
    assert InnerShare(ls);
  }

  /** The `n` lines from `a` on have lists that no line outside has, and only the inner ones of them share theirs. */
  ghost predicate OwnLists(s: seq<Stored>, a: int, n: nat) {
    true == (0 <= a <= a + n <= |s| && InnerShare(s[a..a + n]) &&
      forall i: nat, j: nat :: a <= i < a + n && j < |s| && !(a <= j < a + n) ==> !Share(s, i, j))
  }

  lemma SameLists(ls: seq<Stored>, ks: seq<Stored>)
    requires InnerShare(ls) && |ks| == |ls| && forall i :: 0 <= i < |ls| ==> ks[i].spans == ls[i].spans
    ensures InnerShare(ks)
  {
    forall i, j | 0 <= i < j < |ks| && (i == 0 || j == |ks| - 1) ensures !Share(ks, i, j) {
      assert !Share(ls, i, j);
    }
  }

  /** After an edit the new lines have new lists. */
  lemma EditOwnsLists(s': seq<Stored>, s: seq<Stored>, a: nat, b: nat, ls: seq<Stored>, lists: Lists, lists0: Lists)
    requires IsLines(s', s, a, b, ls) && NewLists(ls, lists, lists0) && Below(s, |lists0|)
    ensures OwnLists(s', a, |ls|) && Below(s', |lists|)
  {
    var n := |ls|;
    forall i | 0 <= i < n ensures s'[a..a + n][i].spans == ls[i].spans {
      assert s'[a..a + n][i] == s'[a + i];
    }
    SameLists(ls, s'[a..a + n]);
    forall i: nat, j: nat | a <= i < a + n && j < |s'| && !(a <= j < a + n) ensures !Share(s', i, j) {
      OldOrNew(s', s, a, b, ls, lists, lists0, i);
      OldOrNew(s', s, a, b, ls, lists, lists0, j);
    }
    forall i | 0 <= i < |s'| && s'[i].spans.Some? ensures s'[i].spans.value < |lists| {
      OldOrNew(s', s, a, b, ls, lists, lists0, i);
    }
  }

  lemma OldOrNew(s': seq<Stored>, s: seq<Stored>, a: nat, b: nat, ls: seq<Stored>, lists: Lists, lists0: Lists, i: nat)
    requires IsLines(s', s, a, b, ls) && NewLists(ls, lists, lists0) && Below(s, |lists0|) && i < |s'|
    ensures s'[i].spans.Some? ==>
      if a <= i < a + |ls| then |lists0| <= s'[i].spans.value < |lists| else s'[i].spans.value < |lists0|
  {
    if a <= i < a + |ls| {
      assert s'[i].spans == ls[i - a].spans;
    } else {
      assert s'[i] == s[if i < a then i else i - (a + |ls| - 1) + b];
    }
  }

  /** Editing the lines edits how they look. */
  lemma LookRange(s: seq<Stored>, from: Pos, to: Pos, ls: seq<Stored>, lists: Lists)
    requires ValidRange(s, from, to) && |ls| >= 1
    ensures ValidRange(LookOf(s, lists), from, to)
    ensures LookOf(ReplaceRange(s, from, to, ls), lists) == ReplaceRange(LookOf(s, lists), from, to, LookOf(ls, lists))
  {
    var v, w := LookOf(s, lists), LookOf(ls, lists);
    assert LookOf(Replacement(s, from, to, ls), lists) == Replacement(v, from, to, w);
    LookConcat(s[..from.line] + Replacement(s, from, to, ls), s[to.line + 1..], lists);
    LookConcat(s[..from.line], Replacement(s, from, to, ls), lists);
    assert LookOf(s[..from.line], lists) == v[..from.line] && LookOf(s[to.line + 1..], lists) == v[to.line + 1..];
  }

  lemma LookTake(s: seq<Stored>, n: nat, lists: Lists)
    requires n <= |s|
    ensures LookOf(s[..n], lists) == LookOf(s, lists)[..n] && LookOf(s[n..], lists) == LookOf(s, lists)[n..]
  {
  }

  lemma LookConcat(a: seq<Stored>, b: seq<Stored>, lists: Lists)
    ensures LookOf(a + b, lists) == LookOf(a, lists) + LookOf(b, lists)
  {
  }

  // ----- pushing the spans of a new marker -----

  /** What the lines before `n` push into the list of line `i`, each into its own list; line `i` may get a new one. */
  function Pushes(s: seq<Stored>, m: nat, r: Range, i: nat, n: nat): seq<Span>
    requires i < |s| && n <= |s| && 0 <= r.start.line && Proper(Some(r))
  {
    if n <= r.start.line then [] else
      Pushes(s, m, r, i, n - 1) + if n - 1 == i || Share(s, i, n - 1) then Piece(m, Some(r), n - 1) else []
  }

  /** No line of `a..b` shares its list with another line of the document. */
  ghost predicate Unshared(s: seq<Stored>, a: int, b: int) {
    true == forall j: nat, i: nat :: a <= j <= b && j < |s| && i < |s| && i != j ==> !Share(s, j, i)
  }

  /** Lines of `a..b` share their lists at most with one another. */
  ghost predicate SharedWithin(s: seq<Stored>, a: int, b: int) {
    true == forall j: nat, i: nat :: a <= j <= b && j < |s| && i < |s| && !(a <= i <= b) ==> !Share(s, j, i)
  }

  /** The lines before `n` have pushed their spans. */
  ghost predicate PushedUpTo(v': seq<Look>, v: seq<Look>, s: seq<Stored>, m: nat, r: Range, n: nat) {
    true == (|v'| == |v| == |s| && ValidRange(v, r.start, r.end) && Proper(Some(r)) && n <= |s| &&
      forall i :: 0 <= i < |v| ==> v'[i] == HL(v[i].text, v[i].spans + Pushes(s, m, r, i, n)))
  }

  ghost predicate IsPushed(v': seq<Look>, v: seq<Look>, s: seq<Stored>, m: nat, r: Range) {
    true == (r.end.line >= 0 && PushedUpTo(v', v, s, m, r, r.end.line + 1))
  }

  lemma PushedAt(v': seq<Look>, v: seq<Look>, s: seq<Stored>, m: nat, r: Range, i: nat)
    requires IsPushed(v', v, s, m, r) && i < |s|
    ensures |v'| == |v| == |s| && ValidRange(v, r.start, r.end) && 0 <= r.start.line <= r.end.line < |s| &&
      Proper(Some(r))
    ensures v'[i] == HL(v[i].text, v[i].spans + Pushes(s, m, r, i, r.end.line + 1))
  {
  }

  lemma {:induction false} PushesAlone(s: seq<Stored>, m: nat, r: Range, i: nat, n: nat)
    requires i < |s| && n <= |s| && n <= r.end.line + 1 && 0 <= r.start.line && Proper(Some(r))
    requires Unshared(s, r.start.line, r.end.line)
    ensures Pushes(s, m, r, i, n) == if i < n then Piece(m, Some(r), i) else []
    decreases n
  {
    if n > r.start.line {
      PushesAlone(s, m, r, i, n - 1);
      assert n - 1 != i ==> !Share(s, n - 1, i);
    }
  }

  /** A line that shares its list gets the spans of both lines. */
  lemma {:induction false} PushesMore(s: seq<Stored>, m: nat, r: Range, i: nat, j: nat, n: nat)
    requires i < |s| && j < |s| && n <= |s| && n <= r.end.line + 1 && 0 <= r.start.line && Proper(Some(r)) && i != j &&
      Share(s, j, i)
    ensures |Pushes(s, m, r, i, n)| >= (if r.start.line <= i < n then 1 else 0) + if r.start.line <= j < n then 1 else 0
    decreases n
  {
    if n > r.start.line {
      PushesMore(s, m, r, i, j, n - 1);
    }
  }

  lemma {:induction false} PushesNone(s: seq<Stored>, m: nat, r: Range, i: nat, n: nat)
    requires i < |s| && n <= |s| && n <= r.end.line + 1 && 0 <= r.start.line && Proper(Some(r)) &&
      !(r.start.line <= i <= r.end.line)
    requires forall j: nat :: r.start.line <= j <= r.end.line && j < |s| ==> !Share(s, j, i)
    ensures Pushes(s, m, r, i, n) == []
    decreases n
  {
    if n > r.start.line {
      PushesNone(s, m, r, i, n - 1);
      assert !Share(s, n - 1, i);
    }
  }

  lemma {:induction false} OfPushes(s: seq<Stored>, m: nat, r: Range, i: nat, n: nat, spans: seq<Span>, x: nat)
    requires i < |s| && n <= |s| && 0 <= r.start.line && Proper(Some(r))
    ensures Of(spans + Pushes(s, m, r, i, n), x) == Of(spans, x) + if x == m then Pushes(s, m, r, i, n) else []
    decreases n
  {
    if n <= r.start.line {
      AddEmpty(spans);
      AddEmpty(Of(spans, x));
    } else {
      OfPushes(s, m, r, i, n - 1, spans, x);
      var p := Pushes(s, m, r, i, n - 1);
      if n - 1 == i || Share(s, i, n - 1) { OfMore(spans, p, m, r, n - 1, x); } else { AddEmpty(p); }
    }
  }

  lemma OfMore(spans: seq<Span>, p: seq<Span>, m: nat, r: Range, n: int, x: nat)
    requires Proper(Some(r)) && Of(spans + p, x) == Of(spans, x) + if x == m then p else []
    ensures var q := p + Piece(m, Some(r), n); Of(spans + q, x) == Of(spans, x) + if x == m then q else []
  {
    Regroup(spans, p, Piece(m, Some(r), n));
    OfPiece(spans + p, m, r, n, x);
    if x == m { Regroup(Of(spans, x), p, Piece(m, Some(r), n)); } else { AddEmpty(Of(spans, x)); }
  }

  // ----- the loop of `markText` -----

  /** Lines `a..n` without a list have got one of their own; nothing else has changed. */
  ghost predicate GivenLists(s': seq<Stored>, s: seq<Stored>, a: int, n: int, lists: Lists, lists0: Lists) {
    true == (|s'| == |s| && 0 <= a <= n <= |s| && Texts(s') == Texts(s) && Below(s, |lists0|) && Below(s', |lists|) &&
    |lists0| <= |lists| &&
      (forall i :: 0 <= i < |s| && !(a <= i < n && s[i].spans == None) ==> s'[i] == s[i]) &&
      forall i :: a <= i < n && s[i].spans == None ==>
        s'[i].spans.Some? && s'[i].spans.value >= |lists0| && forall j :: 0 <= j < |s| && j != i ==>
        s'[j].spans != s'[i].spans)
  }

  /** A span is pushed into a list, or into a new one. */
  function Pushed(l: Option<nat>, span: Span, lists: Lists): (Option<nat>, Lists) {
    if l.Some? && l.value < |lists| then (l, lists[l.value := lists[l.value] + [span]])
    else (Some(|lists|), lists + [[span]])
  }

  method PushSpan(l: Option<nat>, span: Span, lists0: Lists) returns (l': Option<nat>, lists: Lists)
    requires l.Some? ==> l.value < |lists0|
    ensures (l', lists) == Pushed(l, span, lists0)
  {
    l', lists := l, lists0;
    if l' == None {
      l', lists := Some(|lists|), lists + [[]];
      assert lists[l'.value] + [span] == [span];
      assert lists[l'.value := [span]] == lists0 + [[span]];
    }
    lists := lists[l'.value := lists[l'.value] + [span]];
  }

  /** The span that a marker gets on line `n`. */
  function SpanAt(m: nat, r: Range, n: int): Span {
    Span(m, if n == r.start.line && r.start.ch >= 0 then Some(r.start.ch) else None,
         if n == r.end.line && r.end.ch >= 0 then Some(r.end.ch) else None)
  }

  /** The lines and the lists after the lines before `n` have pushed their spans. */
  function PushedBefore(s: seq<Stored>, lists: Lists, m: nat, r: Range, n: nat): (q: (seq<Stored>, Lists))
    requires n <= |s| && 0 <= r.start.line
    ensures |q.0| == |s|
  {
    if n <= r.start.line then (s, lists) else
      var p := PushedBefore(s, lists, m, r, n - 1);
      PushedAtLine(p.0, p.1, m, r, n - 1)
  }

  function PushedAtLine(s: seq<Stored>, lists: Lists, m: nat, r: Range, n: nat): (q: (seq<Stored>, Lists))
    requires n < |s|
    ensures |q.0| == |s|
  {
    var p := Pushed(s[n].spans, SpanAt(m, r, n), lists);
    (s[n := HL(s[n].text, p.0)], p.1)
  }

  /** Line `n` has got list `l` and pushed its span. */
  ghost predicate IsGiven(s': seq<Stored>, s0: seq<Stored>, n: nat, l: nat, lists: Lists, lists0: Lists) {
    true == (n < |s0| && s' == s0[n := HL(s0[n].text, Some(l))] && l < |lists| && |lists0| <= |lists| &&
      (if s0[n].spans == None then l == |lists0| < |lists| else Some(l) == s0[n].spans))
  }

  lemma GivenNext(s': seq<Stored>, s0: seq<Stored>, s: seq<Stored>, a: int, n: nat, l: nat, lists: Lists, lists1: Lists,
                  lists0: Lists, next: nat)
    requires GivenLists(s0, s, a, n, lists1, lists0) && IsGiven(s', s0, n, l, lists, lists1) && next == n + 1
    ensures GivenLists(s', s, a, next, lists, lists0)
  {
    assert s0[n] == s[n];
    assert Texts(s') == Texts(s0);
    forall i | a <= i < n + 1 && s[i].spans == None
      ensures s'[i].spans.Some? && s'[i].spans.value >= |lists0| && forall j :: 0 <= j < |s| && j != i ==>
        s'[j].spans != s'[i].spans
    {
      if i == n {
        assert forall j :: 0 <= j < |s| && j != n ==> s'[j] == s0[j];
      }
    }
  }

  /** The list of line `n` is that of line `i` exactly if it was so from the start. */
  lemma WhoGets(s': seq<Stored>, s0: seq<Stored>, s: seq<Stored>, a: int, n: nat, l: nat, lists: Lists, lists1: Lists,
                lists0: Lists, i: nat)
    requires GivenLists(s0, s, a, n, lists1, lists0) && IsGiven(s', s0, n, l, lists, lists1) && i < |s|
    ensures s'[i].spans == Some(l) <==> i == n || Share(s, i, n)
  {
    assert s0[n] == s[n];
    if i != n {
      assert s'[i] == s0[i];
      assert s[n].spans.Some? ==> s[n].spans.value < |lists0|;
      assert s0[i].spans.Some? ==> s0[i].spans.value < |lists1|;
      assert s[i].spans.Some? ==> s0[i] == s[i];
    }
  }

  /** The lines before `n` have pushed their spans. */
  ghost predicate HalfMarked(q: (seq<Stored>, Lists), s: seq<Stored>, v: seq<Look>, m: nat, r: Range, n: nat,
                             lists0: Lists) {
    true == (GivenLists(q.0, s, r.start.line, n, q.1, lists0) && PushedUpTo(LookOf(q.0, q.1), v, s, m, r, n))
  }

  /** Line `n` pushes its span, and `next` is the number of the following line. */
  lemma PushedNext(p: (seq<Stored>, Lists), s: seq<Stored>, v: seq<Look>, m: nat, r: Range, n: nat, lists0: Lists,
                   q: (seq<Stored>, Lists), next: nat)
    requires next == n + 1 && 0 <= r.start.line <= n <= r.end.line && n < |s| == |p.0| && Proper(Some(r))
    requires HalfMarked(p, s, v, m, r, n, lists0) && q == PushedAtLine(p.0, p.1, m, r, n)
    ensures HalfMarked(q, s, v, m, r, next, lists0)
  {
    SpanIsPiece(m, r, n);
    HalfMarkedBelow(p, s, v, m, r, n, lists0);
    var l := AtLineGives(p, m, r, n, q);
    HalfMarkedNext(p, s, v, m, r, n, lists0, q, SpanAt(m, r, n), l, next);
  }

  lemma SpanIsPiece(m: nat, r: Range, n: int)
    requires Proper(Some(r)) && r.start.line <= n <= r.end.line
    ensures [SpanAt(m, r, n)] == Piece(m, Some(r), n)
  {
  }

  lemma HalfMarkedBelow(p: (seq<Stored>, Lists), s: seq<Stored>, v: seq<Look>, m: nat, r: Range, n: nat, lists0: Lists)
    requires HalfMarked(p, s, v, m, r, n, lists0)
    ensures Below(p.0, |p.1|)
  {
  }

  lemma HalfMarkedNext(p: (seq<Stored>, Lists), s: seq<Stored>, v: seq<Look>, m: nat, r: Range, n: nat, lists0: Lists,
                       q: (seq<Stored>, Lists), span: Span, l: nat, next: nat)
    requires next == n + 1 && 0 <= r.start.line <= n <= r.end.line && n < |s| == |p.0| == |q.0| && Proper(Some(r))
    requires HalfMarked(p, s, v, m, r, n, lists0) && IsGiven(q.0, p.0, n, l, q.1, p.1) && [span] == Piece(m, Some(r), n)
    requires q.1 == Pushed(p.0[n].spans, span, p.1).1
    ensures HalfMarked(q, s, v, m, r, next, lists0)
  {
    GivenNext(q.0, p.0, s, r.start.line, n, l, q.1, p.1, lists0, next);
    var w := LookOf(q.0, q.1);
    forall i: nat | i < |v| ensures w[i] == HL(v[i].text, v[i].spans + Pushes(s, m, r, i, next)) {
      PushedOnto(p, s, v, m, r, n, lists0, q, span, l, i, next);
    }
    assert PushedUpTo(w, v, s, m, r, next);
  }

  lemma AtLineGives(p: (seq<Stored>, Lists), m: nat, r: Range, n: nat, q: (seq<Stored>, Lists)) returns (l: nat)
    requires n < |p.0| && q == PushedAtLine(p.0, p.1, m, r, n) && Below(p.0, |p.1|)
    ensures IsGiven(q.0, p.0, n, l, q.1, p.1) && q.1 == Pushed(p.0[n].spans, SpanAt(m, r, n), p.1).1
    ensures |q.0| == |p.0|
  {
    l := Pushed(p.0[n].spans, SpanAt(m, r, n), p.1).0.value;
  }

  lemma PushedOnto(p: (seq<Stored>, Lists), s: seq<Stored>, v: seq<Look>, m: nat, r: Range, n: nat, lists0: Lists,
                   q: (seq<Stored>, Lists), span: Span, l: nat, i: nat, next: nat)
    requires next == n + 1 && 0 <= r.start.line <= n <= r.end.line && n < |s| == |p.0| && Proper(Some(r))
    requires i < |v| == |s| == |q.0|
    requires HalfMarked(p, s, v, m, r, n, lists0) && IsGiven(q.0, p.0, n, l, q.1, p.1) && [span] == Piece(m, Some(r), n)
    requires q.1 == Pushed(p.0[n].spans, span, p.1).1
    ensures LookOf(q.0, q.1)[i] == HL(v[i].text, v[i].spans + Pushes(s, m, r, i, next))
  {
    var ps, x := Pushes(s, m, r, i, n), if i == n || Share(s, i, n) then [span] else [];
    WhoGets(q.0, p.0, s, r.start.line, n, l, q.1, p.1, lists0, i);
    OneGets(q.0, p.0, n, l, q.1, p.1, span, i);
    assert LookOf(p.0, p.1)[i] == HL(v[i].text, v[i].spans + ps);
    assert SpansOf(q.0[i].spans, q.1) == SpansOf(p.0[i].spans, p.1) + x;
    Regroup(v[i].spans, ps, x);
    PushesNext(s, m, r, i, n, next);
  }

  lemma PushesNext(s: seq<Stored>, m: nat, r: Range, i: nat, n: nat, next: nat)
    requires next == n + 1 && 0 <= r.start.line <= n < |s| && i < |s| && Proper(Some(r))
    ensures Pushes(s, m, r, i, next) ==
      Pushes(s, m, r, i, n) + if i == n || Share(s, i, n) then Piece(m, Some(r), n) else []
  {
  }

  /** All lines of the range have pushed their spans. */
  lemma {:induction false} LinesPushed(s: seq<Stored>, lists0: Lists, m: nat, r: Range, n: nat, q: (seq<Stored>, Lists))
    requires ValidRange(s, r.start, r.end) && Below(s, |lists0|) && Proper(Some(r)) &&
      0 <= r.start.line <= n <= r.end.line + 1 <= |s|
    requires q == PushedBefore(s, lists0, m, r, n)
    ensures HalfMarked(q, s, LookOf(s, lists0), m, r, n, lists0)
    decreases n
  {
    if n <= r.start.line {
      NonePushed(s, lists0, m, r);
      assert q == (s, lists0);
    } else {
      var p := PushedBefore(s, lists0, m, r, n - 1);
      LinesPushed(s, lists0, m, r, n - 1, p);
      PushedNext(p, s, LookOf(s, lists0), m, r, n - 1, lists0, q, n);
    }
  }

  lemma NonePushed(s: seq<Stored>, lists: Lists, m: nat, r: Range)
    requires ValidRange(s, r.start, r.end) && Below(s, |lists|) && Proper(Some(r)) && 0 <= r.start.line <= |s|
    ensures HalfMarked((s, lists), s, LookOf(s, lists), m, r, r.start.line, lists)
  {
    var v := LookOf(s, lists);
    forall i: nat | i < |s| ensures v[i] == HL(v[i].text, v[i].spans + Pushes(s, m, r, i, r.start.line)) {
      AddEmpty(v[i].spans);
    }
  }

  lemma {:induction false} LinesForward(s: seq<Stored>, lists: Lists, m: nat, r: Range, n: nat)
    requires n <= |s| && 0 <= r.start.line && Ordered(r.start, r.end) && AllForward(lists)
    ensures AllForward(PushedBefore(s, lists, m, r, n).1)
    decreases n
  {
    if n > r.start.line {
      LinesForward(s, lists, m, r, n - 1);
      var p := PushedBefore(s, lists, m, r, n - 1);
      PushForward(p.0[n - 1].spans, SpanAt(m, r, n - 1), p.1);
    }
  }

  lemma PushForward(l: Option<nat>, span: Span, lists: Lists)
    requires AllForward(lists) && IsForward(span)
    ensures AllForward(Pushed(l, span, lists).1)
  {
    ForwardPush([], [span]);
    assert [] + [span] == [span];
    if l.Some? && l.value < |lists| { ForwardPush(lists[l.value], [span]); }
  }

  lemma OneGets(s': seq<Stored>, s0: seq<Stored>, n: nat, l: nat, lists: Lists, lists1: Lists, span: Span, i: nat)
    requires IsGiven(s', s0, n, l, lists, lists1) && i < |s0| && Below(s0, |lists1|)
    requires lists == Pushed(s0[n].spans, span, lists1).1
    ensures SpansOf(s'[i].spans, lists) == SpansOf(s0[i].spans, lists1) + if s'[i].spans == Some(l) then [span] else []
  {
    AddEmpty(SpansOf(s0[i].spans, lists1));
  }

  // ----- what a new marker does -----

  /** A new marker covers exactly its range if and only if none of its lines shares its list with another line. */
  lemma MarkedIfUnshared(v': seq<Look>, v: seq<Look>, s: seq<Stored>, m: nat, r: Range)
    requires IsPushed(v', v, s, m, r) && Marked(v, m, None)
    ensures Marked(v', m, Some(r)) <==> Unshared(s, r.start.line, r.end.line)
  {
    if Unshared(s, r.start.line, r.end.line) {
      PushedAlone(v', v, s, m, r);
      MarkerIsMade(v, m, r, m, None);
    } else {
      var j: nat, i: nat :| r.start.line <= j <= r.end.line && j < |s| && i < |s| && i != j && Share(s, j, i);
      SharedFails(v', v, s, m, r, i, j);
    }
  }

  lemma SharedFails(v': seq<Look>, v: seq<Look>, s: seq<Stored>, m: nat, r: Range, i: nat, j: nat)
    requires IsPushed(v', v, s, m, r) && Marked(v, m, None)
    requires r.start.line <= j <= r.end.line && j < |s| && i < |s| && i != j && Share(s, j, i)
    ensures !Marked(v', m, Some(r))
  {
    PushedAt(v', v, s, m, r, i);
    assert Of(v[i].spans, m) == Piece(m, None, i);
    TooMany(v'[i].spans, v[i].spans, s, m, r, i, j);
    assert Of(v'[i].spans, m) != Piece(m, Some(r), i);
  }

  lemma TooMany(spans': seq<Span>, spans: seq<Span>, s: seq<Stored>, m: nat, r: Range, i: nat, j: nat)
    requires Proper(Some(r)) && 0 <= r.start.line <= j <= r.end.line < |s| && i < |s| && i != j && Share(s, j, i)
    requires spans' == spans + Pushes(s, m, r, i, r.end.line + 1)
    ensures |Of(spans', m)| > |Piece(m, Some(r), i)|
  {
    PushesMore(s, m, r, i, j, r.end.line + 1);
    OfPushes(s, m, r, i, r.end.line + 1, spans, m);
  }

  lemma PushedAlone(v': seq<Look>, v: seq<Look>, s: seq<Stored>, m: nat, r: Range)
    requires IsPushed(v', v, s, m, r) && Unshared(s, r.start.line, r.end.line)
    ensures v' == WithMarker(v, m, r)
  {
    forall i: nat | i < |v| ensures v'[i] == HL(v[i].text, v[i].spans + Piece(m, Some(r), i)) {
      PushedAloneAt(v', v, s, m, r, i);
    }
    assert |WithMarker(v, m, r)| == |v'|;
  }

  lemma PushedAloneAt(v': seq<Look>, v: seq<Look>, s: seq<Stored>, m: nat, r: Range, i: nat)
    requires IsPushed(v', v, s, m, r) && Unshared(s, r.start.line, r.end.line) && i < |v| && i < |v'|
    ensures v'[i] == HL(v[i].text, v[i].spans + Piece(m, Some(r), i))
  {
    PushedAt(v', v, s, m, r, i);
    PushesAlone(s, m, r, i, r.end.line + 1);
    if i > r.end.line { AddEmpty(v[i].spans); }
  }

  /** A line outside the range stays as it is if and only if it does not share its list with one of the range. */
  lemma OthersStay(v': seq<Look>, v: seq<Look>, s: seq<Stored>, m: nat, r: Range, i: nat)
    requires IsPushed(v', v, s, m, r) && i < |s| && !(r.start.line <= i <= r.end.line)
    ensures v'[i] == v[i] <==> forall j: nat :: r.start.line <= j <= r.end.line ==> !Share(s, j, i)
  {
    var n := r.end.line + 1;
    PushedAt(v', v, s, m, r, i);
    if j: nat :| r.start.line <= j <= r.end.line && Share(s, j, i) {
      PushesMore(s, m, r, i, j, n);
      assert |v'[i].spans| > |v[i].spans|;
    } else {
      PushesNone(s, m, r, i, n);
      AddEmpty(v[i].spans);
    }
  }

  /** Other markers stay as they are in any case. */
  lemma OtherMarkersStay(v': seq<Look>, v: seq<Look>, s: seq<Stored>, m: nat, r: Range, x: nat, q: Option<Range>)
    requires IsPushed(v', v, s, m, r) && Marked(v, x, q) && x != m
    ensures Marked(v', x, q)
  {
    forall i | 0 <= i < |v'| ensures Of(v'[i].spans, x) == Piece(x, q, i) {
      PushedAt(v', v, s, m, r, i);
      OthersOf(v[i].spans, s, m, r, i, x);
      assert Of(v[i].spans, x) == Piece(x, q, i);
    }
  }

  lemma OthersOf(spans: seq<Span>, s: seq<Stored>, m: nat, r: Range, i: nat, x: nat)
    requires Proper(Some(r)) && 0 <= r.start.line <= r.end.line < |s| && i < |s| && x != m
    ensures Of(spans + Pushes(s, m, r, i, r.end.line + 1), x) == Of(spans, x)
  {
    OfPushes(s, m, r, i, r.end.line + 1, spans, x);
    AddEmpty(Of(spans, x));
  }
}
