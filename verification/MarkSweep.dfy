/**
 What a line is made of on the screen: its text in fragments, each with the style of its token and the marks that
 cover it.
 */
module MarkSweep {
  import opened ChunkStore
  import opened Text
  import opened Fragments

  datatype Fragment<S> = Fragment(text: string, style: S, marks: seq<Span>)

  /** The numeric value by which spans are sorted: a missing start counts as 0. */
  function Start(s: Span): nat {
    if s.from == None then 0 else s.from.value
  }

  /** The mark covers character `i`. */
  predicate Covers(s: Span, i: nat) {
    Start(s) <= i && (s.to == None || i < s.to.value)
  }

  predicate Sorted(ss: seq<Span>) {
    true == forall i, j :: 0 <= i < j < |ss| ==> Start(ss[i]) <= Start(ss[j])
  }

  function FragmentText<S>(fs: seq<Fragment<S>>): string {
    if fs == [] then "" else FragmentText(fs[..|fs| - 1]) + fs[|fs| - 1].text
  }

  function FragmentStyles<S>(fs: seq<Fragment<S>>): (r: seq<S>)
    ensures |r| == |FragmentText(fs)|
  {
    if fs == [] then [] else FragmentStyles(fs[..|fs| - 1]) + Repeat(|fs[|fs| - 1].text|, fs[|fs| - 1].style)
  }

  /** The marks of every character. */
  function FragmentMarks<S>(fs: seq<Fragment<S>>): (r: seq<seq<Span>>)
    ensures |r| == |FragmentText(fs)|
  {
    if fs == [] then [] else FragmentMarks(fs[..|fs| - 1]) + Repeat(|fs[|fs| - 1].text|, fs[|fs| - 1].marks)
  }

  /**
   The list `marks` holds the marks of `marked` that cover character `i`, each as often as `marked` has it, and no
   others.
   */
  ghost predicate Exact(marks: seq<Span>, marked: seq<Span>, i: nat) {
    true == forall s :: multiset(marks)[s] == if Covers(s, i) then multiset(marked)[s] else 0
  }

  // ----- the sweep over the marks -----

  /** The span ends at `n` or later; `None` is infinity. */
  predicate EndsFrom(s: Span, n: Option<nat>) {
    s.to == None || (n.Some? && s.to.value >= n.value)
  }

  predicate Below(p: nat, n: Option<nat>) {
    n == None || p < n.value
  }

  /** Of the spans `begun` no others are in `marks`, and none is missing unless it has ended. */
  ghost predicate Holds(marks: seq<Span>, begun: seq<Span>, pos: nat) {
    true == ((forall s :: multiset(marks)[s] <= multiset(begun)[s]) &&
      forall s :: multiset(marks)[s] != multiset(begun)[s] ==> s.to.Some? && s.to.value <= pos)
  }

  /**
   The sweep is at `pos`: the first `markpos` spans have begun, those in `marks` have not ended; nothing changes
   before `next`.
   */
  ghost predicate Swept(marked: seq<Span>, markpos: nat, marks: seq<Span>, next: Option<nat>, pos: nat) {
    true == (markpos <= |marked| && (next.Some? ==> pos <= next.value) && StartBy(marked, markpos, pos) &&
      StartFrom(marked, markpos, next) && AllEndFrom(marks, next) && Holds(marks, marked[..markpos], pos))
  }

  predicate StartBy(marked: seq<Span>, markpos: nat, pos: nat)
    requires markpos <= |marked|
  {
    true == forall k :: 0 <= k < markpos ==> Start(marked[k]) <= pos
  }

  predicate StartFrom(marked: seq<Span>, markpos: nat, next: Option<nat>)
    requires markpos <= |marked|
  {
    true == forall k :: markpos <= k < |marked| ==> next.Some? && Start(marked[k]) >= next.value
  }

  ghost predicate AllEndFrom(marks: seq<Span>, next: Option<nat>) {
    true == forall s :: s in marks ==> EndsFrom(s, next)
  }

  /** Up to the next change the marks of the sweep are those that cover the characters. */
  lemma SweptExact(marked: seq<Span>, markpos: nat, marks: seq<Span>, next: Option<nat>, pos: nat, p: nat)
    requires Swept(marked, markpos, marks, next, pos) && pos <= p && Below(p, next)
    ensures Exact(marks, marked, p)
  {
    var begun, rest := marked[..markpos], marked[markpos..];
    assert marked == begun + rest;
    forall s ensures multiset(marks)[s] == if Covers(s, p) then multiset(marked)[s] else 0 {
      if s in marks { MarkCovers(marked, markpos, marks, next, pos, p, s); }
      if Covers(s, p) { NotBegun(marked, markpos, marks, next, pos, p, s); }
    }
  }

  /** A mark of the sweep covers what comes before the next change. */
  lemma MarkCovers(marked: seq<Span>, markpos: nat, marks: seq<Span>, next: Option<nat>, pos: nat, p: nat, s: Span)
    requires Swept(marked, markpos, marks, next, pos) && pos <= p && Below(p, next) && s in marks
    ensures Covers(s, p)
  {
    var begun := marked[..markpos];
    HeldHasBegun(marks, begun, pos, s);
    var k :| 0 <= k < |begun| && begun[k] == s;
    assert begun[k] == marked[k] && Start(marked[k]) <= pos && EndsFrom(s, next);
  }

  lemma HeldHasBegun(marks: seq<Span>, begun: seq<Span>, pos: nat, s: Span)
    requires Holds(marks, begun, pos) && s in marks
    ensures s in begun
  {
    assert multiset(marks)[s] > 0;
    assert multiset(begun)[s] > 0;
  }

  /** A span that has not begun before the next change does not cover what comes before it. */
  lemma NotBegun(marked: seq<Span>, markpos: nat, marks: seq<Span>, next: Option<nat>, pos: nat, p: nat, s: Span)
    requires Swept(marked, markpos, marks, next, pos) && Covers(s, p) && Below(p, next)
    ensures multiset(marked[markpos..])[s] == 0
  {
    var rest := marked[markpos..];
    forall k | 0 <= k < |rest| ensures rest[k] != s {
      assert rest[k] == marked[markpos + k];
    }
  }

  lemma SweptOn(marked: seq<Span>, markpos: nat, marks: seq<Span>, next: Option<nat>, pos: nat, upto: nat)
    requires Swept(marked, markpos, marks, next, pos) && pos <= upto && (next.Some? ==> upto <= next.value)
    ensures Swept(marked, markpos, marks, next, upto)
  {
    StartByOn(marked, markpos, pos, upto);
    HoldsOn(marks, marked[..markpos], pos, upto);
  }

  lemma StartByOn(marked: seq<Span>, markpos: nat, pos: nat, upto: nat)
    requires markpos <= |marked| && StartBy(marked, markpos, pos) && pos <= upto
    ensures StartBy(marked, markpos, upto)
  {
    assert forall k :: 0 <= k < markpos ==> Start(marked[k]) <= pos;
  }

  lemma HoldsOn(marks: seq<Span>, begun: seq<Span>, pos: nat, upto: nat)
    requires Holds(marks, begun, pos) && pos <= upto
    ensures Holds(marks, begun, upto)
  {
    assert forall s :: multiset(marks)[s] <= multiset(begun)[s];
    assert forall s :: multiset(marks)[s] != multiset(begun)[s] ==> s.to.Some? && s.to.value <= pos;
  }

  /** The first loop of `advanceMarks`: the spans that begin at `pos` are added. */
  method BeginMarks(marked: seq<Span>, markpos0: nat, marks0: seq<Span>, pos: nat)
    returns (markpos: nat, marks: seq<Span>)
    requires Sorted(marked) && Forward(marked) && Swept(marked, markpos0, marks0, Some(pos), pos)
    ensures Begun(marked, markpos, marks, pos) && EndsAfter(marks, pos)
    ensures markpos < |marked| ==> marked[markpos].from.Some? && marked[markpos].from.value > pos
  {
    markpos, marks := markpos0, marks0;
    BegunStart(marked, markpos, marks, pos);
    while markpos < |marked| && (marked[markpos].from == Some(pos) || marked[markpos].from == None)
      invariant Begun(marked, markpos, marks, pos) && EndsAfter(marks, pos)
      decreases |marked| - markpos
    {
      BegunNext(marked, markpos, marks, pos);
      marks := marks + [marked[markpos]];
      markpos := markpos + 1;
    }
    if markpos < |marked| { BegunEnd(marked, markpos, marks, pos); }
  }

  lemma BegunStart(marked: seq<Span>, markpos: nat, marks: seq<Span>, pos: nat)
    requires Swept(marked, markpos, marks, Some(pos), pos)
    ensures Begun(marked, markpos, marks, pos) && EndsAfter(marks, pos)
  {
  }

  lemma BegunEnd(marked: seq<Span>, markpos: nat, marks: seq<Span>, pos: nat)
    requires Begun(marked, markpos, marks, pos) && markpos < |marked|
    requires marked[markpos].from.Some? && marked[markpos].from != Some(pos)
    ensures marked[markpos].from.value > pos
  {
  }

  ghost predicate Begun(marked: seq<Span>, markpos: nat, marks: seq<Span>, pos: nat) {
    true == (markpos <= |marked| &&
      (forall k :: 0 <= k < markpos ==> Start(marked[k]) <= pos) &&
      (forall k :: markpos <= k < |marked| ==> Start(marked[k]) >= pos) && Holds(marks, marked[..markpos], pos))
  }

  lemma BegunNext(marked: seq<Span>, markpos: nat, marks: seq<Span>, pos: nat)
    requires Sorted(marked) && Forward(marked) && Begun(marked, markpos, marks, pos) && EndsAfter(marks, pos) &&
      markpos < |marked|
    requires marked[markpos].from == Some(pos) || marked[markpos].from == None
    ensures Begun(marked, markpos + 1, marks + [marked[markpos]], pos) && EndsAfter(marks + [marked[markpos]], pos)
  {
    var m := marked[markpos];
    HoldsPush(marks, marked[..markpos], m, pos);
    assert marked[..markpos + 1] == marked[..markpos] + [m];
    assert IsForward(m) && Start(m) >= pos;
    EndsPush(marks, m, pos);
    StartsNext(marked, markpos, pos);
  }

  lemma EndsPush(marks: seq<Span>, m: Span, pos: nat)
    requires EndsAfter(marks, pos) && EndsFrom(m, Some(pos))
    ensures EndsAfter(marks + [m], pos)
  {
  }

  lemma StartsNext(marked: seq<Span>, markpos: nat, pos: nat)
    requires markpos < |marked| && Start(marked[markpos]) <= pos
    requires forall k :: 0 <= k < markpos ==> Start(marked[k]) <= pos
    ensures forall k :: 0 <= k < markpos + 1 ==> Start(marked[k]) <= pos
  {
  }

  lemma HoldsPush(marks: seq<Span>, begun: seq<Span>, m: Span, pos: nat)
    requires Holds(marks, begun, pos)
    ensures Holds(marks + [m], begun + [m], pos)
  {
  }

  /** The second loop of `advanceMarks`: the marks that end at `pos` go, and the next change is found. */
  method EndMarks(marked: seq<Span>, markpos: nat, marks0: seq<Span>, pos: nat)
    returns (marks: seq<Span>, next: Option<nat>)
    requires Begun(marked, markpos, marks0, pos) &&
      (markpos < |marked| ==> marked[markpos].from.Some? && marked[markpos].from.value > pos)
    requires Sorted(marked) && EndsAfter(marks0, pos)
    ensures Swept(marked, markpos, marks, next, pos) && Below(pos, next)
  {
    marks := marks0;
    next := if markpos < |marked| then marked[markpos].from else None;
    ghost var first := next;
    var i := 0;
    while i < |marks|
      invariant 0 <= i <= |marks| && Begun(marked, markpos, marks, pos) && EndsAfter(marks, pos) && Below(pos, next)
      invariant forall k :: 0 <= k < i ==> EndsFrom(marks[k], next)
      invariant NotAfter(next, first)
      decreases |marks| - i
    {
      var to := marks[i].to;
      if to == Some(pos) {
        BegunDrop(marked, markpos, marks, pos, i);
        marks := marks[..i] + marks[i + 1..];
      } else {
        assert marks[i] in marks && EndsFrom(marks[i], Some(pos));
        if to.Some? && (next == None || to.value < next.value) { next := to; }
        i := i + 1;
      }
    }
    SweptNext(marked, markpos, marks, first, next, pos);
  }

  /** No mark has ended before `pos`. */
  ghost predicate EndsAfter(marks: seq<Span>, pos: nat) {
    true == forall s :: s in marks ==> EndsFrom(s, Some(pos))
  }

  predicate NotAfter(a: Option<nat>, b: Option<nat>) {
    b == None || (a.Some? && a.value <= b.value)
  }

  lemma BegunDrop(marked: seq<Span>, markpos: nat, marks: seq<Span>, pos: nat, i: nat)
    requires Begun(marked, markpos, marks, pos) && EndsAfter(marks, pos) && i < |marks| && marks[i].to == Some(pos)
    ensures var r := marks[..i] + marks[i + 1..]; Begun(marked, markpos, r, pos) && EndsAfter(r, pos)
  {
    var r, m := marks[..i] + marks[i + 1..], marks[i];
    assert marks == marks[..i] + [m] + marks[i + 1..];
    assert multiset(r) == multiset(marks) - multiset{m};
    assert Holds(r, marked[..markpos], pos);
    forall s | s in r ensures EndsFrom(s, Some(pos)) { assert multiset(marks)[s] >= multiset(r)[s] > 0; }
  }

  lemma SweptNext(marked: seq<Span>, markpos: nat, marks: seq<Span>, first: Option<nat>, next: Option<nat>, pos: nat)
    requires Sorted(marked) && Begun(marked, markpos, marks, pos) && Below(pos, next) && NotAfter(next, first)
    requires first == if markpos < |marked| then marked[markpos].from else None
    requires markpos < |marked| ==> first.Some?
    requires forall k :: 0 <= k < |marks| ==> EndsFrom(marks[k], next)
    ensures Swept(marked, markpos, marks, next, pos)
  {
    forall k | markpos <= k < |marked| ensures next.Some? && Start(marked[k]) >= next.value {
      assert Start(marked[markpos]) <= Start(marked[k]);
    }
    assert forall k :: 0 <= k < markpos ==> Start(marked[k]) <= pos;
  }

  /** `advanceMarks` */
  method AdvanceMarks(marked: seq<Span>, markpos0: nat, marks0: seq<Span>, pos: nat)
    returns (markpos: nat, marks: seq<Span>, next: Option<nat>)
    requires Sorted(marked) && Forward(marked) && Swept(marked, markpos0, marks0, Some(pos), pos)
    ensures Swept(marked, markpos, marks, next, pos) && Below(pos, next)
  {
    markpos, marks := BeginMarks(marked, markpos0, marks0, pos);
    marks, next := EndMarks(marked, markpos, marks, pos);
  }

  // ----- the fragments -----

  /** What is still to be shown: the rest `text` of a token, and the tokens `st`. */
  function RestText<S>(text: string, st: seq<(string, S)>): string {
    text + TokenText(st)
  }

  function RestStyles<S>(text: string, style: S, st: seq<(string, S)>): seq<S> {
    Repeat(|text|, style) + TokenStyles(st)
  }

  /** What has been shown and what is still to be shown make up the line, and all marks so far are right. */
  ghost predicate Shown<S>(fs: seq<Fragment<S>>, text: string, style: S, st: seq<(string, S)>, marked: seq<Span>,
                           pos: nat, all: seq<(string, S)>) {
    true == (|FragmentText(fs)| == pos && FragmentText(fs) + RestText(text, st) == TokenText(all) &&
      FragmentStyles(fs) + RestStyles(text, style, st) == TokenStyles(all) &&
      forall p :: 0 <= p < pos ==> Exact(FragmentMarks(fs)[p], marked, p))
  }

  lemma FragmentPush<S>(fs: seq<Fragment<S>>, f: Fragment<S>)
    ensures FragmentText(fs + [f]) == FragmentText(fs) + f.text
    ensures FragmentStyles(fs + [f]) == FragmentStyles(fs) + Repeat(|f.text|, f.style)
    ensures FragmentMarks(fs + [f]) == FragmentMarks(fs) + Repeat(|f.text|, f.marks)
  {
    assert (fs + [f])[..|fs|] == fs;
  }

  /** A piece of a token is shown. */
  lemma ShownPiece<S>(fs: seq<Fragment<S>>, text: string, style: S, st: seq<(string, S)>, marked: seq<Span>, pos: nat,
                      all: seq<(string, S)>, n: nat, marks: seq<Span>)
    requires Shown(fs, text, style, st, marked, pos, all) && n <= |text|
    requires forall p :: pos <= p < pos + n ==> Exact(marks, marked, p)
    ensures Shown(fs + [Fragment(text[..n], style, marks)], text[n..], style, st, marked, pos + n, all)
  {
    var f := Fragment(text[..n], style, marks);
    FragmentPush(fs, f);
    Move(FragmentText(fs), text[..n], text[n..], TokenText(st));
    assert text[..n] + text[n..] == text;
    assert Repeat(n, style) + Repeat(|text| - n, style) == Repeat(|text|, style);
    Move(FragmentStyles(fs), Repeat(n, style), Repeat(|text| - n, style), TokenStyles(st));
    forall p | 0 <= p < pos + n ensures Exact(FragmentMarks(fs + [f])[p], marked, p) {
    }
  }

  lemma Move<T>(a: seq<T>, b: seq<T>, c: seq<T>, d: seq<T>)
    ensures (a + b) + (c + d) == a + ((b + c) + d)
  {
  }

  /** The next token is fetched. */
  lemma ShownToken<S>(fs: seq<Fragment<S>>, style: S, st: seq<(string, S)>, marked: seq<Span>, pos: nat,
                      all: seq<(string, S)>)
    requires Shown(fs, "", style, st, marked, pos, all) && pos < |TokenText(all)|
    ensures st != [] && Shown(fs, st[0].0, st[0].1, st[1..], marked, pos, all)
  {
    assert "" + TokenText(st) == TokenText(st);
    assert Repeat(0, style) + TokenStyles(st) == TokenStyles(st);
    assert RestText("", st) != "";
  }

  /** The inner loop of `getContent`: the text up to `upto` is shown, with the same marks throughout. */
  method ShowUpTo<S>(fs0: seq<Fragment<S>>, text0: string, style0: S, st0: seq<(string, S)>, pos0: nat, upto: nat,
                     marks: seq<Span>, ghost marked: seq<Span>, ghost all: seq<(string, S)>)
    returns (fs: seq<Fragment<S>>, text: string, style: S, st: seq<(string, S)>)
    requires Shown(fs0, text0, style0, st0, marked, pos0, all) && pos0 < upto <= |TokenText(all)|
    requires forall p :: pos0 <= p < upto ==> Exact(marks, marked, p)
    ensures Shown(fs, text, style, st, marked, upto, all)
  {
    fs, text, style, st := fs0, text0, style0, st0;
    var pos: nat := pos0;
    while true
      invariant Shown(fs, text, style, st, marked, pos, all) && pos0 <= pos < upto
      decreases |st|
    {
      if text != "" {
        var end := pos + |text|;
        var n := if end > upto then upto - pos else |text|;
        ShownPiece(fs, text, style, st, marked, pos, all, n, marks);
        fs := fs + [Fragment(text[..n], style, marks)];
        if end >= upto {
          text := text[upto - pos..];
          return;
        }
        assert text[n..] == "";
        pos := end;
      }
      ShownToken(fs, style, st, marked, pos, all);
      text, style, st := st[0].0, st[0].1, st[1..];
    }
  }

  /** `getContent` of a line with marks, without a wrapping point; `marked` has been sorted. */
  method ShowMarked<S>(all: seq<(string, S)>, marked: seq<Span>, none: S) returns (fs: seq<Fragment<S>>)
    requires Sorted(marked) && Forward(marked) && marked != []
    ensures FragmentText(fs) == TokenText(all) && FragmentStyles(fs) == TokenStyles(all)
    ensures forall p :: 0 <= p < |TokenText(all)| ==> Exact(FragmentMarks(fs)[p], marked, p)
  {
    var len := |TokenText(all)|;
    var pos, text, style, st := 0, "", none, all;
    var next: Option<nat>, marks, markpos := Some(Start(marked[0])), [], 0;
    fs := [];
    ShownStart(all, none, marked);
    SweptStart(marked);
    while pos < len
      invariant pos <= len && Shown(fs, text, style, st, marked, pos, all) && Swept(marked, markpos, marks, next, pos)
    {
      if next == Some(pos) {
        markpos, marks, next := AdvanceMarks(marked, markpos, marks, pos);
      }
      var upto := if next.Some? && next.value < len then next.value else len;
      forall p | pos <= p < upto ensures Exact(marks, marked, p) { SweptExact(marked, markpos, marks, next, pos, p); }
      SweptOn(marked, markpos, marks, next, pos, upto);
      fs, text, style, st := ShowUpTo(fs, text, style, st, pos, upto, marks, marked, all);
      pos := upto;
    }
    ShownEnd(fs, text, style, st, marked, all);
  }

  lemma ShownStart<S>(all: seq<(string, S)>, style: S, marked: seq<Span>)
    ensures Shown([], "", style, all, marked, 0, all)
  {
    assert "" + TokenText(all) == TokenText(all) && Repeat(0, style) + TokenStyles(all) == TokenStyles(all);
  }

  lemma ShownEnd<S>(fs: seq<Fragment<S>>, text: string, style: S, st: seq<(string, S)>, marked: seq<Span>,
                    all: seq<(string, S)>)
    requires Shown(fs, text, style, st, marked, |TokenText(all)|, all)
    ensures FragmentText(fs) == TokenText(all) && FragmentStyles(fs) == TokenStyles(all)
    ensures forall p :: 0 <= p < |TokenText(all)| ==> Exact(FragmentMarks(fs)[p], marked, p)
  {
  }

  lemma SweptStart(marked: seq<Span>)
    requires Sorted(marked) && marked != []
    ensures Swept(marked, 0, [], Some(Start(marked[0])), 0)
  {
  }

  // ----- the line -----

  lemma InsertSorted(ss: seq<Span>, x: Span, i: nat)
    requires Sorted(ss) && i <= |ss|
    requires (forall k :: 0 <= k < i ==> Start(ss[k]) <= Start(x)) && forall k :: i <= k < |ss| ==>
      Start(x) <= Start(ss[k])
    ensures var r := ss[..i] + [x] + ss[i..]; Sorted(r) && multiset(r) == multiset(ss) + multiset{x} && |r| == |ss| + 1
  {
    var r := ss[..i] + [x] + ss[i..];
    assert ss == ss[..i] + ss[i..];
    forall j, k | 0 <= j < k < |r| ensures Start(r[j]) <= Start(r[k]) {
      if j != i && k != i {
        var j', k' := if j < i then j else j - 1, if k < i then k else k - 1;
        assert r[j] == ss[j'] && r[k] == ss[k'];
      } else if j == i {
        assert r[k] == ss[k - 1];
      } else {
        assert r[j] == ss[j];
      }
    }
  }

  method PlaceFor(r: seq<Span>, x: Span) returns (i: nat)
    requires Sorted(r)
    ensures i <= |r| && (forall k :: 0 <= k < i ==> Start(r[k]) <= Start(x)) && forall k :: i <= k < |r| ==>
      Start(x) <= Start(r[k])
  {
    i := |r|;
    while i > 0 && Start(r[i - 1]) > Start(x)
      invariant 0 <= i <= |r| && forall k :: i <= k < |r| ==> Start(x) <= Start(r[k])
    {
      i := i - 1;
    }
  }

  /** `marked.sort(...)`: some sorted arrangement of the spans. */
  method SortSpans(marked: seq<Span>) returns (r: seq<Span>)
    ensures Sorted(r) && multiset(r) == multiset(marked) && |r| == |marked|
  {
    r := [];
    for n := 0 to |marked|
      invariant Sorted(r) && multiset(r) == multiset(marked[..n]) && |r| == n
    {
      var x := marked[n];
      var i := PlaceFor(r, x);
      InsertSorted(r, x, i);
      r := r[..i] + [x] + r[i..];
      OneMore(marked, n);
    }
    assert marked[..|marked|] == marked;
  }

  lemma OneMore(marked: seq<Span>, n: nat)
    requires n < |marked|
    ensures multiset(marked[..n + 1]) == multiset(marked[..n]) + multiset{marked[n]}
  {
    assert marked[..n + 1] == marked[..n] + [marked[n]];
  }

  lemma SameForward(a: seq<Span>, b: seq<Span>)
    requires multiset(a) == multiset(b) && Forward(a)
    ensures Forward(b)
  {
    forall i | 0 <= i < |b| ensures IsForward(b[i]) { assert b[i] in multiset(a); }
  }

  /**
   What `getContent` shows of a line without a wrapping point: `st` are the tokens of its text, `none` stands for no
   style.
   */
  method GetContent<S>(text: string, st: seq<(string, S)>, marked: seq<Span>, none: S) returns (fs: seq<Fragment<S>>)
    requires TokenText(st) == text && Forward(marked)
    ensures text == "" ==> fs == [Fragment(" ", none, [])]
    ensures text != "" ==> FragmentText(fs) == text && FragmentStyles(fs) == TokenStyles(st) &&
                           forall p :: 0 <= p < |text| ==> Exact(FragmentMarks(fs)[p], marked, p)
  {
    if text == "" {
      return [Fragment(" ", none, [])];
    }
    if |marked| == 0 {
      fs := ShowPlain(st, |text|, none);
      forall p | 0 <= p < |text| ensures Exact(FragmentMarks(fs)[p], marked, p) {
        assert Exact([], marked, p);
      }
    } else {
      var sorted := SortSpans(marked);
      SameForward(marked, sorted);
      fs := ShowMarked(st, sorted, none);
      forall p | 0 <= p < |text| ensures Exact(FragmentMarks(fs)[p], marked, p) {
        assert Exact(FragmentMarks(fs)[p], sorted, p);
      }
    }
  }

  /** The text, cut to length `n`. */
  function Fitting(str: string, n: nat): (r: string)
    ensures |r| <= n && |r| <= |str| && r == str[..|r|] && (|r| == n || r == str)
  {
    if |str| > n then str[..n] else str
  }

  method ShowPlain<S>(all: seq<(string, S)>, len: nat, none: S) returns (fs: seq<Fragment<S>>)
    requires len == |TokenText(all)|
    ensures FragmentText(fs) == TokenText(all) && FragmentStyles(fs) == TokenStyles(all)
    ensures forall p :: 0 <= p < len ==> FragmentMarks(fs)[p] == []
  {
    fs := [];
    var ch: nat, i := 0, 0;
    ShownStart(all, none, []);
    assert all[0..] == all;
    while ch < len
      invariant 0 <= i <= |all| && ch <= len && Shown(fs, "", none, all[i..], [], ch, all)
      invariant forall p :: 0 <= p < ch ==> FragmentMarks(fs)[p] == []
      decreases |all| - i
    {
      ShownToken(fs, none, all[i..], [], ch, all);
      assert all[i..][0] == all[i] && all[i..][1..] == all[i + 1..];
      var style, l := all[i].1, |all[i].0|;
      var str := Fitting(all[i].0, len - ch);
      RestFits(fs, all[i].0, style, all[i + 1..], [], ch, all);
      forall p | ch <= p < ch + l ensures Exact([], [], p) { }
      ShownPiece(fs, str, style, all[i + 1..], [], ch, all, l, []);
      assert str[..l] == str && str[l..] == "";
      FragmentPush(fs, Fragment(str, style, []));
      fs := fs + [Fragment(str, style, [])];
      ShownStyle(fs, style, none, all[i + 1..], [], ch + l, all);
      ch := ch + l;
      i := i + 1;
    }
    ShownEnd(fs, "", none, all[i..], [], all);
  }

  lemma RestFits<S>(fs: seq<Fragment<S>>, text: string, style: S, st: seq<(string, S)>, marked: seq<Span>, pos: nat,
                    all: seq<(string, S)>)
    requires Shown(fs, text, style, st, marked, pos, all)
    ensures pos + |text| <= |TokenText(all)|
  {
  }

  /** With no text left the style does not matter. */
  lemma ShownStyle<S>(fs: seq<Fragment<S>>, style: S, other: S, st: seq<(string, S)>, marked: seq<Span>, pos: nat,
                      all: seq<(string, S)>)
    requires Shown(fs, "", style, st, marked, pos, all)
    ensures Shown(fs, "", other, st, marked, pos, all)
  {
    assert Repeat(0, style) == Repeat(0, other);
  }
}
