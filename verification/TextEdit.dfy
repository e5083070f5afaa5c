/** Replacing a range of the text: the edit of the tree of lines, in its four structural cases. */
module TextEdit {
  import opened Sequences
  import opened ChunkStore
  import opened Text
  import opened ChunkTree
  import opened Document
  import opened Lookup

  ghost function Show(l: Line): Stored
    reads l`text, l`spans
  {
    HL(l.text, l.spans)
  }

  /** What a sequence of lines says. */
  ghost function Shown(ls: seq<Line>): (r: seq<Stored>)
    reads ls`text, ls`spans
    ensures |r| == |ls| && forall i :: 0 <= i < |ls| ==> r[i] == Show(ls[i])
  {
    if ls == [] then [] else [Show(ls[0])] + Shown(ls[1..])
  }

  /** The lines `ls` say `s`. */
  ghost predicate Says(ls: seq<Line>, s: seq<Stored>)
    reads ls`text, ls`spans
  {
    true == (|ls| == |s| && forall i :: 0 <= i < |ls| ==> Show(ls[i]) == s[i])
  }

  lemma SaysShown(ls: seq<Line>, s: seq<Stored>)
    ensures Says(ls, s) <==> s == Shown(ls)
  {
  }

  /** The elements `a..b` of `s` replaced by `m`. */
  function Put<T>(s: seq<T>, a: nat, b: nat, m: seq<T>): seq<T>
    requires a <= b <= |s|
  {
    s[..a] + m + s[b..]
  }

  /** `r == Put(s, a, b, m)`, to be looked into only where `Put` is mentioned. */
  ghost predicate IsPut<T>(r: seq<T>, s: seq<T>, a: nat, b: nat, m: seq<T>) {
    true == (a <= b <= |s| && |r| == |s| + |m| - (b - a) &&
      forall x: nat {:trigger Put(s, a, x, m)} :: x == b ==> r == Put(s, a, x, m))
  }

  lemma PutIs<T>(s: seq<T>, a: nat, b: nat, m: seq<T>)
    requires a <= b <= |s|
    ensures IsPut(Put(s, a, b, m), s, a, b, m)
  {
  }

  lemma PutNone<T>(s: seq<T>, a: nat, n: nat)
    requires a + n <= |s|
    ensures IsPut(Cut(s, a, n), s, a, a + n, [])
  {
    assert Put(s, a, a + n, []) == Cut(s, a, n);
  }

  lemma CutSays(c: seq<Line>, s: seq<Stored>, a: nat, n: nat)
    requires Says(c, s) && a + n <= |c|
    ensures a + n <= |s| && Says(Cut(c, a, n), Cut(s, a, n)) && |Cut(c, a, n)| == |Cut(s, a, n)|
  {
  }

  lemma PutSays(c: seq<Line>, s: seq<Stored>, a: nat, b: nat, m: seq<Line>, h: seq<Stored>)
    requires Says(c, s) && a <= b <= |c| && Says(m, h)
    ensures Says(Put(c, a, b, m), Put(s, a, b, h))
  {
  }

  ghost predicate Outside(ls: seq<Line>, L: set<Line>) {
    true == (NoDup(ls) && forall l :: l in ls ==> l !in L)
  }

  /** The lines `ls` are of height 1. */
  ghost predicate OneHigh(ls: seq<Line>)
    reads ls`height
  {
    true == forall i :: 0 <= i < |ls| ==> ls[i].height == 1
  }

  method NewLines(hls: seq<Stored>, ghost L: set<Line>) returns (added: seq<Line>)
    ensures Says(added, hls) && Outside(added, L) && fresh(added) && OneHigh(added)
  {
    added := [];
    for i := 0 to |hls|
      invariant |added| == i && forall j :: 0 <= j < i ==> fresh(added[j]) && Show(added[j]) == hls[j] && added[j] !in L
      invariant NoDup(added) && OneHigh(added)
    {
      var l := new Line(hls[i].text, hls[i].spans);
      added := added + [l];
    }
  }

  // ----- the steps; `c` are the lines and `s` what they say -----

  ghost predicate Holds(d: Doc, c: seq<Line>, s: seq<Stored>)
    reads d, d.root, d.chunks, d.lines, c
  {
    true == (d.Valid() && d.Contents() == c && Says(c, s) && |c| == |s|)
  }

  /** `Line.update`, for line `i` of the document. */
  method UpdateLine(d: Doc, ghost i: nat, l: Line, text: string, spans: Option<nat>, ghost c: seq<Line>,
                    ghost s: seq<Stored>) returns (ghost s': seq<Stored>)
    requires Holds(d, c, s) && i < |c| && l == c[i]
    modifies l`text, l`spans
    ensures Holds(d, c, s') && IsPut(s', s, i, i + 1, [HL(text, spans)])
  {
    assert d.Intact();
    l.Update(text, spans);
    s' := Put(s, i, i + 1, [HL(text, spans)]);
  }

  /** `doc.remove` */
  method RemoveLines(d: Doc, at: nat, n: nat, ghost c: seq<Line>, ghost s: seq<Stored>)
    returns (ghost c': seq<Line>, ghost s': seq<Stored>)
    requires Holds(d, c, s) && at + n <= |c|
    modifies d, d.chunks, d.lines`parent
    ensures Holds(d, c', s') && IsPut(c', c, at, at + n, []) && IsPut(s', s, at, at + n, [])
    ensures d.lines <= old(d.lines) && fresh(d.chunks - old(d.chunks))
  {
    CutSays(c, s, at, n);
    c', s' := Cut(c, at, n), Cut(s, at, n);
    PutNone(c, at, n);
    PutNone(s, at, n);
    d.Remove(at, n);
  }

  /** `doc.insert` */
  method InsertLines(d: Doc, at: nat, added: seq<Line>, ghost h: seq<Stored>, ghost c: seq<Line>, ghost s: seq<Stored>)
    returns (ghost c': seq<Line>, ghost s': seq<Stored>)
    requires Holds(d, c, s) && at <= |c| && Outside(added, d.lines) && Says(added, h)
    modifies d, d.chunks, d.lines`parent, added`parent
    ensures Holds(d, c', s') && IsPut(c', c, at, at, added) && IsPut(s', s, at, at, h)
    ensures d.lines == old(d.lines) + Elems(added) && fresh(d.chunks - old(d.chunks))
  {
    PutSays(c, s, at, at, added, h);
    c', s' := Put(c, at, at, added), Put(s, at, at, h);
    PutIs(c, at, at, added);
    PutIs(s, at, at, h);
    d.Insert(at, added);
  }

  // ----- the cases on values -----

  /** `r == ReplaceRange(s, from, to, ls)`, to be looked into only where `ReplaceRange` is mentioned. */
  ghost predicate IsRange(r: seq<Stored>, s: seq<Stored>, from: Pos, to: Pos, ls: seq<Stored>) {
    true == (ValidRange(s, from, to) && |ls| >= 1 &&
      forall x: Pos {:trigger ReplaceRange(s, from, x, ls)} :: x == to ==> r == ReplaceRange(s, from, x, ls))
  }

  /** The elements of `c` outside `a..b` are still there. */
  ghost predicate Kept<T>(c': seq<T>, c: seq<T>, a: int, b: int, n: int) {
    true == (0 <= a <= b <= |c| && n >= 0 && |c'| == |c| + n - (b - a) && c'[..a] == c[..a] && c'[a + n..] == c[b..])
  }

  /** Outside the lines `a..b` the lines of `c` are still there, and the `n` lines between are of height 1. */
  ghost predicate Swapped(c': seq<Line>, c: seq<Line>, a: int, b: int, n: int)
    reads c'`height
  {
    true == (Kept(c', c, a, b, n) && forall i :: a <= i < a + n && i < |c'| ==> c'[i].height == 1)
  }

  lemma PutSwaps(c': seq<Line>, c: seq<Line>, a: nat, b: nat, added: seq<Line>)
    requires IsPut(c', c, a, b, added) && OneHigh(added)
    ensures Swapped(c', c, a, b, |added|)
  {
    assert c' == Put(c, a, b, added);
  }

  lemma SwapNothing(c: seq<Line>, a: nat)
    requires a <= |c|
    ensures Swapped(c, c, a, a, 0)
  {
  }

  lemma PutNothing<T>(s: seq<T>, a: nat)
    requires a <= |s|
    ensures IsPut(s, s, a, a, [])
  {
  }

  lemma PutKeeps<T>(c0: seq<T>, c1: seq<T>, c2: seq<T>, a: nat, b: nat, m: seq<T>)
    requires IsPut(c1, c0, a, b, []) && IsPut(c2, c1, a, a, m)
    ensures IsPut(c2, c0, a, b, m) && Kept(c2, c0, a, b, |m|)
  {
    var p1, p2 := Put(c0, a, b, []), Put(c1, a, a, m);
    assert c1 == p1 && c2 == p2;
    assert p2 == Put(c0, a, b, m);
  }

  /** A whole-line replace: the last line is kept and moves. */
  lemma WholeLines(s: seq<Stored>, s1: seq<Stored>, s2: seq<Stored>, from: Pos, to: Pos, ls: seq<Stored>)
    requires ValidRange(s, from, to) && |ls| >= 1 && from.ch == to.ch == 0 && ls[|ls| - 1].text == ""
    requires IsPut(s1, s, to.line, to.line + 1, [HL(s[to.line].text, ls[|ls| - 1].spans)])
    requires IsPut(s2, s1, from.line, to.line, ls[..|ls| - 1])
    ensures IsRange(s2, s, from, to, ls)
  {
    var e, post := |ls| - 1, s[to.line].text;
    assert s1 == Put(s, to.line, to.line + 1, [HL(post, ls[e].spans)]);
    assert s2 == Put(s1, from.line, to.line, ls[..e]);
    assert s[to.line].text[0..] == post && s[from.line].text[..0] == "";
    assert ls[e].text + post == post && "" + "" + post == post;
    assert "" + ls[0].text == ls[0].text && ls[0] == HL(ls[0].text, ls[0].spans);
    assert e > 0 ==> ls[..e] == [ls[0]] + ls[1..e];
    assert Sewn("", ls, post) == ls[..e] + [HL(post, ls[e].spans)];
    assert s2 == ReplaceRange(s, from, to, ls);
  }

  lemma OneForOne(s: seq<Stored>, s1: seq<Stored>, from: Pos, to: Pos, ls: seq<Stored>)
    requires ValidRange(s, from, to) && |ls| == 1 && from.line == to.line
    requires IsPut(s1, s, from.line, from.line + 1,
      [HL(s[from.line].text[..from.ch] + ls[0].text + s[to.line].text[to.ch..], ls[0].spans)])
    ensures IsRange(s1, s, from, to, ls)
  {
    assert s1 == Put(s, from.line, from.line + 1,
      [HL(s[from.line].text[..from.ch] + ls[0].text + s[to.line].text[to.ch..], ls[0].spans)]);
    assert s1 == ReplaceRange(s, from, to, ls);
  }

  lemma OneForMany(s: seq<Stored>, s1: seq<Stored>, s2: seq<Stored>, from: Pos, to: Pos, ls: seq<Stored>, first: Stored,
                   last: Stored)
    requires ValidRange(s, from, to) && |ls| > 1 && from.line == to.line
    requires first == HL(s[from.line].text[..from.ch] + ls[0].text, ls[0].spans)
    requires last == HL(ls[|ls| - 1].text + s[to.line].text[to.ch..], ls[|ls| - 1].spans)
    requires IsPut(s1, s, from.line, from.line + 1, [first]) &&
      IsPut(s2, s1, from.line + 1, from.line + 1, ls[1..|ls| - 1] + [last])
    ensures IsRange(s2, s, from, to, ls)
  {
    assert s1 == Put(s, from.line, from.line + 1, [first]);
    assert s2 == Put(s1, from.line + 1, from.line + 1, ls[1..|ls| - 1] + [last]);
    assert s2 == ReplaceRange(s, from, to, ls);
  }

  lemma ManyForOne(s: seq<Stored>, s1: seq<Stored>, s2: seq<Stored>, from: Pos, to: Pos, ls: seq<Stored>, first: Stored)
    requires ValidRange(s, from, to) && |ls| == 1 && from.line < to.line
    requires first == HL(s[from.line].text[..from.ch] + ls[0].text + s[to.line].text[to.ch..], ls[0].spans)
    requires IsPut(s1, s, from.line, from.line + 1, [first]) && IsPut(s2, s1, from.line + 1, to.line + 1, [])
    ensures IsRange(s2, s, from, to, ls)
  {
    assert s1 == Put(s, from.line, from.line + 1, [first]);
    assert s2 == Put(s1, from.line + 1, to.line + 1, []);
    assert s2 == ReplaceRange(s, from, to, ls);
  }

  lemma ManyForMany(s: seq<Stored>, s1: seq<Stored>, s2: seq<Stored>, s3: seq<Stored>, from: Pos, to: Pos,
                    ls: seq<Stored>, first: Stored, last: Stored)
    requires ValidRange(s, from, to) && |ls| > 1 && from.line < to.line
    requires first == HL(s[from.line].text[..from.ch] + ls[0].text, ls[0].spans)
    requires last == HL(ls[|ls| - 1].text + s[to.line].text[to.ch..], ls[|ls| - 1].spans)
    requires IsPut(s1, s, from.line, from.line + 1, [first]) && IsPut(s2, s1, to.line, to.line + 1, [last])
    requires IsPut(s3, s2, from.line + 1, to.line, ls[1..|ls| - 1])
    ensures IsRange(s3, s, from, to, ls)
  {
    assert s1 == Put(s, from.line, from.line + 1, [first]);
    assert s2 == Put(s1, to.line, to.line + 1, [last]);
    assert s3 == Put(s2, from.line + 1, to.line, ls[1..|ls| - 1]);
    assert s3 == ReplaceRange(s, from, to, ls);
  }

  // ----- the edit -----

  predicate WholeLineReplace(from: Pos, to: Pos, ls: seq<Stored>) {
    true == (|ls| >= 1 && OfWholeLines(from, to, ls[|ls| - 1].text))
  }

  /** Whole lines are replaced, so that the line in which the range ends is kept; `last` is the last new line. */
  predicate OfWholeLines(from: Pos, to: Pos, last: string) {
    true == (from.ch == 0 && to.ch == 0 && last == "")
  }

  /**
   The line objects from `CutFrom` to `CutTo` are taken out, and `NewCount` new ones are put in their place; `n` is the
   number of lines of the new text.
   */
  function CutFrom(from: Pos, to: Pos, n: int, last: string): int {
    if OfWholeLines(from, to, last) then from.line else from.line + 1
  }

  function CutTo(from: Pos, to: Pos, n: int, last: string): int {
    if OfWholeLines(from, to, last) || (from.line < to.line && n > 1) then to.line else to.line + 1
  }

  function NewCount(from: Pos, to: Pos, n: int, last: string): int {
    if OfWholeLines(from, to, last) || from.line == to.line then n - 1 else if n > 1 then n - 2 else 0
  }

  /** Exactly the lines of the cut give way to lines of height 1. */
  ghost predicate Exchanged(c': seq<Line>, c: seq<Line>, from: Pos, to: Pos, n: int, last: string)
    reads c'`height
  {
    true == Swapped(c', c, CutFrom(from, to, n, last), CutTo(from, to, n, last), NewCount(from, to, n, last))
  }

  /**
   Which line objects stay in the document, and where: all lines outside the range, and one or both of its end lines.
   */
  ghost predicate Survive<T>(c': seq<T>, c: seq<T>, from: Pos, to: Pos, ls: seq<Stored>) {
    var n := |ls| - 1;
    true == (0 <= from.line <= to.line < |c| && n >= 0 && |c'| == |c| + n - (to.line - from.line) &&
      c'[..from.line] == c[..from.line] && c'[from.line + n + 1..] == c[to.line + 1..] &&
      (!WholeLineReplace(from, to, ls) ==> c'[from.line] == c[from.line]) &&
      (WholeLineReplace(from, to, ls) || (from.line < to.line && n > 0) ==> c'[from.line + n] == c[to.line]))
  }

  lemma KeptSurvives<T>(c': seq<T>, c: seq<T>, a: int, b: int, n: int, i: int, j: int)
    requires Kept(c', c, a, b, n) && 0 <= i <= a && b <= j <= |c|
    ensures c'[..i] == c[..i] && c'[j - (b - a) + n..] == c[j..]
    ensures i < a ==> c'[i] == c[i]
    ensures b < |c| ==> c'[a + n] == c[b]
  {
    assert c'[..a][..i] == c'[..i] && c[..a][..i] == c[..i];
    assert c'[a + n..][j - b..] == c'[j - (b - a) + n..] && c[b..][j - b..] == c[j..];
    assert i < a ==> c'[..a][i] == c'[i] && c[..a][i] == c[i];
    assert b < |c| ==> c'[a + n..][0] == c'[a + n] && c[b..][0] == c[b];
  }

  lemma ExchangeWhole(c': seq<Line>, c: seq<Line>, from: Pos, to: Pos, n: int, last: string)
    requires from.ch == to.ch == 0 && last == "" && Swapped(c', c, from.line, to.line, n - 1)
    ensures Exchanged(c', c, from, to, n, last)
  {
  }

  lemma ExchangeInLine(c': seq<Line>, c: seq<Line>, from: Pos, to: Pos, n: int, last: string)
    requires !(from.ch == 0 && to.ch == 0 && last == "") && from.line == to.line
    requires Swapped(c', c, from.line + 1, to.line + 1, n - 1)
    ensures Exchanged(c', c, from, to, n, last)
  {
  }

  lemma ExchangeAcross(c': seq<Line>, c: seq<Line>, from: Pos, to: Pos, n: int, last: string)
    requires !(from.ch == 0 && to.ch == 0 && last == "") && from.line < to.line && n >= 1
    requires Swapped(c', c, from.line + 1, if n == 1 then to.line + 1 else to.line, if n == 1 then 0 else n - 2)
    ensures Exchanged(c', c, from, to, n, last)
  {
  }

  // ----- heights -----

  /** Those of the lines that are new are one line high. */
  ghost predicate HighLines(lines: set<Line>, before: set<Line>)
    reads lines`height
  {
    true == forall l :: l in lines && l !in before ==> l.height == 1
  }

  /** The height of the lines that an edit takes out. */
  ghost function CutHeight(c: seq<Line>, from: Pos, to: Pos, n: int, last: string): int
    reads c
  {
    var a, b := CutFrom(from, to, n, last), CutTo(from, to, n, last);
    if 0 <= a <= b <= |c| then Sum(Heights(c[a..b])) else 0
  }

  /** The height of the document after an edit: less the lines that are gone, and one more for each new line. */
  lemma ExchangeHeight(d: Doc, c: seq<Line>, hs: seq<int>, from: Pos, to: Pos, n: int, last: string)
    requires d.Valid() && Exchanged(d.Contents(), c, from, to, n, last) && |hs| == |c|
    requires forall i :: 0 <= i < |c| ==> c[i].height == hs[i]
    ensures var a, b := CutFrom(from, to, n, last), CutTo(from, to, n, last);
            0 <= a <= b <= |hs| && d.root.height == Sum(hs) - Sum(hs[a..b]) + NewCount(from, to, n, last)
  {
    HeightsAfter(d.Contents(), c, hs, from, to, n, last);
    HeightAfter(Heights(d.Contents()), hs, from, to, n, last);
    assert d.root in d.chunks;
    Shape(d, d.root);
  }

  /**
   The lines `c` of the document have been exchanged, and its height is now `rest`, that of the lines that stayed, and
   one more for each new line.
   */
  ghost predicate Resized(d: Doc, c: seq<Line>, rest: int, from: Pos, to: Pos, n: int, last: string)
    reads d.root, d.Contents()
  {
    true == (Exchanged(d.Contents(), c, from, to, n, last) && d.root.height == rest + NewCount(from, to, n, last))
  }

  lemma CutIs(d: Doc, c: seq<Line>, hs: seq<int>, from: Pos, to: Pos, n: int, last: string)
    requires d.Valid() && d.Contents() == c && hs == Heights(c)
    ensures d.root.height == Sum(hs)
    ensures var a, b := CutFrom(from, to, n, last), CutTo(from, to, n, last);
            0 <= a <= b <= |hs| ==> CutHeight(c, from, to, n, last) == Sum(hs[a..b])
  {
    Shape(d, d.root);
    var a, b := CutFrom(from, to, n, last), CutTo(from, to, n, last);
    if 0 <= a <= b <= |hs| { assert Heights(c[a..b]) == hs[a..b]; }
  }

  lemma ExchangeHigh(d: Doc, c: seq<Line>, L: set<Line>, from: Pos, to: Pos, n: int, last: string)
    requires d.lines == Elems(d.Contents()) && Exchanged(d.Contents(), c, from, to, n, last) && Elems(c) == L
    ensures HighLines(d.lines, L)
  {
    var c' := d.Contents();
    var a, b, k := CutFrom(from, to, n, last), CutTo(from, to, n, last), NewCount(from, to, n, last);
    forall i | 0 <= i < |c'| ensures c'[i] in L || c'[i].height == 1 {
      if i < a {
        assert c'[i] == c'[..a][i] == c[..a][i] == c[i];
      } else if i >= a + k {
        assert c'[i] == c'[a + k..][i - (a + k)] == c[b..][i - (a + k)] == c[i - (a + k) + b];
      }
    }
  }

  function Ones(n: int): (r: seq<int>)
    ensures |r| == (if n < 0 then 0 else n) && forall i :: 0 <= i < |r| ==> r[i] == 1
  {
    if n <= 0 then [] else Ones(n - 1) + [1]
  }

  lemma {:induction false} SumOnes(n: nat)
    ensures Sum(Ones(n)) == n
  {
    if n > 0 {
      SumOnes(n - 1);
      SumConcat(Ones(n - 1), [1]);
      assert [1][1..] == [];
    }
  }

  /** The heights of the lines after an edit: those of the lines that stay, and 1 for each new line. */
  ghost predicate NewHeights(hs': seq<int>, hs: seq<int>, from: Pos, to: Pos, n: int, last: string) {
    var a, b := CutFrom(from, to, n, last), CutTo(from, to, n, last);
    true == (0 <= a <= b <= |hs| && NewCount(from, to, n, last) >= 0 &&
      hs' == hs[..a] + Ones(NewCount(from, to, n, last)) + hs[b..])
  }

  /** `hs` are the heights that the lines had before. */
  lemma HeightsAfter(c': seq<Line>, c: seq<Line>, hs: seq<int>, from: Pos, to: Pos, n: int, last: string)
    requires Exchanged(c', c, from, to, n, last) && |hs| == |c| && forall i :: 0 <= i < |c| ==> c[i].height == hs[i]
    ensures NewHeights(Heights(c'), hs, from, to, n, last)
  {
    var a, b, k := CutFrom(from, to, n, last), CutTo(from, to, n, last), NewCount(from, to, n, last);
    var r := hs[..a] + Ones(k) + hs[b..];
    forall i | 0 <= i < |c'| ensures Heights(c')[i] == r[i] {
      if i < a {
        assert c'[i] == c'[..a][i] == c[..a][i] == c[i];
      } else if i >= a + k {
        assert c'[i] == c'[a + k..][i - (a + k)] == c[b..][i - (a + k)] == c[i - (a + k) + b];
      }
    }
  }

  lemma HeightAfter(hs': seq<int>, hs: seq<int>, from: Pos, to: Pos, n: int, last: string)
    requires NewHeights(hs', hs, from, to, n, last)
    ensures var a, b := CutFrom(from, to, n, last), CutTo(from, to, n, last);
            0 <= a <= b <= |hs| && Sum(hs') == Sum(hs) - Sum(hs[a..b]) + NewCount(from, to, n, last)
  {
    var a, b, k := CutFrom(from, to, n, last), CutTo(from, to, n, last), NewCount(from, to, n, last);
    assert hs == hs[..a] + hs[a..b] + hs[b..];
    SumThree(hs[..a], hs[a..b], hs[b..]);
    SumThree(hs[..a], Ones(k), hs[b..]);
    SumOnes(k);
  }

  lemma ExchangeSurvives(c': seq<Line>, c: seq<Line>, from: Pos, to: Pos, ls: seq<Stored>)
    requires |ls| >= 1 && 0 <= from.line <= to.line < |c| && Exchanged(c', c, from, to, |ls|, ls[|ls| - 1].text)
    ensures Survive(c', c, from, to, ls)
  {
    var n, last := |ls|, ls[|ls| - 1].text;
    KeptSurvives(c', c, CutFrom(from, to, n, last), CutTo(from, to, n, last), NewCount(from, to, n, last), from.line,
      to.line + 1);
  }

  /** The lines `a..b` give way to `added`. */
  method SwapLines(d: Doc, a: nat, b: nat, added: seq<Line>, ghost h: seq<Stored>, ghost c: seq<Line>,
                   ghost s: seq<Stored>) returns (ghost c': seq<Line>, ghost s': seq<Stored>)
    requires Holds(d, c, s) && a <= b <= |c| && Outside(added, d.lines) && Says(added, h) && |added| == |h|
    requires OneHigh(added)
    modifies d, d.chunks, d.lines`parent, added`parent
    ensures Holds(d, c', s') && IsPut(s', s, a, b, h) && Swapped(c', c, a, b, |added|)
    ensures d.lines <= old(d.lines) + Elems(added) && fresh(d.chunks - old(d.chunks))
  {
    ghost var c1, s1 := c, s;
    var n := b - a;
    assert a + n == b;
    PutNothing(c, a);
    PutNothing(s, a);
    if n > 0 { c1, s1 := RemoveLines(d, a, n, c, s); }
    c', s' := c1, s1;
    PutNothing(c1, a);
    PutNothing(s1, a);
    if |added| > 0 { c', s' := InsertLines(d, a, added, h, c1, s1); }
    PutKeeps(c, c1, c', a, b, added);
    PutKeeps(s, s1, s', a, b, h);
    PutSwaps(c', c, a, b, added);
  }

  /** Line `n` keeps its text and gets other spans. */
  method KeepText(d: Doc, n: nat, spans: Option<nat>, ghost c: seq<Line>, ghost s: seq<Stored>)
    returns (ghost s': seq<Stored>)
    requires Holds(d, c, s) && n < |c|
    modifies d.lines`text, d.lines`spans
    ensures Holds(d, c, s') && IsPut(s', s, n, n + 1, [HL(s[n].text, spans)])
  {
    assert d.Intact();
    var l := GetLineAt(d, n);
    assert Show(c[n]) == s[n];
    s' := UpdateLine(d, n, l, l.text, spans, c, s);
  }

  method ReplaceWholeLines(d: Doc, from: Pos, to: Pos, ls: seq<Stored>, ghost c: seq<Line>, ghost s: seq<Stored>)
    returns (ghost c': seq<Line>, ghost s': seq<Stored>)
    requires Holds(d, c, s) && ValidRange(s, from, to) && |ls| >= 1 && from.ch == to.ch == 0 && ls[|ls| - 1].text == ""
    modifies d, d.chunks, d.lines`parent, d.lines`text, d.lines`spans
    ensures Holds(d, c', s') && IsRange(s', s, from, to, ls) && Exchanged(c', c, from, to, |ls|, "")
    ensures fresh(d.chunks - old(d.chunks)) && fresh(d.lines - old(d.lines))
  {
    var e := |ls| - 1;
    var added := NewLines(ls[..e], d.lines);
    ghost var s1 := KeepText(d, to.line, ls[e].spans, c, s);
    c', s' := SwapLines(d, from.line, to.line, added, ls[..e], c, s1);
    WholeLines(s, s1, s', from, to, ls);
    ExchangeWhole(c', c, from, to, |ls|, "");
  }

  method ReplaceInLine(d: Doc, from: Pos, to: Pos, ls: seq<Stored>, firstLine: Line, ghost c: seq<Line>,
                       ghost s: seq<Stored>) returns (ghost c': seq<Line>, ghost s': seq<Stored>)
    requires Holds(d, c, s) && ValidRange(s, from, to) && |ls| >= 1 && from.line == to.line && firstLine == c[from.line]
    modifies d, d.chunks, d.lines`parent, d.lines`text, d.lines`spans
    ensures Holds(d, c', s') && IsRange(s', s, from, to, ls) && Swapped(c', c, from.line + 1, to.line + 1, |ls| - 1)
    ensures fresh(d.chunks - old(d.chunks)) && fresh(d.lines - old(d.lines))
  {
    var pre, post := firstLine.text[..from.ch], firstLine.text[to.ch..];
    if |ls| == 1 {
      s' := UpdateLine(d, from.line, firstLine, pre + ls[0].text + post, ls[0].spans, c, s);
      c' := c;
      SwapNothing(c, from.line + 1);
      OneForOne(s, s', from, to, ls);
    } else {
      var e := |ls| - 1;
      var first, last := HL(pre + ls[0].text, ls[0].spans), HL(ls[e].text + post, ls[e].spans);
      ghost var s1;
      c', s', s1 := DivideLine(d, from.line, firstLine, first, ls[1..e] + [last], c, s);
      OneForMany(s, s1, s', from, to, ls, first, last);
    }
  }

  /** Line `n` gets the text and spans of `first`, and lines for `rest` follow it. */
  method DivideLine(d: Doc, n: nat, l: Line, first: Stored, rest: seq<Stored>, ghost c: seq<Line>, ghost s: seq<Stored>)
    returns (ghost c': seq<Line>, ghost s': seq<Stored>, ghost s1: seq<Stored>)
    requires Holds(d, c, s) && n < |c| && l == c[n]
    modifies d, d.chunks, d.lines`parent, d.lines`text, d.lines`spans
    ensures Holds(d, c', s') && Swapped(c', c, n + 1, n + 1, |rest|)
    ensures IsPut(s1, s, n, n + 1, [first]) && IsPut(s', s1, n + 1, n + 1, rest)
    ensures fresh(d.chunks - old(d.chunks)) && fresh(d.lines - old(d.lines))
  {
    var added := NewLines(rest, d.lines);
    s1 := UpdateLine(d, n, l, first.text, first.spans, c, s);
    c', s' := InsertLines(d, n + 1, added, rest, c, s1);
    PutSwaps(c', c, n + 1, n + 1, added);
  }

  method ReplaceAcrossLines(d: Doc, from: Pos, to: Pos, ls: seq<Stored>, firstLine: Line, lastLine: Line,
                            ghost c: seq<Line>, ghost s: seq<Stored>)
    returns (ghost c': seq<Line>, ghost s': seq<Stored>)
    requires Holds(d, c, s) && ValidRange(s, from, to) && |ls| >= 1 && from.line < to.line
    requires firstLine == c[from.line] && lastLine == c[to.line]
    modifies d, d.chunks, d.lines`parent, d.lines`text, d.lines`spans
    ensures Holds(d, c', s') && IsRange(s', s, from, to, ls)
    ensures Swapped(c', c, from.line + 1, if |ls| == 1 then to.line + 1 else to.line, if |ls| == 1 then 0 else |ls| - 2)
    ensures fresh(d.chunks - old(d.chunks)) && fresh(d.lines - old(d.lines))
  {
    if |ls| == 1 {
      c', s' := ReplaceByOne(d, from, to, ls, firstLine, lastLine, c, s);
    } else {
      c', s' := ReplaceByMany(d, from, to, ls, firstLine, lastLine, c, s);
    }
  }

  method ReplaceByOne(d: Doc, from: Pos, to: Pos, ls: seq<Stored>, firstLine: Line, lastLine: Line, ghost c: seq<Line>,
                      ghost s: seq<Stored>) returns (ghost c': seq<Line>, ghost s': seq<Stored>)
    requires Holds(d, c, s) && ValidRange(s, from, to) && |ls| == 1 && from.line < to.line
    requires firstLine == c[from.line] && lastLine == c[to.line]
    modifies d, d.chunks, d.lines`parent, firstLine`text, firstLine`spans
    ensures Holds(d, c', s') && IsRange(s', s, from, to, ls) && Swapped(c', c, from.line + 1, to.line + 1, 0)
    ensures fresh(d.chunks - old(d.chunks)) && d.lines <= old(d.lines)
  {
    var nlines := to.line - from.line;
    var first := HL(firstLine.text[..from.ch] + ls[0].text + lastLine.text[to.ch..], ls[0].spans);
    ghost var s1 := UpdateLine(d, from.line, firstLine, first.text, first.spans, c, s);
    c', s' := RemoveLines(d, from.line + 1, nlines, c, s1);
    ManyForOne(s, s1, s', from, to, ls, first);
    PutSwaps(c', c, from.line + 1, to.line + 1, []);
  }

  method ReplaceByMany(d: Doc, from: Pos, to: Pos, ls: seq<Stored>, firstLine: Line, lastLine: Line, ghost c: seq<Line>,
                       ghost s: seq<Stored>) returns (ghost c': seq<Line>, ghost s': seq<Stored>)
    requires Holds(d, c, s) && ValidRange(s, from, to) && |ls| > 1 && from.line < to.line
    requires firstLine == c[from.line] && lastLine == c[to.line]
    modifies d, d.chunks, d.lines`parent, d.lines`text, d.lines`spans
    ensures Holds(d, c', s') && IsRange(s', s, from, to, ls) && Swapped(c', c, from.line + 1, to.line, |ls| - 2)
    ensures fresh(d.chunks - old(d.chunks)) && fresh(d.lines - old(d.lines))
  {
    var e := |ls| - 1;
    var first, last := SewnEnds(firstLine, lastLine, from, to, ls, c, s);
    ghost var s1, s2 := UpdateEnds(d, from.line, to.line, firstLine, lastLine, first, last, c, s);
    c', s' := ReplaceMiddle(d, from.line + 1, to.line, ls[1..e], c, s2);
    ManyForMany(s, s1, s2, s', from, to, ls, first, last);
  }

  /** What the two end lines will be. */
  method SewnEnds(firstLine: Line, lastLine: Line, from: Pos, to: Pos, ls: seq<Stored>, ghost c: seq<Line>,
                  ghost s: seq<Stored>) returns (first: Stored, last: Stored)
    requires Says(c, s) && |c| == |s| && ValidRange(s, from, to) && |ls| > 1
    requires firstLine == c[from.line] && lastLine == c[to.line]
    ensures first == HL(s[from.line].text[..from.ch] + ls[0].text, ls[0].spans)
    ensures last == HL(ls[|ls| - 1].text + s[to.line].text[to.ch..], ls[|ls| - 1].spans)
  {
    assert Show(c[from.line]) == s[from.line] && Show(c[to.line]) == s[to.line];
    first := HL(firstLine.text[..from.ch] + ls[0].text, ls[0].spans);
    last := HL(ls[|ls| - 1].text + lastLine.text[to.ch..], ls[|ls| - 1].spans);
  }

  method UpdateEnds(d: Doc, ghost a: nat, ghost b: nat, firstLine: Line, lastLine: Line, first: Stored, last: Stored,
                    ghost c: seq<Line>, ghost s: seq<Stored>) returns (ghost s1: seq<Stored>, ghost s2: seq<Stored>)
    requires Holds(d, c, s) && a < |c| && b < |c| && firstLine == c[a] && lastLine == c[b]
    modifies firstLine`text, firstLine`spans, lastLine`text, lastLine`spans
    ensures Holds(d, c, s2) && IsPut(s1, s, a, a + 1, [first]) && IsPut(s2, s1, b, b + 1, [last])
  {
    s1 := UpdateLine(d, a, firstLine, first.text, first.spans, c, s);
    s2 := UpdateLine(d, b, lastLine, last.text, last.spans, c, s1);
  }

  /** New lines that say `h` take the place of the lines `a..b`. */
  method ReplaceMiddle(d: Doc, a: nat, b: nat, h: seq<Stored>, ghost c: seq<Line>, ghost s: seq<Stored>)
    returns (ghost c': seq<Line>, ghost s': seq<Stored>)
    requires Holds(d, c, s) && a <= b <= |c|
    modifies d, d.chunks, d.lines`parent
    ensures Holds(d, c', s') && IsPut(s', s, a, b, h) && Swapped(c', c, a, b, |h|)
    ensures fresh(d.chunks - old(d.chunks)) && fresh(d.lines - old(d.lines))
  {
    var added := NewLines(h, d.lines);
    c', s' := SwapMiddle(d, a, b, added, h, c, s);
  }

  method SwapMiddle(d: Doc, a: nat, b: nat, added: seq<Line>, ghost h: seq<Stored>, ghost c: seq<Line>,
                    ghost s: seq<Stored>) returns (ghost c': seq<Line>, ghost s': seq<Stored>)
    requires Holds(d, c, s) && a <= b <= |c| && Outside(added, d.lines) && Says(added, h) && |added| == |h|
    requires OneHigh(added)
    modifies d, d.chunks, d.lines`parent, added`parent
    ensures Holds(d, c', s') && IsPut(s', s, a, b, h) && Swapped(c', c, a, b, |added|)
    ensures d.lines <= old(d.lines) + Elems(added) && fresh(d.chunks - old(d.chunks))
  {
    ghost var c1, s1 := c, s;
    var n := b - a;
    assert a + n == b;
    PutNothing(c, a);
    PutNothing(s, a);
    if n > 0 { c1, s1 := RemoveLines(d, a, n, c, s); }
    c', s' := InsertLines(d, a, added, h, c1, s1);
    PutKeeps(c, c1, c', a, b, added);
    PutKeeps(s, s1, s', a, b, h);
    PutSwaps(c', c, a, b, added);
  }

  lemma SameLine(d: Doc, i: nat, j: nat)
    requires d.Valid() && i <= j < |d.Contents()|
    ensures d.Contents()[i] == d.Contents()[j] <==> i == j
  {
    assert d.Intact();
  }

  method EndLines(d: Doc, from: Pos, to: Pos, ghost c: seq<Line>, ghost s: seq<Stored>)
    returns (firstLine: Line, lastLine: Line)
    requires Holds(d, c, s) && ValidRange(s, from, to)
    ensures 0 <= from.line <= to.line < |c| && firstLine == c[from.line] && lastLine == c[to.line]
    ensures firstLine == lastLine <==> from.line == to.line
  {
    firstLine := GetLineAt(d, from.line);
    lastLine := GetLineAt(d, to.line);
    SameLine(d, from.line, to.line);
  }

  method ReplaceCases(d: Doc, from: Pos, to: Pos, ls: seq<Stored>, ghost c: seq<Line>, ghost s: seq<Stored>)
    returns (ghost c': seq<Line>, ghost s': seq<Stored>)
    requires Holds(d, c, s) && ValidRange(s, from, to) && |ls| >= 1
    modifies d, d.chunks, d.lines`parent, d.lines`text, d.lines`spans
    ensures Holds(d, c', s') && IsRange(s', s, from, to, ls)
    ensures Exchanged(c', c, from, to, |ls|, ls[|ls| - 1].text)
    ensures fresh(d.chunks - old(d.chunks)) && fresh(d.lines - old(d.lines))
  {
    var firstLine, lastLine := EndLines(d, from, to, c, s);
    var lastHL := ls[|ls| - 1];
    if from.ch == 0 && to.ch == 0 && lastHL.text == "" {
      c', s' := ReplaceWholeLines(d, from, to, ls, c, s);
    } else if firstLine == lastLine {
      c', s' := ReplaceInLine(d, from, to, ls, firstLine, c, s);
      ExchangeInLine(c', c, from, to, |ls|, lastHL.text);
    } else {
      c', s' := ReplaceAcrossLines(d, from, to, ls, firstLine, lastLine, c, s);
      ExchangeAcross(c', c, from, to, |ls|, lastHL.text);
    }
  }

  /** The edit, with what it does to the height of the document: new lines have height 1, the others keep theirs. */
  method ReplaceLines(d: Doc, from: Pos, to: Pos, ls: seq<Stored>, ghost c: seq<Line>, ghost s: seq<Stored>)
    returns (ghost c': seq<Line>, ghost s': seq<Stored>)
    requires Holds(d, c, s) && ValidRange(s, from, to) && |ls| >= 1
    modifies d, d.chunks, d.lines`parent, d.lines`text, d.lines`spans
    ensures Holds(d, c', s') && IsRange(s', s, from, to, ls)
    ensures Resized(d, c, old(d.root.height - CutHeight(c, from, to, |ls|, ls[|ls| - 1].text)), from, to, |ls|,
      ls[|ls| - 1].text)
    ensures fresh(d.chunks - old(d.chunks)) && fresh(d.lines - old(d.lines))
  {
    ghost var hs, last := Heights(c), ls[|ls| - 1].text;
    CutIs(d, c, hs, from, to, |ls|, last);
    c', s' := ReplaceCases(d, from, to, ls, c, s);
    ExchangeHeight(d, c, hs, from, to, |ls|, last);
  }

  /** The part of `updateLinesNoUndo` that edits the text. New lines are one line high, the others stay as high. */
  method ReplaceText(d: Doc, from: Pos, to: Pos, ls: seq<Stored>)
    requires d.Valid() && ValidRange(Shown(d.Contents()), from, to) && |ls| >= 1
    modifies d, d.chunks, d.lines`parent, d.lines`text, d.lines`spans
    ensures d.Valid() && fresh(d.chunks - old(d.chunks)) && fresh(d.lines - old(d.lines))
    ensures Shown(d.Contents()) == ReplaceRange(old(Shown(d.Contents())), from, to, ls)
    ensures Survive(d.Contents(), old(d.Contents()), from, to, ls)
    ensures forall l :: l in d.lines ==> l.height == if l in old(d.lines) then old(l.height) else 1
    ensures NewHeights(Heights(d.Contents()), old(Heights(d.Contents())), from, to, |ls|, ls[|ls| - 1].text)
  {
    ghost var c, s, hs := d.Contents(), Shown(d.Contents()), Heights(d.Contents());
    SaysShown(c, s);
    ghost var c', s' := ReplaceLines(d, from, to, ls, c, s);
    HeightsAfter(c', c, hs, from, to, |ls|, ls[|ls| - 1].text);
    ExchangeHigh(d, c, old(d.lines), from, to, |ls|, ls[|ls| - 1].text);
    ExchangeSurvives(c', c, from, to, ls);
    SaysShown(c', s');
    assert s' == ReplaceRange(s, from, to, ls);
  }
}
