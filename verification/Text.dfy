/** The text of a document as values: lines, positions, offsets, and what replacing a range does to them. */
module Text {
  import opened ChunkStore

  /** A stretch of a line that is marked; a missing end means that the mark goes on in the neighbouring line. */
  datatype Span = Span(marker: nat, from: Option<nat>, to: Option<nat>)

  /** The span does not end before it begins. */
  predicate IsForward(s: Span) {
    s.from.Some? && s.to.Some? ==> s.from.value <= s.to.value
  }

  predicate Forward(spans: seq<Span>) {
    true == forall i :: 0 <= i < |spans| ==> IsForward(spans[i])
  }

  /** A line with its marks. */
  datatype HL<S> = HL(text: string, spans: S)

  /** A line as it looks: with its spans. */
  type Look = HL<seq<Span>>

  /** A line as it is kept: with the number of the list that has its spans, or with none. */
  type Stored = HL<Option<nat>>

  datatype Pos = Pos(line: int, ch: int)

  predicate Less(p: Pos, q: Pos) {
    true == (p.line < q.line || (p.line == q.line && p.ch < q.ch))
  }

  predicate ValidPos<S>(doc: seq<HL<S>>, p: Pos) {
    true == (0 <= p.line < |doc| && 0 <= p.ch <= |doc[p.line].text|)
  }

  /** `from` and `to` are positions of the document, `from` not after `to`. */
  predicate ValidRange<S>(doc: seq<HL<S>>, from: Pos, to: Pos) {
    true == (ValidPos(doc, from) && ValidPos(doc, to) && !Less(to, from))
  }

  function Texts<S>(doc: seq<HL<S>>): (ts: seq<string>)
    ensures |ts| == |doc| && forall i :: 0 <= i < |doc| ==> ts[i] == doc[i].text
  {
    seq(|doc|, i requires 0 <= i < |doc| => doc[i].text)
  }

  /** The lines joined by newlines, as `getValue` does. */
  function Join(ts: seq<string>): string {
    if ts == [] then "" else if |ts| == 1 then ts[0] else ts[0] + "\n" + Join(ts[1..])
  }

  /** The number of characters, newlines included, before position `(n, ch)`. */
  function Offset(ts: seq<string>, n: nat, ch: nat): nat
    requires n < |ts|
  {
    if n == 0 then ch else |ts[0]| + 1 + Offset(ts[1..], n - 1, ch)
  }

  /** `ls` with `pre` sewn to the first line and `post` to the last. */
  function Sewn<S>(pre: string, ls: seq<HL<S>>, post: string): (r: seq<HL<S>>)
    requires |ls| >= 1
    ensures |r| == |ls| && forall i :: 0 <= i < |r| ==> r[i].spans == ls[i].spans
  {
    var n := |ls| - 1;
    if n == 0 then [HL(pre + ls[0].text + post, ls[0].spans)]
    else [HL(pre + ls[0].text, ls[0].spans)] + ls[1..n] + [HL(ls[n].text + post, ls[n].spans)]
  }

  /** The same for lines without marks. */
  function SewText(pre: string, ls: seq<string>, post: string): (r: seq<string>)
    requires |ls| >= 1
    ensures |r| == |ls|
  {
    var n := |ls| - 1;
    if n == 0 then [pre + ls[0] + post] else [pre + ls[0]] + ls[1..n] + [ls[n] + post]
  }

  lemma SewnText<S>(pre: string, ls: seq<HL<S>>, post: string)
    requires |ls| >= 1
    ensures Texts(Sewn(pre, ls, post)) == SewText(pre, Texts(ls), post)
  {
  }

  /** The lines that take the place of the lines `from.line` to `to.line`. */
  function Replacement<S>(doc: seq<HL<S>>, from: Pos, to: Pos, ls: seq<HL<S>>): (r: seq<HL<S>>)
    requires ValidRange(doc, from, to) && |ls| >= 1
    ensures |r| == |ls| && forall i :: 0 <= i < |r| ==> r[i].spans == ls[i].spans
  {
    Sewn(doc[from.line].text[..from.ch], ls, doc[to.line].text[to.ch..])
  }

  /** The document after the range is replaced by `ls`. */
  function ReplaceRange<S>(doc: seq<HL<S>>, from: Pos, to: Pos, ls: seq<HL<S>>): (r: seq<HL<S>>)
    requires ValidRange(doc, from, to) && |ls| >= 1
    ensures |r| == |doc| + |ls| - (to.line - from.line + 1)
  {
    doc[..from.line] + Replacement(doc, from, to, ls) + doc[to.line + 1..]
  }

  /** Outside the lines `a..b` the lines of `doc'` are those of `doc`; between them they have the spans of `ls`. */
  ghost predicate IsLines<S>(doc': seq<HL<S>>, doc: seq<HL<S>>, a: nat, b: nat, ls: seq<HL<S>>) {
    true == (a <= b < |doc| && |ls| >= 1 && |doc'| == |doc| + |ls| - (b - a + 1) &&
      (forall n {:trigger doc'[n]} :: 0 <= n < a ==> doc'[n] == doc[n]) &&
      (forall n {:trigger doc'[n]} :: a <= n < a + |ls| ==> doc'[n].spans == ls[n - a].spans) &&
      (forall n {:trigger doc'[n]} :: a + |ls| <= n < |doc'| ==> doc'[n] == doc[n - (a + |ls| - 1) + b]))
  }

  lemma ReplaceRangeLines<S>(doc: seq<HL<S>>, from: Pos, to: Pos, ls: seq<HL<S>>)
    requires ValidRange(doc, from, to) && |ls| >= 1
    ensures IsLines(ReplaceRange(doc, from, to, ls), doc, from.line, to.line, ls)
  {
    var r := Replacement(doc, from, to, ls);
    PutLines(doc, from.line, to.line + 1, r);
    assert forall i :: 0 <= i < |r| ==> r[i].spans == ls[i].spans;
  }

  lemma PutLines<S>(doc: seq<HL<S>>, a: nat, b: nat, r: seq<HL<S>>)
    requires a <= b <= |doc|
    ensures var d := doc[..a] + r + doc[b..];
            (forall n {:trigger d[n]} :: 0 <= n < a ==> d[n] == doc[n]) &&
            (forall n {:trigger d[n]} :: a <= n < a + |r| ==> d[n] == r[n - a]) &&
            (forall n {:trigger d[n]} :: a + |r| <= n < |d| ==> d[n] == doc[n - (a + |r|) + b])
  {
  }

  // ----- joining -----

  /** A line boundary can be moved out of a line at any character. */
  lemma {:induction false} JoinGlue(a: seq<string>, x: string, y: string, b: seq<string>)
    ensures Join(a + [x + y] + b) == Join(a + [x]) + Join([y] + b)
  {
    if a == [] {
      assert a + [x + y] + b == [x + y] + b && a + [x] == [x];
      if b != [] {
        assert ([x + y] + b)[1..] == b && ([y] + b)[1..] == b;
        assert x + y + "\n" + Join(b) == x + (y + "\n" + Join(b));
      }
    } else {
      JoinGlue(a[1..], x, y, b);
      assert (a + [x + y] + b)[1..] == a[1..] + [x + y] + b;
      assert (a + [x])[1..] == a[1..] + [x];
      assert a[0] + "\n" + (Join(a[1..] + [x]) + Join([y] + b)) == a[0] + "\n" + Join(a[1..] + [x]) + Join([y] + b);
    }
  }

  lemma {:induction false} JoinLength(a: seq<string>, x: string)
    ensures |Join(a + [x])| == Offset(a + [x], |a|, |x|)
  {
    if a == [] {
      assert a + [x] == [x];
    } else {
      JoinLength(a[1..], x);
      assert (a + [x])[1..] == a[1..] + [x];
    }
  }

  /** The offset does not depend on what follows. */
  lemma {:induction false} OffsetPrefix(ts: seq<string>, n: nat, ch: nat, us: seq<string>)
    requires n < |ts| && n < |us| && ts[..n] == us[..n]
    ensures Offset(ts, n, ch) == Offset(us, n, ch)
  {
    if n > 0 {
      assert ts[0] == ts[..n][0] == us[..n][0] == us[0];
      assert ts[1..][..n - 1] == ts[..n][1..] == us[..n][1..] == us[1..][..n - 1];
      OffsetPrefix(ts[1..], n - 1, ch, us[1..]);
    }
  }

  /** A position cuts the text in two. */
  lemma JoinAt(ts: seq<string>, n: nat, ch: nat)
    requires n < |ts| && ch <= |ts[n]|
    ensures var o := Offset(ts, n, ch);
            o <= |Join(ts)| && Join(ts)[..o] == Join(ts[..n] + [ts[n][..ch]]) &&
            Join(ts)[o..] == Join([ts[n][ch..]] + ts[n + 1..])
  {
    var x, y := ts[n][..ch], ts[n][ch..];
    assert x + y == ts[n];
    assert ts == ts[..n] + [x + y] + ts[n + 1..];
    JoinGlue(ts[..n], x, y, ts[n + 1..]);
    JoinLength(ts[..n], x);
    OffsetPrefix(ts, n, ch, ts[..n] + [x]);
  }

  /**
   The joined text, read off at the offsets: line `n` stands between the offsets of its two ends, and there is a newline
   just before each line but the first.
   */
  lemma JoinedLine(ts: seq<string>, n: nat)
    requires n < |ts|
    ensures var a, b := Offset(ts, n, 0), Offset(ts, n, |ts[n]|);
            a <= b <= |Join(ts)| && Join(ts)[a..b] == ts[n]
    ensures n > 0 ==> var a := Offset(ts, n, 0);
              a == Offset(ts, n - 1, |ts[n - 1]|) + 1 && a <= |Join(ts)| && Join(ts)[a - 1] == '\n'
    ensures Offset(ts, 0, 0) == 0 && |Join(ts)| == Offset(ts, |ts| - 1, |ts[|ts| - 1]|)
  {
    var x := ts[n];
    JoinAt(ts, n, 0);
    JoinAt(ts, n, |x|);
    OffsetCh(ts, n, |x|);
    JoinsFirst(x, ts[n + 1..]);
    assert x[0..] == x && Join(ts)[Offset(ts, n, 0)..][..|x|] == Join(ts)[Offset(ts, n, 0)..Offset(ts, n, |x|)];
    if n > 0 {
      var y := ts[n - 1];
      JoinAt(ts, n - 1, |y|);
      OffsetCh(ts, n - 1, |y|);
      OffsetNext(ts, n - 1);
      assert y[|y|..] == "" && ts[n..] != [];
      assert ([""] + ts[n..])[1..] == ts[n..];
    }
    JoinAt(ts, |ts| - 1, |ts[|ts| - 1]|);
    var z := ts[|ts| - 1];
    assert z[|z|..] == "" && [""] + ts[|ts|..] == [""];
  }

  lemma JoinsFirst(x: string, b: seq<string>)
    ensures |x| <= |Join([x] + b)| && Join([x] + b)[..|x|] == x
  {
    assert ([x] + b)[1..] == b;
  }

  lemma {:induction false} OffsetCh(ts: seq<string>, n: nat, ch: nat)
    requires n < |ts|
    ensures Offset(ts, n, ch) == Offset(ts, n, 0) + ch
  {
    if n > 0 { OffsetCh(ts[1..], n - 1, ch); }
  }

  lemma {:induction false} OffsetNext(ts: seq<string>, n: nat)
    requires n + 1 < |ts|
    ensures Offset(ts, n + 1, 0) == Offset(ts, n, 0) + |ts[n]| + 1
  {
    if n > 0 { OffsetNext(ts[1..], n - 1); }
  }

  /** The text after `pre` and `post` are sewn to `us`, between the lines `a` and `b`. */
  lemma SewnJoins<S>(a: seq<string>, pre: string, ls: seq<HL<S>>, post: string, b: seq<string>)
    requires |ls| >= 1
    ensures Join(a + Texts(Sewn(pre, ls, post)) + b) == Join(a + [pre]) + Join(Texts(ls)) + Join([post] + b)
  {
    var us, n := Texts(ls), |ls| - 1;
    var s := Texts(Sewn(pre, ls, post));
    if n == 0 {
      assert us == [us[0]] && s == [pre + us[0] + post];
      JoinGlue(a, pre + us[0], post, b);
      JoinGlue(a, pre, us[0], []);
      assert a + [pre + us[0]] + [] == a + [pre + us[0]] && [us[0]] + [] == us;
    } else {
      var m := us[1..n];
      assert s == [pre + us[0]] + m + [us[n] + post];
      assert a + s + b == (a + [pre + us[0]] + m) + [us[n] + post] + b;
      JoinGlue(a + [pre + us[0]] + m, us[n], post, b);
      assert (a + [pre + us[0]] + m) + [us[n]] == a + [pre + us[0]] + (m + [us[n]]);
      JoinGlue(a, pre, us[0], m + [us[n]]);
      assert [us[0]] + (m + [us[n]]) == us;
    }
  }

  /** Replacing a range of positions replaces the range of characters between their offsets. */
  lemma ReplaceRangeJoins<S>(doc: seq<HL<S>>, from: Pos, to: Pos, ls: seq<HL<S>>)
    requires ValidRange(doc, from, to) && |ls| >= 1
    ensures var ts := Texts(doc);
            var a, b := Offset(ts, from.line, from.ch), Offset(ts, to.line, to.ch);
            a <= b <= |Join(ts)| &&
            Join(Texts(ReplaceRange(doc, from, to, ls))) == Join(ts)[..a] + Join(Texts(ls)) + Join(ts)[b..]
  {
    var ts := Texts(doc);
    OffsetsOrdered(ts, from, to);
    JoinAt(ts, from.line, from.ch);
    JoinAt(ts, to.line, to.ch);
    RangeTexts(doc, from, to, ls);
    SewnJoins(ts[..from.line], ts[from.line][..from.ch], ls, ts[to.line][to.ch..], ts[to.line + 1..]);
  }

  lemma TextsConcat<S>(a: seq<HL<S>>, b: seq<HL<S>>)
    ensures Texts(a + b) == Texts(a) + Texts(b)
  {
  }

  lemma TextsSlice<S>(doc: seq<HL<S>>, i: nat, j: nat)
    requires i <= j <= |doc|
    ensures Texts(doc[i..j]) == Texts(doc)[i..j]
  {
  }

  lemma RangeTexts<S>(doc: seq<HL<S>>, from: Pos, to: Pos, ls: seq<HL<S>>)
    requires ValidRange(doc, from, to) && |ls| >= 1
    ensures var ts := Texts(doc);
            Texts(ReplaceRange(doc, from, to, ls)) ==
            ts[..from.line] + Texts(Sewn(ts[from.line][..from.ch], ls, ts[to.line][to.ch..])) + ts[to.line + 1..]
  {
    var r := Replacement(doc, from, to, ls);
    TextsConcat(doc[..from.line] + r, doc[to.line + 1..]);
    TextsConcat(doc[..from.line], r);
    TextsSlice(doc, 0, from.line);
    TextsSlice(doc, to.line + 1, |doc|);
    assert doc[..from.line] == doc[0..from.line] && doc[to.line + 1..] == doc[to.line + 1..|doc|];
  }

  lemma {:induction false} OffsetsOrdered(ts: seq<string>, from: Pos, to: Pos)
    requires 0 <= from.line < |ts| && 0 <= to.line < |ts| && !Less(to, from)
    requires 0 <= from.ch <= |ts[from.line]| && 0 <= to.ch <= |ts[to.line]|
    ensures if Less(from, to) then Offset(ts, from.line, from.ch) < Offset(ts, to.line, to.ch)
            else Offset(ts, from.line, from.ch) == Offset(ts, to.line, to.ch)
    decreases from.line
  {
    if from.line > 0 {
      OffsetsOrdered(ts[1..], Pos(from.line - 1, from.ch), Pos(to.line - 1, to.ch));
    }
  }
}
