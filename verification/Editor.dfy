/** The document together with its undo history, its longest line and the log of changes for the display. */
module Editor {
  import opened Sequences
  import opened Text
  import opened ChunkStore
  import opened ChunkTree
  import opened Document
  import opened TextEdit
  import opened History
  import opened UndoHistory
  import opened TextHistory
  import Iteration
  import opened SpanLists
  import Marks
  import Lookup
  import Display

  // ----- the longest line -----

  /** Line `i` is the object `l`, and no line is longer. */
  ghost predicate Longest(c: seq<Line>, s: seq<Stored>, l: Line, i: nat) {
    i < |c| == |s| && c[i] == l && forall j :: 0 <= j < |s| ==> |s[j].text| <= |s[i].text|
  }

  /** The cached longest line can be relied on unless `dirty`. */
  ghost predicate MaxOk(c: seq<Line>, s: seq<Stored>, l: Line, dirty: bool) {
    true == (dirty || exists i :: Longest(c, s, l, i))
  }

  /** Some line of `a..b` is `m` characters long. */
  predicate HasLength(s: seq<Stored>, a: int, b: int, m: int) {
    exists i :: a <= i < b && 0 <= i < |s| && |s[i].text| == m
  }

  /** `l` is the longest of the lines `a..b` if that is longer than `m`; otherwise none of them is. */
  ghost predicate Grown(c: seq<Line>, s: seq<Stored>, a: nat, b: nat, m: int, l: Line, l0: Line, grown: bool) {
    true == (b <= |s| == |c| &&
    if grown then exists i :: a <= i < b && c[i] == l && |s[i].text| > m && forall j :: a <= j < b ==>
    |s[j].text| <= |s[i].text|
    else l == l0 && forall j :: a <= j < b ==> |s[j].text| <= m)
  }

  lemma GrownIs(c: seq<Line>, s: seq<Stored>, a: nat, b: nat, m: int, l: Line, l0: Line, grown: bool)
    requires Grown(c, s, a, b, m, l, l0, grown)
    ensures NoLonger(s, a, b, m) <==> !grown
  {
  }

  /** None of the lines `a..b` is longer than `m`. */
  predicate NoLonger(s: seq<Stored>, a: int, b: int, m: int) {
    true == forall j :: a <= j < b && 0 <= j < |s| ==> |s[j].text| <= m
  }

  /** The line object `l`, if it is in the document, is `m` characters long. */
  ghost predicate Measured(c: seq<Line>, s: seq<Stored>, l: Line, m: int) {
    true == (|c| == |s| && forall i :: 0 <= i < |c| && c[i] == l ==> |s[i].text| == m)
  }

  lemma MeasuredIs(c: seq<Line>, s: seq<Stored>, l: Line)
    requires Says(c, s)
    ensures Measured(c, s, l, |l.text|)
  {
    forall i | 0 <= i < |c| && c[i] == l ensures |s[i].text| == |l.text| {
      assert Show(c[i]) == s[i];
    }
  }

  /** The longest line after an edit of `s` to `s'`. */
  lemma MaxKept(c: seq<Line>, s: seq<Stored>, c': seq<Line>, s': seq<Stored>, from: Pos, to: Pos, ls: seq<Stored>,
                m: int, l0: Line, dirty0: bool, touched: bool, l: Line, grown: bool)
    requires |c| == |s| && |c'| == |s'| && ValidRange(s, from, to) && |ls| >= 1
    requires IsRange(s', s, from, to, ls) && Survive(c', c, from, to, ls)
    requires MaxOk(c, s, l0, dirty0) && Measured(c, s, l0, m)
    requires touched <==> HasLength(s, from.line, to.line + 1, m)
    requires from.line + |ls| <= |s'| && Grown(c', s', from.line, from.line + |ls|, m, l, l0, grown)
    ensures MaxOk(c', s', l, dirty0 || (touched && !grown))
  {
    var a, b, n := from.line, to.line + 1, |ls|;
    if !dirty0 && (grown || !touched) {
      RangeMoves(s, s', from, to, ls);
      SurviveMoves(c, c', from, to, ls);
      var i0: nat :| Longest(c, s, l0, i0);
      assert |s[i0].text| == m;
      if grown {
        LongerFound(s', s, c', a, b, n, m, l);
      } else {
        LongestStays(c, s, c', s', a, b, n, l, i0);
      }
    }
  }

  lemma MaxAfter(c: seq<Line>, s: seq<Stored>, c': seq<Line>, s': seq<Stored>, from: Pos, to: Pos, ls: seq<Stored>,
                 m: int, l0: Line, dirty0: bool, touched: bool, l: Line, grown: bool)
    requires |c| == |s| && |c'| == |s'| && ValidRange(s, from, to) && |ls| >= 1
    requires IsRange(s', s, from, to, ls) && Exchanged(c', c, from, to, |ls|, ls[|ls| - 1].text)
    requires MaxOk(c, s, l0, dirty0) && Measured(c, s, l0, m)
    requires touched <==> HasLength(s, from.line, to.line + 1, m)
    requires from.line + |ls| <= |s'| && Grown(c', s', from.line, from.line + |ls|, m, l, l0, grown)
    ensures MaxOk(c', s', l, dirty0 || (touched && !grown))
    ensures grown <==> !NoLonger(s', from.line, from.line + |ls|, m)
  {
    ExchangeSurvives(c', c, from, to, ls);
    GrownIs(c', s', from.line, from.line + |ls|, m, l, l0, grown);
    MaxKept(c, s, c', s', from, to, ls, m, l0, dirty0, touched, l, grown);
  }

  /** The lines outside a range are those from before. */
  ghost predicate SameOutside<T>(s': seq<T>, s: seq<T>, a: int, b: int, n: nat) {
    true == (0 <= a <= b <= |s| && |s'| == |s| + n - (b - a) &&
      (forall j {:trigger s'[j]} :: 0 <= j < a ==> s'[j] == s[j]) &&
      forall j {:trigger s'[j]} :: a + n <= j < |s'| ==> s'[j] == s[j - n + b - a])
  }

  lemma RangeMoves(s: seq<Stored>, s': seq<Stored>, from: Pos, to: Pos, ls: seq<Stored>)
    requires IsRange(s', s, from, to, ls)
    ensures SameOutside(s', s, from.line, to.line + 1, |ls|)
  {
    assert s' == ReplaceRange(s, from, to, ls);
    PutLines(s, from.line, to.line + 1, Replacement(s, from, to, ls));
  }

  lemma SurviveMoves(c: seq<Line>, c': seq<Line>, from: Pos, to: Pos, ls: seq<Stored>)
    requires Survive(c', c, from, to, ls)
    ensures SameOutside(c', c, from.line, to.line + 1, |ls|)
  {
    var a, b, n := from.line, to.line + 1, |ls|;
    forall j | 0 <= j < a ensures c'[j] == c[j] { assert c'[..a][j] == c[..a][j]; }
    forall j | a + n <= j < |c'| ensures c'[j] == c[j - n + b - a] {
      assert c'[a + n..][j - a - n] == c[b..][j - a - n];
    }
  }

  lemma LongerFound(s': seq<Stored>, s: seq<Stored>, c': seq<Line>, a: nat, b: nat, n: nat, m: int, l: Line)
    requires SameOutside(s', s, a, b, n) && |c'| == |s'| && forall j :: 0 <= j < |s| ==> |s[j].text| <= m
    requires exists i :: a <= i < a + n && c'[i] == l && |s'[i].text| > m && forall j :: a <= j < a + n ==>
      |s'[j].text| <= |s'[i].text|
    ensures MaxOk(c', s', l, false)
  {
    var i :| a <= i < a + n && c'[i] == l && |s'[i].text| > m && forall j :: a <= j < a + n ==>
      |s'[j].text| <= |s'[i].text|;
    forall j | 0 <= j < |s'| ensures |s'[j].text| <= |s'[i].text| {
      if j < a { assert s'[j] == s[j]; } else if j >= a + n { assert s'[j] == s[j - n + b - a]; }
    }
    assert Longest(c', s', l, i);
  }

  lemma LongestStays(c: seq<Line>, s: seq<Stored>, c': seq<Line>, s': seq<Stored>, a: nat, b: nat, n: nat, l: Line,
                     i0: nat)
    requires SameOutside(s', s, a, b, n) && SameOutside(c', c, a, b, n) && Longest(c, s, l, i0) && !(a <= i0 < b)
    requires forall j :: a <= j < a + n ==> |s'[j].text| <= |s[i0].text|
    ensures MaxOk(c', s', l, false)
  {
    var i := if i0 < a then i0 else i0 - b + a + n;
    forall j | 0 <= j < |s'| ensures |s'[j].text| <= |s[i0].text| {
      if j < a { assert s'[j] == s[j]; } else if j >= a + n { assert s'[j] == s[j - n + b - a]; }
    }
    assert s'[i] == s[i0] && c'[i] == c[i0];
    assert Longest(c', s', l, i);
  }

  /** The lines `a..b` */
  method LinesOf(d: Doc, a: nat, b: nat, ghost c: seq<Line>, ghost s: seq<Stored>) returns (ls: seq<Line>)
    requires Holds(d, c, s) && a <= b <= |c|
    ensures |ls| == b - a && |s| == |c| && forall i :: 0 <= i < |ls| ==> ls[i] == c[a + i] && Show(ls[i]) == s[a + i]
  {
    ls := Iteration.Iter(d, a, b - a);
    assert a + (b - a) == b;
    forall i | 0 <= i < |ls| ensures ls[i] == c[a + i] && Show(ls[i]) == s[a + i] {
      SliceAt(c, a, b, ls, i);
      assert Show(c[a + i]) == s[a + i];
    }
  }

  /** Some line of `from.line..to.line` is as long as the longest line. */
  method Touches(d: Doc, a: nat, b: nat, m: int, ghost c: seq<Line>, ghost s: seq<Stored>) returns (touched: bool)
    requires Holds(d, c, s) && a <= b <= |c|
    ensures touched <==> HasLength(s, a, b, m)
  {
    var ls := LinesOf(d, a, b, c, s);
    for i := 0 to |ls|
      invariant forall k :: a <= k < a + i ==> |s[k].text| != m
    {
      if |ls[i].text| == m { return true; }
    }
    return false;
  }

  /** The loop over the new lines that may find a longer one. */
  method FindLonger(d: Doc, a: nat, b: nat, m: int, l0: Line, ghost c: seq<Line>, ghost s: seq<Stored>)
    returns (l: Line, grown: bool)
    requires Holds(d, c, s) && a <= b <= |c|
    ensures Grown(c, s, a, b, m, l, l0, grown)
  {
    var ls := LinesOf(d, a, b, c, s);
    var maxLineLength := m;
    l, grown := l0, false;
    for i := 0 to |ls|
      invariant Grown(c, s, a, a + i, m, l, l0, grown)
      invariant maxLineLength == if grown then |l.text| else m
    {
      if |ls[i].text| > maxLineLength {
        l, maxLineLength, grown := ls[i], |ls[i].text|, true;
      }
    }
  }

  /** `computeMaxLength`: a full scan. */
  method ComputeMaxLength(d: Doc, ghost c: seq<Line>, ghost s: seq<Stored>) returns (maxLine: Line)
    requires Holds(d, c, s) && |c| >= 1
    ensures MaxOk(c, s, maxLine, false)
  {
    maxLine := GetLine(d, 0, c, s);
    var maxLineLength := |maxLine.text|;
    var size := Lookup.Size(d);
    var ls := LinesOf(d, 1, size, c, s);
    ghost var k: nat := 0;
    for i := 0 to |ls|
      invariant maxLineLength == |maxLine.text|
      invariant Longest(c[..1 + i], s[..1 + i], maxLine, k)
    {
      assert c[..1 + i + 1] == c[..1 + i] + [c[1 + i]] && s[..1 + i + 1] == s[..1 + i] + [s[1 + i]];
      if |ls[i].text| > maxLineLength {
        maxLineLength, maxLine := |ls[i].text|, ls[i];
        k := 1 + i;
      }
    }
    assert c[..|c|] == c && s[..|s|] == s;
  }

  method GetLine(d: Doc, n: nat, ghost c: seq<Line>, ghost s: seq<Stored>) returns (l: Line)
    requires Holds(d, c, s) && n < |c|
    ensures l == c[n] && Show(l) == s[n]
  {
    l := Lookup.GetLineAt(d, n);
  }

  // ----- what an edit means for the log of changes and for the history -----

  lemma RangeChanges(s: seq<Stored>, s': seq<Stored>, from: Pos, to: Pos, ls: seq<Stored>)
    requires IsRange(s', s, from, to, ls)
    ensures |s'| == |s| + |ls| - (to.line - from.line + 1) && from.line + |ls| <= |s'| && 0 <= from.line <= to.line
    ensures Display.Changed(s, Display.Diff(from.line, to.line + 1, |ls| - (to.line - from.line) - 1), s')
    ensures s' == Replace(s, from.line, to.line + 1 - from.line, Replacement(s, from, to, ls))
  {
    assert s' == ReplaceRange(s, from, to, ls);
  }

  lemma RangeBelow(s: seq<Stored>, s': seq<Stored>, from: Pos, to: Pos, ls: seq<Stored>, n: nat)
    requires IsRange(s', s, from, to, ls) && Below(s, n) && Below(ls, n)
    ensures Below(s', n) && |s'| >= 1
  {
    assert s' == ReplaceRange(s, from, to, ls);
    var r := Replacement(s, from, to, ls);
    assert Below(r, n);
    BelowPart(s, 0, from.line, n);
    BelowPart(s, to.line + 1, |s|, n);
    BelowConcat(s[..from.line], r, n);
    BelowConcat(s[..from.line] + r, s[to.line + 1..], n);
  }

  lemma RangeLength(s: seq<Stored>, s': seq<Stored>, from: Pos, to: Pos, ls: seq<Stored>)
    requires IsRange(s', s, from, to, ls)
    ensures 0 <= from.line <= to.line < |s| && from.line + |ls| <= |s'|
  {
    RangeChanges(s, s', from, to, ls);
  }

  /** `docs` are the lines before, between and after the changes of the log; the last one is `v`. */
  ghost predicate Logs(docs: seq<seq<Look>>, log: seq<Display.Diff>, v: seq<Look>) {
    true == (Display.Logged(docs, log) && docs[|log|] == v)
  }

  /** The display works from the same lines as before. */
  ghost predicate StartsWith(docs: seq<seq<Look>>, docs0: seq<seq<Look>>) {
    true == (|docs| > 0 && |docs0| > 0 && docs[0] == docs0[0])
  }

  lemma LogPush(docs: seq<seq<Look>>, log: seq<Display.Diff>, v: seq<Look>, v': seq<Look>, c: Display.Diff)
    requires Logs(docs, log, v)
    ensures Logs(docs + [v'], log + [c], v') <==> Display.Changed(v, c, v')
  {
    var ds, l := docs + [v'], log + [c];
    assert forall i :: 0 <= i < |log| ==> Display.Changed(docs[i], log[i], docs[i + 1]);
    assert ds[|log|] == v && ds[|log| + 1] == v' && l[|log|] == c;
  }

  /** A change of the lines is a change of how they look. */
  lemma LookChanged(s: seq<Stored>, c: Display.Diff, s': seq<Stored>, lists: Lists)
    requires Display.Changed(s, c, s')
    ensures Display.Changed(LookOf(s, lists), c, LookOf(s', lists))
  {
    LookTake(s, c.from, lists);
    LookTake(s', c.from, lists);
    LookTake(s, c.to, lists);
    LookTake(s', c.to + c.diff, lists);
  }

  /** An edit is logged. */
  lemma LogMore(docs: seq<seq<Look>>, log: seq<Display.Diff>, s: seq<Stored>, s': seq<Stored>, lists: Lists,
                c: Display.Diff)
    requires Display.Changed(s, c, s')
    ensures Logs(docs, log, LookOf(s, lists)) ==>
              Logs(docs + [LookOf(s', lists)], log + [c], LookOf(s', lists)) &&
              StartsWith(docs + [LookOf(s', lists)], docs)
  {
    if Logs(docs, log, LookOf(s, lists)) {
      LookChanged(s, c, s', lists);
      LogPush(docs, log, LookOf(s, lists), LookOf(s', lists), c);
    }
  }

  /** Whether a line as long as the longest lies in the range. */
  method TouchesLongest(d: Doc, from: Pos, to: Pos, l: Line, ghost c: seq<Line>, ghost s: seq<Stored>)
    returns (touched: bool)
    requires Holds(d, c, s) && ValidRange(s, from, to)
    ensures Measured(c, s, l, |l.text|) && (touched <==> HasLength(s, from.line, to.line + 1, |l.text|))
  {
    MeasuredIs(c, s, l);
    touched := Touches(d, from.line, to.line + 1, |l.text|, c, s);
  }

  /** The edit, with what it means for the longest line. */
  method EditLongest(d: Doc, from: Pos, to: Pos, lines: seq<Stored>, maxLine0: Line, dirty0: bool, ghost c: seq<Line>,
                     ghost s: seq<Stored>, ghost rest: int)
    returns (maxLine: Line, updateMaxLine: bool, ghost c': seq<Line>, ghost s': seq<Stored>)
    requires Holds(d, c, s) && ValidRange(s, from, to) && |lines| >= 1 && MaxOk(c, s, maxLine0, dirty0)
    requires rest == d.root.height - CutHeight(c, from, to, |lines|, lines[|lines| - 1].text)
    modifies d, d.chunks, d.lines`parent, d.lines`text, d.lines`spans
    ensures Holds(d, c', s') && IsRange(s', s, from, to, lines)
    ensures Resized(d, c, rest, from, to, |lines|, lines[|lines| - 1].text)
    ensures MaxOk(c', s', maxLine, updateMaxLine)
    ensures updateMaxLine <==> (dirty0 || (HasLength(s, from.line, to.line + 1, old(|maxLine0.text|)) &&
      NoLonger(s', from.line, from.line + |lines|, old(|maxLine0.text|))))
    ensures fresh(d.chunks - old(d.chunks)) && fresh(d.lines - old(d.lines))
  {
    var maxLineLength := |maxLine0.text|;
    var touched := TouchesLongest(d, from, to, maxLine0, c, s);
    c', s' := ReplaceLines(d, from, to, lines, c, s);
    maxLine, updateMaxLine := KeepLongest(d, from, to, lines, maxLineLength, maxLine0, dirty0, touched, c, s, c', s',
      rest);
  }

  /** The longest line after an edit; `m` was the length of the one before, `touched` says that such a line was cut. */
  method KeepLongest(d: Doc, from: Pos, to: Pos, lines: seq<Stored>, m: int, maxLine0: Line, dirty0: bool,
                     touched: bool, ghost c: seq<Line>, ghost s: seq<Stored>, ghost c': seq<Line>,
                     ghost s': seq<Stored>, ghost rest: int)
    returns (maxLine: Line, updateMaxLine: bool)
    requires Holds(d, c', s') && |c| == |s| && ValidRange(s, from, to) && |lines| >= 1
    requires IsRange(s', s, from, to, lines) && Resized(d, c, rest, from, to, |lines|, lines[|lines| - 1].text)
    requires MaxOk(c, s, maxLine0, dirty0) && Measured(c, s, maxLine0, m)
    requires touched <==> HasLength(s, from.line, to.line + 1, m)
    ensures MaxOk(c', s', maxLine, updateMaxLine)
    ensures updateMaxLine <==> (dirty0 || (HasLength(s, from.line, to.line + 1, m) &&
      NoLonger(s', from.line, from.line + |lines|, m)))
  {
    RangeLength(s, s', from, to, lines);
    var grown;
    maxLine, grown := FindLonger(d, from.line, from.line + |lines|, m, maxLine0, c', s');
    MaxAfter(c, s, c', s', from, to, lines, m, maxLine0, dirty0, touched, maxLine, grown);
    updateMaxLine := dirty0 || (touched && !grown);
  }

  /** The edit, with what it means for the longest line and for the log of changes. */
  method Apply(d: Doc, from: Pos, to: Pos, lines: seq<Stored>, maxLine0: Line, dirty0: bool, ghost c: seq<Line>,
               ghost s: seq<Stored>, ghost rest: int)
    returns (maxLine: Line, updateMaxLine: bool, change: Display.Diff, ghost c': seq<Line>, ghost s': seq<Stored>)
    requires Holds(d, c, s) && ValidRange(s, from, to) && |lines| >= 1 && MaxOk(c, s, maxLine0, dirty0)
    requires rest == d.root.height - CutHeight(c, from, to, |lines|, lines[|lines| - 1].text)
    modifies d, d.chunks, d.lines`parent, d.lines`text, d.lines`spans
    ensures Holds(d, c', s') && IsRange(s', s, from, to, lines)
    ensures Resized(d, c, rest, from, to, |lines|, lines[|lines| - 1].text)
    ensures MaxOk(c', s', maxLine, updateMaxLine) && Display.Changed(s, change, s')
    ensures fresh(d.chunks - old(d.chunks)) && fresh(d.lines - old(d.lines))
  {
    var nlines := to.line - from.line;
    maxLine, updateMaxLine, c', s' := EditLongest(d, from, to, lines, maxLine0, dirty0, c, s, rest);
    RangeChanges(s, s', from, to, lines);
    change := Display.Diff(from.line, to.line + 1, |lines| - nlines - 1);
  }

  /** The document of a new editor, and its line */
  method EmptyDoc() returns (d: Doc, l: Line)
    ensures fresh(d) && fresh(d.root) && fresh(d.chunks) && fresh(d.lines)
    ensures Holds(d, d.Contents(), [HL("", None)]) && MaxOk(d.Contents(), [HL("", None)], l, false)
  {
    d := new Doc();
    l := Lookup.GetLineAt(d, 0);
    assert Longest(d.Contents(), [HL("", None)], l, 0);
  }

  lemma EmptyHistory(s: seq<Stored>)
    requires s == [HL("", None)]
    ensures Below(s, 0) && Logs([LookOf(s, [])], [], LookOf(s, []))
    ensures Sane(StateText(s, Log([], [], 0, false), [], [])) && LogBelow(Log([], [], 0, false), 0)
  {
  }

  class Editor {
    const doc: Doc
    const history: UndoHistory<Stored>
    const undoDepth: nat
    var maxLine: Line
    var updateMaxLine: bool
    var changes: seq<Display.Diff>
    var lists: Lists                    // the lists of spans that have been made
    ghost var text: seq<Stored>         // the lines of `doc` as they are kept
    ghost var docs: seq<seq<Look>>      // how they looked before, between and after `changes`
    ghost var past: seq<seq<string>>    // the texts that undoing leads to
    ghost var future: seq<seq<string>>  // and redoing

    /** The invariant without history and display; it is looked into only where `Whole` is mentioned. */
    ghost predicate Core()
      reads this`text, this`lists, this`maxLine, this`updateMaxLine, this`changes, doc, doc.root, doc.chunks, doc.lines,
        doc.Contents()
    {
      forall e: Editor {:trigger e.Whole()} :: e == this ==> e.Whole()
    }

    ghost predicate Whole()
      reads this`text, this`lists, this`maxLine, this`updateMaxLine, this`changes, doc, doc.root, doc.chunks, doc.lines,
        doc.Contents()
    {
      true == (Holds(doc, doc.Contents(), text) && |text| >= 1 && Below(text, |lists|) && AllForward(lists) &&
        MaxOk(doc.Contents(), text, maxLine, updateMaxLine) && Display.Sound(changes))
    }

    /** How the lines look */
    ghost function Looks(): (v: seq<Look>)
      reads this`text, this`lists
    {
      LookOf(text, lists)
    }

    /** `changes` tells where the lines look different from `docs[0]`. */
    ghost predicate Tracked()
      reads this`text, this`lists, this`docs, this`changes
    {
      true == Logs(docs, changes, LookOf(text, lists))
    }

    ghost function Abs(): State<string>
      reads this, history
    {
      StateText(text, history.AsLog(), past, future)
    }

    ghost predicate Valid()
      reads this, doc, doc.root, doc.chunks, doc.lines, doc.Contents(), history
    {
      true == (Core() && Sane(Abs()) && LogBelow(history.AsLog(), |lists|))
    }

    /** An editor with one empty line */
    constructor (undoDepth: nat)
      ensures Valid() && Tracked() && fresh(doc) && fresh(doc.root) && fresh(doc.chunks) && fresh(doc.lines) &&
        fresh(history)
      ensures text == [HL("", None)] && lists == [] && history.AsLog() == Log([], [], 0, false) &&
        this.undoDepth == undoDepth
    {
      var d, l := EmptyDoc();
      var h := new UndoHistory<Stored>();
      doc, history, this.undoDepth := d, h, undoDepth;
      maxLine, updateMaxLine, changes, lists := l, false, [], [];
      text, docs, past, future := [HL("", None)], [LookOf([HL("", None)], [])], [], [];
      EmptyHistory([HL("", None)]);
      new;
      assert Whole();
    }

    /** `updateLinesNoUndo` in an editor that does not wrap lines */
    method UpdateLinesNoUndo(from: Pos, to: Pos, lines: seq<Stored>)
      requires Core() && ValidRange(text, from, to) && |lines| >= 1 && Below(lines, |lists|)
      modifies this`maxLine, this`updateMaxLine, this`changes, this`docs, this`text, doc, doc.chunks, doc.lines`parent,
        doc.lines`text, doc.lines`spans
      ensures Core() && IsRange(text, old(text), from, to, lines)
      ensures Resized(doc, old(doc.Contents()), old(doc.root.height - CutHeight(doc.Contents(), from, to, |lines|,
        lines[|lines| - 1].text)), from, to, |lines|, lines[|lines| - 1].text)
      ensures old(Tracked()) ==> Tracked() && StartsWith(docs, old(docs))
      ensures fresh(doc.chunks - old(doc.chunks)) && fresh(doc.lines - old(doc.lines))
    {
      ghost var s := text;
      var change := EditLines(from, to, lines);
      LogMore(docs, changes, s, text, lists, change);
      LogChange(change);
    }

    /** The edit without the log of changes */
    method EditLines(from: Pos, to: Pos, lines: seq<Stored>) returns (change: Display.Diff)
      requires Core() && ValidRange(text, from, to) && |lines| >= 1 && Below(lines, |lists|)
      modifies this`maxLine, this`updateMaxLine, this`text, doc, doc.chunks, doc.lines`parent, doc.lines`text,
        doc.lines`spans
      ensures Core() && IsRange(text, old(text), from, to, lines)
      ensures Resized(doc, old(doc.Contents()), old(doc.root.height - CutHeight(doc.Contents(), from, to, |lines|,
        lines[|lines| - 1].text)), from, to, |lines|, lines[|lines| - 1].text)
      ensures Display.Changed(old(text), change, text)
      ensures fresh(doc.chunks - old(doc.chunks)) && fresh(doc.lines - old(doc.lines))
    {
      assert Whole();
      ghost var c', s', s := doc.Contents(), text, text;
      var l, dirty;
      ghost var rest := doc.root.height - CutHeight(doc.Contents(), from, to, |lines|, lines[|lines| - 1].text);
      l, dirty, change, c', s' := Apply(doc, from, to, lines, maxLine, updateMaxLine, doc.Contents(), text, rest);
      RangeBelow(s, s', from, to, lines, |lists|);
      assert Holds(doc, doc.Contents(), s') && |s'| >= 1;
      SetText(l, dirty, s');
    }

    /** The fields of the editor follow the document. */
    method SetText(l: Line, dirty: bool, ghost s: seq<Stored>)
      requires Holds(doc, doc.Contents(), s) && |s| >= 1 && Below(s, |lists|) && AllForward(lists) &&
        MaxOk(doc.Contents(), s, l, dirty) && Display.Sound(changes)
      modifies this`maxLine, this`updateMaxLine, this`text
      ensures Core() && text == s && maxLine == l && updateMaxLine == dirty
    {
      maxLine, updateMaxLine, text := l, dirty, s;
      assert Whole();
    }

    method LogChange(change: Display.Diff)
      requires Core() && Display.SoundDiff(change)
      modifies this`changes, this`docs
      ensures Core() && changes == old(changes) + [change] && docs == old(docs) + [LookOf(text, lists)]
    {
      assert Whole();
      Display.SoundPush(changes, change);
      changes, docs := changes + [change], docs + [LookOf(text, lists)];
      assert Whole();
    }

    /** `updateLines` at time `now` */
    method UpdateLines(from: Pos, to: Pos, newText: seq<string>, now: int)
      requires Valid() && ValidRange(text, from, to) && |newText| >= 1
      modifies this, history, doc, doc.chunks, doc.lines`parent, doc.lines`text, doc.lines`spans
      ensures Valid() && IsNext(Abs(), old(Abs()), Typed(old(text), from, to, newText, now - old(history.time) > 400),
        undoDepth)
      ensures Redrawn(text, lists, old(text), old(lists), from, to, newText)
      ensures old(Tracked()) ==> Tracked() && StartsWith(docs, old(docs))
      ensures fresh(doc.chunks - old(doc.chunks)) && fresh(doc.lines - old(doc.lines)) && history.time == now
      ensures forall l :: l in doc.lines ==> l.height == if l in old(doc.lines) then old(l.height) else 1
      ensures Resized(doc, old(doc.Contents()), old(doc.root.height - CutHeight(doc.Contents(), from, to, |newText|,
        newText[|newText| - 1])), from, to, |newText|, newText[|newText| - 1])
    {
      LinesAreContents();
      ghost var c, s0, log0, late := doc.Contents(), text, history.AsLog(), now - history.time > 400;
      ghost var olds, lines := RecordAndEdit(from, to, newText, now);
      LinesAreContents();
      ExchangeHigh(doc, c, old(doc.lines), from, to, |newText|, newText[|newText| - 1]);
      StepPast(s0, log0, from, to, newText, late, olds, lines);
    }

    lemma LinesAreContents()
      requires Core()
      ensures doc.lines == Elems(doc.Contents())
    {
      assert Whole();
    }

    method StepPast(ghost s0: seq<Stored>, ghost log0: Log<Stored>, from: Pos, to: Pos, newText: seq<string>,
                    ghost late: bool, ghost olds: seq<Stored>, ghost lines: seq<Stored>)
      requires Core() && LogBelow(history.AsLog(), |lists|) && Sane(StateText(s0, log0, past, future))
      requires Spliced(text, s0, from, to, newText, olds, lines) && ValidRange(s0, from, to) && |newText| >= 1
      requires history.AsLog() == Recorded(log0, from.line, |newText|, olds, late, undoDepth)
      modifies this`past, this`future
      ensures Valid() && IsNext(Abs(), StateText(s0, log0, old(past), old(future)), Typed(s0, from, to, newText, late),
        undoDepth)
    {
      ghost var t := EditStep(s0, log0, past, future, text, from, to, newText, late, olds, lines, history.AsLog(),
        undoDepth);
      SetPast(t);
    }

    /** The documents that undoing and redoing lead to follow the history. */
    method SetPast(ghost t: State<string>)
      requires Core() && Sane(t) && LogBelow(history.AsLog(), |lists|) &&
        t == StateText(text, history.AsLog(), t.past, t.future)
      modifies this`past, this`future
      ensures Valid() && Abs() == t
    {
      past, future := t.past, t.future;
    }

    method RecordAndEdit(from: Pos, to: Pos, newText: seq<string>, now: int)
      returns (ghost olds: seq<Stored>, ghost lines: seq<Stored>)
      requires Core() && ValidRange(text, from, to) && |newText| >= 1 && LogBelow(history.AsLog(), |lists|)
      modifies this`maxLine, this`updateMaxLine, this`changes, this`lists, this`docs, this`text, history, doc,
        doc.chunks, doc.lines`parent, doc.lines`text, doc.lines`spans
      ensures Core() && Spliced(text, old(text), from, to, newText, olds, lines)
      ensures Resized(doc, old(doc.Contents()), old(doc.root.height - CutHeight(doc.Contents(), from, to, |newText|,
        newText[|newText| - 1])), from, to, |newText|, newText[|newText| - 1])
      ensures Redrawn(text, lists, old(text), old(lists), from, to, newText) && |old(lists)| <= |lists|
      ensures history.AsLog() == Recorded(old(history.AsLog()), from.line, |newText|, olds,
        now - old(history.time) > 400, undoDepth)
      ensures LogBelow(history.AsLog(), |lists|)
      ensures old(Tracked()) ==> Tracked() && StartsWith(docs, old(docs))
      ensures fresh(doc.chunks - old(doc.chunks)) && fresh(doc.lines - old(doc.lines)) && history.time == now
    {
      ghost var n, cut := |lists|, CutHeight(doc.Contents(), from, to, |newText|, newText[|newText| - 1]);
      var first, last;
      first, last, olds := RecordOld(from, to, |newText|, now);
      assert CutHeight(doc.Contents(), from, to, |newText|, newText[|newText| - 1]) == cut;
      lines := EditText(from, to, newText, first, last);
      LogBelowMore(history.AsLog(), n, |lists|);
    }

    /** The lines of the range go to the history; the lists of the first and of the last one are needed for the edit. */
    method RecordOld(from: Pos, to: Pos, added: nat, now: int)
      returns (first: Option<nat>, last: Option<nat>, ghost olds: seq<Stored>)
      requires Core() && ValidRange(text, from, to) && LogBelow(history.AsLog(), |lists|)
      modifies history
      ensures Core() && 0 <= from.line <= to.line < |text| && olds == text[from.line..to.line + 1]
      ensures first == text[from.line].spans && last == text[to.line].spans
      ensures history.AsLog() == Recorded(old(history.AsLog()), from.line, added, olds, now - old(history.time) > 400,
        undoDepth)
      ensures LogBelow(history.AsLog(), |lists|) && history.time == now
    {
      assert Whole();
      var old' := Words(doc, from.line, to.line + 1, doc.Contents(), text);
      BelowPart(text, from.line, to.line + 1, |lists|);
      Record(history, from.line, added, old', now, undoDepth, |lists|);
      first, last, olds := old'[0].spans, old'[|old'| - 1].spans, old';
    }

    /** The edit without the history */
    method EditText(from: Pos, to: Pos, newText: seq<string>, oldFirst: Option<nat>, oldLast: Option<nat>)
      returns (ghost lines: seq<Stored>)
      requires Core() && ValidRange(text, from, to) && |newText| >= 1
      requires ValidPos(text, from) && ValidPos(text, to) && oldFirst == text[from.line].spans &&
        oldLast == text[to.line].spans
      modifies this`maxLine, this`updateMaxLine, this`changes, this`lists, this`docs, this`text, doc, doc.chunks,
        doc.lines`parent, doc.lines`text, doc.lines`spans
      ensures Core() && IsRange(text, old(text), from, to, lines) && Texts(lines) == newText
      ensures Resized(doc, old(doc.Contents()), old(doc.root.height - CutHeight(doc.Contents(), from, to, |newText|,
        newText[|newText| - 1])), from, to, |newText|, newText[|newText| - 1])
      ensures Redrawn(text, lists, old(text), old(lists), from, to, newText) && |old(lists)| <= |lists|
      ensures old(Tracked()) ==> Tracked() && StartsWith(docs, old(docs))
      ensures fresh(doc.chunks - old(doc.chunks)) && fresh(doc.lines - old(doc.lines))
    {
      ghost var s, lists0 := text, lists;
      ghost var cut := CutHeight(doc.Contents(), from, to, |newText|, newText[|newText| - 1]);
      var newLines := NewLines(from, to, newText, oldFirst, oldLast);
      lines := newLines;
      assert CutHeight(doc.Contents(), from, to, |newText|, newText[|newText| - 1]) == cut;
      PutText(from, to, newLines, newText);
      LookEdited(s, text, from, to, lines, newText, lists, lists0);
    }

    method PutText(from: Pos, to: Pos, lines: seq<Stored>, ghost newText: seq<string>)
      requires Core() && ValidRange(text, from, to) && Texts(lines) == newText && |newText| >= 1 &&
        Below(lines, |lists|)
      modifies this`maxLine, this`updateMaxLine, this`changes, this`docs, this`text, doc, doc.chunks, doc.lines`parent,
        doc.lines`text, doc.lines`spans
      ensures Core() && IsRange(text, old(text), from, to, lines)
      ensures Resized(doc, old(doc.Contents()), old(doc.root.height - CutHeight(doc.Contents(), from, to, |newText|,
        newText[|newText| - 1])), from, to, |newText|, newText[|newText| - 1])
      ensures old(Tracked()) ==> Tracked() && StartsWith(docs, old(docs))
      ensures fresh(doc.chunks - old(doc.chunks)) && fresh(doc.lines - old(doc.lines))
    {
      LastText(lines, newText);
      UpdateLinesNoUndo(from, to, lines);
    }

    /** The lines of the edit, with their lists */
    method NewLines(from: Pos, to: Pos, newText: seq<string>, oldFirst: Option<nat>, oldLast: Option<nat>)
      returns (lines: seq<Stored>)
      requires Core() && ValidRange(text, from, to) && |newText| >= 1
      requires ValidPos(text, from) && ValidPos(text, to) && oldFirst == text[from.line].spans &&
        oldLast == text[to.line].spans
      modifies this`lists
      ensures Core() && Prepared(lines, text, from, to, newText, lists, old(lists)) && (old(Tracked()) ==> Tracked())
      ensures |lines| >= 1 && Texts(lines) == newText && Below(lines, |lists|) && |old(lists)| <= |lists|
    {
      assert Whole();
      ghost var lists0 := lists;
      lines, lists := UpdateMarkedSpans(oldFirst, oldLast, from.ch, to.ch, newText, lists);
      LookStays(text, lists0, lists);
      assert |lines| == |LookOf(lines, lists)| == |newText| && Texts(LookOf(lines, lists)) == Texts(lines);
      assert Whole();
    }

    /**
     `markText`, for a marker of the given number: the text and its history stay as they are. The marker covers
     exactly its range if and only if no line of the range shares its list of spans, and the log of changes is enough
     if and only if no line of the range shares it with a line outside. The end is meant to be behind the start; if it
     is not, the editor is left with a span that ends before it begins or with a change that does so, but for a start
     on the line behind that of the end.
     */
    method MarkText(from: Pos, to: Pos, marker: nat)
      requires Valid() && ValidPos(text, from) && ValidPos(text, to)
      modifies this`changes, this`lists, this`docs, this`text, doc.lines`spans
      ensures Abs() == old(Abs()) && (Valid() <==> (!Less(to, from) || from.line == to.line + 1))
      ensures if Less(to, from)
              then IsBackward(text, lists, changes, old(text), old(lists), old(changes), from, to, marker)
              else IsPushed(Looks(), old(Looks()), old(text), marker, Marks.Range(from, to)) &&
                   GivenLists(text, old(text), from.line, to.line + 1, lists, old(lists))
      ensures Marks.Marked(old(Looks()), marker, None) ==>
                (Marks.Marked(Looks(), marker, Some(Marks.Range(from, to))) <==>
                (!Less(to, from) && Unshared(old(text), from.line, to.line)))
      ensures old(Tracked()) && !Less(to, from) ==>
        StartsWith(docs, old(docs)) && (Tracked() <==> SharedWithin(old(text), from.line, to.line))
    {
      if Less(to, from) {
        MarkBackward(from, to, marker);
        NotMarked(Looks(), from, to, marker);
      } else {
        MarkForward(from, to, marker);
      }
    }

    method MarkForward(from: Pos, to: Pos, marker: nat)
      requires Valid() && ValidRange(text, from, to)
      modifies this`changes, this`lists, this`docs, this`text, doc.lines`spans
      ensures Valid() && Abs() == old(Abs()) && IsPushed(Looks(), old(Looks()), old(text), marker,
        Marks.Range(from, to))
      ensures Marks.Marked(old(Looks()), marker, None) ==>
                (Marks.Marked(Looks(), marker, Some(Marks.Range(from, to))) <==>
                Unshared(old(text), from.line, to.line))
      ensures old(Tracked()) ==>
        StartsWith(docs, old(docs)) && (Tracked() <==> SharedWithin(old(text), from.line, to.line))
      ensures GivenLists(text, old(text), from.line, to.line + 1, lists, old(lists))
    {
      ghost var v, s := Looks(), text;
      ghost var r := Marks.Range(from, to);
      AddMarker(from, to, marker);
      CoversItsRange(Looks(), v, s, marker, r);
    }

    /** `markText` with the end before the start: the walk visits one line or none. */
    method MarkBackward(from: Pos, to: Pos, marker: nat)
      requires Valid() && ValidPos(text, from) && ValidPos(text, to) && Less(to, from)
      modifies this`changes, this`lists, this`docs, this`text, doc.lines`spans
      ensures Abs() == old(Abs()) && (Valid() <==> from.line == to.line + 1)
      ensures IsBackward(text, lists, changes, old(text), old(lists), old(changes), from, to, marker)
    {
      assert Whole();
      if from.line == to.line { PushBackward(from, to, marker); }
      Display.SoundPush(changes, Display.Diff(from.line, to.line + 1, 0));
      changes, docs := changes + [Display.Diff(from.line, to.line + 1, 0)], docs + [LookOf(text, lists)];
      assert Whole() <==> from.line == to.line + 1;
    }

    method PushBackward(from: Pos, to: Pos, marker: nat)
      requires Whole() && ValidPos(text, from) && ValidPos(text, to) && Less(to, from) && from.line == to.line
      modifies this`lists, this`text, doc.lines`spans
      ensures (text, lists) == PushedAtLine(old(text), old(lists), marker, Marks.Range(from, to), from.line)
      ensures Texts(text) == Texts(old(text)) && !AllForward(lists)
    {
      BackwardPushed(text, lists, from, to, marker);
      ghost var s';
      lists, s' := AddBackward(doc, from.line, from, to, marker, lists, doc.Contents(), text);
      text := s';
    }

    method AddMarker(from: Pos, to: Pos, marker: nat)
      requires Core() && ValidRange(text, from, to)
      modifies this`changes, this`lists, this`docs, this`text, doc.lines`spans
      ensures Core() && Texts(text) == Texts(old(text)) && |old(lists)| <= |lists|
      ensures IsPushed(Looks(), old(Looks()), old(text), marker, Marks.Range(from, to))
      ensures old(Tracked()) ==>
        StartsWith(docs, old(docs)) && (Tracked() <==> SharedWithin(old(text), from.line, to.line))
      ensures GivenLists(text, old(text), from.line, to.line + 1, lists, old(lists))
    {
      ghost var v, s := Looks(), text;
      var change := AddPieces(from, to, marker);
      MarkLogged(docs, changes, LookOf(text, lists), v, s, marker, Marks.Range(from, to), change);
      LogChange(change);
    }

    /** `markText` without the log of changes */
    method AddPieces(from: Pos, to: Pos, marker: nat) returns (change: Display.Diff)
      requires Core() && ValidRange(text, from, to)
      modifies this`lists, this`text, doc.lines`spans
      ensures Core() && Texts(text) == Texts(old(text)) && |old(lists)| <= |lists| &&
        change == Display.Diff(from.line, to.line + 1, 0)
      ensures IsPushed(Looks(), old(Looks()), old(text), marker, Marks.Range(from, to))
      ensures GivenLists(text, old(text), from.line, to.line + 1, lists, old(lists))
    {
      assert Whole();
      ghost var s', s, c := text, text, doc.Contents();
      var lists';
      lists', s' := AddSpans(doc, from, to, marker, lists, c, text);
      LinesMarked(s, lists, marker, Marks.Range(from, to), s', lists');
      GivenIsBelow(s', s, from.line, to.line + 1, lists', lists);
      SameLengths(c, s, s', maxLine, updateMaxLine);
      SetLists(lists', s');
      change := Display.Diff(from.line, to.line + 1, 0);
    }

    method SetLists(lists': Lists, ghost s: seq<Stored>)
      requires Holds(doc, doc.Contents(), s) && |s| >= 1 && Below(s, |lists'|) && AllForward(lists') &&
        MaxOk(doc.Contents(), s, maxLine, updateMaxLine) && Display.Sound(changes)
      modifies this`lists, this`text
      ensures Core() && text == s && lists == lists'
    {
      lists, text := lists', s;
      assert Whole();
    }

    /** One round of the loop of `unredoHelper`: the change is taken back, and its inverse is the result. */
    method TakeBack(change: Change<Stored>) returns (out: Change<Stored>)
      requires Core() && Fits(text, change) && Below(change.olds, |lists|)
      modifies this`maxLine, this`updateMaxLine, this`changes, this`docs, this`text, doc, doc.chunks, doc.lines`parent,
        doc.lines`text, doc.lines`spans
      ensures Core() && text == Revert(old(text), change) && out == Inverse(old(text), change)
      ensures old(Tracked()) ==> Tracked() && StartsWith(docs, old(docs))
      ensures fresh(doc.chunks - old(doc.chunks)) && fresh(doc.lines - old(doc.lines))
    {
      ghost var s := text;
      var from, to;
      out, from, to := ReadChange(change);
      UpdateLinesNoUndo(from, to, change.olds);
      RangeReverts(s, text, change, from, to);
    }

    /** The inverse of a change that is to be taken back, and the range of the lines that the change added */
    method ReadChange(change: Change<Stored>) returns (out: Change<Stored>, from: Pos, to: Pos)
      requires Core() && Fits(text, change)
      ensures out == Inverse(text, change) && ValidRange(text, from, to) && AddedRange(text, change, from, to)
    {
      assert Whole();
      var end := change.start + change.added;
      var replaced := Words(doc, change.start, end, doc.Contents(), text);
      out := Change(change.start, |change.olds|, replaced);
      var last := GetLine(doc, end - 1, doc.Contents(), text);
      from, to := Pos(change.start, 0), Pos(end - 1, |last.text|);
      WholeRange(text, change, from, to);
    }

    /** `unredoHelper`, from the set that has been popped to the set that is to be pushed. */
    method UnredoHelper(set': seq<Change<Stored>>) returns (out: seq<Change<Stored>>)
      requires Core() && FitsAll(text, set') && SetBelow(set', |lists|)
      modifies this`maxLine, this`updateMaxLine, this`changes, this`docs, this`text, doc, doc.chunks, doc.lines`parent,
        doc.lines`text, doc.lines`spans
      ensures Core() && text == RevertAll(old(text), set') && out == InverseAll(old(text), set')
      ensures old(Tracked()) ==> Tracked() && StartsWith(docs, old(docs))
      ensures fresh(doc.chunks - old(doc.chunks)) && fresh(doc.lines - old(doc.lines))
    {
      out := [];
      var i := |set'|;
      assert set'[..i] == set';
      while i > 0
        invariant 0 <= i <= |set'| && Core() && FitsAll(text, set'[..i])
        invariant RevertAll(text, set'[..i]) == RevertAll(old(text), set')
        invariant out + InverseAll(text, set'[..i]) == InverseAll(old(text), set')
        invariant old(Tracked()) ==> Tracked() && StartsWith(docs, old(docs))
        invariant fresh(doc.chunks - old(doc.chunks)) && fresh(doc.lines - old(doc.lines))
      {
        assert set'[..i][..i - 1] == set'[..i - 1];
        assert Below(set'[i - 1].olds, |lists|);
        ghost var s := text;
        var inverse := TakeBack(set'[i - 1]);
        assert InverseAll(s, set'[..i]) == [inverse] + InverseAll(text, set'[..i - 1]);
        out := out + [inverse];
        i := i - 1;
      }
    }

    method Undo()
      requires Valid()
      modifies this, history, doc, doc.chunks, doc.lines`parent, doc.lines`text, doc.lines`spans
      ensures Valid() && IsNext(Abs(), old(Abs()), Action.Undo, undoDepth)
      ensures old(Tracked()) ==> Tracked() && StartsWith(docs, old(docs))
      ensures fresh(doc.chunks - old(doc.chunks)) && fresh(doc.lines - old(doc.lines))
    {
      if |history.done| == 0 {
        UndoNothing(Abs(), undoDepth);
        return;
      }
      ghost var s, log := text, history.AsLog();
      assert Below(text, |lists|) by { assert Whole(); }
      UndoFits(text, log, past, future, |lists|);
      TakeBackDone();
      StepUndo(s, log);
    }

    method StepUndo(ghost s: seq<Stored>, ghost log: Log<Stored>)
      requires Core() && Sane(StateText(s, log, past, future)) && LogBelow(history.AsLog(), |lists|)
      requires log.done != [] && FitsAll(s, log.done[|log.done| - 1])
      requires var n, cs := |log.done| - 1, log.done[|log.done| - 1];
               text == RevertAll(s, cs) && history.AsLog()
               == log.(done := log.done[..n], undone := log.undone + [InverseAll(s, cs)])
      modifies this`past, this`future
      ensures Valid() && IsNext(Abs(), StateText(s, log, old(past), old(future)), Action.Undo, undoDepth)
    {
      ghost var t := UndoStep(s, log, past, future, undoDepth);
      SetPast(t);
    }

    /** The last set of `history.done` is taken back, and its inverse goes to `history.undone`. */
    method TakeBackDone()
      requires Core() && history.done != [] && FitsAll(text, history.done[|history.done| - 1]) &&
        SetBelow(history.done[|history.done| - 1], |lists|)
      modifies this`maxLine, this`updateMaxLine, this`changes, this`docs, this`text, history, doc, doc.chunks,
        doc.lines`parent, doc.lines`text, doc.lines`spans
      ensures Core() && var n, set' := |old(history.done)| - 1, old(history.done)[|old(history.done)| - 1];
                FitsAll(old(text), set') && text == RevertAll(old(text), set') &&
                history.AsLog() == old(history.AsLog()).(done := old(history.done)[..n],
                undone := old(history.undone) + [InverseAll(old(text), set')])
      ensures old(Tracked()) ==> Tracked() && StartsWith(docs, old(docs))
      ensures fresh(doc.chunks - old(doc.chunks)) && fresh(doc.lines - old(doc.lines))
    {
      var n := |history.done|;
      var set' := history.done[n - 1];
      history.done := history.done[..n - 1];
      var out := UnredoHelper(set');
      history.undone := history.undone + [out];
    }

    method Redo()
      requires Valid()
      modifies this, history, doc, doc.chunks, doc.lines`parent, doc.lines`text, doc.lines`spans
      ensures Valid() && IsNext(Abs(), old(Abs()), Action.Redo, undoDepth)
      ensures old(Tracked()) ==> Tracked() && StartsWith(docs, old(docs))
      ensures fresh(doc.chunks - old(doc.chunks)) && fresh(doc.lines - old(doc.lines))
    {
      if |history.undone| == 0 {
        RedoNothing(Abs(), undoDepth);
        return;
      }
      ghost var s, log := text, history.AsLog();
      assert Below(text, |lists|) by { assert Whole(); }
      RedoFits(text, log, past, future, |lists|);
      TakeBackUndone();
      StepRedo(s, log);
    }

    method StepRedo(ghost s: seq<Stored>, ghost log: Log<Stored>)
      requires Core() && Sane(StateText(s, log, past, future)) && LogBelow(history.AsLog(), |lists|)
      requires log.undone != [] && FitsAll(s, log.undone[|log.undone| - 1])
      requires var n, cs := |log.undone| - 1, log.undone[|log.undone| - 1];
               text == RevertAll(s, cs) && history.AsLog()
               == log.(undone := log.undone[..n], done := log.done + [InverseAll(s, cs)])
      modifies this`past, this`future
      ensures Valid() && IsNext(Abs(), StateText(s, log, old(past), old(future)), Action.Redo, undoDepth)
    {
      ghost var t := RedoStep(s, log, past, future, undoDepth);
      SetPast(t);
    }

    /** The last set of `history.undone` is taken back, and its inverse goes to `history.done`. */
    method TakeBackUndone()
      requires Core() && history.undone != [] && FitsAll(text, history.undone[|history.undone| - 1]) &&
        SetBelow(history.undone[|history.undone| - 1], |lists|)
      modifies this`maxLine, this`updateMaxLine, this`changes, this`docs, this`text, history, doc, doc.chunks,
        doc.lines`parent, doc.lines`text, doc.lines`spans
      ensures Core() && var n, set' := |old(history.undone)| - 1, old(history.undone)[|old(history.undone)| - 1];
                FitsAll(old(text), set') && text == RevertAll(old(text), set') &&
                history.AsLog() == old(history.AsLog()).(undone := old(history.undone)[..n],
                done := old(history.done) + [InverseAll(old(text), set')])
      ensures old(Tracked()) ==> Tracked() && StartsWith(docs, old(docs))
      ensures fresh(doc.chunks - old(doc.chunks)) && fresh(doc.lines - old(doc.lines))
    {
      var n := |history.undone|;
      var set' := history.undone[n - 1];
      history.undone := history.undone[..n - 1];
      var out := UnredoHelper(set');
      history.done := history.done + [out];
    }

    /** The beginning of `compoundChange` */
    method StartCompound()
      requires Valid()
      modifies history
      ensures Valid() && IsNext(Abs(), old(Abs()), Action.StartCompound, undoDepth)
    {
      CompoundStep(Abs(), undoDepth);
      history.StartCompound();
    }

    /** The end of `compoundChange` */
    method EndCompound()
      requires Valid()
      modifies history
      ensures Valid() && IsNext(Abs(), old(Abs()), Action.EndCompound, undoDepth)
    {
      CompoundStep(Abs(), undoDepth);
      history.EndCompound();
    }

    /**
     `endOperation`, followed by the next `startOperation`. If something has changed or the view has been scrolled the
     nodes that are intact according to the log are kept, and the others are drawn. If all nodes showed the lines as
     they were before the first logged change, they show the text afterwards.
     */
    method EndOperation(div: Display.LineDiv<Look>, scrolled: bool, hidden: bool, visFrom: nat, visTo: nat)
      returns (r: Display.Outcome)
      requires Valid() && div.Numbered() && visFrom <= visTo <= |text|
      modifies this`maxLine, this`updateMaxLine, this`changes, this`docs, div
      ensures Valid() && Tracked() && docs == [Looks()] && changes == [] && div.Numbered() && r != Display.BadPatch
      ensures Abs() == old(Abs()) && !updateMaxLine && MaxOk(doc.Contents(), text, maxLine, false)
      ensures (scrolled || |old(changes)| > 0) && !hidden ==>
        IsUpdate(div, Looks(), old(changes), old(div.nodes), old(div.showingFrom), old(div.showingTo)) &&
        div.showingFrom <= visFrom && visTo <= div.showingTo
      ensures old(Tracked() && div.Shows(docs[0])) ==>
        div.Shows(docs[0]) &&
        ((scrolled || |old(changes)| > 0) && !hidden ==> div.nodes == Looks()[div.showingFrom..div.showingTo])
    {
      ghost var start := if Tracked() then docs else [];
      RepairMaxLine();
      assert Whole();
      r := ShowChanges(doc, div, changes, scrolled, hidden, visFrom, visTo, lists, doc.Contents(), text, start);
      ClearLog();
    }

    /** The longest line is looked for if the last one found may be wrong. */
    method RepairMaxLine()
      requires Core()
      modifies this`maxLine, this`updateMaxLine
      ensures Core() && !updateMaxLine && MaxOk(doc.Contents(), text, maxLine, false)
    {
      assert Whole();
      if updateMaxLine {
        maxLine := ComputeMaxLength(doc, doc.Contents(), text);
        updateMaxLine := false;
      }
      assert Whole();
    }

    method ClearLog()
      requires Core()
      modifies this`changes, this`docs
      ensures Core() && Tracked() && docs == [LookOf(text, lists)] && changes == []
    {
      assert Whole();
      LogNone(LookOf(text, lists));
      docs, changes := [LookOf(text, lists)], [];
      assert Whole();
    }

    /**
     `refresh` draws the lines anew. The log stays as it is, so that the nodes are in step with it only if nothing has
     been logged; otherwise the end of the operation applies the changes to nodes that show them already.
     */
    method Refresh(div: Display.LineDiv<Look>, hidden: bool, visFrom: nat, visTo: nat) returns (r: Display.Outcome)
      requires Valid() && div.Numbered() && visFrom <= visTo <= |text|
      modifies div
      ensures r != Display.BadPatch && div.Numbered() && div.Shows(Looks()) &&
        (Tracked() && changes == [] ==> div.Shows(docs[0]))
      ensures !hidden ==>
        div.nodes == Looks()[div.showingFrom..div.showingTo] && div.showingFrom <= visFrom &&
        visTo <= div.showingTo
    {
      assert Whole();
      var size := Lookup.Size(doc);
      var rows := Words(doc, 0, size, doc.Contents(), text);
      assert rows == text;
      var looks := DrawLines(rows, lists);
      ghost var was, a, b := div.nodes, div.showingFrom, div.showingTo;
      r := div.UpdateDisplay(looks, Display.All, hidden, visFrom, visTo);
      Display.AllDrawn(looks, was, a, b);
    }

    /**
     `scrollTo` moves the window and takes the nodes that it has for right, also if changes have been logged since they
     were drawn.
     */
    method ScrollTo(div: Display.LineDiv<Look>, hidden: bool, visFrom: nat, visTo: nat) returns (r: Display.Outcome)
      requires Valid() && div.Numbered() && visFrom <= visTo <= |text|
      modifies div
      ensures r != Display.BadPatch && div.Numbered()
      ensures !hidden ==>
        IsUpdate(div, Looks(), [], old(div.nodes), old(div.showingFrom), old(div.showingTo)) &&
        div.showingFrom <= visFrom && visTo <= div.showingTo
      ensures old(div.Shows(Looks())) ==> div.Shows(Looks())
    {
      assert Whole();
      r := Update(doc, div, [], hidden, visFrom, visTo, lists, doc.Contents(), text, [Looks()]);
    }
  }

  /**
   The nodes after an update: those that the log says are intact have stayed, the others show the lines. Nodes that show
   lines beyond the end of the text are left alone if the window does not move.
   */
  ghost predicate IsUpdate(div: Display.LineDiv<Look>, v: seq<Look>, log: seq<Display.Diff>, was: seq<Look>, a: nat,
                           b: nat)
    reads div
  {
    Display.Counts(was, a, b) && Display.Sound(log) && div.showingFrom <= div.showingTo &&
    |div.nodes| == div.showingTo - div.showingFrom &&
    if div.showingTo <= |v|
    then div.nodes == Display.Overlay(v, Display.Log(log), was, a, b)[div.showingFrom..div.showingTo]
    else div.nodes == was && div.showingFrom == a && div.showingTo == b
  }

  lemma LogNone(v: seq<Look>)
    ensures Logs([v], [], v)
  {
  }

  /** How the lines look to the display */
  method DrawLines(rows: seq<Stored>, lists: Lists) returns (looks: seq<Look>)
    ensures looks == LookOf(rows, lists)
  {
    looks := [];
    for i := 0 to |rows|
      invariant |looks| == i && forall j :: 0 <= j < i ==> looks[j] == LookOf(rows, lists)[j]
    {
      looks := looks + [HL(rows[i].text, SpansOf(rows[i].spans, lists))];
    }
  }

  method ShowChanges(d: Doc, div: Display.LineDiv<Look>, changes: seq<Display.Diff>, scrolled: bool, hidden: bool,
                     visFrom: nat, visTo: nat, lists: Lists, ghost c: seq<Line>, ghost s: seq<Stored>,
                     ghost docs: seq<seq<Look>>) returns (r: Display.Outcome)
    requires Holds(d, c, s) && |s| >= 1 && div.Numbered() && Display.Sound(changes) && visFrom <= visTo <= |s|
    modifies div
    ensures r != Display.BadPatch && div.Numbered()
    ensures (scrolled || |changes| > 0) && !hidden ==>
      IsUpdate(div, LookOf(s, lists), changes, old(div.nodes), old(div.showingFrom), old(div.showingTo)) &&
      div.showingFrom <= visFrom && visTo <= div.showingTo
    ensures Logs(docs, changes, LookOf(s, lists)) && old(div.Shows(docs[0])) ==>
      div.Shows(LookOf(s, lists)) && ((scrolled || |changes| > 0) && !hidden ==>
      div.nodes == LookOf(s, lists)[div.showingFrom..div.showingTo])
  {
    r := Display.Kept;
    if |changes| > 0 || scrolled {
      r := Update(d, div, changes, hidden, visFrom, visTo, lists, c, s, docs);
    }
  }

  method Update(d: Doc, div: Display.LineDiv<Look>, changes: seq<Display.Diff>, hidden: bool, visFrom: nat, visTo: nat,
                lists: Lists, ghost c: seq<Line>, ghost s: seq<Stored>, ghost docs: seq<seq<Look>>)
    returns (r: Display.Outcome)
    requires Holds(d, c, s) && |s| >= 1 && div.Numbered() && Display.Sound(changes) && visFrom <= visTo <= |s|
    modifies div
    ensures r != Display.BadPatch && div.Numbered()
    ensures !hidden ==>
      IsUpdate(div, LookOf(s, lists), changes, old(div.nodes), old(div.showingFrom), old(div.showingTo)) &&
      div.showingFrom <= visFrom && visTo <= div.showingTo
    ensures Logs(docs, changes, LookOf(s, lists)) && old(div.Shows(docs[0])) ==>
      div.Shows(LookOf(s, lists)) && (!hidden ==> div.nodes == LookOf(s, lists)[div.showingFrom..div.showingTo])
  {
    var size := Lookup.Size(d);
    var rows := Words(d, 0, size, c, s);
    assert rows == s;
    var looks := DrawLines(rows, lists);
    ghost var was, a, b := div.nodes, div.showingFrom, div.showingTo;
    r := div.UpdateDisplay(looks, Display.Log(changes), hidden, visFrom, visTo);
    if Logs(docs, changes, looks) && Display.ShowsPart(was, a, b, docs[0]) {
      Display.LedRight(looks, Display.Log(changes), was, a, b, docs);
    }
  }

  lemma UndoNothing(s: State<string>, depth: nat)
    requires Sane(s) && s.log.done == []
    ensures IsNext(s, s, Action.Undo, depth)
  {
    assert Good(s);
  }

  lemma RedoNothing(s: State<string>, depth: nat)
    requires Sane(s) && s.log.undone == []
    ensures IsNext(s, s, Action.Redo, depth)
  {
    assert Good(s);
    LastFits(Mirror(s));
  }

  lemma UndoStep(s: seq<Stored>, log: Log<Stored>, past: seq<seq<string>>, future: seq<seq<string>>, depth: nat)
    returns (t: State<string>)
    requires Sane(StateText(s, log, past, future)) && log.done != []
    ensures Sane(t) && IsNext(t, StateText(s, log, past, future), Action.Undo, depth)
    ensures var n := |log.done| - 1;
            var cs := log.done[n];
            FitsAll(s, cs) &&
            t == StateText(RevertAll(s, cs), log.(done := log.done[..n], undone := log.undone + [InverseAll(s, cs)]),
            t.past, t.future)
  {
    var s0 := StateText(s, log, past, future);
    assert Good(s0);
    t := Next(s0, Action.Undo, depth);
    NextGood(s0, Action.Undo, depth);
    LastFits(s0);
    var n := |log.done| - 1;
    RevertAllText(s, log.done[n]);
    SetsTextLast(log.done);
    SetsTextPush(log.undone, InverseAll(s, log.done[n]));
  }

  /** The lists in the history exist after undoing as well. */
  lemma UndoFits(s: seq<Stored>, log: Log<Stored>, past: seq<seq<string>>, future: seq<seq<string>>, n: nat)
    requires Sane(StateText(s, log, past, future)) && log.done != [] && LogBelow(log, n) && Below(s, n)
    ensures var k := |log.done| - 1;
            SetBelow(log.done[k], n) && FitsAll(s, log.done[k]) &&
            LogBelow(log.(done := log.done[..k], undone := log.undone + [InverseAll(s, log.done[k])]), n)
  {
    var k := |log.done| - 1;
    var s0 := StateText(s, log, past, future);
    assert Good(s0);
    LastFits(s0);
    RevertAllText(s, log.done[k]);
    RevertAllBelow(s, log.done[k], n);
    SetsBelowPart(log.done, 0, k, n);
    SetsBelowPush(log.undone, InverseAll(s, log.done[k]), n);
  }

  lemma RedoFits(s: seq<Stored>, log: Log<Stored>, past: seq<seq<string>>, future: seq<seq<string>>, n: nat)
    requires Sane(StateText(s, log, past, future)) && log.undone != [] && LogBelow(log, n) && Below(s, n)
    ensures var k := |log.undone| - 1;
            SetBelow(log.undone[k], n) && FitsAll(s, log.undone[k]) &&
            LogBelow(log.(undone := log.undone[..k], done := log.done + [InverseAll(s, log.undone[k])]), n)
  {
    var k := |log.undone| - 1;
    var s0 := StateText(s, log, past, future);
    assert Good(s0);
    LastFits(Mirror(s0));
    RevertAllText(s, log.undone[k]);
    RevertAllBelow(s, log.undone[k], n);
    SetsBelowPart(log.undone, 0, k, n);
    SetsBelowPush(log.done, InverseAll(s, log.undone[k]), n);
  }

  lemma RedoStep(s: seq<Stored>, log: Log<Stored>, past: seq<seq<string>>, future: seq<seq<string>>, depth: nat)
    returns (t: State<string>)
    requires Sane(StateText(s, log, past, future)) && log.undone != []
    ensures Sane(t) && IsNext(t, StateText(s, log, past, future), Action.Redo, depth)
    ensures var n := |log.undone| - 1;
            var cs := log.undone[n];
            FitsAll(s, cs) &&
            t == StateText(RevertAll(s, cs), log.(undone := log.undone[..n], done := log.done + [InverseAll(s, cs)]),
            t.past, t.future)
  {
    var s0 := StateText(s, log, past, future);
    assert Good(s0);
    t := Next(s0, Action.Redo, depth);
    NextGood(s0, Action.Redo, depth);
    LastFits(Mirror(s0));
    var n := |log.undone| - 1;
    RevertAllText(s, log.undone[n]);
    SetsTextLast(log.undone);
    SetsTextPush(log.done, InverseAll(s, log.undone[n]));
  }

  lemma CompoundStep(s: State<string>, depth: nat)
    requires Sane(s)
    ensures var t := s.(log := s.log.(closed := s.log.closed || s.log.compound == 0, compound := s.log.compound + 1));
            Sane(t) && IsNext(t, s, Action.StartCompound, depth)
    ensures var t := s.(log := s.log.(closed := s.log.closed || s.log.compound == 1, compound := s.log.compound - 1));
            Sane(t) && IsNext(t, s, Action.EndCompound, depth)
  {
    assert Good(s);
    NextGood(s, Action.StartCompound, depth);
    NextGood(s, Action.EndCompound, depth);
  }

  /** The range of the lines that a change added. */
  ghost predicate AddedRange(s: seq<Stored>, c: Change<Stored>, from: Pos, to: Pos) {
    true == (Fits(s, c) && from == Pos(c.start, 0) && to == Pos(c.start + c.added - 1, |s[c.start + c.added - 1].text|))
  }

  lemma WholeRange(s: seq<Stored>, c: Change<Stored>, from: Pos, to: Pos)
    requires Fits(s, c) && from == Pos(c.start, 0) && to == Pos(c.start + c.added - 1, |s[c.start + c.added - 1].text|)
    ensures ValidRange(s, from, to) && AddedRange(s, c, from, to)
  {
  }

  /** Replacing whole lines by the old ones takes the change back. */
  lemma RangeReverts(s: seq<Stored>, s': seq<Stored>, c: Change<Stored>, from: Pos, to: Pos)
    requires Fits(s, c) && AddedRange(s, c, from, to) && IsRange(s', s, from, to, c.olds)
    ensures s' == Revert(s, c)
  {
    var n := |c.olds| - 1;
    assert s' == ReplaceRange(s, from, to, c.olds);
    assert s[from.line].text[..0] == "" && s[to.line].text[to.ch..] == "";
    assert "" + c.olds[0].text == c.olds[0].text && c.olds[n].text + "" == c.olds[n].text;
    assert Sewn("", c.olds, "") == c.olds;
  }

  /** The loop of `markText` */
  method AddSpans(d: Doc, from: Pos, to: Pos, marker: nat, lists0: Lists, ghost c: seq<Line>, ghost s: seq<Stored>)
    returns (lists: Lists, ghost s': seq<Stored>)
    requires Holds(d, c, s) && ValidRange(s, from, to) && Below(s, |lists0|)
    modifies d.lines`spans
    ensures Holds(d, c, s') && 0 <= to.line && Marking(s', lists, s, lists0, marker, Marks.Range(from, to), to.line + 1)
  {
    lists, s' := lists0, s;
    StartMarking(s, lists0, marker, Marks.Range(from, to));
    var curLine: nat := from.line;
    var ls := LinesOf(d, from.line, to.line + 1, c, s);
    while curLine <= to.line
      invariant curLine <= to.line + 1 && Holds(d, c, s') &&
        Marking(s', lists, s, lists0, marker, Marks.Range(from, to), curLine)
    {
      lists, s' := AddSpan(d, curLine, ls[curLine - from.line], from, to, marker, lists, c, s', s, lists0);
      curLine := curLine + 1;
    }
  }

  /** The state of the loop before line `n`; it is looked into only where `PushedBefore` is mentioned. */
  ghost predicate Marking(s': seq<Stored>, lists: Lists, s: seq<Stored>, lists0: Lists, m: nat, r: Marks.Range,
                          n: nat) {
    true == (n <= |s| && 0 <= r.start.line &&
      forall k: nat {:trigger PushedBefore(s, lists0, m, r, k)} :: k == n ==>
      Below(s', |lists|) && (s', lists) == PushedBefore(s, lists0, m, r, k))
  }

  lemma StartMarking(s: seq<Stored>, lists: Lists, m: nat, r: Marks.Range)
    requires ValidRange(s, r.start, r.end) && Below(s, |lists|)
    ensures 0 <= r.start.line <= r.end.line < |s| && r.start.ch >= 0 && r.end.ch >= 0 &&
      Marking(s, lists, s, lists, m, r, r.start.line)
  {
  }

  lemma LinesMarked(s: seq<Stored>, lists0: Lists, m: nat, r: Marks.Range, s': seq<Stored>, lists: Lists)
    requires ValidRange(s, r.start, r.end) && Below(s, |lists0|)
    requires 0 <= r.end.line && Marking(s', lists, s, lists0, m, r, r.end.line + 1) && AllForward(lists0)
    ensures AllForward(lists)
    ensures IsPushed(LookOf(s', lists), LookOf(s, lists0), s, m, r) &&
      GivenLists(s', s, r.start.line, r.end.line + 1, lists, lists0)
  {
    assert Marks.Proper(Some(r)) && r.start.line <= r.end.line;
    LinesPushed(s, lists0, m, r, r.end.line + 1, (s', lists));
    LinesForward(s, lists0, m, r, r.end.line + 1);
    assert HalfMarked((s', lists), s, LookOf(s, lists0), m, r, r.end.line + 1, lists0);
  }

  lemma GivenIsBelow(s': seq<Stored>, s: seq<Stored>, a: int, n: int, lists: Lists, lists0: Lists)
    requires GivenLists(s', s, a, n, lists, lists0)
    ensures |s'| == |s| && Texts(s') == Texts(s) && Below(s', |lists|) && |lists0| <= |lists|
  {
  }

  /** One round of the loop */
  method AddSpan(d: Doc, n: nat, l: Line, from: Pos, to: Pos, marker: nat, lists1: Lists, ghost c: seq<Line>,
                 ghost s1: seq<Stored>, ghost s: seq<Stored>, ghost lists0: Lists)
    returns (lists: Lists, ghost s': seq<Stored>)
    requires Holds(d, c, s1) && n < |c| && l == c[n] && from.ch >= 0 && to.ch >= 0 && from.line <= n < |s|
    requires Marking(s1, lists1, s, lists0, marker, Marks.Range(from, to), n)
    modifies d.lines`spans
    ensures Holds(d, c, s') && Marking(s', lists, s, lists0, marker, Marks.Range(from, to), n + 1)
  {
    var span := Span(marker, if n == from.line then Some(from.ch) else None, if n == to.line then Some(to.ch)
      else None);
    assert Show(l) == s1[n];
    assert (s1, lists1) == PushedBefore(s, lists0, marker, Marks.Range(from, to), n);
    var list;
    list, lists := PushSpan(l.spans, span, lists1);
    s' := GiveList(d, n, l, list, c, s1);
    NextMarking(s1, lists1, s, lists0, marker, Marks.Range(from, to), n, s', lists);
  }

  lemma NextMarking(s1: seq<Stored>, lists1: Lists, s: seq<Stored>, lists0: Lists, m: nat, r: Marks.Range, n: nat,
                    s': seq<Stored>, lists: Lists)
    requires Marking(s1, lists1, s, lists0, m, r, n) && r.start.line <= n < |s| && n < |s1| &&
      (s', lists) == PushedAtLine(s1, lists1, m, r, n)
    ensures Marking(s', lists, s, lists0, m, r, n + 1)
  {
    var p := PushedBefore(s, lists0, m, r, n);
    assert PushedBefore(s, lists0, m, r, n + 1) == PushedAtLine(p.0, p.1, m, r, n);
  }

  method GiveList(d: Doc, ghost n: nat, l: Line, list: Option<nat>, ghost c: seq<Line>, ghost s0: seq<Stored>)
    returns (ghost s': seq<Stored>)
    requires Holds(d, c, s0) && n < |c| && l == c[n]
    modifies d.lines`spans
    ensures Holds(d, c, s') && s' == s0[n := HL(s0[n].text, list)]
  {
    assert d.Intact() && l in d.lines && Show(l) == s0[n];
    l.spans := list;
    s' := s0[n := HL(s0[n].text, list)];
  }

  lemma LastText(lines: seq<Stored>, newText: seq<string>)
    requires Texts(lines) == newText && |newText| >= 1
    ensures |lines| == |newText| && lines[|lines| - 1].text == newText[|newText| - 1]
  {
    assert Texts(lines)[|lines| - 1] == newText[|newText| - 1];
  }

  /** What `markText` does when the end is before the start. */
  ghost predicate IsBackward(s': seq<Stored>, lists: Lists, changes: seq<Display.Diff>, s: seq<Stored>, lists0: Lists,
                             changes0: seq<Display.Diff>, from: Pos, to: Pos, m: nat)
    requires ValidPos(s, from) && ValidPos(s, to)
  {
    (s', lists) == (if from.line == to.line
      then PushedAtLine(s, lists0, m, Marks.Range(from, to), from.line) else (s, lists0)) &&
    changes == changes0 + [Display.Diff(from.line, to.line + 1, 0)]
  }

  lemma NotMarked(v: seq<Look>, from: Pos, to: Pos, m: nat)
    requires Less(to, from)
    ensures !Marks.Marked(v, m, Some(Marks.Range(from, to)))
  {
  }

  method AddBackward(d: Doc, n: nat, from: Pos, to: Pos, marker: nat, lists0: Lists, ghost c: seq<Line>,
                     ghost s: seq<Stored>) returns (lists: Lists, ghost s': seq<Stored>)
    requires Holds(d, c, s) && n < |c| == |s| && from.line == to.line == n && from.ch >= 0 && to.ch >= 0
    requires s[n].spans.Some? ==> s[n].spans.value < |lists0|
    modifies d.lines`spans
    ensures Holds(d, c, s') && (s', lists) == PushedAtLine(s, lists0, marker, Marks.Range(from, to), n)
  {
    var line := GetLine(d, n, c, s);
    var list;
    list, lists := PushSpan(line.spans, Span(marker, Some(from.ch), Some(to.ch)), lists0);
    s' := GiveList(d, n, line, list, c, s);
  }

  /** A span that ends before it begins. */
  lemma BackwardPushed(s: seq<Stored>, lists: Lists, from: Pos, to: Pos, m: nat)
    requires ValidPos(s, from) && ValidPos(s, to) && from.line == to.line && Less(to, from) && Below(s, |lists|)
    ensures var q := PushedAtLine(s, lists, m, Marks.Range(from, to), from.line);
            Texts(q.0) == Texts(s) && !AllForward(q.1)
  {
    var q := PushedAtLine(s, lists, m, Marks.Range(from, to), from.line);
    var l := q.1[q.0[from.line].spans.value];
    assert !IsForward(l[|l| - 1]);
    assert !Forward(l);
  }

  lemma CoversItsRange(v': seq<Look>, v: seq<Look>, s: seq<Stored>, m: nat, r: Marks.Range)
    requires IsPushed(v', v, s, m, r)
    ensures Marks.Marked(v, m, None) ==> (Marks.Marked(v', m, Some(r)) <==> Unshared(s, r.start.line, r.end.line))
  {
    if Marks.Marked(v, m, None) { MarkedIfUnshared(v', v, s, m, r); }
  }

  /** The longest line depends on the texts only. */
  lemma SameLengths(c: seq<Line>, s: seq<Stored>, s': seq<Stored>, l: Line, dirty: bool)
    requires MaxOk(c, s, l, dirty) && Texts(s') == Texts(s)
    ensures MaxOk(c, s', l, dirty)
  {
    assert forall i :: 0 <= i < |s| ==> s'[i].text == Texts(s')[i] == Texts(s)[i] == s[i].text;
    if !dirty {
      var i: nat :| Longest(c, s, l, i);
      assert Longest(c, s', l, i);
    }
  }

  /** What `markText` logs is what has changed if and only if the lines outside its range stay as they are. */
  lemma PushedChange(v': seq<Look>, v: seq<Look>, s: seq<Stored>, marker: nat, r: Marks.Range, change: Display.Diff)
    requires IsPushed(v', v, s, marker, r) && r.start.line >= 0 && r.end.line >= 0
    requires change == Display.Diff(r.start.line, r.end.line + 1, 0)
    ensures Display.Changed(v, change, v') <==> SharedWithin(s, r.start.line, r.end.line)
  {
    var a, b := r.start.line, r.end.line;
    PushedAt(v', v, s, marker, r, a);
    OutsideSame(v, v', a, b, change);
    if SharedWithin(s, a, b) {
      forall i: nat | i < |v| && !(a <= i <= b) ensures v'[i] == v[i] { OthersStay(v', v, s, marker, r, i); }
    } else {
      var j: nat, i: nat :| a <= j <= b && j < |s| && i < |s| && !(a <= i <= b) && Share(s, j, i);
      OthersStay(v', v, s, marker, r, i);
      assert v'[i] != v[i];
    }
  }

  lemma OutsideSame(v: seq<Look>, v': seq<Look>, a: nat, b: nat, change: Display.Diff)
    requires a <= b < |v| == |v'| && change == Display.Diff(a, b + 1, 0)
    ensures Display.Changed(v, change, v') <==> forall i: nat :: i < |v| && !(a <= i <= b) ==> v'[i] == v[i]
  {
    if Display.Changed(v, change, v') {
      forall i: nat | i < |v| && !(a <= i <= b) ensures v'[i] == v[i] {
        if i < a { assert v'[..a][i] == v[..a][i]; } else { assert v'[b + 1..][i - b - 1] == v[b + 1..][i - b - 1]; }
      }
    }
  }

  lemma MarkLogged(docs: seq<seq<Look>>, log: seq<Display.Diff>, v': seq<Look>, v: seq<Look>, s: seq<Stored>,
                   marker: nat, r: Marks.Range, change: Display.Diff)
    requires IsPushed(v', v, s, marker, r) && ValidRange(s, r.start, r.end) &&
      change == Display.Diff(r.start.line, r.end.line + 1, 0)
    ensures Logs(docs, log, v) ==>
              StartsWith(docs + [v'], docs) && (Logs(docs + [v'], log + [change], v') <==>
              SharedWithin(s, r.start.line, r.end.line))
  {
    if Logs(docs, log, v) {
      LogPush(docs, log, v, v', change);
      PushedChange(v', v, s, marker, r, change);
    }
  }

  /** The new entry in the history, and what falls out of it at the old end. */
  method Record(h: UndoHistory<Stored>, start: nat, added: int, olds: seq<Stored>, now: int, depth: nat, ghost n: nat)
    requires LogBelow(h.AsLog(), n) && Below(olds, n)
    modifies h
    ensures h.AsLog() == Recorded(old(h.AsLog()), start, added, olds, now - old(h.time) > 400, depth) && h.time == now
    ensures LogBelow(h.AsLog(), n)
  {
    RecordedBelow(h.AsLog(), start, added, olds, now - h.time > 400, depth, n);
    h.AddChange(start, added, olds, now);
    h.Trim(depth);
  }

  lemma RecordedBelow(log: Log<Stored>, start: nat, added: int, olds: seq<Stored>, late: bool, depth: nat, n: nat)
    requires LogBelow(log, n) && Below(olds, n)
    ensures LogBelow(Recorded(log, start, added, olds, late, depth), n)
  {
    AddChangeBelow(log, start, added, olds, late, n);
    var l := AddChange(log, start, added, olds, late);
    SetsBelowPart(l.done, Excess(|l.done|, depth), |l.done|, n);
  }

  function Recorded(log: Log<Stored>, start: nat, added: int, olds: seq<Stored>, late: bool, depth: nat): Log<Stored> {
    var l := AddChange(log, start, added, olds, late);
    l.(done := l.done[Excess(|l.done|, depth)..])
  }

  /** `Good(s)`, to be looked into only where that is mentioned. */
  ghost predicate Sane(s: State<string>) {
    forall x {:trigger Good(x)} :: x == s ==> Good(x)
  }

  /** The action `a` is possible in `s` and leads to `t`. */
  ghost predicate IsNext(t: State<string>, s: State<string>, a: Action<string>, depth: nat) {
    forall x {:trigger Good(x)} :: x == s ==> Good(x) && Enabled(x, a) && t == Next(x, a, depth)
  }

  ghost predicate IsEdited(v': seq<Look>, v: seq<Look>, from: Pos, to: Pos, newText: seq<string>) {
    true == (ValidRange(v, from, to) && |newText| >= 1 && v' == Marks.Edited(v, from, to, newText))
  }

  /** The lines look as the edit makes them look, and the new lines have lists of their own. */
  ghost predicate Redrawn(s': seq<Stored>, lists: Lists, s: seq<Stored>, lists0: Lists, from: Pos, to: Pos,
                          newText: seq<string>) {
    true == (IsEdited(LookOf(s', lists), LookOf(s, lists0), from, to, newText) && OwnLists(s', from.line, |newText|))
  }

  /** `lines` say `newText` and have taken the place of the range, which was in the lines `olds`. */
  ghost predicate Spliced(s': seq<Stored>, s: seq<Stored>, from: Pos, to: Pos, newText: seq<string>, olds: seq<Stored>,
                          lines: seq<Stored>) {
    true == (IsRange(s', s, from, to, lines) && Texts(lines) == newText && 0 <= from.line <= to.line < |s| &&
    olds == s[from.line..to.line + 1])
  }

  /** The new lines look as they should, and their lists are new. */
  ghost predicate Prepared(lines: seq<Stored>, s: seq<Stored>, from: Pos, to: Pos, newText: seq<string>, lists: Lists,
                           lists0: Lists) {
    true == (ValidRange(s, from, to) && ValidPos(s, from) && ValidPos(s, to) && |newText| >= 1 && Below(s, |lists0|) &&
      LookOf(lines, lists) == Marks.Updated(SpansOf(s[from.line].spans, lists0), SpansOf(s[to.line].spans, lists0),
      from.ch, to.ch, newText) &&
      SpanLists.NewLists(lines, lists, lists0))
  }

  lemma LookEdited(s: seq<Stored>, s': seq<Stored>, from: Pos, to: Pos, lines: seq<Stored>, newText: seq<string>,
                   lists: Lists, lists0: Lists)
    requires IsRange(s', s, from, to, lines) && Prepared(lines, s, from, to, newText, lists, lists0)
    ensures Redrawn(s', lists, s, lists0, from, to, newText)
  {
    assert s' == ReplaceRange(s, from, to, lines);
    LookRange(s, from, to, lines, lists);
    LookStays(s, lists0, lists);
    ReplaceRangeLines(s, from, to, lines);
    assert |lines| == |LookOf(lines, lists)| == |newText|;
    EditOwnsLists(s', s, from.line, to.line, lines, lists, lists0);
  }

  /** The action of replacing `from..to` by `newText`. */
  ghost function Typed(s: seq<Stored>, from: Pos, to: Pos, newText: seq<string>, late: bool): Action<string>
    requires ValidRange(s, from, to) && |newText| >= 1
  {
    Edit(from.line, to.line + 1 - from.line, SewText(s[from.line].text[..from.ch], newText, s[to.line].text[to.ch..]),
    late)
  }

  lemma EditStep(s: seq<Stored>, log: Log<Stored>, past: seq<seq<string>>, future: seq<seq<string>>, s': seq<Stored>,
                 from: Pos, to: Pos, newText: seq<string>, late: bool, olds: seq<Stored>, lines: seq<Stored>,
                 log': Log<Stored>, depth: nat) returns (t: State<string>)
    requires Sane(StateText(s, log, past, future)) && ValidRange(s, from, to) && |newText| >= 1 &&
      olds == s[from.line..to.line + 1]
    requires Texts(lines) == newText
    requires IsRange(s', s, from, to, lines) && log' == Recorded(log, from.line, |newText|, olds, late, depth)
    ensures Sane(t) && IsNext(t, StateText(s, log, past, future), Typed(s, from, to, newText, late), depth)
    ensures t == StateText(s', log', t.past, t.future)
  {
    var s0, a := StateText(s, log, past, future), Typed(s, from, to, newText, late);
    assert Good(s0);
    LastFits(s0);
    RangeText(s, s', from, to, newText, lines);
    EditedGood(s0, a, depth);
    t := Edited(s0, a, depth);
    TextsSlice(s, from.line, to.line + 1);
    RecordedText(log, from.line, |newText|, olds, late, depth);
    EditedIs(s0, a, depth, t);
  }

  lemma EditedIs(s: State<string>, a: Action<string>, depth: nat, t: State<string>)
    requires a.Edit? && Enabled(s, a) && |s.past| == |s.log.done| && t == Edited(s, a, depth)
    ensures var l := AddChange(s.log, a.start, |a.lines|, s.doc[a.start..a.start + a.n], a.late);
            t.log == l.(done := l.done[Excess(|l.done|, depth)..]) && t.doc == Replace(s.doc, a.start, a.n, a.lines)
  {
  }

  lemma RecordedText(log: Log<Stored>, start: nat, added: int, olds: seq<Stored>, late: bool, depth: nat)
    ensures var l := AddChange(LogText(log), start, added, Texts(olds), late);
            LogText(Recorded(log, start, added, olds, late, depth)) == l.(done := l.done[Excess(|l.done|, depth)..])
  {
    AddChangeText(log, start, added, olds, late);
    var l := AddChange(log, start, added, olds, late);
    SetsTextDrop(l.done, Excess(|l.done|, depth));
  }

  lemma SetsTextDrop(css: seq<seq<Change<Stored>>>, n: nat)
    requires n <= |css|
    ensures SetsText(css[n..]) == SetsText(css)[n..]
  {
  }

  lemma RangeText(s: seq<Stored>, s': seq<Stored>, from: Pos, to: Pos, newText: seq<string>, lines: seq<Stored>)
    requires ValidRange(s, from, to) && |newText| >= 1 && Texts(lines) == newText && IsRange(s', s, from, to, lines)
    ensures 0 <= from.line <= to.line < |s|
    ensures Texts(s') == Replace(Texts(s), from.line, to.line + 1 - from.line,
      SewText(s[from.line].text[..from.ch], newText, s[to.line].text[to.ch..]))
  {
    assert s' == ReplaceRange(s, from, to, lines);
    RangeTexts(s, from, to, lines);
    SewnText(s[from.line].text[..from.ch], lines, s[to.line].text[to.ch..]);
  }

  /** What the lines `a..b` say. */
  method Words(d: Doc, a: nat, b: nat, ghost c: seq<Line>, ghost s: seq<Stored>) returns (hls: seq<Stored>)
    requires Holds(d, c, s) && a <= b <= |c|
    ensures b <= |s| && hls == s[a..b]
  {
    var ls := LinesOf(d, a, b, c, s);
    hls := [];
    for i := 0 to |ls|
      invariant hls == s[a..a + i]
    {
      hls := hls + [HL(ls[i].text, ls[i].spans)];
    }
  }

  // ----- what a user of the editor can rely on -----

  /** `getValue` */
  method GetValue(e: Editor) returns (value: string)
    requires e.Valid()
    ensures value == Join(Texts(e.text))
  {
    assert e.Whole();
    var size := Lookup.Size(e.doc);
    var hls := Words(e.doc, 0, size, e.doc.Contents(), e.text);
    assert hls == e.text;
    value := JoinLines(hls);
  }

  /** `text.join("\n")` */
  method JoinLines(hls: seq<Stored>) returns (value: string)
    requires hls != []
    ensures value == Join(Texts(hls))
  {
    var i := |hls| - 1;
    value := hls[i].text;
    assert Texts(hls)[i..] == [hls[i].text];
    while i > 0
      invariant 0 <= i < |hls| && value == Join(Texts(hls)[i..])
    {
      i := i - 1;
      assert Texts(hls)[i..][0] == hls[i].text && Texts(hls)[i..][1..] == Texts(hls)[i + 1..];
      value := hls[i].text + "\n" + value;
    }
    assert Texts(hls)[0..] == Texts(hls);
  }

  /** What an edit does to the value: the text before `from`, then the new lines, then the text from `to` on. */
  lemma EditedValue(s: seq<Look>, s': seq<Look>, from: Pos, to: Pos, newText: seq<string>)
    requires IsEdited(s', s, from, to, newText)
    ensures 0 <= from.line < |s| && 0 <= to.line < |s| && from.ch >= 0 && to.ch >= 0
    ensures var ts := Texts(s);
            var a, b := Offset(ts, from.line, from.ch), Offset(ts, to.line, to.ch);
            a <= b <= |Join(ts)| && Join(Texts(s')) == Join(ts)[..a] + Join(newText) + Join(ts)[b..]
  {
    var ls := Marks.Updated(s[from.line].spans, s[to.line].spans, from.ch, to.ch, newText);
    assert Texts(ls) == newText;
    ReplaceRangeJoins(s, from, to, ls);
  }

  /** Unless it is marked as out of date, the cached line is in the document and no line is longer. */
  lemma MaxLineIsLongest(e: Editor)
    requires e.Valid() && !e.updateMaxLine
    ensures e.maxLine in e.doc.lines && forall l :: l in e.doc.Contents() ==> |l.text| <= |e.maxLine.text|
  {
    assert e.Whole();
    var c, s := e.doc.Contents(), e.text;
    var i: nat :| Longest(c, s, e.maxLine, i);
    assert Show(c[i]) == s[i];
    forall l | l in c ensures |l.text| <= |e.maxLine.text| {
      var j :| 0 <= j < |c| && c[j] == l;
      assert Show(c[j]) == s[j];
    }
  }

  /** After undoing, redoing leads back to the same text and the same history. */
  method UndoAndRedo(e: Editor)
    requires e.Valid() && |e.history.done| > 0
    modifies e, e.history, e.doc, e.doc.chunks, e.doc.lines`parent, e.doc.lines`text, e.doc.lines`spans
    ensures e.Valid() && e.Abs() == old(e.Abs())
  {
    ghost var s := e.Abs();
    e.Undo();
    ghost var t := e.Abs();
    e.Redo();
    BackAndForth(s, t, e.Abs(), e.undoDepth);
  }

  lemma BackAndForth(s: State<string>, t: State<string>, u: State<string>, depth: nat)
    requires Sane(s) && Sane(t) && s.log.done != [] && IsNext(t, s, Action.Undo, depth) &&
      IsNext(u, t, Action.Redo, depth)
    ensures u == s
  {
    assert Good(s) && Good(t);
    UndoRedo(s, depth);
  }
}
