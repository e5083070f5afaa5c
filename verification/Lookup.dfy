/** Finding lines by number and by height, and line numbers by line. */
module Lookup {
  import opened Sequences
  import opened ChunkStore
  import opened ChunkHeights
  import opened ChunkTree
  import opened Document

  /** The height of the lines of `d` before line `n`. */
  ghost function HeightOf(d: Doc, n: nat): int
    requires d.Valid() && n <= |d.Contents()|
    reads d, d.chunks, d.lines
  {
    HeightBefore(View(d.chunks, d.lines), d.Contents(), n)
  }

  /** The walk down the tree has come to `c`, whose first line is line `o`. */
  ghost predicate Reached(d: Doc, c: Chunk, o: nat)
    reads d, d.chunks, d.lines, c
  {
    true == (d.Valid() && c in d.chunks && Span(d.Contents(), o, c.contents))
  }

  /**
   The walk over the children of `c`, which starts at line `o`, has come to child `i`; `p` lines of `c` have been
   passed.
   */
  ghost predicate Passed(d: Doc, c: Chunk, o: nat, i: nat, p: nat)
    requires Reached(d, c, o)
    reads d, d.chunks, d.lines, c
  {
    true == (!c.leaf && i <= |c.children| == |c.parts| && p == |Flat(c.parts[..i])| && p <= |c.contents|)
  }

  lemma StartWalk(d: Doc)
    requires d.Valid()
    ensures Reached(d, d.root, 0)
  {
    assert d.Intact();
    assert d.Contents()[0..0 + |d.Contents()|] == d.Contents();
  }

  lemma StartChildren(d: Doc, c: Chunk, o: nat)
    requires Reached(d, c, o) && !c.leaf
    ensures Passed(d, c, o, 0, 0)
  {
    assert d.Intact();
    BranchLengths(View(d.chunks, d.lines), d.root, Nothing, {}, c);
  }

  lemma NextChild(d: Doc, c: Chunk, o: nat, i: nat, p: nat)
    requires Reached(d, c, o) && Passed(d, c, o, i, p) && i < |c.children|
    ensures c.children[i] in d.chunks && c.children[i].rank < c.rank
    ensures var e := c.children[i];
            Reached(d, e, o + p) && e.ChunkSize() == |e.contents| &&
            o + p + |e.contents| <= |d.Contents()| && Passed(d, c, o, i + 1, p + |e.contents|) &&
            HeightOf(d, o + p + |e.contents|) == HeightOf(d, o + p) + e.height
  {
    assert d.Intact();
    var k := View(d.chunks, d.lines);
    SpanChild(k, d.root, d.Contents(), o, c, i);
    BranchLengths(k, d.root, Nothing, {}, c);
    FlatAround(c.parts, i);
    FlatPrefix(c.parts, i);
  }

  lemma LastChild(d: Doc, c: Chunk, o: nat, i: nat, p: nat)
    requires Reached(d, c, o) && Passed(d, c, o, i, p)
    ensures i == |c.children| ==> p == |c.contents|
  {
    assert d.Intact();
    SpanAll(View(d.chunks, d.lines), d.root, d.Contents(), o, c);
  }

  lemma AtLeaf(d: Doc, c: Chunk, o: nat)
    requires Reached(d, c, o) && c.leaf
    ensures c.contents == c.lines && o + |c.lines| <= |d.Contents()|
  {
    assert d.Intact();
    assert At(View(d.chunks, d.lines), d.root, Nothing, {}, {}, c);
  }

  lemma AtLine(d: Doc, c: Chunk, o: nat, j: nat)
    requires Reached(d, c, o) && c.leaf && j < |c.lines|
    ensures o + j < |d.Contents()| && c.lines[j] == d.Contents()[o + j]
    ensures HeightOf(d, o + j + 1) == HeightOf(d, o + j) + c.lines[j].height
  {
    assert d.Intact();
    AtLeaf(d, c, o);
    assert d.Contents()[o..o + |c.contents|][j] == d.Contents()[o + j];
    HeightNext(View(d.chunks, d.lines), d.Contents(), o + j);
  }

  lemma NoLines(d: Doc)
    requires d.Valid()
    ensures HeightOf(d, 0) == 0
  {
    assert d.Intact();
    assert d.Contents()[..0] == [];
  }

  lemma HeightsGrow(d: Doc)
    requires d.Valid() && forall l :: l in d.lines ==> l.height >= 0
    ensures forall m, n :: 0 <= m <= n <= |d.Contents()| ==> HeightOf(d, m) <= HeightOf(d, n)
  {
    assert d.Intact();
    forall m, n | 0 <= m <= n <= |d.Contents()| ensures HeightOf(d, m) <= HeightOf(d, n) {
      HeightMonotone(View(d.chunks, d.lines), d.Contents(), m, n);
    }
  }

  /** `getLineAt` */
  method GetLineAt(d: Doc, n0: nat) returns (l: Line)
    requires d.Valid() && n0 < |d.Contents()|
    ensures l == d.Contents()[n0]
  {
    var chunk: Chunk, n: nat := d.root, n0;
    ghost var o: nat := 0;
    StartWalk(d);
    while !chunk.leaf
      invariant Reached(d, chunk, o) && o + n == n0 && n < |chunk.contents|
      decreases chunk.rank
    {
      ghost var p: nat := 0;
      var i: nat := 0;
      StartChildren(d, chunk, o);
      while true
        invariant Passed(d, chunk, o, i, p) && o + p + n == n0 && p + n < |chunk.contents|
        decreases |chunk.children| - i
      {
        LastChild(d, chunk, o, i, p);
        NextChild(d, chunk, o, i, p);
        var child, sz := chunk.children[i], chunk.children[i].ChunkSize();
        if n < sz {
          chunk, o := child, o + p;
          break;
        }
        n, p := n - sz, p + sz;
        i := i + 1;
      }
    }
    AtLeaf(d, chunk, o);
    AtLine(d, chunk, o, n);
    return chunk.lines[n];
  }

  /** `chunk` starts at line `o`, above which there is the height `h`; line `o + n` is wanted. */
  ghost predicate Above(d: Doc, chunk: Chunk, o: nat, n: nat, h: int, wanted: nat)
    reads d, d.chunks, d.lines, chunk
  {
    true == (Reached(d, chunk, o) && o + n == wanted && o <= |d.Contents()| && h == HeightOf(d, o))
  }

  /** The same in the middle of the children of `c`. */
  ghost predicate AboveChild(d: Doc, c: Chunk, o: nat, i: nat, p: nat, n: nat, h: int, wanted: nat)
    reads d, d.chunks, d.lines, c
  {
    true == (Reached(d, c, o) && Passed(d, c, o, i, p) && o + p + n == wanted && o + p <= |d.Contents()| &&
      h == HeightOf(d, o + p))
  }

  /** `h` is the height of all lines up to the end of `c`. */
  ghost predicate Whole(d: Doc, c: Chunk, o: nat, h: int)
    reads d, d.chunks, d.lines, c
  {
    true == (d.Valid() && o + |c.contents| <= |d.Contents()| && h == HeightOf(d, o + |c.contents|))
  }

  /** `heightAtLine`; all lines count if there are no more than `n0`. */
  method HeightAtLine(d: Doc, n0: nat) returns (h: int)
    requires d.Valid()
    ensures h == HeightOf(d, if n0 <= |d.Contents()| then n0 else |d.Contents()|)
  {
    var chunk: Chunk, n: nat, down := d.root, n0, true;
    ghost var o: nat := 0;
    h := 0;
    StartAbove(d, n0);
    while down && !chunk.leaf
      invariant down ==> Above(d, chunk, o, n, h, n0) && (chunk == d.root || n < |chunk.contents|)
      invariant !down ==> n0 >= |d.Contents()| && Whole(d, d.root, 0, h)
      invariant chunk == d.root ==> o == 0
      decreases down, chunk.rank
    {
      chunk, n, h, down, o := HeightDown(d, chunk, n, h, o, n0);
    }
    if down {
      RootIsBranch(d);
      h := HeightInLeaf(d, chunk, n, h, o);
    }
  }

  lemma StartAbove(d: Doc, n: nat)
    requires d.Valid()
    ensures Above(d, d.root, 0, n, 0, n)
  {
    StartWalk(d);
    NoLines(d);
  }

  lemma RootIsBranch(d: Doc)
    requires d.Valid()
    ensures !d.root.leaf
  {
    assert d.Intact();
  }

  /** One level of `heightAtLine`: down to the child that holds line `n`, or past all children. */
  method HeightDown(d: Doc, c: Chunk, n0: nat, h0: int, ghost o: nat, ghost wanted: nat)
    returns (chunk: Chunk, n: nat, h: int, down: bool, ghost o': nat)
    requires Above(d, c, o, n0, h0, wanted) && !c.leaf
    ensures down ==> Above(d, chunk, o', n, h, wanted) && n < |chunk.contents| && chunk.rank < c.rank && chunk != d.root
    ensures !down ==> chunk == c && o' == o && n0 >= |c.contents| && Whole(d, c, o, h)
    ensures n0 < |c.contents| ==> down
  {
    chunk, n, h, down, o' := c, n0, h0, false, o;
    ghost var p: nat := 0;
    StartChildren(d, c, o);
    RootRank(d, c, o);
    for i := 0 to |c.children|
      invariant AboveChild(d, c, o, i, p, n, h, wanted)
    {
      down, n, h, p := HeightStep(d, c, i, n, h, o, p, wanted);
      if down {
        chunk, o' := c.children[i], o + p;
        return;
      }
    }
    PastChildren(d, c, o, p, n, h, wanted);
  }

  lemma PastChildren(d: Doc, c: Chunk, o: nat, p: nat, n: nat, h: int, wanted: nat)
    requires AboveChild(d, c, o, |c.children|, p, n, h, wanted)
    ensures p == |c.contents| && Whole(d, c, o, h)
  {
    LastChild(d, c, o, |c.children|, p);
  }

  /** One child: it holds the wanted line, or it is passed. */
  method HeightStep(d: Doc, c: Chunk, i: nat, n0: nat, h0: int, ghost o: nat, ghost p0: nat, ghost wanted: nat)
    returns (down: bool, n: nat, h: int, ghost p: nat)
    requires AboveChild(d, c, o, i, p0, n0, h0, wanted) && i < |c.children|
    ensures down ==>
      Above(d, c.children[i], o + p, n, h, wanted) && n < |c.children[i].contents| && c.children[i].rank < c.rank
    ensures !down ==> AboveChild(d, c, o, i + 1, p, n, h, wanted)
  {
    NextChild(d, c, o, i, p0);
    var child, sz := c.children[i], c.children[i].ChunkSize();
    if n0 < sz {
      down, n, h, p := true, n0, h0, p0;
    } else {
      down, n, h, p := false, n0 - sz, h0 + child.height, p0 + sz;
    }
  }

  lemma RootRank(d: Doc, c: Chunk, o: nat)
    requires Reached(d, c, o)
    ensures c.rank <= d.root.rank
  {
    assert d.Intact();
    assert At(View(d.chunks, d.lines), d.root, Nothing, {}, {}, c);
  }

  method HeightInLeaf(d: Doc, c: Chunk, n: nat, h0: int, ghost o: nat) returns (h: int)
    requires Above(d, c, o, n, h0, o + n) && c.leaf && n < |c.contents|
    ensures o + n <= |d.Contents()| && h == HeightOf(d, o + n)
  {
    AtLeaf(d, c, o);
    h := h0;
    for i := 0 to n
      invariant o + i <= |d.Contents()| && h == HeightOf(d, o + i)
    {
      AtLine(d, c, o, i);
      h := h + c.lines[i].height;
    }
  }

  /** Height `h0` lies `h` below the start of line `n`. */
  ghost predicate Below(d: Doc, n: nat, h: int, h0: int)
    reads d, d.chunks, d.lines
  {
    true == (d.Valid() && n <= |d.Contents()| && h >= 0 && HeightOf(d, n) + h == h0)
  }

  /** Height `h0` lies before the end of `chunk`, which starts at line `n`. */
  ghost predicate EndsBeyond(d: Doc, chunk: Chunk, n: nat, h0: int)
    reads d, d.chunks, d.lines, chunk
  {
    true == (d.Valid() && n + |chunk.contents| <= |d.Contents()| && h0 < HeightOf(d, n + |chunk.contents|))
  }

  /** `lineAtHeight`: the line that covers height `h0`; past the end, the number of lines. */
  method LineAtHeight(d: Doc, h0: nat) returns (n: nat)
    requires d.Valid() && forall l :: l in d.lines ==> l.height >= 0
    ensures n <= |d.Contents()| && HeightOf(d, n) <= h0
    ensures n < |d.Contents()| ==> h0 < HeightOf(d, n + 1)
  {
    var chunk: Chunk, h: int, down := d.root, h0, true;
    n := 0;
    StartWalk(d);
    NoLines(d);
    while down && !chunk.leaf
      invariant Below(d, n, h, h0)
      invariant down ==> Reached(d, chunk, n) && (chunk == d.root || EndsBeyond(d, chunk, n, h0))
      invariant down && chunk == d.root ==> n == 0
      invariant !down ==> n == |d.Contents()|
      decreases down, chunk.rank
    {
      chunk, n, h, down := LineDown(d, chunk, n, h, h0);
    }
    if down {
      RootIsBranch(d);
      n := LineInLeaf(d, chunk, n, h, h0);
    }
  }

  /** One level of `lineAtHeight`: down to the child that reaches beyond `h`, or past all children. */
  method LineDown(d: Doc, c: Chunk, o: nat, h1: int, h0: int) returns (chunk: Chunk, n: nat, h: int, down: bool)
    requires Reached(d, c, o) && !c.leaf && Below(d, o, h1, h0)
    requires if c == d.root then o == 0 else EndsBeyond(d, c, o, h0)
    ensures Below(d, n, h, h0)
    ensures down ==>
      Reached(d, chunk, n) && chunk != d.root && chunk.rank < c.rank && EndsBeyond(d, chunk, n, h0)
    ensures !down ==> n == |d.Contents()|
  {
    chunk, n, h, down := c, o, h1, false;
    StartChildren(d, c, o);
    RootRank(d, c, o);
    for i := 0 to |c.children|
      invariant n >= o && Passed(d, c, o, i, n - o) && Below(d, n, h, h0)
    {
      down, n, h := LineStep(d, c, i, o, n, h, h0);
      if down {
        chunk := c.children[i];
        return;
      }
    }
    AllPassed(d, c, o, n, h, h0);
  }

  lemma AllPassed(d: Doc, c: Chunk, o: nat, n: nat, h: int, h0: int)
    requires Reached(d, c, o) && n >= o && Passed(d, c, o, |c.children|, n - o) && Below(d, n, h, h0)
    requires if c == d.root then o == 0 else EndsBeyond(d, c, o, h0)
    ensures n == |d.Contents()|
  {
    LastChild(d, c, o, |c.children|, n - o);
  }

  method LineStep(d: Doc, c: Chunk, i: nat, ghost o: nat, n0: nat, h1: int, h0: int)
    returns (down: bool, n: nat, h: int)
    requires Reached(d, c, o) && n0 >= o && Passed(d, c, o, i, n0 - o) && i < |c.children| && Below(d, n0, h1, h0)
    ensures Below(d, n, h, h0) && n >= o
    ensures if down then
        Reached(d, c.children[i], n) && c.children[i].rank < c.rank && EndsBeyond(d, c.children[i], n, h0)
      else Passed(d, c, o, i + 1, n - o)
  {
    NextChild(d, c, o, i, n0 - o);
    var child, ch := c.children[i], c.children[i].height;
    if h1 < ch {
      down, n, h := true, n0, h1;
    } else {
      down, n, h := false, n0 + child.ChunkSize(), h1 - ch;
    }
  }

  method LineInLeaf(d: Doc, c: Chunk, o: nat, h1: int, h0: int) returns (n: nat)
    requires Reached(d, c, o) && c.leaf && Below(d, o, h1, h0) && EndsBeyond(d, c, o, h0)
    ensures n < |d.Contents()| && HeightOf(d, n) <= h0 < HeightOf(d, n + 1)
  {
    AtLeaf(d, c, o);
    var i: nat, h := 0, h1;
    while i < |c.lines|
      invariant i <= |c.lines| && o + i <= |d.Contents()| && h >= 0 && HeightOf(d, o + i) + h == h0
    {
      AtLine(d, c, o, i);
      var lh := c.lines[i].height;
      if h < lh { break; }
      h := h - lh;
      i := i + 1;
    }
    n := o + i;
  }

  // ----- from a line up to the root -----

  /** Line `no` of chunk `c` is `l`. */
  ghost predicate Holds(d: Doc, c: Chunk, no: int, l: Line)
    reads d, d.chunks, d.lines, c
  {
    true == (d.Valid() && c in d.chunks && 0 <= no < |c.contents| && c.contents[no] == l)
  }

  lemma LineHome(d: Doc, l: Line)
    requires d.Valid() && l in d.lines
    ensures l.parent != null && l.parent in d.chunks && l.parent.leaf && l in l.parent.lines &&
      l.parent.contents == l.parent.lines
  {
    assert d.Intact();
    var k := View(d.chunks, d.lines);
    assert HasLeaf(k, l);
    assert At(k, d.root, Nothing, {}, {}, l.parent);
  }

  lemma ParentHome(d: Doc, c: Chunk)
    requires d.Valid() && c in d.chunks
    ensures c.parent == null ==> c == d.root
    ensures c.rank <= d.root.rank
    ensures c.parent != null ==>
      c.parent in d.chunks && !c.parent.leaf && c in c.parent.children && c.rank < c.parent.rank &&
      NoDup(c.parent.children)
  {
    assert d.Intact();
    var k := View(d.chunks, d.lines);
    assert At(k, d.root, Nothing, {}, {}, c);
    if c.parent != null {
      assert At(k, d.root, Nothing, {}, {}, c.parent);
    }
  }

  lemma ParentHolds(d: Doc, c: Chunk, i: nat, no: int, l: Line)
    requires Holds(d, c, no, l) && c.parent != null && c.parent in d.chunks && !c.parent.leaf
    requires i < |c.parent.children| && c.parent.children[i] == c
    ensures i < |c.parent.parts| && Holds(d, c.parent, |Flat(c.parent.parts[..i])| + no, l)
  {
    assert d.Intact();
    ChildOf(View(d.chunks, d.lines), d.root, Nothing, {}, c.parent, i);
    BranchLengths(View(d.chunks, d.lines), d.root, Nothing, {}, c.parent);
    FlatAround(c.parent.parts, i);
  }

  /** `lineNo` */
  method LineNo(d: Doc, line: Line) returns (r: Option<nat>)
    requires d.Valid() && (line.parent == null || line in d.lines)
    ensures line.parent == null ==> r == None
    ensures line.parent != null ==> r.Some? && r.value < |d.Contents()| && d.Contents()[r.value] == line
  {
    if line.parent == null { return None; }
    LineHome(d, line);
    var cur := line.parent;
    var no: int := IndexOf(cur.lines, line);
    while cur.parent != null
      invariant cur in d.chunks && Holds(d, cur, no, line)
      decreases d.root.rank - cur.rank
    {
      ParentHome(d, cur);
      var before := SizeBefore(d, cur, no, line);
      no := no + before;
      cur := cur.parent;
      ParentHome(d, cur);
    }
    ParentHome(d, cur);
    return Some(no);
  }

  /** The number of lines in the siblings before `cur`. */
  method SizeBefore(d: Doc, cur: Chunk, ghost m: int, ghost l: Line) returns (no: nat)
    requires d.Valid() && cur in d.chunks && cur.parent != null && Holds(d, cur, m, l)
    ensures cur.parent in d.chunks && Holds(d, cur.parent, m + no, l)
  {
    assert d.Intact();
    ParentHome(d, cur);
    var chunk := cur.parent;
    BranchLengths(View(d.chunks, d.lines), d.root, Nothing, {}, chunk);
    no := 0;
    var i: nat := 0;
    while chunk.children[i] != cur
      invariant i < |chunk.children| && cur in chunk.children[i..] && no == |Flat(chunk.parts[..i])|
      decreases |chunk.children| - i
    {
      ChildOf(View(d.chunks, d.lines), d.root, Nothing, {}, chunk, i);
      FlatPrefix(chunk.parts, i);
      no := no + chunk.children[i].ChunkSize();
      i := i + 1;
    }
    ParentHolds(d, cur, i, m, l);
  }

  /** The two lookups are inverse to each other. */
  method LineNoOfLineAt(d: Doc, n: nat) returns (r: Option<nat>)
    requires d.Valid() && n < |d.Contents()|
    ensures r == Some(n)
  {
    assert d.Intact();
    var l := GetLineAt(d, n);
    LineHome(d, l);
    r := LineNo(d, l);
  }

  /** `updateLineHeight` */
  method UpdateLineHeight(d: Doc, line: Line, height: int)
    requires d.Valid() && line in d.lines
    modifies line`height, d.chunks
    ensures d.Valid() && d.Contents() == old(d.Contents()) && line.height == height
  {
    LineHome(d, line);
    var diff := height - line.height;
    var n: Chunk := line.parent;
    ghost var o := LeafHeight(d, line, diff);
    while n.parent != null
      invariant n in d.chunks && Climbing(d, n, o, diff)
      invariant d.root.contents == old(d.root.contents) && line.height == height
      decreases d.root.rank - n.rank
    {
      ClimbingHome(d, n, o, diff);
      o := BranchHeight(d, n, diff, o);
      n := n.parent;
    }
    ClimbingHome(d, n, o, diff);
    RootOwesNothing(View(d.chunks, d.lines), d.root, o);
  }

  /** The parent of `n` has yet to learn that the height of `n` has changed by `diff`. */
  ghost predicate Climbing(d: Doc, n: Chunk, o: Owed<Chunk, Line>, diff: int)
    reads d, d.chunks, d.lines, n
  {
    true == (
    d.root in d.chunks && n in d.chunks && NoDup(d.root.contents) && d.lines == Elems(d.root.contents) &&
    o == Owed(n, n.contents, n.height - diff) && Inv(View(d.chunks, d.lines), d.root, o, {}, {})
    )
  }

  lemma ClimbingHome(d: Doc, c: Chunk, o: Owed<Chunk, Line>, diff: int)
    requires Climbing(d, c, o, diff)
    ensures c.parent == null ==> c == d.root
    ensures c.rank <= d.root.rank
    ensures c.parent != null ==>
      c.parent in d.chunks && !c.parent.leaf && c in c.parent.children && c.rank < c.parent.rank <= d.root.rank
    ensures c.parent != null ==> |c.parent.heights| == |c.parent.parts| == |c.parent.children|
  {
    var k := View(d.chunks, d.lines);
    assert At(k, d.root, o, {}, {}, c);
    if c.parent != null {
      assert At(k, d.root, o, {}, {}, c.parent);
    }
  }

  method AddHeight(leaf: Chunk, line: Line, diff: int, ghost j: nat, ghost S: set<Chunk>, ghost L: set<Line>)
    requires leaf in S && line in L && j < |leaf.heights|
    modifies line`height, leaf
    ensures HeightSet(old(View(S, L)), View(S, L), leaf, line, j, diff)
    ensures line.height == old(line.height) + diff && line.parent == old(line.parent)
  {
    ghost var k := View(S, L);
    SetLineHeight(line, diff, S, L);
    ghost var m := View(S, L);
    RecordHeight(leaf, j, diff, S, L);
    HeightsSet(k, m, View(S, L), leaf, line, j, diff);
  }

  lemma HeightsSet(k: Store<Chunk, Line>, m: Store<Chunk, Line>, k': Store<Chunk, Line>, x: Chunk, l: Line, j: nat,
                   d: int)
    requires l in k.lines && m == Store(k.chunks, k.lines[l := k.lines[l].(height := k.lines[l].height + d)])
    requires HeightRecorded(m, k', x, j, d)
    ensures HeightSet(k, k', x, l, j, d)
  {
  }

  method SetLineHeight(line: Line, diff: int, ghost S: set<Chunk>, ghost L: set<Line>)
    requires line in L
    modifies line`height
    ensures line.height == old(line.height) + diff && line in Rows(L)
    ensures var k := old(View(S, L));
      View(S, L) == Store(k.chunks, k.lines[line := k.lines[line].(height := k.lines[line].height + diff)])
  {
    line.height := line.height + diff;
  }

  method LeafHeight(d: Doc, line: Line, diff: int) returns (ghost o: Owed<Chunk, Line>)
    requires d.Valid() && line in d.lines && line.parent != null && line.parent in d.chunks && line.parent.leaf
    requires line in line.parent.lines
    modifies line`height, line.parent
    ensures Climbing(d, line.parent, o, diff) && line.height == old(line.height) + diff
    ensures d.root.contents == old(d.root.contents) && d.root.rank == old(d.root.rank) &&
      line.parent.rank == old(line.parent.rank)
  {
    assert d.Intact();
    var leaf := line.parent;
    ghost var k := View(d.chunks, d.lines);
    LeafFacts(k, d.root, {}, leaf);
    ghost var j :| 0 <= j < |leaf.lines| && leaf.lines[j] == line;
    o := Owed(leaf, leaf.contents, leaf.height);
    AddHeight(leaf, line, diff, j, d.chunks, d.lines);
    LeafHeightSet(k, View(d.chunks, d.lines), d.root, leaf, line, j, diff);
    SameRecord(d, k, leaf);
    SameRecord(d, k, d.root);
  }

  lemma SameRecord(d: Doc, k: Store<Chunk, Line>, c: Chunk)
    requires c in d.chunks && SameShape(k, View(d.chunks, d.lines))
    ensures c in k.chunks && c.contents == k.chunks[c].contents && c.rank == k.chunks[c].rank
  {
    assert View(d.chunks, d.lines).chunks[c] == c.Record();
  }

  method RecordHeight(p: Chunk, ghost i: nat, diff: int, ghost S: set<Chunk>, ghost L: set<Line>)
    requires p in S && i < |p.heights|
    modifies p`height, p`heights
    ensures HeightRecorded(old(View(S, L)), View(S, L), p, i, diff) && p.height == old(p.height) + diff
  {
    p.height := p.height + diff;
    p.heights := p.heights[i := p.heights[i] + diff];
  }

  method BranchHeight(d: Doc, x: Chunk, diff: int, ghost o: Owed<Chunk, Line>) returns (ghost o': Owed<Chunk, Line>)
    requires Climbing(d, x, o, diff) && x.parent != null && x.parent in d.chunks && !x.parent.leaf &&
      x in x.parent.children && x != x.parent
    requires |x.parent.heights| == |x.parent.parts| == |x.parent.children|
    modifies x.parent
    ensures x.parent == old(x.parent) && Climbing(d, x.parent, o', diff)
    ensures d.root.contents == old(d.root.contents) && d.root.rank == old(d.root.rank) &&
      x.parent.rank == old(x.parent.rank)
  {
    var p := x.parent;
    ghost var k := View(d.chunks, d.lines);
    ghost var i :| 0 <= i < |p.children| && p.children[i] == x;
    o' := Owed(p, p.contents, p.height);
    RecordHeight(p, i, diff, d.chunks, d.lines);
    BranchHeightRecorded(k, View(d.chunks, d.lines), d.root, o, p, i, x, diff);
  }

  /** `doc.size` */
  method Size(d: Doc) returns (n: nat)
    requires d.Valid()
    ensures n == |d.Contents()|
  {
    assert d.Intact();
    BranchLengths(View(d.chunks, d.lines), d.root, Nothing, {}, d.root);
    n := d.root.size;
  }
}
