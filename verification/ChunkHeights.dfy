/** What the invariant of the chunk tree says of the whole document, and how a line height changes. */
module ChunkHeights {
  import opened Sequences
  import opened ChunkStore
  import opened ChunkRemoval

  ghost predicate Tree<C, L>(k: Store<C, L>, root: C) {
    Inv(k, root, Nothing, {}, {})
  }

  /** The heights of the lines `ls`. */
  ghost function LineHeights<C, L>(rows: map<L, Row<C>>, ls: seq<L>): (hs: seq<int>)
    requires forall l :: l in ls ==> l in rows
    ensures |hs| == |ls| && forall i :: 0 <= i < |ls| ==> hs[i] == rows[ls[i]].height
  {
    seq(|ls|, i requires 0 <= i < |ls| => rows[ls[i]].height)
  }

  lemma FlatMember<T>(ps: seq<seq<T>>, i: nat, x: T)
    requires i < |ps| && x in ps[i]
    ensures x in Flat(ps)
  {
    FlatAround(ps, i);
  }

  lemma {:induction false} FlatMembers<T>(ps: seq<seq<T>>, x: T) returns (i: nat)
    requires x in Flat(ps)
    ensures i < |ps| && x in ps[i]
  {
    if x in ps[0] {
      i := 0;
    } else {
      var j := FlatMembers(ps[1..], x);
      i := j + 1;
    }
  }

  /** Every line below a chunk is a line of the document. */
  lemma {:induction false} BelowIsAttached<C, L>(k: Store<C, L>, root: C, c: C, l: L)
    requires Tree(k, root) && c in k.chunks && l in k.chunks[c].contents
    ensures l in k.lines
    decreases k.chunks[c].rank
  {
    assert At(k, root, Nothing, {}, {}, c);
    var n := k.chunks[c];
    if n.leaf {
      LinesHome(n, c, k.lines);
    } else {
      var i := FlatMembers(n.parts, l);
      ChildOf(k, root, Nothing, {}, c, i);
      BelowIsAttached(k, root, n.children[i], l);
    }
  }

  /** Every line below a chunk is below the root. */
  lemma {:induction false} BelowIsBelowRoot<C, L>(k: Store<C, L>, root: C, c: C, l: L)
    requires Tree(k, root) && c in k.chunks && l in k.chunks[c].contents
    ensures l in k.chunks[root].contents
    decreases k.chunks[root].rank - k.chunks[c].rank
  {
    assert At(k, root, Nothing, {}, {}, c);
    if c != root {
      var p := k.chunks[c].parent.value;
      assert At(k, root, Nothing, {}, {}, p);
      var i :| 0 <= i < |k.chunks[p].children| && k.chunks[p].children[i] == c;
      FlatMember(k.chunks[p].parts, i, l);
      BelowIsBelowRoot(k, root, p, l);
    }
  }

  /** The lines that name a leaf as parent are exactly those below the root. */
  lemma AttachedAreContents<C, L>(k: Store<C, L>, root: C)
    requires Tree(k, root)
    ensures k.lines.Keys == Elems(k.chunks[root].contents)
  {
    forall l | l in k.lines ensures l in k.chunks[root].contents {
      assert HasLeaf(k, l);
      var p := k.lines[l].parent.value;
      assert At(k, root, Nothing, {}, {}, p);
      BelowIsBelowRoot(k, root, p, l);
    }
    forall l | l in k.chunks[root].contents ensures l in k.lines {
      BelowIsAttached(k, root, root, l);
    }
  }

  lemma LineHeightsConcat<C, L>(rows: map<L, Row<C>>, a: seq<L>, b: seq<L>)
    requires forall l :: l in a + b ==> l in rows
    ensures (forall l :: l in a ==> l in a + b) && (forall l :: l in b ==> l in a + b)
    ensures LineHeights(rows, a + b) == LineHeights(rows, a) + LineHeights(rows, b)
  {
    assert forall i :: 0 <= i < |a| ==> (a + b)[i] == a[i];
    assert forall i :: 0 <= i < |b| ==> (a + b)[|a| + i] == b[i];
    assert forall l :: l in a ==> l in a + b;
    assert forall l :: l in b ==> l in a + b;
  }

  /** A cached height is the sum of the heights of the lines below. */
  lemma {:induction false} HeightIsSum<C, L>(k: Store<C, L>, root: C, c: C)
    requires Tree(k, root) && c in k.chunks
    ensures forall l :: l in k.chunks[c].contents ==> l in k.lines
    ensures k.chunks[c].height == Sum(LineHeights(k.lines, k.chunks[c].contents))
    decreases k.chunks[c].rank, 1
  {
    forall l | l in k.chunks[c].contents ensures l in k.lines {
      BelowIsAttached(k, root, c, l);
    }
    assert At(k, root, Nothing, {}, {}, c);
    var n := k.chunks[c];
    if n.leaf {
      assert LineHeights(k.lines, n.lines) == n.heights;
    } else {
      HeightUpTo(k, root, c, |n.children|);
      assert n.parts[..|n.children|] == n.parts && n.heights[..|n.children|] == n.heights;
    }
  }

  lemma {:induction false} HeightUpTo<C, L>(k: Store<C, L>, root: C, c: C, i: nat)
    requires Tree(k, root) && c in k.chunks && !k.chunks[c].leaf && i <= |k.chunks[c].children|
    ensures i <= |k.chunks[c].parts| && i <= |k.chunks[c].heights|
    ensures forall l :: l in Flat(k.chunks[c].parts[..i]) ==> l in k.lines
    ensures Sum(k.chunks[c].heights[..i]) == Sum(LineHeights(k.lines, Flat(k.chunks[c].parts[..i])))
    decreases k.chunks[c].rank, 0, i
  {
    BranchLengths(k, root, Nothing, {}, c);
    var n := k.chunks[c];
    if i > 0 {
      HeightUpTo(k, root, c, i - 1);
      ChildOf(k, root, Nothing, {}, c, i - 1);
      HeightIsSum(k, root, n.children[i - 1]);
      FlatPrefix(n.parts, i - 1);
      SumPrefix(n.heights, i - 1);
      var a, b := Flat(n.parts[..i - 1]), n.parts[i - 1];
      LineHeightsConcat(k.lines, a, b);
      SumConcat(LineHeights(k.lines, a), LineHeights(k.lines, b));
    }
  }

  // ----- updateLineHeight: the change travels from the line to the root -----

  /** Line `j` of leaf `x` changes its height by `d`; the parent of `x` does not know yet. */
  ghost predicate LeafHeightChange<C, L>(k: Store<C, L>, k': Store<C, L>, root: C, x: C, j: nat, d: int)
  {
    true == (
    Tree(k, root) && x in k.chunks && k.chunks[x].leaf && OnlyChanged(k.chunks, k'.chunks, x) &&
    var n := k.chunks[x];
    j < |n.lines| == |n.heights| &&
    k'.chunks[x] == n.(height := n.height + d, heights := n.heights[j := n.heights[j] + d]) &&
    n.lines[j] in k.lines && k'.lines == k.lines[n.lines[j] := k.lines[n.lines[j]].(height := n.heights[j] + d)]
    )
  }

  lemma LeafHeightAt<C, L>(k: Store<C, L>, k': Store<C, L>, root: C, x: C, j: nat, d: int, c: C)
    requires LeafHeightChange(k, k', root, x, j, d) && c in k.chunks
    ensures At(k', root, Owed(x, k.chunks[x].contents, k.chunks[x].height), {}, {}, c)
  {
    assert At(k, root, Nothing, {}, {}, x);
    assert At(k, root, Nothing, {}, {}, c);
    SumUpdate(k.chunks[x].heights, j, k.chunks[x].heights[j] + d);
    LinesHome(k.chunks[x], x, k.lines);
    if c != x && k.chunks[c].leaf {
      LinesHome(k.chunks[c], c, k.lines);
    }
  }

  lemma LeafHeightChanged<C, L>(k: Store<C, L>, k': Store<C, L>, root: C, x: C, j: nat, d: int)
    requires LeafHeightChange(k, k', root, x, j, d)
    ensures Inv(k', root, Owed(x, k.chunks[x].contents, k.chunks[x].height), {}, {})
  {
    forall l | l in k'.lines ensures HasLeaf(k', l) {
      assert HasLeaf(k, l);
    }
    forall c | c in k'.chunks ensures At(k', root, Owed(x, k.chunks[x].contents, k.chunks[x].height), {}, {}, c) {
      LeafHeightAt(k, k', root, x, j, d, c);
    }
  }

  /** Chunk `x` and line `l`, its `j`-th, have new heights; that is all. */
  ghost predicate HeightSet<C, L>(k: Store<C, L>, k': Store<C, L>, x: C, l: L, j: nat, d: int) {
    true == (x in k.chunks && l in k.lines && OnlyChanged(k.chunks, k'.chunks, x) && j < |k.chunks[x].heights| &&
      k'.chunks[x] ==
        k.chunks[x].(height := k.chunks[x].height + d,
        heights := k.chunks[x].heights[j := k.chunks[x].heights[j] + d]) &&
      k'.lines == k.lines[l := k.lines[l].(height := k.lines[l].height + d)])
  }

  ghost predicate SameShape<C, L>(k: Store<C, L>, k': Store<C, L>) {
    true == (k'.chunks.Keys == k.chunks.Keys && forall c :: c in k.chunks ==>
      k'.chunks[c].contents == k.chunks[c].contents && k'.chunks[c].rank == k.chunks[c].rank)
  }

  lemma LeafHeightSet<C, L>(k: Store<C, L>, k': Store<C, L>, root: C, x: C, l: L, j: nat, d: int)
    requires Tree(k, root) && HeightSet(k, k', x, l, j, d)
    requires k.chunks[x].leaf && j < |k.chunks[x].lines| && k.chunks[x].lines[j] == l
    ensures Inv(k', root, Owed(x, k.chunks[x].contents, k.chunks[x].height), {}, {}) && SameShape(k, k')
  {
    assert At(k, root, Nothing, {}, {}, x);
    LinesHome(k.chunks[x], x, k.lines);
    assert LeafHeightChange(k, k', root, x, j, d);
    LeafHeightChanged(k, k', root, x, j, d);
  }

  /** Chunk `p` records a new height of its `i`-th child; that is all. */
  ghost predicate HeightRecorded<C, L>(k: Store<C, L>, k': Store<C, L>, p: C, i: nat, d: int) {
    true == (p in k.chunks && OnlyChanged(k.chunks, k'.chunks, p) && k'.lines == k.lines && i < |k.chunks[p].heights| &&
      k'.chunks[p] ==
        k.chunks[p].(height := k.chunks[p].height + d, heights := k.chunks[p].heights[i := k.chunks[p].heights[i] + d]))
  }

  lemma BranchHeightRecorded<C, L>(k: Store<C, L>, k': Store<C, L>, root: C, o: Owed<C, L>, p: C, i: nat, x: C, d: int)
    requires Inv(k, root, o, {}, {}) && x in k.chunks && o == Owed(x, k.chunks[x].contents, k.chunks[x].height - d)
    requires HeightRecorded(k, k', p, i, d) && !k.chunks[p].leaf && i < |k.chunks[p].children| == |k.chunks[p].heights|
    requires |k.chunks[p].parts| == |k.chunks[p].children| && k.chunks[p].children[i] == x
    ensures Inv(k', root, Owed(p, k.chunks[p].contents, k.chunks[p].height), {}, {}) && SameShape(k, k')
  {
    assert BranchHeightChange(k, k', root, o, p, i, x, d);
    BranchHeightChanged(k, k', root, o, p, i, x, d);
  }

  /** Branch `p` learns that child `i`, which is `x`, has changed its height by `d`. */
  ghost predicate BranchHeightChange<C, L>(k: Store<C, L>, k': Store<C, L>, root: C, o: Owed<C, L>, p: C, i: nat, x: C,
                                           d: int)
  {
    true == (
    Inv(k, root, o, {}, {}) && x in k.chunks && o == Owed(x, k.chunks[x].contents, k.chunks[x].height - d) &&
    p in k.chunks && !k.chunks[p].leaf && OnlyChanged(k.chunks, k'.chunks, p) && k'.lines == k.lines &&
    var n := k.chunks[p];
    i < |n.children| == |n.heights| == |n.parts| && n.children[i] == x &&
    k'.chunks[p] == n.(height := n.height + d, heights := n.heights[i := n.heights[i] + d])
    )
  }

  lemma BranchHeightAt<C, L>(k: Store<C, L>, k': Store<C, L>, root: C, o: Owed<C, L>, p: C, i: nat, x: C, d: int, c: C)
    requires BranchHeightChange(k, k', root, o, p, i, x, d) && c in k.chunks
    ensures At(k', root, Owed(p, k.chunks[p].contents, k.chunks[p].height), {}, {}, c)
  {
    assert At(k, root, o, {}, {}, p);
    if c == p {
      SumUpdate(k.chunks[p].heights, i, k.chunks[p].heights[i] + d);
    } else {
      BranchHeightOther(k, k', root, o, p, i, x, d, c);
    }
  }

  lemma BranchHeightOther<C, L>(k: Store<C, L>, k': Store<C, L>, root: C, o: Owed<C, L>, p: C, i: nat, x: C, d: int,
                                c: C)
    requires BranchHeightChange(k, k', root, o, p, i, x, d) && c in k.chunks && c != p
    ensures At(k', root, Owed(p, k.chunks[p].contents, k.chunks[p].height), {}, {}, c)
  {
    assert At(k, root, o, {}, {}, p);
    assert At(k, root, o, {}, {}, c);
  }

  lemma BranchHeightChanged<C, L>(k: Store<C, L>, k': Store<C, L>, root: C, o: Owed<C, L>, p: C, i: nat, x: C, d: int)
    requires BranchHeightChange(k, k', root, o, p, i, x, d)
    ensures Inv(k', root, Owed(p, k.chunks[p].contents, k.chunks[p].height), {}, {})
  {
    forall l | l in k'.lines ensures HasLeaf(k', l) {
      assert HasLeaf(k, l);
    }
    forall c | c in k'.chunks ensures At(k', root, Owed(p, k.chunks[p].contents, k.chunks[p].height), {}, {}, c) {
      BranchHeightAt(k, k', root, o, p, i, x, d, c);
    }
  }

  /** Nobody records the root. */
  lemma RootOwesNothing<C, L>(k: Store<C, L>, root: C, o: Owed<C, L>)
    requires Inv(k, root, o, {}, {}) && o.Owed? && o.x == root
    ensures Tree(k, root)
  {
    forall c | c in k.chunks ensures At(k, root, Nothing, {}, {}, c) {
      assert At(k, root, o, {}, {}, c);
    }
  }

  /** The smallest document. */
  lemma SingleLeaf<C, L>(k: Store<C, L>, r: C, x: C, l: L)
    requires r != x && k.chunks.Keys == {r, x} && k.lines == map[l := Row(1, Some(x))]
    requires k.chunks[x] == Node(true, [l], [], 0, Sum([1]), Some(r), [l], [], [1], 0)
    requires k.chunks[r] == Node(false, [], [x], |Flat([[l]])|, Sum([1]), None, Flat([[l]]), [[l]], [1], 1)
    ensures Tree(k, r) && k.chunks[r].contents == [l]
  {
    FlatAround([[l]], 0);
    assert [x][0] == x;
    assert At(k, r, Nothing, {}, {}, r);
    assert At(k, r, Nothing, {}, {}, x);
  }

  lemma OweRoot<C, L>(k: Store<C, L>, root: C, con: seq<L>, h: int)
    requires Tree(k, root)
    ensures Inv(k, root, Owed(root, con, h), {}, {})
  {
    forall c | c in k.chunks ensures At(k, root, Owed(root, con, h), {}, {}, c) {
      assert At(k, root, Nothing, {}, {}, c);
    }
  }

  lemma RootBelowNothing<C, L>(k: Store<C, L>, root: C)
    requires Tree(k, root)
    ensures Below(k, root, {}, root)
  {
  }

  // ----- walking down with an offset -----

  /** `con` is the part of `all` from offset `o` on. */
  ghost predicate Span<L>(all: seq<L>, o: nat, con: seq<L>) {
    o + |con| <= |all| && all[o..o + |con|] == con
  }

  /** The height of the lines before `n`. */
  ghost function HeightBefore<C, L>(k: Store<C, L>, all: seq<L>, n: nat): int
    requires n <= |all| && forall l :: l in all ==> l in k.lines
  {
    Sum(LineHeights(k.lines, all[..n]))
  }

  lemma HeightAfterSpan<C, L>(k: Store<C, L>, all: seq<L>, o: nat, con: seq<L>)
    requires Span(all, o, con) && forall l :: l in all ==> l in k.lines
    ensures forall l :: l in con ==> l in k.lines
    ensures HeightBefore(k, all, o + |con|) == HeightBefore(k, all, o) + Sum(LineHeights(k.lines, con))
  {
    assert all[..o + |con|] == all[..o] + con;
    LineHeightsConcat(k.lines, all[..o], con);
    SumConcat(LineHeights(k.lines, all[..o]), LineHeights(k.lines, con));
  }

  lemma SpanPart<L>(all: seq<L>, o: nat, con: seq<L>, a: seq<L>, b: seq<L>, c: seq<L>)
    requires Span(all, o, con) && con == a + b + c
    ensures Span(all, o + |a|, b)
  {
    SliceMiddle(a, b, c);
    SliceSlice(all, o, |con|, |a|, |b|);
  }

  /** Before child `i` of branch `x`, which starts at `o`. */
  lemma SpanChild<C, L>(k: Store<C, L>, root: C, all: seq<L>, o: nat, x: C, i: nat)
    requires Tree(k, root) && x in k.chunks && !k.chunks[x].leaf && i < |k.chunks[x].children|
    requires Span(all, o, k.chunks[x].contents) && forall l :: l in all ==> l in k.lines
    ensures i < |k.chunks[x].parts| && k.chunks[x].children[i] in k.chunks
    ensures var n, d := k.chunks[x], k.chunks[k.chunks[x].children[i]];
            var o' := o + |Flat(n.parts[..i])|;
            Span(all, o', d.contents) && d.rank < n.rank &&
            o + |Flat(n.parts[..i + 1])| == o' + |d.contents| &&
            |d.contents| == (if d.leaf then |d.lines| else d.size) &&
            HeightBefore(k, all, o' + |d.contents|) == HeightBefore(k, all, o') + d.height
  {
    SpanOfChild(k, root, all, o, x, i);
    var n, c := k.chunks[x], k.chunks[x].children[i];
    HeightIsSum(k, root, c);
    HeightAfterSpan(k, all, o + |Flat(n.parts[..i])|, k.chunks[c].contents);
  }

  lemma SpanOfChild<C, L>(k: Store<C, L>, root: C, all: seq<L>, o: nat, x: C, i: nat)
    requires Tree(k, root) && x in k.chunks && !k.chunks[x].leaf && i < |k.chunks[x].children|
    requires Span(all, o, k.chunks[x].contents)
    ensures i < |k.chunks[x].parts| && k.chunks[x].children[i] in k.chunks
    ensures var n, d := k.chunks[x], k.chunks[k.chunks[x].children[i]];
            var o' := o + |Flat(n.parts[..i])|;
            Span(all, o', d.contents) && d.rank < n.rank &&
            o + |Flat(n.parts[..i + 1])| == o' + |d.contents| &&
            |d.contents| == if d.leaf then |d.lines| else d.size
  {
    ChildOf(k, root, Nothing, {}, x, i);
    var n := k.chunks[x];
    var d := k.chunks[n.children[i]];
    assert At(k, root, Nothing, {}, {}, x);
    FlatPrefix(n.parts, i);
    FlatAround(n.parts, i);
    SpanPart(all, o, n.contents, Flat(n.parts[..i]), d.contents, Flat(n.parts[i + 1..]));
  }

  lemma SpanAll<C, L>(k: Store<C, L>, root: C, all: seq<L>, o: nat, x: C)
    requires Tree(k, root) && x in k.chunks && !k.chunks[x].leaf
    requires Span(all, o, k.chunks[x].contents)
    ensures |k.chunks[x].parts| == |k.chunks[x].children|
    ensures o + |Flat(k.chunks[x].parts[..|k.chunks[x].children|])| == o + |k.chunks[x].contents|
  {
    assert At(k, root, Nothing, {}, {}, x);
    assert k.chunks[x].parts[..|k.chunks[x].children|] == k.chunks[x].parts;
  }

  lemma {:induction false} HeightMonotone<C, L>(k: Store<C, L>, all: seq<L>, m: nat, n: nat)
    requires m <= n <= |all| && (forall l :: l in all ==> l in k.lines) && forall l :: l in k.lines ==>
      k.lines[l].height >= 0
    ensures HeightBefore(k, all, m) <= HeightBefore(k, all, n)
    decreases n - m
  {
    if m < n {
      HeightNext(k, all, m);
      HeightMonotone(k, all, m + 1, n);
    }
  }

  lemma HeightNext<C, L>(k: Store<C, L>, all: seq<L>, n: nat)
    requires n < |all| && forall l :: l in all ==> l in k.lines
    ensures HeightBefore(k, all, n + 1) == HeightBefore(k, all, n) + k.lines[all[n]].height
  {
    assert all[n..n + 1] == [all[n]];
    HeightAfterSpan(k, all, n, [all[n]]);
    assert LineHeights(k.lines, [all[n]]) == [k.lines[all[n]].height];
    assert Sum([k.lines[all[n]].height]) == k.lines[all[n]].height;
  }
}
