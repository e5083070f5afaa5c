/**
 The chunk tree as a value: the fields of all its chunks and lines at one moment. The invariant of the tree and the
 effect of each structural step on it are stated here; ChunkTree ties the mutable objects to these values.
 */
module ChunkStore {
  import opened Sequences

  datatype Option<+T> = None | Some(value: T)

  /** The fields of one chunk, and four ghost fields that summarise what is below it. */
  datatype Node<!C, !L> = Node(
    leaf: bool, lines: seq<L>, children: seq<C>, size: int, height: int, parent: Option<C>,
    contents: seq<L>,       // the lines below, in order
    parts: seq<seq<L>>,     // branch: the contents of the children
    heights: seq<int>,      // the heights of the children, or of the lines of a leaf
    rank: nat)              // larger than that of every child

  datatype Row<!C> = Row(height: int, parent: Option<C>)

  datatype Store<!C, !L> = Store(chunks: map<C, Node<C, L>>, lines: map<L, Row<C>>)

  // ----- the invariant, one chunk at a time -----

  ghost predicate Linked<C, L>(k: Store<C, L>, c: C)
    requires c in k.chunks
  {
    var p := k.chunks[c].parent;
    p.Some? ==> p.value in k.chunks && !k.chunks[p.value].leaf && c in k.chunks[p.value].children
  }

  ghost predicate LinesOf<C, L>(n: Node<C, L>, x: C, rows: map<L, Row<C>>)
  {
    true == (
    |n.heights| == |n.lines| && NoDup(n.lines) &&
    forall i :: 0 <= i < |n.lines| ==> n.lines[i] in rows && rows[n.lines[i]] == Row(n.heights[i], Some(x))
    )
  }

  ghost predicate Kids<C, L>(k: Store<C, L>, c: C)
    requires c in k.chunks
  {
    true == (
    var n := k.chunks[c];
    if n.leaf then LinesOf(n, c, k.lines)
    else
      n.lines == [] && n.rank >= 1 && |n.parts| == |n.children| == |n.heights| && NoDup(n.children) &&
      forall i :: 0 <= i < |n.children| ==>
        n.children[i] in k.chunks &&
        var d := k.chunks[n.children[i]];
        d.parent == Some(c) && d.rank < n.rank
    )
  }

  /** A value that a branch has recorded of child `x` although the child does not have it (yet, or any more). */
  datatype Owed<!C, !L> = Nothing | Owed(x: C, contents: seq<L>, height: int)

  /** What a branch has recorded of its children is right, but for what is owed. */
  ghost predicate Cached<C, L>(k: Store<C, L>, c: C, o: Owed<C, L>)
    requires c in k.chunks
  {
    true == (
    var n := k.chunks[c];
    !n.leaf ==>
      |n.parts| == |n.children| == |n.heights| &&
      forall i :: 0 <= i < |n.children| ==>
        var d := n.children[i];
        d in k.chunks &&
        (if o.Owed? && d == o.x then n.parts[i] == o.contents && n.heights[i] == o.height
         else n.parts[i] == k.chunks[d].contents && n.heights[i] == k.chunks[d].height)
    )
  }

  ghost predicate Sums<C, L>(n: Node<C, L>)
  {
    n.height == Sum(n.heights) &&
    (if n.leaf then n.contents == n.lines
     else n.contents == Flat(n.parts) && n.size == |n.contents| && |n.children| >= 1)
  }

  ghost predicate Limit<C, L>(n: Node<C, L>)
  {
    if n.leaf then |n.lines| <= 50 else |n.children| <= 10
  }

  ghost predicate HasLeaf<C, L>(k: Store<C, L>, l: L)
    requires l in k.lines
  {
    var p := k.lines[l].parent;
    p.Some? && p.value in k.chunks && k.chunks[p.value].leaf && l in k.chunks[p.value].lines
  }

  // ----- the invariant of the whole tree -----

  /**
   Chunk `c` in the middle of an operation: one child may be owed a value, the chunks in `busy` may be out of step
   with their children, those in `over` may be too long.
   */
  ghost predicate At<C, L>(k: Store<C, L>, root: C, o: Owed<C, L>, busy: set<C>, over: set<C>, c: C)
    requires root in k.chunks && c in k.chunks
  {
    true == (
    var n := k.chunks[c];
    Linked(k, c) && (n.parent == None ==> c == root) && n.rank <= k.chunks[root].rank && Kids(k, c) &&
    (c !in busy ==> Cached(k, c, o) && Sums(n)) &&
    (c !in over ==> Limit(n))
    )
  }

  ghost predicate Inv<C, L>(k: Store<C, L>, root: C, o: Owed<C, L>, busy: set<C>, over: set<C>)
  {
    true == (
    root in k.chunks && !k.chunks[root].leaf && k.chunks[root].parent == None &&
    (forall c {:trigger At(k, root, o, busy, over, c)} :: c in k.chunks ==> At(k, root, o, busy, over, c)) &&
    (forall l {:trigger HasLeaf(k, l)} :: l in k.lines ==> HasLeaf(k, l))
    )
  }

  // ----- insertion: a parent has recorded what a child is about to become -----

  /** Leaf `x` takes the contents that its parent has already recorded. */
  ghost predicate LeafSettles<C, L>(k: Store<C, L>, k': Store<C, L>, root: C, x: C)
  {
    true == (
    x in k.chunks && OnlyChanged(k.chunks, k'.chunks, x) && k.chunks[x].leaf &&
    var n := k'.chunks[x];
    Inv(k, root, Owed(x, n.contents, n.height), {}, {}) &&
    n.leaf && LinesOf(n, x, k'.lines) && Sums(n) && n.parent == k.chunks[x].parent && n.rank == k.chunks[x].rank &&
    (forall l :: l in k.lines ==> l in k'.lines && k'.lines[l] == k.lines[l]) &&
    (forall l :: l in k.chunks[x].lines ==> l in n.lines) &&
    (forall l :: l in k'.lines ==> l in k.lines || l in n.lines)
    )
  }

  lemma LeafSettledAt<C, L>(k: Store<C, L>, k': Store<C, L>, root: C, x: C, c: C)
    requires LeafSettles(k, k', root, x) && c in k.chunks
    ensures At(k', root, Nothing, {}, {x}, c)
  {
    assert At(k, root, Owed(x, k'.chunks[x].contents, k'.chunks[x].height), {}, {}, c);
  }

  lemma LeafSettled<C, L>(k: Store<C, L>, k': Store<C, L>, root: C, x: C)
    requires LeafSettles(k, k', root, x)
    ensures Inv(k', root, Nothing, {}, {x})
  {
    assert At(k, root, Owed(x, k'.chunks[x].contents, k'.chunks[x].height), {}, {}, x);
    forall l | l in k'.lines ensures HasLeaf(k', l) {
      assert l in k.lines ==> HasLeaf(k, l);
    }
    forall c | c in k'.chunks ensures At(k', root, Nothing, {}, {x}, c) {
      LeafSettledAt(k, k', root, x, c);
    }
  }

  /** No chunk but `x` has changed. */
  ghost predicate OnlyChanged<C, L>(m: map<C, Node<C, L>>, m': map<C, Node<C, L>>, x: C)
  {
    true == (
    m'.Keys == m.Keys && forall c :: c in m && c != x ==> m'[c] == m[c]
    )
  }

  /** The lines `ls`, of heights `hs`, are new and belong to `x`. */
  ghost predicate Attached<C, L>(rows: map<L, Row<C>>, rows': map<L, Row<C>>, x: C, ls: seq<L>, hs: seq<int>)
  {
    true == (|ls| == |hs| &&
      (forall i :: 0 <= i < |ls| ==> ls[i] !in rows && ls[i] in rows' && rows'[ls[i]] == Row(hs[i], Some(x))) &&
      (forall l :: l in rows ==> l in rows' && rows'[l] == rows[l]) &&
      forall l :: l in rows' ==> l in rows || l in ls)
  }

  /** Leaf `x` now has the lines `nl`, of which `ls` are new to the document. */
  ghost predicate LeafPut<C, L>(k: Store<C, L>, k': Store<C, L>, x: C, nl: seq<L>, nh: int, nhs: seq<int>, ls: seq<L>,
                                hs: seq<int>)
  {
    true == (
    x in k.chunks && OnlyChanged(k.chunks, k'.chunks, x) &&
    k'.chunks[x] == k.chunks[x].(lines := nl, contents := nl, heights := nhs, height := nh) &&
    Attached(k.lines, k'.lines, x, ls, hs)
    )
  }

  lemma LeafPutIs<C, L>(k: Store<C, L>, k': Store<C, L>, x: C, nl: seq<L>, nh: int, nhs: seq<int>, ls: seq<L>,
                        hs: seq<int>)
    requires x in k.chunks && OnlyChanged(k.chunks, k'.chunks, x) && Attached(k.lines, k'.lines, x, ls, hs)
    requires k'.chunks[x] == k.chunks[x].(lines := nl, contents := nl, heights := nhs, height := nh)
    ensures LeafPut(k, k', x, nl, nh, nhs, ls, hs)
  {
  }

  /** The lines `ls` are inserted into leaf `x`, whose parent has already recorded the result `nl` of height `nh`. */
  ghost predicate LeafInsert<C, L>(k: Store<C, L>, k': Store<C, L>, root: C, o: Owed<C, L>, x: C, at: nat, ls: seq<L>,
                                   hs: seq<int>, nl: seq<L>, nh: int, nhs: seq<int>)
  {
    true == (
    Inv(k, root, o, {}, {}) && o == Owed(x, nl, nh) && LeafPut(k, k', x, nl, nh, nhs, ls, hs) && NoDup(ls) &&
    var n := k.chunks[x];
    n.leaf && at <= |n.lines| == |n.heights| &&
    nl == Splice(n.lines, at, ls) && nhs == Splice(n.heights, at, hs) && nh == n.height + Sum(hs)
    )
  }

  lemma LeafLengths<C, L>(k: Store<C, L>, root: C, o: Owed<C, L>, busy: set<C>, over: set<C>, x: C)
    requires Inv(k, root, o, busy, over) && x in k.chunks && k.chunks[x].leaf
    ensures |k.chunks[x].heights| == |k.chunks[x].lines|
    ensures x !in busy ==> k.chunks[x].contents == k.chunks[x].lines
  {
    assert At(k, root, o, busy, over, x);
  }

  lemma SpliceLeaf<C, L>(n: Node<C, L>, x: C, rows: map<L, Row<C>>, m: Node<C, L>, rows': map<L, Row<C>>, at: nat,
                         ls: seq<L>, hs: seq<int>)
    requires n.leaf && LinesOf(n, x, rows) && Sums(n) && at <= |n.lines| && NoDup(ls)
    requires Attached(rows, rows', x, ls, hs)
    requires m.lines == Splice(n.lines, at, ls) && m.heights == Splice(n.heights, at, hs)
    ensures LinesOf(m, x, rows') && Sum(m.heights) == n.height + Sum(hs)
  {
    SumSplice(n.heights, at, hs);
    SplicedNoDup(n.lines, x, rows, rows', at, ls, hs);
    forall i | 0 <= i < |m.lines|
      ensures i < |m.heights| && m.lines[i] in rows' && rows'[m.lines[i]] == Row(m.heights[i], Some(x))
    {
      SplicedLine(n.lines, n.heights, x, rows, m.lines, m.heights, rows', at, ls, hs, i);
    }
  }

  lemma SplicedNoDup<C, L>(ns: seq<L>, x: C, rows: map<L, Row<C>>, rows': map<L, Row<C>>, at: nat, ls: seq<L>,
                           hs: seq<int>)
    requires at <= |ns| && NoDup(ns) && NoDup(ls) && forall j :: 0 <= j < |ns| ==> ns[j] in rows
    requires Attached(rows, rows', x, ls, hs)
    ensures NoDup(Splice(ns, at, ls)) && |hs| == |ls|
  {
    assert forall l :: l in ls ==> l !in ns;
    NoDupSplice(ns, at, ls);
  }

  lemma SplicedLine<C, L>(ns: seq<L>, nh: seq<int>, x: C, rows: map<L, Row<C>>, ms: seq<L>, mh: seq<int>,
                          rows': map<L, Row<C>>, at: nat, ls: seq<L>, hs: seq<int>, i: nat)
    requires at <= |ns| == |nh| && forall j :: 0 <= j < |ns| ==> ns[j] in rows && rows[ns[j]] == Row(nh[j], Some(x))
    requires Attached(rows, rows', x, ls, hs) && ms == Splice(ns, at, ls) && mh == Splice(nh, at, hs) && i < |ms|
    ensures i < |mh| && ms[i] in rows' && rows'[ms[i]] == Row(mh[i], Some(x))
  {
    SpliceAt(ns, at, ls, i);
    SpliceAt(nh, at, hs, i);
  }

  lemma LeafInserted<C, L>(k: Store<C, L>, k': Store<C, L>, root: C, o: Owed<C, L>, x: C, at: nat, ls: seq<L>,
                           hs: seq<int>, nl: seq<L>, nh: int, nhs: seq<int>)
    requires LeafInsert(k, k', root, o, x, at, ls, hs, nl, nh, nhs)
    ensures Inv(k', root, Nothing, {}, {x})
  {
    assert At(k, root, Owed(x, nl, nh), {}, {}, x);
    SpliceLeaf(k.chunks[x], x, k.lines, k'.chunks[x], k'.lines, at, ls, hs);
    LeafSettled(k, k', root, x);
  }

  /** Branch `x` takes the values its parent has recorded, and records what its child `i` is to become. */
  ghost predicate BranchSettles<C, L>(k: Store<C, L>, k': Store<C, L>, root: C, x: C, i: nat)
  {
    true == (
    x in k.chunks && OnlyChanged(k.chunks, k'.chunks, x) && !k.chunks[x].leaf &&
    var n := k'.chunks[x];
    Inv(k, root, Owed(x, n.contents, n.height), {}, {}) &&
    !n.leaf && n.lines == k.chunks[x].lines && n.children == k.chunks[x].children &&
    n.parent == k.chunks[x].parent && n.rank == k.chunks[x].rank &&
    i < |n.children| == |k.chunks[x].parts| == |k.chunks[x].heights| == |n.parts| == |n.heights| &&
    n.parts == k.chunks[x].parts[i := n.parts[i]] &&
    n.heights == k.chunks[x].heights[i := n.heights[i]] &&
    Sums(n) && k'.lines == k.lines
    )
  }

  lemma BranchSettledAt<C, L>(k: Store<C, L>, k': Store<C, L>, root: C, x: C, i: nat, c: C)
    requires BranchSettles(k, k', root, x, i) && c in k.chunks
    ensures var n := k'.chunks[x]; At(k', root, Owed(n.children[i], n.parts[i], n.heights[i]), {}, {}, c)
  {
    var n := k'.chunks[x];
    assert At(k, root, Owed(x, n.contents, n.height), {}, {}, x);
    assert At(k, root, Owed(x, n.contents, n.height), {}, {}, c);
  }

  lemma BranchSettled<C, L>(k: Store<C, L>, k': Store<C, L>, root: C, x: C, i: nat)
    requires BranchSettles(k, k', root, x, i)
    ensures var n := k'.chunks[x]; Inv(k', root, Owed(n.children[i], n.parts[i], n.heights[i]), {}, {})
  {
    var n := k'.chunks[x];
    forall l | l in k'.lines ensures HasLeaf(k', l) {
      assert HasLeaf(k, l);
    }
    forall c | c in k'.chunks ensures At(k', root, Owed(n.children[i], n.parts[i], n.heights[i]), {}, {}, c) {
      BranchSettledAt(k, k', root, x, i, c);
    }
  }

  /** Branch `x` has new totals and new records of its child `i`. */
  ghost predicate BranchPut<C, L>(k: Store<C, L>, k': Store<C, L>, x: C, i: nat, con: seq<L>, h: int, part: seq<L>,
                                  ph: int)
  {
    true == (
    x in k.chunks && OnlyChanged(k.chunks, k'.chunks, x) && k'.lines == k.lines &&
    var n := k.chunks[x];
    i < |n.parts| && i < |n.heights| &&
    k'.chunks[x] == n.(contents := con, size := |con|, height := h, parts := n.parts[i := part],
    heights := n.heights[i := ph])
    )
  }

  lemma BranchInserted<C, L>(k: Store<C, L>, k': Store<C, L>, root: C, o: Owed<C, L>, x: C, i: nat, d: C, at: nat,
                             a: nat, ls: seq<L>, h: int, part: seq<L>, ph: int)
    requires Inv(k, root, o, {}, {}) && x in k.chunks && !k.chunks[x].leaf
    requires at <= |k.chunks[x].contents| && o == Owed(x, Splice(k.chunks[x].contents, at, ls), k.chunks[x].height + h)
    requires BranchPut(k, k', x, i, o.contents, o.height, part, ph)
    requires i < |k.chunks[x].children| && d == k.chunks[x].children[i] && d in k.chunks && a <= |k.chunks[d].contents|
    requires |Flat(k.chunks[x].parts[..i])| + a == at
    requires part == Splice(k.chunks[d].contents, a, ls) && ph == k.chunks[d].height + h
    ensures Inv(k', root, Owed(d, part, ph), {}, {})
  {
    var n := k.chunks[x];
    assert At(k, root, o, {}, {}, x);
    assert n.parts[i] == k.chunks[d].contents && n.heights[i] == k.chunks[d].height;
    FlatSplice(n.parts, i, a, ls);
    SumUpdate(n.heights, i, ph);
    BranchSettled(k, k', root, x, i);
  }

  /** What a branch can rely on when it walks over its children. */
  lemma ChildOf<C, L>(k: Store<C, L>, root: C, o: Owed<C, L>, over: set<C>, x: C, i: nat)
    requires Inv(k, root, o, {}, over) && x in k.chunks && !k.chunks[x].leaf
    requires o.Owed? ==> o.x == x
    requires i < |k.chunks[x].children|
    ensures |k.chunks[x].parts| == |k.chunks[x].heights| == |k.chunks[x].children|
    ensures k.chunks[x].children[i] in k.chunks
    ensures var d := k.chunks[k.chunks[x].children[i]];
            d.contents == k.chunks[x].parts[i] && d.height == k.chunks[x].heights[i] && d.rank < k.chunks[x].rank &&
            d.parent == Some(x) && |d.contents| == if d.leaf then |d.lines| else d.size
  {
    assert At(k, root, o, {}, over, x);
    assert At(k, root, o, {}, over, k.chunks[x].children[i]);
  }

  lemma LeafFacts<C, L>(k: Store<C, L>, root: C, over: set<C>, x: C)
    requires Inv(k, root, Nothing, {}, over) && x in k.chunks && k.chunks[x].leaf
    ensures var n := k.chunks[x];
            |n.heights| == |n.lines| && n.contents == n.lines && n.height == Sum(n.heights) &&
            forall i :: 0 <= i < |n.lines| ==> n.lines[i] in k.lines && k.lines[n.lines[i]].height == n.heights[i]
  {
    assert At(k, root, Nothing, {}, over, x);
  }

  lemma BranchLengths<C, L>(k: Store<C, L>, root: C, o: Owed<C, L>, over: set<C>, x: C)
    requires Inv(k, root, o, {}, over) && x in k.chunks && !k.chunks[x].leaf
    ensures var n := k.chunks[x];
            |n.parts| == |n.heights| == |n.children| && |n.children| >= 1 && n.contents == Flat(n.parts) &&
            n.size == |n.contents|
  {
    assert At(k, root, o, {}, over, x);
  }

  /** A chunk that is small enough need not be excepted. */
  lemma Narrow<C, L>(k: Store<C, L>, root: C, over: set<C>, over': set<C>)
    requires Inv(k, root, Nothing, {}, over)
    requires forall c :: c in over && c in k.chunks ==> c in over' || Limit(k.chunks[c])
    ensures Inv(k, root, Nothing, {}, over')
  {
    forall c | c in k.chunks ensures At(k, root, Nothing, {}, over', c) {
      assert At(k, root, Nothing, {}, over, c);
    }
  }

  // ----- chunks that a step does not touch -----

  /** What the branches look at in a child. */
  ghost predicate SameFromAbove<C, L>(m: Node<C, L>, n: Node<C, L>)
  {
    m.contents == n.contents && m.height == n.height && m.parent == n.parent && m.rank == n.rank
  }

  /** From `k` to `k'` nothing changes that the invariant of `c` depends on. */
  ghost predicate Untouched<C, L>(k: Store<C, L>, k': Store<C, L>, c: C)
    requires c in k.chunks
  {
    true == (
    c in k'.chunks && k'.chunks[c] == k.chunks[c].(parent := k'.chunks[c].parent) &&
    Linked(k', c) && (k'.chunks[c].parent == None ==> k.chunks[c].parent == None) &&
    (if k.chunks[c].leaf then
       forall l :: l in k.chunks[c].lines && l in k.lines ==> l in k'.lines && k'.lines[l] == k.lines[l]
     else
       forall d :: d in k.chunks[c].children && d in k.chunks ==>
         d in k'.chunks && SameFromAbove(k'.chunks[d], k.chunks[d]))
    )
  }

  lemma UntouchedAt<C, L>(k: Store<C, L>, k': Store<C, L>, root: C, o: Owed<C, L>, busy: set<C>, over: set<C>,
                          busy': set<C>, over': set<C>, c: C)
    requires root in k.chunks && root in k'.chunks && k.chunks[root].rank <= k'.chunks[root].rank
    requires c in k.chunks && At(k, root, o, busy, over, c) && Untouched(k, k', c)
    requires (c in busy ==> c in busy') && (c in over ==> c in over')
    requires o.Nothing? || o.x !in k.chunks[c].children
    ensures At(k', root, Nothing, busy', over', c)
  {
  }

  // ----- splitting -----

  /** Branch `n` after child `i` has been split in two, the second half being `y`. */
  function Gain<C, L>(n: Node<C, L>, i: nat, y: C, a: seq<L>, b: seq<L>, ha: int, hb: int): (m: Node<C, L>)
    requires i < |n.children| == |n.parts| == |n.heights|
  {
    n.(children := n.children[..i + 1] + [y] + n.children[i + 1..],
       parts := n.parts[..i] + [a, b] + n.parts[i + 1..],
       heights := n.heights[..i] + [ha, hb] + n.heights[i + 1..])
  }

  lemma Gains<C, L>(n: Node<C, L>, i: nat, y: C, a: seq<L>, b: seq<L>, ha: int, hb: int)
    requires i < |n.children| == |n.parts| == |n.heights| && !n.leaf && Sums(n)
    requires n.parts[i] == a + b && n.heights[i] == ha + hb
    requires NoDup(n.children) && y !in n.children
    ensures var m := Gain(n, i, y, a, b, ha, hb);
            Sums(m) && NoDup(m.children) && |m.children| == |m.parts| == |m.heights| == |n.children| + 1 &&
            m.children[i] == n.children[i] && m.parts[i] == a && m.heights[i] == ha &&
            m.children[i + 1] == y && m.parts[i + 1] == b && m.heights[i + 1] == hb &&
            (forall j :: 0 <= j < |m.children| && j != i && j != i + 1 ==>
              var j' := if j < i then j else j - 1;
              m.children[j] == n.children[j'] && m.parts[j] == n.parts[j'] && m.heights[j] == n.heights[j']) &&
            forall d :: d in n.children ==> d in m.children
  {
    FlatSplit(n.parts, i, a, b);
    SumSplit(n.heights, i, ha, hb);
    NoDupSplice(n.children, i + 1, [y]);
    GainMembers(n, i, y, a, b, ha, hb);
  }

  lemma GainMembers<C, L>(n: Node<C, L>, i: nat, y: C, a: seq<L>, b: seq<L>, ha: int, hb: int)
    requires i < |n.children| == |n.parts| == |n.heights|
    ensures var m := Gain(n, i, y, a, b, ha, hb);
            y in m.children && m.children[i] == n.children[i] && forall d :: d in n.children ==> d in m.children
  {
    assert n.children == n.children[..i + 1] + n.children[i + 1..];
  }

  /** Branch `p` of `k'` is fine after its child `i` was split into `x` and `y`. */
  lemma GainedAt<C, L>(k: Store<C, L>, k': Store<C, L>, root: C, over: set<C>, p: C, i: nat, x: C, y: C, a: seq<L>,
                       b: seq<L>, ha: int, hb: int)
    requires root in k.chunks && root in k'.chunks && k.chunks[root].rank <= k'.chunks[root].rank
    requires p in k.chunks && p in k'.chunks && p in over && At(k, root, Nothing, {}, over, p) && !k.chunks[p].leaf
    requires i < |k.chunks[p].children| == |k.chunks[p].parts| == |k.chunks[p].heights| && k.chunks[p].children[i] == x
    requires k.chunks[p].parts[i] == a + b && k.chunks[p].heights[i] == ha + hb
    requires y !in k.chunks && k'.chunks[p] == Gain(k.chunks[p], i, y, a, b, ha, hb)
    requires x in k'.chunks && y in k'.chunks
    requires k'.chunks[x].contents == a && k'.chunks[x].height == ha && k'.chunks[x].parent == Some(p)
    requires k'.chunks[y].contents == b && k'.chunks[y].height == hb && k'.chunks[y].parent == Some(p)
    requires k'.chunks[x].rank < k.chunks[p].rank && k'.chunks[y].rank < k.chunks[p].rank
    requires forall d :: d in k.chunks[p].children && d != x && d in k.chunks ==>
      d in k'.chunks && SameFromAbove(k'.chunks[d], k.chunks[d])
    requires Linked(k', p)
    ensures At(k', root, Nothing, {}, over, p)
  {
    Gains(k.chunks[p], i, y, a, b, ha, hb);
    var n, m := k.chunks[p], k'.chunks[p];
    forall j | 0 <= j < |m.children|
      ensures m.children[j] in k'.chunks
      ensures var d := k'.chunks[m.children[j]];
              d.parent == Some(p) && d.rank < m.rank && m.parts[j] == d.contents && m.heights[j] == d.height
    {
      if j != i && j != i + 1 {
        var j' := if j < i then j else j - 1;
        assert m.children[j] == n.children[j'] && n.children[j'] != n.children[i];
      }
    }
  }

  lemma ChildFacts<C, L>(k: Store<C, L>, root: C, over: set<C>, p: C, i: nat, x: C)
    requires Inv(k, root, Nothing, {}, over) && p in k.chunks && !k.chunks[p].leaf
    requires i < |k.chunks[p].children| && k.chunks[p].children[i] == x && x in k.chunks
    ensures At(k, root, Nothing, {}, over, p) && At(k, root, Nothing, {}, over, x)
    ensures k.chunks[x].parent == Some(p) && k.chunks[x].rank < k.chunks[p].rank && p != x
    ensures !k.chunks[x].leaf ==> p !in k.chunks[x].children
    ensures i < |k.chunks[p].parts| && i < |k.chunks[p].heights|
    ensures k.chunks[p].parts[i] == k.chunks[x].contents && k.chunks[p].heights[i] == k.chunks[x].height
  {
    assert At(k, root, Nothing, {}, over, p);
    assert At(k, root, Nothing, {}, over, x);
  }

  lemma SumHalves(hs: seq<int>, m: nat)
    requires m <= |hs|
    ensures Sum(hs) == Sum(hs[0..m]) + Sum(hs[m..|hs|])
  {
    assert hs == hs[0..m] + hs[m..|hs|];
    SumConcat(hs[0..m], hs[m..|hs|]);
  }

  lemma Halves<T>(s: seq<T>, m: nat)
    requires m <= |s| && NoDup(s)
    ensures s == s[0..m] + s[m..|s|]
    ensures forall d :: d in s[0..m] ==> d !in s[m..|s|]
    ensures forall d :: d in s <==> d in s[0..m] || d in s[m..|s|]
  {
    assert s == s[0..m] + s[m..|s|];
  }

  lemma FlatHalves<T>(ps: seq<seq<T>>, m: nat)
    requires m <= |ps|
    ensures Flat(ps) == Flat(ps[0..m]) + Flat(ps[m..|ps|])
  {
    assert ps == ps[0..m] + ps[m..|ps|];
    FlatConcat(ps[0..m], ps[m..|ps|]);
  }

  /** The lines `ls` now belong to `x`. */
  ghost predicate MovedTo<C, L>(rows: map<L, Row<C>>, rows': map<L, Row<C>>, x: C, ls: seq<L>)
  {
    true == (
    rows'.Keys == rows.Keys &&
    forall l :: l in rows ==> rows'[l] == if l in ls then Row(rows[l].height, Some(x)) else rows[l]
    )
  }

  /** `m` is a leaf with the lines `lo..hi` of `n`. */
  ghost predicate LeafPart<C, L>(m: Node<C, L>, n: Node<C, L>, lo: nat, hi: nat, parent: Option<C>)
    requires lo <= hi <= |n.lines| == |n.heights|
  {
    true == (
    m.leaf && m.lines == n.lines[lo..hi] && m.contents == m.lines && m.heights == n.heights[lo..hi] &&
    m.height == Sum(m.heights) && m.parent == parent && m.rank == n.rank
    )
  }

  /** `x` is child `i` of branch `p`; these two may be too long. */
  ghost predicate SpillSite<C, L>(k: Store<C, L>, root: C, p: C, i: nat, x: C)
  {
    true == (
    Inv(k, root, Nothing, {}, {p, x}) && p in k.chunks && x in k.chunks && p != x && !k.chunks[p].leaf &&
    i < |k.chunks[p].children| == |k.chunks[p].parts| == |k.chunks[p].heights| && k.chunks[p].children[i] == x &&
    (k.chunks[x].leaf ==> |k.chunks[x].lines| == |k.chunks[x].heights|) &&
    (!k.chunks[x].leaf ==> |k.chunks[x].children| == |k.chunks[x].parts| == |k.chunks[x].heights|)
    )
  }

  lemma SpillSiteFound<C, L>(k: Store<C, L>, root: C, p: C, i: nat, x: C)
    requires Inv(k, root, Nothing, {}, {p, x}) && p in k.chunks && !k.chunks[p].leaf
    requires i < |k.chunks[p].children| && k.chunks[p].children[i] == x
    ensures SpillSite(k, root, p, i, x)
    ensures k.chunks[x].contents == k.chunks[p].parts[i] && k.chunks[x].height == k.chunks[p].heights[i]
  {
    assert At(k, root, Nothing, {}, {p, x}, p);
    assert At(k, root, Nothing, {}, {p, x}, x);
  }

  /** The lines from `m` on move from leaf `x`, child `i` of `p`, to a new leaf `y` after it. */
  ghost predicate LeafSpill<C, L>(k: Store<C, L>, k': Store<C, L>, root: C, p: C, i: nat, x: C, y: C, m: nat)
  {
    true == (
    SpillSite(k, root, p, i, x) && y !in k.chunks &&
    k.chunks[x].leaf && m <= |k.chunks[x].lines| && |k.chunks[x].lines| - m <= 50 &&
    k'.chunks.Keys == k.chunks.Keys + {y} && (forall c :: c in k.chunks && c != p && c != x ==>
    k'.chunks[c] == k.chunks[c]) &&
    MovedTo(k.lines, k'.lines, y, k'.chunks[y].lines) &&
    LeafPart(k'.chunks[x], k.chunks[x], 0, m, Some(p)) &&
    LeafPart(k'.chunks[y], k.chunks[x], m, |k.chunks[x].lines|, Some(p)) &&
    k'.chunks[p] == Gain(k.chunks[p], i, y, k'.chunks[x].lines, k'.chunks[y].lines, k'.chunks[x].height,
    k'.chunks[y].height)
    )
  }

  /** Leaf `n` keeps its first `m` lines as `a`; the new, unattached leaf `b` has the others. */
  ghost predicate LeafCut<C, L>(n: Node<C, L>, a: Node<C, L>, b: Node<C, L>, m: nat)
    requires m <= |n.lines| == |n.heights|
  {
    true == (
    b == Node(true, n.lines[m..|n.lines|], [], 0, Sum(n.heights[m..|n.heights|]), None, n.lines[m..|n.lines|], [],
              n.heights[m..|n.heights|], 0) &&
    a == n.(lines := n.lines[0..m], contents := n.lines[0..m], heights := n.heights[0..m],
    height := n.height - b.height)
    )
  }

  /** Leaf `x` is cut at `m`, the rest goes to `y`, and `p` learns of it. */
  ghost predicate LeafDivided<C, L>(m0: map<C, Node<C, L>>, m1: map<C, Node<C, L>>, m2: map<C, Node<C, L>>, p: C,
                                    i: nat, x: C, y: C, b: Node<C, L>, m: nat)
  {
    true == (p in m0 && x in m0 && OnlyChanged(m0, m1, x) && OnlyChanged(m1, m2, p) &&
      m <= |m0[x].lines| == |m0[x].heights| && i < |m1[p].children| == |m1[p].parts| == |m1[p].heights| &&
      b.parent == Some(p) && b.rank == m0[x].rank && LeafCut(m0[x], m1[x], b.(parent := None, rank := 0), m) &&
      m2[p] == Gain(m1[p], i, y, m1[x].lines, b.lines, m1[x].height, b.height))
  }

  /** The steps in which a leaf is spilled: the leaf is cut, then the new one linked to the parent. */
  lemma LeafSpillSteps<C, L>(k: Store<C, L>, k': Store<C, L>, m1: map<C, Node<C, L>>, m2: map<C, Node<C, L>>, root: C,
                             p: C, i: nat, x: C, y: C, m: nat)
    requires SpillSite(k, root, p, i, x) && y !in k.chunks && k.chunks[x].leaf
    requires m <= |k.chunks[x].lines| && |k.chunks[x].lines| - m <= 50
    requires OnlyChanged(k.chunks, m1, x) && OnlyChanged(m1, m2, p)
    requires y in k'.chunks && k'.chunks == m2[y := k'.chunks[y]]
    requires k'.chunks[y].parent == Some(p) && k'.chunks[y].rank == k.chunks[x].rank
    requires LeafCut(k.chunks[x], m1[x], k'.chunks[y].(parent := None, rank := 0), m)
    requires m2[p] == Gain(m1[p], i, y, m1[x].lines, k'.chunks[y].lines, m1[x].height, k'.chunks[y].height)
    requires MovedTo(k.lines, k'.lines, y, k'.chunks[y].lines)
    ensures LeafSpill(k, k', root, p, i, x, y, m)
  {
    LeafFacts(k, root, {p, x}, x);
    ChildFacts(k, root, {p, x}, p, i, x);
    SumHalves(k.chunks[x].heights, m);
  }

  lemma SplitLines<C, L>(n: Node<C, L>, x: C, rows: map<L, Row<C>>, y: C, rows': map<L, Row<C>>, m: nat, a: Node<C, L>,
                         b: Node<C, L>)
    requires LinesOf(n, x, rows) && m <= |n.lines| == |n.heights|
    requires LeafPart(a, n, 0, m, a.parent) && LeafPart(b, n, m, |n.lines|, b.parent) &&
      MovedTo(rows, rows', y, b.lines)
    ensures LinesOf(a, x, rows') && LinesOf(b, y, rows')
  {
    Halves(n.lines, m);
    forall i | 0 <= i < |a.lines| ensures a.lines[i] in rows' && rows'[a.lines[i]] == Row(a.heights[i], Some(x)) {
      assert a.lines[i] == n.lines[i] && a.lines[i] in a.lines;
    }
    LastLines(n, x, rows, y, rows', m, b);
  }

  lemma LastLines<C, L>(n: Node<C, L>, x: C, rows: map<L, Row<C>>, y: C, rows': map<L, Row<C>>, m: nat, b: Node<C, L>)
    requires LinesOf(n, x, rows) && m <= |n.lines| == |n.heights|
    requires LeafPart(b, n, m, |n.lines|, b.parent) && MovedTo(rows, rows', y, b.lines)
    ensures LinesOf(b, y, rows')
  {
    forall i | 0 <= i < |b.lines| ensures b.lines[i] in rows' && rows'[b.lines[i]] == Row(b.heights[i], Some(y)) {
      assert b.lines[i] == n.lines[m + i] && b.heights[i] == n.heights[m + i];
    }
  }

  lemma LeafSpillHalves<C, L>(k: Store<C, L>, k': Store<C, L>, root: C, p: C, i: nat, x: C, y: C, m: nat)
    requires LeafSpill(k, k', root, p, i, x, y, m)
    ensures At(k', root, Nothing, {}, {p, x}, x) && At(k', root, Nothing, {}, {p, x}, y)
  {
    ChildFacts(k, root, {p, x}, p, i, x);
    var a, b := k'.chunks[x], k'.chunks[y];
    SplitLines(k.chunks[x], x, k.lines, y, k'.lines, m, a, b);
    GainMembers(k.chunks[p], i, y, a.lines, b.lines, a.height, b.height);
  }

  lemma LinesHome<C, L>(n: Node<C, L>, x: C, rows: map<L, Row<C>>)
    requires LinesOf(n, x, rows)
    ensures forall l :: l in n.lines ==> l in rows && rows[l].parent == Some(x)
  {
  }

  lemma LeafSpillOther<C, L>(k: Store<C, L>, k': Store<C, L>, root: C, p: C, i: nat, x: C, y: C, m: nat, c: C)
    requires LeafSpill(k, k', root, p, i, x, y, m) && c in k.chunks && c != p && c != x
    ensures At(k', root, Nothing, {}, {p, x}, c)
  {
    ChildFacts(k, root, {p, x}, p, i, x);
    assert At(k, root, Nothing, {}, {p, x}, c);
    LinesHome(k.chunks[x], x, k.lines);
    if k.chunks[c].leaf {
      LinesHome(k.chunks[c], c, k.lines);
    }
    GainMembers(k.chunks[p], i, y, k'.chunks[x].lines, k'.chunks[y].lines, k'.chunks[x].height, k'.chunks[y].height);
    assert Linked(k', c);
    UntouchedAt(k, k', root, Nothing, {}, {p, x}, {}, {p, x}, c);
  }

  lemma LeafSpillBranch<C, L>(k: Store<C, L>, k': Store<C, L>, root: C, p: C, i: nat, x: C, y: C, m: nat)
    requires LeafSpill(k, k', root, p, i, x, y, m)
    ensures At(k', root, Nothing, {}, {p, x}, p)
  {
    var n, a, b := k.chunks[x], k'.chunks[x], k'.chunks[y];
    ChildFacts(k, root, {p, x}, p, i, x);
    assert n.lines == a.lines + b.lines;
    SumHalves(n.heights, m);
    GainedAt(k, k', root, {p, x}, p, i, x, y, a.lines, b.lines, a.height, b.height);
  }

  lemma LeafSpillLine<C, L>(k: Store<C, L>, k': Store<C, L>, root: C, p: C, i: nat, x: C, y: C, m: nat, l: L)
    requires LeafSpill(k, k', root, p, i, x, y, m) && l in k'.lines
    ensures HasLeaf(k', l)
  {
    ChildFacts(k, root, {p, x}, p, i, x);
    assert k.chunks[x].lines == k'.chunks[x].lines + k'.chunks[y].lines;
    assert HasLeaf(k, l);
  }

  lemma LeafSpilled<C, L>(k: Store<C, L>, k': Store<C, L>, root: C, p: C, i: nat, x: C, y: C, m: nat)
    requires LeafSpill(k, k', root, p, i, x, y, m)
    ensures Inv(k', root, Nothing, {}, {p, x})
  {
    forall l | l in k'.lines ensures HasLeaf(k', l) { LeafSpillLine(k, k', root, p, i, x, y, m, l); }
    forall c | c in k'.chunks ensures At(k', root, Nothing, {}, {p, x}, c) {
      if c == p {
        LeafSpillBranch(k, k', root, p, i, x, y, m);
      } else if c == x || c == y {
        LeafSpillHalves(k, k', root, p, i, x, y, m);
      } else {
        LeafSpillOther(k, k', root, p, i, x, y, m, c);
      }
    }
  }

  // ----- BranchChunk.maybeSpill -----

  /** `m` is a branch with the children `lo..hi` of `n`. */
  ghost predicate BranchPart<C, L>(m: Node<C, L>, n: Node<C, L>, lo: nat, hi: nat, parent: Option<C>)
    requires lo <= hi <= |n.children| == |n.parts| == |n.heights|
  {
    true == (
    !m.leaf && m.lines == [] && m.children == n.children[lo..hi] && m.parts == n.parts[lo..hi] &&
    m.heights == n.heights[lo..hi] &&
    m.contents == Flat(m.parts) && m.size == |m.contents| && m.height == Sum(m.heights) && m.parent == parent &&
    m.rank == n.rank
    )
  }

  lemma BranchPartAt<C, L>(k: Store<C, L>, k': Store<C, L>, root: C, over: set<C>, x: C, z: C, lo: nat, hi: nat,
                           over': set<C>)
    requires root in k.chunks && root in k'.chunks && x in k.chunks && !k.chunks[x].leaf &&
      At(k, root, Nothing, {}, over, x)
    requires lo < hi <= |k.chunks[x].children| == |k.chunks[x].parts| == |k.chunks[x].heights|
    requires z in k'.chunks && k'.chunks[z].parent.Some? &&
      BranchPart(k'.chunks[z], k.chunks[x], lo, hi, k'.chunks[z].parent)
    requires Linked(k', z) && k.chunks[x].rank <= k'.chunks[root].rank
    requires forall d :: d in k'.chunks[z].children ==>
      d in k.chunks && d in k'.chunks && k'.chunks[d] == k.chunks[d].(parent := Some(z))
    requires z !in over' ==> hi - lo <= 10
    ensures At(k', root, Nothing, {}, over', z)
  {
    var n, m := k.chunks[x], k'.chunks[z];
    forall i, j | 0 <= i < j < |m.children| ensures m.children[i] != m.children[j] {
      assert n.children[lo + i] != n.children[lo + j];
    }
    forall j | 0 <= j < |m.children|
      ensures m.children[j] in k'.chunks
      ensures var d := k'.chunks[m.children[j]];
              d.parent == Some(z) && d.rank < m.rank && m.parts[j] == d.contents && m.heights[j] == d.height
    {
      assert m.children[j] == n.children[lo + j] && m.children[j] in m.children;
    }
  }

  /** The chunks `cs` now have parent `y`. */
  ghost predicate Reparented<C, L>(m: map<C, Node<C, L>>, m': map<C, Node<C, L>>, cs: seq<C>, y: C)
  {
    true == (m'.Keys == m.Keys &&
      forall c :: c in m ==> m'[c] == if c in cs then m[c].(parent := Some(y)) else m[c])
  }

  /** The cached values of branch `c` and of its children agree. */
  ghost predicate SplittableIn<C, L>(m: map<C, Node<C, L>>, c: C) {
    true == (c in m &&
      var n := m[c];
      !n.leaf && n.lines == [] && |n.parts| == |n.heights| == |n.children| && NoDup(n.children) && c !in n.children &&
      n.contents == Flat(n.parts) && n.size == |n.contents| && n.height == Sum(n.heights) &&
      forall i :: 0 <= i < |n.children| ==>
        n.children[i] in m && n.heights[i] == m[n.children[i]].height &&
        |n.parts[i]| == if m[n.children[i]].leaf then |m[n.children[i]].lines| else m[n.children[i]].size)
  }

  lemma StillSplittable<C, L>(m: map<C, Node<C, L>>, m': map<C, Node<C, L>>, cs: seq<C>, y: C, c: C)
    requires Reparented(m, m', cs, y) && SplittableIn(m, c)
    ensures SplittableIn(m', c)
  {
  }

  /** A new, unattached branch with the children `lo..hi` of `n`. */
  function NewBranch<C, L>(n: Node<C, L>, lo: nat, hi: nat): Node<C, L>
    requires lo <= hi <= |n.children| == |n.parts| == |n.heights|
  {
    var c := Flat(n.parts[lo..hi]);
    Node(false, [], n.children[lo..hi], |c|, Sum(n.heights[lo..hi]), None, c, n.parts[lo..hi], n.heights[lo..hi],
    n.rank)
  }

  /** What is left of branch `n` when `y` has got the children from `m` on. */
  lemma HeadIs<C, L>(n: Node<C, L>, y: Node<C, L>, m: nat, r: Node<C, L>)
    requires !n.leaf && n.lines == [] && m <= |n.children| == |n.parts| == |n.heights|
    requires n.size == |Flat(n.parts)| && n.height == Sum(n.heights)
    requires y.size == |Flat(n.parts[m..|n.parts|])| && y.height == Sum(n.heights[m..|n.heights|])
    requires r.leaf == n.leaf && r.lines == n.lines && r.rank == n.rank && r.children == n.children[0..m]
    requires r.parts == n.parts[0..m] && r.heights == n.heights[0..m] && r.contents == Flat(r.parts)
    requires r.size == n.size - y.size && r.height == n.height - y.height
    ensures r == NewBranch(n, 0, m).(parent := r.parent)
  {
    FlatHalves(n.parts, m);
    SumHalves(n.heights, m);
  }

  /** The children from `m` on move from branch `x`, child `i` of `p`, to a new branch `y` after it. */
  ghost predicate BranchSpill<C, L>(k: Store<C, L>, k': Store<C, L>, root: C, p: C, i: nat, x: C, y: C, m: nat)
  {
    true == (
    SpillSite(k, root, p, i, x) && y !in k.chunks && !k.chunks[x].leaf &&
    0 < m < |k.chunks[x].children| && |k.chunks[x].children| - m <= 10 &&
    k'.chunks.Keys == k.chunks.Keys + {y} && k'.lines == k.lines &&
    BranchPart(k'.chunks[x], k.chunks[x], 0, m, Some(p)) &&
    BranchPart(k'.chunks[y], k.chunks[x], m, |k.chunks[x].children|, Some(p)) &&
    k'.chunks[p] == Gain(k.chunks[p], i, y, k'.chunks[x].contents, k'.chunks[y].contents, k'.chunks[x].height,
    k'.chunks[y].height) &&
    forall c :: c in k.chunks && c != p && c != x ==>
      k'.chunks[c] == if c in k'.chunks[y].children then k.chunks[c].(parent := Some(y)) else k.chunks[c]
    )
  }

  /**
   The steps in which a branch is spilled: the new branch takes over children, the old one shrinks, the parent records
   both.
   */
  ghost predicate BranchDivided<C, L>(m0: map<C, Node<C, L>>, m1: map<C, Node<C, L>>, m2: map<C, Node<C, L>>,
                                      m3: map<C, Node<C, L>>, p: C, i: nat, x: C, y: C, b: Node<C, L>, m: nat)
  {
    true == (
    p in m0 && x in m0 && p != x && y !in m0 && i < |m0[p].children| == |m0[p].parts| == |m0[p].heights| &&
    m <= |m0[x].children| == |m0[x].parts| == |m0[x].heights| &&
    b == NewBranch(m0[x], m, |m0[x].children|).(parent := Some(p)) &&
    Reparented(m0, m1, b.children, y) && OnlyChanged(m1, m2, x) && OnlyChanged(m2, m3, p) &&
    m2[x] == NewBranch(m0[x], 0, m).(parent := Some(p)) &&
    |m2[p].children| == |m2[p].parts| == |m2[p].heights| == |m0[p].children| &&
    m3[p] == Gain(m2[p], i, y, m2[x].contents, b.contents, m2[x].height, b.height)
    )
  }

  lemma BranchSpillSteps<C, L>(k: Store<C, L>, k': Store<C, L>, m1: map<C, Node<C, L>>, m2: map<C, Node<C, L>>,
                               m3: map<C, Node<C, L>>, root: C, p: C, i: nat, x: C, y: C, m: nat)
    requires SpillSite(k, root, p, i, x) && !k.chunks[x].leaf
    requires 0 < m < |k.chunks[x].children| && |k.chunks[x].children| - m <= 10
    requires k'.lines == k.lines && y in k'.chunks && k'.chunks == m3[y := k'.chunks[y]]
    requires BranchDivided(k.chunks, m1, m2, m3, p, i, x, y, k'.chunks[y], m)
    ensures BranchSpill(k, k', root, p, i, x, y, m)
  {
    assert At(k, root, Nothing, {}, {p, x}, p);
    assert At(k, root, Nothing, {}, {p, x}, x);
  }

  lemma BranchSpillFacts<C, L>(k: Store<C, L>, k': Store<C, L>, root: C, p: C, i: nat, x: C, y: C, m: nat)
    requires BranchSpill(k, k', root, p, i, x, y, m)
    ensures At(k, root, Nothing, {}, {p, x}, p) && At(k, root, Nothing, {}, {p, x}, x)
    ensures k.chunks[x].parent == Some(p) && k.chunks[x].rank < k.chunks[p].rank && p != x && p !in k.chunks[x].children
    ensures forall d :: d in k.chunks[p].children || d == y ==> d in k'.chunks[p].children
    ensures forall d :: d in k.chunks[x].children ==> d in k.chunks && k.chunks[d].parent == Some(x)
    ensures forall d :: d in k.chunks[x].children <==> d in k'.chunks[x].children || d in k'.chunks[y].children
    ensures forall d :: d in k'.chunks[x].children ==> d !in k'.chunks[y].children
  {
    ChildFacts(k, root, {p, x}, p, i, x);
    var n, a, b := k.chunks[x], k'.chunks[x], k'.chunks[y];
    Halves(n.children, m);
    GainMembers(k.chunks[p], i, y, a.contents, b.contents, a.height, b.height);
  }

  lemma BranchSpillOther<C, L>(k: Store<C, L>, k': Store<C, L>, root: C, p: C, i: nat, x: C, y: C, m: nat, c: C)
    requires BranchSpill(k, k', root, p, i, x, y, m) && c in k.chunks && c != p && c != x
    ensures At(k', root, Nothing, {}, {p, x}, c)
  {
    BranchSpillFacts(k, k', root, p, i, x, y, m);
    assert At(k, root, Nothing, {}, {p, x}, c);
    assert Linked(k', c);
    UntouchedAt(k, k', root, Nothing, {}, {p, x}, {}, {p, x}, c);
  }

  lemma BranchSpillHalves<C, L>(k: Store<C, L>, k': Store<C, L>, root: C, p: C, i: nat, x: C, y: C, m: nat)
    requires BranchSpill(k, k', root, p, i, x, y, m)
    ensures At(k', root, Nothing, {}, {p, x}, x) && At(k', root, Nothing, {}, {p, x}, y)
  {
    BranchSpillFacts(k, k', root, p, i, x, y, m);
    assert k.chunks[p].children[i] in k.chunks[p].children;
    BranchPartAt(k, k', root, {p, x}, x, x, 0, m, {p, x});
    BranchPartAt(k, k', root, {p, x}, x, y, m, |k.chunks[x].children|, {p, x});
  }

  lemma BranchSpillParent<C, L>(k: Store<C, L>, k': Store<C, L>, root: C, p: C, i: nat, x: C, y: C, m: nat)
    requires BranchSpill(k, k', root, p, i, x, y, m)
    ensures At(k', root, Nothing, {}, {p, x}, p)
  {
    BranchSpillFacts(k, k', root, p, i, x, y, m);
    ChildFacts(k, root, {p, x}, p, i, x);
    FlatHalves(k.chunks[x].parts, m);
    SumHalves(k.chunks[x].heights, m);
    GainedAt(k, k', root, {p, x}, p, i, x, y, k'.chunks[x].contents, k'.chunks[y].contents, k'.chunks[x].height,
      k'.chunks[y].height);
  }

  lemma BranchSpilled<C, L>(k: Store<C, L>, k': Store<C, L>, root: C, p: C, i: nat, x: C, y: C, m: nat)
    requires BranchSpill(k, k', root, p, i, x, y, m)
    ensures Inv(k', root, Nothing, {}, {p, x})
  {
    BranchSpillFacts(k, k', root, p, i, x, y, m);
    forall l | l in k'.lines ensures HasLeaf(k', l) {
      assert HasLeaf(k, l);
    }
    forall c | c in k'.chunks ensures At(k', root, Nothing, {}, {p, x}, c) {
      if c == p {
        BranchSpillParent(k, k', root, p, i, x, y, m);
      } else if c == x || c == y {
        BranchSpillHalves(k, k', root, p, i, x, y, m);
      } else {
        BranchSpillOther(k, k', root, p, i, x, y, m, c);
      }
    }
  }

  /** The steps in which the root is split: new branches take over all children, the root records both. */
  /** `x` is cut, the rest goes to `y`, and `p` learns of it. */
  lemma DividedIs<C, L>(m0: map<C, Node<C, L>>, m1: map<C, Node<C, L>>, m2: map<C, Node<C, L>>, m3: map<C, Node<C, L>>,
                        p: C, i: nat, x: C, y: C, b0: Node<C, L>, b: Node<C, L>, m: nat)
    requires p in m0 && x in m0 && p != x && y !in m0 && i < |m0[p].children| == |m0[p].parts| == |m0[p].heights|
    requires m <= |m0[x].children| == |m0[x].parts| == |m0[x].heights| && m0[x].parent == Some(p)
    requires b0 == NewBranch(m0[x], m, |m0[x].children|) && b == b0.(parent := Some(p), rank := m0[x].rank)
    requires Reparented(m0, m1, b0.children, y) && OnlyChanged(m1, m2, x) && OnlyChanged(m2, m3, p)
    requires m2[x] == NewBranch(m0[x], 0, m).(parent := m0[x].parent)
    requires |m2[p].children| == |m2[p].parts| == |m2[p].heights|
    requires m3[p] == Gain(m2[p], i, y, m2[x].contents, b0.contents, m2[x].height, b0.height)
    ensures BranchDivided(m0, m1, m2, m3, p, i, x, y, b, m)
  {
  }

  ghost predicate RootDivided<C, L>(m0: map<C, Node<C, L>>, m1: map<C, Node<C, L>>, m2: map<C, Node<C, L>>,
                                    m3: map<C, Node<C, L>>, root: C, x: C, y: C, a: Node<C, L>, b: Node<C, L>, m: nat)
  {
    true == (
    root in m0 && x != y && x !in m0 && y !in m0 &&
    m <= |m0[root].children| == |m0[root].parts| == |m0[root].heights| &&
    a == NewBranch(m0[root], 0, m).(parent := Some(root)) &&
    b == NewBranch(m0[root], m, |m0[root].children|).(parent := Some(root)) &&
    Reparented(m0, m1, b.children, y) && Reparented(m1, m2, a.children, x) && OnlyChanged(m2, m3, root) &&
    m3[root] == m2[root].(children := [x, y], parts := [a.contents, b.contents], heights := [a.height, b.height],
                          rank := m2[root].rank + 1)
    )
  }

  /** The children of the root, from `m` on, have gone to `y` with the record `b`, the others to `x` with `a`. */
  ghost predicate Halved<C, L>(m0: map<C, Node<C, L>>, m1: map<C, Node<C, L>>, m2: map<C, Node<C, L>>, root: C, x: C,
                               y: C, a: Node<C, L>, b: Node<C, L>, m: nat) {
    true == (root in m0 && x != y && x !in m0 && y !in m0 &&
      m <= |m0[root].children| == |m0[root].parts| == |m0[root].heights| &&
      a == NewBranch(m0[root], 0, m) && b == NewBranch(m0[root], m, |m0[root].children|) &&
      Reparented(m0, m1, b.children, y) && Reparented(m1, m2, a.children, x))
  }

  lemma RootDividedIs<C, L>(m0: map<C, Node<C, L>>, m1: map<C, Node<C, L>>, m2: map<C, Node<C, L>>,
                            m3: map<C, Node<C, L>>, root: C, x: C, y: C, a0: Node<C, L>, b0: Node<C, L>, a: Node<C, L>,
                            b: Node<C, L>, m: nat)
    requires Halved(m0, m1, m2, root, x, y, a0, b0, m) && OnlyChanged(m2, m3, root)
    requires a == a0.(parent := Some(root)) && b == b0.(parent := Some(root)) && root in m2 && root in m3
    requires m3[root] == m2[root].(children := [x, y], parts := [a0.contents, b0.contents],
      heights := [a0.height, b0.height], rank := m2[root].rank + 1)
    ensures RootDivided(m0, m1, m2, m3, root, x, y, a, b, m)
  {
  }

  lemma RootSpillSteps<C, L>(k: Store<C, L>, k': Store<C, L>, m1: map<C, Node<C, L>>, m2: map<C, Node<C, L>>,
                             m3: map<C, Node<C, L>>, root: C, x: C, y: C, m: nat)
    requires Inv(k, root, Nothing, {}, {root}) && 0 < m < |k.chunks[root].children| &&
      |k.chunks[root].children| - m <= 10
    requires k'.lines == k.lines && x in k'.chunks && y in k'.chunks &&
      k'.chunks == m3[x := k'.chunks[x]][y := k'.chunks[y]]
    requires RootDivided(k.chunks, m1, m2, m3, root, x, y, k'.chunks[x], k'.chunks[y], m)
    ensures RootSpill(k, k', root, x, y, m)
  {
    var n, a, b := k.chunks[root], k'.chunks[x], k'.chunks[y];
    HalvesApart(k, root, m);
    forall c | c in k.chunks
      ensures m2[c] == (if c in b.children then k.chunks[c].(parent := Some(y))
                        else if c in a.children then k.chunks[c].(parent := Some(x))
                        else k.chunks[c]) && (c != root ==> k'.chunks[c] == m2[c])
    {
      DividedOther(k.chunks, m1, m2, m3, root, x, y, a, b, m, c);
    }
    HalvesAreParts(n, m, a, b, root);
    assert m2[root] == n;
    assert k'.chunks[root] == m3[root];
  }

  lemma HalvesApart<C, L>(k: Store<C, L>, root: C, m: nat)
    requires Inv(k, root, Nothing, {}, {root}) && m <= |k.chunks[root].children|
    ensures var cs := k.chunks[root].children;
            root !in cs && (forall c :: c in cs[0..m] ==> c !in cs[m..|cs|]) &&
            |k.chunks[root].parts| == |k.chunks[root].heights| == |cs|
  {
    assert At(k, root, Nothing, {}, {root}, root);
    Halves(k.chunks[root].children, m);
  }

  /** A chunk after the children of the root have been given to `x` and `y`, before the root itself changes. */
  lemma DividedOther<C, L>(m0: map<C, Node<C, L>>, m1: map<C, Node<C, L>>, m2: map<C, Node<C, L>>,
                           m3: map<C, Node<C, L>>, root: C, x: C, y: C, a: Node<C, L>, b: Node<C, L>, m: nat, c: C)
    requires RootDivided(m0, m1, m2, m3, root, x, y, a, b, m) && c in m0
    requires c in a.children ==> c !in b.children
    ensures c in m2 && c in m3 && (c != root ==> m3[c] == m2[c])
    ensures m2[c] ==
      if c in b.children then m0[c].(parent := Some(y))
      else if c in a.children then m0[c].(parent := Some(x))
      else m0[c]
  {
    assert m1[c] == if c in b.children then m0[c].(parent := Some(y)) else m0[c];
  }

  lemma HalvesAreParts<C, L>(n: Node<C, L>, m: nat, a: Node<C, L>, b: Node<C, L>, root: C)
    requires m <= |n.children| == |n.parts| == |n.heights|
    requires a == NewBranch(n, 0, m).(parent := Some(root)) && b == NewBranch(n, m, |n.children|).(parent := Some(root))
    ensures BranchPart(a, n, 0, m, Some(root)) && BranchPart(b, n, m, |n.children|, Some(root))
  {
  }

  /** The root gets two new children `x` and `y`, which share its old ones. */
  ghost predicate RootSpill<C, L>(k: Store<C, L>, k': Store<C, L>, root: C, x: C, y: C, m: nat)
  {
    true == (
    Inv(k, root, Nothing, {}, {root}) && x != y && x !in k.chunks && y !in k.chunks &&
    0 < m < |k.chunks[root].children| == |k.chunks[root].parts| == |k.chunks[root].heights| &&
    |k.chunks[root].children| - m <= 10 &&
    k'.chunks.Keys == k.chunks.Keys + {x, y} && k'.lines == k.lines &&
    BranchPart(k'.chunks[x], k.chunks[root], 0, m, Some(root)) &&
    BranchPart(k'.chunks[y], k.chunks[root], m, |k.chunks[root].children|, Some(root)) &&
    var a, b := k'.chunks[x], k'.chunks[y];
    k'.chunks[root] == k.chunks[root].(children := [x, y], parts := [a.contents, b.contents],
                                       heights := [a.height, b.height], rank := k.chunks[root].rank + 1) &&
    forall c :: c in k.chunks && c != root ==>
      k'.chunks[c] ==
        if c in b.children then k.chunks[c].(parent := Some(y))
        else if c in a.children then k.chunks[c].(parent := Some(x))
        else k.chunks[c]
    )
  }

  lemma RootSpillFacts<C, L>(k: Store<C, L>, k': Store<C, L>, root: C, x: C, y: C, m: nat)
    requires RootSpill(k, k', root, x, y, m)
    ensures At(k, root, Nothing, {}, {root}, root) && root !in k.chunks[root].children
    ensures x in k'.chunks[root].children && y in k'.chunks[root].children
    ensures forall d :: d in k.chunks[root].children ==> d in k.chunks && k.chunks[d].parent == Some(root)
    ensures forall d :: d in k.chunks[root].children <==> d in k'.chunks[x].children || d in k'.chunks[y].children
    ensures forall d :: d in k'.chunks[x].children ==> d !in k'.chunks[y].children
  {
    assert At(k, root, Nothing, {}, {root}, root);
    Halves(k.chunks[root].children, m);
    assert k'.chunks[root].children[0] == x && k'.chunks[root].children[1] == y;
  }

  lemma RootSpillHalves<C, L>(k: Store<C, L>, k': Store<C, L>, root: C, x: C, y: C, m: nat)
    requires RootSpill(k, k', root, x, y, m)
    ensures At(k', root, Nothing, {}, {x}, x) && At(k', root, Nothing, {}, {x}, y)
  {
    RootSpillFacts(k, k', root, x, y, m);
    BranchPartAt(k, k', root, {root}, root, x, 0, m, {x});
    BranchPartAt(k, k', root, {root}, root, y, m, |k.chunks[root].children|, {x});
  }

  lemma RootSpillTop<C, L>(k: Store<C, L>, k': Store<C, L>, root: C, x: C, y: C, m: nat)
    requires RootSpill(k, k', root, x, y, m)
    ensures At(k', root, Nothing, {}, {x}, root)
  {
    RootSpillFacts(k, k', root, x, y, m);
    FlatHalves(k.chunks[root].parts, m);
    SumHalves(k.chunks[root].heights, m);
    FlatPair(k'.chunks[x].contents, k'.chunks[y].contents);
    SumPair(k'.chunks[x].height, k'.chunks[y].height);
  }

  lemma RootSpillOther<C, L>(k: Store<C, L>, k': Store<C, L>, root: C, x: C, y: C, m: nat, c: C)
    requires RootSpill(k, k', root, x, y, m) && c in k.chunks && c != root
    ensures At(k', root, Nothing, {}, {x}, c)
  {
    RootSpillFacts(k, k', root, x, y, m);
    assert At(k, root, Nothing, {}, {root}, c);
    assert Linked(k', c);
    UntouchedAt(k, k', root, Nothing, {}, {root}, {}, {x}, c);
  }

  lemma RootSpilled<C, L>(k: Store<C, L>, k': Store<C, L>, root: C, x: C, y: C, m: nat)
    requires RootSpill(k, k', root, x, y, m)
    ensures Inv(k', root, Nothing, {}, {x})
  {
    RootSpillFacts(k, k', root, x, y, m);
    forall l | l in k'.lines ensures HasLeaf(k', l) {
      assert HasLeaf(k, l);
    }
    forall c | c in k'.chunks ensures At(k', root, Nothing, {}, {x}, c) {
      if c == root {
        RootSpillTop(k, k', root, x, y, m);
      } else if c == x || c == y {
        RootSpillHalves(k, k', root, x, y, m);
      } else {
        RootSpillOther(k, k', root, x, y, m, c);
      }
    }
  }
}
