/** The steps of removing lines from the chunk tree, on values of the tree. */
module ChunkRemoval {
  import opened Sequences
  import opened ChunkStore

  /** `x` may be out of step with its ancestors `B`, and only with those. */
  ghost predicate Below<C, L>(k: Store<C, L>, root: C, B: set<C>, x: C)
  {
    true == (
    x in k.chunks && x !in B && (k.chunks[x].parent.Some? ==> k.chunks[x].parent.value in B) &&
    forall b :: b in B ==> b in k.chunks && !k.chunks[b].leaf && k.chunks[b].rank > k.chunks[x].rank
    )
  }

  /** Chunks of `B` and children of such chunks, except `x`, are as before. */
  ghost predicate Keeps<C, L>(m: map<C, Node<C, L>>, m': map<C, Node<C, L>>, B: set<C>, x: C)
  {
    true == (
    forall c :: c in m && c != x && (c in B || (m[c].parent.Some? && m[c].parent.value in B)) ==>
    c in m' && m'[c] == m[c]
    )
  }

  lemma KeepsTwice<C, L>(m0: map<C, Node<C, L>>, m1: map<C, Node<C, L>>, m2: map<C, Node<C, L>>, B: set<C>, x: C)
    requires Keeps(m0, m1, B, x) && Keeps(m1, m2, B, x)
    ensures Keeps(m0, m2, B, x)
  {
  }

  /** What a call on child `d` of `x` leaves alone, seen from `x`. */
  lemma KeepsAbove<C, L>(m: map<C, Node<C, L>>, m': map<C, Node<C, L>>, B: set<C>, x: C, d: C)
    requires Keeps(m, m', B + {x}, d) && d in m && m[d].parent == Some(x) && d !in B && x !in B
    ensures Keeps(m, m', B, x)
  {
  }

  lemma Busier<C, L>(k: Store<C, L>, root: C, B: set<C>, x: C)
    requires Inv(k, root, Nothing, B, {})
    ensures Inv(k, root, Nothing, B + {x}, {})
  {
    forall c | c in k.chunks ensures At(k, root, Nothing, B + {x}, {}, c) {
      assert At(k, root, Nothing, B, {}, c);
    }
  }

  // ----- a busy chunk changes its totals and its records -----

  ghost predicate BusyChange<C, L>(k: Store<C, L>, k': Store<C, L>, root: C, B: set<C>, x: C)
  {
    true == (
    Inv(k, root, Nothing, B + {x}, {}) && Below(k, root, B, x) && OnlyChanged(k.chunks, k'.chunks, x) &&
    k'.lines == k.lines &&
    var n, m := k.chunks[x], k'.chunks[x];
    !n.leaf && m == n.(size := m.size, height := m.height, contents := m.contents, parts := m.parts,
    heights := m.heights) &&
    |m.parts| == |m.heights| == |m.children|
    )
  }

  lemma BusyChangeAt<C, L>(k: Store<C, L>, k': Store<C, L>, root: C, B: set<C>, x: C, c: C)
    requires BusyChange(k, k', root, B, x) && c in k.chunks
    ensures At(k', root, Nothing, B + {x}, {}, c)
  {
    assert At(k, root, Nothing, B + {x}, {}, x);
    assert At(k, root, Nothing, B + {x}, {}, c);
  }

  lemma BusyChanged<C, L>(k: Store<C, L>, k': Store<C, L>, root: C, B: set<C>, x: C)
    requires BusyChange(k, k', root, B, x)
    ensures Inv(k', root, Nothing, B + {x}, {}) && Below(k', root, B, x) && Keeps(k.chunks, k'.chunks, B, x)
  {
    forall l | l in k'.lines ensures HasLeaf(k', l) {
      assert HasLeaf(k, l);
    }
    forall c | c in k'.chunks ensures At(k', root, Nothing, B + {x}, {}, c) {
      BusyChangeAt(k, k', root, B, x, c);
    }
  }

  /** The records that branch `x` keeps of its children are right. */
  ghost predicate Recorded<C, L>(k: Store<C, L>, x: C)
  {
    true == (
    x in k.chunks && Cached(k, x, Nothing) && k.chunks[x].height == Sum(k.chunks[x].heights) &&
    k.chunks[x].contents == if k.chunks[x].leaf then k.chunks[x].lines else Flat(k.chunks[x].parts)
    )
  }

  lemma RecordedFound<C, L>(k: Store<C, L>, root: C, B: set<C>, x: C)
    requires Inv(k, root, Nothing, B, {}) && Below(k, root, B, x)
    ensures Recorded(k, x) && (!k.chunks[x].leaf ==> k.chunks[x].size == |k.chunks[x].contents|)
    ensures !k.chunks[x].leaf ==> |k.chunks[x].parts| == |k.chunks[x].heights| == |k.chunks[x].children|
  {
    assert At(k, root, Nothing, B, {}, x);
  }

  lemma SizeChanged<C, L>(k: Store<C, L>, k': Store<C, L>, root: C, B: set<C>, x: C)
    requires Inv(k, root, Nothing, B + {x}, {}) && Below(k, root, B, x) && Recorded(k, x) && !k.chunks[x].leaf
    requires OnlyChanged(k.chunks, k'.chunks, x) && k'.lines == k.lines &&
      k'.chunks[x] == k.chunks[x].(size := k'.chunks[x].size)
    ensures Inv(k', root, Nothing, B + {x}, {}) && Below(k', root, B, x) && Recorded(k', x) &&
      Keeps(k.chunks, k'.chunks, B, x)
  {
    assert At(k, root, Nothing, B + {x}, {}, x);
    BusyChanged(k, k', root, B, x);
  }

  /** A chunk whose records and size are right need not be busy any more. */
  lemma Settled<C, L>(k: Store<C, L>, root: C, B: set<C>, x: C)
    requires Inv(k, root, Nothing, B + {x}, {}) && Recorded(k, x) && !k.chunks[x].leaf
    requires k.chunks[x].size == |k.chunks[x].contents| && |k.chunks[x].children| >= 1
    ensures Inv(k, root, Nothing, B, {})
  {
    forall c | c in k.chunks ensures At(k, root, Nothing, B, {}, c) {
      assert At(k, root, Nothing, B + {x}, {}, c);
    }
  }

  // ----- LeafChunk.remove -----

  ghost predicate LeafRemove<C, L>(k: Store<C, L>, k': Store<C, L>, root: C, B: set<C>, x: C, at: nat, n: nat)
  {
    true == (
    Inv(k, root, Nothing, B, {}) && Below(k, root, B, x) && k.chunks[x].leaf && OnlyChanged(k.chunks, k'.chunks, x) &&
    var a := k.chunks[x];
    at + n <= |a.lines| == |a.heights| &&
    k'.chunks[x] == a.(lines := Cut(a.lines, at, n), contents := Cut(a.lines, at, n), heights := Cut(a.heights, at, n),
                       height := a.height - Sum(a.heights[at..at + n])) &&
    k'.lines.Keys == k.lines.Keys - Elems(a.lines[at..at + n]) &&
    forall l :: l in k'.lines ==> k'.lines[l] == k.lines[l]
    )
  }

  lemma LeafBusyFacts<C, L>(k: Store<C, L>, root: C, B: set<C>, x: C)
    requires Inv(k, root, Nothing, B, {}) && Below(k, root, B, x) && k.chunks[x].leaf
    ensures var n := k.chunks[x];
            |n.heights| == |n.lines| && n.contents == n.lines &&
            forall i :: 0 <= i < |n.lines| ==> n.lines[i] in k.lines && k.lines[n.lines[i]].height == n.heights[i]
  {
    assert At(k, root, Nothing, B, {}, x);
  }

  lemma CutLines<C, L>(a: Node<C, L>, x: C, rows: map<L, Row<C>>, b: Node<C, L>, rows': map<L, Row<C>>, at: nat, n: nat)
    requires LinesOf(a, x, rows) && at + n <= |a.lines| == |a.heights|
    requires b.lines == Cut(a.lines, at, n) && b.heights == Cut(a.heights, at, n)
    requires rows'.Keys == rows.Keys - Elems(a.lines[at..at + n]) && forall l :: l in rows' ==> rows'[l] == rows[l]
    ensures LinesOf(b, x, rows') && Sum(b.heights) == Sum(a.heights) - Sum(a.heights[at..at + n])
    ensures forall l :: l in a.lines && l in rows' ==> l in b.lines
    ensures forall l :: l in a.lines[at..at + n] ==> l in rows && rows[l].parent == Some(x)
  {
    SumCut(a.heights, at, n);
    NoDupCut(a.lines, at, n);
    LinesHome(a, x, rows);
    forall i | 0 <= i < |b.lines| ensures b.lines[i] in rows' && rows'[b.lines[i]] == Row(b.heights[i], Some(x)) {
      var j := if i < at then i else i + n;
      assert b.lines[i] == a.lines[j] && b.heights[i] == a.heights[j] && b.lines[i] in b.lines;
    }
  }

  lemma LeafRemoveSelf<C, L>(k: Store<C, L>, k': Store<C, L>, root: C, B: set<C>, x: C, at: nat, n: nat)
    requires LeafRemove(k, k', root, B, x, at, n)
    ensures At(k', root, Nothing, B, {}, x)
    ensures forall l :: l in k.chunks[x].lines && l in k'.lines ==> l in k'.chunks[x].lines
    ensures forall l :: l in k.lines && l !in k'.lines ==> k.lines[l].parent == Some(x)
  {
    assert At(k, root, Nothing, B, {}, x);
    CutLines(k.chunks[x], x, k.lines, k'.chunks[x], k'.lines, at, n);
  }

  /** Leaf `x` has lost lines, which are gone from the document. */
  ghost predicate LeafShrink<C, L>(k: Store<C, L>, k': Store<C, L>, root: C, B: set<C>, x: C)
  {
    true == (
    Inv(k, root, Nothing, B, {}) && Below(k, root, B, x) && OnlyChanged(k.chunks, k'.chunks, x) && k.chunks[x].leaf &&
    k'.chunks[x].parent == k.chunks[x].parent && k'.chunks[x].rank == k.chunks[x].rank && k'.chunks[x].leaf &&
    (forall l :: l in k.lines && l !in k'.lines ==> k.lines[l].parent == Some(x)) &&
    (forall l :: l in k'.lines ==> l in k.lines && k'.lines[l] == k.lines[l]) &&
    forall l :: l in k.chunks[x].lines && l in k'.lines ==> l in k'.chunks[x].lines
    )
  }

  lemma LeafShrinkOther<C, L>(k: Store<C, L>, k': Store<C, L>, root: C, B: set<C>, x: C, c: C)
    requires LeafShrink(k, k', root, B, x) && c in k.chunks && c != x
    ensures At(k', root, Nothing, B, {}, c)
  {
    assert At(k, root, Nothing, B, {}, x);
    assert At(k, root, Nothing, B, {}, c);
    if k.chunks[c].leaf {
      LinesHome(k.chunks[c], c, k.lines);
    }
  }

  lemma LeafShrunk<C, L>(k: Store<C, L>, k': Store<C, L>, root: C, B: set<C>, x: C)
    requires LeafShrink(k, k', root, B, x) && At(k', root, Nothing, B, {}, x)
    ensures Inv(k', root, Nothing, B, {}) && Below(k', root, B, x) && Keeps(k.chunks, k'.chunks, B, x)
  {
    forall l | l in k'.lines ensures HasLeaf(k', l) {
      assert HasLeaf(k, l);
    }
    forall c | c in k'.chunks ensures At(k', root, Nothing, B, {}, c) {
      if c != x {
        LeafShrinkOther(k, k', root, B, x, c);
      }
    }
  }

  lemma LeafRemoved<C, L>(k: Store<C, L>, k': Store<C, L>, root: C, B: set<C>, x: C, at: nat, n: nat)
    requires LeafRemove(k, k', root, B, x, at, n)
    ensures Inv(k', root, Nothing, B, {}) && Below(k', root, B, x) && Keeps(k.chunks, k'.chunks, B, x)
  {
    LeafRemoveSelf(k, k', root, B, x, at, n);
    LeafShrunk(k, k', root, B, x);
  }

  // ----- an empty child is dropped -----

  /** `E` is child `i` of `x`, which is empty, and the one leaf below it if there is one. */
  ghost predicate ChildDrop<C, L>(k: Store<C, L>, k': Store<C, L>, root: C, B: set<C>, x: C, i: nat, E: set<C>)
  {
    true == (
    Inv(k, root, Nothing, B + {x}, {}) && Below(k, root, B, x) && x in k.chunks && !k.chunks[x].leaf &&
    var n := k.chunks[x];
    i < |n.children| == |n.parts| == |n.heights| && n.children[i] in k.chunks && n.children[i] in E &&
    n.children[i] !in B &&
    Recorded(k, x) && k.chunks[n.children[i]].contents == [] && k.chunks[n.children[i]].height == 0 &&
    DropSet(k, n.children[i], E) &&
    k'.chunks.Keys == k.chunks.Keys - E && k'.lines == k.lines && x in k'.chunks &&
    k'.chunks[x] == n.(children := Cut(n.children, i, 1), parts := Cut(n.parts, i, 1),
    heights := Cut(n.heights, i, 1)) &&
    forall c :: c in k'.chunks && c != x ==> k'.chunks[c] == k.chunks[c]
    )
  }

  ghost predicate DropSet<C, L>(k: Store<C, L>, d: C, E: set<C>)
    requires d in k.chunks
  {
    if k.chunks[d].leaf then E == {d}
    else |k.chunks[d].children| == 1 && k.chunks[d].children[0] in k.chunks && k.chunks[k.chunks[d].children[0]].leaf &&
         k.chunks[k.chunks[d].children[0]].lines == [] && E == {d, k.chunks[d].children[0]}
  }

  lemma DropReady<C, L>(k: Store<C, L>, root: C, B: set<C>, x: C, i: nat, d: C, E: set<C>)
    requires Inv(k, root, Nothing, B + {x}, {}) && Below(k, root, B, x) && Recorded(k, x) && !k.chunks[x].leaf
    requires i < |k.chunks[x].children| == |k.chunks[x].parts| && k.chunks[x].children[i] == d &&
      k.chunks[x].parts[i] == []
    requires d in k.chunks && (!k.chunks[d].leaf ==> |k.chunks[d].children| == 1 && k.chunks[d].children[0] in k.chunks)
    requires !k.chunks[d].leaf ==> k.chunks[k.chunks[d].children[0]].leaf
    requires E == if k.chunks[d].leaf then {d} else {d, k.chunks[d].children[0]}
    ensures k.chunks[d].contents == [] && k.chunks[d].height == 0 && DropSet(k, d, E) && d !in B && x !in E
  {
    RecordedChild(k, root, B, x, i);
    assert At(k, root, Nothing, B + {x}, {}, x);
    assert At(k, root, Nothing, B + {x}, {}, d);
    if !k.chunks[d].leaf {
      var y := k.chunks[d].children[0];
      assert At(k, root, Nothing, B + {x}, {}, y);
      FlatAround(k.chunks[d].parts, 0);
      SumAround(k.chunks[d].heights, 0);
      assert k.chunks[d].heights[..0] == [] && k.chunks[d].heights[1..] == [] && k.chunks[y].heights == [];
    }
  }

  lemma OthersKept<T>(s: seq<T>, i: nat, x: T)
    requires i < |s| && x in s && x != s[i]
    ensures x in Cut(s, i, 1)
  {
    var j :| 0 <= j < |s| && s[j] == x;
    assert Cut(s, i, 1)[if j < i then j else j - 1] == x;
  }

  lemma ChildDropFacts<C, L>(k: Store<C, L>, k': Store<C, L>, root: C, B: set<C>, x: C, i: nat, E: set<C>)
    requires ChildDrop(k, k', root, B, x, i, E)
    ensures var d := k.chunks[x].children[i];
            d != x && k.chunks[d].parent == Some(x) &&
            (forall c :: c in E && c != d ==> c in k.chunks && k.chunks[c].parent == Some(d)) &&
            (forall c :: c in E && c in k.chunks && k.chunks[c].leaf ==> k.chunks[c].lines == []) &&
            forall c :: c in k.chunks[x].children && c != d ==> c in k'.chunks[x].children
    ensures root !in E && x !in E
  {
    var n := k.chunks[x];
    var d := n.children[i];
    assert At(k, root, Nothing, B + {x}, {}, x);
    assert At(k, root, Nothing, B + {x}, {}, d);
    forall c | c in n.children && c != d ensures c in k'.chunks[x].children {
      OthersKept(n.children, i, c);
    }
  }

  lemma ChildDropSelf<C, L>(k: Store<C, L>, k': Store<C, L>, root: C, B: set<C>, x: C, i: nat, E: set<C>)
    requires ChildDrop(k, k', root, B, x, i, E)
    ensures root in k'.chunks && At(k', root, Nothing, B + {x}, {}, x)
  {
    var n := k.chunks[x];
    var d := n.children[i];
    ChildDropFacts(k, k', root, B, x, i, E);
    assert At(k, root, Nothing, B + {x}, {}, x);
    NoDupCut(n.children, i, 1);
    assert n.children[i..i + 1] == [d];
  }

  lemma ChildDropRecorded<C, L>(k: Store<C, L>, k': Store<C, L>, root: C, B: set<C>, x: C, i: nat, E: set<C>)
    requires ChildDrop(k, k', root, B, x, i, E)
    ensures Recorded(k', x)
  {
    var n, m := k.chunks[x], k'.chunks[x];
    assert At(k, root, Nothing, B + {x}, {}, x);
    ChildDropFacts(k, k', root, B, x, i, E);
    FlatDropEmpty(n.parts, i);
    SumCut(n.heights, i, 1);
    assert n.heights[i..i + 1] == [0];
    forall j | 0 <= j < |m.children|
      ensures m.children[j] in k'.chunks && m.parts[j] == k'.chunks[m.children[j]].contents &&
        m.heights[j] == k'.chunks[m.children[j]].height
    {
      ChildDropAt(k, k', root, B, x, i, E, j);
    }
  }

  lemma ChildDropAt<C, L>(k: Store<C, L>, k': Store<C, L>, root: C, B: set<C>, x: C, i: nat, E: set<C>, j: nat)
    requires ChildDrop(k, k', root, B, x, i, E) && j < |k'.chunks[x].children|
    ensures var m := k'.chunks[x];
            j < |m.parts| && j < |m.heights| && m.children[j] in k'.chunks &&
            m.parts[j] == k'.chunks[m.children[j]].contents && m.heights[j] == k'.chunks[m.children[j]].height
  {
    var n, m := k.chunks[x], k'.chunks[x];
    assert At(k, root, Nothing, B + {x}, {}, x);
    ChildDropFacts(k, k', root, B, x, i, E);
    var j' := if j < i then j else j + 1;
    assert m.children[j] == n.children[j'] && n.children[j'] != n.children[i];
    assert m.children[j] !in E;
  }

  lemma ChildDropOther<C, L>(k: Store<C, L>, k': Store<C, L>, root: C, B: set<C>, x: C, i: nat, E: set<C>, c: C)
    requires ChildDrop(k, k', root, B, x, i, E) && c in k'.chunks && c != x && root in k'.chunks
    ensures At(k', root, Nothing, B + {x}, {}, c)
  {
    ChildDropFacts(k, k', root, B, x, i, E);
    assert At(k, root, Nothing, B + {x}, {}, c);
    assert Linked(k', c);
    UntouchedAt(k, k', root, Nothing, B + {x}, {}, B + {x}, {}, c);
  }

  lemma ChildDropped<C, L>(k: Store<C, L>, k': Store<C, L>, root: C, B: set<C>, x: C, i: nat, E: set<C>)
    requires ChildDrop(k, k', root, B, x, i, E)
    ensures Inv(k', root, Nothing, B + {x}, {}) && Below(k', root, B, x) && Keeps(k.chunks, k'.chunks, B, x)
    ensures Recorded(k', x)
  {
    ChildDropFacts(k, k', root, B, x, i, E);
    ChildDropSelf(k, k', root, B, x, i, E);
    ChildDropRecorded(k, k', root, B, x, i, E);
    forall l | l in k'.lines ensures HasLeaf(k', l) {
      assert HasLeaf(k, l);
    }
    forall c | c in k'.chunks ensures At(k', root, Nothing, B + {x}, {}, c) {
      if c != x {
        ChildDropOther(k, k', root, B, x, i, E, c);
      }
    }
  }

  // ----- collapse -----

  /** `D` are the chunks from `x` down, `hs` the heights of the lines of `x`. */
  ghost predicate Subtree<C, L>(k: Store<C, L>, x: C, D: set<C>, hs: seq<int>)
  {
    true == (
    x in k.chunks && x in D && D <= k.chunks.Keys && (forall c :: c in D ==> k.chunks[c].rank <= k.chunks[x].rank) &&
    (forall c :: c in D && c != x ==> k.chunks[c].parent.Some? && k.chunks[c].parent.value in D) &&
    (forall c, d :: c in D && !k.chunks[c].leaf && d in k.chunks[c].children ==> d in D) &&
    LinesIn(k, D, k.chunks[x].contents, hs) && Sum(hs) == k.chunks[x].height
    )
  }

  ghost predicate HeightsOf<C, L>(k: Store<C, L>, ls: seq<L>, hs: seq<int>)
  {
    true == (
    |hs| == |ls| && forall i :: 0 <= i < |ls| ==> ls[i] in k.lines && k.lines[ls[i]].height == hs[i]
    )
  }

  /** Branch `x`, of which `D` is the subtree, is ready to be collapsed. */
  ghost predicate Collapsible<C, L>(k: Store<C, L>, root: C, B: set<C>, x: C, D: set<C>, hs: seq<int>)
  {
    true == (
    Inv(k, root, Nothing, B + {x}, {}) && Below(k, root, B, x) && Recorded(k, x) && Subtree(k, x, D, hs) &&
    !k.chunks[x].leaf && k.chunks[x].size == |k.chunks[x].contents| <= 50 && NoDup(k.chunks[x].contents)
    )
  }

  lemma CollapsibleFound<C, L>(k: Store<C, L>, root: C, B: set<C>, x: C, D: set<C>, hs: seq<int>)
    requires Inv(k, root, Nothing, B + {x}, {}) && Below(k, root, B, x) && Recorded(k, x) && Subtree(k, x, D, hs)
    requires !k.chunks[x].leaf && k.chunks[x].size == |k.chunks[x].contents| <= 50 && NoDup(k.chunks[x].contents)
    ensures Collapsible(k, root, B, x, D, hs) && x in D && D <= k.chunks.Keys
    ensures |hs| == |k.chunks[x].contents|
    ensures forall i :: 0 <= i < |hs| ==>
      k.chunks[x].contents[i] in k.lines && k.lines[k.chunks[x].contents[i]].height == hs[i]
  {
  }

  /** All of `D` but `x` gives way to one new leaf `y` below `x`. */
  ghost predicate Collapse<C, L>(k: Store<C, L>, k': Store<C, L>, root: C, B: set<C>, x: C, y: C, D: set<C>,
                                 hs: seq<int>)
  {
    true == (
    Collapsible(k, root, B, x, D, hs) && y !in (k.chunks.Keys - D) + {x} &&
    var n := k.chunks[x];
    k'.chunks.Keys == (k.chunks.Keys - D) + {x, y} && MovedTo(k.lines, k'.lines, y, n.contents) &&
    k'.chunks[y] == Node(true, n.contents, [], 0, Sum(hs), Some(x), n.contents, [], hs, 0) &&
    k'.chunks[x] == n.(children := [y], parts := [n.contents], heights := [Sum(hs)]) &&
    forall c :: c in k.chunks && c !in D ==> k'.chunks[c] == k.chunks[c]
    )
  }

  /** The steps: the subtree is set aside, leaving `m0`; `x` gets its new child. */
  lemma CollapseSteps<C, L>(k: Store<C, L>, m0: map<C, Node<C, L>>, m1: map<C, Node<C, L>>, k': Store<C, L>, root: C,
                            B: set<C>, x: C, y: C, D: set<C>, hs: seq<int>)
    requires Collapsible(k, root, B, x, D, hs) && x in k.chunks
    requires m0.Keys == (k.chunks.Keys - D) + {x} && forall c :: c in m0 ==> c in k.chunks && m0[c] == k.chunks[c]
    requires y !in m0 && OnlyChanged(m0, m1, x) && y in k'.chunks && k'.chunks == m1[y := k'.chunks[y]]
    requires var ls := k.chunks[x].contents;
             MovedTo(k.lines, k'.lines, y, ls) &&
             k'.chunks[y] == Node(true, ls, [], 0, Sum(hs), Some(x), ls, [], hs, 0) &&
             x in m1 && m1[x] == m0[x].(children := [y], parts := [ls], heights := [Sum(hs)])
    ensures Collapse(k, k', root, B, x, y, D, hs)
  {
  }

  lemma CollapseOther<C, L>(k: Store<C, L>, k': Store<C, L>, root: C, B: set<C>, x: C, y: C, D: set<C>, hs: seq<int>,
                            c: C)
    requires Collapse(k, k', root, B, x, y, D, hs) && c in k.chunks && c !in D
    ensures At(k', root, Nothing, B, {}, c)
  {
    assert At(k, root, Nothing, B + {x}, {}, x);
    assert At(k, root, Nothing, B + {x}, {}, c);
    if k.chunks[c].leaf {
      LinesHome(k.chunks[c], c, k.lines);
    }
    assert Linked(k', c);
    UntouchedAt(k, k', root, Nothing, B + {x}, {}, B + {x}, {}, c);
  }

  lemma CollapseSelf<C, L>(k: Store<C, L>, k': Store<C, L>, root: C, B: set<C>, x: C, y: C, D: set<C>, hs: seq<int>)
    requires Collapse(k, k', root, B, x, y, D, hs)
    ensures At(k', root, Nothing, B, {}, x) && At(k', root, Nothing, B, {}, y)
  {
    CollapseBranch(k, k', root, B, x, y, D, hs);
    CollapseLeaf(k, k', root, B, x, y, D, hs);
  }

  lemma CollapseBranch<C, L>(k: Store<C, L>, k': Store<C, L>, root: C, B: set<C>, x: C, y: C, D: set<C>, hs: seq<int>)
    requires Collapse(k, k', root, B, x, y, D, hs)
    ensures At(k', root, Nothing, B, {}, x)
  {
    assert At(k, root, Nothing, B + {x}, {}, x);
    SingleParts(k.chunks[x].contents, Sum(hs));
    assert k'.chunks[x].children[0] == y;
  }

  lemma CollapseLeaf<C, L>(k: Store<C, L>, k': Store<C, L>, root: C, B: set<C>, x: C, y: C, D: set<C>, hs: seq<int>)
    requires Collapse(k, k', root, B, x, y, D, hs)
    ensures At(k', root, Nothing, B, {}, y)
  {
    assert At(k, root, Nothing, B + {x}, {}, x);
    SingleParts(k.chunks[x].contents, Sum(hs));
    assert k'.chunks[x].children[0] == y;
    assert LinesOf(k'.chunks[y], y, k'.lines);
  }

  lemma Collapsed<C, L>(k: Store<C, L>, k': Store<C, L>, root: C, B: set<C>, x: C, y: C, D: set<C>, hs: seq<int>)
    requires Collapse(k, k', root, B, x, y, D, hs)
    ensures Inv(k', root, Nothing, B, {}) && Below(k', root, B, x) && Keeps(k.chunks, k'.chunks, B, x)
  {
    assert At(k, root, Nothing, B + {x}, {}, x);
    forall l | l in k'.lines ensures HasLeaf(k', l) {
      assert HasLeaf(k, l);
    }
    forall c | c in k'.chunks ensures At(k', root, Nothing, B, {}, c) {
      if c == x || c == y {
        CollapseSelf(k, k', root, B, x, y, D, hs);
      } else {
        CollapseOther(k, k', root, B, x, y, D, hs, c);
      }
    }
  }

  // ----- collecting a subtree -----

  /** Like Subtree, for the first `i` children of branch `x`: first the chunks, then the lines `ls` below them. */
  ghost predicate ChunksUpTo<C, L>(k: Store<C, L>, x: C, i: nat, D: set<C>)
  {
    true == (
    x in k.chunks && !k.chunks[x].leaf && i <= |k.chunks[x].children| == |k.chunks[x].parts| == |k.chunks[x].heights| &&
    x in D && D <= k.chunks.Keys && (forall c :: c in D ==> k.chunks[c].rank <= k.chunks[x].rank) &&
    (forall c :: c in D && c != x ==> k.chunks[c].parent.Some? && k.chunks[c].parent.value in D) &&
    (forall c, d :: c in D && c != x && !k.chunks[c].leaf && d in k.chunks[c].children ==> d in D) &&
    (forall j :: 0 <= j < i ==> k.chunks[x].children[j] in D)
    )
  }

  ghost predicate LinesIn<C, L>(k: Store<C, L>, D: set<C>, ls: seq<L>, hs: seq<int>)
  {
    true == (
    (forall l :: l in k.lines && k.lines[l].parent.Some? && k.lines[l].parent.value in D ==> l in ls) &&
    HeightsOf(k, ls, hs) &&
    forall l :: l in ls ==> l in k.lines && k.lines[l].parent.Some? && k.lines[l].parent.value in D
    )
  }

  ghost predicate SubtreeUpTo<C, L>(k: Store<C, L>, x: C, i: nat, D: set<C>, hs: seq<int>)
  {
    true == (
    ChunksUpTo(k, x, i, D) && LinesIn(k, D, Flat(k.chunks[x].parts[..i]), hs) &&
    Sum(hs) == Sum(k.chunks[x].heights[..i])
    )
  }

  lemma LinesInBoth<C, L>(k: Store<C, L>, D: set<C>, ls: seq<L>, hs: seq<int>, D': set<C>, ls': seq<L>, hs': seq<int>)
    requires LinesIn(k, D, ls, hs) && LinesIn(k, D', ls', hs')
    ensures LinesIn(k, D + D', ls + ls', hs + hs')
  {
    forall l | l in k.lines && k.lines[l].parent.Some? && k.lines[l].parent.value in D + D' ensures l in ls + ls' {
    }
  }

  lemma ChunksUpToNext<C, L>(k: Store<C, L>, root: C, busy: set<C>, x: C, i: nat, D: set<C>, D': set<C>, hs': seq<int>)
    requires Inv(k, root, Nothing, busy, {}) && ChunksUpTo(k, x, i, D) && i < |k.chunks[x].children|
    requires Subtree(k, k.chunks[x].children[i], D', hs')
    ensures ChunksUpTo(k, x, i + 1, D + D')
  {
    assert At(k, root, Nothing, busy, {}, x);
  }

  lemma SubtreeLeaf<C, L>(k: Store<C, L>, root: C, busy: set<C>, x: C)
    requires Inv(k, root, Nothing, busy, {}) && Recorded(k, x) && k.chunks[x].leaf
    ensures Subtree(k, x, {x}, k.chunks[x].heights)
  {
    assert At(k, root, Nothing, busy, {}, x);
    LinesHome(k.chunks[x], x, k.lines);
    forall l | l in k.lines && k.lines[l].parent == Some(x) ensures l in k.chunks[x].contents {
      assert HasLeaf(k, l);
    }
  }

  lemma SubtreeStart<C, L>(k: Store<C, L>, root: C, busy: set<C>, x: C)
    requires Inv(k, root, Nothing, busy, {}) && Recorded(k, x) && !k.chunks[x].leaf
    ensures SubtreeUpTo(k, x, 0, {x}, [])
  {
    assert At(k, root, Nothing, busy, {}, x);
    forall l | l in k.lines ensures k.lines[l].parent != Some(x) {
      assert HasLeaf(k, l);
    }
  }

  lemma SubtreeStep<C, L>(k: Store<C, L>, root: C, busy: set<C>, x: C, i: nat, D: set<C>, hs: seq<int>, D': set<C>,
                          hs': seq<int>)
    requires Inv(k, root, Nothing, busy, {}) && Recorded(k, x) && SubtreeUpTo(k, x, i, D, hs) &&
      i < |k.chunks[x].children|
    requires Subtree(k, k.chunks[x].children[i], D', hs')
    ensures SubtreeUpTo(k, x, i + 1, D + D', hs + hs')
  {
    var n := k.chunks[x];
    ChunksUpToNext(k, root, busy, x, i, D, D', hs');
    FlatPrefix(n.parts, i);
    SumPrefix(n.heights, i);
    SumConcat(hs, hs');
    LinesInBoth(k, D, Flat(n.parts[..i]), hs, D', n.parts[i], hs');
  }

  lemma CollectChild<C, L>(k: Store<C, L>, root: C, busy: set<C>, x: C, i: nat)
    requires Inv(k, root, Nothing, busy, {}) && Recorded(k, x) && !k.chunks[x].leaf && i < |k.chunks[x].children|
    requires forall b :: b in busy && b in k.chunks ==> b == x || k.chunks[b].rank > k.chunks[x].rank
    ensures |k.chunks[x].parts| == |k.chunks[x].children|
    ensures k.chunks[x].children[i] in k.chunks && Recorded(k, k.chunks[x].children[i])
    ensures k.chunks[k.chunks[x].children[i]].rank < k.chunks[x].rank
    ensures k.chunks[k.chunks[x].children[i]].contents == k.chunks[x].parts[i]
  {
    assert At(k, root, Nothing, busy, {}, x);
    assert At(k, root, Nothing, busy, {}, k.chunks[x].children[i]);
  }

  lemma SubtreeEnd<C, L>(k: Store<C, L>, root: C, busy: set<C>, x: C, D: set<C>, hs: seq<int>)
    requires Inv(k, root, Nothing, busy, {}) && Recorded(k, x) && !k.chunks[x].leaf
    requires SubtreeUpTo(k, x, |k.chunks[x].children|, D, hs)
    ensures Subtree(k, x, D, hs)
  {
    var n := k.chunks[x];
    assert n.parts[..|n.children|] == n.parts && n.heights[..|n.children|] == n.heights;
  }

  // ----- one child has lost lines -----

  lemma BelowChild<C, L>(k: Store<C, L>, root: C, B: set<C>, x: C, i: nat)
    requires Inv(k, root, Nothing, B + {x}, {}) && Below(k, root, B, x) && !k.chunks[x].leaf &&
      i < |k.chunks[x].children|
    ensures k.chunks[x].children[i] in k.chunks && Below(k, root, B + {x}, k.chunks[x].children[i])
    ensures k.chunks[k.chunks[x].children[i]].rank < k.chunks[x].rank
    ensures |k.chunks[x].parts| == |k.chunks[x].heights| == |k.chunks[x].children|
  {
    assert At(k, root, Nothing, B + {x}, {}, x);
  }

  lemma RecordedChild<C, L>(k: Store<C, L>, root: C, B: set<C>, x: C, i: nat)
    requires Inv(k, root, Nothing, B + {x}, {}) && Below(k, root, B, x) && !k.chunks[x].leaf &&
      i < |k.chunks[x].children|
    requires Recorded(k, x)
    ensures |k.chunks[x].parts| == |k.chunks[x].heights| == |k.chunks[x].children|
    ensures k.chunks[x].children[i] in k.chunks
    ensures var d := k.chunks[k.chunks[x].children[i]];
            d.contents == k.chunks[x].parts[i] && d.height == k.chunks[x].heights[i] &&
            |d.contents| == (if d.leaf then |d.lines| else d.size)
  {
    BelowChild(k, root, B, x, i);
    assert At(k, root, Nothing, B + {x}, {}, k.chunks[x].children[i]);
  }

  /**
   Branch `x` brings its record of child `i` up to date, from `k1` to `k2`; the child was changed from `k` to `k1`.
   */
  ghost predicate ChildDone<C, L>(k: Store<C, L>, k1: Store<C, L>, k2: Store<C, L>, root: C, B: set<C>, x: C, i: nat,
                                  d: C)
  {
    true == (
    Inv(k, root, Nothing, B + {x}, {}) && Below(k, root, B, x) && Recorded(k, x) && !k.chunks[x].leaf &&
    i < |k.chunks[x].children| == |k.chunks[x].parts| == |k.chunks[x].heights| && k.chunks[x].children[i] == d &&
    Inv(k1, root, Nothing, B + {x}, {}) && Below(k1, root, B + {x}, d) && Keeps(k.chunks, k1.chunks, B + {x}, d) &&
    x in k1.chunks && OnlyChanged(k1.chunks, k2.chunks, x) && k2.lines == k1.lines && d in k.chunks &&
    var n := k1.chunks[x];
    i < |n.parts| == |n.heights| &&
    var ps := n.parts[i := k1.chunks[d].contents];
    k2.chunks[x] == n.(height := n.height - (k.chunks[d].height - k1.chunks[d].height), parts := ps,
                       heights := n.heights[i := k1.chunks[d].height], contents := Flat(ps))
    )
  }

  lemma ChildDoneFacts<C, L>(k: Store<C, L>, k1: Store<C, L>, k2: Store<C, L>, root: C, B: set<C>, x: C, i: nat, d: C)
    requires ChildDone(k, k1, k2, root, B, x, i, d)
    ensures k1.chunks[x] == k.chunks[x] && Below(k1, root, B, x) && Keeps(k.chunks, k1.chunks, B, x)
    ensures k.chunks[x].heights[i] == k.chunks[d].height && d != x && d !in B && x !in B
    ensures forall c :: c in k.chunks[x].children && c != d ==>
      c in k1.chunks && c in k.chunks && k1.chunks[c] == k.chunks[c]
  {
    RecordedChild(k, root, B, x, i);
    assert At(k, root, Nothing, B + {x}, {}, x);
    KeepsAbove(k.chunks, k1.chunks, B, x, d);
  }

  lemma ChildRecorded<C, L>(k: Store<C, L>, k1: Store<C, L>, k2: Store<C, L>, root: C, B: set<C>, x: C, i: nat, d: C)
    requires ChildDone(k, k1, k2, root, B, x, i, d)
    ensures Inv(k2, root, Nothing, B + {x}, {}) && Below(k2, root, B, x) && Recorded(k2, x) &&
      Keeps(k.chunks, k2.chunks, B, x)
  {
    ChildDoneFacts(k, k1, k2, root, B, x, i, d);
    BusyChanged(k1, k2, root, B, x);
    KeepsTwice(k.chunks, k1.chunks, k2.chunks, B, x);
    SumUpdate(k.chunks[x].heights, i, k1.chunks[d].height);
    var n := k2.chunks[x];
    assert At(k, root, Nothing, B + {x}, {}, x);
    forall j | 0 <= j < |n.children|
      ensures n.children[j] in k2.chunks && n.parts[j] == k2.chunks[n.children[j]].contents &&
        n.heights[j] == k2.chunks[n.children[j]].height
    {
      assert j != i ==> n.children[j] != n.children[i];
    }
  }

  // ----- the walk over the children -----

  /**
   Of the `n0` lines to remove at `at0`, `n` are left; the walk stands before child `i`, in which (or after which) the
   next ones are to be found at `at`.
   */
  ghost predicate Progress<L>(con0: seq<L>, at0: nat, n0: nat, parts: seq<seq<L>>, i: nat, at: nat, n: nat)
  {
    true == (
    n <= n0 && at0 + n0 <= |con0| && Flat(parts) == Cut(con0, at0, n0 - n) && i <= |parts| &&
    |Flat(parts[..i])| + at == at0
    )
  }

  lemma WalkSkip<L>(con0: seq<L>, at0: nat, n0: nat, parts: seq<seq<L>>, i: nat, at: nat, n: nat)
    requires Progress(con0, at0, n0, parts, i, at, n) && i < |parts| && |parts[i]| <= at
    ensures Progress(con0, at0, n0, parts, i + 1, at - |parts[i]|, n)
  {
    FlatPrefix(parts, i);
  }

  lemma WalkNoDup<L>(con0: seq<L>, at0: nat, n0: nat, parts: seq<seq<L>>, i: nat, at: nat, n: nat, con: seq<L>)
    requires Progress(con0, at0, n0, parts, i, at, n) && NoDup(con0) && con == Flat(parts)
    ensures NoDup(con)
  {
    NoDupCut(con0, at0, n0 - n);
  }

  /** The parts after `rm` lines of part `i` are removed; a part of which nothing is left is dropped. */
  function DropOrCut<L>(parts: seq<seq<L>>, i: nat, at: nat, rm: nat): seq<seq<L>>
    requires i < |parts| && at + rm <= |parts[i]|
  {
    if rm == |parts[i]| then Cut(parts, i, 1) else parts[i := Cut(parts[i], at, rm)]
  }

  function NextAfter<L>(parts: seq<seq<L>>, i: nat, rm: nat): nat
    requires i < |parts|
  {
    if rm == |parts[i]| then i else i + 1
  }

  lemma WalkEnd<L>(con0: seq<L>, at0: nat, n0: nat, parts: seq<seq<L>>, i: nat, at: nat, n: nat)
    requires Progress(con0, at0, n0, parts, i, at, n) && i == |parts|
    ensures n == 0 && Flat(parts) == Cut(con0, at0, n0)
  {
    assert parts[..i] == parts;
  }

  lemma WalkTake<L>(con0: seq<L>, at0: nat, n0: nat, parts: seq<seq<L>>, i: nat, at: nat, n: nat, rm: nat)
    requires Progress(con0, at0, n0, parts, i, at, n) && i < |parts| && at < |parts[i]|
    requires rm == if n <= |parts[i]| - at then n else |parts[i]| - at
    ensures var parts' := DropOrCut(parts, i, at, rm);
            Flat(parts') == Cut(con0, at0, n0 - n + rm) && NextAfter(parts, i, rm) <= |parts'| &&
            (rm < n ==> |Flat(parts'[..NextAfter(parts, i, rm)])| == at0)
  {
    FlatAround(parts, i);
    FlatCut(parts, i, at, rm);
    CutTwice(con0, at0, n0 - n, rm);
    var ps := parts[i := Cut(parts[i], at, rm)];
    assert ps[..i] == parts[..i];
    if rm == |parts[i]| {
      FlatDropEmpty(ps, i);
      assert ps[..i] + ps[i + 1..] == Cut(parts, i, 1);
      assert Cut(parts, i, 1)[..i] == parts[..i];
    } else {
      FlatPrefix(ps, i);
    }
  }

  /** The walk has come to child `i`, or there is nothing left to remove. */
  ghost predicate Taken<L>(con0: seq<L>, at0: nat, n0: nat, parts: seq<seq<L>>, i: nat, at: nat, n: nat) {
    true == (at0 + n0 <= |con0| &&
      if n == 0 then Flat(parts) == Cut(con0, at0, n0) else Progress(con0, at0, n0, parts, i, at, n))
  }

  lemma WalkTaken<L>(con0: seq<L>, at0: nat, n0: nat, parts: seq<seq<L>>, i: nat, at: nat, n: nat, rm: nat,
                     parts': seq<seq<L>>, i': nat)
    requires Progress(con0, at0, n0, parts, i, at, n) && i < |parts| && at < |parts[i]|
    requires rm == (if n <= |parts[i]| - at then n else |parts[i]| - at)
    requires parts' == DropOrCut(parts, i, at, rm) && i' == NextAfter(parts, i, rm)
    ensures rm <= n && Taken(con0, at0, n0, parts', i', 0, n - rm)
    ensures |parts'| - i' < |parts| - i
  {
    WalkTake(con0, at0, n0, parts, i, at, n, rm);
  }
}
