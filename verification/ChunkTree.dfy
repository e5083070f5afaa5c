/** The chunk tree as it is: objects that are changed in place, each step tied to the values of ChunkStore. */
module ChunkTree {
  import opened Sequences
  import opened ChunkStore
  import opened ChunkRemoval

  class Line {
    var text: string
    var spans: Option<nat>
    var height: int
    var parent: Chunk?

    constructor (text: string, spans: Option<nat>)
      ensures this.text == text && this.spans == spans && height == 1 && parent == null
    {
      this.text := text;
      this.spans := spans;
      this.height := 1;
      this.parent := null;
    }

    method Update(text: string, spans: Option<nat>)
      modifies this`text, this`spans
      ensures this.text == text && this.spans == spans
    {
      this.text := text;
      this.spans := spans;
    }
  }

  class Chunk {
    const leaf: bool
    var lines: seq<Line>
    var children: seq<Chunk>
    var size: int
    var height: int
    var parent: Chunk?
    ghost var contents: seq<Line>
    ghost var parts: seq<seq<Line>>
    ghost var heights: seq<int>
    ghost var rank: nat

    /** The fields of this chunk as a value. */
    ghost function Record(): Node<Chunk, Line>
      reads this
    {
      Node(leaf, lines, children, size, height, Link(parent), contents, parts, heights, rank)
    }

    /** `LeafChunk.insertHeight` */
    method LeafInsertHeight(at: nat, ls: seq<Line>, h: int, ghost hs: seq<int>, ghost o: Owed<Chunk, Line>,
                            ghost S: set<Chunk>, ghost L: set<Line>, ghost root: Chunk)
      requires this in S && leaf && at <= |contents| && Inv(View(S, L), root, o, {}, {})
      requires o == Owed(this, Splice(contents, at, ls), height + h)
      requires Attachable(ls, hs, L) && h == Sum(hs)
      modifies this`lines, this`height, this`contents, this`heights, ls`parent
      ensures Inv(View(S, L + Elems(ls)), root, Nothing, {}, {this})
      ensures parent == old(parent) && contents == Splice(old(contents), at, ls)
    {
      ghost var k := View(S, L);
      LeafLengths(k, root, o, {}, {}, this);
      var nl, nh := Splice(lines, at, ls), height + h;
      ghost var nhs := Splice(heights, at, hs);
      PutLeaf(nl, nh, ls, nhs, hs, S, L);
      LeafInserted(k, View(S, L + Elems(ls)), root, o, this, at, ls, hs, nl, nh, nhs);
    }

    /** `BranchChunk.insertHeight`; `at` is at most the number of lines. */
    method BranchInsertHeight(at: nat, ls: seq<Line>, h: int, ghost hs: seq<int>, ghost o: Owed<Chunk, Line>,
                              ghost S: set<Chunk>, ghost L: set<Line>, ghost root: Chunk) returns (ghost S': set<Chunk>)
      requires this in S && !leaf && at <= |contents| && Inv(View(S, L), root, o, {}, {})
      requires o == Owed(this, Splice(contents, at, ls), height + h)
      requires Attachable(ls, hs, L) && h == Sum(hs)
      modifies S, ls`parent, L`parent
      ensures Grown(S, S') && Inv(View(S', L + Elems(ls)), root, Nothing, {}, {})
      ensures root.contents == if this == root then Splice(old(contents), at, ls) else old(root.contents)
      decreases rank
    {
      var i, a;
      ghost var o';
      i, a, o' := Descend(at, ls, h, o, S, L, root);
      var child := children[i];
      if child.leaf {
        child.LeafInsertHeight(a, ls, h, hs, o', S, L, root);
        S' := SpillLeaves(i, S, L + Elems(ls), root);
      } else {
        S' := child.BranchInsertHeight(a, ls, h, hs, o', S, L, root);
      }
    }

    /** The part of `insertHeight` before the call on the child: totals are updated, and the child is found. */
    method Descend(at: nat, ls: seq<Line>, h: int, ghost o: Owed<Chunk, Line>, ghost S: set<Chunk>, ghost L: set<Line>,
                   ghost root: Chunk) returns (i: nat, a: nat, ghost o': Owed<Chunk, Line>)
      requires this in S && !leaf && at <= |contents| && Inv(View(S, L), root, o, {}, {})
      requires o == Owed(this, Splice(contents, at, ls), height + h)
      modifies this`size, this`height, this`contents, this`parts, this`heights
      ensures i < |children| && children == old(children) && contents == Splice(old(contents), at, ls)
      ensures children[i] in S && children[i] != this && children[i].parent == this && children[i].rank < old(rank)
      ensures a <= |children[i].contents| && o' == Owed(children[i], Splice(children[i].contents, a, ls),
        children[i].height + h)
      ensures Inv(View(S, L), root, o', {}, {})
    {
      i, a := FindChild(at, o, S, L, root);
      o' := RecordInsert(i, a, at, ls, h, o, S, L, root);
    }

    /** This branch records that child `i` is about to take `ls`. */
    method RecordInsert(i: nat, a: nat, at: nat, ls: seq<Line>, h: int, ghost o: Owed<Chunk, Line>, ghost S: set<Chunk>,
                        ghost L: set<Line>, ghost root: Chunk) returns (ghost o': Owed<Chunk, Line>)
      requires this in S && !leaf && at <= |contents| && Inv(View(S, L), root, o, {}, {})
      requires o == Owed(this, Splice(contents, at, ls), height + h)
      requires i < |children| == |parts| == |heights| && children[i] in S && children[i] != this
      requires a <= |children[i].contents| && |Flat(parts[..i])| + a == at
      modifies this`size, this`height, this`contents, this`parts, this`heights
      ensures contents == Splice(old(contents), at, ls) && Inv(View(S, L), root, o', {}, {})
      ensures o' == Owed(children[i], Splice(children[i].contents, a, ls), children[i].height + h)
    {
      ghost var k := View(S, L);
      var child := children[i];
      ghost var part, ph := Splice(child.contents, a, ls), child.height + h;
      o' := Owed(child, part, ph);
      BranchLengths(k, root, o, {}, this);
      SetBranch(size + |ls|, height + h, i, o.contents, part, ph, S, L);
      BranchInserted(k, View(S, L), root, o, this, i, child, at, a, ls, h, part, ph);
    }

    /**
     Too long a leaf, child `i`, gives its last lines to new leaves, 25 at a time; then this branch may be too long.
     */
    method SpillLeaves(i: nat, ghost S: set<Chunk>, ghost L: set<Line>, ghost root: Chunk)
      returns (ghost S': set<Chunk>)
      requires this in S && !leaf && i < |children| && children[i] in S && children[i] != this && children[i].leaf
      requires Inv(View(S, L), root, Nothing, {}, {children[i]})
      modifies S, L`parent
      ensures Grown(S, S') && Inv(View(S', L), root, Nothing, {}, {})
      ensures root.contents == old(root.contents)
    {
      S' := S;
      var child := children[i];
      if |child.lines| > 50 {
        Narrow(View(S, L), root, {child}, {this, child});
        while |child.lines| > 50
          invariant Grown(S, S') && i < |children| && children[i] == child && child.leaf
          invariant Inv(View(S', L), root, Nothing, {}, {this, child})
          invariant root.contents == old(root.contents)
          decreases |child.lines|
        {
          S' := SpillLeaf(i, S', L, root);
        }
        Narrow(View(S', L), root, {this, child}, {this});
        assert At(View(S', L), root, Nothing, {}, {this}, this);
        ghost var S0 := S';
        S' := MaybeSpill(S0, L, root);
      } else {
        Narrow(View(S, L), root, {child}, {});
      }
    }

    method SpillLeaf(i: nat, ghost S: set<Chunk>, ghost L: set<Line>, ghost root: Chunk) returns (ghost S': set<Chunk>)
      requires this in S && !leaf && i < |children| && children[i] in S && children[i] != this && children[i].leaf &&
        |children[i].lines| > 50
      requires Inv(View(S, L), root, Nothing, {}, {this, children[i]})
      modifies this, children[i], L`parent
      ensures i + 1 < |children| && children[i] == old(children[i]) && |children[i].lines| < old(|children[i].lines|)
      ensures S' == S + {children[i + 1]} && fresh(children[i + 1])
      ensures Inv(View(S', L), root, Nothing, {}, {this, children[i]})
      ensures root.contents == old(root.contents)
    {
      ghost var k := View(S, L);
      var child := children[i];
      LeafFacts(k, root, {this, child}, child);
      SpillSiteFound(k, root, this, i, child);
      assert At(k, root, Nothing, {}, {this, child}, child);
      var newleaf := SpillTail(i, child, |child.lines| - 25, S, L, root);
      S' := S + {newleaf};
    }

    /** The lines of `child` from `m` on go to a new leaf after it. */
    method SpillTail(i: nat, child: Chunk, m: nat, ghost S: set<Chunk>, ghost L: set<Line>, ghost root: Chunk)
      returns (newleaf: Chunk)
      requires this in S && child in S && child.leaf && root != child && SpillSite(View(S, L), root, this, i, child)
      requires m <= |child.lines| == |child.heights| && |child.lines| - m <= 50
      requires forall j :: 0 <= j < |child.lines| ==> child.lines[j] in L && child.lines[j].height == child.heights[j]
      modifies this, child, L`parent
      ensures fresh(newleaf) && i + 1 < |children| && children[i] == child && children[i + 1] == newleaf
      ensures |child.lines| == m && Inv(View(S + {newleaf}, L), root, Nothing, {}, {this, child})
      ensures root.contents == old(root.contents)
    {
      ghost var k := View(S, L);
      ghost var m1;
      newleaf, m1 := CutAndLink(i, child, m, S, L);
      SpillDone(k, m1, S, L, root, this, i, child, newleaf, m);
    }

    method CutAndLink(i: nat, child: Chunk, m: nat, ghost S: set<Chunk>, ghost L: set<Line>)
      returns (newleaf: Chunk, ghost m1: map<Chunk, Node<Chunk, Line>>)
      requires this in S && child in S && child.leaf && child != this && m <= |child.lines| == |child.heights|
      requires i < |children| == |parts| == |heights| && children[i] == child
      requires forall j :: 0 <= j < |child.lines| ==> child.lines[j] in L && child.lines[j].height == child.heights[j]
      modifies this`children, this`parts, this`heights, L`parent
      modifies child`lines, child`height, child`contents, child`heights
      ensures fresh(newleaf) && i + 1 < |children| && children[i] == child && children[i + 1] == newleaf
      ensures |child.lines| == m && MovedTo(old(Rows(L)), Rows(L), newleaf, newleaf.lines)
      ensures LeafDivided(old(Chunks(S)), m1, Chunks(S), this, i, child, newleaf, newleaf.Record(), m)
    {
      newleaf := child.CutTail(m, S, L);
      m1 := Chunks(S);
      LinkAfter(i, newleaf, child.lines, newleaf.lines, child.height, newleaf.height, child.rank, S);
    }

    /** The lines from `m` on leave this leaf for a new one. */
    method CutTail(m: nat, ghost S: set<Chunk>, ghost L: set<Line>) returns (y: Chunk)
      requires this in S && leaf && m <= |lines| == |heights|
      requires forall i :: 0 <= i < |lines| ==> lines[i] in L && lines[i].height == heights[i]
      modifies this`lines, this`height, this`contents, this`heights, L`parent
      ensures fresh(y) && OnlyChanged(old(Chunks(S)), Chunks(S), this)
      ensures var n := old(Record()); LeafCut(n, Record(), y.Record(), m)
      ensures MovedTo(old(Rows(L)), Rows(L), y, y.lines)
      ensures leaf && |lines| == m
    {
      ghost var hs := heights;
      y := new Chunk.Leaf(lines[m..|lines|], hs[m..|hs|], L);
      SetLeaf(lines[0..m], height - y.height, hs[0..m], S);
    }

    /** Child `i` has been split in two; the second half is `y`. */
    method LinkAfter(i: nat, y: Chunk, ghost a: seq<Line>, ghost b: seq<Line>, ghost ha: int, ghost hb: int,
                     ghost r: nat, ghost S: set<Chunk>)
      requires this in S && y !in S && i < |children| == |parts| == |heights|
      modifies this`children, this`parts, this`heights, y`parent, y`rank
      ensures Record() == Gain(old(Record()), i, y, a, b, ha, hb)
      ensures y.Record() == old(y.Record()).(parent := Some(this), rank := r)
      ensures OnlyChanged(old(Chunks(S)), Chunks(S), this)
      ensures i + 1 < |children| && children[i] == old(children[i]) && children[i + 1] == y
    {
      children := children[..i + 1] + [y] + children[i + 1..];
      parts, heights := parts[..i] + [a, b] + parts[i + 1..], heights[..i] + [ha, hb] + heights[i + 1..];
      y.parent, y.rank := this, r;
    }

    /** `maybeSpill`: as long as a branch has more than ten children, five at a time go to a new branch after it. */
    method MaybeSpill(ghost S: set<Chunk>, ghost L: set<Line>, ghost root: Chunk) returns (ghost S': set<Chunk>)
      requires this in S && !leaf && this.rank <= root.rank && Inv(View(S, L), root, Nothing, {}, {this})
      modifies S
      ensures Grown(S, S') && Inv(View(S', L), root, Nothing, {}, {})
      ensures root.contents == old(root.contents)
      decreases root.rank - rank, |children|
    {
      S' := S;
      if |children| <= 10 {
        Narrow(View(S, L), root, {this}, {});
        return;
      }
      var me: Chunk;
      me, S' := SplitFirst(S, L, root);
      while |me.children| > 10
        invariant Grown(S, S') && Spilling(me, S', L, root)
        invariant root.contents == old(root.contents)
        invariant this == root ==> me.parent == root && |root.children| + |me.children| < old(|children|)
        invariant this != root ==>
          me == this && me.parent == old(parent) && root.rank == old(root.rank) && me.rank == old(rank)
        decreases |me.children|
      {
        S' := me.SplitOff(S', L, root);
      }
      Narrow(View(S', L), root, {me.parent, me}, {me.parent});
      S' := me.parent.MaybeSpill(S', L, root);
    }

    /** The first round of `maybeSpill`, in which a root makes way for a copy of itself. */
    method SplitFirst(ghost S: set<Chunk>, ghost L: set<Line>, ghost root: Chunk)
      returns (me: Chunk, ghost S': set<Chunk>)
      requires this in S && !leaf && |children| > 10 && Inv(View(S, L), root, Nothing, {}, {this})
      modifies S
      ensures Grown(S, S') && Spilling(me, S', L, root) && root.contents == old(root.contents)
      ensures this == root ==> me.parent == root && |root.children| == 2 && |me.children| == old(|children|) - 5
      ensures this != root ==>
        me == this && me.parent == old(parent) && root.rank == old(root.rank) && me.rank == old(rank)
    {
      if parent != null {
        SpillingFound(this, S, L, root);
        me := this;
        S' := SplitOff(S, L, root);
      } else {
        assert At(View(S, L), root, Nothing, {}, {this}, this);
        me, S' := SplitRoot(S, L, root);
      }
    }

    method SplitRoot(ghost S: set<Chunk>, ghost L: set<Line>, ghost root: Chunk)
      returns (me: Chunk, ghost S': set<Chunk>)
      requires this == root && this in S && !leaf && parent == null && |children| > 10
      requires Inv(View(S, L), root, Nothing, {}, {this})
      modifies S
      ensures Grown(S, S') && Spilling(me, S', L, root) && root.contents == old(root.contents)
      ensures me.parent == root && |root.children| == 2 && |me.children| == old(|children|) - 5
    {
      SplittableFound(this, S, L, root, {this});
      var sibling;
      me, sibling := SplitRootAt(|children| - 5, S, L, root);
      S' := S + {me, sibling};
    }

    /** The children of the root go to two new branches, the first `m` to `me`. */
    method SplitRootAt(m: nat, ghost S: set<Chunk>, ghost L: set<Line>, ghost root: Chunk)
      returns (me: Chunk, sibling: Chunk)
      requires this == root && this in S && !leaf && Splittable(this, S)
      requires Inv(View(S, L), root, Nothing, {}, {this}) && 0 < m < |children| && |children| - m <= 10
      modifies S
      ensures fresh(me) && fresh(sibling) && Spilling(me, S + {me, sibling}, L, root)
      ensures root.contents == old(root.contents)
      ensures me.parent == root && |root.children| == 2 && |me.children| == m
    {
      ghost var k := View(S, L);
      ghost var m1, m2;
      me, sibling, m1, m2 := DivideRoot(m, S, L);
      RootDone(k, m1, m2, S, L, this, me, sibling, m);
    }

    method DivideRoot(m: nat, ghost S: set<Chunk>, ghost L: set<Line>)
      returns (x: Chunk, y: Chunk, ghost m1: map<Chunk, Node<Chunk, Line>>, ghost m2: map<Chunk, Node<Chunk, Line>>)
      requires this in S && 0 < m < |children| && Splittable(this, S)
      modifies S
      ensures fresh(x) && fresh(y) && x !in S && y !in S
      ensures Rows(L) == old(Rows(L))
      ensures RootDivided(old(Chunks(S)), m1, m2, Chunks(S), this, x, y, x.Record(), y.Record(), m)
    {
      ghost var m0 := Chunks(S);
      x, y, m1, m2 := Halve(m, S);
      ghost var a0, b0 := x.Record(), y.Record();
      assert m2[this] == Record();
      BecomeParent(x, y, S);
      RootDividedIs(m0, m1, m2, Chunks(S), this, x, y, a0, b0, x.Record(), y.Record(), m);
      RowsStay(L);
    }

    method BecomeParent(x: Chunk, y: Chunk, ghost S: set<Chunk>)
      requires this in S && x !in S && y !in S && x != y
      modifies this`children, this`parts, this`heights, this`rank, x`parent, y`parent
      ensures OnlyChanged(old(Chunks(S)), Chunks(S), this)
      ensures x.Record() == old(x.Record()).(parent := Some(this)) &&
        y.Record() == old(y.Record()).(parent := Some(this))
      ensures Record() == old(Record()).(children := [x, y], parts := [old(x.contents), old(y.contents)],
        heights := [old(x.height), old(y.height)], rank := old(rank) + 1)
    {
      children := [x, y];
      parts, heights, rank := [x.contents, y.contents], [x.height, y.height], rank + 1;
      x.parent, y.parent := this, this;
    }

    /** The last children, from `m` on, go to the new branch `y`; the others to the new branch `x`. */
    method Halve(m: nat, ghost S: set<Chunk>)
      returns (x: Chunk, y: Chunk, ghost m1: map<Chunk, Node<Chunk, Line>>, ghost m2: map<Chunk, Node<Chunk, Line>>)
      requires this in S && 0 < m < |children| && Splittable(this, S)
      modifies S`parent
      ensures fresh(x) && fresh(y) && x != y && x !in S && y !in S
      ensures Halved(old(Chunks(S)), m1, m2, this, x, y, x.Record(), y.Record(), m) && m2 == Chunks(S)
    {
      y := NewPart(m, |children|, S);
      m1 := Chunks(S);
      x := NewPart(0, m, S);
      m2 := Chunks(S);
    }

    /** A new branch with the children `lo..hi` */
    method NewPart(lo: nat, hi: nat, ghost S: set<Chunk>) returns (y: Chunk)
      requires this in S && lo <= hi <= |children| && Splittable(this, S)
      modifies S`parent
      ensures fresh(y) && y !in S && Splittable(this, S) && Record() == old(Record())
      ensures Reparented(old(Chunks(S)), Chunks(S), y.children, y)
      ensures y.Record() == NewBranch(old(Record()), lo, hi)
    {
      ghost var m := Chunks(S);
      SplittableIs(this, S);
      SplittablePart(this, S, lo, hi);
      y := new Chunk.Branch(children[lo..hi], parts[lo..hi], heights[lo..hi], rank, S);
      StillSplittable(m, Chunks(S), y.children, y, this);
      SplittableIs(this, S);
    }

    /** The last children, from `m` on, go to the new branch `y`. */
    method CutBranch(m: nat, ghost S: set<Chunk>) returns (y: Chunk, ghost m1: map<Chunk, Node<Chunk, Line>>)
      requires this in S && 0 < m < |children| && Splittable(this, S)
      modifies this`children, this`size, this`height, this`parts, this`heights, this`contents, S`parent
      ensures fresh(y) && y !in S
      ensures Reparented(old(Chunks(S)), m1, y.children, y) && OnlyChanged(m1, Chunks(S), this)
      ensures y.Record() == NewBranch(old(Record()), m, old(|children|))
      ensures Record() == NewBranch(old(Record()), 0, m).(parent := old(Link(parent)))
    {
      y := NewPart(m, |children|, S);
      m1 := Chunks(S);
      ghost var n := Record();
      KeepChildren(m, size - y.size, height - y.height, S);
      HeadIs(n, y.Record(), m, Record());
    }

    /** The first `m` children stay. */
    method KeepChildren(m: nat, sz: int, h: int, ghost S: set<Chunk>)
      requires this in S && m <= |children| == |parts| == |heights|
      modifies this`children, this`size, this`height, this`parts, this`heights, this`contents
      ensures OnlyChanged(old(Chunks(S)), Chunks(S), this)
      ensures var n := old(Record());
              Record() == n.(children := n.children[0..m], size := sz, height := h, parts := n.parts[0..m],
              heights := n.heights[0..m], contents := Flat(n.parts[0..m]))
    {
      children, size, height := children[0..m], sz, h;
      parts, heights := parts[0..m], heights[0..m];
      contents := Flat(parts);
    }

    /** One round of `maybeSpill` below the root: the last five children go to a new branch. */
    method SplitOff(ghost S: set<Chunk>, ghost L: set<Line>, ghost root: Chunk) returns (ghost S': set<Chunk>)
      requires Spilling(this, S, L, root) && |children| > 10
      modifies S
      ensures Grown(S, S') && Spilling(this, S', L, root) && root.contents == old(root.contents)
      ensures parent == old(parent) && |children| == old(|children|) - 5 && root.rank == old(root.rank) &&
        rank == old(rank)
      ensures |parent.children| == old(|parent.children|) + 1
    {
      ghost var k := View(S, L);
      var p := parent;
      var i := IndexOf(p.children, this);
      SpillSiteFound(k, root, p, i, this);
      SplittableFound(this, S, L, root, {p, this});
      var y := SplitAt(p, i, |children| - 5, S, L, root);
      S' := S + {y};
    }

    /** The children from `m` on go to a new branch after this one. */
    method SplitAt(p: Chunk, i: nat, m: nat, ghost S: set<Chunk>, ghost L: set<Line>, ghost root: Chunk)
      returns (y: Chunk)
      requires this in S && p in S && root in S && p != this && parent == p && !leaf && Splittable(this, S)
      requires SpillSite(View(S, L), root, p, i, this) && 0 < m < |children| && |children| - m <= 10
      modifies S
      ensures fresh(y) && Spilling(this, S + {y}, L, root) && root.contents == old(root.contents)
      ensures parent == p && |children| == m && root.rank == old(root.rank) && rank == old(rank)
      ensures |p.children| == old(|p.children|) + 1
    {
      ghost var k := View(S, L);
      ghost var m1, m2;
      y, m1, m2 := Divide(p, i, m, S, L);
      SplitDone(k, m1, m2, S, L, root, p, i, this, y, m);
    }

    method Divide(p: Chunk, i: nat, m: nat, ghost S: set<Chunk>, ghost L: set<Line>)
      returns (y: Chunk, ghost m1: map<Chunk, Node<Chunk, Line>>, ghost m2: map<Chunk, Node<Chunk, Line>>)
      requires this in S && p in S && p != this && parent == p && 0 < m < |children| && Splittable(this, S)
      requires |children| == |parts| == |heights| && i < |p.children| == |p.parts| == |p.heights|
      modifies this`children, this`size, this`height, this`parts, this`heights, this`contents, S`parent, p`children,
        p`parts, p`heights
      ensures fresh(y) && y !in S
      ensures Rows(L) == old(Rows(L))
      ensures BranchDivided(old(Chunks(S)), m1, m2, Chunks(S), p, i, this, y, y.Record(), m)
    {
      ghost var m0 := Chunks(S);
      y, m1 := CutBranch(m, S);
      m2 := Chunks(S);
      ghost var b0 := y.Record();
      assert m2[this] == Record() && m2[p] == p.Record();
      p.LinkAfter(i, y, m2[this].contents, y.contents, m2[this].height, y.height, rank, S);
      DividedIs(m0, m1, m2, Chunks(S), p, i, this, y, b0, y.Record(), m);
      RowsStay(L);
    }

    /** `new BranchChunk(children)` */
    constructor Branch(cs: seq<Chunk>, ghost ps: seq<seq<Line>>, ghost hs: seq<int>, ghost r: nat, ghost S: set<Chunk>)
      requires |cs| == |ps| == |hs| && NoDup(cs)
      requires forall i :: 0 <= i < |cs| ==> cs[i] in S && cs[i].ChunkSize() == |ps[i]| && cs[i].height == hs[i]
      modifies cs`parent
      ensures Record() == Node(false, [], cs, |Flat(ps)|, Sum(hs), None, Flat(ps), ps, hs, r)
      ensures Reparented(old(Chunks(S)), Chunks(S), cs, this)
    {
      leaf, lines, children, size, height, parent := false, [], cs, 0, 0, null;
      contents, parts, heights, rank := Flat(ps), ps, hs, r;
      new;
      Adopt(cs, ps, hs);
    }

    /** The loop of `BranchChunk` */
    method Adopt(cs: seq<Chunk>, ghost ps: seq<seq<Line>>, ghost hs: seq<int>)
      requires |cs| == |ps| == |hs| && NoDup(cs) && this !in cs && size == height == 0
      requires forall i :: 0 <= i < |cs| ==> cs[i].ChunkSize() == |ps[i]| && cs[i].height == hs[i]
      modifies this`size, this`height, cs`parent
      ensures size == |Flat(ps)| && height == Sum(hs) && forall c :: c in cs ==> c.parent == this
    {
      for i := 0 to |cs|
        invariant size == |Flat(ps[..i])| && height == Sum(hs[..i])
        invariant forall j :: 0 <= j < i ==> cs[j].parent == this
      {
        var ch := cs[i];
        size, height := size + ch.ChunkSize(), height + ch.height;
        ch.parent := this;
        FlatPrefix(ps, i);
        SumPrefix(hs, i);
      }
      assert ps[..|ps|] == ps && hs[..|hs|] == hs;
    }

    /** `LeafChunk.remove`; the removed lines are detached. */
    method LeafRemove(at: nat, n: nat, ghost S: set<Chunk>, ghost L: set<Line>, ghost root: Chunk, ghost B: set<Chunk>)
      returns (ghost L': set<Line>)
      requires this in S && leaf && at + n <= |contents| && Inv(View(S, L), root, Nothing, B, {}) &&
        Below(View(S, L), root, B, this)
      modifies this`lines, this`height, this`contents, this`heights, L`parent
      ensures Detached(L, L') && contents == Cut(old(contents), at, n)
      ensures Inv(View(S, L'), root, Nothing, B, {}) && Below(View(S, L'), root, B, this)
      ensures Keeps(old(Chunks(S)), Chunks(S), B, this) && parent == old(parent) && rank == old(rank)
    {
      ghost var k := View(S, L);
      LeafBusyFacts(k, root, B, this);
      L' := L - Elems(lines[at..at + n]);
      DropLines(at, n, S, L);
      ChunkRemoval.LeafRemoved(k, View(S, L'), root, B, this, at, n);
    }

    /** The fields of a leaf that loses lines, and those of the lines */
    method DropLines(at: nat, n: nat, ghost S: set<Chunk>, ghost L: set<Line>)
      requires this in S && leaf && at + n <= |lines| == |heights|
      requires forall i :: 0 <= i < |lines| ==> lines[i] in L && lines[i].height == heights[i]
      modifies this`lines, this`height, this`contents, this`heights, L`parent
      ensures OnlyChanged(old(Chunks(S)), Chunks(S), this) && Detached(L, L - Elems(old(lines)[at..at + n]))
      ensures Record() == old(Record()).(lines := Cut(old(lines), at, n), contents := Cut(old(lines), at, n),
        heights := Cut(old(heights), at, n), height := old(height) - Sum(old(heights)[at..at + n]))
      ensures var L' := L - Elems(old(lines)[at..at + n]);
              forall l :: l in L' ==> Rows(L')[l] == old(Rows(L))[l]
    {
      var h := Detach(at, n, L);
      SetLeaf(Cut(lines, at, n), height - h, Cut(heights, at, n), S);
    }

    /** `BranchChunk.remove` */
    method BranchRemove(at: nat, n: nat, ghost S: set<Chunk>, ghost L: set<Line>, ghost root: Chunk,
                        ghost B: set<Chunk>) returns (ghost S': set<Chunk>, ghost L': set<Line>)
      requires this in S && !leaf && at + n <= |contents| && NoDup(contents)
      requires Inv(View(S, L), root, Nothing, B, {}) && Below(View(S, L), root, B, this)
      modifies S, L`parent
      ensures Shrunk(S, S') && this in S' && Detached(L, L') && contents == Cut(old(contents), at, n)
      ensures Inv(View(S', L'), root, Nothing, B, {}) && Below(View(S', L'), root, B, this)
      ensures Keeps(old(Chunks(S)), Chunks(S'), B, this) && parent == old(parent) && rank == old(rank)
      ensures |contents| < 25 ==> |children| == 1 && children[0] in S' && children[0].leaf
      decreases rank, 8
    {
      ghost var m0 := Chunks(S);
      S', L' := RemoveAll(at, n, S, L, root, B);
      ghost var m1 := Chunks(S');
      if size < 25 {
        S' := CollapseAll(S', L', root, B);
      } else {
        Settled(View(S', L'), root, B, this);
      }
      KeepsTwice(m0, m1, Chunks(S'), B, this);
    }

    /** The first part of `BranchChunk.remove`: the new size, and the loop. */
    method RemoveAll(at: nat, n: nat, ghost S: set<Chunk>, ghost L: set<Line>, ghost root: Chunk, ghost B: set<Chunk>)
      returns (ghost S': set<Chunk>, ghost L': set<Line>)
      requires this in S && !leaf && at + n <= |contents| && NoDup(contents)
      requires Inv(View(S, L), root, Nothing, B, {}) && Below(View(S, L), root, B, this)
      modifies S, L`parent
      ensures Shrunk(S, S') && Detached(L, L') && Removing(this, S', L', root, B) &&
        Keeps(old(Chunks(S)), Chunks(S'), B, this)
      ensures contents == Cut(old(contents), at, n) && size == |contents| && NoDup(contents)
      ensures parent == old(parent) && rank == old(rank)
      decreases rank, 7
    {
      ghost var con, m0 := contents, Chunks(S);
      StartRemoval(n, S, L, root, B);
      ghost var m2 := Chunks(S);
      S', L' := RemoveLines(at, n, S, L, root, B);
      KeepsTwice(m0, m2, Chunks(S'), B, this);
      NoDupCut(con, at, n);
    }

    method StartRemoval(n: nat, ghost S: set<Chunk>, ghost L: set<Line>, ghost root: Chunk, ghost B: set<Chunk>)
      requires this in S && !leaf && Inv(View(S, L), root, Nothing, B, {}) && Below(View(S, L), root, B, this)
      modifies this`size
      ensures Removing(this, S, L, root, B) && size == |contents| - n && Keeps(old(Chunks(S)), Chunks(S), B, this)
    {
      ghost var k := View(S, L);
      Busier(k, root, B, this);
      RecordedFound(k, root, B, this);
      SetSize(size - n, S, L);
      SizeChanged(k, View(S, L), root, B, this);
    }

    method SetSize(sz: int, ghost S: set<Chunk>, ghost L: set<Line>)
      requires this in S
      modifies this`size
      ensures OnlyChanged(old(Chunks(S)), Chunks(S), this) && Rows(L) == old(Rows(L))
      ensures Record() == old(Record()).(size := sz)
    {
      size := sz;
    }

    /** The loop of `BranchChunk.remove` over the children. */
    method RemoveLines(at0: nat, n0: nat, ghost S: set<Chunk>, ghost L: set<Line>, ghost root: Chunk,
                       ghost B: set<Chunk>) returns (ghost S': set<Chunk>, ghost L': set<Line>)
      requires Removing(this, S, L, root, B) && at0 + n0 <= |contents| && NoDup(contents)
      modifies S, L`parent
      ensures Shrunk(S, S') && Detached(L, L') && contents == Cut(old(contents), at0, n0)
      ensures Removing(this, S', L', root, B) && Keeps(old(Chunks(S)), Chunks(S'), B, this)
      ensures parent == old(parent) && rank == old(rank) && size == old(size)
      decreases rank, 6
    {
      S', L' := S, L;
      ghost var con0, m0 := contents, Chunks(S);
      var i: nat, at: nat, n: nat := 0, at0, n0;
      StartWalking(at0, n0, S, L, root, B);
      while i < |children|
        invariant Walking(this, m0, con0, at0, n0, i, at, n, S', L', root, B) && Shrunk(S, S') && Detached(L, L')
        invariant parent == old(parent) && rank == old(rank) && size == old(size)
        decreases |children| - i
      {
        var done;
        done, i, at, n, S', L' := RemoveNext(i, at, n, con0, at0, n0, m0, S', L', root, B);
        if done { return; }
      }
      EndWalking(m0, con0, at0, n0, i, at, n, S', L', root, B);
    }

    lemma StartWalking(at0: nat, n0: nat, S: set<Chunk>, L: set<Line>, root: Chunk, B: set<Chunk>)
      requires Removing(this, S, L, root, B) && at0 + n0 <= |contents|
      ensures Walking(this, Chunks(S), contents, at0, n0, 0, at0, n0, S, L, root, B)
    {
    }

    lemma EndWalking(m0: map<Chunk, Node<Chunk, Line>>, con0: seq<Line>, at0: nat, n0: nat, i: nat, at: nat, n: nat,
                     S: set<Chunk>, L: set<Line>, root: Chunk, B: set<Chunk>)
      requires Walking(this, m0, con0, at0, n0, i, at, n, S, L, root, B) && i >= |children| && at0 + n0 <= |con0|
      ensures Removing(this, S, L, root, B) && Keeps(m0, Chunks(S), B, this) && contents == Cut(con0, at0, n0)
    {
      WalkEnd(con0, at0, n0, parts, i, at, n);
    }

    method RemoveNext(i: nat, at: nat, n: nat, ghost con0: seq<Line>, ghost at0: nat, ghost n0: nat,
                      ghost m0: map<Chunk, Node<Chunk, Line>>, ghost S: set<Chunk>, ghost L: set<Line>,
                      ghost root: Chunk, ghost B: set<Chunk>)
      returns (done: bool, i': nat, at': nat, n': nat, ghost S': set<Chunk>, ghost L': set<Line>)
      requires Walking(this, m0, con0, at0, n0, i, at, n, S, L, root, B) && i < |children| && NoDup(con0) &&
        at0 + n0 <= |con0|
      modifies S, L`parent
      ensures Shrunk(S, S') && Detached(L, L')
      ensures parent == old(parent) && rank == old(rank) && size == old(size)
      ensures done ==>
        Removing(this, S', L', root, B) && Keeps(m0, Chunks(S'), B, this) && contents == Cut(con0, at0, n0)
      ensures !done ==>
        Walking(this, m0, con0, at0, n0, i', at', n', S', L', root, B) && |children| - i' < old(|children|) - i
      decreases rank, 5
    {
      var sz := SizeOfChild(i, S, L, root, B);
      if at < sz {
        done, i', at', n', S', L' := RemoveHere(i, at, n, sz, con0, at0, n0, m0, S, L, root, B);
      } else {
        WalkSkip(con0, at0, n0, parts, i, at, n);
        done, i', at', n', S', L' := false, i + 1, at - sz, n, S, L;
      }
    }

    /** One round of that loop at a child that has lines to remove. */
    method RemoveHere(i: nat, at: nat, n: nat, sz: nat, ghost con0: seq<Line>, ghost at0: nat, ghost n0: nat,
                      ghost m0: map<Chunk, Node<Chunk, Line>>, ghost S: set<Chunk>, ghost L: set<Line>,
                      ghost root: Chunk, ghost B: set<Chunk>)
      returns (done: bool, i': nat, at': nat, n': nat, ghost S': set<Chunk>, ghost L': set<Line>)
      requires Walking(this, m0, con0, at0, n0, i, at, n, S, L, root, B) && i < |parts| && sz == |parts[i]| && at < sz
      requires NoDup(con0) && at0 + n0 <= |con0|
      modifies S, L`parent
      ensures Shrunk(S, S') && Detached(L, L')
      ensures parent == old(parent) && rank == old(rank) && size == old(size)
      ensures done ==>
        Removing(this, S', L', root, B) && Keeps(m0, Chunks(S'), B, this) && contents == Cut(con0, at0, n0)
      ensures !done ==>
        Walking(this, m0, con0, at0, n0, i', at', n', S', L', root, B) && |children| - i' < old(|children|) - i
      decreases rank, 4
    {
      var rm := if n <= sz - at then n else sz - at;
      ghost var ps, m1 := parts, Chunks(S);
      FlatNoDup(con0, at0, n0, i, at, n, S, L, root, B);
      i', S', L' := RemoveFromChild(i, at, rm, ps, S, L, root, B);
      at', n', done := 0, n - rm, n == rm;
      TakenFrom(con0, at0, n0, ps, i, at, n, rm, m0, m1, i', S', L', root, B);
    }

    /** The round has done its part. */
    lemma TakenFrom(con0: seq<Line>, at0: nat, n0: nat, ps: seq<seq<Line>>, i: nat, at: nat, n: nat, rm: nat,
                    m0: map<Chunk, Node<Chunk, Line>>, m1: map<Chunk, Node<Chunk, Line>>, i': nat, S: set<Chunk>,
                    L: set<Line>, root: Chunk, B: set<Chunk>)
      requires Progress(con0, at0, n0, ps, i, at, n) && i < |ps| && at < |ps[i]| && at0 + n0 <= |con0|
      requires rm == if n <= |ps[i]| - at then n else |ps[i]| - at
      requires Removing(this, S, L, root, B) && Keeps(m0, m1, B, this) && Keeps(m1, Chunks(S), B, this)
      requires parts == DropOrCut(ps, i, at, rm) && i' == NextAfter(ps, i, rm)
      ensures rm <= n && Keeps(m0, Chunks(S), B, this) && |parts| - i' < |ps| - i
      ensures if rm == n then contents == Cut(con0, at0, n0)
              else Walking(this, m0, con0, at0, n0, i', 0, n - rm, S, L, root, B)
    {
      WalkTaken(con0, at0, n0, ps, i, at, n, rm, parts, i');
      KeepsTwice(m0, m1, Chunks(S), B, this);
      Walked(m0, con0, at0, n0, i', n - rm, S, L, root, B);
    }

    lemma Walked(m0: map<Chunk, Node<Chunk, Line>>, con0: seq<Line>, at0: nat, n0: nat, i: nat, n: nat, S: set<Chunk>,
                 L: set<Line>, root: Chunk, B: set<Chunk>)
      requires Removing(this, S, L, root, B) && Keeps(m0, Chunks(S), B, this) && Taken(con0, at0, n0, parts, i, 0, n)
      ensures if n == 0 then at0 + n0 <= |con0| && contents == Cut(con0, at0, n0)
              else Walking(this, m0, con0, at0, n0, i, 0, n, S, L, root, B)
    {
    }

    lemma FlatNoDup(con0: seq<Line>, at0: nat, n0: nat, i: nat, at: nat, n: nat, S: set<Chunk>, L: set<Line>,
                    root: Chunk, B: set<Chunk>)
      requires Removing(this, S, L, root, B) && Progress(con0, at0, n0, parts, i, at, n) && NoDup(con0)
      ensures NoDup(contents) && |parts| == |children|
    {
      WalkNoDup(con0, at0, n0, parts, i, at, n, contents);
    }

    method SizeOfChild(i: nat, ghost S: set<Chunk>, ghost L: set<Line>, ghost root: Chunk, ghost B: set<Chunk>)
      returns (sz: nat)
      requires Removing(this, S, L, root, B) && i < |children|
      ensures i < |parts| && sz == |parts[i]|
    {
      RecordedChild(View(S, L), root, B, this, i);
      sz := children[i].ChunkSize();
    }

    /** What `BranchChunk.remove` does when few lines are left: they all go into one new leaf. */
    method CollapseAll(ghost S: set<Chunk>, ghost L: set<Line>, ghost root: Chunk, ghost B: set<Chunk>)
      returns (ghost S': set<Chunk>)
      requires Removing(this, S, L, root, B) && size == |contents| < 25 && NoDup(contents)
      modifies this`children, this`parts, this`heights, L`parent
      ensures Shrunk(S, S') && this in S' && Inv(View(S', L), root, Nothing, B, {}) && Below(View(S', L), root, B, this)
      ensures Keeps(old(Chunks(S)), Chunks(S'), B, this)
      ensures parent == old(parent) && rank == old(rank) && size == old(size) && contents == old(contents)
      ensures |children| == 1 && children[0] in S' && children[0].leaf
    {
      var ls;
      ghost var D, hs;
      RemovingCollects(this, S, L, root, B);
      ls, D, hs := CollectLines(S, L, root, B + {this});
      CollectedCollapses(this, S, L, root, B, D, hs);
      S' := ReplaceSubtree(ls, D, hs, S, L, root, B);
    }

    method ReplaceSubtree(ls: seq<Line>, ghost D: set<Chunk>, ghost hs: seq<int>, ghost S: set<Chunk>,
                          ghost L: set<Line>, ghost root: Chunk, ghost B: set<Chunk>) returns (ghost S': set<Chunk>)
      requires this in S && ls == contents && Collapsible(View(S, L), root, B, this, D, hs)
      requires this in D && D <= S && |hs| == |ls| && forall i :: 0 <= i < |ls| ==> ls[i] in L && hs[i] == ls[i].height
      modifies this`children, this`parts, this`heights, L`parent
      ensures Shrunk(S, S') && this in S' && Inv(View(S', L), root, Nothing, B, {}) && Below(View(S', L), root, B, this)
      ensures Keeps(old(Chunks(S)), Chunks(S'), B, this)
      ensures parent == old(parent) && rank == old(rank) && size == old(size) && contents == old(contents)
      ensures |children| == 1 && children[0] in S' && children[0].leaf
    {
      ghost var k := View(S, L);
      ghost var S1 := (S - D) + {this};
      ghost var m0 := Chunks(S1);
      ExceptBelow(S, D, this, S1);
      var newleaf := NewOnlyChild(ls, hs, S1, L);
      S' := S1 + {newleaf};
      CollapseDone(k, m0, S1, L, root, B, this, newleaf, D, hs);
    }

    method NewOnlyChild(ls: seq<Line>, ghost hs: seq<int>, ghost S: set<Chunk>, ghost L: set<Line>) returns (y: Chunk)
      requires this in S && |hs| == |ls| && forall i :: 0 <= i < |ls| ==> ls[i] in L && hs[i] == ls[i].height
      modifies this`children, this`parts, this`heights, L`parent
      ensures fresh(y) && y !in S && OnlyChanged(old(Chunks(S)), Chunks(S), this)
      ensures y.Record() == Node(true, ls, [], 0, Sum(hs), Some(this), ls, [], hs, 0)
      ensures Record() == old(Record()).(children := [y], parts := [ls], heights := [Sum(hs)])
      ensures MovedTo(old(Rows(L)), Rows(L), y, ls)
    {
      y := new Chunk.Leaf(ls, hs, L);
      children := [y];
      parts, heights := [ls], [Sum(hs)];
      y.parent := this;
    }

    /** `collapse`: all lines below this chunk; `D` are the chunks visited, `hs` the heights of the lines. */
    method CollectLines(ghost S: set<Chunk>, ghost L: set<Line>, ghost root: Chunk, ghost busy: set<Chunk>)
      returns (ls: seq<Line>, ghost D: set<Chunk>, ghost hs: seq<int>)
      requires Collecting(this, S, L, root, busy)
      ensures ls == contents && Subtree(View(S, L), this, D, hs)
      decreases rank, 1
    {
      if leaf {
        SubtreeLeaf(View(S, L), root, busy, this);
        return lines, {this}, heights;
      }
      StartCollecting(this, S, L, root, busy);
      ls, D, hs := [], {this}, [];
      for i := 0 to |children|
        invariant Collected(this, S, L, i, ls, D, hs)
      {
        ls, D, hs := CollectNext(i, ls, D, hs, S, L, root, busy);
      }
      EndCollecting(this, S, L, root, busy, ls, D, hs);
    }

    method CollectNext(i: nat, ls0: seq<Line>, ghost D0: set<Chunk>, ghost hs0: seq<int>, ghost S: set<Chunk>,
                       ghost L: set<Line>, ghost root: Chunk, ghost busy: set<Chunk>)
      returns (ls: seq<Line>, ghost D: set<Chunk>, ghost hs: seq<int>)
      requires !leaf && Collecting(this, S, L, root, busy) && i < |children| && Collected(this, S, L, i, ls0, D0, hs0)
      ensures Collected(this, S, L, i + 1, ls, D, hs)
      decreases rank, 0
    {
      ChildCollecting(this, S, L, root, busy, i);
      var ls';
      ghost var D', hs';
      ls', D', hs' := children[i].CollectLines(S, L, root, busy);
      NextCollected(this, S, L, root, busy, i, ls0, D0, hs0, ls', D', hs');
      ls, D, hs := ls0 + ls', D0 + D', hs0 + hs';
    }

    /** The lines `at..at + rm` of child `i` are removed; a child that has no lines left is dropped. */
    method RemoveFromChild(i: nat, at: nat, rm: nat, ghost ps: seq<seq<Line>>, ghost S: set<Chunk>, ghost L: set<Line>,
                           ghost root: Chunk, ghost B: set<Chunk>)
      returns (i': nat, ghost S': set<Chunk>, ghost L': set<Line>)
      requires ps == parts && Removing(this, S, L, root, B) && i < |children| == |parts| && at < |parts[i]| &&
        at + rm <= |parts[i]| && NoDup(contents)
      modifies S, L`parent
      ensures Shrunk(S, S') && Detached(L, L')
      ensures Removing(this, S', L', root, B) && Keeps(old(Chunks(S)), Chunks(S'), B, this)
      ensures parent == old(parent) && rank == old(rank) && size == old(size)
      ensures parts == DropOrCut(ps, i, at, rm) && i' == NextAfter(ps, i, rm) && |children| == |parts|
      decreases rank, 3
    {
      RecordedChild(View(S, L), root, B, this, i);
      var sz := children[i].ChunkSize();
      if sz == rm {
        S', L' := RemoveChild(i, at, rm, S, L, root, B);
        i' := i;
      } else {
        S', L' := ShrinkChild(i, at, rm, S, L, root, B);
        i' := i + 1;
      }
    }

    /** All lines of child `i` are removed. */
    method RemoveChild(i: nat, at: nat, rm: nat, ghost S: set<Chunk>, ghost L: set<Line>, ghost root: Chunk,
                       ghost B: set<Chunk>) returns (ghost S': set<Chunk>, ghost L': set<Line>)
      requires Removing(this, S, L, root, B) && i < |children| == |parts| && at + rm <= |parts[i]| == rm &&
        NoDup(contents)
      modifies S, L`parent
      ensures Shrunk(S, S') && Detached(L, L')
      ensures Removing(this, S', L', root, B) && Keeps(old(Chunks(S)), Chunks(S'), B, this)
      ensures parent == old(parent) && rank == old(rank) && size == old(size)
      ensures parts == Cut(old(parts), i, 1) && |children| == |parts|
      decreases rank, 2
    {
      ghost var m0 := Chunks(S);
      S', L' := ShrinkChild(i, at, rm, S, L, root, B);
      ghost var m1 := Chunks(S');
      S' := DropChild(i, S', L', root, B);
      KeepsTwice(m0, m1, Chunks(S'), B, this);
    }

    method ShrinkChild(i: nat, at: nat, rm: nat, ghost S: set<Chunk>, ghost L: set<Line>, ghost root: Chunk,
                       ghost B: set<Chunk>) returns (ghost S': set<Chunk>, ghost L': set<Line>)
      requires Removing(this, S, L, root, B) && i < |children| == |parts| && at + rm <= |parts[i]| && NoDup(contents)
      modifies S, L`parent
      ensures Shrunk(S, S') && Detached(L, L')
      ensures Removing(this, S', L', root, B) && Keeps(old(Chunks(S)), Chunks(S'), B, this)
      ensures parent == old(parent) && rank == old(rank) && size == old(size) && children == old(children)
      ensures parts == old(parts)[i := Cut(old(parts)[i], at, rm)] && |children| == |parts|
      ensures parts[i] == [] ==> Droppable(children[i], S')
      decreases rank, 1
    {
      ghost var k := View(S, L);
      RecordedChild(k, root, B, this, i);
      var child := children[i];
      var oldHeight := child.height;
      S', L' := ShrinkBelow(i, at, rm, S, L, root, B);
      ghost var k1 := View(S', L');
      UpdateRecord(i, height - (oldHeight - child.height), S', L');
      ChildRecorded(k, k1, View(S', L'), root, B, this, i, child);
    }

    /** The call on the child. */
    method ShrinkBelow(i: nat, at: nat, rm: nat, ghost S: set<Chunk>, ghost L: set<Line>, ghost root: Chunk,
                       ghost B: set<Chunk>) returns (ghost S': set<Chunk>, ghost L': set<Line>)
      requires Removing(this, S, L, root, B) && i < |children| == |parts| && at + rm <= |parts[i]| && NoDup(contents)
      modifies S, L`parent
      ensures Shrunk(S, S') && Detached(L, L') && this in S' && Record() == old(Record()) && i < |children|
      ensures var d := children[i];
              d in S' && d != this && Inv(View(S', L'), root, Nothing, B + {this}, {}) &&
              Below(View(S', L'), root, B + {this}, d) &&
              Keeps(old(Chunks(S)), Chunks(S'), B + {this}, d) && d.contents == Cut(old(parts)[i], at, rm) &&
              (d.contents == [] ==> Droppable(d, S'))
      decreases rank, 0
    {
      ghost var k := View(S, L);
      RecordedChild(k, root, B, this, i);
      BelowChild(k, root, B, this, i);
      NoDupPart(parts, i);
      ghost var me := Chunks(S)[this];
      assert me == Record();
      var child := children[i];
      if child.leaf {
        L' := child.LeafRemove(at, rm, S, L, root, B + {this});
        S' := S;
      } else {
        S', L' := child.BranchRemove(at, rm, S, L, root, B + {this});
      }
      assert Chunks(S')[this] == me;
    }

    method UpdateRecord(i: nat, nh: int, ghost S: set<Chunk>, ghost L: set<Line>)
      requires this in S && i < |children| && i < |parts| && i < |heights| && children[i] in S && children[i] != this
      modifies this`height, this`parts, this`heights, this`contents
      ensures OnlyChanged(old(Chunks(S)), Chunks(S), this) && Rows(L) == old(Rows(L))
      ensures var n, d := old(Record()), old(children[i]);
              var ps := n.parts[i := d.contents];
              Record() == n.(height := nh, parts := ps, heights := n.heights[i := d.height], contents := Flat(ps))
    {
      height := nh;
      parts, heights := parts[i := children[i].contents], heights[i := children[i].height];
      contents := Flat(parts);
    }

    method DropChild(i: nat, ghost S: set<Chunk>, ghost L: set<Line>, ghost root: Chunk, ghost B: set<Chunk>)
      returns (ghost S': set<Chunk>)
      requires Removing(this, S, L, root, B) && i < |children| == |parts| && parts[i] == [] && Droppable(children[i], S)
      modifies this`children, this`parts, this`heights, {children[i]}`parent
      ensures S' <= S
      ensures Removing(this, S', L, root, B) && Keeps(old(Chunks(S)), Chunks(S'), B, this)
      ensures parent == old(parent) && rank == old(rank) && size == old(size)
      ensures parts == Cut(old(parts), i, 1) && |children| == |parts|
    {
      ghost var k := View(S, L);
      var child := children[i];
      ghost var E := if child.leaf then {child} else {child, child.children[0]};
      DropReady(k, root, B, this, i, child, E);
      S' := S - E;
      Unlink(i, child, S', L);
      assert ChildDrop(k, View(S', L), root, B, this, i, E);
      ChildDropped(k, View(S', L), root, B, this, i, E);
    }

    method Unlink(i: nat, child: Chunk, ghost S: set<Chunk>, ghost L: set<Line>)
      requires this in S && child !in S && i < |children| == |parts| == |heights|
      modifies this`children, this`parts, this`heights, child`parent
      ensures OnlyChanged(old(Chunks(S)), Chunks(S), this) && Rows(L) == old(Rows(L)) && size == old(size)
      ensures var n := old(Record());
              Record() == n.(children := Cut(n.children, i, 1), parts := Cut(n.parts, i, 1),
              heights := Cut(n.heights, i, 1))
    {
      children := Cut(children, i, 1);
      parts, heights := Cut(parts, i, 1), Cut(heights, i, 1);
      child.parent := null;
    }

    method Detach(at: nat, n: nat, ghost L: set<Line>) returns (h: int)
      requires leaf && at + n <= |lines| == |heights|
      requires forall i :: 0 <= i < |lines| ==> lines[i] in L && lines[i].height == heights[i]
      modifies L`parent
      ensures h == Sum(heights[at..at + n])
      ensures forall l :: l in L - Elems(lines[at..at + n]) ==> l.parent == old(l.parent)
      ensures forall l :: l in lines[at..at + n] ==> l.parent == null
    {
      h := 0;
      ghost var hs := heights[at..at + n];
      for i := at to at + n
        invariant h == Sum(hs[..i - at])
        invariant forall j :: at <= j < i ==> lines[j].parent == null
        invariant forall l :: l in L && l !in lines[at..i] ==> l.parent == old(l.parent)
      {
        h := h + lines[i].height;
        lines[i].parent := null;
        SumPrefix(hs, i - at);
        assert lines[at..i + 1] == lines[at..i] + [lines[i]];
      }
      assert hs[..n] == hs;
      forall l | l in lines[at..at + n] ensures l.parent == null {
        var j :| 0 <= j < n && lines[at..at + n][j] == l;
        assert lines[at + j] == l;
      }
    }

    /** Gives this branch new totals, and a new record of its child `i`. */
    method SetBranch(nsize: int, nh: int, ghost i: nat, ghost con: seq<Line>, ghost part: seq<Line>, ghost ph: int,
                     ghost S: set<Chunk>, ghost L: set<Line>)
      requires this in S && i < |parts| && i < |heights| && nsize == |con|
      modifies this`size, this`height, this`contents, this`parts, this`heights
      ensures BranchPut(old(View(S, L)), View(S, L), this, i, con, nh, part, ph)
    {
      size, height := nsize, nh;
      contents, parts, heights := con, parts[i := part], heights[i := ph];
      RowsStay(L);
    }

    /** `new LeafChunk(lines)` */
    constructor Leaf(ls: seq<Line>, ghost hs: seq<int>, ghost L: set<Line>)
      requires |hs| == |ls| && forall i :: 0 <= i < |ls| ==> ls[i] in L && hs[i] == ls[i].height
      modifies ls`parent
      ensures Record() == Node(true, ls, [], 0, Sum(hs), None, ls, [], hs, 0)
      ensures MovedTo(old(Rows(L)), Rows(L), this, ls)
    {
      leaf, lines, children, size, height, parent := true, ls, [], 0, 0, null;
      contents, parts, heights, rank := ls, [], hs, 0;
      new;
      for i := 0 to |ls|
        invariant Record() == Node(true, ls, [], 0, Sum(hs[..i]), None, ls, [], hs, 0)
        invariant forall j :: 0 <= j < i ==> ls[j].parent == this
        invariant forall l :: l in L ==> l.height == old(l.height) && (l !in ls ==> l.parent == old(l.parent))
      {
        ls[i].parent := this;
        height := height + ls[i].height;
        SumPrefix(hs, i);
      }
      assert hs[..|hs|] == hs;
    }

    /** The child in which position `at` lies, at its end if there is a choice, and the position within it. */
    method FindChild(at: nat, ghost o: Owed<Chunk, Line>, ghost S: set<Chunk>, ghost L: set<Line>, ghost root: Chunk)
      returns (i: nat, a: nat)
      requires this in S && !leaf && at <= |contents| && Inv(View(S, L), root, o, {}, {}) && (o.Owed? ==> o.x == this)
      ensures i < |children| == |parts| == |heights|
      ensures children[i] in S && children[i].contents == parts[i] && children[i].height == heights[i]
      ensures children[i].rank < rank && children[i].parent == this
      ensures a <= |parts[i]| && |Flat(parts[..i])| + a == at
    {
      ghost var k := View(S, L);
      BranchLengths(k, root, o, {}, this);
      i, a := 0, at;
      while true
        invariant i < |children| && |Flat(parts[..i])| + a == at
        decreases |children| - i
      {
        ChildOf(k, root, o, {}, this, i);
        var sz := children[i].ChunkSize();
        if a <= sz { return; }
        a := a - sz;
        FlatPrefix(parts, i);
        assert parts[..|parts|] == parts;
        i := i + 1;
      }
    }

    function ChunkSize(): int
      reads this
    {
      if leaf then |lines| else size
    }

    /** Gives this leaf the lines `nl` and the height `nh`; the lines `ls` join the document. */
    method PutLeaf(nl: seq<Line>, nh: int, ls: seq<Line>, ghost nhs: seq<int>, ghost hs: seq<int>, ghost S: set<Chunk>,
                   ghost L: set<Line>)
      requires this in S && Attachable(ls, hs, L)
      modifies this`lines, this`height, this`contents, this`heights, ls`parent
      ensures LeafPut(old(View(S, L)), View(S, L + Elems(ls)), this, nl, nh, nhs, ls, hs)
    {
      ghost var k := View(S, L);
      SetParents(ls, this, hs, L);
      SetLeaf(nl, nh, nhs, S);
      LeafPutIs(k, View(S, L + Elems(ls)), this, nl, nh, nhs, ls, hs);
    }

    method SetLeaf(nl: seq<Line>, nh: int, ghost nhs: seq<int>, ghost S: set<Chunk>)
      requires this in S
      modifies this`lines, this`height, this`contents, this`heights
      ensures Record() == old(Record()).(lines := nl, contents := nl, heights := nhs, height := nh)
      ensures OnlyChanged(old(Chunks(S)), Chunks(S), this)
    {
      lines, height := nl, nh;
      contents, heights := nl, nhs;
    }
  }

  ghost function Link(c: Chunk?): Option<Chunk> {
    if c == null then None else Some(c)
  }

  /** The tree of the chunks `S` and the lines `L` at this moment. */
  ghost function View(S: set<Chunk>, L: set<Line>): Store<Chunk, Line>
    reads S, L
  {
    Store(Chunks(S), Rows(L))
  }

  ghost function Chunks(S: set<Chunk>): map<Chunk, Node<Chunk, Line>>
    reads S
  {
    map c | c in S :: c.Record()
  }

  lemma ChunksPlus(S: set<Chunk>, y: Chunk)
    ensures Chunks(S + {y}) == Chunks(S)[y := y.Record()]
  {
  }

  lemma SpillDone(k: Store<Chunk, Line>, m1: map<Chunk, Node<Chunk, Line>>, S: set<Chunk>, L: set<Line>, root: Chunk,
                  p: Chunk, i: nat, x: Chunk, y: Chunk, m: nat)
    requires SpillSite(k, root, p, i, x) && y !in S && k.chunks[x].leaf
    requires m <= |k.chunks[x].lines| && |k.chunks[x].lines| - m <= 50
    requires LeafDivided(k.chunks, m1, Chunks(S), p, i, x, y, y.Record(), m)
    requires MovedTo(k.lines, Rows(L), y, y.lines)
    ensures Inv(View(S + {y}, L), root, Nothing, {}, {p, x})
  {
    ChunksPlus(S, y);
    LeafSpillSteps(k, View(S + {y}, L), m1, Chunks(S), root, p, i, x, y, m);
    LeafSpilled(k, View(S + {y}, L), root, p, i, x, y, m);
  }

  ghost function Rows(L: set<Line>): map<Line, Row<Chunk>>
    reads L`height, L`parent
  {
    map l | l in L :: Row(l.height, Link(l.parent))
  }

  twostate lemma RowsStay(L: set<Line>)
    requires forall l :: l in L ==> l.height == old(l.height) && l.parent == old(l.parent)
    ensures Rows(L) == old(Rows(L))
  {
  }

  /** `ls` are lines with the heights `hs`, none of which is in the document `L`. */
  ghost predicate Attachable(ls: seq<Line>, hs: seq<int>, L: set<Line>)
    reads ls
  {
    NoDup(ls) && |hs| == |ls| && forall i :: 0 <= i < |ls| ==> ls[i] !in L && hs[i] == ls[i].height
  }

  /** `me` is a branch below the root; only it and its parent may be too long. */
  ghost predicate Spilling(me: Chunk, S: set<Chunk>, L: set<Line>, root: Chunk)
    reads S, L
  {
    true == (
    root in S && me in S && !me.leaf && me.parent != null && me.parent in S && !me.parent.leaf &&
    me.rank < me.parent.rank <= root.rank && me in me.parent.children &&
    Inv(View(S, L), root, Nothing, {}, {me.parent, me})
    )
  }

  /** The cached values of branch `c` and of its children agree. */
  ghost predicate Splittable(c: Chunk, S: set<Chunk>)
    reads c, S
  {
    true == (
    !c.leaf && c.lines == [] && |c.parts| == |c.heights| == |c.children| && NoDup(c.children) && c !in c.children &&
    c.contents == Flat(c.parts) && c.size == |c.contents| && c.height == Sum(c.heights) &&
    forall i :: 0 <= i < |c.children| ==>
      c.children[i] in S && c.children[i].ChunkSize() == |c.parts[i]| && c.children[i].height == c.heights[i]
    )
  }

  lemma SplittableIs(c: Chunk, S: set<Chunk>)
    requires c in S
    ensures Splittable(c, S) <==> SplittableIn(Chunks(S), c)
  {
    assert Chunks(S)[c] == c.Record();
    forall i | 0 <= i < |c.children| && c.children[i] in S ensures Chunks(S)[c.children[i]] == c.children[i].Record() {
    }
  }

  lemma SplittablePart(c: Chunk, S: set<Chunk>, lo: nat, hi: nat)
    requires Splittable(c, S) && lo <= hi <= |c.children|
    ensures var cs := c.children[lo..hi];
            |cs| == |c.parts[lo..hi]| == |c.heights[lo..hi]| == hi - lo && NoDup(cs) && c !in cs &&
            forall i :: 0 <= i < |cs| ==>
              cs[i] in S && cs[i].ChunkSize() == |c.parts[lo..hi][i]| && cs[i].height == c.heights[lo..hi][i]
  {
    var cs := c.children[lo..hi];
    assert forall i :: 0 <= i < |cs| ==> cs[i] == c.children[lo + i];
  }

  lemma SpillingFound(me: Chunk, S: set<Chunk>, L: set<Line>, root: Chunk)
    requires Inv(View(S, L), root, Nothing, {}, {me}) && me in S && !me.leaf && me.parent != null
    ensures Spilling(me, S, L, root)
  {
    var k := View(S, L);
    assert At(k, root, Nothing, {}, {me}, me);
    assert At(k, root, Nothing, {}, {me}, me.parent);
    Narrow(k, root, {me}, {me.parent, me});
  }

  lemma RootDone(k: Store<Chunk, Line>, m1: map<Chunk, Node<Chunk, Line>>, m2: map<Chunk, Node<Chunk, Line>>,
                 S: set<Chunk>, L: set<Line>, root: Chunk, x: Chunk, y: Chunk, m: nat)
    requires Inv(k, root, Nothing, {}, {root}) && k.lines == Rows(L)
    requires 0 < m < |k.chunks[root].children| && |k.chunks[root].children| - m <= 10
    requires RootDivided(k.chunks, m1, m2, Chunks(S), root, x, y, x.Record(), y.Record(), m)
    ensures |x.children| == m && x.parent == root && |root.children| == 2
    ensures Spilling(x, S + {x, y}, L, root) && root.contents == k.chunks[root].contents
  {
    ChunksPlus(S, x);
    ChunksPlus(S + {x}, y);
    assert S + {x} + {y} == S + {x, y};
    var k' := View(S + {x, y}, L);
    RootSpillSteps(k, k', m1, m2, Chunks(S), root, x, y, m);
    RootSpilled(k, k', root, x, y, m);
    assert root.children[0] == x;
    Narrow(k', root, {x}, {root, x});
  }

  lemma SplittableFound(c: Chunk, S: set<Chunk>, L: set<Line>, root: Chunk, over: set<Chunk>)
    requires Inv(View(S, L), root, Nothing, {}, over) && c in S && !c.leaf
    ensures Splittable(c, S)
  {
    var k := View(S, L);
    assert At(k, root, Nothing, {}, over, c);
    forall i | 0 <= i < |c.children|
      ensures c.children[i] in S && c.children[i].ChunkSize() == |c.parts[i]| && c.children[i].height == c.heights[i]
    {
      ChildOf(k, root, Nothing, over, c, i);
    }
  }

  method IndexOf<T(==)>(s: seq<T>, x: T) returns (i: nat)
    requires x in s
    ensures i < |s| && s[i] == x
  {
    i := 0;
    while s[i] != x
      invariant i < |s| && x in s[i..]
      decreases |s| - i
    {
      i := i + 1;
    }
  }

  lemma SplitDone(k: Store<Chunk, Line>, m1: map<Chunk, Node<Chunk, Line>>, m2: map<Chunk, Node<Chunk, Line>>,
                  S: set<Chunk>, L: set<Line>, root: Chunk, p: Chunk, i: nat, x: Chunk, y: Chunk, m: nat)
    requires SpillSite(k, root, p, i, x) && y !in S && !k.chunks[x].leaf && k.lines == Rows(L)
    requires 0 < m < |k.chunks[x].children| && |k.chunks[x].children| - m <= 10
    requires BranchDivided(k.chunks, m1, m2, Chunks(S), p, i, x, y, y.Record(), m)
    ensures Spilling(x, S + {y}, L, root)
    ensures x.parent == p && |x.children| == m && |p.children| == |k.chunks[p].children| + 1
    ensures x.rank == k.chunks[x].rank && root.rank == k.chunks[root].rank && root.contents == k.chunks[root].contents
  {
    ChunksPlus(S, y);
    BranchSpillSteps(k, View(S + {y}, L), m1, m2, Chunks(S), root, p, i, x, y, m);
    BranchSpilled(k, View(S + {y}, L), root, p, i, x, y, m);
    BranchSpillFacts(k, View(S + {y}, L), root, p, i, x, y, m);
  }

  /** `S'` is `S` and some new chunks. */
  twostate predicate Grown(S: set<Chunk>, new S': set<Chunk>) {
    true == (S <= S' && forall c :: c in S' && c !in S ==> fresh(c))
  }

  /** Branch `c` is being worked on, as are its ancestors `B`; its records are right. */
  ghost predicate Removing(c: Chunk, S: set<Chunk>, L: set<Line>, root: Chunk, B: set<Chunk>)
    reads c, S, L
  {
    true == (
    c in S && !c.leaf && Inv(View(S, L), root, Nothing, B + {c}, {}) && Below(View(S, L), root, B, c) &&
    Recorded(View(S, L), c) &&
    |c.parts| == |c.children| == |c.heights| && c.contents == Flat(c.parts)
    )
  }

  /** The walk of a removal over the children of `c` has come to child `i`. */
  ghost predicate Walking(c: Chunk, m0: map<Chunk, Node<Chunk, Line>>, con0: seq<Line>, at0: nat, n0: nat, i: nat,
                          at: nat, n: nat, S: set<Chunk>, L: set<Line>, root: Chunk, B: set<Chunk>)
    reads c, S, L
  {
    true == (Removing(c, S, L, root, B) && Keeps(m0, Chunks(S), B, c) && Progress(con0, at0, n0, c.parts, i, at, n))
  }

  /** The lines below `c` can be collected, although the chunks `busy` are being worked on. */
  ghost predicate Collecting(c: Chunk, S: set<Chunk>, L: set<Line>, root: Chunk, busy: set<Chunk>)
    reads c, S, L, busy
  {
    true == (c in S && Inv(View(S, L), root, Nothing, busy, {}) && Recorded(View(S, L), c) &&
      forall b :: b in busy ==> b == c || b.rank > c.rank)
  }

  /** `ls` are the lines below the first `i` children. */
  ghost predicate Collected(c: Chunk, S: set<Chunk>, L: set<Line>, i: nat, ls: seq<Line>, D: set<Chunk>, hs: seq<int>)
    reads c, S, L
  {
    true == (c in S && i <= |c.parts| && SubtreeUpTo(View(S, L), c, i, D, hs) && ls == Flat(c.parts[..i]))
  }

  lemma StartCollecting(c: Chunk, S: set<Chunk>, L: set<Line>, root: Chunk, busy: set<Chunk>)
    requires Collecting(c, S, L, root, busy) && !c.leaf
    ensures Collected(c, S, L, 0, [], {c}, [])
  {
    SubtreeStart(View(S, L), root, busy, c);
  }

  lemma ChildCollecting(c: Chunk, S: set<Chunk>, L: set<Line>, root: Chunk, busy: set<Chunk>, i: nat)
    requires Collecting(c, S, L, root, busy) && !c.leaf && i < |c.children|
    ensures Collecting(c.children[i], S, L, root, busy) && c.children[i].rank < c.rank
    ensures i < |c.parts| && c.children[i].contents == c.parts[i]
  {
    CollectChild(View(S, L), root, busy, c, i);
  }

  lemma NextCollected(c: Chunk, S: set<Chunk>, L: set<Line>, root: Chunk, busy: set<Chunk>, i: nat, ls: seq<Line>,
                      D: set<Chunk>, hs: seq<int>, ls': seq<Line>, D': set<Chunk>, hs': seq<int>)
    requires Collecting(c, S, L, root, busy) && !c.leaf && i < |c.children| && Collected(c, S, L, i, ls, D, hs)
    requires i < |c.parts| && ls' == c.parts[i] && Subtree(View(S, L), c.children[i], D', hs')
    ensures Collected(c, S, L, i + 1, ls + ls', D + D', hs + hs')
  {
    SubtreeStep(View(S, L), root, busy, c, i, D, hs, D', hs');
    FlatPrefix(c.parts, i);
  }

  lemma EndCollecting(c: Chunk, S: set<Chunk>, L: set<Line>, root: Chunk, busy: set<Chunk>, ls: seq<Line>,
                      D: set<Chunk>, hs: seq<int>)
    requires Collecting(c, S, L, root, busy) && !c.leaf && Collected(c, S, L, |c.children|, ls, D, hs)
    ensures ls == c.contents && Subtree(View(S, L), c, D, hs)
  {
    var k := View(S, L);
    assert At(k, root, Nothing, busy, {}, c);
    SubtreeEnd(k, root, busy, c, D, hs);
    assert c.parts[..|c.children|] == c.parts;
  }

  /** An empty chunk is a leaf, or has one leaf below it. */
  ghost predicate Droppable(c: Chunk, S: set<Chunk>)
    reads c, S
  {
    c in S && (!c.leaf ==> |c.children| == 1 && c.children[0] in S && c.children[0].leaf)
  }

  /** `S'` holds chunks of `S` and new chunks. */
  twostate predicate Shrunk(S: set<Chunk>, new S': set<Chunk>) {
    true == (forall c :: c in S' && c !in S ==> fresh(c))
  }

  lemma RemovingCollects(c: Chunk, S: set<Chunk>, L: set<Line>, root: Chunk, B: set<Chunk>)
    requires Removing(c, S, L, root, B)
    ensures Collecting(c, S, L, root, B + {c})
  {
  }

  lemma CollectedCollapses(c: Chunk, S: set<Chunk>, L: set<Line>, root: Chunk, B: set<Chunk>, D: set<Chunk>,
                           hs: seq<int>)
    requires Removing(c, S, L, root, B) && Subtree(View(S, L), c, D, hs)
    requires c.size == |c.contents| < 25 && NoDup(c.contents)
    ensures Collapsible(View(S, L), root, B, c, D, hs) && c in D && D <= S && |hs| == |c.contents|
    ensures forall i :: 0 <= i < |c.contents| ==> c.contents[i] in L && hs[i] == c.contents[i].height
  {
    CollapsibleFound(View(S, L), root, B, c, D, hs);
  }

  lemma ExceptBelow(S: set<Chunk>, D: set<Chunk>, x: Chunk, T: set<Chunk>)
    requires x in D && D <= S && T == (S - D) + {x}
    ensures T <= S && Chunks(T).Keys == (Chunks(S).Keys - D) + {x}
    ensures forall c :: c in Chunks(T) ==> c in Chunks(S) && Chunks(T)[c] == Chunks(S)[c]
  {
  }

  lemma CollapseDone(k: Store<Chunk, Line>, m0: map<Chunk, Node<Chunk, Line>>, S: set<Chunk>, L: set<Line>, root: Chunk,
                     B: set<Chunk>, x: Chunk, y: Chunk, D: set<Chunk>, hs: seq<int>)
    requires Collapsible(k, root, B, x, D, hs) && x in k.chunks
    requires m0.Keys == (k.chunks.Keys - D) + {x} && forall c :: c in m0 ==> c in k.chunks && m0[c] == k.chunks[c]
    requires x in S && y !in S && OnlyChanged(m0, Chunks(S), x)
    requires var ls := k.chunks[x].contents;
             MovedTo(k.lines, Rows(L), y, ls) &&
             y.Record() == Node(true, ls, [], 0, Sum(hs), Some(x), ls, [], hs, 0) &&
             x.Record() == m0[x].(children := [y], parts := [ls], heights := [Sum(hs)])
    ensures Inv(View(S + {y}, L), root, Nothing, B, {}) && Below(View(S + {y}, L), root, B, x)
    ensures Keeps(k.chunks, Chunks(S + {y}), B, x)
  {
    ChunksPlus(S, y);
    CollapseSteps(k, m0, Chunks(S), View(S + {y}, L), root, B, x, y, D, hs);
    Collapsed(k, View(S + {y}, L), root, B, x, y, D, hs);
  }

  /** The document has lost the lines of `L` that are not in `L'`, and these know it. */
  ghost predicate Detached(L: set<Line>, L': set<Line>)
    reads L
  {
    true == (L' <= L && forall l :: l in L && l !in L' ==> l.parent == null)
  }

  method SetParents(ls: seq<Line>, c: Chunk, ghost hs: seq<int>, ghost L: set<Line>)
    requires Attachable(ls, hs, L)
    modifies ls`parent
    ensures Attached(old(Rows(L)), Rows(L + Elems(ls)), c, ls, hs)
  {
    for i := 0 to |ls|
      invariant forall j :: 0 <= j < i ==> ls[j].parent == c
    {
      ls[i].parent := c;
    }
  }
}
