/** The document: a tree of chunks whose lines are, in order, the lines of the text. */
module Document {
  import opened Sequences
  import opened ChunkStore
  import opened ChunkHeights
  import opened ChunkTree

  /** The heights of lines. */
  ghost function Heights(ls: seq<Line>): (hs: seq<int>)
    reads ls
    ensures |hs| == |ls| && forall i :: 0 <= i < |ls| ==> hs[i] == ls[i].height
  {
    if ls == [] then [] else [ls[0].height] + Heights(ls[1..])
  }

  method TotalHeight(ls: seq<Line>) returns (h: int)
    ensures h == Sum(Heights(ls))
  {
    ghost var hs := Heights(ls);
    h := 0;
    for i := 0 to |ls|
      invariant h == Sum(hs[..i])
    {
      h := h + ls[i].height;
      SumPrefix(hs, i);
    }
    assert hs[..|ls|] == hs;
  }

  /** A branch with one leaf that holds one empty line */
  method EmptyTree() returns (r: Chunk, leaf: Chunk, l: Line)
    ensures fresh(r) && fresh(leaf) && fresh(l) && l.text == "" && l.spans == None
    ensures EmptyShape(r, leaf, l)
  {
    l := new Line("", None);
    leaf := new Chunk.Leaf([l], [1], {l});
    assert Rows({l})[l] == Row(l.height, Link(l.parent));
    ghost var n := leaf.Record();
    assert Chunks({leaf})[leaf] == n;
    r := new Chunk.Branch([leaf], [[l]], [1], 1, {leaf});
    assert [leaf][0] == leaf;
    assert Chunks({leaf})[leaf] == leaf.Record() == n.(parent := Some(r));
    assert l.parent == leaf;
    assert l.height == 1;
  }

  /** The fields of the tree of an empty document. */
  ghost predicate EmptyShape(r: Chunk, leaf: Chunk, l: Line)
    reads r, leaf, l
  {
    true == (r != leaf && l.height == 1 && l.parent == leaf &&
      leaf.Record() == Node(true, [l], [], 0, Sum([1]), Some(r), [l], [], [1], 0) &&
      r.Record() == Node(false, [], [leaf], |Flat([[l]])|, Sum([1]), None, Flat([[l]]), [[l]], [1], 1))
  }

  lemma EmptyIsTree(r: Chunk, leaf: Chunk, l: Line)
    requires EmptyShape(r, leaf, l)
    ensures Tree(View({r, leaf}, {l}), r) && r.contents == [l]
  {
    SingleLeaf(View({r, leaf}, {l}), r, leaf, l);
  }

  /** The document: the root chunk, and in ghost fields all chunks and lines below it. */
  class Doc {
    const root: Chunk
    ghost var chunks: set<Chunk>
    ghost var lines: set<Line>

    /** The invariant; it is looked into only where `Intact` is mentioned. */
    ghost predicate Valid()
      reads this, chunks, lines
    {
      root in chunks && lines == Elems(root.contents) &&
      forall d: Doc {:trigger d.Intact()} :: d == this ==> d.Intact()
    }

    ghost predicate Intact()
      reads this, chunks, lines
    {
      true == (root in chunks && Tree(View(chunks, lines), root) && NoDup(root.contents))
    }

    ghost function Contents(): seq<Line>
      reads root
    {
      root.contents
    }

    constructor ()
      ensures Valid() && |Contents()| == 1 && Contents()[0].text == "" && Contents()[0].spans == None
      ensures fresh(root) && fresh(chunks) && fresh(lines)
    {
      var r, leaf, l := EmptyTree();
      EmptyIsTree(r, leaf, l);
      root := r;
      chunks, lines := {r, leaf}, {l};
      new;
      assert Intact();
    }

    /** `insert` */
    method Insert(at: nat, ls: seq<Line>)
      requires Valid() && at <= |Contents()| && NoDup(ls) && forall l :: l in ls ==> l !in lines
      modifies this`chunks, this`lines, chunks, lines`parent, ls`parent
      ensures Valid() && Contents() == Splice(old(Contents()), at, ls)
      ensures lines == old(lines) + Elems(ls) && fresh(chunks - old(chunks))
    {
      assert Intact();
      var height := TotalHeight(ls);
      ghost var k, con := View(chunks, lines), root.contents;
      OweRoot(k, root, Splice(con, at, ls), root.height + height);
      ghost var o := Owed(root, Splice(con, at, ls), root.height + height);
      ghost var S' := root.BranchInsertHeight(at, ls, height, Heights(ls), o, chunks, lines, root);
      NoDupSplice(con, at, ls);
      SetParts(S', lines + Elems(ls));
    }

    /** The ghost fields follow the tree. */
    method SetParts(ghost S: set<Chunk>, ghost L: set<Line>)
      requires root in S && L == Elems(root.contents) && Tree(View(S, L), root) && NoDup(root.contents)
      modifies this`chunks, this`lines
      ensures Valid() && chunks == S && lines == L
    {
      chunks, lines := S, L;
      assert Intact();
    }

    /** `remove`; the removed lines are detached. */
    method Remove(at: nat, n: nat)
      requires Valid() && at + n <= |Contents()|
      modifies this`chunks, this`lines, chunks, lines`parent
      ensures Valid() && Contents() == Cut(old(Contents()), at, n)
      ensures lines == old(lines) - Elems(old(Contents())[at..at + n]) && fresh(chunks - old(chunks))
      ensures forall l :: l in old(Contents())[at..at + n] ==> l.parent == null
    {
      assert Intact();
      ghost var k := View(chunks, lines);
      RootBelowNothing(k, root);
      ghost var S', L' := root.BranchRemove(at, n, chunks, lines, root, {});
      ghost var k' := View(S', L');
      AttachedAreContents(k', root);
      NoDupCut(old(root.contents), at, n);
      assert L' == k'.lines.Keys;
      SetParts(S', L');
    }
  }

  /**
   The shape of the tree, at every chunk: at most 50 lines in a leaf and 10 children in a branch, parents that point
   back, sizes and contents that are those of the children, and heights that are the sums of the heights of the lines
   below.
   */
  lemma Shape(d: Doc, c: Chunk)
    requires d.Valid() && c in d.chunks
    ensures c.parent == null <==> c == d.root
    ensures c.parent != null ==> c.parent in d.chunks && !c.parent.leaf && c in c.parent.children
    ensures c.leaf ==> |c.lines| <= 50 && c.contents == c.lines && forall l :: l in c.lines ==>
      l in d.lines && l.parent == c
    ensures !c.leaf ==>
      1 <= |c.children| <= 10 && c.size == |c.contents| && c.contents == Flat(c.parts) && |c.parts| == |c.children|
    ensures !c.leaf ==> forall i :: 0 <= i < |c.children| ==>
              c.children[i] in d.chunks && c.children[i].parent == c && c.children[i].contents == c.parts[i]
    ensures c.height == Sum(Heights(c.contents))
  {
    assert d.Intact();
    var k := View(d.chunks, d.lines);
    assert At(k, d.root, Nothing, {}, {}, c);
    assert At(k, d.root, Nothing, {}, {}, d.root);
    HeightIsSum(k, d.root, c);
    assert LineHeights(k.lines, c.contents) == Heights(c.contents);
  }
}
