/** `doc.iter`: the walk over a stretch of lines. */
module Iteration {
  import opened Sequences
  import opened ChunkTree
  import opened Document
  import opened Lookup

  method IterLeaf(c: Chunk, at0: nat, n: nat) returns (ls: seq<Line>)
    requires at0 + n <= |c.lines|
    ensures ls == c.lines[at0..at0 + n]
  {
    ls := [];
    for at := at0 to at0 + n
      invariant ls == c.lines[at0..at]
    {
      ls := ls + [c.lines[at]];
    }
  }

  lemma LeafSlice(d: Doc, c: Chunk, o: nat, at: nat, n: nat)
    requires Reached(d, c, o) && c.leaf && at + n <= |c.contents|
    ensures o + at + n <= |d.Contents()| && at + n <= |c.lines|
    ensures c.lines[at..at + n] == d.Contents()[o + at..o + at + n]
  {
    AtLeaf(d, c, o);
    SliceSlice(d.Contents(), o, |c.contents|, at, n);
  }

  /**
   Of the lines `b..b + m`, `ls` have been visited; the next child starts at line `q`, where `at` more are to be
   skipped.
   */
  ghost predicate Taken<T>(all: seq<T>, b: nat, m: nat, q: nat, at: nat, n: nat, ls: seq<T>) {
    true == (b + m <= |all| && n + |ls| == m && (n > 0 ==> q + at == b + |ls|) && (at > 0 ==> ls == []) &&
    ls == all[b..b + |ls|])
  }

  lemma TakenSome<T>(all: seq<T>, b: nat, m: nat, q: nat, at: nat, n: nat, ls: seq<T>, q': nat, used: nat, sub: seq<T>)
    requires Taken(all, b, m, q, at, n, ls) && q + at < q' <= |all| && used == if n < q' - q - at then n
      else q' - q - at
    requires sub == all[q + at..q + at + used]
    ensures Taken(all, b, m, q', 0, n - used, ls + sub)
  {
    if n > 0 { SliceJoin(all, b, b + |ls|, b + |ls| + used); }
  }

  lemma TakenNone<T>(all: seq<T>, b: nat, m: nat, q: nat, at: nat, n: nat, ls: seq<T>, q': nat)
    requires Taken(all, b, m, q, at, n, ls) && q <= q' <= q + at
    ensures Taken(all, b, m, q', at - (q' - q), n, ls)
  {
  }

  /** `iterN`; `ls` are the lines that are visited, in order. */
  method IterN(d: Doc, c: Chunk, at0: nat, n0: nat, ghost o: nat) returns (ls: seq<Line>)
    requires Reached(d, c, o) && at0 + n0 <= |c.contents| && o + at0 + n0 <= |d.Contents()|
    ensures ls == d.Contents()[o + at0..o + at0 + n0]
    decreases c.rank, 1
  {
    if c.leaf {
      LeafSlice(d, c, o, at0, n0);
      ls := IterLeaf(c, at0, n0);
      return;
    }
    ls := [];
    StartChildren(d, c, o);
    var i: nat, at: nat, n: nat := 0, at0, n0;
    ghost var p: nat := 0;
    while i < |c.children|
      invariant Reached(d, c, o) && Passed(d, c, o, i, p) && Taken(d.Contents(), o + at0, n0, o + p, at, n, ls)
    {
      p, at, n, ls := IterStep(d, c, i, at, n, ls, o, p, o + at0, n0);
      i := i + 1;
      if n == 0 { return; }
    }
    LastChild(d, c, o, i, p);
  }

  method IterStep(d: Doc, c: Chunk, i: nat, at0: nat, n0: nat, ls0: seq<Line>, ghost o: nat, ghost p: nat, ghost b: nat,
                  ghost m: nat) returns (ghost p': nat, at: nat, n: nat, ls: seq<Line>)
    requires Reached(d, c, o) && Passed(d, c, o, i, p) && Taken(d.Contents(), b, m, o + p, at0, n0, ls0) &&
      i < |c.children|
    ensures Passed(d, c, o, i + 1, p') && Taken(d.Contents(), b, m, o + p', at, n, ls)
    decreases c.rank, 0
  {
    NextChild(d, c, o, i, p);
    var child := c.children[i];
    var sz := child.ChunkSize();
    p' := p + sz;
    if at0 < sz {
      var used := if n0 < sz - at0 then n0 else sz - at0;
      var sub := IterN(d, child, at0, used, o + p);
      TakenSome(d.Contents(), b, m, o + p, at0, n0, ls0, o + p', used, sub);
      at, n, ls := 0, n0 - used, ls0 + sub;
    } else {
      TakenNone(d.Contents(), b, m, o + p, at0, n0, ls0, o + p');
      at, n, ls := at0 - sz, n0, ls0;
    }
  }

  /** The lines `at..at + n` of the document. */
  method Iter(d: Doc, at: nat, n: nat) returns (ls: seq<Line>)
    requires d.Valid() && at + n <= |d.Contents()|
    ensures ls == d.Contents()[at..at + n]
  {
    StartWalk(d);
    ls := IterN(d, d.root, at, n, 0);
  }
}
