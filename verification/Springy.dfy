/** A graph that keeps a list of its edges and an index of them by source and target. */
module Springy {

  datatype Node<D> = Node(id: nat, data: D)

  datatype Edge<D> = Edge(id: nat, source: Node<D>, target: Node<D>, data: D)

  type Row<D> = map<nat, seq<Edge<D>>>

  type Index<D> = map<nat, Row<D>>

  // ----- filtering -----

  /** The elements of `s` for which `f` holds. */
  function Keep<T>(s: seq<T>, f: T -> bool): seq<T> {
    if s == [] then [] else (if f(s[0]) then [s[0]] else []) + Keep(s[1..], f)
  }

  lemma {:induction false} KeepIn<T>(s: seq<T>, f: T -> bool, x: T)
    ensures x in Keep(s, f) <==> x in s && f(x)
  {
    if s != [] { KeepIn(s[1..], f, x); }
  }

  lemma {:induction false} KeepKeep<T>(s: seq<T>, f: T -> bool, g: T -> bool, h: T -> bool)
    requires forall x :: x in s ==> h(x) == (f(x) && g(x))
    ensures Keep(Keep(s, f), g) == Keep(s, h)
  {
    if s != [] {
      KeepKeep(s[1..], f, g, h);
      var k := Keep(s[1..], f);
      if f(s[0]) { assert ([s[0]] + k)[1..] == k; } else { assert [] + k == k; }
    }
  }

  lemma {:induction false} KeepSame<T>(s: seq<T>, f: T -> bool, g: T -> bool)
    requires forall x :: x in s ==> f(x) == g(x)
    ensures Keep(s, f) == Keep(s, g)
  {
    if s != [] { KeepSame(s[1..], f, g); }
  }

  lemma {:induction false} KeepAll<T>(s: seq<T>, f: T -> bool)
    requires forall x :: x in s ==> f(x)
    ensures Keep(s, f) == s
  {
    if s != [] { KeepAll(s[1..], f); }
  }

  lemma {:induction false} KeepPush<T>(s: seq<T>, f: T -> bool, x: T)
    ensures Keep(s + [x], f) == Keep(s, f) + if f(x) then [x] else []
  {
    if s == [] {
      assert s + [x] == [x] && [x][1..] == [];
    } else {
      KeepPush(s[1..], f, x);
      assert (s + [x])[1..] == s[1..] + [x];
    }
  }

  /** The loops that run down an array and splice elements out of it. */
  method SpliceOut<T>(s: seq<T>, f: T -> bool) returns (r: seq<T>)
    ensures r == Keep(s, f)
  {
    r := s;
    var i := |s| - 1;
    while i >= 0
      invariant -1 <= i < |s| && r == s[..i + 1] + Keep(s[i + 1..], f)
    {
      assert s[i..][0] == s[i] && s[i..][1..] == s[i + 1..] && s[..i + 1] == s[..i] + [s[i]];
      if !f(r[i]) { r := r[..i] + r[i + 1..]; }
      i := i - 1;
    }
  }

  // ----- what the index stands for -----

  function NotId<D>(id: nat): Edge<D> -> bool {
    (e: Edge<D>) => e.id != id
  }

  function FromTo<D>(a: nat, b: nat): Edge<D> -> bool {
    (e: Edge<D>) => e.source.id == a && e.target.id == b
  }

  function Away<D>(n: nat): Edge<D> -> bool {
    (e: Edge<D>) => e.source.id != n && e.target.id != n
  }

  function OtherNode<D>(n: nat): Node<D> -> bool {
    (x: Node<D>) => x.id != n
  }

  /** `getEdges` */
  function Bucket<D>(index: Index<D>, a: nat, b: nat): seq<Edge<D>> {
    if a in index && b in index[a] then index[a][b] else []
  }

  ghost predicate NoEmpty<D>(index: Index<D>) {
    true == forall a :: a in index ==> index[a] != map[] && forall b :: b in index[a] ==> index[a][b] != []
  }

  ghost predicate Agree<D>(index: Index<D>, edges: seq<Edge<D>>) {
    true == forall a, b :: Bucket(index, a, b) == Keep(edges, FromTo(a, b))
  }

  ghost predicate Distinct<D>(edges: seq<Edge<D>>) {
    true == forall i, j :: 0 <= i < j < |edges| ==> edges[i].id != edges[j].id
  }

  predicate HasId<D>(edges: seq<Edge<D>>, id: nat) {
    exists i :: 0 <= i < |edges| && edges[i].id == id
  }

  /** All ids are below `next`. */
  ghost predicate Below<D>(edges: seq<Edge<D>>, next: nat) {
    true == forall e :: e in edges ==> e.id < next
  }

  /** The ids in the list of nodes are those of the set, each once. */
  ghost predicate NodesAgree<D>(nodes: seq<Node<D>>, set': map<nat, Node<D>>) {
    true == ((forall i, j :: 0 <= i < j < |nodes| ==> nodes[i].id != nodes[j].id) &&
      (forall n :: n in nodes ==> n.id in set') &&
      (forall id :: id in set' ==> set'[id].id == id && exists n :: n in nodes && n.id == id))
  }

  // ----- taking an edge out of the index -----

  function PurgedRow<D>(row: Row<D>, id: nat): Row<D> {
    map b | b in row && Keep(row[b], NotId(id)) != [] :: Keep(row[b], NotId(id))
  }

  function Purged<D>(index: Index<D>, id: nat): Index<D> {
    map a | a in index && PurgedRow(index[a], id) != map[] :: PurgedRow(index[a], id)
  }

  lemma PurgedBucket<D>(index: Index<D>, id: nat, a: nat, b: nat)
    ensures Bucket(Purged(index, id), a, b) == Keep(Bucket(index, a, b), NotId(id))
  {
    if a in index && b in index[a] && Keep(index[a][b], NotId(id)) != [] {
      assert b in PurgedRow(index[a], id);
    }
  }

  /** Without the edge the index agrees with the list without the edge, and no bucket is left empty. */
  lemma PurgedAgrees<D>(index: Index<D>, edges: seq<Edge<D>>, id: nat)
    requires Agree(index, edges)
    ensures Agree(Purged(index, id), Keep(edges, NotId(id))) && NoEmpty(Purged(index, id))
  {
    forall a, b ensures Bucket(Purged(index, id), a, b) == Keep(Keep(edges, NotId(id)), FromTo(a, b)) {
      PurgedBucket(index, id, a, b);
      assert Bucket(index, a, b) == Keep(edges, FromTo(a, b));
      var h := (e: Edge<D>) => e.id != id && e.source.id == a && e.target.id == b;
      KeepKeep(edges, FromTo(a, b), NotId(id), h);
      KeepKeep(edges, NotId(id), FromTo(a, b), h);
    }
  }

  lemma {:induction false} DistinctKeep<D>(edges: seq<Edge<D>>, f: Edge<D> -> bool)
    requires Distinct(edges)
    ensures Distinct(Keep(edges, f))
  {
    if edges != [] {
      var t := edges[1..];
      assert Distinct(t) by {
        forall i, j | 0 <= i < j < |t| ensures t[i].id != t[j].id {
          assert edges[i + 1].id != edges[j + 1].id;
        }
      }
      DistinctKeep(t, f);
      var k := Keep(t, f);
      forall j | 0 <= j < |k| ensures edges[0].id != k[j].id {
        KeepIn(t, f, k[j]);
        var m :| 0 <= m < |t| && t[m] == k[j];
        assert edges[0].id != edges[m + 1].id;
      }
    }
  }

  lemma BelowKeep<D>(edges: seq<Edge<D>>, f: Edge<D> -> bool)
    ensures forall next: nat :: Below(edges, next) ==> Below(Keep(edges, f), next)
  {
    forall next: nat, e | Below(edges, next) && e in Keep(edges, f) ensures e.id < next { KeepIn(edges, f, e); }
  }

  // ----- adding an edge -----

  function WithEdge<D>(index: Index<D>, e: Edge<D>): Index<D> {
    var a, b := e.source.id, e.target.id;
    var row := if a in index then index[a] else map[];
    index[a := row[b := (if b in row then row[b] else []) + [e]]]
  }

  lemma WithEdgeAgrees<D>(index: Index<D>, edges: seq<Edge<D>>, e: Edge<D>)
    requires Agree(index, edges) && NoEmpty(index)
    ensures Agree(WithEdge(index, e), edges + [e]) && NoEmpty(WithEdge(index, e))
  {
    forall a, b ensures Bucket(WithEdge(index, e), a, b) == Keep(edges + [e], FromTo(a, b)) {
      assert Bucket(index, a, b) == Keep(edges, FromTo(a, b));
      KeepPush(edges, FromTo(a, b), e);
    }
  }

  /** What `addEdge` makes of the list: an id that is there already is not added again. */
  function Listed<D>(edges: seq<Edge<D>>, edge: Edge<D>): seq<Edge<D>> {
    if HasId(edges, edge.id) then edges else edges + [edge]
  }

  /** What it makes of the index, where only the bucket of the two ends is searched. */
  function Indexed<D>(index: Index<D>, edge: Edge<D>): Index<D> {
    if HasId(Bucket(index, edge.source.id, edge.target.id), edge.id) then index else WithEdge(index, edge)
  }

  /** An edge of the list that has the id of `edge` has its two ends as well. */
  ghost predicate SameEnds<D>(edges: seq<Edge<D>>, edge: Edge<D>) {
    forall e :: e in edges && e.id == edge.id ==> e.source.id == edge.source.id && e.target.id == edge.target.id
  }

  lemma BucketIn<D>(index: Index<D>, edges: seq<Edge<D>>, a: nat, b: nat, x: Edge<D>)
    requires Agree(index, edges)
    ensures x in Bucket(index, a, b) <==> x in edges && x.source.id == a && x.target.id == b
  {
    assert Bucket(index, a, b) == Keep(edges, FromTo(a, b));
    KeepIn(edges, FromTo(a, b), x);
  }

  lemma SameId<D>(edges: seq<Edge<D>>, e: Edge<D>, x: Edge<D>)
    requires Distinct(edges) && e in edges && x in edges && e.id == x.id
    ensures e == x
  {
    var i, j :| 0 <= i < |edges| && 0 <= j < |edges| && edges[i] == e && edges[j] == x;
    assert edges[i].id == edges[j].id;
  }

  /** Adding an edge keeps index and list in agreement exactly if its id is not in use for other ends. */
  lemma AddedAgrees<D>(index: Index<D>, edges: seq<Edge<D>>, edge: Edge<D>)
    requires Agree(index, edges) && NoEmpty(index) && Distinct(edges)
    ensures Agree(Indexed(index, edge), Listed(edges, edge)) <==> SameEnds(edges, edge)
  {
    WithEdgeAgrees(index, edges, edge);
    InBucket(index, edges, edge);
    if HasId(edges, edge.id) && !SameEnds(edges, edge) { Misplaced(index, edges, edge); }
  }

  /** The bucket of the two ends holds the id exactly if the list holds it with these ends. */
  lemma InBucket<D>(index: Index<D>, edges: seq<Edge<D>>, edge: Edge<D>)
    requires Agree(index, edges) && Distinct(edges)
    ensures HasId(Bucket(index, edge.source.id, edge.target.id), edge.id) <==>
      HasId(edges, edge.id) && SameEnds(edges, edge)
  {
    var a, b := edge.source.id, edge.target.id;
    var bucket := Bucket(index, a, b);
    if HasId(bucket, edge.id) {
      var i :| 0 <= i < |bucket| && bucket[i].id == edge.id;
      BucketIn(index, edges, a, b, bucket[i]);
      forall e | e in edges && e.id == edge.id ensures e == bucket[i] { SameId(edges, e, bucket[i]); }
    }
    if HasId(edges, edge.id) && SameEnds(edges, edge) {
      var i :| 0 <= i < |edges| && edges[i].id == edge.id;
      BucketIn(index, edges, a, b, edges[i]);
    }
  }

  /** An edge that is in its bucket but not in the list. */
  lemma Misplaced<D>(index: Index<D>, edges: seq<Edge<D>>, edge: Edge<D>)
    requires !SameEnds(edges, edge) && Distinct(edges)
    ensures !Agree(WithEdge(index, edge), edges)
  {
    var a, b := edge.source.id, edge.target.id;
    var e :| e in edges && e.id == edge.id && !(e.source.id == a && e.target.id == b);
    var bucket := Bucket(WithEdge(index, edge), a, b);
    assert bucket[|bucket| - 1] == edge;
    if Agree(WithEdge(index, edge), edges) {
      BucketIn(WithEdge(index, edge), edges, a, b, edge);
      SameId(edges, e, edge);
    }
  }

  /**
   After `addEdge` with id 0 on a new graph the first edge of `newEdge` has id 0 too, and ends up in the index only.
   */
  lemma NumberGivenTwice<D>(a: Node<D>, b: Node<D>, c: Node<D>, data: D)
    requires b.id != c.id
    ensures var first, second := Edge(0, a, b, data), Edge(0, a, c, data);
            var index, edges := Indexed(map[], first), Listed([], first);
            Agree(index, edges) && Listed(edges, second) == [first] &&
            Bucket(Indexed(index, second), a.id, c.id) == [second] &&
            !Agree(Indexed(index, second), Listed(edges, second))
  {
    var first, second := Edge(0, a, b, data), Edge(0, a, c, data);
    var index: Index<D> := map[a.id := map[b.id := [first]]];
    assert [] + [first] == [first];
    assert WithEdge(map[], first) == index;
    assert Listed([], first) == [first];
    assert [first][0].id == second.id;
    OnlyEdge(first);
    assert Bucket(Indexed(index, second), a.id, c.id) == [second];
    assert Keep([first], FromTo(a.id, c.id)) == [] by {
      assert [] + [first] == [first];
      KeepPush([], FromTo(a.id, c.id), first);
    }
  }

  lemma OnlyEdge<D>(e: Edge<D>)
    ensures Agree(map[e.source.id := map[e.target.id := [e]]], [e])
  {
    var index: Index<D> := map[e.source.id := map[e.target.id := [e]]];
    forall a, b ensures Bucket(index, a, b) == Keep([e], FromTo(a, b)) {
      assert [] + [e] == [e];
      KeepPush([], FromTo(a, b), e);
    }
  }

  /** Whether or not they agree, no bucket is left empty and no id is listed twice. */
  lemma AddedKeeps<D>(index: Index<D>, edges: seq<Edge<D>>, edge: Edge<D>)
    requires NoEmpty(index) && Distinct(edges)
    ensures NoEmpty(Indexed(index, edge)) && Distinct(Listed(edges, edge))
  {
  }

  // ----- adding several edges -----

  function ListedAll<D>(edges: seq<Edge<D>>, es: seq<Edge<D>>): seq<Edge<D>> {
    if es == [] then edges else Listed(ListedAll(edges, es[..|es| - 1]), es[|es| - 1])
  }

  function IndexedAll<D>(index: Index<D>, es: seq<Edge<D>>): Index<D> {
    if es == [] then index else Indexed(IndexedAll(index, es[..|es| - 1]), es[|es| - 1])
  }

  lemma AllPush<D>(index: Index<D>, edges: seq<Edge<D>>, es: seq<Edge<D>>, edge: Edge<D>)
    ensures ListedAll(edges, es + [edge]) == Listed(ListedAll(edges, es), edge)
    ensures IndexedAll(index, es + [edge]) == Indexed(IndexedAll(index, es), edge)
  {
    assert (es + [edge])[..|es|] == es;
  }

  /** The edge is in its bucket but not in the list. */
  ghost predicate Lost<D>(index: Index<D>, edges: seq<Edge<D>>, x: Edge<D>) {
    true == (x in Bucket(index, x.source.id, x.target.id) && x !in edges)
  }

  /** An edge that is lost stays so when edges with other ids are added. */
  lemma LostStays<D>(index: Index<D>, edges: seq<Edge<D>>, x: Edge<D>, edge: Edge<D>)
    requires Lost(index, edges, x) && edge.id != x.id
    ensures Lost(Indexed(index, edge), Listed(edges, edge), x)
  {
  }

  lemma AddedOrLost<D>(index: Index<D>, edges: seq<Edge<D>>, edge: Edge<D>)
    requires Agree(index, edges) && NoEmpty(index) && Distinct(edges) && !SameEnds(edges, edge)
    ensures Lost(Indexed(index, edge), Listed(edges, edge), edge)
  {
    InBucket(index, edges, edge);
    var e :| e in edges && e.id == edge.id && !(e.source.id == edge.source.id && e.target.id == edge.target.id);
    if edge in edges { SameId(edges, e, edge); }
    var i :| 0 <= i < |edges| && edges[i] == e;
    assert HasId(edges, edge.id);
    var bucket := Bucket(WithEdge(index, edge), edge.source.id, edge.target.id);
    assert bucket[|bucket| - 1] == edge;
  }

  /** No id of `es` is in use for other ends. */
  ghost predicate AllSameEnds<D>(edges: seq<Edge<D>>, es: seq<Edge<D>>) {
    true == forall e :: e in es ==> SameEnds(edges, e)
  }

  lemma SplitLast<D>(edges: seq<Edge<D>>, es: seq<Edge<D>>)
    requires es != []
    ensures var n := |es| - 1;
            es == es[..n] + [es[n]] && (Distinct(es) ==> Distinct(es[..n])) &&
            (AllSameEnds(edges, es) <==> AllSameEnds(edges, es[..n]) && SameEnds(edges, es[n]))
  {
    var n := |es| - 1;
    assert es == es[..n] + [es[n]];
    assert forall e :: e in es <==> e in es[..n] || e == es[n];
  }

  lemma {:induction false} ListedFrom<D>(edges: seq<Edge<D>>, es: seq<Edge<D>>, e: Edge<D>)
    ensures e in ListedAll(edges, es) ==> e in edges || e in es
    ensures e in edges ==> e in ListedAll(edges, es)
  {
    if es != [] { ListedFrom(edges, es[..|es| - 1], e); }
  }

  /** The edges before have other ids. */
  lemma SameEndsAll<D>(edges: seq<Edge<D>>, es: seq<Edge<D>>, edge: Edge<D>)
    requires forall e :: e in es ==> e.id != edge.id
    ensures SameEnds(ListedAll(edges, es), edge) <==> SameEnds(edges, edge)
  {
    forall e | e in edges ensures e in ListedAll(edges, es) { ListedFrom(edges, es, e); }
    forall e | e in ListedAll(edges, es) ensures e in edges || e in es { ListedFrom(edges, es, e); }
  }

  /**
   After edges with different ids have been added, index and list agree exactly if none of the ids was in use for
   other ends.
   */
  lemma {:induction false} AllAdded<D>(index: Index<D>, edges: seq<Edge<D>>, es: seq<Edge<D>>)
    requires Agree(index, edges) && NoEmpty(index) && Distinct(edges) && Distinct(es)
    ensures NoEmpty(IndexedAll(index, es)) && Distinct(ListedAll(edges, es))
    ensures if AllSameEnds(edges, es) then Agree(IndexedAll(index, es), ListedAll(edges, es))
            else exists x :: x in es && Lost(IndexedAll(index, es), ListedAll(edges, es), x)
  {
    if es != [] {
      var n := |es| - 1;
      SplitLast(edges, es);
      AllAdded(index, edges, es[..n]);
      AllAddedNext(index, edges, es[..n], es[n]);
    }
  }

  lemma AllAddedNext<D>(index: Index<D>, edges: seq<Edge<D>>, es: seq<Edge<D>>, edge: Edge<D>)
    requires NoEmpty(IndexedAll(index, es)) && Distinct(ListedAll(edges, es)) && Distinct(es + [edge])
    requires if AllSameEnds(edges, es) then Agree(IndexedAll(index, es), ListedAll(edges, es))
             else exists x :: x in es && Lost(IndexedAll(index, es), ListedAll(edges, es), x)
    ensures var i, l := Indexed(IndexedAll(index, es), edge), Listed(ListedAll(edges, es), edge);
            NoEmpty(i) && Distinct(l) &&
            if AllSameEnds(edges, es) && SameEnds(edges, edge) then Agree(i, l)
            else exists x :: x in es + [edge] && Lost(i, l, x)
  {
    var i, l := IndexedAll(index, es), ListedAll(edges, es);
    AddedKeeps(i, l, edge);
    forall e | e in es ensures e.id != edge.id {
      var j :| 0 <= j < |es| && es[j] == e;
      assert (es + [edge])[j].id != (es + [edge])[|es|].id;
    }
    if AllSameEnds(edges, es) {
      SameEndsAll(edges, es, edge);
      AddedAgrees(i, l, edge);
      if !SameEnds(edges, edge) {
        AddedOrLost(i, l, edge);
        assert edge in es + [edge];
      }
    } else {
      var x :| x in es && Lost(i, l, x);
      LostStays(i, l, x, edge);
      assert x in es + [edge];
    }
  }

  lemma AllAddedAgrees<D>(index: Index<D>, edges: seq<Edge<D>>, es: seq<Edge<D>>)
    requires Agree(index, edges) && NoEmpty(index) && Distinct(edges) && Distinct(es)
    ensures Agree(IndexedAll(index, es), ListedAll(edges, es)) <==> AllSameEnds(edges, es)
  {
    AllAdded(index, edges, es);
    var i, l := IndexedAll(index, es), ListedAll(edges, es);
    if !AllSameEnds(edges, es) {
      var x :| x in es && Lost(i, l, x);
      if Agree(i, l) { BucketIn(i, l, x.source.id, x.target.id, x); }
    }
  }

  /** Edges with unused ids are all added. */
  lemma {:induction false} ListedNew<D>(edges: seq<Edge<D>>, es: seq<Edge<D>>)
    requires Distinct(es) && forall e :: e in es ==> !HasId(edges, e.id)
    ensures ListedAll(edges, es) == edges + es
  {
    if es != [] {
      var n := |es| - 1;
      ListedNew(edges, es[..n]);
      assert !HasId(edges + es[..n], es[n].id);
    }
  }

  /** Both ends of the first `n` pairs are nodes. */
  predicate Known<D>(nodeSet: map<nat, Node<D>>, args: seq<(nat, nat, D)>, n: nat) {
    true == (n <= |args| && forall i :: 0 <= i < n ==> args[i].0 in nodeSet && args[i].1 in nodeSet)
  }

  /** The edges that `addEdges` makes of the first `n` pairs. */
  function Numbering<D>(nodeSet: map<nat, Node<D>>, args: seq<(nat, nat, D)>, n: nat, next: nat): (es: seq<Edge<D>>)
    requires Known(nodeSet, args, n)
    ensures |es| == n && forall i :: 0 <= i < n ==>
      es[i] == Edge(next + i, nodeSet[args[i].0], nodeSet[args[i].1], args[i].2)
  {
    if n == 0 then [] else
      var e := args[n - 1];
      Numbering(nodeSet, args, n - 1, next) + [Edge(next + n - 1, nodeSet[e.0], nodeSet[e.1], e.2)]
  }

  /** The edges of the first `n` pairs have been added. */
  ghost predicate Added<D>(edges: seq<Edge<D>>, index: Index<D>, edges0: seq<Edge<D>>, index0: Index<D>,
                           nodeSet: map<nat, Node<D>>, args: seq<(nat, nat, D)>, n: nat, next: nat) {
    true == (Known(nodeSet, args, n) && edges == ListedAll(edges0, Numbering(nodeSet, args, n, next)) &&
      index == IndexedAll(index0, Numbering(nodeSet, args, n, next)))
  }

  lemma AddedNext<D>(edges: seq<Edge<D>>, index: Index<D>, edges0: seq<Edge<D>>, index0: Index<D>,
                     nodeSet: map<nat, Node<D>>, args: seq<(nat, nat, D)>, n: nat, next: nat)
    requires Added(edges, index, edges0, index0, nodeSet, args, n, next) && n < |args| && args[n].0 in nodeSet &&
      args[n].1 in nodeSet
    ensures var edge := Edge(next + n, nodeSet[args[n].0], nodeSet[args[n].1], args[n].2);
            Added(Listed(edges, edge), Indexed(index, edge), edges0, index0, nodeSet, args, n + 1, next)
  {
    var edge := Edge(next + n, nodeSet[args[n].0], nodeSet[args[n].1], args[n].2);
    assert Known(nodeSet, args, n + 1);
    assert Numbering(nodeSet, args, n + 1, next) == Numbering(nodeSet, args, n, next) + [edge];
    AllPush(index0, edges0, Numbering(nodeSet, args, n, next), edge);
  }

  lemma AddedAll<D>(edges: seq<Edge<D>>, index: Index<D>, edges0: seq<Edge<D>>, index0: Index<D>,
                    nodeSet: map<nat, Node<D>>, args: seq<(nat, nat, D)>, n: nat, next: nat)
    requires Added(edges, index, edges0, index0, nodeSet, args, n, next) && NoEmpty(index0) && Distinct(edges0)
    ensures Known(nodeSet, args, n)
    ensures Agree(index0, edges0) ==>
      (Agree(index, edges) <==> AllSameEnds(edges0, Numbering(nodeSet, args, n, next)))
    ensures Below(edges0, next) ==> edges == edges0 + Numbering(nodeSet, args, n, next)
  {
    var es := Numbering(nodeSet, args, n, next);
    if Agree(index0, edges0) { AllAddedAgrees(index0, edges0, es); }
    if Below(edges0, next) { ListedNew(edges0, es); }
  }

  /** The loop that looks for an edge with the same id. */
  method FindId<D>(edges: seq<Edge<D>>, id: nat) returns (exists': bool)
    ensures exists' == HasId(edges, id)
  {
    exists' := false;
    for i := 0 to |edges|
      invariant exists' <==> HasId(edges[..i], id)
    {
      if edges[i].id == id { exists' := true; }
      assert edges[..i + 1] == edges[..i] + [edges[i]];
    }
    assert edges[..|edges|] == edges;
  }

  method PurgeRow<D>(row0: Row<D>, id: nat) returns (row: Row<D>)
    ensures row == PurgedRow(row0, id)
  {
    row := row0;
    var todo := row0.Keys;
    while todo != {}
      invariant todo <= row0.Keys && forall b :: b in todo ==> b in row && row[b] == row0[b]
      invariant forall b :: b !in todo ==>
        (b in row <==> b in PurgedRow(row0, id)) && (b in row ==> row[b] == PurgedRow(row0, id)[b])
    {
      var b :| b in todo;
      todo := todo - {b};
      var edges := SpliceOut(row[b], NotId(id));
      row := row[b := edges];
      if |row[b]| == 0 { row := row - {b}; }
    }
  }

  /** The edge is gone from all rows but those of `todo`. */
  ghost predicate HalfPurged<D>(index: Index<D>, index0: Index<D>, id: nat, todo: set<nat>) {
    true == forall a ::
      if a in todo then
        a in index && a in index0 && index[a] == index0[a]
      else
        (a in index <==> a in Purged(index0, id)) && (a in index ==> index[a] == PurgedRow(index0[a], id))
  }

  lemma RowPurged<D>(index: Index<D>, index0: Index<D>, id: nat, todo: set<nat>, a: nat, row: Row<D>)
    requires HalfPurged(index, index0, id, todo) && a in todo && a in index0 && row == PurgedRow(index0[a], id)
    ensures HalfPurged(if row == map[] then index[a := row] - {a} else index[a := row], index0, id, todo - {a})
  {
  }

  method PurgeIndex<D>(index0: Index<D>, id: nat) returns (index: Index<D>)
    ensures index == Purged(index0, id)
  {
    index := index0;
    var todo := index0.Keys;
    while todo != {}
      invariant HalfPurged(index, index0, id, todo)
    {
      var a :| a in todo;
      assert a in index && a in index0 && index[a] == index0[a];
      var row := PurgeRow(index[a], id);
      RowPurged(index, index0, id, todo, a, row);
      todo := todo - {a};
      index := index[a := row];
      if index[a] == map[] { index := index - {a}; }
    }
  }

  lemma AddedNode<D>(nodes: seq<Node<D>>, set': map<nat, Node<D>>, node: Node<D>)
    requires NodesAgree(nodes, set')
    ensures NodesAgree(if node.id in set' then nodes else nodes + [node], set'[node.id := node])
  {
    var ns, set2 := if node.id in set' then nodes else nodes + [node], set'[node.id := node];
    forall id | id in set2 ensures set2[id].id == id && exists n :: n in ns && n.id == id {
      if id == node.id && node.id !in set' { assert node in ns; }
      else { var n :| n in nodes && n.id == id; assert n in ns; }
    }
  }

  lemma {:induction false} DistinctNodes<D>(nodes: seq<Node<D>>, f: Node<D> -> bool)
    requires forall i, j :: 0 <= i < j < |nodes| ==> nodes[i].id != nodes[j].id
    ensures forall i, j :: 0 <= i < j < |Keep(nodes, f)| ==> Keep(nodes, f)[i].id != Keep(nodes, f)[j].id
  {
    if nodes != [] {
      var t := nodes[1..];
      forall i, j | 0 <= i < j < |t| ensures t[i].id != t[j].id { assert nodes[i + 1].id != nodes[j + 1].id; }
      DistinctNodes(t, f);
      var k := Keep(t, f);
      forall j | 0 <= j < |k| ensures nodes[0].id != k[j].id {
        KeepIn(t, f, k[j]);
        var m :| 0 <= m < |t| && t[m] == k[j];
        assert nodes[0].id != nodes[m + 1].id;
      }
    }
  }

  lemma RemovedNode<D>(nodes: seq<Node<D>>, set': map<nat, Node<D>>, id: nat)
    requires NodesAgree(nodes, set')
    ensures NodesAgree(Keep(nodes, OtherNode(id)), set' - {id})
  {
    var ns := Keep(nodes, OtherNode(id));
    DistinctNodes(nodes, OtherNode(id));
    forall n | n in ns ensures n.id in set' - {id} { KeepIn(nodes, OtherNode(id), n); }
    forall i | i in set' - {id} ensures set'[i].id == i && exists n :: n in ns && n.id == i {
      var n :| n in nodes && n.id == i;
      KeepIn(nodes, OtherNode(id), n);
    }
  }

  // ----- removing all elements for which `f` does not hold, one after the other -----

  /** The edges that are left when the first `i` elements of `es` have been looked at. */
  ghost function Later<D>(es: seq<Edge<D>>, f: Edge<D> -> bool, i: nat): Edge<D> -> bool
    requires i <= |es|
  {
    (e: Edge<D>) => forall k :: 0 <= k < i ==> f(es[k]) || es[k].id != e.id
  }

  lemma LaterNext<D>(es: seq<Edge<D>>, f: Edge<D> -> bool, i: nat)
    requires i < |es|
    ensures if f(es[i]) then Keep(es, Later(es, f, i)) == Keep(es, Later(es, f, i + 1))
            else Keep(Keep(es, Later(es, f, i)), NotId(es[i].id)) == Keep(es, Later(es, f, i + 1))
  {
    if f(es[i]) {
      KeepSame(es, Later(es, f, i), Later(es, f, i + 1));
    } else {
      KeepKeep(es, Later(es, f, i), NotId(es[i].id), Later(es, f, i + 1));
    }
  }

  lemma LaterAt<D>(es: seq<Edge<D>>, f: Edge<D> -> bool, e: Edge<D>)
    requires Distinct(es) && e in es
    ensures Later(es, f, |es|)(e) == f(e)
  {
    forall k | 0 <= k < |es| && es[k].id == e.id ensures es[k] == e { SameId(es, es[k], e); }
  }

  lemma LaterAll<D>(es: seq<Edge<D>>, f: Edge<D> -> bool)
    requires Distinct(es)
    ensures Keep(es, Later(es, f, 0)) == es && Keep(es, Later(es, f, |es|)) == Keep(es, f)
  {
    KeepAll(es, Later(es, f, 0));
    forall e | e in es ensures Later(es, f, |es|)(e) == f(e) { LaterAt(es, f, e); }
    KeepSame(es, Later(es, f, |es|), f);
  }

  ghost function Kept<D>(ns: seq<Node<D>>, f: Node<D> -> bool, i: nat): Node<D> -> bool
    requires i <= |ns|
  {
    (n: Node<D>) => forall k :: 0 <= k < i ==> f(ns[k]) || ns[k].id != n.id
  }

  /** The edges that do not touch a node among the first `i` of `ns` for which `f` does not hold. */
  ghost function Spared<D>(ns: seq<Node<D>>, f: Node<D> -> bool, i: nat): Edge<D> -> bool
    requires i <= |ns|
  {
    (e: Edge<D>) => forall k :: 0 <= k < i ==> f(ns[k]) || (e.source.id != ns[k].id && e.target.id != ns[k].id)
  }

  lemma KeptNext<D>(ns: seq<Node<D>>, f: Node<D> -> bool, i: nat, es: seq<Edge<D>>)
    requires i < |ns|
    ensures if f(ns[i]) then Keep(ns, Kept(ns, f, i)) == Keep(ns, Kept(ns, f, i + 1)) &&
      Keep(es, Spared(ns, f, i)) == Keep(es, Spared(ns, f, i + 1))
            else Keep(Keep(ns, Kept(ns, f, i)), OtherNode(ns[i].id)) == Keep(ns, Kept(ns, f, i + 1)) &&
                 Keep(Keep(es, Spared(ns, f, i)), Away(ns[i].id)) == Keep(es, Spared(ns, f, i + 1))
  {
    if f(ns[i]) {
      KeepSame(ns, Kept(ns, f, i), Kept(ns, f, i + 1));
      KeepSame(es, Spared(ns, f, i), Spared(ns, f, i + 1));
    } else {
      KeepKeep(ns, Kept(ns, f, i), OtherNode(ns[i].id), Kept(ns, f, i + 1));
      KeepKeep(es, Spared(ns, f, i), Away(ns[i].id), Spared(ns, f, i + 1));
    }
  }

  lemma KeptAll<D>(ns: seq<Node<D>>, f: Node<D> -> bool, es: seq<Edge<D>>, set': map<nat, Node<D>>)
    requires NodesAgree(ns, set')
    ensures Keep(ns, Kept(ns, f, 0)) == ns && Keep(ns, Kept(ns, f, |ns|)) == Keep(ns, f) &&
      Keep(es, Spared(ns, f, 0)) == es
  {
    KeepAll(ns, Kept(ns, f, 0));
    KeepAll(es, Spared(ns, f, 0));
    KeptEnd(ns, f);
  }

  lemma KeptEnd<D>(ns: seq<Node<D>>, f: Node<D> -> bool)
    requires forall i, j :: 0 <= i < j < |ns| ==> ns[i].id != ns[j].id
    ensures Keep(ns, Kept(ns, f, |ns|)) == Keep(ns, f)
  {
    forall n | n in ns ensures Kept(ns, f, |ns|)(n) == f(n) {
      var k :| 0 <= k < |ns| && ns[k] == n;
      assert forall m :: 0 <= m < |ns| && ns[m].id == n.id ==> m == k;
    }
    KeepSame(ns, Kept(ns, f, |ns|), f);
  }

  /** The part of `addEdge` that keeps the index up to date. */
  method IndexEdge<D>(index: Index<D>, edge: Edge<D>) returns (adjacency: Index<D>)
    requires NoEmpty(index)
    ensures adjacency == Indexed(index, edge)
  {
    adjacency := index;
    var a, b := edge.source.id, edge.target.id;
    if a !in adjacency { adjacency := adjacency[a := map[]]; }
    if b !in adjacency[a] { adjacency := adjacency[a := adjacency[a][b := []]]; }
    assert adjacency[a][b] == Bucket(index, a, b);
    var exists' := FindId(adjacency[a][b], edge.id);
    if exists' {
      assert adjacency == index;
    } else {
      adjacency := adjacency[a := adjacency[a][b := adjacency[a][b] + [edge]]];
      ghost var row := if a in index then index[a] else map[];
      assert adjacency[a] == row[b := Bucket(index, a, b) + [edge]];
      assert adjacency == index[a := adjacency[a]];
    }
  }

  class Graph<D> {
    var nodeSet: map<nat, Node<D>>
    var nodes: seq<Node<D>>
    var edges: seq<Edge<D>>
    var adjacency: Index<D>
    var nextNodeId: nat
    var nextEdgeId: nat

    ghost predicate Valid()
      reads this
    {
      true == (NodesAgree(nodes, nodeSet) && Agree(adjacency, edges) && NoEmpty(adjacency) && Distinct(edges))
    }

    /** What every call leaves, also those that bring index and list out of agreement. */
    ghost predicate Sound()
      reads this
    {
      true == (NodesAgree(nodes, nodeSet) && NoEmpty(adjacency) && Distinct(edges))
    }

    /** The ids that `newEdge` will give are not in use; only `addEdge` can break this. */
    ghost predicate Numbered()
      reads this`edges, this`nextEdgeId
    {
      Below(edges, nextEdgeId)
    }

    constructor ()
      ensures Valid() && Numbered() && nodes == [] && edges == [] && nextNodeId == nextEdgeId == 0
    {
      nodeSet, nodes, edges, adjacency, nextNodeId, nextEdgeId := map[], [], [], map[], 0, 0;
    }

    method AddNode(node: Node<D>)
      requires Valid()
      modifies this`nodes, this`nodeSet
      ensures Valid() && nodeSet == old(nodeSet)[node.id := node]
      ensures nodes == if node.id in old(nodeSet) then old(nodes) else old(nodes) + [node]
    {
      AddedNode(nodes, nodeSet, node);
      if node.id !in nodeSet { nodes := nodes + [node]; }
      nodeSet := nodeSet[node.id := node];
    }

    method NewNode(data: D) returns (node: Node<D>)
      requires Valid()
      modifies this`nodes, this`nodeSet, this`nextNodeId
      ensures Valid() && node == Node(old(nextNodeId), data) && nodeSet == old(nodeSet)[node.id := node]
      ensures nodes == if node.id in old(nodeSet) then old(nodes) else old(nodes) + [node]
      ensures nextNodeId == old(nextNodeId) + 1
    {
      node := Node(nextNodeId, data);
      nextNodeId := nextNodeId + 1;
      AddNode(node);
    }

    /** `addEdge`, for an edge with any id: the numbers of `newEdge` are not touched. */
    method AddEdge(edge: Edge<D>)
      requires Sound()
      modifies this`edges, this`adjacency
      ensures edges == Listed(old(edges), edge) && adjacency == Indexed(old(adjacency), edge) && Sound()
      ensures old(Valid()) ==> (Valid() <==> SameEnds(old(edges), edge))
      ensures old(Numbered()) && edge.id < nextEdgeId ==> Numbered()
    {
      AddedKeeps(adjacency, edges, edge);
      if Valid() { AddedAgrees(adjacency, edges, edge); }
      var exists' := FindId(edges, edge.id);
      if !exists' { edges := edges + [edge]; }
      adjacency := IndexEdge(adjacency, edge);
    }

    /** `newEdge`: the new edge is new indeed if its number has not come in through `addEdge`. */
    method NewEdge(source: Node<D>, target: Node<D>, data: D) returns (edge: Edge<D>)
      requires Sound()
      modifies this`edges, this`adjacency, this`nextEdgeId
      ensures edge == Edge(old(nextEdgeId), source, target, data) && nextEdgeId == old(nextEdgeId) + 1
      ensures edges == Listed(old(edges), edge) && adjacency == Indexed(old(adjacency), edge) && Sound()
      ensures old(Valid()) ==> (Valid() <==> SameEnds(old(edges), edge))
      ensures !HasId(old(edges), old(nextEdgeId)) ==> (old(Valid()) ==> Valid()) && edges == old(edges) + [edge]
      ensures old(Numbered()) ==> !HasId(old(edges), old(nextEdgeId)) && Numbered()
    {
      edge := Edge(nextEdgeId, source, target, data);
      nextEdgeId := nextEdgeId + 1;
      AddEdge(edge);
    }

    /**
     `addEdges`: an edge for every pair of node ids, up to the first id that is not known, where the source raises an
     error. Index and list agree afterwards exactly if no number that an edge gets was in use for other ends.
     */
    method AddEdges(args: seq<(nat, nat, D)>) returns (done: nat)
      requires Sound()
      modifies this`edges, this`adjacency, this`nextEdgeId
      ensures Sound() && (old(Numbered()) ==> Numbered()) && nextEdgeId == old(nextEdgeId) + done
      ensures Known(nodeSet, args, done) && (done < |args| ==> !Known(nodeSet, args, done + 1))
      ensures Added(edges, adjacency, old(edges), old(adjacency), nodeSet, args, done, old(nextEdgeId))
      ensures old(Valid()) ==>
        (Valid() <==> AllSameEnds(old(edges), Numbering(nodeSet, args, done, old(nextEdgeId))))
      ensures old(Numbered()) ==> edges == old(edges) + Numbering(nodeSet, args, done, old(nextEdgeId))
    {
      done := 0;
      while done < |args|
        invariant Sound() && (old(Numbered()) ==> Numbered()) && nextEdgeId == old(nextEdgeId) + done
        invariant Added(edges, adjacency, old(edges), old(adjacency), nodeSet, args, done, old(nextEdgeId))
      {
        if args[done].0 !in nodeSet || args[done].1 !in nodeSet { break; }
        NewEdgeFor(args, done, old(edges), old(adjacency), old(nextEdgeId));
        done := done + 1;
      }
      AddedAll(edges, adjacency, old(edges), old(adjacency), nodeSet, args, done, old(nextEdgeId));
    }

    /** One round of the loop */
    method NewEdgeFor(args: seq<(nat, nat, D)>, n: nat, ghost edges0: seq<Edge<D>>, ghost index0: Index<D>,
                      ghost next: nat)
      requires Sound() && n < |args| && args[n].0 in nodeSet && args[n].1 in nodeSet && nextEdgeId == next + n
      requires Added(edges, adjacency, edges0, index0, nodeSet, args, n, next)
      modifies this`edges, this`adjacency, this`nextEdgeId
      ensures Sound() && (old(Numbered()) ==> Numbered()) && nextEdgeId == next + n + 1
      ensures Added(edges, adjacency, edges0, index0, nodeSet, args, n + 1, next)
    {
      var e := args[n];
      AddedNext(edges, adjacency, edges0, index0, nodeSet, args, n, next);
      var edge := NewEdge(nodeSet[e.0], nodeSet[e.1], e.2);
    }

    /** The edges from `node1` to `node2`, in the order in which they were added. */
    method GetEdges(node1: Node<D>, node2: Node<D>) returns (es: seq<Edge<D>>)
      requires Valid()
      ensures es == Keep(edges, FromTo(node1.id, node2.id))
      ensures forall e :: e in es <==> e in edges && e.source.id == node1.id && e.target.id == node2.id
    {
      forall e ensures e in Keep(edges, FromTo(node1.id, node2.id)) <==>
          e in edges && e.source.id == node1.id && e.target.id == node2.id
      {
        KeepIn(edges, FromTo(node1.id, node2.id), e);
      }
      assert Bucket(adjacency, node1.id, node2.id) == Keep(edges, FromTo(node1.id, node2.id));
      if node1.id in adjacency && node2.id in adjacency[node1.id] { return adjacency[node1.id][node2.id]; }
      return [];
    }

    method RemoveEdge(edge: Edge<D>)
      requires Valid()
      modifies this`edges, this`adjacency
      ensures Valid() && (old(Numbered()) ==> Numbered()) && edges == Keep(old(edges), NotId(edge.id))
      ensures forall e :: e in edges <==> e in old(edges) && e.id != edge.id
    {
      PurgedAgrees(adjacency, edges, edge.id);
      DistinctKeep(edges, NotId(edge.id));
      BelowKeep(edges, NotId(edge.id));
      edges := SpliceOut(edges, NotId(edge.id));
      adjacency := PurgeIndex(adjacency, edge.id);
      forall e ensures e in edges <==> e in old(edges) && e.id != edge.id {
        KeepIn(old(edges), NotId(edge.id), e);
      }
    }

    method DetachNode(node: Node<D>)
      requires Valid()
      modifies this`edges, this`adjacency
      ensures Valid() && (old(Numbered()) ==> Numbered()) && edges == Keep(old(edges), Away(node.id))
      ensures forall e :: e in edges <==> e in old(edges) && e.source.id != node.id && e.target.id != node.id
    {
      RemoveEdges(edges, Away(node.id));
      forall e ensures e in edges <==> e in old(edges) && e.source.id != node.id && e.target.id != node.id {
        KeepIn(old(edges), Away(node.id), e);
      }
    }

    /** Removes the edges of a copy of the list for which `f` does not hold. */
    method RemoveEdges(tmpEdges: seq<Edge<D>>, f: Edge<D> -> bool)
      requires Valid() && tmpEdges == edges
      modifies this`edges, this`adjacency
      ensures Valid() && (old(Numbered()) ==> Numbered()) && edges == Keep(old(edges), f)
    {
      LaterAll(tmpEdges, f);
      for i := 0 to |tmpEdges|
        invariant Valid() && (old(Numbered()) ==> Numbered()) && edges == Keep(tmpEdges, Later(tmpEdges, f, i))
      {
        LaterNext(tmpEdges, f, i);
        if !f(tmpEdges[i]) { RemoveEdge(tmpEdges[i]); }
      }
    }

    method RemoveNode(node: Node<D>)
      requires Valid()
      modifies this`nodes, this`nodeSet, this`edges, this`adjacency
      ensures Valid() && (old(Numbered()) ==> Numbered()) && nodes == Keep(old(nodes), OtherNode(node.id)) &&
        nodeSet == old(nodeSet) - {node.id}
      ensures edges == Keep(old(edges), Away(node.id))
      ensures forall e :: e in edges <==> e in old(edges) && e.source.id != node.id && e.target.id != node.id
      ensures forall n :: n in nodes <==> n in old(nodes) && n.id != node.id
    {
      RemovedNode(nodes, nodeSet, node.id);
      if node.id in nodeSet { nodeSet := nodeSet - {node.id}; }
      assert nodeSet == old(nodeSet) - {node.id};
      nodes := SpliceOut(nodes, OtherNode(node.id));
      forall n ensures n in nodes <==> n in old(nodes) && n.id != node.id { KeepIn(old(nodes), OtherNode(node.id), n); }
      DetachNode(node);
    }

    method FilterEdges(f: Edge<D> -> bool)
      requires Valid()
      modifies this`edges, this`adjacency
      ensures Valid() && (old(Numbered()) ==> Numbered()) && edges == Keep(old(edges), f)
      ensures forall e :: e in edges <==> e in old(edges) && f(e)
    {
      RemoveEdges(edges, f);
      forall e ensures e in edges <==> e in old(edges) && f(e) { KeepIn(old(edges), f, e); }
    }

    /** What stays are the nodes for which `f` holds and the edges that do not touch any of the others. */
    method FilterNodes(f: Node<D> -> bool)
      requires Valid()
      modifies this`nodes, this`nodeSet, this`edges, this`adjacency
      ensures Valid() && (old(Numbered()) ==> Numbered()) && nodes == Keep(old(nodes), f)
      ensures edges == Keep(old(edges), Spared(old(nodes), f, |old(nodes)|))
      ensures forall n :: n in nodes <==> n in old(nodes) && f(n)
      ensures forall e :: e in edges <==> e in old(edges) && forall k :: 0 <= k < |old(nodes)| ==>
        f(old(nodes)[k]) || (e.source.id != old(nodes)[k].id && e.target.id != old(nodes)[k].id)
    {
      var tmpNodes := nodes;
      KeptAll(tmpNodes, f, edges, nodeSet);
      for i := 0 to |tmpNodes|
        invariant Valid() && (old(Numbered()) ==> Numbered())
        invariant nodes == Keep(tmpNodes, Kept(tmpNodes, f, i)) && edges == Keep(old(edges), Spared(tmpNodes, f, i))
      {
        KeptNext(tmpNodes, f, i, old(edges));
        if !f(tmpNodes[i]) { RemoveNode(tmpNodes[i]); }
      }
      forall n ensures n in nodes <==> n in tmpNodes && f(n) { KeepIn(tmpNodes, f, n); }
      forall e ensures e in edges <==> e in old(edges) && Spared(tmpNodes, f, |tmpNodes|)(e) {
        KeepIn(old(edges), Spared(tmpNodes, f, |tmpNodes|), e);
      }
    }
  }
}
