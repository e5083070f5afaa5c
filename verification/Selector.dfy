/**
 The selector engine: token lists are compiled into matchers that are evaluated from right to left, and walks along
 ancestors or preceding siblings are memoised on the nodes that they pass.
 */
module Selector {
  import opened ChunkStore

  // ----- documents -----

  datatype Dir = Parent | Previous

  /** The nodes are numbered in document order; -1 stands for no parent or no previous sibling. */
  datatype Tree = Tree(parent: seq<int>, previous: seq<int>, element: seq<bool>)

  predicate Proper(t: Tree) {
    |t.parent| == |t.previous| == |t.element| &&
    forall i :: 0 <= i < |t.parent| ==> -1 <= t.parent[i] < i && -1 <= t.previous[i] < i
  }

  type Document = t: Tree | Proper(t) witness Tree([], [], [])

  /** `elem[dir]` */
  function Up(t: Document, dir: Dir, x: nat): (u: Option<nat>)
    ensures u.Some? ==> u.value < x
  {
    if x >= |t.parent| then None else
      var u := if dir == Parent then t.parent[x] else t.previous[x];
      if u < 0 then None else Some(u)
  }

  /** A walk stops at elements, and at other nodes if `nonElements`. */
  predicate Stops(t: Document, nonElements: bool, u: nat) {
    nonElements || (u < |t.element| && t.element[u])
  }

  // ----- selectors -----

  /** A filter is the set of nodes that pass it. A relation is a combinator: `first` for `>` and `+`. */
  datatype Token = Filter(holds: set<nat>) | Relative(dir: Dir, first: bool)

  /**
   What a selector is matched against; `foreign`: the context is not the outermost one (which the document never is).
   */
  datatype Scope = Scope(t: Document, contexts: set<nat>, many: bool, xml: bool, foreign: bool)

  /** Without a leading combinator the context need not be checked. */
  predicate Skip(s: Scope) {
    s.xml || s.foreign
  }

  predicate Reaches(t: Document, dir: Dir, x: nat, y: nat)
    decreases x
  {
    var u := Up(t, dir, x);
    u.Some? && (u.value == y || Reaches(t, dir, u.value, y))
  }

  /** `y` is the nearest stop beyond `x`. */
  predicate Nearest(t: Document, dir: Dir, nonElements: bool, x: nat, y: nat)
    decreases x
  {
    var u := Up(t, dir, x);
    u.Some? && if Stops(t, nonElements, u.value) then u.value == y else Nearest(t, dir, nonElements, u.value, y)
  }

  predicate Related(t: Document, dir: Dir, first: bool, nonElements: bool, x: nat, y: nat) {
    if first then Nearest(t, dir, nonElements, x, y) else Reaches(t, dir, x, y) && Stops(t, nonElements, y)
  }

  /** `y` stands to `x` as the token demands; a filter is about one node. */
  predicate TokenOk(t: Document, token: Token, y: nat, x: nat) {
    match token
    case Filter(holds) => y == x && x in holds
    case Relative(dir, first) => Related(t, dir, first, false, x, y)
  }

  predicate Leads(tokens: seq<Token>) {
    tokens != [] && tokens[0].Relative?
  }

  function Body(tokens: seq<Token>): seq<Token> {
    if Leads(tokens) then tokens[1..] else tokens
  }

  /** The leftmost node is related to the context, by the leading combinator or as a descendant. */
  ghost predicate Anchored(s: Scope, tokens: seq<Token>, x: nat) {
    var (dir, first) := if Leads(tokens) then (tokens[0].dir, tokens[0].first) else (Parent, false);
    (!Leads(tokens) && Skip(s)) || exists c :: c in s.contexts && Related(s.t, dir, first, dir == Parent, x, c)
  }

  /** `at` assigns nodes to the places between the tokens. */
  ghost predicate Assigned(s: Scope, tokens: seq<Token>, body: seq<Token>, at: seq<nat>) {
    |at| == |body| + 1 && Anchored(s, tokens, at[0]) && forall i :: 0 <= i < |body| ==>
    TokenOk(s.t, body[i], at[i], at[i + 1])
  }

  /** The meaning of a selector: nodes can be found for all its parts, the last of them is `x`. */
  ghost predicate Selects(s: Scope, tokens: seq<Token>, x: nat) {
    exists at :: Assigned(s, tokens, Body(tokens), at) && at[|at| - 1] == x
  }

  // ----- matchers -----

  datatype Matcher =
    | IsContext
    | Comb(dir: Dir, first: bool, nonElements: bool, inner: Matcher, id: nat)
    | Root(lead: bool, one: Matcher, many: Matcher)
    | Every(base: Matcher, filters: seq<set<nat>>)

  /** Evaluation without a memo. */
  predicate Matches(s: Scope, m: Matcher, x: nat)
    decreases m, x
  {
    match m
    case IsContext => x in s.contexts
    case Comb(dir, first, nonElements, inner, id) =>
      var u := Up(s.t, dir, x);
      u.Some? &&
      if !Stops(s.t, nonElements, u.value) then Matches(s, m, u.value)
      else Matches(s, inner, u.value) || (!first && Matches(s, m, u.value))
    case Root(lead, one, many) => (!lead && Skip(s)) || if s.many then Matches(s, many, x) else Matches(s, one, x)
    case Every(base, filters) => (forall i :: 0 <= i < |filters| ==> x in filters[i]) && Matches(s, base, x)
  }

  /** `elementMatcher`, where `matchers` is `base` followed by filters */
  function ElementMatcher(base: Matcher, filters: seq<set<nat>>): Matcher {
    if filters == [] then base else Every(base, filters)
  }

  /** What `matcherFromTokens` has built from a part of the tokens; `done` numbers the combinators. */
  datatype Built = Built(base: Matcher, filters: seq<set<nat>>, done: nat)

  function Start(tokens: seq<Token>, done: nat): Built {
    var lead := Leads(tokens);
    var (dir, first) := if lead then (tokens[0].dir, tokens[0].first) else (Parent, false);
    var one := Comb(dir, first, dir == Parent, IsContext, done);
    var many := Comb(dir, first, dir == Parent, IsContext, done + 1);
    Built(Root(lead, one, many), [], done + 2)
  }

  function Add(b: Built, token: Token): Built {
    match token
    case Filter(holds) => b.(filters := b.filters + [holds])
    case Relative(dir, first) => Built(Comb(dir, first, false, ElementMatcher(b.base, b.filters), b.done), [],
    b.done + 1)
  }

  function Build(tokens: seq<Token>, body: seq<Token>, done: nat): Built {
    if body == [] then Start(tokens, done) else Add(Build(tokens, body[..|body| - 1], done), body[|body| - 1])
  }

  /** `matcherFromTokens`, for tokens without positional filters */
  method MatcherFromTokens(tokens: seq<Token>, done0: nat) returns (m: Matcher, done: nat)
    ensures var b := Build(tokens, Body(tokens), done0); m == ElementMatcher(b.base, b.filters) && done == b.done
  {
    var leading := |tokens| > 0 && tokens[0].Relative?;
    var dir, first := Parent, false;
    if leading { dir, first := tokens[0].dir, tokens[0].first; }
    var matchContext := Comb(dir, first, dir == Parent, IsContext, done0);
    var matchAnyContext := Comb(dir, first, dir == Parent, IsContext, done0 + 1);
    var base, filters := Root(leading, matchContext, matchAnyContext), [];
    done := done0 + 2;
    ghost var body, n := Body(tokens), 0;
    var i := if leading then 1 else 0;
    while i < |tokens|
      invariant n == (if leading then i - 1 else i) && 0 <= n <= |body|
      invariant Built(base, filters, done) == Build(tokens, body[..n], done0)
    {
      assert body[n] == tokens[i] && body[..n + 1][..n] == body[..n];
      match tokens[i] {
        case Filter(holds) =>
          filters := filters + [holds];
        case Relative(d, f) =>
          base, filters, done := Comb(d, f, false, ElementMatcher(base, filters), done), [], done + 1;
      }
      i, n := i + 1, n + 1;
    }
    assert body[..n] == body;
    m := ElementMatcher(base, filters);
  }

  // ----- compilation preserves the meaning -----

  /** A combinator looks for a related node. */
  lemma {:induction false} CombMeans(s: Scope, m: Matcher, x: nat)
    requires m.Comb?
    ensures Matches(s, m, x) <==>
      exists y :: Related(s.t, m.dir, m.first, m.nonElements, x, y) && Matches(s, m.inner, y)
    decreases x
  {
    var u := Up(s.t, m.dir, x);
    if u.Some? {
      CombMeans(s, m, u.value);
      var r := (z, y) => Related(s.t, m.dir, m.first, m.nonElements, z, y);
      forall y
        ensures r(x, y) <==>
          if !Stops(s.t, m.nonElements, u.value) then r(u.value, y) else y == u.value || (!m.first && r(u.value, y))
      {
      }
      if Matches(s, m, x) {
        if Stops(s.t, m.nonElements, u.value) && Matches(s, m.inner, u.value) {
          assert r(x, u.value);
        } else {
          var y :| r(u.value, y) && Matches(s, m.inner, y);
          assert r(x, y);
        }
      }
    }
  }

  lemma SelectsMore(s: Scope, tokens: seq<Token>, body: seq<Token>, token: Token, x: nat)
    ensures (exists at :: Assigned(s, tokens, body + [token], at) && at[|at| - 1] == x) <==>
            exists y :: TokenOk(s.t, token, y, x) && exists at :: Assigned(s, tokens, body, at) && at[|at| - 1] == y
  {
    var b := body + [token];
    if at :| Assigned(s, tokens, b, at) && at[|at| - 1] == x {
      var k := |at| - 1;
      assert TokenOk(s.t, b[k - 1], at[k - 1], at[k]);
      forall i | 0 <= i < |body| ensures TokenOk(s.t, body[i], at[..k][i], at[..k][i + 1]) {
        assert b[i] == body[i] && TokenOk(s.t, b[i], at[i], at[i + 1]);
      }
      assert Assigned(s, tokens, body, at[..k]);
    }
    if y, at :| TokenOk(s.t, token, y, x) && Assigned(s, tokens, body, at) && at[|at| - 1] == y {
      var a := at + [x];
      forall i | 0 <= i < |b| ensures TokenOk(s.t, b[i], a[i], a[i + 1]) {
        if i < |body| { assert TokenOk(s.t, body[i], at[i], at[i + 1]); }
      }
      assert Assigned(s, tokens, b, a);
    }
  }

  lemma StartMeans(s: Scope, tokens: seq<Token>, done: nat, x: nat)
    ensures Matches(s, Start(tokens, done).base, x) <==> Anchored(s, tokens, x)
  {
    var root := Start(tokens, done).base;
    var m := if s.many then root.many else root.one;
    CombMeans(s, m, x);
    if c :| c in s.contexts && Related(s.t, m.dir, m.first, m.nonElements, x, c) {
      assert Matches(s, m.inner, c);
    }
  }

  lemma {:induction false} BuildMeans(s: Scope, tokens: seq<Token>, body: seq<Token>, done: nat, x: nat)
    ensures var b := Build(tokens, body, done);
            Matches(s, ElementMatcher(b.base, b.filters), x) <==>
            exists at :: Assigned(s, tokens, body, at) && at[|at| - 1] == x
    decreases |body|
  {
    if body == [] {
      StartMeans(s, tokens, done, x);
      if Anchored(s, tokens, x) {
        assert Assigned(s, tokens, [], [x]);
      }
    } else {
      var k := |body| - 1;
      var b, token := Build(tokens, body[..k], done), body[k];
      assert body == body[..k] + [token];
      SelectsMore(s, tokens, body[..k], token, x);
      match token
      case Filter(holds) =>
        BuildMeans(s, tokens, body[..k], done, x);
        FilterMeans(s, b.base, b.filters, holds, x);
        assert TokenOk(s.t, token, x, x) <==> x in holds;
      case Relative(dir, first) =>
        CombMeans(s, Add(b, token).base, x);
        forall y
          ensures Matches(s, ElementMatcher(b.base, b.filters), y) <==>
            exists at :: Assigned(s, tokens, body[..k], at) && at[|at| - 1] == y
        {
          BuildMeans(s, tokens, body[..k], done, y);
        }
        forall y ensures TokenOk(s.t, token, y, x) <==> Related(s.t, dir, first, false, x, y) {
        }
    }
  }

  lemma FilterMeans(s: Scope, base: Matcher, filters: seq<set<nat>>, holds: set<nat>, x: nat)
    ensures Matches(s, ElementMatcher(base, filters + [holds]), x) <==>
      Matches(s, ElementMatcher(base, filters), x) && x in holds
  {
    var fs := filters + [holds];
    assert fs[|filters|] == holds && forall i :: 0 <= i < |filters| ==> fs[i] == filters[i];
  }

  /** The compiled matcher accepts a node exactly if the selector selects it. */
  lemma CompilationMeans(s: Scope, tokens: seq<Token>, done: nat, x: nat)
    ensures var b := Build(tokens, Body(tokens), done);
            Matches(s, ElementMatcher(b.base, b.filters), x) <==> Selects(s, tokens, x)
  {
    BuildMeans(s, tokens, Body(tokens), done, x);
  }

  /**
   What the combinators mean: an ancestor or an earlier sibling that is an element, and for `>` and `+` the nearest one.
   Towards the context nodes of any kind count.
   */
  lemma {:induction false} RelatedIs(t: Document, dir: Dir, first: bool, nonElements: bool, x: nat, y: nat)
    ensures var counts := (z: nat) => nonElements || (z < |t.element| && t.element[z]);
            Related(t, dir, first, nonElements, x, y) <==>
            Reaches(t, dir, x, y) && counts(y) &&
            (first ==> forall z :: Reaches(t, dir, x, z) && Reaches(t, dir, z, y) ==> !counts(z))
    decreases x
  {
    var u := Up(t, dir, x);
    if first && u.Some? { NearestIs(t, dir, nonElements, x, y); }
  }

  lemma {:induction false} NearestIs(t: Document, dir: Dir, nonElements: bool, x: nat, y: nat)
    ensures Nearest(t, dir, nonElements, x, y) <==>
      Reaches(t, dir, x, y) && Stops(t, nonElements, y) &&
      forall z :: Reaches(t, dir, x, z) && Reaches(t, dir, z, y) ==> !Stops(t, nonElements, z)
    decreases x
  {
    var u := Up(t, dir, x);
    if u.Some? {
      NearestIs(t, dir, nonElements, u.value, y);
      if Reaches(t, dir, u.value, y) { ReachesDown(t, dir, u.value, y); }
      assert Reaches(t, dir, x, u.value);
      forall z ensures Reaches(t, dir, x, z) <==> z == u.value || Reaches(t, dir, u.value, z) { }
      if u.value == y {
        forall z | Reaches(t, dir, x, z) && Reaches(t, dir, z, y) ensures false {
          if Reaches(t, dir, u.value, z) { ReachesDown(t, dir, u.value, z); }
          ReachesDown(t, dir, z, y);
        }
      }
    }
  }

  /** Walks go to smaller numbers. */
  lemma {:induction false} ReachesDown(t: Document, dir: Dir, x: nat, y: nat)
    requires Reaches(t, dir, x, y)
    ensures y < x
    decreases x
  {
    var u := Up(t, dir, x);
    if u.value != y { ReachesDown(t, dir, u.value, y); }
  }

  /**
   What a selector without a leading combinator means: its leftmost node lies below a context, except that this is not
   asked for in XML and in a context that is not the outermost one.
   */
  lemma PlainSelects(s: Scope, tokens: seq<Token>, x: nat)
    requires tokens != [] ==> tokens[0].Filter?
    ensures Selects(s, tokens, x) <==> exists at: seq<nat> :: FromContext(s, tokens, at, x)
  {
    assert Body(tokens) == tokens && !Leads(tokens);
    if at: seq<nat> :| Assigned(s, tokens, tokens, at) && at[|at| - 1] == x {
      if c :| c in s.contexts && Related(s.t, Parent, false, true, at[0], c) {
        RelatedIs(s.t, Parent, false, true, at[0], c);
      }
      assert FromContext(s, tokens, at, x);
    }
    if at: seq<nat> :| FromContext(s, tokens, at, x) {
      if c :| c in s.contexts && Reaches(s.t, Parent, at[0], c) { RelatedIs(s.t, Parent, false, true, at[0], c); }
      assert Assigned(s, tokens, tokens, at);
    }
  }

  /** The nodes `at` fit the tokens, the last of them is `x`, and the first lies below a context. */
  ghost predicate FromContext(s: Scope, tokens: seq<Token>, at: seq<nat>, x: nat) {
    |at| == |tokens| + 1 && at[|at| - 1] == x &&
    (forall i :: 0 <= i < |tokens| ==> TokenOk(s.t, tokens[i], at[i], at[i + 1])) &&
    (s.xml || s.foreign || exists c :: c in s.contexts && Reaches(s.t, Parent, at[0], c))
  }

  // ----- the memo -----

  datatype Data = Unset | Yes | No(run: nat)

  /** A note on a node: `run` and `id` are the two halves of its key. */
  datatype Note = Note(run: nat, id: nat, data: Data)

  datatype Slot = Slot(node: nat, dir: Dir)

  type Notes = map<Slot, Note>

  /** The numbers of the combinators in a matcher. */
  function Ids(m: Matcher): set<nat> {
    match m
    case IsContext => {}
    case Comb(_, _, _, inner, id) => {id} + Ids(inner)
    case Root(_, one, many) => Ids(one) + Ids(many)
    case Every(base, _) => Ids(base)
  }

  /** `table` gives the combinators of `m` by their numbers, which are different. */
  predicate Known(m: Matcher, table: map<nat, Matcher>) {
    match m
    case IsContext => true
    case Comb(_, _, _, inner, id) => id in table && table[id] == m && Known(inner, table) && id !in Ids(inner)
    case Root(_, one, many) => Known(one, table) && Known(many, table) && Ids(one) !! Ids(many)
    case Every(base, _) => Known(base, table)
  }

  /** What is fixed while a set of elements is matched: the scope, the combinators and the number `run` of the call. */
  datatype Job = Job(s: Scope, table: map<nat, Matcher>, run: nat)

  /** A note tells the truth about its node: `true` that it matches, a number that it does not. */
  ghost predicate Right(j: Job, x: nat, dir: Dir, n: Note, cur: nat) {
    true == (n.id in j.table && j.table[n.id].Comb? &&
      (n.data.Yes? ==> Matches(j.s, j.table[n.id].inner, x)) &&
      (n.data.No? ==> !Matches(j.s, j.table[n.id].inner, x) && n.data.run <= cur))
  }

  /** The number of the current element says moreover that nothing beyond the node matches. */
  ghost predicate Final(j: Job, x: nat, n: Note, cur: nat) {
    true == (!n.data.Unset? && (n.data == No(cur) ==> n.id in j.table && !Matches(j.s, j.table[n.id], x)))
  }

  ghost predicate Ok(j: Job, notes: Notes, cur: nat, ids: set<nat>) {
    true == (forall k: Slot {:trigger notes[k]} :: k in notes && notes[k].run == j.run ==>
      Right(j, k.node, k.dir, notes[k], cur) && (notes[k].id in ids ==> Final(j, k.node, notes[k], cur)))
  }

  /** Matching at `x` writes notes only of its own combinators, and only beyond `x`. */
  ghost predicate Wrote(j: Job, before: Notes, after: Notes, ids: set<nat>, x: nat) {
    true == (forall k: Slot {:trigger after[k]} :: k in after ==>
      (k in before && after[k] == before[k]) ||
      (after[k].run == j.run && after[k].id in ids && k.node < x && !after[k].data.Unset?))
  }

  /**
   In the middle of the walk of `m`, at `e`: the notes of `m` are final as soon as it is known that there is no match
   beyond `e`.
   */
  ghost predicate Walking(j: Job, notes: Notes, cur: nat, m: Matcher, e: nat)
    requires m.Comb?
  {
    true == (forall k: Slot {:trigger notes[k]} :: k in notes && notes[k].run == j.run && notes[k].id == m.id ==>
      !notes[k].data.Unset? && (notes[k].data == No(cur) && Matches(j.s, m, k.node) ==>
      k.node >= e && Matches(j.s, m, e)))
  }

  lemma WroteTrans(j: Job, a: Notes, b: Notes, c: Notes, i1: set<nat>, i2: set<nat>, ids: set<nat>, x: nat, y: nat)
    requires Wrote(j, a, b, i1, x) && Wrote(j, b, c, i2, y) && i1 <= ids && i2 <= ids && y <= x
    ensures Wrote(j, a, c, ids, x)
  {
  }

  /** Notes of combinators that are not involved stay final. */
  lemma OkFrame(j: Job, before: Notes, after: Notes, cur: nat, ids: set<nat>, keep: set<nat>, x: nat)
    requires Ok(j, before, cur, keep) && Wrote(j, before, after, ids, x) && ids !! keep && Ok(j, after, cur, {})
    ensures Ok(j, after, cur, keep)
  {
  }

  lemma OkLess(j: Job, notes: Notes, cur: nat, ids: set<nat>, less: set<nat>)
    requires Ok(j, notes, cur, ids) && less <= ids
    ensures Ok(j, notes, cur, less)
  {
  }

  lemma WalkBegins(j: Job, notes: Notes, cur: nat, m: Matcher, x: nat)
    requires m.Comb? && Known(m, j.table) && Ok(j, notes, cur, Ids(m))
    ensures Ok(j, notes, cur, Ids(m.inner)) && Walking(j, notes, cur, m, x)
  {
    OkLess(j, notes, cur, Ids(m), Ids(m.inner));
  }

  lemma WalkFails(j: Job, notes: Notes, cur: nat, m: Matcher, e: nat)
    requires m.Comb? && Known(m, j.table) && Ok(j, notes, cur, Ids(m.inner)) && Walking(j, notes, cur, m, e) &&
      !Matches(j.s, m, e)
    ensures Ok(j, notes, cur, Ids(m))
  {
    forall k: Slot | k in notes && notes[k].run == j.run
      ensures Right(j, k.node, k.dir, notes[k], cur) && (notes[k].id in Ids(m) ==> Final(j, k.node, notes[k], cur)) {
      assert Right(j, k.node, k.dir, notes[k], cur);
    }
  }

  /** The inner matcher has been called at `u` and has not matched. */
  lemma WalkGoesOn(j: Job, before: Notes, after: Notes, cur: nat, m: Matcher, e: nat, u: nat)
    requires m.Comb? && !m.first && Known(m, j.table) && Up(j.s.t, m.dir, e) == Some(u) &&
      Stops(j.s.t, m.nonElements, u)
    requires Walking(j, before, cur, m, e) && Wrote(j, before[Slot(u, m.dir) := Note(j.run, m.id, Unset)], after,
      Ids(m.inner), u)
    requires Ok(j, after, cur, Ids(m.inner)) && !Matches(j.s, m.inner, u)
    ensures var notes := after[Slot(u, m.dir) := Note(j.run, m.id, No(cur))];
            Ok(j, notes, cur, Ids(m.inner)) && Walking(j, notes, cur, m, u)
  {
    var slot, note := Slot(u, m.dir), Note(j.run, m.id, No(cur));
    var notes := after[slot := note];
    forall k: Slot | k in notes && notes[k].run == j.run && notes[k].id == m.id
      ensures !notes[k].data.Unset? && (notes[k].data == No(cur) && Matches(j.s, m, k.node) ==>
        k.node >= u && Matches(j.s, m, u)) {
      if k != slot {
        assert after[k] == notes[k] && k in before && before[k] == after[k];
      }
    }
    forall k: Slot | k in notes && notes[k].run == j.run
      ensures Right(j, k.node, k.dir, notes[k], cur) &&
        (notes[k].id in Ids(m.inner) ==> Final(j, k.node, notes[k], cur)) {
      if k != slot { assert after[k] == notes[k]; }
    }
  }

  /** The walk passes a node that is known not to match, or at which it does not stop. */
  lemma WalkPasses(j: Job, notes: Notes, cur: nat, m: Matcher, e: nat, u: nat)
    requires m.Comb? && !m.first && Up(j.s.t, m.dir, e) == Some(u)
    requires Walking(j, notes, cur, m, e) && (Stops(j.s.t, m.nonElements, u) ==> !Matches(j.s, m.inner, u))
    ensures Walking(j, notes, cur, m, u)
  {
  }

  /** The inner matcher has matched at `u`. */
  lemma WalkSucceeds(j: Job, before: Notes, after: Notes, cur: nat, m: Matcher, u: nat)
    requires m.Comb? && Known(m, j.table) && Matches(j.s, m.inner, u) && Ok(j, after, cur, {})
    ensures Ok(j, after[Slot(u, m.dir) := Note(j.run, m.id, Yes)], cur, {})
  {
    var slot := Slot(u, m.dir);
    var notes := after[slot := Note(j.run, m.id, Yes)];
    forall k: Slot | k in notes && notes[k].run == j.run ensures Right(j, k.node, k.dir, notes[k], cur) {
      if k != slot { assert after[k] == notes[k]; }
    }
  }

  /** Before the inner matcher is called the note is there, without a value. */
  lemma WalkCalls(j: Job, notes: Notes, cur: nat, m: Matcher, u: nat)
    requires m.Comb? && Known(m, j.table) && Ok(j, notes, cur, Ids(m.inner))
    ensures Ok(j, notes[Slot(u, m.dir) := Note(j.run, m.id, Unset)], cur, Ids(m.inner))
  {
    var slot := Slot(u, m.dir);
    var after := notes[slot := Note(j.run, m.id, Unset)];
    forall k: Slot | k in after && after[k].run == j.run
      ensures Right(j, k.node, k.dir, after[k], cur) &&
        (after[k].id in Ids(m.inner) ==> Final(j, k.node, after[k], cur)) {
      if k != slot { assert after[k] == notes[k]; }
    }
  }

  lemma WroteCall(j: Job, a: Notes, b: Notes, m: Matcher, u: nat, x: nat, data: Data)
    requires m.Comb? && u < x && !data.Unset? &&
      Wrote(j, a[Slot(u, m.dir) := Note(j.run, m.id, Unset)], b, Ids(m.inner), u)
    ensures Wrote(j, a, b[Slot(u, m.dir) := Note(j.run, m.id, data)], Ids(m), x)
  {
  }

  datatype Verdict = Match | Stop | Continue

  class Memo {
    var notes: Notes
    var dirruns: nat
    var cachedruns: nat

    /** `m` is called on `x`, and the notes are in order. */
    ghost predicate Ready(m: Matcher, j: Job)
      reads this
    {
      true == (j.run == dirruns && Known(m, j.table) && Ok(j, notes, cachedruns, Ids(m)))
    }

    /** `m` has been called on `x` with result `r`. */
    twostate predicate Called(m: Matcher, x: nat, j: Job, r: bool)
      reads this
    {
      true == (r == Matches(j.s, m, x) && Ok(j, notes, cachedruns, if r then {} else Ids(m)) &&
      Wrote(j, old(notes), notes, Ids(m), x))
    }

    /** Calls the matcher `m` on element `x`. */
    method Eval(m: Matcher, x: nat, s: Scope, ghost j: Job) returns (r: bool)
      requires j.s == s && Ready(m, j)
      modifies this`notes
      ensures Called(m, x, j, r)
      decreases m, 2
    {
      match m {
        case IsContext =>
          r := x in s.contexts;
          OkLess(j, notes, cachedruns, Ids(m), {});
        case Comb(dir, first, nonElements, inner, id) =>
          if first {
            r := WalkFirst(m, x, s, j);
          } else if s.xml {
            r := WalkPlain(m, x, s, j);
          } else {
            r := Walk(m, x, s, j);
          }
        case Root(lead, one, many) =>
          OkLess(j, notes, cachedruns, Ids(m), {});
          if !lead && Skip(s) {
            r := true;
          } else if s.many {
            r := EvalPart(many, Ids(one), x, s, j);
          } else {
            r := EvalPart(one, Ids(many), x, s, j);
          }
        case Every(base, filters) =>
          var i := |filters|;
          OkLess(j, notes, cachedruns, Ids(m), {});
          while i > 0
            invariant 0 <= i <= |filters| && forall k :: i <= k < |filters| ==> x in filters[k]
          {
            i := i - 1;
            if x !in filters[i] { return false; }
          }
          r := Eval(base, x, s, j);
      }
    }

    method WalkFirst(m: Matcher, x: nat, s: Scope, ghost j: Job) returns (r: bool)
      requires m.Comb? && m.first && j.s == s && Ready(m, j)
      modifies this`notes
      ensures Called(m, x, j, r)
      decreases m, 1
    {
      WalkBegins(j, notes, cachedruns, m, x);
      var e: nat := x;
      while true
        invariant e <= x && Matches(s, m, x) == Matches(s, m, e)
        decreases e
      {
        var u := Up(s.t, m.dir, e);
        if u == None {
          return false;
        }
        e := u.value;
        if Stops(s.t, m.nonElements, e) {
          r := EvalPart(m.inner, {m.id}, e, s, j);
          return;
        }
      }
    }

    /** Without a memo, in documents whose nodes cannot take notes. */
    method WalkPlain(m: Matcher, x: nat, s: Scope, ghost j: Job) returns (r: bool)
      requires m.Comb? && !m.first && j.s == s && Ready(m, j)
      modifies this`notes
      ensures Called(m, x, j, r)
      decreases m, 1
    {
      var e: nat := x;
      ghost var before := notes;
      OkLess(j, notes, cachedruns, Ids(m), {});
      while true
        invariant e <= x && Matches(s, m, x) == Matches(s, m, e)
        invariant Ok(j, notes, cachedruns, Ids(m)) && Wrote(j, before, notes, Ids(m), x)
        decreases e
      {
        var u := Up(s.t, m.dir, e);
        if u == None { return false; }
        e := u.value;
        if Stops(s.t, m.nonElements, e) {
          ghost var was := notes;
          r := EvalPart(m.inner, {m.id}, e, s, j);
          WroteTrans(j, before, was, notes, Ids(m), Ids(m), Ids(m), x, e);
          if r { return true; }
        }
      }
    }

    method Walk(m: Matcher, x: nat, s: Scope, ghost j: Job) returns (r: bool)
      requires m.Comb? && !m.first && j.s == s && Ready(m, j)
      modifies this`notes
      ensures Called(m, x, j, r)
      decreases m, 1
    {
      WalkBegins(j, notes, cachedruns, m, x);
      var e: nat := x;
      ghost var before := notes;
      while true
        invariant e <= x && Matches(s, m, x) == Matches(s, m, e)
        invariant Ok(j, notes, cachedruns, Ids(m.inner)) && Walking(j, notes, cachedruns, m, e) &&
          Wrote(j, before, notes, Ids(m), x)
        decreases e
      {
        var u := Up(s.t, m.dir, e);
        if u == None {
          WalkFails(j, notes, cachedruns, m, e);
          return false;
        }
        if Stops(s.t, m.nonElements, u.value) {
          var v := Visit(m, e, u.value, s, j, x, before);
          if v == Match { return true; }
          if v == Stop { return false; }
        } else {
          WalkPasses(j, notes, cachedruns, m, e, u.value);
        }
        e := u.value;
      }
    }

    /** One step of the memoised walk, from `e` to `u`. */
    method Visit(m: Matcher, ghost e: nat, u: nat, s: Scope, ghost j: Job, ghost x: nat, ghost before: Notes)
      returns (v: Verdict)
      requires m.Comb? && !m.first && j.s == s && j.run == dirruns && Known(m, j.table) && e <= x
      requires Up(s.t, m.dir, e) == Some(u) && Stops(s.t, m.nonElements, u)
      requires Ok(j, notes, cachedruns, Ids(m.inner)) && Walking(j, notes, cachedruns, m, e) &&
        Wrote(j, before, notes, Ids(m), x)
      modifies this`notes
      ensures Wrote(j, before, notes, Ids(m), x)
      ensures v == Match ==> Matches(s, m, e) && Ok(j, notes, cachedruns, {})
      ensures v == Stop ==> !Matches(s, m, e) && Ok(j, notes, cachedruns, Ids(m))
      ensures v == Continue ==>
        Matches(s, m, e) == Matches(s, m, u) && Ok(j, notes, cachedruns, Ids(m.inner)) &&
        Walking(j, notes, cachedruns, m, u)
      decreases m, 0
    {
      var slot := Slot(u, m.dir);
      OkLess(j, notes, cachedruns, Ids(m.inner), {});
      if slot in notes && notes[slot].run == dirruns && notes[slot].id == m.id {
        var data := notes[slot].data;
        assert Right(j, u, m.dir, notes[slot], cachedruns);
        if data == Yes { return Match; }
        if data == No(cachedruns) {
          WalkFails(j, notes, cachedruns, m, e);
          return Stop;
        }
        WalkPasses(j, notes, cachedruns, m, e, u);
        return Continue;
      }
      ghost var was := notes;
      WalkCalls(j, notes, cachedruns, m, u);
      notes := notes[slot := Note(dirruns, m.id, Unset)];
      var r := Eval(m.inner, u, s, j);
      WroteCall(j, was, notes, m, u, x, if r then Yes else No(cachedruns));
      if r {
        WalkSucceeds(j, was, notes, cachedruns, m, u);
      } else {
        WalkGoesOn(j, was, notes, cachedruns, m, e, u);
      }
      notes := notes[slot := Note(dirruns, m.id, if r then Yes else No(cachedruns))];
      WroteTrans(j, before, was, notes, Ids(m), Ids(m), Ids(m), x, x);
      v := if r then Match else Continue;
    }

    /** Calls a matcher that does not concern the combinators `others`. */
    method EvalPart(m: Matcher, ghost others: set<nat>, x: nat, s: Scope, ghost j: Job) returns (r: bool)
      requires j.s == s && j.run == dirruns && Known(m, j.table) && Ok(j, notes, cachedruns, Ids(m) + others) &&
        others !! Ids(m)
      modifies this`notes
      ensures r == Matches(s, m, x) && Ok(j, notes, cachedruns, if r then {} else Ids(m) + others)
      ensures Wrote(j, old(notes), notes, Ids(m) + others, x)
      decreases m, 3
    {
      OkLess(j, notes, cachedruns, Ids(m) + others, Ids(m));
      OkLess(j, notes, cachedruns, Ids(m) + others, others);
      ghost var before := notes;
      r := Eval(m, x, s, j);
      WroteTrans(j, before, before, notes, {}, Ids(m), Ids(m) + others, x, x);
      if !r {
        OkLess(j, notes, cachedruns, Ids(m), {});
        OkFrame(j, before, notes, cachedruns, Ids(m), others, x);
        OkBoth(j, notes, cachedruns, Ids(m), others);
      }
    }

    /** The matchers of a group are tried on an element, in order, until one accepts it. */
    method TryAll(ms: seq<Matcher>, x: nat, s: Scope, ghost j: Job) returns (found: bool)
      requires j.s == s && j.run == dirruns && KnownAll(ms, j.table) && Settled(j, notes, cachedruns) &&
        Ok(j, notes, cachedruns, IdsOf(ms))
      modifies this`notes
      ensures found == Any(s, ms, x) && Settled(j, notes, cachedruns) &&
        (old(Past(notes, dirruns)) ==> Past(notes, dirruns))
    {
      var i: nat := 0;
      assert ms[0..] == ms;
      while i < |ms|
        invariant i <= |ms| && forall k :: 0 <= k < i ==> !Matches(s, ms[k], x)
        invariant old(Past(notes, dirruns)) ==> Past(notes, dirruns)
        invariant KnownAll(ms[i..], j.table) && Settled(j, notes, cachedruns) &&
          Ok(j, notes, cachedruns, IdsOf(ms[i..]))
      {
        KnownRest(ms, j.table, i);
        ghost var was := notes;
        var r := EvalPart(ms[i], IdsOf(ms[i + 1..]), x, s, j);
        OkLess(j, notes, cachedruns, if r then {} else IdsOf(ms[i..]), {});
        WroteSettled(j, was, notes, cachedruns, IdsOf(ms[i..]), x);
        assert Past(was, dirruns) ==> Past(notes, dirruns);
        if r { return true; }
        OkLess(j, notes, cachedruns, IdsOf(ms[i..]), IdsOf(ms[i + 1..]));
        i := i + 1;
      }
      return false;
    }

    /** The function that `matcherFromGroupMatchers` returns; `runs` is the counter that it keeps from call to call. */
    method MatchElements(ms: seq<Matcher>, elems: seq<nat>, s: Scope, runs0: nat, ghost table: map<nat, Matcher>)
      returns (results: seq<nat>, runs: nat)
      requires KnownAll(ms, table) && Past(notes, dirruns)
      modifies this
      ensures results == Accepted(s, ms, elems) && Past(notes, dirruns)
    {
      runs := runs0;
      dirruns := dirruns + 1;
      cachedruns := runs;
      results := [];
      ghost var j := Job(s, table, dirruns);
      for i := 0 to |elems|
        invariant j == Job(s, table, dirruns) && cachedruns == runs && Settled(j, notes, cachedruns)
        invariant Ok(j, notes, cachedruns, IdsOf(ms)) && Past(notes, dirruns)
        invariant results == Accepted(s, ms, elems[..i])
      {
        assert elems[..i + 1][..i] == elems[..i];
        ghost var was := notes;
        var found := TryAll(ms, elems[i], s, j);
        if found { results := results + [elems[i]]; }
        NextElement(j, notes, cachedruns, IdsOf(ms));
        runs := runs + 1;
        cachedruns := runs;
      }
      assert elems[..|elems|] == elems;
    }
  }

  /** All notes were made by calls up to number `run`. */
  ghost predicate Past(notes: Notes, run: nat) {
    true == forall k: Slot {:trigger notes[k]} :: k in notes ==> notes[k].run <= run
  }

  lemma OkBoth(j: Job, notes: Notes, cur: nat, a: set<nat>, b: set<nat>)
    requires Ok(j, notes, cur, a) && Ok(j, notes, cur, b)
    ensures Ok(j, notes, cur, a + b)
  {
  }

  // ----- a set of elements -----

  /** All combinators of the matchers. */
  function IdsOf(ms: seq<Matcher>): set<nat> {
    if ms == [] then {} else Ids(ms[0]) + IdsOf(ms[1..])
  }

  /** `table` gives the combinators of all the matchers by their numbers, which are different. */
  predicate KnownAll(ms: seq<Matcher>, table: map<nat, Matcher>) {
    ms == [] || (Known(ms[0], table) && Ids(ms[0]) !! IdsOf(ms[1..]) && KnownAll(ms[1..], table))
  }

  predicate Any(s: Scope, ms: seq<Matcher>, x: nat) {
    exists i :: 0 <= i < |ms| && Matches(s, ms[i], x)
  }

  /** The elements that some matcher accepts. */
  function Accepted(s: Scope, ms: seq<Matcher>, elems: seq<nat>): seq<nat> {
    if elems == [] then [] else
      var k := |elems| - 1;
      Accepted(s, ms, elems[..k]) + if Any(s, ms, elems[k]) then [elems[k]] else []
  }

  /** Between two elements every note has a value. */
  ghost predicate Settled(j: Job, notes: Notes, cur: nat) {
    true == (Ok(j, notes, cur, {}) && forall k: Slot {:trigger notes[k]} :: k in notes && notes[k].run == j.run ==>
    !notes[k].data.Unset?)
  }

  /** For the next element the notes of the last one are old, and so all notes are final. */
  lemma NextElement(j: Job, notes: Notes, cur: nat, ids: set<nat>)
    requires Settled(j, notes, cur)
    ensures Settled(j, notes, cur + 1) && Ok(j, notes, cur + 1, ids)
  {
  }

  lemma WroteSettled(j: Job, before: Notes, after: Notes, cur: nat, ids: set<nat>, x: nat)
    requires Settled(j, before, cur) && Wrote(j, before, after, ids, x) && Ok(j, after, cur, {})
    ensures Settled(j, after, cur)
  {
  }

  lemma KnownRest(ms: seq<Matcher>, table: map<nat, Matcher>, i: nat)
    requires i < |ms| && KnownAll(ms[i..], table)
    ensures Known(ms[i], table) && Ids(ms[i]) !! IdsOf(ms[i + 1..]) && KnownAll(ms[i + 1..], table)
    ensures IdsOf(ms[i..]) == Ids(ms[i]) + IdsOf(ms[i + 1..])
  {
    assert ms[i..][0] == ms[i] && ms[i..][1..] == ms[i + 1..];
  }

  // ----- groups of selectors -----

  function Whole(tokens: seq<Token>, done: nat): Matcher {
    var b := Build(tokens, Body(tokens), done);
    ElementMatcher(b.base, b.filters)
  }

  /** The combinators of `m` by their numbers. */
  function Table(m: Matcher): map<nat, Matcher> {
    match m
    case IsContext => map[]
    case Comb(_, _, _, inner, id) => Table(inner)[id := m]
    case Root(_, one, many) => Table(one) + Table(many)
    case Every(base, _) => Table(base)
  }

  ghost predicate Extends(a: map<nat, Matcher>, b: map<nat, Matcher>) {
    forall i :: i in a ==> i in b && b[i] == a[i]
  }

  lemma {:induction false} KnownMore(m: Matcher, a: map<nat, Matcher>, b: map<nat, Matcher>)
    requires Known(m, a) && Extends(a, b)
    ensures Known(m, b)
  {
    match m
    case IsContext =>
    case Comb(_, _, _, inner, id) => KnownMore(inner, a, b);
    case Root(_, one, many) => KnownMore(one, a, b); KnownMore(many, a, b);
    case Every(base, _) => KnownMore(base, a, b);
  }

  /** The combinators of a compiled matcher have new numbers. */
  lemma {:induction false} BuildKnown(tokens: seq<Token>, body: seq<Token>, done: nat)
    ensures var b := Build(tokens, body, done);
            done <= b.done && Known(b.base, Table(b.base)) && Table(b.base).Keys == Ids(b.base) &&
            forall i :: i in Ids(b.base) ==> done <= i < b.done
    decreases |body|
  {
    if body != [] {
      var k := |body| - 1;
      BuildKnown(tokens, body[..k], done);
      var p := Build(tokens, body[..k], done);
      if body[k].Relative? {
        var b := Add(p, body[k]);
        assert Extends(Table(p.base), Table(b.base));
        KnownMore(ElementMatcher(p.base, p.filters), Table(p.base), Table(b.base));
      }
    } else {
      var r := Start(tokens, done).base;
      assert Table(r.one) == map[done := r.one] && Table(r.many) == map[done + 1 := r.many];
    }
  }

  ghost predicate BuiltFrom(m: Matcher, tokens: seq<Token>) {
    exists d: nat {:trigger Whole(tokens, d)} :: m == Whole(tokens, d)
  }

  /** The compiled form of the selectors of a group, the last one first. */
  ghost predicate Compiled(ms: seq<Matcher>, group: seq<seq<Token>>) {
    |ms| == |group| && forall i :: 0 <= i < |ms| ==> BuiltFrom(ms[i], group[|group| - 1 - i])
  }

  /** Some selector of the group selects `x`. */
  ghost predicate SelectsAny(s: Scope, group: seq<seq<Token>>, x: nat) {
    exists i :: 0 <= i < |group| && Selects(s, group[i], x)
  }

  lemma CompiledMeans(s: Scope, ms: seq<Matcher>, group: seq<seq<Token>>, x: nat)
    requires Compiled(ms, group)
    ensures Any(s, ms, x) <==> SelectsAny(s, group, x)
  {
    var n := |group| - 1;
    forall i | 0 <= i < |ms| ensures Matches(s, ms[i], x) <==> Selects(s, group[n - i], x) {
      assert BuiltFrom(ms[i], group[n - i]);
      var d: nat :| ms[i] == Whole(group[n - i], d);
      CompilationMeans(s, group[n - i], d, x);
    }
    if i :| 0 <= i < |group| && Selects(s, group[i], x) {
      assert Matches(s, ms[n - i], x);
    }
  }

  lemma KnownOne(ms: seq<Matcher>, m: Matcher, table: map<nat, Matcher>, more: map<nat, Matcher>)
    requires KnownAll(ms, table) && Known(m, more) && table.Keys !! Ids(m) && IdsOf(ms) <= table.Keys &&
      Extends(table, more)
    ensures KnownAll(ms + [m], more) && IdsOf(ms + [m]) == IdsOf(ms) + Ids(m)
    decreases |ms|
  {
    if ms == [] {
      assert [m][1..] == [];
    } else {
      KnownMore(ms[0], table, more);
      KnownOne(ms[1..], m, table, more);
      assert (ms + [m])[1..] == ms[1..] + [m];
    }
  }

  /** `compile`, for groups without positional filters */
  method Compile(group: seq<seq<Token>>, done0: nat)
    returns (ms: seq<Matcher>, done: nat, ghost table: map<nat, Matcher>)
    ensures Compiled(ms, group) && KnownAll(ms, table)
  {
    ms, done, table := [], done0, map[];
    var i := |group|;
    while i > 0
      invariant 0 <= i <= |group| && |ms| == |group| - i
      invariant forall k :: 0 <= k < |ms| ==> BuiltFrom(ms[k], group[|group| - 1 - k])
      invariant KnownAll(ms, table) && IdsOf(ms) <= table.Keys && forall k :: k in table ==> k < done
    {
      i := i - 1;
      BuildKnown(group[i], Body(group[i]), done);
      var m, d := MatcherFromTokens(group[i], done);
      assert m == Whole(group[i], done) && BuiltFrom(m, group[i]);
      var more := table + Table(m);
      assert table.Keys !! Ids(m) && Extends(Table(m), more) && Extends(table, more);
      KnownMore(m, Table(m), more);
      KnownOne(ms, m, table, more);
      ms, table, done := ms + [m], more, d;
    }
  }

  /** The elements that some selector of the group selects. */
  ghost function Selected(s: Scope, group: seq<seq<Token>>, elems: seq<nat>): seq<nat> {
    if elems == [] then [] else
      var k := |elems| - 1;
      Selected(s, group, elems[..k]) + if SelectsAny(s, group, elems[k]) then [elems[k]] else []
  }

  lemma {:induction false} AcceptedMeans(s: Scope, ms: seq<Matcher>, group: seq<seq<Token>>, elems: seq<nat>)
    requires Compiled(ms, group)
    ensures Accepted(s, ms, elems) == Selected(s, group, elems)
  {
    if elems != [] {
      AcceptedMeans(s, ms, group, elems[..|elems| - 1]);
      CompiledMeans(s, ms, group, elems[|elems| - 1]);
    }
  }

  /** Compiling a group and running the result, with whatever notes earlier calls have left on the nodes. */
  method Select(memo: Memo, group: seq<seq<Token>>, elems: seq<nat>, s: Scope, done: nat, runs: nat)
    returns (results: seq<nat>)
    requires Past(memo.notes, memo.dirruns)
    modifies memo
    ensures results == Selected(s, group, elems) && Past(memo.notes, memo.dirruns)
  {
    var ms, d;
    ghost var table;
    ms, d, table := Compile(group, done);
    AcceptedMeans(s, ms, group, elems);
    var r;
    results, r := memo.MatchElements(ms, elems, s, runs, table);
  }
}
