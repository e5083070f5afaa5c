/**
 The undo history of the editor, on documents that are sequences of lines. A change says how to take an edit back: the
 `added` lines from `start` on were once the lines `olds`.
 */
module History {
  import opened Sequences

  datatype Change<T> = Change(start: nat, added: int, olds: seq<T>)

  /** `done` and `undone` hold sets of changes; the last set is the next to be taken back. */
  datatype Log<T> = Log(done: seq<seq<Change<T>>>, undone: seq<seq<Change<T>>>, compound: int, closed: bool)

  predicate Fits<T>(doc: seq<T>, c: Change<T>) {
    c.start + c.added <= |doc| && c.added >= 1 && |c.olds| >= 1
  }

  /** The document before the change. */
  function Revert<T>(doc: seq<T>, c: Change<T>): seq<T>
    requires Fits(doc, c)
  {
    doc[..c.start] + c.olds + doc[c.start + c.added..]
  }

  /** The change that takes the reversal of `c` back. */
  function Inverse<T>(doc: seq<T>, c: Change<T>): Change<T>
    requires Fits(doc, c)
  {
    Change(c.start, |c.olds|, doc[c.start..c.start + c.added])
  }

  /** The changes of a set can be taken back, last one first. */
  predicate FitsAll<T>(doc: seq<T>, cs: seq<Change<T>>)
    decreases |cs|
  {
    cs == [] || (Fits(doc, cs[|cs| - 1]) && FitsAll(Revert(doc, cs[|cs| - 1]), cs[..|cs| - 1]))
  }

  function RevertAll<T>(doc: seq<T>, cs: seq<Change<T>>): seq<T>
    requires FitsAll(doc, cs)
    decreases |cs|
  {
    if cs == [] then doc else RevertAll(Revert(doc, cs[|cs| - 1]), cs[..|cs| - 1])
  }

  /** What `unredoHelper` collects in `out` while it takes a set back. */
  function InverseAll<T>(doc: seq<T>, cs: seq<Change<T>>): seq<Change<T>>
    requires FitsAll(doc, cs)
    decreases |cs|
  {
    if cs == [] then [] else
      [Inverse(doc, cs[|cs| - 1])] + InverseAll(Revert(doc, cs[|cs| - 1]), cs[..|cs| - 1])
  }

  // ----- taking back is undone by the inverse -----

  lemma InverseReverts<T>(doc: seq<T>, c: Change<T>)
    requires Fits(doc, c)
    ensures Fits(Revert(doc, c), Inverse(doc, c)) && Revert(Revert(doc, c), Inverse(doc, c)) == doc
  {
  }

  /** A set with a single change */
  lemma OneChange<T>(doc: seq<T>, c: Change<T>)
    requires Fits(doc, c)
    ensures FitsAll(doc, [c]) && RevertAll(doc, [c]) == Revert(doc, c) && InverseAll(doc, [c]) == [Inverse(doc, c)]
  {
    assert [c][..0] == [];
    assert FitsAll(Revert(doc, c), []);
    assert InverseAll(Revert(doc, c), []) == [];
  }

  lemma {:induction false} RevertConcat<T>(doc: seq<T>, a: seq<Change<T>>, b: seq<Change<T>>)
    requires FitsAll(doc, b) && FitsAll(RevertAll(doc, b), a)
    ensures FitsAll(doc, a + b) && RevertAll(doc, a + b) == RevertAll(RevertAll(doc, b), a)
    decreases |b|
  {
    if b == [] {
      assert a + b == a;
    } else {
      var c, b' := b[|b| - 1], b[..|b| - 1];
      RevertConcat(Revert(doc, c), a, b');
      assert (a + b)[..|a + b| - 1] == a + b';
    }
  }

  lemma {:induction false} InverseAllReverts<T>(doc: seq<T>, cs: seq<Change<T>>)
    requires FitsAll(doc, cs)
    ensures FitsAll(RevertAll(doc, cs), InverseAll(doc, cs))
    ensures RevertAll(RevertAll(doc, cs), InverseAll(doc, cs)) == doc
    decreases |cs|
  {
    if cs != [] {
      var c, cs' := cs[|cs| - 1], cs[..|cs| - 1];
      var mid := Revert(doc, c);
      InverseAllReverts(mid, cs');
      InverseReverts(doc, c);
      var i, r := [Inverse(doc, c)], InverseAll(mid, cs');
      OneChange(mid, Inverse(doc, c));
      RevertConcat(RevertAll(doc, cs), i, r);
    }
  }

  lemma {:induction false} InverseConcat<T>(doc: seq<T>, a: seq<Change<T>>, b: seq<Change<T>>)
    requires FitsAll(doc, b) && FitsAll(RevertAll(doc, b), a)
    ensures FitsAll(doc, a + b)
    ensures InverseAll(doc, a + b) == InverseAll(doc, b) + InverseAll(RevertAll(doc, b), a)
    decreases |b|
  {
    RevertConcat(doc, a, b);
    if b == [] {
      assert a + b == a;
    } else {
      var c, b' := b[|b| - 1], b[..|b| - 1];
      InverseConcat(Revert(doc, c), a, b');
      assert (a + b)[..|a + b| - 1] == a + b';
    }
  }

  /** Taking a set back twice gives the set itself, not merely one with the same effect. */
  lemma {:induction false} InverseAllTwice<T>(doc: seq<T>, cs: seq<Change<T>>)
    requires FitsAll(doc, cs)
    ensures FitsAll(RevertAll(doc, cs), InverseAll(doc, cs))
    ensures InverseAll(RevertAll(doc, cs), InverseAll(doc, cs)) == cs
    decreases |cs|
  {
    InverseAllReverts(doc, cs);
    if cs != [] {
      var c, cs' := cs[|cs| - 1], cs[..|cs| - 1];
      var mid := Revert(doc, c);
      InverseAllTwice(mid, cs');
      InverseAllReverts(mid, cs');
      InverseReverts(doc, c);
      var i := [Inverse(doc, c)];
      OneChange(mid, Inverse(doc, c));
      assert Inverse(mid, Inverse(doc, c)) == c;
      InverseConcat(RevertAll(doc, cs), i, InverseAll(mid, cs'));
      assert cs == cs' + [c];
    }
  }

  // ----- the chain of documents -----

  /** The document that set `i` applies to. */
  function After<T>(cur: seq<T>, docs: seq<seq<T>>, i: nat): seq<T> {
    if i + 1 < |docs| then docs[i + 1] else cur
  }

  ghost predicate LeadsBack<T>(cur: seq<T>, sets: seq<seq<Change<T>>>, docs: seq<seq<T>>, i: nat)
    requires i < |sets| == |docs|
  {
    sets[i] != [] && FitsAll(After(cur, docs, i), sets[i]) && RevertAll(After(cur, docs, i), sets[i]) == docs[i]
  }

  /** `docs` are the documents the sets of `sets` lead back to, one after the other, from `cur`. */
  ghost predicate Chain<T>(cur: seq<T>, sets: seq<seq<Change<T>>>, docs: seq<seq<T>>) {
    |docs| == |sets| && forall i :: 0 <= i < |sets| ==> LeadsBack(cur, sets, docs, i)
  }

  lemma ChainPush<T>(cur: seq<T>, sets: seq<seq<Change<T>>>, docs: seq<seq<T>>, cs: seq<Change<T>>, cur': seq<T>)
    requires Chain(cur, sets, docs) && cs != [] && FitsAll(cur', cs) && RevertAll(cur', cs) == cur
    ensures Chain(cur', sets + [cs], docs + [cur])
  {
    forall i | 0 <= i < |sets| ensures LeadsBack(cur', sets + [cs], docs + [cur], i) {
      assert LeadsBack(cur, sets, docs, i);
    }
  }

  lemma ChainReplace<T>(cur: seq<T>, sets: seq<seq<Change<T>>>, docs: seq<seq<T>>, cs: seq<Change<T>>, cur': seq<T>)
    requires Chain(cur, sets, docs) && sets != [] && cs != [] && FitsAll(cur', cs)
    requires RevertAll(cur', cs) == docs[|docs| - 1]
    ensures Chain(cur', sets[..|sets| - 1] + [cs], docs)
  {
    var ss := sets[..|sets| - 1] + [cs];
    forall i | 0 <= i < |ss| ensures LeadsBack(cur', ss, docs, i) {
      assert LeadsBack(cur, sets, docs, i);
    }
  }

  lemma ChainPop<T>(cur: seq<T>, sets: seq<seq<Change<T>>>, docs: seq<seq<T>>)
    requires Chain(cur, sets, docs) && sets != []
    ensures Chain(docs[|docs| - 1], sets[..|sets| - 1], docs[..|docs| - 1])
  {
    var cur', ss, ds := docs[|docs| - 1], sets[..|sets| - 1], docs[..|docs| - 1];
    forall i | 0 <= i < |ss| ensures LeadsBack(cur', ss, ds, i) {
      assert LeadsBack(cur, sets, docs, i);
    }
  }

  lemma ChainShift<T>(cur: seq<T>, sets: seq<seq<Change<T>>>, docs: seq<seq<T>>, n: nat)
    requires Chain(cur, sets, docs) && n <= |sets|
    ensures Chain(cur, sets[n..], docs[n..])
  {
    forall i | 0 <= i < |sets| - n ensures LeadsBack(cur, sets[n..], docs[n..], i) {
      assert LeadsBack(cur, sets, docs, n + i);
    }
  }

  // ----- History.addChange -----

  function Max(a: int, b: int): int {
    if a < b then b else a
  }

  /** The lines `start..start + |olds|` are about to be replaced; `last` is far from them. */
  predicate Apart<T>(last: Change<T>, start: nat, olds: seq<T>) {
    last.start > start + |olds| || last.start + last.added < start
  }

  /** `last` widened so that it takes the new edit back as well. */
  function Merge<T>(last: Change<T>, start: nat, added: int, olds: seq<T>): (c: Change<T>)
    requires !Apart(last, start, olds)
  {
    var startBefore := Max(0, last.start - start);
    var endAfter := Max(0, (start + |olds|) - (last.start + last.added));
    Change(if startBefore > 0 then start else last.start,
           last.added + added - (|olds| - startBefore - endAfter),
           olds[..startBefore] + last.olds + olds[|olds| - endAfter..])
  }

  function AddChange<T>(h: Log<T>, start: nat, added: int, olds: seq<T>, late: bool): Log<T> {
    var n := |h.done|;
    var change := Change(start, added, olds);
    if h.compound != 0 && n > 0 && !h.closed then
      h.(undone := [], done := h.done[..n - 1] + [h.done[n - 1] + [change]])
    else if late || n == 0 || h.done[n - 1] == [] || h.closed ||
    Apart(h.done[n - 1][|h.done[n - 1]| - 1], start, olds) then
      h.(undone := [], done := h.done + [[change]], closed := false)
    else
      var cur := h.done[n - 1];
      h.(undone := [], done := h.done[..n - 1] + [cur[..|cur| - 1] + [Merge(cur[|cur| - 1], start, added, olds)]])
  }

  /** The document after the lines `start..start + |olds|` are replaced by `new'`. */
  function Replace<T>(doc: seq<T>, start: nat, n: nat, new': seq<T>): seq<T>
    requires start + n <= |doc|
  {
    doc[..start] + new' + doc[start + n..]
  }

  /** The branch of `addChange` that merges touching edits undoes both at once. */
  lemma MergeReverts<T>(doc: seq<T>, last: Change<T>, start: nat, n: nat, new': seq<T>)
    requires Fits(doc, last) && start + n <= |doc| && n >= 1 && |new'| >= 1
    requires !Apart(last, start, doc[start..start + n])
    ensures var c := Merge(last, start, |new'|, doc[start..start + n]);
            Fits(Replace(doc, start, n, new'), c) && Revert(Replace(doc, start, n, new'), c) == Revert(doc, last)
  {
    var olds := doc[start..start + n];
    var a, b := Max(0, last.start - start), Max(0, (start + n) - (last.start + last.added));
    var from := if last.start < start then last.start else start;
    var end := if last.start + last.added < start + n then start + n else last.start + last.added;
    var c := Merge(last, start, |new'|, olds);
    MergeIs(last, start, n, |new'|, olds, from, end, a, b, c);
    WidenedReverts(doc, last, start, n, new', from, end, a, b, olds, c);
  }

  lemma WidenedReverts<T>(doc: seq<T>, last: Change<T>, start: nat, n: nat, new': seq<T>, from: nat, end: nat, a: nat,
                          b: nat, olds: seq<T>, c: Change<T>)
    requires Fits(doc, last) && start + n <= |doc| && n >= 1 && |new'| >= 1 && olds == doc[start..start + n]
    requires last.start <= start + n && start <= last.start + last.added && a <= n && b <= n
    requires a == Max(0, last.start - start) && b == Max(0, (start + n) - (last.start + last.added))
    requires from == if last.start < start then last.start else start
    requires end == if last.start + last.added < start + n then start + n else last.start + last.added
    requires c == Change(from, end - n + |new'| - from, olds[..a] + last.olds + olds[n - b..])
    ensures Fits(Replace(doc, start, n, new'), c) && Revert(Replace(doc, start, n, new'), c) == Revert(doc, last)
  {
    ReplaceKeeps(doc, start, n, new', from, end);
    MergeLeft(doc, start, n, from, last.start, a);
    MergeRight(doc, start, n, end, last.start + last.added, b);
    RevertParts(doc, last, Replace(doc, start, n, new'), c, doc[..from], olds[..a], olds[n - b..], doc[end..]);
  }

  lemma MergeIs<T>(last: Change<T>, start: nat, n: nat, added: int, olds: seq<T>, from: int, end: int, a: int, b: int,
                   c: Change<T>)
    requires !Apart(last, start, olds) && c == Merge(last, start, added, olds) && |olds| == n
    requires a == Max(0, last.start - start) && b == Max(0, (start + n) - (last.start + last.added))
    requires from == if last.start < start then last.start else start
    requires end == if last.start + last.added < start + n then start + n else last.start + last.added
    ensures from >= 0 && 0 <= a <= n && 0 <= b <= n
    ensures c == Change(from, end - n + added - from, olds[..a] + last.olds + olds[n - b..])
  {
  }

  lemma RevertParts<T>(doc: seq<T>, last: Change<T>, doc': seq<T>, c: Change<T>, p: seq<T>, q: seq<T>, r: seq<T>,
                       s: seq<T>)
    requires Fits(doc, last) && c.start + c.added <= |doc'| && c.added >= 1
    requires p + q == doc[..last.start] && r + s == doc[last.start + last.added..]
    requires doc'[..c.start] == p && c.olds == q + last.olds + r && doc'[c.start + c.added..] == s
    ensures Fits(doc', c) && Revert(doc', c) == Revert(doc, last)
  {
    Regroup(p, q, last.olds);
    Regroup(p + (q + last.olds), r, s);
    Regroup(p + q, last.olds, r + s);
    Regroup((p + q) + last.olds, r, s);
  }

  /** What lies before and after the replaced lines is the same as before. */
  lemma ReplaceKeeps<T>(doc: seq<T>, start: nat, n: nat, new': seq<T>, from: nat, end: nat)
    requires from <= start && start + n <= end <= |doc|
    ensures var doc' := Replace(doc, start, n, new');
            |doc'| == |doc| - n + |new'| && doc'[..from] == doc[..from] && doc'[end - n + |new'|..] == doc[end..]
  {
  }

  lemma MergeLeft<T>(doc: seq<T>, start: nat, n: nat, from: nat, ls: nat, a: nat)
    requires start + n <= |doc| && ls <= |doc| && ls <= start + n
    requires from == (if ls < start then ls else start) && a == Max(0, ls - start)
    ensures a <= n && doc[..from] + doc[start..start + n][..a] == doc[..ls]
  {
  }

  lemma MergeRight<T>(doc: seq<T>, start: nat, n: nat, end: nat, le: nat, b: nat)
    requires start + n <= |doc| && le <= |doc| && start <= le
    requires end == (if le < start + n then start + n else le) && b == Max(0, start + n - le)
    ensures b <= n && doc[start..start + n][n - b..] + doc[end..] == doc[le..]
  {
  }

  // ----- the editor as a state machine -----

  /** The document, the log, and the documents that undo and redo lead to. */
  datatype State<T> = State(doc: seq<T>, log: Log<T>, past: seq<seq<T>>, future: seq<seq<T>>)

  datatype Action<T> =
    | Edit(start: nat, n: nat, lines: seq<T>,
    late: bool)  // replace n lines; `late`: more than 400 ms after the last edit
    | Undo
    | Redo
    | StartCompound
    | EndCompound

  ghost predicate Good<T>(s: State<T>) {
    Chain(s.doc, s.log.done, s.past) && Chain(s.doc, s.log.undone, s.future)
  }

  predicate Enabled<T>(s: State<T>, a: Action<T>) {
    a.Edit? ==> a.start + a.n <= |s.doc| && a.n >= 1 && |a.lines| >= 1
  }

  /** The number of sets dropped at the old end so that at most `depth` are left. */
  function Excess(n: nat, depth: nat): nat {
    if n > depth then n - depth else 0
  }

  /** What `updateLines` does to the document and the log. */
  function Edited<T>(s: State<T>, a: Action<T>, depth: nat): State<T>
    requires a.Edit? && Enabled(s, a) && |s.past| == |s.log.done|
  {
    var log := AddChange(s.log, a.start, |a.lines|, s.doc[a.start..a.start + a.n], a.late);
    var past := if |log.done| > |s.log.done| then s.past + [s.doc] else s.past;
    var x := Excess(|log.done|, depth);
    State(Replace(s.doc, a.start, a.n, a.lines), log.(done := log.done[x..]), past[x..], [])
  }

  /** What `unredoHelper` does, seen from `undo`. */
  function Undone<T>(s: State<T>): State<T>
    requires |s.past| == |s.log.done| && (s.log.done != [] ==> FitsAll(s.doc, s.log.done[|s.log.done| - 1]))
  {
    var n := |s.log.done|;
    if n == 0 then s else
      var cs := s.log.done[n - 1];
      State(RevertAll(s.doc, cs), s.log.(done := s.log.done[..n - 1], undone := s.log.undone + [InverseAll(s.doc, cs)]),
            s.past[..n - 1], s.future + [s.doc])
  }

  /** The same state with the roles of undo and redo exchanged. */
  function Mirror<T>(s: State<T>): State<T> {
    State(s.doc, s.log.(done := s.log.undone, undone := s.log.done), s.future, s.past)
  }

  function Next<T>(s: State<T>, a: Action<T>, depth: nat): State<T>
    requires Good(s) && Enabled(s, a)
  {
    match a
    case Edit(_, _, _, _) => Edited(s, a, depth)
    case Undo => LastFits(s); Undone(s)
    case Redo => LastFits(Mirror(s)); Mirror(Undone(Mirror(s)))
    case StartCompound => s.(log := s.log.(closed := s.log.closed ||
    s.log.compound == 0, compound := s.log.compound + 1))
    case EndCompound => s.(log := s.log.(closed := s.log.closed || s.log.compound == 1, compound := s.log.compound - 1))
  }

  lemma LastFits<T>(s: State<T>)
    requires Good(s)
    ensures |s.past| == |s.log.done| && (s.log.done != [] ==> FitsAll(s.doc, s.log.done[|s.log.done| - 1]))
  {
    if s.log.done != [] {
      assert LeadsBack(s.doc, s.log.done, s.past, |s.past| - 1);
    }
  }

  /** A set of its own for the edit */
  lemma OpenGood<T>(s: State<T>, c: Change<T>, doc': seq<T>)
    requires Good(s) && Fits(doc', c) && Revert(doc', c) == s.doc
    ensures Chain(doc', s.log.done + [[c]], s.past + [s.doc])
  {
    OneChange(doc', c);
    ChainPush(s.doc, s.log.done, s.past, [c], doc');
  }

  /** The edit joins the last set. */
  lemma JoinGood<T>(s: State<T>, c: Change<T>, doc': seq<T>)
    requires Good(s) && s.log.done != [] && Fits(doc', c) && Revert(doc', c) == s.doc
    ensures var n := |s.log.done|; Chain(doc', s.log.done[..n - 1] + [s.log.done[n - 1] + [c]], s.past)
  {
    var n := |s.log.done|;
    var cur := s.log.done[n - 1];
    assert LeadsBack(s.doc, s.log.done, s.past, n - 1);
    assert (cur + [c])[..|cur|] == cur;
    ChainReplace(s.doc, s.log.done, s.past, cur + [c], doc');
  }

  /** The last change of the last set gives way to one that takes the same document back further. */
  lemma WidenGood<T>(s: State<T>, c: Change<T>, doc': seq<T>)
    requires Good(s) && s.log.done != [] && s.log.done[|s.log.done| - 1] != [] && Fits(doc', c)
    requires var cur := s.log.done[|s.log.done| - 1]; Fits(s.doc, cur[|cur| - 1]) ==>
      Revert(doc', c) == Revert(s.doc, cur[|cur| - 1])
    ensures var n := |s.log.done|; var cur := s.log.done[n - 1];
            Chain(doc', s.log.done[..n - 1] + [cur[..|cur| - 1] + [c]], s.past)
  {
    var n := |s.log.done|;
    var cur := s.log.done[n - 1];
    var rest := cur[..|cur| - 1];
    assert LeadsBack(s.doc, s.log.done, s.past, n - 1);
    assert (rest + [c])[..|rest|] == rest;
    ChainReplace(s.doc, s.log.done, s.past, rest + [c], doc');
  }

  /** The chain after an edit, before the oldest sets are dropped */
  lemma AddedGood<T>(s: State<T>, a: Action<T>)
    requires Good(s) && a.Edit? && Enabled(s, a)
    ensures var log := AddChange(s.log, a.start, |a.lines|, s.doc[a.start..a.start + a.n], a.late);
            Chain(Replace(s.doc, a.start, a.n, a.lines), log.done, if |log.done| > |s.log.done| then s.past + [s.doc]
            else s.past)
  {
    var olds := s.doc[a.start..a.start + a.n];
    var doc', h := Replace(s.doc, a.start, a.n, a.lines), s.log;
    var change, n := Change(a.start, |a.lines|, olds), |s.log.done|;
    assert Fits(doc', change) && Revert(doc', change) == s.doc;
    if h.compound != 0 && n > 0 && !h.closed {
      JoinGood(s, change, doc');
    } else if a.late || n == 0 || h.done[n - 1] == [] || h.closed ||
      Apart(h.done[n - 1][|h.done[n - 1]| - 1], a.start, olds) {
      OpenGood(s, change, doc');
    } else {
      LastChangeFits(s);
      var last := h.done[n - 1][|h.done[n - 1]| - 1];
      MergeReverts(s.doc, last, a.start, a.n, a.lines);
      WidenGood(s, Merge(last, a.start, |a.lines|, olds), doc');
    }
  }

  lemma LastChangeFits<T>(s: State<T>)
    requires Good(s) && s.log.done != []
    ensures var cur := s.log.done[|s.log.done| - 1]; cur != [] && Fits(s.doc, cur[|cur| - 1])
  {
    assert LeadsBack(s.doc, s.log.done, s.past, |s.past| - 1);
  }

  /** Edits keep the chain, in all three branches of `addChange`. */
  lemma EditedGood<T>(s: State<T>, a: Action<T>, depth: nat)
    requires Good(s) && a.Edit? && Enabled(s, a)
    ensures Good(Edited(s, a, depth))
  {
    var log := AddChange(s.log, a.start, |a.lines|, s.doc[a.start..a.start + a.n], a.late);
    var past := if |log.done| > |s.log.done| then s.past + [s.doc] else s.past;
    AddedGood(s, a);
    ChainShift(Replace(s.doc, a.start, a.n, a.lines), log.done, past, Excess(|log.done|, depth));
  }

  lemma UndoneGood<T>(s: State<T>)
    requires Good(s)
    ensures |s.past| == |s.log.done| && (s.log.done != [] ==> FitsAll(s.doc, s.log.done[|s.log.done| - 1]))
    ensures Good(Undone(s))
    ensures s.log.done != [] ==> Undone(s).doc == s.past[|s.past| - 1]
  {
    LastFits(s);
    if s.log.done != [] {
      var n := |s.log.done|;
      var cs := s.log.done[n - 1];
      assert LeadsBack(s.doc, s.log.done, s.past, n - 1);
      ChainPop(s.doc, s.log.done, s.past);
      InverseAllReverts(s.doc, cs);
      ChainPush(s.doc, s.log.undone, s.future, InverseAll(s.doc, cs), RevertAll(s.doc, cs));
    }
  }

  /** Every step keeps the chain of documents. */
  lemma NextGood<T>(s: State<T>, a: Action<T>, depth: nat)
    requires Good(s) && Enabled(s, a)
    ensures Good(Next(s, a, depth))
  {
    match a
    case Edit(_, _, _, _) => EditedGood(s, a, depth);
    case Undo => UndoneGood(s);
    case Redo => UndoneGood(Mirror(s));
    case StartCompound =>
    case EndCompound =>
  }

  // ----- what one undo takes back -----

  /**
   The edit is taken back by an undo of its own: no set is there that could take it up, or a compound has just begun or
   ended, or the edit comes, outside a compound, more than 400 ms after the last one or has at least one line between
   itself and the lines of the last change.
   */
  predicate StandsAlone<T>(s: State<T>, a: Action<T>)
    requires a.Edit?
  {
    var sets := s.log.done;
    sets == [] || s.log.closed ||
    (s.log.compound == 0 && (a.late || sets[|sets| - 1] == [] ||
    var last := sets[|sets| - 1][|sets[|sets| - 1]| - 1];
    a.start + a.n < last.start || last.start + last.added < a.start))
  }

  /** The last `k` elements, or all if there are fewer. */
  function Newest<T>(s: seq<T>, k: nat): (r: seq<T>)
    ensures |r| == (if |s| < k then |s| else k) && r == s[|s| - |r|..]
  {
    if |s| <= k then s else s[|s| - k..]
  }

  /**
   The documents that undoing leads to after an edit: those from before, and the document before the edit if the edit
   stands alone, of which the newest `depth` are kept. There is nothing to redo.
   */
  lemma EditPast<T>(s: State<T>, a: Action<T>, depth: nat)
    requires Good(s) && a.Edit? && Enabled(s, a)
    ensures var t := Next(s, a, depth);
            t.doc == s.doc[..a.start] + a.lines + s.doc[a.start + a.n..] &&
            t.past == Newest(if StandsAlone(s, a) then s.past + [s.doc] else s.past, depth) &&
            |t.log.done| == |t.past| && t.log.undone == [] && t.future == []
  {
    LastFits(s);
    EditCounts(s, a);
    EditedGood(s, a, depth);
    var p := if StandsAlone(s, a) then s.past + [s.doc] else s.past;
    var x := Excess(|p|, depth);
    assert Newest(p, depth) == p[x..];
    assert Next(s, a, depth) == Edited(s, a, depth);
  }

  /** An edit that stands alone gets a set, any other edit joins the last one. */
  lemma EditCounts<T>(s: State<T>, a: Action<T>)
    requires Good(s) && a.Edit? && Enabled(s, a)
    ensures var log := AddChange(s.log, a.start, |a.lines|, s.doc[a.start..a.start + a.n], a.late);
            |log.done| == |s.log.done| + (if StandsAlone(s, a) then 1 else 0) && log.undone == []
  {
  }

  /**
   Undo after an edit leads to the document before the edit if the edit stands alone, or else to where the last undo
   would have led before. With an undo depth of 0 it does nothing.
   */
  lemma EditThenUndo<T>(s: State<T>, a: Action<T>, depth: nat)
    requires Good(s) && a.Edit? && Enabled(s, a)
    ensures Good(Next(s, a, depth)) && |s.past| == |s.log.done|
    ensures Next(Next(s, a, depth), Undo, depth).doc ==
            if depth == 0 then s.doc[..a.start] + a.lines + s.doc[a.start + a.n..]
            else if StandsAlone(s, a) then s.doc
            else s.past[|s.past| - 1]
  {
    LastFits(s);
    NextGood(s, a, depth);
    EditPast(s, a, depth);
    UndoneGood(Next(s, a, depth));
  }

  /**
   Two edits of the same line, not in a compound. Typed within 400 ms they are one unit; if the second comes later,
   undoing it leads to the document between the two.
   */
  lemma TypedTwice<T>(x: T, y: T, z: T, late: bool, depth: nat)
    requires depth > 0
    ensures var s := Start([x]);
            Good(s) && var t := Next(s, Edit(0, 1, [y], true), depth);
            Good(t) && var u := Next(t, Edit(0, 1, [z], late), depth);
            Good(u) && u.doc == [z] && Next(u, Undo, depth).doc == if late then [y] else [x]
  {
    FirstTyped(x, y, depth);
    var t := Next(Start([x]), Edit(0, 1, [y], true), depth);
    SecondTyped(t, x, y, z, late, depth);
  }

  lemma FirstTyped<T>(x: T, y: T, depth: nat)
    requires depth > 0
    ensures var s, a := Start([x]), Edit(0, 1, [y], true);
            Good(s) && Good(Next(s, a, depth)) &&
            Next(s, a, depth) == State([y], Log([[Change(0, 1, [x])]], [], 0, false), [[x]], [])
  {
    var s, a, c := Start([x]), Edit(0, 1, [y], true), Change(0, 1, [x]);
    NextGood(s, a, depth);
    EditPast(s, a, depth);
    assert s.past + [s.doc] == [[x]] && Newest([[x]], depth) == [[x]];
    assert [x][0..1] == [x] && [x][..0] + [y] + [x][1..] == [y];
    assert AddChange(s.log, 0, 1, [x], true) == Log([] + [[c]], [], 0, false);
    assert [] + [[c]] == [[c]] && [[c]][0..] == [[c]];
  }

  lemma SecondTyped<T>(t: State<T>, x: T, y: T, z: T, late: bool, depth: nat)
    requires depth > 0 && Good(t) && t == State([y], Log([[Change(0, 1, [x])]], [], 0, false), [[x]], [])
    ensures var u := Next(t, Edit(0, 1, [z], late), depth);
            Good(u) && u.doc == [z] && Next(u, Undo, depth).doc == if late then [y] else [x]
  {
    var a := Edit(0, 1, [z], late);
    assert Enabled(t, a) && t.past[|t.past| - 1] == [x] && (StandsAlone(t, a) <==> late);
    EditThenUndo(t, a, depth);
    EditPast(t, a, depth);
    assert [y][..0] + [z] + [y][1..] == [z];
  }

  // ----- runs -----

  /** `s'` is reached from `s` by the actions `acts`, each possible when its turn comes. */
  ghost predicate Run<T>(s: State<T>, acts: seq<Action<T>>, s': State<T>, depth: nat)
    decreases |acts|
  {
    if acts == [] then s == s'
    else Good(s) && Enabled(s, acts[0]) && Run(Next(s, acts[0], depth), acts[1..], s', depth)
  }

  function Start<T>(doc: seq<T>): State<T> {
    State(doc, Log([], [], 0, false), [], [])
  }

  /** In every reachable state each set of `done` and of `undone` leads to the document it promises. */
  lemma {:induction false} RunGood<T>(s: State<T>, acts: seq<Action<T>>, s': State<T>, depth: nat)
    requires Good(s) && Run(s, acts, s', depth)
    ensures Good(s')
    decreases |acts|
  {
    if acts != [] {
      NextGood(s, acts[0], depth);
      RunGood(Next(s, acts[0], depth), acts[1..], s', depth);
    }
  }

  /** Undo followed by redo is the identity, on the document and on the whole log; and the other way round. */
  lemma UndoRedo<T>(s: State<T>, depth: nat)
    requires Good(s)
    ensures s.log.done != [] ==> Good(Next(s, Undo, depth)) && Next(Next(s, Undo, depth), Redo, depth) == s
    ensures s.log.undone != [] ==> Good(Next(s, Redo, depth)) && Next(Next(s, Redo, depth), Undo, depth) == s
  {
    if s.log.done != [] {
      NextGood(s, Undo, depth);
      UndoThenRedo(s);
    }
    if s.log.undone != [] {
      NextGood(s, Redo, depth);
      UndoThenRedo(Mirror(s));
    }
  }

  lemma UndoThenRedo<T>(s: State<T>)
    requires Good(s) && s.log.done != []
    ensures |s.past| == |s.log.done| && FitsAll(s.doc, s.log.done[|s.log.done| - 1])
    ensures var m := Mirror(Undone(s));
            Good(m) && |m.past| == |m.log.done| &&
            (m.log.done != [] ==> FitsAll(m.doc, m.log.done[|m.log.done| - 1])) &&
            Mirror(Undone(m)) == s
  {
    UndoneGood(s);
    var n := |s.log.done|;
    var cs := s.log.done[n - 1];
    InverseAllReverts(s.doc, cs);
    InverseAllTwice(s.doc, cs);
    UndoneGood(Mirror(Undone(s)));
    assert s.log.done == s.log.done[..n - 1] + [cs];
    assert LeadsBack(s.doc, s.log.done, s.past, n - 1);
    assert s.past == s.past[..n - 1] + [Undone(s).doc];
  }
}
