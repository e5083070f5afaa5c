/**
 `compoundChange` runs a function between `startCompound` and `endCompound`, and is meant to make one undoable unit of
 what the function does. The function may edit, and it may also undo, redo and open nested compounds.
 */
module CompoundChange {
  import opened History

  /** The actions of the function, inside a compound that stays open. */
  ghost predicate Inside<T>(s: State<T>, acts: seq<Action<T>>, s': State<T>, depth: nat)
    decreases |acts|
  {
    if acts == [] then s == s'
    else Good(s) && Enabled(s, acts[0]) && Next(s, acts[0], depth).log.compound > 0 &&
         Inside(Next(s, acts[0], depth), acts[1..], s', depth)
  }

  // ----- counting sets -----

  /**
   How many sets there are, how many have been dropped at the old end, and whether there has been an edit in the
   compound.
   */
  datatype Tally = Tally(done: nat, undone: nat, dropped: nat, edited: bool)

  /** After an edit, the last set takes all further edits; if none is left, a new one is opened. */
  function Counted<T>(c: Tally, a: Action<T>, depth: nat): Tally {
    match a
    case Edit(_, _, _, _) =>
      var n := if c.edited && c.done > 0 then c.done else c.done + 1;
      Tally(n - Excess(n, depth), 0, c.dropped + Excess(n, depth), true)
    case Undo => if c.done == 0 then c else c.(done := c.done - 1, undone := c.undone + 1)
    case Redo => if c.undone == 0 then c else c.(done := c.done + 1, undone := c.undone - 1)
    case StartCompound => c
    case EndCompound => c
  }

  function CountAll<T>(c: Tally, acts: seq<Action<T>>, depth: nat): Tally
    decreases |acts|
  {
    if acts == [] then c else CountAll(Counted(c, acts[0], depth), acts[1..], depth)
  }

  function Begin<T>(s: State<T>): Tally {
    Tally(|s.log.done|, |s.log.undone|, 0, false)
  }

  /**
   One undo will take the compound back: in the end there is a set to undo, and exactly one more than at the start if
   the dropped ones are counted in.
   */
  predicate IsUnit<T>(s: State<T>, acts: seq<Action<T>>, depth: nat) {
    var c := CountAll(Begin(s), acts, depth);
    c.done > 0 && c.dropped + c.done == |s.log.done| + 1
  }

  ghost predicate Tallies<T>(s: State<T>, c: Tally) {
    c.done == |s.log.done| && c.undone == |s.log.undone| && c.edited == !s.log.closed && s.log.compound > 0
  }

  lemma NextTallies<T>(s: State<T>, c: Tally, a: Action<T>, depth: nat)
    requires Good(s) && Enabled(s, a) && Tallies(s, c) && Next(s, a, depth).log.compound > 0
    ensures Tallies(Next(s, a, depth), Counted(c, a, depth))
  {
    LastFits(s);
    LastFits(Mirror(s));
  }

  // ----- walking along the chain -----

  /** The state reached from `s` by undoing or redoing until `k` sets are left on `done`. */
  ghost function Level<T>(s: State<T>, k: nat): State<T>
    requires Good(s)
    decreases if |s.log.done| > k then |s.log.done| - k else k - |s.log.done|
  {
    if |s.log.done| > k then
      UndoneGood(s);
      Level(Undone(s), k)
    else if |s.log.done| < k && s.log.undone != [] then
      UndoneGood(Mirror(s));
      Level(Mirror(Undone(Mirror(s))), k)
    else s
  }

  /** Undoing and redoing move along the chain and do not change it. */
  lemma LevelUndo<T>(s: State<T>, k: nat, depth: nat)
    requires Good(s)
    ensures Good(Next(s, Undo, depth)) && Level(Next(s, Undo, depth), k) == Level(s, k)
  {
    NextGood(s, Undo, depth);
    if 0 < |s.log.done| <= k {
      UndoThenRedo(s);
    }
  }

  lemma LevelRedo<T>(s: State<T>, k: nat, depth: nat)
    requires Good(s)
    ensures Good(Next(s, Redo, depth)) && Level(Next(s, Redo, depth), k) == Level(s, k)
  {
    NextGood(s, Redo, depth);
    if s.log.undone != [] && |s.log.done| >= k {
      UndoThenRedo(Mirror(s));
    }
  }

  /** The document above the first `k` sets. */
  function DocAt<T>(s: State<T>, k: nat): seq<T> {
    if k < |s.past| then s.past[k] else s.doc
  }

  /** Going down, the states are those that the chain promises. */
  lemma {:induction false} LevelDown<T>(s: State<T>, k: nat)
    requires Good(s) && k <= |s.log.done|
    ensures |s.past| == |s.log.done|
    ensures Level(s, k).doc == DocAt(s, k) && Level(s, k).log.done == s.log.done[..k]
    decreases |s.log.done|
  {
    if |s.log.done| > k {
      UndoneGood(s);
      LevelDown(Undone(s), k);
    }
  }

  // ----- what the compound keeps -----

  /** The chain still leads through the document at the start, and an edit has left a set above it. */
  predicate Reaches(c: Tally, n: nat) {
    c.dropped <= n && n + (if c.edited then 1 else 0) <= c.done + c.undone + c.dropped
  }

  /** From `s`, undo or redo lead back to `s0`: to its document, and to its sets without those that were dropped. */
  ghost predicate LeadsTo<T>(s: State<T>, c: Tally, s0: State<T>)
    requires Good(s) && c.dropped <= |s0.log.done|
  {
    var l := Level(s, |s0.log.done| - c.dropped);
    l.doc == s0.doc && l.log.done == s0.log.done[c.dropped..]
  }

  ghost predicate Kept<T>(s: State<T>, c: Tally, s0: State<T>, depth: nat) {
    Good(s) && Tallies(s, c) && (c.edited && depth > 0 ==> c.done + c.undone > 0) &&
    (Reaches(c, |s0.log.done|) ==> LeadsTo(s, c, s0))
  }

  /** An edit changes no set and no document below the level of the start. */
  lemma EditBelow<T>(s: State<T>, a: Action<T>, c: Tally, k: nat, depth: nat)
    requires Good(s) && a.Edit? && Enabled(s, a) && Tallies(s, c)
    requires k <= c.done && (c.edited && c.done > 0 ==> k < c.done)
    requires Excess(if c.edited && c.done > 0 then c.done else c.done + 1, depth) <= k
    ensures |s.past| == |s.log.done|
    ensures var x := Excess(if c.edited && c.done > 0 then c.done else c.done + 1, depth);
            var t := Edited(s, a, depth);
            Good(t) && k - x <= |t.log.done| && DocAt(t, k - x) == DocAt(s, k) &&
            t.log.done[..k - x] == s.log.done[x..k]
  {
    LastFits(s);
    EditedGood(s, a, depth);
  }

  lemma EditKeeps<T>(s: State<T>, c: Tally, s0: State<T>, a: Action<T>, depth: nat)
    requires Kept(s, c, s0, depth) && a.Edit? && Enabled(s, a) && Next(s, a, depth).log.compound > 0
    ensures Kept(Next(s, a, depth), Counted(c, a, depth), s0, depth)
  {
    var t, c' := Next(s, a, depth), Counted(c, a, depth);
    NextGood(s, a, depth);
    NextTallies(s, c, a, depth);
    if Reaches(c', |s0.log.done|) { EditLeads(s, c, s0, a, depth); }
  }

  lemma EditLeads<T>(s: State<T>, c: Tally, s0: State<T>, a: Action<T>, depth: nat)
    requires Kept(s, c, s0, depth) && a.Edit? && Enabled(s, a) && Reaches(Counted(c, a, depth), |s0.log.done|)
    ensures Good(Next(s, a, depth)) && LeadsTo(Next(s, a, depth), Counted(c, a, depth), s0)
  {
    var t, c' := Next(s, a, depth), Counted(c, a, depth);
    NextGood(s, a, depth);
    NextTallies(s, c, a, depth);
    var k := |s0.log.done| - c.dropped;
    EditBelow(s, a, c, k, depth);
    LevelDown(s, k);
    LevelDown(t, |s0.log.done| - c'.dropped);
    assert s.log.done[..k] == s0.log.done[c.dropped..] && DocAt(s, k) == s0.doc;
    CutFront(s.log.done, s0.log.done, k, c.dropped, c'.dropped - c.dropped);
  }

  lemma CutFront<T>(a: seq<T>, b: seq<T>, k: nat, n: nat, x: nat)
    requires k <= |a| && n <= |b| && a[..k] == b[n..] && x <= k
    ensures a[x..k] == b[n + x..]
  {
    assert a[x..k] == a[..k][x..];
  }

  lemma StepKeeps<T>(s: State<T>, c: Tally, s0: State<T>, a: Action<T>, depth: nat)
    requires Kept(s, c, s0, depth) && Enabled(s, a) && Next(s, a, depth).log.compound > 0
    ensures Kept(Next(s, a, depth), Counted(c, a, depth), s0, depth)
  {
    NextGood(s, a, depth);
    NextTallies(s, c, a, depth);
    var k := if c.dropped <= |s0.log.done| then |s0.log.done| - c.dropped else 0;
    match a
    case Edit(_, _, _, _) => EditKeeps(s, c, s0, a, depth);
    case Undo => LevelUndo(s, k, depth);
    case Redo => LevelRedo(s, k, depth);
    case StartCompound => LevelLog(s, Next(s, a, depth), k);
    case EndCompound => LevelLog(s, Next(s, a, depth), k);
  }

  /** Whether a compound is open makes no difference to undo and redo. */
  lemma {:induction false} LevelLog<T>(s: State<T>, t: State<T>, k: nat)
    requires Good(s) && t.doc == s.doc && t.past == s.past && t.future == s.future
    requires t.log.done == s.log.done && t.log.undone == s.log.undone
    ensures Good(t) && Level(t, k).doc == Level(s, k).doc && Level(t, k).log.done == Level(s, k).log.done
    decreases if |s.log.done| > k then |s.log.done| - k else k - |s.log.done|
  {
    if |s.log.done| > k {
      UndoneGood(s);
      LevelLog(Undone(s), Undone(t), k);
    } else if |s.log.done| < k && s.log.undone != [] {
      UndoneGood(Mirror(s));
      LevelLog(Mirror(Undone(Mirror(s))), Mirror(Undone(Mirror(t))), k);
    }
  }

  lemma {:induction false} InsideKeeps<T>(s: State<T>, c: Tally, s0: State<T>, acts: seq<Action<T>>, s': State<T>,
                                          depth: nat)
    requires Kept(s, c, s0, depth) && Inside(s, acts, s', depth)
    ensures Kept(s', CountAll(c, acts, depth), s0, depth)
    decreases |acts|
  {
    if acts != [] {
      StepKeeps(s, c, s0, acts[0], depth);
      InsideKeeps(Next(s, acts[0], depth), Counted(c, acts[0], depth), s0, acts[1..], s', depth);
    }
  }

  // ----- the theorem -----

  /** The state after the compound, and after one undo */
  ghost predicate Compound<T>(s: State<T>, acts: seq<Action<T>>, s1: State<T>, depth: nat) {
    Good(s) && s.log.compound == 0 && Inside(Next(s, StartCompound, depth), acts, s1, depth) && s1.log.compound == 1
  }

  /**
   One undo takes something back and leads to the document before the compound and to its sets, but for dropped ones.
   */
  ghost predicate TakenBack<T>(s: State<T>, s2: State<T>, dropped: nat, depth: nat)
    requires Good(s2)
  {
    var t := Next(s2, Undo, depth);
    s2.log.done != [] && dropped <= |s.log.done| && t.doc == s.doc && t.log.done == s.log.done[dropped..]
  }

  /** One undo takes a compound change back exactly if the compound has left one set more on `done`. */
  lemma CompoundUndo<T>(s: State<T>, acts: seq<Action<T>>, s1: State<T>, depth: nat)
    requires Compound(s, acts, s1, depth)
    ensures Good(s1) && Good(Next(s1, EndCompound, depth))
    ensures TakenBack(s, Next(s1, EndCompound, depth), CountAll(Begin(s), acts, depth).dropped, depth) <==>
      IsUnit(s, acts, depth)
  {
    NextGood(s, StartCompound, depth);
    var s0 := Next(s, StartCompound, depth);
    assert Level(s0, |s.log.done|) == s0;
    InsideKeeps(s0, Begin(s), s, acts, s1, depth);
    NextGood(s1, EndCompound, depth);
    var s2, c := Next(s1, EndCompound, depth), CountAll(Begin(s), acts, depth);
    LastFits(s2);
    if IsUnit(s, acts, depth) {
      LevelLog(s1, s2, c.done - 1);
      LevelDown(s2, c.done - 1);
      UndoneGood(s2);
    }
  }

  // ----- compounds that do not undo or redo -----

  predicate HasEdit<T>(acts: seq<Action<T>>) {
    acts != [] && (acts[0].Edit? || HasEdit(acts[1..]))
  }

  predicate Plain<T>(acts: seq<Action<T>>) {
    acts == [] || (!acts[0].Undo? && !acts[0].Redo? && Plain(acts[1..]))
  }

  /** All edits of such a compound end up in one set, which stays if the undo depth is positive. */
  lemma {:induction false} PlainCounts<T>(c: Tally, acts: seq<Action<T>>, depth: nat)
    requires Plain(acts) && (c.edited ==> c.done <= depth && (depth > 0 ==> c.done > 0))
    ensures var r := CountAll(c, acts, depth);
            if !HasEdit(acts) then r == c
            else if depth == 0 then r.done == 0
            else r.done > 0 && r.done + r.dropped == c.done + c.dropped + if c.edited then 0 else 1
    decreases |acts|
  {
    if acts != [] {
      PlainCounts(Counted(c, acts[0], depth), acts[1..], depth);
    }
  }

  lemma {:induction false} PlainIdle<T>(s: State<T>, acts: seq<Action<T>>, s': State<T>, depth: nat)
    requires Good(s) && Inside(s, acts, s', depth) && Plain(acts) && !HasEdit(acts)
    ensures s'.doc == s.doc && s'.past == s.past && s'.log.done == s.log.done
    decreases |acts|
  {
    if acts != [] {
      NextGood(s, acts[0], depth);
      PlainIdle(Next(s, acts[0], depth), acts[1..], s', depth);
    }
  }

  /**
   Without undo and redo inside, a compound is taken back exactly if it contains an edit and the undo depth is
   positive. Without an edit, one undo takes back what came before; with an undo depth of 0 it does nothing.
   */
  lemma PlainUndo<T>(s: State<T>, acts: seq<Action<T>>, s1: State<T>, depth: nat)
    requires Compound(s, acts, s1, depth) && Plain(acts)
    ensures IsUnit(s, acts, depth) <==> HasEdit(acts) && depth > 0
    ensures Good(s1) && Good(Next(s1, EndCompound, depth))
    ensures Next(Next(s1, EndCompound, depth), Undo, depth).doc ==
            if !HasEdit(acts) then Next(s, Undo, depth).doc else if depth > 0 then s.doc else s1.doc
  {
    CompoundUndo(s, acts, s1, depth);
    PlainCounts(Begin(s), acts, depth);
    NextGood(s, StartCompound, depth);
    var s0 := Next(s, StartCompound, depth);
    assert Level(s0, |s.log.done|) == s0;
    InsideKeeps(s0, Begin(s), s0, acts, s1, depth);
    NextGood(s1, EndCompound, depth);
    LastFits(Next(s1, EndCompound, depth));
    if !HasEdit(acts) {
      PlainIdle(s0, acts, s1, depth);
      UndoneGood(s);
      UndoneGood(Next(s1, EndCompound, depth));
    }
  }

  // ----- compounds that one undo does not take back -----

  /** A document that was [0] and is now [1]. */
  function Sample(): State<int> {
    State([1], Log([[Change(0, 1, [0])]], [], 0, false), [[0]], [])
  }

  lemma SampleGood()
    ensures Good(Sample())
  {
    var c := Change(0, 1, [0]);
    assert [c][..0] == [];
    assert Revert([1], c) == [0];
    assert LeadsBack(Sample().doc, Sample().log.done, Sample().past, 0);
  }

  /** The state in the middle of a run. */
  lemma Then<T>(s: State<T>, a: Action<T>, acts: seq<Action<T>>, s': State<T>, depth: nat)
    requires Good(s) && Enabled(s, a) && Next(s, a, depth).log.compound > 0 &&
      Inside(Next(s, a, depth), acts, s', depth)
    ensures Inside(s, [a] + acts, s', depth)
  {
    assert ([a] + acts)[1..] == acts;
  }

  /** The second edit joins the set below, which one undo takes back as well. */
  lemma EditUndoEdit() returns (s1: State<int>)
    ensures Compound(Sample(), [Edit(0, 1, [2], false), Undo, Edit(0, 1, [3], false)], s1, 100)
    ensures Good(s1) && Good(Next(s1, EndCompound, 100))
    ensures Next(Next(s1, EndCompound, 100), Undo, 100).doc == [0] != Sample().doc
  {
    SampleGood();
    var s := Sample();
    var s0 := Next(s, StartCompound, 100);
    var a: Action<int>, b: Action<int> := Edit(0, 1, [2], false), Edit(0, 1, [3], false);
    NextGood(s, StartCompound, 100);
    NextGood(s0, a, 100);
    var m := Next(s0, a, 100);
    NextGood(m, Undo, 100);
    UndoneGood(m);
    var u := Next(m, Undo, 100);
    NextGood(u, b, 100);
    s1 := Next(u, b, 100);
    Then(u, b, [], s1, 100);
    Then(m, Undo, [b], s1, 100);
    Then(s0, a, [Undo, b], s1, 100);
    NextGood(s1, EndCompound, 100);
    UndoneGood(Next(s1, EndCompound, 100));
  }

  /** The edit is gone already, and one undo takes back what came before the compound. */
  lemma EditUndo() returns (s1: State<int>)
    ensures Compound(Sample(), [Edit(0, 1, [2], false), Undo], s1, 100)
    ensures Good(s1) && Good(Next(s1, EndCompound, 100))
    ensures Next(Next(s1, EndCompound, 100), Undo, 100).doc == [0] != Sample().doc
  {
    SampleGood();
    var s := Sample();
    var s0 := Next(s, StartCompound, 100);
    var a: Action<int> := Edit(0, 1, [2], false);
    NextGood(s, StartCompound, 100);
    NextGood(s0, a, 100);
    var m := Next(s0, a, 100);
    NextGood(m, Undo, 100);
    UndoneGood(m);
    s1 := Next(m, Undo, 100);
    Then(m, Undo, [], s1, 100);
    Then(s0, a, [Undo], s1, 100);
    NextGood(s1, EndCompound, 100);
    UndoneGood(Next(s1, EndCompound, 100));
  }

  lemma NoEdit() returns (s1: State<int>)
    ensures Compound(Sample(), [], s1, 100)
    ensures Good(s1) && Good(Next(s1, EndCompound, 100))
    ensures Next(Next(s1, EndCompound, 100), Undo, 100).doc == [0] != Sample().doc
  {
    SampleGood();
    s1 := Next(Sample(), StartCompound, 100);
    NextGood(Sample(), StartCompound, 100);
    NextGood(s1, EndCompound, 100);
    UndoneGood(Next(s1, EndCompound, 100));
  }

  /** With an undo depth of 0 the set is dropped at once. */
  lemma DepthZero() returns (s1: State<int>)
    ensures Compound(Sample(), [Edit(0, 1, [2], false)], s1, 0)
    ensures Good(s1) && Good(Next(s1, EndCompound, 0))
    ensures Next(Next(s1, EndCompound, 0), Undo, 0).doc == [2] != Sample().doc
  {
    SampleGood();
    var s0 := Next(Sample(), StartCompound, 0);
    var a: Action<int> := Edit(0, 1, [2], false);
    NextGood(Sample(), StartCompound, 0);
    NextGood(s0, a, 0);
    s1 := Next(s0, a, 0);
    Then(s0, a, [], s1, 0);
    NextGood(s1, EndCompound, 0);
  }
}
