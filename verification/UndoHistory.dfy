/** The object that keeps the undo history. */
module UndoHistory {
  import opened Sequences
  import opened History

  class UndoHistory<T> {
    var time: int
    var done: seq<seq<Change<T>>>
    var undone: seq<seq<Change<T>>>
    var compound: int
    var closed: bool

    function AsLog(): Log<T>
      reads this
    {
      Log(done, undone, compound, closed)
    }

    constructor ()
      ensures AsLog() == Log([], [], 0, false) && time == 0
    {
      time, done, undone, compound, closed := 0, [], [], 0, false;
    }

    /** `addChange` at time `now`; edits that are close in place and time are merged. */
    method AddChange(start: nat, added: int, olds: seq<T>, now: int)
      modifies this
      ensures AsLog() == History.AddChange(old(AsLog()), start, added, olds, now - old(time) > 400) && time == now
    {
      undone := [];
      var n, dtime := |done|, now - time;
      var change := Change(start, added, olds);
      if compound != 0 && n > 0 && !closed {
        done := done[..n - 1] + [done[n - 1] + [change]];
      } else if dtime > 400 || n == 0 || done[n - 1] == [] || closed ||
        Apart(done[n - 1][|done[n - 1]| - 1], start, olds) {
        done := done + [[change]];
        closed := false;
      } else {
        var cur := done[n - 1];
        var last := Widen(cur[|cur| - 1], start, added, olds);
        done := done[..n - 1] + [cur[..|cur| - 1] + [last]];
      }
      time := now;
    }

    /** The oldest sets are dropped until at most `depth` are left. */
    method Trim(depth: nat)
      modifies this`done
      ensures done == old(done)[Excess(|old(done)|, depth)..]
    {
      ghost var all, n := done, 0;
      while |done| > depth
        invariant 0 <= n <= Excess(|all|, depth) && done == all[n..]
      {
        done := done[1..];
        n := n + 1;
      }
    }

    method StartCompound()
      modifies this`compound, this`closed
      ensures compound == old(compound) + 1 && closed == (old(closed) || old(compound) == 0)
    {
      if compound == 0 { closed := true; }
      compound := compound + 1;
    }

    method EndCompound()
      modifies this`compound, this`closed
      ensures compound == old(compound) - 1 && closed == (old(closed) || old(compound) == 1)
    {
      compound := compound - 1;
      if compound == 0 { closed := true; }
    }
  }

  /** The branch of `addChange` that widens the last change. */
  method Widen<T>(last: Change<T>, start: nat, added: int, olds: seq<T>) returns (c: Change<T>)
    requires !Apart(last, start, olds)
    ensures c == Merge(last, start, added, olds)
  {
    var startBefore := Max(0, last.start - start);
    var endAfter := Max(0, (start + |olds|) - (last.start + last.added));
    var lastOld := PrependOlds(olds, startBefore, last.olds);
    lastOld := AppendOlds(lastOld, olds, |olds| - endAfter);
    c := last.(olds := lastOld);
    if startBefore != 0 { c := c.(start := start); }
    c := c.(added := last.added + added - (|olds| - startBefore - endAfter));
  }

  /** The loop that puts the first `n` of the replaced lines before the old ones. */
  method PrependOlds<T>(olds: seq<T>, n: nat, lastOld0: seq<T>) returns (lastOld: seq<T>)
    requires n <= |olds|
    ensures lastOld == olds[..n] + lastOld0
  {
    lastOld := lastOld0;
    var i := n;
    while i > 0
      invariant 0 <= i <= n && olds[..i] + lastOld == olds[..n] + lastOld0
    {
      i := i - 1;
      TakeOne(olds, i, lastOld);
      lastOld := [olds[i]] + lastOld;
    }
    assert olds[..0] + lastOld == lastOld;
  }

  lemma TakeOne<T>(s: seq<T>, i: nat, r: seq<T>)
    requires i < |s|
    ensures s[..i + 1] + r == s[..i] + ([s[i]] + r)
  {
    assert s[..i + 1] == s[..i] + [s[i]];
    Regroup(s[..i], [s[i]], r);
  }

  /** The loop that appends the replaced lines from `n` on. */
  method AppendOlds<T>(lastOld0: seq<T>, olds: seq<T>, n: nat) returns (lastOld: seq<T>)
    requires n <= |olds|
    ensures lastOld == lastOld0 + olds[n..]
  {
    lastOld := lastOld0;
    var i := n;
    while i < |olds|
      invariant n <= i <= |olds| && lastOld + olds[i..] == lastOld0 + olds[n..]
    {
      DropOne(lastOld, olds, i);
      lastOld := lastOld + [olds[i]];
      i := i + 1;
    }
    assert lastOld + olds[|olds|..] == lastOld;
  }

  lemma DropOne<T>(r: seq<T>, s: seq<T>, i: nat)
    requires i < |s|
    ensures (r + [s[i]]) + s[i + 1..] == r + s[i..]
  {
    assert s[i..] == [s[i]] + s[i + 1..];
    Regroup(r, [s[i]], s[i + 1..]);
  }
}
