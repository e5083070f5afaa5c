/**
 The incremental display. The list of DOM nodes shows the lines `showingFrom..showingTo` of an earlier document; from
 the log of changes since then `ComputeIntact` finds the nodes that can stay, and `PatchDisplay` replaces the others.
 A node is modelled by the line that it renders.
 */
module Display {
  import opened Sequences

  /**
   The lines `from..to` were replaced; `diff` is the change of the number of lines (0 where the source leaves it out).
   */
  datatype Diff = Diff(from: nat, to: nat, diff: int)

  datatype Changes = All | Log(log: seq<Diff>)

  /** The nodes from `domStart` on show the lines `from..to`. */
  datatype Range = Range(from: int, to: int, domStart: int)

  /** The document `cur` results from `base` by a change. */
  ghost predicate Changed<T>(base: seq<T>, c: Diff, cur: seq<T>) {
    true == (c.from <= c.to <= |base| && c.from <= c.to + c.diff && |cur| == |base| + c.diff &&
      cur[..c.from] == base[..c.from] && cur[c.to + c.diff..] == base[c.to..])
  }

  /** `docs` are the documents before, between and after the changes of the log. */
  ghost predicate Logged<T>(docs: seq<seq<T>>, log: seq<Diff>) {
    true == (|docs| == |log| + 1 && forall i :: 0 <= i < |log| ==> Changed(docs[i], log[i], docs[i + 1]))
  }

  // ----- where a line goes -----

  datatype Place = Gone | At(line: int)

  function Step(p: Place, c: Diff): Place {
    if p.Gone? || c.from <= p.line < c.to then Gone else if p.line < c.from then p else At(p.line + c.diff)
  }

  /** Where the line `n` is after the first `k` changes, if none of them touched it. */
  function Trace(n: int, log: seq<Diff>, k: nat): Place
    requires k <= |log|
  {
    if k == 0 then At(n) else Step(Trace(n, log, k - 1), log[k - 1])
  }

  /** A line before the change stays, a line behind it moves by what the change adds. */
  predicate Moved(p: int, c: Diff, q: int) {
    if p < c.from then q == p else c.to <= p && q == p + c.diff
  }

  /** `ps` are the numbers of a line before, between and after the changes, none of which touched it. */
  ghost predicate IsPath(ps: seq<int>, log: seq<Diff>, k: nat) {
    true == (k <= |log| && |ps| == k + 1 && forall i :: 0 <= i < k ==> Moved(ps[i], log[i], ps[i + 1]))
  }

  /**
   A line has been moved from `n` to `t` exactly if it lay before each change, and stayed, or behind it, and moved by
   what the change added.
   */
  lemma {:induction false} TraceIs(n: int, log: seq<Diff>, k: nat, t: int)
    requires k <= |log|
    ensures Trace(n, log, k) == At(t) <==> exists ps :: IsPath(ps, log, k) && ps[0] == n && ps[k] == t
  {
    if k == 0 {
      assert IsPath([n], log, 0);
    } else {
      var p := Trace(n, log, k - 1);
      if Trace(n, log, k) == At(t) {
        TraceIs(n, log, k - 1, p.line);
        var ps :| IsPath(ps, log, k - 1) && ps[0] == n && ps[k - 1] == p.line;
        PathMore(ps, log, k, t);
      }
      if ps :| IsPath(ps, log, k) && ps[0] == n && ps[k] == t {
        PathLess(ps, log, k);
        TraceIs(n, log, k - 1, ps[k - 1]);
      }
    }
  }

  lemma PathMore(ps: seq<int>, log: seq<Diff>, k: nat, t: int)
    requires 0 < k <= |log| && IsPath(ps, log, k - 1) && Moved(ps[k - 1], log[k - 1], t)
    ensures IsPath(ps + [t], log, k) && (ps + [t])[0] == ps[0] && (ps + [t])[k] == t
  {
    var qs := ps + [t];
    forall i | 0 <= i < k ensures Moved(qs[i], log[i], qs[i + 1]) {
      if i < k - 1 { assert Moved(ps[i], log[i], ps[i + 1]); }
    }
  }

  lemma PathLess(ps: seq<int>, log: seq<Diff>, k: nat)
    requires 0 < k <= |log| && IsPath(ps, log, k)
    ensures IsPath(ps[..k], log, k - 1) && ps[..k][0] == ps[0] && ps[..k][k - 1] == ps[k - 1]
    ensures Moved(ps[k - 1], log[k - 1], ps[k])
  {
    var qs := ps[..k];
    forall i | 0 <= i < k - 1 ensures Moved(qs[i], log[i], qs[i + 1]) { assert Moved(ps[i], log[i], ps[i + 1]); }
  }

  /** A line that was not touched is unchanged. */
  lemma {:induction false} TraceKeeps<T>(docs: seq<seq<T>>, log: seq<Diff>, n: nat, k: nat)
    requires Logged(docs, log) && k <= |log| && n < |docs[0]| && Trace(n, log, k).At?
    ensures 0 <= Trace(n, log, k).line < |docs[k]| && docs[k][Trace(n, log, k).line] == docs[0][n]
  {
    if k > 0 {
      TraceKeeps(docs, log, n, k - 1);
      assert Changed(docs[k - 1], log[k - 1], docs[k]);
      ChangedKeeps(docs[k - 1], log[k - 1], docs[k], Trace(n, log, k - 1).line);
    }
  }

  lemma ChangedKeeps<T>(base: seq<T>, c: Diff, cur: seq<T>, p: nat)
    requires Changed(base, c, cur) && p < |base|
    ensures p < c.from ==> p < |cur| && cur[p] == base[p]
    ensures p >= c.to ==> 0 <= p + c.diff < |cur| && cur[p + c.diff] == base[p]
  {
    if p < c.from {
      assert cur[..c.from][p] == base[..c.from][p];
    } else if p >= c.to {
      assert cur[c.to + c.diff..][p - c.to] == base[c.to..][p - c.to];
    }
  }

  // ----- computeIntact -----

  /** What is left of a range after a change. */
  function Punch(r: Range, c: Diff): seq<Range> {
    if c.to <= r.from && c.diff != 0 then [Range(r.from + c.diff, r.to + c.diff, r.domStart)]
    else if c.to <= r.from || c.from >= r.to then [r]
    else (if c.from > r.from then [Range(r.from, c.from, r.domStart)] else []) +
         (if c.to < r.to then [Range(c.to + c.diff, r.to + c.diff, r.domStart + (c.to - r.from))] else [])
  }

  /** What is left of the first `n` ranges. */
  function PunchAll(rs: seq<Range>, n: nat, c: Diff): seq<Range>
    requires n <= |rs|
  {
    if n == 0 then [] else PunchAll(rs, n - 1, c) + Punch(rs[n - 1], c)
  }

  /** What is left of the ranges after the first `k` changes. */
  function Intact(rs: seq<Range>, log: seq<Diff>, k: nat): seq<Range>
    requires k <= |log|
  {
    if k == 0 then rs else
      var before := Intact(rs, log, k - 1);
      PunchAll(before, |before|, log[k - 1])
  }

  method PunchRange(intact: seq<Range>, range: Range, change: Diff) returns (intact2: seq<Range>)
    ensures intact2 == intact + Punch(range, change)
  {
    intact2 := intact;
    var diff := change.diff;
    if change.to <= range.from && diff != 0 {
      intact2 := intact2 + [Range(range.from + diff, range.to + diff, range.domStart)];
    } else if change.to <= range.from || change.from >= range.to {
      intact2 := intact2 + [range];
    } else {
      if change.from > range.from {
        intact2 := intact2 + [Range(range.from, change.from, range.domStart)];
      }
      if change.to < range.to {
        intact2 := intact2 + [Range(change.to + diff, range.to + diff, range.domStart + (change.to - range.from))];
      }
    }
  }

  /** `computeIntact` */
  method ComputeIntact(rs: seq<Range>, log: seq<Diff>) returns (intact: seq<Range>)
    ensures intact == Intact(rs, log, |log|)
  {
    intact := rs;
    for i := 0 to |log|
      invariant intact == Intact(rs, log, i)
    {
      var change, intact2 := log[i], [];
      for j := 0 to |intact|
        invariant intact2 == PunchAll(intact, j, change)
      {
        intact2 := PunchRange(intact2, intact[j], change);
      }
      intact := intact2;
    }
  }

  lemma SoundPush(log: seq<Diff>, c: Diff)
    requires Sound(log)
    ensures Sound(log + [c]) <==> SoundDiff(c)
  {
    assert (log + [c])[|log|] == c;
  }

  /** Some range says that node `p` shows line `t`. */
  ghost predicate Hit(rs: seq<Range>, p: int, t: int) {
    exists i :: 0 <= i < |rs| && In(rs[i], p, t)
  }

  predicate In(r: Range, p: int, t: int) {
    true == (r.from <= t < r.to && p - r.domStart == t - r.from)
  }

  lemma HitConcat(a: seq<Range>, b: seq<Range>, p: int, t: int)
    ensures Hit(a + b, p, t) <==> Hit(a, p, t) || Hit(b, p, t)
  {
    if Hit(a, p, t) {
      var i :| 0 <= i < |a| && In(a[i], p, t);
      assert In((a + b)[i], p, t);
    }
    if Hit(b, p, t) {
      var i :| 0 <= i < |b| && In(b[i], p, t);
      assert In((a + b)[|a| + i], p, t);
    }
  }

  lemma HitOne(r: Range, p: int, t: int)
    ensures Hit([r], p, t) <==> In(r, p, t)
  {
    if In(r, p, t) { assert In([r][0], p, t); }
  }

  /** The line that node `p` shows, if the range is right about it. */
  function LineAt(r: Range, p: int): int {
    r.from + p - r.domStart
  }

  lemma PunchHits(r: Range, c: Diff, p: int, t: int)
    requires SoundDiff(c)
    ensures Hit(Punch(r, c), p, t) <==> In(r, p, LineAt(r, p)) && Step(At(LineAt(r, p)), c) == At(t)
  {
    var a := Range(r.from, c.from, r.domStart);
    var b := Range(c.to + c.diff, r.to + c.diff, r.domStart + (c.to - r.from));
    HitOne(r, p, t);
    HitOne(a, p, t);
    HitOne(b, p, t);
    HitOne(Range(r.from + c.diff, r.to + c.diff, r.domStart), p, t);
    HitConcat(if c.from > r.from then [a] else [], if c.to < r.to then [b] else [], p, t);
  }

  /** One of the first `n` ranges says that node `p` shows a line that the change moves to `t`. */
  ghost predicate Moves(rs: seq<Range>, n: nat, c: Diff, p: int, t: int)
    requires n <= |rs|
  {
    exists i :: 0 <= i < n && In(rs[i], p, LineAt(rs[i], p)) && Step(At(LineAt(rs[i], p)), c) == At(t)
  }

  lemma {:induction false} PunchAllHits(rs: seq<Range>, n: nat, c: Diff, p: int, t: int)
    requires n <= |rs| && SoundDiff(c)
    ensures Hit(PunchAll(rs, n, c), p, t) <==> Moves(rs, n, c, p, t)
  {
    if n > 0 {
      PunchAllHits(rs, n - 1, c, p, t);
      PunchHits(rs[n - 1], c, p, t);
      HitConcat(PunchAll(rs, n - 1, c), Punch(rs[n - 1], c), p, t);
    }
  }

  lemma MovesHits(rs: seq<Range>, c: Diff, p: int, t: int)
    ensures Moves(rs, |rs|, c, p, t) <==> exists u :: Hit(rs, p, u) && Step(At(u), c) == At(t)
  {
    if Moves(rs, |rs|, c, p, t) {
      var i :| 0 <= i < |rs| && In(rs[i], p, LineAt(rs[i], p)) && Step(At(LineAt(rs[i], p)), c) == At(t);
      assert Hit(rs, p, LineAt(rs[i], p));
    }
    if u :| Hit(rs, p, u) && Step(At(u), c) == At(t) {
      var i :| 0 <= i < |rs| && In(rs[i], p, u);
      assert u == LineAt(rs[i], p);
    }
  }

  predicate SoundDiff(c: Diff) {
    c.from <= c.to && c.from <= c.to + c.diff
  }

  predicate Sound(log: seq<Diff>) {
    true == forall i :: 0 <= i < |log| ==> SoundDiff(log[i])
  }

  /**
   The intact ranges are exact: node `p` shows line `t` if the line that it showed is now line `t` and was not
   touched.
   */
  lemma PunchedHit(rs: seq<Range>, c: Diff, p: int, t: int, hit: bool)
    requires SoundDiff(c) && hit == Hit(PunchAll(rs, |rs|, c), p, t)
    ensures hit <==> exists u :: Hit(rs, p, u) && Step(At(u), c) == At(t)
  {
    PunchAllHits(rs, |rs|, c, p, t);
    MovesHits(rs, c, p, t);
  }

  /** Node `p` shows one line at most. */
  lemma OneHit(rs: seq<Range>, c: Diff, p: int, t: int, place: Place, shown: bool)
    requires forall u :: Hit(rs, p, u) <==> shown && place == At(u)
    ensures (exists u :: Hit(rs, p, u) && Step(At(u), c) == At(t)) <==> shown && Step(place, c) == At(t)
  {
    if shown && place.At? {
      assert Hit(rs, p, place.line) && At(place.line) == place;
    }
  }

  lemma {:induction false} IntactHits(a: int, b: int, log: seq<Diff>, k: nat, p: int, t: int)
    requires Sound(log) && k <= |log|
    ensures Hit(Intact([Range(a, b, 0)], log, k), p, t) <==> 0 <= p < b - a && Trace(a + p, log, k) == At(t)
    decreases k
  {
    if k == 0 {
      HitOne(Range(a, b, 0), p, t);
    } else {
      var rs, c := Intact([Range(a, b, 0)], log, k - 1), log[k - 1];
      var place := Trace(a + p, log, k - 1);
      assert Trace(a + p, log, k) == Step(place, c);
      forall u ensures Hit(rs, p, u) <==> 0 <= p < b - a && place == At(u) { IntactHits(a, b, log, k - 1, p, u); }
      PunchedHit(rs, c, p, t, Hit(PunchAll(rs, |rs|, c), p, t));
      OneHit(rs, c, p, t, place, 0 <= p < b - a);
    }
  }

  // ----- the ranges stay in order -----

  predicate Before(r: Range, s: Range) {
    true == (r.to <= s.from && r.domStart + (r.to - r.from) <= s.domStart)
  }

  predicate Sorted(rs: seq<Range>) {
    true == ((forall i :: 0 <= i < |rs| ==> rs[i].from <= rs[i].to) && forall i, j :: 0 <= i < j < |rs| ==>
    Before(rs[i], rs[j]))
  }

  /** All ranges of `rs` come before `s`. */
  predicate AllBefore(rs: seq<Range>, s: Range) {
    true == forall i :: 0 <= i < |rs| ==> Before(rs[i], s)
  }

  lemma PunchBefore(r: Range, s: Range, c: Diff)
    requires SoundDiff(c) && Before(r, s) && r.from <= r.to && s.from <= s.to
    ensures forall i, j :: 0 <= i < |Punch(r, c)| && 0 <= j < |Punch(s, c)| ==> Before(Punch(r, c)[i], Punch(s, c)[j])
  {
  }

  lemma PunchSorted(r: Range, c: Diff)
    requires SoundDiff(c) && r.from <= r.to
    ensures Sorted(Punch(r, c))
  {
  }

  lemma {:induction false} PunchAllBefore(rs: seq<Range>, n: nat, c: Diff, k: nat)
    requires SoundDiff(c) && Sorted(rs) && n <= k < |rs|
    ensures forall j :: 0 <= j < |Punch(rs[k], c)| ==> AllBefore(PunchAll(rs, n, c), Punch(rs[k], c)[j])
  {
    if n > 0 {
      PunchAllBefore(rs, n - 1, c, k);
      assert Before(rs[n - 1], rs[k]);
      PunchBefore(rs[n - 1], rs[k], c);
    }
  }

  lemma {:induction false} PunchAllSorted(rs: seq<Range>, n: nat, c: Diff)
    requires SoundDiff(c) && Sorted(rs) && n <= |rs|
    ensures Sorted(PunchAll(rs, n, c))
  {
    if n > 0 {
      PunchAllSorted(rs, n - 1, c);
      PunchAllBefore(rs, n - 1, c, n - 1);
      PunchSorted(rs[n - 1], c);
      SortedConcat(PunchAll(rs, n - 1, c), Punch(rs[n - 1], c));
    }
  }

  lemma SortedConcat(a: seq<Range>, b: seq<Range>)
    requires Sorted(a) && Sorted(b) && forall j :: 0 <= j < |b| ==> AllBefore(a, b[j])
    ensures Sorted(a + b)
  {
    var s := a + b;
    forall i, j | 0 <= i < j < |s| ensures Before(s[i], s[j]) {
      if i < |a| <= j { assert AllBefore(a, b[j - |a|]) && Before(a[i], b[j - |a|]); }
      else if j < |a| { assert Before(a[i], a[j]); }
      else { assert Before(b[i - |a|], b[j - |a|]); }
    }
  }

  /** The ranges come out in the order of their nodes, so that sorting them changes nothing. */
  lemma {:induction false} IntactSorted(rs: seq<Range>, log: seq<Diff>, k: nat)
    requires Sound(log) && Sorted(rs) && k <= |log|
    ensures Sorted(Intact(rs, log, k))
  {
    if k > 0 {
      IntactSorted(rs, log, k - 1);
      assert SoundDiff(log[k - 1]);
      PunchAllSorted(Intact(rs, log, k - 1), |Intact(rs, log, k - 1)|, log[k - 1]);
    }
  }

  // ----- clipping -----

  function Clip(r: Range, from: int, to: int): Range {
    var domStart := if r.from < from then r.domStart + (from - r.from) else r.domStart;
    Range(if r.from < from then from else r.from, if r.to > to then to else r.to, domStart)
  }

  /** What is left of the first `n` ranges. */
  function ClipAll(rs: seq<Range>, n: nat, from: int, to: int): seq<Range>
    requires n <= |rs|
  {
    if n == 0 then [] else
      var c := Clip(rs[n - 1], from, to);
      if c.from >= c.to then ClipAll(rs, n - 1, from, to) else ClipAll(rs, n - 1, from, to) + [c]
  }

  /** The number of lines in the first `n` ranges. */
  function Total(rs: seq<Range>, n: nat): int
    requires n <= |rs|
  {
    if n == 0 then 0 else Total(rs, n - 1) + (rs[n - 1].to - rs[n - 1].from)
  }

  lemma {:induction false} TotalPrefix(rs: seq<Range>, n: nat, ss: seq<Range>)
    requires n <= |rs| && n <= |ss| && forall i :: 0 <= i < n ==> rs[i] == ss[i]
    ensures Total(rs, n) == Total(ss, n)
  {
    if n > 0 { TotalPrefix(rs, n - 1, ss); }
  }

  /** The first `n` ranges have been clipped; `done` are those that are left of them. */
  ghost predicate Clipping(intact: seq<Range>, i: int, lines: int, done: seq<Range>, rs: seq<Range>, n: nat, from: int,
                           to: int) {
    true == (n <= |rs| && done == ClipAll(rs, n, from, to) && i == |done| && lines == Total(done, |done|) &&
    intact == done + rs[n..])
  }

  lemma ClippingStep(intact: seq<Range>, i: int, lines: int, done: seq<Range>, rs: seq<Range>, n: nat, from: int,
                     to: int)
    requires Clipping(intact, i, lines, done, rs, n, from, to) && i < |intact|
    ensures 0 <= i && n < |rs| && intact[i] == rs[n]
    ensures var c := Clip(rs[n], from, to);
            if c.from >= c.to then Clipping(intact[..i] + intact[i + 1..], i, lines, done, rs, n + 1, from, to)
            else Clipping(intact[i := c], i + 1, lines + (c.to - c.from), done + [c], rs, n + 1, from, to)
  {
    assert rs[n..] == [rs[n]] + rs[n + 1..];
    var c := Clip(rs[n], from, to);
    ListStep(intact, done, rs[n], rs[n + 1..], c);
    TotalPrefix(done, |done|, done + [c]);
  }

  lemma ListStep<T>(s: seq<T>, a: seq<T>, x: T, b: seq<T>, y: T)
    requires s == a + ([x] + b)
    ensures s[|a|] == x && s[..|a|] + s[|a| + 1..] == a + b && s[|a| := y] == (a + [y]) + b
  {
  }

  /** The loop of `updateDisplay` that clips the ranges to `from..to`, in place. */
  method ClipRanges(rs: seq<Range>, from: int, to: int) returns (intact: seq<Range>, intactLines: int)
    ensures intact == ClipAll(rs, |rs|, from, to) && intactLines == Total(intact, |intact|)
  {
    intact, intactLines := rs, 0;
    var i := 0;
    ghost var n, done := 0, [];
    assert [] + rs[0..] == rs;
    while i < |intact|
      invariant Clipping(intact, i, intactLines, done, rs, n, from, to) && 0 <= i <= |intact|
      decreases |intact| - i
    {
      ClippingStep(intact, i, intactLines, done, rs, n, from, to);
      var range := intact[i];
      if range.from < from { range := range.(domStart := range.domStart + (from - range.from), from := from); }
      if range.to > to { range := range.(to := to); }
      if range.from >= range.to {
        intact := intact[..i] + intact[i + 1..];
      } else {
        intact := intact[i := range];
        intactLines := intactLines + (range.to - range.from);
        i := i + 1;
        done := done + [range];
      }
      n := n + 1;
    }
    assert n == |rs| && done + rs[n..] == done;
  }

  lemma ClipIn(r: Range, from: int, to: int, p: int, t: int)
    ensures In(Clip(r, from, to), p, t) <==> In(r, p, t) && from <= t < to
  {
  }

  lemma {:induction false} ClipHits(rs: seq<Range>, n: nat, from: int, to: int, p: int, t: int)
    requires n <= |rs|
    ensures Hit(ClipAll(rs, n, from, to), p, t) <==> from <= t < to && exists i :: 0 <= i < n && In(rs[i], p, t)
  {
    if n > 0 {
      var c := Clip(rs[n - 1], from, to);
      ClipHits(rs, n - 1, from, to, p, t);
      ClipIn(rs[n - 1], from, to, p, t);
      HitOne(c, p, t);
      HitConcat(ClipAll(rs, n - 1, from, to), [c], p, t);
    }
  }

  predicate NonEmpty(rs: seq<Range>) {
    true == forall i :: 0 <= i < |rs| ==> rs[i].from < rs[i].to
  }

  lemma ClipBefore(r: Range, s: Range, from: int, to: int)
    requires Before(r, s) && r.from <= r.to && Clip(r, from, to).from < Clip(r, from, to).to
    ensures Before(Clip(r, from, to), Clip(s, from, to))
  {
  }

  lemma {:induction false} ClipAllBefore(rs: seq<Range>, n: nat, from: int, to: int, k: nat)
    requires Sorted(rs) && n <= k < |rs|
    ensures AllBefore(ClipAll(rs, n, from, to), Clip(rs[k], from, to))
  {
    if n > 0 {
      ClipAllBefore(rs, n - 1, from, to, k);
      assert Before(rs[n - 1], rs[k]);
      if Clip(rs[n - 1], from, to).from < Clip(rs[n - 1], from, to).to { ClipBefore(rs[n - 1], rs[k], from, to); }
    }
  }

  lemma {:induction false} ClipSorted(rs: seq<Range>, n: nat, from: int, to: int)
    requires Sorted(rs) && n <= |rs|
    ensures Sorted(ClipAll(rs, n, from, to)) && NonEmpty(ClipAll(rs, n, from, to))
  {
    if n > 0 {
      ClipSorted(rs, n - 1, from, to);
      ClipAllBefore(rs, n - 1, from, to, n - 1);
      var a, c := ClipAll(rs, n - 1, from, to), Clip(rs[n - 1], from, to);
      if c.from < c.to {
        assert Sorted([c]);
        SortedConcat(a, [c]);
      }
    }
  }

  // ----- the lines of ranges -----

  predicate Within(rs: seq<Range>, from: int, to: int) {
    true == (forall i :: 0 <= i < |rs| ==> from <= rs[i].from <= rs[i].to <= to)
  }

  ghost predicate RightRange<T>(r: Range, nodes: seq<T>, doc: seq<T>) {
    var n := r.to - r.from;
    true == (n >= 0 && 0 <= r.domStart && r.domStart + n <= |nodes| && 0 <= r.from && r.to <= |doc| &&
      nodes[r.domStart..r.domStart + n] == doc[r.from..r.to])
  }

  /** The nodes show the lines that the ranges say they do. */
  ghost predicate Right<T>(rs: seq<Range>, nodes: seq<T>, doc: seq<T>) {
    true == (forall i :: 0 <= i < |rs| ==> RightRange(rs[i], nodes, doc))
  }

  lemma RightWithin<T>(rs: seq<Range>, nodes: seq<T>, doc: seq<T>)
    requires Right(rs, nodes, doc)
    ensures Within(rs, 0, |doc|)
  {
    forall i | 0 <= i < |rs| ensures 0 <= rs[i].from <= rs[i].to <= |doc| {
      assert RightRange(rs[i], nodes, doc);
    }
  }

  /** The lines of the first `n` ranges. */
  function LinesTo<T>(rs: seq<Range>, n: nat, doc: seq<T>): seq<T>
    requires n <= |rs| && Within(rs, 0, |doc|)
  {
    if n == 0 then [] else LinesTo(rs, n - 1, doc) + doc[rs[n - 1].from..rs[n - 1].to]
  }

  /** The lines of the ranges from number `q` on. */
  function LinesFrom<T>(rs: seq<Range>, q: nat, doc: seq<T>): seq<T>
    requires q <= |rs| && Within(rs, 0, |doc|)
    decreases |rs| - q
  {
    if q == |rs| then [] else doc[rs[q].from..rs[q].to] + LinesFrom(rs, q + 1, doc)
  }

  lemma {:induction false} LinesSplit<T>(rs: seq<Range>, n: nat, doc: seq<T>)
    requires n <= |rs| && Within(rs, 0, |doc|)
    ensures LinesTo(rs, n, doc) + LinesFrom(rs, n, doc) == LinesFrom(rs, 0, doc)
  {
    if n > 0 {
      LinesSplit(rs, n - 1, doc);
      Regroup(LinesTo(rs, n - 1, doc), doc[rs[n - 1].from..rs[n - 1].to], LinesFrom(rs, n, doc));
    }
  }

  /** Ranges whose every hit is right are right as a whole. */
  lemma HitsAreRight<T>(rs: seq<Range>, nodes: seq<T>, doc: seq<T>)
    requires NonEmpty(rs) && forall p, t :: Hit(rs, p, t) ==> 0 <= p < |nodes| && 0 <= t < |doc| && nodes[p] == doc[t]
    ensures Right(rs, nodes, doc)
  {
    forall i | 0 <= i < |rs| ensures RightRange(rs[i], nodes, doc) {
      var r := rs[i];
      var n := r.to - r.from;
      assert In(rs[i], r.domStart, r.from) && In(rs[i], r.domStart + (n - 1), r.from + (n - 1));
      assert Hit(rs, r.domStart, r.from) && Hit(rs, r.domStart + (n - 1), r.from + (n - 1));
      forall k | 0 <= k < n ensures nodes[r.domStart..r.domStart + n][k] == doc[r.from..r.to][k] {
        assert In(rs[i], r.domStart + k, r.from + k);
        assert Hit(rs, r.domStart + k, r.from + k);
      }
    }
  }

  lemma HitsAreWithin(rs: seq<Range>, from: int, to: int)
    requires NonEmpty(rs) && forall p, t :: Hit(rs, p, t) ==> from <= t < to
    ensures Within(rs, from, to)
  {
    forall i | 0 <= i < |rs| ensures from <= rs[i].from <= rs[i].to <= to {
      var r := rs[i];
      assert In(r, r.domStart, r.from) && In(r, r.domStart + (r.to - 1 - r.from), r.to - 1);
      assert Hit(rs, r.domStart, r.from) && Hit(rs, r.domStart + (r.to - 1 - r.from), r.to - 1);
    }
  }

  lemma GrowWindow<T>(nodes: seq<T>, doc: seq<T>, x: nat, y: nat, from: nat, u: nat, v: nat)
    requires x <= y <= |nodes| && from <= u <= v <= |doc|
    requires nodes[..x] == doc[from..u] && nodes[x..y] == doc[u..v]
    ensures nodes[..y] == doc[from..v]
  {
    assert nodes[..y] == nodes[..x] + nodes[x..y];
  }

  /** Ranges as long together as the whole of what they are taken from are the whole of it. */
  lemma {:induction false} FullWindow<T>(rs: seq<Range>, n: nat, nodes: seq<T>, doc: seq<T>, from: nat)
    requires n <= |rs| && Sorted(rs) && Right(rs, nodes, doc) && forall i :: 0 <= i < |rs| ==> from <= rs[i].from
    ensures var e := if n == 0 then 0 else rs[n - 1].domStart + (rs[n - 1].to - rs[n - 1].from);
            var f := if n == 0 then from else rs[n - 1].to;
            0 <= Total(rs, n) <= e <= |nodes| && Total(rs, n) <= f - from &&
            (Total(rs, n) == e == f - from && f <= |doc| ==> nodes[..e] == doc[from..f])
  {
    if n > 0 {
      var r := rs[n - 1];
      FullWindow(rs, n - 1, nodes, doc, from);
      assert RightRange(r, nodes, doc);
      if n > 1 { assert Before(rs[n - 2], r); }
      var e, f := r.domStart + (r.to - r.from), r.to;
      if Total(rs, n) == e == f - from {
        GrowWindow(nodes, doc, r.domStart, e, from, r.from, f);
      }
    }
  }

  /** If as many lines are intact as are to be shown, and the window is the same, then nothing has to be done. */
  lemma AllIntact<T>(intact: seq<Range>, nodes: seq<T>, doc: seq<T>, from: nat, to: nat)
    requires from <= to <= |doc| && Sorted(intact) && Within(intact, from, to) && Right(intact, nodes, doc)
    requires Total(intact, |intact|) == to - from == |nodes|
    ensures nodes == doc[from..to]
  {
    var n := |intact|;
    FullWindow(intact, n, nodes, doc, from);
    if n == 0 {
      assert nodes == [] && doc[from..to] == [];
    } else {
      var e, f := intact[n - 1].domStart + (intact[n - 1].to - intact[n - 1].from), intact[n - 1].to;
      assert e == |nodes| && f == to;
      assert nodes[..e] == nodes;
    }
  }

  ghost predicate ShowsPart<T>(nodes: seq<T>, a: nat, b: nat, doc: seq<T>) {
    (a == b == 0) || (a <= b <= |doc| && nodes == doc[a..b])
  }

  /** There are as many nodes as lines shown, unless the editor was hidden. */
  ghost predicate Counts<T>(nodes: seq<T>, a: nat, b: nat) {
    (a == b == 0) || (a <= b && |nodes| == b - a)
  }

  predicate SoundChanges(changes: Changes) {
    changes.Log? ==> Sound(changes.log)
  }

  /** The log says that node `p` is intact and belongs to line `t` now. */
  ghost predicate Stays(changes: Changes, a: nat, b: nat, p: int, t: int) {
    true == (changes.Log? && 0 <= p < b - a && Trace(a + p, changes.log, |changes.log|) == At(t))
  }

  /** Lines that are not touched stay in order. */
  lemma {:induction false} TraceOrdered(log: seq<Diff>, m: int, n: int, k: nat)
    requires Sound(log) && k <= |log| && m < n && Trace(m, log, k).At? && Trace(n, log, k).At?
    ensures Trace(m, log, k).line < Trace(n, log, k).line
  {
    if k > 0 {
      TraceOrdered(log, m, n, k - 1);
      assert SoundDiff(log[k - 1]);
    }
  }

  /** What there is to see of line `t`: its node if it has one, or else the line. */
  ghost predicate IsRow<T>(x: T, t: int, doc: seq<T>, changes: Changes, was: seq<T>, a: nat, b: nat)
    requires 0 <= t < |doc| && Counts(was, a, b)
  {
    true == ((forall p :: Stays(changes, a, b, p, t) ==> x == was[p]) &&
      ((forall p :: !Stays(changes, a, b, p, t)) ==> x == doc[t]))
  }

  ghost function Row<T>(t: nat, doc: seq<T>, changes: Changes, was: seq<T>, a: nat, b: nat): (x: T)
    requires t < |doc| && Counts(was, a, b) && SoundChanges(changes)
    ensures IsRow(x, t, doc, changes, was, a, b)
  {
    if p :| Stays(changes, a, b, p, t) then
      assert forall q :: Stays(changes, a, b, q, t) ==> q == p by { OneNode(changes, a, b, p, t); }
      was[p]
    else doc[t]
  }

  lemma OneNode(changes: Changes, a: nat, b: nat, p: int, t: int)
    requires SoundChanges(changes) && Stays(changes, a, b, p, t)
    ensures forall q :: Stays(changes, a, b, q, t) ==> q == p
  {
    forall q | Stays(changes, a, b, q, t) ensures q == p {
      if q < p { TraceOrdered(changes.log, a + q, a + p, |changes.log|); }
      if p < q { TraceOrdered(changes.log, a + p, a + q, |changes.log|); }
    }
  }

  /** The document with the lines for which a node is kept replaced by what the node shows. */
  ghost function Overlay<T>(doc: seq<T>, changes: Changes, was: seq<T>, a: nat, b: nat): (d: seq<T>)
    requires Counts(was, a, b) && SoundChanges(changes)
    ensures |d| == |doc| && forall t :: 0 <= t < |d| ==> IsRow(d[t], t, doc, changes, was, a, b)
  {
    seq(|doc|, t requires 0 <= t < |doc| => Row(t, doc, changes, was, a, b))
  }

  /** Without changes every node is kept for its line. */
  lemma OverlaySame<T>(doc: seq<T>, changes: Changes, was: seq<T>, a: nat, b: nat)
    requires changes == Log([]) && a <= b <= |doc| && |was| == b - a
    ensures Overlay(doc, changes, was, a, b)[a..b] == was
  {
    var d := Overlay(doc, changes, was, a, b);
    forall p | 0 <= p < b - a ensures d[a..b][p] == was[p] {
      assert Stays(changes, a, b, p, a + p) && IsRow(d[a + p], a + p, doc, changes, was, a, b);
    }
  }

  /** If all may have changed, all is drawn. */
  lemma AllDrawn<T>(doc: seq<T>, was: seq<T>, a: nat, b: nat)
    requires Counts(was, a, b)
    ensures Overlay(doc, All, was, a, b) == doc
  {
    var d := Overlay(doc, All, was, a, b);
    forall t | 0 <= t < |doc| ensures d[t] == doc[t] { assert IsRow(d[t], t, doc, All, was, a, b); }
  }

  /**
   The nodes that are kept are right exactly if each of them shows the line for which it is kept: this is when the
   display is right after an update.
   */
  lemma OverlayRight<T>(doc: seq<T>, changes: Changes, was: seq<T>, a: nat, b: nat, from: nat, to: nat)
    requires Counts(was, a, b) && SoundChanges(changes) && from <= to <= |doc|
    ensures Overlay(doc, changes, was, a, b)[from..to] == doc[from..to] <==>
      forall p, t :: from <= t < to && Stays(changes, a, b, p, t) ==> was[p] == doc[t]
  {
    var d := Overlay(doc, changes, was, a, b);
    if d[from..to] == doc[from..to] {
      forall p, t | from <= t < to && Stays(changes, a, b, p, t) ensures was[p] == doc[t] {
        assert IsRow(d[t], t, doc, changes, was, a, b) && d[from..to][t - from] == doc[from..to][t - from];
      }
    } else {
      var i :| 0 <= i < to - from && d[from..to][i] != doc[from..to][i];
      assert IsRow(d[from + i], from + i, doc, changes, was, a, b);
    }
  }

  lemma ClippedTrace(a: nat, b: nat, log: seq<Diff>, rs: seq<Range>, from: nat, to: nat, p: int, t: int)
    requires Sound(log) && rs == Intact([Range(a, b, 0)], log, |log|)
    ensures Hit(ClipAll(rs, |rs|, from, to), p, t) <==> from <= t < to && Stays(Log(log), a, b, p, t)
  {
    ClipHits(rs, |rs|, from, to, p, t);
    assert Hit(rs, p, t) <==> exists i :: 0 <= i < |rs| && In(rs[i], p, t);
    IntactHits(a, b, log, |log|, p, t);
  }

  lemma TracedNode<T>(nodes: seq<T>, a: nat, b: nat, docs: seq<seq<T>>, log: seq<Diff>, p: int, t: int)
    requires Logged(docs, log) && ShowsPart(nodes, a, b, docs[0]) && Stays(Log(log), a, b, p, t)
    ensures p < |nodes| && 0 <= t < |docs[|log|]| && nodes[p] == docs[|log|][t]
  {
    TraceKeeps(docs, log, a + p, |log|);
  }

  /** The changes lead from the document `docs[0]` to `doc`; if all may have changed, nothing is known. */
  ghost predicate Leads<T>(docs: seq<seq<T>>, changes: Changes, doc: seq<T>) {
    |docs| > 0 && (changes.Log? ==> Logged(docs, changes.log) && docs[|changes.log|] == doc)
  }

  /** Nodes that showed the lines as they were before the changes show the lines as they are now. */
  lemma LedRight<T>(doc: seq<T>, changes: Changes, was: seq<T>, a: nat, b: nat, docs: seq<seq<T>>)
    requires Leads(docs, changes, doc) && ShowsPart(was, a, b, docs[0])
    ensures Counts(was, a, b) && SoundChanges(changes) && Overlay(doc, changes, was, a, b) == doc
  {
    if changes.Log? { LoggedSound(docs, changes.log); }
    var d := Overlay(doc, changes, was, a, b);
    forall t | 0 <= t < |doc| ensures d[t] == doc[t] {
      assert IsRow(d[t], t, doc, changes, was, a, b);
      if p :| Stays(changes, a, b, p, t) { TracedNode(was, a, b, docs, changes.log, p, t); }
    }
  }

  /** A range claims line `t`. */
  ghost predicate Claimed(rs: seq<Range>, t: int) {
    exists i :: 0 <= i < |rs| && rs[i].from <= t < rs[i].to
  }

  lemma HitClaims(rs: seq<Range>, p: int, t: int)
    requires Hit(rs, p, t)
    ensures Claimed(rs, t)
  {
    var i :| 0 <= i < |rs| && In(rs[i], p, t);
    assert rs[i].from <= t < rs[i].to;
  }

  /** `shown` is `doc` wherever no range claims a line. */
  ghost predicate Outside<T>(shown: seq<T>, doc: seq<T>, rs: seq<Range>, from: nat, to: nat) {
    true == (|shown| == |doc| &&
      forall t :: from <= t < to && t < |doc| && !Claimed(rs, t) ==> shown[t] == doc[t])
  }

  /** After clipping the ranges lie in the window, in order, and name exactly the nodes that are kept. */
  lemma ClippedRight<T>(nodes: seq<T>, a: nat, b: nat, changes: Changes, doc: seq<T>, from: nat, to: nat,
                        intact: seq<Range>)
    requires Counts(nodes, a, b) && SoundChanges(changes) && from <= to <= |doc|
    requires intact == if changes.Log? then Intact([Range(a, b, 0)], changes.log, |changes.log|) else []
    ensures var cs, shown := ClipAll(intact, |intact|, from, to), Overlay(doc, changes, nodes, a, b);
            Sorted(cs) && NonEmpty(cs) && Within(cs, from, to) && Right(cs, nodes, shown) && (a == b ==> cs == []) &&
            Outside(shown, doc, cs, from, to)
  {
    var cs, shown := ClipAll(intact, |intact|, from, to), Overlay(doc, changes, nodes, a, b);
    if changes.Log? { IntactSorted([Range(a, b, 0)], changes.log, |changes.log|); }
    ClipSorted(intact, |intact|, from, to);
    forall p, t ensures Hit(cs, p, t) <==> from <= t < to && Stays(changes, a, b, p, t) {
      if changes.Log? { ClippedTrace(a, b, changes.log, intact, from, to, p, t); }
    }
    HitsShown(nodes, a, b, changes, doc, from, to, cs);
    HitsAreRight(cs, nodes, shown);
    HitsAreWithin(cs, from, to);
    if cs != [] {
      assert cs[0].from < cs[0].to;
      assert In(cs[0], cs[0].domStart, cs[0].from);
      assert Hit(cs, cs[0].domStart, cs[0].from);
    }
  }

  lemma HitsShown<T>(nodes: seq<T>, a: nat, b: nat, changes: Changes, doc: seq<T>, from: nat, to: nat, cs: seq<Range>)
    requires Counts(nodes, a, b) && SoundChanges(changes) && from <= to <= |doc|
    requires forall p, t :: Hit(cs, p, t) <==> from <= t < to && Stays(changes, a, b, p, t)
    ensures var shown := Overlay(doc, changes, nodes, a, b);
            (forall p, t :: Hit(cs, p, t) ==> 0 <= p < |nodes| && 0 <= t < |shown| && nodes[p] == shown[t]) &&
            Outside(shown, doc, cs, from, to)
  {
    var shown := Overlay(doc, changes, nodes, a, b);
    forall p, t | Hit(cs, p, t) ensures 0 <= p < |nodes| && 0 <= t < |shown| && nodes[p] == shown[t] {
      assert IsRow(shown[t], t, doc, changes, nodes, a, b);
    }
    forall p, t | from <= t < to && Stays(changes, a, b, p, t) ensures Claimed(cs, t) {
      assert Hit(cs, p, t);
      HitClaims(cs, p, t);
    }
    forall t | from <= t < to && !Claimed(cs, t) ensures shown[t] == doc[t] {
      assert IsRow(shown[t], t, doc, changes, nodes, a, b);
    }
  }

  // ----- a redraw in the middle of an operation -----

  /**
   The nodes were drawn anew after `k` of the changes, and the log is applied to them from its beginning. The display
   is right exactly if every node that the whole log keeps for a line shows it; this is so if the whole log and its
   part from `k` on say the same of every such node.
   */
  lemma RedrawnMidway<T>(docs: seq<seq<T>>, log: seq<Diff>, k: nat, a: nat, b: nat, from: nat, to: nat)
    requires Logged(docs, log) && k <= |log| && a <= b <= |docs[k]| && from <= to <= |docs[|log|]|
    ensures var was, doc := docs[k][a..b], docs[|log|];
            SoundChanges(Log(log)) &&
            (Overlay(doc, Log(log), was, a, b)[from..to] == doc[from..to] <==>
            forall p, t :: from <= t < to && Stays(Log(log), a, b, p, t) ==> docs[k][a + p] == doc[t]) &&
            ((forall p, t :: from <= t < to && Stays(Log(log), a, b, p, t) ==> Stays(Log(log[k..]), a, b, p, t)) ==>
            Overlay(doc, Log(log), was, a, b)[from..to] == doc[from..to])
  {
    LoggedSound(docs, log);
    var was, doc := docs[k][a..b], docs[|log|];
    OverlayRight(doc, Log(log), was, a, b, from, to);
    assert forall p :: 0 <= p < b - a ==> was[p] == docs[k][a + p];
    forall p, t | Stays(Log(log[k..]), a, b, p, t) ensures 0 <= t < |doc| && docs[k][a + p] == doc[t] {
      assert forall i :: 0 <= i < |log| - k ==> Changed(docs[k..][i], log[k..][i], docs[k..][i + 1]) by {
        assert forall i :: k <= i < |log| ==> Changed(docs[i], log[i], docs[i + 1]);
      }
      TracedNode(was, a, b, docs[k..], log[k..], p, t);
    }
  }

  /**
   Eleven lines are shown and the first is an insertion of this operation, logged as a change of line 0. If a
   `refresh` has drawn them in the meantime, the log is applied to nodes that show the change already: the node of
   line 1 is kept for line 2, and line 1 is drawn once more.
   */
  lemma RedrawnTooEarly<T>(doc: seq<T>)
    requires |doc| == 11 && doc[1] != doc[2]
    ensures var log, nodes := Log([Diff(0, 1, 1)]), doc;
            SoundChanges(log) && Overlay(doc, log, nodes, 0, 11) == [doc[0], doc[1]] + doc[1..10] != doc
  {
    var d := Overlay(doc, Log([Diff(0, 1, 1)]), doc, 0, 11);
    forall t: nat | t < 11 ensures d[t] == doc[if t < 2 then t else t - 1] { RowTooEarly(doc, t); }
    assert d[2] != doc[2];
  }

  lemma RowTooEarly<T>(doc: seq<T>, t: nat)
    requires |doc| == 11 && t < 11
    ensures SoundChanges(Log([Diff(0, 1, 1)])) &&
      Overlay(doc, Log([Diff(0, 1, 1)]), doc, 0, 11)[t] == doc[if t < 2 then t else t - 1]
  {
    var log, d := [Diff(0, 1, 1)], Overlay(doc, Log([Diff(0, 1, 1)]), doc, 0, 11);
    forall p ensures Stays(Log(log), 0, 11, p, t) <==> 1 <= p < 11 && t == p + 1 {
      assert Trace(p, log, 0) == At(p) && Trace(p, log, 1) == Step(At(p), log[0]);
    }
    assert IsRow(d[t], t, doc, Log(log), doc, 0, 11);
    if t >= 2 { assert Stays(Log(log), 0, 11, t - 1, t); }
  }

  /**
   A marker made from line 3 to line 1 is logged as a change from 3 to 2. What is left of ten lines are two ranges
   that overlap, with more lines than there are nodes.
   */
  lemma EndGivenFirst()
    ensures var rs := Intact([Range(0, 10, 0)], [Diff(3, 2, 0)], 1);
            rs == [Range(0, 3, 0), Range(2, 10, 2)] && Total(rs, 2) == 11 && !Sorted(rs)
  {
    var log, r := [Diff(3, 2, 0)], Range(0, 10, 0);
    assert Intact([r], log, 0) == [r];
    assert PunchAll([r], 1, log[0]) == PunchAll([r], 0, log[0]) + Punch(r, log[0]);
    var rs := Intact([r], log, 1);
    assert rs == [Range(0, 3, 0), Range(2, 10, 2)];
    assert Total(rs, 1) == Total(rs, 0) + 3 && Total(rs, 2) == Total(rs, 1) + 8;
    assert !Before(rs[0], rs[1]);
  }

  lemma LoggedSound<T>(docs: seq<seq<T>>, log: seq<Diff>)
    requires Logged(docs, log)
    ensures Sound(log)
  {
    forall i | 0 <= i < |log| ensures SoundDiff(log[i]) {
      assert Changed(docs[i], log[i], docs[i + 1]);
    }
  }

  // ----- the list of nodes -----

  datatype Outcome = Hidden | Kept | Patched | BadPatch

  class LineDiv<T> {
    var nodes: seq<T>
    var showingFrom: nat
    var showingTo: nat

    /** The nodes show a part of `doc`, or they are not to be relied on because the editor was hidden. */
    ghost predicate Shows(doc: seq<T>)
      reads this
    {
      ShowsPart(nodes, showingFrom, showingTo, doc)
    }

    /** `n` nodes are removed, from `curNode` on. */
    method KillNodes(curNode: nat, n: nat)
      requires curNode + n <= |nodes|
      modifies this`nodes
      ensures nodes == old(nodes)[..curNode] + old(nodes)[curNode + n..]
    {
      for i := 0 to n
        invariant nodes == old(nodes)[..curNode] + old(nodes)[curNode + i..]
      {
        nodes := nodes[..curNode] + nodes[curNode + 1..];
      }
    }

    /** The nodes before the intact range `i` are removed, its own nodes are passed. */
    method KeepRange(intact: seq<Range>, i: nat, domPos0: nat, curNode0: nat, ghost doc: seq<T>, ghost all: seq<T>)
      returns (domPos: nat, curNode: nat)
      requires i < |intact| && Within(intact, 0, |doc|) && Right(intact, all, doc) && domPos0 <= intact[i].domStart
      requires domPos0 <= |all| && Passed(nodes, curNode0, LinesTo(intact, i, doc), all[domPos0..])
      modifies this`nodes
      ensures domPos == intact[i].domStart + (intact[i].to - intact[i].from) <= |all|
      ensures Passed(nodes, curNode, LinesTo(intact, i + 1, doc), all[domPos..])
    {
      domPos, curNode := domPos0, curNode0;
      var cur := intact[i];
      assert RightRange(cur, all, doc);
      ghost var done, was := LinesTo(intact, i, doc), nodes;
      PassedKill(was, curNode0, done, all, domPos0, cur.domStart);
      KillNodes(curNode0, cur.domStart - domPos0);
      assert Passed(nodes, curNode0, done, all[cur.domStart..]);
      domPos := cur.domStart;
      PassedRange(nodes, curNode0, intact, i, doc, all);
      domPos, curNode := PassNodes(domPos, curNode, cur.to - cur.from);
    }

    method PassNodes(domPos0: nat, curNode0: nat, e: nat) returns (domPos: nat, curNode: nat)
      ensures domPos == domPos0 + e && curNode == curNode0 + e
    {
      domPos, curNode := domPos0, curNode0;
      for j := 0 to e
        invariant domPos == domPos0 + j && curNode == curNode0 + j
      {
        curNode, domPos := curNode + 1, domPos + 1;
      }
    }

    /** The first pass of `patchDisplay`: the nodes that are not intact are removed. */
    method RemoveStale(intact: seq<Range>, ghost doc: seq<T>)
      requires Sorted(intact) && Within(intact, 0, |doc|) && Right(intact, nodes, doc)
      modifies this`nodes
      ensures nodes == LinesTo(intact, |intact|, doc)
    {
      if |intact| == 0 {
        nodes := [];
        return;
      }
      var domPos: nat, curNode: nat := 0, 0;
      ghost var all := nodes;
      assert all[0..] == all && [] + all == all;
      assert RightRange(intact[0], all, doc);
      for i := 0 to |intact|
        invariant domPos <= |all| && Passed(nodes, curNode, LinesTo(intact, i, doc), all[domPos..])
        invariant i < |intact| ==> domPos <= intact[i].domStart
      {
        assert i + 1 < |intact| ==> Before(intact[i], intact[i + 1]);
        domPos, curNode := KeepRange(intact, i, domPos, curNode, doc, all);
      }
      KillNodes(curNode, |nodes| - curNode);
    }

    /**
     The second pass of `patchDisplay`: the lines of `from..to` for which there is no node are put in. `shown` are the
     lines of `doc`, but for those that have nodes, where it is what the nodes show.
     */
    method FillLines(from: nat, to: nat, intact: seq<Range>, doc: seq<T>, ghost shown: seq<T>)
      requires from <= to <= |doc| && Tidy(intact, from, to, shown) && nodes == LinesTo(intact, |intact|, shown)
      requires Outside(shown, doc, intact, from, to)
      modifies this`nodes
      ensures to <= |shown| && nodes == shown[from..to]
    {
      var next := 0;  // `nextIntact` is intact[next]; the ranges before it have been shifted out
      var curNode := 0;
      AheadStart(nodes, intact, from, to, shown);
      for j := from to to
        invariant Ahead(nodes, curNode, intact, next, from, j, to, shown)
      {
        next := FillLine(j, curNode, intact, next, from, to, doc, shown);
        curNode := curNode + 1;
      }
      AheadEnd(nodes, curNode, intact, next, from, to, shown);
    }

    method FillLine(j: nat, curNode: int, intact: seq<Range>, next0: nat, ghost from: nat, ghost to: nat, doc: seq<T>,
                    ghost shown: seq<T>) returns (next: nat)
      requires Ahead(nodes, curNode, intact, next0, from, j, to, shown) && from <= j < to <= |doc| &&
        Outside(shown, doc, intact, from, to)
      modifies this`nodes
      ensures Ahead(nodes, curNode + 1, intact, next, from, j + 1, to, shown)
    {
      next := next0;
      if next < |intact| && intact[next].to == j {
        AheadShift(nodes, curNode, intact, next, from, j, to, shown);
        next := next + 1;
      }
      if next >= |intact| || intact[next].from > j {
        AheadInsert(nodes, curNode, intact, next, from, j, to, shown);
        AheadMissing(nodes, curNode, intact, next, from, j, to, shown, doc);
        nodes := nodes[..curNode] + [doc[j]] + nodes[curNode..];
      } else {
        AheadKeep(nodes, curNode, intact, next, from, j, to, shown);
      }
    }

    method PatchDisplay(from: nat, to: nat, intact: seq<Range>, doc: seq<T>, ghost shown: seq<T>)
      requires from <= to <= |doc| && Sorted(intact) && NonEmpty(intact) && Within(intact, from, to) &&
        Right(intact, nodes, shown) && Outside(shown, doc, intact, from, to)
      modifies this`nodes
      ensures to <= |shown| && nodes == shown[from..to]
    {
      RightWithin(intact, nodes, shown);
      RemoveStale(intact, shown);
      FillLines(from, to, intact, doc, shown);
    }

    /** There are as many nodes as lines shown. */
    ghost predicate Numbered()
      reads this
    {
      Counts(nodes, showingFrom, showingTo)
    }

    /**
     `updateDisplay`; the lines `visFrom..visTo` are visible, `hidden` says that the editor has no width. The result
     BadPatch stands for the error that the source raises when the number of nodes is wrong. Whatever the nodes show,
     those that the log says are intact are kept, and the others are drawn.
     */
    method UpdateDisplay(doc: seq<T>, changes: Changes, hidden: bool, visFrom: nat, visTo: nat)
      returns (r: Outcome)
      requires |doc| >= 1 && visFrom <= visTo <= |doc|
      requires Numbered() && SoundChanges(changes)
      modifies this
      ensures r != BadPatch && Numbered()
      ensures r == Hidden <==> hidden
      ensures r == Hidden ==> showingFrom == showingTo == 0
      ensures r != Patched ==> nodes == old(nodes)
      ensures r == Kept ==> showingFrom == old(showingFrom) && showingTo == old(showingTo)
      ensures r == Patched || (r == Kept && changes != Log([])) ==> showingTo <= |doc|
      ensures r != Hidden ==> |nodes| == showingTo - showingFrom && (showingTo <= |doc| ==>
        nodes == Overlay(doc, changes, old(nodes), old(showingFrom), old(showingTo))[showingFrom..showingTo])
      ensures r != Hidden ==> showingFrom <= visFrom && visTo <= showingTo
      ensures r == Patched ==> visFrom - showingFrom < 120 && showingTo - visTo < 120
      ensures r == Patched ==>
        (showingFrom == 0 || showingFrom + 100 <= visFrom) && (showingTo == |doc| || visTo + 100 <= showingTo)
    {
      if hidden {
        showingFrom, showingTo := 0, 0;
        return Hidden;
      }
      if changes.Log? && |changes.log| == 0 && visFrom > showingFrom && visTo < showingTo {
        if showingTo <= |doc| { OverlaySame(doc, changes, nodes, showingFrom, showingTo); }
        return Kept;
      }
      var from: nat := if visFrom > 100 then visFrom - 100 else 0;
      var to: nat := if visTo + 100 < |doc| then visTo + 100 else |doc|;
      if showingFrom < from && from - showingFrom < 20 { from := showingFrom; }
      if showingTo > to && showingTo - to < 20 { to := if showingTo < |doc| then showingTo else |doc|; }
      r := Redraw(doc, changes, from, to);
    }

    /** The lines `from..to` are shown; `to` is positive. */
    method Redraw(doc: seq<T>, changes: Changes, from: nat, to: nat) returns (r: Outcome)
      requires from <= to <= |doc| && to > 0
      requires Numbered() && SoundChanges(changes)
      modifies this
      ensures r == Patched ||
        (r == Kept && nodes == old(nodes) && showingFrom == old(showingFrom) && showingTo == old(showingTo))
      ensures showingFrom == from && showingTo == to && |nodes| == to - from
      ensures nodes == Overlay(doc, changes, old(nodes), old(showingFrom), old(showingTo))[from..to]
    {
      var intact := [];
      if changes.Log? {
        intact := ComputeIntact([Range(showingFrom, showingTo, 0)], changes.log);
      }
      var intactLines;
      ghost var all := intact;
      intact, intactLines := ClipRanges(intact, from, to);
      ghost var shown := Overlay(doc, changes, nodes, showingFrom, showingTo);
      ClippedRight(nodes, showingFrom, showingTo, changes, doc, from, to, all);
      if intactLines == to - from && from == showingFrom && to == showingTo {
        AllIntact(intact, nodes, shown, from, to);
        return Kept;
      }
      PatchDisplay(from, to, intact, doc, shown);
      showingFrom, showingTo := from, to;
      r := if |nodes| != showingTo - showingFrom then BadPatch else Patched;
    }
  }

  // ----- the first pass -----

  /** The nodes before `curNode` are `done`, those after it `rest`. */
  ghost predicate Passed<T>(nodes: seq<T>, curNode: int, done: seq<T>, rest: seq<T>) {
    true == (curNode == |done| && nodes == done + rest)
  }

  lemma PassedKill<T>(nodes: seq<T>, curNode: int, done: seq<T>, all: seq<T>, a: nat, b: nat)
    requires a <= b <= |all| && Passed(nodes, curNode, done, all[a..])
    ensures curNode + (b - a) <= |nodes| && 0 <= curNode
    ensures Passed(nodes[..curNode] + nodes[curNode + (b - a)..], curNode, done, all[b..])
  {
  }

  lemma PassedRange<T>(nodes: seq<T>, curNode: int, rs: seq<Range>, i: nat, doc: seq<T>, all: seq<T>)
    requires i < |rs| && Within(rs, 0, |doc|) && Right(rs, all, doc)
    requires Passed(nodes, curNode, LinesTo(rs, i, doc), all[rs[i].domStart..])
    ensures var e := rs[i].domStart + (rs[i].to - rs[i].from);
            e <= |all| && Passed(nodes, curNode + (rs[i].to - rs[i].from), LinesTo(rs, i + 1, doc), all[e..])
  {
    assert RightRange(rs[i], all, doc);
    PassedSkip(nodes, curNode, LinesTo(rs, i, doc), all, rs[i].domStart, rs[i].to - rs[i].from);
  }

  lemma PassedSkip<T>(nodes: seq<T>, curNode: int, done: seq<T>, all: seq<T>, a: nat, n: nat)
    requires a + n <= |all| && Passed(nodes, curNode, done, all[a..])
    ensures Passed(nodes, curNode + n, done + all[a..a + n], all[a + n..])
  {
    assert all[a..] == all[a..a + n] + all[a + n..];
  }

  // ----- the second pass -----

  ghost predicate Tidy<T>(rs: seq<Range>, from: int, to: int, doc: seq<T>) {
    Sorted(rs) && NonEmpty(rs) && Within(rs, from, to) && Within(rs, 0, |doc|)
  }

  /** The nodes for the lines from `j` on, where range `q` may have begun before. */
  function Rest<T>(rs: seq<Range>, q: nat, j: int, doc: seq<T>): seq<T>
    requires q <= |rs| && Within(rs, 0, |doc|) && (q < |rs| ==> 0 <= j <= rs[q].to)
  {
    if q == |rs| then [] else doc[if j > rs[q].from then j else rs[q].from..rs[q].to] + LinesFrom(rs, q + 1, doc)
  }

  ghost predicate Ahead<T>(nodes: seq<T>, curNode: int, rs: seq<Range>, q: nat, from: int, j: int, to: int,
                           doc: seq<T>) {
    true == (0 <= from <= j <= to <= |doc| && curNode == j - from && q <= |rs| && Tidy(rs, from, to, doc) &&
      (q < |rs| ==> j <= rs[q].to) && (q > 0 ==> rs[q - 1].to <= j) && nodes == doc[from..j] + Rest(rs, q, j, doc))
  }

  lemma AheadStart<T>(nodes: seq<T>, rs: seq<Range>, from: int, to: int, doc: seq<T>)
    requires 0 <= from <= to <= |doc| && Tidy(rs, from, to, doc) && nodes == LinesTo(rs, |rs|, doc)
    ensures Ahead(nodes, 0, rs, 0, from, from, to, doc)
  {
    LinesSplit(rs, |rs|, doc);
    assert LinesFrom(rs, |rs|, doc) == [] && LinesTo(rs, |rs|, doc) + [] == LinesTo(rs, |rs|, doc);
    assert doc[from..from] == [] && [] + LinesFrom(rs, 0, doc) == LinesFrom(rs, 0, doc);
    if rs != [] { assert from <= rs[0].from <= rs[0].to; }
  }

  lemma AheadShift<T>(nodes: seq<T>, curNode: int, rs: seq<Range>, q: nat, from: int, j: int, to: int, doc: seq<T>)
    requires Ahead(nodes, curNode, rs, q, from, j, to, doc) && q < |rs| && rs[q].to == j
    ensures Ahead(nodes, curNode, rs, q + 1, from, j, to, doc) && (q + 1 < |rs| ==> j < rs[q + 1].to)
  {
    if q + 1 < |rs| {
      assert Before(rs[q], rs[q + 1]) && rs[q + 1].from < rs[q + 1].to;
    }
    var l := LinesFrom(rs, q + 1, doc);
    assert doc[j..j] == [] && [] + l == l;
    assert rs[q].from <= rs[q].to;
  }

  lemma AheadInsert<T>(nodes: seq<T>, curNode: int, rs: seq<Range>, q: nat, from: int, j: int, to: int, doc: seq<T>)
    requires Ahead(nodes, curNode, rs, q, from, j, to, doc) && j < to && (q == |rs| || rs[q].from > j)
    ensures 0 <= curNode <= |nodes| && Ahead(nodes[..curNode] + [doc[j]] + nodes[curNode..], curNode + 1, rs, q, from,
      j + 1, to, doc)
  {
    assert q == |rs| || rs[q].from < rs[q].to;
    var r := Rest(rs, q, j, doc);
    assert Rest(rs, q, j + 1, doc) == r;
    PutBetween(nodes, doc[from..j], doc[j], r);
    assert doc[from..j] + [doc[j]] == doc[from..j + 1];
  }

  lemma PutBetween<T>(nodes: seq<T>, a: seq<T>, x: T, r: seq<T>)
    requires nodes == a + r
    ensures nodes[..|a|] + [x] + nodes[|a|..] == a + [x] + r
  {
  }

  /** No range claims line `j`, so that it is drawn. */
  lemma AheadMissing<T>(nodes: seq<T>, curNode: int, rs: seq<Range>, q: nat, from: nat, j: int, to: nat, shown: seq<T>,
                        doc: seq<T>)
    requires Ahead(nodes, curNode, rs, q, from, j, to, shown) && j < to && (q == |rs| || rs[q].from > j)
    requires Outside(shown, doc, rs, from, to)
    ensures 0 <= j < |doc| && doc[j] == shown[j]
  {
    forall i | 0 <= i < |rs| ensures !(rs[i].from <= j < rs[i].to) {
      if i < q - 1 { assert Before(rs[i], rs[q - 1]); }
      if q < i { assert Before(rs[q], rs[i]); }
    }
    assert !Claimed(rs, j);
  }

  lemma AheadKeep<T>(nodes: seq<T>, curNode: int, rs: seq<Range>, q: nat, from: int, j: int, to: int, doc: seq<T>)
    requires Ahead(nodes, curNode, rs, q, from, j, to, doc) && j < to && q < |rs| && rs[q].from <= j < rs[q].to
    ensures Ahead(nodes, curNode + 1, rs, q, from, j + 1, to, doc)
  {
    var l := LinesFrom(rs, q + 1, doc);
    Slide(doc, from, j, rs[q].to, l);
  }

  lemma Slide<T>(doc: seq<T>, from: nat, j: nat, to: nat, l: seq<T>)
    requires from <= j < to <= |doc|
    ensures doc[from..j] + (doc[j..to] + l) == doc[from..j + 1] + (doc[j + 1..to] + l)
  {
    assert doc[from..j + 1] == doc[from..j] + [doc[j]] && doc[j..to] == [doc[j]] + doc[j + 1..to];
  }

  lemma AheadEnd<T>(nodes: seq<T>, curNode: int, rs: seq<Range>, q: nat, from: int, to: int, doc: seq<T>)
    requires Ahead(nodes, curNode, rs, q, from, to, to, doc)
    ensures nodes == doc[from..to]
  {
    if q < |rs| {
      assert rs[q].from < rs[q].to <= to;
      assert q + 1 == |rs| by {
        if q + 1 < |rs| { assert false; }
      }
    }
  }
}
