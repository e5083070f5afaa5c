/** Sequence algebra shared by the other modules. */
module Sequences {

  /** The sequence with `ls` inserted at index `at`. */
  function Splice<T>(s: seq<T>, at: nat, ls: seq<T>): seq<T>
    requires at <= |s|
  {
    s[..at] + ls + s[at..]
  }

  /** The sequence without the `n` elements from index `at` on. */
  function Cut<T>(s: seq<T>, at: nat, n: nat): seq<T>
    requires at + n <= |s|
  {
    s[..at] + s[at + n..]
  }

  /** Concatenation of a sequence of sequences. */
  function Flat<T>(ps: seq<seq<T>>): seq<T> {
    if ps == [] then [] else ps[0] + Flat(ps[1..])
  }

  function Sum(hs: seq<int>): int {
    if hs == [] then 0 else hs[0] + Sum(hs[1..])
  }

  ghost predicate NoDup<T>(s: seq<T>) {
    forall i, j :: 0 <= i < j < |s| ==> s[i] != s[j]
  }

  ghost function Elems<T>(s: seq<T>): set<T> {
    set x | x in s
  }

  lemma {:induction false} FlatConcat<T>(a: seq<seq<T>>, b: seq<seq<T>>)
    ensures Flat(a + b) == Flat(a) + Flat(b)
  {
    if a == [] {
      assert a + b == b;
    } else {
      assert (a + b)[1..] == a[1..] + b;
      FlatConcat(a[1..], b);
    }
  }

  lemma {:induction false} SumConcat(a: seq<int>, b: seq<int>)
    ensures Sum(a + b) == Sum(a) + Sum(b)
  {
    if a == [] {
      assert a + b == b;
    } else {
      assert (a + b)[1..] == a[1..] + b;
      SumConcat(a[1..], b);
    }
  }

  lemma FlatAround<T>(ps: seq<seq<T>>, i: nat)
    requires i < |ps|
    ensures Flat(ps) == Flat(ps[..i]) + ps[i] + Flat(ps[i + 1..])
  {
    assert ps == ps[..i] + ps[i..];
    FlatConcat(ps[..i], ps[i..]);
  }

  lemma SumAround(hs: seq<int>, i: nat)
    requires i < |hs|
    ensures Sum(hs) == Sum(hs[..i]) + hs[i] + Sum(hs[i + 1..])
  {
    assert hs == hs[..i] + hs[i..];
    SumConcat(hs[..i], hs[i..]);
  }

  lemma FlatUpdate<T>(ps: seq<seq<T>>, i: nat, x: seq<T>)
    requires i < |ps|
    ensures Flat(ps[i := x]) == Flat(ps[..i]) + x + Flat(ps[i + 1..])
  {
    var qs := ps[i := x];
    assert qs[..i] == ps[..i] && qs[i + 1..] == ps[i + 1..];
    FlatAround(qs, i);
  }

  lemma SumUpdate(hs: seq<int>, i: nat, h: int)
    requires i < |hs|
    ensures Sum(hs[i := h]) == Sum(hs) - hs[i] + h
  {
    var qs := hs[i := h];
    assert qs[..i] == hs[..i] && qs[i + 1..] == hs[i + 1..];
    SumAround(qs, i);
    SumAround(hs, i);
  }

  /** Splitting one part in two leaves the concatenation alone. */
  lemma FlatSplit<T>(ps: seq<seq<T>>, i: nat, a: seq<T>, b: seq<T>)
    requires i < |ps| && ps[i] == a + b
    ensures Flat(ps[..i] + [a, b] + ps[i + 1..]) == Flat(ps)
  {
    FlatAround(ps, i);
    FlatConcat(ps[..i] + [a, b], ps[i + 1..]);
    FlatConcat(ps[..i], [a, b]);
    FlatPair(a, b);
  }

  lemma FlatPair<T>(a: seq<T>, b: seq<T>)
    ensures Flat([a, b]) == a + b
  {
    assert [a, b][1..] == [b] && [b][1..] == [];
    assert Flat([b]) == b;
  }

  lemma SumSplit(hs: seq<int>, i: nat, a: int, b: int)
    requires i < |hs| && hs[i] == a + b
    ensures Sum(hs[..i] + [a, b] + hs[i + 1..]) == Sum(hs)
  {
    SumAround(hs, i);
    SumConcat(hs[..i] + [a, b], hs[i + 1..]);
    SumConcat(hs[..i], [a, b]);
    SumConcat([a], [b]);
    assert [a, b] == [a] + [b];
  }

  lemma SumPair(a: int, b: int)
    ensures Sum([a, b]) == a + b
  {
    assert [a, b][1..] == [b] && [b][1..] == [];
    assert Sum([b]) == b;
  }

  /** Inserting into one part inserts into the concatenation. */
  lemma FlatSplice<T>(ps: seq<seq<T>>, i: nat, at: nat, ls: seq<T>)
    requires i < |ps| && at <= |ps[i]|
    ensures |Flat(ps[..i])| + at <= |Flat(ps)|
    ensures Flat(ps[i := Splice(ps[i], at, ls)]) == Splice(Flat(ps), |Flat(ps[..i])| + at, ls)
  {
    FlatAround(ps, i);
    FlatUpdate(ps, i, Splice(ps[i], at, ls));
    SpliceMiddle(Flat(ps[..i]), ps[i], Flat(ps[i + 1..]), at, ls);
  }

  lemma SpliceMiddle<T>(f: seq<T>, p: seq<T>, g: seq<T>, at: nat, ls: seq<T>)
    requires at <= |p|
    ensures Splice(f + p + g, |f| + at, ls) == f + Splice(p, at, ls) + g
  {
    assert (f + p + g)[..|f| + at] == f + p[..at];
    assert (f + p + g)[|f| + at..] == p[at..] + g;
    assert f + (p[..at] + ls + p[at..]) + g == (f + p[..at]) + ls + (p[at..] + g);
  }

  lemma SumSplice(hs: seq<int>, at: nat, ks: seq<int>)
    requires at <= |hs|
    ensures Sum(Splice(hs, at, ks)) == Sum(hs) + Sum(ks)
  {
    assert hs == hs[..at] + hs[at..];
    SumConcat(hs[..at], hs[at..]);
    SumConcat(hs[..at] + ks, hs[at..]);
    SumConcat(hs[..at], ks);
  }

  lemma SumThree(a: seq<int>, b: seq<int>, c: seq<int>)
    ensures Sum(a + b + c) == Sum(a) + Sum(b) + Sum(c) && Sum(a + c) == Sum(a) + Sum(c)
  {
    SumConcat(a + b, c);
    SumConcat(a, b);
    SumConcat(a, c);
  }

  lemma SumCut(hs: seq<int>, at: nat, n: nat)
    requires at + n <= |hs|
    ensures Sum(Cut(hs, at, n)) == Sum(hs) - Sum(hs[at..at + n])
  {
    var a, b, c := hs[..at], hs[at..at + n], hs[at + n..];
    assert hs == a + b + c;
    SumThree(a, b, c);
  }

  /** Cutting from one part cuts from the concatenation. */
  lemma FlatCut<T>(ps: seq<seq<T>>, i: nat, at: nat, n: nat)
    requires i < |ps| && at + n <= |ps[i]|
    ensures |Flat(ps[..i])| + at + n <= |Flat(ps)|
    ensures Flat(ps[i := Cut(ps[i], at, n)]) == Cut(Flat(ps), |Flat(ps[..i])| + at, n)
  {
    FlatAround(ps, i);
    FlatUpdate(ps, i, Cut(ps[i], at, n));
    var f, p, g := Flat(ps[..i]), ps[i], Flat(ps[i + 1..]);
    assert (f + p + g)[..|f| + at] == f + p[..at];
    assert (f + p + g)[|f| + at + n..] == p[at + n..] + g;
    assert f + (p[..at] + p[at + n..]) + g == (f + p[..at]) + (p[at + n..] + g);
  }

  /** Dropping an empty part leaves the concatenation alone. */
  lemma FlatDropEmpty<T>(ps: seq<seq<T>>, i: nat)
    requires i < |ps| && ps[i] == []
    ensures Flat(ps[..i] + ps[i + 1..]) == Flat(ps)
  {
    var a, b := Flat(ps[..i]), Flat(ps[i + 1..]);
    FlatAround(ps, i);
    assert a + ps[i] == a;
    FlatConcat(ps[..i], ps[i + 1..]);
  }

  lemma {:induction false} FlatPrefix<T>(ps: seq<seq<T>>, i: nat)
    requires i < |ps|
    ensures Flat(ps[..i + 1]) == Flat(ps[..i]) + ps[i]
  {
    assert ps[..i + 1] == ps[..i] + [ps[i]];
    FlatConcat(ps[..i], [ps[i]]);
    assert [ps[i]][1..] == [];
  }

  lemma SumPrefix(hs: seq<int>, i: nat)
    requires i < |hs|
    ensures Sum(hs[..i + 1]) == Sum(hs[..i]) + hs[i]
  {
    assert hs[..i + 1] == hs[..i] + [hs[i]];
    SumConcat(hs[..i], [hs[i]]);
  }

  /** Cutting in two steps is cutting once. */
  lemma CutTwice<T>(s: seq<T>, at: nat, a: nat, b: nat)
    requires at + a + b <= |s|
    ensures Cut(Cut(s, at, a), at, b) == Cut(s, at, a + b)
  {
  }

  lemma NoDupCut<T>(s: seq<T>, at: nat, n: nat)
    requires at + n <= |s| && NoDup(s)
    ensures NoDup(Cut(s, at, n))
    ensures forall x :: x in Cut(s, at, n) <==> x in s && x !in s[at..at + n]
  {
    var a, m, b := s[..at], s[at..at + n], s[at + n..];
    assert s == a + m + b;
    forall x | x in m ensures x !in a && x !in b {
      var k :| 0 <= k < n && m[k] == x;
      assert s[at + k] == x;
    }
  }

  lemma NoDupPart<T>(ps: seq<seq<T>>, i: nat)
    requires i < |ps| && NoDup(Flat(ps))
    ensures NoDup(ps[i])
  {
    FlatAround(ps, i);
    var f, n := Flat(ps), |Flat(ps[..i])|;
    forall j, k | 0 <= j < k < |ps[i]| ensures ps[i][j] != ps[i][k] {
      assert f[n + j] == ps[i][j] && f[n + k] == ps[i][k];
    }
  }

  lemma NoDupSplice<T>(s: seq<T>, at: nat, ls: seq<T>)
    requires at <= |s| && NoDup(s) && NoDup(ls)
    requires forall x :: x in ls ==> x !in s
    ensures NoDup(Splice(s, at, ls))
    ensures forall x :: x in Splice(s, at, ls) <==> x in s || x in ls
  {
    assert s == s[..at] + s[at..];
    NoDupConcat(s[..at], ls);
    NoDupConcat(s[..at] + ls, s[at..]);
  }

  lemma NoDupConcat<T>(a: seq<T>, b: seq<T>)
    requires NoDup(a) && NoDup(b)
    requires forall x :: x in a ==> x !in b
    ensures NoDup(a + b)
  {
    forall i, j | 0 <= i < j < |a + b| ensures (a + b)[i] != (a + b)[j] {
      if i < |a| <= j {
        assert a[i] in a && b[j - |a|] in b;
      }
    }
  }

  lemma SliceJoin<T>(s: seq<T>, a: nat, b: nat, c: nat)
    requires a <= b <= c <= |s|
    ensures s[a..b] + s[b..c] == s[a..c]
  {
  }

  lemma SliceSlice<T>(s: seq<T>, o: nat, m: nat, a: nat, n: nat)
    requires o + m <= |s| && a + n <= m
    ensures s[o..o + m][a..a + n] == s[o + a..o + a + n]
  {
    var t := s[o..o + m];
    assert forall k :: a <= k < a + n ==> t[k] == s[o + k];
    assert t[a..a + n] == s[o + a..o + a + n];
  }

  /** The middle of three parts. */
  lemma SliceMiddle<T>(a: seq<T>, b: seq<T>, c: seq<T>)
    ensures (a + b + c)[|a|..|a| + |b|] == b
  {
  }

  lemma Regroup<T>(a: seq<T>, b: seq<T>, c: seq<T>)
    ensures (a + b) + c == a + (b + c)
  {
  }

  lemma SliceAt<T>(s: seq<T>, a: nat, b: nat, ls: seq<T>, i: nat)
    requires a <= b <= |s| && ls == s[a..b] && i < b - a
    ensures ls[i] == s[a + i]
  {
  }

  lemma SpliceAt<T>(s: seq<T>, at: nat, ls: seq<T>, i: nat)
    requires at <= |s| && i < |s| + |ls|
    ensures Splice(s, at, ls)[i] == if i < at then s[i] else if i < at + |ls| then ls[i - at] else s[i - |ls|]
  {
  }

  lemma SingleParts<T>(s: seq<T>, h: int)
    ensures Flat([s]) == s && Sum([h]) == h
  {
    assert [s][1..] == [] && [h][1..] == [];
  }
}
