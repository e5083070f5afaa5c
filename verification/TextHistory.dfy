/**
 The history of the editor, seen as a history of texts. The entries hold lines with their marks, but what undoing and
 redoing promise is about the text.
 */
module TextHistory {
  import opened Text
  import opened History
  import opened SpanLists

  function ChangeText(c: Change<Stored>): Change<string> {
    Change(c.start, c.added, Texts(c.olds))
  }

  function SetText(cs: seq<Change<Stored>>): (r: seq<Change<string>>)
    ensures |r| == |cs| && forall i :: 0 <= i < |cs| ==> r[i] == ChangeText(cs[i])
  {
    seq(|cs|, i requires 0 <= i < |cs| => ChangeText(cs[i]))
  }

  function SetsText(css: seq<seq<Change<Stored>>>): (r: seq<seq<Change<string>>>)
    ensures |r| == |css| && forall i :: 0 <= i < |css| ==> r[i] == SetText(css[i])
  {
    seq(|css|, i requires 0 <= i < |css| => SetText(css[i]))
  }

  function LogText(h: Log<Stored>): Log<string> {
    Log(SetsText(h.done), SetsText(h.undone), h.compound, h.closed)
  }

  /** The texts of the editor and of its history. */
  function StateText(doc: seq<Stored>, log: Log<Stored>, past: seq<seq<string>>,
                     future: seq<seq<string>>): State<string> {
    State(Texts(doc), LogText(log), past, future)
  }

  // ----- the operations of the history respect texts -----

  lemma RevertText(doc: seq<Stored>, c: Change<Stored>)
    ensures Fits(doc, c) <==> Fits(Texts(doc), ChangeText(c))
    ensures Fits(doc, c) ==> Texts(Revert(doc, c)) == Revert(Texts(doc), ChangeText(c))
    ensures Fits(doc, c) ==> ChangeText(Inverse(doc, c)) == Inverse(Texts(doc), ChangeText(c))
  {
  }

  lemma {:induction false} RevertAllText(doc: seq<Stored>, cs: seq<Change<Stored>>)
    ensures FitsAll(doc, cs) <==> FitsAll(Texts(doc), SetText(cs))
    ensures FitsAll(doc, cs) ==> Texts(RevertAll(doc, cs)) == RevertAll(Texts(doc), SetText(cs))
    ensures FitsAll(doc, cs) ==> SetText(InverseAll(doc, cs)) == InverseAll(Texts(doc), SetText(cs))
    decreases |cs|
  {
    if cs != [] {
      var k := |cs| - 1;
      RevertText(doc, cs[k]);
      assert SetText(cs)[..k] == SetText(cs[..k]);
      if Fits(doc, cs[k]) {
        RevertAllText(Revert(doc, cs[k]), cs[..k]);
      }
    }
  }

  lemma MergeText(last: Change<Stored>, start: nat, added: int, olds: seq<Stored>)
    requires !Apart(last, start, olds)
    ensures !Apart(ChangeText(last), start, Texts(olds))
    ensures ChangeText(Merge(last, start, added, olds)) == Merge(ChangeText(last), start, added, Texts(olds))
  {
    var a := Max(0, last.start - start);
    var b := Max(0, (start + |olds|) - (last.start + last.added));
    TextsConcat(olds[..a], last.olds);
    TextsConcat(olds[..a] + last.olds, olds[|olds| - b..]);
    assert Texts(olds[..a]) == Texts(olds)[..a] && Texts(olds[|olds| - b..]) == Texts(olds)[|olds| - b..];
  }

  lemma AddChangeText(h: Log<Stored>, start: nat, added: int, olds: seq<Stored>, late: bool)
    ensures LogText(AddChange(h, start, added, olds, late)) == AddChange(LogText(h), start, added, Texts(olds), late)
  {
    var n, change := |h.done|, Change(start, added, olds);
    var t := LogText(h);
    if n > 0 {
      SetsTextLast(h.done);
      SetTextPush(h.done[n - 1], change);
      SetsTextPush(h.done[..n - 1], h.done[n - 1] + [change]);
    }
    SetsTextPush(h.done, [change]);
    assert SetText([change]) == [ChangeText(change)];
    if n > 0 && h.done[n - 1] != [] && !Apart(h.done[n - 1][|h.done[n - 1]| - 1], start, olds) {
      var cur := h.done[n - 1];
      var m := |cur| - 1;
      MergeText(cur[m], start, added, olds);
      var c := Merge(cur[m], start, added, olds);
      SetTextPush(cur[..m], c);
      SetsTextPush(h.done[..n - 1], cur[..m] + [c]);
      assert SetText(cur[..m]) == SetText(cur)[..m];
    }
  }

  lemma SetTextPush(cs: seq<Change<Stored>>, c: Change<Stored>)
    ensures SetText(cs + [c]) == SetText(cs) + [ChangeText(c)]
  {
  }

  lemma SetsTextPush(css: seq<seq<Change<Stored>>>, cs: seq<Change<Stored>>)
    ensures SetsText(css + [cs]) == SetsText(css) + [SetText(cs)]
  {
  }

  lemma SetsTextLast(css: seq<seq<Change<Stored>>>)
    requires css != []
    ensures SetsText(css[..|css| - 1]) == SetsText(css)[..|css| - 1]
  {
  }

  // ----- the lists of the lines in the history -----

  ghost predicate SetBelow(cs: seq<Change<Stored>>, n: nat) {
    true == forall i :: 0 <= i < |cs| ==> Below(cs[i].olds, n)
  }

  ghost predicate SetsBelow(css: seq<seq<Change<Stored>>>, n: nat) {
    true == forall i :: 0 <= i < |css| ==> SetBelow(css[i], n)
  }

  /** All lists in the history exist. */
  ghost predicate LogBelow(h: Log<Stored>, n: nat) {
    true == (SetsBelow(h.done, n) && SetsBelow(h.undone, n))
  }

  lemma LogBelowMore(h: Log<Stored>, n: nat, m: nat)
    requires LogBelow(h, n) && n <= m
    ensures LogBelow(h, m)
  {
    assert forall i :: 0 <= i < |h.done| ==> SetBelow(h.done[i], n);
    assert forall i :: 0 <= i < |h.undone| ==> SetBelow(h.undone[i], n);
  }

  lemma SetsBelowPush(css: seq<seq<Change<Stored>>>, cs: seq<Change<Stored>>, n: nat)
    requires SetsBelow(css, n) && SetBelow(cs, n)
    ensures SetsBelow(css + [cs], n)
  {
  }

  lemma SetsBelowPart(css: seq<seq<Change<Stored>>>, i: nat, j: nat, n: nat)
    requires SetsBelow(css, n) && i <= j <= |css|
    ensures SetsBelow(css[i..j], n)
  {
  }

  lemma SetBelowPush(cs: seq<Change<Stored>>, c: Change<Stored>, n: nat)
    requires SetBelow(cs, n) && Below(c.olds, n)
    ensures SetBelow(cs + [c], n)
  {
  }

  lemma BelowConcat(a: seq<Stored>, b: seq<Stored>, n: nat)
    requires Below(a, n) && Below(b, n)
    ensures Below(a + b, n)
  {
  }

  lemma BelowPart(s: seq<Stored>, i: nat, j: nat, n: nat)
    requires Below(s, n) && i <= j <= |s|
    ensures Below(s[i..j], n)
  {
  }

  lemma MergeBelow(last: Change<Stored>, start: nat, added: int, olds: seq<Stored>, n: nat)
    requires !Apart(last, start, olds) && Below(last.olds, n) && Below(olds, n)
    ensures Below(Merge(last, start, added, olds).olds, n)
  {
    var a := Max(0, last.start - start);
    var b := Max(0, (start + |olds|) - (last.start + last.added));
    BelowPart(olds, 0, a, n);
    BelowPart(olds, |olds| - b, |olds|, n);
    BelowConcat(olds[..a], last.olds, n);
    BelowConcat(olds[..a] + last.olds, olds[|olds| - b..], n);
  }

  /** Recording an edit */
  lemma AddChangeBelow(h: Log<Stored>, start: nat, added: int, olds: seq<Stored>, late: bool, n: nat)
    requires LogBelow(h, n) && Below(olds, n)
    ensures LogBelow(AddChange(h, start, added, olds, late), n)
  {
    var d, change := |h.done|, Change(start, added, olds);
    SetBelowPush([], change, n);
    assert [] + [change] == [change];
    SetsBelowPush(h.done, [change], n);
    if d > 0 {
      var cur, rest := h.done[d - 1], h.done[0..d - 1];
      assert SetBelow(cur, n) && rest == h.done[..d - 1];
      SetsBelowPart(h.done, 0, d - 1, n);
      SetBelowPush(cur, change, n);
      SetsBelowPush(rest, cur + [change], n);
      if cur != [] && !Apart(cur[|cur| - 1], start, olds) {
        MergeBelow(cur[|cur| - 1], start, added, olds, n);
        SetBelowPush(cur[..|cur| - 1], Merge(cur[|cur| - 1], start, added, olds), n);
        SetsBelowPush(rest, cur[..|cur| - 1] + [Merge(cur[|cur| - 1], start, added, olds)], n);
      }
    }
  }

  lemma RevertBelow(doc: seq<Stored>, c: Change<Stored>, n: nat)
    requires Fits(doc, c) && Below(doc, n) && Below(c.olds, n)
    ensures Below(Revert(doc, c), n) && Below(Inverse(doc, c).olds, n)
  {
    BelowPart(doc, 0, c.start, n);
    BelowPart(doc, c.start + c.added, |doc|, n);
    BelowPart(doc, c.start, c.start + c.added, n);
    BelowConcat(doc[..c.start], c.olds, n);
    BelowConcat(doc[..c.start] + c.olds, doc[c.start + c.added..], n);
  }

  /** Taking a set back */
  lemma {:induction false} RevertAllBelow(doc: seq<Stored>, cs: seq<Change<Stored>>, n: nat)
    requires FitsAll(doc, cs) && Below(doc, n) && SetBelow(cs, n)
    ensures Below(RevertAll(doc, cs), n) && SetBelow(InverseAll(doc, cs), n)
    decreases |cs|
  {
    if cs != [] {
      var k := |cs| - 1;
      RevertBelow(doc, cs[k], n);
      RevertAllBelow(Revert(doc, cs[k]), cs[..k], n);
    }
  }
}
