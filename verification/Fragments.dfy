/** A line of text cut into fragments with a style each, as the highlighter leaves it. */
module Fragments {
  import opened Sequences

  /** The text of the fragments. */
  function TokenText<S>(st: seq<(string, S)>): string {
    if st == [] then "" else st[0].0 + TokenText(st[1..])
  }

  function Repeat<S>(n: nat, style: S): (r: seq<S>)
    ensures |r| == n && forall i :: 0 <= i < n ==> r[i] == style
  {
    seq(n, i => style)
  }

  /** The style of every character. */
  function TokenStyles<S>(st: seq<(string, S)>): (r: seq<S>)
    ensures |r| == |TokenText(st)|
  {
    if st == [] then [] else Repeat(|st[0].0|, st[0].1) + TokenStyles(st[1..])
  }

  lemma {:induction false} TokenPush<S>(st: seq<(string, S)>, f: (string, S))
    ensures TokenText(st + [f]) == TokenText(st) + f.0
    ensures TokenStyles(st + [f]) == TokenStyles(st) + Repeat(|f.0|, f.1)
  {
    if st == [] {
      assert st + [f] == [f] && [f][1..] == [];
    } else {
      TokenPush(st[1..], f);
      assert (st + [f])[1..] == st[1..] + [f];
    }
  }

  lemma RepeatMore<S>(a: nat, b: nat, style: S)
    ensures Repeat(a, style) + Repeat(b, style) == Repeat(a + b, style)
  {
  }

  /** The last fragment grows. */
  lemma TokenGrow<S>(rest: seq<(string, S)>, last: string, more: string, style: S)
    ensures TokenText(rest + [(last + more, style)]) == TokenText(rest + [(last, style)]) + more
    ensures TokenStyles(rest + [(last + more, style)]) == TokenStyles(rest + [(last, style)]) + Repeat(|more|, style)
  {
    TokenPush(rest, (last + more, style));
    TokenPush(rest, (last, style));
    RepeatMore(|last|, |more|, style);
    Regroup(TokenText(rest), last, more);
    Regroup(TokenStyles(rest), Repeat(|last|, style), Repeat(|more|, style));
  }
}
