/** What the tokens of the SPARQL mode are, read off at the characters of the line. */
module SparqlTokens {
  import opened ChunkStore
  import opened Fragments
  import opened Sparql

  // ----- literals -----

  /** The number of backslashes in a row just before `i`, none of them before `a`. */
  function Backslashes(s: string, a: nat, i: nat): nat
    requires a <= i <= |s|
  {
    if a < i && s[i - 1] == '\\' then 1 + Backslashes(s, a, i - 1) else 0
  }

  /** The character at `i` is a quote that no backslash takes away; pairs of backslashes take away one another. */
  predicate Closes(s: string, a: nat, i: nat, quote: char)
    requires a <= i < |s|
  {
    true == (s[i] == quote && Backslashes(s, a, i) % 2 == 0)
  }

  /** From `a` on the literal goes to `b`, behind its closing quote; or to the end of the line if there is none. */
  predicate IsLiteral(s: string, a: nat, b: nat, quote: char, open: Option<char>)
    requires a <= b <= |s|
  {
    true == if open == None
      then a < b && Closes(s, a, b - 1, quote) && forall i :: a <= i < b - 1 ==> !Closes(s, a, i, quote)
      else open == Some(quote) && b == |s| && forall i :: a <= i < b ==> !Closes(s, a, i, quote)
  }

  lemma {:induction false} LiteralFrom(s: string, a: nat, pos: nat, quote: char, escaped: bool)
    requires a <= pos <= |s| && escaped == (Backslashes(s, a, pos) % 2 == 1)
    requires forall i :: a <= i < pos ==> !Closes(s, a, i, quote)
    ensures var r := Literal(s, pos, quote, escaped); IsLiteral(s, a, r.0, quote, r.1)
    decreases |s| - pos
  {
    if pos < |s| && !(s[pos] == quote && !escaped) {
      LiteralFrom(s, a, pos + 1, quote, !escaped && s[pos] == '\\');
    }
  }

  /** A literal ends behind its first quote without a backslash; without such a quote it goes on in the next line. */
  lemma LiteralIs(s: string, a: nat, quote: char)
    requires a <= |s|
    ensures var r := Literal(s, a, quote, false); IsLiteral(s, a, r.0, quote, r.1)
  {
    LiteralFrom(s, a, a, quote, false);
  }

  /** The line "a\"b" is one string. */
  lemma EscapedQuote(s: string)
    requires s == ['\"', 'a', '\\', '\"', 'b', '\"']
    ensures Next(s, 0, None) == Token(6, Str, None, None)
  {
    assert Literal(s, 6, '\"', false) == (6, Some('\"'));
    assert Literal(s, 5, '\"', false) == (6, None);
    assert Literal(s, 4, '\"', false) == (6, None);
    assert Literal(s, 3, '\"', true) == (6, None);
    assert Literal(s, 2, '\"', false) == (6, None);
    assert Literal(s, 1, '\"', false) == (6, None);
  }

  // ----- the other tokens -----

  /** The characters from `a` to `b` are of class `f`, and the next one, if there is one, is not. */
  predicate IsRun(s: string, a: nat, b: nat, f: char -> bool)
    requires a <= b <= |s|
  {
    true == ((forall i :: a <= i < b ==> f(s[i])) && (b < |s| ==> !f(s[b])))
  }

  /** From an opening angle bracket to the closing one, or else up to a space or the end of the line. */
  predicate IsReference(s: string, a: nat, b: nat)
    requires a < b <= |s|
  {
    true == (if b > a + 1 && s[b - 1] == '>'
      then forall i :: a < i < b - 1 ==> IsIri(s[i])
      else IsRun(s, a + 1, b, IsIri) && (b < |s| ==> IsSpace(s[b])))
  }

  predicate OpensReference(s: string, a: nat)
    requires a < |s|
  {
    true == (s[a] == '<' && (a + 1 < |s| ==> !IsSpace(s[a + 1]) && s[a + 1] != '='))
  }

  /** A name with a prefix: the word up to the colon at `c`, and the local name behind it. */
  predicate IsPrefixed(s: string, a: nat, c: nat, b: nat)
    requires a < c < b <= |s|
  {
    true == ((forall i :: a < i < c ==> IsWord(s[i])) && s[c] == ':' && IsRun(s, c + 1, b, IsLocal))
  }

  /** The word from `a` to `b`, which is not followed by a colon, has its style whatever the case of its letters. */
  predicate IsPlainWord(s: string, a: nat, b: nat, style: Style)
    requires a < b <= |s|
  {
    true == (IsRun(s, a + 1, b, IsWord) && (b < |s| ==> s[b] != ':') &&
    style == if LowerAll(s[a..b]) in OPS then Plain else if LowerAll(s[a..b]) in KEYWORDS then Keyword else Variable)
  }

  /** The token at `a`, outside a literal, by its first character. */
  predicate IsBase(s: string, a: nat, t: Token)
    requires a < t.pos <= |s|
  {
    true == (var ch, b := s[a], t.pos;
      (t.punct == if ch in "{}(),.;[]" then Some(ch) else None) && (ch !in "\"'" ==> t.quote == None) &&
      if ch in "$?" then t.style == Variable2 && IsRun(s, a + 1, b, IsWord)
      else if ch in "\"'" then t.style == Str && IsLiteral(s, a + 1, b, ch, t.quote)
      else if OpensReference(s, a) then t.style == Atom && IsReference(s, a, b)
      else if ch in "{}(),.;[]" then t.style == Plain && b == a + 1
      else if ch == '#' then t.style == Comment && b == |s|
      else if ch in "*+-<>=&|" then t.style == Plain && IsRun(s, a + 1, b, IsOperator)
      else if ch == ':' then t.style == Atom && IsRun(s, a + 1, b, IsName)
      else IsPlainWord(s, a, b, t.style) || (t.style == Atom && exists c :: a < c < b && IsPrefixed(s, a, c, b)))
  }

  /** The token at `a`, inside a literal that was opened with `quote`, or outside. */
  predicate IsLexeme(s: string, a: nat, quote: Option<char>, t: Token)
    requires a < |s|
  {
    a < t.pos <= |s| &&
    if IsSpace(s[a]) then t == Token(t.pos, Plain, None, quote) && IsRun(s, a, t.pos, IsSpace)
    else if quote == None then IsBase(s, a, t)
    else t == Token(t.pos, Str, None, t.quote) && IsLiteral(s, a, t.pos, quote.value, t.quote)
  }

  lemma BaseIs(s: string, a: nat)
    requires a < |s|
    ensures IsBase(s, a, Base(s, a))
  {
    var ch, t := s[a], Base(s, a);
    if ch in "\"'" {
      LiteralIs(s, a + 1, ch);
    } else if ch !in "$?" && !OpensReference(s, a) && !IsPunct(ch) && ch != '#' && !IsOperator(ch) && ch != ':' {
      WordIs(s, a);
    }
  }

  lemma WordIs(s: string, a: nat)
    requires a < |s|
    ensures var w := WordEnd(s, a, a + 1);
            IsPlainWord(s, a, w.0, w.1) || (w.1 == Atom && exists c :: a < c < w.0 && IsPrefixed(s, a, c, w.0))
  {
    var w, q := WordEnd(s, a, a + 1), While(s, a + 1, IsWord);
    if q < |s| && s[q] == ':' { assert IsPrefixed(s, a, q, w.0); }
  }

  /** Each token is what its characters say. */
  lemma TokenIs(s: string, a: nat, quote: Option<char>)
    requires a < |s|
    ensures IsLexeme(s, a, quote, Next(s, a, quote))
  {
    if !IsSpace(s[a]) {
      if quote == None { BaseIs(s, a); } else { LiteralIs(s, a, quote.value); }
    }
  }

  // ----- the description leaves no choice -----

  lemma OneRun(s: string, a: nat, b: nat, c: nat, f: char -> bool)
    requires a <= b <= |s| && a <= c <= |s| && IsRun(s, a, b, f) && IsRun(s, a, c, f)
    ensures b == c
  {
  }

  lemma OneLiteral(s: string, a: nat, b: nat, c: nat, quote: char, p: Option<char>, q: Option<char>)
    requires a <= b <= |s| && a <= c <= |s| && IsLiteral(s, a, b, quote, p) && IsLiteral(s, a, c, quote, q)
    ensures b == c && p == q
  {
  }

  lemma OneReference(s: string, a: nat, b: nat, c: nat)
    requires a < b <= |s| && a < c <= |s| && IsReference(s, a, b) && IsReference(s, a, c)
    ensures b == c
  {
  }

  lemma OneWord(s: string, a: nat, t: Token, u: Token)
    requires a < |s| && a < t.pos <= |s| && a < u.pos <= |s|
    requires IsPlainWord(s, a, t.pos, t.style) ||
      (t.style == Atom && exists c :: a < c < t.pos && IsPrefixed(s, a, c, t.pos))
    requires IsPlainWord(s, a, u.pos, u.style) ||
      (u.style == Atom && exists c :: a < c < u.pos && IsPrefixed(s, a, c, u.pos))
    ensures t.pos == u.pos && t.style == u.style
  {
  }

  /** Two tokens that fit the same characters are the same. */
  lemma OneToken(s: string, a: nat, quote: Option<char>, t: Token, u: Token)
    requires a < |s| && IsLexeme(s, a, quote, t) && IsLexeme(s, a, quote, u)
    ensures t == u
  {
    var ch := s[a];
    if IsSpace(ch) {
      OneRun(s, a, t.pos, u.pos, IsSpace);
    } else if quote.Some? {
      OneLiteral(s, a, t.pos, u.pos, quote.value, t.quote, u.quote);
    } else if ch in "$?" {
      OneRun(s, a + 1, t.pos, u.pos, IsWord);
    } else if ch in "\"'" {
      OneLiteral(s, a + 1, t.pos, u.pos, ch, t.quote, u.quote);
    } else if OpensReference(s, a) {
      OneReference(s, a, t.pos, u.pos);
    } else if ch !in "{}(),.;[]" && ch != '#' {
      if ch in "*+-<>=&|" {
        OneRun(s, a + 1, t.pos, u.pos, IsOperator);
      } else if ch == ':' {
        OneRun(s, a + 1, t.pos, u.pos, IsName);
      } else {
        OneWord(s, a, t, u);
      }
    }
  }

  // ----- brackets -----

  /** An opening bracket waits for its own closer; a closer that does not fit the innermost bracket is ignored. */
  lemma BracketsPair(open: seq<char>, c: char)
    ensures Open(open, Some('(')) == open + [')'] && Open(open, Some('[')) == open + [']'] &&
      Open(open, Some('{')) == open + ['}'] && Open(open, None) == open
    ensures IsCloser(c) ==> Open(open + [c], Some(c)) == open
    ensures IsCloser(c) && (open == [] || open[|open| - 1] != c) ==> Open(open, Some(c)) == open
  {
    var more := open + [c];
    assert more[..|more| - 1] == open && more[|more| - 1] == c;
  }

  predicate IsTerm(style: Style) {
    style == Atom || style == Str || style == Variable || style == Variable2
  }

  predicate InPattern(cs: seq<Context>) {
    cs != [] && cs[|cs| - 1] == Pattern
  }

  /**
   A pattern begins with an atom, a string or a variable directly in braces or square brackets, and it ends with a full
   stop or with the brackets around it; other tokens outside brackets leave the contexts as they are.
   */
  lemma PatternsFollow(cs: seq<Context>, style: Style)
    ensures Contexts(cs, None, style) == if IsTerm(style) && OnBracket(cs) then cs + [Pattern] else cs
    ensures !IsTerm(style) ==> Contexts(cs, Some('.'), style) == if InPattern(cs) then cs[..|cs| - 1] else cs
    ensures !IsTerm(style) ==> Contexts(cs, Some(','), style) == Contexts(cs, Some(';'), style) == cs
  {
  }

  // ----- lines -----

  /**
   The tokens of a line from `pos` on, one after the other, up to the end of the line or to the first that ends behind
   character 5000.
   */
  ghost predicate AreTokens(ts: seq<Token>, s: string, pos: nat, quote: Option<char>)
    requires pos <= |s|
    decreases |ts|
  {
    if ts == [] then pos == |s|
    else pos < |s| && IsLexeme(s, pos, quote, ts[0]) &&
         if ts[0].pos > 5000 then |ts| == 1 else AreTokens(ts[1..], s, ts[0].pos, ts[0].quote)
  }

  /** The brackets that are open after the tokens. */
  function OpenAfter(open: seq<char>, ts: seq<Token>): seq<char>
    decreases |ts|
  {
    if ts == [] then open else OpenAfter(Open(open, ts[0].punct), ts[1..])
  }

  /** Character `i` has the style of the token that it belongs to, or none behind the last token. */
  ghost predicate Styled(styles: seq<Style>, ts: seq<Token>, pos: nat)
    decreases |ts|
  {
    if ts == [] then forall i :: 0 <= i < |styles| ==> styles[i] == Plain
    else pos <= ts[0].pos <= pos + |styles| && (forall i :: 0 <= i < ts[0].pos - pos ==> styles[i] == ts[0].style) &&
         Styled(styles[ts[0].pos - pos..], ts[1..], ts[0].pos)
  }

  /** The styles of a line, and the state after it, are those of its tokens. */
  lemma {:induction false} LineIs(s: string, pos: nat, quote: Option<char>, open: seq<char>) returns (ts: seq<Token>)
    requires pos <= |s|
    ensures AreTokens(ts, s, pos, quote) && Styled(LineStyles(s, pos, quote), ts, pos)
    ensures LineState(s, pos, quote, open) == (if ts == [] then quote else ts[|ts| - 1].quote, OpenAfter(open, ts))
    decreases |s| - pos
  {
    if pos == |s| { return []; }
    var t := Next(s, pos, quote);
    TokenIs(s, pos, quote);
    if t.pos > 5000 {
      ts := [t];
      LineCut(s, pos, quote, t);
    } else {
      var us := LineIs(s, t.pos, t.quote, Open(open, t.punct));
      ts := [t] + us;
      LineMore(s, pos, quote, t, us);
      assert ts[1..] == us;
    }
  }

  lemma LineCut(s: string, pos: nat, quote: Option<char>, t: Token)
    requires pos < |s| && t == Next(s, pos, quote) && t.pos > 5000
    ensures Styled(LineStyles(s, pos, quote), [t], pos)
  {
    var styles := LineStyles(s, pos, quote);
    assert styles[t.pos - pos..] == Repeat(|s| - t.pos, Plain);
  }

  lemma LineMore(s: string, pos: nat, quote: Option<char>, t: Token, us: seq<Token>)
    requires pos < |s| && t == Next(s, pos, quote) && t.pos <= 5000 && Styled(LineStyles(s, t.pos, t.quote), us, t.pos)
    ensures Styled(LineStyles(s, pos, quote), [t] + us, pos)
  {
    var styles := LineStyles(s, pos, quote);
    assert ([t] + us)[1..] == us && styles[t.pos - pos..] == LineStyles(s, t.pos, t.quote);
  }
}
