/** The tokenizer for SPARQL, its stack of contexts, and the highlighting of lines with it. */
module Sparql {
  import opened ChunkStore
  import opened Fragments
  import opened Sequences

  // ----- characters -----

  predicate IsSpace(c: char) {
    c == ' ' || ('\t' <= c <= '\r') || c == '\U{00a0}' || c == '\U{1680}' || ('\U{2000}' <= c <= '\U{200a}') ||
    c == '\U{2028}' || c == '\U{2029}' || c == '\U{202f}' || c == '\U{205f}' || c == '\U{3000}' || c == '\U{feff}'
  }

  predicate IsWord(c: char) {
    ('a' <= c <= 'z') || ('A' <= c <= 'Z') || ('0' <= c <= '9') || c == '_'
  }

  predicate IsPunct(c: char) {
    c in "{}(),.;[]"
  }

  predicate IsOperator(c: char) {
    c in "*+-<>=&|"
  }

  predicate IsIri(c: char) {
    !IsSpace(c) && c != '>'
  }

  predicate IsName(c: char) {
    IsWord(c) || c == '.' || c == '-'
  }

  predicate IsLocal(c: char) {
    IsWord(c) || c == '-'
  }

  function Lower(c: char): char {
    if 'A' <= c <= 'Z' then ((c as int) + 32) as char else c
  }

  function LowerAll(s: string): string {
    seq(|s|, i requires 0 <= i < |s| => Lower(s[i]))
  }

  const OPS := {"str", "lang", "langmatches", "datatype", "bound", "sameterm", "isiri", "isuri", "isblank",
  "isliteral", "union", "a"}

  const KEYWORDS := {"base", "prefix", "select", "distinct", "reduced", "construct", "describe", "ask", "from",
  "named", "where",
                     "order", "limit", "offset", "filter", "optional", "graph", "by", "asc", "desc"}

  // ----- tokens, as a function of the text -----

  datatype Style = Plain | Atom | Str | Variable | Variable2 | Comment | Keyword

  /** A token ends at `pos`; `punct` if it is punctuation; `quote` if the text after it is inside a literal. */
  datatype Token = Token(pos: nat, style: Style, punct: Option<char>, quote: Option<char>)

  /** The end of the run of characters of class `f` from `pos` on. */
  function While(s: string, pos: nat, f: char -> bool): (r: nat)
    requires pos <= |s|
    ensures pos <= r <= |s| && (forall i :: pos <= i < r ==> f(s[i])) && (r < |s| ==> !f(s[r]))
    decreases |s| - pos
  {
    if pos < |s| && f(s[pos]) then While(s, pos + 1, f) else pos
  }

  /** The end of a literal: behind the first quote without a backslash, or the end of the line. */
  function Literal(s: string, pos: nat, quote: char, escaped: bool): (r: (nat, Option<char>))
    requires pos <= |s|
    ensures pos <= r.0 <= |s| && (pos < |s| ==> pos < r.0)
    decreases |s| - pos
  {
    if pos == |s| then (pos, Some(quote))
    else if s[pos] == quote && !escaped then (pos + 1, None)
    else Literal(s, pos + 1, quote, !escaped && s[pos] == '\\')
  }

  function Word(s: string, start: nat, pos: nat): Style
    requires start <= pos <= |s|
  {
    var word := LowerAll(s[start..pos]);
    if word in OPS then Plain else if word in KEYWORDS then Keyword else Variable
  }

  /** `tokenBase` */
  function Base(s: string, start: nat): (t: Token)
    requires start < |s|
    ensures start < t.pos <= |s| && (t.punct.Some? ==> t.quote == None && t.style == Plain)
  {
    var ch, p := s[start], start + 1;
    if ch == '$' || ch == '?' then Token(While(s, p, IsWord), Variable2, None, None)
    else if ch == '<' && !(p < |s| && (IsSpace(s[p]) || s[p] == '=')) then
      var q := While(s, p, IsIri);
      Token(if q < |s| && s[q] == '>' then q + 1 else q, Atom, None, None)
    else if ch == '\"' || ch == '\'' then
      var l := Literal(s, p, ch, false);
      Token(l.0, Str, None, l.1)
    else if IsPunct(ch) then Token(p, Plain, Some(ch), None)
    else if ch == '#' then Token(|s|, Comment, None, None)
    else if IsOperator(ch) then Token(While(s, p, IsOperator), Plain, None, None)
    else if ch == ':' then Token(While(s, p, IsName), Atom, None, None)
    else
      var w := WordEnd(s, start, p);
      Token(w.0, w.1, None, None)
  }

  function WordEnd(s: string, start: nat, p: nat): (r: (nat, Style))
    requires start <= p <= |s|
    ensures p <= r.0 <= |s|
  {
    var q := While(s, p, IsWord);
    if q < |s| && s[q] == ':' then (While(s, q + 1, IsLocal), Atom) else (q, Word(s, start, q))
  }

  /** The token at `start`, where `quote` says whether that is inside a literal. */
  function Next(s: string, start: nat, quote: Option<char>): (t: Token)
    requires start < |s|
    ensures start < t.pos <= |s|
  {
    if IsSpace(s[start]) then Token(While(s, start, IsSpace), Plain, None, quote)
    else match quote
      case Some(q) => var l := Literal(s, start, q, false); Token(l.0, Str, None, l.1)
      case None => Base(s, start)
  }

  // ----- contexts -----

  datatype Context = Pattern | Closes(c: char)

  /** The stack of contexts after a token; the innermost context is the last. */
  function Contexts(cs: seq<Context>, punct: Option<char>, style: Style): seq<Context> {
    if punct == Some('(') then cs + [Closes(')')]
    else if punct == Some('[') then cs + [Closes(']')]
    else if punct == Some('{') then cs + [Closes('}')]
    else if punct.Some? && punct.value in "]})" then
      var ds := DropPatterns(cs);
      if ds != [] && ds[|ds| - 1] == Closes(punct.value) then ds[..|ds| - 1] else ds
    else if punct == Some('.') && cs != [] && cs[|cs| - 1] == Pattern then cs[..|cs| - 1]
    else if (style == Atom || style == Str || style == Variable || style == Variable2) && OnBracket(cs) then
    cs + [Pattern]
    else cs
  }

  function DropPatterns(cs: seq<Context>): seq<Context> {
    if cs != [] && cs[|cs| - 1] == Pattern then DropPatterns(cs[..|cs| - 1]) else cs
  }

  // ----- a plain matcher of brackets -----

  /** The closers of the open brackets after a token; a closer that does not match is ignored. */
  function Open(open: seq<char>, punct: Option<char>): seq<char> {
    if punct == Some('(') then open + [')']
    else if punct == Some('[') then open + [']']
    else if punct == Some('{') then open + ['}']
    else if punct.Some? && open != [] && open[|open| - 1] == punct.value then open[..|open| - 1]
    else open
  }

  /** The brackets of the contexts. */
  function Brackets(cs: seq<Context>): seq<char> {
    if cs == [] then [] else
      var k := |cs| - 1;
      match cs[k] case Pattern => Brackets(cs[..k]) case Closes(c) => Brackets(cs[..k]) + [c]
  }

  predicate OnBracket(cs: seq<Context>) {
    cs != [] && (cs[|cs| - 1] == Closes('}') || cs[|cs| - 1] == Closes(']'))
  }

  predicate IsCloser(c: char) {
    c == ')' || c == ']' || c == '}'
  }

  /** Every pattern lies directly on a brace or a square bracket. */
  predicate PatternsOk(cs: seq<Context>) {
    cs == [] || (
      var k := |cs| - 1;
      PatternsOk(cs[..k]) && match cs[k] case Pattern => OnBracket(cs[..k]) case Closes(c) => IsCloser(c))
  }

  lemma Push(cs: seq<Context>, c: Context)
    ensures Brackets(cs + [c]) == Brackets(cs) + match c case Pattern => [] case Closes(x) => [x]
    ensures PatternsOk(cs + [c]) <==>
      PatternsOk(cs) && match c case Pattern => OnBracket(cs) case Closes(x) => IsCloser(x)
  {
    assert (cs + [c])[..|cs|] == cs;
  }

  lemma {:induction false} BracketsDrop(cs: seq<Context>)
    requires PatternsOk(cs)
    ensures var ds := DropPatterns(cs);
            Brackets(ds) == Brackets(cs) && PatternsOk(ds) && |ds| <= |cs| && (ds != [] ==> ds[|ds| - 1].Closes?)
  {
    if cs != [] && cs[|cs| - 1] == Pattern { BracketsDrop(cs[..|cs| - 1]); }
  }

  lemma {:induction false} BracketsAre(cs: seq<Context>)
    requires PatternsOk(cs)
    ensures forall i :: 0 <= i < |Brackets(cs)| ==> IsCloser(Brackets(cs)[i])
  {
    if cs != [] { BracketsAre(cs[..|cs| - 1]); }
  }

  lemma OpenFollows(cs: seq<Context>, c: char, style: Style)
    requires PatternsOk(cs) && (c == '(' || c == '[' || c == '{')
    ensures var ds := Contexts(cs, Some(c), style); PatternsOk(ds) && Brackets(ds) == Open(Brackets(cs), Some(c))
  {
    Push(cs, Closes(if c == '(' then ')' else if c == '[' then ']' else '}'));
  }

  lemma CloseFollows(cs: seq<Context>, c: char, style: Style)
    requires PatternsOk(cs) && IsCloser(c)
    ensures var ds := Contexts(cs, Some(c), style); PatternsOk(ds) && Brackets(ds) == Open(Brackets(cs), Some(c))
  {
    BracketsDrop(cs);
    var ds := DropPatterns(cs);
    assert Contexts(cs, Some(c), style) == if ds != [] && ds[|ds| - 1] == Closes(c) then ds[..|ds| - 1] else ds;
  }

  lemma OtherFollows(cs: seq<Context>, punct: Option<char>, style: Style)
    requires PatternsOk(cs) && (punct.Some? ==> !IsCloser(punct.value) && punct.value !in "([{")
    ensures var ds := Contexts(cs, punct, style); PatternsOk(ds) && Brackets(ds) == Brackets(cs)
  {
    Push(cs, Pattern);
    assert Brackets(cs) + [] == Brackets(cs);
  }

  lemma OpenOther(open: seq<char>, punct: Option<char>)
    requires (forall i :: 0 <= i < |open| ==> IsCloser(open[i])) &&
      (punct.Some? ==> !IsCloser(punct.value) && punct.value !in "([{")
    ensures Open(open, punct) == open
  {
    if open != [] { assert IsCloser(open[|open| - 1]); }
  }

  /** The contexts follow the plain matcher, one token after the other. */
  lemma ContextsFollow(cs: seq<Context>, punct: Option<char>, style: Style)
    requires PatternsOk(cs)
    ensures var ds := Contexts(cs, punct, style); PatternsOk(ds) && Brackets(ds) == Open(Brackets(cs), punct)
  {
    if punct.Some? && punct.value in "([{" {
      OpenFollows(cs, punct.value, style);
    } else if punct.Some? && IsCloser(punct.value) {
      CloseFollows(cs, punct.value, style);
    } else {
      OtherFollows(cs, punct, style);
      BracketsAre(cs);
      OpenOther(Brackets(cs), punct);
    }
  }

  /** `t == Next(s, pos, quote)`, to be looked into only where `Next` is mentioned. */
  ghost predicate IsToken(t: Token, s: string, pos: nat, quote: Option<char>) {
    true == (pos < t.pos <= |s| && forall x: nat {:trigger Next(s, x, quote)} :: x == pos ==> t == Next(s, x, quote))
  }

  // ----- the tokenizer -----

  class StringStream {
    const text: string
    var pos: nat
    var start: nat

    constructor (text: string)
      ensures this.text == text && pos == 0 && start == 0
    {
      this.text := text;
      pos, start := 0, 0;
    }

    method EatWhile(f: char -> bool)
      requires pos <= |text|
      modifies this`pos
      ensures pos == While(text, old(pos), f)
    {
      while pos < |text| && f(text[pos])
        invariant pos <= |text| && While(text, pos, f) == While(text, old(pos), f)
        decreases |text| - pos
      {
        pos := pos + 1;
      }
    }

    method Eat(ch: char) returns (eaten: bool)
      modifies this`pos
      ensures eaten == (old(pos) < |text| && text[old(pos)] == ch) && pos == if eaten then old(pos) + 1 else old(pos)
    {
      eaten := pos < |text| && text[pos] == ch;
      if eaten { pos := pos + 1; }
    }
  }

  class SparqlMode {
    var curPunc: Option<char>
    var quote: Option<char>       // `state.tokenize`: inside a literal with this quote
    var context: seq<Context>     // `state.context`, the innermost context last
    ghost var open: seq<char>     // what the plain matcher holds

    ghost predicate Valid()
      reads this
    {
      true == (PatternsOk(context) && Brackets(context) == open && (quote.Some? ==> curPunc == None))
    }

    constructor ()
      ensures Valid() && quote == None && open == []
    {
      curPunc, quote, context, open := None, None, [], [];
    }

    /** `tokenLiteral` */
    method TokenLiteral(st: StringStream, q: char)
      requires st.pos <= |st.text|
      modifies st`pos, this`quote
      ensures (st.pos, quote) == Literal(st.text, old(st.pos), q, false)
    {
      quote := Some(q);
      var escaped := false;
      while st.pos < |st.text|
        invariant st.pos <= |st.text| && quote == Some(q)
        invariant Literal(st.text, st.pos, q, escaped) == Literal(st.text, old(st.pos), q, false)
        decreases |st.text| - st.pos
      {
        var ch := st.text[st.pos];
        st.pos := st.pos + 1;
        if ch == q && !escaped {
          quote := None;
          return;
        }
        escaped := !escaped && ch == '\\';
      }
    }

    /** `tokenBase` */
    method TokenBase(st: StringStream) returns (style: Style)
      requires st.start == st.pos < |st.text| && quote == None
      modifies st`pos, this`quote, this`curPunc
      ensures Token(st.pos, style, curPunc, quote) == Base(st.text, old(st.pos))
    {
      var ch := st.text[st.pos];
      st.pos := st.pos + 1;
      curPunc := None;
      if ch == '$' || ch == '?' {
        st.EatWhile(IsWord);
        style := Variable2;
      } else if ch == '<' && !(st.pos < |st.text| && (IsSpace(st.text[st.pos]) || st.text[st.pos] == '=')) {
        EatIri(st);
        style := Atom;
      } else if ch == '\"' || ch == '\'' {
        TokenLiteral(st, ch);
        style := Str;
      } else if IsPunct(ch) {
        curPunc := Some(ch);
        style := Plain;
      } else if ch == '#' {
        st.pos := |st.text|;
        style := Comment;
      } else if IsOperator(ch) {
        st.EatWhile(IsOperator);
        style := Plain;
      } else if ch == ':' {
        st.EatWhile(IsName);
        style := Atom;
      } else {
        style := TokenWord(st);
      }
    }

    method EatIri(st: StringStream)
      requires st.pos <= |st.text|
      modifies st`pos
      ensures var q := While(st.text, old(st.pos), IsIri); st.pos == if q < |st.text| && st.text[q] == '>' then q + 1
        else q
    {
      st.EatWhile(IsIri);
      var closed := st.Eat('>');
    }

    /** A word, or a name with a prefix */
    method TokenWord(st: StringStream) returns (style: Style)
      requires st.start <= st.pos <= |st.text|
      modifies st`pos
      ensures (st.pos, style) == WordEnd(st.text, st.start, old(st.pos))
    {
      st.EatWhile(IsWord);
      var prefixed := st.Eat(':');
      if prefixed {
        st.EatWhile(IsLocal);
        style := Atom;
      } else {
        style := Word(st.text, st.start, st.pos);
      }
    }

    method PopPatterns()
      modifies this`context
      ensures context == DropPatterns(old(context))
    {
      while |context| > 0 && context[|context| - 1] == Pattern
        invariant DropPatterns(context) == DropPatterns(old(context))
        decreases |context|
      {
        context := context[..|context| - 1];
      }
    }

    method UpdateContext(style: Style)
      modifies this`context
      ensures context == Contexts(old(context), curPunc, style)
    {
      var n := |context|;
      if curPunc == Some('(') {
        context := context + [Closes(')')];
      } else if curPunc == Some('[') {
        context := context + [Closes(']')];
      } else if curPunc == Some('{') {
        context := context + [Closes('}')];
      } else if curPunc.Some? && curPunc.value in "]})" {
        PopPatterns();
        n := |context|;
        if n > 0 && context[n - 1] == Closes(curPunc.value) { context := context[..n - 1]; }
      } else if curPunc == Some('.') && n > 0 && context[n - 1] == Pattern {
        context := context[..n - 1];
      } else if style in {Atom, Str, Variable, Variable2} && n > 0 {
        if context[n - 1] == Closes('}') || context[n - 1] == Closes(']') { context := context + [Pattern]; }
      }
    }

    /** `token` */
    method GetToken(st: StringStream) returns (style: Style, ghost t: Token)
      requires Valid() && st.start == st.pos < |st.text|
      modifies st`pos, this
      ensures Valid() && IsToken(t, st.text, old(st.pos), old(quote))
      ensures st.pos == t.pos && style == t.style && quote == t.quote && open == Open(old(open), t.punct)
    {
      t := Next(st.text, st.pos, quote);
      if IsSpace(st.text[st.pos]) {
        st.EatWhile(IsSpace);
        style := Plain;
        return;
      }
      if quote.Some? {
        TokenLiteral(st, quote.value);
        style := Str;
      } else {
        style := TokenBase(st);
      }
      ContextsFollow(context, curPunc, style);
      UpdateContext(style);
      open := Open(open, curPunc);
    }
  }

  // ----- highlighting -----

  /** The state after the tokens of a line from `pos` on; the end of a line that is too long is not looked at. */
  function LineState(s: string, pos: nat, quote: Option<char>, open: seq<char>): (r: (Option<char>, seq<char>))
    requires pos <= |s|
    decreases |s| - pos
  {
    if pos == |s| then (quote, open) else
      var t := Next(s, pos, quote);
      if t.pos > 5000 then (t.quote, Open(open, t.punct)) else LineState(s, t.pos, t.quote, Open(open, t.punct))
  }

  /** The style of every character of a line from `pos` on, as its tokens say. */
  function LineStyles(s: string, pos: nat, quote: Option<char>): (r: seq<Style>)
    requires pos <= |s|
    ensures |r| == |s| - pos
    decreases |s| - pos
  {
    if pos == |s| then [] else
      var t := Next(s, pos, quote);
      Repeat(t.pos - pos, t.style) + if t.pos > 5000 then Repeat(|s| - t.pos, Plain) else LineStyles(s, t.pos, t.quote)
  }

  /** No fragment is empty and neighbours differ in style, except for what was not looked at at the end. */
  predicate Merged(st: seq<(string, Style)>) {
    true == ((forall i :: 0 <= i < |st| ==> st[i].0 != "") && forall i :: 0 < i < |st| ==> st[i - 1].1 != st[i].1)
  }

  /** The highlighter looks at the line up to a point behind character 5000. */
  predicate MergedOrCut(st: seq<(string, Style)>) {
    true == (Merged(st) || (|st| > 0 && |TokenText(st[..|st| - 1])| > 5000 && Merged(st[..|st| - 1])))
  }

  method AddFragment(styles: seq<(string, Style)>, substr: string, style: Style) returns (r: seq<(string, Style)>)
    requires Merged(styles)
    ensures Merged(r) && TokenText(r) == TokenText(styles) + substr
    ensures TokenStyles(r) == TokenStyles(styles) + Repeat(|substr|, style)
  {
    var n := |styles|;
    if n > 0 && styles[n - 1].1 == style {
      r := styles[..n - 1] + [(styles[n - 1].0 + substr, style)];
      TokenGrow(styles[..n - 1], styles[n - 1].0, substr, style);
      assert styles == styles[..n - 1] + [(styles[n - 1].0, style)];
    } else if substr != "" {
      TokenPush(styles, (substr, style));
      r := styles + [(substr, style)];
    } else {
      r := styles;
      assert TokenStyles(styles) + Repeat(0, style) == TokenStyles(styles);
    }
  }

  /** With the rest of the line from `pos` on, the styles `a` make up `styles`, and the state becomes `state`. */
  ghost predicate Leads(a: seq<Style>, text: string, pos: nat, quote: Option<char>, open: seq<char>, styles: seq<Style>,
                        state: (Option<char>, seq<char>)) {
    true == (pos <= |text| &&
      (forall x: nat {:trigger LineStyles(text, x, quote)} :: x == pos ==> a + LineStyles(text, x, quote) == styles) &&
      (forall x: nat {:trigger LineState(text, x, quote, open)} :: x == pos ==>
      LineState(text, x, quote, open) == state))
  }

  lemma LeadsStart(text: string, quote: Option<char>, open: seq<char>)
    ensures Leads([], text, 0, quote, open, LineStyles(text, 0, quote), LineState(text, 0, quote, open))
  {
    var ls := LineStyles(text, 0, quote);
    assert [] + ls == ls;
  }

  lemma LeadsNext(a: seq<Style>, text: string, pos: nat, quote: Option<char>, open: seq<char>, styles: seq<Style>,
                  state: (Option<char>, seq<char>), t: Token)
    requires Leads(a, text, pos, quote, open, styles, state) && IsToken(t, text, pos, quote)
    ensures if t.pos > 5000 then a + Repeat(t.pos - pos, t.style) + Repeat(|text| - t.pos, Plain) == styles &&
      (t.quote, Open(open, t.punct)) == state
            else Leads(a + Repeat(t.pos - pos, t.style), text, t.pos, t.quote, Open(open, t.punct), styles, state)
  {
    assert t == Next(text, pos, quote) && LineState(text, pos, quote, open) == state;
    StylesNext(a, text, pos, quote, styles, t);
  }

  lemma StylesNext(a: seq<Style>, text: string, pos: nat, quote: Option<char>, styles: seq<Style>, t: Token)
    requires pos < |text| && t == Next(text, pos, quote) && a + LineStyles(text, pos, quote) == styles
    ensures a + Repeat(t.pos - pos, t.style) + (if t.pos > 5000 then Repeat(|text| - t.pos, Plain)
      else LineStyles(text, t.pos, t.quote)) == styles
  {
    Regroup(a, Repeat(t.pos - pos, t.style), if t.pos > 5000 then Repeat(|text| - t.pos, Plain)
      else LineStyles(text, t.pos, t.quote));
  }

  lemma LeadsEnd(a: seq<Style>, text: string, quote: Option<char>, open: seq<char>, styles: seq<Style>,
                 state: (Option<char>, seq<char>))
    requires Leads(a, text, |text|, quote, open, styles, state)
    ensures a == styles && (quote, open) == state
  {
    assert a + LineStyles(text, |text|, quote) == styles && a + [] == a;
    assert LineState(text, |text|, quote, open) == state;
  }

  /** The fragments `st` are right up to `pos`. */
  ghost predicate RightUpTo(st: seq<(string, Style)>, text: string, pos: nat, quote: Option<char>, open: seq<char>,
                            styles: seq<Style>, state: (Option<char>, seq<char>)) {
    true == (pos <= |text| && Merged(st) && TokenText(st) == text[..pos] &&
    Leads(TokenStyles(st), text, pos, quote, open, styles, state))
  }

  lemma RightNext(st: seq<(string, Style)>, r: seq<(string, Style)>, text: string, pos: nat, quote: Option<char>,
                  open: seq<char>, styles: seq<Style>, state: (Option<char>, seq<char>), t: Token)
    requires RightUpTo(st, text, pos, quote, open, styles, state) && IsToken(t, text, pos, quote) && Merged(r)
    requires TokenText(r) == TokenText(st) + text[pos..t.pos] &&
      TokenStyles(r) == TokenStyles(st) + Repeat(t.pos - pos, t.style)
    ensures TokenText(r) == text[..t.pos]
    ensures if t.pos > 5000 then TokenStyles(r) + Repeat(|text| - t.pos, Plain) == styles &&
      (t.quote, Open(open, t.punct)) == state
            else RightUpTo(r, text, t.pos, t.quote, Open(open, t.punct), styles, state)
  {
    LeadsNext(TokenStyles(st), text, pos, quote, open, styles, state, t);
    assert text[..pos] + text[pos..t.pos] == text[..t.pos];
  }

  /** One round of the loop of `highlight`; `last` if the line is given up. */
  method HighlightToken(stream: StringStream, mode: SparqlMode, st0: seq<(string, Style)>, text: string,
                        ghost styles: seq<Style>, ghost state: (Option<char>, seq<char>))
    returns (st: seq<(string, Style)>, last: bool)
    requires mode.Valid() && stream.text == text && stream.start == stream.pos < |text|
    requires RightUpTo(st0, text, stream.pos, mode.quote, mode.open, styles, state)
    modifies mode, stream`pos, stream`start
    ensures mode.Valid() && old(stream.pos) < stream.pos <= |text|
    ensures if last then TokenText(st) == text && TokenStyles(st) == styles && (mode.quote, mode.open) == state &&
      MergedOrCut(st)
            else stream.start == stream.pos && RightUpTo(st, text, stream.pos, mode.quote, mode.open, styles, state)
  {
    ghost var quote, open, p := mode.quote, mode.open, stream.pos;
    ghost var t;
    var style;
    style, t := mode.GetToken(stream);
    st := AddFragment(st0, stream.text[stream.start..stream.pos], style);
    RightNext(st0, st, text, p, quote, open, styles, state, t);
    stream.start := stream.pos;
    last := stream.pos > 5000;
    if last { st := AddRest(st, text, stream.pos, styles); }
  }

  /** The loop of `highlight`, towards the styles and the state to which the line leads. */
  method HighlightLine(text: string, mode: SparqlMode, ghost styles: seq<Style>, ghost state: (Option<char>, seq<char>))
    returns (st: seq<(string, Style)>)
    requires mode.Valid() && Leads([], text, 0, mode.quote, mode.open, styles, state)
    modifies mode
    ensures mode.Valid() && TokenText(st) == text && TokenStyles(st) == styles && (mode.quote, mode.open) == state &&
      MergedOrCut(st)
  {
    var stream := new StringStream(text);
    st := [];
    assert RightUpTo(st, text, 0, mode.quote, mode.open, styles, state);
    while stream.pos < |stream.text|
      invariant mode.Valid() && stream.start == stream.pos <= |text| && fresh(stream) && stream.text == text
      invariant RightUpTo(st, text, stream.pos, mode.quote, mode.open, styles, state)
      decreases |stream.text| - stream.pos
    {
      var last;
      st, last := HighlightToken(stream, mode, st, text, styles, state);
      if last { return; }
    }
    LeadsEnd(TokenStyles(st), text, mode.quote, mode.open, styles, state);
  }

  /** The rest of a line that is too long becomes one fragment. */
  method AddRest(st0: seq<(string, Style)>, text: string, pos: nat, ghost styles: seq<Style>)
    returns (st: seq<(string, Style)>)
    requires 5000 < pos <= |text| && Merged(st0) && TokenText(st0) == text[..pos] &&
      TokenStyles(st0) + Repeat(|text| - pos, Plain) == styles
    ensures TokenText(st) == text && TokenStyles(st) == styles && MergedOrCut(st)
  {
    st := st0 + [(text[pos..], Plain)];
    TokenPush(st0, (text[pos..], Plain));
    assert text[..pos] + text[pos..] == text;
    assert st[..|st| - 1] == st0;
  }

  /** `Line.highlight` */
  method Highlight(text: string, mode: SparqlMode) returns (st: seq<(string, Style)>)
    requires mode.Valid()
    modifies mode
    ensures mode.Valid() && TokenText(st) == text && TokenStyles(st) == LineStyles(text, 0, old(mode.quote))
    ensures (mode.quote, mode.open) == LineState(text, 0, old(mode.quote), old(mode.open))
    ensures MergedOrCut(st)
  {
    LeadsStart(text, mode.quote, mode.open);
    st := HighlightLine(text, mode, LineStyles(text, 0, mode.quote), LineState(text, 0, mode.quote, mode.open));
  }

  /** The state after the first `n` lines. */
  function DocState(lines: seq<string>, n: nat): (Option<char>, seq<char>)
    requires n <= |lines|
  {
    if n == 0 then (None, []) else
      var before := DocState(lines, n - 1);
      LineState(lines[n - 1], 0, before.0, before.1)
  }

  /** `q == DocState(lines, n)`, to be looked into only where `DocState` is mentioned. */
  ghost predicate IsDocState(q: (Option<char>, seq<char>), lines: seq<string>, n: nat) {
    true == (n <= |lines| && forall x: nat {:trigger DocState(lines, x)} :: x == n ==> q == DocState(lines, x))
  }

  method HighlightNth(lines: seq<string>, i: nat, mode: SparqlMode) returns (st: seq<(string, Style)>)
    requires mode.Valid() && i < |lines| && IsDocState((mode.quote, mode.open), lines, i)
    modifies mode
    ensures mode.Valid() && IsDocState((mode.quote, mode.open), lines, i + 1) && TokenText(st) == lines[i]
  {
    assert (mode.quote, mode.open) == DocState(lines, i);
    st := Highlight(lines[i], mode);
    assert (mode.quote, mode.open) == DocState(lines, i + 1);
  }

  /** After any number of lines from the start of the document the contexts are the open brackets. */
  method HighlightLines(lines: seq<string>) returns (mode: SparqlMode, all: seq<seq<(string, Style)>>)
    ensures Brackets(mode.context) == DocState(lines, |lines|).1 && PatternsOk(mode.context) &&
      mode.quote == DocState(lines, |lines|).0
    ensures |all| == |lines| && forall i :: 0 <= i < |lines| ==> TokenText(all[i]) == lines[i]
  {
    mode, all := HighlightAll(lines);
    assert (mode.quote, mode.open) == DocState(lines, |lines|);
  }

  method HighlightAll(lines: seq<string>) returns (mode: SparqlMode, all: seq<seq<(string, Style)>>)
    ensures mode.Valid() && IsDocState((mode.quote, mode.open), lines, |lines|)
    ensures |all| == |lines| && forall i :: 0 <= i < |lines| ==> TokenText(all[i]) == lines[i]
  {
    mode := new SparqlMode();
    all := [];
    for i := 0 to |lines|
      invariant mode.Valid() && fresh(mode) && IsDocState((mode.quote, mode.open), lines, i)
      invariant |all| == i && forall k :: 0 <= k < i ==> TokenText(all[k]) == lines[k]
    {
      var styles := HighlightNth(lines, i, mode);
      all := all + [styles];
    }
  }
}
