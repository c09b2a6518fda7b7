/** String literals through the compiler: escaping for C (`c_esc`), reading back, and what a C compiler makes
    of the result. */
module Escape {
  import opened Wrappers
  import opened Sequences
  import opened Lexer
  import opened Strings

  /** `c_esc`: five whole-string replacements, the backslash first. */
  function CEsc(s: string): string {
    Replace(Replace(Replace(Replace(Replace(s, "\\", "\\\\"), "\"", "\\\""), "\n", "\\n"), "\t", "\\t"), "\r", "\\r")
  }

  function EscChar(c: char): string {
    if c == '\\' then "\\\\" else if c == '"' then "\\\"" else if c == '\n' then "\\n"
    else if c == '\t' then "\\t" else if c == '\r' then "\\r" else [c]
  }

  function EscAll(s: string): string {
    if s == "" then "" else EscChar(s[0]) + EscAll(s[1..])
  }

  lemma {:induction false} SubstituteConcat(a: string, b: string, c: char, t: string)
    ensures Substitute(a + b, c, t) == Substitute(a, c, t) + Substitute(b, c, t)
  {
    if a == "" {
      assert a + b == b;
    } else {
      assert (a + b)[0] == a[0] && (a + b)[1..] == a[1..] + b;
      SubstituteConcat(a[1..], b, c, t);
    }
  }

  /** The same as one escape per character: no replacement touches what an earlier one put in. */
  lemma {:induction false} CEscIsPerCharacter(s: string)
    ensures CEsc(s) == EscAll(s)
  {
    var s1 := Replace(s, "\\", "\\\\");
    var s2 := Replace(s1, "\"", "\\\"");
    var s3 := Replace(s2, "\n", "\\n");
    var s4 := Replace(s3, "\t", "\\t");
    ReplaceIsSubstitute(s, '\\', "\\\\");
    ReplaceIsSubstitute(s1, '"', "\\\"");
    ReplaceIsSubstitute(s2, '\n', "\\n");
    ReplaceIsSubstitute(s3, '\t', "\\t");
    ReplaceIsSubstitute(s4, '\r', "\\r");
    FivePasses(s);
  }

  function Passes(s: string): string {
    Substitute(Substitute(Substitute(Substitute(Substitute(s, '\\', "\\\\"), '"', "\\\""), '\n', "\\n"), '\t', "\\t"), '\r', "\\r")
  }

  lemma {:induction false} FivePasses(s: string)
    ensures Passes(s) == EscAll(s)
  {
    if s != "" {
      PassesConcat([s[0]], s[1..]);
      assert s == [s[0]] + s[1..];
      OneCharacter(s[0]);
      FivePasses(s[1..]);
    }
  }

  lemma {:induction false} PassesConcat(a: string, b: string)
    ensures Passes(a + b) == Passes(a) + Passes(b)
  {
    var a1, b1 := Substitute(a, '\\', "\\\\"), Substitute(b, '\\', "\\\\");
    var a2, b2 := Substitute(a1, '"', "\\\""), Substitute(b1, '"', "\\\"");
    var a3, b3 := Substitute(a2, '\n', "\\n"), Substitute(b2, '\n', "\\n");
    var a4, b4 := Substitute(a3, '\t', "\\t"), Substitute(b3, '\t', "\\t");
    SubstituteConcat(a, b, '\\', "\\\\");
    SubstituteConcat(a1, b1, '"', "\\\"");
    SubstituteConcat(a2, b2, '\n', "\\n");
    SubstituteConcat(a3, b3, '\t', "\\t");
    SubstituteConcat(a4, b4, '\r', "\\r");
  }

  lemma {:induction false} Plain(c: char, x: char, t: string)
    ensures Substitute([c], x, t) == if c == x then t else [c]
  {
    assert t + "" == t;
  }

  lemma {:induction false} Pair(a: char, b: char, x: char, t: string)
    requires a != x && b != x
    ensures Substitute([a, b], x, t) == [a, b]
  {
    assert [a, b][1..] == [b];
    Plain(b, x, t);
  }

  lemma {:induction false} OneCharacter(c: char)
    ensures Passes([c]) == EscChar(c)
  {
    Plain(c, '\\', "\\\\");
    if c == '\\' {
      Pair('\\', '\\', '"', "\\\"");
      Pair('\\', '\\', '\n', "\\n");
      Pair('\\', '\\', '\t', "\\t");
      Pair('\\', '\\', '\r', "\\r");
    } else {
      Plain(c, '"', "\\\"");
      if c == '"' {
        Pair('\\', '"', '\n', "\\n");
        Pair('\\', '"', '\t', "\\t");
        Pair('\\', '"', '\r', "\\r");
      } else {
        Plain(c, '\n', "\\n");
        Plain(c, '\t', "\\t");
        Plain(c, '\r', "\\r");
        Pair('\\', 'n', '\t', "\\t");
        Pair('\\', 'n', '\r', "\\r");
        Pair('\\', 't', '\r', "\\r");
      }
    }
  }

  // ---------- Lexing the literal back ----------

  /** Reading the escapes of s and the closing quote yields s and stops right after the quote. */
  lemma {:induction false} StringRestReadsBack(st: State, s: string, acc: string, line: nat, col: nat)
    requires Ahead(st.src, st.idx, EscAll(s) + ['"'])
    ensures
      var r := StringRest(st, acc, line, col);
      r.idx == st.idx + |EscAll(s)| + 1 && r.tokens == st.tokens + [Token(StringLit, acc + s, line, col)]
    decreases |s|
  {
    if s == "" {
      assert ("" + ['"'])[0] == '"';
      assert acc + s == acc;
    } else {
      Assoc(EscChar(s[0]), EscAll(s[1..]), ['"']);
      AheadSplit(st.src, st.idx, EscChar(s[0]), EscAll(s[1..]) + ['"']);
      OneEscape(st, s[0], acc, line, col);
      StringRestReadsBack(AfterEsc(st, s[0]), s[1..], acc + [s[0]], line, col);
      Recons(acc, s);
    }
  }

  function AfterEsc(st: State, c: char): (r: State)
    ensures r.src == st.src && r.tokens == st.tokens && r.idx == st.idx + |EscChar(c)|
  {
    if |EscChar(c)| == 2 then Advance(Advance(st)) else Advance(st)
  }

  lemma {:induction false} OneEscape(st: State, c: char, acc: string, line: nat, col: nat)
    requires Ahead(st.src, st.idx, EscChar(c))
    ensures StringRest(st, acc, line, col) == StringRest(AfterEsc(st, c), acc + [c], line, col)
  {
    var e := EscChar(c);
    assert st.src[st.idx + 0] == e[0];
    if |e| == 2 {
      assert st.src[st.idx + 1] == e[1];
      assert Escaped(Some(e[1])) == [c];
    }
  }

  lemma {:induction false} AtQuote(st: State)
    requires !AtEnd(st) && st.src[st.idx] == '"'
    ensures ReadToken(st) == StringRest(Advance(st), "", st.line, st.col)
  {
    assert SkipWs(st) == st;
  }

  lemma {:induction false} QuotedReadsBack(st: State, s: string)
    requires Ahead(st.src, st.idx, ['"'] + (EscAll(s) + ['"']))
    ensures
      var r := ReadToken(st);
      r.idx == st.idx + |EscAll(s)| + 2 && r.src == st.src
      && r.tokens == st.tokens + [Token(StringLit, s, st.line, st.col)]
  {
    AheadSplit(st.src, st.idx, ['"'], EscAll(s) + ['"']);
    assert st.src[st.idx + 0] == ['"'][0];
    AtQuote(st);
    StringRestReadsBack(Advance(st), s, "", st.line, st.col);
    assert "" + s == s;
  }

  /** For every text: a quoted, escaped text is one token whose value is the text, and nothing past the
      closing quote is read. */
  lemma {:induction false} LiteralReadsBack(st: State, s: string)
    requires Ahead(st.src, st.idx, ['"'] + CEsc(s) + ['"'])
    ensures
      var r := ReadToken(st);
      r.idx == st.idx + |CEsc(s)| + 2 && r.src == st.src
      && r.tokens == st.tokens + [Token(StringLit, s, st.line, st.col)]
  {
    CEscIsPerCharacter(s);
    Assoc(['"'], EscAll(s), ['"']);
    QuotedReadsBack(st, s);
  }

  /** A whole file that is one literal. */
  lemma {:induction false} LexLiteral(s: string)
    ensures Lex(['"'] + CEsc(s) + ['"']) == [Token(StringLit, s, 1, 1)]
  {
    var st := Start(['"'] + CEsc(s) + ['"']);
    assert st.src[0..|st.src|] == st.src;
    LiteralReadsBack(st, s);
    assert st.src[0] == '"' && SkipWs(st) == st;
    LexOne(st);
  }

  /** A backslash that ends the text stands for the three letters of the missing character. */
  lemma {:induction false} LoneBackslash()
    ensures Lex(['"', '\\']) == [Token(StringLit, "nil", 1, 1)]
  {
    var st := Start(['"', '\\']);
    AtQuote(st);
    OpenBackslash(Advance(st));
    LexOne(st);
  }

  lemma {:induction false} OpenBackslash(st: State)
    requires st.src == ['"', '\\'] && st.idx == 1 && st.tokens == []
    ensures var r := StringRest(st, "", 1, 1); r.tokens == [Token(StringLit, "nil", 1, 1)] && r.idx == 3 && r.src == st.src
  {
    var st2 := Advance(Advance(st));
    assert Escaped(Peek(Advance(st))) == "nil" && "" + "nil" == "nil";
    assert StringRest(st, "", 1, 1) == StringRest(st2, "nil", 1, 1);
  }

  /** A file whose first token is its last. */
  lemma {:induction false} LexOne(st: State)
    requires st == Start(st.src) && st.src != [] && SkipWs(st) == st
    requires var r := ReadToken(st); r.src == st.src && r.idx >= |r.src| && |r.tokens| == 1
    ensures Lex(st.src) == ReadToken(st).tokens
  {
    var r := ReadToken(st);
    assert SkipWs(r) == r;
    assert LexFrom(st) == LexFrom(r) == r.tokens;
  }

  // ---------- What a C compiler makes of it ----------

  /** The simple escape sequences of C11 section 6.4.4.4. */
  function SimpleEscape(c: char): Option<char> {
    if c == '\'' || c == '"' || c == '?' || c == '\\' then Some(c)
    else if c == 'a' then Some(7 as char) else if c == 'b' then Some(8 as char) else if c == 'f' then Some(12 as char)
    else if c == 'n' then Some('\n') else if c == 'r' then Some('\r') else if c == 't' then Some('\t')
    else if c == 'v' then Some(11 as char)
    else None
  }

  /** The characters between the quotes of a C string literal; None where they are not one (octal and
      hexadecimal escapes, never emitted, are not part of this model). */
  function CLiteral(t: string): Option<string> {
    if t == "" then Some("")
    else if t[0] == '"' || t[0] == '\n' then None
    else if t[0] != '\\' then Then(t[0], CLiteral(t[1..]))
    else if |t| < 2 || SimpleEscape(t[1]).None? then None
    else Then(SimpleEscape(t[1]).value, CLiteral(t[2..]))
  }

  function Then(c: char, rest: Option<string>): Option<string> {
    if rest.None? then None else Some([c] + rest.value)
  }

  lemma {:induction false} CReadsBack(s: string)
    ensures CLiteral(EscAll(s)) == Some(s)
  {
    if s != "" {
      CReadsBack(s[1..]);
      CReadsFirst(s[0], EscAll(s[1..]));
      assert [s[0]] + s[1..] == s;
    }
  }

  lemma {:induction false} CReadsFirst(c: char, rest: string)
    ensures CLiteral(EscChar(c) + rest) == Then(c, CLiteral(rest))
  {
    var e := EscChar(c);
    var t := e + rest;
    assert t[0] == e[0] && t[|e|..] == rest;
    assert |e| == 2 ==> t[1] == e[1];
  }

  /** The literal the compiler emits denotes the text it was given. */
  lemma {:induction false} EmittedLiteralDenotes(s: string)
    ensures CLiteral(CEsc(s)) == Some(s)
  {
    CEscIsPerCharacter(s);
    CReadsBack(s);
  }
}
