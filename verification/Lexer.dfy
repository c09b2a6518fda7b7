/** The lexer of target-gen1.c. Source text is a sequence of bytes without NUL. */
module Lexer {
  import opened Wrappers
  import opened Decimal

  datatype Kind =
    | LParen | RParen | LBracket | RBracket | LBrace | RBrace
    | StringLit | Number | Symbol | Variable | Keyword | Unknown

  datatype Token = Token(kind: Kind, value: string, line: nat, col: nat)

  /** `idx` passes the end when a backslash is the last character of an open string. */
  datatype State = State(src: string, idx: nat, line: nat, col: nat, tokens: seq<Token>)

  predicate IsAlpha(c: char) { 'a' <= c <= 'z' || 'A' <= c <= 'Z' }

  predicate IsSpace(c: char) { c == ' ' || c == '\t' || c == '\n' || c == '\r' }

  predicate IsSymbolChar(c: char) {
    IsDigit(c) || IsAlpha(c) || c == '-' || c == '_' || c == '?' || c == '!' || c == '/' || c == '.' || c == '<' || c == '>'
    || c == '=' || c == '+' || c == '*' || c == '%' || c == '&' || c == '|' || c == '^' || c == '~'
  }

  function Start(src: string): State {
    State(src, 0, 1, 1, [])
  }

  function PeekAt(st: State, offset: nat): Option<char> {
    if st.idx + offset >= |st.src| then None else Some(st.src[st.idx + offset])
  }

  function Peek(st: State): Option<char> {
    PeekAt(st, 0)
  }

  predicate AtEnd(st: State) {
    st.idx >= |st.src|
  }

  function Left(st: State): nat {
    if AtEnd(st) then 0 else |st.src| - st.idx
  }

  function Advance(st: State): State {
    if Peek(st) == Some('\n') then st.(idx := st.idx + 1, line := st.line + 1, col := 1)
    else st.(idx := st.idx + 1, col := st.col + 1)
  }

  function Emit(st: State, kind: Kind, value: string, line: nat, col: nat): State {
    st.(tokens := st.tokens + [Token(kind, value, line, col)])
  }

  // ---------- White space ----------

  /** To the end of the line, and past it. */
  function SkipComment(st: State): (r: State)
    ensures r.src == st.src && r.tokens == st.tokens && r.idx >= st.idx && (!AtEnd(st) ==> r.idx > st.idx)
    decreases Left(st)
  {
    if AtEnd(st) then st
    else if Peek(st) == Some('\n') then Advance(st)
    else SkipComment(Advance(st))
  }

  function SkipWs(st: State): (r: State)
    ensures r.src == st.src && r.tokens == st.tokens && r.idx >= st.idx
    ensures AtEnd(r) || (!IsSpace(r.src[r.idx]) && r.src[r.idx] != ';')
    decreases Left(st)
  {
    if AtEnd(st) then st
    else if IsSpace(st.src[st.idx]) then SkipWs(Advance(st))
    else if st.src[st.idx] == ';' then SkipWs(SkipComment(st))
    else st
  }

  // ---------- Tokens ----------

  function TranslateEsc(c: char): char {
    if c == 'n' then '\n' else if c == 't' then '\t' else if c == 'r' then '\r' else c
  }

  /** What is appended for the character after a backslash; the text `nil` when there is none. */
  function Escaped(c: Option<char>): string {
    if c.Some? then [TranslateEsc(c.value)] else "nil"
  }

  function StringRest(st: State, acc: string, line: nat, col: nat): (r: State)
    ensures r.src == st.src && r.idx >= st.idx
    ensures |r.tokens| == |st.tokens| + 1 && st.tokens <= r.tokens && r.tokens[|st.tokens|].kind == StringLit
    decreases Left(st)
  {
    if AtEnd(st) then Emit(st, StringLit, acc, line, col)
    else
      var c := st.src[st.idx];
      if c == '"' then Emit(Advance(st), StringLit, acc, line, col)
      else if c == '\\' then
        StringRest(Advance(Advance(st)), acc + Escaped(Peek(Advance(st))), line, col)
      else StringRest(Advance(st), acc + [c], line, col)
  }

  function NumberRest(st: State, acc: string, dot: bool, line: nat, col: nat): (r: State)
    ensures r.src == st.src && r.idx >= st.idx
    ensures (!AtEnd(st) && IsDigit(st.src[st.idx])) ==> r.idx > st.idx
    ensures |r.tokens| == |st.tokens| + 1 && st.tokens <= r.tokens && r.tokens[|st.tokens|].kind == Number
    decreases Left(st)
  {
    if AtEnd(st) then Emit(st, Number, acc, line, col)
    else
      var c := st.src[st.idx];
      if IsDigit(c) then NumberRest(Advance(st), acc + [c], dot, line, col)
      else if c == '.' && !dot then NumberRest(Advance(st), acc + [c], true, line, col)
      else Emit(st, Number, acc, line, col)
  }

  function SymbolRest(st: State, acc: string, line: nat, col: nat, kind: Kind): (r: State)
    ensures r.src == st.src && r.idx >= st.idx
    ensures (!AtEnd(st) && IsSymbolChar(st.src[st.idx])) ==> r.idx > st.idx
    ensures |r.tokens| == |st.tokens| + 1 && st.tokens <= r.tokens && r.tokens[|st.tokens|].kind == kind
    decreases Left(st)
  {
    if AtEnd(st) then Emit(st, kind, acc, line, col)
    else
      var c := st.src[st.idx];
      if IsSymbolChar(c) then SymbolRest(Advance(st), acc + [c], line, col, kind)
      else Emit(st, kind, acc, line, col)
  }

  /** The token of a name: the longest run of symbol characters. */
  lemma {:induction false} SymbolTaken(st: State, acc: string, line: nat, col: nat, kind: Kind)
    requires st.idx <= |st.src|
    ensures
      var r := SymbolRest(st, acc, line, col, kind);
      r.idx <= |st.src| && r.tokens == st.tokens + [Token(kind, acc + st.src[st.idx..r.idx], line, col)]
      && (forall k | st.idx <= k < r.idx :: IsSymbolChar(st.src[k])) && (r.idx < |st.src| ==> !IsSymbolChar(st.src[r.idx]))
    decreases Left(st)
  {
    if !AtEnd(st) && IsSymbolChar(st.src[st.idx]) {
      SymbolTaken(Advance(st), acc + [st.src[st.idx]], line, col, kind);
      OneMore(st.src, st.idx, SymbolRest(st, acc, line, col, kind).idx, acc);
    } else {
      assert acc + st.src[st.idx..st.idx] == acc;
    }
  }

  lemma {:induction false} OneMore(s: string, i: nat, j: nat, acc: string)
    requires i < j <= |s|
    ensures acc + [s[i]] + s[i + 1..j] == acc + s[i..j]
  {
  }

  ghost predicate IsDot(s: string, k: nat)
    requires k < |s|
  {
    s[k] == '.'
  }

  /** The token of a number: the longest run of digits with one dot at most, none if there has been one. */
  lemma {:induction false} NumberTaken(st: State, acc: string, dot: bool, line: nat, col: nat)
    requires st.idx <= |st.src|
    ensures
      var r := NumberRest(st, acc, dot, line, col);
      r.idx <= |st.src| && r.tokens == st.tokens + [Token(Number, acc + st.src[st.idx..r.idx], line, col)]
      && (forall k | st.idx <= k < r.idx :: IsDigit(st.src[k]) || (!dot && IsDot(st.src, k)))
      && (forall j, k | st.idx <= j < k < r.idx :: !(IsDot(st.src, j) && IsDot(st.src, k)))
      && (r.idx < |st.src| && IsDot(st.src, r.idx) ==>
            dot || exists k | st.idx <= k < r.idx :: IsDot(st.src, k))
      && (r.idx < |st.src| ==> !IsDigit(st.src[r.idx]))
    decreases Left(st)
  {
    if AtEnd(st) {
      assert acc + st.src[st.idx..st.idx] == acc;
    } else {
      var c := st.src[st.idx];
      if IsDigit(c) || (c == '.' && !dot) {
        NumberTaken(Advance(st), acc + [c], dot || c == '.', line, col);
        OneMore(st.src, st.idx, NumberRest(st, acc, dot, line, col).idx, acc);
        assert c == '.' ==> IsDot(st.src, st.idx);
      } else {
        assert acc + st.src[st.idx..st.idx] == acc;
      }
    }
  }

  function Bracket(c: char): Option<Kind> {
    if c == '(' then Some(LParen) else if c == ')' then Some(RParen)
    else if c == '[' then Some(LBracket) else if c == ']' then Some(RBracket)
    else if c == '{' then Some(LBrace) else if c == '}' then Some(RBrace)
    else None
  }

  /** The token at the first character that is neither white space nor comment. */
  function TokenAt(st: State): State
    requires !AtEnd(st)
  {
    var c, line, col := st.src[st.idx], st.line, st.col;
    if Bracket(c).Some? then Emit(Advance(st), Bracket(c).value, [c], line, col)
    else if c == '"' then StringRest(Advance(st), "", line, col)
    else if c == '$' then SymbolRest(Advance(st), "", line, col, Variable)
    else if c == ':' then SymbolRest(Advance(st), "", line, col, Keyword)
    else if IsDigit(c) then NumberRest(st, "", false, line, col)
    else if c == '-' && PeekAt(st, 1).Some? && IsDigit(PeekAt(st, 1).value) then
      NumberRest(Advance(st), ['-'], false, line, col)
    else if IsSymbolChar(c) then SymbolRest(st, "", line, col, Symbol)
    else Emit(Advance(st), Unknown, [c], line, col)
  }

  function ReadToken(st: State): State {
    var st1 := SkipWs(st);
    if AtEnd(st1) then st1 else TokenAt(st1)
  }

  /** On any text: reading a token consumes at least one character and adds exactly one token. */
  lemma {:induction false} TokenProgress(st: State)
    requires !AtEnd(st)
    ensures
      var r := TokenAt(st);
      r.src == st.src && r.idx > st.idx && |r.tokens| == |st.tokens| + 1 && st.tokens <= r.tokens
  {
  }

  /** The tokens of the rest of the text, so lexing ends whatever the text. */
  function LexFrom(st: State): seq<Token>
    decreases Left(st)
  {
    var ws := SkipWs(st);
    if AtEnd(ws) then ws.tokens
    else
      TokenProgress(ws);
      LexFrom(ReadToken(ws))
  }

  function Lex(src: string): seq<Token> {
    LexFrom(Start(src))
  }

  // ---------- The loops ----------

  method ReadStringIter(st: State, acc0: string, line: nat, col: nat) returns (r: State)
    ensures r == StringRest(st, acc0, line, col)
  {
    var cur, acc := st, acc0;
    while !AtEnd(cur)
      invariant StringRest(cur, acc, line, col) == StringRest(st, acc0, line, col)
      decreases Left(cur)
    {
      var c := cur.src[cur.idx];
      if c == '"' {
        return Emit(Advance(cur), StringLit, acc, line, col);
      }
      if c == '\\' {
        var st2 := Advance(cur);
        var c2 := Peek(st2);
        cur, acc := Advance(st2), acc + Escaped(c2);
      } else {
        cur, acc := Advance(cur), acc + [c];
      }
    }
    return Emit(cur, StringLit, acc, line, col);
  }

  method ReadNumberIter(st: State, acc0: string, dot0: bool, line: nat, col: nat) returns (r: State)
    ensures r == NumberRest(st, acc0, dot0, line, col)
  {
    var cur, acc, dot := st, acc0, dot0;
    while !AtEnd(cur)
      invariant NumberRest(cur, acc, dot, line, col) == NumberRest(st, acc0, dot0, line, col)
      decreases Left(cur)
    {
      var c := cur.src[cur.idx];
      if IsDigit(c) {
        cur, acc := Advance(cur), acc + [c];
      } else if c == '.' && !dot {
        cur, acc, dot := Advance(cur), acc + [c], true;
      } else {
        return Emit(cur, Number, acc, line, col);
      }
    }
    return Emit(cur, Number, acc, line, col);
  }

  method ReadSymbolIter(st: State, acc0: string, line: nat, col: nat, kind: Kind) returns (r: State)
    ensures r == SymbolRest(st, acc0, line, col, kind)
  {
    var cur, acc := st, acc0;
    while !AtEnd(cur)
      invariant SymbolRest(cur, acc, line, col, kind) == SymbolRest(st, acc0, line, col, kind)
      decreases Left(cur)
    {
      var c := cur.src[cur.idx];
      if !IsSymbolChar(c) {
        return Emit(cur, kind, acc, line, col);
      }
      cur, acc := Advance(cur), acc + [c];
    }
    return Emit(cur, kind, acc, line, col);
  }

  method ReadTokenLoop(st: State) returns (r: State)
    ensures r == ReadToken(st)
  {
    var st1 := SkipWsLoop(st);
    if AtEnd(st1) {
      return st1;
    }
    var c, line, col := st1.src[st1.idx], st1.line, st1.col;
    if Bracket(c).Some? {
      r := Emit(Advance(st1), Bracket(c).value, [c], line, col);
    } else if c == '"' {
      r := ReadStringIter(Advance(st1), "", line, col);
    } else if c == '$' {
      r := ReadSymbolIter(Advance(st1), "", line, col, Variable);
    } else if c == ':' {
      r := ReadSymbolIter(Advance(st1), "", line, col, Keyword);
    } else if IsDigit(c) {
      r := ReadNumberIter(st1, "", false, line, col);
    } else if c == '-' && PeekAt(st1, 1).Some? && IsDigit(PeekAt(st1, 1).value) {
      r := ReadNumberIter(Advance(st1), ['-'], false, line, col);
    } else if IsSymbolChar(c) {
      r := ReadSymbolIter(st1, "", line, col, Symbol);
    } else {
      r := Emit(Advance(st1), Unknown, [c], line, col);
    }
  }

  method SkipWsLoop(st: State) returns (r: State)
    ensures r == SkipWs(st)
  {
    r := st;
    while !AtEnd(r) && (IsSpace(r.src[r.idx]) || r.src[r.idx] == ';')
      invariant SkipWs(r) == SkipWs(st)
      decreases Left(r)
    {
      if IsSpace(r.src[r.idx]) {
        r := Advance(r);
      } else {
        r := SkipCommentLoop(r);
      }
    }
  }

  method SkipCommentLoop(st: State) returns (r: State)
    ensures r == SkipComment(st)
  {
    r := st;
    while !AtEnd(r) && r.src[r.idx] != '\n'
      invariant SkipComment(r) == SkipComment(st)
      decreases Left(r)
    {
      r := Advance(r);
    }
    if !AtEnd(r) {
      r := Advance(r);
    }
  }

  method LexLoop(src: string) returns (tokens: seq<Token>)
    ensures tokens == Lex(src)
  {
    var cur := Start(src);
    var ws := SkipWsLoop(cur);
    while !AtEnd(ws)
      invariant ws == SkipWs(cur) && LexFrom(cur) == Lex(src)
      decreases Left(ws)
    {
      TokenProgress(ws);
      assert SkipWs(ws) == ws;
      cur := ReadTokenLoop(ws);
      ws := SkipWsLoop(cur);
    }
    tokens := ws.tokens;
  }
}
