/** Tokens written out with white space and comments between them are read back, whatever the layout. */
module Spacing {
  import opened Wrappers
  import opened Decimal
  import opened Lexer
  import opened Escape
  import opened Sequences
  import opened TokenParser
  import opened TreeTokens

  // ---------- White space and comments ----------

  /** What follows the first line end. */
  function PastLine(t: string): (r: string)
    ensures |r| <= |t| && ('\n' in t ==> |r| < |t|)
  {
    if t == "" then "" else if t[0] == '\n' then t[1..] else PastLine(t[1..])
  }

  /** Blanks, and comments up to the end of their line. */
  predicate White(t: string)
    decreases |t|
  {
    t == "" || (IsSpace(t[0]) && White(t[1..])) || (t[0] == ';' && '\n' in t && White(PastLine(t)))
  }

  lemma {:induction false} LineSkipped(st: State, t: string)
    requires Ahead(st.src, st.idx, t) && '\n' in t
    ensures
      var r := SkipComment(st);
      r.src == st.src && r.tokens == st.tokens && r.idx + |PastLine(t)| == st.idx + |t| && Ahead(st.src, r.idx, PastLine(t))
    decreases |t|
  {
    AheadFirst(st.src, st.idx, t);
    assert [t[0]] + t[1..] == t;
    AheadSplit(st.src, st.idx, [t[0]], t[1..]);
    if t[0] != '\n' {
      LineSkipped(Advance(st), t[1..]);
    }
  }

  /** White space is skipped up to the first character that is none. */
  lemma {:induction false} WhiteSkipped(st: State, t: string)
    requires Ahead(st.src, st.idx, t) && White(t) && StopsWhite(st.src, st.idx + |t|)
    ensures var r := SkipWs(st); r.src == st.src && r.tokens == st.tokens && r.idx == st.idx + |t|
    decreases |t|
  {
    if t != "" {
      var next, rest := WhiteStep(st, t);
      WhiteSkipped(next, rest);
    }
  }

  predicate StopsWhite(s: string, q: nat) {
    q < |s| ==> !IsSpace(s[q]) && s[q] != ';'
  }

  /** One blank or one comment. */
  lemma {:induction false} WhiteStep(st: State, t: string) returns (next: State, rest: string)
    requires t != "" && Ahead(st.src, st.idx, t) && White(t)
    ensures SkipWs(st) == SkipWs(next) && next.src == st.src && next.tokens == st.tokens
    ensures |rest| < |t| && White(rest) && Ahead(next.src, next.idx, rest) && next.idx + |rest| == st.idx + |t|
  {
    AheadFirst(st.src, st.idx, t);
    if IsSpace(t[0]) {
      next, rest := Advance(st), t[1..];
      assert [t[0]] + t[1..] == t;
      AheadSplit(st.src, st.idx, [t[0]], t[1..]);
    } else {
      next, rest := SkipComment(st), PastLine(t);
      LineSkipped(st, t);
    }
  }

  // ---------- How a token is written ----------

  predicate AllSymbolChars(t: string) {
    forall k | 0 <= k < |t| :: IsSymbolChar(t[k])
  }

  predicate LooksNumeric(t: string) {
    t != "" && (IsDigit(t[0]) || (t[0] == '-' && |t| > 1 && IsDigit(t[1])))
  }

  /** Tokens that can be written: numbers without a dot, names of symbol characters, any string. */
  predicate Writable(b: Bare) {
    match b.kind
    case Number => AllDigits(b.value) || (b.value != "" && b.value[0] == '-' && AllDigits(b.value[1..]))
    case StringLit => true
    case Symbol => b.value != "" && AllSymbolChars(b.value) && !LooksNumeric(b.value)
    case Variable => AllSymbolChars(b.value)
    case Keyword => AllSymbolChars(b.value)
    case Unknown => b.value == "@"
    case k => |b.value| == 1 && Bracket(b.value[0]) == Some(k)
  }

  function Written(b: Bare): string {
    match b.kind
    case StringLit => ['"'] + CEsc(b.value) + ['"']
    case Variable => ['$'] + b.value
    case Keyword => [':'] + b.value
    case _ => b.value
  }

  /** Such a token goes on as long as symbol characters follow. */
  predicate IsWord(b: Bare) {
    b.kind.Number? || b.kind.Symbol? || b.kind.Variable? || b.kind.Keyword?
  }

  predicate EndsWord(s: string, q: nat) {
    q < |s| ==> !IsSymbolChar(s[q])
  }

  /** Reading one token: where the cursor ends and what is added. */
  ghost predicate TokenRead(st: State, r: State, b: Bare) {
    r.src == st.src && r.idx == st.idx + |Written(b)|
    && r.tokens == st.tokens + [Token(b.kind, b.value, st.line, st.col)]
  }

  lemma {:induction false} NameRead(st: State, t: string, line: nat, col: nat, kind: Kind)
    requires Ahead(st.src, st.idx, t) && AllSymbolChars(t) && EndsWord(st.src, st.idx + |t|)
    ensures
      var r := SymbolRest(st, "", line, col, kind);
      r.src == st.src && r.idx == st.idx + |t| && r.tokens == st.tokens + [Token(kind, t, line, col)]
  {
    SymbolTaken(st, "", line, col, kind);
    AheadSlice(st.src, st.idx, t);
    assert "" + t == t;
  }

  lemma {:induction false} DigitsRead(st: State, t: string, acc: string, line: nat, col: nat)
    requires Ahead(st.src, st.idx, t) && (forall k | 0 <= k < |t| :: IsDigit(t[k])) && EndsWord(st.src, st.idx + |t|)
    ensures
      var r := NumberRest(st, acc, false, line, col);
      r.src == st.src && r.idx == st.idx + |t| && r.tokens == st.tokens + [Token(Number, acc + t, line, col)]
    decreases |t|
  {
    if t == "" {
      assert acc + t == acc;
    } else {
      AheadFirst(st.src, st.idx, t);
      assert [t[0]] + t[1..] == t;
      AheadSplit(st.src, st.idx, [t[0]], t[1..]);
      DigitsRead(Advance(st), t[1..], acc + [t[0]], line, col);
      Recons(acc, t);
    }
  }

  lemma {:induction false} NumberIsRead(st: State, b: Bare)
    requires b.kind.Number? && Writable(b) && Ahead(st.src, st.idx, Written(b)) && EndsWord(st.src, st.idx + |Written(b)|)
    ensures !AtEnd(st) && TokenRead(st, TokenAt(st), b)
  {
    if AllDigits(b.value) {
      PositiveIsRead(st, b.value);
    } else {
      NegativeIsRead(st, b.value);
    }
  }

  lemma {:induction false} PositiveIsRead(st: State, t: string)
    requires AllDigits(t) && Ahead(st.src, st.idx, t) && EndsWord(st.src, st.idx + |t|)
    ensures !AtEnd(st)
    ensures
      var r := TokenAt(st);
      r.src == st.src && r.idx == st.idx + |t| && r.tokens == st.tokens + [Token(Number, t, st.line, st.col)]
  {
    AheadFirst(st.src, st.idx, t);
    DigitsRead(st, t, "", st.line, st.col);
    assert "" + t == t;
  }

  lemma {:induction false} NegativeIsRead(st: State, t: string)
    requires t != "" && t[0] == '-' && AllDigits(t[1..]) && Ahead(st.src, st.idx, t) && EndsWord(st.src, st.idx + |t|)
    ensures !AtEnd(st)
    ensures
      var r := TokenAt(st);
      r.src == st.src && r.idx == st.idx + |t| && r.tokens == st.tokens + [Token(Number, t, st.line, st.col)]
  {
    assert ['-'] + t[1..] == t;
    AheadSplit(st.src, st.idx, ['-'], t[1..]);
    AheadFirst(st.src, st.idx, ['-']);
    AheadFirst(st.src, st.idx + 1, t[1..]);
    DigitsRead(Advance(st), t[1..], ['-'], st.line, st.col);
  }

  lemma {:induction false} NamesAreRead(st: State, b: Bare)
    requires (b.kind.Symbol? || b.kind.Variable? || b.kind.Keyword?) && Writable(b)
    requires Ahead(st.src, st.idx, Written(b)) && EndsWord(st.src, st.idx + |Written(b)|)
    ensures !AtEnd(st) && TokenRead(st, TokenAt(st), b)
  {
    AheadFirst(st.src, st.idx, Written(b));
    if b.kind.Symbol? {
      NameRead(st, b.value, st.line, st.col, Symbol);
      SymbolStarts(st, b.value);
    } else {
      MarkedIsRead(st, if b.kind.Variable? then '$' else ':', b);
    }
  }

  lemma {:induction false} MarkedIsRead(st: State, mark: char, b: Bare)
    requires (mark == '$' && b.kind.Variable?) || (mark == ':' && b.kind.Keyword?)
    requires AllSymbolChars(b.value) && Ahead(st.src, st.idx, [mark] + b.value) && EndsWord(st.src, st.idx + 1 + |b.value|)
    ensures !AtEnd(st) && TokenRead(st, TokenAt(st), b)
  {
    AheadSplit(st.src, st.idx, [mark], b.value);
    AheadFirst(st.src, st.idx, [mark]);
    NameRead(Advance(st), b.value, st.line, st.col, b.kind);
  }

  /** A name that does not look like a number is read as a name. */
  lemma {:induction false} SymbolStarts(st: State, t: string)
    requires t != "" && AllSymbolChars(t) && !LooksNumeric(t) && Ahead(st.src, st.idx, t) && EndsWord(st.src, st.idx + |t|)
    ensures !AtEnd(st) && TokenAt(st) == SymbolRest(st, "", st.line, st.col, Symbol)
  {
    AheadFirst(st.src, st.idx, t);
    assert IsSymbolChar(t[0]);
    if t[0] == '-' && PeekAt(st, 1).Some? {
      if |t| > 1 {
        assert st.src[st.idx + 1] == t[1];
      }
    }
  }

  lemma {:induction false} StringIsRead(st: State, b: Bare)
    requires b.kind.StringLit? && Ahead(st.src, st.idx, Written(b))
    ensures !AtEnd(st) && TokenRead(st, TokenAt(st), b)
  {
    AheadFirst(st.src, st.idx, Written(b));
    LiteralReadsBack(st, b.value);
    assert SkipWs(st) == st && ReadToken(st) == TokenAt(st);
  }

  lemma {:induction false} MarkIsRead(st: State, b: Bare)
    requires !IsWord(b) && !b.kind.StringLit? && Writable(b) && Ahead(st.src, st.idx, Written(b))
    ensures !AtEnd(st) && TokenRead(st, TokenAt(st), b)
  {
    AheadFirst(st.src, st.idx, Written(b));
    assert b.value == [b.value[0]];
  }

  lemma {:induction false} OneIsRead(st: State, b: Bare)
    requires Writable(b) && Ahead(st.src, st.idx, Written(b)) && (IsWord(b) ==> EndsWord(st.src, st.idx + |Written(b)|))
    ensures !AtEnd(st) && TokenRead(st, TokenAt(st), b)
  {
    if b.kind.Number? {
      NumberIsRead(st, b);
    } else if IsWord(b) {
      NamesAreRead(st, b);
    } else if b.kind.StringLit? {
      StringIsRead(st, b);
    } else {
      MarkIsRead(st, b);
    }
  }

  lemma {:induction false} StartsNoSpace(b: Bare)
    requires Writable(b)
    ensures Written(b) != "" && !IsSpace(Written(b)[0]) && Written(b)[0] != ';'
  {
    if b.kind.Number? || b.kind.Symbol? {
      assert IsDigit(b.value[0]) || b.value[0] == '-' || IsSymbolChar(b.value[0]);
    }
  }

  // ---------- Whole texts ----------

  /** A token with the white space in front of it. */
  datatype Piece = Piece(space: string, token: Bare)

  /** The tokens as written, with `tail` behind the last one. */
  function Layout(pieces: seq<Piece>, tail: string): string {
    if pieces == [] then tail else pieces[0].space + (Written(pieces[0].token) + Layout(pieces[1..], tail))
  }

  function TokensOf(pieces: seq<Piece>): seq<Bare> {
    if pieces == [] then [] else [pieces[0].token] + TokensOf(pieces[1..])
  }

  /** White space is required only where a word would go on. */
  predicate WellSpaced(pieces: seq<Piece>, tail: string) {
    if pieces == [] then White(tail)
    else
      White(pieces[0].space) && Writable(pieces[0].token)
      && (IsWord(pieces[0].token) ==> EndsWord(Layout(pieces[1..], tail), 0))
      && WellSpaced(pieces[1..], tail)
  }

  lemma {:induction false} BaresMore(toks: seq<Token>, b: Bare, line: nat, col: nat)
    ensures Bares(toks + [Token(b.kind, b.value, line, col)]) == Bares(toks) + [b]
  {
    assert (toks + [Token(b.kind, b.value, line, col)])[..|toks|] == toks;
  }

  /** White space and a token: the lexer skips the one and adds the other. */
  lemma {:induction false} SpaceThenToken(st: State, space: string, b: Bare, rest: string) returns (r: State)
    requires White(space) && Writable(b) && (IsWord(b) ==> EndsWord(rest, 0))
    requires Ahead(st.src, st.idx, space + (Written(b) + rest)) && st.idx + |space + (Written(b) + rest)| == |st.src|
    ensures LexFrom(st) == LexFrom(r)
    ensures r.src == st.src && Bares(r.tokens) == Bares(st.tokens) + [b]
    ensures Ahead(r.src, r.idx, rest) && r.idx + |rest| == |r.src|
  {
    StartsNoSpace(b);
    var ws := SpaceSkipped(st, space, Written(b), rest);
    r := NextToken(st, ws, b);
    BaresMore(st.tokens, b, ws.line, ws.col);
  }

  lemma {:induction false} SpaceSkipped(st: State, space: string, text: string, rest: string) returns (ws: State)
    requires White(space) && text != "" && !IsSpace(text[0]) && text[0] != ';'
    requires Ahead(st.src, st.idx, space + (text + rest)) && st.idx + |space + (text + rest)| == |st.src|
    ensures ws == SkipWs(st) && ws.src == st.src && ws.tokens == st.tokens && !AtEnd(ws)
    ensures Ahead(ws.src, ws.idx, text) && ws.idx + |text| + |rest| == |ws.src| && Ahead(ws.src, ws.idx + |text|, rest)
    ensures EndsWord(rest, 0) ==> EndsWord(ws.src, ws.idx + |text|)
  {
    var q := st.idx + |space|;
    AheadSplit(st.src, st.idx, space, text + rest);
    AheadSplit(st.src, q, text, rest);
    AheadFirst(st.src, q, text);
    WhiteSkipped(st, space);
    ws := SkipWs(st);
    if rest != "" {
      AheadFirst(st.src, q + |text|, rest);
    }
  }

  lemma {:induction false} NextToken(st: State, ws: State, b: Bare) returns (r: State)
    requires ws == SkipWs(st) && !AtEnd(ws)
    requires Writable(b) && Ahead(ws.src, ws.idx, Written(b)) && (IsWord(b) ==> EndsWord(ws.src, ws.idx + |Written(b)|))
    ensures LexFrom(st) == LexFrom(r) && TokenRead(ws, r, b)
  {
    OneIsRead(ws, b);
    r := TokenAt(ws);
    assert SkipWs(ws) == ws;
    TokenProgress(ws);
  }

  lemma {:induction false} LayoutLexes(st: State, pieces: seq<Piece>, tail: string)
    requires WellSpaced(pieces, tail) && Ahead(st.src, st.idx, Layout(pieces, tail))
    requires st.idx + |Layout(pieces, tail)| == |st.src|
    ensures Bares(LexFrom(st)) == Bares(st.tokens) + TokensOf(pieces)
    decreases |pieces|
  {
    if pieces == [] {
      WhiteSkipped(st, tail);
      assert Bares(st.tokens) + [] == Bares(st.tokens);
    } else {
      var r := SpaceThenToken(st, pieces[0].space, pieces[0].token, Layout(pieces[1..], tail));
      LayoutLexes(r, pieces[1..], tail);
      Assoc(Bares(st.tokens), [pieces[0].token], TokensOf(pieces[1..]));
    }
  }

  /** Whatever the layout, the lexer gives the tokens that were written. */
  lemma {:induction false} AnyLayoutLexes(pieces: seq<Piece>, tail: string)
    requires WellSpaced(pieces, tail)
    ensures Bares(Lex(Layout(pieces, tail))) == TokensOf(pieces)
  {
    var st := Start(Layout(pieces, tail));
    AheadSelf(st.src);
    LayoutLexes(st, pieces, tail);
    assert Bares([]) + TokensOf(pieces) == TokensOf(pieces);
  }
}
