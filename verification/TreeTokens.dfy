/** The other direction of the parser: the tokens of a tree are parsed to that tree. */
module TreeTokens {
  import opened Wrappers
  import opened Lexer
  import opened Sequences
  import opened TokenParser

  /** Tokens without their positions. */
  function Bares(toks: seq<Token>): (r: seq<Bare>)
    ensures |r| == |toks| && forall k | 0 <= k < |r| :: r[k] == Bare(toks[k].kind, toks[k].value)
  {
    if toks == [] then [] else Bares(toks[..|toks| - 1]) + [Bare(toks[|toks| - 1].kind, toks[|toks| - 1].value)]
  }

  // ---------- Trees the parser makes ----------

  /** A list head that is written as one token and read as itself; `and`, `or` and `try` make other trees. */
  predicate RegularHead(op: Op) {
    op.Name? ==>
      op.text != "" && op.text != "true" && op.text != "false" && !IsNil(op.text)
      && op.text != "and" && op.text != "or" && op.text != "try"
  }

  /** A bracket behind which no named block begins. */
  predicate RegularStart(bares: seq<Bare>) {
    bares != [] ==> !(bares[0].kind.Symbol? && bares[0].value != "" && 'A' <= bares[0].value[0] <= 'Z')
  }

  predicate Regular(n: Node)
    decreases n, 1
  {
    match n
    case Literal(NumberLit, _) => true
    case Literal(StringLitType, v) => !HasTemplate(v)
    case Literal(SymbolLit, v) => v != "true" && v != "false" && !IsNil(v)
    case Literal(UnknownLit, v) => v != "@"
    case TemplateString(parts) => HasTemplate(parts)
    case SExpr(op, args) => (RegularHead(op) || (op == Name("") && args == [])) && AllRegular(args)
    case AndNode(args) => AllRegular(args)
    case OrNode(args) => AllRegular(args)
    case ArrayBlock(items) => AllRegular(items) && RegularStart(FlattenAll(items))
    case MapBlock(items) => AllRegular(items)
    case Try(_, _, _) => false
    case NamedBlock(_, _, _) => false
    case _ => true
  }

  predicate AllRegular(ns: seq<Node>)
    decreases ns, 0
  {
    forall k | 0 <= k < |ns| :: Regular(ns[k])
  }

  /** The node of a list, with its head back in place. */
  function HeadNode(op: Op): Node {
    match op
    case Name(s) => if s != "" && s[0] == '$' then VariableNode(s[1..]) else Literal(SymbolLit, s)
    case BoolOp(b) => Boolean(b)
    case NilOp => NilNode
  }

  lemma {:induction false} HeadBack(op: Op)
    requires RegularHead(op)
    ensures Regular(HeadNode(op)) && Flatten(HeadNode(op)) == FlattenOp(op) && OpOf(HeadNode(op)) == op
  {
    if op.Name? && op.text[0] == '$' {
      assert "$" + op.text[1..] == op.text;
    }
  }

  predicate IsList(n: Node) {
    n.SExpr? || n.AndNode? || n.OrNode?
  }

  /** The parts of a list, head included. */
  function Elements(n: Node): seq<Node>
    requires IsList(n)
  {
    match n
    case SExpr(op, args) => if op == Name("") then [] else [HeadNode(op)] + args
    case AndNode(args) => [Literal(SymbolLit, "and")] + args
    case OrNode(args) => [Literal(SymbolLit, "or")] + args
  }

  lemma {:induction false} ListBack(n: Node)
    requires Regular(n) && IsList(n)
    ensures MakeSExpr(Elements(n)) == n && AllRegular(Elements(n))
    ensures Flatten(n) == Wrapped(LParen, "(", FlattenAll(Elements(n)), RParen, ")")
  {
    if Elements(n) != [] {
      var head := Elements(n)[0];
      assert Elements(n) == [head] + n.args && Elements(n)[1..] == n.args;
      FlattenCons(head, n.args);
      HeadIsRegular(n);
    }
  }

  lemma {:induction false} HeadIsRegular(n: Node)
    requires Regular(n) && IsList(n) && Elements(n) != []
    ensures
      var head := Elements(n)[0];
      var op := if n.SExpr? then n.op else Name(if n.AndNode? then "and" else "or");
      Regular(head) && Flatten(head) == FlattenOp(op) && OpOf(head) == op
  {
    if n.SExpr? {
      HeadBack(n.op);
    }
  }

  // ---------- Parsing them ----------

  lemma {:induction false} TokenAhead(toks: seq<Token>, i: nat, bare: Bare)
    requires Ahead(Bares(toks), i, [bare])
    ensures i < |toks| && toks[i].kind == bare.kind && toks[i].value == bare.value
  {
    AheadFirst(Bares(toks), i, [bare]);
  }

  /** A tree that is one token. */
  predicate IsAtom(n: Node) {
    n.Literal? || n.Boolean? || n.NilNode? || n.TemplateString? || n.VariableNode? || n.KeywordNode?
  }

  lemma {:induction false} AtomParsed(toks: seq<Token>, i: nat, n: Node)
    requires Regular(n) && IsAtom(n) && Ahead(Bares(toks), i, Flatten(n))
    ensures i < |toks| && ParseExpr(toks, i) == Parsed(i + |Flatten(n)|, n)
  {
    AheadFirst(Bares(toks), i, Flatten(n));
    assert AtomOf(toks[i]) == n;
  }

  /** What is inside the brackets of a tree, and the brackets. */
  function Inside(n: Node): seq<Node> {
    if n.ArrayBlock? || n.MapBlock? then n.items else if IsList(n) then Elements(n) else []
  }

  function Opener(n: Node): Bare {
    if n.ArrayBlock? then Bare(LBracket, "[") else if n.MapBlock? then Bare(LBrace, "{") else Bare(LParen, "(")
  }

  function Ender(n: Node): Bare {
    if n.ArrayBlock? then Bare(RBracket, "]") else if n.MapBlock? then Bare(RBrace, "}") else Bare(RParen, ")")
  }

  lemma {:induction false} BracketTokens(n: Node)
    requires Regular(n) && !IsAtom(n)
    ensures AllRegular(Inside(n)) && Flatten(n) == [Opener(n)] + FlattenAll(Inside(n)) + [Ender(n)]
  {
    if IsList(n) {
      ListBack(n);
    }
  }

  lemma {:induction false} BracketsAhead(toks: seq<Token>, i: nat, open: Bare, inner: seq<Bare>, close: Bare)
    requires Ahead(Bares(toks), i, [open] + inner + [close])
    ensures
      var j := i + 1 + |inner|;
      j < |toks| && toks[i].kind == open.kind && toks[j].kind == close.kind && Ahead(Bares(toks), i + 1, inner)
  {
    AheadSplit(Bares(toks), i, [open] + inner, [close]);
    AheadSplit(Bares(toks), i, [open], inner);
    TokenAhead(toks, i, open);
    TokenAhead(toks, i + 1 + |inner|, close);
  }

  lemma {:induction false} NoBlockNamed(toks: seq<Token>, i: nat, items: seq<Node>)
    requires RegularStart(FlattenAll(items)) && Ahead(Bares(toks), i, FlattenAll(items))
    requires i + |FlattenAll(items)| < |toks| && toks[i + |FlattenAll(items)|].kind.RBracket?
    ensures !NamesBlock(toks, i)
  {
    if FlattenAll(items) != [] {
      AheadFirst(Bares(toks), i, FlattenAll(items));
    }
  }

  lemma {:induction false} ExprParsed(toks: seq<Token>, i: nat, n: Node)
    requires i <= |toks| && Regular(n) && Ahead(Bares(toks), i, Flatten(n))
    ensures ParseExpr(toks, i) == Parsed(i + |Flatten(n)|, n)
    decreases |toks| - i, 0
  {
    if IsAtom(n) {
      AtomParsed(toks, i, n);
    } else {
      BracketTokens(n);
      BracketsAhead(toks, i, Opener(n), FlattenAll(Inside(n)), Ender(n));
      ArgsParsed(toks, i + 1, Inside(n), []);
      assert [] + Inside(n) == Inside(n);
      BracketParsed(toks, i, n, i + 1 + |FlattenAll(Inside(n))|);
    }
  }

  lemma {:induction false} BracketParsed(toks: seq<Token>, i: nat, n: Node, j: nat)
    requires Regular(n) && !IsAtom(n) && i < j < |toks| && j == i + 1 + |FlattenAll(Inside(n))|
    requires toks[i].kind == Opener(n).kind && toks[j].kind == Ender(n).kind && Ahead(Bares(toks), i + 1, FlattenAll(Inside(n)))
    requires ParseArgs(toks, i + 1, []) == Parsed(j, Inside(n))
    ensures ParseExpr(toks, i) == Parsed(j + 1, n)
  {
    if n.ArrayBlock? {
      NoBlockNamed(toks, i + 1, n.items);
    } else if IsList(n) {
      ListBack(n);
    }
  }

  lemma {:induction false} ArgsParsed(toks: seq<Token>, i: nat, ns: seq<Node>, acc: seq<Node>)
    requires i <= |toks| && AllRegular(ns) && Ahead(Bares(toks), i, FlattenAll(ns))
    requires i + |FlattenAll(ns)| < |toks| && Closes(toks[i + |FlattenAll(ns)|].kind)
    ensures ParseArgs(toks, i, acc) == Parsed(i + |FlattenAll(ns)|, acc + ns)
    decreases |toks| - i, 1
  {
    if ns == [] {
      assert acc + ns == acc;
    } else {
      var j := FirstAhead(toks, i, ns);
      ExprParsed(toks, i, ns[0]);
      StartsNoCloser(toks, i, ns[0]);
      assert ParseArgs(toks, i, acc) == ParseArgs(toks, j, acc + [ns[0]]);
      ArgsParsed(toks, j, ns[1..], acc + [ns[0]]);
      Recons(acc, ns);
    }
  }

  lemma {:induction false} FirstAhead(toks: seq<Token>, i: nat, ns: seq<Node>) returns (j: nat)
    requires ns != [] && Ahead(Bares(toks), i, FlattenAll(ns))
    ensures j == i + |Flatten(ns[0])| <= |toks| && Ahead(Bares(toks), i, Flatten(ns[0]))
    ensures Ahead(Bares(toks), j, FlattenAll(ns[1..])) && j + |FlattenAll(ns[1..])| == i + |FlattenAll(ns)|
  {
    assert [ns[0]] + ns[1..] == ns;
    FlattenCons(ns[0], ns[1..]);
    AheadSplit(Bares(toks), i, Flatten(ns[0]), FlattenAll(ns[1..]));
    j := i + |Flatten(ns[0])|;
  }

  lemma {:induction false} StartsNoCloser(toks: seq<Token>, i: nat, n: Node)
    requires Regular(n) && Ahead(Bares(toks), i, Flatten(n))
    ensures i < |toks| && !Closes(toks[i].kind)
  {
    if IsAtom(n) {
      AheadFirst(Bares(toks), i, Flatten(n));
    } else {
      BracketTokens(n);
      BracketsAhead(toks, i, Opener(n), FlattenAll(Inside(n)), Ender(n));
    }
  }

  lemma {:induction false} AllParsed(toks: seq<Token>, i: nat, ns: seq<Node>, ast: seq<Node>)
    requires i <= |toks| && AllRegular(ns) && Ahead(Bares(toks), i, FlattenAll(ns)) && i + |FlattenAll(ns)| == |toks|
    ensures ParseAll(toks, i, ast) == Parsed(|toks|, ast + ns)
    decreases |toks| - i
  {
    if ns == [] {
      assert ast + ns == ast;
    } else {
      var j := FirstAhead(toks, i, ns);
      ExprParsed(toks, i, ns[0]);
      AllParsed(toks, j, ns[1..], ast + [ns[0]]);
      Recons(ast, ns);
    }
  }

  /** Tokens that spell regular trees are parsed to exactly these trees, wherever the tokens stand in their lines. */
  lemma {:induction false} TreesComeBack(toks: seq<Token>, ns: seq<Node>)
    requires AllRegular(ns) && Bares(toks) == FlattenAll(ns)
    ensures Parse(toks) == Parsed(|toks|, ns)
  {
    AheadSelf(Bares(toks));
    AllParsed(toks, 0, ns, []);
    assert [] + ns == ns;
  }
}
