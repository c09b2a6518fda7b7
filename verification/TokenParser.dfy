/** The recursive-descent parser of target-gen1.c, over the lexer's tokens. Line numbers of nodes are left out. */
module TokenParser {
  import opened Wrappers
  import opened Lexer
  import opened Sequences

  datatype LiteralType = NumberLit | StringLitType | SymbolLit | UnknownLit

  /** The head of a list: text, or the value of a literal that is no text. */
  datatype Op = Name(text: string) | BoolOp(b: bool) | NilOp

  datatype Field = Field(key: string, value: Node)

  datatype Node =
    | Literal(kind: LiteralType, value: string)
    | Boolean(b: bool)
    | NilNode
    | TemplateString(parts: string)
    | VariableNode(name: string)
    | KeywordNode(name: string)
    | SExpr(op: Op, args: seq<Node>)
    | AndNode(args: seq<Node>)
    | OrNode(args: seq<Node>)
    | Try(body: Option<Node>, handler: Option<Node>, finalizer: Option<Node>)
    | ArrayBlock(items: seq<Node>)
    | MapBlock(items: seq<Node>)
    | NamedBlock(blockType: string, blockName: Option<string>, fields: seq<Field>)

  /** `get` on the missing token throws. */
  datatype Parsed<T> = Parsed(at: nat, node: T) | Throw

  predicate Closes(k: Kind) {
    k.RParen? || k.RBracket? || k.RBrace?
  }

  /** Does the text contain a dollar sign followed by an opening brace? */
  predicate HasTemplate(s: string) {
    exists i | 0 <= i < |s| - 1 :: s[i] == '$' && s[i + 1] == '{'
  }

  function AtomOf(t: Token): Node {
    match t.kind
    case Number => Literal(NumberLit, t.value)
    case StringLit => if HasTemplate(t.value) then TemplateString(t.value) else Literal(StringLitType, t.value)
    case Symbol => SymbolNode(t.value)
    case Variable => VariableNode(t.value)
    case Keyword => KeywordNode(t.value)
    case _ => Literal(UnknownLit, t.value)
  }

  predicate IsNil(s: string) {
    s == "nil" || s == "null"
  }

  function SymbolNode(s: string): Node {
    if s == "true" then Boolean(true) else if s == "false" then Boolean(false)
    else if IsNil(s) then NilNode
    else Literal(SymbolLit, s)
  }

  function OpOf(n: Node): Op {
    match n
    case Literal(_, v) => Name(v)
    case Boolean(b) => BoolOp(b)
    case NilNode => NilOp
    case VariableNode(x) => Name("$" + x)
    case _ => Name("unknown")
  }

  function Nth(ns: seq<Node>, i: nat): Option<Node> {
    if i < |ns| then Some(ns[i]) else None
  }

  /** `(loop ...)` and every other operator give a plain list: the array test for loops asks for a node kind
      no array has. */
  function MakeSExpr(args: seq<Node>): Node {
    if args == [] then SExpr(Name(""), [])
    else
      var op, rest := OpOf(args[0]), args[1..];
      if op == Name("try") then Try(Nth(rest, 0), Nth(rest, 1), Nth(rest, 2))
      else if op == Name("and") then AndNode(rest)
      else if op == Name("or") then OrNode(rest)
      else SExpr(op, rest)
  }

  function Consume(toks: seq<Token>, i: nat, k: Kind): nat {
    if i < |toks| && toks[i].kind == k then i + 1 else i
  }

  predicate NamesBlock(toks: seq<Token>, i: nat) {
    i < |toks| && toks[i].kind.Symbol? && toks[i].value != "" && 'A' <= toks[i].value[0] <= 'Z'
  }

  function SetField(fields: seq<Field>, key: string, value: Node): seq<Field> {
    if fields == [] then [Field(key, value)]
    else if fields[0].key == key then [Field(key, value)] + fields[1..]
    else [fields[0]] + SetField(fields[1..], key, value)
  }

  // ---------- The parser ----------

  /** Consumes at least one token, whatever the tokens. */
  function ParseExpr(toks: seq<Token>, i: nat): (r: Parsed<Node>)
    requires i <= |toks|
    ensures r.Parsed? ==> i < r.at <= |toks|
    decreases |toks| - i, 2
  {
    if i == |toks| then Throw
    else
      var t := toks[i];
      if t.kind.LParen? then
        match ParseArgs(toks, i + 1, [])
        case Throw => Throw
        case Parsed(j, args) => Parsed(Consume(toks, j, RParen), MakeSExpr(args))
      else if t.kind.LBracket? then
        if NamesBlock(toks, i + 1) then ParseNamedBlock(toks, i + 1)
        else
          match ParseArgs(toks, i + 1, [])
          case Throw => Throw
          case Parsed(j, items) => Parsed(Consume(toks, j, RBracket), ArrayBlock(items))
      else if t.kind.LBrace? then
        match ParseArgs(toks, i + 1, [])
        case Throw => Throw
        case Parsed(j, items) => Parsed(Consume(toks, j, RBrace), MapBlock(items))
      else if t.kind.Unknown? && t.value == "@" then
        match ParseExpr(toks, i + 1)
        case Throw => Throw
        case Parsed(j, node) => Parsed(j, SExpr(Name("deref"), [node]))
      else Parsed(i + 1, AtomOf(t))
  }

  /** Expressions up to a closing bracket of any kind, or the end. */
  function ParseArgs(toks: seq<Token>, i: nat, acc: seq<Node>): (r: Parsed<seq<Node>>)
    requires i <= |toks|
    ensures r.Parsed? ==> i <= r.at <= |toks| && (r.at == |toks| || Closes(toks[r.at].kind))
    decreases |toks| - i, 3
  {
    if i == |toks| || Closes(toks[i].kind) then Parsed(i, acc)
    else
      match ParseExpr(toks, i)
      case Throw => Throw
      case Parsed(j, node) => ParseArgs(toks, j, acc + [node])
  }

  function ParseNamedBlock(toks: seq<Token>, i: nat): (r: Parsed<Node>)
    requires i < |toks|
    ensures r.Parsed? ==> i < r.at <= |toks|
    decreases |toks| - i, 2
  {
    var j := i + 1;
    var named := j < |toks| && toks[j].kind.Symbol? && !(toks[j].value != "" && toks[j].value[0] == ':');
    var name := if named then Some(toks[j].value) else None;
    match ParseFields(toks, if named then j + 1 else j, [])
    case Throw => Throw
    case Parsed(k, fields) => Parsed(Consume(toks, k, RBracket), NamedBlock(toks[i].value, name, fields))
  }

  function ParseFields(toks: seq<Token>, i: nat, acc: seq<Field>): (r: Parsed<seq<Field>>)
    requires i <= |toks|
    ensures r.Parsed? ==> i <= r.at <= |toks|
    decreases |toks| - i, 1
  {
    if i == |toks| || !toks[i].kind.Keyword? then Parsed(i, acc)
    else
      match ParseExpr(toks, i + 1)
      case Throw => Throw
      case Parsed(j, node) => ParseFields(toks, j, SetField(acc, toks[i].value, node))
  }

  function ParseAll(toks: seq<Token>, i: nat, ast: seq<Node>): Parsed<seq<Node>>
    requires i <= |toks|
    decreases |toks| - i
  {
    if i == |toks| then Parsed(i, ast)
    else
      match ParseExpr(toks, i)
      case Throw => Throw
      case Parsed(j, node) => ParseAll(toks, j, ast + [node])
  }

  function Parse(toks: seq<Token>): Parsed<seq<Node>> {
    ParseAll(toks, 0, [])
  }

  // ---------- When it throws ----------

  predicate WantsMore(t: Token) {
    t.kind.Keyword? || (t.kind.Unknown? && t.value == "@")
  }

  predicate EndsEarly(toks: seq<Token>) {
    toks != [] && WantsMore(toks[|toks| - 1])
  }

  lemma {:induction false} ExprThrows(toks: seq<Token>, i: nat)
    requires i < |toks| && ParseExpr(toks, i).Throw?
    ensures EndsEarly(toks)
    decreases |toks| - i, 2
  {
    var t := toks[i];
    if t.kind.LBracket? && NamesBlock(toks, i + 1) {
      var j := i + 2;
      var named := j < |toks| && toks[j].kind.Symbol? && !(toks[j].value != "" && toks[j].value[0] == ':');
      FieldsThrow(toks, if named then j + 1 else j, []);
    } else if t.kind.LParen? || t.kind.LBracket? || t.kind.LBrace? {
      ArgsThrow(toks, i + 1, []);
    } else if i + 1 < |toks| {
      ExprThrows(toks, i + 1);
    }
  }

  lemma {:induction false} ArgsThrow(toks: seq<Token>, i: nat, acc: seq<Node>)
    requires i <= |toks| && ParseArgs(toks, i, acc).Throw?
    ensures EndsEarly(toks)
    decreases |toks| - i, 3
  {
    var one := ParseExpr(toks, i);
    if one.Throw? {
      ExprThrows(toks, i);
    } else {
      ArgsThrow(toks, one.at, acc + [one.node]);
    }
  }

  lemma {:induction false} FieldsThrow(toks: seq<Token>, i: nat, acc: seq<Field>)
    requires i <= |toks| && ParseFields(toks, i, acc).Throw?
    ensures EndsEarly(toks)
    decreases |toks| - i, 1
  {
    if i + 1 < |toks| {
      var one := ParseExpr(toks, i + 1);
      if one.Throw? {
        ExprThrows(toks, i + 1);
      } else {
        FieldsThrow(toks, one.at, SetField(acc, toks[i].value, one.node));
      }
    }
  }

  /** On any token sequence the parser ends; it throws only where the text stops right after a token that
      needs another. */
  lemma {:induction false} ThrowsOnlyAtTheEnd(toks: seq<Token>, i: nat, ast: seq<Node>)
    requires i <= |toks| && ParseAll(toks, i, ast).Throw?
    ensures EndsEarly(toks)
    decreases |toks| - i
  {
    var one := ParseExpr(toks, i);
    if one.Throw? {
      ExprThrows(toks, i);
    } else {
      ThrowsOnlyAtTheEnd(toks, one.at, ast + [one.node]);
    }
  }

  // ---------- Nothing lost, nothing invented ----------

  /** A token without its position. */
  datatype Bare = Bare(kind: Kind, value: string)

  /** Brackets by their kind alone, and one spelling of nil. */
  function Canon(t: Token): Bare {
    match t.kind
    case LParen => Bare(LParen, "(")
    case RParen => Bare(RParen, ")")
    case LBracket => Bare(LBracket, "[")
    case RBracket => Bare(RBracket, "]")
    case LBrace => Bare(LBrace, "{")
    case RBrace => Bare(RBrace, "}")
    case Symbol => Bare(Symbol, if IsNil(t.value) then "nil" else t.value)
    case k => Bare(k, t.value)
  }

  function CanonFrom(toks: seq<Token>, i: nat, j: nat): seq<Bare>
    requires i <= j <= |toks|
    decreases j - i
  {
    if i == j then [] else [Canon(toks[i])] + CanonFrom(toks, i + 1, j)
  }

  function FlattenOp(op: Op): seq<Bare> {
    match op
    case Name(s) => if s == "" then [] else if s[0] == '$' then [Bare(Variable, s[1..])] else [Bare(Symbol, s)]
    case BoolOp(b) => [Bare(Symbol, if b then "true" else "false")]
    case NilOp => [Bare(Symbol, "nil")]
  }

  function Wrapped(open: Kind, a: string, inner: seq<Bare>, close: Kind, b: string): seq<Bare> {
    [Bare(open, a)] + inner + [Bare(close, b)]
  }

  /** The tokens a tree stands for. */
  function Flatten(n: Node): seq<Bare>
    decreases n
  {
    match n
    case Literal(NumberLit, v) => [Bare(Number, v)]
    case Literal(StringLitType, v) => [Bare(StringLit, v)]
    case Literal(SymbolLit, v) => [Bare(Symbol, v)]
    case Literal(UnknownLit, v) => [Bare(Unknown, v)]
    case Boolean(b) => [Bare(Symbol, if b then "true" else "false")]
    case NilNode => [Bare(Symbol, "nil")]
    case TemplateString(parts) => [Bare(StringLit, parts)]
    case VariableNode(x) => [Bare(Variable, x)]
    case KeywordNode(x) => [Bare(Keyword, x)]
    case SExpr(op, args) => Wrapped(LParen, "(", FlattenOp(op) + FlattenAll(args), RParen, ")")
    case AndNode(args) => Wrapped(LParen, "(", [Bare(Symbol, "and")] + FlattenAll(args), RParen, ")")
    case OrNode(args) => Wrapped(LParen, "(", [Bare(Symbol, "or")] + FlattenAll(args), RParen, ")")
    case ArrayBlock(items) => Wrapped(LBracket, "[", FlattenAll(items), RBracket, "]")
    case MapBlock(items) => Wrapped(LBrace, "{", FlattenAll(items), RBrace, "}")
    case _ => []
  }

  function FlattenAll(ns: seq<Node>): seq<Bare>
    decreases ns
  {
    if ns == [] then [] else FlattenAll(ns[..|ns| - 1]) + Flatten(ns[|ns| - 1])
  }

  /** Which bracket closes which. */
  function Closer(k: Kind): Option<Kind> {
    match k
    case LParen => Some(RParen)
    case LBracket => Some(RBracket)
    case LBrace => Some(RBrace)
    case _ => None
  }

  /** The brackets from i on match, given the closers still owed. */
  predicate Balanced(toks: seq<Token>, i: nat, owed: seq<Kind>)
    requires i <= |toks|
    decreases |toks| - i
  {
    if i == |toks| then owed == []
    else
      var k := toks[i].kind;
      if Closer(k).Some? then Balanced(toks, i + 1, [Closer(k).value] + owed)
      else if Closes(k) then owed != [] && owed[0] == k && Balanced(toks, i + 1, owed[1..])
      else Balanced(toks, i + 1, owed)
  }

  /** A list starts with a variable, or with a symbol that is not a constant, not `try`, not empty. */
  predicate GoodHead(t: Token) {
    t.kind.Variable?
    || (t.kind.Symbol? && t.value != "" && t.value[0] != '$' && t.value != "true" && t.value != "false"
        && !IsNil(t.value) && t.value != "try")
    || t.kind.RParen?
  }

  /** What the parser keeps apart: no dereference sign, good heads, no named block. */
  predicate KeptAt(toks: seq<Token>, i: nat)
    requires i < |toks|
  {
    !(toks[i].kind.Unknown? && toks[i].value == "@")
    && (toks[i].kind.LParen? ==> i + 1 < |toks| && GoodHead(toks[i + 1]))
    && (toks[i].kind.LBracket? ==> !NamesBlock(toks, i + 1))
  }

  ghost predicate AllKept(toks: seq<Token>) {
    forall i | 0 <= i < |toks| :: KeptAt(toks, i)
  }

  lemma {:induction false} CanonSplit(toks: seq<Token>, i: nat, j: nat, k: nat)
    requires i <= j <= k <= |toks|
    ensures CanonFrom(toks, i, k) == CanonFrom(toks, i, j) + CanonFrom(toks, j, k)
    decreases j - i
  {
    if i < j {
      CanonSplit(toks, i + 1, j, k);
    }
  }

  lemma {:induction false} FlattenConcat(a: seq<Node>, b: seq<Node>)
    ensures FlattenAll(a + b) == FlattenAll(a) + FlattenAll(b)
    decreases |b|
  {
    if b == [] {
      assert a + b == a;
    } else {
      var init, last := b[..|b| - 1], b[|b| - 1];
      FlattenConcat(a, init);
      assert b == init + [last];
      Assoc(a, init, [last]);
      FlattenSnoc(a + init, last);
      Assoc(FlattenAll(a), FlattenAll(init), Flatten(last));
    }
  }

  lemma {:induction false} FlattenCons(n: Node, ns: seq<Node>)
    ensures FlattenAll([n] + ns) == Flatten(n) + FlattenAll(ns)
  {
    FlattenConcat([n], ns);
    FlattenSnoc([], n);
    assert [] + [n] == [n] && FlattenAll([]) + Flatten(n) == Flatten(n);
  }

  lemma {:induction false} FlattenSnoc(ns: seq<Node>, n: Node)
    ensures FlattenAll(ns + [n]) == FlattenAll(ns) + Flatten(n)
  {
    assert (ns + [n])[..|ns|] == ns;
  }

  /** A bracketed stretch, from the opening bracket to the closing one. */
  lemma {:induction false} CanonWrapped(toks: seq<Token>, i: nat, j: nat)
    requires i < j < |toks|
    ensures CanonFrom(toks, i, j + 1) == [Canon(toks[i])] + CanonFrom(toks, i + 1, j) + [Canon(toks[j])]
  {
    CanonOne(toks, i);
    CanonOne(toks, j);
    CanonSplit(toks, i + 1, j, j + 1);
    CanonSplit(toks, i, i + 1, j + 1);
    Assoc(CanonFrom(toks, i, i + 1), CanonFrom(toks, i + 1, j), CanonFrom(toks, j, j + 1));
  }

  lemma {:induction false} CanonOne(toks: seq<Token>, i: nat)
    requires i < |toks|
    ensures CanonFrom(toks, i, i + 1) == [Canon(toks[i])]
  {
    assert CanonFrom(toks, i + 1, i + 1) == [];
  }

  /** A list node stands for its elements, head included. */
  lemma {:induction false} ListKept(args: seq<Node>, head: Token)
    requires args == [] || (!head.kind.RParen? && GoodHead(head) && args[0] == AtomOf(head))
    ensures Flatten(MakeSExpr(args)) == Wrapped(LParen, "(", FlattenAll(args), RParen, ")")
  {
    if args == [] {
      assert [] + FlattenAll([]) == FlattenAll([]);
    } else {
      FlattenCons(args[0], args[1..]);
      assert [args[0]] + args[1..] == args;
      HeadKept(head);
    }
  }

  lemma {:induction false} HeadKept(head: Token)
    requires !head.kind.RParen? && GoodHead(head)
    ensures
      var op := OpOf(AtomOf(head));
      Flatten(AtomOf(head)) == FlattenOp(op) && op.Name? && op.text != "" && op.text != "try"
  {
    if head.kind.Variable? {
      assert ("$" + head.value)[1..] == head.value && ("$" + head.value)[0] == '$';
      assert "try"[0] == 't';
    }
  }

  lemma {:induction false} AtomKept(toks: seq<Token>, i: nat)
    requires i < |toks| && !Closes(toks[i].kind) && Closer(toks[i].kind).None?
    ensures Flatten(AtomOf(toks[i])) == CanonFrom(toks, i, i + 1)
  {
  }

  lemma {:induction false} ExprKept(toks: seq<Token>, i: nat, owed: seq<Kind>)
    requires AllKept(toks) && i < |toks| && Balanced(toks, i, owed) && !Closes(toks[i].kind)
    ensures
      var r := ParseExpr(toks, i);
      r.Parsed? && Flatten(r.node) == CanonFrom(toks, i, r.at) && Balanced(toks, r.at, owed)
    decreases |toks| - i, 2
  {
    assert KeptAt(toks, i);
    if Closer(toks[i].kind).Some? {
      BracketKept(toks, i, owed);
    } else {
      AtomKept(toks, i);
    }
  }

  lemma {:induction false} BracketKept(toks: seq<Token>, i: nat, owed: seq<Kind>)
    requires AllKept(toks) && i < |toks| && Balanced(toks, i, owed) && Closer(toks[i].kind).Some?
    ensures
      var r := ParseExpr(toks, i);
      r.Parsed? && Flatten(r.node) == CanonFrom(toks, i, r.at) && Balanced(toks, r.at, owed)
    decreases |toks| - i, 1
  {
    assert KeptAt(toks, i);
    var close := Closer(toks[i].kind).value;
    ArgsKept(toks, i + 1, [close] + owed, []);
    var args := ParseArgs(toks, i + 1, []);
    assert ([close] + owed)[1..] == owed;
    assert FlattenAll([]) + CanonFrom(toks, i + 1, args.at) == CanonFrom(toks, i + 1, args.at);
    CanonWrapped(toks, i, args.at);
    if toks[i].kind.LParen? {
      HeadIsFirst(toks, i + 1);
      ListKept(args.node, toks[i + 1]);
    }
  }

  /** The first element of a list is the atom right after the bracket. */
  lemma {:induction false} HeadIsFirst(toks: seq<Token>, i: nat)
    requires AllKept(toks) && i < |toks| && GoodHead(toks[i]) && ParseArgs(toks, i, []).Parsed?
    ensures
      var args := ParseArgs(toks, i, []).node;
      if toks[i].kind.RParen? then args == [] else args != [] && args[0] == AtomOf(toks[i])
  {
    if !toks[i].kind.RParen? {
      assert [] + [AtomOf(toks[i])] == [AtomOf(toks[i])];
      ArgsExtend(toks, i + 1, [AtomOf(toks[i])]);
    }
  }

  lemma {:induction false} ArgsExtend(toks: seq<Token>, i: nat, acc: seq<Node>)
    requires i <= |toks| && ParseArgs(toks, i, acc).Parsed?
    ensures acc <= ParseArgs(toks, i, acc).node
    decreases |toks| - i
  {
    if i < |toks| && !Closes(toks[i].kind) {
      var one := ParseExpr(toks, i);
      ArgsExtend(toks, one.at, acc + [one.node]);
    }
  }

  lemma {:induction false} ArgsKept(toks: seq<Token>, i: nat, owed: seq<Kind>, acc: seq<Node>)
    requires AllKept(toks) && i <= |toks| && Balanced(toks, i, owed)
    ensures
      var r := ParseArgs(toks, i, acc);
      r.Parsed? && FlattenAll(r.node) == FlattenAll(acc) + CanonFrom(toks, i, r.at) && Balanced(toks, r.at, owed)
    decreases |toks| - i, 3
  {
    if i == |toks| || Closes(toks[i].kind) {
      assert FlattenAll(acc) + [] == FlattenAll(acc);
    } else {
      ExprKept(toks, i, owed);
      var one := ParseExpr(toks, i);
      ArgsKept(toks, one.at, owed, acc + [one.node]);
      FlattenSnoc(acc, one.node);
      CanonSplit(toks, i, one.at, ParseArgs(toks, i, acc).at);
      Assoc(FlattenAll(acc), Flatten(one.node), CanonFrom(toks, one.at, ParseArgs(toks, i, acc).at));
    }
  }

  lemma {:induction false} AllNodesKept(toks: seq<Token>, i: nat, ast: seq<Node>)
    requires AllKept(toks) && i <= |toks| && Balanced(toks, i, [])
    ensures
      var r := ParseAll(toks, i, ast);
      r.Parsed? && FlattenAll(r.node) == FlattenAll(ast) + CanonFrom(toks, i, |toks|)
    decreases |toks| - i
  {
    if i == |toks| {
      assert FlattenAll(ast) + [] == FlattenAll(ast);
    } else {
      ExprKept(toks, i, []);
      var one := ParseExpr(toks, i);
      AllNodesKept(toks, one.at, ast + [one.node]);
      FlattenSnoc(ast, one.node);
      CanonSplit(toks, i, one.at, |toks|);
      Assoc(FlattenAll(ast), Flatten(one.node), CanonFrom(toks, one.at, |toks|));
    }
  }

  /** Balanced tokens with nothing the parser merges: the trees stand for exactly the tokens, in order. */
  lemma {:induction false} ParserKeepsEveryToken(toks: seq<Token>)
    requires Balanced(toks, 0, []) && AllKept(toks)
    ensures
      var r := Parse(toks);
      r.Parsed? && FlattenAll(r.node) == CanonFrom(toks, 0, |toks|)
  {
    AllNodesKept(toks, 0, []);
    assert FlattenAll([]) + CanonFrom(toks, 0, |toks|) == CanonFrom(toks, 0, |toks|);
  }

  // ---------- Why the exclusions are needed ----------

  function T(kind: Kind, value: string): Token {
    Token(kind, value, 1, 1)
  }

  /** A dereference sign and the call it abbreviates give the same tree. */
  lemma {:induction false} DereferenceIsACall(x: string)
    requires SymbolNode(x).Literal?
    ensures Parse([T(Unknown, "@"), T(Symbol, x)])
            == Parsed(2, [SExpr(Name("deref"), [Literal(SymbolLit, x)])])
    ensures Parse([T(LParen, "("), T(Symbol, "deref"), T(Symbol, x), T(RParen, ")")])
            == Parsed(4, [SExpr(Name("deref"), [Literal(SymbolLit, x)])])
  {
    var sugar, call := [T(Unknown, "@"), T(Symbol, x)], [T(LParen, "("), T(Symbol, "deref"), T(Symbol, x), T(RParen, ")")];
    var head, arg := Literal(SymbolLit, "deref"), Literal(SymbolLit, x);
    assert ParseExpr(sugar, 1) == Parsed(2, arg);
    assert ParseExpr(sugar, 0) == Parsed(2, SExpr(Name("deref"), [arg]));
    assert [] + [SExpr(Name("deref"), [arg])] == [SExpr(Name("deref"), [arg])];
    assert ParseAll(sugar, 0, []) == ParseAll(sugar, 2, [] + [SExpr(Name("deref"), [arg])]);
    assert AtomOf(call[1]) == head && AtomOf(call[2]) == arg;
    assert ParseArgs(call, 3, [head, arg]) == Parsed(3, [head, arg]);
    assert [] + [head] + [arg] == [head, arg];
    assert ParseArgs(call, 2, [] + [head]) == ParseArgs(call, 3, [] + [head] + [arg]);
    assert ParseArgs(call, 1, []) == ParseArgs(call, 2, [] + [head]);
    assert [head, arg][1..] == [arg];
    assert ParseExpr(call, 0) == Parsed(4, SExpr(Name("deref"), [arg]));
    assert ParseAll(call, 0, []) == ParseAll(call, 4, [] + [SExpr(Name("deref"), [arg])]);
  }

  /** Of a `try` form only three parts are kept. */
  lemma {:induction false} TryKeepsThree(parts: seq<Node>)
    requires |parts| >= 3
    ensures MakeSExpr([Literal(SymbolLit, "try")] + parts) == MakeSExpr([Literal(SymbolLit, "try")] + parts[..3])
  {
    assert ([Literal(SymbolLit, "try")] + parts)[1..] == parts;
    assert ([Literal(SymbolLit, "try")] + parts[..3])[1..] == parts[..3];
  }
}
