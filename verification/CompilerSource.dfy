/** From source text to the programs the compiler model starts from: how `cgc` reads a tree, how such a program is
    written, and that reading what is written gives the program back. */
module CompilerSource {
  import opened Wrappers
  import opened Bytes
  import opened Decimal
  import opened FLValue
  import opened Sequences
  import opened TokenParser
  import opened TreeTokens
  import opened NumberLiterals
  import L = Lexer
  import C = Compiler
  import Escape
  import Spacing

  // ---------- Literals ----------

  predicate IsNegative(t: string) {
    t != "" && t[0] == '-' && AllDigits(t[1..])
  }

  /** What the text of a number token means; None for one with a dot. */
  function Meant(t: string): Option<int> {
    if AllDigits(t) then Whole(Some(DecimalValue(t)), 1) else if IsNegative(t) then Whole(Some(DecimalValue(t[1..])), -1) else None
  }

  /** What C makes of it. */
  function ReadByC(t: string): Option<int> {
    if AllDigits(t) then Whole(CConstant(t), 1) else if IsNegative(t) then Whole(CConstant(t[1..]), -1) else None
  }

  function Whole(n: Option<nat>, sign: int): Option<int> {
    if n.Some? then Some(sign * n.value) else None
  }

  /** The value C gives to what is emitted for a literal. */
  function EmittedValue(n: Node): Option<Value> {
    match n
    case Literal(NumberLit, t) => if ReadByC(t).Some? then Some(Int(ReadByC(t).value)) else None
    case Literal(StringLitType, t) => AsString(Escape.CLiteral(Escape.CEsc(t)))
    case KeywordNode(x) => AsString(Escape.CLiteral(Escape.CEsc(x)))
    case Boolean(b) => Some(Bool(b))
    case NilNode => Some(Nil)
    case _ => None
  }

  function AsString(t: Option<string>): Option<Value> {
    if t.Some? then Some(Str(t.value)) else None
  }

  // ---------- What the compiler makes of a tree ----------

  /** The heads of lists that the model knows; any other name is a call. */
  datatype Head = IfHead | CondHead | LetHead | DoHead | LoopHead | RecurHead | ChainHead(op: C.Op) | CallHead(op: C.Op)

  /** `others` are the names that `cgc_dispatch` treats in a way of their own that the model leaves out. */
  function HeadOf(s: string, others: set<string>): Option<Head> {
    if s == "if" then Some(IfHead)
    else if s == "cond" then Some(CondHead)
    else if s == "do" then Some(DoHead)
    else if s == "let" then Some(LetHead)
    else if s == "+" then Some(ChainHead(C.Add))
    else if s == "-" then Some(ChainHead(C.Sub))
    else if s == "*" then Some(ChainHead(C.Mul))
    else if s == "/" then Some(CallHead(C.Div))
    else if s == "%" then Some(CallHead(C.Mod))
    else if s == "=" then Some(CallHead(C.Eq))
    else if s == "!=" then Some(CallHead(C.Neq))
    else if s == "<" then Some(CallHead(C.Lt))
    else if s == ">" then Some(CallHead(C.Gt))
    else if s == "<=" then Some(CallHead(C.Lte))
    else if s == ">=" then Some(CallHead(C.Gte))
    else if s == "not" then Some(CallHead(C.Not))
    else if s == "loop" then Some(LoopHead)
    else if s == "recur" then Some(RecurHead)
    else if s in others then None
    else if s == "first" then Some(CallHead(C.First))
    else if s == "rest" then Some(CallHead(C.Rest))
    else Some(CallHead(C.Named(s)))
  }

  /** `cgc_extract_name` */
  function NameOf(n: Node): Option<string> {
    match n
    case VariableNode(x) => Some(x)
    case Literal(SymbolLit, x) => Some(x)
    case _ => None
  }

  /** The program a tree stands for, None where the model does not go: a literal that C does not read as it is meant, a
      form that is not modelled, or one with missing or superfluous parts. */
  function Lower(n: Node, others: set<string>): Option<C.Expr>
    decreases n, 1
  {
    match n
    case Literal(NumberLit, t) => if Meant(t).Some? && ReadByC(t) == Meant(t) then Some(C.Lit(Int(Meant(t).value))) else None
    case Literal(StringLitType, t) => Some(C.Lit(Str(t)))
    case Literal(SymbolLit, x) => Some(C.Var(x))
    case Boolean(b) => Some(C.Lit(Bool(b)))
    case NilNode => Some(C.Lit(Nil))
    case VariableNode(x) => Some(C.Var(x))
    // The model of `cond` cannot tell this one from the string, which ends the chain of clauses.
    case KeywordNode(x) => if x == "true" then None else Some(C.Lit(Str(x)))
    case AndNode(args) =>
      var es := LowerAll(args, others);
      if es.Some? then Some(C.And(es.value)) else None
    case OrNode(args) =>
      var es := LowerAll(args, others);
      if es.Some? then Some(C.Or(es.value)) else None
    case SExpr(op, args) =>
      if op.Name? && HeadOf(op.text, others).Some? then LowerList(HeadOf(op.text, others).value, args, others) else None
    case _ => None
  }

  function Cons<T>(x: Option<T>, xs: Option<seq<T>>): Option<seq<T>> {
    if x.Some? && xs.Some? then Some([x.value] + xs.value) else None
  }

  function LowerAll(ns: seq<Node>, others: set<string>): Option<seq<C.Expr>>
    decreases ns, 0
  {
    if ns == [] then Some([])
    else
      Cons(Lower(ns[0], others), LowerAll(ns[1..], others))
  }

  function LowerList(h: Head, args: seq<Node>, others: set<string>): Option<C.Expr>
    decreases args, 3
  {
    match h
    case CondHead =>
      var clauses := LowerClauses(args, others);
      if clauses.Some? then Some(C.Cond(clauses.value)) else None
    case LetHead =>
      if args == [] || !args[0].ArrayBlock? then None
      else
        var bindings, body := LowerBindings(args[0].items, others), LowerAll(args[1..], others);
        if bindings.Some? && body.Some? then Some(C.Let(bindings.value, body.value)) else None
    case LoopHead =>
      if |args| != 2 || !args[0].ArrayBlock? then None
      else
        var bindings, step := LowerPairs(args[0].items, others), Lower(args[1], others);
        if bindings.Some? && step.Some? then Some(C.Loop(bindings.value, step.value)) else None
    case _ =>
      var es := LowerAll(args, others);
      if es.None? then None else Plain(h, es.value)
  }

  /** Lists whose parts are expressions. */
  function Plain(h: Head, es: seq<C.Expr>): Option<C.Expr> {
    match h
    case IfHead => if |es| == 2 then Some(C.If(es[0], es[1], None)) else if |es| == 3 then Some(C.If(es[0], es[1], Some(es[2]))) else None
    case DoHead => Some(C.Do(es))
    case RecurHead => Some(C.Recur(es))
    case ChainHead(op) => Some(C.Chain(op, es))
    case CallHead(op) => Some(C.Call(op, es))
    case _ => None
  }

  function ClauseFrom(test: Option<C.Expr>, body: Option<C.Expr>): Option<C.Clause> {
    if test.Some? && body.Some? then Some(C.Clause(test.value, body.value)) else None
  }

  function BindingFrom(x: Option<string>, e: Option<C.Expr>): Option<C.Binding> {
    if x.Some? && e.Some? then Some(C.Binding(x.value, e.value)) else None
  }

  function LowerClauses(ns: seq<Node>, others: set<string>): Option<seq<C.Clause>>
    decreases ns, 0
  {
    if ns == [] then Some([])
    else if !ns[0].ArrayBlock? || |ns[0].items| != 2 then None
    else
      Cons(ClauseFrom(Lower(ns[0].items[0], others), Lower(ns[0].items[1], others)), LowerClauses(ns[1..], others))
  }

  /** Nested pairs if the first item is an array, a flat list otherwise. */
  function LowerBindings(items: seq<Node>, others: set<string>): Option<seq<C.Binding>>
    decreases items, 2
  {
    if items != [] && items[0].ArrayBlock? then LowerNested(items, others) else LowerPairs(items, others)
  }

  function LowerNested(items: seq<Node>, others: set<string>): Option<seq<C.Binding>>
    decreases items, 0
  {
    if items == [] then Some([])
    else if !items[0].ArrayBlock? || |items[0].items| != 2 then None
    else
      Cons(BindingFrom(NameOf(items[0].items[0]), Lower(items[0].items[1], others)), LowerNested(items[1..], others))
  }

  function LowerPairs(items: seq<Node>, others: set<string>): Option<seq<C.Binding>>
    decreases items, 0
  {
    if items == [] then Some([])
    else if |items| == 1 then None
    else
      Cons(BindingFrom(NameOf(items[0]), Lower(items[1], others)), LowerPairs(items[2..], others))
  }

  /** The program a text stands for, if it is a single expression the model covers. */
  function ReadProgram(src: string, others: set<string>): Option<C.Expr> {
    match Parse(L.Lex(src))
    case Throw => None
    case Parsed(_, ns) => if |ns| == 1 then Lower(ns[0], others) else None
  }

  // ---------- Literals denote what they mean ----------

  /** What C makes of an emitted literal is the literal of the program. */
  lemma {:induction false} LiteralDenotes(n: Node, others: set<string>)
    requires Lower(n, others).Some? && Lower(n, others).value.Lit?
    ensures EmittedValue(n) == Some(Lower(n, others).value.v)
  {
    match n {
      case Literal(StringLitType, t) => Escape.EmittedLiteralDenotes(t);
      case KeywordNode(x) => Escape.EmittedLiteralDenotes(x);
      case _ =>
    }
  }

  /** A number token is taken exactly if it has no superfluous zero in front, or is below eight, and fits `long long`. */
  lemma {:induction false} NumberTakenExactly(t: string, others: set<string>)
    requires AllDigits(t)
    ensures Lower(Literal(NumberLit, t), others).Some? <==> DecimalValue(t) <= LLONG_MAX && (t[0] != '0' || DecimalValue(t) < 8)
  {
    DigitsDenoteExactly(t);
  }

  // ---------- How a program is written ----------

  function HeadText(h: Head): string {
    match h
    case IfHead => "if"
    case CondHead => "cond"
    case LetHead => "let"
    case DoHead => "do"
    case LoopHead => "loop"
    case RecurHead => "recur"
    case ChainHead(op) => OpText(op)
    case CallHead(op) => OpText(op)
  }

  function OpText(op: C.Op): string {
    match op
    case Add => "+"
    case Sub => "-"
    case Mul => "*"
    case Div => "/"
    case Mod => "%"
    case Eq => "="
    case Neq => "!="
    case Lt => "<"
    case Gt => ">"
    case Lte => "<="
    case Gte => ">="
    case Not => "not"
    case First => "first"
    case Rest => "rest"
    case FlAnd => "cg-and"
    case FlOr => "cg-or"
    case Named(fn) => fn
  }

  /** A head that its text leads back to, and that is a name to the lexer and the parser. */
  predicate SpellableHead(h: Head, others: set<string>) {
    HeadOf(HeadText(h), others) == Some(h) && RegularHead(Name(HeadText(h)))
    && Spacing.Writable(Bare(L.Symbol, HeadText(h)))
  }

  /** The heads with names of their own. */
  predicate KnownHead(h: Head) {
    match h
    case ChainHead(op) => op.Add? || op.Sub? || op.Mul?
    case CallHead(op) => !op.Add? && !op.Sub? && !op.Mul? && !op.FlAnd? && !op.FlOr? && !op.Named?
    case _ => true
  }

  lemma {:induction false} KnownHeadIsSpellable(h: Head, others: set<string>)
    requires KnownHead(h) && "first" !in others && "rest" !in others
    ensures SpellableHead(h, others)
  {
    var t := HeadText(h);
    assert |t| == 1 || t == "if" || t == "cond" || t == "do" || t == "let" || t == "loop" || t == "recur" || t == "!="
        || t == "<=" || t == ">=" || t == "not" || t == "first" || t == "rest";
  }

  /** What can be written: integers that fit `long long`, strings without a template, variables of symbol characters. */
  predicate Spellable(e: C.Expr, others: set<string>)
    decreases e, 1
  {
    match e
    case Lit(v) => v.Nil? || v.Bool? || (v.Int? && -LLONG_MAX <= v.i <= LLONG_MAX) || (v.Str? && !HasTemplate(v.s))
    case Var(x) => Spacing.AllSymbolChars(x)
    case If(test, thn, els) =>
      SpellableHead(IfHead, others) && Spellable(test, others) && Spellable(thn, others) && (els.Some? ==> Spellable(els.value, others))
    case Cond(clauses) => SpellableHead(CondHead, others) && SpellableClauses(clauses, others)
    case Let(bindings, body) => SpellableHead(LetHead, others) && SpellableBindings(bindings, others) && SpellableAll(body, others)
    case Do(body) => SpellableHead(DoHead, others) && SpellableAll(body, others)
    case And(args) => SpellableAll(args, others)
    case Or(args) => SpellableAll(args, others)
    case Chain(op, args) => SpellableHead(ChainHead(op), others) && SpellableAll(args, others)
    case Call(op, args) => SpellableHead(CallHead(op), others) && SpellableAll(args, others)
    case Loop(bindings, step) => SpellableHead(LoopHead, others) && SpellableBindings(bindings, others) && Spellable(step, others)
    case Recur(args) => SpellableHead(RecurHead, others) && SpellableAll(args, others)
  }

  predicate SpellableAll(es: seq<C.Expr>, others: set<string>)
    decreases es, 0
  {
    es != [] ==> Spellable(es[0], others) && SpellableAll(es[1..], others)
  }

  predicate SpellableClauses(clauses: seq<C.Clause>, others: set<string>)
    decreases clauses, 0
  {
    clauses != [] ==>
      var c := clauses[0];
      assert c.test < c && c.body < c;
      Spellable(c.test, others) && Spellable(c.body, others) && SpellableClauses(clauses[1..], others)
  }

  predicate SpellableBindings(bindings: seq<C.Binding>, others: set<string>)
    decreases bindings, 0
  {
    bindings != [] ==>
      Spacing.AllSymbolChars(bindings[0].name) && Spellable(bindings[0].init, others) && SpellableBindings(bindings[1..], others)
  }

  function LiteralNode(v: Value): Node {
    match v
    case Bool(b) => Boolean(b)
    case Int(i) => Literal(NumberLit, PrintInt(i))
    case Str(t) => Literal(StringLitType, t)
    case _ => NilNode
  }

  function ListNode(h: Head, args: seq<Node>): Node {
    SExpr(Name(HeadText(h)), args)
  }

  /** The tree of a program. */
  function NodeOf(e: C.Expr): Node
    decreases e, 1
  {
    match e
    case Lit(v) => LiteralNode(v)
    case Var(x) => VariableNode(x)
    case If(test, thn, els) => ListNode(IfHead, [NodeOf(test), NodeOf(thn)] + if els.Some? then [NodeOf(els.value)] else [])
    case Cond(clauses) => ListNode(CondHead, ClauseNodes(clauses))
    case Let(bindings, body) => ListNode(LetHead, [ArrayBlock(PairNodes(bindings))] + NodesOf(body))
    case Do(body) => ListNode(DoHead, NodesOf(body))
    case And(args) => AndNode(NodesOf(args))
    case Or(args) => OrNode(NodesOf(args))
    case Chain(op, args) => ListNode(ChainHead(op), NodesOf(args))
    case Call(op, args) => ListNode(CallHead(op), NodesOf(args))
    case Loop(bindings, step) => ListNode(LoopHead, [ArrayBlock(PairNodes(bindings)), NodeOf(step)])
    case Recur(args) => ListNode(RecurHead, NodesOf(args))
  }

  function NodesOf(es: seq<C.Expr>): seq<Node>
    decreases es, 0
  {
    if es == [] then [] else [NodeOf(es[0])] + NodesOf(es[1..])
  }

  function ClauseNodes(clauses: seq<C.Clause>): seq<Node>
    decreases clauses, 0
  {
    if clauses == [] then []
    else
      var c := clauses[0];
      assert c.test < c && c.body < c;
      [ArrayBlock([NodeOf(c.test), NodeOf(c.body)])] + ClauseNodes(clauses[1..])
  }

  function PairNodes(bindings: seq<C.Binding>): seq<Node>
    decreases bindings, 0
  {
    if bindings == [] then [] else [VariableNode(bindings[0].name), NodeOf(bindings[0].init)] + PairNodes(bindings[1..])
  }

  // ---------- The tree leads back ----------

  lemma {:induction false} IntegerBack(i: int)
    requires -LLONG_MAX <= i <= LLONG_MAX
    ensures Meant(PrintInt(i)) == Some(i) && ReadByC(PrintInt(i)) == Some(i) && Spacing.Writable(Bare(L.Number, PrintInt(i)))
  {
    var n := if i < 0 then -i else i;
    DigitsBack(n);
    if i < 0 {
      MinusBack(PrintNat(n));
    }
  }

  lemma {:induction false} DigitsBack(n: nat)
    requires n <= LLONG_MAX
    ensures var t := PrintNat(n); AllDigits(t) && DecimalValue(t) == n && CConstant(t) == Some(n)
  {
    ValueOfPrinted(n);
    DigitsDenoteExactly(PrintNat(n));
  }

  lemma {:induction false} MinusBack(t: string)
    requires AllDigits(t)
    ensures !AllDigits(['-'] + t) && IsNegative(['-'] + t) && (['-'] + t)[1..] == t
  {
    assert (['-'] + t)[0] == '-';
  }

  lemma {:induction false} AllStep(n: Node, ns: seq<Node>, others: set<string>)
    ensures LowerAll([n] + ns, others) == Cons(Lower(n, others), LowerAll(ns, others))
  {
    assert ([n] + ns)[1..] == ns;
  }

  lemma {:induction false} ClauseStep(test: Node, body: Node, ns: seq<Node>, others: set<string>)
    ensures LowerClauses([ArrayBlock([test, body])] + ns, others)
            == Cons(ClauseFrom(Lower(test, others), Lower(body, others)), LowerClauses(ns, others))
  {
    assert ([ArrayBlock([test, body])] + ns)[1..] == ns;
  }

  lemma {:induction false} PairStep(x: string, init: Node, items: seq<Node>, others: set<string>)
    ensures LowerPairs([VariableNode(x), init] + items, others)
            == Cons(BindingFrom(Some(x), Lower(init, others)), LowerPairs(items, others))
  {
    assert ([VariableNode(x), init] + items)[2..] == items;
  }

  lemma {:induction false} ListStep(h: Head, args: seq<Node>, others: set<string>)
    requires SpellableHead(h, others)
    ensures Lower(ListNode(h, args), others) == LowerList(h, args, others)
  {
  }

  lemma {:induction false} PlainStep(h: Head, args: seq<Node>, others: set<string>)
    requires !h.CondHead? && !h.LetHead? && !h.LoopHead? && LowerAll(args, others).Some?
    ensures LowerList(h, args, others) == Plain(h, LowerAll(args, others).value)
  {
  }

  lemma {:induction false} LowerBack(e: C.Expr, others: set<string>)
    requires Spellable(e, others)
    ensures Lower(NodeOf(e), others) == Some(e)
    decreases e, 1
  {
    match e {
      case Lit(v) => if v.Int? { IntegerBack(v.i); }
      case Var(_) =>
      case If(test, thn, els) => IfBack(e, others);
      case Cond(clauses) => CondBack(clauses, others);
      case Let(bindings, body) => LetBack(e, others);
      case Loop(bindings, step) => LoopBack(e, others);
      case And(args) => AllBack(args, others);
      case Or(args) => AllBack(args, others);
      case Do(body) => PlainBack(DoHead, body, others);
      case Chain(op, args) => PlainBack(ChainHead(op), args, others);
      case Call(op, args) => PlainBack(CallHead(op), args, others);
      case Recur(args) => PlainBack(RecurHead, args, others);
    }
  }

  lemma {:induction false} AllBack(es: seq<C.Expr>, others: set<string>)
    requires SpellableAll(es, others)
    ensures LowerAll(NodesOf(es), others) == Some(es)
    decreases es, 0
  {
    if es != [] {
      LowerBack(es[0], others);
      AllBack(es[1..], others);
      AllStep(NodeOf(es[0]), NodesOf(es[1..]), others);
      assert [es[0]] + es[1..] == es;
    }
  }

  lemma {:induction false} PlainBack(h: Head, es: seq<C.Expr>, others: set<string>)
    requires SpellableHead(h, others) && SpellableAll(es, others) && !h.CondHead? && !h.LetHead? && !h.LoopHead?
    ensures Lower(ListNode(h, NodesOf(es)), others) == Plain(h, es)
    decreases es, 1
  {
    AllBack(es, others);
    ListStep(h, NodesOf(es), others);
    PlainStep(h, NodesOf(es), others);
  }

  lemma {:induction false} IfBack(e: C.Expr, others: set<string>)
    requires e.If? && Spellable(e, others)
    ensures Lower(NodeOf(e), others) == Some(e)
    decreases e, 0
  {
    LowerBack(e.test, others);
    LowerBack(e.thn, others);
    var rest: seq<Node> := if e.els.Some? then [NodeOf(e.els.value)] else [];
    var parts: seq<C.Expr> := if e.els.Some? then [e.els.value] else [];
    if e.els.Some? {
      LowerBack(e.els.value, others);
      OneStep(NodeOf(e.els.value), e.els.value, others);
    } else {
      assert LowerAll(rest, others) == Some(parts);
    }
    TwoStep(NodeOf(e.test), NodeOf(e.thn), rest, e.test, e.thn, parts, others);
    ListStep(IfHead, [NodeOf(e.test), NodeOf(e.thn)] + rest, others);
    PlainStep(IfHead, [NodeOf(e.test), NodeOf(e.thn)] + rest, others);
  }

  lemma {:induction false} OneStep(a: Node, x: C.Expr, others: set<string>)
    requires Lower(a, others) == Some(x)
    ensures LowerAll([a], others) == Some([x])
  {
    AllStep(a, [], others);
    assert [a] + [] == [a] && [x] + [] == [x] && LowerAll([], others) == Some([]);
  }

  lemma {:induction false} TwoStep(a: Node, b: Node, rest: seq<Node>, x: C.Expr, y: C.Expr, parts: seq<C.Expr>, others: set<string>)
    requires Lower(a, others) == Some(x) && Lower(b, others) == Some(y) && LowerAll(rest, others) == Some(parts)
    ensures LowerAll([a, b] + rest, others) == Some([x, y] + parts)
  {
    AllStep(b, rest, others);
    AllStep(a, [b] + rest, others);
    assert [a] + ([b] + rest) == [a, b] + rest && [x] + ([y] + parts) == [x, y] + parts;
  }

  lemma {:induction false} ClausesBack(clauses: seq<C.Clause>, others: set<string>)
    requires SpellableClauses(clauses, others)
    ensures LowerClauses(ClauseNodes(clauses), others) == Some(clauses)
    decreases clauses, 0
  {
    if clauses != [] {
      var c := clauses[0];
      assert c.test < c && c.body < c;
      LowerBack(c.test, others);
      LowerBack(c.body, others);
      ClausesBack(clauses[1..], others);
      ClauseStep(NodeOf(c.test), NodeOf(c.body), ClauseNodes(clauses[1..]), others);
      assert [c] + clauses[1..] == clauses;
    }
  }

  lemma {:induction false} CondBack(clauses: seq<C.Clause>, others: set<string>)
    requires Spellable(C.Cond(clauses), others)
    ensures Lower(NodeOf(C.Cond(clauses)), others) == Some(C.Cond(clauses))
    decreases clauses, 1
  {
    ClausesBack(clauses, others);
    ListStep(CondHead, ClauseNodes(clauses), others);
  }

  lemma {:induction false} PairsBack(bindings: seq<C.Binding>, others: set<string>)
    requires SpellableBindings(bindings, others)
    ensures LowerPairs(PairNodes(bindings), others) == Some(bindings)
    decreases bindings, 0
  {
    if bindings != [] {
      var b := bindings[0];
      LowerBack(b.init, others);
      PairsBack(bindings[1..], others);
      PairStep(b.name, NodeOf(b.init), PairNodes(bindings[1..]), others);
      assert [b] + bindings[1..] == bindings;
    }
  }

  lemma {:induction false} LetBack(e: C.Expr, others: set<string>)
    requires e.Let? && Spellable(e, others)
    ensures Lower(NodeOf(e), others) == Some(e)
    decreases e, 0
  {
    PairsBack(e.bindings, others);
    AllBack(e.body, others);
    var args := [ArrayBlock(PairNodes(e.bindings))] + NodesOf(e.body);
    assert args[1..] == NodesOf(e.body);
    ListStep(LetHead, args, others);
    assert LowerBindings(PairNodes(e.bindings), others) == LowerPairs(PairNodes(e.bindings), others);
  }

  lemma {:induction false} LoopBack(e: C.Expr, others: set<string>)
    requires e.Loop? && Spellable(e, others)
    ensures Lower(NodeOf(e), others) == Some(e)
    decreases e, 0
  {
    PairsBack(e.bindings, others);
    LowerBack(e.step, others);
    ListStep(LoopHead, [ArrayBlock(PairNodes(e.bindings)), NodeOf(e.step)], others);
  }
}
