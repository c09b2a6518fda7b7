/** From text to C: every program of the model can be written, in any layout, and what is compiled from the text keeps
    the meaning of the program. */
module SourceTheorem {
  import opened Wrappers
  import opened Decimal
  import opened FLValue
  import opened Sequences
  import opened CNames
  import opened TokenParser
  import opened TreeTokens
  import opened Spacing
  import opened CompilerSource
  import opened CompilerCorrectness
  import opened CompilerSteady
  import opened CompilerNames
  import opened CompilerTheorem
  import L = Lexer
  import C = Compiler

  // ---------- The tokens of a program can be written ----------

  ghost predicate AllWritable(bs: seq<Bare>) {
    forall k | 0 <= k < |bs| :: Writable(bs[k])
  }

  /** Trees the parser gives back and whose tokens can be written; an array of them never looks like a named block. */
  ghost predicate GoodTree(n: Node) {
    Regular(n) && AllWritable(Flatten(n)) && Flatten(n) != [] && RegularStart(Flatten(n))
  }

  ghost predicate GoodTrees(ns: seq<Node>) {
    AllRegular(ns) && AllWritable(FlattenAll(ns)) && RegularStart(FlattenAll(ns))
  }

  lemma {:induction false} GoodCons(n: Node, ns: seq<Node>)
    requires GoodTree(n) && GoodTrees(ns)
    ensures GoodTrees([n] + ns)
  {
    FlattenCons(n, ns);
  }

  lemma {:induction false} GoodNone()
    ensures GoodTrees([])
  {
  }

  lemma {:induction false} GoodBracket(n: Node)
    requires Regular(n) && !IsAtom(n) && AllWritable(FlattenAll(Inside(n)))
    ensures GoodTree(n)
  {
    BracketTokens(n);
    assert Writable(Opener(n)) && Writable(Ender(n));
  }

  lemma {:induction false} GoodArray(items: seq<Node>)
    requires GoodTrees(items)
    ensures GoodTree(ArrayBlock(items))
  {
    GoodBracket(ArrayBlock(items));
  }

  lemma {:induction false} GoodList(h: Head, args: seq<Node>, others: set<string>)
    requires SpellableHead(h, others) && GoodTrees(args)
    ensures GoodTree(ListNode(h, args))
  {
    var op := Name(HeadText(h));
    HeadBack(op);
    HeadToken(HeadText(h));
    FlattenCons(HeadNode(op), args);
    GoodBracket(ListNode(h, args));
  }

  lemma {:induction false} HeadToken(s: string)
    requires Writable(Bare(L.Symbol, s))
    ensures FlattenOp(Name(s)) == [Bare(L.Symbol, s)]
  {
    assert L.IsSymbolChar(s[0]);
  }

  lemma {:induction false} GoodLogic(args: seq<Node>)
    requires GoodTrees(args)
    ensures GoodTree(AndNode(args)) && GoodTree(OrNode(args))
  {
    GoodWord("and");
    GoodWord("or");
    GoodCons(Literal(SymbolLit, "and"), args);
    GoodCons(Literal(SymbolLit, "or"), args);
    GoodBracket(AndNode(args));
    GoodBracket(OrNode(args));
  }

  lemma {:induction false} GoodWord(s: string)
    requires s == "and" || s == "or"
    ensures GoodTree(Literal(SymbolLit, s))
  {
  }

  lemma {:induction false} GoodLiteral(v: Value)
    requires Spellable(C.Lit(v), {})
    ensures GoodTree(LiteralNode(v))
  {
    if v.Int? {
      IntegerBack(v.i);
    }
  }

  lemma {:induction false} ProgramIsGood(e: C.Expr, others: set<string>)
    requires Spellable(e, others)
    ensures GoodTree(NodeOf(e))
    decreases e, 1
  {
    match e {
      case Lit(v) => GoodLiteral(v);
      case Var(_) =>
      case If(test, thn, els) => IfIsGood(e, others);
      case Cond(clauses) =>
        ClausesAreGood(clauses, others);
        GoodList(CondHead, ClauseNodes(clauses), others);
      case Let(bindings, body) =>
        PairsAreGood(bindings, others);
        AllAreGood(body, others);
        GoodArray(PairNodes(bindings));
        GoodCons(ArrayBlock(PairNodes(bindings)), NodesOf(body));
        GoodList(LetHead, [ArrayBlock(PairNodes(bindings))] + NodesOf(body), others);
      case Loop(bindings, step) =>
        PairsAreGood(bindings, others);
        ProgramIsGood(step, others);
        GoodArray(PairNodes(bindings));
        GoodTwo(ArrayBlock(PairNodes(bindings)), NodeOf(step));
        GoodList(LoopHead, [ArrayBlock(PairNodes(bindings)), NodeOf(step)], others);
      case And(args) => AllAreGood(args, others); GoodLogic(NodesOf(args));
      case Or(args) => AllAreGood(args, others); GoodLogic(NodesOf(args));
      case Do(body) => AllAreGood(body, others); GoodList(DoHead, NodesOf(body), others);
      case Chain(op, args) => AllAreGood(args, others); GoodList(ChainHead(op), NodesOf(args), others);
      case Call(op, args) => AllAreGood(args, others); GoodList(CallHead(op), NodesOf(args), others);
      case Recur(args) => AllAreGood(args, others); GoodList(RecurHead, NodesOf(args), others);
    }
  }

  lemma {:induction false} GoodTwo(a: Node, b: Node)
    requires GoodTree(a) && GoodTree(b)
    ensures GoodTrees([a, b])
  {
    GoodNone();
    GoodCons(b, []);
    assert [b] + [] == [b];
    GoodCons(a, [b]);
    assert [a] + [b] == [a, b];
  }

  lemma {:induction false} IfIsGood(e: C.Expr, others: set<string>)
    requires e.If? && Spellable(e, others)
    ensures GoodTree(NodeOf(e))
    decreases e, 0
  {
    ProgramIsGood(e.test, others);
    ProgramIsGood(e.thn, others);
    var rest: seq<Node> := if e.els.Some? then [NodeOf(e.els.value)] else [];
    GoodNone();
    if e.els.Some? {
      ProgramIsGood(e.els.value, others);
      GoodCons(NodeOf(e.els.value), []);
      assert [NodeOf(e.els.value)] + [] == rest;
    }
    GoodCons(NodeOf(e.thn), rest);
    GoodCons(NodeOf(e.test), [NodeOf(e.thn)] + rest);
    assert [NodeOf(e.test)] + ([NodeOf(e.thn)] + rest) == [NodeOf(e.test), NodeOf(e.thn)] + rest;
    GoodList(IfHead, [NodeOf(e.test), NodeOf(e.thn)] + rest, others);
  }

  lemma {:induction false} AllAreGood(es: seq<C.Expr>, others: set<string>)
    requires SpellableAll(es, others)
    ensures GoodTrees(NodesOf(es))
    decreases es, 0
  {
    GoodNone();
    if es != [] {
      ProgramIsGood(es[0], others);
      AllAreGood(es[1..], others);
      GoodCons(NodeOf(es[0]), NodesOf(es[1..]));
    }
  }

  lemma {:induction false} ClausesAreGood(clauses: seq<C.Clause>, others: set<string>)
    requires SpellableClauses(clauses, others)
    ensures GoodTrees(ClauseNodes(clauses))
    decreases clauses, 0
  {
    GoodNone();
    if clauses != [] {
      var c := clauses[0];
      assert c.test < c && c.body < c;
      ProgramIsGood(c.test, others);
      ProgramIsGood(c.body, others);
      GoodTwo(NodeOf(c.test), NodeOf(c.body));
      GoodArray([NodeOf(c.test), NodeOf(c.body)]);
      ClausesAreGood(clauses[1..], others);
      GoodCons(ArrayBlock([NodeOf(c.test), NodeOf(c.body)]), ClauseNodes(clauses[1..]));
    }
  }

  lemma {:induction false} GoodPair(x: string, init: Node, rest: seq<Node>)
    requires AllSymbolChars(x) && GoodTree(init) && GoodTrees(rest)
    ensures GoodTrees([VariableNode(x), init] + rest)
  {
    GoodCons(init, rest);
    GoodCons(VariableNode(x), [init] + rest);
    assert [VariableNode(x)] + ([init] + rest) == [VariableNode(x), init] + rest;
  }

  lemma {:induction false} PairsAreGood(bindings: seq<C.Binding>, others: set<string>)
    requires SpellableBindings(bindings, others)
    ensures GoodTrees(PairNodes(bindings))
    decreases bindings, 0
  {
    GoodNone();
    if bindings != [] {
      ProgramIsGood(bindings[0].init, others);
      PairsAreGood(bindings[1..], others);
      GoodPair(bindings[0].name, NodeOf(bindings[0].init), PairNodes(bindings[1..]));
    }
  }

  // ---------- Reading what is written ----------

  /** However the tokens of a program are laid out, reading the text gives the program back. */
  lemma {:induction false} WrittenProgramIsRead(e: C.Expr, others: set<string>, pieces: seq<Piece>, tail: string)
    requires Spellable(e, others) && WellSpaced(pieces, tail) && TokensOf(pieces) == Flatten(NodeOf(e))
    ensures ReadProgram(Layout(pieces, tail), others) == Some(e)
  {
    AnyLayoutLexes(pieces, tail);
    ProgramIsGood(e, others);
    OneTreeBack(L.Lex(Layout(pieces, tail)), NodeOf(e));
    LowerBack(e, others);
  }

  lemma {:induction false} OneTreeBack(toks: seq<L.Token>, n: Node)
    requires GoodTree(n) && Bares(toks) == Flatten(n)
    ensures Parse(toks) == Parsed(|toks|, [n])
  {
    FlattenCons(n, []);
    assert [n] + [] == [n] && Flatten(n) + [] == Flatten(n);
    TreesComeBack(toks, [n]);
  }

  /** The plainest layout: a blank in front of every token. */
  function Spaced(bs: seq<Bare>): seq<Piece> {
    if bs == [] then [] else [Piece([' '], bs[0])] + Spaced(bs[1..])
  }

  lemma {:induction false} SpacedIsWell(bs: seq<Bare>)
    requires AllWritable(bs)
    ensures WellSpaced(Spaced(bs), "") && TokensOf(Spaced(bs)) == bs && EndsWord(Layout(Spaced(bs), ""), 0)
  {
    if bs != [] {
      SpacedIsWell(bs[1..]);
      assert Spaced(bs)[1..] == Spaced(bs[1..]) && [bs[0]] + bs[1..] == bs;
      assert White([' ']);
    }
  }

  /** So every such program has a text. */
  lemma {:induction false} EveryProgramHasAText(e: C.Expr, others: set<string>)
    requires Spellable(e, others)
    ensures ReadProgram(Layout(Spaced(Flatten(NodeOf(e))), ""), others) == Some(e)
  {
    ProgramIsGood(e, others);
    SpacedIsWell(Flatten(NodeOf(e)));
    WrittenProgramIsRead(e, others, Spaced(Flatten(NodeOf(e))), "");
  }

  // ---------- From text to C ----------

  /** Lexing, parsing and compiling. */
  function CompileText(src: string, others: set<string>): Option<C.CExpr> {
    var e := ReadProgram(src, others);
    if e.Some? then Some(C.Cgc(NameId, e.value, None)) else None
  }

  /** What a text is compiled to does what the program it spells means, in any layout of its tokens. */
  lemma {:induction false} CompiledTextKeepsItsMeaning(rt: C.Runtime, e: C.Expr, others: set<string>, pieces: seq<Piece>, tail: string,
                                                       env: C.Env, names: set<string>, globals: set<string>, st: C.Store, fuel: nat)
    requires Spellable(e, others) && WellSpaced(pieces, tail) && TokensOf(pieces) == Flatten(NodeOf(e))
    requires Spelled(names, globals) && Calls(e, globals)
    requires env.Keys <= names && OK(e, env.Keys, names, None) && Fits(NameId, st, env, env.Keys)
    ensures var c := CompileText(Layout(pieces, tail), others);
            c.Some? && Clear(c.value, globals)
            && var run, source := C.CEval(rt, c.value, st, fuel), C.EvalValue(rt, C.Lazy, e, env, fuel);
               (run.Done? && source.Done? ==> run == Lift(source, st))
               && (source.Done? ==> (run == Lift(source, st) <==> C.EvalValue(rt, C.Checked, e, env, fuel) != C.Unsteady))
               && (RuntimeTotal(rt) && Quiet(e, env.Keys, false) ==> run == Lift(source, st))
  {
    WrittenProgramIsRead(e, others, pieces, tail);
    CompilationPreservesMeaning(rt, e, env, names, globals, st, fuel);
    if RuntimeTotal(rt) && Quiet(e, env.Keys, false) {
      QuietProgramsKeepTheirMeaning(rt, e, env, names, globals, st, fuel);
    }
  }
}
