/** The names in the emitted C: every variable it declares is an identifier that hides nothing the C calls. */
module CompilerNames {
  import opened FLValue
  import opened Wrappers
  import opened CNames
  import opened Compiler
  import opened CompilerCorrectness

  /** `globals` are the spellings that mean something at file level: functions the program defines or calls, and
      macros of the headers. A program's variables have pairwise different free spellings, none of them global. */
  ghost predicate Spelled(names: set<string>, globals: set<string>) {
    (forall x | x in names :: FreeSpelling(CName(x)) && CName(x) !in globals)
    && (forall x, y | x in names && y in names && CName(x) == CName(y) :: x == y)
    && forall s | s in globals :: IdOf(s).User?
  }

  // ---------- Functions called by name ----------

  predicate CallsOp(op: Op, globals: set<string>) {
    op.Named? ==> CName(op.fn) in globals
  }

  /** Every function the program calls by name is among the globals. */
  predicate Calls(e: Expr, globals: set<string>)
    decreases e, 1
  {
    match e
    case Lit(_) => true
    case Var(_) => true
    case If(test, thn, els) => Calls(test, globals) && Calls(thn, globals) && (els.Some? ==> Calls(els.value, globals))
    case Cond(clauses) => CallsClauses(clauses, globals)
    case Let(bindings, body) => CallsBindings(bindings, globals) && CallsAll(body, globals)
    case Do(body) => CallsAll(body, globals)
    case And(args) => CallsAll(args, globals)
    case Or(args) => CallsAll(args, globals)
    case Chain(op, args) => CallsOp(op, globals) && CallsAll(args, globals)
    case Call(op, args) => CallsOp(op, globals) && CallsAll(args, globals)
    case Loop(bindings, step) => CallsBindings(bindings, globals) && Calls(step, globals)
    case Recur(args) => CallsAll(args, globals)
  }

  predicate CallsAll(es: seq<Expr>, globals: set<string>)
    decreases es, 0
  {
    forall i | 0 <= i < |es| :: Calls(es[i], globals)
  }

  predicate CallsClauses(clauses: seq<Clause>, globals: set<string>)
    decreases clauses, 0
  {
    clauses != [] ==>
      var c := clauses[0];
      assert c.test < c && c.body < c;
      Calls(c.test, globals) && Calls(c.body, globals) && CallsClauses(clauses[1..], globals)
  }

  predicate CallsBindings(bindings: seq<Binding>, globals: set<string>)
    decreases bindings, 0
  {
    bindings != [] ==> Calls(bindings[0].init, globals) && CallsBindings(bindings[1..], globals)
  }

  // ---------- What the emitted C declares and calls ----------

  /** The compiler's own variable, or a free spelling that is not global. */
  predicate Declarable(x: Id, globals: set<string>) {
    Spelling(x) !in globals && (x.User? ==> FreeSpelling(x.name))
  }

  /** Whatever is called is global, whatever is declared is not. */
  predicate Clear(e: CExpr, globals: set<string>)
    decreases e, 0
  {
    match e
    case CConst(_) => true
    case CVar(_) => true
    case CCall(op, args) => CallsOp(op, globals) && ClearAll(args, globals)
    case CTernary(test, thn, els) => Clear(test, globals) && Clear(thn, globals) && Clear(els, globals)
    case CBlock(stmts) => ClearStmts(stmts, globals)
  }

  predicate ClearAll(es: seq<CExpr>, globals: set<string>)
    decreases es, 0
  {
    forall i | 0 <= i < |es| :: Clear(es[i], globals)
  }

  predicate ClearStmts(stmts: seq<CStmt>, globals: set<string>)
    decreases stmts, 0
  {
    forall i | 0 <= i < |stmts| :: ClearStmt(stmts[i], globals)
  }

  predicate ClearStmt(s: CStmt, globals: set<string>)
    decreases s, 0
  {
    match s
    case CDecl(x, init) => Declarable(x, globals) && Clear(init, globals)
    case CAssign(_, rhs) => Clear(rhs, globals)
    case CExprStmt(e) => Clear(e, globals)
    case CWhile(_, stmts) => ClearStmts(stmts, globals)
  }

  lemma {:induction false} NameIsDeclarable(x: string, names: set<string>, globals: set<string>)
    requires Spelled(names, globals) && x in names
    ensures Declarable(NameId(x), globals)
  {
    SpellingOfId(CName(x));
  }

  lemma {:induction false} OwnIsDeclarable(x: Id, names: set<string>, globals: set<string>)
    requires Spelled(names, globals) && !x.User?
    ensures Declarable(x, globals)
  {
    IdOfOwnSpelling(x);
  }

  /** No variable of the emitted C hides a function it calls or one of the runtime's. */
  lemma {:induction false} EmittedIsClear(e: Expr, scope: set<string>, names: set<string>, globals: set<string>, tail: Option<Tail>)
    requires Spelled(names, globals) && OK(e, scope, names, tail) && Calls(e, globals)
    ensures Clear(Cgc(NameId, e, Vars(tail)), globals)
    decreases e, 1
  {
    match e
    case Lit(_) =>
    case Var(_) =>
    case If(test, thn, els) =>
      EmittedIsClear(test, scope, names, globals, None);
      EmittedIsClear(thn, scope, names, globals, tail);
      if els.Some? {
        EmittedIsClear(els.value, scope, names, globals, tail);
      }
    case Cond(clauses) =>
      CondIsClear(clauses, scope, names, globals, tail);
    case Let(_, _) =>
      LetBlockIsClear(e, scope, names, globals, tail);
    case Do(body) =>
      StmtsAreClear(body, scope, names, globals, tail);
    case And(args) =>
      FoldedIsClear(FlAnd, args, scope, names, globals);
    case Or(args) =>
      FoldedIsClear(FlOr, args, scope, names, globals);
    case Chain(op, args) =>
      FoldedIsClear(op, args, scope, names, globals);
    case Call(op, args) =>
      ArgsAreClear(args, scope, names, globals);
    case Loop(_, _) =>
      LoopBlockIsClear(e, scope, names, globals, tail);
    case Recur(_) =>
      JumpIsClear(e, scope, names, globals, tail);
  }

  lemma {:induction false} JumpIsClear(e: Expr, scope: set<string>, names: set<string>, globals: set<string>, tail: Option<Tail>)
    requires e.Recur? && Spelled(names, globals) && OK(e, scope, names, tail) && Calls(e, globals)
    ensures Clear(Cgc(NameId, e, Vars(tail)), globals)
    decreases e, 0
  {
    TempsAreClear(e.args, scope, names, globals, 0);
    AssignsAreClear(tail.value.vars, globals, 0);
  }

  lemma {:induction false} LetBlockIsClear(e: Expr, scope: set<string>, names: set<string>, globals: set<string>, tail: Option<Tail>)
    requires e.Let? && Spelled(names, globals) && OK(e, scope, names, tail) && Calls(e, globals)
    ensures Clear(Cgc(NameId, e, Vars(tail)), globals)
    decreases e, 0
  {
    var Let(bindings, body) := e;
    var inner := Shadow(tail, NameSet(bindings));
    LetIsClear(bindings, scope, names, globals, {});
    StmtsAreClear(body, scope + NameSet(bindings), names, globals, inner);
    EmittedIsClear(body[|body| - 1], scope + NameSet(bindings), names, globals, inner);
  }

  lemma {:induction false} LoopBlockIsClear(e: Expr, scope: set<string>, names: set<string>, globals: set<string>, tail: Option<Tail>)
    requires e.Loop? && Spelled(names, globals) && OK(e, scope, names, tail) && Calls(e, globals)
    ensures Clear(Cgc(NameId, e, Vars(tail)), globals)
    decreases e, 0
  {
    var Loop(bindings, step) := e;
    var vars := BindingNames(bindings);
    LoopVarsAreClear(bindings, scope, names, globals, {}, 0);
    EmittedIsClear(step, scope + NameSet(bindings), names, globals, Some(Tail(vars, {}, true)));
    FlagIsClear(Looping, Int(1), names, globals);
    FlagIsClear(Result, Nil, names, globals);
    WhileIsClear(step, vars, globals);
    BothAreClear(CgcLoopVars(NameId, bindings, 0), LoopRun(NameId, step, vars), globals);
  }

  lemma {:induction false} FlagIsClear(x: Id, v: Value, names: set<string>, globals: set<string>)
    requires Spelled(names, globals) && !x.User?
    ensures ClearStmt(CDecl(x, CConst(v)), globals)
  {
    OwnIsDeclarable(x, names, globals);
  }

  lemma {:induction false} BothAreClear(a: seq<CStmt>, b: seq<CStmt>, globals: set<string>)
    requires ClearStmts(a, globals) && ClearStmts(b, globals)
    ensures ClearStmts(a + b, globals)
  {
  }

  lemma {:induction false} CondIsClear(clauses: seq<Clause>, scope: set<string>, names: set<string>, globals: set<string>,
                                       tail: Option<Tail>)
    requires Spelled(names, globals) && CallsClauses(clauses, globals)
    requires forall c | c in clauses :: OK(c.test, scope, names, None) && OK(c.body, scope, names, tail)
    ensures Clear(CgcCond(NameId, clauses, Vars(tail)), globals)
    decreases clauses, 0
  {
    if clauses != [] {
      var c := clauses[0];
      assert c in clauses && c.test < c && c.body < c;
      EmittedIsClear(c.test, scope, names, globals, None);
      EmittedIsClear(c.body, scope, names, globals, tail);
      CondIsClear(clauses[1..], scope, names, globals, tail);
    }
  }

  lemma {:induction false} ArgsAreClear(args: seq<Expr>, scope: set<string>, names: set<string>, globals: set<string>)
    requires Spelled(names, globals) && OKArgs(args, scope, names) && CallsAll(args, globals)
    ensures ClearAll(CgcArgs(NameId, args), globals)
    decreases args, 0
  {
    if args != [] {
      EmittedIsClear(args[0], scope, names, globals, None);
      ArgsAreClear(args[1..], scope, names, globals);
    }
  }

  lemma {:induction false} FoldedIsClear(op: Op, args: seq<Expr>, scope: set<string>, names: set<string>, globals: set<string>)
    requires Spelled(names, globals) && OKArgs(args, scope, names) && CallsAll(args, globals) && CallsOp(op, globals)
    ensures args != [] ==> Clear(Cgc(NameId, args[0], None), globals)
                           && Clear(FoldCalls(op, Cgc(NameId, args[0], None), CgcArgs(NameId, args[1..])), globals)
    decreases args, 1
  {
    if args != [] {
      EmittedIsClear(args[0], scope, names, globals, None);
      ArgsAreClear(args[1..], scope, names, globals);
      FoldIsClear(op, Cgc(NameId, args[0], None), CgcArgs(NameId, args[1..]), globals);
    }
  }

  lemma {:induction false} FoldIsClear(op: Op, acc: CExpr, rest: seq<CExpr>, globals: set<string>)
    requires CallsOp(op, globals) && Clear(acc, globals) && ClearAll(rest, globals)
    ensures Clear(FoldCalls(op, acc, rest), globals)
    decreases |rest|
  {
    if rest != [] {
      FoldIsClear(op, CCall(op, [acc, rest[0]]), rest[1..], globals);
    }
  }

  lemma {:induction false} StmtsAreClear(body: seq<Expr>, scope: set<string>, names: set<string>, globals: set<string>,
                                         tail: Option<Tail>)
    requires Spelled(names, globals) && OKBody(body, scope, names, tail) && CallsAll(body, globals)
    ensures ClearStmts(CgcStmts(NameId, body, Vars(tail)), globals)
    decreases body, 0
  {
    if |body| == 1 {
      EmittedIsClear(body[0], scope, names, globals, tail);
    } else {
      EmittedIsClear(body[0], scope, names, globals, NoJump(tail));
      StmtsAreClear(body[1..], scope, names, globals, tail);
    }
  }

  lemma {:induction false} LetIsClear(bindings: seq<Binding>, scope: set<string>, names: set<string>, globals: set<string>,
                                      taken: set<string>)
    requires Spelled(names, globals) && OKLet(bindings, scope, names, taken) && CallsBindings(bindings, globals)
    ensures ClearStmts(CgcLet(NameId, bindings), globals)
    decreases bindings, 0
  {
    if bindings != [] {
      var b := bindings[0];
      NameIsDeclarable(b.name, names, globals);
      EmittedIsClear(b.init, scope - {b.name}, names, globals, None);
      LetIsClear(bindings[1..], scope + {b.name}, names, globals, taken + {b.name});
    }
  }

  lemma {:induction false} LoopVarsAreClear(bindings: seq<Binding>, scope: set<string>, names: set<string>, globals: set<string>,
                                            taken: set<string>, i: nat)
    requires Spelled(names, globals) && OKLoopVars(bindings, scope, names, taken) && CallsBindings(bindings, globals)
    ensures ClearStmts(CgcLoopVars(NameId, bindings, i), globals)
    decreases bindings, 0
  {
    if bindings != [] {
      var b := bindings[0];
      NameIsDeclarable(b.name, names, globals);
      OwnIsDeclarable(LoopTmp(i), names, globals);
      EmittedIsClear(b.init, scope, names, globals, None);
      LoopVarsAreClear(bindings[1..], scope + {b.name}, names, globals, taken + {b.name}, i + 2);
    }
  }

  lemma {:induction false} WhileIsClear(step: Expr, vars: seq<string>, globals: set<string>)
    requires Clear(Cgc(NameId, step, Some(vars)), globals)
    ensures ClearStmt(CgcWhile(NameId, step, vars), globals)
  {
  }

  lemma {:induction false} TempsAreClear(args: seq<Expr>, scope: set<string>, names: set<string>, globals: set<string>, i: nat)
    requires Spelled(names, globals) && OKArgs(args, scope, names) && CallsAll(args, globals)
    ensures ClearStmts(RecurTemps(NameId, args, i), globals)
    decreases args, 0
  {
    if args != [] {
      OwnIsDeclarable(RecurTmp(i), names, globals);
      EmittedIsClear(args[0], scope, names, globals, None);
      TempsAreClear(args[1..], scope, names, globals, i + 1);
    }
  }

  lemma {:induction false} AssignsAreClear(vars: seq<string>, globals: set<string>, i: nat)
    ensures ClearStmts(RecurAssigns(NameId, vars, i), globals)
    decreases |vars|
  {
    if vars != [] {
      AssignsAreClear(vars[1..], globals, i + 1);
    }
  }
}
