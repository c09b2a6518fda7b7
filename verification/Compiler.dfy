/** The C code generator of target-gen1.c: the expressions it accepts with their reference meaning,
    the fragment of C it emits with the meaning C gives it, and the `cgc_*` functions between them. */
module Compiler {
  import opened FLValue
  import opened Wrappers
  import opened CNames

  /** Operators, the two eager logical functions of the runtime, and functions called by name. */
  datatype Op =
    | Add | Sub | Mul | Div | Mod | Eq | Neq | Lt | Gt | Lte | Gte | Not | First | Rest
    | FlAnd | FlOr
    | Named(fn: string)

  /** What a call returns; None when it throws. */
  type Runtime = (Op, seq<Value>) -> Option<Value>

  /** Which C variable a source name becomes: `NameId`. */
  type Mangler = string -> Id

  type Env = map<string, Value>

  datatype Outcome<+T> = Done(value: T) | Stuck | Timeout | Unsteady {
    predicate IsFailure() {
      !Done?
    }

    function PropagateFailure<U>(): Outcome<U>
      requires IsFailure()
    {
      if Stuck? then Stuck else if Timeout? then Timeout else Unsteady
    }

    function Extract(): T
      requires Done?
    {
      value
    }
  }

  // ---------- The source language ----------

  datatype Clause = Clause(test: Expr, body: Expr)

  datatype Binding = Binding(name: string, init: Expr)

  datatype Expr =
    | Lit(v: Value)
    | Var(name: string)
    | If(test: Expr, thn: Expr, els: Option<Expr>)
    | Cond(clauses: seq<Clause>)
    | Let(bindings: seq<Binding>, body: seq<Expr>)
    | Do(body: seq<Expr>)
    | And(args: seq<Expr>)
    | Or(args: seq<Expr>)
    | Chain(op: Op, args: seq<Expr>)
    | Call(op: Op, args: seq<Expr>)
    | Loop(bindings: seq<Binding>, step: Expr)
    | Recur(args: seq<Expr>)

  /** Either a value, or a jump back to the enclosing loop with new values for its variables. */
  datatype Step = Val(v: Value) | Again(vs: seq<Value>)

  /** `fl_and` and `fl_or` are ordinary functions in C: both operands are values by the time they run. */
  function CallRuntime(rt: Runtime, op: Op, args: seq<Value>): Outcome<Value> {
    if op == FlAnd && |args| == 2 then Done(if Truthy(args[0]) then args[1] else args[0])
    else if op == FlOr && |args| == 2 then Done(if Truthy(args[0]) then args[0] else args[1])
    else
      match rt(op, args)
      case None => Stuck
      case Some(v) => Done(v)
  }

  /** Three ways to run a program.
      Lazy is what the source means: `and` and `or` stop early, and every expression of a body runs.
      Emitted is what the emitted code does: all operands run, and in a loop a `let` runs only its last expression.
      Checked is Lazy, but ends as Unsteady where Emitted runs an operand that has no value, or leaves out an
      expression that has none. */
  datatype Mode = Lazy | Emitted | Checked

  function Valued(r: Outcome<Step>): Outcome<Value> {
    var s :- r;
    if s.Val? then Done(s.v) else Stuck
  }

  /** Only loop iterations use fuel, so Timeout means exactly that some loop ran longer than `fuel` rounds. `wr` says
      whether e stands in tail position of a loop. */
  function Eval(rt: Runtime, m: Mode, e: Expr, env: Env, fuel: nat, wr: bool): Outcome<Step>
    decreases fuel, e, 1
  {
    match e
    case Lit(v) => Done(Val(v))
    case Var(x) => if x in env then Done(Val(env[x])) else Stuck
    case If(test, thn, els) =>
      var b :- EvalValue(rt, m, test, env, fuel);
      if Truthy(b) then Eval(rt, m, thn, env, fuel, wr)
      else if els.Some? then Eval(rt, m, els.value, env, fuel, wr)
      else Done(Val(Nil))
    case Cond(clauses) => EvalCond(rt, m, clauses, env, fuel, wr)
    case Let(bindings, body) =>
      var inner :- EvalBindings(rt, m, bindings, env, fuel);
      EvalBody(rt, m, body, inner, fuel, wr, wr)
    case Do(body) => EvalBody(rt, m, body, env, fuel, wr, false)
    case And(args) =>
      var v :- EvalAnd(rt, m, args, env, fuel);
      Done(Val(v))
    case Or(args) =>
      var v :- EvalOr(rt, m, args, env, fuel);
      Done(Val(v))
    case Chain(op, args) =>
      if args == [] then Done(Val(Int(0)))
      else
        var first :- EvalValue(rt, m, args[0], env, fuel);
        if |args| == 1 && op == Sub then
          var v :- CallRuntime(rt, op, [Int(0), first]);
          Done(Val(v))
        else
          var v :- EvalFold(rt, m, op, first, args[1..], env, fuel);
          Done(Val(v))
    case Call(op, args) =>
      var vs :- EvalArgs(rt, m, args, env, fuel);
      var v :- CallRuntime(rt, op, vs);
      Done(Val(v))
    case Loop(bindings, step) =>
      var inner :- EvalBindings(rt, m, bindings, env, fuel);
      var v :- EvalLoop(rt, m, BindingNames(bindings), step, inner, fuel);
      Done(Val(v))
    case Recur(args) =>
      var vs :- EvalArgs(rt, m, args, env, fuel);
      Done(Again(vs))
  }

  /** Where a plain value is wanted; a jump there has no loop to go to. */
  function EvalValue(rt: Runtime, m: Mode, e: Expr, env: Env, fuel: nat): Outcome<Value>
    decreases fuel, e, 2
  {
    Valued(Eval(rt, m, e, env, fuel, false))
  }

  /** First clause whose test is true; nil if there is none. */
  function EvalCond(rt: Runtime, m: Mode, clauses: seq<Clause>, env: Env, fuel: nat, wr: bool): Outcome<Step>
    decreases fuel, clauses, 0
  {
    if clauses == [] then Done(Val(Nil))
    else
      var c := clauses[0];
      assert c.test < c && c.body < c;
      var b :- EvalValue(rt, m, c.test, env, fuel);
      if Truthy(b) then Eval(rt, m, c.body, env, fuel, wr)
      else EvalCond(rt, m, clauses[1..], env, fuel, wr)
  }

  /** Bindings take effect one after the other. */
  function EvalBindings(rt: Runtime, m: Mode, bindings: seq<Binding>, env: Env, fuel: nat): (r: Outcome<Env>)
    ensures r.Done? ==> r.value.Keys == env.Keys + NameSet(bindings)
    decreases fuel, bindings, 0
  {
    if bindings == [] then Done(env)
    else
      var v :- EvalValue(rt, m, bindings[0].init, env, fuel);
      EvalBindings(rt, m, bindings[1..], env[bindings[0].name := v], fuel)
  }

  /** Every expression in turn; the last one decides. With `cut`, the emitted code has only the last one. */
  function EvalBody(rt: Runtime, m: Mode, body: seq<Expr>, env: Env, fuel: nat, wr: bool, cut: bool): Outcome<Step>
    decreases fuel, body, 0
  {
    if body == [] then Done(Val(Nil))
    else if |body| == 1 then Eval(rt, m, body[0], env, fuel, wr)
    else if !cut then
      var _ :- Valued(Eval(rt, m, body[0], env, fuel, wr));
      EvalBody(rt, m, body[1..], env, fuel, wr, cut)
    else
      match m
      case Lazy =>
        var _ :- Valued(Eval(rt, Lazy, body[0], env, fuel, wr));
        EvalBody(rt, m, body[1..], env, fuel, wr, cut)
      case Emitted => EvalBody(rt, m, body[1..], env, fuel, wr, cut)
      case Checked =>
        if !Valued(Eval(rt, Lazy, body[0], env, fuel, wr)).Done? then Unsteady
        else EvalBody(rt, m, body[1..], env, fuel, wr, cut)
  }

  /** What the operands that are not needed for the value come to. */
  function Unneeded(rt: Runtime, m: Mode, v: Value, args: seq<Expr>, env: Env, fuel: nat): Outcome<Value>
    decreases fuel, args, 1
  {
    match m
    case Lazy => Done(v)
    case Emitted =>
      var _ :- EvalArgs(rt, Emitted, args, env, fuel);
      Done(v)
    case Checked => if EvalArgs(rt, Emitted, args, env, fuel).Done? then Done(v) else Unsteady
  }

  /** Left to right, up to the first false operand. */
  function EvalAnd(rt: Runtime, m: Mode, args: seq<Expr>, env: Env, fuel: nat): Outcome<Value>
    decreases fuel, args, 0
  {
    if args == [] then Done(Bool(true))
    else
      var v :- EvalValue(rt, m, args[0], env, fuel);
      if |args| == 1 then Done(v)
      else if Truthy(v) then EvalAnd(rt, m, args[1..], env, fuel)
      else Unneeded(rt, m, v, args[1..], env, fuel)
  }

  /** Left to right, up to the first true operand. */
  function EvalOr(rt: Runtime, m: Mode, args: seq<Expr>, env: Env, fuel: nat): Outcome<Value>
    decreases fuel, args, 0
  {
    if args == [] then Done(Bool(false))
    else
      var v :- EvalValue(rt, m, args[0], env, fuel);
      if |args| == 1 then Done(v)
      else if !Truthy(v) then EvalOr(rt, m, args[1..], env, fuel)
      else Unneeded(rt, m, v, args[1..], env, fuel)
  }

  function EvalFold(rt: Runtime, m: Mode, op: Op, acc: Value, args: seq<Expr>, env: Env, fuel: nat): Outcome<Value>
    decreases fuel, args, 0
  {
    if args == [] then Done(acc)
    else
      var v :- EvalValue(rt, m, args[0], env, fuel);
      var next :- CallRuntime(rt, op, [acc, v]);
      EvalFold(rt, m, op, next, args[1..], env, fuel)
  }

  function EvalArgs(rt: Runtime, m: Mode, args: seq<Expr>, env: Env, fuel: nat): (r: Outcome<seq<Value>>)
    ensures r.Done? ==> |r.value| == |args|
    decreases fuel, args, 0
  {
    if args == [] then Done([])
    else
      var v :- EvalValue(rt, m, args[0], env, fuel);
      var vs :- EvalArgs(rt, m, args[1..], env, fuel);
      Done([v] + vs)
  }

  function EvalLoop(rt: Runtime, m: Mode, vars: seq<string>, step: Expr, env: Env, fuel: nat): Outcome<Value>
    decreases fuel, step, 3
  {
    if fuel == 0 then Timeout
    else
      var s :- Eval(rt, m, step, env, fuel - 1, true);
      match s
      case Val(v) => Done(v)
      case Again(vs) =>
        if |vs| != |vars| then Stuck
        else EvalLoop(rt, m, vars, step, Rebind(env, vars, vs), fuel - 1)
  }

  /** All loop variables change at once. */
  function Rebind(env: Env, vars: seq<string>, vs: seq<Value>): (r: Env)
    requires |vars| == |vs|
    ensures r.Keys == env.Keys + set x | x in vars
    decreases |vars|
  {
    if vars == [] then env else Rebind(env[vars[0] := vs[0]], vars[1..], vs[1..])
  }

  function BindingNames(bindings: seq<Binding>): (r: seq<string>)
    ensures |r| == |bindings| && forall i | 0 <= i < |r| :: r[i] == bindings[i].name
  {
    seq(|bindings|, i requires 0 <= i < |bindings| => bindings[i].name)
  }

  function NameSet(bindings: seq<Binding>): set<string> {
    set b | b in bindings :: b.name
  }

  // ---------- The emitted C ----------

  datatype CExpr =
    | CConst(v: Value)
    | CVar(x: Id)
    | CCall(op: Op, args: seq<CExpr>)
    | CTernary(test: CExpr, thn: CExpr, els: CExpr)
    | CBlock(stmts: seq<CStmt>)

  datatype CStmt =
    | CDecl(x: Id, init: CExpr)
    | CAssign(x: Id, rhs: CExpr)
    | CExprStmt(e: CExpr)
    | CWhile(flag: Id, stmts: seq<CStmt>)

  /** Nested C scopes, innermost first. A declared but uninitialised variable holds None. */
  datatype Store = Global | Scope(vars: map<Id, Option<Value>>, outer: Store)

  function Lookup(st: Store, x: Id): Option<Value> {
    match st
    case Global => None
    case Scope(vars, outer) => if x in vars then vars[x] else Lookup(outer, x)
  }

  predicate Declared(st: Store, x: Id) {
    st.Scope? && (x in st.vars || Declared(st.outer, x))
  }

  /** Assignment reaches the innermost declaration. */
  function Update(st: Store, x: Id, v: Value): Store {
    match st
    case Global => Global
    case Scope(vars, outer) =>
      if x in vars then Scope(vars[x := Some(v)], outer) else Scope(vars, Update(outer, x, v))
  }

  function CEval(rt: Runtime, e: CExpr, st: Store, fuel: nat): Outcome<(Value, Store)>
    decreases fuel, e, 0
  {
    match e
    case CConst(v) => Done((v, st))
    case CVar(x) =>
      (match Lookup(st, x)
       case None => Stuck
       case Some(v) => Done((v, st)))
    case CCall(op, args) =>
      var (vs, st1) :- CEvalArgs(rt, args, st, fuel);
      var v :- CallRuntime(rt, op, vs);
      Done((v, st1))
    case CTernary(test, thn, els) =>
      var (b, st1) :- CEval(rt, test, st, fuel);
      if Truthy(b) then CEval(rt, thn, st1, fuel) else CEval(rt, els, st1, fuel)
    case CBlock(stmts) =>
      var (last, st1) :- CExec(rt, stmts, Scope(map[], st), fuel);
      if last.Some? && st1.Scope? then Done((last.value, st1.outer)) else Stuck
  }

  function CEvalArgs(rt: Runtime, es: seq<CExpr>, st: Store, fuel: nat): Outcome<(seq<Value>, Store)>
    decreases fuel, es, 0
  {
    if es == [] then Done(([], st))
    else
      var (v, st1) :- CEval(rt, es[0], st, fuel);
      var (vs, st2) :- CEvalArgs(rt, es[1..], st1, fuel);
      Done(([v] + vs, st2))
  }

  /** The value of the last statement, if it is an expression statement. */
  function CExec(rt: Runtime, stmts: seq<CStmt>, st: Store, fuel: nat): Outcome<(Option<Value>, Store)>
    decreases fuel, stmts, 0
  {
    if stmts == [] then Done((None, st))
    else
      var (last, st1) :- CStep(rt, stmts[0], st, fuel);
      if |stmts| == 1 then Done((last, st1)) else CExec(rt, stmts[1..], st1, fuel)
  }

  /** A C declaration is in scope in its own initialiser, and may not repeat a name of its scope. */
  function CStep(rt: Runtime, s: CStmt, st: Store, fuel: nat): Outcome<(Option<Value>, Store)>
    decreases fuel, s, 1
  {
    match s
    case CDecl(x, init) =>
      if !st.Scope? || x in st.vars then Stuck
      else
        var (v, st1) :- CEval(rt, init, Scope(st.vars[x := None], st.outer), fuel);
        Done((None, Update(st1, x, v)))
    case CAssign(x, rhs) =>
      var (v, st1) :- CEval(rt, rhs, st, fuel);
      if Declared(st1, x) then Done((None, Update(st1, x, v))) else Stuck
    case CExprStmt(e) =>
      var (v, st1) :- CEval(rt, e, st, fuel);
      Done((Some(v), st1))
    case CWhile(flag, stmts) =>
      (match Lookup(st, flag)
       case None => Stuck
       case Some(b) =>
         if !Truthy(b) then Done((None, st))
         else if fuel == 0 then Timeout
         else
           var (_, st1) :- CExec(rt, stmts, Scope(map[], st), fuel - 1);
           if !st1.Scope? then Stuck else CStep(rt, s, st1.outer, fuel - 1))
  }

  // ---------- The code generator ----------

  /** Operators whose emitted call takes a fixed number of operands and ignores any further ones. */
  function FixedArity(op: Op): Option<nat> {
    match op
    case Not => Some(1)
    case First => Some(1)
    case Rest => Some(1)
    case Named(_) => None
    case _ => Some(2)
  }

  const C_NIL := CConst(Nil)

  /** `cgc` when `wr` is None; otherwise `cgc_with_recur`, which knows the variables of the
      enclosing loop and hands them down through tail positions only. */
  function Cgc(cn: Mangler, e: Expr, wr: Option<seq<string>>): CExpr
    decreases e, 1
  {
    match e
    case Lit(v) => CConst(v)
    case Var(x) => CVar(cn(x))
    case If(test, thn, els) =>
      CTernary(Cgc(cn, test, None), Cgc(cn, thn, wr), if els.Some? then Cgc(cn, els.value, wr) else C_NIL)
    case Cond(clauses) => CgcCond(cn, clauses, wr)
    case Let(bindings, body) =>
      CBlock(CgcLet(cn, bindings) + if wr.Some? && body != [] then [CExprStmt(Cgc(cn, body[|body| - 1], wr))]
                                else CgcStmts(cn, body, wr))
    case Do(body) => CBlock(CgcStmts(cn, body, wr))
    case And(args) => if args == [] then CConst(Bool(true)) else FoldCalls(FlAnd, Cgc(cn, args[0], None), CgcArgs(cn, args[1..]))
    case Or(args) => if args == [] then CConst(Bool(false)) else FoldCalls(FlOr, Cgc(cn, args[0], None), CgcArgs(cn, args[1..]))
    case Chain(op, args) =>
      if args == [] then CConst(Int(0))
      else if |args| == 1 && op == Sub then CCall(Sub, [CConst(Int(0)), Cgc(cn, args[0], None)])
      else FoldCalls(op, Cgc(cn, args[0], None), CgcArgs(cn, args[1..]))
    case Call(op, args) =>
      CCall(op, match FixedArity(op)
                             case None => CgcArgs(cn, args)
                             case Some(n) => Pad(CgcArgs(cn, args), n))
    case Loop(bindings, step) =>
      CBlock(CgcLoopVars(cn, bindings, 0)
             + [CDecl(Looping, CConst(Int(1))), CDecl(Result, C_NIL), CgcWhile(cn, step, BindingNames(bindings)),
                CExprStmt(CVar(Result))])
    case Recur(args) =>
      match wr
      case None => C_NIL
      case Some(vars) =>
        CBlock(RecurTemps(cn, args, 0) + RecurAssigns(cn, vars, 0) + [CAssign(Looping, CConst(Int(1))), CExprStmt(C_NIL)])
  }

  function CgcWhile(cn: Mangler, step: Expr, vars: seq<string>): CStmt
    decreases step, 2
  {
    CWhile(Looping, [CAssign(Looping, CConst(Int(0))), CAssign(Result, Cgc(cn, step, Some(vars)))])
  }

  function CgcArgs(cn: Mangler, es: seq<Expr>): (r: seq<CExpr>)
    ensures |r| == |es|
    decreases es, 0
  {
    if es == [] then [] else [Cgc(cn, es[0], None)] + CgcArgs(cn, es[1..])
  }

  function Pad(cs: seq<CExpr>, n: nat): seq<CExpr> {
    if |cs| >= n then cs[..n] else cs + seq(n - |cs|, _ => C_NIL)
  }

  /** `cgc_binop_fold`, `cgc_and_fold`, `cgc_or_fold`: f(f(f(acc, a), b), c) */
  function FoldCalls(op: Op, acc: CExpr, rest: seq<CExpr>): CExpr
    decreases |rest|
  {
    if rest == [] then acc else FoldCalls(op, CCall(op, [acc, rest[0]]), rest[1..])
  }

  /** A clause whose test is the literal true ends the chain: later clauses are dropped. */
  predicate IsElse(test: Expr) {
    test == Lit(Bool(true)) || test == Lit(Str("true"))
  }

  function CgcCond(cn: Mangler, clauses: seq<Clause>, wr: Option<seq<string>>): CExpr
    decreases clauses, 0
  {
    if clauses == [] then C_NIL
    else
      var c := clauses[0];
      assert c.test < c && c.body < c;
      if IsElse(c.test) then Cgc(cn, c.body, wr)
      else CTernary(Cgc(cn, c.test, None), Cgc(cn, c.body, wr), CgcCond(cn, clauses[1..], wr))
  }

  function CgcStmts(cn: Mangler, body: seq<Expr>, wr: Option<seq<string>>): (r: seq<CStmt>)
    ensures |r| == |body|
    decreases body, 0
  {
    if body == [] then [] else [CExprStmt(Cgc(cn, body[0], wr))] + CgcStmts(cn, body[1..], wr)
  }

  function CgcLet(cn: Mangler, bindings: seq<Binding>): seq<CStmt>
    decreases bindings, 0
  {
    if bindings == [] then []
    else [CDecl(cn(bindings[0].name), Cgc(cn, bindings[0].init, None))] + CgcLet(cn, bindings[1..])
  }

  /** Each loop variable is copied from a temporary holding its initial value. */
  function CgcLoopVars(cn: Mangler, bindings: seq<Binding>, i: nat): seq<CStmt>
    decreases bindings, 0
  {
    if bindings == [] then []
    else [CDecl(LoopTmp(i), Cgc(cn, bindings[0].init, None)),
          CDecl(cn(bindings[0].name), CVar(LoopTmp(i)))] + CgcLoopVars(cn, bindings[1..], i + 2)
  }

  function RecurTemps(cn: Mangler, args: seq<Expr>, i: nat): seq<CStmt>
    decreases args, 0
  {
    if args == [] then [] else [CDecl(RecurTmp(i), Cgc(cn, args[0], None))] + RecurTemps(cn, args[1..], i + 1)
  }

  function RecurAssigns(cn: Mangler, vars: seq<string>, i: nat): seq<CStmt> {
    if vars == [] then [] else [CAssign(cn(vars[0]), CVar(RecurTmp(i)))] + RecurAssigns(cn, vars[1..], i + 1)
  }
}
