/** The emitted C does what the source does when all operands are evaluated: same value, same failure, same
    divergence. */
module CompilerCorrectness {
  import opened FLValue
  import opened Wrappers
  import opened CNames
  import opened Compiler

  // ---------- What the compiler asks of a program ----------

  /** The loop a tail position belongs to: its variables, the names bound since, and whether a jump
      back is allowed here. */
  datatype Tail = Tail(vars: seq<string>, shadowed: set<string>, mayJump: bool)

  /** C variables tell the source names apart (`a-b` and `a_b` would not), and none is the compiler's own. */
  ghost predicate Mangles(cn: Mangler, names: set<string>) {
    (forall x | x in names :: cn(x).User?) && forall x, y | x in names && y in names && cn(x) == cn(y) :: x == y
  }

  function Shadow(tail: Option<Tail>, names: set<string>): Option<Tail> {
    match tail
    case None => None
    case Some(t) => Some(t.(shadowed := t.shadowed + names))
  }

  function NoJump(tail: Option<Tail>): Option<Tail> {
    match tail
    case None => None
    case Some(t) => Some(t.(mayJump := false))
  }

  function Vars(tail: Option<Tail>): Option<seq<string>> {
    match tail
    case None => None
    case Some(t) => Some(t.vars)
  }

  /** The static conditions: every variable is bound; `recur` stands in tail position of a loop,
      with one argument per variable, none of them shadowed; no `let` name occurs in its own
      initialiser or twice in one `let`. */
  predicate OK(e: Expr, scope: set<string>, names: set<string>, tail: Option<Tail>)
    decreases e, 1
  {
    match e
    case Lit(_) => true
    case Var(x) => x in scope
    case If(test, thn, els) =>
      OK(test, scope, names, None) && OK(thn, scope, names, tail)
      && (els.Some? ==> OK(els.value, scope, names, tail))
    case Cond(clauses) =>
      forall c | c in clauses :: OK(c.test, scope, names, None) && OK(c.body, scope, names, tail)
    case Let(bindings, body) =>
      OKLet(bindings, scope, names, {})
      && OKBody(body, scope + NameSet(bindings), names, Shadow(tail, NameSet(bindings)))
    case Do(body) => OKBody(body, scope, names, tail)
    case And(args) => OKArgs(args, scope, names)
    case Or(args) => OKArgs(args, scope, names)
    case Chain(op, args) => OKArgs(args, scope, names)
    case Call(op, args) => OKArgs(args, scope, names) && (FixedArity(op).Some? ==> |args| == FixedArity(op).value)
    case Loop(bindings, step) =>
      OKLoopVars(bindings, scope, names, {})
      && OK(step, scope + NameSet(bindings), names, Some(Tail(BindingNames(bindings), {}, true)))
    case Recur(args) =>
      tail.Some? && tail.value.mayJump && |args| == |tail.value.vars|
      && (forall x | x in tail.value.vars :: x !in tail.value.shadowed) && OKArgs(args, scope, names)
  }

  predicate OKArgs(args: seq<Expr>, scope: set<string>, names: set<string>)
    decreases args, 0
  {
    forall i | 0 <= i < |args| :: OK(args[i], scope, names, None)
  }

  predicate OKBody(body: seq<Expr>, scope: set<string>, names: set<string>, tail: Option<Tail>)
    decreases body, 0
  {
    |body| > 0
    && (forall i | 0 <= i < |body| - 1 :: OK(body[i], scope, names, NoJump(tail)))
    && OK(body[|body| - 1], scope, names, tail)
  }

  predicate OKLet(bindings: seq<Binding>, scope: set<string>, names: set<string>, taken: set<string>)
    decreases bindings, 0
  {
    bindings != [] ==>
      var b := bindings[0];
      b.name in names && b.name !in taken && OK(b.init, scope - {b.name}, names, None)
      && OKLet(bindings[1..], scope + {b.name}, names, taken + {b.name})
  }

  predicate OKLoopVars(bindings: seq<Binding>, scope: set<string>, names: set<string>, taken: set<string>)
    decreases bindings, 0
  {
    bindings != [] ==>
      var b := bindings[0];
      b.name in names && b.name !in taken && OK(b.init, scope, names, None)
      && OKLoopVars(bindings[1..], scope + {b.name}, names, taken + {b.name})
  }

  // ---------- How the two sides correspond ----------

  /** The store shows every name in scope with its source value. */
  ghost predicate Fits(cn: Mangler, st: Store, env: Env, scope: set<string>) {
    scope <= env.Keys && forall x | x in scope :: Lookup(st, cn(x)) == Some(env[x])
  }

  ghost predicate Ready(cn: Mangler, st: Store, tail: Option<Tail>, names: set<string>) {
    tail.Some? ==>
      Declared(st, Looping) && forall x | x in tail.value.vars :: x in names && Declared(st, cn(x))
  }

  function AssignAll(cn: Mangler, st: Store, vars: seq<string>, vs: seq<Value>): Store
    requires |vars| == |vs|
    decreases |vars|
  {
    if vars == [] then st else AssignAll(cn, Update(st, cn(vars[0]), vs[0]), vars[1..], vs[1..])
  }

  /** The store after a jump: all loop variables changed and the flag raised. */
  function Jumped(cn: Mangler, st: Store, vars: seq<string>, vs: seq<Value>): Store
    requires |vars| == |vs|
  {
    Update(AssignAll(cn, st, vars, vs), Looping, Int(1))
  }

  function Lift<T>(r: Outcome<T>, st: Store): Outcome<(T, Store)> {
    match r
    case Done(v) => Done((v, st))
    case Stuck => Stuck
    case Timeout => Timeout
    case Unsteady => Unsteady
  }

  /** What the C expression must do when the source expression does `r`. */
  function Expected(cn: Mangler, r: Outcome<Step>, st: Store, tail: Option<Tail>): Outcome<(Value, Store)> {
    match r
    case Done(Val(v)) => Done((v, st))
    case Done(Again(vs)) =>
      if tail.Some? && |vs| == |tail.value.vars| then Done((Nil, Jumped(cn, st, tail.value.vars, vs))) else Stuck
    case Stuck => Stuck
    case Timeout => Timeout
    case Unsteady => Unsteady
  }

  function AsLast(r: Outcome<(Value, Store)>): Outcome<(Option<Value>, Store)> {
    match r
    case Done((v, st)) => Done((Some(v), st))
    case Stuck => Stuck
    case Timeout => Timeout
    case Unsteady => Unsteady
  }

  /** A jump happens only where one is allowed. */
  ghost predicate JumpsWell(r: Outcome<Step>, tail: Option<Tail>) {
    r.Done? && r.value.Again? ==>
      tail.Some? && tail.value.mayJump && |r.value.vs| == |tail.value.vars|
      && forall x | x in tail.value.vars :: x !in tail.value.shadowed
  }

  // ---------- Stores ----------

  lemma {:induction false} LookupUpdate(st: Store, x: Id, v: Value, y: Id)
    requires Declared(st, x)
    ensures Lookup(Update(st, x, v), y) == if y == x then Some(v) else Lookup(st, y)
    ensures Declared(Update(st, x, v), y) == Declared(st, y)
  {
    var Scope(vars, outer) := st;
    if x in vars {
      assert Update(st, x, v) == Scope(vars[x := Some(v)], outer);
    } else {
      LookupUpdate(outer, x, v, y);
    }
  }

  lemma {:induction false} AssignAllFits(cn: Mangler, st: Store, env: Env, scope: set<string>, names: set<string>,
                                         vars: seq<string>, vs: seq<Value>)
    requires |vars| == |vs| && Mangles(cn, names) && scope <= names && Fits(cn, st, env, scope)
    requires forall x | x in vars :: x in names && Declared(st, cn(x))
    ensures Fits(cn, AssignAll(cn, st, vars, vs), Rebind(env, vars, vs), scope)
    ensures forall y :: Declared(AssignAll(cn, st, vars, vs), y) == Declared(st, y)
    decreases |vars|
  {
    if vars != [] {
      var st', env' := Update(st, cn(vars[0]), vs[0]), env[vars[0] := vs[0]];
      forall y
        ensures Lookup(st', y) == (if y == cn(vars[0]) then Some(vs[0]) else Lookup(st, y))
        ensures Declared(st', y) == Declared(st, y)
      {
        LookupUpdate(st, cn(vars[0]), vs[0], y);
      }
      assert Fits(cn, st', env', scope);
      AssignAllFits(cn, st', env', scope, names, vars[1..], vs[1..]);
    }
  }

  /** Assignments to variables of an inner-free scope pass through to the outer store. */
  lemma {:induction false} AssignAllThrough(cn: Mangler, st: Store, vars: seq<string>, vs: seq<Value>)
    requires |vars| == |vs| && st.Scope? && forall x | x in vars :: cn(x) !in st.vars
    ensures AssignAll(cn, st, vars, vs) == Scope(st.vars, AssignAll(cn, st.outer, vars, vs))
    decreases |vars|
  {
    if vars != [] {
      AssignAllThrough(cn, Update(st, cn(vars[0]), vs[0]), vars[1..], vs[1..]);
    }
  }

  /** Assignments to variables of this scope leave the outer store alone. */
  lemma {:induction false} AssignAllHere(cn: Mangler, st: Store, vars: seq<string>, vs: seq<Value>)
    requires |vars| == |vs| && st.Scope? && forall x | x in vars :: cn(x) in st.vars
    ensures var r := AssignAll(cn, st, vars, vs);
            r.Scope? && r.outer == st.outer && r.vars.Keys == st.vars.Keys
    decreases |vars|
  {
    if vars != [] {
      AssignAllHere(cn, Update(st, cn(vars[0]), vs[0]), vars[1..], vs[1..]);
    }
  }

  lemma {:induction false} ExecCons(rt: Runtime, s: CStmt, rest: seq<CStmt>, st: Store, fuel: nat)
    requires |rest| > 0
    ensures var r := CStep(rt, s, st, fuel);
            CExec(rt, [s] + rest, st, fuel) == if r.Done? then CExec(rt, rest, r.value.1, fuel) else r
  {
    assert ([s] + rest)[1..] == rest;
  }

  // ---------- The simulation ----------

  ghost predicate Setup(rt: Runtime, cn: Mangler, env: Env, scope: set<string>, names: set<string>, st: Store) {
    Mangles(cn, names) && scope <= names && Fits(cn, st, env, scope)
  }

  /** Outcome for outcome, at every fuel. */
  lemma {:induction false} Correct(rt: Runtime, cn: Mangler, e: Expr, env: Env, scope: set<string>, names: set<string>,
                                   tail: Option<Tail>, st: Store, fuel: nat)
    requires Setup(rt, cn, env, scope, names, st) && OK(e, scope, names, tail) && Ready(cn, st, tail, names)
    ensures CEval(rt, Cgc(cn, e, Vars(tail)), st, fuel) == Expected(cn, Eval(rt, Emitted, e, env, fuel, tail.Some?), st, tail)
    ensures JumpsWell(Eval(rt, Emitted, e, env, fuel, tail.Some?), tail)
    decreases fuel, e, 1
  {
    match e
    case Lit(_) =>
    case Var(_) =>
    case If(_, _, _) =>
      CorrectIf(rt, cn, e, env, scope, names, tail, st, fuel);
    case Cond(clauses) =>
      CorrectCond(rt, cn, clauses, env, scope, names, tail, st, fuel);
    case Let(_, _) =>
      CorrectLetBlock(rt, cn, e, env, scope, names, tail, st, fuel);
    case Do(body) =>
      CorrectDo(rt, cn, body, env, scope, names, tail, st, fuel);
    case And(args) =>
      CorrectAnd(rt, cn, args, env, scope, names, st, fuel);
    case Or(args) =>
      CorrectOr(rt, cn, args, env, scope, names, st, fuel);
    case Chain(op, args) =>
      CorrectChain(rt, cn, op, args, env, scope, names, st, fuel, tail.Some?);
    case Call(op, args) =>
      CorrectCall(rt, cn, op, args, env, scope, names, st, fuel, tail.Some?);
    case Loop(_, _) =>
      CorrectLoopBlock(rt, cn, e, env, scope, names, st, fuel, tail.Some?);
    case Recur(args) =>
      CorrectRecur(rt, cn, args, env, scope, names, tail, st, fuel);
  }

  lemma {:induction false} CorrectValue(rt: Runtime, cn: Mangler, e: Expr, env: Env, scope: set<string>, names: set<string>,
                                        st: Store, fuel: nat)
    requires Setup(rt, cn, env, scope, names, st) && OK(e, scope, names, None)
    ensures CEval(rt, Cgc(cn, e, None), st, fuel) == Lift(EvalValue(rt, Emitted, e, env, fuel), st)
    decreases fuel, e, 2
  {
    Correct(rt, cn, e, env, scope, names, None, st, fuel);
  }

  lemma {:induction false} CorrectIf(rt: Runtime, cn: Mangler, e: Expr, env: Env, scope: set<string>, names: set<string>,
                                     tail: Option<Tail>, st: Store, fuel: nat)
    requires e.If? && Setup(rt, cn, env, scope, names, st) && OK(e, scope, names, tail) && Ready(cn, st, tail, names)
    ensures CEval(rt, Cgc(cn, e, Vars(tail)), st, fuel) == Expected(cn, Eval(rt, Emitted, e, env, fuel, tail.Some?), st, tail)
    ensures JumpsWell(Eval(rt, Emitted, e, env, fuel, tail.Some?), tail)
    decreases fuel, e, 0
  {
    CorrectValue(rt, cn, e.test, env, scope, names, st, fuel);
    var b := EvalValue(rt, Emitted, e.test, env, fuel);
    var other := if e.els.Some? then Cgc(cn, e.els.value, Vars(tail)) else C_NIL;
    TernaryStep(rt, Cgc(cn, e.test, None), b, Cgc(cn, e.thn, Vars(tail)), other, st, fuel);
    IfStep(rt, e, env, fuel, tail.Some?);
    if b.Done? && Truthy(b.value) {
      Correct(rt, cn, e.thn, env, scope, names, tail, st, fuel);
    } else if b.Done? && e.els.Some? {
      Correct(rt, cn, e.els.value, env, scope, names, tail, st, fuel);
    }
  }

  lemma {:induction false} IfStep(rt: Runtime, e: Expr, env: Env, fuel: nat, wr: bool)
    requires e.If?
    ensures var b := EvalValue(rt, Emitted, e.test, env, fuel);
            Eval(rt, Emitted, e, env, fuel, wr)
            == if !b.Done? then b.PropagateFailure()
               else if Truthy(b.value) then Eval(rt, Emitted, e.thn, env, fuel, wr)
               else if e.els.Some? then Eval(rt, Emitted, e.els.value, env, fuel, wr)
               else Done(Val(Nil))
  {
  }

  lemma {:induction false} TernaryStep(rt: Runtime, test: CExpr, b: Outcome<Value>, thn: CExpr, els: CExpr, st: Store, fuel: nat)
    requires CEval(rt, test, st, fuel) == Lift(b, st)
    ensures CEval(rt, CTernary(test, thn, els), st, fuel)
            == if !b.Done? then b.PropagateFailure()
               else if Truthy(b.value) then CEval(rt, thn, st, fuel) else CEval(rt, els, st, fuel)
  {
  }

  lemma {:induction false} CorrectDo(rt: Runtime, cn: Mangler, body: seq<Expr>, env: Env, scope: set<string>,
                                     names: set<string>, tail: Option<Tail>, st: Store, fuel: nat)
    requires Setup(rt, cn, env, scope, names, st) && OKBody(body, scope, names, tail) && Ready(cn, st, tail, names)
    ensures CEval(rt, Cgc(cn, Do(body), Vars(tail)), st, fuel) == Expected(cn, EvalBody(rt, Emitted, body, env, fuel, tail.Some?, false), st, tail)
    ensures JumpsWell(EvalBody(rt, Emitted, body, env, fuel, tail.Some?, false), tail)
    decreases fuel, body, 1
  {
    var inner := Scope(map[], st);
    CorrectStmts(rt, cn, body, env, scope, names, tail, inner, fuel);
    PopBlock(rt, cn, CgcStmts(cn, body, Vars(tail)), EvalBody(rt, Emitted, body, env, fuel, tail.Some?, false), inner, tail, fuel);
  }

  lemma {:induction false} CorrectCall(rt: Runtime, cn: Mangler, op: Op, args: seq<Expr>, env: Env, scope: set<string>,
                                       names: set<string>, st: Store, fuel: nat, wr: bool)
    requires Setup(rt, cn, env, scope, names, st) && OK(Call(op, args), scope, names, None)
    ensures CEval(rt, Cgc(cn, Call(op, args), None), st, fuel) == Expected(cn, Eval(rt, Emitted, Call(op, args), env, fuel, wr), st, None)
    ensures JumpsWell(Eval(rt, Emitted, Call(op, args), env, fuel, wr), None)
    decreases fuel, args, 1
  {
    CorrectArgs(rt, cn, args, env, scope, names, st, fuel);
    assert CgcArgs(cn, args)[..|args|] == CgcArgs(cn, args);
  }

  lemma {:induction false} CorrectCond(rt: Runtime, cn: Mangler, clauses: seq<Clause>, env: Env, scope: set<string>,
                                       names: set<string>, tail: Option<Tail>, st: Store, fuel: nat)
    requires Setup(rt, cn, env, scope, names, st) && Ready(cn, st, tail, names)
    requires forall c | c in clauses :: OK(c.test, scope, names, None) && OK(c.body, scope, names, tail)
    ensures CEval(rt, CgcCond(cn, clauses, Vars(tail)), st, fuel) == Expected(cn, EvalCond(rt, Emitted, clauses, env, fuel, tail.Some?), st, tail)
    ensures JumpsWell(EvalCond(rt, Emitted, clauses, env, fuel, tail.Some?), tail)
    decreases fuel, clauses, 0
  {
    if clauses != [] {
      var c := clauses[0];
      assert c in clauses && c.test < c && c.body < c;
      CorrectValue(rt, cn, c.test, env, scope, names, st, fuel);
      var b := EvalValue(rt, Emitted, c.test, env, fuel);
      TernaryStep(rt, Cgc(cn, c.test, None), b, Cgc(cn, c.body, Vars(tail)), CgcCond(cn, clauses[1..], Vars(tail)), st, fuel);
      if b.Done? && Truthy(b.value) {
        Correct(rt, cn, c.body, env, scope, names, tail, st, fuel);
      } else if b.Done? {
        CorrectCond(rt, cn, clauses[1..], env, scope, names, tail, st, fuel);
      }
    }
  }

  lemma {:induction false} CorrectArgs(rt: Runtime, cn: Mangler, args: seq<Expr>, env: Env, scope: set<string>,
                                       names: set<string>, st: Store, fuel: nat)
    requires Setup(rt, cn, env, scope, names, st) && OKArgs(args, scope, names)
    ensures CEvalArgs(rt, CgcArgs(cn, args), st, fuel) == Lift(EvalArgs(rt, Emitted, args, env, fuel), st)
    decreases fuel, args, 0
  {
    if args != [] {
      CorrectValue(rt, cn, args[0], env, scope, names, st, fuel);
      CorrectArgs(rt, cn, args[1..], env, scope, names, st, fuel);
      ArgsCons(rt, Cgc(cn, args[0], None), EvalValue(rt, Emitted, args[0], env, fuel),
               CgcArgs(cn, args[1..]), EvalArgs(rt, Emitted, args[1..], env, fuel), st, fuel);
      ArgsStep(rt, args, env, fuel);
    }
  }

  function FoldFrom(rt: Runtime, op: Op, acc: Outcome<Value>, args: seq<Expr>, env: Env, fuel: nat): Outcome<Value> {
    if acc.Done? then EvalFold(rt, Emitted, op, acc.value, args, env, fuel) else acc
  }

  lemma {:induction false} CorrectFold(rt: Runtime, cn: Mangler, op: Op, c: CExpr, acc: Outcome<Value>, args: seq<Expr>,
                                       env: Env, scope: set<string>, names: set<string>, st: Store, fuel: nat)
    requires Setup(rt, cn, env, scope, names, st) && OKArgs(args, scope, names)
    requires CEval(rt, c, st, fuel) == Lift(acc, st)
    ensures CEval(rt, FoldCalls(op, c, CgcArgs(cn, args)), st, fuel) == Lift(FoldFrom(rt, op, acc, args, env, fuel), st)
    decreases fuel, args, 0
  {
    if args != [] {
      CorrectValue(rt, cn, args[0], env, scope, names, st, fuel);
      var v := EvalValue(rt, Emitted, args[0], env, fuel);
      CallTwo(rt, op, c, acc, Cgc(cn, args[0], None), v, st, fuel);
      CorrectFold(rt, cn, op, CCall(op, [c, Cgc(cn, args[0], None)]), ApplyTwo(rt, op, acc, v), args[1..],
                  env, scope, names, st, fuel);
    }
  }

  function ApplyTwo(rt: Runtime, op: Op, a: Outcome<Value>, b: Outcome<Value>): Outcome<Value> {
    var x :- a;
    var y :- b;
    CallRuntime(rt, op, [x, y])
  }

  lemma {:induction false} CallTwo(rt: Runtime, op: Op, c: CExpr, a: Outcome<Value>, d: CExpr, b: Outcome<Value>, st: Store, fuel: nat)
    requires CEval(rt, c, st, fuel) == Lift(a, st) && CEval(rt, d, st, fuel) == Lift(b, st)
    ensures CEval(rt, CCall(op, [c, d]), st, fuel) == Lift(ApplyTwo(rt, op, a, b), st)
  {
    ArgsCons(rt, d, b, [], Done([]), st, fuel);
    ArgsCons(rt, c, a, [d], Prepend(b, Done([])), st, fuel);
    assert [d] + [] == [d] && [c] + [d] == [c, d];
    if a.Done? && b.Done? {
      assert [a.value] + ([b.value] + []) == [a.value, b.value];
    }
  }

  function Prepend(a: Outcome<Value>, bs: Outcome<seq<Value>>): Outcome<seq<Value>> {
    var x :- a;
    var xs :- bs;
    Done([x] + xs)
  }

  lemma {:induction false} ArgsCons(rt: Runtime, c: CExpr, a: Outcome<Value>, rest: seq<CExpr>, bs: Outcome<seq<Value>>, st: Store, fuel: nat)
    requires CEval(rt, c, st, fuel) == Lift(a, st) && CEvalArgs(rt, rest, st, fuel) == Lift(bs, st)
    ensures CEvalArgs(rt, [c] + rest, st, fuel) == Lift(Prepend(a, bs), st)
  {
    assert ([c] + rest)[1..] == rest;
  }

  function AsStep(r: Outcome<Value>): Outcome<Step> {
    var v :- r;
    Done(Val(v))
  }

  lemma {:induction false} ChainStep(rt: Runtime, op: Op, args: seq<Expr>, env: Env, fuel: nat, wr: bool)
    requires args != []
    ensures var v := EvalValue(rt, Emitted, args[0], env, fuel);
            Eval(rt, Emitted, Chain(op, args), env, fuel, wr)
            == AsStep(if |args| == 1 && op == Sub then ApplyTwo(rt, op, Done(Int(0)), v)
                      else FoldFrom(rt, op, v, args[1..], env, fuel))
  {
  }

  lemma {:induction false} CorrectChain(rt: Runtime, cn: Mangler, op: Op, args: seq<Expr>, env: Env, scope: set<string>,
                                        names: set<string>, st: Store, fuel: nat, wr: bool)
    requires Setup(rt, cn, env, scope, names, st) && OKArgs(args, scope, names)
    ensures CEval(rt, Cgc(cn, Chain(op, args), None), st, fuel) == Expected(cn, Eval(rt, Emitted, Chain(op, args), env, fuel, wr), st, None)
    ensures JumpsWell(Eval(rt, Emitted, Chain(op, args), env, fuel, wr), None)
    decreases fuel, args, 1
  {
    if args != [] {
      CorrectValue(rt, cn, args[0], env, scope, names, st, fuel);
      var v := EvalValue(rt, Emitted, args[0], env, fuel);
      ChainStep(rt, op, args, env, fuel, wr);
      if |args| == 1 && op == Sub {
        CallTwo(rt, Sub, CConst(Int(0)), Done(Int(0)), Cgc(cn, args[0], None), v, st, fuel);
      } else {
        CorrectFold(rt, cn, op, Cgc(cn, args[0], None), v, args[1..], env, scope, names, st, fuel);
      }
    }
  }

  lemma {:induction false} FoldStep(rt: Runtime, op: Op, acc: Value, args: seq<Expr>, env: Env, fuel: nat)
    requires args != []
    ensures EvalFold(rt, Emitted, op, acc, args, env, fuel)
            == FoldFrom(rt, op, ApplyTwo(rt, op, Done(acc), EvalValue(rt, Emitted, args[0], env, fuel)), args[1..], env, fuel)
  {
  }

  lemma {:induction false} ArgsStep(rt: Runtime, args: seq<Expr>, env: Env, fuel: nat)
    requires args != []
    ensures EvalArgs(rt, Emitted, args, env, fuel)
            == Prepend(EvalValue(rt, Emitted, args[0], env, fuel), EvalArgs(rt, Emitted, args[1..], env, fuel))
  {
  }

  /** The eager fold has the value of the first false operand, or of the last, after running all of them. */
  lemma {:induction false} FoldAnd(rt: Runtime, acc: Value, args: seq<Expr>, env: Env, fuel: nat)
    ensures EvalFold(rt, Emitted, FlAnd, acc, args, env, fuel)
            == if args == [] then Done(acc)
               else if Truthy(acc) then EvalAnd(rt, Emitted, args, env, fuel)
               else Unneeded(rt, Emitted, acc, args, env, fuel)
    decreases |args|
  {
    if args != [] {
      var v := EvalValue(rt, Emitted, args[0], env, fuel);
      FoldStep(rt, FlAnd, acc, args, env, fuel);
      ArgsStep(rt, args, env, fuel);
      if v.Done? {
        FoldAnd(rt, if Truthy(acc) then v.value else acc, args[1..], env, fuel);
      }
    }
  }

  lemma {:induction false} FoldOr(rt: Runtime, acc: Value, args: seq<Expr>, env: Env, fuel: nat)
    ensures EvalFold(rt, Emitted, FlOr, acc, args, env, fuel)
            == if args == [] then Done(acc)
               else if !Truthy(acc) then EvalOr(rt, Emitted, args, env, fuel)
               else Unneeded(rt, Emitted, acc, args, env, fuel)
    decreases |args|
  {
    if args != [] {
      var v := EvalValue(rt, Emitted, args[0], env, fuel);
      FoldStep(rt, FlOr, acc, args, env, fuel);
      ArgsStep(rt, args, env, fuel);
      if v.Done? {
        FoldOr(rt, if Truthy(acc) then acc else v.value, args[1..], env, fuel);
      }
    }
  }

  lemma {:induction false} CorrectAnd(rt: Runtime, cn: Mangler, args: seq<Expr>, env: Env, scope: set<string>,
                                      names: set<string>, st: Store, fuel: nat)
    requires Setup(rt, cn, env, scope, names, st) && OKArgs(args, scope, names)
    ensures CEval(rt, Cgc(cn, And(args), None), st, fuel) == Lift(EvalAnd(rt, Emitted, args, env, fuel), st)
    decreases fuel, args, 1
  {
    if args != [] {
      CorrectValue(rt, cn, args[0], env, scope, names, st, fuel);
      var v := EvalValue(rt, Emitted, args[0], env, fuel);
      CorrectFold(rt, cn, FlAnd, Cgc(cn, args[0], None), v, args[1..], env, scope, names, st, fuel);
      if v.Done? {
        FoldAnd(rt, v.value, args[1..], env, fuel);
      }
    }
  }

  lemma {:induction false} CorrectOr(rt: Runtime, cn: Mangler, args: seq<Expr>, env: Env, scope: set<string>,
                                     names: set<string>, st: Store, fuel: nat)
    requires Setup(rt, cn, env, scope, names, st) && OKArgs(args, scope, names)
    ensures CEval(rt, Cgc(cn, Or(args), None), st, fuel) == Lift(EvalOr(rt, Emitted, args, env, fuel), st)
    decreases fuel, args, 1
  {
    if args != [] {
      CorrectValue(rt, cn, args[0], env, scope, names, st, fuel);
      var v := EvalValue(rt, Emitted, args[0], env, fuel);
      CorrectFold(rt, cn, FlOr, Cgc(cn, args[0], None), v, args[1..], env, scope, names, st, fuel);
      if v.Done? {
        FoldOr(rt, v.value, args[1..], env, fuel);
      }
    }
  }

  lemma {:induction false} CorrectStmts(rt: Runtime, cn: Mangler, body: seq<Expr>, env: Env, scope: set<string>,
                                        names: set<string>, tail: Option<Tail>, st: Store, fuel: nat)
    requires Setup(rt, cn, env, scope, names, st) && OKBody(body, scope, names, tail) && Ready(cn, st, tail, names)
    ensures CExec(rt, CgcStmts(cn, body, Vars(tail)), st, fuel) == AsLast(Expected(cn, EvalBody(rt, Emitted, body, env, fuel, tail.Some?, false), st, tail))
    ensures JumpsWell(EvalBody(rt, Emitted, body, env, fuel, tail.Some?, false), tail)
    decreases fuel, body, 0
  {
    if |body| == 1 {
      Correct(rt, cn, body[0], env, scope, names, tail, st, fuel);
    } else {
      CorrectNoJump(rt, cn, body[0], env, scope, names, tail, st, fuel);
      CorrectStmts(rt, cn, body[1..], env, scope, names, tail, st, fuel);
      var r := Valued(Eval(rt, Emitted, body[0], env, fuel, tail.Some?));
      BodyStep(rt, body, env, fuel, tail.Some?);
      StmtStep(rt, Cgc(cn, body[0], Vars(tail)), r, CgcStmts(cn, body[1..], Vars(tail)), st, fuel);
    }
  }

  /** An expression that is not the last of its body: it may not jump. */
  lemma {:induction false} CorrectNoJump(rt: Runtime, cn: Mangler, e: Expr, env: Env, scope: set<string>, names: set<string>,
                                         tail: Option<Tail>, st: Store, fuel: nat)
    requires Setup(rt, cn, env, scope, names, st) && OK(e, scope, names, NoJump(tail)) && Ready(cn, st, tail, names)
    ensures CEval(rt, Cgc(cn, e, Vars(tail)), st, fuel) == Lift(Valued(Eval(rt, Emitted, e, env, fuel, tail.Some?)), st)
    decreases fuel, e, 2
  {
    Correct(rt, cn, e, env, scope, names, NoJump(tail), st, fuel);
    StaysHere(cn, Eval(rt, Emitted, e, env, fuel, tail.Some?), tail, st);
  }

  lemma {:induction false} StaysHere(cn: Mangler, r: Outcome<Step>, tail: Option<Tail>, st: Store)
    requires JumpsWell(r, NoJump(tail))
    ensures Expected(cn, r, st, NoJump(tail)) == Lift(Valued(r), st)
  {
  }

  lemma {:induction false} BodyStep(rt: Runtime, body: seq<Expr>, env: Env, fuel: nat, wr: bool)
    requires |body| > 1
    ensures var v := Valued(Eval(rt, Emitted, body[0], env, fuel, wr));
            EvalBody(rt, Emitted, body, env, fuel, wr, false)
            == if v.Done? then EvalBody(rt, Emitted, body[1..], env, fuel, wr, false) else v.PropagateFailure()
  {
  }

  lemma {:induction false} StmtStep(rt: Runtime, c: CExpr, v: Outcome<Value>, rest: seq<CStmt>, st: Store, fuel: nat)
    requires |rest| > 0 && CEval(rt, c, st, fuel) == Lift(v, st)
    ensures CExec(rt, [CExprStmt(c)] + rest, st, fuel) == if v.Done? then CExec(rt, rest, st, fuel) else v.PropagateFailure()
  {
    ExecCons(rt, CExprStmt(c), rest, st, fuel);
  }

  /** Leaving a block that jumped: the block's own names are not loop variables. */
  lemma {:induction false} PopBlock(rt: Runtime, cn: Mangler, stmts: seq<CStmt>, r: Outcome<Step>, st: Store, tail: Option<Tail>, fuel: nat)
    requires st.Scope? && JumpsWell(r, tail)
    requires CExec(rt, stmts, Scope(map[], st.outer), fuel) == AsLast(Expected(cn, r, st, tail))
    requires r.Done? && r.value.Again? ==>
               Looping !in st.vars && forall x | x in tail.value.vars :: cn(x) !in st.vars
    ensures CEval(rt, CBlock(stmts), st.outer, fuel) == Expected(cn, r, st.outer, tail)
  {
    if r.Done? && r.value.Again? {
      AssignAllThrough(cn, st, tail.value.vars, r.value.vs);
    }
  }

  // ---------- let ----------

  function Slots(cn: Mangler, names: set<string>): set<Id> {
    set n | n in names :: cn(n)
  }

  lemma {:induction false} Apart(cn: Mangler, names: set<string>, taken: set<string>, x: string)
    requires Mangles(cn, names) && taken <= names && x in names && x !in taken
    ensures cn(x) !in Slots(cn, taken)
  {
  }

  /** One `FLValue x = init;`, whose initialiser already sees the new, uninitialised x. */
  lemma {:induction false} DeclStep(rt: Runtime, x: Id, init: CExpr, v: Outcome<Value>, st: Store, fuel: nat)
    requires st.Scope? && x !in st.vars
    requires var inner := Scope(st.vars[x := None], st.outer);
             CEval(rt, init, inner, fuel) == Lift(v, inner)
    ensures CStep(rt, CDecl(x, init), st, fuel)
            == if v.Done? then Done((None, Scope(st.vars[x := Some(v.value)], st.outer))) else v.PropagateFailure()
  {
    var inner := Scope(st.vars[x := None], st.outer);
    if v.Done? {
      assert Update(inner, x, v.value).vars == st.vars[x := Some(v.value)];
    }
  }

  lemma {:induction false} DeclFirst(rt: Runtime, x: Id, init: CExpr, v: Outcome<Value>, more: seq<CStmt>, rest: seq<CStmt>,
                                     st: Store, fuel: nat)
    requires |rest| > 0 && st.Scope? && x !in st.vars
    requires var inner := Scope(st.vars[x := None], st.outer);
             CEval(rt, init, inner, fuel) == Lift(v, inner)
    ensures CExec(rt, [CDecl(x, init)] + more + rest, st, fuel)
            == if v.Done? then CExec(rt, more + rest, Scope(st.vars[x := Some(v.value)], st.outer), fuel)
               else v.PropagateFailure()
  {
    DeclStep(rt, x, init, v, st, fuel);
    ExecCons(rt, CDecl(x, init), more + rest, st, fuel);
    assert [CDecl(x, init)] + more + rest == [CDecl(x, init)] + (more + rest);
  }

  lemma {:induction false} FitsDeclared(cn: Mangler, st: Store, st': Store, env: Env, scope: set<string>, names: set<string>, x: string, v: Value)
    requires Mangles(cn, names) && scope <= names && x in names && Fits(cn, st, env, scope)
    requires forall y | y in scope && y != x :: Lookup(st', cn(y)) == Lookup(st, cn(y))
    requires Lookup(st', cn(x)) == Some(v)
    ensures Fits(cn, st', env[x := v], scope + {x})
  {
  }

  lemma {:induction false} OthersFit(cn: Mangler, st: Store, env: Env, scope: set<string>, names: set<string>, x: string)
    requires Mangles(cn, names) && scope <= names && x in names && st.Scope? && Fits(cn, st, env, scope)
    ensures Fits(cn, Scope(st.vars[cn(x) := None], st.outer), env, scope - {x})
  {
  }

  lemma {:induction false} SlotsWith(cn: Mangler, names: set<string>, x: string)
    ensures Slots(cn, names + {x}) == Slots(cn, names) + {cn(x)}
  {
    forall id | id in Slots(cn, names) + {cn(x)}
      ensures id in Slots(cn, names + {x})
    {
      if id == cn(x) {
        assert x in names + {x};
      } else {
        var n :| n in names && cn(n) == id;
        assert n in names + {x};
      }
    }
  }

  lemma {:induction false} BindingsStep(rt: Runtime, bindings: seq<Binding>, env: Env, fuel: nat)
    requires bindings != []
    ensures var v := EvalValue(rt, Emitted, bindings[0].init, env, fuel);
            EvalBindings(rt, Emitted, bindings, env, fuel)
            == if v.Done? then EvalBindings(rt, Emitted, bindings[1..], env[bindings[0].name := v.value], fuel)
               else v.PropagateFailure()
  {
  }

  ghost predicate AfterDecls(cn: Mangler, st: Store, st': Store, r: Outcome<Env>, scope: set<string>) {
    r.Done? && st.Scope? ==> st'.Scope? && st'.outer == st.outer && Fits(cn, st', r.value, scope)
  }

  /** The first declaration of a `let`. */
  lemma {:induction false} LetFirst(rt: Runtime, cn: Mangler, bindings: seq<Binding>, rest: seq<CStmt>, env: Env, scope: set<string>,
                                    names: set<string>, taken: set<string>, st: Store, fuel: nat)
    requires bindings != [] && Setup(rt, cn, env, scope, names, st) && OKLet(bindings, scope, names, taken) && |rest| > 0
    requires st.Scope? && taken <= names && st.vars.Keys == Slots(cn, taken)
    ensures var v, id := EvalValue(rt, Emitted, bindings[0].init, env, fuel), cn(bindings[0].name);
            CExec(rt, CgcLet(cn, bindings) + rest, st, fuel)
            == if v.Done? then CExec(rt, CgcLet(cn, bindings[1..]) + rest, Scope(st.vars[id := Some(v.value)], st.outer), fuel)
               else v.PropagateFailure()
    decreases fuel, bindings, 0
  {
    var b, id := bindings[0], cn(bindings[0].name);
    Apart(cn, names, taken, b.name);
    OthersFit(cn, st, env, scope, names, b.name);
    CorrectValue(rt, cn, b.init, env, scope - {b.name}, names, Scope(st.vars[id := None], st.outer), fuel);
    var v := EvalValue(rt, Emitted, b.init, env, fuel);
    DeclFirst(rt, id, Cgc(cn, b.init, None), v, CgcLet(cn, bindings[1..]), rest, st, fuel);
  }

  lemma {:induction false} Declares(rt: Runtime, cn: Mangler, env: Env, scope: set<string>, names: set<string>, taken: set<string>,
                                    st: Store, x: string, v: Value)
    requires Setup(rt, cn, env, scope, names, st) && x in names && st.Scope? && st.vars.Keys == Slots(cn, taken)
    ensures var st1 := Scope(st.vars[cn(x) := Some(v)], st.outer);
            Setup(rt, cn, env[x := v], scope + {x}, names, st1) && st1.vars.Keys == Slots(cn, taken + {x})
  {
    var st1 := Scope(st.vars[cn(x) := Some(v)], st.outer);
    FitsDeclared(cn, st, st1, env, scope, names, x, v);
    SlotsWith(cn, taken, x);
    assert st1.vars.Keys == st.vars.Keys + {cn(x)};
  }

  lemma {:induction false} CorrectLet(rt: Runtime, cn: Mangler, bindings: seq<Binding>, rest: seq<CStmt>, env: Env,
                                      scope: set<string>, names: set<string>, taken: set<string>,
                                      st: Store, fuel: nat) returns (st': Store)
    requires Setup(rt, cn, env, scope, names, st) && OKLet(bindings, scope, names, taken) && |rest| > 0
    requires st.Scope? && taken <= names && st.vars.Keys == Slots(cn, taken)
    ensures var r := EvalBindings(rt, Emitted, bindings, env, fuel);
            AfterDecls(cn, st, st', r, scope + NameSet(bindings))
            && (r.Done? ==> st'.vars.Keys == Slots(cn, taken + NameSet(bindings)))
            && CExec(rt, CgcLet(cn, bindings) + rest, st, fuel)
               == if r.Done? then CExec(rt, rest, st', fuel) else r.PropagateFailure()
    decreases fuel, bindings, 1
  {
    st' := st;
    if bindings == [] {
      assert [] + rest == rest;
      assert scope + NameSet(bindings) == scope && taken + NameSet(bindings) == taken;
    } else {
      var b := bindings[0];
      LetFirst(rt, cn, bindings, rest, env, scope, names, taken, st, fuel);
      BindingsStep(rt, bindings, env, fuel);
      NamesOfCons(bindings, scope);
      NamesOfCons(bindings, taken);
      var v := EvalValue(rt, Emitted, b.init, env, fuel);
      if v.Done? {
        Declares(rt, cn, env, scope, names, taken, st, b.name, v.value);
        st' := CorrectLet(rt, cn, bindings[1..], rest, env[b.name := v.value], scope + {b.name}, names,
                          taken + {b.name}, Scope(st.vars[cn(b.name) := Some(v.value)], st.outer), fuel);
      }
    }
  }

  lemma {:induction false} NamesOfCons(bindings: seq<Binding>, s: set<string>)
    requires |bindings| > 0
    ensures s + {bindings[0].name} + NameSet(bindings[1..]) == s + NameSet(bindings)
    ensures NameSet(bindings) == {bindings[0].name} + NameSet(bindings[1..])
  {
    forall n
      ensures n in NameSet(bindings) <==> n == bindings[0].name || n in NameSet(bindings[1..])
    {
      assert forall i | 1 <= i < |bindings| :: bindings[i] == bindings[1..][i - 1];
    }
  }

  lemma {:induction false} LetNames(bindings: seq<Binding>, scope: set<string>, names: set<string>, taken: set<string>)
    requires OKLet(bindings, scope, names, taken)
    ensures NameSet(bindings) <= names
    decreases |bindings|
  {
    if bindings != [] {
      NamesOfCons(bindings, {});
      LetNames(bindings[1..], scope + {bindings[0].name}, names, taken + {bindings[0].name});
    }
  }

  /** The statements a `let` runs after its declarations: all of its body, or inside a loop only the last expression. */
  lemma {:induction false} CorrectLetBody(rt: Runtime, cn: Mangler, body: seq<Expr>, env: Env, scope: set<string>,
                                          names: set<string>, tail: Option<Tail>, st: Store, fuel: nat)
    requires Setup(rt, cn, env, scope, names, st) && OKBody(body, scope, names, tail) && Ready(cn, st, tail, names)
    ensures var stmts := if tail.Some? then [CExprStmt(Cgc(cn, body[|body| - 1], Vars(tail)))] else CgcStmts(cn, body, Vars(tail));
            CExec(rt, stmts, st, fuel) == AsLast(Expected(cn, EvalBody(rt, Emitted, body, env, fuel, tail.Some?, tail.Some?), st, tail))
    ensures JumpsWell(EvalBody(rt, Emitted, body, env, fuel, tail.Some?, tail.Some?), tail)
    decreases fuel, body, 1
  {
    if tail.None? {
      CorrectStmts(rt, cn, body, env, scope, names, tail, st, fuel);
    } else {
      Correct(rt, cn, body[|body| - 1], env, scope, names, tail, st, fuel);
      OnlyTheLast(rt, body, env, fuel);
    }
  }

  lemma {:induction false} OnlyTheLast(rt: Runtime, body: seq<Expr>, env: Env, fuel: nat)
    requires |body| > 0
    ensures EvalBody(rt, Emitted, body, env, fuel, true, true) == Eval(rt, Emitted, body[|body| - 1], env, fuel, true)
    decreases |body|
  {
    if |body| > 1 {
      OnlyTheLast(rt, body[1..], env, fuel);
    }
  }

  lemma {:induction false} CorrectLetBlock(rt: Runtime, cn: Mangler, e: Expr, env: Env, scope: set<string>, names: set<string>,
                                           tail: Option<Tail>, st: Store, fuel: nat)
    requires e.Let? && Setup(rt, cn, env, scope, names, st) && OK(e, scope, names, tail) && Ready(cn, st, tail, names)
    ensures CEval(rt, Cgc(cn, e, Vars(tail)), st, fuel) == Expected(cn, Eval(rt, Emitted, e, env, fuel, tail.Some?), st, tail)
    ensures JumpsWell(Eval(rt, Emitted, e, env, fuel, tail.Some?), tail)
    decreases fuel, e, 0
  {
    var Let(bindings, body) := e;
    var stmts := if tail.Some? then [CExprStmt(Cgc(cn, body[|body| - 1], Vars(tail)))] else CgcStmts(cn, body, Vars(tail));
    var inner := Scope(map[], st);
    assert Fits(cn, inner, env, scope) && inner.vars.Keys == Slots(cn, {});
    LetNames(bindings, scope, names, {});
    var st' := CorrectLet(rt, cn, bindings, stmts, env, scope, names, {}, inner, fuel);
    var b := EvalBindings(rt, Emitted, bindings, env, fuel);
    LetStep(rt, bindings, body, env, fuel, tail.Some?);
    var s: Outcome<Step> := Stuck;
    if b.Done? {
      assert {} + NameSet(bindings) == NameSet(bindings);
      LetInner(rt, cn, bindings, body, b.value, scope + NameSet(bindings), names, tail, st', fuel);
      s := EvalBody(rt, Emitted, body, b.value, fuel, tail.Some?, tail.Some?);
    }
    LetBlockStep(rt, cn, CgcLet(cn, bindings) + stmts, b, s, st', tail, st, fuel);
  }

  lemma {:induction false} LetStep(rt: Runtime, bindings: seq<Binding>, body: seq<Expr>, env: Env, fuel: nat, wr: bool)
    ensures var b := EvalBindings(rt, Emitted, bindings, env, fuel);
            Eval(rt, Emitted, Let(bindings, body), env, fuel, wr)
            == if b.Done? then EvalBody(rt, Emitted, body, b.value, fuel, wr, wr) else b.PropagateFailure()
  {
  }

  lemma {:induction false} LetBlockStep(rt: Runtime, cn: Mangler, stmts: seq<CStmt>, b: Outcome<Env>, s: Outcome<Step>, st': Store,
                                        tail: Option<Tail>, st: Store, fuel: nat)
    requires b.Done? ==> st'.Scope? && st'.outer == st && JumpsWell(s, tail)
                         && CExec(rt, stmts, Scope(map[], st), fuel) == AsLast(Expected(cn, s, st', tail))
    requires b.Done? && s.Done? && s.value.Again? ==>
               Looping !in st'.vars && forall x | x in tail.value.vars :: cn(x) !in st'.vars
    requires b.IsFailure() ==> CExec(rt, stmts, Scope(map[], st), fuel) == b.PropagateFailure()
    ensures CEval(rt, CBlock(stmts), st, fuel) == Expected(cn, if b.Done? then s else b.PropagateFailure(), st, tail)
  {
    if b.Done? {
      PopBlock(rt, cn, stmts, s, st', tail, fuel);
    }
  }

  /** What a `let` does after its declarations, and that a jump out of it assigns none of its variables. */
  lemma {:induction false} LetInner(rt: Runtime, cn: Mangler, bindings: seq<Binding>, body: seq<Expr>, env: Env, scope: set<string>,
                                    names: set<string>, tail: Option<Tail>, st: Store, fuel: nat)
    requires Setup(rt, cn, env, scope, names, st) && OKBody(body, scope, names, Shadow(tail, NameSet(bindings)))
    requires NameSet(bindings) <= names && st.Scope? && st.vars.Keys == Slots(cn, NameSet(bindings)) && Ready(cn, st, tail, names)
    ensures var s := EvalBody(rt, Emitted, body, env, fuel, tail.Some?, tail.Some?);
            var stmts := if tail.Some? then [CExprStmt(Cgc(cn, body[|body| - 1], Vars(tail)))] else CgcStmts(cn, body, Vars(tail));
            CExec(rt, stmts, st, fuel) == AsLast(Expected(cn, s, st, tail)) && JumpsWell(s, tail)
            && (s.Done? && s.value.Again? ==> Looping !in st.vars && forall x | x in tail.value.vars :: cn(x) !in st.vars)
    decreases fuel, body, 2
  {
    CorrectLetBody(rt, cn, body, env, scope, names, Shadow(tail, NameSet(bindings)), st, fuel);
    NotShadowed(cn, bindings, names, tail, EvalBody(rt, Emitted, body, env, fuel, tail.Some?, tail.Some?), st);
  }

  /** A jump out of a `let` assigns none of the variables of the `let`. */
  lemma {:induction false} NotShadowed(cn: Mangler, bindings: seq<Binding>, names: set<string>, tail: Option<Tail>, s: Outcome<Step>, st: Store)
    requires Mangles(cn, names) && NameSet(bindings) <= names && st.Scope? && st.vars.Keys == Slots(cn, NameSet(bindings))
    requires JumpsWell(s, Shadow(tail, NameSet(bindings))) && (tail.Some? ==> forall x | x in tail.value.vars :: x in names)
    ensures JumpsWell(s, tail)
    ensures s.Done? && s.value.Again? ==> Looping !in st.vars && forall x | x in tail.value.vars :: cn(x) !in st.vars
  {
    if s.Done? && s.value.Again? {
      forall x | x in tail.value.vars
        ensures cn(x) !in st.vars
      {
        Apart(cn, names, NameSet(bindings), x);
      }
    }
  }

  // ---------- recur ----------

  ghost predicate TempsHold(st: Store, i: nat, vs: seq<Value>) {
    st.Scope? && (forall x | x in st.vars :: x.RecurTmp? && x.n < i + |vs|)
    && forall j | i <= j < i + |vs| :: RecurTmp(j) in st.vars && st.vars[RecurTmp(j)] == Some(vs[j - i])
  }

  /** Nothing but the first i temporaries. */
  ghost predicate TempsBelow(st: Store, i: nat) {
    st.Scope? && forall x | x in st.vars :: x.RecurTmp? && x.n < i
  }

  ghost predicate Extends(st: Store, st': Store) {
    st.Scope? && st'.Scope? && st'.outer == st.outer && forall x | x in st.vars :: x in st'.vars && st'.vars[x] == st.vars[x]
  }

  /** A variable of the compiler's own hides nothing of the program's. */
  lemma {:induction false} OwnVariable(rt: Runtime, cn: Mangler, env: Env, scope: set<string>, names: set<string>, st: Store,
                                       x: Id, o: Option<Value>)
    requires Setup(rt, cn, env, scope, names, st) && st.Scope? && !x.User?
    ensures Setup(rt, cn, env, scope, names, Scope(st.vars[x := o], st.outer))
  {
    forall y | y in scope
      ensures Lookup(Scope(st.vars[x := o], st.outer), cn(y)) == Lookup(st, cn(y))
    {
    }
  }

  lemma {:induction false} TempsCons(st: Store, st': Store, i: nat, v: Value, vs: seq<Value>)
    requires TempsBelow(st, i) && TempsHold(st', i + 1, vs)
    requires Extends(Scope(st.vars[RecurTmp(i) := Some(v)], st.outer), st')
    ensures TempsHold(st', i, [v] + vs) && Extends(st, st')
  {
    var st1 := Scope(st.vars[RecurTmp(i) := Some(v)], st.outer);
    assert RecurTmp(i) in st1.vars;
    forall x | x in st.vars
      ensures x in st'.vars && st'.vars[x] == st.vars[x]
    {
      assert x in st1.vars;
    }
    forall j | i <= j < i + 1 + |vs|
      ensures RecurTmp(j) in st'.vars && st'.vars[RecurTmp(j)] == Some(([v] + vs)[j - i])
    {
      assert j > i ==> ([v] + vs)[j - i] == vs[j - i - 1];
    }
  }

  lemma {:induction false} CorrectTemps(rt: Runtime, cn: Mangler, args: seq<Expr>, i: nat, rest: seq<CStmt>, env: Env,
                                        scope: set<string>, names: set<string>, st: Store, fuel: nat)
    returns (st': Store)
    requires Setup(rt, cn, env, scope, names, st) && OKArgs(args, scope, names) && |rest| > 0 && TempsBelow(st, i)
    ensures var r := EvalArgs(rt, Emitted, args, env, fuel);
            (r.Done? ==> TempsHold(st', i, r.value) && Extends(st, st'))
            && CExec(rt, RecurTemps(cn, args, i) + rest, st, fuel)
               == if r.Done? then CExec(rt, rest, st', fuel) else r.PropagateFailure()
    decreases fuel, args, 0
  {
    st' := st;
    if args == [] {
      assert [] + rest == rest;
    } else {
      OwnVariable(rt, cn, env, scope, names, st, RecurTmp(i), None);
      CorrectValue(rt, cn, args[0], env, scope, names, Scope(st.vars[RecurTmp(i) := None], st.outer), fuel);
      var v := EvalValue(rt, Emitted, args[0], env, fuel);
      DeclFirst(rt, RecurTmp(i), Cgc(cn, args[0], None), v, RecurTemps(cn, args[1..], i + 1), rest, st, fuel);
      ArgsStep(rt, args, env, fuel);
      if v.Done? {
        OwnVariable(rt, cn, env, scope, names, st, RecurTmp(i), Some(v.value));
        st' := CorrectTemps(rt, cn, args[1..], i + 1, rest, env, scope, names, Scope(st.vars[RecurTmp(i) := Some(v.value)], st.outer), fuel);
        var r := EvalArgs(rt, Emitted, args[1..], env, fuel);
        if r.Done? {
          TempsCons(st, st', i, v.value, r.value);
        }
      }
    }
  }

  lemma {:induction false} CorrectAssigns(rt: Runtime, cn: Mangler, vars: seq<string>, i: nat, vs: seq<Value>, rest: seq<CStmt>,
                                          st: Store, fuel: nat)
    requires |vars| == |vs| && |rest| > 0 && TempsHold(st, i, vs)
    requires forall x | x in vars :: cn(x).User? && Declared(st.outer, cn(x))
    ensures CExec(rt, RecurAssigns(cn, vars, i) + rest, st, fuel)
            == CExec(rt, rest, Scope(st.vars, AssignAll(cn, st.outer, vars, vs)), fuel)
    decreases |vars|
  {
    if vars == [] {
      assert [] + rest == rest;
    } else {
      var s := CAssign(cn(vars[0]), CVar(RecurTmp(i)));
      var more := RecurAssigns(cn, vars[1..], i + 1);
      assert RecurAssigns(cn, vars, i) + rest == [s] + (more + rest);
      ExecCons(rt, s, more + rest, st, fuel);
      assert RecurTmp(i) in st.vars && st.vars[RecurTmp(i)] == Some(vs[0]);
      assert cn(vars[0]) !in st.vars;
      var st1 := Scope(st.vars, Update(st.outer, cn(vars[0]), vs[0]));
      assert CStep(rt, s, st, fuel) == Done((None, st1));
      forall x | x in vars[1..]
        ensures cn(x).User? && Declared(st1.outer, cn(x))
      {
        LookupUpdate(st.outer, cn(vars[0]), vs[0], cn(x));
      }
      CorrectAssigns(rt, cn, vars[1..], i + 1, vs[1..], rest, st1, fuel);
    }
  }

  lemma {:induction false} CorrectRecur(rt: Runtime, cn: Mangler, args: seq<Expr>, env: Env, scope: set<string>, names: set<string>,
                                        tail: Option<Tail>, st: Store, fuel: nat)
    requires Setup(rt, cn, env, scope, names, st) && OK(Recur(args), scope, names, tail) && Ready(cn, st, tail, names)
    ensures CEval(rt, Cgc(cn, Recur(args), Vars(tail)), st, fuel) == Expected(cn, Eval(rt, Emitted, Recur(args), env, fuel, tail.Some?), st, tail)
    decreases fuel, args, 1
  {
    var vars, inner := tail.value.vars, Scope(map[], st);
    var raise := [CAssign(Looping, CConst(Int(1))), CExprStmt(C_NIL)];
    var rest := RecurAssigns(cn, vars, 0) + raise;
    var st' := CorrectTemps(rt, cn, args, 0, rest, env, scope, names, inner, fuel);
    assert RecurTemps(cn, args, 0) + RecurAssigns(cn, vars, 0) + raise == RecurTemps(cn, args, 0) + rest;
    var r := EvalArgs(rt, Emitted, args, env, fuel);
    if r.Done? {
      JumpBack(rt, cn, vars, r.value, st, st', fuel);
    }
    BlockJump(rt, cn, RecurTemps(cn, args, 0) + rest, r, tail, st', st, fuel);
  }

  function AsJump(r: Outcome<seq<Value>>): Outcome<Step> {
    var vs :- r;
    Done(Again(vs))
  }

  lemma {:induction false} BlockJump(rt: Runtime, cn: Mangler, stmts: seq<CStmt>, r: Outcome<seq<Value>>, tail: Option<Tail>,
                                     st': Store, st: Store, fuel: nat)
    requires tail.Some? && (r.Done? ==> st'.Scope? && |r.value| == |tail.value.vars|)
    requires CExec(rt, stmts, Scope(map[], st), fuel)
             == if r.Done? then Done((Some(Nil), Scope(st'.vars, Jumped(cn, st, tail.value.vars, r.value)))) else r.PropagateFailure()
    ensures CEval(rt, CBlock(stmts), st, fuel) == Expected(cn, AsJump(r), st, tail)
  {
  }

  /** The second half of a jump: the temporaries are assigned to the variables and the flag goes up. */
  lemma {:induction false} JumpBack(rt: Runtime, cn: Mangler, vars: seq<string>, vs: seq<Value>, st: Store, st': Store, fuel: nat)
    requires |vars| == |vs| && TempsHold(st', 0, vs) && st'.outer == st && Declared(st, Looping)
    requires forall x | x in vars :: cn(x).User? && Declared(st, cn(x))
    ensures CExec(rt, RecurAssigns(cn, vars, 0) + [CAssign(Looping, CConst(Int(1))), CExprStmt(C_NIL)], st', fuel)
            == Done((Some(Nil), Scope(st'.vars, Jumped(cn, st, vars, vs))))
  {
    CorrectAssigns(rt, cn, vars, 0, vs, [CAssign(Looping, CConst(Int(1))), CExprStmt(C_NIL)], st', fuel);
    AssignAllDeclared(cn, st, vars, vs, Looping);
    RaiseFlag(rt, Scope(st'.vars, AssignAll(cn, st, vars, vs)), fuel);
  }

  lemma {:induction false} AssignAllDeclared(cn: Mangler, st: Store, vars: seq<string>, vs: seq<Value>, y: Id)
    requires |vars| == |vs| && forall x | x in vars :: Declared(st, cn(x))
    ensures Declared(AssignAll(cn, st, vars, vs), y) == Declared(st, y)
    decreases |vars|
  {
    if vars != [] {
      forall z
        ensures Declared(Update(st, cn(vars[0]), vs[0]), z) == Declared(st, z)
      {
        LookupUpdate(st, cn(vars[0]), vs[0], z);
      }
      AssignAllDeclared(cn, Update(st, cn(vars[0]), vs[0]), vars[1..], vs[1..], y);
    }
  }

  lemma {:induction false} RaiseFlag(rt: Runtime, st: Store, fuel: nat)
    requires st.Scope? && Looping !in st.vars && Declared(st.outer, Looping)
    ensures CExec(rt, [CAssign(Looping, CConst(Int(1))), CExprStmt(C_NIL)], st, fuel)
            == Done((Some(Nil), Scope(st.vars, Update(st.outer, Looping, Int(1)))))
  {
    var raise := CAssign(Looping, CConst(Int(1)));
    var st1 := Scope(st.vars, Update(st.outer, Looping, Int(1)));
    assert [raise] + [CExprStmt(C_NIL)] == [raise, CExprStmt(C_NIL)];
    ExecCons(rt, raise, [CExprStmt(C_NIL)], st, fuel);
    assert CStep(rt, raise, st, fuel) == Done((None, st1));
    assert CStep(rt, CExprStmt(C_NIL), st1, fuel) == Done((Some(Nil), st1));
  }

  // ---------- loop ----------

  ghost predicate LoopVarsDeclared(cn: Mangler, st: Store, taken: set<string>, i: nat) {
    st.Scope? && forall x | x in st.vars :: x in Slots(cn, taken) || (x.LoopTmp? && x.n < i)
  }

  /** The first variable of a `loop`, with its temporary. */
  lemma {:induction false} LoopVarFirst(rt: Runtime, cn: Mangler, bindings: seq<Binding>, i: nat, rest: seq<CStmt>, env: Env,
                                        scope: set<string>, names: set<string>, taken: set<string>, st: Store, fuel: nat)
    requires bindings != [] && Setup(rt, cn, env, scope, names, st) && OKLoopVars(bindings, scope, names, taken) && |rest| > 0
    requires taken <= names && LoopVarsDeclared(cn, st, taken, i)
    ensures var v, id := EvalValue(rt, Emitted, bindings[0].init, env, fuel), cn(bindings[0].name);
            CExec(rt, CgcLoopVars(cn, bindings, i) + rest, st, fuel)
            == if v.Done? then CExec(rt, CgcLoopVars(cn, bindings[1..], i + 2) + rest, WithPair(st, LoopTmp(i), id, v.value), fuel)
               else v.PropagateFailure()
    decreases fuel, bindings, 0
  {
    var b, id := bindings[0], cn(bindings[0].name);
    Apart(cn, names, taken, b.name);
    OwnVariable(rt, cn, env, scope, names, st, LoopTmp(i), None);
    CorrectValue(rt, cn, b.init, env, scope, names, Scope(st.vars[LoopTmp(i) := None], st.outer), fuel);
    var v := EvalValue(rt, Emitted, b.init, env, fuel);
    DeclPair(rt, LoopTmp(i), id, Cgc(cn, b.init, None), v, CgcLoopVars(cn, bindings[1..], i + 2), rest, st, fuel);
  }

  function WithPair(st: Store, tmp: Id, x: Id, v: Value): Store
    requires st.Scope?
  {
    Scope(st.vars[tmp := Some(v)][x := Some(v)], st.outer)
  }

  lemma {:induction false} DeclaresPair(rt: Runtime, cn: Mangler, env: Env, scope: set<string>, names: set<string>, taken: set<string>,
                                        i: nat, st: Store, x: string, v: Value)
    requires Setup(rt, cn, env, scope, names, st) && x in names && LoopVarsDeclared(cn, st, taken, i)
    ensures var st1 := WithPair(st, LoopTmp(i), cn(x), v);
            Setup(rt, cn, env[x := v], scope + {x}, names, st1) && LoopVarsDeclared(cn, st1, taken + {x}, i + 2)
  {
    var st1 := WithPair(st, LoopTmp(i), cn(x), v);
    FitsDeclared(cn, st, st1, env, scope, names, x, v);
    SlotsWith(cn, taken, x);
  }

  lemma {:induction false} CorrectLoopVars(rt: Runtime, cn: Mangler, bindings: seq<Binding>, i: nat, rest: seq<CStmt>,
                                           env: Env, scope: set<string>, names: set<string>, taken: set<string>,
                                           st: Store, fuel: nat) returns (st': Store)
    requires Setup(rt, cn, env, scope, names, st) && OKLoopVars(bindings, scope, names, taken) && |rest| > 0
    requires taken <= names && LoopVarsDeclared(cn, st, taken, i)
    ensures var r := EvalBindings(rt, Emitted, bindings, env, fuel);
            AfterDecls(cn, st, st', r, scope + NameSet(bindings))
            && (r.Done? ==> LoopVarsDeclared(cn, st', taken + NameSet(bindings), i + 2 * |bindings|)
                            && st.vars.Keys <= st'.vars.Keys
                            && forall n | n in NameSet(bindings) :: cn(n) in st'.vars)
            && CExec(rt, CgcLoopVars(cn, bindings, i) + rest, st, fuel)
               == if r.Done? then CExec(rt, rest, st', fuel) else r.PropagateFailure()
    decreases fuel, bindings, 1
  {
    st' := st;
    if bindings == [] {
      assert [] + rest == rest;
      assert scope + NameSet(bindings) == scope && taken + NameSet(bindings) == taken;
    } else {
      var b := bindings[0];
      LoopVarFirst(rt, cn, bindings, i, rest, env, scope, names, taken, st, fuel);
      BindingsStep(rt, bindings, env, fuel);
      NamesOfCons(bindings, scope);
      NamesOfCons(bindings, taken);
      var v := EvalValue(rt, Emitted, b.init, env, fuel);
      if v.Done? {
        var st1 := WithPair(st, LoopTmp(i), cn(b.name), v.value);
        DeclaresPair(rt, cn, env, scope, names, taken, i, st, b.name, v.value);
        st' := CorrectLoopVars(rt, cn, bindings[1..], i + 2, rest, env[b.name := v.value], scope + {b.name}, names,
                               taken + {b.name}, st1, fuel);
        assert cn(b.name) in st1.vars;
      }
    }
  }

  /** `FLValue tmp = init; FLValue x = tmp;` */
  lemma {:induction false} DeclPair(rt: Runtime, tmp: Id, x: Id, init: CExpr, v: Outcome<Value>, more: seq<CStmt>, rest: seq<CStmt>,
                                    st: Store, fuel: nat)
    requires |rest| > 0 && st.Scope? && tmp !in st.vars && x !in st.vars && x != tmp
    requires var inner := Scope(st.vars[tmp := None], st.outer);
             CEval(rt, init, inner, fuel) == Lift(v, inner)
    ensures CExec(rt, [CDecl(tmp, init), CDecl(x, CVar(tmp))] + more + rest, st, fuel)
            == if v.Done? then CExec(rt, more + rest, Scope(st.vars[tmp := Some(v.value)][x := Some(v.value)], st.outer), fuel)
               else v.PropagateFailure()
  {
    assert [CDecl(tmp, init), CDecl(x, CVar(tmp))] + more == [CDecl(tmp, init)] + ([CDecl(x, CVar(tmp))] + more);
    DeclFirst(rt, tmp, init, v, [CDecl(x, CVar(tmp))] + more, rest, st, fuel);
    if v.Done? {
      DeclFirst(rt, x, CVar(tmp), v, more, rest, Scope(st.vars[tmp := Some(v.value)], st.outer), fuel);
    }
  }

  lemma {:induction false} LoopNames(bindings: seq<Binding>, scope: set<string>, names: set<string>, taken: set<string>)
    requires OKLoopVars(bindings, scope, names, taken)
    ensures NameSet(bindings) <= names
    decreases |bindings|
  {
    if bindings != [] {
      NamesOfCons(bindings, {});
      LoopNames(bindings[1..], scope + {bindings[0].name}, names, taken + {bindings[0].name});
    }
  }

  /** The scope a loop runs in: its variables, the flag and the result all live in this very scope. */
  ghost predicate LoopScope(cn: Mangler, st: Store, vars: seq<string>) {
    st.Scope? && Looping in st.vars && Result in st.vars && forall x | x in vars :: cn(x) in st.vars
  }

  /** After a jump the next round starts from the rebound variables with the flag up. */
  lemma {:induction false} NextRound(rt: Runtime, cn: Mangler, vars: seq<string>, vs: seq<Value>, env: Env, scope: set<string>,
                                     names: set<string>, st: Store)
    requires Setup(rt, cn, env, scope, names, st) && LoopScope(cn, st, vars) && |vars| == |vs|
    requires forall x | x in vars :: x in names
    ensures var next := After(cn, st, vars, vs);
            Setup(rt, cn, Rebind(env, vars, vs), scope, names, next) && LoopScope(cn, next, vars)
            && next.vars[Looping] == Some(Int(1)) && next.outer == st.outer
  {
    var low := Update(st, Looping, Int(0));
    LowerFlag(rt, cn, vars, env, scope, names, st);
    AssignAllHere(cn, low, vars, vs);
    AssignAllFits(cn, low, env, scope, names, vars, vs);
  }

  /** The body runs in a block of its own with the flag down. */
  lemma {:induction false} LowerFlag(rt: Runtime, cn: Mangler, vars: seq<string>, env: Env, scope: set<string>, names: set<string>, st: Store)
    requires Setup(rt, cn, env, scope, names, st) && LoopScope(cn, st, vars) && forall x | x in vars :: x in names
    ensures var low := Update(st, Looping, Int(0));
            var inner := Scope(map[], low);
            Setup(rt, cn, env, scope, names, low) && Setup(rt, cn, env, scope, names, inner)
            && Ready(cn, inner, Some(Tail(vars, {}, true)), names) && LoopScope(cn, low, vars) && low.outer == st.outer
  {
  }

  /** The flag-driven `while` runs exactly the rounds of the source loop. */
  lemma {:induction false} CorrectWhile(rt: Runtime, cn: Mangler, vars: seq<string>, step: Expr, env: Env, scope: set<string>,
                                        names: set<string>, st: Store, fuel: nat) returns (st': Store)
    requires Setup(rt, cn, env, scope, names, st) && OK(step, scope, names, Some(Tail(vars, {}, true)))
    requires LoopScope(cn, st, vars) && st.vars[Looping] == Some(Int(1)) && forall x | x in vars :: x in names
    ensures var r := EvalLoop(rt, Emitted, vars, step, env, fuel);
            (r.Done? ==> st'.Scope? && st'.outer == st.outer && Lookup(st', Result) == Some(r.value))
            && CStep(rt, CgcWhile(cn, step, vars), st, fuel)
               == if r.Done? then Done((None, st')) else r.PropagateFailure()
    decreases fuel, step, 3
  {
    st' := st;
    if fuel == 0 {
      NoRound(rt, cn, vars, step, env, st);
    } else {
      var s := CorrectRound(rt, cn, vars, step, env, scope, names, st, fuel);
      st' := WhileGoesOn(rt, cn, vars, step, env, scope, names, st, s, fuel);
    }
  }

  lemma {:induction false} NoRound(rt: Runtime, cn: Mangler, vars: seq<string>, step: Expr, env: Env, st: Store)
    requires LoopScope(cn, st, vars) && st.vars[Looping] == Some(Int(1))
    ensures EvalLoop(rt, Emitted, vars, step, env, 0) == Timeout && CStep(rt, CgcWhile(cn, step, vars), st, 0) == Timeout
  {
  }

  /** The loop after one round. */
  lemma {:induction false} WhileGoesOn(rt: Runtime, cn: Mangler, vars: seq<string>, step: Expr, env: Env, scope: set<string>,
                                       names: set<string>, st: Store, s: Outcome<Step>, fuel: nat) returns (st': Store)
    requires Setup(rt, cn, env, scope, names, st) && OK(step, scope, names, Some(Tail(vars, {}, true)))
    requires LoopScope(cn, st, vars) && (forall x | x in vars :: x in names) && JumpsWell(s, Some(Tail(vars, {}, true))) && fuel > 0
    ensures var r := LoopGoesOn(rt, vars, step, env, s, fuel - 1);
            (r.Done? ==> st'.Scope? && st'.outer == st.outer && Lookup(st', Result) == Some(r.value))
            && WhileAfter(rt, cn, vars, step, st, s, fuel - 1) == if r.Done? then Done((None, st')) else r.PropagateFailure()
    decreases fuel, step, 2
  {
    st' := st;
    if s.Done? && s.value.Val? {
      st' := Stored(st, s.value.v);
      ResultIsStored(cn, vars, st, s.value.v);
    } else if s.Done? {
      st' := WhileAgain(rt, cn, vars, s.value.vs, step, env, scope, names, st, fuel - 1);
    }
  }

  /** The rounds after a jump. */
  lemma {:induction false} WhileAgain(rt: Runtime, cn: Mangler, vars: seq<string>, vs: seq<Value>, step: Expr, env: Env,
                                      scope: set<string>, names: set<string>, st: Store, fuel: nat) returns (st': Store)
    requires Setup(rt, cn, env, scope, names, st) && OK(step, scope, names, Some(Tail(vars, {}, true))) && |vars| == |vs|
    requires LoopScope(cn, st, vars) && forall x | x in vars :: x in names
    ensures var r := EvalLoop(rt, Emitted, vars, step, Rebind(env, vars, vs), fuel);
            (r.Done? ==> st'.Scope? && st'.outer == st.outer && Lookup(st', Result) == Some(r.value))
            && CStep(rt, CgcWhile(cn, step, vars), After(cn, st, vars, vs), fuel)
               == if r.Done? then Done((None, st')) else r.PropagateFailure()
    decreases fuel, step, 4
  {
    NextRound(rt, cn, vars, vs, env, scope, names, st);
    st' := CorrectWhile(rt, cn, vars, step, Rebind(env, vars, vs), scope, names, After(cn, st, vars, vs), fuel);
  }

  /** What a round that did s leads to: in the source, and in C. */
  function LoopGoesOn(rt: Runtime, vars: seq<string>, step: Expr, env: Env, s: Outcome<Step>, fuel: nat): Outcome<Value>
    requires s.Done? && s.value.Again? ==> |s.value.vs| == |vars|
  {
    match s
    case Done(Val(v)) => Done(v)
    case Done(Again(vs)) => EvalLoop(rt, Emitted, vars, step, Rebind(env, vars, vs), fuel)
    case Stuck => Stuck
    case Timeout => Timeout
    case Unsteady => Unsteady
  }

  function WhileAfter(rt: Runtime, cn: Mangler, vars: seq<string>, step: Expr, st: Store, s: Outcome<Step>, fuel: nat)
    : Outcome<(Option<Value>, Store)>
    requires s.Done? && s.value.Again? ==> |s.value.vs| == |vars|
  {
    match s
    case Done(Val(v)) => Done((None, Stored(st, v)))
    case Done(Again(vs)) => CStep(rt, CgcWhile(cn, step, vars), After(cn, st, vars, vs), fuel)
    case Stuck => Stuck
    case Timeout => Timeout
    case Unsteady => Unsteady
  }

  /** One round of the `while` does what one round of the source loop does. */
  lemma {:induction false} CorrectRound(rt: Runtime, cn: Mangler, vars: seq<string>, step: Expr, env: Env, scope: set<string>,
                                        names: set<string>, st: Store, fuel: nat) returns (s: Outcome<Step>)
    requires fuel > 0 && Setup(rt, cn, env, scope, names, st) && OK(step, scope, names, Some(Tail(vars, {}, true)))
    requires LoopScope(cn, st, vars) && st.vars[Looping] == Some(Int(1)) && forall x | x in vars :: x in names
    ensures JumpsWell(s, Some(Tail(vars, {}, true)))
    ensures CStep(rt, CgcWhile(cn, step, vars), st, fuel) == WhileAfter(rt, cn, vars, step, st, s, fuel - 1)
    ensures EvalLoop(rt, Emitted, vars, step, env, fuel) == LoopGoesOn(rt, vars, step, env, s, fuel - 1)
    decreases fuel, step, 2
  {
    s := Eval(rt, Emitted, step, env, fuel - 1, true);
    LowerFlag(rt, cn, vars, env, scope, names, st);
    Correct(rt, cn, step, env, scope, names, Some(Tail(vars, {}, true)), Scope(map[], Update(st, Looping, Int(0))), fuel - 1);
    WhileRound(rt, cn, vars, step, s, st, fuel);
    SourceRound(rt, vars, step, env, s, fuel);
  }

  /** The store after a round that ends with v. */
  function Stored(st: Store, v: Value): Store {
    Update(Update(st, Looping, Int(0)), Result, v)
  }

  /** The store after a round that jumps. */
  function After(cn: Mangler, st: Store, vars: seq<string>, vs: seq<Value>): Store
    requires |vars| == |vs|
  {
    Update(Jumped(cn, Update(st, Looping, Int(0)), vars, vs), Result, Nil)
  }

  lemma {:induction false} ResultIsStored(cn: Mangler, vars: seq<string>, st: Store, v: Value)
    requires LoopScope(cn, st, vars)
    ensures var st' := Stored(st, v); st'.Scope? && st'.outer == st.outer && Lookup(st', Result) == Some(v)
  {
  }

  /** One round of the source loop. */
  lemma {:induction false} SourceRound(rt: Runtime, vars: seq<string>, step: Expr, env: Env, s: Outcome<Step>, fuel: nat)
    requires fuel > 0 && s == Eval(rt, Emitted, step, env, fuel - 1, true) && JumpsWell(s, Some(Tail(vars, {}, true)))
    ensures EvalLoop(rt, Emitted, vars, step, env, fuel)
            == if !s.Done? then s.PropagateFailure()
               else if s.value.Val? then Done(s.value.v)
               else EvalLoop(rt, Emitted, vars, step, Rebind(env, vars, s.value.vs), fuel - 1)
  {
  }

  /** One round: lower the flag, run the body, store its value; the flag decides what comes next. */
  lemma {:induction false} WhileRound(rt: Runtime, cn: Mangler, vars: seq<string>, step: Expr, s: Outcome<Step>, st: Store, fuel: nat)
    requires fuel > 0 && LoopScope(cn, st, vars) && st.vars[Looping] == Some(Int(1))
    requires var tail := Some(Tail(vars, {}, true));
             var inner := Scope(map[], Update(st, Looping, Int(0)));
             JumpsWell(s, tail) && CEval(rt, Cgc(cn, step, Some(vars)), inner, fuel - 1) == Expected(cn, s, inner, tail)
    ensures CStep(rt, CgcWhile(cn, step, vars), st, fuel)
            == if !s.Done? then s.PropagateFailure()
               else if s.value.Val? then Done((None, Stored(st, s.value.v)))
               else CStep(rt, CgcWhile(cn, step, vars), After(cn, st, vars, s.value.vs), fuel - 1)
  {
    var low := Update(st, Looping, Int(0));
    var lower, store := CAssign(Looping, CConst(Int(0))), CAssign(Result, Cgc(cn, step, Some(vars)));
    var inner := Scope(map[], low);
    assert [lower] + [store] == [lower, store];
    ExecCons(rt, lower, [store], Scope(map[], st), fuel - 1);
    assert Declared(st, Looping) && Declared(Scope(map[], st), Looping);
    assert CStep(rt, lower, Scope(map[], st), fuel - 1) == Done((None, inner));
    if s.Done? {
      var (v, after) := if s.value.Val? then (s.value.v, low) else (Nil, Jumped(cn, low, vars, s.value.vs));
      if s.value.Again? {
        AssignAllThrough(cn, inner, vars, s.value.vs);
        AssignAllHere(cn, low, vars, s.value.vs);
      }
      assert CEval(rt, store.rhs, inner, fuel - 1) == Done((v, Scope(map[], after)));
      assert Declared(after, Result) && Declared(Scope(map[], after), Result);
      assert CStep(rt, store, inner, fuel - 1) == Done((None, Scope(map[], Update(after, Result, v))));
      assert s.value.Val? ==> Lookup(Update(after, Result, v), Looping) == Some(Int(0));
    }
  }

  lemma {:induction false} CorrectLoopBlock(rt: Runtime, cn: Mangler, e: Expr, env: Env, scope: set<string>,
                                            names: set<string>, st: Store, fuel: nat, wr: bool)
    requires e.Loop? && Setup(rt, cn, env, scope, names, st) && OK(e, scope, names, None)
    ensures CEval(rt, Cgc(cn, e, None), st, fuel) == Expected(cn, Eval(rt, Emitted, e, env, fuel, wr), st, None)
    ensures JumpsWell(Eval(rt, Emitted, e, env, fuel, wr), None)
    decreases fuel, e, 0
  {
    var Loop(bindings, step) := e;
    var vars := BindingNames(bindings);
    LoopNames(bindings, scope, names, {});
    var run := LoopRun(cn, step, vars);
    var inner := Scope(map[], st);
    assert Fits(cn, inner, env, scope);
    var st1 := CorrectLoopVars(rt, cn, bindings, 0, run, env, scope, names, {}, inner, fuel);
    var b := EvalBindings(rt, Emitted, bindings, env, fuel);
    var r := RoundsFrom(rt, bindings, step, b, fuel);
    var st' := st1;
    if b.Done? {
      st' := CorrectRounds(rt, cn, bindings, step, b.value, scope + NameSet(bindings), names, st1, fuel);
    }
    LoopStep(rt, bindings, step, env, fuel, wr);
    BlockValue(rt, CgcLoopVars(cn, bindings, 0) + run, r, st', st, fuel);
    ValueExpected(cn, r, st);
  }

  function RoundsFrom(rt: Runtime, bindings: seq<Binding>, step: Expr, b: Outcome<Env>, fuel: nat): Outcome<Value> {
    var env :- b;
    EvalLoop(rt, Emitted, BindingNames(bindings), step, env, fuel)
  }

  lemma {:induction false} LoopStep(rt: Runtime, bindings: seq<Binding>, step: Expr, env: Env, fuel: nat, wr: bool)
    ensures Eval(rt, Emitted, Loop(bindings, step), env, fuel, wr)
            == AsStep(RoundsFrom(rt, bindings, step, EvalBindings(rt, Emitted, bindings, env, fuel), fuel))
  {
  }

  lemma {:induction false} BlockValue(rt: Runtime, stmts: seq<CStmt>, r: Outcome<Value>, st': Store, st: Store, fuel: nat)
    requires r.Done? ==> st'.Scope? && st'.outer == st
    requires CExec(rt, stmts, Scope(map[], st), fuel) == if r.Done? then Done((Some(r.value), st')) else r.PropagateFailure()
    ensures CEval(rt, CBlock(stmts), st, fuel) == Lift(r, st)
  {
  }

  lemma {:induction false} ValueExpected(cn: Mangler, r: Outcome<Value>, st: Store)
    ensures Expected(cn, AsStep(r), st, None) == Lift(r, st)
  {
  }

  function LoopRun(cn: Mangler, step: Expr, vars: seq<string>): seq<CStmt> {
    [CDecl(Looping, CConst(Int(1))), CDecl(Result, C_NIL), CgcWhile(cn, step, vars), CExprStmt(CVar(Result))]
  }

  /** What comes after the variables of a `loop`. */
  lemma {:induction false} CorrectRounds(rt: Runtime, cn: Mangler, bindings: seq<Binding>, step: Expr, env: Env, scope: set<string>,
                                         names: set<string>, st: Store, fuel: nat) returns (st': Store)
    requires Setup(rt, cn, env, scope, names, st) && st.Scope? && NameSet(bindings) <= names
    requires OK(step, scope, names, Some(Tail(BindingNames(bindings), {}, true)))
    requires LoopVarsDeclared(cn, st, {} + NameSet(bindings), 2 * |bindings|) && forall n | n in NameSet(bindings) :: cn(n) in st.vars
    ensures var r := EvalLoop(rt, Emitted, BindingNames(bindings), step, env, fuel);
            CExec(rt, LoopRun(cn, step, BindingNames(bindings)), st, fuel)
            == (if r.Done? then Done((Some(r.value), st')) else r.PropagateFailure())
            && (r.Done? ==> st'.Scope? && st'.outer == st.outer)
    decreases fuel, step, 5
  {
    var vars := BindingNames(bindings);
    var st2 := Scope(st.vars[Looping := Some(Int(1))][Result := Some(Nil)], st.outer);
    EnterLoop(cn, bindings, env, scope, names, st, st2);
    st' := CorrectWhile(rt, cn, vars, step, env, scope, names, st2, fuel);
    RunLoop(rt, CgcWhile(cn, step, vars), EvalLoop(rt, Emitted, vars, step, env, fuel), st, st', fuel);
  }

  lemma {:induction false} EnterLoop(cn: Mangler, bindings: seq<Binding>, env: Env, scope: set<string>, names: set<string>, st1: Store, st2: Store)
    requires Mangles(cn, names) && scope <= names && st1.Scope? && Fits(cn, st1, env, scope) && NameSet(bindings) <= names
    requires LoopVarsDeclared(cn, st1, {} + NameSet(bindings), 2 * |bindings|)
    requires forall n | n in NameSet(bindings) :: cn(n) in st1.vars
    requires st2 == Scope(st1.vars[Looping := Some(Int(1))][Result := Some(Nil)], st1.outer)
    ensures Looping !in st1.vars && Result !in st1.vars
    ensures Fits(cn, st2, env, scope) && LoopScope(cn, st2, BindingNames(bindings))
    ensures forall x | x in BindingNames(bindings) :: x in names
  {
    assert forall x | x in BindingNames(bindings) :: x in NameSet(bindings);
  }

  lemma {:induction false} RunLoop(rt: Runtime, w: CStmt, r: Outcome<Value>, st1: Store, st3: Store, fuel: nat)
    requires st1.Scope? && Looping !in st1.vars && Result !in st1.vars
    requires var st2 := Scope(st1.vars[Looping := Some(Int(1))][Result := Some(Nil)], st1.outer);
             CStep(rt, w, st2, fuel) == if r.Done? then Done((None, st3)) else r.PropagateFailure()
    requires r.Done? ==> Lookup(st3, Result) == Some(r.value)
    ensures var run := [CDecl(Looping, CConst(Int(1))), CDecl(Result, C_NIL), w, CExprStmt(CVar(Result))];
            CExec(rt, run, st1, fuel) == if r.Done? then Done((Some(r.value), st3)) else r.PropagateFailure()
  {
    var flag, result, last := CDecl(Looping, CConst(Int(1))), CDecl(Result, C_NIL), CExprStmt(CVar(Result));
    var st2 := Scope(st1.vars[Looping := Some(Int(1))], st1.outer);
    DeclStep(rt, Looping, CConst(Int(1)), Done(Int(1)), st1, fuel);
    DeclStep(rt, Result, C_NIL, Done(Nil), st2, fuel);
    assert [flag, result, w, last] == [flag] + [result, w, last];
    assert [result, w, last] == [result] + [w, last];
    assert [w, last] == [w] + [last];
    ExecCons(rt, flag, [result, w, last], st1, fuel);
    ExecCons(rt, result, [w, last], st2, fuel);
    ExecCons(rt, w, [last], Scope(st2.vars[Result := Some(Nil)], st1.outer), fuel);
    if r.Done? {
      assert CStep(rt, last, st3, fuel) == Done((Some(r.value), st3));
    }
  }
}
