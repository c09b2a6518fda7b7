/** Programs that can be seen to be compiled faithfully: what the emitted code evaluates in vain, or leaves out, always
    has a value. */
module CompilerSteady {
  import opened FLValue
  import opened Wrappers
  import opened Compiler

  predicate TotalOp(op: Op) {
    op == Eq || op == Neq || op == Lt || op == Gt || op == Lte || op == Gte || op == Not
  }

  ghost predicate RuntimeTotal(rt: Runtime) {
    forall op, args :: TotalOp(op) ==> rt(op, args).Some?
  }

  /** Expressions that have a value wherever the names in `bound` have one. */
  predicate Total(e: Expr, bound: set<string>)
    decreases e, 1
  {
    match e
    case Lit(_) => true
    case Var(x) => x in bound
    case If(test, thn, els) => Total(test, bound) && Total(thn, bound) && (els.Some? ==> Total(els.value, bound))
    case Cond(clauses) => TotalClauses(clauses, bound)
    case Let(bindings, body) => TotalBindings(bindings, bound) && TotalBody(body, bound + NameSet(bindings))
    case Do(body) => TotalBody(body, bound)
    case And(args) => TotalBody(args, bound)
    case Or(args) => TotalBody(args, bound)
    case Call(op, args) => TotalOp(op) && TotalBody(args, bound)
    case _ => false
  }

  predicate TotalClauses(clauses: seq<Clause>, bound: set<string>)
    decreases clauses, 0
  {
    clauses != [] ==>
      var c := clauses[0];
      assert c.test < c && c.body < c;
      Total(c.test, bound) && Total(c.body, bound) && TotalClauses(clauses[1..], bound)
  }

  predicate TotalBindings(bindings: seq<Binding>, bound: set<string>)
    decreases bindings, 0
  {
    bindings != [] ==> Total(bindings[0].init, bound) && TotalBindings(bindings[1..], bound + {bindings[0].name})
  }

  predicate TotalBody(body: seq<Expr>, bound: set<string>)
    decreases body, 0
  {
    body != [] ==> Total(body[0], bound) && TotalBody(body[1..], bound)
  }

  /** Operands of `and` and `or` after the first, and expressions cut from a `let` in tail position of a loop, are
      total. */
  predicate Quiet(e: Expr, bound: set<string>, wr: bool)
    decreases e, 1
  {
    match e
    case Lit(_) => true
    case Var(_) => true
    case If(test, thn, els) => Quiet(test, bound, false) && Quiet(thn, bound, wr) && (els.Some? ==> Quiet(els.value, bound, wr))
    case Cond(clauses) => QuietClauses(clauses, bound, wr)
    case Let(bindings, body) => QuietBindings(bindings, bound) && QuietBody(body, bound + NameSet(bindings), wr, wr)
    case Do(body) => QuietBody(body, bound, wr, false)
    case And(args) => QuietBody(args, bound, false, false) && (args != [] ==> TotalBody(args[1..], bound))
    case Or(args) => QuietBody(args, bound, false, false) && (args != [] ==> TotalBody(args[1..], bound))
    case Chain(_, args) => QuietBody(args, bound, false, false)
    case Call(_, args) => QuietBody(args, bound, false, false)
    case Loop(bindings, step) => QuietBindings(bindings, bound) && Quiet(step, bound + NameSet(bindings), true)
    case Recur(args) => QuietBody(args, bound, false, false)
  }

  predicate QuietClauses(clauses: seq<Clause>, bound: set<string>, wr: bool)
    decreases clauses, 0
  {
    clauses != [] ==>
      var c := clauses[0];
      assert c.test < c && c.body < c;
      Quiet(c.test, bound, false) && Quiet(c.body, bound, wr) && QuietClauses(clauses[1..], bound, wr)
  }

  predicate QuietBindings(bindings: seq<Binding>, bound: set<string>)
    decreases bindings, 0
  {
    bindings != [] ==> Quiet(bindings[0].init, bound, false) && QuietBindings(bindings[1..], bound + {bindings[0].name})
  }

  predicate QuietBody(body: seq<Expr>, bound: set<string>, wr: bool, cut: bool)
    decreases body, 0
  {
    body != [] ==>
      Quiet(body[0], bound, wr) && (cut && |body| > 1 ==> Total(body[0], bound)) && QuietBody(body[1..], bound, wr, cut)
  }

  // ---------- Total expressions ----------

  lemma {:induction false} TotalHasValue(rt: Runtime, m: Mode, e: Expr, bound: set<string>, env: Env, fuel: nat, wr: bool)
    requires RuntimeTotal(rt) && Total(e, bound) && bound <= env.Keys
    ensures Valued(Eval(rt, m, e, env, fuel, wr)).Done?
    decreases e, 1
  {
    match e
    case Lit(_) =>
    case Var(_) =>
    case If(test, thn, els) =>
      TotalHasValue(rt, m, test, bound, env, fuel, false);
      TotalHasValue(rt, m, thn, bound, env, fuel, wr);
      if els.Some? {
        TotalHasValue(rt, m, els.value, bound, env, fuel, wr);
      }
    case Cond(clauses) =>
      TotalCond(rt, m, clauses, bound, env, fuel, wr);
    case Let(bindings, body) =>
      TotalLet(rt, m, bindings, bound, env, fuel);
      TotalRun(rt, m, body, bound + NameSet(bindings), EvalBindings(rt, m, bindings, env, fuel).value, fuel, wr, wr);
    case Do(body) =>
      TotalRun(rt, m, body, bound, env, fuel, wr, false);
    case And(args) =>
      TotalArgs(rt, m, args, bound, env, fuel);
    case Or(args) =>
      TotalArgs(rt, m, args, bound, env, fuel);
    case Call(op, args) =>
      TotalArgs(rt, m, args, bound, env, fuel);
      assert TotalOp(op);
  }

  lemma {:induction false} TotalCond(rt: Runtime, m: Mode, clauses: seq<Clause>, bound: set<string>, env: Env, fuel: nat, wr: bool)
    requires RuntimeTotal(rt) && TotalClauses(clauses, bound) && bound <= env.Keys
    ensures Valued(EvalCond(rt, m, clauses, env, fuel, wr)).Done?
    decreases clauses, 0
  {
    if clauses != [] {
      var c := clauses[0];
      assert c.test < c && c.body < c;
      TotalHasValue(rt, m, c.test, bound, env, fuel, false);
      TotalHasValue(rt, m, c.body, bound, env, fuel, wr);
      TotalCond(rt, m, clauses[1..], bound, env, fuel, wr);
    }
  }

  lemma {:induction false} TotalLet(rt: Runtime, m: Mode, bindings: seq<Binding>, bound: set<string>, env: Env, fuel: nat)
    requires RuntimeTotal(rt) && TotalBindings(bindings, bound) && bound <= env.Keys
    ensures EvalBindings(rt, m, bindings, env, fuel).Done?
    decreases bindings, 0
  {
    if bindings != [] {
      var b := bindings[0];
      TotalHasValue(rt, m, b.init, bound, env, fuel, false);
      TotalLet(rt, m, bindings[1..], bound + {b.name}, env[b.name := EvalValue(rt, m, b.init, env, fuel).value], fuel);
    }
  }

  lemma {:induction false} TotalRun(rt: Runtime, m: Mode, body: seq<Expr>, bound: set<string>, env: Env, fuel: nat, wr: bool, cut: bool)
    requires RuntimeTotal(rt) && TotalBody(body, bound) && bound <= env.Keys
    ensures Valued(EvalBody(rt, m, body, env, fuel, wr, cut)).Done?
    decreases body, 0
  {
    if body != [] {
      TotalHasValue(rt, m, body[0], bound, env, fuel, wr);
      TotalHasValue(rt, Lazy, body[0], bound, env, fuel, wr);
      TotalRun(rt, m, body[1..], bound, env, fuel, wr, cut);
    }
  }

  lemma {:induction false} TotalArgs(rt: Runtime, m: Mode, args: seq<Expr>, bound: set<string>, env: Env, fuel: nat)
    requires RuntimeTotal(rt) && TotalBody(args, bound) && bound <= env.Keys
    ensures EvalArgs(rt, m, args, env, fuel).Done? && EvalArgs(rt, Emitted, args, env, fuel).Done?
    ensures EvalAnd(rt, m, args, env, fuel).Done? && EvalOr(rt, m, args, env, fuel).Done?
    decreases args, 0
  {
    if args != [] {
      TotalHasValue(rt, m, args[0], bound, env, fuel, false);
      TotalHasValue(rt, Emitted, args[0], bound, env, fuel, false);
      TotalArgs(rt, m, args[1..], bound, env, fuel);
    }
  }

  // ---------- Quiet programs ----------

  /** A checked run of a quiet program is steady: the emitted code does exactly what the source does. */
  lemma {:induction false} QuietIsSteady(rt: Runtime, e: Expr, bound: set<string>, env: Env, fuel: nat, wr: bool)
    requires RuntimeTotal(rt) && Quiet(e, bound, wr) && bound <= env.Keys
    ensures Eval(rt, Checked, e, env, fuel, wr) != Unsteady
    decreases fuel, e, 1
  {
    match e
    case Lit(_) =>
    case Var(_) =>
    case If(test, thn, els) =>
      QuietIsSteady(rt, test, bound, env, fuel, false);
      QuietIsSteady(rt, thn, bound, env, fuel, wr);
      if els.Some? {
        QuietIsSteady(rt, els.value, bound, env, fuel, wr);
      }
    case Cond(clauses) =>
      QuietCond(rt, clauses, bound, env, fuel, wr);
    case Let(bindings, body) =>
      QuietLet(rt, bindings, bound, env, fuel);
      var r := EvalBindings(rt, Checked, bindings, env, fuel);
      if r.Done? {
        QuietRun(rt, body, bound + NameSet(bindings), r.value, fuel, wr, wr);
      }
    case Do(body) =>
      QuietRun(rt, body, bound, env, fuel, wr, false);
    case And(args) =>
      QuietAndOr(rt, args, bound, env, fuel);
    case Or(args) =>
      QuietAndOr(rt, args, bound, env, fuel);
    case Chain(op, args) =>
      QuietChain(rt, op, args, bound, env, fuel, wr);
    case Call(_, args) =>
      QuietArgs(rt, args, bound, env, fuel);
    case Loop(bindings, step) =>
      QuietLet(rt, bindings, bound, env, fuel);
      var r := EvalBindings(rt, Checked, bindings, env, fuel);
      if r.Done? {
        QuietLoop(rt, BindingNames(bindings), step, bound + NameSet(bindings), r.value, fuel);
      }
    case Recur(args) =>
      QuietArgs(rt, args, bound, env, fuel);
  }

  lemma {:induction false} QuietCond(rt: Runtime, clauses: seq<Clause>, bound: set<string>, env: Env, fuel: nat, wr: bool)
    requires RuntimeTotal(rt) && QuietClauses(clauses, bound, wr) && bound <= env.Keys
    ensures EvalCond(rt, Checked, clauses, env, fuel, wr) != Unsteady
    decreases fuel, clauses, 0
  {
    if clauses != [] {
      var c := clauses[0];
      assert c.test < c && c.body < c;
      QuietIsSteady(rt, c.test, bound, env, fuel, false);
      QuietIsSteady(rt, c.body, bound, env, fuel, wr);
      QuietCond(rt, clauses[1..], bound, env, fuel, wr);
    }
  }

  lemma {:induction false} QuietLet(rt: Runtime, bindings: seq<Binding>, bound: set<string>, env: Env, fuel: nat)
    requires RuntimeTotal(rt) && QuietBindings(bindings, bound) && bound <= env.Keys
    ensures EvalBindings(rt, Checked, bindings, env, fuel) != Unsteady
    decreases fuel, bindings, 0
  {
    if bindings != [] {
      var b := bindings[0];
      QuietIsSteady(rt, b.init, bound, env, fuel, false);
      var v := EvalValue(rt, Checked, b.init, env, fuel);
      if v.Done? {
        QuietLet(rt, bindings[1..], bound + {b.name}, env[b.name := v.value], fuel);
      }
    }
  }

  lemma {:induction false} QuietRun(rt: Runtime, body: seq<Expr>, bound: set<string>, env: Env, fuel: nat, wr: bool, cut: bool)
    requires RuntimeTotal(rt) && QuietBody(body, bound, wr, cut) && bound <= env.Keys
    ensures EvalBody(rt, Checked, body, env, fuel, wr, cut) != Unsteady
    decreases fuel, body, 0
  {
    if body != [] {
      QuietIsSteady(rt, body[0], bound, env, fuel, wr);
      QuietRun(rt, body[1..], bound, env, fuel, wr, cut);
      if cut && |body| > 1 {
        TotalHasValue(rt, Lazy, body[0], bound, env, fuel, wr);
      }
    }
  }

  lemma {:induction false} QuietAndOr(rt: Runtime, args: seq<Expr>, bound: set<string>, env: Env, fuel: nat)
    requires RuntimeTotal(rt) && QuietBody(args, bound, false, false) && bound <= env.Keys
    requires args != [] ==> TotalBody(args[1..], bound)
    ensures EvalAnd(rt, Checked, args, env, fuel) != Unsteady && EvalOr(rt, Checked, args, env, fuel) != Unsteady
    decreases fuel, args, 0
  {
    if args != [] {
      QuietIsSteady(rt, args[0], bound, env, fuel, false);
      TotalArgs(rt, Checked, args[1..], bound, env, fuel);
    }
  }

  lemma {:induction false} QuietChain(rt: Runtime, op: Op, args: seq<Expr>, bound: set<string>, env: Env, fuel: nat, wr: bool)
    requires RuntimeTotal(rt) && QuietBody(args, bound, false, false) && bound <= env.Keys
    ensures Eval(rt, Checked, Chain(op, args), env, fuel, wr) != Unsteady
    decreases fuel, args, 1
  {
    if args != [] {
      QuietIsSteady(rt, args[0], bound, env, fuel, false);
      var v := EvalValue(rt, Checked, args[0], env, fuel);
      if v.Done? {
        QuietFold(rt, op, v.value, args[1..], bound, env, fuel);
      }
    }
  }

  lemma {:induction false} QuietFold(rt: Runtime, op: Op, acc: Value, args: seq<Expr>, bound: set<string>, env: Env, fuel: nat)
    requires RuntimeTotal(rt) && QuietBody(args, bound, false, false) && bound <= env.Keys
    ensures EvalFold(rt, Checked, op, acc, args, env, fuel) != Unsteady
    decreases fuel, args, 0
  {
    if args != [] {
      QuietIsSteady(rt, args[0], bound, env, fuel, false);
      var v := EvalValue(rt, Checked, args[0], env, fuel);
      if v.Done? {
        var next := CallRuntime(rt, op, [acc, v.value]);
        if next.Done? {
          QuietFold(rt, op, next.value, args[1..], bound, env, fuel);
        }
      }
    }
  }

  lemma {:induction false} QuietArgs(rt: Runtime, args: seq<Expr>, bound: set<string>, env: Env, fuel: nat)
    requires RuntimeTotal(rt) && QuietBody(args, bound, false, false) && bound <= env.Keys
    ensures EvalArgs(rt, Checked, args, env, fuel) != Unsteady
    decreases fuel, args, 0
  {
    if args != [] {
      QuietIsSteady(rt, args[0], bound, env, fuel, false);
      QuietArgs(rt, args[1..], bound, env, fuel);
    }
  }

  lemma {:induction false} QuietLoop(rt: Runtime, vars: seq<string>, step: Expr, bound: set<string>, env: Env, fuel: nat)
    requires RuntimeTotal(rt) && Quiet(step, bound, true) && bound <= env.Keys
    ensures EvalLoop(rt, Checked, vars, step, env, fuel) != Unsteady
    decreases fuel, step, 3
  {
    if fuel > 0 {
      var s := Eval(rt, Checked, step, env, fuel - 1, true);
      QuietIsSteady(rt, step, bound, env, fuel - 1, true);
      RoundStep(rt, vars, step, env, s, fuel);
      if s.Done? && s.value.Again? && |s.value.vs| == |vars| {
        QuietLoop(rt, vars, step, bound, Rebind(env, vars, s.value.vs), fuel - 1);
      }
    }
  }

  lemma {:induction false} RoundStep(rt: Runtime, vars: seq<string>, step: Expr, env: Env, s: Outcome<Step>, fuel: nat)
    requires fuel > 0 && s == Eval(rt, Checked, step, env, fuel - 1, true)
    ensures EvalLoop(rt, Checked, vars, step, env, fuel)
            == if !s.Done? then s.PropagateFailure()
               else if s.value.Val? then Done(s.value.v)
               else if |s.value.vs| != |vars| then Stuck
               else EvalLoop(rt, Checked, vars, step, Rebind(env, vars, s.value.vs), fuel - 1)
  {
  }
}
