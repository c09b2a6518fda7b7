/** What a program means, and when the emitted code agrees with it. */
module CompilerModes {
  import opened FLValue
  import opened Wrappers
  import opened CNames
  import opened Compiler
  import opened CompilerCorrectness

  /** A checked run that stays steady is the run of the source and of the emitted code; if both of these have a value,
      the checked run has it; and where nothing is cut, a value of the emitted code is the value of the source. */
  ghost predicate Agree<T>(uncut: bool, c: Outcome<T>, l: Outcome<T>, e: Outcome<T>) {
    (c != Unsteady ==> l == c && e == c) && (l.Done? && e.Done? ==> c != Unsteady) && (uncut && e.Done? ==> l == e)
  }

  // ---------- Programs that are compiled whole ----------

  /** No `let` in tail position of a loop has more than one body expression, so none is cut. */
  predicate Uncut(e: Expr, wr: bool)
    decreases e, 1
  {
    match e
    case Lit(_) => true
    case Var(_) => true
    case If(test, thn, els) => Uncut(test, false) && Uncut(thn, wr) && (els.Some? ==> Uncut(els.value, wr))
    case Cond(clauses) => UncutClauses(clauses, wr)
    case Let(bindings, body) => UncutBindings(bindings) && UncutBody(body, wr) && (wr ==> |body| <= 1)
    case Do(body) => UncutBody(body, wr)
    case And(args) => UncutBody(args, false)
    case Or(args) => UncutBody(args, false)
    case Chain(_, args) => UncutBody(args, false)
    case Call(_, args) => UncutBody(args, false)
    case Loop(bindings, step) => UncutBindings(bindings) && Uncut(step, true)
    case Recur(args) => UncutBody(args, false)
  }

  predicate UncutClauses(clauses: seq<Clause>, wr: bool)
    decreases clauses, 0
  {
    clauses != [] ==>
      var c := clauses[0];
      assert c.test < c && c.body < c;
      Uncut(c.test, false) && Uncut(c.body, wr) && UncutClauses(clauses[1..], wr)
  }

  predicate UncutBindings(bindings: seq<Binding>)
    decreases bindings, 0
  {
    bindings != [] ==> Uncut(bindings[0].init, false) && UncutBindings(bindings[1..])
  }

  predicate UncutBody(body: seq<Expr>, wr: bool)
    decreases body, 0
  {
    body != [] ==> Uncut(body[0], wr) && UncutBody(body[1..], wr)
  }

  // ---------- One checked run for both ----------

  lemma {:induction false} Modes(rt: Runtime, e: Expr, env: Env, fuel: nat, wr: bool)
    ensures Agree(Uncut(e, wr), Eval(rt, Checked, e, env, fuel, wr), Eval(rt, Lazy, e, env, fuel, wr), Eval(rt, Emitted, e, env, fuel, wr))
    decreases fuel, e, 1
  {
    match e
    case Lit(_) =>
    case Var(_) =>
    case If(_, _, _) =>
      ModesIf(rt, e, env, fuel, wr);
    case Cond(clauses) =>
      ModesCond(rt, clauses, env, fuel, wr);
    case Let(bindings, body) =>
      ModesLet(rt, bindings, body, env, fuel, wr);
    case Do(body) =>
      ModesBody(rt, body, env, fuel, wr, false);
    case And(args) =>
      ModesAnd(rt, args, env, fuel);
    case Or(args) =>
      ModesOr(rt, args, env, fuel);
    case Chain(op, args) =>
      ModesChain(rt, op, args, env, fuel, wr);
    case Call(_, args) =>
      ModesArgs(rt, args, env, fuel);
    case Loop(bindings, step) =>
      ModesLoopBlock(rt, bindings, step, env, fuel, wr);
    case Recur(args) =>
      ModesArgs(rt, args, env, fuel);
  }

  lemma {:induction false} ModesIf(rt: Runtime, e: Expr, env: Env, fuel: nat, wr: bool)
    requires e.If?
    ensures Agree(Uncut(e, wr), Eval(rt, Checked, e, env, fuel, wr), Eval(rt, Lazy, e, env, fuel, wr), Eval(rt, Emitted, e, env, fuel, wr))
    decreases fuel, e, 0
  {
    ModesValue(rt, e.test, env, fuel);
    Modes(rt, e.thn, env, fuel, wr);
    if e.els.Some? {
      Modes(rt, e.els.value, env, fuel, wr);
    }
  }

  lemma {:induction false} ModesLoopBlock(rt: Runtime, bindings: seq<Binding>, step: Expr, env: Env, fuel: nat, wr: bool)
    ensures var e := Loop(bindings, step);
            Agree(Uncut(e, wr), Eval(rt, Checked, e, env, fuel, wr), Eval(rt, Lazy, e, env, fuel, wr), Eval(rt, Emitted, e, env, fuel, wr))
    decreases fuel, Loop(bindings, step), 0
  {
    ModesBindings(rt, bindings, env, fuel);
    var r := EvalBindings(rt, Checked, bindings, env, fuel);
    if r.Done? {
      ModesLoop(rt, BindingNames(bindings), step, r.value, fuel);
    }
  }

  lemma {:induction false} ModesLet(rt: Runtime, bindings: seq<Binding>, body: seq<Expr>, env: Env, fuel: nat, wr: bool)
    ensures var e := Let(bindings, body);
            Agree(Uncut(e, wr), Eval(rt, Checked, e, env, fuel, wr), Eval(rt, Lazy, e, env, fuel, wr), Eval(rt, Emitted, e, env, fuel, wr))
    decreases fuel, Let(bindings, body), 0
  {
    ModesBindings(rt, bindings, env, fuel);
    var r := EvalBindings(rt, Checked, bindings, env, fuel);
    if r.Done? {
      ModesBody(rt, body, r.value, fuel, wr, wr);
    }
  }

  lemma {:induction false} ModesChain(rt: Runtime, op: Op, args: seq<Expr>, env: Env, fuel: nat, wr: bool)
    ensures var e := Chain(op, args);
            Agree(Uncut(e, wr), Eval(rt, Checked, e, env, fuel, wr), Eval(rt, Lazy, e, env, fuel, wr), Eval(rt, Emitted, e, env, fuel, wr))
    decreases fuel, Chain(op, args), 0
  {
    if args != [] {
      assert UncutBody(args, false) ==> Uncut(args[0], false) && UncutBody(args[1..], false);
      ModesValue(rt, args[0], env, fuel);
      var v := EvalValue(rt, Checked, args[0], env, fuel);
      if v.Done? && !(|args| == 1 && op == Sub) {
        ModesFold(rt, op, v.value, args[1..], env, fuel);
      }
    }
  }

  lemma {:induction false} ModesValue(rt: Runtime, e: Expr, env: Env, fuel: nat)
    ensures Agree(Uncut(e, false), EvalValue(rt, Checked, e, env, fuel), EvalValue(rt, Lazy, e, env, fuel), EvalValue(rt, Emitted, e, env, fuel))
    decreases fuel, e, 2
  {
    Modes(rt, e, env, fuel, false);
  }

  lemma {:induction false} ModesCond(rt: Runtime, clauses: seq<Clause>, env: Env, fuel: nat, wr: bool)
    ensures Agree(UncutClauses(clauses, wr), EvalCond(rt, Checked, clauses, env, fuel, wr), EvalCond(rt, Lazy, clauses, env, fuel, wr),
                  EvalCond(rt, Emitted, clauses, env, fuel, wr))
    decreases fuel, clauses, 0
  {
    if clauses != [] {
      var c := clauses[0];
      assert c.test < c && c.body < c;
      ModesValue(rt, c.test, env, fuel);
      Modes(rt, c.body, env, fuel, wr);
      ModesCond(rt, clauses[1..], env, fuel, wr);
    }
  }

  lemma {:induction false} ModesBindings(rt: Runtime, bindings: seq<Binding>, env: Env, fuel: nat)
    ensures Agree(UncutBindings(bindings), EvalBindings(rt, Checked, bindings, env, fuel), EvalBindings(rt, Lazy, bindings, env, fuel),
                  EvalBindings(rt, Emitted, bindings, env, fuel))
    decreases fuel, bindings, 0
  {
    if bindings != [] {
      ModesValue(rt, bindings[0].init, env, fuel);
      var v := EvalValue(rt, Checked, bindings[0].init, env, fuel);
      if v.Done? {
        ModesBindings(rt, bindings[1..], env[bindings[0].name := v.value], fuel);
      }
    }
  }

  lemma {:induction false} ModesBody(rt: Runtime, body: seq<Expr>, env: Env, fuel: nat, wr: bool, cut: bool)
    ensures Agree(UncutBody(body, wr) && (cut ==> |body| <= 1), EvalBody(rt, Checked, body, env, fuel, wr, cut), EvalBody(rt, Lazy, body, env, fuel, wr, cut),
                  EvalBody(rt, Emitted, body, env, fuel, wr, cut))
    decreases fuel, body, 0
  {
    if body != [] {
      Modes(rt, body[0], env, fuel, wr);
      ModesBody(rt, body[1..], env, fuel, wr, cut);
    }
  }

  lemma {:induction false} ModesUnneeded(rt: Runtime, v: Value, args: seq<Expr>, env: Env, fuel: nat)
    ensures Agree(true, Unneeded(rt, Checked, v, args, env, fuel), Unneeded(rt, Lazy, v, args, env, fuel),
                  Unneeded(rt, Emitted, v, args, env, fuel))
  {
  }

  lemma {:induction false} ModesAnd(rt: Runtime, args: seq<Expr>, env: Env, fuel: nat)
    ensures Agree(UncutBody(args, false), EvalAnd(rt, Checked, args, env, fuel), EvalAnd(rt, Lazy, args, env, fuel), EvalAnd(rt, Emitted, args, env, fuel))
    decreases fuel, args, 0
  {
    if args != [] {
      ModesValue(rt, args[0], env, fuel);
      ModesAnd(rt, args[1..], env, fuel);
      var v := EvalValue(rt, Checked, args[0], env, fuel);
      if v.Done? {
        ModesUnneeded(rt, v.value, args[1..], env, fuel);
      }
    }
  }

  lemma {:induction false} ModesOr(rt: Runtime, args: seq<Expr>, env: Env, fuel: nat)
    ensures Agree(UncutBody(args, false), EvalOr(rt, Checked, args, env, fuel), EvalOr(rt, Lazy, args, env, fuel), EvalOr(rt, Emitted, args, env, fuel))
    decreases fuel, args, 0
  {
    if args != [] {
      ModesValue(rt, args[0], env, fuel);
      ModesOr(rt, args[1..], env, fuel);
      var v := EvalValue(rt, Checked, args[0], env, fuel);
      if v.Done? {
        ModesUnneeded(rt, v.value, args[1..], env, fuel);
      }
    }
  }

  lemma {:induction false} ModesFold(rt: Runtime, op: Op, acc: Value, args: seq<Expr>, env: Env, fuel: nat)
    ensures Agree(UncutBody(args, false), EvalFold(rt, Checked, op, acc, args, env, fuel), EvalFold(rt, Lazy, op, acc, args, env, fuel),
                  EvalFold(rt, Emitted, op, acc, args, env, fuel))
    decreases fuel, args, 0
  {
    if args != [] {
      ModesValue(rt, args[0], env, fuel);
      var v := EvalValue(rt, Checked, args[0], env, fuel);
      if v.Done? {
        var next := CallRuntime(rt, op, [acc, v.value]);
        if next.Done? {
          ModesFold(rt, op, next.value, args[1..], env, fuel);
        }
      }
    }
  }

  lemma {:induction false} ModesArgs(rt: Runtime, args: seq<Expr>, env: Env, fuel: nat)
    ensures Agree(UncutBody(args, false), EvalArgs(rt, Checked, args, env, fuel), EvalArgs(rt, Lazy, args, env, fuel), EvalArgs(rt, Emitted, args, env, fuel))
    decreases fuel, args, 0
  {
    if args != [] {
      ModesValue(rt, args[0], env, fuel);
      ModesArgs(rt, args[1..], env, fuel);
    }
  }

  lemma {:induction false} ModesLoop(rt: Runtime, vars: seq<string>, step: Expr, env: Env, fuel: nat)
    ensures Agree(Uncut(step, true), EvalLoop(rt, Checked, vars, step, env, fuel), EvalLoop(rt, Lazy, vars, step, env, fuel),
                  EvalLoop(rt, Emitted, vars, step, env, fuel))
    decreases fuel, step, 3
  {
    if fuel > 0 {
      Modes(rt, step, env, fuel - 1, true);
      var s := Eval(rt, Checked, step, env, fuel - 1, true);
      if s.Done? && s.value.Again? && |s.value.vs| == |vars| {
        ModesLoop(rt, vars, step, Rebind(env, vars, s.value.vs), fuel - 1);
      }
    }
  }
}
