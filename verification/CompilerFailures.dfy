/** Programs whose emitted C does something else: why each condition on a program is there. */
module CompilerFailures {
  import opened FLValue
  import opened Wrappers
  import opened Decimal
  import opened CNames
  import opened Compiler
  import opened CompilerCorrectness

  // ---------- Running small programs ----------

  lemma {:induction false} BindOne(rt: Runtime, m: Mode, x: string, init: Expr, v: Value, env: Env, fuel: nat)
    requires EvalValue(rt, m, init, env, fuel) == Done(v)
    ensures EvalBindings(rt, m, [Binding(x, init)], env, fuel) == Done(env[x := v])
  {
    assert [Binding(x, init)][1..] == [];
  }

  lemma {:induction false} BodyOne(rt: Runtime, m: Mode, e: Expr, env: Env, fuel: nat, wr: bool, cut: bool)
    ensures EvalBody(rt, m, [e], env, fuel, wr, cut) == Eval(rt, m, e, env, fuel, wr)
  {
  }

  lemma {:induction false} BlockOne(cn: Mangler, x: string, init: Expr, body: Expr)
    ensures Cgc(cn, Let([Binding(x, init)], [body]), None)
            == CBlock([CDecl(cn(x), Cgc(cn, init, None)), CExprStmt(Cgc(cn, body, None))])
  {
    assert [Binding(x, init)][1..] == [] && [body][1..] == [];
    assert CgcLet(cn, [Binding(x, init)]) == [CDecl(cn(x), Cgc(cn, init, None))];
    assert CgcStmts(cn, [body], None) == [CExprStmt(Cgc(cn, body, None))];
  }

  lemma {:induction false} RunBlock(rt: Runtime, id: Id, init: CExpr, v: Value, last: CStmt, st: Store, fuel: nat)
    requires var inner := Scope(map[id := None], st); CEval(rt, init, inner, fuel) == Done((v, inner))
    ensures CExec(rt, [CDecl(id, init), last], Scope(map[], st), fuel)
            == CStep(rt, last, Scope(map[id := Some(v)], st), fuel)
  {
    var none: map<Id, Option<Value>> := map[];
    assert none[id := None] == map[id := None] && none[id := Some(v)] == map[id := Some(v)];
    var r := CStep(rt, last, Scope(map[id := Some(v)], st), fuel);
    assert r.Done? ==> r == Done((r.value.0, r.value.1));
    DeclStep(rt, id, init, Done(v), Scope(map[], st), fuel);
    ExecCons(rt, CDecl(id, init), [last], Scope(map[], st), fuel);
    assert [CDecl(id, init)] + [last] == [CDecl(id, init), last];
  }

  // ---------- Operands that are not needed ----------

  /** `(and false (f))` with a throwing f: false in the source, a throw in C. */
  lemma {:induction false} AndIsEager(rt: Runtime, cn: Mangler, f: string, st: Store, fuel: nat)
    requires rt(Named(f), []).None?
    ensures var e := And([Lit(Bool(false)), Call(Named(f), [])]);
            EvalValue(rt, Lazy, e, map[], fuel) == Done(Bool(false)) && CEval(rt, Cgc(cn, e, None), st, fuel) == Stuck
  {
    var no, call := CConst(Bool(false)), CCall(Named(f), []);
    var args := [Lit(Bool(false)), Call(Named(f), [])];
    assert EvalValue(rt, Lazy, args[0], map[], fuel) == Done(Bool(false));
    assert EvalAnd(rt, Lazy, args, map[], fuel) == Done(Bool(false));
    assert args[1..] == [Call(Named(f), [])];
    assert CgcArgs(cn, [Call(Named(f), [])]) == [call];
    assert CEval(rt, call, st, fuel) == Stuck;
    CallTwo(rt, FlAnd, no, Done(Bool(false)), call, Stuck, st, fuel);
    assert FoldCalls(FlAnd, no, [call]) == CCall(FlAnd, [no, call]);
  }

  /** `(let [y 1] (f) y)` in tail position of a loop, with a throwing f: a throw in the source; the C has no call and
      its value is 1. */
  lemma {:induction false} LetDropsAnExpression(rt: Runtime, cn: Mangler, f: string, y: string, vars: seq<string>, st: Store, fuel: nat)
    requires rt(Named(f), []).None?
    ensures var e := Let([Binding(y, Lit(Int(1)))], [Call(Named(f), []), Var(y)]);
            Eval(rt, Lazy, e, map[], fuel, true) == Stuck && CEval(rt, Cgc(cn, e, Some(vars)), st, fuel) == Done((Int(1), st))
  {
    var call, env := Call(Named(f), []), map[y := Int(1)];
    BindOne(rt, Lazy, y, Lit(Int(1)), Int(1), map[], fuel);
    assert Eval(rt, Lazy, call, env, fuel, true) == Stuck;
    assert EvalBody(rt, Lazy, [call, Var(y)], env, fuel, true, true) == Stuck;
    var use := CExprStmt(CVar(cn(y)));
    assert [Binding(y, Lit(Int(1)))][1..] == [];
    assert CgcLet(cn, [Binding(y, Lit(Int(1)))]) == [CDecl(cn(y), CConst(Int(1)))];
    assert [CDecl(cn(y), CConst(Int(1)))] + [use] == [CDecl(cn(y), CConst(Int(1))), use];
    RunBlock(rt, cn(y), CConst(Int(1)), Int(1), use, st, fuel);
  }

  // ---------- Names of the program ----------

  /** `(let [x 1] (let [x x] x))`: 1 in the source; in C the inner initialiser reads the inner x. */
  lemma {:induction false} OwnInitialiser(rt: Runtime, cn: Mangler, x: string, st: Store, fuel: nat)
    ensures var e := Let([Binding(x, Lit(Int(1)))], [Let([Binding(x, Var(x))], [Var(x)])]);
            EvalValue(rt, Lazy, e, map[], fuel) == Done(Int(1)) && CEval(rt, Cgc(cn, e, None), st, fuel) == Stuck
  {
    var inner, id := Let([Binding(x, Var(x))], [Var(x)]), cn(x);
    var one := Scope(map[id := Some(Int(1))], st);
    BindOne(rt, Lazy, x, Lit(Int(1)), Int(1), map[], fuel);
    BindOne(rt, Lazy, x, Var(x), Int(1), map[x := Int(1)], fuel);
    BodyOne(rt, Lazy, Var(x), map[x := Int(1)], fuel, false, false);
    BodyOne(rt, Lazy, inner, map[x := Int(1)], fuel, false, false);
    assert map[x := Int(1)][x := Int(1)] == map[x := Int(1)];
    assert Eval(rt, Lazy, inner, map[x := Int(1)], fuel, false) == Done(Val(Int(1)));
    BlockOne(cn, x, Var(x), Var(x));
    BlockOne(cn, x, Lit(Int(1)), inner);
    var use := CExprStmt(CVar(id));
    assert [CDecl(id, CVar(id))] + [use] == [CDecl(id, CVar(id)), use];
    ExecCons(rt, CDecl(id, CVar(id)), [use], Scope(map[], one), fuel);
    assert CStep(rt, CDecl(id, CVar(id)), Scope(map[], one), fuel) == Stuck;
    assert CEval(rt, Cgc(cn, inner, None), one, fuel) == Stuck;
    RunBlock(rt, id, CConst(Int(1)), Int(1), CExprStmt(Cgc(cn, inner, None)), st, fuel);
  }

  /** Two names with one C spelling in one `let`: the second declaration is an error in C. */
  lemma {:induction false} CollidingNames(rt: Runtime, cn: Mangler, x: string, y: string, st: Store, fuel: nat)
    requires x != y && cn(x) == cn(y)
    ensures var e := Let([Binding(x, Lit(Int(1))), Binding(y, Lit(Int(2)))], [Var(x)]);
            EvalValue(rt, Lazy, e, map[], fuel) == Done(Int(1)) && CEval(rt, Cgc(cn, e, None), st, fuel) == Stuck
  {
    var bs, id := [Binding(x, Lit(Int(1))), Binding(y, Lit(Int(2)))], cn(x);
    var first, second, last := CDecl(id, CConst(Int(1))), CDecl(id, CConst(Int(2))), CExprStmt(CVar(id));
    assert bs[1..] == [Binding(y, Lit(Int(2)))];
    assert EvalValue(rt, Lazy, Lit(Int(1)), map[], fuel) == Done(Int(1));
    assert EvalValue(rt, Lazy, Lit(Int(2)), map[x := Int(1)], fuel) == Done(Int(2));
    BindOne(rt, Lazy, y, Lit(Int(2)), Int(2), map[x := Int(1)], fuel);
    var env := map[x := Int(1)][y := Int(2)];
    assert EvalBindings(rt, Lazy, bs, map[], fuel) == Done(env);
    BodyOne(rt, Lazy, Var(x), env, fuel, false, false);
    assert CgcLet(cn, bs[1..]) == [second];
    assert CgcStmts(cn, [Var(x)], None) == [last];
    assert CgcLet(cn, bs) + [last] == [first] + ([second] + [last]);
    DeclStep(rt, id, CConst(Int(1)), Done(Int(1)), Scope(map[], st), fuel);
    ExecCons(rt, first, [second] + [last], Scope(map[], st), fuel);
    ExecCons(rt, second, [last], Scope(map[id := Some(Int(1))], st), fuel);
    assert CStep(rt, second, Scope(map[id := Some(Int(1))], st), fuel) == Stuck;
  }

  /** `(loop [i 0] (if i i (let [i 1] (recur i))))`: 1 in the source after two rounds; the C loop
      assigns the inner i, so its own stays 0 and it never ends. */
  lemma {:induction false} ShadowedLoopVariable(rt: Runtime, cn: Mangler, i: string, st: Store, fuel: nat)
    requires cn(i).User?
    ensures var step := If(Var(i), Var(i), Some(Let([Binding(i, Lit(Int(1)))], [Recur([Var(i)])])));
            var S := Scope(map[cn(i) := Some(Int(0)), Looping := Some(Int(1)), Result := Some(Nil)], st);
            (fuel >= 2 ==> EvalLoop(rt, Lazy, [i], step, map[i := Int(0)], fuel) == Done(Int(1)))
            && CStep(rt, CgcWhile(cn, step, [i]), S, fuel) == Timeout
    decreases fuel
  {
    var again := Let([Binding(i, Lit(Int(1)))], [Recur([Var(i)])]);
    var step, id := If(Var(i), Var(i), Some(again)), cn(i);
    var S := Scope(map[id := Some(Int(0)), Looping := Some(Int(1)), Result := Some(Nil)], st);
    if fuel > 0 {
      var low := Update(S, Looping, Int(0));
      var inner := Scope(map[], low);
      ShadowedRound(rt, cn, i, again, inner, fuel - 1);
      assert Lookup(low, id) == Some(Int(0)) && Lookup(inner, id) == Some(Int(0));
      assert CEval(rt, CVar(id), inner, fuel - 1) == Done((Int(0), inner));
      var jump: Outcome<Step> := Done(Again([Int(0)]));
      assert AssignAll(cn, inner, [i], [Int(0)]) == Update(inner, id, Int(0)) == inner;
      WhileRound(rt, cn, [i], step, jump, S, fuel);
      assert AssignAll(cn, low, [i], [Int(0)]) == Update(low, id, Int(0)) == low;
      assert Update(Update(low, Looping, Int(1)), Result, Nil) == S;
      ShadowedLoopVariable(rt, cn, i, st, fuel - 1);
      if fuel >= 2 {
        ShadowedSource(rt, i, again, fuel);
      }
    }
  }

  lemma {:induction false} ShadowedRound(rt: Runtime, cn: Mangler, i: string, again: Expr, st: Store, fuel: nat)
    requires again == Let([Binding(i, Lit(Int(1)))], [Recur([Var(i)])]) && Declared(st, Looping) && cn(i).User?
    ensures CEval(rt, Cgc(cn, again, Some([i])), st, fuel) == Done((Nil, Update(st, Looping, Int(1))))
  {
    var id := cn(i);
    var mid := Scope(map[id := Some(Int(1))], st);
    var jump := Cgc(cn, Recur([Var(i)]), Some([i]));
    assert [Binding(i, Lit(Int(1)))][1..] == [];
    assert CgcLet(cn, [Binding(i, Lit(Int(1)))]) == [CDecl(id, CConst(Int(1)))];
    RunBlock(rt, id, CConst(Int(1)), Int(1), CExprStmt(jump), st, fuel);
    RecurFromOneVariable(rt, cn, i, mid, fuel);
  }

  lemma {:induction false} OneTemp(cn: Mangler, i: string)
    ensures RecurTemps(cn, [Var(i)], 0) == [CDecl(RecurTmp(0), CVar(cn(i)))]
  {
    assert [Var(i)][1..] == [];
    assert Cgc(cn, Var(i), None) == CVar(cn(i));
    assert RecurTemps(cn, [], 1) == [];
  }

  lemma {:induction false} OneAssign(cn: Mangler, i: string)
    ensures RecurAssigns(cn, [i], 0) == [CAssign(cn(i), CVar(RecurTmp(0)))]
  {
    assert [i][1..] == [];
    assert RecurAssigns(cn, [], 1) == [];
  }

  lemma {:induction false} RecurFromOneVariable(rt: Runtime, cn: Mangler, i: string, mid: Store, fuel: nat)
    requires mid.Scope? && mid.vars == map[cn(i) := Some(Int(1))] && Declared(mid.outer, Looping) && cn(i).User?
    ensures CEval(rt, Cgc(cn, Recur([Var(i)]), Some([i])), mid, fuel)
            == Done((Nil, Scope(mid.vars, Update(mid.outer, Looping, Int(1)))))
  {
    var id, inner := cn(i), Scope(map[], mid);
    var raise := [CAssign(Looping, CConst(Int(1))), CExprStmt(C_NIL)];
    var temp, assign := CDecl(RecurTmp(0), CVar(id)), CAssign(id, CVar(RecurTmp(0)));
    OneTemp(cn, i);
    OneAssign(cn, i);
    var held := Scope(map[][RecurTmp(0) := Some(Int(1))], mid);
    assert Lookup(mid, id) == Some(Int(1)) && Lookup(Scope(inner.vars[RecurTmp(0) := None], mid), id) == Some(Int(1));
    assert CEval(rt, CVar(id), Scope(inner.vars[RecurTmp(0) := None], mid), fuel)
           == Done((Int(1), Scope(inner.vars[RecurTmp(0) := None], mid)));
    DeclFirst(rt, RecurTmp(0), CVar(id), Done(Int(1)), [assign], raise, inner, fuel);
    assert TempsHold(held, 0, [Int(1)]);
    CorrectAssigns(rt, cn, [i], 0, [Int(1)], raise, held, fuel);
    assert AssignAll(cn, mid, [i], [Int(1)]) == Update(mid, id, Int(1)) == mid;
    RaiseFlag(rt, held, fuel);
  }

  lemma {:induction false} ShadowedSource(rt: Runtime, i: string, again: Expr, fuel: nat)
    requires again == Let([Binding(i, Lit(Int(1)))], [Recur([Var(i)])]) && fuel >= 2
    ensures EvalLoop(rt, Lazy, [i], If(Var(i), Var(i), Some(again)), map[i := Int(0)], fuel) == Done(Int(1))
  {
    var step := If(Var(i), Var(i), Some(again));
    var env0, env1 := map[i := Int(0)], map[i := Int(1)];
    assert EvalValue(rt, Lazy, Lit(Int(1)), env0, fuel - 1) == Done(Int(1));
    BindOne(rt, Lazy, i, Lit(Int(1)), Int(1), env0, fuel - 1);
    assert env0[i := Int(1)] == env1;
    assert EvalValue(rt, Lazy, Var(i), env1, fuel - 1) == Done(Int(1));
    assert [Var(i)][1..] == [] && [Int(1)] + [] == [Int(1)];
    assert EvalArgs(rt, Lazy, [Var(i)], env1, fuel - 1) == Done([Int(1)]);
    assert Eval(rt, Lazy, Recur([Var(i)]), env1, fuel - 1, true) == Done(Again([Int(1)]));
    BodyOne(rt, Lazy, Recur([Var(i)]), env1, fuel - 1, true, true);
    assert Eval(rt, Lazy, again, env0, fuel - 1, true) == Done(Again([Int(1)]));
    assert EvalValue(rt, Lazy, Var(i), env0, fuel - 1) == Done(Int(0));
    assert Eval(rt, Lazy, step, env0, fuel - 1, true) == Done(Again([Int(1)]));
    assert [i][1..] == [] && [Int(1)][1..] == [];
    assert Rebind(env0, [i], [Int(1)]) == env1;
    assert EvalValue(rt, Lazy, Var(i), env1, fuel - 2) == Done(Int(1));
    assert Eval(rt, Lazy, step, env1, fuel - 2, true) == Done(Val(Int(1)));
    assert EvalLoop(rt, Lazy, [i], step, env1, fuel - 1) == Done(Int(1));
  }

  // ---------- Names of the compiler ----------

  /** `(let [x 5] (loop [y 1] x))` for an x that C spells like the result of a loop: 5 in the source, nil in C. */
  lemma {:induction false} ResultIsTaken(rt: Runtime, cn: Mangler, x: string, y: string, st: Store, fuel: nat)
    requires cn(x) == Result && cn(y).User? && fuel > 0
    ensures var e := Let([Binding(x, Lit(Int(5)))], [Loop([Binding(y, Lit(Int(1)))], Var(x))]);
            EvalValue(rt, Lazy, e, map[], fuel) == Done(Int(5)) && CEval(rt, Cgc(cn, e, None), st, fuel) == Done((Nil, st))
  {
    var lp := Loop([Binding(y, Lit(Int(1)))], Var(x));
    var five := Scope(map[Result := Some(Int(5))], st);
    ResultSource(rt, x, y, fuel);
    BlockOne(cn, x, Lit(Int(5)), lp);
    RunBlock(rt, Result, CConst(Int(5)), Int(5), CExprStmt(Cgc(cn, lp, None)), st, fuel);
    LoopYieldsResult(rt, cn, x, y, five, fuel);
  }

  lemma {:induction false} ResultSource(rt: Runtime, x: string, y: string, fuel: nat)
    requires x != y && fuel > 0
    ensures var e := Let([Binding(x, Lit(Int(5)))], [Loop([Binding(y, Lit(Int(1)))], Var(x))]);
            EvalValue(rt, Lazy, e, map[], fuel) == Done(Int(5))
  {
    var lp, env := Loop([Binding(y, Lit(Int(1)))], Var(x)), map[x := Int(5)];
    BindOne(rt, Lazy, x, Lit(Int(5)), Int(5), map[], fuel);
    BindOne(rt, Lazy, y, Lit(Int(1)), Int(1), env, fuel);
    assert Eval(rt, Lazy, Var(x), env[y := Int(1)], fuel - 1, true) == Done(Val(Int(5)));
    assert EvalLoop(rt, Lazy, BindingNames([Binding(y, Lit(Int(1)))]), Var(x), env[y := Int(1)], fuel) == Done(Int(5));
    assert Eval(rt, Lazy, lp, env, fuel, false) == Done(Val(Int(5)));
    BodyOne(rt, Lazy, lp, env, fuel, false, false);
  }

  /** The loop reads its own result, which is still nil. */
  lemma {:induction false} LoopYieldsResult(rt: Runtime, cn: Mangler, x: string, y: string, st: Store, fuel: nat)
    requires cn(x) == Result && cn(y).User? && fuel > 0
    ensures CEval(rt, Cgc(cn, Loop([Binding(y, Lit(Int(1)))], Var(x)), None), st, fuel) == Done((Nil, st))
  {
    var w := CgcWhile(cn, Var(x), [y]);
    var run := [CDecl(Looping, CConst(Int(1))), CDecl(Result, C_NIL), w, CExprStmt(CVar(Result))];
    var vars := map[][LoopTmp(0) := Some(Int(1))][cn(y) := Some(Int(1))];
    var st1 := Scope(vars, st);
    var st2 := Scope(vars[Looping := Some(Int(1))][Result := Some(Nil)], st);
    var st3 := Scope(st2.vars[Looping := Some(Int(0))], st);
    OneRound(rt, cn, x, y, st2, fuel);
    RunLoop(rt, w, Done(Nil), st1, st3, fuel);
    OneLoopVar(cn, y);
    DeclPair(rt, LoopTmp(0), cn(y), CConst(Int(1)), Done(Int(1)), [], run, Scope(map[], st), fuel);
    assert [] + run == run && CgcLoopVars(cn, [Binding(y, Lit(Int(1)))], 0) + [] == CgcLoopVars(cn, [Binding(y, Lit(Int(1)))], 0);
    assert BindingNames([Binding(y, Lit(Int(1)))]) == [y];
  }

  lemma {:induction false} OneRound(rt: Runtime, cn: Mangler, x: string, y: string, st: Store, fuel: nat)
    requires cn(x) == Result && cn(y).User? && fuel > 0 && LoopScope(cn, st, [y])
    requires st.vars[Looping] == Some(Int(1)) && st.vars[Result] == Some(Nil)
    ensures CStep(rt, CgcWhile(cn, Var(x), [y]), st, fuel) == Done((None, Scope(st.vars[Looping := Some(Int(0))], st.outer)))
  {
    var low := Update(st, Looping, Int(0));
    var inner := Scope(map[], low);
    assert low == Scope(st.vars[Looping := Some(Int(0))], st.outer);
    assert Lookup(inner, Result) == Some(Nil);
    assert CEval(rt, CVar(Result), inner, fuel - 1) == Done((Nil, inner));
    WhileRound(rt, cn, [y], Var(x), Done(Val(Nil)), st, fuel);
    assert Update(low, Result, Nil).vars == low.vars;
  }

  lemma {:induction false} OneLoopVar(cn: Mangler, y: string)
    ensures CgcLoopVars(cn, [Binding(y, Lit(Int(1)))], 0) == [CDecl(LoopTmp(0), CConst(Int(1))), CDecl(cn(y), CVar(LoopTmp(0)))]
  {
    assert [Binding(y, Lit(Int(1)))][1..] == [];
    assert CgcLoopVars(cn, [], 2) == [];
  }

  /** `(let [t 7] (loop [a 0 b 0] (if a b (recur 1 t))))` for a t that C spells like the first temporary of a jump: 7 in
      the source, 1 in C. */
  lemma {:induction false} TempIsTaken(rt: Runtime, cn: Mangler, t: string, a: string, b: string, st: Store, fuel: nat)
    requires cn(t) == RecurTmp(0) && cn(a).User? && cn(b).User? && cn(a) != cn(b) && fuel > 1
    ensures var step := If(Var(a), Var(b), Some(Recur([Lit(Int(1)), Var(t)])));
            var e := Let([Binding(t, Lit(Int(7)))], [Loop([Binding(a, Lit(Int(0))), Binding(b, Lit(Int(0)))], step)]);
            EvalValue(rt, Lazy, e, map[], fuel) == Done(Int(7)) && CEval(rt, Cgc(cn, e, None), st, fuel) == Done((Int(1), st))
  {
    var step := If(Var(a), Var(b), Some(Recur([Lit(Int(1)), Var(t)])));
    var lp := Loop([Binding(a, Lit(Int(0))), Binding(b, Lit(Int(0)))], step);
    var seven := Scope(map[RecurTmp(0) := Some(Int(7))], st);
    TempSource(rt, t, a, b, fuel);
    BlockOne(cn, t, Lit(Int(7)), lp);
    RunBlock(rt, RecurTmp(0), CConst(Int(7)), Int(7), CExprStmt(Cgc(cn, lp, None)), st, fuel);
    LoopReadsTemp(rt, cn, t, a, b, seven, fuel);
  }

  lemma {:induction false} BindTwo(rt: Runtime, m: Mode, a: string, b: string, v: Value, env: Env, fuel: nat)
    ensures EvalBindings(rt, m, [Binding(a, Lit(v)), Binding(b, Lit(v))], env, fuel) == Done(env[a := v][b := v])
  {
    assert [Binding(a, Lit(v)), Binding(b, Lit(v))][1..] == [Binding(b, Lit(v))];
    assert EvalValue(rt, m, Lit(v), env, fuel) == Done(v);
    assert EvalValue(rt, m, Lit(v), env[a := v], fuel) == Done(v);
    BindOne(rt, m, b, Lit(v), v, env[a := v], fuel);
  }

  lemma {:induction false} TempRound(rt: Runtime, t: string, a: string, b: string, env: Env, fuel: nat)
    requires a in env && env[a] == Int(0) && t in env && env[t] == Int(7)
    ensures Eval(rt, Lazy, If(Var(a), Var(b), Some(Recur([Lit(Int(1)), Var(t)]))), env, fuel, true) == Done(Again([Int(1), Int(7)]))
  {
    var args := [Lit(Int(1)), Var(t)];
    assert args[1..] == [Var(t)] && [Var(t)][1..] == [] && [Int(7)] + [] == [Int(7)];
    assert Eval(rt, Lazy, Var(t), env, fuel, false) == Done(Val(Int(7)));
    assert EvalValue(rt, Lazy, Lit(Int(1)), env, fuel) == Done(Int(1));
    assert EvalValue(rt, Lazy, Var(t), env, fuel) == Done(Int(7));
    assert EvalArgs(rt, Lazy, [Var(t)], env, fuel) == Done([Int(7)]);
    assert [Int(1)] + [Int(7)] == [Int(1), Int(7)];
    assert EvalArgs(rt, Lazy, args, env, fuel) == Done([Int(1), Int(7)]);
    assert Eval(rt, Lazy, Recur(args), env, fuel, true) == Done(Again([Int(1), Int(7)]));
    assert Eval(rt, Lazy, Var(a), env, fuel, false) == Done(Val(Int(0)));
  }

  lemma {:induction false} RebindTwo(env: Env, a: string, b: string, v: Value, w: Value)
    ensures Rebind(env, [a, b], [v, w]) == env[a := v][b := w]
  {
    assert [a, b][1..] == [b] && [v, w][1..] == [w] && [b][1..] == [];
    assert Rebind(env[a := v], [b], [w]) == Rebind(env[a := v][b := w], [], []);
  }

  lemma {:induction false} TempSource(rt: Runtime, t: string, a: string, b: string, fuel: nat)
    requires t != a && t != b && a != b && fuel > 1
    ensures var step := If(Var(a), Var(b), Some(Recur([Lit(Int(1)), Var(t)])));
            var e := Let([Binding(t, Lit(Int(7)))], [Loop([Binding(a, Lit(Int(0))), Binding(b, Lit(Int(0)))], step)]);
            EvalValue(rt, Lazy, e, map[], fuel) == Done(Int(7))
  {
    var step := If(Var(a), Var(b), Some(Recur([Lit(Int(1)), Var(t)])));
    var bs := [Binding(a, Lit(Int(0))), Binding(b, Lit(Int(0)))];
    var env := map[t := Int(7)];
    BindOne(rt, Lazy, t, Lit(Int(7)), Int(7), map[], fuel);
    BodyOne(rt, Lazy, Loop(bs, step), env, fuel, false, false);
    TempLoop(rt, t, a, b, env, fuel);
  }

  lemma {:induction false} TempLoop(rt: Runtime, t: string, a: string, b: string, env: Env, fuel: nat)
    requires t != a && t != b && a != b && t in env && env[t] == Int(7) && fuel > 1
    ensures Eval(rt, Lazy, Loop([Binding(a, Lit(Int(0))), Binding(b, Lit(Int(0)))],
                                If(Var(a), Var(b), Some(Recur([Lit(Int(1)), Var(t)])))), env, fuel, false) == Done(Val(Int(7)))
  {
    BindTwo(rt, Lazy, a, b, Int(0), env, fuel);
    TempRounds(rt, t, a, b, env[a := Int(0)][b := Int(0)], fuel);
    assert BindingNames([Binding(a, Lit(Int(0))), Binding(b, Lit(Int(0)))]) == [a, b];
  }

  lemma {:induction false} TempRounds(rt: Runtime, t: string, a: string, b: string, env: Env, fuel: nat)
    requires a != b && a in env && env[a] == Int(0) && t in env && env[t] == Int(7) && fuel > 1
    ensures EvalLoop(rt, Lazy, [a, b], If(Var(a), Var(b), Some(Recur([Lit(Int(1)), Var(t)]))), env, fuel) == Done(Int(7))
  {
    var step := If(Var(a), Var(b), Some(Recur([Lit(Int(1)), Var(t)])));
    var env1 := env[a := Int(1)][b := Int(7)];
    TempRound(rt, t, a, b, env, fuel - 1);
    RebindTwo(env, a, b, Int(1), Int(7));
    LastRound(rt, a, b, env1, [Lit(Int(1)), Var(t)], fuel - 1);
  }

  lemma {:induction false} LastRound(rt: Runtime, a: string, b: string, env: Env, again: seq<Expr>, fuel: nat)
    requires a in env && env[a] == Int(1) && b in env && env[b] == Int(7) && fuel > 0
    ensures EvalLoop(rt, Lazy, [a, b], If(Var(a), Var(b), Some(Recur(again))), env, fuel) == Done(Int(7))
  {
    assert Eval(rt, Lazy, Var(a), env, fuel - 1, false) == Done(Val(Int(1)));
    assert Eval(rt, Lazy, Var(b), env, fuel - 1, true) == Done(Val(Int(7)));
    assert Eval(rt, Lazy, If(Var(a), Var(b), Some(Recur(again))), env, fuel - 1, true) == Done(Val(Int(7)));
  }

  /** `FLValue _fl_t0 = 1; FLValue _fl_t1 = _fl_t0;`: both temporaries are 1. */
  lemma {:induction false} JumpReadsTemp(rt: Runtime, cn: Mangler, t: string, a: string, b: string, st: Store, fuel: nat)
    requires cn(t) == RecurTmp(0) && cn(a).User? && cn(b).User?
    requires Declared(st, cn(a)) && Declared(st, cn(b)) && Declared(st, Looping)
    ensures CEval(rt, Cgc(cn, Recur([Lit(Int(1)), Var(t)]), Some([a, b])), st, fuel)
            == Done((Nil, Jumped(cn, st, [a, b], [Int(1), Int(1)])))
  {
    var raise := [CAssign(Looping, CConst(Int(1))), CExprStmt(C_NIL)];
    var assigns := RecurAssigns(cn, [a, b], 0);
    var held := Scope(map[][RecurTmp(0) := Some(Int(1))][RecurTmp(1) := Some(Int(1))], st);
    TwoTemps(cn, t);
    RunTemps(rt, assigns, raise, st, fuel);
    assert TempsHold(held, 0, [Int(1), Int(1)]);
    CorrectAssigns(rt, cn, [a, b], 0, [Int(1), Int(1)], raise, held, fuel);
    AssignAllDeclared(cn, st, [a, b], [Int(1), Int(1)], Looping);
    RaiseFlag(rt, Scope(held.vars, AssignAll(cn, st, [a, b], [Int(1), Int(1)])), fuel);
  }

  lemma {:induction false} RunTemps(rt: Runtime, more: seq<CStmt>, rest: seq<CStmt>, st: Store, fuel: nat)
    requires |rest| > 0
    ensures CExec(rt, [CDecl(RecurTmp(0), CConst(Int(1))), CDecl(RecurTmp(1), CVar(RecurTmp(0)))] + more + rest, Scope(map[], st), fuel)
            == CExec(rt, more + rest, Scope(map[][RecurTmp(0) := Some(Int(1))][RecurTmp(1) := Some(Int(1))], st), fuel)
  {
    var first, second := CDecl(RecurTmp(0), CConst(Int(1))), CDecl(RecurTmp(1), CVar(RecurTmp(0)));
    assert [first, second] + more + rest == [first] + ([second] + more) + rest;
    DeclFirst(rt, RecurTmp(0), CConst(Int(1)), Done(Int(1)), [second] + more, rest, Scope(map[], st), fuel);
    DeclFirst(rt, RecurTmp(1), CVar(RecurTmp(0)), Done(Int(1)), more, rest, Scope(map[][RecurTmp(0) := Some(Int(1))], st), fuel);
  }

  lemma {:induction false} TwoTemps(cn: Mangler, t: string)
    requires cn(t) == RecurTmp(0)
    ensures RecurTemps(cn, [Lit(Int(1)), Var(t)], 0) == [CDecl(RecurTmp(0), CConst(Int(1))), CDecl(RecurTmp(1), CVar(RecurTmp(0)))]
  {
    assert [Lit(Int(1)), Var(t)][1..] == [Var(t)] && [Var(t)][1..] == [];
    assert RecurTemps(cn, [], 2) == [];
    assert RecurTemps(cn, [Var(t)], 1) == [CDecl(RecurTmp(1), CVar(RecurTmp(0)))];
  }

  lemma {:induction false} AssignTwo(cn: Mangler, st: Store, a: string, b: string, v: Value, w: Value)
    ensures AssignAll(cn, st, [a, b], [v, w]) == Update(Update(st, cn(a), v), cn(b), w)
  {
    assert [a, b][1..] == [b] && [v, w][1..] == [w] && [b][1..] == [];
    var one := Update(st, cn(a), v);
    assert AssignAll(cn, one, [b], [w]) == AssignAll(cn, Update(one, cn(b), w), [], []);
  }

  /** The scope of the loop: a and b hold `v`, the result is nil, and the flag is up. */
  function Round(ta: Id, tb: Id, v: int, st: Store): Store {
    Scope(map[][LoopTmp(0) := Some(Int(0))][ta := Some(Int(v))][LoopTmp(2) := Some(Int(0))][tb := Some(Int(v))]
          [Looping := Some(Int(1))][Result := Some(Nil)], st)
  }

  lemma {:induction false} LoopReadsTemp(rt: Runtime, cn: Mangler, t: string, a: string, b: string, st: Store, fuel: nat)
    requires cn(t) == RecurTmp(0) && cn(a).User? && cn(b).User? && cn(a) != cn(b) && fuel > 1
    ensures var step := If(Var(a), Var(b), Some(Recur([Lit(Int(1)), Var(t)])));
            CEval(rt, Cgc(cn, Loop([Binding(a, Lit(Int(0))), Binding(b, Lit(Int(0)))], step), None), st, fuel) == Done((Int(1), st))
  {
    var step := If(Var(a), Var(b), Some(Recur([Lit(Int(1)), Var(t)])));
    var bs := [Binding(a, Lit(Int(0))), Binding(b, Lit(Int(0)))];
    var w := CgcWhile(cn, step, [a, b]);
    var run := [CDecl(Looping, CConst(Int(1))), CDecl(Result, C_NIL), w, CExprStmt(CVar(Result))];
    var vars := map[][LoopTmp(0) := Some(Int(0))][cn(a) := Some(Int(0))][LoopTmp(2) := Some(Int(0))][cn(b) := Some(Int(0))];
    FirstRound(rt, cn, t, a, b, st, fuel);
    SecondRound(rt, cn, t, a, b, st, fuel - 1);
    var st3 := Update(Update(Round(cn(a), cn(b), 1, st), Looping, Int(0)), Result, Int(1));
    LookupUpdate(Update(Round(cn(a), cn(b), 1, st), Looping, Int(0)), Result, Int(1), Result);
    RunLoop(rt, w, Done(Int(1)), Scope(vars, st), st3, fuel);
    TwoLoopVars(rt, cn, a, b, run, st, fuel);
    assert BindingNames(bs) == [a, b];
  }

  lemma {:induction false} TwoLoopVars(rt: Runtime, cn: Mangler, a: string, b: string, run: seq<CStmt>, st: Store, fuel: nat)
    requires cn(a).User? && cn(b).User? && cn(a) != cn(b) && |run| > 0
    ensures CExec(rt, CgcLoopVars(cn, [Binding(a, Lit(Int(0))), Binding(b, Lit(Int(0)))], 0) + run, Scope(map[], st), fuel)
            == CExec(rt, run, Scope(map[][LoopTmp(0) := Some(Int(0))][cn(a) := Some(Int(0))][LoopTmp(2) := Some(Int(0))]
                                    [cn(b) := Some(Int(0))], st), fuel)
  {
    var bs := [Binding(a, Lit(Int(0))), Binding(b, Lit(Int(0)))];
    assert bs[1..] == [Binding(b, Lit(Int(0)))] && bs[1..][1..] == [];
    var zero := CConst(Int(0));
    var second := [CDecl(LoopTmp(2), zero), CDecl(cn(b), CVar(LoopTmp(2)))];
    assert CgcLoopVars(cn, [], 4) == [];
    assert CgcLoopVars(cn, bs[1..], 2) == second + [] == second;
    DeclPair(rt, LoopTmp(0), cn(a), zero, Done(Int(0)), second, run, Scope(map[], st), fuel);
    var st1 := Scope(map[][LoopTmp(0) := Some(Int(0))][cn(a) := Some(Int(0))], st);
    DeclPair(rt, LoopTmp(2), cn(b), zero, Done(Int(0)), [], run, st1, fuel);
    assert [] + run == run && second + [] + run == second + run;
  }

  /** a is 0: the jump makes both variables 1. */
  lemma {:induction false} FirstRound(rt: Runtime, cn: Mangler, t: string, a: string, b: string, st: Store, fuel: nat)
    requires cn(t) == RecurTmp(0) && cn(a).User? && cn(b).User? && cn(a) != cn(b) && fuel > 0
    ensures var w := CgcWhile(cn, If(Var(a), Var(b), Some(Recur([Lit(Int(1)), Var(t)]))), [a, b]);
            CStep(rt, w, Round(cn(a), cn(b), 0, st), fuel) == CStep(rt, w, Round(cn(a), cn(b), 1, st), fuel - 1)
  {
    var step := If(Var(a), Var(b), Some(Recur([Lit(Int(1)), Var(t)])));
    var now := Round(cn(a), cn(b), 0, st);
    var low := Update(now, Looping, Int(0));
    assert low == Scope(now.vars[Looping := Some(Int(0))], st);
    var inner := Scope(map[], low);
    var vs := [Int(1), Int(1)];
    assert Lookup(inner, cn(a)) == Some(Int(0));
    assert CEval(rt, CVar(cn(a)), inner, fuel - 1) == Done((Int(0), inner));
    JumpReadsTemp(rt, cn, t, a, b, inner, fuel - 1);
    WhileRound(rt, cn, [a, b], step, Done(Again(vs)), now, fuel);
    AssignTwo(cn, low, a, b, Int(1), Int(1));
    var next := Update(Jumped(cn, low, [a, b], vs), Result, Nil);
    assert next.vars == Round(cn(a), cn(b), 1, st).vars;
  }

  /** a is 1: the loop ends with b, which is 1. */
  lemma {:induction false} SecondRound(rt: Runtime, cn: Mangler, t: string, a: string, b: string, st: Store, fuel: nat)
    requires cn(a).User? && cn(b).User? && cn(a) != cn(b) && fuel > 0
    ensures var w := CgcWhile(cn, If(Var(a), Var(b), Some(Recur([Lit(Int(1)), Var(t)]))), [a, b]);
            var now := Round(cn(a), cn(b), 1, st);
            CStep(rt, w, now, fuel) == Done((None, Update(Update(now, Looping, Int(0)), Result, Int(1))))
  {
    var step := If(Var(a), Var(b), Some(Recur([Lit(Int(1)), Var(t)])));
    var now := Round(cn(a), cn(b), 1, st);
    var low := Scope(now.vars[Looping := Some(Int(0))], st);
    var inner := Scope(map[], low);
    assert Update(now, Looping, Int(0)) == low;
    assert Lookup(low, cn(a)) == Some(Int(1)) && Lookup(low, cn(b)) == Some(Int(1));
    assert Lookup(inner, cn(a)) == Some(Int(1)) && Lookup(inner, cn(b)) == Some(Int(1));
    assert CEval(rt, CVar(cn(a)), inner, fuel - 1) == Done((Int(1), inner));
    assert CEval(rt, CVar(cn(b)), inner, fuel - 1) == Done((Int(1), inner));
    WhileRound(rt, cn, [a, b], step, Done(Val(Int(1))), now, fuel);
  }

  /** The names the compiler makes up are names a program may use, and keep their spelling: such programs exist. */
  lemma {:induction false} OwnNameStays(x: Id)
    requires !x.User?
    ensures NameId(Spelling(x)) == x
  {
    OwnNameIsPlain(x);
    PlainNameStays(Spelling(x));
    IdOfOwnSpelling(x);
  }

  lemma {:induction false} OwnNameIsPlain(x: Id)
    requires !x.User?
    ensures Plain(Spelling(x)) && Spelling(x) != "" && Spelling(x)[0] == '_'
  {
    match x
    case LoopTmp(n) => ValueOfPrinted(n);
    case RecurTmp(n) => ValueOfPrinted(n);
    case Looping =>
    case Result =>
  }
}
