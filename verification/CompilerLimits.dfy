/** What the emitted C demands of the names of a program, whatever the program computes. */
module CompilerLimits {
  import opened FLValue
  import opened Wrappers
  import opened CNames
  import opened Compiler

  /** The same variables are declared, scope by scope. */
  ghost predicate SameNames(a: Store, b: Store) {
    match (a, b)
    case (Global, Global) => true
    case (Scope(vars, outer), Scope(vars', outer')) => vars.Keys == vars'.Keys && SameNames(outer, outer')
    case _ => false
  }

  /** Only the innermost scope has gained variables. */
  ghost predicate Grown(a: Store, b: Store) {
    match (a, b)
    case (Global, Global) => true
    case (Scope(vars, outer), Scope(vars', outer')) => vars.Keys <= vars'.Keys && SameNames(outer, outer')
    case _ => false
  }

  lemma {:induction false} SameReflexive(a: Store)
    ensures SameNames(a, a)
  {
    if a.Scope? {
      SameReflexive(a.outer);
    }
  }

  lemma {:induction false} SameTransitive(a: Store, b: Store, c: Store)
    requires SameNames(a, b) && SameNames(b, c)
    ensures SameNames(a, c)
  {
    if a.Scope? {
      SameTransitive(a.outer, b.outer, c.outer);
    }
  }

  lemma {:induction false} UpdateSame(st: Store, x: Id, v: Value)
    ensures SameNames(st, Update(st, x, v))
  {
    if st.Scope? {
      SameReflexive(st.outer);
      UpdateSame(st.outer, x, v);
    }
  }

  lemma {:induction false} GrownThenGrown(a: Store, b: Store, c: Store)
    requires Grown(a, b) && Grown(b, c)
    ensures Grown(a, c)
  {
    if a.Scope? {
      SameTransitive(a.outer, b.outer, c.outer);
    }
  }

  lemma {:induction false} EvalKeeps(rt: Runtime, e: CExpr, st: Store, fuel: nat)
    ensures var r := CEval(rt, e, st, fuel); r.Done? ==> SameNames(st, r.value.1)
    decreases fuel, e, 0
  {
    SameReflexive(st);
    match e
    case CConst(_) =>
    case CVar(_) =>
    case CCall(_, args) =>
      ArgsKeep(rt, args, st, fuel);
    case CTernary(test, thn, els) =>
      EvalKeeps(rt, test, st, fuel);
      var r := CEval(rt, test, st, fuel);
      if r.Done? {
        var branch := if Truthy(r.value.0) then thn else els;
        EvalKeeps(rt, branch, r.value.1, fuel);
        var s := CEval(rt, branch, r.value.1, fuel);
        if s.Done? {
          SameTransitive(st, r.value.1, s.value.1);
        }
      }
    case CBlock(stmts) =>
      ExecGrows(rt, stmts, Scope(map[], st), fuel);
  }

  lemma {:induction false} ArgsKeep(rt: Runtime, es: seq<CExpr>, st: Store, fuel: nat)
    ensures var r := CEvalArgs(rt, es, st, fuel); r.Done? ==> SameNames(st, r.value.1)
    decreases fuel, es, 0
  {
    SameReflexive(st);
    if es != [] {
      EvalKeeps(rt, es[0], st, fuel);
      var r := CEval(rt, es[0], st, fuel);
      if r.Done? {
        ArgsKeep(rt, es[1..], r.value.1, fuel);
        var s := CEvalArgs(rt, es[1..], r.value.1, fuel);
        if s.Done? {
          SameTransitive(st, r.value.1, s.value.1);
        }
      }
    }
  }

  lemma {:induction false} StepGrows(rt: Runtime, s: CStmt, st: Store, fuel: nat)
    ensures
      var r := CStep(rt, s, st, fuel);
      r.Done? ==> Grown(st, r.value.1)
                  && (s.CDecl? ==> st.Scope? && s.x !in st.vars && s.x in r.value.1.vars)
    decreases fuel, s, 1
  {
    SameReflexive(st);
    match s
    case CDecl(x, init) =>
      if st.Scope? && x !in st.vars {
        var st0 := Scope(st.vars[x := None], st.outer);
        EvalKeeps(rt, init, st0, fuel);
        var r := CEval(rt, init, st0, fuel);
        if r.Done? {
          UpdateSame(r.value.1, x, r.value.0);
          SameTransitive(st0, r.value.1, Update(r.value.1, x, r.value.0));
        }
      }
    case CAssign(x, rhs) =>
      EvalKeeps(rt, rhs, st, fuel);
      var r := CEval(rt, rhs, st, fuel);
      if r.Done? {
        UpdateSame(r.value.1, x, r.value.0);
        SameTransitive(st, r.value.1, Update(r.value.1, x, r.value.0));
      }
    case CExprStmt(e) =>
      EvalKeeps(rt, e, st, fuel);
    case CWhile(flag, stmts) =>
      if fuel > 0 {
        ExecGrows(rt, stmts, Scope(map[], st), fuel - 1);
        var r := CExec(rt, stmts, Scope(map[], st), fuel - 1);
        if r.Done? && r.value.1.Scope? {
          StepGrows(rt, s, r.value.1.outer, fuel - 1);
          var t := CStep(rt, s, r.value.1.outer, fuel - 1);
          if t.Done? {
            SameGrown(st, r.value.1.outer, t.value.1);
          }
        }
      }
  }

  lemma {:induction false} SameGrown(a: Store, b: Store, c: Store)
    requires SameNames(a, b) && Grown(b, c)
    ensures Grown(a, c)
  {
    if a.Scope? {
      SameTransitive(a.outer, b.outer, c.outer);
    }
  }

  lemma {:induction false} ExecGrows(rt: Runtime, stmts: seq<CStmt>, st: Store, fuel: nat)
    ensures var r := CExec(rt, stmts, st, fuel); r.Done? ==> Grown(st, r.value.1)
    decreases fuel, stmts, 0
  {
    SameReflexive(st);
    if stmts != [] {
      StepGrows(rt, stmts[0], st, fuel);
      var r := CStep(rt, stmts[0], st, fuel);
      if r.Done? {
        ExecGrows(rt, stmts[1..], r.value.1, fuel);
        var s := CExec(rt, stmts[1..], r.value.1, fuel);
        if s.Done? {
          GrownThenGrown(st, r.value.1, s.value.1);
        }
      }
    }
  }

  ghost predicate New(stmts: seq<CStmt>, st: Store) {
    forall i | 0 <= i < |stmts| :: stmts[i].CDecl? ==> st.Scope? && stmts[i].x !in st.vars
  }

  ghost predicate Distinct(stmts: seq<CStmt>) {
    forall i, j | 0 <= i < j < |stmts| :: stmts[i].CDecl? && stmts[j].CDecl? ==> stmts[i].x != stmts[j].x
  }

  /** Statements that run to their end declare each variable once, and none that the scope had. */
  lemma {:induction false} DeclaresOnce(rt: Runtime, stmts: seq<CStmt>, st: Store, fuel: nat)
    requires CExec(rt, stmts, st, fuel).Done?
    ensures New(stmts, st) && Distinct(stmts)
    decreases |stmts|
  {
    if stmts != [] {
      StepGrows(rt, stmts[0], st, fuel);
      var st1 := CStep(rt, stmts[0], st, fuel).value.1;
      var rest := stmts[1..];
      if rest != [] {
        DeclaresOnce(rt, rest, st1, fuel);
      }
      assert forall i | 1 <= i < |stmts| :: stmts[i] == rest[i - 1];
    }
  }

  /** No two of the names share a C spelling; in particular none occurs twice. */
  ghost predicate Apart(cn: Mangler, bindings: seq<Binding>) {
    forall i, j | 0 <= i < j < |bindings| :: cn(bindings[i].name) != cn(bindings[j].name)
  }

  lemma {:induction false} LetDecl(cn: Mangler, bindings: seq<Binding>, i: nat)
    requires i < |bindings|
    ensures
      var stmts := CgcLet(cn, bindings);
      |stmts| == |bindings| && stmts[i].CDecl? && stmts[i].x == cn(bindings[i].name)
    decreases |bindings|
  {
    if i > 0 {
      LetDecl(cn, bindings[1..], i - 1);
    } else if |bindings| > 1 {
      LetDecl(cn, bindings[1..], 0);
    }
  }

  /** A `let` whose C has a value at all has names with pairwise different C spellings. */
  lemma {:induction false} LetNeedsApart(rt: Runtime, cn: Mangler, bindings: seq<Binding>, body: seq<Expr>, wr: Option<seq<string>>,
                                         st: Store, fuel: nat)
    requires CEval(rt, Cgc(cn, Let(bindings, body), wr), st, fuel).Done?
    ensures Apart(cn, bindings)
  {
    var stmts := Cgc(cn, Let(bindings, body), wr).stmts;
    DeclaresOnce(rt, stmts, Scope(map[], st), fuel);
    forall i, j | 0 <= i < j < |bindings|
      ensures cn(bindings[i].name) != cn(bindings[j].name)
    {
      LetDecl(cn, bindings, i);
      LetDecl(cn, bindings, j);
      assert stmts[i].CDecl? && stmts[j].CDecl?;
    }
  }

  lemma {:induction false} LoopDecl(cn: Mangler, bindings: seq<Binding>, n: nat, i: nat)
    requires i < |bindings|
    ensures
      var stmts := CgcLoopVars(cn, bindings, n);
      |stmts| == 2 * |bindings| && stmts[2 * i + 1].CDecl? && stmts[2 * i + 1].x == cn(bindings[i].name)
    decreases |bindings|
  {
    if i > 0 {
      LoopDecl(cn, bindings[1..], n + 2, i - 1);
    } else if |bindings| > 1 {
      LoopDecl(cn, bindings[1..], n + 2, 0);
    }
  }

  /** The same of the variables of a `loop`. */
  lemma {:induction false} LoopNeedsApart(rt: Runtime, cn: Mangler, bindings: seq<Binding>, step: Expr, wr: Option<seq<string>>,
                                          st: Store, fuel: nat)
    requires CEval(rt, Cgc(cn, Loop(bindings, step), wr), st, fuel).Done?
    ensures Apart(cn, bindings)
  {
    var stmts := Cgc(cn, Loop(bindings, step), wr).stmts;
    DeclaresOnce(rt, stmts, Scope(map[], st), fuel);
    forall i, j | 0 <= i < j < |bindings|
      ensures cn(bindings[i].name) != cn(bindings[j].name)
    {
      LoopDecl(cn, bindings, 0, i);
      LoopDecl(cn, bindings, 0, j);
      assert stmts[2 * i + 1].CDecl? && stmts[2 * j + 1].CDecl?;
    }
  }
}
