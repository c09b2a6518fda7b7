/** What compiling keeps of a program's meaning: the results about the compiler as a whole. */
module CompilerTheorem {
  import opened FLValue
  import opened Wrappers
  import opened CNames
  import opened Compiler
  import opened CompilerCorrectness
  import opened CompilerModes
  import opened CompilerSteady
  import opened CompilerNames

  lemma {:induction false} SpelledMangles(names: set<string>, globals: set<string>)
    requires Spelled(names, globals)
    ensures Mangles(NameId, names)
  {
    forall x, y | x in names && y in names && NameId(x) == NameId(y)
      ensures x == y
    {
      SpellingOfId(CName(x));
      SpellingOfId(CName(y));
    }
  }

  /** With the repository's own names, at every number of loop rounds. The emitted C does exactly what the source does
      when all operands run, and leaves every C variable as it was. If C has a value and the source has one, it is the
      same. If the checked run is steady, they agree whatever happens: value, throw or divergence. Where the source has
      a value, the two agree if and only if the checked run is steady. And the C declares nothing that hides what it
      calls. */
  lemma {:induction false} CompilationPreservesMeaning(rt: Runtime, e: Expr, env: Env, names: set<string>, globals: set<string>,
                                                       st: Store, fuel: nat)
    requires Spelled(names, globals) && Calls(e, globals)
    requires env.Keys <= names && OK(e, env.Keys, names, None) && Fits(NameId, st, env, env.Keys)
    ensures var c, source := CEval(rt, Cgc(NameId, e, None), st, fuel), EvalValue(rt, Lazy, e, env, fuel);
            var steady := EvalValue(rt, Checked, e, env, fuel) != Unsteady;
            c == Lift(EvalValue(rt, Emitted, e, env, fuel), st)
            && (c.Done? && source.Done? ==> c == Lift(source, st))
            && (steady ==> c == Lift(source, st))
            && (source.Done? ==> (c == Lift(source, st) <==> steady))
            && (c.Done? && Uncut(e, false) ==> c == Lift(source, st))
    ensures Clear(Cgc(NameId, e, None), globals)
  {
    SpelledMangles(names, globals);
    CorrectValue(rt, NameId, e, env, env.Keys, names, st, fuel);
    ModesValue(rt, e, env, fuel);
    EmittedIsClear(e, env.Keys, names, globals, None);
  }

  /** A condition on the program text alone: later operands of `and` and `or`, and what a `let` in tail position of a
      loop holds before its last expression, are total. */
  lemma {:induction false} QuietProgramsKeepTheirMeaning(rt: Runtime, e: Expr, env: Env, names: set<string>, globals: set<string>,
                                                         st: Store, fuel: nat)
    requires RuntimeTotal(rt) && Quiet(e, env.Keys, false) && Spelled(names, globals) && Calls(e, globals)
    requires env.Keys <= names && OK(e, env.Keys, names, None) && Fits(NameId, st, env, env.Keys)
    ensures CEval(rt, Cgc(NameId, e, None), st, fuel) == Lift(EvalValue(rt, Lazy, e, env, fuel), st)
  {
    QuietIsSteady(rt, e, env.Keys, env, fuel, false);
    CompilationPreservesMeaning(rt, e, env, names, globals, st, fuel);
  }

  // ---------- and, or ----------

  ghost predicate AllHaveValues(rt: Runtime, args: seq<Expr>, env: Env, fuel: nat) {
    forall i | 0 <= i < |args| :: EvalValue(rt, Emitted, args[i], env, fuel).Done?
  }

  lemma {:induction false} RunsAll(rt: Runtime, args: seq<Expr>, env: Env, fuel: nat)
    ensures EvalArgs(rt, Emitted, args, env, fuel).Done? <==> AllHaveValues(rt, args, env, fuel)
    ensures EvalAnd(rt, Emitted, args, env, fuel).Done? <==> EvalArgs(rt, Emitted, args, env, fuel).Done?
    ensures EvalOr(rt, Emitted, args, env, fuel).Done? <==> EvalArgs(rt, Emitted, args, env, fuel).Done?
    decreases |args|
  {
    if args != [] {
      RunsAll(rt, args[1..], env, fuel);
      AllCons(rt, args, env, fuel);
    }
  }

  lemma {:induction false} AllCons(rt: Runtime, args: seq<Expr>, env: Env, fuel: nat)
    requires args != []
    ensures AllHaveValues(rt, args, env, fuel)
            <==> EvalValue(rt, Emitted, args[0], env, fuel).Done? && AllHaveValues(rt, args[1..], env, fuel)
  {
    assert forall i | 1 <= i < |args| :: args[i] == args[1..][i - 1];
    assert forall i | 0 <= i < |args| - 1 :: args[1..][i] == args[i + 1];
  }

  /** Where the source `and` has a value, the emitted fold agrees if and only if every operand has one, the skipped
      ones included. */
  lemma {:induction false} AndAgreesExactly(rt: Runtime, cn: Mangler, args: seq<Expr>, env: Env, scope: set<string>, names: set<string>,
                                            st: Store, fuel: nat)
    requires Setup(rt, cn, env, scope, names, st) && OKArgs(args, scope, names) && EvalAnd(rt, Lazy, args, env, fuel).Done?
    ensures CEval(rt, Cgc(cn, And(args), None), st, fuel) == Lift(EvalAnd(rt, Lazy, args, env, fuel), st)
            <==> AllHaveValues(rt, args, env, fuel)
  {
    CorrectAnd(rt, cn, args, env, scope, names, st, fuel);
    ModesAnd(rt, args, env, fuel);
    RunsAll(rt, args, env, fuel);
  }

  /** The same of `or`. */
  lemma {:induction false} OrAgreesExactly(rt: Runtime, cn: Mangler, args: seq<Expr>, env: Env, scope: set<string>, names: set<string>,
                                           st: Store, fuel: nat)
    requires Setup(rt, cn, env, scope, names, st) && OKArgs(args, scope, names) && EvalOr(rt, Lazy, args, env, fuel).Done?
    ensures CEval(rt, Cgc(cn, Or(args), None), st, fuel) == Lift(EvalOr(rt, Lazy, args, env, fuel), st)
            <==> AllHaveValues(rt, args, env, fuel)
  {
    CorrectOr(rt, cn, args, env, scope, names, st, fuel);
    ModesOr(rt, args, env, fuel);
    RunsAll(rt, args, env, fuel);
  }
}
