/** The compiled arithmetic against the runtime functions it stands in for, `fl_add` and `fl_mul`. */
module JitRuntime {
  import opened Bytes
  import opened Jit

  /** A tagged value as the machine sees it. */
  datatype Arg = Arg(tag: nat, word: nat)

  /** What `fl_add` and `fl_mul` make of two values: an integer, a signed overflow (undefined in C), or, when not both are
      integers, something else: a float, a string or an error. */
  datatype Result = Integer(word: nat) | Overflow | NotIntegers

  function OnIntegers(a: Arg, b: Arg, n: int): Result {
    if a.tag != FL_INT || b.tag != FL_INT then NotIntegers
    else if IsInt64(n) then Integer(Word(n))
    else Overflow
  }

  function FlAdd(a: Arg, b: Arg): Result {
    OnIntegers(a, b, Signed(a.word) + Signed(b.word))
  }

  function FlMul(a: Arg, b: Arg): Result {
    OnIntegers(a, b, Signed(a.word) * Signed(b.word))
  }

  /** The code returns the integer the function returns, wraps around where that overflows, and leaves everything else
      to the fallback. */
  ghost predicate StandsInFor(out: Outcome, f: Result, n: int, fallback: nat, r: Regs) {
    match f
    case Integer(w) => out == Returned(FL_INT, w) && Signed(w) == n
    case Overflow => out == Returned(FL_INT, Word(n)) && Signed(Word(n)) != n
    case NotIntegers => out == LeftWithArguments(fallback, r)
  }

  lemma {:induction false} AddTwoIsFlAdd(fallback: nat, r: Regs, mem: Memory, a: Arg, b: Arg, steps: nat)
    requires fallback < U64 && steps >= 11 && Passed(mem, r.rdx, a.tag, a.word) && Passed(mem, r.rdx + 16, b.tag, b.word)
    ensures StandsInFor(Run(Assemble(AddTwoProgram(fallback)), 0, r, mem, steps), FlAdd(a, b),
                        Signed(a.word) + Signed(b.word), fallback, r)
  {
    AddTwoRuns(fallback, r, mem, a.tag, a.word, b.tag, b.word, steps);
    NoOverflowIsExact(Signed(a.word) + Signed(b.word));
  }

  lemma {:induction false} AddConstIsFlAdd(n: int, fallback: nat, r: Regs, mem: Memory, a: Arg, steps: nat)
    requires IsInt64(n) && fallback < U64 && steps >= 8 && Passed(mem, r.rdx, a.tag, a.word)
    ensures StandsInFor(Run(Assemble(AddConstProgram(n, fallback)), 0, r, mem, steps), FlAdd(a, Arg(FL_INT, Word(n))),
                        Signed(a.word) + n, fallback, r)
  {
    AddConstRuns(n, fallback, r, mem, a.tag, a.word, steps);
    NoOverflowIsExact(n);
    NoOverflowIsExact(Signed(a.word) + n);
  }

  lemma {:induction false} MulConstIsFlMul(n: int, fallback: nat, r: Regs, mem: Memory, a: Arg, steps: nat)
    requires -0x8000_0000 <= n < 0x8000_0000 && fallback < U64 && steps >= 7 && Passed(mem, r.rdx, a.tag, a.word)
    ensures StandsInFor(Run(Assemble(MulConstProgram(n, fallback)), 0, r, mem, steps), FlMul(a, Arg(FL_INT, Word(n))),
                        Signed(a.word) * n, fallback, r)
  {
    MulConstRuns(n, fallback, r, mem, a.tag, a.word, steps);
    NoOverflowIsExact(n);
    NoOverflowIsExact(Signed(a.word) * n);
  }

  // ---------- The whole closure ----------

  /** What a call comes to: a tagged value, or anything else, such as an error that is thrown. */
  datatype Answer = Value(tag: int, word: int) | Other

  /** The function the code was compiled from, whatever it does with floats, strings and the rest. */
  type Original = (Arg, Arg) -> Answer

  /** It is the runtime function wherever that gives an integer. */
  ghost predicate Computes(f: Original, runtime: (Arg, Arg) -> Result) {
    forall a, b {:trigger f(a, b)} | runtime(a, b).Integer? :: f(a, b) == Value(FL_INT, runtime(a, b).word)
  }

  /** The code's own answer, or that of the function it leaves to, which finds its arguments as they came. */
  function Answered(out: Outcome, fallback: nat, r: Regs, original: Answer): Answer {
    if out.Returned? then Value(out.tag, out.payload) else if out == LeftWithArguments(fallback, r) then original else Other
  }

  /** Compiled or not, a call has the same answer on all values, except where C leaves the sum undefined. */
  lemma {:induction false} AddTwoKeepsAnswers(f: Original, fallback: nat, r: Regs, mem: Memory, a: Arg, b: Arg, steps: nat)
    requires Computes(f, FlAdd) && FlAdd(a, b) != Overflow
    requires fallback < U64 && steps >= 11 && Passed(mem, r.rdx, a.tag, a.word) && Passed(mem, r.rdx + 16, b.tag, b.word)
    ensures Answered(Run(Assemble(AddTwoProgram(fallback)), 0, r, mem, steps), fallback, r, f(a, b)) == f(a, b)
  {
    AddTwoIsFlAdd(fallback, r, mem, a, b, steps);
  }

  lemma {:induction false} AddConstKeepsAnswers(f: Original, n: int, fallback: nat, r: Regs, mem: Memory, a: Arg, steps: nat)
    requires Computes(f, FlAdd) && IsInt64(n) && FlAdd(a, Arg(FL_INT, Word(n))) != Overflow
    requires fallback < U64 && steps >= 8 && Passed(mem, r.rdx, a.tag, a.word)
    ensures
      var b := Arg(FL_INT, Word(n));
      Answered(Run(Assemble(AddConstProgram(n, fallback)), 0, r, mem, steps), fallback, r, f(a, b)) == f(a, b)
  {
    AddConstIsFlAdd(n, fallback, r, mem, a, steps);
  }

  lemma {:induction false} MulConstKeepsAnswers(f: Original, n: int, fallback: nat, r: Regs, mem: Memory, a: Arg, steps: nat)
    requires Computes(f, FlMul) && -0x8000_0000 <= n < 0x8000_0000 && FlMul(a, Arg(FL_INT, Word(n))) != Overflow
    requires fallback < U64 && steps >= 7 && Passed(mem, r.rdx, a.tag, a.word)
    ensures
      var b := Arg(FL_INT, Word(n));
      Answered(Run(Assemble(MulConstProgram(n, fallback)), 0, r, mem, steps), fallback, r, f(a, b)) == f(a, b)
  {
    MulConstIsFlMul(n, fallback, r, mem, a, steps);
  }
}
