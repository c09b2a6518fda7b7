/** runtime/jit.c: the byte emitter with its back-patched jump, the code pool, and what an x86-64
    processor does with the bytes. Registers hold unsigned 64-bit numbers. Function values arrive as
    System V AMD64 psABI section 3.2.3 prescribes: RDI closure, RSI count, RDX argument array; the
    16-byte result leaves its tag in EAX and its payload in RDX. */
module Jit {
  import opened Wrappers
  import opened Bytes

  predicate IsInt64(n: int) {
    -0x8000_0000_0000_0000 <= n < 0x8000_0000_0000_0000
  }

  /** Two's complement. */
  function Word(n: int): (u: nat)
    ensures u < U64
  {
    n % U64
  }

  function Signed(u: int): int {
    if u >= 0x8000_0000_0000_0000 then u - U64 else u
  }

  function SignedByte(b: Byte): int {
    if b >= 128 then b - 256 else b
  }

  function SignedDword(d: int): int {
    if d >= 0x8000_0000 then d - U32 else d
  }

  // ---------- Little-endian numbers ----------

  function ToBytes(v: nat, n: nat): (r: seq<Byte>)
    ensures |r| == n
  {
    if n == 0 then [] else [v % 256] + ToBytes(v / 256, n - 1)
  }

  /** The n bytes at `at`, least significant first. */
  function Immediate(code: seq<Byte>, at: nat, n: nat): nat
    requires at + n <= |code|
    decreases n
  {
    if n == 0 then 0 else code[at] + 256 * Immediate(code, at + 1, n - 1)
  }

  lemma {:induction false} BytesRoundTrip(v: nat, n: nat, code: seq<Byte>, at: nat)
    requires v < Pow256(n) && at + n <= |code| && code[at..at + n] == ToBytes(v, n)
    ensures Immediate(code, at, n) == v
    decreases n
  {
    if n > 0 {
      assert code[at] == code[at..at + n][0] && code[at + 1..at + n] == code[at..at + n][1..];
      BytesRoundTrip(v / 256, n - 1, code, at + 1);
    }
  }

  // ---------- The instructions used ----------

  datatype Instr =
    | XorEaxEax
    | MovRaxImm(v: nat)
    | MovRdxImm(v: nat)
    | MovR11Imm(v: nat)
    | MovEaxAtRdx
    | MovEaxMem(disp: Byte)
    | MovRaxMem(disp: Byte)
    | MovRdxMem(disp: Byte)
    | AddRaxMem(disp: Byte)
    | MovRdxRax
    | CmpEaxImm(imm: Byte)
    | Jne(rel: Byte)
    | AddRdxImm(imm: Byte)
    | AddRdxR11
    | ImulRdxImm(d: nat)
    | Ret
    | JmpRax

  predicate Encodable(i: Instr) {
    match i
    case MovRaxImm(v) => v < U64
    case MovRdxImm(v) => v < U64
    case MovR11Imm(v) => v < U64
    case ImulRdxImm(d) => d < U32
    case _ => true
  }

  /** How many bytes an instruction takes. */
  function Size(i: Instr): (n: nat)
    ensures 1 <= n <= 10
  {
    match i
    case Ret => 1
    case XorEaxEax => 2
    case MovEaxAtRdx => 2
    case Jne(_) => 2
    case JmpRax => 2
    case MovEaxMem(_) => 3
    case MovRdxRax => 3
    case CmpEaxImm(_) => 3
    case AddRdxR11 => 3
    case MovRaxMem(_) => 4
    case MovRdxMem(_) => 4
    case AddRaxMem(_) => 4
    case AddRdxImm(_) => 4
    case ImulRdxImm(_) => 7
    case _ => 10
  }

  function Encode(i: Instr): (r: seq<Byte>)
    ensures |r| == Size(i)
  {
    match i
    case XorEaxEax => [0x31, 0xC0]
    case MovRaxImm(v) => [0x48, 0xB8] + ToBytes(v, 8)
    case MovRdxImm(v) => [0x48, 0xBA] + ToBytes(v, 8)
    case MovR11Imm(v) => [0x49, 0xBB] + ToBytes(v, 8)
    case MovEaxAtRdx => [0x8B, 0x02]
    case MovEaxMem(d) => [0x8B, 0x42, d]
    case MovRaxMem(d) => [0x48, 0x8B, 0x42, d]
    case MovRdxMem(d) => [0x48, 0x8B, 0x52, d]
    case AddRaxMem(d) => [0x48, 0x03, 0x42, d]
    case MovRdxRax => [0x48, 0x89, 0xC2]
    case CmpEaxImm(b) => [0x83, 0xF8, b]
    case Jne(rel) => [0x75, rel]
    case AddRdxImm(b) => [0x48, 0x83, 0xC2, b]
    case AddRdxR11 => [0x4C, 0x01, 0xDA]
    case ImulRdxImm(d) => [0x48, 0x69, 0xD2] + ToBytes(d, 4)
    case Ret => [0xC3]
    case JmpRax => [0xFF, 0xE0]
  }

  /** What the processor fetches at `ip`: an instruction of this subset, or nothing it knows. */
  function Decode(code: seq<Byte>, ip: nat): (r: Option<Instr>)
    requires ip <= |code|
    ensures r.Some? ==> ip + Size(r.value) <= |code|
  {
    var n := |code| - ip;
    if n < 1 then None
    else if code[ip] == 0xC3 then Some(Ret)
    else if n < 2 then None
    else
      var a, b := code[ip], code[ip + 1];
      if a == 0x31 && b == 0xC0 then Some(XorEaxEax)
      else if a == 0x8B && b == 0x02 then Some(MovEaxAtRdx)
      else if a == 0x75 then Some(Jne(b))
      else if a == 0xFF && b == 0xE0 then Some(JmpRax)
      else if n >= 10 && a == 0x48 && b == 0xB8 then Some(MovRaxImm(Immediate(code, ip + 2, 8)))
      else if n >= 10 && a == 0x48 && b == 0xBA then Some(MovRdxImm(Immediate(code, ip + 2, 8)))
      else if n >= 10 && a == 0x49 && b == 0xBB then Some(MovR11Imm(Immediate(code, ip + 2, 8)))
      else if n < 3 then None
      else DecodeLonger(code, ip)
  }

  function DecodeLonger(code: seq<Byte>, ip: nat): (r: Option<Instr>)
    requires ip + 3 <= |code|
    ensures r.Some? ==> ip + Size(r.value) <= |code|
  {
    var n, a, b, c := |code| - ip, code[ip], code[ip + 1], code[ip + 2];
    if a == 0x8B && b == 0x42 then Some(MovEaxMem(c))
    else if a == 0x83 && b == 0xF8 then Some(CmpEaxImm(c))
    else if a == 0x48 && b == 0x89 && c == 0xC2 then Some(MovRdxRax)
    else if a == 0x4C && b == 0x01 && c == 0xDA then Some(AddRdxR11)
    else if n < 4 || a != 0x48 then None
    else if b == 0x8B && c == 0x42 then Some(MovRaxMem(code[ip + 3]))
    else if b == 0x8B && c == 0x52 then Some(MovRdxMem(code[ip + 3]))
    else if b == 0x03 && c == 0x42 then Some(AddRaxMem(code[ip + 3]))
    else if b == 0x83 && c == 0xC2 then Some(AddRdxImm(code[ip + 3]))
    else if n >= 7 && b == 0x69 && c == 0xD2 then Some(ImulRdxImm(Immediate(code, ip + 3, 4)))
    else None
  }

  /** Decoding undoes encoding, wherever the instruction lies in the code. */
  lemma {:induction false} DecodeEncode(code: seq<Byte>, ip: nat, i: Instr)
    requires Encodable(i) && ip + Size(i) <= |code| && code[ip..ip + Size(i)] == Encode(i)
    ensures Decode(code, ip) == Some(i)
  {
    var e := Encode(i);
    assert code[ip] == code[ip..ip + |e|][0] == e[0];
    assert |e| > 1 ==> code[ip + 1] == code[ip..ip + |e|][1] == e[1];
    assert |e| > 2 ==> code[ip + 2] == code[ip..ip + |e|][2] == e[2];
    assert |e| > 3 ==> code[ip + 3] == code[ip..ip + |e|][3] == e[3];
    if i.MovRaxImm? || i.MovRdxImm? || i.MovR11Imm? {
      assert Pow256(8) == U64 by { assert Pow256(4) == U32; }
      assert code[ip + 2..ip + 10] == e[2..] == ToBytes(i.v, 8);
      BytesRoundTrip(i.v, 8, code, ip + 2);
    } else if i.ImulRdxImm? {
      assert Pow256(4) == U32;
      assert code[ip + 3..ip + 7] == e[3..] == ToBytes(i.d, 4);
      BytesRoundTrip(i.d, 4, code, ip + 3);
    }
  }

  // ---------- The processor ----------

  datatype Regs = Regs(rax: nat, rdx: nat, rdi: nat, rsi: nat, r11: nat, zf: bool)

  type Memory = map<int, Byte>

  /** A little-endian read of n bytes. */
  function Load(mem: Memory, addr: int, n: nat): Option<nat>
    decreases n
  {
    if n == 0 then Some(0)
    else if addr !in mem then None
    else
      match Load(mem, addr + 1, n - 1)
      case None => None
      case Some(high) => Some(mem[addr] + 256 * high)
  }

  datatype Effect = Next(regs: Regs) | Branch(regs: Regs, rel: int) | Return | JumpTo(target: nat) | Fault

  function Execute(i: Instr, r: Regs, mem: Memory): Effect {
    match i
    case XorEaxEax => Next(r.(rax := 0, zf := true))
    case MovRaxImm(v) => Next(r.(rax := v))
    case MovRdxImm(v) => Next(r.(rdx := v))
    case MovR11Imm(v) => Next(r.(r11 := v))
    case MovEaxAtRdx => SetRax(r, Load(mem, r.rdx, 4))
    case MovEaxMem(d) => SetRax(r, Load(mem, r.rdx + SignedByte(d), 4))
    case MovRaxMem(d) => SetRax(r, Load(mem, r.rdx + SignedByte(d), 8))
    case MovRdxMem(d) => SetRdx(r, Load(mem, r.rdx + SignedByte(d), 8))
    case AddRaxMem(d) => AddRax(r, Load(mem, r.rdx + SignedByte(d), 8))
    case MovRdxRax => Next(r.(rdx := r.rax))
    case CmpEaxImm(b) => Next(r.(zf := r.rax % U32 == SignedByte(b) % U32))
    case Jne(rel) => if r.zf then Next(r) else Branch(r, SignedByte(rel))
    case AddRdxImm(b) =>
      var s := Word(r.rdx + SignedByte(b));
      Next(r.(rdx := s, zf := s == 0))
    case AddRdxR11 =>
      var s := Word(r.rdx + r.r11);
      Next(r.(rdx := s, zf := s == 0))
    case ImulRdxImm(d) => Next(r.(rdx := Word(Signed(r.rdx) * SignedDword(d))))
    case Ret => Return
    case JmpRax => JumpTo(r.rax)
  }

  function SetRax(r: Regs, v: Option<nat>): Effect {
    if v.Some? then Next(r.(rax := v.value)) else Fault
  }

  function SetRdx(r: Regs, v: Option<nat>): Effect {
    if v.Some? then Next(r.(rdx := v.value)) else Fault
  }

  function AddRax(r: Regs, v: Option<nat>): Effect {
    if v.Some? then Next(r.(rax := Word(r.rax + v.value), zf := Word(r.rax + v.value) == 0)) else Fault
  }

  datatype Outcome =
    | Returned(tag: int, payload: int)
    | LeftTo(target: nat, regs: Regs)
    | Crashed
    | StillRunning

  /** The instruction at a place, if there is one. */
  type Decoder = (seq<Byte>, int) -> Option<Instr>

  function Fetch(code: seq<Byte>, ip: int): Option<Instr> {
    if 0 <= ip <= |code| then Decode(code, ip) else None
  }

  /** Fetch, decode, execute, from byte `ip`. */
  function Run(code: seq<Byte>, ip: int, r: Regs, mem: Memory, steps: nat): Outcome {
    RunWith(Fetch, code, ip, r, mem, steps)
  }

  function RunWith(fetch: Decoder, code: seq<Byte>, ip: int, r: Regs, mem: Memory, steps: nat): Outcome
    decreases steps, 1
  {
    if steps == 0 then StillRunning
    else
      match fetch(code, ip)
      case None => Crashed
      case Some(i) => Continue(fetch, code, ip + Size(i), Execute(i, r, mem), r, mem, steps - 1)
  }

  function Continue(fetch: Decoder, code: seq<Byte>, next: int, effect: Effect, r: Regs, mem: Memory, steps: nat): Outcome
    decreases steps, 2
  {
    match effect
    case Next(r') => RunWith(fetch, code, next, r', mem, steps)
    case Branch(r', rel) => RunWith(fetch, code, next + rel, r', mem, steps)
    case Return => Returned(r.rax % U32, r.rdx)
    case JumpTo(t) => LeftTo(t, r)
    case Fault => Crashed
  }

  // ---------- Assembled programs ----------

  function Assemble(prog: seq<Instr>): seq<Byte> {
    if prog == [] then [] else Assemble(prog[..|prog| - 1]) + Encode(prog[|prog| - 1])
  }

  /** Where the k-th instruction begins. */
  function Offset(prog: seq<Instr>, k: nat): nat
    requires k <= |prog|
  {
    if k == 0 then 0 else Offset(prog, k - 1) + Size(prog[k - 1])
  }

  lemma {:induction false} OffsetOfInit(prog: seq<Instr>, k: nat)
    requires k < |prog|
    ensures Offset(prog[..|prog| - 1], k) == Offset(prog, k)
  {
    if k > 0 {
      OffsetOfInit(prog, k - 1);
    }
  }

  lemma {:induction false} AssembledLength(prog: seq<Instr>)
    ensures |Assemble(prog)| == Offset(prog, |prog|)
  {
    if prog != [] {
      AssembledLength(prog[..|prog| - 1]);
      OffsetOfInit(prog, |prog| - 1);
    }
  }

  lemma {:induction false} InstrAt(prog: seq<Instr>, k: nat)
    requires k < |prog|
    ensures Offset(prog, k) + Size(prog[k]) <= |Assemble(prog)|
    ensures Assemble(prog)[Offset(prog, k)..Offset(prog, k) + Size(prog[k])] == Encode(prog[k])
  {
    var init := prog[..|prog| - 1];
    OffsetOfInit(prog, k);
    if k + 1 == |prog| {
      LastAt(prog);
    } else {
      InstrAt(init, k);
      SliceOfFront(Assemble(init), Encode(prog[|prog| - 1]), Offset(prog, k), Offset(prog, k) + Size(prog[k]));
    }
  }

  lemma {:induction false} LastAt(prog: seq<Instr>)
    requires prog != []
    ensures
      var last, at := prog[|prog| - 1], Offset(prog, |prog| - 1);
      at + Size(last) == |Assemble(prog)| && Assemble(prog)[at..at + Size(last)] == Encode(last)
  {
    var init := prog[..|prog| - 1];
    OffsetOfInit(prog, |prog| - 1);
    AssembledLength(init);
    SliceOfBack(Assemble(init), Encode(prog[|prog| - 1]));
  }

  lemma {:induction false} SliceOfBack(a: seq<Byte>, b: seq<Byte>)
    ensures (a + b)[|a|..|a| + |b|] == b
  {
  }

  lemma {:induction false} SliceOfFront(a: seq<Byte>, b: seq<Byte>, i: nat, j: nat)
    requires i <= j <= |a|
    ensures (a + b)[i..j] == a[i..j]
  {
  }

  /** The same machine one level up: instruction k, jumps by instruction number. */
  function Walk(prog: seq<Instr>, jump: map<nat, nat>, k: nat, r: Regs, mem: Memory, steps: nat): Outcome
    decreases steps, 1
  {
    if steps == 0 then StillRunning
    else if k >= |prog| then Crashed
    else WalkOn(prog, jump, k, Execute(prog[k], r, mem), r, mem, steps - 1)
  }

  function WalkOn(prog: seq<Instr>, jump: map<nat, nat>, k: nat, effect: Effect, r: Regs, mem: Memory, steps: nat): Outcome
    decreases steps, 2
  {
    match effect
    case Next(r') => Walk(prog, jump, k + 1, r', mem, steps)
    case Branch(r', _) => if k in jump then Walk(prog, jump, jump[k], r', mem, steps) else Crashed
    case Return => Returned(r.rax % U32, r.rdx)
    case JumpTo(t) => LeftTo(t, r)
    case Fault => Crashed
  }

  ghost predicate Linked(prog: seq<Instr>, jump: map<nat, nat>) {
    forall k | 0 <= k < |prog| :: LinkedAt(prog, jump, k)
  }

  ghost predicate LinkedAt(prog: seq<Instr>, jump: map<nat, nat>, k: nat)
    requires k < |prog|
  {
    Encodable(prog[k])
    && (prog[k].Jne? ==>
          k in jump && jump[k] <= |prog| && Offset(prog, k + 1) + SignedByte(prog[k].rel) == Offset(prog, jump[k]))
  }

  /** Instruction k is fetched at its place, the next one lies behind it, and its jump leads where it should. */
  ghost predicate InPlace(fetch: Decoder, code: seq<Byte>, at: nat -> nat, prog: seq<Instr>, jump: map<nat, nat>, k: nat)
    requires k < |prog|
  {
    fetch(code, at(k)) == Some(prog[k]) && at(k + 1) == at(k) + Size(prog[k])
    && (prog[k].Jne? ==> k in jump && jump[k] <= |prog| && at(k + 1) + SignedByte(prog[k].rel) == at(jump[k]))
  }

  ghost predicate AllInPlace(fetch: Decoder, code: seq<Byte>, at: nat -> nat, prog: seq<Instr>, jump: map<nat, nat>) {
    (forall k | 0 <= k < |prog| :: InPlace(fetch, code, at, prog, jump, k)) && fetch(code, at(|prog|)) == None
  }

  function Offsets(prog: seq<Instr>): nat -> nat {
    (k: nat) => if k <= |prog| then Offset(prog, k) else 0
  }

  lemma {:induction false} AssembledInPlace(prog: seq<Instr>, jump: map<nat, nat>)
    requires Linked(prog, jump)
    ensures AllInPlace(Fetch, Assemble(prog), Offsets(prog), prog, jump)
  {
    forall k | 0 <= k < |prog|
      ensures InPlace(Fetch, Assemble(prog), Offsets(prog), prog, jump, k)
    {
      assert LinkedAt(prog, jump, k);
      InstrAt(prog, k);
      DecodeEncode(Assemble(prog), Offset(prog, k), prog[k]);
    }
    AssembledLength(prog);
  }

  /** Fetching and decoding the assembled bytes is walking the instructions. */
  lemma {:induction false} RunIsWalk(fetch: Decoder, code: seq<Byte>, at: nat -> nat, prog: seq<Instr>, jump: map<nat, nat>, k: nat,
                                     r: Regs, mem: Memory, steps: nat)
    requires k <= |prog| && AllInPlace(fetch, code, at, prog, jump)
    ensures RunWith(fetch, code, at(k), r, mem, steps) == Walk(prog, jump, k, r, mem, steps)
    decreases steps, 1
  {
    if steps > 0 && k < |prog| {
      assert InPlace(fetch, code, at, prog, jump, k);
      ContinueIsWalkOn(fetch, code, at, prog, jump, k, Execute(prog[k], r, mem), r, mem, steps - 1);
    }
  }

  lemma {:induction false} ContinueIsWalkOn(fetch: Decoder, code: seq<Byte>, at: nat -> nat, prog: seq<Instr>, jump: map<nat, nat>,
                                            k: nat, effect: Effect, r: Regs, mem: Memory, steps: nat)
    requires k < |prog| && AllInPlace(fetch, code, at, prog, jump) && effect == Execute(prog[k], r, mem)
    ensures Continue(fetch, code, at(k + 1), effect, r, mem, steps) == WalkOn(prog, jump, k, effect, r, mem, steps)
    decreases steps, 2
  {
    assert InPlace(fetch, code, at, prog, jump, k);
    if effect.Next? {
      RunIsWalk(fetch, code, at, prog, jump, k + 1, effect.regs, mem, steps);
    } else if effect.Branch? {
      BranchIsJne(prog[k], r, mem);
      RunIsWalk(fetch, code, at, prog, jump, jump[k], effect.regs, mem, steps);
    }
  }

  lemma {:induction false} BranchIsJne(i: Instr, r: Regs, mem: Memory)
    requires Execute(i, r, mem).Branch?
    ensures i.Jne? && Execute(i, r, mem).rel == SignedByte(i.rel)
  {
  }

  lemma {:induction false} RunFromStart(prog: seq<Instr>, jump: map<nat, nat>, r: Regs, mem: Memory, steps: nat)
    requires Linked(prog, jump)
    ensures Run(Assemble(prog), 0, r, mem, steps) == Walk(prog, jump, 0, r, mem, steps)
  {
    AssembledInPlace(prog, jump);
    RunIsWalk(Fetch, Assemble(prog), Offsets(prog), prog, jump, 0, r, mem, steps);
  }

  // ---------- The four code patterns ----------

  const FL_INT: Byte := 0

  predicate Small(n: int) {
    -128 <= n <= 127
  }

  function ConstProgram(n: int): seq<Instr> {
    [XorEaxEax, MovRdxImm(Word(n)), Ret]
  }

  function AddConstProgram(n: int, fallback: nat): seq<Instr> {
    if Small(n)
    then [MovEaxAtRdx, CmpEaxImm(FL_INT), Jne(11), MovRdxMem(8), AddRdxImm(n % 256),
          XorEaxEax, Ret, MovRaxImm(fallback), JmpRax]
    else [MovEaxAtRdx, CmpEaxImm(FL_INT), Jne(20), MovRdxMem(8), MovR11Imm(Word(n)), AddRdxR11,
          XorEaxEax, Ret, MovRaxImm(fallback), JmpRax]
  }

  function MulConstProgram(n: int, fallback: nat): seq<Instr> {
    [MovEaxAtRdx, CmpEaxImm(FL_INT), Jne(14), MovRdxMem(8), ImulRdxImm(n % U32),
     XorEaxEax, Ret, MovRaxImm(fallback), JmpRax]
  }

  function AddTwoProgram(fallback: nat): seq<Instr> {
    [MovEaxAtRdx, CmpEaxImm(FL_INT), Jne(22), MovEaxMem(16), CmpEaxImm(FL_INT), Jne(14),
     MovRaxMem(8), AddRaxMem(24), MovRdxRax, XorEaxEax, Ret, MovRaxImm(fallback), JmpRax]
  }

  /** The bytes from `a` to `b` of a program are those of its instructions in between. */
  lemma {:induction false} Distance(prog: seq<Instr>, a: nat, b: nat)
    requires a <= b <= |prog|
    ensures Offset(prog, b) == Offset(prog, a) + Lengths(prog[a..b])
    decreases b - a
  {
    if a < b {
      Distance(prog, a + 1, b);
      assert prog[a..b][1..] == prog[a + 1..b];
    }
  }

  function Lengths(prog: seq<Instr>): nat {
    if prog == [] then 0 else Size(prog[0]) + Lengths(prog[1..])
  }

  /** A displacement is right when it is the length of the instructions jumped over. */
  lemma {:induction false} Link(prog: seq<Instr>, jump: map<nat, nat>)
    requires forall k | 0 <= k < |prog| ::
               Encodable(prog[k])
               && (prog[k].Jne? ==> k in jump && k < jump[k] <= |prog| && prog[k].rel < 128
                                    && Lengths(prog[k + 1..jump[k]]) == prog[k].rel)
    ensures Linked(prog, jump)
  {
    forall k | 0 <= k < |prog|
      ensures LinkedAt(prog, jump, k)
    {
      if prog[k].Jne? {
        Distance(prog, k + 1, jump[k]);
      }
    }
  }

  lemma {:induction false} WalkNext(prog: seq<Instr>, jump: map<nat, nat>, k: nat, r: Regs, r': Regs, mem: Memory, steps: nat)
    requires k < |prog| && steps > 0 && Execute(prog[k], r, mem) == Next(r')
    ensures Walk(prog, jump, k, r, mem, steps) == Walk(prog, jump, k + 1, r', mem, steps - 1)
  {
  }

  /** `cmp eax, FL_INT; jne`: falls through on an integer, otherwise leaves to the fallback. */
  lemma {:induction false} TagCheck(prog: seq<Instr>, jump: map<nat, nat>, k: nat, fallback: nat, r: Regs, mem: Memory, steps: nat)
    requires k + 1 < |prog| && steps >= 4 && r.rax < U32 && k + 1 in jump && jump[k + 1] + 1 < |prog|
    requires prog[k] == CmpEaxImm(FL_INT) && prog[k + 1].Jne?
    requires prog[jump[k + 1]] == MovRaxImm(fallback) && prog[jump[k + 1] + 1] == JmpRax
    ensures Walk(prog, jump, k, r, mem, steps)
            == if r.rax == FL_INT then Walk(prog, jump, k + 2, r.(zf := true), mem, steps - 2)
               else LeftTo(fallback, r.(rax := fallback, zf := false))
  {
    var r1, j := r.(zf := r.rax == FL_INT), jump[k + 1];
    WalkNext(prog, jump, k, r, r1, mem, steps);
    if r.rax == FL_INT {
      WalkNext(prog, jump, k + 1, r1, r1, mem, steps - 1);
    } else {
      assert Walk(prog, jump, k + 1, r1, mem, steps - 1) == Walk(prog, jump, j, r1, mem, steps - 2);
      WalkNext(prog, jump, j, r1, r1.(rax := fallback), mem, steps - 2);
      assert Walk(prog, jump, j + 1, r1.(rax := fallback), mem, steps - 3) == LeftTo(fallback, r1.(rax := fallback));
    }
  }

  /** What the programs on one argument have in common: load the tag, check it, load the payload; behind the fast path
      lies the fallback. */
  ghost predicate Checks(prog: seq<Instr>, jump: map<nat, nat>, fallback: nat, j: nat) {
    4 < j && j + 1 < |prog| && jump == map[2 := j]
    && prog[0] == MovEaxAtRdx && prog[1] == CmpEaxImm(FL_INT) && prog[2].Jne? && prog[3] == MovRdxMem(8)
    && prog[j] == MovRaxImm(fallback) && prog[j + 1] == JmpRax
  }

  lemma {:induction false} CheckedWalk(prog: seq<Instr>, jump: map<nat, nat>, fallback: nat, j: nat, r: Regs, mem: Memory,
                                       tag: nat, x: nat, steps: nat)
    requires Checks(prog, jump, fallback, j) && steps >= 5 && Passed(mem, r.rdx, tag, x)
    ensures Walk(prog, jump, 0, r, mem, steps)
            == if tag == FL_INT then Walk(prog, jump, 4, r.(rax := tag, zf := true, rdx := x), mem, steps - 4)
               else LeftWithArguments(fallback, r)
  {
    var r1, r2 := r.(rax := tag), r.(rax := tag, zf := true);
    WalkNext(prog, jump, 0, r, r1, mem, steps);
    TagCheck(prog, jump, 1, fallback, r1, mem, steps - 1);
    if tag == FL_INT {
      WalkNext(prog, jump, 3, r2, r2.(rdx := x), mem, steps - 3);
    }
  }

  /** `xor eax, eax; ret`: the tag is FL_INT, the payload whatever RDX holds. */
  lemma {:induction false} ReturnInt(prog: seq<Instr>, jump: map<nat, nat>, k: nat, r: Regs, mem: Memory, steps: nat)
    requires k + 1 < |prog| && prog[k] == XorEaxEax && prog[k + 1] == Ret && steps >= 2
    ensures Walk(prog, jump, k, r, mem, steps) == Returned(FL_INT, r.rdx)
  {
    WalkNext(prog, jump, k, r, r.(rax := 0, zf := true), mem, steps);
  }

  /** An argument lies in memory as a 4-byte tag and, 8 bytes further, an 8-byte payload. */
  predicate Passed(mem: Memory, addr: int, tag: nat, payload: nat) {
    tag < U32 && payload < U64 && Load(mem, addr, 4) == Some(tag) && Load(mem, addr + 8, 8) == Some(payload)
  }

  function LeftWithArguments(fallback: nat, r: Regs): Outcome {
    LeftTo(fallback, r.(rax := fallback, zf := false))
  }

  lemma {:induction false} ConstRuns(n: int, r: Regs, mem: Memory, steps: nat)
    requires IsInt64(n) && steps >= 3
    ensures Run(Assemble(ConstProgram(n)), 0, r, mem, steps) == Returned(FL_INT, Word(n)) && Signed(Word(n)) == n
  {
    var prog := ConstProgram(n);
    var r1 := r.(rax := 0, zf := true);
    RunFromStart(prog, map[], r, mem, steps);
    WalkNext(prog, map[], 0, r, r1, mem, steps);
    WalkNext(prog, map[], 1, r1, r1.(rdx := Word(n)), mem, steps - 1);
  }

  /** On an integer x the code returns the integer x + n modulo 2^64; on anything else it leaves to
      the fallback with closure, count and argument pointer untouched. */
  lemma {:induction false} AddConstRuns(n: int, fallback: nat, r: Regs, mem: Memory, tag: nat, x: nat, steps: nat)
    requires IsInt64(n) && fallback < U64 && steps >= 8 && Passed(mem, r.rdx, tag, x)
    ensures Run(Assemble(AddConstProgram(n, fallback)), 0, r, mem, steps)
            == if tag == FL_INT then Returned(FL_INT, Word(Signed(x) + n)) else LeftWithArguments(fallback, r)
  {
    var prog := AddConstProgram(n, fallback);
    var jump: map<nat, nat> := map[2 := if Small(n) then 7 else 8];
    ShapeOfAdd(n, fallback);
    LinkAdd(prog, n, fallback, jump);
    RunFromStart(prog, jump, r, mem, steps);
    AddConstWalk(prog, jump, n, fallback, r, mem, tag, x, steps);
  }

  lemma {:induction false} AddConstWalk(prog: seq<Instr>, jump: map<nat, nat>, n: int, fallback: nat, r: Regs, mem: Memory,
                                        tag: nat, x: nat, steps: nat)
    requires IsInt64(n) && AddShape(prog, n, fallback) && jump == map[2 := if Small(n) then 7 else 8]
    requires steps >= 8 && Passed(mem, r.rdx, tag, x)
    ensures Walk(prog, jump, 0, r, mem, steps)
            == if tag == FL_INT then Returned(FL_INT, Word(Signed(x) + n)) else LeftWithArguments(fallback, r)
  {
    CheckedWalk(prog, jump, fallback, if Small(n) then 7 else 8, r, mem, tag, x, steps);
    if tag == FL_INT {
      AddStep(prog, jump, n, fallback, r.(rax := tag, zf := true, rdx := x), mem, steps - 4);
    }
  }

  lemma {:induction false} AddStep(prog: seq<Instr>, jump: map<nat, nat>, n: int, fallback: nat, r: Regs, mem: Memory, steps: nat)
    requires IsInt64(n) && AddShape(prog, n, fallback) && r.rdx < U64 && steps >= 4
    ensures Walk(prog, jump, 4, r, mem, steps) == Returned(FL_INT, Word(Signed(r.rdx) + n))
  {
    var sum := Word(Signed(r.rdx) + n);
    WordOfSum(r.rdx, n);
    if Small(n) {
      assert SignedByte(n % 256) == n;
      WalkNext(prog, jump, 4, r, r.(rdx := sum, zf := sum == 0), mem, steps);
      ReturnInt(prog, jump, 5, r.(rdx := sum, zf := sum == 0), mem, steps - 1);
    } else {
      var r1 := r.(r11 := Word(n));
      WalkNext(prog, jump, 4, r, r1, mem, steps);
      WalkNext(prog, jump, 5, r1, r1.(rdx := sum, zf := sum == 0), mem, steps - 1);
      ReturnInt(prog, jump, 6, r1.(rdx := sum, zf := sum == 0), mem, steps - 2);
    }
  }

  lemma {:induction false} LengthsStep(prog: seq<Instr>, a: nat, b: nat, i: Instr)
    requires a < b <= |prog| && prog[a] == i
    ensures Lengths(prog[a..b]) == Size(i) + Lengths(prog[a + 1..b])
  {
    assert prog[a..b][1..] == prog[a + 1..b];
  }

  lemma {:induction false} LengthsOfNone(prog: seq<Instr>, a: nat)
    requires a <= |prog|
    ensures Lengths(prog[a..a]) == 0
  {
  }

  /** `xor eax, eax; ret`, which ends every program's fast path. */
  lemma {:induction false} LengthOfReturn(prog: seq<Instr>, a: nat)
    requires a + 2 <= |prog| && prog[a] == XorEaxEax && prog[a + 1] == Ret
    ensures Lengths(prog[a..a + 2]) == 3
  {
    LengthsOfNone(prog, a + 2);
    LengthsStep(prog, a + 1, a + 2, Ret);
    LengthsStep(prog, a, a + 2, XorEaxEax);
  }

  /** The two forms: an 8-bit immediate, or the constant through R11. */
  ghost predicate AddShape(prog: seq<Instr>, n: int, fallback: nat) {
    if Small(n) then
      |prog| == 9 && prog[0] == MovEaxAtRdx && prog[1] == CmpEaxImm(FL_INT) && prog[2] == Jne(11) && prog[3] == MovRdxMem(8)
      && prog[4] == AddRdxImm(n % 256) && prog[5] == XorEaxEax && prog[6] == Ret
      && prog[7] == MovRaxImm(fallback) && prog[8] == JmpRax
    else
      |prog| == 10 && prog[0] == MovEaxAtRdx && prog[1] == CmpEaxImm(FL_INT) && prog[2] == Jne(20) && prog[3] == MovRdxMem(8)
      && prog[4] == MovR11Imm(Word(n)) && prog[5] == AddRdxR11 && prog[6] == XorEaxEax && prog[7] == Ret
      && prog[8] == MovRaxImm(fallback) && prog[9] == JmpRax
  }

  lemma {:induction false} ShapeOfAdd(n: int, fallback: nat)
    ensures AddShape(AddConstProgram(n, fallback), n, fallback)
  {
  }

  lemma {:induction false} LengthsOfAdd(prog: seq<Instr>, n: int, fallback: nat)
    requires AddShape(prog, n, fallback)
    ensures if Small(n) then Lengths(prog[3..7]) == 11 else Lengths(prog[3..8]) == 20
  {
    if Small(n) {
      LengthOfReturn(prog, 5);
      LengthsStep(prog, 4, 7, AddRdxImm(n % 256));
      LengthsStep(prog, 3, 7, MovRdxMem(8));
    } else {
      LengthOfReturn(prog, 6);
      LengthsStep(prog, 5, 8, AddRdxR11);
      LengthsStep(prog, 4, 8, MovR11Imm(Word(n)));
      LengthsStep(prog, 3, 8, MovRdxMem(8));
    }
  }

  lemma {:induction false} LinkAdd(prog: seq<Instr>, n: int, fallback: nat, jump: map<nat, nat>)
    requires AddShape(prog, n, fallback) && fallback < U64 && jump == map[2 := if Small(n) then 7 else 8]
    ensures Linked(prog, jump)
  {
    LengthsOfAdd(prog, n, fallback);
    Link(prog, jump);
  }

  /** The same for multiplication by a 32-bit constant. */
  lemma {:induction false} MulConstRuns(n: int, fallback: nat, r: Regs, mem: Memory, tag: nat, x: nat, steps: nat)
    requires -0x8000_0000 <= n < 0x8000_0000 && fallback < U64 && steps >= 7 && Passed(mem, r.rdx, tag, x)
    ensures Run(Assemble(MulConstProgram(n, fallback)), 0, r, mem, steps)
            == if tag == FL_INT then Returned(FL_INT, Word(Signed(x) * n)) else LeftWithArguments(fallback, r)
  {
    var prog := MulConstProgram(n, fallback);
    var jump: map<nat, nat> := map[2 := 7];
    ShapeOfMul(n, fallback);
    LinkMul(prog, n, fallback, jump);
    RunFromStart(prog, jump, r, mem, steps);
    MulConstWalk(prog, jump, n, fallback, r, mem, tag, x, steps);
  }

  lemma {:induction false} LinkMul(prog: seq<Instr>, n: int, fallback: nat, jump: map<nat, nat>)
    requires MulShape(prog, n, fallback) && fallback < U64 && jump == map[2 := 7]
    ensures Linked(prog, jump)
  {
    LengthOfReturn(prog, 5);
    LengthsStep(prog, 4, 7, ImulRdxImm(n % U32));
    LengthsStep(prog, 3, 7, MovRdxMem(8));
    Link(prog, jump);
  }

  ghost predicate MulShape(prog: seq<Instr>, n: int, fallback: nat) {
    |prog| == 9 && prog[0] == MovEaxAtRdx && prog[1] == CmpEaxImm(FL_INT) && prog[2] == Jne(14) && prog[3] == MovRdxMem(8)
    && prog[4] == ImulRdxImm(n % U32) && prog[5] == XorEaxEax && prog[6] == Ret
    && prog[7] == MovRaxImm(fallback) && prog[8] == JmpRax
  }

  lemma {:induction false} ShapeOfMul(n: int, fallback: nat)
    ensures MulShape(MulConstProgram(n, fallback), n, fallback)
  {
  }

  lemma {:induction false} MulConstWalk(prog: seq<Instr>, jump: map<nat, nat>, n: int, fallback: nat, r: Regs, mem: Memory,
                                        tag: nat, x: nat, steps: nat)
    requires -0x8000_0000 <= n < 0x8000_0000 && MulShape(prog, n, fallback) && jump == map[2 := 7]
    requires steps >= 7 && Passed(mem, r.rdx, tag, x)
    ensures Walk(prog, jump, 0, r, mem, steps)
            == if tag == FL_INT then Returned(FL_INT, Word(Signed(x) * n)) else LeftWithArguments(fallback, r)
  {
    CheckedWalk(prog, jump, fallback, 7, r, mem, tag, x, steps);
    if tag == FL_INT {
      var r1 := r.(rax := tag, zf := true, rdx := x);
      assert SignedDword(n % U32) == n;
      WalkNext(prog, jump, 4, r1, r1.(rdx := Word(Signed(x) * n)), mem, steps - 4);
      ReturnInt(prog, jump, 5, r1.(rdx := Word(Signed(x) * n)), mem, steps - 5);
    }
  }

  ghost predicate AddTwoShape(prog: seq<Instr>, fallback: nat) {
    |prog| == 13 && prog[0] == MovEaxAtRdx && prog[1] == CmpEaxImm(FL_INT) && prog[2] == Jne(22)
    && prog[3] == MovEaxMem(16) && prog[4] == CmpEaxImm(FL_INT) && prog[5] == Jne(14)
    && prog[6] == MovRaxMem(8) && prog[7] == AddRaxMem(24) && prog[8] == MovRdxRax && prog[9] == XorEaxEax && prog[10] == Ret
    && prog[11] == MovRaxImm(fallback) && prog[12] == JmpRax
  }

  lemma {:induction false} ShapeOfAddTwo(fallback: nat)
    ensures AddTwoShape(AddTwoProgram(fallback), fallback)
  {
  }

  /** Two arguments: both must be integers. */
  lemma {:induction false} AddTwoRuns(fallback: nat, r: Regs, mem: Memory, tag0: nat, x: nat, tag1: nat, y: nat, steps: nat)
    requires fallback < U64 && steps >= 11 && Passed(mem, r.rdx, tag0, x) && Passed(mem, r.rdx + 16, tag1, y)
    ensures Run(Assemble(AddTwoProgram(fallback)), 0, r, mem, steps)
            == if tag0 == FL_INT && tag1 == FL_INT then Returned(FL_INT, Word(Signed(x) + Signed(y)))
               else LeftWithArguments(fallback, r)
  {
    var prog := AddTwoProgram(fallback);
    var jump: map<nat, nat> := map[2 := 11, 5 := 11];
    ShapeOfAddTwo(fallback);
    LinkAddTwo(prog, fallback, jump);
    RunFromStart(prog, jump, r, mem, steps);
    AddTwoWalk(prog, jump, fallback, r, mem, tag0, x, tag1, y, steps);
  }

  lemma {:induction false} AddTwoWalk(prog: seq<Instr>, jump: map<nat, nat>, fallback: nat, r: Regs, mem: Memory,
                                      tag0: nat, x: nat, tag1: nat, y: nat, steps: nat)
    requires AddTwoShape(prog, fallback) && jump == map[2 := 11, 5 := 11]
    requires steps >= 11 && Passed(mem, r.rdx, tag0, x) && Passed(mem, r.rdx + 16, tag1, y)
    ensures Walk(prog, jump, 0, r, mem, steps)
            == if tag0 == FL_INT && tag1 == FL_INT then Returned(FL_INT, Word(Signed(x) + Signed(y)))
               else LeftWithArguments(fallback, r)
  {
    var r1, r2 := r.(rax := tag0), r.(rax := tag0, zf := true);
    WalkNext(prog, jump, 0, r, r1, mem, steps);
    TagCheck(prog, jump, 1, fallback, r1, mem, steps - 1);
    if tag0 == FL_INT {
      WalkNext(prog, jump, 3, r2, r2.(rax := tag1), mem, steps - 3);
      TagCheck(prog, jump, 4, fallback, r2.(rax := tag1), mem, steps - 4);
      if tag1 == FL_INT {
        AddTwoStep(prog, jump, fallback, r2.(rax := tag1), mem, x, y, steps - 6);
      }
    }
  }

  lemma {:induction false} AddTwoStep(prog: seq<Instr>, jump: map<nat, nat>, fallback: nat, r: Regs, mem: Memory, x: nat, y: nat, steps: nat)
    requires AddTwoShape(prog, fallback) && steps >= 5 && x < U64 && y < U64
    requires Load(mem, r.rdx + 8, 8) == Some(x) && Load(mem, r.rdx + 24, 8) == Some(y)
    ensures Walk(prog, jump, 6, r, mem, steps) == Returned(FL_INT, Word(Signed(x) + Signed(y)))
  {
    var sum := Word(x + y);
    var r2 := r.(rax := sum, zf := sum == 0);
    LoadAndAdd(prog, jump, fallback, r, r2, mem, x, y, steps);
    WalkNext(prog, jump, 8, r2, r2.(rdx := sum), mem, steps - 2);
    ReturnInt(prog, jump, 9, r2.(rdx := sum), mem, steps - 3);
    WordOfSigned(x, y);
  }

  lemma {:induction false} LoadAndAdd(prog: seq<Instr>, jump: map<nat, nat>, fallback: nat, r: Regs, r2: Regs, mem: Memory,
                                      x: nat, y: nat, steps: nat)
    requires |prog| > 8 && prog[6] == MovRaxMem(8) && prog[7] == AddRaxMem(24) && steps >= 2
    requires Load(mem, r.rdx + 8, 8) == Some(x) && Load(mem, r.rdx + 24, 8) == Some(y)
    requires r2 == r.(rax := Word(x + y), zf := Word(x + y) == 0)
    ensures Walk(prog, jump, 6, r, mem, steps) == Walk(prog, jump, 8, r2, mem, steps - 2)
  {
    var r1 := r.(rax := x);
    WalkNext(prog, jump, 6, r, r1, mem, steps);
    WalkNext(prog, jump, 7, r1, r2, mem, steps - 1);
  }

  lemma {:induction false} WordOfSigned(x: nat, y: nat)
    ensures Word(Signed(x) + Signed(y)) == Word(x + y)
  {
    WordOfSum(x, Signed(y));
    WordOfSum(y, x);
  }

  /** Addition modulo 2^64 does not care about signs. */
  lemma {:induction false} WordOfSum(x: nat, y: int)
    ensures Word(Signed(x) + y) == Word(x + y) == Word(x + Word(y))
  {
  }

  lemma {:induction false} LengthsOfAddTwo(prog: seq<Instr>, fallback: nat)
    requires AddTwoShape(prog, fallback)
    ensures Lengths(prog[3..11]) == 22 && Lengths(prog[6..11]) == 14
  {
    LengthsOfFast(prog, fallback);
    LengthsStep(prog, 5, 11, Jne(14));
    LengthsStep(prog, 4, 11, CmpEaxImm(FL_INT));
    LengthsStep(prog, 3, 11, MovEaxMem(16));
  }

  lemma {:induction false} LengthsOfFast(prog: seq<Instr>, fallback: nat)
    requires AddTwoShape(prog, fallback)
    ensures Lengths(prog[6..11]) == 14
  {
    LengthOfReturn(prog, 9);
    LengthsStep(prog, 8, 11, MovRdxRax);
    LengthsStep(prog, 7, 11, AddRaxMem(24));
    LengthsStep(prog, 6, 11, MovRaxMem(8));
  }

  lemma {:induction false} LinkAddTwo(prog: seq<Instr>, fallback: nat, jump: map<nat, nat>)
    requires AddTwoShape(prog, fallback) && fallback < U64 && jump == map[2 := 11, 5 := 11]
    ensures Linked(prog, jump)
  {
    LengthsOfAddTwo(prog, fallback);
    Link(prog, jump);
  }

  /** Where the mathematical sum stays in range, what the code returns is exactly `fl_add`'s and
      `fl_mul`'s integer. */
  lemma {:induction false} NoOverflowIsExact(v: int)
    ensures IsInt64(v) <==> Signed(Word(v)) == v
  {
  }
}
