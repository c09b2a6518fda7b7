/** The emitter, the code pool, the four builders and the hot-call counter of runtime/jit.c. */
module JitBuilder {
  import opened Wrappers
  import opened Bytes
  import opened Sequences
  import opened Jit

  lemma {:induction false} NextByte(done: seq<Byte>, v: nat, n: nat)
    requires n > 0
    ensures done + ToBytes(v, n) == done + [v % 256] + ToBytes(v / 256, n - 1)
  {
    Assoc(done, [v % 256], ToBytes(v / 256, n - 1));
  }

  class Emitter {
    const buf: array<Byte>
    var pos: nat

    ghost predicate Valid()
      reads this
    {
      pos <= buf.Length
    }

    ghost function Code(): seq<Byte>
      requires Valid()
      reads this, buf
    {
      buf[..pos]
    }

    constructor (cap: nat)
      ensures Valid() && Code() == [] && buf.Length == cap && fresh(buf)
    {
      buf := new Byte[cap];
      pos := 0;
    }

    /** A byte beyond the capacity is silently dropped. */
    method EmitU8(b: Byte)
      requires Valid()
      modifies this, buf
      ensures Valid()
      ensures Code() == if |old(Code())| < buf.Length then old(Code()) + [b] else old(Code())
    {
      if pos < buf.Length {
        buf[pos] := b;
        pos := pos + 1;
      }
    }

    method Emit(bytes: seq<Byte>)
      requires Valid() && pos + |bytes| <= buf.Length
      modifies this, buf
      ensures Valid() && pos == old(pos) + |bytes| && Code() == old(Code()) + bytes
    {
      for k := 0 to |bytes|
        invariant Valid() && pos == old(pos) + k && Code() == old(Code()) + bytes[..k]
      {
        EmitU8(bytes[k]);
      }
    }

    /** `emit_u32` and `emit_u64`: least significant byte first. */
    method EmitNumber(v: nat, n: nat)
      requires Valid() && pos + n <= buf.Length
      modifies this, buf
      ensures Valid() && pos == old(pos) + n && Code() == old(Code()) + ToBytes(v, n)
    {
      var rest := v;
      ghost var start, done := Code(), Code();
      for k := 0 to n
        invariant Valid() && pos == old(pos) + k && Code() == done
        invariant done + ToBytes(rest, n - k) == start + ToBytes(v, n)
      {
        var low: Byte := rest % 256;
        NextByte(done, rest, n - k);
        EmitU8(low);
        done, rest := done + [low], rest / 256;
      }
      assert done + [] == done;
    }

    method EmitWithNumber(opcode: seq<Byte>, v: nat, n: nat)
      requires Valid() && pos + |opcode| + n <= buf.Length
      modifies this, buf
      ensures Valid() && pos == old(pos) + |opcode| + n && Code() == old(Code()) + (opcode + ToBytes(v, n))
    {
      Emit(opcode);
      EmitNumber(v, n);
    }

    /** The distance from the end of the jump to here, stored as one signed byte. */
    method PatchRel8(at: nat)
      requires Valid() && at < pos
      modifies this, buf
      ensures Valid() && pos == old(pos) && Code() == Patched(old(Code()), at)
    {
      var rel := pos - (at + 1);
      buf[at] := rel % 256;
    }
  }

  function Patched(code: seq<Byte>, at: nat): (r: seq<Byte>)
    requires at < |code|
    ensures |r| == |code|
  {
    var rel: Byte := (|code| - (at + 1)) % 256;
    code[at := rel]
  }

  // ---------- What each builder emits ----------

  function ConstBytes(n: int): seq<Byte> {
    [] + [0x31, 0xC0] + ([0x48, 0xBA] + ToBytes(Word(n), 8)) + [0xC3]
  }

  /** `mov eax, [rdx]; cmp eax, FL_INT; jne ?` */
  function CheckBytes(): (r: seq<Byte>)
    ensures |r| == 7
  {
    [] + [0x8B, 0x02] + [0x83, 0xF8, FL_INT] + [0x75, 0x00]
  }

  function Leave(code: seq<Byte>, fallback: nat): (r: seq<Byte>)
    ensures |r| == |code| + 12
  {
    code + ([0x48, 0xB8] + ToBytes(fallback, 8)) + [0xFF, 0xE0]
  }

  function AddSmallBytes(n: int): (r: seq<Byte>)
    ensures |r| == 18
  {
    CheckBytes() + [0x48, 0x8B, 0x52, 0x08] + [0x48, 0x83, 0xC2, n % 256] + [0x31, 0xC0] + [0xC3]
  }

  function AddLargeBytes(n: int): (r: seq<Byte>)
    ensures |r| == 27
  {
    CheckBytes() + [0x48, 0x8B, 0x52, 0x08] + ([0x49, 0xBB] + ToBytes(Word(n), 8)) + [0x4C, 0x01, 0xDA]
    + [0x31, 0xC0] + [0xC3]
  }

  function MulBytes(n: int): (r: seq<Byte>)
    ensures |r| == 21
  {
    CheckBytes() + [0x48, 0x8B, 0x52, 0x08] + ([0x48, 0x69, 0xD2] + ToBytes(n % U32, 4)) + [0x31, 0xC0] + [0xC3]
  }

  function AddTwoBytes(): (r: seq<Byte>)
    ensures |r| == 29
  {
    CheckBytes() + [0x8B, 0x42, 0x10] + [0x83, 0xF8, FL_INT] + [0x75, 0x00] + [0x48, 0x8B, 0x42, 0x08]
    + [0x48, 0x03, 0x42, 0x18] + [0x48, 0x89, 0xC2] + [0x31, 0xC0] + [0xC3]
  }

  // ---------- They are the programs of the processor model, jumps included ----------

  lemma {:induction false} Then(prog: seq<Instr>, i: Instr, code: seq<Byte>)
    requires Assemble(prog) == code
    ensures Assemble(prog + [i]) == code + Encode(i)
  {
    assert (prog + [i])[..|prog|] == prog;
  }

  lemma {:induction false} CheckAssembled()
    ensures Assemble([MovEaxAtRdx, CmpEaxImm(FL_INT), Jne(0)]) == CheckBytes()
    ensures |Assemble([MovEaxAtRdx, CmpEaxImm(FL_INT)])| == 5
  {
    Then([], MovEaxAtRdx, []);
    Then([MovEaxAtRdx], CmpEaxImm(FL_INT), [] + [0x8B, 0x02]);
    assert [MovEaxAtRdx] + [CmpEaxImm(FL_INT)] == [MovEaxAtRdx, CmpEaxImm(FL_INT)];
    Then([MovEaxAtRdx, CmpEaxImm(FL_INT)], Jne(0), [] + [0x8B, 0x02] + [0x83, 0xF8, FL_INT]);
    assert [MovEaxAtRdx, CmpEaxImm(FL_INT)] + [Jne(0)] == [MovEaxAtRdx, CmpEaxImm(FL_INT), Jne(0)];
  }

  lemma {:induction false} LeaveAssembled(prog: seq<Instr>, code: seq<Byte>, fallback: nat)
    requires Assemble(prog) == code
    ensures Assemble(prog + [MovRaxImm(fallback), JmpRax]) == Leave(code, fallback)
  {
    Then(prog, MovRaxImm(fallback), code);
    Then(prog + [MovRaxImm(fallback)], JmpRax, code + ([0x48, 0xB8] + ToBytes(fallback, 8)));
    assert prog + [MovRaxImm(fallback)] + [JmpRax] == prog + [MovRaxImm(fallback), JmpRax];
  }

  lemma {:induction false} AssembleConcat(a: seq<Instr>, b: seq<Instr>)
    ensures Assemble(a + b) == Assemble(a) + Assemble(b)
  {
    if b == [] {
      assert a + b == a;
    } else {
      var init, last := b[..|b| - 1], b[|b| - 1];
      AssembleConcat(a, init);
      LastOfBoth(a, b);
      Then(a + init, last, Assemble(a) + Assemble(init));
      Then(init, last, Assemble(init));
      Assoc(Assemble(a), Assemble(init), Encode(last));
    }
  }

  lemma {:induction false} LastOfBoth(a: seq<Instr>, b: seq<Instr>)
    requires b != []
    ensures a + b == a + b[..|b| - 1] + [b[|b| - 1]] && b == b[..|b| - 1] + [b[|b| - 1]]
  {
  }

  /** Patching the byte after a jump's opcode patches the jump. */
  lemma {:induction false} PatchAssembled(before: seq<Instr>, after: seq<Instr>, code: seq<Byte>, at: nat, rel: Byte)
    requires Assemble(before + [Jne(0)] + after) == code && at == |Assemble(before)| + 1
    requires |code| == at + 1 + rel
    ensures Patched(code, at) == Assemble(before + [Jne(rel)] + after)
  {
    AssembleThree(before, Jne(0), after);
    AssembleThree(before, Jne(rel), after);
    PatchMiddle(Assemble(before), Encode(Jne(0)), Encode(Jne(rel)), Assemble(after), code, rel);
  }

  lemma {:induction false} PatchMiddle(a: seq<Byte>, was: seq<Byte>, now: seq<Byte>, b: seq<Byte>, code: seq<Byte>, rel: Byte)
    requires |was| == |now| == 2 && was[0] == now[0] && now[1] == rel && code == a + was + b && |b| == rel
    ensures Patched(code, |a| + 1) == a + now + b
  {
    assert (|code| - (|a| + 2)) % 256 == rel;
    PatchBytes(a, was, now, b);
  }

  lemma {:induction false} AssembleThree(before: seq<Instr>, i: Instr, after: seq<Instr>)
    ensures Assemble(before + [i] + after) == Assemble(before) + Encode(i) + Assemble(after)
  {
    Then(before, i, Assemble(before));
    AssembleConcat(before + [i], after);
  }

  lemma {:induction false} PatchBytes(a: seq<Byte>, was: seq<Byte>, now: seq<Byte>, b: seq<Byte>)
    requires |was| == |now| == 2 && was[0] == now[0]
    ensures (a + was + b)[|a| + 1 := now[1]] == a + now + b
  {
  }

  /** The common shape: a tag check whose jump goes past `body`. */
  lemma {:induction false} CheckedAssembled(body: seq<Instr>, code: seq<Byte>, rel: Byte)
    requires Assemble([MovEaxAtRdx, CmpEaxImm(FL_INT), Jne(0)] + body) == code && |code| == 7 + rel
    ensures Assemble([MovEaxAtRdx, CmpEaxImm(FL_INT), Jne(rel)] + body) == Patched(code, 6)
  {
    var before := [MovEaxAtRdx, CmpEaxImm(FL_INT)];
    CheckAssembled();
    assert before + [Jne(0)] == [MovEaxAtRdx, CmpEaxImm(FL_INT), Jne(0)];
    assert before + [Jne(rel)] == [MovEaxAtRdx, CmpEaxImm(FL_INT), Jne(rel)];
    PatchAssembled(before, body, code, 6, rel);
  }

  lemma {:induction false} ConstAssembled(n: int)
    ensures Assemble(ConstProgram(n)) == ConstBytes(n)
  {
    var load := MovRdxImm(Word(n));
    Then([], XorEaxEax, []);
    Then([XorEaxEax], load, [] + [0x31, 0xC0]);
    Then([XorEaxEax] + [load], Ret, [] + [0x31, 0xC0] + ([0x48, 0xBA] + ToBytes(Word(n), 8)));
    assert [XorEaxEax] + [load] + [Ret] == ConstProgram(n);
  }

  lemma {:induction false} AddSmallAssembled(n: int, fallback: nat)
    requires Small(n)
    ensures Assemble(AddConstProgram(n, fallback)) == Leave(Patched(AddSmallBytes(n), 6), fallback)
  {
    var check := [MovEaxAtRdx, CmpEaxImm(FL_INT), Jne(0)];
    var load, add := CheckBytes() + [0x48, 0x8B, 0x52, 0x08], [0x48, 0x83, 0xC2, n % 256];
    CheckAssembled();
    Then(check, MovRdxMem(8), CheckBytes());
    Then(check + [MovRdxMem(8)], AddRdxImm(n % 256), load);
    Then(check + [MovRdxMem(8)] + [AddRdxImm(n % 256)], XorEaxEax, load + add);
    Then(check + [MovRdxMem(8)] + [AddRdxImm(n % 256)] + [XorEaxEax], Ret, load + add + [0x31, 0xC0]);
    var body := [MovRdxMem(8), AddRdxImm(n % 256), XorEaxEax, Ret];
    assert check + [MovRdxMem(8)] + [AddRdxImm(n % 256)] + [XorEaxEax] + [Ret] == check + body;
    CheckedAssembled(body, AddSmallBytes(n), 11);
    var all := [MovEaxAtRdx, CmpEaxImm(FL_INT), Jne(11)] + body;
    LeaveAssembled(all, Patched(AddSmallBytes(n), 6), fallback);
    assert all + [MovRaxImm(fallback), JmpRax] == AddConstProgram(n, fallback);
  }

  lemma {:induction false} AddLargeAssembled(n: int, fallback: nat)
    requires !Small(n)
    ensures Assemble(AddConstProgram(n, fallback)) == Leave(Patched(AddLargeBytes(n), 6), fallback)
  {
    var check := [MovEaxAtRdx, CmpEaxImm(FL_INT), Jne(0)];
    var imm := MovR11Imm(Word(n));
    var load := CheckBytes() + [0x48, 0x8B, 0x52, 0x08];
    var both := load + ([0x49, 0xBB] + ToBytes(Word(n), 8)) + [0x4C, 0x01, 0xDA];
    CheckAssembled();
    Then(check, MovRdxMem(8), CheckBytes());
    Then(check + [MovRdxMem(8)], imm, load);
    Then(check + [MovRdxMem(8)] + [imm], AddRdxR11, load + ([0x49, 0xBB] + ToBytes(Word(n), 8)));
    Then(check + [MovRdxMem(8)] + [imm] + [AddRdxR11], XorEaxEax, both);
    Then(check + [MovRdxMem(8)] + [imm] + [AddRdxR11] + [XorEaxEax], Ret, both + [0x31, 0xC0]);
    var body := [MovRdxMem(8), imm, AddRdxR11, XorEaxEax, Ret];
    AddLargeParts(check, imm, body, n, fallback);
    CheckedAssembled(body, AddLargeBytes(n), 20);
    LeaveAssembled([MovEaxAtRdx, CmpEaxImm(FL_INT), Jne(20)] + body, Patched(AddLargeBytes(n), 6), fallback);
  }

  lemma {:induction false} AddLargeParts(check: seq<Instr>, imm: Instr, body: seq<Instr>, n: int, fallback: nat)
    requires !Small(n) && imm == MovR11Imm(Word(n)) && body == [MovRdxMem(8), imm, AddRdxR11, XorEaxEax, Ret]
    ensures check + [MovRdxMem(8)] + [imm] + [AddRdxR11] + [XorEaxEax] + [Ret] == check + body
    ensures [MovEaxAtRdx, CmpEaxImm(FL_INT), Jne(20)] + body + [MovRaxImm(fallback), JmpRax] == AddConstProgram(n, fallback)
  {
  }

  function AddConstBytes(n: int): (r: seq<Byte>)
    ensures |r| == if Small(n) then 18 else 27
  {
    if Small(n) then AddSmallBytes(n) else AddLargeBytes(n)
  }

  lemma {:induction false} AddConstAssembled(n: int, fallback: nat)
    ensures Assemble(AddConstProgram(n, fallback)) == Leave(Patched(AddConstBytes(n), 6), fallback)
  {
    if Small(n) {
      AddSmallAssembled(n, fallback);
    } else {
      AddLargeAssembled(n, fallback);
    }
  }

  lemma {:induction false} MulAssembled(n: int, fallback: nat)
    ensures Assemble(MulConstProgram(n, fallback)) == Leave(Patched(MulBytes(n), 6), fallback)
  {
    var check := [MovEaxAtRdx, CmpEaxImm(FL_INT), Jne(0)];
    var mul := ImulRdxImm(n % U32);
    var load := CheckBytes() + [0x48, 0x8B, 0x52, 0x08];
    var both := load + ([0x48, 0x69, 0xD2] + ToBytes(n % U32, 4));
    CheckAssembled();
    Then(check, MovRdxMem(8), CheckBytes());
    Then(check + [MovRdxMem(8)], mul, load);
    Then(check + [MovRdxMem(8)] + [mul], XorEaxEax, both);
    Then(check + [MovRdxMem(8)] + [mul] + [XorEaxEax], Ret, both + [0x31, 0xC0]);
    var body := [MovRdxMem(8), mul, XorEaxEax, Ret];
    assert check + [MovRdxMem(8)] + [mul] + [XorEaxEax] + [Ret] == check + body;
    CheckedAssembled(body, MulBytes(n), 14);
    var all := [MovEaxAtRdx, CmpEaxImm(FL_INT), Jne(14)] + body;
    LeaveAssembled(all, Patched(MulBytes(n), 6), fallback);
    assert all + [MovRaxImm(fallback), JmpRax] == MulConstProgram(n, fallback);
  }

  /** The jump of the tag check, and another one behind `second`. */
  lemma {:induction false} BothPatched(second: seq<Instr>, fast: seq<Instr>, code: seq<Byte>, rel: Byte, rel': Byte)
    requires Assemble([MovEaxAtRdx, CmpEaxImm(FL_INT), Jne(0)] + (second + [Jne(0)] + fast)) == code
    requires |Assemble([MovEaxAtRdx, CmpEaxImm(FL_INT), Jne(rel)] + second)| == 13 && |code| == 7 + rel == 15 + rel'
    ensures Assemble([MovEaxAtRdx, CmpEaxImm(FL_INT), Jne(rel)] + second + [Jne(rel')] + fast) == Patched(Patched(code, 6), 14)
  {
    var check := [MovEaxAtRdx, CmpEaxImm(FL_INT), Jne(rel)];
    CheckedAssembled(second + [Jne(0)] + fast, code, rel);
    Regroup(check, second, [Jne(0)], fast);
    PatchAssembled(check + second, fast, Patched(code, 6), 14, rel');
  }

  lemma {:induction false} AddTwoAssembled(fallback: nat)
    ensures Assemble(AddTwoProgram(fallback)) == Leave(Patched(Patched(AddTwoBytes(), 6), 14), fallback)
  {
    var check := [MovEaxAtRdx, CmpEaxImm(FL_INT), Jne(22)];
    var second := [MovEaxMem(16), CmpEaxImm(FL_INT)];
    var fast := [MovRaxMem(8), AddRaxMem(24), MovRdxRax, XorEaxEax, Ret];
    AddTwoUnpatched([MovEaxAtRdx, CmpEaxImm(FL_INT), Jne(0)], second, fast);
    SecondOffset(second, check + second);
    BothPatched(second, fast, AddTwoBytes(), 22, 14);
    AddTwoParts(check, second, fast, fallback);
    LeaveAssembled(check + second + [Jne(14)] + fast, Patched(Patched(AddTwoBytes(), 6), 14), fallback);
  }

  lemma {:induction false} AddTwoParts(check: seq<Instr>, second: seq<Instr>, fast: seq<Instr>, fallback: nat)
    requires check == [MovEaxAtRdx, CmpEaxImm(FL_INT), Jne(22)] && second == [MovEaxMem(16), CmpEaxImm(FL_INT)]
    requires fast == [MovRaxMem(8), AddRaxMem(24), MovRdxRax, XorEaxEax, Ret]
    ensures check + second + [Jne(14)] + fast + [MovRaxImm(fallback), JmpRax] == AddTwoProgram(fallback)
  {
  }

  lemma {:induction false} SecondOffset(second: seq<Instr>, before: seq<Instr>)
    requires second == [MovEaxMem(16), CmpEaxImm(FL_INT)]
    requires before == [MovEaxAtRdx, CmpEaxImm(FL_INT), Jne(22)] + second
    ensures |Assemble(before)| == 13
  {
    var check := [MovEaxAtRdx, CmpEaxImm(FL_INT)];
    CheckAssembled();
    Then(check, Jne(22), Assemble(check));
    assert check + [Jne(22)] == [MovEaxAtRdx, CmpEaxImm(FL_INT), Jne(22)];
    Then(check + [Jne(22)], MovEaxMem(16), Assemble(check + [Jne(22)]));
    Then(check + [Jne(22)] + [MovEaxMem(16)], CmpEaxImm(FL_INT), Assemble(check + [Jne(22)] + [MovEaxMem(16)]));
    assert check + [Jne(22)] + [MovEaxMem(16)] + [CmpEaxImm(FL_INT)] == before;
  }

  lemma {:induction false} AddTwoUnpatched(check: seq<Instr>, second: seq<Instr>, fast: seq<Instr>)
    requires check == [MovEaxAtRdx, CmpEaxImm(FL_INT), Jne(0)] && second == [MovEaxMem(16), CmpEaxImm(FL_INT)]
    requires fast == [MovRaxMem(8), AddRaxMem(24), MovRdxRax, XorEaxEax, Ret]
    ensures Assemble(check + (second + [Jne(0)] + fast)) == AddTwoBytes()
  {
    var c1 := CheckBytes() + [0x8B, 0x42, 0x10] + [0x83, 0xF8, FL_INT] + [0x75, 0x00];
    var c2 := c1 + [0x48, 0x8B, 0x42, 0x08] + [0x48, 0x03, 0x42, 0x18] + [0x48, 0x89, 0xC2];
    var p1 := check + [MovEaxMem(16)] + [CmpEaxImm(FL_INT)] + [Jne(0)];
    var p2 := p1 + [MovRaxMem(8)] + [AddRaxMem(24)] + [MovRdxRax];
    CheckAssembled();
    Then(check, MovEaxMem(16), CheckBytes());
    Then(check + [MovEaxMem(16)], CmpEaxImm(FL_INT), CheckBytes() + [0x8B, 0x42, 0x10]);
    Then(check + [MovEaxMem(16)] + [CmpEaxImm(FL_INT)], Jne(0), CheckBytes() + [0x8B, 0x42, 0x10] + [0x83, 0xF8, FL_INT]);
    Then(p1, MovRaxMem(8), c1);
    Then(p1 + [MovRaxMem(8)], AddRaxMem(24), c1 + [0x48, 0x8B, 0x42, 0x08]);
    Then(p1 + [MovRaxMem(8)] + [AddRaxMem(24)], MovRdxRax, c1 + [0x48, 0x8B, 0x42, 0x08] + [0x48, 0x03, 0x42, 0x18]);
    Then(p2, XorEaxEax, c2);
    Then(p2 + [XorEaxEax], Ret, c2 + [0x31, 0xC0]);
    assert p2 + [XorEaxEax] + [Ret] == check + (second + [Jne(0)] + fast);
  }

  /** One region of executable memory, handed out from the bottom in multiples of 8 bytes. */
  class CodePool {
    const mem: array<Byte>
    var used: nat

    ghost predicate Valid()
      reads this
    {
      used <= mem.Length && used % 8 == 0
    }

    constructor ()
      ensures Valid() && used == 0 && mem.Length == 4096 * 16 && fresh(mem)
    {
      mem := new Byte[4096 * 16];
      used := 0;
    }

    /** The pool holds `code` at `at`. */
    ghost predicate Holds(at: nat, code: seq<Byte>)
      reads this, mem
    {
      at + |code| <= used <= mem.Length && mem[at..at + |code|] == code
    }

    /** Place code after everything placed before, or refuse when it does not fit. */
    method Install(code: seq<Byte>) returns (at: Option<nat>)
      requires Valid()
      modifies this`used, mem
      ensures Valid() && used >= old(used) && mem[..old(used)] == old(mem[..used])
      ensures at.None? <==> old(used) + (|code| + 7) / 8 * 8 > mem.Length
      ensures at.None? ==> used == old(used)
      ensures at.Some? ==> at.value == old(used) && at.value % 8 == 0 && Holds(at.value, code)
    {
      var size := (|code| + 7) / 8 * 8;
      if used + size > mem.Length {
        return None;
      }
      at := Some(used);
      for k := 0 to |code|
        invariant used + |code| <= mem.Length
        invariant mem[..used] == old(mem[..used]) && mem[used..used + k] == code[..k]
      {
        mem[used + k] := code[k];
      }
      used := used + size;
    }
  }

  // ---------- The builders ----------

  method BuildConstInt(pool: CodePool, n: int) returns (at: Option<nat>)
    requires pool.Valid() && IsInt64(n)
    modifies pool`used, pool.mem
    ensures pool.Valid() && pool.used >= old(pool.used) && pool.mem[..old(pool.used)] == old(pool.mem[..pool.used])
    ensures at.Some? ==> pool.Holds(at.value, Assemble(ConstProgram(n)))
    ensures at.None? <==> old(pool.used) + 16 > pool.mem.Length
  {
    var e := new Emitter(32);
    e.Emit([0x31, 0xC0]);
    e.EmitWithNumber([0x48, 0xBA], Word(n), 8);
    e.Emit([0xC3]);
    assert e.Code() == ConstBytes(n);
    ConstAssembled(n);
    at := pool.Install(e.buf[..e.pos]);
  }

  method EmitFallback(e: Emitter, fallback: nat)
    requires e.Valid() && e.pos + 12 <= e.buf.Length
    modifies e, e.buf
    ensures e.Valid() && e.Code() == Leave(old(e.Code()), fallback)
  {
    e.EmitWithNumber([0x48, 0xB8], fallback, 8);
    e.Emit([0xFF, 0xE0]);
  }

  /** The body of the two-argument sum, with both jumps still unpatched. */
  method EmitAddTwoBody(e: Emitter) returns (jne0: nat, jne1: nat)
    requires e.Valid() && e.pos == 0 && e.buf.Length == 80
    modifies e, e.buf
    ensures e.Valid() && e.Code() == AddTwoBytes() && jne0 == 6 && jne1 == 14
  {
    jne0 := EmitTagCheck(e);
    e.Emit([0x8B, 0x42, 0x10]);
    e.Emit([0x83, 0xF8, FL_INT]);
    e.Emit([0x75, 0x00]);
    jne1 := e.pos - 1;
    e.Emit([0x48, 0x8B, 0x42, 0x08]);
    e.Emit([0x48, 0x03, 0x42, 0x18]);
    e.Emit([0x48, 0x89, 0xC2]);
    e.Emit([0x31, 0xC0]);
    e.Emit([0xC3]);
  }

  /** Returns the place of the displacement to patch. */
  method EmitTagCheck(e: Emitter) returns (patch: nat)
    requires e.Valid() && e.pos == 0 && e.buf.Length >= 7
    modifies e, e.buf
    ensures e.Valid() && e.Code() == CheckBytes() && patch == 6
  {
    e.Emit([0x8B, 0x02]);
    e.Emit([0x83, 0xF8, FL_INT]);
    e.Emit([0x75, 0x00]);
    patch := e.pos - 1;
  }

  method EmitAddConstBody(e: Emitter, n: int) returns (jne: nat)
    requires e.Valid() && e.pos == 0 && e.buf.Length == 64 && IsInt64(n)
    modifies e, e.buf
    ensures e.Valid() && e.Code() == AddConstBytes(n) && jne == 6
  {
    jne := EmitTagCheck(e);
    e.Emit([0x48, 0x8B, 0x52, 0x08]);
    if -128 <= n <= 127 {
      e.Emit([0x48, 0x83, 0xC2, n % 256]);
    } else {
      e.EmitWithNumber([0x49, 0xBB], Word(n), 8);
      e.Emit([0x4C, 0x01, 0xDA]);
    }
    e.Emit([0x31, 0xC0]);
    e.Emit([0xC3]);
  }

  method BuildAddIntConst(pool: CodePool, n: int, fallback: nat) returns (at: Option<nat>)
    requires pool.Valid() && IsInt64(n) && fallback < U64
    modifies pool`used, pool.mem
    ensures pool.Valid() && pool.used >= old(pool.used) && pool.mem[..old(pool.used)] == old(pool.mem[..pool.used])
    ensures at.Some? ==> pool.Holds(at.value, Assemble(AddConstProgram(n, fallback)))
    ensures at.None? <==> old(pool.used) + (if Small(n) then 32 else 40) > pool.mem.Length
  {
    var e := new Emitter(64);
    var jne := EmitAddConstBody(e, n);
    e.PatchRel8(jne);
    EmitFallback(e, fallback);
    AddConstAssembled(n, fallback);
    at := pool.Install(e.buf[..e.pos]);
  }

  method EmitMulConstBody(e: Emitter, n: int) returns (jne: nat)
    requires e.Valid() && e.pos == 0 && e.buf.Length == 64
    modifies e, e.buf
    ensures e.Valid() && e.Code() == MulBytes(n) && jne == 6
  {
    jne := EmitTagCheck(e);
    e.Emit([0x48, 0x8B, 0x52, 0x08]);
    e.EmitWithNumber([0x48, 0x69, 0xD2], n % U32, 4);
    e.Emit([0x31, 0xC0]);
    e.Emit([0xC3]);
  }

  method BuildMulIntConst(pool: CodePool, n: int, fallback: nat) returns (at: Option<nat>)
    requires pool.Valid() && -0x8000_0000 <= n < 0x8000_0000 && fallback < U64
    modifies pool`used, pool.mem
    ensures pool.Valid() && pool.used >= old(pool.used) && pool.mem[..old(pool.used)] == old(pool.mem[..pool.used])
    ensures at.Some? ==> pool.Holds(at.value, Assemble(MulConstProgram(n, fallback)))
    ensures at.None? <==> old(pool.used) + 40 > pool.mem.Length
  {
    var e := new Emitter(64);
    var jne := EmitMulConstBody(e, n);
    e.PatchRel8(jne);
    EmitFallback(e, fallback);
    MulAssembled(n, fallback);
    at := pool.Install(e.buf[..e.pos]);
  }

  method BuildAddTwoInts(pool: CodePool, fallback: nat) returns (at: Option<nat>)
    requires pool.Valid() && fallback < U64
    modifies pool`used, pool.mem
    ensures pool.Valid() && pool.used >= old(pool.used) && pool.mem[..old(pool.used)] == old(pool.mem[..pool.used])
    ensures at.Some? ==> pool.Holds(at.value, Assemble(AddTwoProgram(fallback)))
    ensures at.None? <==> old(pool.used) + 48 > pool.mem.Length
  {
    var e := new Emitter(80);
    var jne0, jne1 := EmitAddTwoBody(e);
    e.PatchRel8(jne0);
    e.PatchRel8(jne1);
    EmitFallback(e, fallback);
    AddTwoAssembled(fallback);
    at := pool.Install(e.buf[..e.pos]);
  }

  const FL_JIT_THRESHOLD := 100

  /** A closure whose C function counts its calls and, once hot, swaps its own entry for native code. */
  class ProbeClosure {
    const pool: CodePool
    const jitConst: int
    var native: Option<nat>  // None: `call` is still the probe
    var callCount: nat

    ghost predicate Valid()
      reads this, pool, pool.mem
    {
      pool.Valid() && IsInt64(jitConst) && callCount < U32
      && (native.Some? ==> pool.Holds(native.value, Assemble(ConstProgram(jitConst))))
    }

    constructor (pool: CodePool, n: int)
      requires pool.Valid() && IsInt64(n)
      ensures Valid() && this.pool == pool && jitConst == n && native == None && callCount == 0
    {
      this.pool := pool;
      jitConst := n;
      native := None;
      callCount := 0;
    }

    /** Whoever answers, the answer is the same integer. The entry is swapped by the call that makes
        the count reach the threshold, or by the first later one that finds room in the pool. */
    method Call(r: Regs, args: Memory) returns (result: Outcome)
      requires Valid()
      modifies this`native, this`callCount, pool`used, pool.mem
      ensures Valid() && result == Returned(FL_INT, Word(jitConst))
      ensures pool.used >= old(pool.used) && pool.mem[..old(pool.used)] == old(pool.mem[..pool.used])
      ensures old(native).Some? ==> native == old(native) && callCount == old(callCount)
      ensures old(native).None? ==>
                callCount == (old(callCount) + 1) % U32
                && (native.Some? <==> callCount >= FL_JIT_THRESHOLD && old(pool.used) + 16 <= pool.mem.Length)
    {
      if native.Some? {
        var code := Assemble(ConstProgram(jitConst));
        assert pool.mem[native.value..native.value + |code|] == code;
        result := Run(pool.mem[native.value..native.value + |code|], 0, r, args, 3);
        ConstRuns(jitConst, r, args, 3);
      } else {
        callCount := (callCount + 1) % U32;
        if callCount >= FL_JIT_THRESHOLD {
          native := BuildConstInt(pool, jitConst);
        }
        result := Returned(FL_INT, Word(jitConst));
      }
    }

    /** Any number of calls, before, at and after the swap. */
    method CallMany(times: nat, r: Regs, args: Memory) returns (results: seq<Outcome>)
      requires Valid()
      modifies this`native, this`callCount, pool`used, pool.mem
      ensures Valid() && |results| == times
      ensures forall k | 0 <= k < times :: results[k] == Returned(FL_INT, Word(jitConst))
    {
      results := [];
      for k := 0 to times
        invariant Valid() && |results| == k
        invariant forall j | 0 <= j < k :: results[j] == Returned(FL_INT, Word(jitConst))
      {
        var x := Call(r, args);
        results := results + [x];
      }
    }
  }
}
