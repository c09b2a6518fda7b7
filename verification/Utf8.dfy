/** UTF-8 as the runtime writes it (runtime/json.c) and reads it (runtime/pdf_ttf.c). Bytes are characters
    below 256. */
module Utf8 {
  import opened Wrappers

  predicate IsByte(c: char) { c < 256 as char }

  /** `cp >> n` and `cp & mask` on non-negative numbers. */
  function Encode(cp: nat): (r: string)
    requires cp < 0x20_0000
    ensures 1 <= |r| <= 4 && forall i | 0 <= i < |r| :: IsByte(r[i])
  {
    if cp < 0x80 then [cp as char]
    else if cp < 0x800 then [(0xC0 + cp / 64) as char, (0x80 + cp % 64) as char]
    else if cp < 0x10000 then [(0xE0 + cp / 4096) as char, (0x80 + cp / 64 % 64) as char, (0x80 + cp % 64) as char]
    else [(0xF0 + cp / 262144) as char, (0x80 + cp / 4096 % 64) as char, (0x80 + cp / 64 % 64) as char,
          (0x80 + cp % 64) as char]
  }

  datatype Decoded = Decoded(cp: nat, at: nat)

  /** None: the bytes end inside a character. */
  function Next(b: string, p: nat): (r: Option<Decoded>)
    requires forall i | 0 <= i < |b| :: IsByte(b[i])
    ensures r.Some? ==> p < r.value.at <= |b|
  {
    if p >= |b| then None
    else
      var c := b[p] as int;
      if c < 0x80 then Some(Decoded(c, p + 1))
      else if c < 0xE0 then
        if p + 1 >= |b| then None else Some(Decoded(c % 32 * 64 + b[p + 1] as int % 64, p + 2))
      else if c < 0xF0 then
        if p + 2 >= |b| then None
        else Some(Decoded(c % 16 * 4096 + b[p + 1] as int % 64 * 64 + b[p + 2] as int % 64, p + 3))
      else
        if p + 3 >= |b| then None
        else Some(Decoded(c % 8 * 262144 + b[p + 1] as int % 64 * 4096 + b[p + 2] as int % 64 * 64 + b[p + 3] as int % 64, p + 4))
  }

  predicate Scalar(cp: nat) {
    0 < cp < 0xD800 || 0xE000 <= cp < 0x11_0000
  }

  lemma {:induction false} TwoBytes(cp: nat)
    requires 0x80 <= cp < 0x800
    ensures 0xC0 <= 0xC0 + cp / 64 < 0xE0 && (0xC0 + cp / 64) % 32 * 64 + (0x80 + cp % 64) % 64 == cp
  {
  }

  lemma {:induction false} Parts(cp: nat)
    ensures cp == cp / 4096 * 4096 + cp / 64 % 64 * 64 + cp % 64
    ensures cp == cp / 262144 * 262144 + cp / 4096 % 64 * 4096 + cp / 64 % 64 * 64 + cp % 64
  {
    assert cp / 64 / 64 == cp / 4096 && cp / 4096 / 64 == cp / 262144;
  }

  lemma {:induction false} ThreeBytes(cp: nat)
    requires 0x800 <= cp < 0x10000
    ensures 0xE0 + cp / 4096 < 0xF0
    ensures (0xE0 + cp / 4096) % 16 * 4096 + (0x80 + cp / 64 % 64) % 64 * 64 + (0x80 + cp % 64) % 64 == cp
  {
    Parts(cp);
    assert (0xE0 + cp / 4096) % 16 == cp / 4096;
  }

  lemma {:induction false} FourBytes(cp: nat)
    requires 0x10000 <= cp < 0x11_0000
    ensures (0xF0 + cp / 262144) % 8 * 262144 + (0x80 + cp / 4096 % 64) % 64 * 4096 + (0x80 + cp / 64 % 64) % 64 * 64
            + (0x80 + cp % 64) % 64 == cp
  {
    Parts(cp);
    assert (0xF0 + cp / 262144) % 8 == cp / 262144;
  }

  /** Bytes x, y, z, w at p; as many of them as the first one says make a character. */
  lemma {:induction false} NextOfTwo(b: string, p: nat, x: int, y: int)
    requires (forall i | 0 <= i < |b| :: IsByte(b[i])) && p + 1 < |b| && b[p] as int == x && b[p + 1] as int == y
    requires 0x80 <= x < 0xE0
    ensures Next(b, p) == Some(Decoded(x % 32 * 64 + y % 64, p + 2))
  {
  }

  lemma {:induction false} NextOfThree(b: string, p: nat, x: int, y: int, z: int)
    requires (forall i | 0 <= i < |b| :: IsByte(b[i])) && p + 2 < |b| && b[p] as int == x && b[p + 1] as int == y
    requires b[p + 2] as int == z && 0xE0 <= x < 0xF0
    ensures Next(b, p) == Some(Decoded(x % 16 * 4096 + y % 64 * 64 + z % 64, p + 3))
  {
  }

  lemma {:induction false} NextOfFour(b: string, p: nat, x: int, y: int, z: int, w: int)
    requires (forall i | 0 <= i < |b| :: IsByte(b[i])) && p + 3 < |b| && b[p] as int == x && b[p + 1] as int == y
    requires b[p + 2] as int == z && b[p + 3] as int == w && x >= 0xF0
    ensures Next(b, p) == Some(Decoded(x % 8 * 262144 + y % 64 * 4096 + z % 64 * 64 + w % 64, p + 4))
  {
  }

  /** Reading at an encoded character gives it back and moves just past it. */
  lemma {:induction false} NextOfEncode(b: string, p: nat, cp: nat)
    requires forall i | 0 <= i < |b| :: IsByte(b[i])
    requires cp < 0x11_0000 && p + |Encode(cp)| <= |b|
    requires forall k | 0 <= k < |Encode(cp)| :: b[p + k] == Encode(cp)[k]
    ensures Next(b, p) == Some(Decoded(cp, p + |Encode(cp)|))
  {
    var e := Encode(cp);
    assert b[p + 0] == e[0];
    if 0x80 <= cp < 0x800 {
      assert b[p + 1] == e[1];
      TwoBytes(cp);
      NextOfTwo(b, p, 0xC0 + cp / 64, 0x80 + cp % 64);
    } else if 0x800 <= cp < 0x10000 {
      assert b[p + 1] == e[1] && b[p + 2] == e[2];
      ThreeBytes(cp);
      NextOfThree(b, p, 0xE0 + cp / 4096, 0x80 + cp / 64 % 64, 0x80 + cp % 64);
    } else if cp >= 0x10000 {
      assert b[p + 1] == e[1] && b[p + 2] == e[2] && b[p + 3] == e[3];
      FourBytes(cp);
      NextOfFour(b, p, 0xF0 + cp / 262144, 0x80 + cp / 4096 % 64, 0x80 + cp / 64 % 64, 0x80 + cp % 64);
    }
  }

  function EncodeAll(cps: seq<nat>): (r: string)
    requires forall i | 0 <= i < |cps| :: Scalar(cps[i])
    ensures forall i | 0 <= i < |r| :: IsByte(r[i])
  {
    if cps == [] then ""
    else
      assert Scalar(cps[0]);
      Encode(cps[0]) + EncodeAll(cps[1..])
  }

  /** Reading to the end; None if the last character is cut short. */
  function DecodeAll(b: string, p: nat): Option<seq<nat>>
    requires forall i | 0 <= i < |b| :: IsByte(b[i])
    requires p <= |b|
    decreases |b| - p
  {
    if p == |b| then Some([])
    else
      match Next(b, p)
      case None => None
      case Some(d) =>
        match DecodeAll(b, d.at)
        case None => None
        case Some(rest) => Some([d.cp] + rest)
  }

  lemma {:induction false} DecodeOfEncode(b: string, p: nat, cps: seq<nat>)
    requires forall i | 0 <= i < |b| :: IsByte(b[i])
    requires forall i | 0 <= i < |cps| :: Scalar(cps[i])
    requires p + |EncodeAll(cps)| == |b| && forall k | 0 <= k < |EncodeAll(cps)| :: b[p + k] == EncodeAll(cps)[k]
    ensures DecodeAll(b, p) == Some(cps)
    decreases |cps|
  {
    if cps != [] {
      var e, rest := Encode(cps[0]), EncodeAll(cps[1..]);
      forall k | 0 <= k < |e| ensures b[p + k] == e[k] { assert (e + rest)[k] == e[k]; }
      NextOfEncode(b, p, cps[0]);
      forall k | 0 <= k < |rest| ensures b[p + |e| + k] == rest[k] { assert (e + rest)[|e| + k] == rest[k]; }
      DecodeOfEncode(b, p + |e|, cps[1..]);
      assert [cps[0]] + cps[1..] == cps;
    }
  }

  /** The caller's loop: each call moves the read position past one character. */
  method DecodeLoop(b: string) returns (r: Option<seq<nat>>)
    requires forall i | 0 <= i < |b| :: IsByte(b[i])
    ensures r == DecodeAll(b, 0)
  {
    var cps, p := [], 0;
    assert forall rest: seq<nat> :: cps + rest == rest;
    while p < |b|
      invariant p <= |b|
      invariant
        DecodeAll(b, 0) == match DecodeAll(b, p) case None => None case Some(rest) => Some(cps + rest)
      decreases |b| - p
    {
      var d := Next(b, p);
      if d.None? {
        return None;
      }
      Extend(cps, d.value.cp, DecodeAll(b, d.value.at));
      cps, p := cps + [d.value.cp], d.value.at;
    }
    assert cps + [] == cps;
    return Some(cps);
  }

  lemma {:induction false} Extend(cps: seq<nat>, cp: nat, rest: Option<seq<nat>>)
    ensures rest.Some? ==> cps + ([cp] + rest.value) == cps + [cp] + rest.value
  {
  }
}
