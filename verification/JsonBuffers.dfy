/** The growing buffers and moving cursors of runtime/json.c: no write outside a buffer, and the results are
    those of the functions in `Json`. */
module JsonBuffers {
  import opened Wrappers
  import opened Bytes
  import opened Decimal
  import opened FLValue
  import opened Json
  import opened Sequences
  import Strings
  import Utf8

  // ---------- How large the buffer gets ----------

  /** Doubled until it is more than `target`. */
  function Doubling(cap: nat, target: nat): (r: nat)
    requires cap > 0
    ensures r > target && r >= cap
    decreases target - cap
  {
    if cap > target then cap else Doubling(2 * cap, target)
  }

  /** The capacity after n characters of formatted output. */
  function CatCap(pos: nat, cap: nat, n: nat): (r: nat)
    requires cap > 0
    ensures r > pos + n && r >= cap
  {
    var c := Doubling(cap, pos + 64);
    if n >= c - pos then Doubling(c, pos + n + 1) else c
  }

  /** The room asked for a string is computed in 32 bits. */
  function StrNeed(t: string): nat {
    (6 * |t| + 4) % U32
  }

  /** The capacity after a string; None when a write leaves the buffer. */
  function StrCap(t: string, pos: nat, cap: nat): (r: Option<nat>)
    requires cap > 0
    ensures r.Some? ==> r.value >= cap && r.value >= pos + |PrintStr(t)|
  {
    var c := Doubling(cap, pos + StrNeed(t));
    if pos + |PrintStr(t)| <= c then Some(c) else None
  }

  /** The capacity after a value is written at `pos`; None when a write leaves the buffer. */
  function Cap(v: Value, pos: nat, cap: nat): (r: Option<nat>)
    requires cap > 0
    ensures r.Some? ==> r.value > 0
    decreases v, 0
  {
    match v
    case Str(t) => StrCap(t, pos, cap)
    case Vec(items) => Closed(ItemsCap(items, 0, pos + 1, CatCap(pos, cap, 1)), pos + 1 + |ItemsFrom(items, 0)|)
    case Map(es) => Closed(EntriesCap(es, 0, pos + 1, CatCap(pos, cap, 1)), pos + 1 + |EntriesFrom(es, 0)|)
    case _ => Some(CatCap(pos, cap, |Print(v)|))
  }

  function Closed(c: Option<nat>, pos: nat): (r: Option<nat>)
    requires c.Some? ==> c.value > 0
    ensures r.Some? ==> r.value > 0
  {
    if c.None? then None else Some(CatCap(pos, c.value, 1))
  }

  function CommaCap(i: nat, pos: nat, cap: nat): (r: nat)
    requires cap > 0
    ensures r >= cap
  {
    if i > 0 then CatCap(pos, cap, 1) else cap
  }

  /** One item with the comma before it. */
  function ItemCap(items: seq<Value>, i: nat, pos: nat, cap: nat): (r: Option<nat>)
    requires cap > 0 && i < |items|
    ensures r.Some? ==> r.value > 0
    decreases items, 0
  {
    Cap(items[i], pos + |Comma(i)|, CommaCap(i, pos, cap))
  }

  function ItemsCap(items: seq<Value>, i: nat, pos: nat, cap: nat): (r: Option<nat>)
    requires cap > 0 && i <= |items|
    ensures r.Some? ==> r.value > 0
    decreases items, 1 + |items| - i
  {
    if i == |items| then Some(cap)
    else
      match ItemCap(items, i, pos, cap)
      case None => None
      case Some(c) => ItemsCap(items, i + 1, pos + |Comma(i)| + |Print(items[i])|, c)
  }

  function EntryCap(e: Entry, pos: nat, cap: nat): (r: Option<nat>)
    requires cap > 0
    ensures r.Some? ==> r.value > 0
    decreases e, 0
  {
    match Cap(e.key, pos, cap)
    case None => None
    case Some(c) =>
      var p := pos + |Print(e.key)|;
      Cap(e.val, p + 1, CatCap(p, c, 1))
  }

  function CommaEntryCap(es: seq<Entry>, i: nat, pos: nat, cap: nat): (r: Option<nat>)
    requires cap > 0 && i < |es|
    ensures r.Some? ==> r.value > 0
    decreases es, 0
  {
    EntryCap(es[i], pos + |Comma(i)|, CommaCap(i, pos, cap))
  }

  function EntriesCap(es: seq<Entry>, i: nat, pos: nat, cap: nat): (r: Option<nat>)
    requires cap > 0 && i <= |es|
    ensures r.Some? ==> r.value > 0
    decreases es, 1 + |es| - i
  {
    if i == |es| then Some(cap)
    else
      match CommaEntryCap(es, i, pos, cap)
      case None => None
      case Some(c) => EntriesCap(es, i + 1, pos + |Comma(i)| + EntryLength(es[i]), c)
  }

  function EntryLength(e: Entry): nat {
    |Print(e.key)| + 1 + |Print(e.val)|
  }

  // ---------- When no write leaves the buffer ----------

  /** Six characters for each of a string's and four more are a 32-bit number. */
  ghost predicate SmallStrings(v: Value)
    decreases v
  {
    match v
    case Str(t) => 6 * |t| + 4 < U32
    case Vec(items) => forall i | 0 <= i < |items| :: SmallStrings(items[i])
    case Map(es) =>
      forall i | 0 <= i < |es| ::
        assert es[i].key < es[i] && es[i].val < es[i];
        SmallStrings(es[i].key) && SmallStrings(es[i].val)
    case _ => true
  }

  /** There is room for the value and one character more. */
  ghost predicate Roomy(c: Option<nat>, end: nat) {
    c.Some? && c.value > end
  }

  /** Values whose strings have less than 2^32 / 6 characters are always written inside the buffer. */
  lemma {:induction false} SmallStringsFit(v: Value, pos: nat, cap: nat)
    requires cap > pos && SmallStrings(v)
    ensures Roomy(Cap(v, pos, cap), pos + |Print(v)|)
    decreases v, 0
  {
    match v
    case Vec(items) =>
      ItemsFit(items, 0, pos + 1, CatCap(pos, cap, 1));
    case Map(es) =>
      EntriesFit(es, 0, pos + 1, CatCap(pos, cap, 1));
    case _ =>
  }

  lemma {:induction false} ItemsFit(items: seq<Value>, i: nat, pos: nat, cap: nat)
    requires cap > pos && i <= |items| && forall k | 0 <= k < |items| :: SmallStrings(items[k])
    ensures Roomy(ItemsCap(items, i, pos, cap), pos + |ItemsFrom(items, i)|)
    decreases items, |items| - i
  {
    if i < |items| {
      var p, c := pos + |Comma(i)|, CommaCap(i, pos, cap);
      SmallStringsFit(items[i], p, c);
      ItemsCapStep(items, i, pos, cap);
      ItemsFit(items, i + 1, p + |Print(items[i])|, Cap(items[i], p, c).value);
    }
  }

  lemma {:induction false} EntryFits(e: Entry, pos: nat, cap: nat)
    requires cap > pos && SmallStrings(e.key) && SmallStrings(e.val)
    ensures Roomy(EntryCap(e, pos, cap), pos + EntryLength(e))
    decreases e, 0
  {
    SmallStringsFit(e.key, pos, cap);
    var p, c := pos + |Print(e.key)|, Cap(e.key, pos, cap).value;
    SmallStringsFit(e.val, p + 1, CatCap(p, c, 1));
    EntryCapStep(e, pos, cap, c);
  }

  lemma {:induction false} EntryCapStep(e: Entry, pos: nat, cap: nat, c: nat)
    requires cap > 0 && c > 0 && Cap(e.key, pos, cap) == Some(c)
    ensures var p := pos + |Print(e.key)|; EntryCap(e, pos, cap) == Cap(e.val, p + 1, CatCap(p, c, 1))
  {
  }

  lemma {:induction false} ItemsCapStep(items: seq<Value>, i: nat, pos: nat, cap: nat)
    requires cap > 0 && i < |items|
    ensures var c := ItemCap(items, i, pos, cap);
            ItemsCap(items, i, pos, cap)
            == if c.None? then None else ItemsCap(items, i + 1, pos + |Comma(i)| + |Print(items[i])|, c.value)
  {
  }

  lemma {:induction false} EntriesCapStep(es: seq<Entry>, i: nat, pos: nat, cap: nat)
    requires cap > 0 && i < |es|
    ensures var c := CommaEntryCap(es, i, pos, cap);
            EntriesCap(es, i, pos, cap)
            == if c.None? then None else EntriesCap(es, i + 1, pos + |Comma(i)| + EntryLength(es[i]), c.value)
  {
  }

  lemma {:induction false} EntriesFit(es: seq<Entry>, i: nat, pos: nat, cap: nat)
    requires cap > pos && i <= |es| && forall k | 0 <= k < |es| :: SmallStrings(es[k].key) && SmallStrings(es[k].val)
    ensures Roomy(EntriesCap(es, i, pos, cap), pos + |EntriesFrom(es, i)|)
    decreases es, |es| - i
  {
    if i < |es| {
      var p, c := pos + |Comma(i)|, CommaCap(i, pos, cap);
      EntryFits(es[i], p, c);
      EntriesCapStep(es, i, pos, cap);
      EntriesFit(es, i + 1, p + EntryLength(es[i]), EntryCap(es[i], p, c).value);
    }
  }

  /** The first length for which the room wraps around: six bytes are asked for, and the 65536 that are there do not
      suffice. */
  lemma {:induction false} LongStringLeaves(t: string)
    requires |t| == 715827883
    ensures StrNeed(t) == 6 && Cap(Str(t), 0, START_CAP) == None
  {
    assert Doubling(START_CAP, 6) == START_CAP;
  }

  const START_CAP := 65536

  class JBuf {
    var data: array<char>
    var pos: nat

    ghost predicate Valid()
      reads this
    {
      pos <= data.Length && data.Length > 0
    }

    ghost function Contents(): string
      requires Valid()
      reads this, data
    {
      data[..pos]
    }

    constructor ()
      ensures Valid() && Contents() == "" && fresh(data) && data.Length == START_CAP && pos == 0
    {
      data := new char[START_CAP];
      pos := 0;
    }

    /** Afterwards there is room for `need` characters and a NUL. */
    method Ensure(need: nat)
      requires Valid()
      modifies this`data
      ensures Valid() && pos + need < data.Length && Contents() == old(Contents())
      ensures data.Length == Doubling(old(data.Length), pos + need)
      ensures data == old(data) || fresh(data)
    {
      if pos + need < data.Length {
        return;
      }
      var was, ncap := data, data.Length;
      while ncap <= pos + need
        invariant data == was && ncap >= data.Length && Doubling(ncap, pos + need) == Doubling(was.Length, pos + need)
        decreases pos + need - ncap
      {
        ncap := ncap * 2;
      }
      var bigger := new char[ncap];
      for i := 0 to pos
        invariant data == was && bigger[..i] == was[..i] && was[..] == old(data[..])
      {
        bigger[i] := data[i];
      }
      data := bigger;
    }

    /** Character by character, as long as they fit. The source does not look. */
    method Put(t: string) returns (inside: bool)
      requires Valid()
      modifies this`pos, data
      ensures Valid() && data == old(data) && (inside <==> old(pos) + |t| <= data.Length)
      ensures inside ==> pos == old(pos) + |t| && Contents() == old(Contents()) + t
    {
      for i := 0 to |t|
        invariant pos == old(pos) + i && Valid() && data == old(data) && Contents() == old(Contents()) + t[..i]
      {
        if pos == data.Length {
          return false;
        }
        data[pos] := t[i];
        pos := pos + 1;
      }
      inside := true;
    }

    /** Formatted output: print, and print again into a larger buffer when it did not fit. */
    method Cat(t: string)
      requires Valid()
      modifies this, data
      ensures Valid() && Contents() == old(Contents()) + t && (data == old(data) || fresh(data))
      ensures pos == old(pos) + |t| && data.Length == CatCap(old(pos), old(data.Length), |t|)
    {
      Ensure(64);
      if |t| >= data.Length - pos {
        Ensure(|t| + 1);
      }
      var inside := Put(t);
    }
  }

  /** Inside if and only if there is room for the text at the end of the buffer. */
  method StringifyStr(b: JBuf, t: string) returns (inside: bool)
    requires b.Valid()
    modifies b, b.data
    ensures b.Valid() && (b.data == old(b.data) || fresh(b.data))
    ensures inside <==> StrCap(t, old(b.pos), old(b.data.Length)).Some?
    ensures inside ==> StrCap(t, old(b.pos), old(b.data.Length)) == Some(b.data.Length)
    ensures inside ==> b.pos == old(b.pos) + |PrintStr(t)| && b.Contents() == old(b.Contents()) + PrintStr(t)
  {
    b.Ensure(StrNeed(t));
    inside := b.Put(['"']);
    if inside {
      inside := EscapeInto(b, t);
    }
    if inside {
      inside := b.Put(['"']);
    }
    Enclosed(old(b.Contents()), ['"'], Esc(t), ['"']);
  }

  method EscapeInto(b: JBuf, t: string) returns (inside: bool)
    requires b.Valid()
    modifies b`pos, b.data
    ensures b.Valid() && b.data == old(b.data) && (inside <==> old(b.pos) + |Esc(t)| <= b.data.Length)
    ensures inside ==> b.pos == old(b.pos) + |Esc(t)| && b.Contents() == old(b.Contents()) + Esc(t)
  {
    var i := 0;
    ghost var start := b.Contents();
    ghost var done := start;
    assert t[0..] == t;
    while i < |t|
      invariant i <= |t| && b.Valid() && b.data == old(b.data)
      invariant b.Contents() == done && done + Esc(t[i..]) == start + Esc(t)
    {
      EscTail(done, t, i);
      inside := b.Put(EscChar(t[i]));
      if !inside {
        return;
      }
      done := done + EscChar(t[i]);
      i := i + 1;
    }
    assert done + "" == done;
    inside := true;
  }

  lemma {:induction false} EscTail(done: string, t: string, i: nat)
    requires i < |t|
    ensures done + Esc(t[i..]) == done + EscChar(t[i]) + Esc(t[i + 1..])
  {
    assert t[i..][0] == t[i] && t[i..][1..] == t[i + 1..];
    Assoc(done, EscChar(t[i]), Esc(t[i + 1..]));
  }

  /** The buffer gains exactly the text of the value, if no write leaves it. */
  method StringifyBuf(b: JBuf, v: Value) returns (inside: bool)
    requires b.Valid()
    modifies b, b.data
    ensures b.Valid() && (b.data == old(b.data) || fresh(b.data))
    ensures inside <==> Cap(v, old(b.pos), old(b.data.Length)).Some?
    ensures inside ==> Cap(v, old(b.pos), old(b.data.Length)) == Some(b.data.Length)
    ensures inside ==> b.pos == old(b.pos) + |Print(v)| && b.Contents() == old(b.Contents()) + Print(v)
    decreases v, 0
  {
    inside := true;
    match v {
      case Nil => b.Cat("null");
      case Bool(x) => b.Cat(if x then "true" else "false");
      case Int(i) => b.Cat(PrintInt(i));
      case Float(f) => b.Cat(PrintFloat(f));
      case Str(t) => inside := StringifyStr(b, t);
      case Vec(items) => inside := StringifyVec(b, items);
      case Map(es) => inside := StringifyMap(b, es);
      case Fn(_) => b.Cat("null");
    }
  }

  method StringifyVec(b: JBuf, items: seq<Value>) returns (inside: bool)
    requires b.Valid()
    modifies b, b.data
    ensures b.Valid() && (b.data == old(b.data) || fresh(b.data))
    ensures inside <==> Cap(Vec(items), old(b.pos), old(b.data.Length)).Some?
    ensures inside ==> Cap(Vec(items), old(b.pos), old(b.data.Length)) == Some(b.data.Length)
    ensures inside ==> b.pos == old(b.pos) + |Print(Vec(items))| && b.Contents() == old(b.Contents()) + Print(Vec(items))
    decreases items, 2
  {
    VecCap(items, b.pos, b.data.Length);
    VecText(b.Contents(), items);
    b.Cat(['[']);
    inside := StringifyItems(b, items);
    if inside {
      b.Cat([']']);
    }
  }

  lemma {:induction false} VecCap(items: seq<Value>, pos: nat, cap: nat)
    requires cap > 0
    ensures Cap(Vec(items), pos, cap) == Closed(ItemsCap(items, 0, pos + 1, CatCap(pos, cap, 1)), pos + 1 + |ItemsFrom(items, 0)|)
  {
  }

  lemma {:induction false} VecText(start: string, items: seq<Value>)
    ensures start + ['['] + ItemsFrom(items, 0) + [']'] == start + Print(Vec(items))
    ensures |Print(Vec(items))| == |ItemsFrom(items, 0)| + 2
  {
    Enclosed(start, ['['], ItemsFrom(items, 0), [']']);
  }

  method StringifyMap(b: JBuf, es: seq<Entry>) returns (inside: bool)
    requires b.Valid()
    modifies b, b.data
    ensures b.Valid() && (b.data == old(b.data) || fresh(b.data))
    ensures inside <==> Cap(Map(es), old(b.pos), old(b.data.Length)).Some?
    ensures inside ==> Cap(Map(es), old(b.pos), old(b.data.Length)) == Some(b.data.Length)
    ensures inside ==> b.pos == old(b.pos) + |Print(Map(es))| && b.Contents() == old(b.Contents()) + Print(Map(es))
    decreases es, 2
  {
    MapCap(es, b.pos, b.data.Length);
    MapText(b.Contents(), es);
    b.Cat(['{']);
    inside := StringifyEntries(b, es);
    if inside {
      b.Cat(['}']);
    }
  }

  lemma {:induction false} MapCap(es: seq<Entry>, pos: nat, cap: nat)
    requires cap > 0
    ensures Cap(Map(es), pos, cap) == Closed(EntriesCap(es, 0, pos + 1, CatCap(pos, cap, 1)), pos + 1 + |EntriesFrom(es, 0)|)
  {
  }

  lemma {:induction false} MapText(start: string, es: seq<Entry>)
    ensures start + ['{'] + EntriesFrom(es, 0) + ['}'] == start + Print(Map(es))
    ensures |Print(Map(es))| == |EntriesFrom(es, 0)| + 2
  {
    Enclosed(start, ['{'], EntriesFrom(es, 0), ['}']);
  }

  lemma {:induction false} Enclosed(start: string, open: string, inner: string, close: string)
    ensures start + open + inner + close == start + (open + inner + close)
  {
  }

  method StringifyItems(b: JBuf, items: seq<Value>) returns (inside: bool)
    requires b.Valid()
    modifies b, b.data
    ensures b.Valid() && (b.data == old(b.data) || fresh(b.data))
    ensures inside <==> ItemsCap(items, 0, old(b.pos), old(b.data.Length)).Some?
    ensures inside ==> ItemsCap(items, 0, old(b.pos), old(b.data.Length)) == Some(b.data.Length)
    ensures inside ==> b.pos == old(b.pos) + |ItemsFrom(items, 0)| && b.Contents() == old(b.Contents()) + ItemsFrom(items, 0)
    decreases items, 1
  {
    ghost var start := b.Contents();
    ghost var done := start;
    var i := 0;
    while i < |items|
      invariant i <= |items| && b.Valid() && (b.data == old(b.data) || fresh(b.data))
      invariant b.Contents() == done && done + ItemsFrom(items, i) == start + ItemsFrom(items, 0)
      invariant ItemsCap(items, i, b.pos, b.data.Length) == ItemsCap(items, 0, old(b.pos), old(b.data.Length))
    {
      ItemText(done, items, i);
      ItemsCapStep(items, i, b.pos, b.data.Length);
      inside := StringifyItem(b, items, i);
      if !inside {
        return;
      }
      done := done + Comma(i) + Print(items[i]);
      i := i + 1;
    }
    assert done + "" == done;
    inside := true;
  }

  method StringifyItem(b: JBuf, items: seq<Value>, i: nat) returns (inside: bool)
    requires b.Valid() && i < |items|
    modifies b, b.data
    ensures b.Valid() && (b.data == old(b.data) || fresh(b.data))
    ensures inside <==> ItemCap(items, i, old(b.pos), old(b.data.Length)).Some?
    ensures inside ==> ItemCap(items, i, old(b.pos), old(b.data.Length)) == Some(b.data.Length)
    ensures inside ==> b.pos == old(b.pos) + |Comma(i)| + |Print(items[i])|
    ensures inside ==> b.Contents() == old(b.Contents()) + Comma(i) + Print(items[i])
    decreases items, 0
  {
    if i > 0 {
      b.Cat([',']);
    }
    assert b.Contents() == old(b.Contents()) + Comma(i);
    inside := StringifyBuf(b, items[i]);
  }

  lemma {:induction false} ItemText(done: string, items: seq<Value>, i: nat)
    requires i < |items|
    ensures done + ItemsFrom(items, i) == done + Comma(i) + Print(items[i]) + ItemsFrom(items, i + 1)
  {
    Assoc(Comma(i), Print(items[i]), ItemsFrom(items, i + 1));
    Assoc(done, Comma(i), Print(items[i]) + ItemsFrom(items, i + 1));
    Assoc(done + Comma(i), Print(items[i]), ItemsFrom(items, i + 1));
  }

  method StringifyEntry(b: JBuf, es: seq<Entry>, i: nat) returns (inside: bool)
    requires b.Valid() && i < |es|
    modifies b, b.data
    ensures b.Valid() && (b.data == old(b.data) || fresh(b.data))
    ensures inside <==> CommaEntryCap(es, i, old(b.pos), old(b.data.Length)).Some?
    ensures inside ==> CommaEntryCap(es, i, old(b.pos), old(b.data.Length)) == Some(b.data.Length)
    ensures inside ==> b.pos == old(b.pos) + |Comma(i)| + EntryLength(es[i])
    ensures inside ==> b.Contents() == old(b.Contents()) + Comma(i) + Print(es[i].key) + [':'] + Print(es[i].val)
    decreases es, 0
  {
    if i > 0 {
      b.Cat([',']);
    }
    assert b.Contents() == old(b.Contents()) + Comma(i);
    inside := StringifyPair(b, es[i]);
  }

  method StringifyPair(b: JBuf, e: Entry) returns (inside: bool)
    requires b.Valid()
    modifies b, b.data
    ensures b.Valid() && (b.data == old(b.data) || fresh(b.data))
    ensures inside <==> EntryCap(e, old(b.pos), old(b.data.Length)).Some?
    ensures inside ==> EntryCap(e, old(b.pos), old(b.data.Length)) == Some(b.data.Length)
    ensures inside ==> b.pos == old(b.pos) + EntryLength(e) && b.Contents() == old(b.Contents()) + Print(e.key) + [':'] + Print(e.val)
    decreases e, 1
  {
    inside := StringifyBuf(b, e.key);
    if inside {
      EntryCapStep(e, old(b.pos), old(b.data.Length), b.data.Length);
      b.Cat([':']);
      inside := StringifyBuf(b, e.val);
    }
  }

  method StringifyEntries(b: JBuf, es: seq<Entry>) returns (inside: bool)
    requires b.Valid()
    modifies b, b.data
    ensures b.Valid() && (b.data == old(b.data) || fresh(b.data))
    ensures inside <==> EntriesCap(es, 0, old(b.pos), old(b.data.Length)).Some?
    ensures inside ==> EntriesCap(es, 0, old(b.pos), old(b.data.Length)) == Some(b.data.Length)
    ensures inside ==> b.pos == old(b.pos) + |EntriesFrom(es, 0)| && b.Contents() == old(b.Contents()) + EntriesFrom(es, 0)
    decreases es, 1
  {
    ghost var start := b.Contents();
    ghost var done := start;
    var i := 0;
    while i < |es|
      invariant i <= |es| && b.Valid() && (b.data == old(b.data) || fresh(b.data))
      invariant b.Contents() == done && done + EntriesFrom(es, i) == start + EntriesFrom(es, 0)
      invariant EntriesCap(es, i, b.pos, b.data.Length) == EntriesCap(es, 0, old(b.pos), old(b.data.Length))
    {
      EntryText(done, es, i);
      EntriesCapStep(es, i, b.pos, b.data.Length);
      inside := StringifyEntry(b, es, i);
      if !inside {
        return;
      }
      done := done + Comma(i) + Print(es[i].key) + [':'] + Print(es[i].val);
      i := i + 1;
    }
    assert done + "" == done;
    inside := true;
  }

  lemma {:induction false} EntryText(done: string, es: seq<Entry>, i: nat)
    requires i < |es|
    ensures done + EntriesFrom(es, i)
            == done + Comma(i) + Print(es[i].key) + [':'] + Print(es[i].val) + EntriesFrom(es, i + 1)
  {
    FiveParts(done, Comma(i), Print(es[i].key), [':'], Print(es[i].val), EntriesFrom(es, i + 1));
  }

  lemma {:induction false} FiveParts(a: string, b: string, c: string, d: string, e: string, f: string)
    ensures a + (b + c + d + e + f) == a + b + c + d + e + f
  {
  }

  /** `fl_json_stringify`. None when a write leaves the buffer, the terminating NUL included. */
  method Stringify(v: Value) returns (text: Option<string>)
    ensures text.Some? <==> Roomy(Cap(v, 0, START_CAP), |Print(v)|)
    ensures text.Some? ==> text.value == UpToNul(Print(v))
    ensures SmallStrings(v) ==> text.Some?
  {
    if SmallStrings(v) {
      SmallStringsFit(v, 0, START_CAP);
    }
    var b := new JBuf();
    var inside := StringifyBuf(b, v);
    if !inside || b.pos == b.data.Length {
      return None;
    }
    b.data[b.pos] := '\0';
    assert "" + Print(v) == Print(v);
    text := Some(UpToNul(b.data[..b.pos]));
  }

  // ---------- Parsing ----------

  method Spaces(s: string, p: nat) returns (q: nat)
    requires p <= |s|
    ensures q == SkipWs(s, p)
  {
    q := p;
    while q < |s| && IsSpace(s[q])
      invariant p <= q <= |s| && SkipWs(s, q) == SkipWs(s, p)
    {
      q := q + 1;
    }
  }

  /** Four more bytes always fit: the buffer starts at 64 and doubles before that fails. */
  method StringLoop(s: string, p: nat) returns (r: Parsed<string>)
    requires p <= |s|
    ensures r == StringFrom(s, p, "")
  {
    var buf := new char[64];
    var len: nat, q := 0, p;
    ghost var done := "";
    while q < |s| && s[q] != '"'
      invariant q <= |s| && fresh(buf) && len + 4 < buf.Length && buf[..len] == done
      invariant StringFrom(s, p, "") == StringFrom(s, q, done)
      decreases |s| - q
    {
      var t: string;
      if s[q] != '\\' {
        t, q := [s[q]], q + 1;
      } else if q + 1 == |s| {
        return PastEnd;
      } else if s[q + 1] == 'u' {
        var u := ReadUnicode(s, q + 2);
        assert UnicodeFrom(s, q + 2, done) == StringFrom(s, u.at, done + Utf8.Encode(u.cp));
        t, q := Utf8.Encode(u.cp), u.at;
      } else {
        t, q := [Unescape(s[q + 1])], q + 2;
      }
      done := done + t;
      buf, len := Append(buf, len, t);
    }
    if q < |s| {
      q := q + 1;
    }
    buf[len] := '\0';
    r := Done(buf[..len], q);
  }

  method Append(buf: array<char>, len: nat, t: string) returns (buf': array<char>, len': nat)
    requires |t| <= 4 && len + 4 < buf.Length
    modifies buf
    ensures (buf' == buf || fresh(buf')) && len' == len + |t| && len' + 4 < buf'.Length
    ensures buf'[..len'] == old(buf[..len]) + t
  {
    for i := 0 to |t|
      invariant buf[..len + i] == old(buf[..len]) + t[..i]
    {
      buf[len + i] := t[i];
    }
    buf', len' := buf, len + |t|;
    if len' + 4 >= buf.Length {
      buf' := new char[buf.Length * 2];
      for i := 0 to len'
        invariant buf[..len'] == old(buf[..len]) + t && buf'[..i] == buf[..i]
      {
        buf'[i] := buf[i];
      }
    }
  }

  method StringValueAt(s: string, p: nat) returns (r: Parsed<Value>)
    requires p < |s|
    ensures r == ParseString(s, p)
  {
    var t := StringLoop(s, p + 1);
    r := if t.Done? then Done(Str(UpToNul(t.value)), t.at) else PastEnd;
  }

  method ValueAt(s: string, p0: nat) returns (r: Parsed<Value>)
    requires p0 <= |s|
    ensures r == ParseValue(s, p0)
    decreases |s| - p0, 1
  {
    var p := Spaces(s, p0);
    if p == |s| {
      r := PastEnd;
    } else if s[p] == '"' {
      r := StringValueAt(s, p);
    } else if s[p] == '[' {
      r := ArrayAt(s, p);
    } else if s[p] == '{' {
      r := ObjectAt(s, p);
    } else if Strings.OccursAt(s, "null", p) {
      r := Done(Nil, p + 4);
    } else if Strings.OccursAt(s, "true", p) {
      r := Done(Bool(true), p + 4);
    } else if Strings.OccursAt(s, "false", p) {
      r := Done(Bool(false), p + 5);
    } else {
      r := ParseNumber(s, p);
    }
  }

  method ArrayAt(s: string, p: nat) returns (r: Parsed<Value>)
    requires p < |s| && s[p] == '['
    ensures
      var q := SkipWs(s, p + 1);
      r == if Is(s, q, ']') then Done(Vec([]), q + 1) else ArrayFrom(s, q, [])
    decreases |s| - p, 0
  {
    var q := Spaces(s, p + 1);
    if Is(s, q, ']') {
      r := Done(Vec([]), q + 1);
    } else {
      r := ArrayLoop(s, q);
    }
  }

  method ArrayLoop(s: string, p: nat) returns (r: Parsed<Value>)
    requires p <= |s|
    ensures r == ArrayFrom(s, p, [])
    decreases |s| - p, 4
  {
    var items: seq<Value>, q, more := [], p, true;
    while q < |s|
      invariant p <= q <= |s| && ArrayFrom(s, p, []) == ArrayFrom(s, q, items)
      decreases |s| - q
    {
      r, q, items, more := ArrayRound(s, q, items);
      if !more {
        return r;
      }
    }
    r := Done(Vec(items), q);
  }

  /** One turn of the loop: another item may follow, or this is the result. */
  method ArrayRound(s: string, p: nat, items: seq<Value>) returns (r: Parsed<Value>, q: nat, items': seq<Value>, more: bool)
    requires p < |s|
    ensures p <= q <= |s|
    ensures more ==> p < q && ArrayFrom(s, p, items) == ArrayFrom(s, q, items')
    ensures !more ==> r == ArrayFrom(s, p, items)
    decreases |s| - p, 3
  {
    q, items', more := p, items, false;
    var ws := Spaces(s, p);
    r := ValueAt(s, ws);
    ArrayTurn(s, p, items, r);
    if !r.Done? {
      return;
    }
    items' := items + [r.value];
    ws := Spaces(s, r.at);
    if Is(s, ws, ',') {
      q, more := ws + 1, true;
    } else {
      r := Done(Vec(items'), Close(s, ws, ']'));
    }
  }

  lemma {:induction false} ArrayTurn(s: string, p: nat, items: seq<Value>, v: Parsed<Value>)
    requires p < |s| && v == ParseValue(s, SkipWs(s, p))
    ensures !v.Done? ==> ArrayFrom(s, p, items) == v
    ensures v.Done? ==>
              var q, items' := SkipWs(s, v.at), items + [v.value];
              ArrayFrom(s, p, items)
              == if Is(s, q, ',') then ArrayFrom(s, q + 1, items') else Done(Vec(items'), Close(s, q, ']'))
  {
  }

  method ObjectAt(s: string, p: nat) returns (r: Parsed<Value>)
    requires p < |s| && s[p] == '{'
    ensures
      var q := SkipWs(s, p + 1);
      r == if Is(s, q, '}') then Done(EMPTY_MAP, q + 1) else ObjectFrom(s, q, EMPTY_MAP)
    decreases |s| - p, 0
  {
    var q := Spaces(s, p + 1);
    if Is(s, q, '}') {
      r := Done(EMPTY_MAP, q + 1);
    } else {
      r := ObjectLoop(s, q);
    }
  }

  method ObjectLoop(s: string, p: nat) returns (r: Parsed<Value>)
    requires p <= |s|
    ensures r == ObjectFrom(s, p, EMPTY_MAP)
    decreases |s| - p, 4
  {
    var entries: Value, q, more := EMPTY_MAP, p, true;
    while q < |s|
      invariant p <= q <= |s| && ObjectFrom(s, p, EMPTY_MAP) == ObjectFrom(s, q, entries)
      decreases |s| - q
    {
      r, q, more := ObjectRound(s, q, entries);
      if !more {
        return r;
      }
      entries := r.value;
    }
    r := Done(entries, q);
  }

  /** One turn of the loop: another entry may follow, or this is the result. */
  method ObjectRound(s: string, p: nat, entries: Value) returns (r: Parsed<Value>, q: nat, more: bool)
    requires p < |s|
    ensures p <= q <= |s|
    ensures more ==> p < q && r.Done? && ObjectFrom(s, p, entries) == ObjectFrom(s, q, r.value)
    ensures !more ==> r == ObjectFrom(s, p, entries)
    decreases |s| - p, 3
  {
    q, more := p, false;
    var ws := Spaces(s, p);
    if !Is(s, ws, '"') {
      r := Done(entries, Close(s, ws, '}'));
      return;
    }
    r := EntryAt(s, p, ws, entries);
    if r.Done? {
      var end := Spaces(s, r.at);
      OpenNext(s, r.at, r.value);
      if Is(s, end, ',') {
        q, more := end + 1, true;
      } else {
        r := Done(r.value, Close(s, end, '}'));
      }
    }
  }

  /** One key and its value. */
  method EntryAt(s: string, q: nat, ws: nat, entries: Value) returns (r: Parsed<Value>)
    requires q < |s| && ws == SkipWs(s, q) && Is(s, ws, '"')
    ensures r.Done? ==> ws < r.at <= |s| && ObjectFrom(s, q, entries) == NextEntry(s, r.at, r.value)
    ensures !r.Done? ==> r == ObjectFrom(s, q, entries)
    decreases |s| - q, 2
  {
    var key := StringValueAt(s, ws);
    OpenObject(s, q, entries, key);
    if !key.Done? {
      return key;
    }
    var v0 := Spaces(s, key.at);
    v0 := Spaces(s, Close(s, v0, ':'));
    var v := ValueAt(s, v0);
    OpenEntry(s, key.at, entries, key.value, v);
    r := if v.Done? then Done(MapSet(entries, key.value, v.value), v.at) else v;
  }

  lemma {:induction false} OpenObject(s: string, q: nat, entries: Value, key: Parsed<Value>)
    requires q < |s| && Is(s, SkipWs(s, q), '"') && key == ParseString(s, SkipWs(s, q))
    ensures ObjectFrom(s, q, entries) == if key.Done? then EntryFrom(s, key.at, entries, key.value) else key
  {
  }

  lemma {:induction false} OpenEntry(s: string, a: nat, entries: Value, key: Value, v: Parsed<Value>)
    requires a <= |s| && v == ParseValue(s, SkipWs(s, Close(s, SkipWs(s, a), ':')))
    ensures EntryFrom(s, a, entries, key) == if v.Done? then NextEntry(s, v.at, MapSet(entries, key, v.value)) else v
  {
  }

  lemma {:induction false} OpenNext(s: string, p: nat, entries: Value)
    requires p <= |s|
    ensures
      var q := SkipWs(s, p);
      NextEntry(s, p, entries) == if Is(s, q, ',') then ObjectFrom(s, q + 1, entries) else Done(entries, Close(s, q, '}'))
  {
  }

  method ParseJson(s: string) returns (r: Parsed<Value>)
    ensures r == ParseText(s)
  {
    r := ValueAt(s, 0);
    if r.Done? {
      var q := Spaces(s, r.at);
      r := if q < |s| then Throws else Done(r.value, |s|);
    }
  }
}
