/** The JSON printer and parser of runtime/json.c. A text is the bytes before the terminating NUL, and a cursor
    an index into it. Of the floats only those without a fraction are part of this model. */
module Json {
  import opened Wrappers
  import opened FLValue
  import opened Decimal
  import opened Sequences
  import Strings
  import Utf8

  // ---------- Printing ----------

  function HexDigit(d: nat): char
    requires d < 16
  {
    if d < 10 then '0' + d as char else 'a' + (d - 10) as char
  }

  /** `%04x` */
  function Hex4(n: nat): (r: string)
    requires n < 0x10000
    ensures |r| == 4
  {
    [HexDigit(n / 4096), HexDigit(n / 256 % 16), HexDigit(n / 16 % 16), HexDigit(n % 16)]
  }

  function EscChar(c: char): (r: string)
    ensures 1 <= |r| <= 6
  {
    if c == '"' then ['\\', '"']
    else if c == '\\' then ['\\', '\\']
    else if c == '\n' then ['\\', 'n']
    else if c == '\t' then ['\\', 't']
    else if c == '\r' then ['\\', 'r']
    else if c < ' ' then ['\\', 'u'] + Hex4(c as nat)
    else [c]
  }

  function Esc(t: string): (r: string)
    ensures |t| <= |r| <= 6 * |t|
  {
    if t == "" then "" else EscChar(t[0]) + Esc(t[1..])
  }

  function PrintStr(t: string): string {
    ['"'] + Esc(t) + ['"']
  }

  /** Up to here every integer is a double. */
  const EXACT := 0x20_0000_0000_0000

  /** A float without a fraction prints as an integer; any other is not part of this model. */
  function PrintFloat(f: real): string {
    if f == f.Floor as real && -(EXACT as real) <= f <= EXACT as real then PrintInt(f.Floor) else "?"
  }

  function Print(v: Value): string
    decreases v
  {
    match v
    case Nil => "null"
    case Bool(b) => if b then "true" else "false"
    case Int(i) => PrintInt(i)
    case Float(f) => PrintFloat(f)
    case Str(t) => PrintStr(t)
    case Vec(items) => ['['] + ItemsFrom(items, 0) + [']']
    case Map(es) => ['{'] + EntriesFrom(es, 0) + ['}']
    case Fn(_) => "null"
  }

  function Comma(i: nat): string {
    if i > 0 then [','] else []
  }

  function ItemsFrom(items: seq<Value>, i: nat): string
    requires i <= |items|
    decreases items, |items| - i
  {
    if i == |items| then "" else Comma(i) + Print(items[i]) + ItemsFrom(items, i + 1)
  }

  function EntriesFrom(es: seq<Entry>, i: nat): string
    requires i <= |es|
    decreases es, |es| - i
  {
    if i == |es| then ""
    else
      assert es[i].key < es[i] && es[i].val < es[i];
      Comma(i) + Print(es[i].key) + [':'] + Print(es[i].val) + EntriesFrom(es, i + 1)
  }

  // ---------- Parsing ----------

  /** `isspace` in the C locale. */
  predicate IsSpace(c: char) {
    c == ' ' || '\t' <= c <= '\r'
  }

  function SkipWs(s: string, p: nat): (r: nat)
    requires p <= |s|
    ensures p <= r <= |s| && (r < |s| ==> !IsSpace(s[r])) && forall k | p <= k < r :: IsSpace(s[k])
    decreases |s| - p
  {
    if p < |s| && IsSpace(s[p]) then SkipWs(s, p + 1) else p
  }

  /** `PastEnd`: the cursor moves beyond the terminating NUL. `NotModelled`: a number beyond the integers a
      double holds exactly. `Throws`: text left over. */
  datatype Parsed<T> = Done(value: T, at: nat) | PastEnd | NotModelled | Throws

  /** A character that is no hexadecimal digit counts as zero. */
  function HexValue(c: char): (v: nat)
    ensures v < 16
  {
    if '0' <= c <= '9' then (c - '0') as nat
    else if 'a' <= c <= 'f' then (c - 'a') as nat + 10
    else if 'A' <= c <= 'F' then (c - 'A') as nat + 10
    else 0
  }

  datatype Hex = Hex(value: nat, at: nat)

  /** Below this, k more digits keep a number within sixteen bits. */
  function HexBound(k: nat): nat {
    if k == 0 then 0x10000 else if k == 1 then 0x1000 else if k == 2 then 0x100 else if k == 3 then 0x10 else 1
  }

  /** At most k digits, fewer at the end of the text. */
  function ReadHex(s: string, p: nat, k: nat, acc: nat): (r: Hex)
    requires p <= |s| && k <= 4 && acc < HexBound(k)
    ensures p <= r.at <= |s| && r.value < 0x10000
    decreases k
  {
    if k == 0 || p == |s| then Hex(acc, p) else ReadHex(s, p + 1, k - 1, acc * 16 + HexValue(s[p]))
  }

  datatype Point = Point(cp: nat, at: nat)

  /** After `\u`: a code unit, or two when they look like a surrogate pair. */
  function ReadUnicode(s: string, p: nat): (r: Point)
    requires p <= |s|
    ensures p <= r.at <= |s| && r.cp < 0x20_0000
  {
    var h := ReadHex(s, p, 4, 0);
    if 0xD800 <= h.value <= 0xDBFF && Is(s, h.at, '\\') && Is(s, h.at + 1, 'u') then
      var lo := ReadHex(s, h.at + 2, 4, 0);
      Point(0x10000 + (h.value - 0xD800) * 1024 + lo.value - 0xDC00, lo.at)
    else Point(h.value, h.at)
  }

  function Unescape(c: char): char {
    if c == 'n' then '\n' else if c == 't' then '\t' else if c == 'r' then '\r'
    else if c == 'b' then 8 as char else if c == 'f' then 12 as char else c
  }

  /** From inside a string, with `acc` already in the buffer. */
  function StringFrom(s: string, p: nat, acc: string): (r: Parsed<string>)
    requires p <= |s|
    ensures r.Done? ==> p <= r.at <= |s|
    ensures r.Done? || r.PastEnd?
    decreases |s| - p, 0
  {
    if p == |s| then Done(acc, p)
    else if s[p] == '"' then Done(acc, p + 1)
    else if s[p] != '\\' then StringFrom(s, p + 1, acc + [s[p]])
    else if p + 1 == |s| then PastEnd
    else if s[p + 1] == 'u' then UnicodeFrom(s, p + 2, acc)
    else StringFrom(s, p + 2, acc + [Unescape(s[p + 1])])
  }

  function UnicodeFrom(s: string, p: nat, acc: string): (r: Parsed<string>)
    requires p <= |s|
    ensures r.Done? ==> p <= r.at <= |s|
    ensures r.Done? || r.PastEnd?
    decreases |s| - p, 1
  {
    var u := ReadUnicode(s, p);
    StringFrom(s, u.at, acc + Utf8.Encode(u.cp))
  }

  /** `fl_str_val`: a C string ends at its first NUL. */
  function UpToNul(t: string): string {
    if t == "" || t[0] == '\0' then "" else [t[0]] + UpToNul(t[1..])
  }

  /** From the opening quote. */
  function ParseString(s: string, p: nat): (r: Parsed<Value>)
    requires p < |s|
    ensures r.Done? ==> p < r.at <= |s| && r.value.Str?
  {
    match StringFrom(s, p + 1, "")
    case Done(buf, at) => Done(Str(UpToNul(buf)), at)
    case other => PastEnd
  }

  function ReadDigits(s: string, p: nat, acc: nat): (r: Hex)
    requires p <= |s|
    ensures p <= r.at <= |s| && (p < |s| && IsDigit(s[p]) ==> p < r.at)
    decreases |s| - p
  {
    if p < |s| && IsDigit(s[p]) then ReadDigits(s, p + 1, acc * 10 + (s[p] - '0') as nat) else Hex(acc, p)
  }

  function Signed(neg: bool, n: int): int {
    if neg then -n else n
  }

  /** `strtod` on decimal integers; a character that starts no number is skipped and gives nil. */
  function ParseNumber(s: string, p: nat): (r: Parsed<Value>)
    requires p < |s|
    ensures r.Done? ==> p < r.at <= |s|
  {
    var neg := s[p] == '-';
    var q := if neg then p + 1 else p;
    if q < |s| && IsDigit(s[q]) then
      var d := ReadDigits(s, q, 0);
      if d.value > EXACT || (d.at < |s| && (s[d.at] == '.' || s[d.at] == 'e' || s[d.at] == 'E' || s[d.at] == 'x' || s[d.at] == 'X'))
      then NotModelled
      else Done(Int(Signed(neg, d.value)), d.at)
    else if neg || s[p] == '+' || s[p] == '.' || s[p] == 'i' || s[p] == 'I' || s[p] == 'n' || s[p] == 'N' then NotModelled
    else Done(Nil, p + 1)
  }

  /** Consumes at least one character, whatever the text. */
  function ParseValue(s: string, p0: nat): (r: Parsed<Value>)
    requires p0 <= |s|
    ensures r.Done? ==> p0 < r.at <= |s|
    decreases |s| - p0, 1
  {
    var p := SkipWs(s, p0);
    if p == |s| then PastEnd
    else if s[p] == '"' then ParseString(s, p)
    else if s[p] == '[' then
      var q := SkipWs(s, p + 1);
      if Is(s, q, ']') then Done(Vec([]), q + 1) else ArrayFrom(s, q, [])
    else if s[p] == '{' then
      var q := SkipWs(s, p + 1);
      if Is(s, q, '}') then Done(EMPTY_MAP, q + 1) else ObjectFrom(s, q, EMPTY_MAP)
    else if Strings.OccursAt(s, "null", p) then Done(Nil, p + 4)
    else if Strings.OccursAt(s, "true", p) then Done(Bool(true), p + 4)
    else if Strings.OccursAt(s, "false", p) then Done(Bool(false), p + 5)
    else ParseNumber(s, p)
  }

  function Close(s: string, p: nat, c: char): (r: nat)
    requires p <= |s|
    ensures p <= r <= |s|
  {
    if Is(s, p, c) then p + 1 else p
  }

  /** The head of the array loop. */
  function ArrayFrom(s: string, p: nat, acc: seq<Value>): (r: Parsed<Value>)
    requires p <= |s|
    ensures r.Done? ==> p <= r.at <= |s|
    decreases |s| - p, 2
  {
    if p == |s| then Done(Vec(acc), p)
    else
      match ParseValue(s, SkipWs(s, p))
      case Done(v, at) => NextItem(s, at, acc + [v])
      case other => other
  }

  /** After an element. */
  function NextItem(s: string, p: nat, acc: seq<Value>): (r: Parsed<Value>)
    requires p <= |s|
    ensures r.Done? ==> p <= r.at <= |s|
    decreases |s| - p, 3
  {
    var q := SkipWs(s, p);
    if Is(s, q, ',') then ArrayFrom(s, q + 1, acc) else Done(Vec(acc), Close(s, q, ']'))
  }

  /** The head of the object loop. */
  function ObjectFrom(s: string, p: nat, acc: Value): (r: Parsed<Value>)
    requires p <= |s|
    ensures r.Done? ==> p <= r.at <= |s|
    decreases |s| - p, 2
  {
    if p == |s| then Done(acc, p)
    else
      var k := SkipWs(s, p);
      if !Is(s, k, '"') then Done(acc, Close(s, k, '}'))
      else
        var key := ParseString(s, k);
        if key.Done? then EntryFrom(s, key.at, acc, key.value) else key
  }

  /** After the key. */
  function EntryFrom(s: string, a: nat, acc: Value, key: Value): (r: Parsed<Value>)
    requires a <= |s|
    ensures r.Done? ==> a <= r.at <= |s|
    decreases |s| - a, 4
  {
    match ParseValue(s, SkipWs(s, Close(s, SkipWs(s, a), ':')))
    case Done(v, b) => NextEntry(s, b, MapSet(acc, key, v))
    case other => other
  }

  /** After the value. */
  function NextEntry(s: string, b: nat, acc: Value): (r: Parsed<Value>)
    requires b <= |s|
    ensures r.Done? ==> b <= r.at <= |s|
    decreases |s| - b, 3
  {
    var q := SkipWs(s, b);
    if Is(s, q, ',') then ObjectFrom(s, q + 1, acc) else Done(acc, Close(s, q, '}'))
  }

  /** `fl_json_parse` */
  function ParseText(s: string): Parsed<Value> {
    match ParseValue(s, 0)
    case Done(v, at) => if SkipWs(s, at) < |s| then Throws else Done(v, |s|)
    case other => other
  }

  // ---------- What the parser makes of what the printer writes ----------

  ghost predicate NulFree(t: string) {
    forall i | 0 <= i < |t| :: t[i] != '\0'
  }

  /** What the model covers: integers and integral floats that a double holds, maps with string keys. */
  ghost predicate Printable(v: Value)
    decreases v
  {
    match v
    case Int(i) => -EXACT <= i <= EXACT
    case Float(f) => f == f.Floor as real && -EXACT <= f.Floor <= EXACT
    case Vec(items) => forall k | 0 <= k < |items| :: ItemOk(items, k)
    case Map(es) => forall k | 0 <= k < |es| :: EntryOk(es, k)
    case _ => true
  }

  ghost predicate ItemOk(items: seq<Value>, k: nat)
    requires k < |items|
    decreases items, 0
  {
    Printable(items[k])
  }

  ghost predicate EntryOk(es: seq<Entry>, k: nat)
    requires k < |es|
    decreases es, 0
  {
    assert es[k].val < es[k];
    es[k].key.Str? && Printable(es[k].val)
  }

  /** The value that comes back: floats as integers, functions as nil, strings up to a NUL, and of entries with one
      key a single one, at the first place with the last value. */
  function Canon(v: Value): Value
    decreases v
  {
    match v
    case Float(f) => Int(f.Floor)
    case Str(t) => Str(UpToNul(t))
    case Vec(items) => Vec(CanonItems(items, |items|))
    case Map(es) => CanonEntries(es, |es|)
    case Fn(_) => Nil
    case _ => v
  }

  function CanonItems(items: seq<Value>, i: nat): (r: seq<Value>)
    requires i <= |items|
    ensures |r| == i
    decreases items, i
  {
    if i == 0 then [] else CanonItems(items, i - 1) + [Canon(items[i - 1])]
  }

  function CanonEntries(es: seq<Entry>, i: nat): (r: Value)
    requires i <= |es|
    ensures r.Map?
    decreases es, i
  {
    if i == 0 then EMPTY_MAP
    else
      assert es[i - 1].key < es[i - 1] && es[i - 1].val < es[i - 1];
      MapSet(CanonEntries(es, i - 1), Canon(es[i - 1].key), Canon(es[i - 1].val))
  }

  ghost predicate EntriesOk(es: seq<Entry>) {
    forall k | 0 <= k < |es| :: EntryOk(es, k)
  }

  ghost predicate KeysDiffer(es: seq<Entry>, i: nat, j: nat)
    requires i < |es| && j < |es|
  {
    es[i].key != es[j].key
  }

  // Strings

  lemma {:induction false} NulFreeKept(t: string)
    requires NulFree(t)
    ensures UpToNul(t) == t
  {
    if t != "" {
      NulFreeKept(t[1..]);
    }
  }

  lemma {:induction false} AtUnicode(s: string, p: nat, acc: string, u: Point)
    requires p + 2 <= |s| && s[p] == '\\' && s[p + 1] == 'u' && u == ReadUnicode(s, p + 2)
    ensures StringFrom(s, p, acc) == StringFrom(s, u.at, acc + Utf8.Encode(u.cp))
  {
    assert StringFrom(s, p, acc) == UnicodeFrom(s, p + 2, acc);
  }

  lemma {:induction false} Surrogates(s: string, p: nat, high: nat, low: nat, cp: nat)
    requires p + 6 <= |s| && ReadHex(s, p, 4, 0) == Hex(high, p + 4) && 0xD800 <= high <= 0xDBFF
    requires s[p + 4] == '\\' && s[p + 5] == 'u' && ReadHex(s, p + 6, 4, 0) == Hex(low, p + 10)
    requires low >= 0xDC00 && cp == 0x10000 + (high - 0xD800) * 1024 + low - 0xDC00
    ensures ReadUnicode(s, p) == Point(cp, p + 10)
  {
  }

  // Integers

  /** What may follow a value. */
  ghost predicate Ends(s: string, p: nat) {
    p == |s| || (p < |s| && (s[p] == ',' || s[p] == ']' || s[p] == '}' || s[p] == ':' || IsSpace(s[p])))
  }

  /** Reading the digits of n after acc, then going on. */
  lemma {:induction false} DigitsReadBack(s: string, p: nat, n: nat, acc: nat)
    requires Ahead(s, p, PrintNat(n))
    ensures
      var q := p + |PrintNat(n)|;
      ReadDigits(s, p, acc) == ReadDigits(s, q, acc * Pow10(|PrintNat(n)|) + n)
    decreases n
  {
    if n < 10 {
      AheadFirst(s, p, PrintNat(n));
      assert Pow10(1) == 10;
    } else {
      var high, last := PrintNat(n / 10), ['0' + (n % 10) as char];
      AheadSplit(s, p, high, last);
      AheadFirst(s, p + |high|, last);
      DigitsReadBack(s, p, n / 10, acc);
      ShiftDigits(acc, Pow10(|high|), n);
    }
  }

  lemma {:induction false} NatReadsBack(s: string, p: nat, n: nat)
    requires Ahead(s, p, PrintNat(n)) && Ends(s, p + |PrintNat(n)|)
    ensures ReadDigits(s, p, 0) == Hex(n, p + |PrintNat(n)|)
  {
    DigitsReadBack(s, p, n, 0);
  }

  lemma {:induction false} IntValue(s: string, p: nat, i: int)
    requires Ahead(s, p, PrintInt(i)) && -EXACT <= i <= EXACT && Ends(s, p + |PrintInt(i)|)
    ensures p < |s| && (s[p] == '-' || IsDigit(s[p])) && ParseNumber(s, p) == Done(Int(i), p + |PrintInt(i)|)
  {
    AheadFirst(s, p, PrintInt(i));
    if i < 0 {
      AheadSplit(s, p, ['-'], PrintNat(-i));
      AheadFirst(s, p + 1, PrintNat(-i));
      NatReadsBack(s, p + 1, -i);
    } else {
      NatReadsBack(s, p, i);
    }
  }

  // Values

  lemma {:induction false} PrintStart(v: Value)
    ensures
      Print(v) != "" && !IsSpace(Print(v)[0]) && Print(v)[0] != ']' && Print(v)[0] != '}' && Print(v)[0] != ','
  {
  }

  lemma {:induction false} Word(s: string, p: nat, t: string)
    requires Ahead(s, p, t)
    ensures Strings.OccursAt(s, t, p)
  {
    assert s[p..p + |t|] == t;
    Strings.OccursIsSlice(s, t, p);
  }

  lemma {:induction false} WordValue(s: string, p: nat, v: Value)
    requires v.Nil? || v.Bool? || v.Fn?
    requires Ahead(s, p, Print(v))
    ensures p <= |s| && ParseValue(s, p) == Done(Canon(v), p + |Print(v)|)
  {
    AheadFirst(s, p, Print(v));
    Word(s, p, Print(v));
  }

  lemma {:induction false} Bracketed(s: string, p: nat, open: char, inner: string, close: char)
    requires Ahead(s, p, [open] + inner + [close])
    ensures Ahead(s, p + 1, inner + [close])
  {
    Assoc([open], inner, [close]);
    AheadSplit(s, p, [open], inner + [close]);
  }

  // White space

  ghost predicate Blank(t: string) {
    forall k | 0 <= k < |t| :: IsSpace(t[k])
  }

  lemma {:induction false} SkipsTo(s: string, p: nat, q: nat)
    requires p <= q <= |s| && forall k | p <= k < q :: IsSpace(s[k])
    ensures SkipWs(s, p) == SkipWs(s, q)
    decreases q - p
  {
    if p < q {
      SkipsTo(s, p + 1, q);
    }
  }

  lemma {:induction false} SkipsBlank(s: string, p: nat, t: string)
    requires Ahead(s, p, t) && Blank(t)
    ensures SkipWs(s, p) == SkipWs(s, p + |t|)
  {
    forall k | p <= k < p + |t|
      ensures IsSpace(s[k])
    {
      assert s[p + (k - p)] == t[k - p];
    }
    SkipsTo(s, p, p + |t|);
  }

  /** A value is read alike before and behind white space. */
  lemma {:induction false} ValueSkips(s: string, p: nat, q: nat)
    requires p <= |s| && q <= |s| && SkipWs(s, p) == SkipWs(s, q)
    ensures ParseValue(s, p) == ParseValue(s, q)
  {
  }

  lemma {:induction false} SkippedTwice(s: string, p: nat)
    requires p <= |s|
    ensures SkipWs(s, SkipWs(s, p)) == SkipWs(s, p) && ParseValue(s, SkipWs(s, p)) == ParseValue(s, p)
  {
    ValueSkips(s, p, SkipWs(s, p));
  }

  // What stands for a value, wherever it stands

  /** The value is read, and but for white space the cursor stops behind the text. */
  ghost predicate ReadAt(s: string, p: nat, text: string, v: Value) {
    Ahead(s, p, text) && Ends(s, p + |text|) ==>
      var r := ParseValue(s, p);
      r.Done? && r.value == v && SkipWs(s, r.at) == SkipWs(s, p + |text|)
  }

  /** Behind white space: something, and no closing bracket. */
  predicate Starts(text: string) {
    var k := SkipWs(text, 0);
    k < |text| && text[k] != ']' && text[k] != '}'
  }

  ghost predicate ReadsAs(text: string, v: Value) {
    Starts(text) && forall s, p :: ReadAt(s, p, text, v)
  }

  ghost predicate AllRead(texts: seq<string>, vals: seq<Value>) {
    |texts| == |vals| && forall k | 0 <= k < |vals| :: ReadsAs(texts[k], vals[k])
  }

  lemma {:induction false} StartsAt(s: string, p: nat, text: string, i: nat)
    requires Ahead(s, p, text) && i <= |text| && SkipWs(text, i) < |text|
    ensures p + i <= |s| && SkipWs(s, p + i) == p + SkipWs(text, i) < |s| && s[p + SkipWs(text, i)] == text[SkipWs(text, i)]
    decreases |text| - i
  {
    assert s[p + i] == text[i];
    if IsSpace(text[i]) {
      StartsAt(s, p, text, i + 1);
    }
  }

  ghost predicate Separator(s: string, p: nat) {
    p == |s| || Is(s, p, ',') || Is(s, p, ']') || Is(s, p, '}') || Is(s, p, ':')
  }

  lemma {:induction false} TextRead(s: string, p: nat, text: string, v: Value)
    requires ReadsAs(text, v) && Ahead(s, p, text) && Separator(s, p + |text|)
    ensures p < |s| && !Is(s, SkipWs(s, p), ']') && !Is(s, SkipWs(s, p), '}')
    ensures var r := ParseValue(s, p); r.Done? && r.value == v && SkipWs(s, r.at) == p + |text|
  {
    StartsAt(s, p, text, 0);
    assert ReadAt(s, p, text, v);
  }

  /** White space around a text changes nothing. */
  lemma {:induction false} PaddedReads(before: string, text: string, after: string, v: Value)
    requires Blank(before) && Blank(after) && ReadsAs(text, v)
    ensures ReadsAs(before + text + after, v)
  {
    var padded := before + text + after;
    PaddedStarts(before, text, after);
    forall s: string, p: nat
      ensures ReadAt(s, p, padded, v)
    {
      if Ahead(s, p, padded) && Ends(s, p + |padded|) {
        PaddedAt(s, p, before, text, after, v);
      }
    }
  }

  lemma {:induction false} PaddedStarts(before: string, text: string, after: string)
    requires Blank(before) && Starts(text)
    ensures Starts(before + text + after)
  {
    var padded := before + text + after;
    AheadSelf(padded);
    AheadSplit(padded, 0, before + text, after);
    AheadSplit(padded, 0, before, text);
    StartsBehind(padded, before, text);
  }

  lemma {:induction false} StartsBehind(s: string, before: string, text: string)
    requires Blank(before) && Starts(text) && Ahead(s, 0, before) && Ahead(s, |before|, text)
    ensures Starts(s)
  {
    SkipsBlank(s, 0, before);
    StartsAt(s, |before|, text, 0);
  }

  lemma {:induction false} PaddedAt(s: string, p: nat, before: string, text: string, after: string, v: Value)
    requires Blank(before) && Blank(after) && ReadsAs(text, v)
    requires Ahead(s, p, before + text + after) && Ends(s, p + |before + text + after|)
    ensures ReadAt(s, p, before + text + after, v)
  {
    AheadSplit(s, p, before + text, after);
    AheadSplit(s, p, before, text);
    EndsAt(s, p + |before| + |text|, after);
    assert ReadAt(s, p + |before|, text, v);
    PadsAway(s, p, before, p + |before| + |text|, after);
  }

  /** Neither the white space in front of a value nor that behind it makes a difference. */
  lemma {:induction false} PadsAway(s: string, p: nat, before: string, q: nat, after: string)
    requires Blank(before) && Blank(after) && Ahead(s, p, before) && Ahead(s, q, after)
    ensures ParseValue(s, p) == ParseValue(s, p + |before|) && SkipWs(s, q) == SkipWs(s, q + |after|)
  {
    SkipsBlank(s, p, before);
    SkipsBlank(s, q, after);
    ValueSkips(s, p, p + |before|);
  }

  lemma {:induction false} EndsAt(s: string, q: nat, after: string)
    requires Blank(after) && Ahead(s, q, after) && Ends(s, q + |after|)
    ensures Ends(s, q)
  {
    if after != "" {
      AheadFirst(s, q, after);
    }
  }

  // Vectors

  /** Texts with commas between them. */
  function Joined(texts: seq<string>, i: nat): string
    requires i <= |texts|
    decreases |texts| - i
  {
    if i == |texts| then "" else Comma(i) + texts[i] + Joined(texts, i + 1)
  }

  function ListText(texts: seq<string>): string {
    ['['] + Joined(texts, 0) + [']']
  }

  /** The texts from the i-th on, each where the previous one ends. */
  ghost predicate ItemsLaidOut(s: string, p: nat, texts: seq<string>, i: nat)
    requires i < |texts|
    decreases |texts| - i
  {
    var q := p + |texts[i]|;
    Ahead(s, p, texts[i]) && if i + 1 < |texts| then Is(s, q, ',') && ItemsLaidOut(s, q + 1, texts, i + 1) else Is(s, q, ']')
  }

  /** Where the vector ends. */
  ghost function ItemsEnd(p: nat, texts: seq<string>, i: nat): nat
    requires i < |texts|
    decreases |texts| - i
  {
    var q := p + |texts[i]| + 1;
    if i + 1 < |texts| then ItemsEnd(q, texts, i + 1) else q
  }

  lemma {:induction false} LayOutItems(s: string, p: nat, texts: seq<string>, i: nat)
    requires i < |texts|
    requires Ahead(s, p, texts[i] + (Joined(texts, i + 1) + [']']))
    ensures ItemsLaidOut(s, p, texts, i)
    ensures ItemsEnd(p, texts, i) == p + |texts[i]| + |Joined(texts, i + 1)| + 1
    decreases |texts| - i
  {
    var q := p + |texts[i]|;
    AheadSplit(s, p, texts[i], Joined(texts, i + 1) + [']']);
    AfterItem(s, q, texts, i + 1);
    if i + 1 < |texts| {
      LayOutItems(s, q + 1, texts, i + 1);
    }
  }

  lemma {:induction false} AfterItem(s: string, q: nat, texts: seq<string>, i: nat)
    requires 0 < i <= |texts|
    requires Ahead(s, q, Joined(texts, i) + [']'])
    ensures q < |s| && s[q] == if i == |texts| then ']' else ','
    ensures i < |texts| ==> Ahead(s, q + 1, texts[i] + (Joined(texts, i + 1) + [']']))
  {
    AheadFirst(s, q, Joined(texts, i) + [']']);
    if i < |texts| {
      Nest([','], texts[i], Joined(texts, i + 1), [']']);
      AheadSplit(s, q, [','], texts[i] + (Joined(texts, i + 1) + [']']));
    }
  }

  lemma {:induction false} ArrayStep(s: string, p: nat, acc: seq<Value>, v: Value, at: nat, next: nat)
    requires p < |s| && ParseValue(s, p) == Done(v, at) && at <= |s| && SkipWs(s, at) == next - 1
    requires Is(s, next - 1, ',') || Is(s, next - 1, ']')
    ensures ArrayFrom(s, p, acc) == if s[next - 1] == ',' then ArrayFrom(s, next, acc + [v]) else Done(Vec(acc + [v]), next)
  {
    SkippedTwice(s, p);
    assert ArrayFrom(s, p, acc) == NextItem(s, at, acc + [v]);
    AtComma(s, at, next, acc + [v]);
  }

  lemma {:induction false} AtComma(s: string, at: nat, next: nat, acc: seq<Value>)
    requires at <= |s| && SkipWs(s, at) == next - 1 && (Is(s, next - 1, ',') || Is(s, next - 1, ']'))
    ensures NextItem(s, at, acc) == if s[next - 1] == ',' then ArrayFrom(s, next, acc) else Done(Vec(acc), next)
  {
  }

  /** From the i-th element on, the comma before it already read. */
  lemma {:induction false} ItemsReadBack(s: string, p: nat, texts: seq<string>, vals: seq<Value>, i: nat)
    requires AllRead(texts, vals) && i < |texts| && ItemsLaidOut(s, p, texts, i)
    ensures p <= |s| && ArrayFrom(s, p, vals[..i]) == Done(Vec(vals), ItemsEnd(p, texts, i))
    decreases |texts| - i
  {
    var next := p + |texts[i]| + 1;
    ItemStep(s, p, texts[i], vals[..i], vals[i], next);
    Grown(vals, i);
    if i + 1 < |texts| {
      ItemsReadBack(s, next, texts, vals, i + 1);
    }
  }

  lemma {:induction false} ItemStep(s: string, p: nat, text: string, acc: seq<Value>, v: Value, next: nat)
    requires ReadsAs(text, v) && Ahead(s, p, text) && next == p + |text| + 1
    requires Is(s, next - 1, ',') || Is(s, next - 1, ']')
    ensures ArrayFrom(s, p, acc) == if s[next - 1] == ',' then ArrayFrom(s, next, acc + [v]) else Done(Vec(acc + [v]), next)
  {
    TextRead(s, p, text, v);
    ArrayStep(s, p, acc, v, ParseValue(s, p).at, next);
  }

  lemma {:induction false} Grown<T>(items: seq<T>, i: nat)
    requires i < |items|
    ensures items[..i] + [items[i]] == items[..i + 1] && (i + 1 == |items| ==> items[..i + 1] == items)
  {
  }

  lemma {:induction false} VectorReads(texts: seq<string>, vals: seq<Value>)
    requires AllRead(texts, vals)
    ensures ReadsAs(ListText(texts), Vec(vals))
  {
    forall s: string, p: nat ensures ReadAt(s, p, ListText(texts), Vec(vals)) {
      if Ahead(s, p, ListText(texts)) {
        AheadFirst(s, p, ListText(texts));
        Bracketed(s, p, '[', Joined(texts, 0), ']');
        if texts == [] {
          AheadFirst(s, p + 1, "" + [']']);
        } else {
          FromBracket(s, p, texts, vals);
        }
      }
    }
  }

  lemma {:induction false} FromBracket(s: string, p: nat, texts: seq<string>, vals: seq<Value>)
    requires AllRead(texts, vals) && texts != []
    requires Is(s, p, '[') && Ahead(s, p + 1, Joined(texts, 0) + [']'])
    ensures ParseValue(s, p) == Done(Vec(vals), p + 2 + |Joined(texts, 0)|)
  {
    assert Comma(0) + texts[0] == texts[0];
    Assoc(texts[0], Joined(texts, 1), [']']);
    LayOutItems(s, p + 1, texts, 0);
    ItemsReadBack(s, p + 1, texts, vals, 0);
    FirstText(s, p, texts, vals);
  }

  /** Past the opening bracket of a vector that is not empty. */
  lemma {:induction false} FirstText(s: string, p: nat, texts: seq<string>, vals: seq<Value>)
    requires AllRead(texts, vals) && texts != [] && Is(s, p, '[') && ItemsLaidOut(s, p + 1, texts, 0)
    ensures p + 1 <= |s| && ParseValue(s, p) == ArrayFrom(s, p + 1, vals[..0])
  {
    TextRead(s, p + 1, texts[0], vals[0]);
    assert vals[..0] == [];
    PastBracket(s, p);
  }

  lemma {:induction false} PastBracket(s: string, p: nat)
    requires Is(s, p, '[') && SkipWs(s, p + 1) < |s| && s[SkipWs(s, p + 1)] != ']'
    ensures ParseValue(s, p) == ArrayFrom(s, p + 1, [])
  {
    AtBracket(s, p);
    ArraySkips(s, p + 1);
  }

  lemma {:induction false} AtBracket(s: string, p: nat)
    requires Is(s, p, '[')
    ensures
      var q := SkipWs(s, p + 1);
      ParseValue(s, p) == if Is(s, q, ']') then Done(Vec([]), q + 1) else ArrayFrom(s, q, [])
  {
    assert SkipWs(s, p) == p;
  }

  lemma {:induction false} ArraySkips(s: string, p: nat)
    requires p <= |s| && SkipWs(s, p) < |s|
    ensures ArrayFrom(s, SkipWs(s, p), []) == ArrayFrom(s, p, [])
  {
    SkippedTwice(s, p);
  }

  // Maps

  /** How an entry is written, and what it is read as. */
  datatype Pair = Pair(keyText: string, valText: string, key: Value, val: Value)

  /** Entries with commas between them. */
  function JoinedPairs(pairs: seq<Pair>, i: nat): string
    requires i <= |pairs|
    decreases |pairs| - i
  {
    if i == |pairs| then ""
    else Comma(i) + pairs[i].keyText + [':'] + pairs[i].valText + JoinedPairs(pairs, i + 1)
  }

  function MapText(pairs: seq<Pair>): string {
    ['{'] + JoinedPairs(pairs, 0) + ['}']
  }

  /** One entry and everything after it, up to the closing brace. */
  function Body(pairs: seq<Pair>, i: nat): string
    requires i < |pairs|
  {
    pairs[i].keyText + ([':'] + (pairs[i].valText + (JoinedPairs(pairs, i + 1) + ['}'])))
  }

  lemma {:induction false} BodyIs(pairs: seq<Pair>, i: nat)
    requires i < |pairs|
    ensures JoinedPairs(pairs, i) + ['}'] == Comma(i) + Body(pairs, i)
  {
    var a, b, c, d := Comma(i), pairs[i].keyText, pairs[i].valText, JoinedPairs(pairs, i + 1);
    Nest(a + b, [':'], c + d, ['}']);
    Assoc(c, d, ['}']);
    Assoc(a + b + [':'], c, d);
    Assoc(a, b, [':'] + (c + (d + ['}'])));
  }

  lemma {:induction false} BodyLength(pairs: seq<Pair>, i: nat)
    requires i < |pairs|
    ensures |Body(pairs, i)| == Width(pairs[i]) + if i + 1 < |pairs| then |Body(pairs, i + 1)| else 0
  {
    if i + 1 < |pairs| {
      BodyIs(pairs, i + 1);
    }
  }

  ghost predicate KeyAt(s: string, p: nat, text: string, key: Value) {
    Ahead(s, p, text) && Is(s, p + |text|, ':') ==>
      var k := SkipWs(s, p);
      Is(s, k, '"') && (var r := ParseString(s, k); r.Done? && r.value == key && SkipWs(s, r.at) == p + |text|)
  }

  ghost predicate PairReads(pair: Pair) {
    (forall s, p :: KeyAt(s, p, pair.keyText, pair.key)) && ReadsAs(pair.valText, pair.val)
  }

  /** How an entry is added to a map: `SET`, but what is said of lists of entries needs little of it. */
  type Put = (Value, Value, Value) -> Value

  const SET: Put := (m: Value, k: Value, v: Value) => MapSet(m, k, v)

  /** acc[i] is the map after i entries. */
  ghost predicate Accumulates(put: Put, pairs: seq<Pair>, acc: seq<Value>) {
    |acc| == |pairs| + 1 && forall k {:trigger AddsPair(put, pairs, acc, k)} | 0 <= k < |pairs| :: AddsPair(put, pairs, acc, k)
  }

  ghost predicate AddsPair(put: Put, pairs: seq<Pair>, acc: seq<Value>, k: nat)
    requires k < |pairs| == |acc| - 1
  {
    PairReads(pairs[k]) && acc[k + 1] == put(acc[k], pairs[k].key, pairs[k].val)
  }

  function Width(pair: Pair): nat {
    |pair.keyText| + 1 + |pair.valText| + 1
  }

  /** Where the k-th entry begins. */
  ghost function PosAt(p: nat, pairs: seq<Pair>, k: nat): nat
    requires k <= |pairs|
  {
    if k == 0 then p else PosAt(p, pairs, k - 1) + Width(pairs[k - 1])
  }

  /** One entry with what comes behind it. */
  ghost predicate LaidAt(s: string, q: nat, pair: Pair, more: bool) {
    var a := q + |pair.keyText|;
    var b := a + 1 + |pair.valText|;
    Ahead(s, q, pair.keyText) && Is(s, a, ':') && Ahead(s, a + 1, pair.valText) && Is(s, b, if more then ',' else '}')
  }

  ghost predicate EntryLaid(s: string, p: nat, pairs: seq<Pair>, k: nat)
    requires k < |pairs|
  {
    LaidAt(s, PosAt(p, pairs, k), pairs[k], k + 1 < |pairs|)
  }

  ghost predicate LaidOut(s: string, p: nat, pairs: seq<Pair>) {
    forall k {:trigger EntryLaid(s, p, pairs, k)} | 0 <= k < |pairs| :: EntryLaid(s, p, pairs, k)
  }

  lemma {:induction false} BodyLaidOut(s: string, p: nat, pairs: seq<Pair>)
    requires pairs != [] && Ahead(s, p, Body(pairs, 0))
    ensures LaidOut(s, p, pairs) && PosAt(p, pairs, |pairs|) == p + |Body(pairs, 0)|
  {
    forall k | 0 <= k < |pairs|
      ensures EntryLaid(s, p, pairs, k)
    {
      BodyAt(s, p, pairs, k);
      EntryAhead(s, PosAt(p, pairs, k), pairs, k);
    }
    BodyAt(s, p, pairs, |pairs| - 1);
    BodyLength(pairs, |pairs| - 1);
  }

  lemma {:induction false} BodyAt(s: string, p: nat, pairs: seq<Pair>, k: nat)
    requires k < |pairs| && Ahead(s, p, Body(pairs, 0))
    ensures Ahead(s, PosAt(p, pairs, k), Body(pairs, k)) && PosAt(p, pairs, k) + |Body(pairs, k)| == p + |Body(pairs, 0)|
    decreases k
  {
    if k > 0 {
      BodyAt(s, p, pairs, k - 1);
      NextBody(s, p, pairs, k - 1);
    }
  }

  lemma {:induction false} NextBody(s: string, p: nat, pairs: seq<Pair>, k: nat)
    requires k + 1 < |pairs| && Ahead(s, PosAt(p, pairs, k), Body(pairs, k))
    ensures Ahead(s, PosAt(p, pairs, k + 1), Body(pairs, k + 1))
    ensures PosAt(p, pairs, k + 1) + |Body(pairs, k + 1)| == PosAt(p, pairs, k) + |Body(pairs, k)|
  {
    EntryAhead(s, PosAt(p, pairs, k), pairs, k);
    BodyLength(pairs, k);
  }

  lemma {:induction false} EntryAhead(s: string, p: nat, pairs: seq<Pair>, i: nat)
    requires i < |pairs| && Ahead(s, p, Body(pairs, i))
    ensures LaidAt(s, p, pairs[i], i + 1 < |pairs|)
    ensures i + 1 < |pairs| ==> Ahead(s, p + Width(pairs[i]), Body(pairs, i + 1))
  {
    var pair, rest := pairs[i], JoinedPairs(pairs, i + 1) + ['}'];
    var a := p + |pair.keyText|;
    AheadSplit(s, p, pair.keyText, [':'] + (pair.valText + rest));
    AheadSplit(s, a, [':'], pair.valText + rest);
    AheadFirst(s, a, [':']);
    AheadSplit(s, a + 1, pair.valText, rest);
    AfterEntry(s, a + 1 + |pair.valText|, pairs, i + 1);
  }

  lemma {:induction false} AfterEntry(s: string, b: nat, pairs: seq<Pair>, i: nat)
    requires 0 < i <= |pairs| && Ahead(s, b, JoinedPairs(pairs, i) + ['}'])
    ensures if i < |pairs| then Is(s, b, ',') && Ahead(s, b + 1, Body(pairs, i)) else Is(s, b, '}')
  {
    AheadFirst(s, b, JoinedPairs(pairs, i) + ['}']);
    if i < |pairs| {
      BodyIs(pairs, i);
      AheadSplit(s, b, [','], Body(pairs, i));
    }
  }

  /** The head of the object loop, at any number. */
  function Object(s: string, q: nat, acc: Value): Parsed<Value> {
    if q <= |s| then ObjectFrom(s, q, acc) else PastEnd
  }

  /** A reader of entries: from a place in the text, with the map so far. */
  type EntryReader = (nat, Value) -> Parsed<Value>

  function ObjectOf(s: string): EntryReader {
    (q: nat, m: Value) => Object(s, q, m)
  }

  ghost predicate KeyAhead(s: string, q: nat) {
    q <= |s| && Is(s, SkipWs(s, q), '"')
  }

  /** Where an entry is laid out, the reader adds it and goes on behind it. */
  ghost predicate Steps(obj: EntryReader, put: Put, s: string, q: nat, pair: Pair, m: Value, more: bool) {
    PairReads(pair) && LaidAt(s, q, pair, more) ==>
      var m' := put(m, pair.key, pair.val);
      KeyAhead(s, q) && obj(q, m) == if more then obj(q + Width(pair), m') else Done(m', q + Width(pair))
  }

  ghost predicate AllSteps(obj: EntryReader, put: Put, s: string) {
    forall q, pair, m, more {:trigger Steps(obj, put, s, q, pair, m, more)} :: Steps(obj, put, s, q, pair, m, more)
  }

  /** From the i-th entry on, the comma before it already read. */
  lemma {:induction false} EntriesReadBack(obj: EntryReader, put: Put, s: string, p: nat, pairs: seq<Pair>, acc: seq<Value>, i: nat)
    requires AllSteps(obj, put, s) && Accumulates(put, pairs, acc) && i < |pairs| && LaidOut(s, p, pairs)
    ensures
      var q := PosAt(p, pairs, i);
      KeyAhead(s, q) && obj(q, acc[i]) == Done(acc[|pairs|], PosAt(p, pairs, |pairs|))
    decreases |pairs| - i
  {
    assert AddsPair(put, pairs, acc, i) && EntryLaid(s, p, pairs, i);
    assert Steps(obj, put, s, PosAt(p, pairs, i), pairs[i], acc[i], i + 1 < |pairs|);
    if i + 1 < |pairs| {
      EntriesReadBack(obj, put, s, p, pairs, acc, i + 1);
    }
  }

  lemma {:induction false} ObjectSteps(s: string)
    ensures AllSteps(ObjectOf(s), SET, s)
  {
    forall q: nat, pair, m, more
      ensures Steps(ObjectOf(s), SET, s, q, pair, m, more)
    {
      if PairReads(pair) && LaidAt(s, q, pair, more) {
        OneEntry(s, q, pair, m, MapSet(m, pair.key, pair.val), more, q + Width(pair));
      }
    }
  }

  lemma {:induction false} OneEntry(s: string, p: nat, pair: Pair, acc: Value, acc': Value, more: bool, end: nat)
    requires PairReads(pair) && LaidAt(s, p, pair, more) && acc' == MapSet(acc, pair.key, pair.val) && end == p + Width(pair)
    ensures KeyAhead(s, p)
    ensures Object(s, p, acc) == if more then Object(s, end, acc') else Done(acc', end)
  {
    var a := p + |pair.keyText|;
    var x := KeySpot(s, p, a, pair, more);
    var y, z := ValueBehind(s, x, a, pair.valText, pair.val, end);
    ObjectKey(s, p, acc, pair.key, x);
    EntryTail(s, x, y, z, end, acc, pair.key, pair.val, acc', more);
  }

  /** The place behind the key. */
  lemma {:induction false} KeySpot(s: string, p: nat, a: nat, pair: Pair, more: bool) returns (x: nat)
    requires PairReads(pair) && LaidAt(s, p, pair, more) && a == p + |pair.keyText|
    ensures KeyAhead(s, p) && ParseString(s, SkipWs(s, p)) == Done(pair.key, x) && x <= |s| && SkipWs(s, x) == a
  {
    assert KeyAt(s, p, pair.keyText, pair.key);
    x := ParseString(s, SkipWs(s, p)).at;
  }

  /** The value behind a colon: the places before and behind it. */
  lemma {:induction false} ValueBehind(s: string, x: nat, a: nat, text: string, v: Value, end: nat) returns (y: nat, z: nat)
    requires x <= |s| && SkipWs(s, x) == a && Is(s, a, ':')
    requires ReadsAs(text, v) && Ahead(s, a + 1, text) && end == a + 1 + |text| + 1 && Separator(s, end - 1)
    ensures y == SkipWs(s, Close(s, SkipWs(s, x), ':')) <= |s| && ParseValue(s, y) == Done(v, z)
    ensures z <= |s| && SkipWs(s, z) == end - 1
  {
    TextRead(s, a + 1, text, v);
    z := ParseValue(s, a + 1).at;
    y := PastColon(s, x, a);
  }

  lemma {:induction false} EntryTail(s: string, at: nat, q: nat, e: nat, end: nat, acc: Value, key: Value, v: Value, acc': Value, more: bool)
    requires at <= |s| && q == SkipWs(s, Close(s, SkipWs(s, at), ':')) <= |s| && ParseValue(s, q) == Done(v, e)
    requires e <= |s| && SkipWs(s, e) == end - 1 && Is(s, end - 1, if more then ',' else '}') && acc' == MapSet(acc, key, v)
    ensures EntryFrom(s, at, acc, key) == if more then Object(s, end, acc') else Done(acc', end)
  {
    EntryStep(s, at, q, acc, key, v, e, acc');
    AtSeparator(s, e, end, acc', more);
  }

  lemma {:induction false} EntryStep(s: string, at: nat, q: nat, acc: Value, key: Value, v: Value, b: nat, acc': Value)
    requires at <= |s| && q <= |s| && SkipWs(s, Close(s, SkipWs(s, at), ':')) == q && ParseValue(s, q) == Done(v, b) && b <= |s|
    requires acc' == MapSet(acc, key, v)
    ensures EntryFrom(s, at, acc, key) == NextEntry(s, b, acc')
  {
  }

  /** Behind a key: past the colon and the white space on both sides. */
  lemma {:induction false} PastColon(s: string, at: nat, a: nat) returns (q: nat)
    requires at <= |s| && SkipWs(s, at) == a && Is(s, a, ':')
    ensures Close(s, SkipWs(s, at), ':') == a + 1 <= |s| && q == SkipWs(s, a + 1) && ParseValue(s, q) == ParseValue(s, a + 1)
  {
    q := SkipWs(s, a + 1);
    SkippedTwice(s, a + 1);
  }

  lemma {:induction false} ObjectKey(s: string, p: nat, acc: Value, key: Value, at: nat)
    requires KeyAhead(s, p) && ParseString(s, SkipWs(s, p)) == Done(key, at) && at <= |s|
    ensures Object(s, p, acc) == EntryFrom(s, at, acc, key)
  {
  }

  lemma {:induction false} AtSeparator(s: string, at: nat, end: nat, acc: Value, more: bool)
    requires at <= |s| && SkipWs(s, at) == end - 1 && Is(s, end - 1, if more then ',' else '}')
    ensures NextEntry(s, at, acc) == if more then Object(s, end, acc) else Done(acc, end)
  {
  }

  lemma {:induction false} MapReads(pairs: seq<Pair>, acc: seq<Value>)
    requires Accumulates(SET, pairs, acc) && acc[0] == EMPTY_MAP
    ensures ReadsAs(MapText(pairs), acc[|pairs|])
  {
    forall s: string, p: nat ensures ReadAt(s, p, MapText(pairs), acc[|pairs|]) {
      if Ahead(s, p, MapText(pairs)) {
        AheadFirst(s, p, MapText(pairs));
        Bracketed(s, p, '{', JoinedPairs(pairs, 0), '}');
        if pairs == [] {
          AheadFirst(s, p + 1, "" + ['}']);
        } else {
          FromBrace(s, p, pairs, acc);
        }
      }
    }
  }

  lemma {:induction false} FromBrace(s: string, p: nat, pairs: seq<Pair>, acc: seq<Value>)
    requires Accumulates(SET, pairs, acc) && acc[0] == EMPTY_MAP && pairs != []
    requires Is(s, p, '{') && Ahead(s, p + 1, JoinedPairs(pairs, 0) + ['}'])
    ensures ParseValue(s, p) == Done(acc[|pairs|], p + 2 + |JoinedPairs(pairs, 0)|)
  {
    BodyIs(pairs, 0);
    assert Comma(0) + Body(pairs, 0) == Body(pairs, 0);
    BodyLaidOut(s, p + 1, pairs);
    ObjectSteps(s);
    EntriesReadBack(ObjectOf(s), SET, s, p + 1, pairs, acc, 0);
    FirstKey(s, p);
  }

  /** Past the opening brace of a map that is not empty. */
  lemma {:induction false} FirstKey(s: string, p: nat)
    requires Is(s, p, '{') && KeyAhead(s, p + 1)
    ensures ParseValue(s, p) == ObjectFrom(s, p + 1, EMPTY_MAP)
  {
    AtBrace(s, p);
    ObjectSkips(s, p + 1);
  }

  lemma {:induction false} AtBrace(s: string, p: nat)
    requires Is(s, p, '{')
    ensures
      var q := SkipWs(s, p + 1);
      ParseValue(s, p) == if Is(s, q, '}') then Done(EMPTY_MAP, q + 1) else ObjectFrom(s, q, EMPTY_MAP)
  {
    assert SkipWs(s, p) == p;
  }

  lemma {:induction false} ObjectSkips(s: string, p: nat)
    requires KeyAhead(s, p)
    ensures ObjectFrom(s, SkipWs(s, p), EMPTY_MAP) == ObjectFrom(s, p, EMPTY_MAP)
  {
    SkippedTwice(s, p);
  }

  // Printed values

  function Printed(items: seq<Value>): (r: seq<string>)
    ensures |r| == |items| && forall k | 0 <= k < |r| :: r[k] == Print(items[k])
  {
    seq(|items|, k requires 0 <= k < |items| => Print(items[k]))
  }

  lemma {:induction false} ItemsAreJoined(items: seq<Value>, i: nat)
    requires i <= |items|
    ensures ItemsFrom(items, i) == Joined(Printed(items), i)
    decreases |items| - i
  {
    if i < |items| {
      ItemsAreJoined(items, i + 1);
    }
  }

  lemma {:induction false} EntriesAreJoined(es: seq<Entry>, i: nat)
    requires i <= |es|
    ensures EntriesFrom(es, i) == JoinedPairs(PairsOf(es), i)
    decreases |es| - i
  {
    if i < |es| {
      EntriesAreJoined(es, i + 1);
    }
  }

  lemma {:induction false} IntReads(v: Value, i: int)
    requires Print(v) == PrintInt(i) && -EXACT <= i <= EXACT
    ensures ReadsAs(Print(v), Int(i))
  {
    PrintStart(v);
    forall s: string, p: nat ensures ReadAt(s, p, Print(v), Int(i)) {
      if Ahead(s, p, Print(v)) && Ends(s, p + |Print(v)|) {
        IntValue(s, p, i);
      }
    }
  }

  lemma {:induction false} WordReads(v: Value)
    requires v.Nil? || v.Bool? || v.Fn?
    ensures ReadsAs(Print(v), Canon(v))
  {
    PrintStart(v);
    forall s: string, p: nat ensures ReadAt(s, p, Print(v), Canon(v)) {
      if Ahead(s, p, Print(v)) {
        WordValue(s, p, v);
      }
    }
  }

  function PairsOf(es: seq<Entry>): (r: seq<Pair>)
    ensures |r| == |es| && forall k | 0 <= k < |r| :: r[k] == PairOf(es[k])
  {
    seq(|es|, k requires 0 <= k < |es| => PairOf(es[k]))
  }

  function PairOf(e: Entry): Pair {
    Pair(Print(e.key), Print(e.val), Canon(e.key), Canon(e.val))
  }

  /** The map after each number of entries. */
  function Partial(es: seq<Entry>): (r: seq<Value>)
    ensures |r| == |es| + 1 && forall k | 0 <= k < |r| :: r[k] == CanonEntries(es, k)
  {
    seq(|es| + 1, k requires 0 <= k <= |es| => CanonEntries(es, k))
  }

  lemma {:induction false} CanonAdds(es: seq<Entry>, k: nat)
    requires k < |es|
    ensures CanonEntries(es, k + 1) == SET(CanonEntries(es, k), Canon(es[k].key), Canon(es[k].val))
  {
  }

  lemma {:induction false} EscNulFree(t: string)
    ensures NulFree(Esc(t))
  {
    if t != "" {
      EscNulFree(t[1..]);
    }
  }

  lemma {:induction false} PrintNulFree(v: Value)
    ensures NulFree(Print(v))
    decreases v, 0
  {
    match v {
      case Str(t) => EscNulFree(t);
      case Vec(items) => ItemsNulFree(items, 0);
      case Map(es) => EntriesNulFree(es, 0);
      case _ =>
    }
  }

  lemma {:induction false} ItemsNulFree(items: seq<Value>, i: nat)
    requires i <= |items|
    ensures NulFree(ItemsFrom(items, i))
    decreases items, |items| - i
  {
    if i < |items| {
      PrintNulFree(items[i]);
      ItemsNulFree(items, i + 1);
    }
  }

  lemma {:induction false} EntriesNulFree(es: seq<Entry>, i: nat)
    requires i <= |es|
    ensures NulFree(EntriesFrom(es, i))
    decreases es, |es| - i
  {
    if i < |es| {
      assert es[i].key < es[i] && es[i].val < es[i];
      PrintNulFree(es[i].key);
      PrintNulFree(es[i].val);
      EntriesNulFree(es, i + 1);
    }
  }

  // ---------- What comes back unchanged ----------

  /** No floats, no functions, no NUL, and no key twice in one map. */
  ghost predicate Jsonable(v: Value)
    decreases v
  {
    match v
    case Float(_) => false
    case Fn(_) => false
    case Str(t) => NulFree(t)
    case Vec(items) => forall k | 0 <= k < |items| :: Jsonable(items[k])
    case Map(es) =>
      (forall k | 0 <= k < |es| :: JsonEntry(es, k)) && forall i, j | 0 <= i < j < |es| :: KeysDiffer(es, i, j)
    case _ => true
  }

  ghost predicate JsonEntry(es: seq<Entry>, k: nat)
    requires k < |es|
    decreases es, 0
  {
    assert es[k].key < es[k] && es[k].val < es[k];
    Jsonable(es[k].key) && Jsonable(es[k].val)
  }

  lemma {:induction false} NulEnds(t: string)
    ensures UpToNul(t) == t <==> NulFree(t)
  {
    if t != "" && t[0] != '\0' {
      NulEnds(t[1..]);
      assert UpToNul(t)[1..] == UpToNul(t[1..]);
      assert NulFree(t) <==> NulFree(t[1..]) by {
        assert forall i | 0 <= i < |t| - 1 :: t[1..][i] == t[i + 1];
        assert forall i | 1 <= i < |t| :: t[i] == t[1..][i - 1];
      }
    }
  }

  lemma {:induction false} CanonItem(items: seq<Value>, i: nat, k: nat)
    requires k < i <= |items|
    ensures CanonItems(items, i)[k] == Canon(items[k])
    decreases i
  {
    if k < i - 1 {
      CanonItem(items, i - 1, k);
    }
  }

  /** The first i entries are kept apart and in order. */
  ghost predicate KeptEntries(es: seq<Entry>, i: nat)
    requires i <= |es|
  {
    var r := CanonEntries(es, i).entries;
    |r| == i && forall k | 0 <= k < i :: r[k] == Entry(Canon(es[k].key), Canon(es[k].val))
  }

  ghost predicate KeysApart(es: seq<Entry>, i: nat)
    requires i <= |es|
  {
    forall j, k | 0 <= j < k < i :: Canon(es[j].key) != Canon(es[k].key)
  }

  /** Entries added one after the other. */
  function PutAll(put: Put, list: seq<Entry>, i: nat): Value
    requires i <= |list|
  {
    if i == 0 then EMPTY_MAP else put(PutAll(put, list, i - 1), list[i - 1].key, list[i - 1].val)
  }

  ghost predicate StringKeys(list: seq<Entry>) {
    forall k | 0 <= k < |list| :: list[k].key.Str?
  }

  ghost predicate Apart(list: seq<Entry>, i: nat)
    requires i <= |list|
  {
    forall j, k | 0 <= j < k < i :: list[j].key != list[k].key
  }

  ghost predicate NewTo(list: seq<Entry>, key: Value) {
    forall k | 0 <= k < |list| :: list[k].key != key
  }

  lemma {:induction false} KeyFound(list: seq<Entry>, key: Value)
    requires StringKeys(list) && key.Str?
    ensures KeyIndex(list, key).None? <==> NewTo(list, key)
  {
    forall k | 0 <= k < |list|
      ensures FlEq(list[k].key, key) <==> list[k].key == key
    {
    }
  }

  /** An entry with a new key goes to the end, any other replaces one; at most one entry is added. */
  ghost predicate PutsRight(put: Put, es: seq<Entry>, k: Value, v: Value) {
    var r := put(Map(es), k, v);
    r.Map? && |r.entries| <= |es| + 1
    && (StringKeys(es) && k.Str? ==>
          if NewTo(es, k) then r.entries == es + [Entry(k, v)] else |r.entries| == |es|)
  }

  ghost predicate AllRight(put: Put) {
    forall es, k, v {:trigger PutsRight(put, es, k, v)} :: PutsRight(put, es, k, v)
  }

  lemma {:induction false} SetIsRight()
    ensures AllRight(SET)
  {
    forall es, k, v
      ensures PutsRight(SET, es, k, v)
    {
      if StringKeys(es) && k.Str? {
        KeyFound(es, k);
      }
    }
  }

  /** All entries are kept if and only if no key comes twice; otherwise some are lost. */
  lemma {:induction false} AllKept(put: Put, list: seq<Entry>, i: nat)
    requires i <= |list| && StringKeys(list) && AllRight(put)
    ensures
      var r := PutAll(put, list, i);
      r.Map? && |r.entries| <= i && (|r.entries| == i ==> r.entries == list[..i]) && (r.entries == list[..i] <==> Apart(list, i))
    decreases i
  {
    if i > 0 {
      var was, e := PutAll(put, list, i - 1), list[i - 1];
      AllKept(put, list, i - 1);
      assert PutsRight(put, was.entries, e.key, e.val);
      OneMoreKept(list, was.entries, PutAll(put, list, i).entries, i);
    }
  }

  lemma {:induction false} OneMoreKept(list: seq<Entry>, was: seq<Entry>, now: seq<Entry>, i: nat)
    requires 0 < i <= |list| && StringKeys(list) && |was| <= i - 1 && (|was| == i - 1 ==> was == list[..i - 1])
    requires was == list[..i - 1] <==> Apart(list, i - 1)
    requires |now| <= |was| + 1
    requires StringKeys(was) ==> if NewTo(was, list[i - 1].key) then now == was + [list[i - 1]] else |now| == |was|
    ensures |now| <= i && (|now| == i ==> now == list[..i]) && (now == list[..i] <==> Apart(list, i))
  {
    assert list[..i] == list[..i - 1] + [list[i - 1]];
    ApartMore(list, i);
    if was == list[..i - 1] {
      assert StringKeys(was);
    }
  }

  lemma {:induction false} ApartMore(list: seq<Entry>, i: nat)
    requires 0 < i <= |list|
    ensures Apart(list, i) <==> Apart(list, i - 1) && NewTo(list[..i - 1], list[i - 1].key)
  {
    assert forall k | 0 <= k < i - 1 :: list[..i - 1][k] == list[k];
  }

  ghost predicate Adds(put: Put, acc: seq<Value>, list: seq<Entry>, k: nat)
    requires k < |list| == |acc| - 1
  {
    acc[k + 1] == put(acc[k], list[k].key, list[k].val)
  }

  lemma {:induction false} AddedAll(put: Put, acc: seq<Value>, list: seq<Entry>, i: nat)
    requires i <= |list| == |acc| - 1 && acc[0] == EMPTY_MAP
    requires forall k {:trigger Adds(put, acc, list, k)} | 0 <= k < |list| :: Adds(put, acc, list, k)
    ensures acc[i] == PutAll(put, list, i)
    decreases i
  {
    if i > 0 {
      AddedAll(put, acc, list, i - 1);
      assert Adds(put, acc, list, i - 1);
    }
  }

  lemma {:induction false} CanonIsPutAll(es: seq<Entry>, list: seq<Entry>, i: nat)
    requires i <= |es| == |list| && forall k | 0 <= k < |es| :: list[k] == Entry(Canon(es[k].key), Canon(es[k].val))
    ensures CanonEntries(es, i) == PutAll(SET, list, i)
  {
    AllAdds(es, list, Partial(es));
    AddedAll(SET, Partial(es), list, i);
  }

  lemma {:induction false} AllAdds(es: seq<Entry>, list: seq<Entry>, acc: seq<Value>)
    requires |es| == |list| == |acc| - 1 && forall k | 0 <= k < |es| :: list[k] == Entry(Canon(es[k].key), Canon(es[k].val))
    requires forall k | 0 <= k <= |es| :: acc[k] == CanonEntries(es, k)
    ensures acc[0] == EMPTY_MAP && forall k {:trigger Adds(SET, acc, list, k)} | 0 <= k < |list| :: Adds(SET, acc, list, k)
  {
    forall k | 0 <= k < |list|
      ensures Adds(SET, acc, list, k)
    {
      CanonAdds(es, k);
    }
  }

  /** They are kept exactly if no key comes twice; otherwise fewer come back. */
  lemma {:induction false} EntriesKept(es: seq<Entry>, i: nat)
    requires i <= |es| && EntriesOk(es)
    ensures |CanonEntries(es, i).entries| <= i
    ensures |CanonEntries(es, i).entries| == i ==> KeptEntries(es, i)
    ensures KeptEntries(es, i) <==> KeysApart(es, i)
  {
    var list := seq(|es|, k requires 0 <= k < |es| => Entry(Canon(es[k].key), Canon(es[k].val)));
    forall k | 0 <= k < |es|
      ensures list[k].key.Str?
    {
      assert EntryOk(es, k);
    }
    CanonIsPutAll(es, list, i);
    SetIsRight();
    AllKept(SET, list, i);
    KeptIsAll(es, list, CanonEntries(es, i).entries, i);
  }

  lemma {:induction false} KeptIsAll(es: seq<Entry>, list: seq<Entry>, r: seq<Entry>, i: nat)
    requires i <= |es| == |list| && forall k | 0 <= k < |es| :: list[k] == Entry(Canon(es[k].key), Canon(es[k].val))
    requires r == CanonEntries(es, i).entries
    ensures KeptEntries(es, i) <==> r == list[..i]
    ensures KeysApart(es, i) <==> Apart(list, i)
  {
  }

  /** A value comes back as it was exactly when it has none of these. */
  lemma {:induction false} CanonKeeps(v: Value)
    requires Printable(v)
    ensures Canon(v) == v <==> Jsonable(v)
    decreases v
  {
    match v {
      case Str(t) => NulEnds(t);
      case Vec(items) =>
        forall k | 0 <= k < |items|
          ensures CanonItems(items, |items|)[k] == items[k] <==> Jsonable(items[k])
        {
          assert ItemOk(items, k);
          CanonKeeps(items[k]);
          CanonItem(items, |items|, k);
        }
      case Map(es) => CanonKeepsMap(es);
      case _ =>
    }
  }

  lemma {:induction false} CanonKeepsMap(es: seq<Entry>)
    requires EntriesOk(es)
    ensures Canon(Map(es)) == Map(es) <==> Jsonable(Map(es))
    decreases es, 0
  {
    forall k | 0 <= k < |es|
      ensures Entry(Canon(es[k].key), Canon(es[k].val)) == es[k] <==> JsonEntry(es, k)
    {
      assert es[k].key < es[k] && es[k].val < es[k];
      assert EntryOk(es, k);
      CanonKeeps(es[k].key);
      CanonKeeps(es[k].val);
    }
    EntriesKept(es, |es|);
    if Jsonable(Map(es)) {
      forall j, k | 0 <= j < k < |es| ensures Canon(es[j].key) != Canon(es[k].key) {
        assert KeysDiffer(es, j, k) && JsonEntry(es, j) && JsonEntry(es, k);
      }
    } else if Canon(Map(es)) == Map(es) {
      assert forall k | 0 <= k < |es| :: JsonEntry(es, k);
      assert forall j, k | 0 <= j < k < |es| :: KeysDiffer(es, j, k);
    }
  }
}
