/** The package metadata passed from one build program to the next as text: written by
    fl-resolve-deps-profiles.c, read by the hand-written parser of fl-generate-user-fns.c. */
module Metadata {
  import opened Wrappers
  import opened Bytes
  import opened Sequences
  import opened Decimal
  import Json
  import Strings

  datatype Package = Package(pkg: string, name: string, args: int, body: string, skip: bool)

  // ---------- Writing ----------

  function EscChar(c: char): (r: string)
    ensures |r| > 0
  {
    if c == '\\' then ['\\', '\\'] else if c == '"' then ['\\', '"']
    else if c == 8 as char then ['\\', 'b'] else if c == 12 as char then ['\\', 'f']
    else if c == '\n' then ['\\', 'n'] else if c == '\r' then ['\\', 'r'] else if c == '\t' then ['\\', 't']
    else if c < ' ' then ['\\', 'u'] + Json.Hex4(c as nat)
    else [c]
  }

  function Esc(t: string): string {
    if t == "" then "" else EscChar(t[0]) + Esc(t[1..])
  }

  function Quoted(t: string): string {
    ['"'] + Esc(t) + ['"']
  }

  datatype Key = PackageKey | NameKey | ArgsKey | BodyKey | SkipKey

  function KeyText(k: Key): string {
    match k
    case PackageKey => "package"
    case NameKey => "name"
    case ArgsKey => "args"
    case BodyKey => "body"
    case SkipKey => "skipRuntimeShim"
  }

  function BoolText(b: bool): string {
    if b then "true" else "false"
  }

  function ValueText(m: Package, k: Key): string {
    match k
    case PackageKey => Quoted(m.pkg)
    case NameKey => Quoted(m.name)
    case ArgsKey => PrintInt(m.args)
    case BodyKey => Quoted(m.body)
    case SkipKey => BoolText(m.skip)
  }

  const FIELDS: nat := 5

  /** The order in which the fields are written. */
  function NthKey(i: nat): Key
    requires i < FIELDS
  {
    if i == 0 then PackageKey else if i == 1 then NameKey else if i == 2 then ArgsKey else if i == 3 then BodyKey else SkipKey
  }

  /** How field names are spelled and recognised: `KeyText` and `KeyOf`. */
  type Speller = Key -> string
  type Reader = string -> Option<Key>

  /** A field as written: name and value, both with their quotes. */
  datatype Part = Part(key: string, value: string)

  function PartOf(sp: Speller, m: Package, k: Key): Part {
    Part(Quoted(sp(k)), ValueText(m, k))
  }

  function PartsOf(sp: Speller, m: Package): (r: seq<Part>)
    ensures |r| == FIELDS && forall i | 0 <= i < FIELDS :: r[i] == PartOf(sp, m, NthKey(i))
  {
    [PartOf(sp, m, NthKey(0)), PartOf(sp, m, NthKey(1)), PartOf(sp, m, NthKey(2)), PartOf(sp, m, NthKey(3)), PartOf(sp, m, NthKey(4))]
  }

  /** The fields from the i-th on, up to the closing brace. */
  function FieldsText(parts: seq<Part>, i: nat): string
    requires i < |parts|
    decreases |parts| - i
  {
    parts[i].key + ([':'] + (parts[i].value + if i + 1 < |parts| then [','] + FieldsText(parts, i + 1) else ['}']))
  }

  function PackageText(sp: Speller, m: Package): string {
    FieldsText(PartsOf(sp, m), 0)
  }

  function Texts(sp: Speller, metas: seq<Package>): (r: seq<string>)
    ensures |r| == |metas| && forall i | 0 <= i < |r| :: r[i] == PackageText(sp, metas[i])
  {
    seq(|metas|, i requires 0 <= i < |metas| => PackageText(sp, metas[i]))
  }

  /** The packages from the i-th on, up to the end of the text. */
  function PackagesText(texts: seq<string>, i: nat): string
    requires i <= |texts|
    decreases |texts| - i
  {
    if i == |texts| then ['\n', ']', '\n']
    else (if i > 0 then [',', '\n'] else []) + ([' ', ' ', '{'] + (texts[i] + PackagesText(texts, i + 1)))
  }

  /** `output_metadata_json` */
  function Output(metas: seq<Package>): string {
    ['[', '\n'] + PackagesText(Texts(KeyText, metas), 0)
  }

  // ---------- The writer ----------

  /** Standard output. */
  class Out {
    var text: string

    constructor ()
      ensures text == ""
    {
      text := "";
    }

    method Put(t: string)
      modifies this
      ensures text == old(text) + t
    {
      text := text + t;
    }

    method JsonEscapePut(t: string)
      modifies this
      ensures text == old(text) + Esc(t)
    {
      for i := 0 to |t|
        invariant text + Esc(t[i..]) == old(text) + Esc(t)
      {
        Assoc(text, EscChar(t[i]), Esc(t[i + 1..]));
        assert t[i..][0] == t[i] && t[i..][1..] == t[i + 1..];
        Put(EscChar(t[i]));
      }
      assert t[|t|..] == "";
    }

    method PutQuoted(t: string)
      modifies this
      ensures text == old(text) + Quoted(t)
    {
      ghost var was := text;
      Put(['"']);
      JsonEscapePut(t);
      Put(['"']);
      Regroup(was, ['"'], Esc(t), ['"']);
    }

    /** Name and value, and what follows them. */
    method PutField(m: Package, k: Key, after: char)
      modifies this
      ensures text == old(text) + FieldText(m, k, after)
    {
      ghost var was := text;
      Put(Quoted(KeyText(k)) + [':']);
      match k {
        case PackageKey => PutQuoted(m.pkg);
        case NameKey => PutQuoted(m.name);
        case ArgsKey => Put(PrintInt(m.args));
        case BodyKey => PutQuoted(m.body);
        case SkipKey => Put(BoolText(m.skip));
      }
      Put([after]);
      Regroup(was, Quoted(KeyText(k)) + [':'], ValueText(m, k), [after]);
    }

    method PutPackage(m: Package)
      modifies this
      ensures text == old(text) + PackageText(KeyText, m)
    {
      ghost var was := text;
      PutField(m, PackageKey, ',');
      PutField(m, NameKey, ',');
      PutField(m, ArgsKey, ',');
      PutField(m, BodyKey, ',');
      PutField(m, SkipKey, '}');
      FiveFields(m);
      RegroupFive(was, FieldText(m, PackageKey, ','), FieldText(m, NameKey, ','), FieldText(m, ArgsKey, ','),
                  FieldText(m, BodyKey, ','), FieldText(m, SkipKey, '}'));
    }

    method PutEntry(metas: seq<Package>, i: nat, ghost texts: seq<string>)
      requires i < |metas| && texts == Texts(KeyText, metas)
      modifies this
      ensures text + PackagesText(texts, i + 1) == old(text) + PackagesText(texts, i)
    {
      ghost var was := text;
      if i > 0 {
        Put([',', '\n']);
      }
      Put([' ', ' ', '{']);
      PutPackage(metas[i]);
      NextText(was, text, if i > 0 then [',', '\n'] else [], texts, i);
    }
  }

  lemma {:induction false} NextText(was: string, now: string, sep: string, texts: seq<string>, i: nat)
    requires i < |texts| && sep == if i > 0 then [',', '\n'] else []
    requires now == was + sep + [' ', ' ', '{'] + texts[i]
    ensures now + PackagesText(texts, i + 1) == was + PackagesText(texts, i)
  {
    RegroupPackage(was, sep, [' ', ' ', '{'], texts[i], PackagesText(texts, i + 1));
  }

  lemma {:induction false} RegroupPackage(a: string, b: string, c: string, d: string, e: string)
    ensures a + (b + (c + (d + e))) == a + b + c + d + e
  {
  }

  function FieldText(m: Package, k: Key, after: char): string {
    Quoted(KeyText(k)) + [':'] + ValueText(m, k) + [after]
  }

  lemma {:induction false} RegroupFive(a: string, b: string, c: string, d: string, e: string, f: string)
    ensures a + b + c + d + e + f == a + (b + (c + (d + (e + f))))
  {
  }

  lemma {:induction false} OneFieldText(m: Package, i: nat)
    requires i < FIELDS
    ensures
      var parts := PartsOf(KeyText, m);
      FieldsText(parts, i)
      == if i + 1 < FIELDS then FieldText(m, NthKey(i), ',') + FieldsText(parts, i + 1) else FieldText(m, NthKey(i), '}')
  {
    var parts := PartsOf(KeyText, m);
    var key, value := parts[i].key, parts[i].value;
    if i + 1 < FIELDS {
      RegroupField(key, value, [','], FieldsText(parts, i + 1));
    } else {
      RegroupField(key, value, ['}'], []);
      assert ['}'] + [] == ['}'];
      assert FieldText(m, NthKey(i), '}') + [] == FieldText(m, NthKey(i), '}');
    }
  }

  lemma {:induction false} RegroupField(key: string, value: string, after: string, rest: string)
    ensures key + ([':'] + (value + (after + rest))) == key + [':'] + value + after + rest
  {
  }

  lemma {:induction false} FiveFields(m: Package)
    ensures
      PackageText(KeyText, m)
      == FieldText(m, PackageKey, ',')
         + (FieldText(m, NameKey, ',') + (FieldText(m, ArgsKey, ',') + (FieldText(m, BodyKey, ',') + FieldText(m, SkipKey, '}'))))
  {
    FirstFields(m);
    LastFields(m);
  }

  lemma {:induction false} FirstFields(m: Package)
    ensures PackageText(KeyText, m)
            == FieldText(m, PackageKey, ',') + (FieldText(m, NameKey, ',') + FieldsText(PartsOf(KeyText, m), 2))
  {
    OneFieldText(m, 0);
    OneFieldText(m, 1);
  }

  lemma {:induction false} LastFields(m: Package)
    ensures FieldsText(PartsOf(KeyText, m), 2) == FieldText(m, ArgsKey, ',') + (FieldText(m, BodyKey, ',') + FieldText(m, SkipKey, '}'))
  {
    OneFieldText(m, 2);
    OneFieldText(m, 3);
    OneFieldText(m, 4);
  }

  method OutputMetadata(metas: seq<Package>) returns (text: string)
    ensures text == Output(metas)
  {
    var out := new Out();
    ghost var texts := Texts(KeyText, metas);
    out.Put(['[', '\n']);
    for i := 0 to |metas|
      invariant fresh(out) && out.text + PackagesText(texts, i) == Output(metas)
    {
      out.PutEntry(metas, i, texts);
    }
    out.Put(['\n', ']', '\n']);
    text := out.text;
  }

  // ---------- Reading ----------

  predicate IsSpace(c: char) {
    c == ' ' || c == '\n' || c == '\r' || c == '\t'
  }

  function SkipWs(s: string, p: nat): (r: nat)
    requires p <= |s|
    ensures p <= r <= |s| && (r < |s| ==> !IsSpace(s[r]))
    decreases |s| - p
  {
    if p < |s| && IsSpace(s[p]) then SkipWs(s, p + 1) else p
  }

  /** `Bad`: the routine reports failure, the cursor where it stopped. `Undefined`: signed overflow. */
  datatype Parsed<T> = Good(value: T, at: nat) | Bad(at: nat) | Undefined

  function Unescape(c: char): char {
    if c == 'b' then 8 as char else if c == 'f' then 12 as char else if c == 'n' then '\n'
    else if c == 'r' then '\r' else if c == 't' then '\t' else c
  }

  /** Inside a string; a \u escape becomes a question mark. */
  function StringFrom(s: string, p: nat, acc: string): (r: Parsed<string>)
    requires p <= |s|
    ensures !r.Undefined? && p <= r.at <= |s| && (r.Good? ==> p < r.at)
    decreases |s| - p
  {
    if p == |s| then Bad(p)
    else if s[p] == '"' then Good(acc, p + 1)
    else if s[p] != '\\' then StringFrom(s, p + 1, acc + [s[p]])
    else if p + 1 == |s| then Bad(p + 1)
    else if s[p + 1] == 'u' then if p + 6 > |s| then Bad(p + 2) else StringFrom(s, p + 6, acc + ['?'])
    else StringFrom(s, p + 2, acc + [Unescape(s[p + 1])])
  }

  function ParseString(s: string, p0: nat): (r: Parsed<string>)
    requires p0 <= |s|
    ensures !r.Undefined? && p0 <= r.at <= |s| && (r.Good? ==> p0 < r.at)
  {
    var p := SkipWs(s, p0);
    if !Is(s, p, '"') then Bad(p) else StringFrom(s, p + 1, "")
  }

  /** The reader's digits: no guard, so a value beyond LLONG_MAX is undefined. */
  function DigitsFrom(s: string, p: nat, v: nat): (r: Parsed<nat>)
    requires p <= |s|
    ensures !r.Undefined? ==> p <= r.at <= |s|
    decreases |s| - p
  {
    if p < |s| && IsDigit(s[p]) then
      var v' := v * 10 + (s[p] - '0') as nat;
      if v' > LLONG_MAX then Undefined else DigitsFrom(s, p + 1, v')
    else if Is(s, p, '.') || Is(s, p, 'e') || Is(s, p, 'E') then Bad(p)
    else Good(v, p)
  }

  function ParseInteger(s: string, p0: nat): (r: Parsed<int>)
    requires p0 <= |s|
    ensures !r.Undefined? ==> p0 <= r.at <= |s|
  {
    var p := SkipWs(s, p0);
    var neg := Is(s, p, '-');
    var q := if neg then p + 1 else p;
    if q == |s| || !IsDigit(s[q]) then Bad(q)
    else
      match DigitsFrom(s, q, 0)
      case Good(v, at) => Good(if neg then -(v as int) else v, at)
      case Bad(at) => Bad(at)
      case Undefined => Undefined
  }

  function ParseBoolean(s: string, p0: nat): (r: Parsed<bool>)
    requires p0 <= |s|
    ensures !r.Undefined? && p0 <= r.at <= |s|
  {
    var p := SkipWs(s, p0);
    if Strings.OccursAt(s, "true", p) then Good(true, p + 4)
    else if Strings.OccursAt(s, "false", p) then Good(false, p + 5)
    else Bad(p)
  }

  function PastDigits(s: string, p: nat): (r: nat)
    requires p <= |s|
    ensures p <= r <= |s|
    decreases |s| - p
  {
    if p < |s| && IsDigit(s[p]) then PastDigits(s, p + 1) else p
  }

  /** A value nobody wants. */
  function SkipValue(s: string, p0: nat): (r: Parsed<()>)
    requires p0 <= |s|
    ensures !r.Undefined? && p0 <= r.at <= |s| && (r.Good? ==> p0 < r.at)
    decreases |s| - p0, 1
  {
    var p := SkipWs(s, p0);
    if p == |s| then Bad(p)
    else if s[p] == '{' then
      var q := SkipWs(s, p + 1);
      if Is(s, q, '}') then Good((), q + 1) else SkipFields(s, q)
    else if s[p] == '[' then
      var q := SkipWs(s, p + 1);
      if Is(s, q, ']') then Good((), q + 1) else SkipItems(s, q)
    else if s[p] == '"' then
      var t := ParseString(s, p);
      if t.Good? then Good((), t.at) else Bad(t.at)
    else if s[p] == 't' || s[p] == 'f' || s[p] == 'n' then
      var w := if s[p] == 't' then "true" else if s[p] == 'f' then "false" else "null";
      if Strings.OccursAt(s, w, p) then Good((), p + |w|) else Bad(p)
    else if s[p] == '-' || IsDigit(s[p]) then
      var q := PastDigits(s, p + 1);
      if Is(s, q, '.') || Is(s, q, 'e') || Is(s, q, 'E') then Bad(q) else Good((), q)
    else Bad(p)
  }

  function Expect(s: string, p0: nat, c: char): (r: Parsed<()>)
    requires p0 <= |s|
    ensures !r.Undefined? && p0 <= r.at <= |s| && (r.Good? ==> p0 < r.at)
  {
    var p := SkipWs(s, p0);
    if Is(s, p, c) then Good((), p + 1) else Bad(p)
  }

  function SkipFields(s: string, p: nat): (r: Parsed<()>)
    requires p <= |s|
    ensures !r.Undefined? && p <= r.at <= |s|
    decreases |s| - p, 2
  {
    if p == |s| then Bad(p)
    else
      var key := ParseString(s, p);
      if !key.Good? then Bad(key.at)
      else
        var colon := Expect(s, key.at, ':');
        if !colon.Good? then colon
        else
          var v := SkipValue(s, colon.at);
          if !v.Good? then v
          else
            var q := SkipWs(s, v.at);
            if Is(s, q, ',') then SkipFields(s, q + 1) else Expect(s, q, '}')
  }

  function SkipItems(s: string, p: nat): (r: Parsed<()>)
    requires p <= |s|
    ensures !r.Undefined? && p <= r.at <= |s|
    decreases |s| - p, 2
  {
    if p == |s| then Bad(p)
    else
      var v := SkipValue(s, p);
      if !v.Good? then v
      else
        var q := SkipWs(s, v.at);
        if Is(s, q, ',') then SkipItems(s, q + 1) else Expect(s, q, ']')
  }

  /** What has been read of one package. */
  datatype Meta = Meta(pkg: Option<string>, name: Option<string>, args: Option<int>, body: Option<string>, skip: bool)

  const NEW_META := Meta(None, None, None, None, false)

  function KeyOf(t: string): Option<Key> {
    if t == KeyText(NameKey) then Some(NameKey)
    else if t == KeyText(PackageKey) then Some(PackageKey)
    else if t == KeyText(ArgsKey) then Some(ArgsKey)
    else if t == KeyText(BodyKey) then Some(BodyKey)
    else if t == KeyText(SkipKey) then Some(SkipKey)
    else None
  }

  /** A known field of the wrong type is skipped, from wherever the attempt left the cursor. */
  function Skipped(s: string, p: nat, meta: Meta): (r: Parsed<Meta>)
    requires p <= |s|
    ensures !r.Undefined? && p <= r.at <= |s| && (r.Good? ==> p < r.at)
  {
    var v := SkipValue(s, p);
    if v.Good? then Good(meta, v.at) else Bad(v.at)
  }

  function ParseField(s: string, p: nat, key: Option<Key>, meta: Meta): (r: Parsed<Meta>)
    requires p <= |s|
    ensures !r.Undefined? ==> p <= r.at <= |s|
  {
    if key.None? then Skipped(s, p, meta)
    else if key.value == ArgsKey then
      var t := ParseInteger(s, p);
      if t.Undefined? then Undefined
      else if t.Good? then Good(meta.(args := Some(t.value)), t.at) else Skipped(s, t.at, meta)
    else if key.value == SkipKey then
      var t := ParseBoolean(s, p);
      if t.Good? then Good(meta.(skip := t.value), t.at) else Skipped(s, t.at, meta)
    else
      var t := ParseString(s, p);
      if t.Good? then Good(WithText(meta, key.value, t.value), t.at) else Skipped(s, t.at, meta)
  }

  /** The three fields that hold strings. */
  function WithText(meta: Meta, k: Key, t: string): Meta {
    if k == NameKey then meta.(name := Some(t)) else if k == PackageKey then meta.(pkg := Some(t)) else meta.(body := Some(t))
  }

  /** The head of the field loop. */
  function FieldsFrom(rd: Reader, s: string, p: nat, meta: Meta): (r: Parsed<Meta>)
    requires p <= |s|
    ensures !r.Undefined? ==> p <= r.at <= |s|
    decreases |s| - p, 2
  {
    if p == |s| then Bad(p)
    else
      var key := ParseString(s, p);
      if !key.Good? then Bad(key.at)
      else
        var colon := Expect(s, key.at, ':');
        if !colon.Good? then Bad(colon.at)
        else FieldAt(rd, s, colon.at, rd(key.value), meta)
  }

  /** After the colon. */
  function FieldAt(rd: Reader, s: string, p: nat, key: Option<Key>, meta: Meta): (r: Parsed<Meta>)
    requires p <= |s|
    ensures !r.Undefined? ==> p <= r.at <= |s|
    decreases |s| - p, 3
  {
    var field := ParseField(s, p, key, meta);
    if field.Good? then AfterField(rd, s, field.at, field.value) else field
  }

  function AfterField(rd: Reader, s: string, p: nat, meta: Meta): (r: Parsed<Meta>)
    requires p <= |s|
    ensures !r.Undefined? ==> p <= r.at <= |s|
    decreases |s| - p, 1
  {
    var q := SkipWs(s, p);
    if Is(s, q, ',') then FieldsFrom(rd, s, q + 1, meta)
    else
      var close := Expect(s, q, '}');
      if close.Good? then Good(meta, close.at) else Bad(close.at)
  }

  function ParseObject(rd: Reader, s: string, p: nat): (r: Parsed<Meta>)
    requires p <= |s|
    ensures !r.Undefined? ==> p <= r.at <= |s|
    ensures r.Good? ==> p < r.at
  {
    var open := Expect(s, p, '{');
    if !open.Good? then Bad(open.at)
    else
      var q := SkipWs(s, open.at);
      if Is(s, q, '}') then Good(NEW_META, q + 1) else FieldsFrom(rd, s, q, NEW_META)
  }

  /** A package without a package name is dropped; other missing fields get defaults. */
  function Finish(meta: Meta): seq<Package> {
    if meta.pkg.None? then []
    else
      [Package(meta.pkg.value, if meta.name.Some? then meta.name.value else meta.pkg.value,
               if meta.args.Some? then meta.args.value else 1, if meta.body.Some? then meta.body.value else "", meta.skip)]
  }

  /** The head of the package loop. */
  function PackagesFrom(rd: Reader, s: string, p: nat, acc: seq<Package>): (r: Parsed<seq<Package>>)
    requires p <= |s|
    decreases |s| - p, 1
  {
    if p == |s| then Bad(p) else PackageAt(rd, s, p, acc)
  }

  function PackageAt(rd: Reader, s: string, p: nat, acc: seq<Package>): (r: Parsed<seq<Package>>)
    requires p < |s|
    decreases |s| - p, 0
  {
    match ParseObject(rd, s, p)
    case Good(meta, at) => AfterPackage(rd, s, at, acc + Finish(meta))
    case Bad(at) => Bad(at)
    case Undefined => Undefined
  }

  function AfterPackage(rd: Reader, s: string, p: nat, acc: seq<Package>): (r: Parsed<seq<Package>>)
    requires p <= |s|
    decreases |s| - p, 2
  {
    var q := SkipWs(s, p);
    if Is(s, q, ',') then PackagesFrom(rd, s, q + 1, acc) else EndOfList(s, q, acc)
  }

  function EndOfList(s: string, p: nat, acc: seq<Package>): Parsed<seq<Package>>
    requires p <= |s|
  {
    var close := Expect(s, p, ']');
    if !close.Good? then Bad(close.at)
    else if SkipWs(s, close.at) != |s| then Bad(SkipWs(s, close.at))
    else Good(acc, |s|)
  }

  /** `parser_parse_metadata_list`; after `[]` nothing more is looked at. */
  function ParseList(s: string): Parsed<seq<Package>> {
    var open := Expect(s, 0, '[');
    if !open.Good? then Bad(open.at)
    else
      var q := SkipWs(s, open.at);
      if Is(s, q, ']') then Good([], q + 1) else PackagesFrom(KeyOf, s, q, [])
  }

  // ---------- Strings ----------

  /** The control bytes for which the writer has no letter: the reader turns their escapes into `?`. */
  predicate Lossy(c: char) {
    c < ' ' && c != 8 as char && c != 12 as char && c != '\n' && c != '\r' && c != '\t'
  }

  function Survives(t: string): string {
    if t == "" then "" else [if Lossy(t[0]) then '?' else t[0]] + Survives(t[1..])
  }

  ghost predicate NoLossy(t: string) {
    forall i | 0 <= i < |t| :: !Lossy(t[i])
  }

  lemma {:induction false} SurvivesAt(t: string, i: nat)
    requires i < |t|
    ensures |Survives(t)| == |t| && Survives(t)[i] == if Lossy(t[i]) then '?' else t[i]
    decreases |t|
  {
    if |t| > 1 {
      SurvivesAt(t[1..], if i > 0 then i - 1 else 0);
    }
  }

  lemma {:induction false} SurvivesExactly(t: string)
    ensures Survives(t) == t <==> NoLossy(t)
  {
    forall i | 0 <= i < |t| ensures |Survives(t)| == |t| && (Survives(t)[i] == t[i] <==> !Lossy(t[i])) {
      SurvivesAt(t, i);
    }
  }

  lemma {:induction false} OneEscape(s: string, p: nat, c: char, acc: string)
    requires Ahead(s, p, EscChar(c))
    ensures StringFrom(s, p, acc) == StringFrom(s, p + |EscChar(c)|, acc + [if Lossy(c) then '?' else c])
  {
    var e := EscChar(c);
    AheadFirst(s, p, e);
    if |e| >= 2 {
      assert s[p + 1] == e[1];
    }
  }

  lemma {:induction false} StringReadsBack(s: string, p: nat, t: string, acc: string)
    requires Ahead(s, p, Esc(t) + ['"'])
    ensures StringFrom(s, p, acc) == Good(acc + Survives(t), p + |Esc(t)| + 1)
    decreases |t|
  {
    if t == "" {
      AheadFirst(s, p, "" + ['"']);
      assert acc + "" == acc;
    } else {
      var e, c := EscChar(t[0]), if Lossy(t[0]) then '?' else t[0];
      Assoc(e, Esc(t[1..]), ['"']);
      AheadSplit(s, p, e, Esc(t[1..]) + ['"']);
      OneEscape(s, p, t[0], acc);
      StringReadsBack(s, p + |e|, t[1..], acc + [c]);
      Assoc(acc, [c], Survives(t[1..]));
    }
  }

  /** A written string is read back as it is exactly when it holds none of those bytes. */
  lemma {:induction false} QuotedReadsBack(s: string, p: nat, t: string)
    requires Ahead(s, p, Quoted(t))
    ensures p < |s| && s[p] == '"' && ParseString(s, p) == Good(Survives(t), p + |Quoted(t)|)
    ensures Survives(t) == t <==> NoLossy(t)
  {
    AheadFirst(s, p, Quoted(t));
    Assoc(['"'], Esc(t), ['"']);
    AheadSplit(s, p, ['"'], Esc(t) + ['"']);
    StringReadsBack(s, p + 1, t, "");
    assert "" + Survives(t) == Survives(t);
    SurvivesExactly(t);
  }

  // ---------- Integers ----------

  /** The first program's reader: each step is guarded against leaving the range. */
  function GuardedFrom(s: string, p: nat, v: nat): (r: Parsed<nat>)
    requires p <= |s| && v <= LLONG_MAX
    decreases |s| - p
  {
    if p < |s| && IsDigit(s[p]) then
      var d := (s[p] - '0') as nat;
      if v > (LLONG_MAX - d) / 10 then Bad(p) else GuardedFrom(s, p + 1, v * 10 + d)
    else if Is(s, p, '.') || Is(s, p, 'e') || Is(s, p, 'E') then Bad(p)
    else Good(v, p)
  }

  /** The number the digits from p on stand for, after v. */
  function Number(s: string, p: nat, v: nat): nat
    requires p <= |s|
    decreases |s| - p
  {
    if p < |s| && IsDigit(s[p]) then Number(s, p + 1, v * 10 + (s[p] - '0') as nat) else v
  }

  lemma {:induction false} GuardIsExact(v: nat, d: nat)
    requires d < 10
    ensures v > (LLONG_MAX - d) / 10 <==> v * 10 + d > LLONG_MAX
  {
  }

  lemma {:induction false} NumberGrows(s: string, p: nat, v: nat)
    requires p <= |s|
    ensures Number(s, p, v) >= v
    decreases |s| - p
  {
    if p < |s| && IsDigit(s[p]) {
      NumberGrows(s, p + 1, v * 10 + (s[p] - '0') as nat);
    }
  }

  /** The guard accepts exactly the numbers up to LLONG_MAX (not followed by a fraction or exponent), with
      their value; on exactly these the unguarded reader stays within the range and agrees. */
  lemma {:induction false} GuardAcceptsExactly(s: string, p: nat, v: nat)
    requires p <= |s| && v <= LLONG_MAX
    ensures
      var q := PastDigits(s, p);
      GuardedFrom(s, p, v).Good?
      <==> Number(s, p, v) <= LLONG_MAX && !Is(s, q, '.') && !Is(s, q, 'e') && !Is(s, q, 'E')
    ensures GuardedFrom(s, p, v).Good? ==> GuardedFrom(s, p, v) == Good(Number(s, p, v), PastDigits(s, p)) == DigitsFrom(s, p, v)
    ensures DigitsFrom(s, p, v).Undefined? <==> Number(s, p, v) > LLONG_MAX
    decreases |s| - p
  {
    if p < |s| && IsDigit(s[p]) {
      var d := (s[p] - '0') as nat;
      GuardIsExact(v, d);
      NumberGrows(s, p + 1, v * 10 + d);
      if v * 10 + d <= LLONG_MAX {
        GuardAcceptsExactly(s, p + 1, v * 10 + d);
      }
    }
  }

  predicate Separator(s: string, p: nat) {
    p < |s| && (s[p] == ',' || s[p] == '}')
  }

  lemma {:induction false} DigitsReadBack(s: string, p: nat, n: nat, acc: nat)
    requires Ahead(s, p, PrintNat(n))
    requires acc * Pow10(|PrintNat(n)|) + n <= LLONG_MAX
    ensures
      var t := PrintNat(n);
      DigitsFrom(s, p, acc) == DigitsFrom(s, p + |t|, acc * Pow10(|t|) + n)
    decreases n
  {
    if n < 10 {
      AheadFirst(s, p, PrintNat(n));
      assert Pow10(1) == 10;
    } else {
      var high, last := PrintNat(n / 10), ['0' + (n % 10) as char];
      AheadSplit(s, p, high, last);
      AheadFirst(s, p + |high|, last);
      ShiftDigits(acc, Pow10(|high|), n);
      DigitsReadBack(s, p, n / 10, acc);
    }
  }

  lemma {:induction false} NatReadsBack(s: string, p: nat, n: nat)
    requires Ahead(s, p, PrintNat(n)) && n <= LLONG_MAX && Separator(s, p + |PrintNat(n)|)
    ensures p < |s| && IsDigit(s[p]) && DigitsFrom(s, p, 0) == Good(n, p + |PrintNat(n)|)
  {
    AheadFirst(s, p, PrintNat(n));
    DigitsReadBack(s, p, n, 0);
  }

  lemma {:induction false} IntegerReadsBack(s: string, p: nat, i: int)
    requires Ahead(s, p, PrintInt(i)) && -LLONG_MAX <= i <= LLONG_MAX && Separator(s, p + |PrintInt(i)|)
    ensures p <= |s| && ParseInteger(s, p) == Good(i, p + |PrintInt(i)|)
  {
    AheadFirst(s, p, PrintInt(i));
    if i < 0 {
      AheadSplit(s, p, ['-'], PrintNat(-i));
      NatReadsBack(s, p + 1, -i);
    } else {
      NatReadsBack(s, p, i);
    }
  }

  // ---------- Packages ----------

  /** What the first program's own reader makes of any argument count. */
  predicate InRange(m: Package) {
    -LLONG_MAX <= m.args <= LLONG_MAX
  }

  /** No byte that the way does not preserve. */
  ghost predicate Portable(m: Package) {
    NoLossy(m.pkg) && NoLossy(m.name) && NoLossy(m.body)
  }

  /** The package at the other end. */
  function Arrived(m: Package): Package {
    m.(pkg := Survives(m.pkg), name := Survives(m.name), body := Survives(m.body))
  }

  lemma {:induction false} ArrivesExactly(m: Package)
    ensures Arrived(m) == m <==> Portable(m)
  {
    SurvivesExactly(m.pkg);
    SurvivesExactly(m.name);
    SurvivesExactly(m.body);
  }

  function SetField(meta: Meta, m: Package, k: Key): Meta {
    match k
    case PackageKey => meta.(pkg := Some(m.pkg))
    case NameKey => meta.(name := Some(m.name))
    case ArgsKey => meta.(args := Some(m.args))
    case BodyKey => meta.(body := Some(m.body))
    case SkipKey => meta.(skip := m.skip)
  }

  /** Names are written without escapes and recognised when read. */
  ghost predicate Agree(sp: Speller, rd: Reader) {
    forall k :: AgreeOn(sp, rd, k)
  }

  ghost predicate AgreeOn(sp: Speller, rd: Reader, k: Key) {
    NoLossy(sp(k)) && rd(sp(k)) == Some(k)
  }

  lemma {:induction false} KeysAgree()
    ensures Agree(KeyText, KeyOf)
  {
    assert "name"[0] == 'n' && "package"[0] == 'p' && "args"[0] == 'a' && "body"[0] == 'b' && "skipRuntimeShim"[0] == 's';
    forall k: Key ensures AgreeOn(KeyText, KeyOf, k) {
      assert NoLossy(KeyText(k)) && KeyOf(KeyText(k)) == Some(k);
    }
  }

  lemma {:induction false} WordAhead(s: string, p: nat, w: string)
    requires Ahead(s, p, w)
    ensures Strings.OccursAt(s, w, p)
  {
    AheadSlice(s, p, w);
    Strings.OccursIsSlice(s, w, p);
  }

  lemma {:induction false} ValueReadsBack(s: string, p: nat, m: Package, k: Key, meta: Meta)
    requires InRange(m) && Ahead(s, p, ValueText(m, k)) && Separator(s, p + |ValueText(m, k)|)
    ensures p <= |s| && ParseField(s, p, Some(k), meta) == Good(SetField(meta, Arrived(m), k), p + |ValueText(m, k)|)
  {
    match k {
      case PackageKey => QuotedReadsBack(s, p, m.pkg);
      case NameKey => QuotedReadsBack(s, p, m.name);
      case ArgsKey => IntegerReadsBack(s, p, m.args);
      case BodyKey => QuotedReadsBack(s, p, m.body);
      case SkipKey =>
        AheadFirst(s, p, BoolText(m.skip));
        WordAhead(s, p, BoolText(m.skip));
    }
  }

  /** The fields from the i-th on, piece by piece. */
  ghost predicate FieldsLaidOut(s: string, p: nat, parts: seq<Part>, i: nat)
    requires i < |parts|
    decreases |parts| - i
  {
    var a := p + |parts[i].key|;
    var b := a + 1 + |parts[i].value|;
    Ahead(s, p, parts[i].key) && Is(s, a, ':') && Ahead(s, a + 1, parts[i].value)
    && if i + 1 < |parts| then Is(s, b, ',') && FieldsLaidOut(s, b + 1, parts, i + 1) else Is(s, b, '}')
  }

  ghost function FieldsEnd(p: nat, parts: seq<Part>, i: nat): nat
    requires i < |parts|
    decreases |parts| - i
  {
    var b := p + |parts[i].key| + 1 + |parts[i].value| + 1;
    if i + 1 < |parts| then FieldsEnd(b, parts, i + 1) else b
  }

  lemma {:induction false} FieldAhead(s: string, p: nat, key: string, value: string, rest: string)
    requires Ahead(s, p, key + ([':'] + (value + rest)))
    ensures Ahead(s, p, key) && Is(s, p + |key|, ':') && Ahead(s, p + |key| + 1, value) && Ahead(s, p + |key| + 1 + |value|, rest)
  {
    AheadSplit(s, p, key, [':'] + (value + rest));
    AheadSplit(s, p + |key|, [':'], value + rest);
    AheadFirst(s, p + |key|, [':']);
    AheadSplit(s, p + |key| + 1, value, rest);
  }

  lemma {:induction false} LayOutFields(s: string, p: nat, parts: seq<Part>, i: nat)
    requires i < |parts| && Ahead(s, p, FieldsText(parts, i))
    ensures FieldsLaidOut(s, p, parts, i) && FieldsEnd(p, parts, i) == p + |FieldsText(parts, i)|
    decreases |parts| - i
  {
    var key, value := parts[i].key, parts[i].value;
    var b := p + |key| + 1 + |value|;
    if i + 1 < |parts| {
      FieldAhead(s, p, key, value, [','] + FieldsText(parts, i + 1));
      AheadSplit(s, b, [','], FieldsText(parts, i + 1));
      AheadFirst(s, b, [',']);
      LayOutFields(s, b + 1, parts, i + 1);
    } else {
      FieldAhead(s, p, key, value, ['}']);
      AheadFirst(s, b, ['}']);
    }
  }

  lemma {:induction false} KeyField(sp: Speller, rd: Reader, s: string, p: nat, k: Key, meta: Meta)
    requires Agree(sp, rd) && Ahead(s, p, Quoted(sp(k))) && Is(s, p + |Quoted(sp(k))|, ':')
    ensures p < |s| && FieldsFrom(rd, s, p, meta) == FieldAt(rd, s, p + |Quoted(sp(k))| + 1, Some(k), meta)
  {
    assert AgreeOn(sp, rd, k);
    QuotedReadsBack(s, p, sp(k));
    AfterKey(rd, s, p, sp(k), p + |Quoted(sp(k))|, meta);
  }

  lemma {:induction false} ValueField(rd: Reader, s: string, p: nat, m: Package, k: Key, meta: Meta)
    requires InRange(m) && Ahead(s, p, ValueText(m, k)) && Separator(s, p + |ValueText(m, k)|)
    ensures p <= |s| && FieldAt(rd, s, p, Some(k), meta) == AfterField(rd, s, p + |ValueText(m, k)|, SetField(meta, Arrived(m), k))
  {
    ValueReadsBack(s, p, m, k, meta);
    AfterColon(rd, s, p, k, meta, SetField(meta, Arrived(m), k), p + |ValueText(m, k)|);
  }

  lemma {:induction false} AfterKey(rd: Reader, s: string, p: nat, key: string, a: nat, meta: Meta)
    requires p < |s| && ParseString(s, p) == Good(key, a) && Is(s, a, ':')
    ensures FieldsFrom(rd, s, p, meta) == FieldAt(rd, s, a + 1, rd(key), meta)
  {
    assert Expect(s, a, ':') == Good((), a + 1);
  }

  lemma {:induction false} AfterColon(rd: Reader, s: string, p: nat, k: Key, meta: Meta, meta': Meta, b: nat)
    requires p <= |s| && ParseField(s, p, Some(k), meta) == Good(meta', b)
    ensures b <= |s| && FieldAt(rd, s, p, Some(k), meta) == AfterField(rd, s, b, meta')
  {
  }

  function Filled(m: Package, i: nat): Meta
    requires i <= FIELDS
  {
    if i == 0 then NEW_META else SetField(Filled(m, i - 1), m, NthKey(i - 1))
  }

  lemma {:induction false} AtSeparator(rd: Reader, s: string, b: nat, meta: Meta)
    requires Separator(s, b)
    ensures AfterField(rd, s, b, meta) == if s[b] == ',' then FieldsFrom(rd, s, b + 1, meta) else Good(meta, b + 1)
  {
    if s[b] == '}' {
      assert Expect(s, b, '}') == Good((), b + 1);
    }
  }

  /** A reader of an object's fields, of one field behind its key, or of what comes behind a field: from a place in the
      text, with what is known so far. */
  type FieldReader = (nat, Meta) -> Parsed<Meta>

  function FieldsOf(rd: Reader, s: string): FieldReader {
    (p: nat, meta: Meta) => if p <= |s| then FieldsFrom(rd, s, p, meta) else Bad(p)
  }

  function FieldOf(rd: Reader, s: string, k: Key): FieldReader {
    (p: nat, meta: Meta) => if p <= |s| then FieldAt(rd, s, p, Some(k), meta) else Bad(p)
  }

  function AfterOf(rd: Reader, s: string): FieldReader {
    (p: nat, meta: Meta) => if p <= |s| then AfterField(rd, s, p, meta) else Bad(p)
  }

  ghost predicate KeyRead(fields: FieldReader, field: FieldReader, s: string, t: string, p: nat, meta: Meta) {
    Ahead(s, p, t) && Is(s, p + |t|, ':') ==> p < |s| && fields(p, meta) == field(p + |t| + 1, meta)
  }

  ghost predicate ValueRead(field: FieldReader, after: FieldReader, s: string, t: string, m: Package, k: Key, p: nat, meta: Meta) {
    Ahead(s, p, t) && Separator(s, p + |t|) ==> field(p, meta) == after(p + |t|, SetField(meta, m, k))
  }

  ghost predicate SeparatorRead(after: FieldReader, fields: FieldReader, s: string, b: nat, meta: Meta) {
    Separator(s, b) ==> after(b, meta) == if s[b] == ',' then fields(b + 1, meta) else Good(meta, b + 1)
  }

  /** If the field stands at p, reading it changes that field, and the rest is read from its end. */
  ghost predicate ReadsAt(fields: FieldReader, s: string, part: Part, m: Package, k: Key, p: nat, meta: Meta) {
    var a, b, meta' := p + |part.key|, p + |part.key| + 1 + |part.value|, SetField(meta, m, k);
    Ahead(s, p, part.key) && Is(s, a, ':') && Ahead(s, a + 1, part.value) && Separator(s, b) ==>
      p < |s| && fields(p, meta) == if s[b] == ',' then fields(b + 1, meta') else Good(meta', b + 1)
  }

  lemma {:induction false} PartRead(fields: FieldReader, field: FieldReader, after: FieldReader, s: string, part: Part, m: Package,
                                    k: Key, p: nat, meta: Meta)
    requires KeyRead(fields, field, s, part.key, p, meta)
    requires ValueRead(field, after, s, part.value, m, k, p + |part.key| + 1, meta)
    requires SeparatorRead(after, fields, s, p + |part.key| + 1 + |part.value|, SetField(meta, m, k))
    ensures ReadsAt(fields, s, part, m, k, p, meta)
  {
  }

  lemma {:induction false} KeyIsRead(sp: Speller, rd: Reader, s: string, t: string, k: Key, p: nat, meta: Meta)
    requires Agree(sp, rd) && t == Quoted(sp(k))
    ensures KeyRead(FieldsOf(rd, s), FieldOf(rd, s, k), s, t, p, meta)
  {
    if Ahead(s, p, t) && Is(s, p + |t|, ':') {
      KeyField(sp, rd, s, p, k, meta);
    }
  }

  lemma {:induction false} ValueIsRead(rd: Reader, s: string, t: string, m: Package, k: Key, p: nat, meta: Meta)
    requires InRange(m) && t == ValueText(m, k)
    ensures ValueRead(FieldOf(rd, s, k), AfterOf(rd, s), s, t, Arrived(m), k, p, meta)
  {
    if Ahead(s, p, t) && Separator(s, p + |t|) {
      ValueField(rd, s, p, m, k, meta);
    }
  }

  lemma {:induction false} SeparatorIsRead(rd: Reader, s: string, b: nat, meta: Meta)
    ensures SeparatorRead(AfterOf(rd, s), FieldsOf(rd, s), s, b, meta)
  {
    if Separator(s, b) {
      AtSeparator(rd, s, b, meta);
    }
  }

  ghost predicate KeyLaw(fields: FieldReader, field: FieldReader, s: string, t: string) {
    forall p, meta {:trigger KeyRead(fields, field, s, t, p, meta)} :: KeyRead(fields, field, s, t, p, meta)
  }

  ghost predicate ValueLaw(field: FieldReader, after: FieldReader, s: string, t: string, m: Package, k: Key) {
    forall p, meta {:trigger ValueRead(field, after, s, t, m, k, p, meta)} :: ValueRead(field, after, s, t, m, k, p, meta)
  }

  ghost predicate SeparatorLaw(after: FieldReader, fields: FieldReader, s: string) {
    forall b, meta {:trigger SeparatorRead(after, fields, s, b, meta)} :: SeparatorRead(after, fields, s, b, meta)
  }

  ghost predicate IsPart(fields: FieldReader, s: string, m: Package, parts: seq<Part>, i: nat)
    requires i < |parts| == FIELDS
  {
    PartLaw(fields, s, parts[i], m, NthKey(i))
  }

  ghost predicate PartLaw(fields: FieldReader, s: string, part: Part, m: Package, k: Key) {
    forall p, meta {:trigger ReadsAt(fields, s, part, m, k, p, meta)} :: ReadsAt(fields, s, part, m, k, p, meta)
  }

  lemma {:induction false} PartFromLaws(fields: FieldReader, field: FieldReader, after: FieldReader, s: string, part: Part, m: Package, k: Key)
    requires KeyLaw(fields, field, s, part.key) && ValueLaw(field, after, s, part.value, m, k) && SeparatorLaw(after, fields, s)
    ensures PartLaw(fields, s, part, m, k)
  {
    forall p: nat, meta: Meta
      ensures ReadsAt(fields, s, part, m, k, p, meta)
    {
      assert KeyRead(fields, field, s, part.key, p, meta);
      assert ValueRead(field, after, s, part.value, m, k, p + |part.key| + 1, meta);
      assert SeparatorRead(after, fields, s, p + |part.key| + 1 + |part.value|, SetField(meta, m, k));
      PartRead(fields, field, after, s, part, m, k, p, meta);
    }
  }

  lemma {:induction false} KeysAreRead(sp: Speller, rd: Reader, s: string, t: string, k: Key)
    requires Agree(sp, rd) && t == Quoted(sp(k))
    ensures KeyLaw(FieldsOf(rd, s), FieldOf(rd, s, k), s, t)
  {
    forall p: nat, meta: Meta
      ensures KeyRead(FieldsOf(rd, s), FieldOf(rd, s, k), s, t, p, meta)
    {
      KeyIsRead(sp, rd, s, t, k, p, meta);
    }
  }

  lemma {:induction false} ValuesAreRead(rd: Reader, s: string, t: string, m: Package, k: Key)
    requires InRange(m) && t == ValueText(m, k)
    ensures ValueLaw(FieldOf(rd, s, k), AfterOf(rd, s), s, t, Arrived(m), k)
  {
    forall p: nat, meta: Meta
      ensures ValueRead(FieldOf(rd, s, k), AfterOf(rd, s), s, t, Arrived(m), k, p, meta)
    {
      ValueIsRead(rd, s, t, m, k, p, meta);
    }
  }

  lemma {:induction false} SeparatorsAreRead(rd: Reader, s: string)
    ensures SeparatorLaw(AfterOf(rd, s), FieldsOf(rd, s), s)
  {
    forall b: nat, meta: Meta
      ensures SeparatorRead(AfterOf(rd, s), FieldsOf(rd, s), s, b, meta)
    {
      SeparatorIsRead(rd, s, b, meta);
    }
  }

  lemma {:induction false} FieldReads(sp: Speller, rd: Reader, s: string, m: Package, k: Key)
    requires Agree(sp, rd) && InRange(m)
    ensures PartLaw(FieldsOf(rd, s), s, PartOf(sp, m, k), Arrived(m), k)
  {
    var part := PartOf(sp, m, k);
    KeysAreRead(sp, rd, s, part.key, k);
    ValuesAreRead(rd, s, part.value, m, k);
    SeparatorsAreRead(rd, s);
    PartFromLaws(FieldsOf(rd, s), FieldOf(rd, s, k), AfterOf(rd, s), s, part, Arrived(m), k);
  }

  lemma {:induction false} FieldStep(fields: FieldReader, s: string, p: nat, m: Package, parts: seq<Part>, i: nat)
    requires |parts| == FIELDS && i < FIELDS && IsPart(fields, s, m, parts, i) && FieldsLaidOut(s, p, parts, i)
    ensures
      var b := p + |parts[i].key| + 1 + |parts[i].value|;
      p < |s| && b < |s|
      && fields(p, Filled(m, i)) == if i + 1 < FIELDS then fields(b + 1, Filled(m, i + 1)) else Good(Filled(m, i + 1), b + 1)
  {
    FieldHere(s, p, parts, i);
    assert ReadsAt(fields, s, parts[i], m, NthKey(i), p, Filled(m, i));
  }

  lemma {:induction false} FieldHere(s: string, p: nat, parts: seq<Part>, i: nat)
    requires i < |parts| && FieldsLaidOut(s, p, parts, i)
    ensures
      var a := p + |parts[i].key|;
      var b := a + 1 + |parts[i].value|;
      Ahead(s, p, parts[i].key) && Is(s, a, ':') && Ahead(s, a + 1, parts[i].value)
      && Is(s, b, if i + 1 < |parts| then ',' else '}')
  {
  }

  lemma {:induction false} FieldsReadBack(fields: FieldReader, s: string, p: nat, m: Package, parts: seq<Part>, i: nat)
    requires |parts| == FIELDS && i < FIELDS && FieldsLaidOut(s, p, parts, i)
    requires forall k | 0 <= k < FIELDS :: IsPart(fields, s, m, parts, k)
    ensures p < |s| && fields(p, Filled(m, i)) == Good(Filled(m, FIELDS), FieldsEnd(p, parts, i))
    decreases FIELDS - i
  {
    var b := p + |parts[i].key| + 1 + |parts[i].value|;
    if i + 1 < FIELDS {
      FieldsReadBack(fields, s, b + 1, m, parts, i + 1);
      assert FieldsEnd(p, parts, i) == FieldsEnd(b + 1, parts, i + 1);
    } else {
      assert FieldsEnd(p, parts, i) == b + 1;
    }
    assert IsPart(fields, s, m, parts, i);
    FieldStep(fields, s, p, m, parts, i);
  }

  lemma {:induction false} AllFilled(m: Package)
    ensures Finish(Filled(m, FIELDS)) == [m]
  {
    assert Filled(m, 1) == NEW_META.(pkg := Some(m.pkg));
    assert Filled(m, 2) == NEW_META.(pkg := Some(m.pkg), name := Some(m.name));
    assert Filled(m, 3) == NEW_META.(pkg := Some(m.pkg), name := Some(m.name), args := Some(m.args));
    assert Filled(m, 4) == NEW_META.(pkg := Some(m.pkg), name := Some(m.name), args := Some(m.args), body := Some(m.body));
  }

  // ---------- The whole text ----------

  /** The packages from the i-th on; the i-th opens at o. */
  ghost predicate PackagesLaidOut(s: string, o: nat, texts: seq<string>, i: nat)
    requires i < |texts|
    decreases |texts| - i
  {
    var e := o + 1 + |texts[i]|;
    Is(s, o, '{') && Ahead(s, o + 1, texts[i])
    && if i + 1 < |texts| then
         Is(s, e, ',') && Is(s, e + 1, '\n') && Is(s, e + 2, ' ') && Is(s, e + 3, ' ') && PackagesLaidOut(s, e + 4, texts, i + 1)
       else Is(s, e, '\n') && Is(s, e + 1, ']') && Is(s, e + 2, '\n') && e + 3 == |s|
  }

  lemma {:induction false} LayOutPackages(s: string, p: nat, texts: seq<string>, i: nat)
    requires i < |texts| && p + |texts[i] + PackagesText(texts, i + 1)| + 3 == |s|
    requires Ahead(s, p, [' ', ' ', '{'] + (texts[i] + PackagesText(texts, i + 1)))
    ensures Is(s, p, ' ') && Is(s, p + 1, ' ') && PackagesLaidOut(s, p + 2, texts, i)
    decreases |texts| - i
  {
    var rest := PackagesText(texts, i + 1);
    AheadSplit(s, p, [' ', ' ', '{'], texts[i] + rest);
    Three(s, p, ' ', ' ', '{');
    AheadSplit(s, p + 3, texts[i], rest);
    var e := p + 3 + |texts[i]|;
    if i + 1 < |texts| {
      AheadSplit(s, e, [',', '\n'], [' ', ' ', '{'] + (texts[i + 1] + PackagesText(texts, i + 2)));
      Two(s, e, ',', '\n');
      LayOutPackages(s, e + 2, texts, i + 1);
    } else {
      Three(s, e, '\n', ']', '\n');
    }
  }

  lemma {:induction false} Two(s: string, p: nat, a: char, b: char)
    requires Ahead(s, p, [a, b])
    ensures Is(s, p, a) && Is(s, p + 1, b)
  {
    assert s[p + 0] == [a, b][0] && s[p + 1] == [a, b][1];
  }

  lemma {:induction false} Three(s: string, p: nat, a: char, b: char, c: char)
    requires Ahead(s, p, [a, b, c])
    ensures Is(s, p, a) && Is(s, p + 1, b) && Is(s, p + 2, c)
  {
    assert s[p + 0] == [a, b, c][0] && s[p + 1] == [a, b, c][1] && s[p + 2] == [a, b, c][2];
  }

  lemma {:induction false} OpenObject(rd: Reader, s: string, p: nat, o: nat)
    requires p <= |s| && SkipWs(s, p) == o && Is(s, o, '{') && Is(s, o + 1, '"')
    ensures ParseObject(rd, s, p) == FieldsFrom(rd, s, o + 1, NEW_META)
  {
    assert Expect(s, p, '{') == Good((), o + 1);
  }

  lemma {:induction false} PackageFields(sp: Speller, rd: Reader, s: string, p: nat, m: Package)
    requires Agree(sp, rd) && InRange(m) && Ahead(s, p, PackageText(sp, m))
    ensures Is(s, p, '"') && FieldsFrom(rd, s, p, NEW_META) == Good(Filled(Arrived(m), FIELDS), p + |PackageText(sp, m)|)
  {
    var parts := PartsOf(sp, m);
    LayOutFields(s, p, parts, 0);
    forall k | 0 <= k < FIELDS ensures IsPart(FieldsOf(rd, s), s, Arrived(m), parts, k) {
      FieldReads(sp, rd, s, m, NthKey(k));
    }
    FieldsReadBack(FieldsOf(rd, s), s, p, Arrived(m), parts, 0);
    AheadFirst(s, p, Quoted(sp(NthKey(0))));
  }

  lemma {:induction false} ObjectReadsBack(sp: Speller, rd: Reader, s: string, p: nat, o: nat, m: Package)
    requires Agree(sp, rd) && InRange(m) && p <= |s| && SkipWs(s, p) == o && Is(s, o, '{')
    requires Ahead(s, o + 1, PackageText(sp, m))
    ensures ParseObject(rd, s, p) == Good(Filled(Arrived(m), FIELDS), o + 1 + |PackageText(sp, m)|)
  {
    PackageFields(sp, rd, s, o + 1, m);
    OpenObject(rd, s, p, o);
  }

  lemma {:induction false} PackageRead(rd: Reader, s: string, p: nat, acc: seq<Package>, meta: Meta, e: nat)
    requires p < |s| && ParseObject(rd, s, p) == Good(meta, e)
    ensures e <= |s| && PackagesFrom(rd, s, p, acc) == AfterPackage(rd, s, e, acc + Finish(meta))
  {
    assert PackagesFrom(rd, s, p, acc) == PackageAt(rd, s, p, acc);
  }

  /** After a package that is not the last. */
  lemma {:induction false} NextPackage(rd: Reader, s: string, e: nat, acc: seq<Package>)
    requires Is(s, e, ',')
    ensures AfterPackage(rd, s, e, acc) == PackagesFrom(rd, s, e + 1, acc)
  {
  }

  lemma {:induction false} LastPackage(rd: Reader, s: string, e: nat, acc: seq<Package>)
    requires Is(s, e, '\n') && Is(s, e + 1, ']') && Is(s, e + 2, '\n') && e + 3 == |s|
    ensures AfterPackage(rd, s, e, acc) == Good(acc, |s|)
  {
    assert SkipWs(s, e) == e + 1;
    assert Expect(s, e + 1, ']') == Good((), e + 2);
    assert SkipWs(s, e + 2) == SkipWs(s, e + 3) == |s|;
  }

  lemma {:induction false} NextOpens(s: string, e: nat)
    requires Is(s, e + 1, '\n') && Is(s, e + 2, ' ') && Is(s, e + 3, ' ') && Is(s, e + 4, '{')
    ensures SkipWs(s, e + 1) == e + 4
  {
    assert SkipWs(s, e + 4) == e + 4;
    assert SkipWs(s, e + 2) == SkipWs(s, e + 3) == e + 4;
  }

  /** Wherever the text stands behind an opening brace, the object read there has the package's fields. */
  ghost predicate TextOf(rd: Reader, text: string, m: Package) {
    forall s: string, p: nat, o: nat | p < |s| && SkipWs(s, p) == o && Is(s, o, '{') && Ahead(s, o + 1, text) ::
      ParseObject(rd, s, p) == Good(Filled(m, FIELDS), o + 1 + |text|)
  }

  ghost predicate IsText(rd: Reader, metas: seq<Package>, texts: seq<string>, k: nat)
    requires k < |metas| == |texts|
  {
    TextOf(rd, texts[k], metas[k])
  }

  ghost predicate AllTexts(rd: Reader, metas: seq<Package>, texts: seq<string>) {
    |texts| == |metas| && forall k | 0 <= k < |metas| :: IsText(rd, metas, texts, k)
  }

  lemma {:induction false} PackagesReadBack(rd: Reader, s: string, p: nat, o: nat, metas: seq<Package>, texts: seq<string>, i: nat)
    requires AllTexts(rd, metas, texts) && i < |metas|
    requires p < |s| && SkipWs(s, p) == o && PackagesLaidOut(s, o, texts, i)
    ensures PackagesFrom(rd, s, p, metas[..i]) == Good(metas, |s|)
    decreases |metas| - i
  {
    var e := o + 1 + |texts[i]|;
    if i + 1 < |metas| {
      NextOpens(s, e);
      PackagesReadBack(rd, s, e + 1, e + 4, metas, texts, i + 1);
    }
    assert IsText(rd, metas, texts, i);
    OnePackage(rd, s, p, o, metas, texts, i);
  }

  lemma {:induction false} OnePackage(rd: Reader, s: string, p: nat, o: nat, metas: seq<Package>, texts: seq<string>, i: nat)
    requires |texts| == |metas| && i < |metas| && IsText(rd, metas, texts, i)
    requires p < |s| && SkipWs(s, p) == o && PackagesLaidOut(s, o, texts, i)
    ensures
      var e := o + 1 + |texts[i]|;
      e < |s|
      && PackagesFrom(rd, s, p, metas[..i])
         == if i + 1 < |metas| then PackagesFrom(rd, s, e + 1, metas[..i + 1]) else Good(metas, |s|)
  {
    var e := o + 1 + |texts[i]|;
    PackageHere(s, o, texts, i);
    UpToSeparator(rd, s, p, o, metas, texts, i);
    if i + 1 < |metas| {
      NextPackage(rd, s, e, metas[..i + 1]);
    } else {
      LastPackage(rd, s, e, metas[..i + 1]);
    }
  }

  lemma {:induction false} UpToSeparator(rd: Reader, s: string, p: nat, o: nat, metas: seq<Package>, texts: seq<string>, i: nat)
    requires |texts| == |metas| && i < |metas| && IsText(rd, metas, texts, i)
    requires p < |s| && SkipWs(s, p) == o && Is(s, o, '{') && Ahead(s, o + 1, texts[i])
    requires var e := o + 1 + |texts[i]|; Is(s, e, ',') || Is(s, e, '\n')
    ensures
      var e := o + 1 + |texts[i]|;
      e < |s| && PackagesFrom(rd, s, p, metas[..i]) == AfterPackage(rd, s, e, metas[..i + 1])
      && (i + 1 == |metas| ==> metas[..i + 1] == metas)
  {
    PackageFor(rd, s, p, o, texts[i], metas[i], metas[..i]);
    OneMore(metas, i);
  }

  lemma {:induction false} PackageHere(s: string, o: nat, texts: seq<string>, i: nat)
    requires i < |texts| && PackagesLaidOut(s, o, texts, i)
    ensures
      var e := o + 1 + |texts[i]|;
      Is(s, o, '{') && Ahead(s, o + 1, texts[i])
      && if i + 1 < |texts| then Is(s, e, ',') else Is(s, e, '\n') && Is(s, e + 1, ']') && Is(s, e + 2, '\n') && e + 3 == |s|
  {
  }

  lemma {:induction false} PackageFor(rd: Reader, s: string, p: nat, o: nat, text: string, m: Package, acc: seq<Package>)
    requires TextOf(rd, text, m) && p < |s| && SkipWs(s, p) == o && Is(s, o, '{') && Ahead(s, o + 1, text)
    ensures
      var e := o + 1 + |text|;
      e <= |s| && PackagesFrom(rd, s, p, acc) == AfterPackage(rd, s, e, acc + [m])
  {
    AllFilled(m);
    PackageRead(rd, s, p, acc, Filled(m, FIELDS), o + 1 + |text|);
  }

  lemma {:induction false} OneMore(metas: seq<Package>, i: nat)
    requires i < |metas|
    ensures metas[..i] + [metas[i]] == metas[..i + 1] && (i + 1 == |metas| ==> metas[..i + 1] == metas)
  {
  }

  ghost predicate AllInRange(metas: seq<Package>) {
    forall m | m in metas :: InRange(m)
  }

  ghost predicate AllPortable(metas: seq<Package>) {
    forall m | m in metas :: Portable(m)
  }

  function AllArrived(metas: seq<Package>): (r: seq<Package>)
    ensures |r| == |metas| && forall k | 0 <= k < |r| :: r[k] == Arrived(metas[k])
  {
    seq(|metas|, k requires 0 <= k < |metas| => Arrived(metas[k]))
  }

  lemma {:induction false} AllArriveExactly(metas: seq<Package>)
    ensures AllArrived(metas) == metas <==> AllPortable(metas)
  {
    forall k | 0 <= k < |metas| ensures AllArrived(metas)[k] == metas[k] <==> Portable(metas[k]) {
      ArrivesExactly(metas[k]);
    }
  }

  lemma {:induction false} OutputLaidOut(s: string, texts: seq<string>)
    requires texts != [] && s == ['[', '\n'] + PackagesText(texts, 0)
    ensures Is(s, 0, '[') && Is(s, 1, '\n') && Is(s, 2, ' ') && Is(s, 3, ' ') && PackagesLaidOut(s, 4, texts, 0)
  {
    FirstText(texts);
    HeadAhead(s, PackagesText(texts, 0));
    LayOutPackages(s, 2, texts, 0);
  }

  lemma {:induction false} HeadAhead(s: string, rest: string)
    requires s == ['[', '\n'] + rest
    ensures Is(s, 0, '[') && Is(s, 1, '\n') && Ahead(s, 2, rest) && |s| == 2 + |rest|
  {
    AheadSelf(s);
    AheadSplit(s, 0, ['[', '\n'], rest);
  }

  lemma {:induction false} FirstText(texts: seq<string>)
    requires texts != []
    ensures PackagesText(texts, 0) == [' ', ' ', '{'] + (texts[0] + PackagesText(texts, 1))
  {
  }

  lemma {:induction false} OutputReadsBack(s: string, metas: seq<Package>, texts: seq<string>)
    requires metas != [] && AllTexts(KeyOf, metas, texts) && s == ['[', '\n'] + PackagesText(texts, 0)
    ensures ParseList(s) == Good(metas, |s|)
  {
    OutputLaidOut(s, texts);
    assert SkipWs(s, 4) == 4;
    assert SkipWs(s, 2) == SkipWs(s, 3) == 4;
    assert metas[..0] == [];
    PackagesReadBack(KeyOf, s, 4, 4, metas, texts, 0);
    FirstPackage(s, 4);
  }

  lemma {:induction false} FirstPackage(s: string, q: nat)
    requires Is(s, 0, '[') && q < |s| && SkipWs(s, 1) == q && Is(s, q, '{')
    ensures ParseList(s) == PackagesFrom(KeyOf, s, q, [])
  {
    assert Expect(s, 0, '[') == Good((), 1);
  }

  lemma {:induction false} TextReads(m: Package)
    requires InRange(m) && Agree(KeyText, KeyOf)
    ensures TextOf(KeyOf, PackageText(KeyText, m), Arrived(m))
  {
    var text := PackageText(KeyText, m);
    forall s: string, p: nat, o: nat | p < |s| && SkipWs(s, p) == o && Is(s, o, '{') && Ahead(s, o + 1, text)
      ensures ParseObject(KeyOf, s, p) == Good(Filled(Arrived(m), FIELDS), o + 1 + |text|)
    {
      ObjectReadsBack(KeyText, KeyOf, s, p, o, m);
    }
  }

  /** What the first program writes, the second reads, with no overflow: as many packages in the same order, each
      as it arrives. They are the same packages if and only if none holds a byte the way does not preserve. */
  lemma {:induction false} PipelineKeepsPackages(metas: seq<Package>)
    requires AllInRange(metas)
    ensures ParseList(Output(metas)).Good? && ParseList(Output(metas)).value == AllArrived(metas)
    ensures ParseList(Output(metas)).value == metas <==> AllPortable(metas)
  {
    AllArriveExactly(metas);
    if metas == [] {
      var s := Output(metas);
      assert s == ['[', '\n', '\n', ']', '\n'];
      assert Expect(s, 0, '[') == Good((), 1);
      assert SkipWs(s, 1) == SkipWs(s, 2) == SkipWs(s, 3) == 3;
    } else {
      var texts := Texts(KeyText, metas);
      KeysAgree();
      forall k | 0 <= k < |metas| ensures IsText(KeyOf, AllArrived(metas), texts, k) {
        TextReads(metas[k]);
      }
      OutputReadsBack(Output(metas), AllArrived(metas), texts);
    }
  }

  // ---------- The parser's cursor ----------

  class Parser {
    const s: string
    var pos: nat

    ghost predicate Valid()
      reads this
    {
      pos <= |s|
    }

    constructor (s: string)
      ensures Valid() && this.s == s && pos == 0
    {
      this.s := s;
      pos := 0;
    }

    method SkipSpaces()
      requires Valid()
      modifies this
      ensures Valid() && pos == SkipWs(s, old(pos))
    {
      while pos < |s| && IsSpace(s[pos])
        invariant Valid() && SkipWs(s, pos) == SkipWs(s, old(pos))
      {
        pos := pos + 1;
      }
    }

    method ExpectChar(c: char) returns (ok: bool)
      requires Valid()
      modifies this
      ensures Valid() && ok == Expect(s, old(pos), c).Good? && pos == Expect(s, old(pos), c).at
    {
      SkipSpaces();
      ok := pos < |s| && s[pos] == c;
      if ok {
        pos := pos + 1;
      }
    }

    /** The buffer grows before each character that would leave no room for the NUL. */
    method ReadString() returns (t: Option<string>)
      requires Valid()
      modifies this
      ensures Valid() && pos == ParseString(s, old(pos)).at
      ensures t == if ParseString(s, old(pos)).Good? then Some(ParseString(s, old(pos)).value) else None
    {
      SkipSpaces();
      if !(pos < |s| && s[pos] == '"') {
        return None;
      }
      pos := pos + 1;
      ghost var start := pos;
      var buf := new char[0];
      var len: nat := 0;
      ghost var done := "";
      while pos < |s|
        invariant Valid() && fresh(buf) && len <= buf.Length && buf[..len] == done
        invariant StringFrom(s, start, "") == StringFrom(s, pos, done)
        decreases |s| - pos
      {
        var c := s[pos];
        pos := pos + 1;
        if c == '"' {
          return Some(buf[..len]);
        }
        if c == '\\' {
          if pos >= |s| {
            return None;
          }
          c := s[pos];
          pos := pos + 1;
          if c == 'u' {
            if pos + 4 > |s| {
              return None;
            }
            pos, c := pos + 4, '?';
          } else {
            c := Unescape(c);
          }
        }
        done := done + [c];
        buf, len := Push(buf, len, c);
      }
      return None;
    }

    /** `Undefined` at the first digit that leads past LLONG_MAX: from there on C promises nothing. */
    method ReadInteger() returns (n: Parsed<int>)
      requires Valid()
      modifies this
      ensures n == ParseInteger(s, old(pos)) && (!n.Undefined? ==> Valid() && pos == n.at)
    {
      SkipSpaces();
      var neg := pos < |s| && s[pos] == '-';
      if neg {
        pos := pos + 1;
      }
      if pos == |s| || !IsDigit(s[pos]) {
        return Bad(pos);
      }
      ghost var start := pos;
      var value: nat := 0;
      while pos < |s| && IsDigit(s[pos])
        invariant Valid() && DigitsFrom(s, start, 0) == DigitsFrom(s, pos, value)
        decreases |s| - pos
      {
        value := value * 10 + (s[pos] - '0') as nat;
        if value > LLONG_MAX {
          return Undefined;
        }
        pos := pos + 1;
      }
      if pos < |s| && (s[pos] == '.' || s[pos] == 'e' || s[pos] == 'E') {
        return Bad(pos);
      }
      return Good(if neg then -(value as int) else value, pos);
    }

    /** The first program's integer reader: no intermediate value leaves the range. */
    method ReadGuarded() returns (n: Option<nat>)
      requires Valid()
      modifies this
      ensures Valid() && n.Some? == GuardedFrom(s, old(pos), 0).Good?
      ensures n.Some? ==> n.value == Number(s, old(pos), 0) <= LLONG_MAX && pos == PastDigits(s, old(pos))
    {
      GuardAcceptsExactly(s, pos, 0);
      var value: nat := 0;
      while pos < |s| && IsDigit(s[pos])
        invariant Valid() && value <= LLONG_MAX && GuardedFrom(s, old(pos), 0) == GuardedFrom(s, pos, value)
        decreases |s| - pos
      {
        var d := (s[pos] - '0') as nat;
        if value > (LLONG_MAX - d) / 10 {
          return None;
        }
        GuardIsExact(value, d);
        value := value * 10 + d;
        pos := pos + 1;
      }
      if pos < |s| && (s[pos] == '.' || s[pos] == 'e' || s[pos] == 'E') {
        return None;
      }
      return Some(value);
    }

    method ReadBoolean() returns (b: Option<bool>)
      requires Valid()
      modifies this
      ensures Valid() && pos == ParseBoolean(s, old(pos)).at
      ensures b == if ParseBoolean(s, old(pos)).Good? then Some(ParseBoolean(s, old(pos)).value) else None
    {
      SkipSpaces();
      if Strings.OccursAt(s, "true", pos) {
        pos := pos + 4;
        return Some(true);
      }
      if Strings.OccursAt(s, "false", pos) {
        pos := pos + 5;
        return Some(false);
      }
      return None;
    }

    /** A field whose value has the expected type replaces what was known; any other value is skipped. */
    method ReadField(key: Option<Key>, meta: Meta) returns (r: Parsed<Meta>)
      requires Valid()
      modifies this
      ensures r == ParseField(s, old(pos), key, meta) && (!r.Undefined? ==> Valid() && pos == r.at)
    {
      if key.Some? {
        match key.value {
          case NameKey =>
            var t := ReadString();
            if t.Some? { return Good(meta.(name := t), pos); }
          case PackageKey =>
            var t := ReadString();
            if t.Some? { return Good(meta.(pkg := t), pos); }
          case ArgsKey =>
            var n := ReadInteger();
            if n.Undefined? { return Undefined; }
            if n.Good? { return Good(meta.(args := Some(n.value)), pos); }
          case BodyKey =>
            var t := ReadString();
            if t.Some? { return Good(meta.(body := t), pos); }
          case SkipKey =>
            var b := ReadBoolean();
            if b.Some? { return Good(meta.(skip := b.value), pos); }
        }
      }
      var v := SkipValue(s, pos);
      pos := v.at;
      r := if v.Good? then Good(meta, pos) else Bad(pos);
    }

    method ReadObject() returns (r: Parsed<Meta>)
      requires Valid()
      modifies this
      ensures r == ParseObject(KeyOf, s, old(pos)) && (!r.Undefined? ==> Valid() && pos == r.at)
    {
      var ok := ExpectChar('{');
      if !ok {
        return Bad(pos);
      }
      SkipSpaces();
      if pos < |s| && s[pos] == '}' {
        pos := pos + 1;
        return Good(NEW_META, pos);
      }
      r := ReadFields();
    }

    method ReadFields() returns (r: Parsed<Meta>)
      requires Valid()
      modifies this
      ensures r == FieldsFrom(KeyOf, s, old(pos), NEW_META) && (!r.Undefined? ==> Valid() && pos == r.at)
    {
      var meta := NEW_META;
      while pos < |s|
        invariant Valid() && FieldsFrom(KeyOf, s, old(pos), NEW_META) == FieldsFrom(KeyOf, s, pos, meta)
        decreases |s| - pos
      {
        var more;
        r, more := ReadOneField(meta);
        if !more {
          return;
        }
        meta := r.value;
      }
      r := Bad(pos);
    }

    /** One turn of the loop: another field may follow, or this is the result. */
    method ReadOneField(meta: Meta) returns (r: Parsed<Meta>, more: bool)
      requires Valid() && pos < |s|
      modifies this
      ensures !r.Undefined? ==> Valid() && pos >= old(pos)
      ensures more ==> r.Good? && pos > old(pos) && FieldsFrom(KeyOf, s, old(pos), meta) == FieldsFrom(KeyOf, s, pos, r.value)
      ensures !more ==> r == FieldsFrom(KeyOf, s, old(pos), meta) && (!r.Undefined? ==> pos == r.at)
    {
      ghost var head := pos;
      more := false;
      var key := ReadString();
      if key.None? {
        return Bad(pos), false;
      }
      var colon := ExpectChar(':');
      if !colon {
        return Bad(pos), false;
      }
      ghost var at := pos;
      OpenField(s, head, key.value, at, meta);
      r := ReadField(KeyOf(key.value), meta);
      CloseField(s, at, KeyOf(key.value), meta, r);
      if !r.Good? {
        return;
      }
      SkipSpaces();
      if pos < |s| && s[pos] == ',' {
        pos, more := pos + 1, true;
        return;
      }
      var close := ExpectChar('}');
      r := if close then Good(r.value, pos) else Bad(pos);
    }
  }

  lemma {:induction false} OpenField(s: string, p: nat, key: string, at: nat, meta: Meta)
    requires p < |s| && ParseString(s, p).Good? && ParseString(s, p).value == key
    requires Expect(s, ParseString(s, p).at, ':') == Good((), at)
    ensures p < at <= |s| && FieldsFrom(KeyOf, s, p, meta) == FieldAt(KeyOf, s, at, KeyOf(key), meta)
  {
  }

  lemma {:induction false} CloseField(s: string, p: nat, key: Option<Key>, meta: Meta, r: Parsed<Meta>)
    requires p <= |s| && r == ParseField(s, p, key, meta)
    ensures FieldAt(KeyOf, s, p, key, meta) == if r.Good? then AfterField(KeyOf, s, r.at, r.value) else r
  {
  }

  method Push(buf: array<char>, len: nat, c: char) returns (buf': array<char>, len': nat)
    requires len <= buf.Length
    modifies buf
    ensures (buf' == buf || fresh(buf')) && len' == len + 1 <= buf'.Length && buf'[..len'] == old(buf[..len]) + [c]
  {
    buf' := buf;
    if len + 2 > buf.Length {
      buf' := new char[if buf.Length > 0 then buf.Length * 2 + 2 else 16];
      for i := 0 to len
        invariant buf[..len] == old(buf[..len]) && buf'[..i] == buf[..i]
      {
        buf'[i] := buf[i];
      }
    }
    buf'[len] := c;
    buf'[len + 1] := '\0';
    len' := len + 1;
  }

  method ReadList(json: string) returns (metas: Parsed<seq<Package>>)
    ensures metas == ParseList(json)
  {
    var parser := new Parser(json);
    var ok := parser.ExpectChar('[');
    if !ok {
      return Bad(parser.pos);
    }
    parser.SkipSpaces();
    if parser.pos < |json| && json[parser.pos] == ']' {
      return Good([], parser.pos + 1);
    }
    metas := ReadPackages(parser);
  }

  method ReadPackages(parser: Parser) returns (metas: Parsed<seq<Package>>)
    requires parser.Valid()
    modifies parser
    ensures metas == PackagesFrom(KeyOf, parser.s, old(parser.pos), [])
  {
    var list: seq<Package> := [];
    while parser.pos < |parser.s|
      invariant parser.Valid()
      invariant PackagesFrom(KeyOf, parser.s, old(parser.pos), []) == PackagesFrom(KeyOf, parser.s, parser.pos, list)
      decreases |parser.s| - parser.pos
    {
      ghost var head := parser.pos;
      assert PackagesFrom(KeyOf, parser.s, head, list) == PackageAt(KeyOf, parser.s, head, list);
      var meta := parser.ReadObject();
      match meta {
        case Undefined => return Undefined;
        case Bad(at) => return Bad(at);
        case Good(value, _) =>
          list := list + Finish(value);
      }
      assert PackagesFrom(KeyOf, parser.s, old(parser.pos), []) == AfterPackage(KeyOf, parser.s, parser.pos, list);
      parser.SkipSpaces();
      if !(parser.pos < |parser.s| && parser.s[parser.pos] == ',') {
        var close := parser.ExpectChar(']');
        if !close {
          return Bad(parser.pos);
        }
        parser.SkipSpaces();
        return if parser.pos == |parser.s| then Good(list, parser.pos) else Bad(parser.pos);
      }
      parser.pos := parser.pos + 1;
    }
    return Bad(parser.pos);
  }
}
