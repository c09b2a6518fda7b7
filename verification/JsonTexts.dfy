/** Any JSON text (RFC 8259) whose numbers are integers: with white space wherever it is allowed and strings escaped in
    any way, the parser reads it as the value it stands for. */
module JsonTexts {
  import opened Wrappers
  import opened FLValue
  import opened Sequences
  import opened Json
  import Utf8

  // ---------- Strings ----------

  /** A character as it can be written: as it is, behind a backslash, in four hexadecimal digits, as a surrogate pair. */
  datatype Piece = Raw(c: char) | Short(c: char) | Code(hex: string) | Twin(high: string, low: string)

  predicate IsHexDigit(c: char) {
    '0' <= c <= '9' || 'a' <= c <= 'f' || 'A' <= c <= 'F'
  }

  predicate IsHex(h: string) {
    |h| == 4 && IsHexDigit(h[0]) && IsHexDigit(h[1]) && IsHexDigit(h[2]) && IsHexDigit(h[3])
  }

  function HexNumber(h: string): (r: nat)
    requires |h| == 4
    ensures r < 0x10000
  {
    ((HexValue(h[0]) * 16 + HexValue(h[1])) * 16 + HexValue(h[2])) * 16 + HexValue(h[3])
  }

  lemma {:induction false} HexBack(n: nat)
    requires n < 0x10000
    ensures IsHex(Hex4(n)) && HexNumber(Hex4(n)) == n
  {
    forall d | 0 <= d < 16
      ensures IsHexDigit(HexDigit(d)) && HexValue(HexDigit(d)) == d
    {
    }
    HexDigits(n);
  }

  lemma {:induction false} HexDigits(n: nat)
    requires n < 0x10000
    ensures n / 4096 < 16 && n / 4096 * 16 + n / 256 % 16 == n / 256 && n / 256 * 16 + n / 16 % 16 == n / 16
    ensures n / 16 * 16 + n % 16 == n
  {
  }

  predicate GoodPiece(x: Piece) {
    match x
    case Raw(c) => c != '"' && c != '\\' && c != '\0'
    case Short(c) => c in {'"', '\\', '/', 'b', 'f', 'n', 'r', 't'}
    case Code(h) => IsHex(h) && !(0xD800 <= HexNumber(h) <= 0xDFFF)
    case Twin(h, l) => IsHex(h) && IsHex(l) && 0xD800 <= HexNumber(h) <= 0xDBFF && 0xDC00 <= HexNumber(l) <= 0xDFFF
  }

  ghost predicate GoodPieces(xs: seq<Piece>) {
    forall k | 0 <= k < |xs| :: GoodPiece(xs[k])
  }

  function PieceText(x: Piece): string {
    match x
    case Raw(c) => [c]
    case Short(c) => ['\\', c]
    case Code(h) => ['\\', 'u'] + h
    case Twin(h, l) => ['\\', 'u'] + h + (['\\', 'u'] + l)
  }

  /** The bytes it stands for. */
  function PieceValue(x: Piece): string {
    if !GoodPiece(x) then ""
    else
      match x
      case Raw(c) => [c]
      case Short(c) => [Unescape(c)]
      case Code(h) => Utf8.Encode(HexNumber(h))
      case Twin(h, l) => Utf8.Encode(0x10000 + (HexNumber(h) - 0xD800) * 1024 + HexNumber(l) - 0xDC00)
  }

  function PiecesText(xs: seq<Piece>): string {
    if xs == [] then "" else PieceText(xs[0]) + PiecesText(xs[1..])
  }

  function PiecesValue(xs: seq<Piece>): string {
    if xs == [] then "" else PieceValue(xs[0]) + PiecesValue(xs[1..])
  }

  lemma {:induction false} HexRead(s: string, p: nat, h: string)
    requires |h| == 4 && Ahead(s, p, h)
    ensures p + 4 <= |s| && ReadHex(s, p, 4, 0) == Hex(HexNumber(h), p + 4)
  {
    assert s[p + 0] == h[0] && s[p + 1] == h[1] && s[p + 2] == h[2] && s[p + 3] == h[3];
    var a := HexValue(h[0]);
    var b := a * 16 + HexValue(h[1]);
    var c := b * 16 + HexValue(h[2]);
    assert ReadHex(s, p + 3, 1, c) == Hex(HexNumber(h), p + 4);
    assert ReadHex(s, p + 2, 2, b) == ReadHex(s, p + 3, 1, c);
    assert ReadHex(s, p + 1, 3, a) == ReadHex(s, p + 2, 2, b);
  }

  lemma {:induction false} CodeRead(s: string, p: nat, h: string)
    requires |h| == 4 && Ahead(s, p, ['\\', 'u'] + h)
    ensures p + 6 <= |s| && s[p] == '\\' && s[p + 1] == 'u' && ReadHex(s, p + 2, 4, 0) == Hex(HexNumber(h), p + 6)
  {
    AheadSplit(s, p, ['\\', 'u'], h);
    AheadFirst(s, p, ['\\', 'u']);
    assert s[p + 1] == ['\\', 'u'][1];
    HexRead(s, p + 2, h);
  }

  /** Wherever the piece stands, reading it adds what it stands for. */
  ghost predicate PieceAt(s: string, p: nat, x: Piece, acc: string) {
    var q := p + |PieceText(x)|;
    q <= |s| && StringFrom(s, p, acc) == StringFrom(s, q, acc + PieceValue(x))
  }

  lemma {:induction false} PieceRead(s: string, p: nat, x: Piece, acc: string)
    requires GoodPiece(x) && Ahead(s, p, PieceText(x))
    ensures PieceAt(s, p, x, acc)
  {
    match x {
      case Raw(c) => AheadFirst(s, p, [c]);
      case Short(c) => ShortRead(s, p, c, acc);
      case Code(h) => UnitRead(s, p, h, acc);
      case Twin(h, l) => PairRead(s, p, h, l, acc);
    }
  }

  lemma {:induction false} ShortRead(s: string, p: nat, c: char, acc: string)
    requires GoodPiece(Short(c)) && Ahead(s, p, ['\\', c])
    ensures PieceAt(s, p, Short(c), acc)
  {
    AheadFirst(s, p, ['\\', c]);
    assert s[p + 1] == ['\\', c][1];
  }

  lemma {:induction false} UnitRead(s: string, p: nat, h: string, acc: string)
    requires GoodPiece(Code(h)) && Ahead(s, p, ['\\', 'u'] + h)
    ensures PieceAt(s, p, Code(h), acc)
  {
    CodeRead(s, p, h);
    AtUnicode(s, p, acc, Point(HexNumber(h), p + 6));
  }

  lemma {:induction false} PairRead(s: string, p: nat, h: string, l: string, acc: string)
    requires GoodPiece(Twin(h, l)) && Ahead(s, p, PieceText(Twin(h, l)))
    ensures PieceAt(s, p, Twin(h, l), acc)
  {
    var cp := TwinRead(s, p, h, l);
    AtUnicode(s, p, acc, Point(cp, p + 12));
  }

  lemma {:induction false} TwinRead(s: string, p: nat, h: string, l: string) returns (cp: nat)
    requires GoodPiece(Twin(h, l)) && Ahead(s, p, PieceText(Twin(h, l)))
    ensures p + 12 <= |s| && s[p] == '\\' && s[p + 1] == 'u' && ReadUnicode(s, p + 2) == Point(cp, p + 12)
    ensures cp == 0x10000 + (HexNumber(h) - 0xD800) * 1024 + HexNumber(l) - 0xDC00
  {
    AheadSplit(s, p, ['\\', 'u'] + h, ['\\', 'u'] + l);
    CodeRead(s, p, h);
    CodeRead(s, p + 6, l);
    cp := 0x10000 + (HexNumber(h) - 0xD800) * 1024 + HexNumber(l) - 0xDC00;
    Surrogates(s, p + 2, HexNumber(h), HexNumber(l), cp);
  }

  lemma {:induction false} PiecesRead(s: string, p: nat, xs: seq<Piece>, acc: string)
    requires GoodPieces(xs) && Ahead(s, p, PiecesText(xs))
    ensures StringFrom(s, p, acc) == StringFrom(s, p + |PiecesText(xs)|, acc + PiecesValue(xs))
    decreases |xs|
  {
    if xs == [] {
      assert acc + "" == acc;
    } else {
      var q := FirstPiece(s, p, xs, acc);
      var first, rest := PieceValue(xs[0]), PiecesValue(xs[1..]);
      assert PiecesValue(xs) == first + rest;
      Assoc(acc, first, rest);
      PiecesRead(s, q, xs[1..], acc + first);
    }
  }

  lemma {:induction false} FirstPiece(s: string, p: nat, xs: seq<Piece>, acc: string) returns (q: nat)
    requires xs != [] && GoodPieces(xs) && Ahead(s, p, PiecesText(xs))
    ensures q + |PiecesText(xs[1..])| == p + |PiecesText(xs)| && Ahead(s, q, PiecesText(xs[1..]))
    ensures StringFrom(s, p, acc) == StringFrom(s, q, acc + PieceValue(xs[0]))
  {
    q := p + |PieceText(xs[0])|;
    AheadSplit(s, p, PieceText(xs[0]), PiecesText(xs[1..]));
    PieceRead(s, p, xs[0], acc);
  }

  function InQuotes(xs: seq<Piece>): string {
    ['"'] + (PiecesText(xs) + ['"'])
  }

  function StringValueOf(xs: seq<Piece>): Value {
    Str(UpToNul(PiecesValue(xs)))
  }

  lemma {:induction false} QuotedRead(s: string, p: nat, xs: seq<Piece>)
    requires GoodPieces(xs) && Ahead(s, p, InQuotes(xs))
    ensures Is(s, p, '"') && ParseString(s, p) == Done(StringValueOf(xs), p + |InQuotes(xs)|)
  {
    AheadSplit(s, p, ['"'], PiecesText(xs) + ['"']);
    AheadFirst(s, p, ['"']);
    RestRead(s, p + 1, xs);
  }

  /** Behind the opening quote. */
  lemma {:induction false} RestRead(s: string, p: nat, xs: seq<Piece>)
    requires GoodPieces(xs) && Ahead(s, p, PiecesText(xs) + ['"'])
    ensures StringFrom(s, p, "") == Done(PiecesValue(xs), p + |PiecesText(xs)| + 1)
  {
    AheadSplit(s, p, PiecesText(xs), ['"']);
    AheadFirst(s, p + |PiecesText(xs)|, ['"']);
    PiecesRead(s, p, xs, "");
    assert "" + PiecesValue(xs) == PiecesValue(xs);
  }

  lemma {:induction false} StringReads(xs: seq<Piece>)
    requires GoodPieces(xs)
    ensures ReadsAs(InQuotes(xs), StringValueOf(xs))
  {
    forall s: string, p: nat
      ensures ReadAt(s, p, InQuotes(xs), StringValueOf(xs))
    {
      if Ahead(s, p, InQuotes(xs)) {
        QuotedRead(s, p, xs);
      }
    }
  }

  // ---------- Texts ----------

  /** A text by its parts. `blank` is what stands between the brackets when there is nothing else. */
  datatype Doc =
    | Word(v: Value)
    | Quote(pieces: seq<Piece>)
    | List(blank: string, items: seq<Item>)
    | Dict(blank: string, fields: seq<Field>)

  datatype Item = Item(before: string, doc: Doc, after: string)

  datatype Field = Field(before: string, key: seq<Piece>, after: string, item: Item)

  ghost predicate Valid(d: Doc)
    decreases d, 0
  {
    match d
    case Word(v) => v.Nil? || v.Bool? || (v.Int? && -EXACT <= v.i <= EXACT)
    case Quote(xs) => GoodPieces(xs)
    case List(blank, items) => Blank(blank) && forall k | 0 <= k < |items| :: ValidItem(items[k])
    case Dict(blank, fields) => Blank(blank) && forall k | 0 <= k < |fields| :: ValidField(fields[k])
  }

  ghost predicate ValidItem(x: Item)
    decreases x, 1
  {
    Blank(x.before) && Valid(x.doc) && Blank(x.after)
  }

  ghost predicate ValidField(x: Field)
    decreases x, 1
  {
    Blank(x.before) && GoodPieces(x.key) && Blank(x.after) && ValidItem(x.item)
  }

  function DocText(d: Doc): string
    decreases d, 0
  {
    match d
    case Word(v) => Print(v)
    case Quote(xs) => InQuotes(xs)
    case List(blank, items) => if items == [] then ['['] + blank + [']'] else ListText(ItemTexts(items))
    case Dict(blank, fields) => if fields == [] then ['{'] + blank + ['}'] else MapText(FieldPairs(fields))
  }

  function ItemText(x: Item): string
    decreases x, 1
  {
    x.before + DocText(x.doc) + x.after
  }

  function ItemTexts(items: seq<Item>): (r: seq<string>)
    ensures |r| == |items| && forall k | 0 <= k < |r| :: r[k] == ItemText(items[k])
    decreases items, 0
  {
    if items == [] then [] else [ItemText(items[0])] + ItemTexts(items[1..])
  }

  function KeyText(x: Field): string {
    x.before + InQuotes(x.key) + x.after
  }

  /** An entry with what it is read as. */
  function FieldPair(x: Field): Pair
    decreases x, 1
  {
    Pair(KeyText(x), ItemText(x.item), StringValueOf(x.key), DocValue(x.item.doc))
  }

  function FieldPairs(fields: seq<Field>): (r: seq<Pair>)
    ensures |r| == |fields| && forall k | 0 <= k < |r| :: r[k] == FieldPair(fields[k])
    decreases fields, 0
  {
    if fields == [] then [] else [FieldPair(fields[0])] + FieldPairs(fields[1..])
  }

  // ---------- What they stand for ----------

  function DocValue(d: Doc): Value
    decreases d, 0
  {
    match d
    case Word(v) => v
    case Quote(xs) => StringValueOf(xs)
    case List(_, items) => Vec(ItemValues(items))
    case Dict(_, fields) => PutAll(SET, FieldEntries(fields), |fields|)
  }

  function ItemValues(items: seq<Item>): (r: seq<Value>)
    ensures |r| == |items| && forall k | 0 <= k < |r| :: r[k] == DocValue(items[k].doc)
    decreases items, 0
  {
    if items == [] then [] else [DocValue(items[0].doc)] + ItemValues(items[1..])
  }

  /** They are added one after the other: of those with one key a single one stays, with the last value. */
  function FieldEntries(fields: seq<Field>): (r: seq<Entry>)
    ensures |r| == |fields| && forall k | 0 <= k < |r| :: r[k] == FieldEntry(fields[k])
    decreases fields, 0
  {
    if fields == [] then [] else [FieldEntry(fields[0])] + FieldEntries(fields[1..])
  }

  function FieldEntry(x: Field): Entry
    decreases x, 1
  {
    Entry(StringValueOf(x.key), DocValue(x.item.doc))
  }

  // ---------- The parser reads them so ----------

  lemma {:induction false} EmptyBrackets(open: char, blank: string, close: char, v: Value)
    requires Blank(blank) && ((open == '[' && close == ']' && v == Vec([])) || (open == '{' && close == '}' && v == EMPTY_MAP))
    ensures ReadsAs([open] + blank + [close], v)
  {
    var text := [open] + blank + [close];
    forall s: string, p: nat
      ensures ReadAt(s, p, text, v)
    {
      if Ahead(s, p, text) {
        AheadFirst(s, p, text);
        Bracketed(s, p, open, blank, close);
        AheadSplit(s, p + 1, blank, [close]);
        AheadFirst(s, p + 1 + |blank|, [close]);
        SkipsBlank(s, p + 1, blank);
      }
    }
  }

  lemma {:induction false} KeyReadsAs(before: string, xs: seq<Piece>, after: string)
    requires Blank(before) && GoodPieces(xs) && Blank(after)
    ensures forall s, p :: KeyAt(s, p, before + InQuotes(xs) + after, StringValueOf(xs))
  {
    var text := before + InQuotes(xs) + after;
    forall s: string, p: nat
      ensures KeyAt(s, p, text, StringValueOf(xs))
    {
      if Ahead(s, p, text) {
        AheadSplit(s, p, before + InQuotes(xs), after);
        AheadSplit(s, p, before, InQuotes(xs));
        SkipsBlank(s, p, before);
        QuotedRead(s, p + |before|, xs);
        SkipsBlank(s, p + |before| + |InQuotes(xs)|, after);
      }
    }
  }

  lemma {:induction false} DocReads(d: Doc)
    requires Valid(d)
    ensures ReadsAs(DocText(d), DocValue(d))
    decreases d, 0
  {
    match d {
      case Word(v) => if v.Int? { IntReads(v, v.i); } else { WordReads(v); }
      case Quote(xs) => StringReads(xs);
      case List(blank, items) =>
        if items == [] {
          EmptyBrackets('[', blank, ']', Vec([]));
        } else {
          ItemsRead(items);
          VectorReads(ItemTexts(items), ItemValues(items));
        }
      case Dict(blank, fields) =>
        if fields == [] {
          EmptyBrackets('{', blank, '}', EMPTY_MAP);
        } else {
          FieldsRead(fields);
        }
    }
  }

  lemma {:induction false} ItemReads(x: Item)
    requires ValidItem(x)
    ensures ReadsAs(ItemText(x), DocValue(x.doc))
    decreases x, 1
  {
    DocReads(x.doc);
    PaddedReads(x.before, DocText(x.doc), x.after, DocValue(x.doc));
  }

  lemma {:induction false} ItemsRead(items: seq<Item>)
    requires forall k | 0 <= k < |items| :: ValidItem(items[k])
    ensures AllRead(ItemTexts(items), ItemValues(items))
    decreases items, 0
  {
    forall k | 0 <= k < |items|
      ensures ReadsAs(ItemTexts(items)[k], ItemValues(items)[k])
    {
      ItemReads(items[k]);
    }
  }

  lemma {:induction false} FieldReads(x: Field)
    requires ValidField(x)
    ensures PairReads(FieldPair(x))
    decreases x, 1
  {
    KeyReadsAs(x.before, x.key, x.after);
    ItemReads(x.item);
  }

  lemma {:induction false} FieldsRead(fields: seq<Field>)
    requires forall k | 0 <= k < |fields| :: ValidField(fields[k])
    ensures ReadsAs(MapText(FieldPairs(fields)), PutAll(SET, FieldEntries(fields), |fields|))
    decreases fields, 0
  {
    var list := FieldEntries(fields);
    var acc := seq(|list| + 1, k requires 0 <= k <= |list| => PutAll(SET, list, k));
    forall k | 0 <= k < |fields|
      ensures AddsPair(SET, FieldPairs(fields), acc, k)
    {
      FieldReads(fields[k]);
    }
    MapReads(FieldPairs(fields), acc);
  }

  /** Any text of the grammar, with white space around it: the parser gives the value it stands for. */
  lemma {:induction false} AnyTextIsRead(before: string, d: Doc, after: string)
    requires Blank(before) && Valid(d) && Blank(after)
    ensures var text := before + DocText(d) + after; ParseText(text) == Done(DocValue(d), |text|)
  {
    var text := before + DocText(d) + after;
    DocReads(d);
    PaddedReads(before, DocText(d), after, DocValue(d));
    AheadSelf(text);
    TextRead(text, 0, text, DocValue(d));
  }

  // ---------- Printed values, spread out ----------

  /** The same text without white space. */
  function Tight(d: Doc): Doc
    decreases d, 0
  {
    match d
    case List(_, items) => List("", TightItems(items))
    case Dict(_, fields) => Dict("", TightFields(fields))
    case _ => d
  }

  function TightItem(x: Item): Item
    decreases x, 1
  {
    Item("", Tight(x.doc), "")
  }

  function TightItems(items: seq<Item>): (r: seq<Item>)
    ensures |r| == |items| && forall k | 0 <= k < |r| :: r[k] == TightItem(items[k])
    decreases items, 0
  {
    if items == [] then [] else [TightItem(items[0])] + TightItems(items[1..])
  }

  function TightField(x: Field): Field
    decreases x, 1
  {
    Field("", x.key, "", TightItem(x.item))
  }

  function TightFields(fields: seq<Field>): (r: seq<Field>)
    ensures |r| == |fields| && forall k | 0 <= k < |r| :: r[k] == TightField(fields[k])
    decreases fields, 0
  {
    if fields == [] then [] else [TightField(fields[0])] + TightFields(fields[1..])
  }

  /** White space stands for nothing. */
  lemma {:induction false} TightValue(d: Doc)
    ensures DocValue(Tight(d)) == DocValue(d)
    decreases d, 0
  {
    match d {
      case List(_, items) =>
        forall k | 0 <= k < |items|
          ensures ItemValues(TightItems(items))[k] == ItemValues(items)[k]
        {
          TightValue(items[k].doc);
        }
      case Dict(_, fields) =>
        forall k | 0 <= k < |fields|
          ensures FieldEntry(TightField(fields[k])) == FieldEntry(fields[k])
        {
          TightEntry(fields[k]);
        }
        assert FieldEntries(TightFields(fields)) == FieldEntries(fields);
      case _ =>
    }
  }

  lemma {:induction false} TightEntry(x: Field)
    ensures FieldEntry(TightField(x)) == FieldEntry(x)
    decreases x, 1
  {
    TightValue(x.item.doc);
  }

  /** How the printer writes a character. */
  function PieceOf(c: char): Piece {
    if c == '"' || c == '\\' then Short(c)
    else if c == '\n' then Short('n') else if c == '\t' then Short('t') else if c == '\r' then Short('r')
    else if c < ' ' then Code(Hex4(c as nat))
    else Raw(c)
  }

  function PiecesOf(t: string): seq<Piece> {
    if t == "" then [] else [PieceOf(t[0])] + PiecesOf(t[1..])
  }

  /** How the printer writes a value. */
  function DocOf(v: Value): Doc
    decreases v, 0
  {
    match v
    case Float(f) => Word(Int(f.Floor))
    case Fn(_) => Word(Nil)
    case Str(t) => Quote(PiecesOf(t))
    case Vec(items) => List("", ItemsOf(items))
    case Map(es) => Dict("", FieldsOf(es))
    case _ => Word(v)
  }

  function ItemsOf(items: seq<Value>): (r: seq<Item>)
    ensures |r| == |items| && forall k | 0 <= k < |r| :: r[k] == Item("", DocOf(items[k]), "")
    decreases items, 0
  {
    if items == [] then [] else [Item("", DocOf(items[0]), "")] + ItemsOf(items[1..])
  }

  function FieldOf(e: Entry): Field
    decreases e, 1
  {
    Field("", if e.key.Str? then PiecesOf(e.key.s) else [], "", Item("", DocOf(e.val), ""))
  }

  function FieldsOf(es: seq<Entry>): (r: seq<Field>)
    ensures |r| == |es| && forall k | 0 <= k < |r| :: r[k] == FieldOf(es[k])
    decreases es, 0
  {
    if es == [] then [] else [FieldOf(es[0])] + FieldsOf(es[1..])
  }

  lemma {:induction false} PieceIsPrinted(c: char)
    ensures GoodPiece(PieceOf(c)) && PieceText(PieceOf(c)) == EscChar(c) && PieceValue(PieceOf(c)) == [c]
  {
    if c < ' ' {
      HexBack(c as nat);
    }
  }

  lemma {:induction false} PiecesArePrinted(t: string)
    ensures GoodPieces(PiecesOf(t)) && PiecesText(PiecesOf(t)) == Esc(t) && PiecesValue(PiecesOf(t)) == t
  {
    if t != "" {
      PieceIsPrinted(t[0]);
      PiecesArePrinted(t[1..]);
      assert [t[0]] + t[1..] == t;
    }
  }

  /** The printed text is one of these texts, and stands for the canonical form of the value. */
  ghost predicate IsPrinted(v: Value) {
    Valid(DocOf(v)) && DocText(DocOf(v)) == Print(v) && DocValue(DocOf(v)) == Canon(v)
  }

  lemma {:induction false} PrintedIsText(v: Value)
    requires Printable(v)
    ensures IsPrinted(v)
    decreases v, 1
  {
    match v {
      case Str(t) =>
        PiecesArePrinted(t);
        Assoc(['"'], Esc(t), ['"']);
      case Vec(items) =>
        forall k | 0 <= k < |items|
          ensures IsPrinted(items[k])
        {
          assert ItemOk(items, k);
          PrintedIsText(items[k]);
        }
        VectorIsPrinted(items);
      case Map(es) =>
        forall k | 0 <= k < |es|
          ensures FieldPrinted(es[k])
        {
          assert EntryOk(es, k) && es[k].val < es[k];
          FieldIsPrinted(es[k]);
        }
        MapIsPrinted(es);
      case _ =>
    }
  }

  lemma {:induction false} VectorIsPrinted(items: seq<Value>)
    requires forall k | 0 <= k < |items| :: IsPrinted(items[k])
    ensures IsPrinted(Vec(items))
  {
    forall k | 0 <= k < |items|
      ensures ItemTexts(ItemsOf(items))[k] == Print(items[k])
    {
      assert IsPrinted(items[k]);
      Unpadded(Print(items[k]));
    }
    assert ItemTexts(ItemsOf(items)) == Printed(items);
    ItemsAreJoined(items, 0);
    VectorStandsFor(items);
  }

  lemma {:induction false} VectorStandsFor(items: seq<Value>)
    requires forall k | 0 <= k < |items| :: IsPrinted(items[k])
    ensures Valid(DocOf(Vec(items))) && DocValue(DocOf(Vec(items))) == Canon(Vec(items))
  {
    forall k | 0 <= k < |items|
      ensures ValidItem(ItemsOf(items)[k]) && ItemValues(ItemsOf(items))[k] == CanonItems(items, |items|)[k]
    {
      assert IsPrinted(items[k]);
      CanonItem(items, |items|, k);
    }
  }

  lemma {:induction false} Unpadded(t: string)
    ensures "" + t + "" == t
  {
  }

  ghost predicate FieldPrinted(e: Entry) {
    ValidField(FieldOf(e)) && FieldPair(FieldOf(e)) == PairOf(e)
  }

  lemma {:induction false} MapIsPrinted(es: seq<Entry>)
    requires forall k | 0 <= k < |es| :: FieldPrinted(es[k])
    ensures IsPrinted(Map(es))
  {
    assert FieldPairs(FieldsOf(es)) == PairsOf(es) by {
      forall k | 0 <= k < |es|
        ensures FieldPairs(FieldsOf(es))[k] == PairsOf(es)[k]
      {
        assert FieldPrinted(es[k]);
      }
    }
    EntriesAreJoined(es, 0);
    MapStandsFor(es);
  }

  lemma {:induction false} MapStandsFor(es: seq<Entry>)
    requires forall k | 0 <= k < |es| :: FieldPrinted(es[k])
    ensures Valid(DocOf(Map(es))) && DocValue(DocOf(Map(es))) == Canon(Map(es))
  {
    FieldsAreValid(es);
    MapParts(es, FieldsOf(es));
    EntriesStandFor(es, FieldsOf(es));
  }

  lemma {:induction false} MapParts(es: seq<Entry>, fields: seq<Field>)
    requires fields == FieldsOf(es)
    ensures DocOf(Map(es)) == Dict("", fields) && Canon(Map(es)) == CanonEntries(es, |es|)
    ensures DocValue(Dict("", fields)) == PutAll(SET, FieldEntries(fields), |fields|)
  {
  }

  lemma {:induction false} FieldsAreValid(es: seq<Entry>)
    requires forall k | 0 <= k < |es| :: FieldPrinted(es[k])
    ensures Valid(DocOf(Map(es)))
  {
    forall k | 0 <= k < |es|
      ensures ValidField(FieldsOf(es)[k])
    {
      assert FieldPrinted(es[k]);
    }
  }

  lemma {:induction false} EntriesStandFor(es: seq<Entry>, fields: seq<Field>)
    requires (forall k | 0 <= k < |es| :: FieldPrinted(es[k])) && fields == FieldsOf(es)
    ensures PutAll(SET, FieldEntries(fields), |fields|) == CanonEntries(es, |es|)
  {
    var list := FieldEntries(fields);
    forall k | 0 <= k < |es|
      ensures list[k] == Entry(Canon(es[k].key), Canon(es[k].val))
    {
      assert FieldPrinted(es[k]);
    }
    CanonIsPutAll(es, list, |fields|);
  }

  lemma {:induction false} FieldIsPrinted(e: Entry)
    requires e.key.Str? && Printable(e.val)
    ensures FieldPrinted(e)
    decreases e, 1
  {
    PrintedIsText(e.val);
    PiecesArePrinted(e.key.s);
    Assoc(['"'], Esc(e.key.s), ['"']);
    Unpadded(Print(e.key));
    Unpadded(Print(e.val));
  }

  /** A printed value with white space anywhere between its tokens, and around it: its canonical form is read. */
  lemma {:induction false} SpreadOutReadsBack(v: Value, before: string, d: Doc, after: string)
    requires Printable(v) && Tight(d) == DocOf(v) && Valid(d) && Blank(before) && Blank(after)
    ensures var text := before + DocText(d) + after; ParseText(text) == Done(Canon(v), |text|)
  {
    PrintedIsText(v);
    TightValue(d);
    AnyTextIsRead(before, d, after);
  }

  /** Wherever the text of a value stands, its canonical form is read. */
  lemma {:induction false} ValueReadsBack(v: Value)
    requires Printable(v)
    ensures ReadsAs(Print(v), Canon(v))
  {
    PrintedIsText(v);
    DocReads(DocOf(v));
  }

  lemma {:induction false} StringReadsBack(s: string, p: nat, t: string, acc: string)
    requires Ahead(s, p, Esc(t) + ['"'])
    ensures StringFrom(s, p, acc) == Done(acc + t, p + |Esc(t)| + 1)
  {
    AheadSplit(s, p, Esc(t), ['"']);
    AheadFirst(s, p + |Esc(t)|, ['"']);
    PiecesArePrinted(t);
    PiecesRead(s, p, PiecesOf(t), acc);
  }

  /** What `fl_json_stringify` returns, parsed by `fl_json_parse`: always the canonical value, and the value itself
      if and only if it has no float, no function, no NUL and no repeated key. */
  lemma {:induction false} StringifyThenParse(v: Value)
    requires Printable(v)
    ensures ParseText(UpToNul(Print(v))) == Done(Canon(v), |Print(v)|)
    ensures ParseText(UpToNul(Print(v))) == Done(v, |Print(v)|) <==> Jsonable(v)
  {
    PrintNulFree(v);
    NulFreeKept(Print(v));
    PrintedIsText(v);
    AnyTextIsRead("", DocOf(v), "");
    Unpadded(Print(v));
    CanonKeeps(v);
  }

  // ---------- Unicode escapes ----------

  /** One escape, or a surrogate pair. */
  function ScalarPiece(cp: nat): Piece
    requires cp < 0x11_0000
  {
    if cp < 0x10000 then Code(Hex4(cp))
    else Twin(Hex4(0xD800 + (cp - 0x10000) / 1024), Hex4(0xDC00 + (cp - 0x10000) % 1024))
  }

  function ScalarPieces(cps: seq<nat>): seq<Piece>
    requires forall i | 0 <= i < |cps| :: Utf8.Scalar(cps[i])
  {
    if cps == [] then []
    else
      assert Utf8.Scalar(cps[0]);
      [ScalarPiece(cps[0])] + ScalarPieces(cps[1..])
  }

  lemma {:induction false} ScalarPieceIs(cp: nat)
    requires Utf8.Scalar(cp)
    ensures GoodPiece(ScalarPiece(cp)) && PieceValue(ScalarPiece(cp)) == Utf8.Encode(cp)
  {
    if cp < 0x10000 {
      HexBack(cp);
    } else {
      HexBack(0xD800 + (cp - 0x10000) / 1024);
      HexBack(0xDC00 + (cp - 0x10000) % 1024);
    }
  }

  lemma {:induction false} ScalarPiecesAre(cps: seq<nat>)
    requires forall i | 0 <= i < |cps| :: Utf8.Scalar(cps[i])
    ensures GoodPieces(ScalarPieces(cps)) && PiecesValue(ScalarPieces(cps)) == Utf8.EncodeAll(cps)
  {
    if cps != [] {
      assert Utf8.Scalar(cps[0]);
      ScalarPieceIs(cps[0]);
      ScalarPiecesAre(cps[1..]);
    }
  }

  lemma {:induction false} EncodedNulFree(cps: seq<nat>)
    requires forall i | 0 <= i < |cps| :: Utf8.Scalar(cps[i])
    ensures NulFree(Utf8.EncodeAll(cps))
  {
    if cps != [] {
      EncodedNulFree(cps[1..]);
    }
  }

  /** Any scalar values, escaped: the parser's string holds their UTF-8 bytes, and decoding those gives the
      scalar values back with no byte left over. */
  lemma {:induction false} EscapedScalarsDecode(cps: seq<nat>)
    requires forall i | 0 <= i < |cps| :: Utf8.Scalar(cps[i])
    ensures
      var text := InQuotes(ScalarPieces(cps));
      ParseText(text) == Done(Str(Utf8.EncodeAll(cps)), |text|)
      && Utf8.DecodeAll(Utf8.EncodeAll(cps), 0) == Some(cps)
  {
    var d := Quote(ScalarPieces(cps));
    ScalarPiecesAre(cps);
    EncodedNulFree(cps);
    NulFreeKept(Utf8.EncodeAll(cps));
    AnyTextIsRead("", d, "");
    Unpadded(DocText(d));
    Utf8.DecodeOfEncode(Utf8.EncodeAll(cps), 0, cps);
  }
}
