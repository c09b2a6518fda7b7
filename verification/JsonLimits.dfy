/** When the cursor of `fl_json_parse` runs past the terminating NUL. */
module JsonLimits {
  import opened Decimal
  import opened FLValue
  import opened Sequences
  import opened Json
  import opened JsonTexts
  import Strings
  import Utf8

  // ---------- One pass ----------

  datatype Bracket = Array | Object

  /** What the text may go on with: a value that must come, a value or `]` behind `[`, a value behind a comma that still
      touches it, what follows a value, a key or `}`, what follows a key, or the rest of a string. */
  datatype Mode = Owed | First | Next | Behind | Key | BehindKey | Text(key: bool)

  /** How far the pass gets: to where the outermost value ends, past the end of the text, or to a number outside the
      model. */
  datatype Verdict = Stops(at: nat) | Past | Strange

  predicate Within(mode: Mode, open: seq<Bracket>) {
    (mode.First? || mode.Next? ==> open != [] && open[0] == Array)
    && (mode.Key? || mode.BehindKey? || mode == Text(true) ==> open != [] && open[0] == Object)
  }

  function AfterText(key: bool): Mode {
    if key then BehindKey else Behind
  }

  function Closer(b: Bracket): char {
    if b == Array then ']' else '}'
  }

  /** One pass over the text from p on, with the brackets that are open, the innermost first. */
  function Scan(s: string, p: nat, mode: Mode, open: seq<Bracket>): Verdict
    requires p <= |s| && Within(mode, open)
    decreases |s| - p, |open|, if mode.Text? then 2 else if mode.BehindKey? then 1 else 0
  {
    if mode.Text? then
      if p == |s| then Scan(s, p, AfterText(mode.key), open)
      else if s[p] == '"' then Scan(s, p + 1, AfterText(mode.key), open)
      else if s[p] != '\\' then Scan(s, p + 1, mode, open)
      else if p + 1 == |s| then Past
      else Scan(s, EscapeEnd(s, p), mode, open)
    else if p == |s| then if mode.Owed? || mode.BehindKey? then Past else Stops(p)
    else if IsSpace(s[p]) then Scan(s, p + 1, if mode.Next? then Owed else mode, open)
    else if mode.BehindKey? then Scan(s, Close(s, p, ':'), Owed, open)
    else if mode.Behind? then
      if open == [] then Stops(p)
      else if s[p] == ',' then Scan(s, p + 1, if open[0] == Array then Next else Key, open)
      else Scan(s, Close(s, p, Closer(open[0])), Behind, open[1..])
    else if mode.Key? then
      if s[p] == '"' then Scan(s, p + 1, Text(true), open) else Scan(s, Close(s, p, '}'), Behind, open[1..])
    else if mode.First? && s[p] == ']' then Scan(s, p + 1, Behind, open[1..])
    else if s[p] == '"' then Scan(s, p + 1, Text(false), open)
    else if s[p] == '[' then Scan(s, p + 1, First, [Array] + open)
    else if s[p] == '{' then Scan(s, p + 1, Key, [Object] + open)
    else
      var r := Plain(s, p);
      if r.Done? then Scan(s, r.at, Behind, open) else Strange
  }

  /** Behind a backslash and the character it takes, and up to four more behind `\u`. */
  function EscapeEnd(s: string, p: nat): (r: nat)
    requires p + 1 < |s|
    ensures p < r <= |s|
  {
    if s[p + 1] == 'u' then ReadHex(s, p + 2, 4, 0).at else p + 2
  }

  /** A value without brackets and quotes; any other character is passed over. */
  function Plain(s: string, p: nat): (r: Parsed<Value>)
    requires p < |s|
    ensures r.Done? ==> p < r.at <= |s|
    ensures r.Done? || r.NotModelled?
  {
    if Strings.OccursAt(s, "null", p) then Done(Nil, p + 4)
    else if Strings.OccursAt(s, "true", p) then Done(Bool(true), p + 4)
    else if Strings.OccursAt(s, "false", p) then Done(Bool(false), p + 5)
    else ParseNumber(s, p)
  }

  // ---------- The pass follows the parser ----------

  /** The pass goes on behind what the parser has read. */
  function Resume<T>(s: string, r: Parsed<T>, mode: Mode, open: seq<Bracket>): Verdict
    requires Within(mode, open) && (r.Done? ==> r.at <= |s|)
  {
    match r
    case Done(_, at) => Scan(s, at, mode, open)
    case NotModelled => Strange
    case _ => Past
  }

  lemma {:induction false} TextScan(s: string, p: nat, acc: string, key: bool, open: seq<Bracket>)
    requires p <= |s| && Within(Text(key), open)
    ensures Scan(s, p, Text(key), open) == Resume(s, StringFrom(s, p, acc), AfterText(key), open)
    decreases |s| - p
  {
    if p < |s| && s[p] != '"' {
      if s[p] != '\\' {
        TextScan(s, p + 1, acc + [s[p]], key, open);
      } else if p + 1 < |s| {
        EscapeScan(s, p, acc, key, open);
      }
    }
  }

  lemma {:induction false} EscapeScan(s: string, p: nat, acc: string, key: bool, open: seq<Bracket>)
    requires p + 1 < |s| && s[p] == '\\' && Within(Text(key), open)
    ensures Scan(s, p, Text(key), open) == Resume(s, StringFrom(s, p, acc), AfterText(key), open)
    decreases |s| - p, 0
  {
    if s[p + 1] == 'u' {
      var u := ReadUnicode(s, p + 2);
      UnitScan(s, p, key, open);
      TextScan(s, u.at, acc + Utf8.Encode(u.cp), key, open);
    } else {
      TextScan(s, p + 2, acc + [Unescape(s[p + 1])], key, open);
    }
  }

  /** A surrogate pair is passed like two escapes. */
  lemma {:induction false} UnitScan(s: string, p: nat, key: bool, open: seq<Bracket>)
    requires p + 1 < |s| && s[p] == '\\' && s[p + 1] == 'u' && Within(Text(key), open)
    ensures Scan(s, p, Text(key), open) == Scan(s, ReadUnicode(s, p + 2).at, Text(key), open)
  {
  }

  lemma {:induction false} SpaceScan(s: string, p: nat, mode: Mode, open: seq<Bracket>)
    requires p <= |s| && Within(mode, open) && !mode.Text? && !mode.Next?
    ensures Scan(s, p, mode, open) == Scan(s, SkipWs(s, p), mode, open)
    decreases |s| - p
  {
    if p < |s| && IsSpace(s[p]) {
      SpaceScan(s, p + 1, mode, open);
    }
  }

  lemma {:induction false} ValueScan(s: string, p: nat, open: seq<Bracket>)
    requires p <= |s|
    ensures ParseValue(s, p) != Throws
    ensures Scan(s, p, Owed, open) == Resume(s, ParseValue(s, p), Behind, open)
    decreases |s| - p, 2
  {
    var q := SkipWs(s, p);
    SpaceScan(s, p, Owed, open);
    SkippedTwice(s, p);
    if q == |s| {
      assert ParseValue(s, q) == PastEnd;
    } else if s[q] == '"' {
      StringScan(s, q, open);
    } else if s[q] == '[' {
      VectorScan(s, q, open);
    } else if s[q] == '{' {
      MapScan(s, q, open);
    } else {
      PlainScan(s, q, open);
    }
  }

  lemma {:induction false} StringScan(s: string, p: nat, open: seq<Bracket>)
    requires Is(s, p, '"')
    ensures ParseValue(s, p) != Throws
    ensures Scan(s, p, Owed, open) == Resume(s, ParseValue(s, p), Behind, open)
  {
    assert SkipWs(s, p) == p && ParseValue(s, p) == ParseString(s, p);
    TextScan(s, p + 1, "", false, open);
  }

  lemma {:induction false} VectorScan(s: string, p: nat, open: seq<Bracket>)
    requires Is(s, p, '[')
    ensures ParseValue(s, p) != Throws
    ensures Scan(s, p, Owed, open) == Resume(s, ParseValue(s, p), Behind, open)
    decreases |s| - p, 1
  {
    AtBracket(s, p);
    assert Scan(s, p, Owed, open) == Scan(s, p + 1, First, [Array] + open);
    BracketScan(s, p + 1, open);
  }

  lemma {:induction false} MapScan(s: string, p: nat, open: seq<Bracket>)
    requires Is(s, p, '{')
    ensures ParseValue(s, p) != Throws
    ensures Scan(s, p, Owed, open) == Resume(s, ParseValue(s, p), Behind, open)
    decreases |s| - p, 1
  {
    AtBrace(s, p);
    assert Scan(s, p, Owed, open) == Scan(s, p + 1, Key, [Object] + open);
    BraceScan(s, p + 1, open);
  }

  lemma {:induction false} PlainScan(s: string, p: nat, open: seq<Bracket>)
    requires p < |s| && !IsSpace(s[p]) && s[p] != '"' && s[p] != '[' && s[p] != '{'
    ensures ParseValue(s, p) != Throws
    ensures Scan(s, p, Owed, open) == Resume(s, ParseValue(s, p), Behind, open)
  {
    assert SkipWs(s, p) == p && ParseValue(s, p) == Plain(s, p);
  }

  lemma {:induction false} BracketScan(s: string, p: nat, open: seq<Bracket>)
    requires p <= |s|
    ensures
      var q := SkipWs(s, p);
      var r := if Is(s, q, ']') then Done(Vec([]), q + 1) else ArrayFrom(s, q, []);
      r != Throws && Scan(s, p, First, [Array] + open) == Resume(s, r, Behind, open)
    decreases |s| - p, 4
  {
    var q, inner := SkipWs(s, p), [Array] + open;
    assert inner[1..] == open;
    SpaceScan(s, p, First, inner);
    if q < |s| && s[q] != ']' {
      assert Scan(s, q, First, inner) == Scan(s, q, Owed, inner);
      ElementScan(s, q, [], open);
    }
  }

  /** An element and what comes behind it. */
  lemma {:induction false} ElementScan(s: string, p: nat, acc: seq<Value>, open: seq<Bracket>)
    requires p < |s|
    ensures ArrayFrom(s, p, acc) != Throws
    ensures Scan(s, p, Owed, [Array] + open) == Resume(s, ArrayFrom(s, p, acc), Behind, open)
    decreases |s| - p, 3
  {
    var q := SkipWs(s, p);
    SpaceScan(s, p, Owed, [Array] + open);
    ValueScan(s, q, [Array] + open);
    var r := ParseValue(s, q);
    if r.Done? {
      ItemScan(s, r.at, acc + [r.value], open);
    }
  }

  lemma {:induction false} ItemScan(s: string, p: nat, acc: seq<Value>, open: seq<Bracket>)
    requires p <= |s|
    ensures NextItem(s, p, acc) != Throws
    ensures Scan(s, p, Behind, [Array] + open) == Resume(s, NextItem(s, p, acc), Behind, open)
    decreases |s| - p, 4
  {
    var q, inner := SkipWs(s, p), [Array] + open;
    assert inner[1..] == open;
    SpaceScan(s, p, Behind, inner);
    if Is(s, q, ',') && q + 1 < |s| {
      CommaScan(s, q + 1, inner);
      ElementScan(s, q + 1, acc, open);
    }
  }

  /** Before the end of the text it makes no difference whether a comma has just been read. */
  lemma {:induction false} CommaScan(s: string, p: nat, open: seq<Bracket>)
    requires p < |s| && Within(Next, open)
    ensures Scan(s, p, Next, open) == Scan(s, p, Owed, open)
  {
  }

  lemma {:induction false} BraceScan(s: string, p: nat, open: seq<Bracket>)
    requires p <= |s|
    ensures
      var q := SkipWs(s, p);
      var r := if Is(s, q, '}') then Done(EMPTY_MAP, q + 1) else ObjectFrom(s, q, EMPTY_MAP);
      r != Throws && Scan(s, p, Key, [Object] + open) == Resume(s, r, Behind, open)
    decreases |s| - p, 4
  {
    var q, inner := SkipWs(s, p), [Object] + open;
    assert inner[1..] == open;
    SpaceScan(s, p, Key, inner);
    ObjectScan(s, q, EMPTY_MAP, open);
  }

  lemma {:induction false} ObjectScan(s: string, p: nat, acc: Value, open: seq<Bracket>)
    requires p <= |s|
    ensures ObjectFrom(s, p, acc) != Throws
    ensures Scan(s, p, Key, [Object] + open) == Resume(s, ObjectFrom(s, p, acc), Behind, open)
    decreases |s| - p, 3
  {
    var k, inner := SkipWs(s, p), [Object] + open;
    assert inner[1..] == open;
    SpaceScan(s, p, Key, inner);
    if Is(s, k, '"') {
      TextScan(s, k + 1, "", true, inner);
      var key := ParseString(s, k);
      if key.Done? {
        EntryScan(s, key.at, acc, key.value, open);
      }
    }
  }

  lemma {:induction false} EntryScan(s: string, a: nat, acc: Value, key: Value, open: seq<Bracket>)
    requires a <= |s|
    ensures EntryFrom(s, a, acc, key) != Throws
    ensures Scan(s, a, BehindKey, [Object] + open) == Resume(s, EntryFrom(s, a, acc, key), Behind, open)
    decreases |s| - a, 4
  {
    var c, inner := Close(s, SkipWs(s, a), ':'), [Object] + open;
    SpaceScan(s, a, BehindKey, inner);
    SpaceScan(s, c, Owed, inner);
    ValueScan(s, SkipWs(s, c), inner);
    var r := ParseValue(s, SkipWs(s, c));
    if r.Done? {
      MoreScan(s, r.at, MapSet(acc, key, r.value), open);
    }
  }

  lemma {:induction false} MoreScan(s: string, b: nat, acc: Value, open: seq<Bracket>)
    requires b <= |s|
    ensures NextEntry(s, b, acc) != Throws
    ensures Scan(s, b, Behind, [Object] + open) == Resume(s, NextEntry(s, b, acc), Behind, open)
    decreases |s| - b, 4
  {
    var q, inner := SkipWs(s, b), [Object] + open;
    assert inner[1..] == open;
    SpaceScan(s, b, Behind, inner);
    if Is(s, q, ',') {
      ObjectScan(s, q + 1, acc, open);
    }
  }

  /** What the parser does with a text is what the pass says: it runs past the end, meets such a number, throws because
      of what is left over, or returns a value. */
  lemma {:induction false} ParserFollowsScan(s: string)
    ensures
      var r := ParseText(s);
      match Scan(s, 0, Owed, [])
      case Past => r == PastEnd
      case Strange => r == NotModelled
      case Stops(at) => if at < |s| then r == Throws else r.Done?
  {
    ValueScan(s, 0, []);
    var r := ParseValue(s, 0);
    if r.Done? {
      SpaceScan(s, r.at, Behind, []);
    }
  }

  // ---------- What can be seen without brackets ----------

  /** Whether the text ends inside a string, counting quotes and backslashes only. */
  function EndsQuoted(s: string, p: nat, inside: bool): bool
    requires p <= |s|
    decreases |s| - p
  {
    if p == |s| then inside
    else if !inside then EndsQuoted(s, p + 1, s[p] == '"')
    else if s[p] == '"' then EndsQuoted(s, p + 1, false)
    else if s[p] != '\\' then EndsQuoted(s, p + 1, true)
    else p + 1 == |s| || EndsQuoted(s, EscapeEnd(s, p), true)
  }

  lemma {:induction false} NoQuotes(s: string, p: nat, q: nat)
    requires p <= q <= |s| && forall k | p <= k < q :: s[k] != '"'
    ensures EndsQuoted(s, p, false) == EndsQuoted(s, q, false)
    decreases q - p
  {
    if p < q {
      NoQuotes(s, p + 1, q);
    }
  }

  lemma {:induction false} DigitsRead(s: string, p: nat, acc: nat)
    requires p <= |s|
    ensures forall k | p <= k < ReadDigits(s, p, acc).at :: IsDigit(s[k])
    decreases |s| - p
  {
    if p < |s| && IsDigit(s[p]) {
      DigitsRead(s, p + 1, acc * 10 + (s[p] - '0') as nat);
    }
  }

  /** It holds no quote and ends in no character that asks for more. */
  lemma {:induction false} PlainPassed(s: string, p: nat)
    requires p < |s| && s[p] != '"' && Plain(s, p).Done?
    ensures forall k | p <= k < Plain(s, p).at :: s[k] != '"'
  {
    if Strings.OccursAt(s, "null", p) {
      Strings.OccursIsSlice(s, "null", p);
    } else if Strings.OccursAt(s, "true", p) {
      Strings.OccursIsSlice(s, "true", p);
    } else if Strings.OccursAt(s, "false", p) {
      Strings.OccursIsSlice(s, "false", p);
    } else {
      DigitsRead(s, if s[p] == '-' then p + 1 else p, 0);
    }
  }

  /** The last characters of texts that may still ask for more. */
  predicate Asks(c: char) {
    IsSpace(c) || c == ':' || c == '"'
  }

  /** A value is owed only behind such a character, or where nothing has been read. */
  predicate Reached(s: string, p: nat, mode: Mode)
    requires p <= |s|
  {
    mode.Owed? || mode.BehindKey? ==> p == 0 || Asks(s[p - 1])
  }

  lemma {:induction false} PastAsks(s: string, p: nat, mode: Mode, open: seq<Bracket>)
    requires p <= |s| && Within(mode, open) && Reached(s, p, mode) && Scan(s, p, mode, open) == Past
    requires !EndsQuoted(s, p, mode.Text?)
    ensures s == "" || Asks(s[|s| - 1])
    decreases |s| - p, |open|, if mode.Text? then 3 else if mode.BehindKey? then 2 else 1
  {
    if mode.Text? {
      if p < |s| {
        if s[p] == '"' {
          PastAsks(s, p + 1, AfterText(mode.key), open);
        } else if s[p] != '\\' {
          PastAsks(s, p + 1, mode, open);
        } else if p + 1 < |s| {
          PastAsks(s, EscapeEnd(s, p), mode, open);
        }
      }
    } else if p < |s| && IsSpace(s[p]) {
      PastAsks(s, p + 1, if mode.Next? then Owed else mode, open);
    } else if p < |s| {
      if mode.BehindKey? {
        PastAsks(s, Close(s, p, ':'), Owed, open);
      } else if mode.Behind? || mode.Key? {
        PastAsksBehind(s, p, mode, open);
      } else {
        PastAsksValue(s, p, mode, open);
      }
    }
  }

  lemma {:induction false} PastAsksBehind(s: string, p: nat, mode: Mode, open: seq<Bracket>)
    requires p < |s| && !IsSpace(s[p]) && Within(mode, open) && (mode.Behind? || mode.Key?) && Scan(s, p, mode, open) == Past
    requires !EndsQuoted(s, p, false)
    ensures Asks(s[|s| - 1])
    decreases |s| - p, |open|, 0
  {
    if mode.Behind? && s[p] == ',' {
      PastAsks(s, p + 1, if open[0] == Array then Next else Key, open);
    } else if mode.Key? && s[p] == '"' {
      PastAsks(s, p + 1, Text(true), open);
    } else {
      PastAsks(s, Close(s, p, if mode.Key? then '}' else Closer(open[0])), Behind, open[1..]);
    }
  }

  lemma {:induction false} PastAsksValue(s: string, p: nat, mode: Mode, open: seq<Bracket>)
    requires p < |s| && !IsSpace(s[p]) && Within(mode, open) && (mode.Owed? || mode.First? || mode.Next?)
    requires Scan(s, p, mode, open) == Past && !EndsQuoted(s, p, false)
    ensures Asks(s[|s| - 1])
    decreases |s| - p, |open|, 0
  {
    if mode.First? && s[p] == ']' {
      PastAsks(s, p + 1, Behind, open[1..]);
    } else if s[p] == '"' {
      PastAsks(s, p + 1, Text(false), open);
    } else if s[p] == '[' {
      PastAsks(s, p + 1, First, [Array] + open);
    } else if s[p] == '{' {
      PastAsks(s, p + 1, Key, [Object] + open);
    } else {
      PlainPassed(s, p);
      NoQuotes(s, p, Plain(s, p).at);
      PastAsks(s, Plain(s, p).at, Behind, open);
    }
  }

  /** The parser stays inside every text that does not end inside a string and whose last character is no white space,
      no colon and no quote. */
  lemma {:induction false} StaysInside(s: string)
    requires s != "" && !EndsQuoted(s, 0, false) && !Asks(s[|s| - 1])
    ensures ParseText(s) != PastEnd
  {
    ParserFollowsScan(s);
    if Scan(s, 0, Owed, []) == Past {
      PastAsks(s, 0, Owed, []);
    }
  }

  // ---------- Texts it runs past ----------

  /** Without a value there is nothing to stop at. */
  lemma {:induction false} BlankText(s: string)
    requires Blank(s)
    ensures ParseText(s) == PastEnd
  {
    SkipsTo(s, 0, |s|);
  }

  /** `{"a"`, for any key. */
  lemma {:induction false} LoneKey(xs: seq<Piece>)
    requires GoodPieces(xs)
    ensures ParseText(['{'] + InQuotes(xs)) == PastEnd
  {
    AheadParts('{', InQuotes(xs), []);
    assert ['{'] + InQuotes(xs) + [] == ['{'] + InQuotes(xs);
    KeyAlone(['{'] + InQuotes(xs), xs);
  }

  lemma {:induction false} KeyAlone(s: string, xs: seq<Piece>)
    requires GoodPieces(xs) && Is(s, 0, '{') && Ahead(s, 1, InQuotes(xs)) && |s| == 1 + |InQuotes(xs)|
    ensures ParseText(s) == PastEnd
  {
    QuotedRead(s, 1, xs);
    assert SkipWs(s, 1) == 1;
    FirstKey(s, 0);
    ObjectKey(s, 1, EMPTY_MAP, StringValueOf(xs), |s|);
    NothingBehindKey(s, EMPTY_MAP, StringValueOf(xs));
  }

  lemma {:induction false} NothingBehindKey(s: string, acc: Value, key: Value)
    ensures EntryFrom(s, |s|, acc, key) == PastEnd
  {
    assert Close(s, SkipWs(s, |s|), ':') == |s| && ParseValue(s, |s|) == PastEnd;
  }

  /** `[1, `, for any element; without the space it would stay inside. */
  lemma {:induction false} CommaThenSpace(v: Value)
    requires Printable(v)
    ensures ParseText(['['] + Print(v) + [',', ' ']) == PastEnd
    ensures ParseText(['['] + Print(v) + [',']) == Done(Vec([Canon(v)]), |Print(v)| + 2)
  {
    ValueReadsBack(v);
    var next := |Print(v)| + 2;
    var s, t := ['['] + Print(v) + [',', ' '], ['['] + Print(v) + [','];
    AfterElement(s, Print(v), Canon(v), [',', ' '], next);
    AfterElement(t, Print(v), Canon(v), [','], next);
    assert s[next] == ' ' && SkipWs(s, next) == |s|;
    assert ArrayFrom(s, next, [Canon(v)]) == PastEnd;
    assert ArrayFrom(t, next, [Canon(v)]) == Done(Vec([Canon(v)]), next) && SkipWs(t, next) == |t|;
  }

  lemma {:induction false} AfterElement(s: string, text: string, v: Value, rest: string, next: nat)
    requires ReadsAs(text, v) && s == ['['] + text + rest && rest != "" && rest[0] == ',' && next == |text| + 2
    ensures ParseValue(s, 0) == ArrayFrom(s, next, [v])
  {
    AheadParts('[', text, rest);
    AheadFirst(s, 1 + |text|, rest);
    OneElement(s, text, v, next);
  }

  lemma {:induction false} OneElement(s: string, text: string, v: Value, next: nat)
    requires ReadsAs(text, v) && Is(s, 0, '[') && Ahead(s, 1, text) && next == |text| + 2 && Is(s, next - 1, ',')
    ensures ParseValue(s, 0) == ArrayFrom(s, next, [v])
  {
    TextRead(s, 1, text, v);
    PastBracket(s, 0);
    assert [] + [v] == [v];
    ItemStep(s, 1, text, [], v, next);
  }

  /** A string that ends right behind a backslash, whatever stands before. */
  lemma {:induction false} OpenBackslash(xs: seq<Piece>)
    requires GoodPieces(xs)
    ensures ParseText(['"'] + PiecesText(xs) + ['\\']) == PastEnd
  {
    AheadParts('"', PiecesText(xs), ['\\']);
    OpenString(['"'] + PiecesText(xs) + ['\\'], xs, 1 + |PiecesText(xs)|);
  }

  lemma {:induction false} OpenString(s: string, xs: seq<Piece>, last: nat)
    requires GoodPieces(xs) && Is(s, 0, '"') && Ahead(s, 1, PiecesText(xs)) && last == 1 + |PiecesText(xs)| == |s| - 1
    requires s[last] == '\\'
    ensures ParseText(s) == PastEnd
  {
    PiecesRead(s, 1, xs, "");
    assert StringFrom(s, last, "" + PiecesValue(xs)) == PastEnd;
    assert ParseString(s, 0) == PastEnd && SkipWs(s, 0) == 0;
  }
}
