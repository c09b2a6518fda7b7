/** The identifiers of the emitted C. The compiler's own variables and the program's share one name space: what a
    variable is called is its spelling, whoever wrote it. */
module CNames {
  import opened Decimal
  import Strings

  /** `__fl_loop_tmp_<n>`, `_fl_t<n>`, `_fl_looping`, `_fl_result`, and every other spelling. */
  datatype Id = User(name: string) | LoopTmp(n: nat) | RecurTmp(n: nat) | Looping | Result

  const LOOPING := "_fl_looping"
  const RESULT := "_fl_result"
  const RECUR_TMP := "_fl_t"
  const LOOP_TMP := "__fl_loop_tmp_"

  function Spelling(x: Id): string {
    match x
    case User(s) => s
    case LoopTmp(n) => LOOP_TMP + PrintNat(n)
    case RecurTmp(n) => RECUR_TMP + PrintNat(n)
    case Looping => LOOPING
    case Result => RESULT
  }

  predicate Numbered(s: string, prefix: string) {
    |prefix| < |s| && s[..|prefix|] == prefix && IsDecimal(s[|prefix|..])
  }

  /** The identifier a spelling stands for. */
  function IdOf(s: string): Id {
    if s == LOOPING then Looping
    else if s == RESULT then Result
    else if Numbered(s, RECUR_TMP) then RecurTmp(DecimalValue(s[|RECUR_TMP|..]))
    else if Numbered(s, LOOP_TMP) then LoopTmp(DecimalValue(s[|LOOP_TMP|..]))
    else User(s)
  }

  /** No spelling stands for two variables. */
  lemma {:induction false} SpellingOfId(s: string)
    ensures Spelling(IdOf(s)) == s
  {
    if s != LOOPING && s != RESULT {
      if Numbered(s, RECUR_TMP) {
        NumberedSpelling(s, RECUR_TMP);
      } else if Numbered(s, LOOP_TMP) {
        NumberedSpelling(s, LOOP_TMP);
      }
    }
  }

  lemma {:induction false} NumberedSpelling(s: string, prefix: string)
    requires Numbered(s, prefix)
    ensures prefix + PrintNat(DecimalValue(s[|prefix|..])) == s
  {
    PrintedValue(s[|prefix|..]);
    assert s[..|prefix|] + s[|prefix|..] == s;
  }

  lemma {:induction false} IdOfNumbered(prefix: string, n: nat)
    ensures var s := prefix + PrintNat(n); Numbered(s, prefix) && DecimalValue(s[|prefix|..]) == n
  {
    ValueOfPrinted(n);
    var s := prefix + PrintNat(n);
    assert s[..|prefix|] == prefix && s[|prefix|..] == PrintNat(n);
  }

  /** The compiler's own variables are found again under their spellings. */
  lemma {:induction false} IdOfOwnSpelling(x: Id)
    requires !x.User?
    ensures IdOf(Spelling(x)) == x
  {
    assert LOOPING[4] == 'l' && RESULT[4] == 'r' && RECUR_TMP[4] == 't' && LOOP_TMP[1] == '_' && RECUR_TMP[1] == 'f';
    match x
    case LoopTmp(n) =>
      IdOfNumbered(LOOP_TMP, n);
      var s := LOOP_TMP + PrintNat(n);
      assert s[1] == LOOP_TMP[1];
      NotNumbered(s, RECUR_TMP, 1);
    case RecurTmp(n) =>
      IdOfNumbered(RECUR_TMP, n);
      assert (RECUR_TMP + PrintNat(n))[4] == RECUR_TMP[4];
    case Looping =>
    case Result =>
  }

  lemma {:induction false} NotNumbered(s: string, prefix: string, k: nat)
    requires k < |s| && k < |prefix| && s[k] != prefix[k]
    ensures !Numbered(s, prefix)
  {
    if |prefix| < |s| {
      assert s[..|prefix|][k] == s[k];
    }
  }

  // ---------- How the compiler spells a source name ----------

  const RESERVED: set<string> := {"else", "return", "for", "while", "do", "int", "long", "void", "char", "float",
    "double", "struct", "union", "enum", "static", "const", "if", "switch", "case", "break", "continue", "default",
    "goto", "sizeof", "auto", "inline", "bool", "true", "false"}

  /** `c_name` */
  function CName(n: string): string {
    var raw := Strings.Replace(Strings.Replace(Strings.Replace(Strings.Replace(n, "->", "_to_"), "-", "_"),
                                               "?", "_p"), "!", "_b");
    if raw in RESERVED then "fl_" + raw else raw
  }

  /** The variable a source name becomes. */
  function NameId(n: string): Id {
    IdOf(CName(n))
  }

  predicate Plain(n: string) {
    forall k | 0 <= k < |n| :: n[k] != '-' && n[k] != '?' && n[k] != '!'
  }

  lemma {:induction false} ReplaceAbsent(s: string, f: string, t: string)
    requires f != "" && forall k | 0 <= k < |s| :: s[k] != f[0]
    ensures Strings.Replace(s, f, t) == s
  {
    forall i | 0 <= i <= |s| - |f|
      ensures !Strings.OccursAt(s, f, i)
    {
      assert s[i] != f[0];
    }
  }

  /** A name that begins with an underscore and needs no replacement is its own spelling. */
  lemma {:induction false} PlainNameStays(n: string)
    requires Plain(n) && n != "" && n[0] == '_'
    ensures CName(n) == n
  {
    ReplaceAbsent(n, "->", "_to_");
    ReplaceAbsent(n, "-", "_");
    ReplaceAbsent(n, "?", "_p");
    ReplaceAbsent(n, "!", "_b");
    assert forall r | r in RESERVED :: r[0] != '_';
  }

  // ---------- What the emitted text needs of a spelling ----------

  /** The keywords of C11 section 6.4.1 that `c_name` does not know, and those its compiler adds. */
  const OTHER_KEYWORDS: set<string> := {"extern", "register", "restrict", "short", "signed", "typedef", "unsigned",
    "volatile", "_Alignas", "_Alignof", "_Atomic", "_Bool", "_Complex", "_Generic", "_Imaginary", "_Noreturn",
    "_Static_assert", "_Thread_local", "asm", "typeof", "__extension__", "__attribute__"}

  /** The type and the functions of the runtime that the emitted text names. */
  const RUNTIME_NAMES: set<string> := {"FLValue", "fl_int", "fl_float", "fl_str_val", "fl_bool", "fl_nil", "fl_truthy",
    "fl_add", "fl_sub", "fl_mul", "fl_div", "fl_mod", "fl_eq", "fl_neq", "fl_lt", "fl_gt", "fl_lte", "fl_gte", "fl_not",
    "fl_and", "fl_or", "fl_vec_first", "fl_vec_rest"}

  predicate IsLetter(c: char) { 'a' <= c <= 'z' || 'A' <= c <= 'Z' || c == '_' }

  /** C11 section 6.4.2.1 */
  predicate IsIdentifier(s: string) {
    s != "" && IsLetter(s[0]) && forall k | 0 <= k < |s| :: IsLetter(s[k]) || IsDigit(s[k])
  }

  /** A spelling a program may use for a variable: an identifier, no keyword, not the compiler's, not the runtime's. */
  predicate FreeSpelling(s: string) {
    IsIdentifier(s) && s !in RESERVED && s !in OTHER_KEYWORDS && s !in RUNTIME_NAMES && IdOf(s).User?
  }
}
