/**
 JSON documents as text: the lexemes, the lexer and the parser that stand for
 the token reader of Go's `encoding/json` (numbers kept as text, as after
 `UseNumber`).  Text is a sequence of Unicode scalar values.
 */
module JsonText {
  import opened Basics

  datatype Json =
    | Obj(fields: Fields)
    | Arr(items: Items)
    | Str(s: string)
    | Num(text: string)
    | Bool(b: bool)
    | Null

  datatype Fields = NoFields | Field(key: string, value: Json, rest: Fields)

  datatype Items = NoItems | Item(value: Json, rest: Items)

  datatype Lexeme =
    | LBrace | RBrace | LBrack | RBrack | Comma | Colon
    | LStr(s: string)
    | LWord(text: string) // a number, true, false or null

  // ---------------------------------------------------------------- words

  predicate IsDigit(c: char) { '0' <= c <= '9' }

  predicate IsWordChar(c: char) {
    IsDigit(c) || 'a' <= c <= 'z' || 'A' <= c <= 'Z' || c == '+' || c == '-' || c == '.'
  }

  function DigitRun(t: string): (n: nat)
    ensures n <= |t| && forall i :: 0 <= i < n ==> IsDigit(t[i])
  {
    if t == "" || !IsDigit(t[0]) then 0 else 1 + DigitRun(t[1..])
  }

  predicate ValidExponent(t: string) {
    t == ""
    || ((t[0] == 'e' || t[0] == 'E')
        && var u := if |t| > 1 && (t[1] == '+' || t[1] == '-') then t[2..] else t[1..];
           u != "" && DigitRun(u) == |u|)
  }

  predicate ValidFraction(t: string) {
    if t != "" && t[0] == '.' then
      var n := DigitRun(t[1..]);
      n >= 1 && ValidExponent(t[1..][n..])
    else
      ValidExponent(t)
  }

  /** The number grammar of section 6 of RFC 8259. */
  predicate ValidNumber(t: string) {
    var a := if t != "" && t[0] == '-' then t[1..] else t;
    var n := DigitRun(a);
    n >= 1 && (n == 1 || a[0] != '0') && ValidFraction(a[n..])
  }

  /** Words a document may hold: the three literals and numbers. */
  predicate ValidWord(t: string) {
    t == "true" || t == "false" || t == "null" || ValidNumber(t)
  }

  predicate AllWordChars(t: string) { forall i :: 0 <= i < |t| ==> IsWordChar(t[i]) }

  lemma ExponentChars(t: string)
    requires ValidExponent(t)
    ensures AllWordChars(t)
  {
    if t != "" {
      var skip := if |t| > 1 && (t[1] == '+' || t[1] == '-') then 2 else 1;
      forall i | skip <= i < |t| ensures IsWordChar(t[i]) {
        assert t[skip..][i - skip] == t[i];
      }
    }
  }

  lemma FractionChars(t: string)
    requires ValidFraction(t)
    ensures AllWordChars(t)
  {
    if t != "" && t[0] == '.' {
      var u := t[1..];
      var n := DigitRun(u);
      ExponentChars(u[n..]);
      DigitsThen(u, n);
      assert t == [t[0]] + u;
    } else {
      ExponentChars(t);
    }
  }

  lemma NumberChars(t: string)
    requires ValidNumber(t)
    ensures t != "" && AllWordChars(t)
  {
    var a := if t[0] == '-' then t[1..] else t;
    var n := DigitRun(a);
    FractionChars(a[n..]);
    DigitsThen(a, n);
    if t[0] == '-' { assert t == [t[0]] + a; }
  }

  lemma DigitsThen(a: string, n: nat)
    requires n <= |a| && AllWordChars(a[n..]) && forall i :: 0 <= i < n ==> IsDigit(a[i])
    ensures AllWordChars(a)
  {
    forall i | 0 <= i < |a| ensures IsWordChar(a[i]) {
      if i >= n { assert a[i] == a[n..][i - n]; }
    }
  }

  lemma WordChars(t: string)
    requires ValidWord(t)
    ensures t != "" && AllWordChars(t)
  {
    if t != "true" && t != "false" && t != "null" {
      NumberChars(t);
    }
  }

  function WordRun(t: string): (n: nat)
    ensures n <= |t|
  {
    if t == "" || !IsWordChar(t[0]) then 0 else 1 + WordRun(t[1..])
  }

  /** The maximal word at the head of a text ends exactly where a non-word character follows. */
  lemma {:induction false} WordRunStops(w: string, r: string)
    requires AllWordChars(w)
    requires r == "" || !IsWordChar(r[0])
    ensures WordRun(w + r) == |w|
  {
    if w == "" {
      assert w + r == r;
    } else {
      assert (w + r)[1..] == w[1..] + r;
      WordRunStops(w[1..], r);
    }
  }

  // ---------------------------------------------------------------- strings

  function HexValue(c: char): (v: int)
    ensures -1 <= v < 16
  {
    if '0' <= c <= '9' then c as int - '0' as int
    else if 'a' <= c <= 'f' then c as int - 'a' as int + 10
    else if 'A' <= c <= 'F' then c as int - 'A' as int + 10
    else -1
  }

  /** The code unit of four hexadecimal digits at the head of `t`, or -1. */
  function Hex4Value(t: string): (v: int)
    ensures -1 <= v < 0x1_0000
  {
    if |t| < 4 || HexValue(t[0]) < 0 || HexValue(t[1]) < 0 || HexValue(t[2]) < 0 || HexValue(t[3]) < 0 then -1
    else HexValue(t[0]) * 4096 + HexValue(t[1]) * 256 + HexValue(t[2]) * 16 + HexValue(t[3])
  }

  const Replacement: char := '\U{FFFD}'

  datatype Scanned = Scanned(c: char, rest: string)

  /** One escape, after its backslash.  Unpaired surrogates read as U+FFFD. */
  function Unescape(t: string): (r: Option<Scanned>)
    ensures r.Some? ==> |r.value.rest| < |t|
  {
    if t == "" then None
    else if t[0] == '"' || t[0] == '\\' || t[0] == '/' then Some(Scanned(t[0], t[1..]))
    else if t[0] == 'b' then Some(Scanned('\U{8}', t[1..]))
    else if t[0] == 'f' then Some(Scanned('\U{C}', t[1..]))
    else if t[0] == 'n' then Some(Scanned('\n', t[1..]))
    else if t[0] == 'r' then Some(Scanned('\r', t[1..]))
    else if t[0] == 't' then Some(Scanned('\t', t[1..]))
    else if t[0] == 'u' && Hex4Value(t[1..]) >= 0 then
      var code := Hex4Value(t[1..]);
      if code < 0xD800 || 0xE000 <= code then Some(Scanned(code as char, t[5..]))
      else
        var low := if |t| >= 7 && t[5] == '\\' && t[6] == 'u' then Hex4Value(t[7..]) else -1;
        if code < 0xDC00 && 0xDC00 <= low < 0xE000 then
          Some(Scanned((0x1_0000 + (code - 0xD800) * 0x400 + (low - 0xDC00)) as char, t[11..]))
        else Some(Scanned(Replacement, t[5..]))
    else None
  }

  datatype ScannedString = ScannedString(s: string, rest: string)

  /** The characters up to the closing quote, and what follows it. */
  function ScanString(t: string): (r: Option<ScannedString>)
    ensures r.Some? ==> |r.value.rest| < |t|
    decreases |t|
  {
    if t == "" then None
    else if t[0] == '"' then Some(ScannedString("", t[1..]))
    else if t[0] == '\\' then
      var e := Unescape(t[1..]);
      if e.None? then None else PutChar(e.value.c, ScanString(e.value.rest))
    else if t[0] < ' ' then None
    else PutChar(t[0], ScanString(t[1..]))
  }

  function PutChar(c: char, r: Option<ScannedString>): Option<ScannedString> {
    if r.None? then None else Some(ScannedString([c] + r.value.s, r.value.rest))
  }

  // ---------------------------------------------------------------- lexer

  predicate IsSpace(c: char) { c == ' ' || c == '\t' || c == '\n' || c == '\r' }

  function Punctuation(c: char): Option<Lexeme> {
    if c == '{' then Some(LBrace) else if c == '}' then Some(RBrace)
    else if c == '[' then Some(LBrack) else if c == ']' then Some(RBrack)
    else if c == ',' then Some(Comma) else if c == ':' then Some(Colon)
    else None
  }

  datatype Lexed = Lexed(lexeme: Lexeme, rest: string)

  function NextLexeme(t: string): (r: Option<Lexed>)
    requires t != ""
    ensures r.Some? ==> |r.value.rest| < |t|
  {
    if Punctuation(t[0]).Some? then Some(Lexed(Punctuation(t[0]).value, t[1..]))
    else if t[0] == '"' then
      var s := ScanString(t[1..]);
      if s.None? then None else Some(Lexed(LStr(s.value.s), s.value.rest))
    else NextWord(t)
  }

  function NextWord(t: string): (r: Option<Lexed>)
    ensures r.Some? ==> |r.value.rest| < |t|
  {
    var n := WordRun(t);
    if ValidWord(t[..n]) then
      WordChars(t[..n]);
      Some(Lexed(LWord(t[..n]), t[n..]))
    else None
  }

  /** Lexemes up to the end of a text, or up to text that is no lexeme. */
  datatype Source = Source(ls: seq<Lexeme>, bad: bool)

  function Put(x: Lexeme, s: Source): Source { Source([x] + s.ls, s.bad) }

  function Lexemes(t: string): Source
    decreases |t|
  {
    if t == "" then Source([], false)
    else if IsSpace(t[0]) then Lexemes(t[1..])
    else
      var x := NextLexeme(t);
      if x.None? then Source([], true) else Put(x.value.lexeme, Lexemes(x.value.rest))
  }

  // ---------------------------------------------------------------- parser

  datatype Parsed<T> = Parsed(value: T, rest: seq<Lexeme>)

  function WordValue(text: string): Json {
    if text == "true" then Bool(true) else if text == "false" then Bool(false)
    else if text == "null" then Null else Num(text)
  }

  function ParseValue(ls: seq<Lexeme>): (r: Option<Parsed<Json>>)
    ensures r.Some? ==> |r.value.rest| < |ls|
    decreases |ls|, 1
  {
    if ls == [] then None
    else match ls[0]
      case LStr(s) => Some(Parsed(Str(s), ls[1..]))
      case LWord(text) => Some(Parsed(WordValue(text), ls[1..]))
      case LBrace =>
        if |ls| > 1 && ls[1] == RBrace then Some(Parsed(Obj(NoFields), ls[2..]))
        else
          var fs := ParseFields(ls[1..]);
          if fs.None? then None else Some(Parsed(Obj(fs.value.value), fs.value.rest))
      case LBrack =>
        if |ls| > 1 && ls[1] == RBrack then Some(Parsed(Arr(NoItems), ls[2..]))
        else
          var xs := ParseItems(ls[1..]);
          if xs.None? then None else Some(Parsed(Arr(xs.value.value), xs.value.rest))
      case _ => None
  }

  /** One or more `key : value` pairs separated by commas, and the closing brace. */
  function ParseFields(ls: seq<Lexeme>): (r: Option<Parsed<Fields>>)
    ensures r.Some? ==> |r.value.rest| < |ls|
    decreases |ls|, 0
  {
    if |ls| < 2 || !ls[0].LStr? || ls[1] != Colon then None
    else
      var v := ParseValue(ls[2..]);
      if v.None? || v.value.rest == [] then None
      else if v.value.rest[0] == RBrace then
        Some(Parsed(Field(ls[0].s, v.value.value, NoFields), v.value.rest[1..]))
      else if v.value.rest[0] == Comma then
        var more := ParseFields(v.value.rest[1..]);
        if more.None? then None
        else Some(Parsed(Field(ls[0].s, v.value.value, more.value.value), more.value.rest))
      else None
  }

  /** One or more values separated by commas, and the closing bracket. */
  function ParseItems(ls: seq<Lexeme>): (r: Option<Parsed<Items>>)
    ensures r.Some? ==> |r.value.rest| < |ls|
    decreases |ls|, 2
  {
    var v := ParseValue(ls);
    if v.None? || v.value.rest == [] then None
    else if v.value.rest[0] == RBrack then Some(Parsed(Item(v.value.value, NoItems), v.value.rest[1..]))
    else if v.value.rest[0] == Comma then
      var more := ParseItems(v.value.rest[1..]);
      if more.None? then None else Some(Parsed(Item(v.value.value, more.value.value), more.value.rest))
    else None
  }

  /** A whole document: one value and nothing after it. */
  function ParseText(t: string): Option<Json> {
    var s := Lexemes(t);
    if s.bad then None
    else
      var v := ParseValue(s.ls);
      if v.Some? && v.value.rest == [] then Some(v.value.value) else None
  }

  // ---------------------------------------------------------------- lexemes of a tree

  function WordText(v: Json): string
    requires v.Num? || v.Bool? || v.Null?
  {
    match v
    case Num(text) => text
    case Bool(b) => if b then "true" else "false"
    case Null => "null"
  }

  /** The lexemes of `v` in front of `k`. */
  function ValueLexemes(v: Json, k: seq<Lexeme>): seq<Lexeme>
  {
    match v
    case Str(s) => [LStr(s)] + k
    case Obj(fs) => [LBrace] + FieldLexemes(fs, [RBrace] + k)
    case Arr(xs) => [LBrack] + ItemLexemes(xs, [RBrack] + k)
    case Num(_) => [LWord(WordText(v))] + k
    case Bool(_) => [LWord(WordText(v))] + k
    case Null => [LWord(WordText(v))] + k
  }

  function FieldLexemes(fs: Fields, k: seq<Lexeme>): seq<Lexeme>
  {
    match fs
    case NoFields => k
    case Field(key, v, rest) =>
      [LStr(key), Colon] + ValueLexemes(v, (if rest.NoFields? then [] else [Comma]) + FieldLexemes(rest, k))
  }

  function ItemLexemes(xs: Items, k: seq<Lexeme>): seq<Lexeme>
  {
    match xs
    case NoItems => k
    case Item(v, rest) =>
      ValueLexemes(v, (if rest.NoItems? then [] else [Comma]) + ItemLexemes(rest, k))
  }

  /** Numbers hold number text; the literals are not numbers. */
  predicate ValidValue(v: Json) {
    match v
    case Obj(fs) => ValidFields(fs)
    case Arr(xs) => ValidItems(xs)
    case Num(text) => ValidNumber(text)
    case _ => true
  }

  predicate ValidFields(fs: Fields) {
    fs.Field? ==> ValidValue(fs.value) && ValidFields(fs.rest)
  }

  predicate ValidItems(xs: Items) {
    xs.Item? ==> ValidValue(xs.value) && ValidItems(xs.rest)
  }

  lemma LiteralsAreNotNumbers()
    ensures !ValidNumber("true") && !ValidNumber("false") && !ValidNumber("null")
  {
    assert DigitRun("true") == 0 && DigitRun("false") == 0 && DigitRun("null") == 0;
  }

  lemma FirstLexeme(v: Json, k: seq<Lexeme>)
    ensures ValueLexemes(v, k) != []
    ensures ValueLexemes(v, k)[0] !in {RBrace, RBrack, Comma, Colon}
  {}

  /** The parser undoes the listing of lexemes, whatever follows. */
  lemma {:induction false} ParseValueLexemes(v: Json, k: seq<Lexeme>)
    requires ValidValue(v)
    ensures ParseValue(ValueLexemes(v, k)) == Some(Parsed(v, k))
    decreases v, 1
  {
    var ls := ValueLexemes(v, k);
    match v
    case Obj(fs) =>
      assert ls[1..] == FieldLexemes(fs, [RBrace] + k);
      if fs.NoFields? {
        assert ls[2..] == k;
      } else {
        ParseFieldLexemes(fs, k);
      }
    case Arr(xs) =>
      assert ls[1..] == ItemLexemes(xs, [RBrack] + k);
      if xs.NoItems? {
        assert ls[2..] == k;
      } else {
        FirstLexeme(xs.value, (if xs.rest.NoItems? then [] else [Comma]) + ItemLexemes(xs.rest, [RBrack] + k));
        ParseItemLexemes(xs, k);
      }
    case Str(s) => assert ls[1..] == k;
    case _ => WordParses(v, k);
  }

  lemma WordParses(v: Json, k: seq<Lexeme>)
    requires (v.Num? || v.Bool? || v.Null?) && ValidValue(v)
    ensures ParseValue([LWord(WordText(v))] + k) == Some(Parsed(v, k))
  {
    assert ([LWord(WordText(v))] + k)[1..] == k;
    LiteralsAreNotNumbers();
  }

  lemma {:induction false} ParseFieldLexemes(fs: Fields, k: seq<Lexeme>)
    requires fs.Field? && ValidFields(fs)
    ensures ParseFields(FieldLexemes(fs, [RBrace] + k)) == Some(Parsed(fs, k))
    decreases fs, 0
  {
    var ls := FieldLexemes(fs, [RBrace] + k);
    var tail := (if fs.rest.NoFields? then [] else [Comma]) + FieldLexemes(fs.rest, [RBrace] + k);
    assert ls[2..] == ValueLexemes(fs.value, tail);
    ParseValueLexemes(fs.value, tail);
    if fs.rest.NoFields? {
      assert tail == [RBrace] + k && tail[1..] == k;
    } else {
      assert tail[1..] == FieldLexemes(fs.rest, [RBrace] + k);
      ParseFieldLexemes(fs.rest, k);
    }
  }

  lemma {:induction false} ParseItemLexemes(xs: Items, k: seq<Lexeme>)
    requires xs.Item? && ValidItems(xs)
    ensures ParseItems(ItemLexemes(xs, [RBrack] + k)) == Some(Parsed(xs, k))
    decreases xs, 0
  {
    var tail := (if xs.rest.NoItems? then [] else [Comma]) + ItemLexemes(xs.rest, [RBrack] + k);
    ParseValueLexemes(xs.value, tail);
    if xs.rest.NoItems? {
      assert tail == [RBrack] + k && tail[1..] == k;
    } else {
      assert tail[1..] == ItemLexemes(xs.rest, [RBrack] + k);
      ParseItemLexemes(xs.rest, k);
    }
  }

  /** A text whose lexemes are those of a tree is a text of that tree. */
  lemma ParseFromLexemes(t: string, v: Json)
    requires ValidValue(v) && Lexemes(t) == Source(ValueLexemes(v, []), false)
    ensures ParseText(t) == Some(v)
  {
    ParseValueLexemes(v, []);
  }

  // ---------------------------------------------------------------- whatever is read is valid

  predicate WordsValid(ls: seq<Lexeme>) { forall i :: 0 <= i < |ls| && ls[i].LWord? ==> ValidWord(ls[i].text) }

  lemma {:induction false} LexemesValid(t: string)
    ensures WordsValid(Lexemes(t).ls)
    decreases |t|
  {
    if t != "" {
      if IsSpace(t[0]) {
        LexemesValid(t[1..]);
      } else if NextLexeme(t).Some? {
        LexemesValid(NextLexeme(t).value.rest);
      }
    }
  }

  lemma {:induction false} ParsedValid(ls: seq<Lexeme>)
    requires WordsValid(ls) && ParseValue(ls).Some?
    ensures ValidValue(ParseValue(ls).value.value) && WordsValid(ParseValue(ls).value.rest)
    decreases |ls|, 1
  {
    match ls[0]
    case LBrace => if ls[1] != RBrace { ParsedFieldsValid(ls[1..]); }
    case LBrack => if ls[1] != RBrack { ParsedItemsValid(ls[1..]); }
    case _ =>
  }

  lemma {:induction false} ParsedFieldsValid(ls: seq<Lexeme>)
    requires WordsValid(ls) && ParseFields(ls).Some?
    ensures ValidFields(ParseFields(ls).value.value) && WordsValid(ParseFields(ls).value.rest)
    decreases |ls|, 0
  {
    ParsedValid(ls[2..]);
    var rest := ParseValue(ls[2..]).value.rest;
    if rest[0] == Comma { ParsedFieldsValid(rest[1..]); }
  }

  lemma {:induction false} ParsedItemsValid(ls: seq<Lexeme>)
    requires WordsValid(ls) && ParseItems(ls).Some?
    ensures ValidItems(ParseItems(ls).value.value) && WordsValid(ParseItems(ls).value.rest)
    decreases |ls|, 2
  {
    ParsedValid(ls);
    var rest := ParseValue(ls).value.rest;
    if rest[0] == Comma { ParsedItemsValid(rest[1..]); }
  }

  lemma ParsedTextValid(t: string)
    requires ParseText(t).Some?
    ensures ValidValue(ParseText(t).value)
  {
    LexemesValid(t);
    ParsedValid(Lexemes(t).ls);
  }

  // ---------------------------------------------------------------- arbitrary layout

  /** Text that cannot extend a word in front of it. */
  predicate Stops(t: string) { t == "" || !IsWordChar(t[0]) }

  lemma {:induction false} LexSpaces(ws: string, r: string)
    requires forall i :: 0 <= i < |ws| ==> IsSpace(ws[i])
    ensures Lexemes(ws + r) == Lexemes(r)
  {
    if ws == "" {
      assert ws + r == r;
    } else {
      assert (ws + r)[1..] == ws[1..] + r;
      LexSpaces(ws[1..], r);
    }
  }

  lemma LexWord(w: string, r: string)
    requires ValidWord(w) && Stops(r)
    ensures Lexemes(w + r) == Put(LWord(w), Lexemes(r))
  {
    WordChars(w);
    WordRunStops(w, r);
    var t := w + r;
    assert t[0] == w[0] && t[..|w|] == w && t[|w|..] == r;
    assert NextWord(t) == Some(Lexed(LWord(w), r));
    NextIsWord(t);
    LexNext(t, LWord(w), r);
  }

  lemma NextIsWord(t: string)
    requires t != "" && IsWordChar(t[0])
    ensures !IsSpace(t[0]) && NextLexeme(t) == NextWord(t)
  {
    assert Punctuation(t[0]).None? && t[0] != '"';
  }

  lemma LexPunctuation(c: char, r: string)
    requires Punctuation(c).Some?
    ensures Lexemes([c] + r) == Put(Punctuation(c).value, Lexemes(r))
  {
    assert ([c] + r)[1..] == r;
    LexNext([c] + r, Punctuation(c).value, r);
  }

  lemma LexNext(t: string, x: Lexeme, r: string)
    requires t != "" && !IsSpace(t[0]) && NextLexeme(t) == Some(Lexed(x, r))
    ensures Lexemes(t) == Put(x, Lexemes(r))
  {}

  /** A quoted text whose body scans to `s` is one string lexeme. */
  lemma LexQuoted(body: string, s: string, r: string)
    requires ScanString(body + ['"'] + r) == Some(ScannedString(s, r))
    ensures Lexemes(['"'] + body + ['"'] + r) == Put(LStr(s), Lexemes(r))
  {
    var t := ['"'] + body + ['"'] + r;
    assert t[1..] == body + ['"'] + r;
  }

  /** What `esc` writes for the character `c` is read back as `c`. */
  ghost predicate ReadsBack(esc: char -> string, c: char) {
    forall r: string :: ScanString(esc(c) + r) == PutChar(c, ScanString(r))
  }

  /** A way to write each character of a string that the lexer reads back. */
  ghost predicate EscapeStyle(esc: char -> string) {
    forall c: char :: ReadsBack(esc, c)
  }

  function EscapeWith(esc: char -> string, s: string): string {
    if s == "" then "" else esc(s[0]) + EscapeWith(esc, s[1..])
  }

  ghost predicate AllReadBack(esc: char -> string, s: string) {
    s != "" ==> ReadsBack(esc, s[0]) && AllReadBack(esc, s[1..])
  }

  lemma ScanOne(esc: char -> string, c: char, r: string)
    requires ReadsBack(esc, c)
    ensures ScanString(esc(c) + r) == PutChar(c, ScanString(r))
  {}

  lemma {:induction false} ScanEscaped(esc: char -> string, s: string, r: string)
    requires AllReadBack(esc, s)
    ensures ScanString(EscapeWith(esc, s) + ['"'] + r) == Some(ScannedString(s, r))
  {
    if s == "" {
      assert EscapeWith(esc, s) + ['"'] + r == ['"'] + r;
      assert (['"'] + r)[1..] == r;
    } else {
      var tail := EscapeWith(esc, s[1..]) + ['"'] + r;
      assert EscapeWith(esc, s) + ['"'] + r == esc(s[0]) + tail;
      ScanOne(esc, s[0], tail);
      ScanEscaped(esc, s[1..], r);
      assert [s[0]] + s[1..] == s;
    }
  }

  lemma {:induction false} StyleReadsBack(esc: char -> string, s: string)
    requires EscapeStyle(esc)
    ensures AllReadBack(esc, s)
  {
    if s != "" {
      assert ReadsBack(esc, s[0]);
      StyleReadsBack(esc, s[1..]);
    }
  }

  function LexemeText(x: Lexeme, esc: char -> string): string {
    match x
    case LBrace => "{" case RBrace => "}" case LBrack => "[" case RBrack => "]"
    case Comma => "," case Colon => ":"
    case LStr(s) => ['"'] + EscapeWith(esc, s) + ['"']
    case LWord(text) => text
  }

  /** The lexemes `ls` written with the white space `gap(i)` in front of the i-th of them. */
  function Layout(ls: seq<Lexeme>, i: nat, gap: nat -> string, esc: char -> string): string {
    if ls == [] then gap(i)
    else gap(i) + (LexemeText(ls[0], esc) + Layout(ls[1..], i + 1, gap, esc))
  }

  ghost predicate WhiteSpace(gap: nat -> string) {
    forall i: nat, j: nat :: j < |gap(i)| ==> IsSpace(gap(i)[j])
  }

  /** No two words stand side by side, and words are well formed. */
  predicate Separated(ls: seq<Lexeme>) {
    && (forall i :: 0 <= i < |ls| && ls[i].LWord? ==> ValidWord(ls[i].text))
    && (forall i :: 0 < i < |ls| ==> !(ls[i - 1].LWord? && ls[i].LWord?))
  }

  lemma LexOne(x: Lexeme, esc: char -> string, rest: string)
    requires EscapeStyle(esc) && (x.LWord? ==> ValidWord(x.text) && Stops(rest))
    ensures Lexemes(LexemeText(x, esc) + rest) == Put(x, Lexemes(rest))
  {
    match x
    case LStr(s) =>
      StyleReadsBack(esc, s);
      ScanEscaped(esc, s, rest);
      LexQuoted(EscapeWith(esc, s), s, rest);
    case LWord(text) => LexWord(text, rest);
    case LBrace => LexPunctuation('{', rest);
    case RBrace => LexPunctuation('}', rest);
    case LBrack => LexPunctuation('[', rest);
    case RBrack => LexPunctuation(']', rest);
    case Comma => LexPunctuation(',', rest);
    case Colon => LexPunctuation(':', rest);
  }

  lemma SeparatedRest(ls: seq<Lexeme>)
    requires ls != [] && Separated(ls)
    ensures Separated(ls[1..]) && (ls[0].LWord? ==> NoWordFirst(ls[1..]))
  {
    forall j | 0 < j < |ls[1..]| ensures !(ls[1..][j - 1].LWord? && ls[1..][j].LWord?) {
      assert ls[1..][j - 1] == ls[j] && ls[1..][j] == ls[j + 1];
    }
  }

  lemma LayoutStops(ls: seq<Lexeme>, i: nat, gap: nat -> string, esc: char -> string)
    requires WhiteSpace(gap) && NoWordFirst(ls)
    ensures Stops(Layout(ls, i, gap, esc))
  {
    assert |gap(i)| > 0 ==> IsSpace(gap(i)[0]);
  }

  lemma {:induction false} LexLayout(ls: seq<Lexeme>, i: nat, gap: nat -> string, esc: char -> string)
    requires Separated(ls) && WhiteSpace(gap) && EscapeStyle(esc)
    ensures Lexemes(Layout(ls, i, gap, esc)) == Source(ls, false)
  {
    if ls == [] {
      assert gap(i) + "" == gap(i);
      LexSpaces(gap(i), "");
    } else {
      var x, rest := ls[0], Layout(ls[1..], i + 1, gap, esc);
      SeparatedRest(ls);
      LexLayout(ls[1..], i + 1, gap, esc);
      if x.LWord? { LayoutStops(ls[1..], i + 1, gap, esc); }
      LexOne(x, esc, rest);
      LexSpaces(gap(i), LexemeText(x, esc) + rest);
      assert ls == [x] + ls[1..];
    }
  }

  predicate NoWordFirst(k: seq<Lexeme>) { k == [] || !k[0].LWord? }

  lemma SeparatedCons(x: Lexeme, k: seq<Lexeme>)
    requires Separated(k)
    requires x.LWord? ==> ValidWord(x.text) && NoWordFirst(k)
    ensures Separated([x] + k)
  {}

  lemma SeparatedTail(last: bool, more: seq<Lexeme>, k: seq<Lexeme>)
    requires Separated(more) && (last ==> more == k && NoWordFirst(k))
    ensures var tail := (if last then [] else [Comma]) + more; Separated(tail) && NoWordFirst(tail)
  {
    if last {
      assert [] + more == more;
    } else {
      SeparatedCons(Comma, more);
    }
  }

  lemma SeparatedKey(key: string, vs: seq<Lexeme>)
    requires Separated(vs)
    ensures Separated([LStr(key), Colon] + vs)
  {
    SeparatedCons(Colon, vs);
    SeparatedCons(LStr(key), [Colon] + vs);
    assert [LStr(key), Colon] + vs == [LStr(key)] + ([Colon] + vs);
  }

  /** The lexemes of a tree never put two words side by side. */
  lemma {:induction false} ValueSeparated(v: Json, k: seq<Lexeme>)
    requires ValidValue(v) && Separated(k) && NoWordFirst(k)
    ensures Separated(ValueLexemes(v, k))
    decreases v, 1
  {
    match v
    case Obj(fs) =>
      SeparatedCons(RBrace, k);
      FieldsSeparated(fs, [RBrace] + k);
      SeparatedCons(LBrace, FieldLexemes(fs, [RBrace] + k));
    case Arr(xs) =>
      SeparatedCons(RBrack, k);
      ItemsSeparated(xs, [RBrack] + k);
      SeparatedCons(LBrack, ItemLexemes(xs, [RBrack] + k));
    case Str(s) => SeparatedCons(LStr(s), k);
    case Num(text) => SeparatedCons(LWord(text), k);
    case Bool(b) => SeparatedCons(LWord(WordText(v)), k);
    case Null => SeparatedCons(LWord(WordText(v)), k);
  }

  lemma {:induction false} FieldsSeparated(fs: Fields, k: seq<Lexeme>)
    requires ValidFields(fs) && Separated(k) && NoWordFirst(k)
    ensures Separated(FieldLexemes(fs, k)) && NoWordFirst(FieldLexemes(fs, k))
    decreases fs, 0
  {
    if fs.Field? {
      FieldsSeparated(fs.rest, k);
      SeparatedTail(fs.rest.NoFields?, FieldLexemes(fs.rest, k), k);
      var tail := (if fs.rest.NoFields? then [] else [Comma]) + FieldLexemes(fs.rest, k);
      ValueSeparated(fs.value, tail);
      SeparatedKey(fs.key, ValueLexemes(fs.value, tail));
    }
  }

  lemma {:induction false} ItemsSeparated(xs: Items, k: seq<Lexeme>)
    requires ValidItems(xs) && Separated(k) && NoWordFirst(k)
    ensures Separated(ItemLexemes(xs, k))
    decreases xs, 0
  {
    if xs.Item? {
      ItemsSeparated(xs.rest, k);
      SeparatedTail(xs.rest.NoItems?, ItemLexemes(xs.rest, k), k);
      var tail := (if xs.rest.NoItems? then [] else [Comma]) + ItemLexemes(xs.rest, k);
      ValueSeparated(xs.value, tail);
    }
  }

  /** Text of `v` in some spacing and some escape style. */
  ghost predicate Renders(t: string, v: Json) {
    exists gap: nat -> string, esc: char -> string ::
      WhiteSpace(gap) && EscapeStyle(esc) && t == Layout(ValueLexemes(v, []), 0, gap, esc)
  }

  /** Every rendering of a tree, whatever its spacing and escapes, reads back as that tree. */
  lemma RenderedTextParses(t: string, v: Json)
    requires ValidValue(v) && Renders(t, v)
    ensures ParseText(t) == Some(v)
  {
    var gap: nat -> string, esc: char -> string :|
      WhiteSpace(gap) && EscapeStyle(esc) && t == Layout(ValueLexemes(v, []), 0, gap, esc);
    ValueSeparated(v, []);
    LexLayout(ValueLexemes(v, []), 0, gap, esc);
    ParseFromLexemes(t, v);
  }
}
