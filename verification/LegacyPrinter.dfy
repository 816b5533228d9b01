/**
 The canonical text of legacy messages, whose bytes get signed: how strings are
 escaped, the text of a document tree, and the round trip through the lexer.
 */
module LegacyPrinter {
  import opened Basics
  import opened JsonText

  // ---------------------------------------------------------------- characters

  function HexDigit(n: int): char
    requires 0 <= n < 16
  {
    if n < 10 then ('0' as int + n) as char else ('a' as int + n - 10) as char
  }

  function Hex4(n: int): string
    requires 0 <= n < 0x1_0000
  {
    [HexDigit(n / 4096), HexDigit(n / 256 % 16), HexDigit(n / 16 % 16), HexDigit(n % 16)]
  }

  lemma Hex4ReadsBack(n: int, r: string)
    requires 0 <= n < 0x1_0000
    ensures Hex4Value(Hex4(n) + r) == n
  {
    var t := Hex4(n) + r;
    assert t[0] == HexDigit(n / 4096) && t[1] == HexDigit(n / 256 % 16)
        && t[2] == HexDigit(n / 16 % 16) && t[3] == HexDigit(n % 16);
    HexDigitReadsBack(n / 4096);
    HexDigitReadsBack(n / 256 % 16);
    HexDigitReadsBack(n / 16 % 16);
    HexDigitReadsBack(n % 16);
    Digits16(n);
  }

  lemma HexDigitReadsBack(n: int)
    requires 0 <= n < 16
    ensures HexValue(HexDigit(n)) == n
  {}

  lemma Digits16(n: int)
    requires 0 <= n < 0x1_0000
    ensures n / 4096 * 4096 + n / 256 % 16 * 256 + n / 16 % 16 * 16 + n % 16 == n
  {
    assert n / 256 == n / 16 / 16 && n / 4096 == n / 256 / 16;
  }

  /** First pass over a string value: the replacer of the object printer. */
  function ReplaceChar(c: char): string {
    if c == '\\' then "\\\\" else if c == '\t' then "\\t" else if c == '\n' then "\\n"
    else if c == '\r' then "\\r" else if c == '"' then "\\\"" else [c]
  }

  /** Second pass: control characters the first pass left alone. */
  function EscapeSomeChar(c: char): string {
    if c == '\U{8}' then "\\b" else if c == '\U{C}' then "\\f"
    else if c < ' ' then "\\u" + Hex4(c as int) else [c]
  }

  /** Both passes on one character. */
  function ValueChar(c: char): string {
    if ReplaceChar(c) == [c] then EscapeSomeChar(c) else ReplaceChar(c)
  }

  lemma EscapeTail(esc: char -> string, s: string, i: nat)
    requires i < |s|
    ensures EscapeWith(esc, s[i..]) == esc(s[i]) + EscapeWith(esc, s[i + 1..])
  {
    assert s[i..][0] == s[i] && s[i..][1..] == s[i + 1..];
  }

  /** The rune loop of the second pass. */
  method UnicodeEscapeSome(s: string) returns (b: string)
    ensures b == EscapeWith(EscapeSomeChar, s)
  {
    b := "";
    for i := 0 to |s|
      invariant b + EscapeWith(EscapeSomeChar, s[i..]) == EscapeWith(EscapeSomeChar, s)
    {
      EscapeTail(EscapeSomeChar, s, i);
      var w := EscapeRune(s[i]);
      Assoc(b, w, EscapeWith(EscapeSomeChar, s[i + 1..]));
      b := b + w;
    }
  }

  method EscapeRune(c: char) returns (w: string)
    ensures w == EscapeSomeChar(c)
  {
    if c == '\U{8}' {
      w := "\\b";
    } else if c == '\U{C}' {
      w := "\\f";
    } else if c < ' ' {
      w := "\\u" + Hex4(c as int);
    } else {
      w := [c];
    }
  }

  lemma {:induction false} EscapeConcat(esc: char -> string, a: string, b: string)
    ensures EscapeWith(esc, a + b) == EscapeWith(esc, a) + EscapeWith(esc, b)
  {
    if a == "" {
      assert a + b == b;
    } else {
      assert (a + b)[1..] == a[1..] + b;
      EscapeConcat(esc, a[1..], b);
    }
  }

  lemma TwoPassesChar(c: char)
    ensures EscapeWith(EscapeSomeChar, ReplaceChar(c)) == ValueChar(c)
  {
    var w := ReplaceChar(c);
    if |w| == 1 {
      assert w[1..] == "";
    } else {
      assert w[0] == '\\' && w[1..] == [w[1]] && [w[1]][1..] == "";
      assert EscapeWith(EscapeSomeChar, [w[1]]) == [w[1]];
    }
  }

  /** The two passes are one character-wise escape. */
  lemma {:induction false} TwoPasses(s: string)
    ensures EscapeWith(EscapeSomeChar, EscapeWith(ReplaceChar, s)) == EscapeWith(ValueChar, s)
  {
    if s != "" {
      EscapeConcat(EscapeSomeChar, ReplaceChar(s[0]), EscapeWith(ReplaceChar, s[1..]));
      TwoPassesChar(s[0]);
      TwoPasses(s[1..]);
    }
  }

  lemma ScanShortEscape(e: char, c: char, r: string)
    requires Unescape([e] + r) == Some(Scanned(c, r))
    ensures ScanString(['\\', e] + r) == PutChar(c, ScanString(r))
  {
    assert (['\\', e] + r)[1..] == [e] + r;
  }

  lemma ScanHexEscape(n: int, r: string)
    requires 0 <= n < 0xD800 || 0xE000 <= n < 0x1_0000
    ensures ScanString("\\u" + Hex4(n) + r) == PutChar(n as char, ScanString(r))
  {
    var t := "\\u" + Hex4(n) + r;
    assert t[1..][1..] == Hex4(n) + r;
    Hex4ReadsBack(n, r);
    assert t[1..][5..] == r;
  }

  lemma ValueCharReadsBack(c: char)
    ensures ReadsBack(ValueChar, c)
  {
    forall r: string ensures ScanString(ValueChar(c) + r) == PutChar(c, ScanString(r)) {
      var w := ValueChar(c);
      if |w| == 1 {
        assert ([c] + r)[1..] == r;
      } else if |w| == 2 {
        assert ([w[1]] + r)[1..] == r;
        ScanShortEscape(w[1], c, r);
      } else {
        ScanHexEscape(c as int, r);
      }
    }
  }

  lemma ValueStyle()
    ensures EscapeStyle(ValueChar)
  {
    forall c: char ensures ReadsBack(ValueChar, c) { ValueCharReadsBack(c); }
  }

  /**
   How `%q` writes one character; `pr` is the table of printable characters.
   Only some of these escapes exist in JSON.  DEL is written as in Go up to 1.18.
   */
  function QuoteChar(pr: char -> bool, c: char): string {
    if c == '"' || c == '\\' then ['\\', c]
    else if pr(c) then [c]
    else if c == '\U{7}' then "\\a" else if c == '\U{8}' then "\\b" else if c == '\U{C}' then "\\f"
    else if c == '\n' then "\\n" else if c == '\r' then "\\r" else if c == '\t' then "\\t"
    else if c == '\U{B}' then "\\v"
    else if c < ' ' then ['\\', 'x', HexDigit(c as int / 16), HexDigit(c as int % 16)]
    else if c < '\U{10000}' then "\\u" + Hex4(c as int)
    else "\\U" + Hex4(c as int / 0x1_0000) + Hex4(c as int % 0x1_0000)
  }

  function QuoteStyle(pr: char -> bool): char -> string { c => QuoteChar(pr, c) }

  /** Printable are all ASCII characters from space to tilde and no control character. */
  ghost predicate PrintTable(pr: char -> bool) {
    forall c: char :: (c < ' ' ==> !pr(c)) && (' ' <= c <= '~' ==> pr(c))
  }

  /** Characters `%q` writes in a way JSON understands. */
  predicate QuoteSafeChar(pr: char -> bool, c: char) {
    || c == '"' || c == '\\' || pr(c)
    || c == '\U{8}' || c == '\U{C}' || c == '\n' || c == '\r' || c == '\t'
    || (' ' <= c < '\U{10000}')
  }

  predicate QuoteSafe(pr: char -> bool, s: string) {
    forall i :: 0 <= i < |s| ==> QuoteSafeChar(pr, s[i])
  }

  lemma QuoteCharReadsBack(pr: char -> bool, c: char)
    requires PrintTable(pr) && QuoteSafeChar(pr, c)
    ensures ReadsBack(QuoteStyle(pr), c)
  {
    forall r: string ensures ScanString(QuoteStyle(pr)(c) + r) == PutChar(c, ScanString(r)) {
      QuoteCharScans(pr, c, r);
    }
  }

  lemma QuoteCharScans(pr: char -> bool, c: char, r: string)
    requires PrintTable(pr) && QuoteSafeChar(pr, c)
    ensures ScanString(QuoteChar(pr, c) + r) == PutChar(c, ScanString(r))
  {
    var w := QuoteChar(pr, c);
    if c == '"' || c == '\\' {
      ScanShortEscape(c, c, r);
    } else if pr(c) {
      ScanPlain(c, r);
    } else if |w| == 2 {
      QuoteShortIs(pr, c);
      ScanShortEscape(w[1], c, r);
    } else {
      QuoteHexIs(pr, c);
      ScanHexEscape(c as int, r);
    }
  }

  lemma ScanPlain(c: char, r: string)
    requires c >= ' ' && c != '"' && c != '\\'
    ensures ScanString([c] + r) == PutChar(c, ScanString(r))
  {
    assert ([c] + r)[1..] == r;
  }

  lemma QuoteShortIs(pr: char -> bool, c: char)
    requires PrintTable(pr) && QuoteSafeChar(pr, c) && !pr(c) && c != '"' && c != '\\' && |QuoteChar(pr, c)| == 2
    ensures c == '\U{8}' || c == '\U{C}' || c == '\n' || c == '\r' || c == '\t'
    ensures QuoteChar(pr, c)
      == (if c == '\U{8}' then "\\b" else if c == '\U{C}' then "\\f" else if c == '\n' then "\\n"
        else if c == '\r' then "\\r" else "\\t")
  {}

  lemma QuoteHexIs(pr: char -> bool, c: char)
    requires PrintTable(pr) && QuoteSafeChar(pr, c) && !pr(c) && c != '"' && c != '\\' && |QuoteChar(pr, c)| != 2
    ensures ' ' <= c < '\U{10000}' && QuoteChar(pr, c) == "\\u" + Hex4(c as int)
  {}

  lemma {:induction false} SafeReadsBack(pr: char -> bool, s: string)
    requires PrintTable(pr) && QuoteSafe(pr, s)
    ensures AllReadBack(QuoteStyle(pr), s)
  {
    if s != "" {
      QuoteCharReadsBack(pr, s[0]);
      SafeReadsBack(pr, s[1..]);
    }
  }

  lemma QuoteCharFails(pr: char -> bool, c: char, r: string)
    requires !QuoteSafeChar(pr, c)
    ensures ScanString(QuoteChar(pr, c) + r).None?
  {
    var w := QuoteChar(pr, c);
    var t := w + r;
    assert t[0] == '\\' && t[1..][0] == w[1];
    assert w[1] == 'a' || w[1] == 'v' || w[1] == 'x' || w[1] == 'U';
  }

  function Quoted(pr: char -> bool, s: string): string {
    ['"'] + EscapeWith(QuoteStyle(pr), s) + ['"']
  }

  /** A quoted string is read back exactly when it is quote-safe; otherwise it is no JSON at all. */
  lemma ScanQuoted(pr: char -> bool, s: string, r: string)
    requires PrintTable(pr)
    ensures ScanString(EscapeWith(QuoteStyle(pr), s) + ['"'] + r)
         == if QuoteSafe(pr, s) then Some(ScannedString(s, r)) else None
  {
    if QuoteSafe(pr, s) {
      SafeReadsBack(pr, s);
      ScanEscaped(QuoteStyle(pr), s, r);
    } else {
      ScanUnsafe(pr, s, r);
    }
  }

  lemma {:induction false} ScanUnsafe(pr: char -> bool, s: string, r: string)
    requires PrintTable(pr) && !QuoteSafe(pr, s)
    ensures ScanString(EscapeWith(QuoteStyle(pr), s) + ['"'] + r) == None
  {
    var tail := EscapeWith(QuoteStyle(pr), s[1..]) + ['"'] + r;
    assert EscapeWith(QuoteStyle(pr), s) + ['"'] + r == QuoteChar(pr, s[0]) + tail;
    if QuoteSafeChar(pr, s[0]) {
      QuoteCharReadsBack(pr, s[0]);
      ScanOne(QuoteStyle(pr), s[0], tail);
      assert !QuoteSafe(pr, s[1..]) by {
        var i :| 0 <= i < |s| && !QuoteSafeChar(pr, s[i]);
        assert s[1..][i - 1] == s[i];
      }
      ScanUnsafe(pr, s[1..], r);
    } else {
      QuoteCharFails(pr, s[0], tail);
    }
  }

  /** A quoted string in front of other lexemes; one that quoting spoils is where reading fails. */
  function ListQuoted(pr: char -> bool, s: string, k: Source): Source {
    if QuoteSafe(pr, s) then Put(LStr(s), k) else Source([], true)
  }

  lemma LexQuotedString(pr: char -> bool, s: string, r: string)
    requires PrintTable(pr)
    ensures Lexemes(Quoted(pr, s) + r) == ListQuoted(pr, s, Lexemes(r))
  {
    var body := EscapeWith(QuoteStyle(pr), s);
    ScanQuoted(pr, s, r);
    LexQuote(body, r);
    QuotedThen(pr, s, r);
  }

  lemma QuotedThen(pr: char -> bool, s: string, r: string)
    ensures Quoted(pr, s) + r == ['"'] + (EscapeWith(QuoteStyle(pr), s) + ['"'] + r)
  {}

  lemma LexQuote(body: string, r: string)
    ensures var x := ScanString(body + ['"'] + r);
      Lexemes(['"'] + (body + ['"'] + r))
        == if x.Some? then Put(LStr(x.value.s), Lexemes(x.value.rest)) else Source([], true)
  {
    assert (['"'] + (body + ['"'] + r))[1..] == body + ['"'] + r;
  }

  // ---------------------------------------------------------------- text of a tree

  function Indent(d: nat): string { if d == 0 then "" else "  " + Indent(d - 1) }

  function Separator(last: bool): string { if last then "\n" else ",\n" }

  /** A string in object position. */
  function ValueString(s: string): string { ['"'] + EscapeWith(ValueChar, s) + ['"'] }

  /** A value in object position at `d`, in front of the text `k`. */
  function ValueText(pr: char -> bool, v: Json, d: nat, k: string): string
    decreases v
  {
    match v
    case Obj(fs) =>
      if fs.NoFields? then "{}" + k else "{\n" + FieldsText(pr, fs, d + 1, Indent(d) + ("}" + k))
    case Arr(xs) =>
      if xs.NoItems? then "[]" + k else "[\n" + ItemsText(pr, xs, d + 1, Indent(d) + ("]" + k))
    case Str(s) => ValueString(s) + k
    case Num(_) => WordText(v) + k
    case Bool(_) => WordText(v) + k
    case Null => WordText(v) + k
  }

  function FieldsText(pr: char -> bool, fs: Fields, d: nat, k: string): string
    decreases fs
  {
    match fs
    case NoFields => k
    case Field(key, v, rest) =>
      Indent(d) + (Quoted(pr, key) + (": " +
        ValueText(pr, v, d, Separator(rest.NoFields?) + FieldsText(pr, rest, d, k))))
  }

  /** A value in array position: containers never collapse, strings are quoted like keys. */
  function ItemText(pr: char -> bool, v: Json, d: nat, k: string): string
    decreases v
  {
    match v
    case Obj(fs) => "{\n" + FieldsText(pr, fs, d + 1, Indent(d) + ("}" + k))
    case Arr(xs) => "[\n" + ItemsText(pr, xs, d + 1, Indent(d) + ("]" + k))
    case Str(s) => Quoted(pr, s) + k
    case Num(_) => WordText(v) + k
    case Bool(_) => WordText(v) + k
    case Null => WordText(v) + k
  }

  function ItemsText(pr: char -> bool, xs: Items, d: nat, k: string): string
    decreases xs
  {
    match xs
    case NoItems => k
    case Item(v, rest) =>
      Indent(d) + ItemText(pr, v, d, Separator(rest.NoItems?) + ItemsText(pr, rest, d, k))
  }

  /** The canonical text of the object with the fields `fs`. */
  function Print(pr: char -> bool, fs: Fields): string {
    "{\n" + FieldsText(pr, fs, 1, "}")
  }

  // ---------------------------------------------------------------- safety of quoting

  /** Keys, and strings in arrays, are quote-safe everywhere; string values of objects are free. */
  predicate SafeValue(pr: char -> bool, v: Json) {
    match v
    case Obj(fs) => SafeFields(pr, fs)
    case Arr(xs) => SafeItems(pr, xs)
    case _ => true
  }

  predicate SafeFields(pr: char -> bool, fs: Fields) {
    fs.Field? ==> QuoteSafe(pr, fs.key) && SafeValue(pr, fs.value) && SafeFields(pr, fs.rest)
  }

  predicate SafeItems(pr: char -> bool, xs: Items) {
    xs.Item? ==> (xs.value.Str? ==> QuoteSafe(pr, xs.value.s)) && SafeValue(pr, xs.value) && SafeItems(pr, xs.rest)
  }

  // ---------------------------------------------------------------- lexing the printed text

  lemma {:induction false} IndentIsSpace(d: nat)
    ensures |Indent(d)| == 2 * d && forall i :: 0 <= i < |Indent(d)| ==> Indent(d)[i] == ' '
  {
    if d > 0 { IndentIsSpace(d - 1); }
  }

  lemma LexIndent(d: nat, r: string)
    ensures Lexemes(Indent(d) + r) == Lexemes(r)
  {
    IndentIsSpace(d);
    LexSpaces(Indent(d), r);
  }

  lemma LexOpen(c: char, r: string)
    requires Punctuation(c).Some?
    ensures Lexemes([c, '\n'] + r) == Put(Punctuation(c).value, Lexemes(r))
  {
    assert [c, '\n'] + r == [c] + ("\n" + r);
    LexPunctuation(c, "\n" + r);
    LexSpaces("\n", r);
  }

  /** What stands between two entries of a container. */
  function Behind(last: bool, k: Source): Source { if last then k else Put(Comma, k) }

  lemma LexSeparator(last: bool, r: string)
    ensures Lexemes(Separator(last) + r) == Behind(last, Lexemes(r))
    ensures Stops(Separator(last) + r)
  {
    if last {
      LexSpaces("\n", r);
    } else {
      LexOpen(',', r);
    }
  }

  lemma LexColon(r: string)
    ensures Lexemes(": " + r) == Put(Colon, Lexemes(r))
  {
    assert ": " + r == [':'] + (" " + r);
    LexPunctuation(':', " " + r);
    LexSpaces(" ", r);
  }

  lemma LexClose(d: nat, c: char, r: string)
    requires Punctuation(c).Some?
    ensures Lexemes(Indent(d) + ([c] + r)) == Put(Punctuation(c).value, Lexemes(r))
  {
    LexIndent(d, [c] + r);
    LexPunctuation(c, r);
  }

  lemma LexEmptyPair(o: char, c: char, r: string)
    requires Punctuation(o).Some? && Punctuation(c).Some?
    ensures Lexemes([o, c] + r) == Put(Punctuation(o).value, Put(Punctuation(c).value, Lexemes(r)))
  {
    Assoc([o], [c], r);
    LexPunctuation(o, [c] + r);
    LexPunctuation(c, r);
  }

  lemma LexValueString(s: string, r: string)
    ensures Lexemes(ValueString(s) + r) == Put(LStr(s), Lexemes(r))
  {
    ValueStyle();
    StyleReadsBack(ValueChar, s);
    ScanEscaped(ValueChar, s, r);
    LexQuoted(EscapeWith(ValueChar, s), s, r);
    assert ValueString(s) + r == ['"'] + EscapeWith(ValueChar, s) + ['"'] + r;
  }

  /** The lexemes of a printed value: those of the tree, up to the first string that quoting spoils. */
  function ListValue(pr: char -> bool, v: Json, k: Source): Source {
    match v
    case Obj(fs) => Put(LBrace, ListFields(pr, fs, Put(RBrace, k)))
    case Arr(xs) => Put(LBrack, ListItems(pr, xs, Put(RBrack, k)))
    case Str(s) => Put(LStr(s), k)
    case _ => Put(LWord(WordText(v)), k)
  }

  function ListFields(pr: char -> bool, fs: Fields, k: Source): Source {
    match fs
    case NoFields => k
    case Field(key, v, rest) =>
      ListQuoted(pr, key, Put(Colon, ListValue(pr, v, Behind(rest.NoFields?, ListFields(pr, rest, k)))))
  }

  function ListItems(pr: char -> bool, xs: Items, k: Source): Source {
    match xs
    case NoItems => k
    case Item(v, rest) =>
      var tail := Behind(rest.NoItems?, ListItems(pr, rest, k));
      if v.Str? then ListQuoted(pr, v.s, tail) else ListValue(pr, v, tail)
  }

  lemma {:induction false} LexValue(pr: char -> bool, v: Json, d: nat, k: string)
    requires PrintTable(pr) && ValidValue(v) && Stops(k)
    ensures Lexemes(ValueText(pr, v, d, k)) == ListValue(pr, v, Lexemes(k))
    decreases v, 1
  {
    match v
    case Obj(fs) =>
      if fs.NoFields? {
        LexEmptyPair('{', '}', k);
      } else {
        LexBraced(pr, fs, d, k);
      }
    case Arr(xs) =>
      if xs.NoItems? {
        LexEmptyPair('[', ']', k);
      } else {
        LexBracketed(pr, xs, d, k);
      }
    case Str(s) => LexValueString(s, k);
    case Num(_) => LexWord(WordText(v), k);
    case Bool(_) => LexWord(WordText(v), k);
    case Null => LexWord(WordText(v), k);
  }

  lemma {:induction false} LexBraced(pr: char -> bool, fs: Fields, d: nat, k: string)
    requires PrintTable(pr) && ValidFields(fs)
    ensures Lexemes("{\n" + FieldsText(pr, fs, d + 1, Indent(d) + ("}" + k))) == ListValue(pr, Obj(fs), Lexemes(k))
    decreases fs, 2
  {
    var inner := Indent(d) + ("}" + k);
    LexClose(d, '}', k);
    LexFields(pr, fs, d + 1, inner);
    LexOpen('{', FieldsText(pr, fs, d + 1, inner));
  }

  lemma {:induction false} LexBracketed(pr: char -> bool, xs: Items, d: nat, k: string)
    requires PrintTable(pr) && ValidItems(xs)
    ensures Lexemes("[\n" + ItemsText(pr, xs, d + 1, Indent(d) + ("]" + k))) == ListValue(pr, Arr(xs), Lexemes(k))
    decreases xs, 2
  {
    var inner := Indent(d) + ("]" + k);
    LexClose(d, ']', k);
    LexItems(pr, xs, d + 1, inner);
    LexOpen('[', ItemsText(pr, xs, d + 1, inner));
  }

  lemma {:induction false} LexFields(pr: char -> bool, fs: Fields, d: nat, k: string)
    requires PrintTable(pr) && ValidFields(fs)
    ensures Lexemes(FieldsText(pr, fs, d, k)) == ListFields(pr, fs, Lexemes(k))
    decreases fs, 1
  {
    match fs
    case NoFields =>
    case Field(key, v, rest) =>
      var more := FieldsText(pr, rest, d, k);
      var tail := Separator(rest.NoFields?) + more;
      LexFields(pr, rest, d, k);
      LexSeparator(rest.NoFields?, more);
      LexValue(pr, v, d, tail);
      LexKeyed(pr, key, d, ValueText(pr, v, d, tail));
  }

  lemma LexKeyed(pr: char -> bool, key: string, d: nat, t: string)
    requires PrintTable(pr)
    ensures Lexemes(Indent(d) + (Quoted(pr, key) + (": " + t))) == ListQuoted(pr, key, Put(Colon, Lexemes(t)))
  {
    LexColon(t);
    LexQuotedString(pr, key, ": " + t);
    LexIndent(d, Quoted(pr, key) + (": " + t));
  }

  lemma {:induction false} LexItem(pr: char -> bool, v: Json, d: nat, k: string)
    requires PrintTable(pr) && ValidValue(v) && Stops(k)
    ensures Lexemes(ItemText(pr, v, d, k))
      == if v.Str? then ListQuoted(pr, v.s, Lexemes(k)) else ListValue(pr, v, Lexemes(k))
    decreases v, 1
  {
    match v
    case Obj(fs) => LexBraced(pr, fs, d, k);
    case Arr(xs) => LexBracketed(pr, xs, d, k);
    case Str(s) => LexQuotedString(pr, s, k);
    case Num(_) => LexWord(WordText(v), k);
    case Bool(_) => LexWord(WordText(v), k);
    case Null => LexWord(WordText(v), k);
  }

  lemma {:induction false} LexItems(pr: char -> bool, xs: Items, d: nat, k: string)
    requires PrintTable(pr) && ValidItems(xs)
    ensures Lexemes(ItemsText(pr, xs, d, k)) == ListItems(pr, xs, Lexemes(k))
    decreases xs, 1
  {
    match xs
    case NoItems =>
    case Item(v, rest) =>
      var more := ItemsText(pr, rest, d, k);
      var tail := Separator(rest.NoItems?) + more;
      LexItems(pr, rest, d, k);
      LexSeparator(rest.NoItems?, more);
      LexItem(pr, v, d, tail);
      LexIndent(d, ItemText(pr, v, d, tail));
  }

  lemma PrintLexemes(pr: char -> bool, fs: Fields)
    requires PrintTable(pr) && ValidFields(fs)
    ensures Lexemes(Print(pr, fs)) == ListValue(pr, Obj(fs), Source([], false))
  {
    assert Indent(0) + ("}" + "") == "}";
    LexBraced(pr, fs, 0, "");
    assert Print(pr, fs) == "{\n" + FieldsText(pr, fs, 0 + 1, Indent(0) + ("}" + ""));
  }

  /** A quote-safe value is listed in full; any other listing is cut short. */
  lemma {:induction false} ListedValue(pr: char -> bool, v: Json, k: Source)
    ensures ListValue(pr, v, k).bad == (!SafeValue(pr, v) || k.bad)
    ensures SafeValue(pr, v) ==> ListValue(pr, v, k).ls == ValueLexemes(v, k.ls)
    decreases v, 1
  {
    match v
    case Obj(fs) => ListedFields(pr, fs, Put(RBrace, k));
    case Arr(xs) => ListedItems(pr, xs, Put(RBrack, k));
    case _ =>
  }

  lemma {:induction false} ListedFields(pr: char -> bool, fs: Fields, k: Source)
    ensures ListFields(pr, fs, k).bad == (!SafeFields(pr, fs) || k.bad)
    ensures SafeFields(pr, fs) ==> ListFields(pr, fs, k).ls == FieldLexemes(fs, k.ls)
    decreases fs, 0
  {
    if fs.Field? {
      var more := ListFields(pr, fs.rest, k);
      var tail := Behind(fs.rest.NoFields?, more);
      ListedFields(pr, fs.rest, k);
      ListedValue(pr, fs.value, tail);
      assert tail.ls == (if fs.rest.NoFields? then [] else [Comma]) + more.ls;
      var ls := ListValue(pr, fs.value, tail).ls;
      assert [LStr(fs.key)] + ([Colon] + ls) == [LStr(fs.key), Colon] + ls;
    }
  }

  lemma {:induction false} ListedItems(pr: char -> bool, xs: Items, k: Source)
    ensures ListItems(pr, xs, k).bad == (!SafeItems(pr, xs) || k.bad)
    ensures SafeItems(pr, xs) ==> ListItems(pr, xs, k).ls == ItemLexemes(xs, k.ls)
    decreases xs, 0
  {
    if xs.Item? {
      var more := ListItems(pr, xs.rest, k);
      var tail := Behind(xs.rest.NoItems?, more);
      ListedItems(pr, xs.rest, k);
      ListedValue(pr, xs.value, tail);
      assert tail.ls == (if xs.rest.NoItems? then [] else [Comma]) + more.ls;
    }
  }

  /**
   The canonical text of an object reads back as that object exactly when its keys and the
   strings in its arrays are quote-safe; otherwise it is not JSON.
   */
  lemma PrintedTextReadsBack(pr: char -> bool, fs: Fields)
    requires PrintTable(pr) && ValidFields(fs)
    ensures SafeFields(pr, fs) ==> ParseText(Print(pr, fs)) == Some(Obj(fs))
    ensures !SafeFields(pr, fs) ==> ParseText(Print(pr, fs)) == None
  {
    PrintLexemes(pr, fs);
    ListedValue(pr, Obj(fs), Source([], false));
    if SafeFields(pr, fs) {
      ParseFromLexemes(Print(pr, fs), Obj(fs));
    }
  }

  // ---------------------------------------------------------------- appending

  function Keys(fs: Fields): seq<string> {
    if fs.NoFields? then [] else [fs.key] + Keys(fs.rest)
  }

  lemma Assoc(a: string, b: string, c: string)
    ensures a + b + c == a + (b + c)
  {}

  lemma CloseAppend(d: nat, bracket: string, k: string, z: string)
    ensures Indent(d) + (bracket + k) + z == Indent(d) + (bracket + (k + z))
  {}

  lemma {:induction false} ValueAppend(pr: char -> bool, v: Json, d: nat, k: string, z: string)
    ensures ValueText(pr, v, d, k) + z == ValueText(pr, v, d, k + z)
    decreases v, 1
  {
    match v
    case Obj(fs) =>
      if fs.Field? {
        Assoc("{\n", FieldsText(pr, fs, d + 1, Indent(d) + ("}" + k)), z);
        FieldsAppend(pr, fs, d + 1, Indent(d) + ("}" + k), z);
        CloseAppend(d, "}", k, z);
      } else {
        Assoc("{}", k, z);
      }
    case Arr(xs) =>
      if xs.Item? {
        Assoc("[\n", ItemsText(pr, xs, d + 1, Indent(d) + ("]" + k)), z);
        ItemsAppend(pr, xs, d + 1, Indent(d) + ("]" + k), z);
        CloseAppend(d, "]", k, z);
      } else {
        Assoc("[]", k, z);
      }
    case Str(s) => Assoc(ValueString(s), k, z);
    case _ => Assoc(WordText(v), k, z);
  }

  lemma {:induction false} FieldsAppend(pr: char -> bool, fs: Fields, d: nat, k: string, z: string)
    ensures FieldsText(pr, fs, d, k) + z == FieldsText(pr, fs, d, k + z)
    decreases fs, 0
  {
    if fs.Field? {
      var tail := Separator(fs.rest.NoFields?) + FieldsText(pr, fs.rest, d, k);
      ValueAppend(pr, fs.value, d, tail, z);
      FieldsAppend(pr, fs.rest, d, k, z);
      assert tail + z == Separator(fs.rest.NoFields?) + FieldsText(pr, fs.rest, d, k + z);
    }
  }

  lemma {:induction false} ItemAppend(pr: char -> bool, v: Json, d: nat, k: string, z: string)
    ensures ItemText(pr, v, d, k) + z == ItemText(pr, v, d, k + z)
    decreases v, 1
  {
    match v
    case Obj(fs) =>
      FieldsAppend(pr, fs, d + 1, Indent(d) + ("}" + k), z);
      CloseAppend(d, "}", k, z);
    case Arr(xs) =>
      ItemsAppend(pr, xs, d + 1, Indent(d) + ("]" + k), z);
      CloseAppend(d, "]", k, z);
    case Str(s) => Assoc(Quoted(pr, s), k, z);
    case _ => Assoc(WordText(v), k, z);
  }

  lemma {:induction false} ItemsAppend(pr: char -> bool, xs: Items, d: nat, k: string, z: string)
    ensures ItemsText(pr, xs, d, k) + z == ItemsText(pr, xs, d, k + z)
    decreases xs, 0
  {
    if xs.Item? {
      var tail := Separator(xs.rest.NoItems?) + ItemsText(pr, xs.rest, d, k);
      ItemAppend(pr, xs.value, d, tail, z);
      ItemsAppend(pr, xs.rest, d, k, z);
      assert tail + z == Separator(xs.rest.NoItems?) + ItemsText(pr, xs.rest, d, k + z);
    }
  }
}
