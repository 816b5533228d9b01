/**
 The text the printer is meant to reproduce: what `JSON.stringify(value, null, 2)`
 writes, section 25.5.2 of ECMA-262, and exactly when the printer writes it.
 */
module V8Text {
  import opened Basics
  import opened JsonText
  import opened LegacyPrinter
  import TokenPrinter

  // ---------------------------------------------------------------- spellings of a character

  /** The text `w` inside a string stands for the character `c`, whatever follows. */
  ghost predicate Spells(w: string, c: char) {
    forall r: string :: ScanString(w + r) == PutChar(c, ScanString(r))
  }

  /** No hexadecimal digit of the text is a capital. */
  predicate SmallHex(w: string) { forall i :: 0 <= i < |w| ==> !('A' <= w[i] <= 'F') }

  /** No spelling is shorter than the one of a string value; the others of that length use capitals. */
  predicate Best(c: char, w: string) {
    && |ValueChar(c)| <= |w|
    && (|ValueChar(c)| == |w| && (|w| > 1 ==> SmallHex(w)) ==> w == ValueChar(c))
  }

  /** Every character of a string value is written in its shortest spelling, hexadecimal digits small. */
  lemma ShortestSpelling(c: char, w: string)
    requires Spells(w, c)
    ensures Best(c, w)
  {
    var t := w + "\"";
    assert ScanString(t) == Some(ScannedString([c], "")) by { ClosesString(c); }
    LongerThanQuote(t);
    if t[0] == '\\' {
      EscapeRead(c, t[1..]);
      assert t == ['\\'] + t[1..] && t[1..] == w[1..] + "\"";
      EscapeSpelling(c, w[1..], t[1..]);
      assert w == ['\\'] + w[1..];
    } else {
      assert ScanString(t).value.s[0] == c;
      PlainSpelling(c, t);
      assert |w| == 1 ==> w == [c];
    }
  }

  lemma LongerThanQuote(t: string)
    requires ScanString(t).Some? && ScanString(t).value.s != ""
    ensures |t| > 1
  {
    assert t[|t|..] == "";
  }

  lemma ClosesString(c: char)
    ensures PutChar(c, ScanString("\"")) == Some(ScannedString([c], ""))
  {
    assert "\""[1..] == "" && [c] + "" == [c];
  }

  lemma PlainSpelling(c: char, t: string)
    requires t != "" && t[0] != '\\'
    requires ScanString(t).Some? && ScanString(t).value.s != "" && ScanString(t).value.s[0] == c
    ensures t[0] == c && ValueChar(c) == [c]
  {}

  lemma EscapeRead(c: char, t: string)
    requires ScanString(['\\'] + t) == Some(ScannedString([c], ""))
    ensures Unescape(t).Some? && Unescape(t).value.c == c && |t| > 1
  {
    ScanBackslash(t);
    var u :| u == Unescape(t);
    PutInverse(u.value.c, ScanString(u.value.rest), c);
  }

  lemma ScanBackslash(t: string)
    ensures var u := Unescape(t);
      ScanString(['\\'] + t) == if u.None? then None else PutChar(u.value.c, ScanString(u.value.rest))
  {
    assert (['\\'] + t)[1..] == t;
  }

  lemma PutInverse(d: char, r: Option<ScannedString>, c: char)
    requires PutChar(d, r) == Some(ScannedString([c], ""))
    ensures d == c && r.Some?
  {
    assert ([d] + r.value.s)[0] == d;
  }

  /** Behind a backslash. */
  lemma EscapeSpelling(c: char, e: string, t: string)
    requires t == e + "\"" && |t| > 1 && Unescape(t).Some? && Unescape(t).value.c == c
    ensures Best(c, ['\\'] + e)
  {
    if t[0] == 'u' {
      HexSpelling(c, e, t);
    } else {
      ShortEscape(c, t);
      assert e == [t[0]] + e[1..];
    }
  }

  lemma ShortEscape(c: char, t: string)
    requires t != "" && t[0] != 'u' && Unescape(t).Some? && Unescape(t).value.c == c
    ensures |ValueChar(c)| <= 2 && (|ValueChar(c)| == 2 ==> ValueChar(c) == ['\\', t[0]])
  {}

  lemma HexSpelling(c: char, e: string, t: string)
    requires t == e + "\"" && |t| > 1 && t[0] == 'u' && Unescape(t).Some? && Unescape(t).value.c == c
    ensures Best(c, ['\\'] + e)
  {
    assert t[1..] == e[1..] + "\"";
    HexDigitsOnly(e[1..]);
    if |ValueChar(c)| == 1 + |e| && SmallHex(['\\'] + e) {
      assert c < ' ' && t[5] == '"';
      var h := e[1..];
      forall i | 0 <= i < |h| ensures !('A' <= h[i] <= 'F') { assert (['\\'] + e)[i + 2] == h[i]; }
      assert t[1..][..4] == h && Hex4Value(t[1..]) == c as int;
      SmallDigits(h, t[1..]);
      assert ['\\'] + e == "\\u" + h;
    }
  }

  lemma HexDigitsOnly(h: string)
    requires Hex4Value(h + "\"") >= 0
    ensures |h| >= 4
  {
    var t := h + "\"";
    assert t[|h|] == '"' && HexValue('"') < 0;
  }

  lemma SmallDigits(h: string, t: string)
    requires |h| == 4 && |t| >= 4 && t[..4] == h && Hex4Value(t) >= 0 && SmallHex(h)
    ensures h == Hex4(Hex4Value(t))
  {
    assert t[0] == h[0] && t[1] == h[1] && t[2] == h[2] && t[3] == h[3];
    DigitsOf(HexValue(h[0]), HexValue(h[1]), HexValue(h[2]), HexValue(h[3]));
  }

  lemma DigitsOf(a: int, b: int, c: int, d: int)
    requires 0 <= a < 16 && 0 <= b < 16 && 0 <= c < 16 && 0 <= d < 16
    ensures var n := a * 4096 + b * 256 + c * 16 + d;
      n / 4096 == a && n / 256 % 16 == b && n / 16 % 16 == c && n % 16 == d
  {
    var n := a * 4096 + b * 256 + c * 16 + d;
    assert n / 16 == a * 256 + b * 16 + c && n / 256 == a * 16 + b;
  }

  // ---------------------------------------------------------------- the reference

  /** The escapes of the standard's table, hexadecimal escapes for other control characters, and nothing else. */
  function QuoteJsonChar(c: char): string {
    match c
    case '\U{8}' => "\\b"
    case '\t' => "\\t"
    case '\n' => "\\n"
    case '\U{C}' => "\\f"
    case '\r' => "\\r"
    case '"' => "\\\""
    case '\\' => "\\\\"
    case _ => if c < ' ' then "\\u" + Hex4(c as int) else [c]
  }

  function QuoteJson(s: string): string { ['"'] + EscapeWith(QuoteJsonChar, s) + ['"'] }

  /** Two spaces a level; empty containers take no line. */
  function Stringify(v: Json, indent: string): string
    decreases v, 0
  {
    match v
    case Obj(fs) =>
      var inner := indent + "  ";
      if fs.NoFields? then "{}" else "{\n" + inner + Members(fs, inner) + "\n" + indent + "}"
    case Arr(xs) =>
      var inner := indent + "  ";
      if xs.NoItems? then "[]" else "[\n" + inner + Elements(xs, inner) + "\n" + indent + "]"
    case Str(s) => QuoteJson(s)
    case _ => WordText(v)
  }

  function Members(fs: Fields, indent: string): string
    decreases fs, 0
  {
    if fs.NoFields? then ""
    else QuoteJson(fs.key) + ": " + Stringify(fs.value, indent) + MembersTail(fs.rest, indent)
  }

  function MembersTail(fs: Fields, indent: string): string
    decreases fs, 1
  {
    if fs.NoFields? then "" else ",\n" + indent + Members(fs, indent)
  }

  function Elements(xs: Items, indent: string): string
    decreases xs, 0
  {
    if xs.NoItems? then ""
    else Stringify(xs.value, indent) + ElementsTail(xs.rest, indent)
  }

  function ElementsTail(xs: Items, indent: string): string
    decreases xs, 1
  {
    if xs.NoItems? then "" else ",\n" + indent + Elements(xs, indent)
  }

  // ---------------------------------------------------------------- where the printer agrees

  /** Characters that `%q` writes as the reference does. */
  predicate PlainChar(pr: char -> bool, c: char) {
    pr(c) || c == '"' || c == '\\' || c == '\U{8}' || c == '\U{C}' || c == '\n' || c == '\r' || c == '\t'
  }

  predicate Plain(pr: char -> bool, s: string) { forall i :: 0 <= i < |s| ==> PlainChar(pr, s[i]) }

  predicate EmptyContainer(v: Json) { (v.Obj? && v.fields.NoFields?) || (v.Arr? && v.items.NoItems?) }

  /** Keys and array strings are plain, and no array holds an empty container. */
  predicate PlainValue(pr: char -> bool, v: Json) {
    match v
    case Obj(fs) => PlainFields(pr, fs)
    case Arr(xs) => PlainItems(pr, xs)
    case _ => true
  }

  predicate PlainFields(pr: char -> bool, fs: Fields) {
    fs.Field? ==> Plain(pr, fs.key) && PlainValue(pr, fs.value) && PlainFields(pr, fs.rest)
  }

  predicate PlainItems(pr: char -> bool, xs: Items) {
    xs.Item? ==>
      && (xs.value.Str? ==> Plain(pr, xs.value.s)) && !EmptyContainer(xs.value)
      && PlainValue(pr, xs.value) && PlainItems(pr, xs.rest)
  }

  lemma ValueCharIs(c: char)
    ensures ValueChar(c) == QuoteJsonChar(c)
  {}

  lemma {:induction false} ValueStringIs(s: string)
    ensures EscapeWith(ValueChar, s) == EscapeWith(QuoteJsonChar, s)
  {
    if s != "" {
      ValueCharIs(s[0]);
      ValueStringIs(s[1..]);
    }
  }

  /** A quote-safe character never takes less room than in the reference, and the same only if it is plain. */
  lemma QuoteCharIs(pr: char -> bool, c: char)
    requires PrintTable(pr)
    ensures PlainChar(pr, c) ==> QuoteChar(pr, c) == QuoteJsonChar(c)
    ensures QuoteSafeChar(pr, c) && !PlainChar(pr, c) ==> |QuoteChar(pr, c)| > |QuoteJsonChar(c)|
  {}

  lemma {:induction false} QuotedIs(pr: char -> bool, s: string)
    requires PrintTable(pr)
    ensures Plain(pr, s) ==> EscapeWith(QuoteStyle(pr), s) == EscapeWith(QuoteJsonChar, s)
    ensures QuoteSafe(pr, s) ==> |EscapeWith(QuoteStyle(pr), s)| >= |EscapeWith(QuoteJsonChar, s)|
    ensures QuoteSafe(pr, s) && !Plain(pr, s) ==> |EscapeWith(QuoteStyle(pr), s)| > |EscapeWith(QuoteJsonChar, s)|
  {
    if s != "" {
      QuoteCharIs(pr, s[0]);
      QuotedIs(pr, s[1..]);
      assert s == [s[0]] + s[1..];
      assert PlainChar(pr, s[0]) && Plain(pr, s[1..]) ==> Plain(pr, s);
    }
  }

  lemma {:induction false} IndentNext(d: nat)
    ensures Indent(d + 1) == Indent(d) + "  "
  {
    if d > 0 {
      IndentNext(d - 1);
      assert "  " + (Indent(d - 1) + "  ") == "  " + Indent(d - 1) + "  ";
    } else {
      assert Indent(1) == "  " + "";
    }
  }

  lemma AssembleBlock(open: string, indent: string, inner: string, outer: string, close: string, k: string)
    ensures open + (indent + inner + "\n" + (outer + (close + k))) == open + indent + inner + "\n" + outer + close + k
  {}

  lemma AssembleField(indent: string, key: string, value: string, tail: string, k: string)
    ensures indent + (key + (": " + (value + (tail + "\n" + k)))) == indent + (key + ": " + value + tail) + "\n" + k
  {}

  lemma AssembleItem(indent: string, value: string, tail: string, k: string)
    ensures indent + (value + (tail + "\n" + k)) == indent + (value + tail) + "\n" + k
  {}

  lemma AssembleTail(indent: string, inner: string, k: string)
    ensures ",\n" + (indent + inner + "\n" + k) == ",\n" + indent + inner + "\n" + k
  {}

  lemma {:induction false} PlainText(pr: char -> bool, v: Json, d: nat, k: string)
    requires PrintTable(pr) && PlainValue(pr, v)
    ensures ValueText(pr, v, d, k) == Stringify(v, Indent(d)) + k
    decreases v, 1
  {
    match v
    case Obj(fs) => if fs.Field? { PlainBraced(pr, fs, d, k); }
    case Arr(xs) => if xs.Item? { PlainBracketed(pr, xs, d, k); }
    case Str(s) => ValueStringIs(s);
    case _ =>
  }

  lemma {:induction false} PlainBraced(pr: char -> bool, fs: Fields, d: nat, k: string)
    requires PrintTable(pr) && fs.Field? && PlainFields(pr, fs)
    ensures "{\n" + FieldsText(pr, fs, d + 1, Indent(d) + ("}" + k)) == Stringify(Obj(fs), Indent(d)) + k
    decreases fs, 2
  {
    IndentNext(d);
    PlainMembers(pr, fs, d + 1, Indent(d) + ("}" + k));
    AssembleBlock("{\n", Indent(d + 1), Members(fs, Indent(d + 1)), Indent(d), "}", k);
  }

  lemma {:induction false} PlainBracketed(pr: char -> bool, xs: Items, d: nat, k: string)
    requires PrintTable(pr) && xs.Item? && PlainItems(pr, xs)
    ensures "[\n" + ItemsText(pr, xs, d + 1, Indent(d) + ("]" + k)) == Stringify(Arr(xs), Indent(d)) + k
    decreases xs, 2
  {
    IndentNext(d);
    PlainElements(pr, xs, d + 1, Indent(d) + ("]" + k));
    AssembleBlock("[\n", Indent(d + 1), Elements(xs, Indent(d + 1)), Indent(d), "]", k);
  }

  lemma {:induction false} PlainMembers(pr: char -> bool, fs: Fields, d: nat, k: string)
    requires PrintTable(pr) && fs.Field? && PlainFields(pr, fs)
    ensures FieldsText(pr, fs, d, k) == Indent(d) + Members(fs, Indent(d)) + "\n" + k
    decreases fs, 1
  {
    var i, tail := Indent(d), MembersTail(fs.rest, Indent(d));
    if fs.rest.Field? {
      PlainMembers(pr, fs.rest, d, k);
      AssembleTail(i, Members(fs.rest, i), k);
    }
    assert Separator(fs.rest.NoFields?) + FieldsText(pr, fs.rest, d, k) == tail + "\n" + k;
    PlainText(pr, fs.value, d, tail + "\n" + k);
    QuotedIs(pr, fs.key);
    AssembleField(i, QuoteJson(fs.key), Stringify(fs.value, i), tail, k);
  }

  lemma {:induction false} PlainElements(pr: char -> bool, xs: Items, d: nat, k: string)
    requires PrintTable(pr) && xs.Item? && PlainItems(pr, xs)
    ensures ItemsText(pr, xs, d, k) == Indent(d) + Elements(xs, Indent(d)) + "\n" + k
    decreases xs, 1
  {
    var i, tail := Indent(d), ElementsTail(xs.rest, Indent(d));
    if xs.rest.Item? {
      PlainElements(pr, xs.rest, d, k);
      AssembleTail(i, Elements(xs.rest, i), k);
    }
    assert Separator(xs.rest.NoItems?) + ItemsText(pr, xs.rest, d, k) == tail + "\n" + k;
    PlainItem(pr, xs.value, d, tail + "\n" + k);
    AssembleItem(i, Stringify(xs.value, i), tail, k);
  }

  lemma {:induction false} PlainItem(pr: char -> bool, v: Json, d: nat, k: string)
    requires PrintTable(pr) && PlainValue(pr, v) && (v.Str? ==> Plain(pr, v.s)) && !EmptyContainer(v)
    ensures ItemText(pr, v, d, k) == Stringify(v, Indent(d)) + k
    decreases v, 1
  {
    match v
    case Obj(fs) => PlainBraced(pr, fs, d, k);
    case Arr(xs) => PlainBracketed(pr, xs, d, k);
    case Str(s) => QuotedIs(pr, s);
    case _ =>
  }

  /** The room a text takes, beyond what follows it, compared with the reference: never less, and more unless plain. */
  predicate Longer(text: string, k: string, reference: string, plain: bool) {
    |text| >= |reference| + |k| && (!plain ==> |text| > |reference| + |k|)
  }

  lemma {:induction false} LongerValue(pr: char -> bool, v: Json, d: nat, k: string)
    requires PrintTable(pr) && SafeValue(pr, v)
    ensures Longer(ValueText(pr, v, d, k), k, Stringify(v, Indent(d)), PlainValue(pr, v))
    decreases v, 1
  {
    match v
    case Obj(fs) => if fs.Field? { LongerBraced(pr, fs, d, k); }
    case Arr(xs) => if xs.Item? { LongerBracketed(pr, xs, d, k); }
    case Str(s) => ValueStringIs(s);
    case _ =>
  }

  lemma {:induction false} LongerBraced(pr: char -> bool, fs: Fields, d: nat, k: string)
    requires PrintTable(pr) && fs.Field? && SafeFields(pr, fs)
    ensures Longer("{\n" + FieldsText(pr, fs, d + 1, Indent(d) + ("}" + k)), k,
                   Stringify(Obj(fs), Indent(d)), PlainFields(pr, fs))
    decreases fs, 2
  {
    IndentNext(d);
    LongerMembers(pr, fs, d + 1, Indent(d) + ("}" + k));
  }

  lemma {:induction false} LongerBracketed(pr: char -> bool, xs: Items, d: nat, k: string)
    requires PrintTable(pr) && xs.Item? && SafeItems(pr, xs)
    ensures Longer("[\n" + ItemsText(pr, xs, d + 1, Indent(d) + ("]" + k)), k,
                   Stringify(Arr(xs), Indent(d)), PlainItems(pr, xs))
    decreases xs, 2
  {
    IndentNext(d);
    LongerElements(pr, xs, d + 1, Indent(d) + ("]" + k));
  }

  lemma {:induction false} LongerMembers(pr: char -> bool, fs: Fields, d: nat, k: string)
    requires PrintTable(pr) && fs.Field? && SafeFields(pr, fs)
    ensures Longer(FieldsText(pr, fs, d, k), k, Indent(d) + Members(fs, Indent(d)) + "\n", PlainFields(pr, fs))
    decreases fs, 1
  {
    var after := Separator(fs.rest.NoFields?) + FieldsText(pr, fs.rest, d, k);
    if fs.rest.Field? { LongerMembers(pr, fs.rest, d, k); }
    assert Longer(after, k, MembersTail(fs.rest, Indent(d)) + "\n", PlainFields(pr, fs.rest));
    LongerValue(pr, fs.value, d, after);
    QuotedIs(pr, fs.key);
    assert |Members(fs, Indent(d))|
      == |QuoteJson(fs.key)| + 2 + |Stringify(fs.value, Indent(d))| + |MembersTail(fs.rest, Indent(d))|;
  }

  lemma {:induction false} LongerElements(pr: char -> bool, xs: Items, d: nat, k: string)
    requires PrintTable(pr) && xs.Item? && SafeItems(pr, xs)
    ensures Longer(ItemsText(pr, xs, d, k), k, Indent(d) + Elements(xs, Indent(d)) + "\n", PlainItems(pr, xs))
    decreases xs, 1
  {
    var after := Separator(xs.rest.NoItems?) + ItemsText(pr, xs.rest, d, k);
    if xs.rest.Item? { LongerElements(pr, xs.rest, d, k); }
    assert Longer(after, k, ElementsTail(xs.rest, Indent(d)) + "\n", PlainItems(pr, xs.rest));
    LongerItem(pr, xs.value, d, after);
    assert |Elements(xs, Indent(d))| == |Stringify(xs.value, Indent(d))| + |ElementsTail(xs.rest, Indent(d))|;
  }

  lemma {:induction false} LongerItem(pr: char -> bool, v: Json, d: nat, k: string)
    requires PrintTable(pr) && SafeValue(pr, v) && (v.Str? ==> QuoteSafe(pr, v.s))
    ensures Longer(ItemText(pr, v, d, k), k, Stringify(v, Indent(d)),
                   PlainValue(pr, v) && (v.Str? ==> Plain(pr, v.s)) && !EmptyContainer(v))
    decreases v, 1
  {
    match v
    case Obj(fs) => if fs.Field? { LongerBraced(pr, fs, d, k); }
    case Arr(xs) => if xs.Item? { LongerBracketed(pr, xs, d, k); }
    case Str(s) => QuotedIs(pr, s);
    case _ =>
  }

  // ---------------------------------------------------------------- the reference is JSON

  predicate AllSpace(s: string) { forall i :: 0 <= i < |s| ==> IsSpace(s[i]) }

  /** The lexemes `ls` in front of others. */
  function Listed(ls: seq<Lexeme>, k: Source): Source { Source(ls, k.bad) }

  lemma {:induction false} LexStringify(v: Json, indent: string, k: string)
    requires ValidValue(v) && AllSpace(indent) && Stops(k)
    ensures Lexemes(Stringify(v, indent) + k) == Listed(ValueLexemes(v, Lexemes(k).ls), Lexemes(k))
    decreases v, 1
  {
    match v
    case Obj(fs) =>
      if fs.Field? {
        LexBlock('{', '}', indent, Members(fs, indent + "  "), k);
        LexMembers(fs, indent + "  ", "\n" + (indent + ("}" + k)));
      } else {
        LexEmptyPair('{', '}', k);
      }
    case Arr(xs) =>
      if xs.Item? {
        LexBlock('[', ']', indent, Elements(xs, indent + "  "), k);
        LexElements(xs, indent + "  ", "\n" + (indent + ("]" + k)));
      } else {
        LexEmptyPair('[', ']', k);
      }
    case Str(s) => LexQuoteJson(s, k);
    case _ => LexWord(WordText(v), k);
  }

  lemma LexQuoteJson(s: string, k: string)
    ensures Lexemes(QuoteJson(s) + k) == Put(LStr(s), Lexemes(k))
  {
    ValueStringIs(s);
    LexValueString(s, k);
  }

  lemma LexBlock(open: char, close: char, indent: string, inner: string, k: string)
    requires Punctuation(open).Some? && Punctuation(close).Some? && AllSpace(indent)
    ensures var end := "\n" + (indent + ([close] + k));
      && Lexemes(end) == Put(Punctuation(close).value, Lexemes(k)) && Stops(end)
      && Lexemes([open, '\n'] + (indent + "  ") + inner + "\n" + indent + [close] + k)
         == Put(Punctuation(open).value, Lexemes(inner + end))
  {
    var end := "\n" + (indent + ([close] + k));
    LexPunctuation(close, k);
    LexSpaces(indent, [close] + k);
    LexSpaces("\n", indent + ([close] + k));
    LexSpaces(indent + "  ", inner + end);
    LexOpen(open, (indent + "  ") + (inner + end));
    BlockText([open, '\n'], indent + "  ", inner, indent, [close], k);
  }

  lemma BlockText(open: string, inside: string, inner: string, indent: string, close: string, k: string)
    ensures open + inside + inner + "\n" + indent + close + k
      == open + (inside + (inner + ("\n" + (indent + (close + k)))))
  {}

  lemma {:induction false} LexMembers(fs: Fields, indent: string, k: string)
    requires fs.Field? && ValidFields(fs) && AllSpace(indent) && Stops(k)
    ensures Lexemes(Members(fs, indent) + k) == Listed(FieldLexemes(fs, Lexemes(k).ls), Lexemes(k))
    decreases fs, 0
  {
    var value, tail := Stringify(fs.value, indent), MembersTail(fs.rest, indent);
    if fs.rest.Field? {
      LexMembers(fs.rest, indent, k);
      LexTail(indent, Members(fs.rest, indent), k);
    } else {
      assert "" + k == k;
    }
    LexStringify(fs.value, indent, tail + k);
    LexColon(value + (tail + k));
    LexQuoteJson(fs.key, ": " + (value + (tail + k)));
    MemberText(QuoteJson(fs.key), value, tail, k);
    KeyListing(fs, Lexemes(k).ls, Lexemes(tail + k).ls);
  }

  lemma MemberText(key: string, value: string, tail: string, k: string)
    ensures key + ": " + value + tail + k == key + (": " + (value + (tail + k)))
  {}

  lemma KeyListing(fs: Fields, k: seq<Lexeme>, tail: seq<Lexeme>)
    requires fs.Field?
    ensures tail == (if fs.rest.NoFields? then [] else [Comma]) + FieldLexemes(fs.rest, k) ==>
      [LStr(fs.key)] + ([Colon] + ValueLexemes(fs.value, tail)) == FieldLexemes(fs, k)
  {}

  lemma LexTail(indent: string, inner: string, k: string)
    requires AllSpace(indent)
    ensures Lexemes(",\n" + indent + inner + k) == Put(Comma, Lexemes(inner + k)) && Stops(",\n" + indent + inner + k)
  {
    assert ",\n" + indent + inner + k == [',', '\n'] + (indent + (inner + k));
    LexOpen(',', indent + (inner + k));
    LexSpaces(indent, inner + k);
  }

  lemma {:induction false} LexElements(xs: Items, indent: string, k: string)
    requires xs.Item? && ValidItems(xs) && AllSpace(indent) && Stops(k)
    ensures Lexemes(Elements(xs, indent) + k) == Listed(ItemLexemes(xs, Lexemes(k).ls), Lexemes(k))
    decreases xs, 0
  {
    var value, tail := Stringify(xs.value, indent), ElementsTail(xs.rest, indent);
    if xs.rest.Item? {
      LexElements(xs.rest, indent, k);
      LexTail(indent, Elements(xs.rest, indent), k);
    } else {
      assert "" + k == k;
    }
    LexStringify(xs.value, indent, tail + k);
    Assoc(value, tail, k);
    ItemListing(xs, Lexemes(k).ls, Lexemes(tail + k).ls);
  }

  lemma ItemListing(xs: Items, k: seq<Lexeme>, tail: seq<Lexeme>)
    requires xs.Item?
    ensures tail == (if xs.rest.NoItems? then [] else [Comma]) + ItemLexemes(xs.rest, k) ==>
      ValueLexemes(xs.value, tail) == ItemLexemes(xs, k)
  {}

  lemma StringifyParses(v: Json)
    requires ValidValue(v)
    ensures ParseText(Stringify(v, "")) == Some(v)
  {
    LexStringify(v, "", "");
    assert Stringify(v, "") + "" == Stringify(v, "");
    ParseFromLexemes(Stringify(v, ""), v);
  }

  // ---------------------------------------------------------------- when the printer writes the reference

  lemma PrintIsReferenceIff(pr: char -> bool, fs: Fields)
    requires PrintTable(pr) && ValidFields(fs)
    ensures Print(pr, fs) == Stringify(Obj(fs), "") <==> fs.Field? && PlainFields(pr, fs)
  {
    var inner := Indent(0) + ("}" + "");
    assert inner == "}" && Indent(0) == "";
    if fs.NoFields? {
      assert |Print(pr, fs)| == 3;
    } else if !SafeFields(pr, fs) {
      PrintedTextReadsBack(pr, fs);
      StringifyParses(Obj(fs));
      PlainIsSafe(pr, Obj(fs));
    } else {
      LongerBraced(pr, fs, 0, "");
      if PlainFields(pr, fs) { PlainBraced(pr, fs, 0, ""); }
    }
  }

  lemma PlainIsSafe(pr: char -> bool, v: Json)
    ensures PlainValue(pr, v) ==> SafeValue(pr, v)
  {
    match v
    case Obj(fs) => PlainFieldsSafe(pr, fs);
    case Arr(xs) => PlainItemsSafe(pr, xs);
    case _ =>
  }

  lemma PlainFieldsSafe(pr: char -> bool, fs: Fields)
    ensures PlainFields(pr, fs) ==> SafeFields(pr, fs)
  {
    if fs.Field? {
      PlainIsSafe(pr, fs.value);
      PlainFieldsSafe(pr, fs.rest);
    }
  }

  lemma PlainItemsSafe(pr: char -> bool, xs: Items)
    ensures PlainItems(pr, xs) ==> SafeItems(pr, xs)
  {
    if xs.Item? {
      PlainIsSafe(pr, xs.value);
      PlainItemsSafe(pr, xs.rest);
    }
  }

  /** An empty object in an array is spread over two lines, where the reference keeps it on one. */
  lemma EmptyInArray(pr: char -> bool)
    requires PrintTable(pr)
    ensures var fs := Field("a", Arr(Item(Obj(NoFields), NoItems)), NoFields); Print(pr, fs) != Stringify(Obj(fs), "")
  {
    var fs := Field("a", Arr(Item(Obj(NoFields), NoItems)), NoFields);
    assert !PlainItems(pr, Item(Obj(NoFields), NoItems));
    PrintIsReferenceIff(pr, fs);
  }

  /**
   The program prints a document as `JSON.stringify(document, null, 2)` does if and only if it has a field, its keys and
   array strings are plain, and no array holds an empty container.
   */
  lemma PrintsReferenceIff(pr: char -> bool, text: string, fs: Fields)
    requires PrintTable(pr) && ParseText(text) == Some(Obj(fs))
    ensures TokenPrinter.Printed(pr, text, false) == Ok(Stringify(Obj(fs), "")) <==> fs.Field? && PlainFields(pr, fs)
  {
    ParsedTextValid(text);
    TokenPrinter.DocumentPrinted(pr, text, fs, false);
    PrintIsReferenceIff(pr, fs);
  }
}
