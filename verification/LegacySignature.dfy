/**
 Cutting the signature out of the canonical text: which fields the pattern
 matches, whatever the values nest.
 */
module LegacySignature {
  import opened Basics
  import opened JsonText
  import opened LegacyPrinter

  // ---------------------------------------------------------------- the pattern

  predicate IsSignatureChar(c: char) {
    'A' <= c <= 'Z' || 'a' <= c <= 'z' || '0' <= c <= '9' || c == '/' || c == '+' || c == '=' || c == '.'
  }

  function ClassRun(t: string): (n: nat)
    ensures n <= |t|
  {
    if t == "" || !IsSignatureChar(t[0]) then 0 else 1 + ClassRun(t[1..])
  }

  const Lead: string := ",\n  \"signature\": \""

  const LeadLength: nat := 18

  /** Length of the captured group if the pattern matches at the head of `t`, else 0. */
  function Captured(t: string): (n: nat)
    ensures n > 0 ==> LeadLength + n < |t|
  {
    if Lead <= t then
      assert |Lead| == LeadLength;
      var n := ClassRun(t[LeadLength..]);
      if LeadLength + n < |t| && t[LeadLength + n] == '"' then n else 0
    else 0
  }

  datatype CutResult = CutResult(text: string, groups: seq<string>)

  function After(p: string, c: CutResult): CutResult { CutResult(p + c.text, c.groups) }

  /** All leftmost, non-overlapping matches removed from `t`, and their captured groups. */
  function Cut(t: string): CutResult
    decreases |t|
  {
    if t == "" then CutResult("", [])
    else if Captured(t) > 0 then
      var c := Cut(t[LeadLength + Captured(t) + 1..]);
      CutResult(c.text, [t[LeadLength..LeadLength + Captured(t)]] + c.groups)
    else After([t[0]], Cut(t[1..]))
  }

  // ---------------------------------------------------------------- text without matches

  predicate OneLine(p: string) { forall i :: 0 <= i < |p| ==> p[i] != '\n' }

  /**
   A relation between a text, what is left of it and what was captured, that lets characters pass through:
   every character that is not a comma in front of a line break, and a comma and line break in front of a deeper line.
   */
  ghost predicate PassesThrough(cuts: (string, string, seq<string>) -> bool) {
    && (forall c: char, r: string, r': string, gs: seq<string> ::
          cuts(r, r', gs) && !(c == ',' && r != "" && r[0] == '\n') ==> cuts([c] + r, [c] + r', gs))
    && (forall r: string, r': string, gs: seq<string> ::
          cuts(r, r', gs) && |r| >= 3 && r[2] == ' ' ==> cuts(",\n" + r, ",\n" + r', gs))
  }

  /** A piece of one line that does not end in a comma passes through. */
  lemma {:induction false} CutPiece(cuts: (string, string, seq<string>) -> bool, p: string, r: string, r': string,
                                    gs: seq<string>)
    requires PassesThrough(cuts)
    requires OneLine(p) && (p != "" ==> p[|p| - 1] != ',')
    requires cuts(r, r', gs)
    ensures cuts(p + r, p + r', gs)
  {
    if p == "" {
      assert p + r == r && p + r' == r';
    } else {
      CutPiece(cuts, p[1..], r, r', gs);
      FirstOf(p, r);
      FirstOf(p, r');
      assert p[0] == ',' ==> p[1..] != "" && (p[1..] + r)[0] == p[1];
    }
  }

  lemma FirstOf(p: string, r: string)
    requires p != ""
    ensures p + r == [p[0]] + (p[1..] + r)
  {}

  lemma CutOpen(cuts: (string, string, seq<string>) -> bool, c: char, r: string, r': string, gs: seq<string>)
    requires PassesThrough(cuts)
    requires c != ',' && c != '\n' && cuts(r, r', gs)
    ensures cuts([c, '\n'] + r, [c, '\n'] + r', gs)
  {
    assert [c, '\n'] + r == [c] + (['\n'] + r) && [c, '\n'] + r' == [c] + (['\n'] + r');
  }

  lemma {:induction false} EscapeOneLine(esc: char -> string, s: string)
    requires forall c: char :: OneLine(esc(c))
    ensures OneLine(EscapeWith(esc, s))
  {
    if s != "" {
      EscapeOneLine(esc, s[1..]);
      assert OneLine(esc(s[0]));
    }
  }

  lemma HexOneLine(n: int)
    requires 0 <= n < 0x1_0000
    ensures OneLine(Hex4(n))
  {}

  lemma ValueCharOneLine(c: char)
    ensures OneLine(ValueChar(c))
  {
    if c < ' ' { HexOneLine(c as int); }
  }

  lemma QuoteCharOneLine(pr: char -> bool, c: char)
    requires PrintTable(pr)
    ensures OneLine(QuoteChar(pr, c))
  {
    HexOneLine(c as int % 0x1_0000);
    HexOneLine(c as int / 0x1_0000);
  }

  lemma QuotedOneLine(pr: char -> bool, s: string)
    requires PrintTable(pr)
    ensures OneLine(Quoted(pr, s))
  {
    forall c: char ensures OneLine(QuoteStyle(pr)(c)) { QuoteCharOneLine(pr, c); }
    EscapeOneLine(QuoteStyle(pr), s);
  }

  lemma ValueStringOneLine(s: string)
    ensures OneLine(ValueString(s))
  {
    forall c: char ensures OneLine(ValueChar(c)) { ValueCharOneLine(c); }
    EscapeOneLine(ValueChar, s);
  }

  lemma CutWord(cuts: (string, string, seq<string>) -> bool, w: string, r: string, r': string, gs: seq<string>)
    requires PassesThrough(cuts)
    requires ValidWord(w) && cuts(r, r', gs)
    ensures cuts(w + r, w + r', gs)
  {
    WordChars(w);
    CutPiece(cuts, w, r, r', gs);
  }

  lemma CutIndent(cuts: (string, string, seq<string>) -> bool, d: nat, r: string, r': string, gs: seq<string>)
    requires PassesThrough(cuts)
    requires cuts(r, r', gs)
    ensures cuts(Indent(d) + r, Indent(d) + r', gs)
  {
    IndentIsSpace(d);
    CutPiece(cuts, Indent(d), r, r', gs);
  }

  lemma CutClose(cuts: (string, string, seq<string>) -> bool, d: nat, bracket: string, r: string, r': string,
                 gs: seq<string>)
    requires PassesThrough(cuts)
    requires (bracket == "}" || bracket == "]") && cuts(r, r', gs)
    ensures cuts(Indent(d) + (bracket + r), Indent(d) + (bracket + r'), gs)
  {
    CutPiece(cuts, bracket, r, r', gs);
    CutIndent(cuts, d, bracket + r, bracket + r', gs);
  }

  lemma CutEntrySeparator(cuts: (string, string, seq<string>) -> bool, last: bool, r: string, r': string,
                          gs: seq<string>)
    requires PassesThrough(cuts)
    requires (!last ==> |r| >= 3 && r[2] == ' ') && cuts(r, r', gs)
    ensures cuts(Separator(last) + r, Separator(last) + r', gs)
  {}

  // ---------------------------------------------------------------- nested values never match

  /** No match starts inside a value, whatever it nests; the text behind it is cut on its own. */
  lemma {:induction false} CutValue(cuts: (string, string, seq<string>) -> bool, pr: char -> bool, v: Json, d: nat,
                                    k: string, k': string, gs: seq<string>)
    requires PassesThrough(cuts)
    requires PrintTable(pr) && ValidValue(v) && d >= 1 && cuts(k, k', gs)
    ensures cuts(ValueText(pr, v, d, k), ValueText(pr, v, d, k'), gs)
    decreases v, 1
  {
    match v
    case Obj(fs) =>
      if fs.NoFields? {
        CutPiece(cuts, "{}", k, k', gs);
      } else {
        CutBraced(cuts, pr, fs, d, k, k', gs);
      }
    case Arr(xs) =>
      if xs.NoItems? {
        CutPiece(cuts, "[]", k, k', gs);
      } else {
        CutBracketed(cuts, pr, xs, d, k, k', gs);
      }
    case Str(s) =>
      ValueStringOneLine(s);
      CutPiece(cuts, ValueString(s), k, k', gs);
    case Num(_) => CutWord(cuts, WordText(v), k, k', gs);
    case Bool(_) => CutWord(cuts, WordText(v), k, k', gs);
    case Null => CutWord(cuts, WordText(v), k, k', gs);
  }

  lemma {:induction false} CutBraced(cuts: (string, string, seq<string>) -> bool, pr: char -> bool, fs: Fields, d: nat,
                                     k: string, k': string, gs: seq<string>)
    requires PassesThrough(cuts)
    requires PrintTable(pr) && ValidFields(fs) && d >= 1 && cuts(k, k', gs)
    ensures cuts("{\n" + FieldsText(pr, fs, d + 1, Indent(d) + ("}" + k)),
                    "{\n" + FieldsText(pr, fs, d + 1, Indent(d) + ("}" + k')), gs)
    decreases fs, 3
  {
    CutClose(cuts, d, "}", k, k', gs);
    CutOpenFields(cuts, pr, fs, d, Indent(d) + ("}" + k), Indent(d) + ("}" + k'), gs);
  }

  lemma {:induction false} CutOpenFields(cuts: (string, string, seq<string>) -> bool, pr: char -> bool, fs: Fields,
                                         d: nat, x: string, x': string, gs: seq<string>)
    requires PassesThrough(cuts)
    requires PrintTable(pr) && ValidFields(fs) && d >= 1 && cuts(x, x', gs)
    ensures cuts("{\n" + FieldsText(pr, fs, d + 1, x), "{\n" + FieldsText(pr, fs, d + 1, x'), gs)
    decreases fs, 2
  {
    CutFields(cuts, pr, fs, d + 1, x, x', gs);
    CutOpen(cuts, '{', FieldsText(pr, fs, d + 1, x), FieldsText(pr, fs, d + 1, x'), gs);
  }

  lemma {:induction false} CutBracketed(cuts: (string, string, seq<string>) -> bool, pr: char -> bool, xs: Items,
                                        d: nat, k: string, k': string, gs: seq<string>)
    requires PassesThrough(cuts)
    requires PrintTable(pr) && ValidItems(xs) && d >= 1 && cuts(k, k', gs)
    ensures cuts("[\n" + ItemsText(pr, xs, d + 1, Indent(d) + ("]" + k)),
                    "[\n" + ItemsText(pr, xs, d + 1, Indent(d) + ("]" + k')), gs)
    decreases xs, 3
  {
    CutClose(cuts, d, "]", k, k', gs);
    CutOpenItems(cuts, pr, xs, d, Indent(d) + ("]" + k), Indent(d) + ("]" + k'), gs);
  }

  lemma {:induction false} CutOpenItems(cuts: (string, string, seq<string>) -> bool, pr: char -> bool, xs: Items,
                                        d: nat, x: string, x': string, gs: seq<string>)
    requires PassesThrough(cuts)
    requires PrintTable(pr) && ValidItems(xs) && d >= 1 && cuts(x, x', gs)
    ensures cuts("[\n" + ItemsText(pr, xs, d + 1, x), "[\n" + ItemsText(pr, xs, d + 1, x'), gs)
    decreases xs, 2
  {
    CutItems(cuts, pr, xs, d + 1, x, x', gs);
    CutOpen(cuts, '[', ItemsText(pr, xs, d + 1, x), ItemsText(pr, xs, d + 1, x'), gs);
  }

  lemma DeepIndent(d: nat, r: string)
    requires d >= 2
    ensures |Indent(d) + r| >= 3 && (Indent(d) + r)[2] == ' '
  {
    IndentIsSpace(d);
  }

  lemma {:induction false} CutFields(cuts: (string, string, seq<string>) -> bool, pr: char -> bool, fs: Fields, d: nat,
                                     k: string, k': string, gs: seq<string>)
    requires PassesThrough(cuts)
    requires PrintTable(pr) && ValidFields(fs) && d >= 2 && cuts(k, k', gs)
    ensures cuts(FieldsText(pr, fs, d, k), FieldsText(pr, fs, d, k'), gs)
    decreases fs, 1
  {
    match fs
    case NoFields =>
    case Field(key, v, rest) =>
      var more, more' := FieldsText(pr, rest, d, k), FieldsText(pr, rest, d, k');
      CutFields(cuts, pr, rest, d, k, k', gs);
      if rest.Field? {
        DeepIndent(d, Quoted(pr, rest.key) + (": " +
          ValueText(pr, rest.value, d, Separator(rest.rest.NoFields?) + FieldsText(pr, rest.rest, d, k))));
      }
      CutEntrySeparator(cuts, rest.NoFields?, more, more', gs);
      CutField(cuts, pr, key, v, d, Separator(rest.NoFields?) + more, Separator(rest.NoFields?) + more', gs);
  }

  lemma {:induction false} CutField(cuts: (string, string, seq<string>) -> bool, pr: char -> bool, key: string, v: Json,
                                    d: nat, k: string, k': string, gs: seq<string>)
    requires PassesThrough(cuts)
    requires PrintTable(pr) && ValidValue(v) && d >= 1 && cuts(k, k', gs)
    ensures cuts(Indent(d) + (Quoted(pr, key) + (": " + ValueText(pr, v, d, k))),
                    Indent(d) + (Quoted(pr, key) + (": " + ValueText(pr, v, d, k'))), gs)
    decreases v, 2
  {
    CutValue(cuts, pr, v, d, k, k', gs);
    CutKey(cuts, pr, key, d, ValueText(pr, v, d, k), ValueText(pr, v, d, k'), gs);
  }

  lemma CutKey(cuts: (string, string, seq<string>) -> bool, pr: char -> bool, key: string, d: nat, r: string,
               r': string, gs: seq<string>)
    requires PassesThrough(cuts)
    requires PrintTable(pr) && cuts(r, r', gs)
    ensures cuts(Indent(d) + (Quoted(pr, key) + (": " + r)), Indent(d) + (Quoted(pr, key) + (": " + r')), gs)
  {
    CutPiece(cuts, ": ", r, r', gs);
    QuotedOneLine(pr, key);
    CutPiece(cuts, Quoted(pr, key), ": " + r, ": " + r', gs);
    CutIndent(cuts, d, Quoted(pr, key) + (": " + r), Quoted(pr, key) + (": " + r'), gs);
  }

  lemma {:induction false} CutItem(cuts: (string, string, seq<string>) -> bool, pr: char -> bool, v: Json, d: nat,
                                   k: string, k': string, gs: seq<string>)
    requires PassesThrough(cuts)
    requires PrintTable(pr) && ValidValue(v) && d >= 1 && cuts(k, k', gs)
    ensures cuts(ItemText(pr, v, d, k), ItemText(pr, v, d, k'), gs)
    decreases v, 1
  {
    match v
    case Obj(fs) => CutBraced(cuts, pr, fs, d, k, k', gs);
    case Arr(xs) => CutBracketed(cuts, pr, xs, d, k, k', gs);
    case Str(s) =>
      QuotedOneLine(pr, s);
      CutPiece(cuts, Quoted(pr, s), k, k', gs);
    case Num(_) => CutWord(cuts, WordText(v), k, k', gs);
    case Bool(_) => CutWord(cuts, WordText(v), k, k', gs);
    case Null => CutWord(cuts, WordText(v), k, k', gs);
  }

  lemma {:induction false} CutItems(cuts: (string, string, seq<string>) -> bool, pr: char -> bool, xs: Items, d: nat,
                                    k: string, k': string, gs: seq<string>)
    requires PassesThrough(cuts)
    requires PrintTable(pr) && ValidItems(xs) && d >= 2 && cuts(k, k', gs)
    ensures cuts(ItemsText(pr, xs, d, k), ItemsText(pr, xs, d, k'), gs)
    decreases xs, 1
  {
    match xs
    case NoItems =>
    case Item(v, rest) =>
      var more, more' := ItemsText(pr, rest, d, k), ItemsText(pr, rest, d, k');
      var sep := Separator(rest.NoItems?);
      CutItems(cuts, pr, rest, d, k, k', gs);
      if rest.Item? {
        DeepIndent(d, ItemText(pr, rest.value, d, Separator(rest.rest.NoItems?) + ItemsText(pr, rest.rest, d, k)));
      }
      CutEntrySeparator(cuts, rest.NoItems?, more, more', gs);
      CutItem(cuts, pr, v, d, sep + more, sep + more', gs);
      CutIndent(cuts, d, ItemText(pr, v, d, sep + more), ItemText(pr, v, d, sep + more'), gs);
  }

  // ---------------------------------------------------------------- the outermost fields

  predicate SignatureText(x: string) { x != "" && forall i :: 0 <= i < |x| ==> IsSignatureChar(x[i]) }

  /** The only fields the pattern can match. */
  predicate IsSignatureField(key: string, v: Json) {
    key == "signature" && v.Str? && SignatureText(v.s)
  }

  /** Fields behind the first, without the signature fields. */
  function Strip(fs: Fields): Fields {
    match fs
    case NoFields => NoFields
    case Field(key, v, rest) => if IsSignatureField(key, v) then Strip(rest) else Field(key, v, Strip(rest))
  }

  function Stripped(fs: Fields): seq<string> {
    match fs
    case NoFields => []
    case Field(key, v, rest) => (if IsSignatureField(key, v) then [v.s] else []) + Stripped(rest)
  }

  /** What stands behind a value of the outermost object. */
  function Rest(pr: char -> bool, fs: Fields): string { Separator(fs.NoFields?) + FieldsText(pr, fs, 1, "}") }

  lemma {:induction false} ClassRunStops(x: string, r: string)
    requires forall i :: 0 <= i < |x| ==> IsSignatureChar(x[i])
    requires r != "" && !IsSignatureChar(r[0])
    ensures ClassRun(x + r) == |x|
  {
    if x == "" {
      assert x + r == r;
    } else {
      assert (x + r)[1..] == x[1..] + r;
      ClassRunStops(x[1..], r);
    }
  }

  lemma {:induction false} SignatureTextUnescaped(x: string)
    requires forall i :: 0 <= i < |x| ==> IsSignatureChar(x[i])
    ensures EscapeWith(ValueChar, x) == x
  {
    if x != "" {
      SignatureTextUnescaped(x[1..]);
      assert x == [x[0]] + x[1..];
    }
  }

  /**
   The group of class characters in an escaped string ends at its closing quote only if all its characters are of
   the class.
   */
  lemma {:induction false} ClassRunEscaped(x: string, r: string)
    ensures var t := EscapeWith(ValueChar, x) + ['"'] + r; var n := ClassRun(t);
      n < |t| && (t[n] == '"' <==> forall i :: 0 <= i < |x| ==> IsSignatureChar(x[i]))
  {
    var t := EscapeWith(ValueChar, x) + ['"'] + r;
    if x == "" {
      assert t == ['"'] + r;
    } else {
      var more := EscapeWith(ValueChar, x[1..]) + ['"'] + r;
      assert t == ValueChar(x[0]) + more;
      ValueCharRun(x[0], more);
      if IsSignatureChar(x[0]) {
        ClassRunEscaped(x[1..], r);
        assert x == [x[0]] + x[1..];
      }
    }
  }

  lemma ValueCharRun(c: char, more: string)
    ensures IsSignatureChar(c) ==> ClassRun(ValueChar(c) + more) == 1 + ClassRun(more) && ValueChar(c) == [c]
    ensures !IsSignatureChar(c) ==> ClassRun(ValueChar(c) + more) == 0 && (ValueChar(c) + more)[0] != '"'
  {
    var t := ValueChar(c) + more;
    if IsSignatureChar(c) {
      assert t[1..] == more;
    } else {
      assert t[0] == ValueChar(c)[0] && !IsSignatureChar(t[0]);
    }
  }

  lemma QuotedSignature(pr: char -> bool)
    requires PrintTable(pr)
    ensures Quoted(pr, "signature") == "\"signature\""
  {
    SignatureLetters();
    PlainQuoted(pr, "signature");
    assert ['"'] + "signature" + ['"'] == "\"signature\"";
  }

  lemma PlainQuoted(pr: char -> bool, s: string)
    requires PrintTable(pr) && forall i :: 0 <= i < |s| ==> 'a' <= s[i] <= 'z'
    ensures Quoted(pr, s) == ['"'] + s + ['"']
  {
    PlainQuote(pr, s);
  }

  lemma SignatureLetters()
    ensures forall i :: 0 <= i < |"signature"| ==> 'a' <= "signature"[i] <= 'z'
  {}

  lemma {:induction false} PlainQuote(pr: char -> bool, s: string)
    requires PrintTable(pr) && forall i :: 0 <= i < |s| ==> 'a' <= s[i] <= 'z'
    ensures EscapeWith(QuoteStyle(pr), s) == s
  {
    if s != "" {
      PlainQuote(pr, s[1..]);
      assert s == [s[0]] + s[1..];
    }
  }

  lemma {:induction false} ScanLetters(w: string, r: string)
    requires forall i :: 0 <= i < |w| ==> 'a' <= w[i] <= 'z'
    ensures ScanString(w + (['"'] + r)) == Some(ScannedString(w, r))
  {
    if w == "" {
      assert w + (['"'] + r) == ['"'] + r && (['"'] + r)[1..] == r;
    } else {
      assert (w + (['"'] + r))[1..] == w[1..] + (['"'] + r);
      ScanLetters(w[1..], r);
      assert w == [w[0]] + w[1..];
    }
  }

  /**
   If the lead of the pattern stands in front of a field, the key is `signature` and the value starts with a quote.
   */
  lemma LeadForcesKey(pr: char -> bool, key: string, v: string)
    requires PrintTable(pr)
    requires Lead <= ",\n  " + (Quoted(pr, key) + (": " + v))
    ensures key == "signature" && v != "" && v[0] == '"'
  {
    var t := ",\n  " + (Quoted(pr, key) + (": " + v));
    var body := EscapeWith(QuoteStyle(pr), key) + ['"'] + (": " + v);
    assert t[5..] == body;
    LeadSplits(t, body);
    var tail := body[13..];
    ScanLetters("signature", ": \"" + tail);
    ScanQuoted(pr, key, ": " + v);
    SameTail(v, tail);
  }

  lemma LeadSplits(t: string, body: string)
    requires Lead <= t && |t| >= 5 && t[5..] == body
    ensures |body| >= 13 && body == "signature" + (['"'] + (": \"" + body[13..]))
  {
    assert |Lead| == 18 && Lead[5..] == "signature\": \"";
    assert body[..13] == "signature\": \"";
    assert body == body[..13] + body[13..];
  }

  lemma SameTail(v: string, tail: string)
    requires ": " + v == ": \"" + tail
    ensures v != "" && v[0] == '"'
  {
    assert (": " + v)[2..] == v && (": \"" + tail)[2] == '"';
  }

  /** Only strings print with a leading quote. */
  lemma StringFirst(pr: char -> bool, v: Json, k: string)
    requires ValidValue(v) && ValueText(pr, v, 1, k) != "" && ValueText(pr, v, 1, k)[0] == '"'
    ensures v.Str?
  {
    if v.Num? || v.Bool? || v.Null? {
      WordChars(WordText(v));
    }
  }

  lemma LeadLine(pr: char -> bool, r: string)
    requires PrintTable(pr)
    ensures ",\n  " + (Quoted(pr, "signature") + (": " + (['"'] + r))) == Lead + r
  {
    QuotedSignature(pr);
    LeadPieces();
    Assoc5(",\n  ", Quoted(pr, "signature"), ": ", ['"'], r);
  }

  lemma LeadPieces()
    ensures ",\n  " + ("\"signature\"" + (": " + ['"'])) == Lead
  {}

  lemma Assoc5(a: string, b: string, c: string, d: string, e: string)
    ensures a + (b + (c + (d + e))) == a + (b + (c + d)) + e
  {}

  lemma CapturedBehindLead(r: string)
    ensures Captured(Lead + r) == if ClassRun(r) < |r| && r[ClassRun(r)] == '"' then ClassRun(r) else 0
  {
    assert |Lead| == LeadLength && (Lead + r)[LeadLength..] == r;
  }

  /** Behind the lead, a string that is no signature text is not captured. */
  lemma CapturedNoText(x: string, r: string)
    requires !SignatureText(x)
    ensures Captured(Lead + (EscapeWith(ValueChar, x) + ['"'] + r)) == 0
  {
    var text := EscapeWith(ValueChar, x) + ['"'] + r;
    CapturedBehindLead(text);
    ClassRunEscaped(x, r);
    if x == "" {
      assert text == ['"'] + r;
    }
  }

  lemma SignatureLine(pr: char -> bool, x: string, r: string)
    requires PrintTable(pr)
    ensures ",\n  " + (Quoted(pr, "signature") + (": " + (ValueString(x) + r)))
      == Lead + (EscapeWith(ValueChar, x) + ['"'] + r)
  {
    QuoteJoins(EscapeWith(ValueChar, x), r);
    LeadLine(pr, EscapeWith(ValueChar, x) + ['"'] + r);
  }

  lemma QuoteJoins(e: string, r: string)
    ensures (['"'] + e + ['"']) + r == ['"'] + (e + ['"'] + r)
  {}

  /** The pattern does not match in front of any other field. */
  lemma CapturedNothing(pr: char -> bool, key: string, v: Json, r: string)
    requires PrintTable(pr) && ValidValue(v) && !IsSignatureField(key, v)
    ensures Captured(",\n  " + (Quoted(pr, key) + (": " + ValueText(pr, v, 1, r)))) == 0
  {
    var value := ValueText(pr, v, 1, r);
    if Lead <= ",\n  " + (Quoted(pr, key) + (": " + value)) {
      LeadForcesKey(pr, key, value);
      StringFirst(pr, v, r);
      SignatureLine(pr, v.s, r);
      CapturedNoText(v.s, r);
    }
  }

  /** Text with a signature field in front of `r`. */
  ghost predicate SignatureAhead(t: string, x: string, r: string) {
    |t| == LeadLength + |x| + 1 + |r| && Captured(t) == |x|
    && t[LeadLength..LeadLength + |x|] == x && t[LeadLength + |x| + 1..] == r
  }

  lemma CapturedText(x: string, r: string)
    requires SignatureText(x)
    ensures SignatureAhead(Lead + (x + (['"'] + r)), x, r)
  {
    var text := x + (['"'] + r);
    CapturedBehindLead(text);
    ClassRunStops(x, ['"'] + r);
    assert |Lead| == LeadLength;
    var t := Lead + text;
    assert t[LeadLength..LeadLength + |x|] == x && t[LeadLength + |x| + 1..] == r;
  }

  /** A relation that cuts the way the program does. */
  ghost predicate Cutting(cuts: (string, string, seq<string>) -> bool) {
    && PassesThrough(cuts)
    && cuts("", "", [])
    && CutsSignatures(cuts)
    && PassesOtherFields(cuts)
  }

  ghost predicate CutsSignatures(cuts: (string, string, seq<string>) -> bool) {
    forall t: string, x: string, r: string, r': string, gs: seq<string> ::
      SignatureAhead(t, x, r) && x != "" && cuts(r, r', gs) ==> cuts(t, r', [x] + gs)
  }

  ghost predicate PassesOtherFields(cuts: (string, string, seq<string>) -> bool) {
    forall r: string, r': string, gs: seq<string> ::
      cuts(r, r', gs) && Captured(",\n" + r) == 0 ==> cuts(",\n" + r, ",\n" + r', gs)
  }

  lemma RestLine(pr: char -> bool, fs: Fields)
    requires fs.Field?
    ensures Rest(pr, fs) == ",\n  " + (Quoted(pr, fs.key) + (": " + ValueText(pr, fs.value, 1, Rest(pr, fs.rest))))
  {
    assert Indent(1) == "  " by { assert Indent(1) == "  " + Indent(0); }
    var x := Quoted(pr, fs.key) + (": " + ValueText(pr, fs.value, 1, Rest(pr, fs.rest)));
    assert ",\n" + ("  " + x) == ",\n  " + x;
  }

  lemma CutSignatureField(cuts: (string, string, seq<string>) -> bool, pr: char -> bool, fs: Fields, r': string,
                          gs: seq<string>)
    requires Cutting(cuts) && PrintTable(pr) && fs.Field? && IsSignatureField(fs.key, fs.value)
    requires cuts(Rest(pr, fs.rest), r', gs)
    ensures cuts(Rest(pr, fs), r', [fs.value.s] + gs)
  {
    assert SignatureAhead(Rest(pr, fs), fs.value.s, Rest(pr, fs.rest)) by { SignatureRest(pr, fs); }
  }

  lemma SignatureRest(pr: char -> bool, fs: Fields)
    requires PrintTable(pr) && fs.Field? && IsSignatureField(fs.key, fs.value)
    ensures SignatureAhead(Rest(pr, fs), fs.value.s, Rest(pr, fs.rest))
  {
    var r, x := Rest(pr, fs.rest), fs.value.s;
    RestLine(pr, fs);
    SignatureLine(pr, x, r);
    SignatureTextUnescaped(x);
    Assoc(x, ['"'], r);
    CapturedText(x, r);
  }

  lemma CutOtherField(cuts: (string, string, seq<string>) -> bool, pr: char -> bool, fs: Fields, rest': Fields,
                      gs: seq<string>)
    requires Cutting(cuts) && PrintTable(pr) && fs.Field? && ValidFields(fs) && !IsSignatureField(fs.key, fs.value)
    requires cuts(Rest(pr, fs.rest), Rest(pr, rest'), gs)
    ensures cuts(Rest(pr, fs), Rest(pr, Field(fs.key, fs.value, rest')), gs)
  {
    assert Captured(Rest(pr, fs)) == 0 by {
      RestLine(pr, fs);
      CapturedNothing(pr, fs.key, fs.value, Rest(pr, fs.rest));
    }
    CutField(cuts, pr, fs.key, fs.value, 1, Rest(pr, fs.rest), Rest(pr, rest'), gs);
    assert Rest(pr, fs) == ",\n" + FieldsText(pr, fs, 1, "}");
  }

  lemma {:induction false} CutRest(cuts: (string, string, seq<string>) -> bool, pr: char -> bool, fs: Fields)
    requires Cutting(cuts) && PrintTable(pr) && ValidFields(fs)
    ensures cuts(Rest(pr, fs), Rest(pr, Strip(fs)), Stripped(fs))
  {
    if fs.NoFields? {
      CutPiece(cuts, "}", "", "", []);
      assert "}" + "" == "}" && ['\n'] + "}" == Rest(pr, NoFields);
    } else {
      CutRest(cuts, pr, fs.rest);
      if IsSignatureField(fs.key, fs.value) {
        CutSignatureField(cuts, pr, fs, Rest(pr, Strip(fs.rest)), Stripped(fs.rest));
      } else {
        CutOtherField(cuts, pr, fs, Strip(fs.rest), Stripped(fs.rest));
        assert [] + Stripped(fs.rest) == Stripped(fs.rest);
      }
    }
  }

  lemma {:induction false} CutObject(cuts: (string, string, seq<string>) -> bool, pr: char -> bool, fs: Fields)
    requires Cutting(cuts) && PrintTable(pr) && ValidFields(fs) && fs.Field?
    ensures cuts(Print(pr, fs), Print(pr, fs.(rest := Strip(fs.rest))), Stripped(fs.rest))
  {
    CutRest(cuts, pr, fs.rest);
    CutField(cuts, pr, fs.key, fs.value, 1, Rest(pr, fs.rest), Rest(pr, Strip(fs.rest)), Stripped(fs.rest));
    CutOpen(cuts, '{', FieldsText(pr, fs, 1, "}"), FieldsText(pr, fs.(rest := Strip(fs.rest)), 1, "}"),
      Stripped(fs.rest));
  }

  function CutRelation(): (string, string, seq<string>) -> bool { (t, t', gs) => Cut(t) == CutResult(t', gs) }

  lemma CutStep(t: string, r: string)
    requires t != "" && t[1..] == r && Captured(t) == 0
    ensures Cut(t) == After([t[0]], Cut(r))
  {}

  lemma CapturedLead(t: string)
    requires Captured(t) > 0
    ensures |t| > 4 && t[0] == ',' && t[1] == '\n' && t[4] == '"'
  {
    assert Lead[0] == ',' && Lead[1] == '\n' && Lead[4] == '"';
  }

  lemma CutPass(c: char, r: string)
    requires !(c == ',' && r != "" && r[0] == '\n')
    ensures Cut([c] + r) == After([c], Cut(r))
  {
    var t := [c] + r;
    if Captured(t) > 0 { CapturedLead(t); }
    CutStep(t, r);
  }

  lemma CutSeparator(r: string)
    requires Captured(",\n" + r) == 0
    ensures Cut(",\n" + r) == After(",\n", Cut(r))
  {
    CutPass('\n', r);
    SeparatorTail(r);
    CutStep(",\n" + r, ['\n'] + r);
    AfterTwice(Cut(r));
  }

  lemma SeparatorTail(r: string)
    ensures (",\n" + r)[0] == ',' && (",\n" + r)[1..] == ['\n'] + r
  {}

  lemma AfterTwice(c: CutResult)
    ensures After([','], After(['\n'], c)) == After(",\n", c)
  {
    assert [','] + (['\n'] + c.text) == ",\n" + c.text;
  }

  lemma CutDeeper(r: string)
    requires |r| >= 3 && r[2] == ' '
    ensures Captured(",\n" + r) == 0
  {
    var t := ",\n" + r;
    assert t[4] == r[2];
    if Captured(t) > 0 { CapturedLead(t); }
  }

  lemma CutMatch(t: string, x: string, r: string)
    requires SignatureAhead(t, x, r) && x != ""
    ensures Cut(t) == CutResult(Cut(r).text, [x] + Cut(r).groups)
  {}

  lemma RelationPasses()
    ensures PassesThrough(CutRelation())
  {
    var cuts := CutRelation();
    forall c: char, r: string, r': string, gs: seq<string> | cuts(r, r', gs) && !(c == ',' && r != "" && r[0] == '\n')
      ensures cuts([c] + r, [c] + r', gs)
    {
      CutPass(c, r);
    }
    forall r: string, r': string, gs: seq<string> | cuts(r, r', gs) && |r| >= 3 && r[2] == ' '
      ensures cuts(",\n" + r, ",\n" + r', gs)
    {
      CutDeeper(r);
      CutSeparator(r);
    }
  }

  lemma RelationCutsSignatures()
    ensures CutsSignatures(CutRelation())
  {
    var cuts := CutRelation();
    forall t: string, x: string, r: string, r': string, gs: seq<string> | SignatureAhead(t, x, r) && x != ""
      && cuts(r, r', gs)
      ensures cuts(t, r', [x] + gs)
    {
      CutMatch(t, x, r);
    }
  }

  lemma RelationPassesOthers()
    ensures PassesOtherFields(CutRelation())
  {
    var cuts := CutRelation();
    forall r: string, r': string, gs: seq<string> | cuts(r, r', gs) && Captured(",\n" + r) == 0
      ensures cuts(",\n" + r, ",\n" + r', gs)
    {
      CutSeparator(r);
    }
  }

  /**
   Cutting the printed form of any object removes exactly the outermost signature fields behind
   the first field, whatever the values nest, and leaves the printed form of the others.
   */
  lemma CutPrinted(pr: char -> bool, fs: Fields)
    requires PrintTable(pr) && ValidFields(fs) && fs.Field?
    ensures Cut(Print(pr, fs)) == CutResult(Print(pr, fs.(rest := Strip(fs.rest))), Stripped(fs.rest))
  {
    CutBy(CutRelation(), pr, fs);
    RelationMeans(CutRelation(), Print(pr, fs), Print(pr, fs.(rest := Strip(fs.rest))), Stripped(fs.rest));
  }

  lemma CutBy(cuts: (string, string, seq<string>) -> bool, pr: char -> bool, fs: Fields)
    requires cuts == CutRelation() && PrintTable(pr) && ValidFields(fs) && fs.Field?
    ensures cuts(Print(pr, fs), Print(pr, fs.(rest := Strip(fs.rest))), Stripped(fs.rest))
  {
    RelationPasses();
    RelationEmpty();
    RelationCutsSignatures();
    RelationPassesOthers();
    CutObject(cuts, pr, fs);
  }

  lemma RelationEmpty()
    ensures CutRelation()("", "", [])
  {}

  lemma RelationMeans(cuts: (string, string, seq<string>) -> bool, t: string, t': string, gs: seq<string>)
    requires cuts == CutRelation() && cuts(t, t', gs)
    ensures Cut(t) == CutResult(t', gs)
  {}
}
