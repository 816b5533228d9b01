/**
 What verification demands of the decoded fields of a message: the size and
 type of its content, and fields that decode into the message structure.
 */
module LegacyContent {
  import opened Basics
  import opened JsonText
  import Decimal
  import TokenStream

  function Lookup(fs: Fields, key: string): Option<Json> {
    match fs
    case NoFields => None
    case Field(k, v, rest) => if k == key then Some(v) else Lookup(rest, key)
  }

  // ---------------------------------------------------------------- type of the content

  /** The decoder matches field names whatever their case. */
  predicate NamesType(key: string) {
    && |key| == 4
    && key[0] in "tT" && key[1] in "yY" && key[2] in "pP" && key[3] in "eE"
  }

  /** The last of several types counts, null leaves the type as it is, and any other value is an error. */
  function TypeOf(fs: Fields, held: string): Option<string> {
    match fs
    case NoFields => Some(held)
    case Field(key, v, rest) =>
      if !NamesType(key) || v.Null? then TypeOf(rest, held)
      else if v.Str? then TypeOf(rest, v.s)
      else None
  }

  /** An object with a type of 3 to 52 bytes, or an encrypted text. */
  predicate WellTyped(content: Json) {
    match content
    case Obj(fs) => var t := TypeOf(fs, ""); t.Some? && 3 <= ByteLength(t.value) <= 52
    case Str(s) => HasSuffix(s, ".box") || HasSuffix(s, ".box2")
    case _ => false
  }

  /** A type of ASCII characters has to have 3 to 52 of them, whatever the case of its key. */
  lemma TypeLength(key: string, t: string, rest: Fields)
    requires NamesType(key) && Untyped(rest) && forall i :: 0 <= i < |t| ==> t[i] < '\U{80}'
    ensures WellTyped(Obj(Field(key, Str(t), rest))) <==> 3 <= |t| <= 52
  {
    AsciiLength(t);
    NoType(rest, t);
  }

  lemma {:induction false} AsciiLength(t: string)
    requires forall i :: 0 <= i < |t| ==> t[i] < '\U{80}'
    ensures ByteLength(t) == |t|
    decreases |t|
  {
    if t != "" { AsciiLength(t[..|t| - 1]); }
  }

  /** Fields that do not name a type leave the type alone. */
  lemma {:induction false} NoType(fs: Fields, held: string)
    requires Untyped(fs)
    ensures TypeOf(fs, held) == Some(held)
    decreases fs
  {
    if fs.Field? { NoType(fs.rest, held); }
  }

  predicate Untyped(fs: Fields) { fs.Field? ==> !NamesType(fs.key) && Untyped(fs.rest) }

  /** The cases of the key that are read as the type. */
  lemma TypeKeys()
    ensures NamesType("type") && NamesType("Type") && NamesType("TYPE") && !NamesType("types") && !NamesType("typo")
  {}

  // ---------------------------------------------------------------- size of the content

  const MaxContent: nat := 8192

  /** The text behind the first `n` lexemes. */
  function TextBehind(t: string, n: nat): string
    decreases |t|
  {
    if n == 0 || t == "" then t
    else if IsSpace(t[0]) then TextBehind(t[1..], n)
    else
      var x := NextLexeme(t);
      if x.None? then t else TextBehind(x.value.rest, n - 1)
  }

  function SkipSpaces(t: string): string { if t != "" && IsSpace(t[0]) then SkipSpaces(t[1..]) else t }

  /** The number of lexemes in front of the value of a field, in an object with these fields. */
  function LexemesBefore(fs: Fields, key: string): nat
    requires Lookup(fs, key).Some?
  {
    if fs.key == key then 3 else FieldSize(fs) + LexemesBefore(fs.rest, key)
  }

  function FieldSize(fs: Fields): nat
    requires fs.Field?
  {
    3 + |ValueLexemes(fs.value, [])|
  }

  /** The characters of the content in the text itself, from its first lexeme to its last. */
  function ContentSize(raw: string, fs: Fields): int
    requires Lookup(fs, "content").Some?
  {
    var n := LexemesBefore(fs, "content");
    |SkipSpaces(TextBehind(raw, n))| - |TextBehind(raw, n + |ValueLexemes(Lookup(fs, "content").value, [])|)|
  }

  lemma {:induction false} BehindLexemes(t: string, n: nat)
    requires n <= |Lexemes(t).ls|
    ensures Lexemes(TextBehind(t, n)) == Source(Lexemes(t).ls[n..], Lexemes(t).bad)
    ensures Lexemes(SkipSpaces(TextBehind(t, n))) == Lexemes(TextBehind(t, n))
    decreases |t|
  {
    if n == 0 || t == "" {
      SpacesSkipped(t);
    } else if IsSpace(t[0]) {
      BehindLexemes(t[1..], n);
    } else if NextLexeme(t).Some? {
      BehindLexemes(NextLexeme(t).value.rest, n - 1);
    }
  }

  lemma {:induction false} SpacesSkipped(t: string)
    ensures Lexemes(SkipSpaces(t)) == Lexemes(t)
    decreases |t|
  {
    if t != "" && IsSpace(t[0]) { SpacesSkipped(t[1..]); }
  }

  /** The text that is measured begins where the lexemes of the content begin, and ends where they end. */
  lemma ContentSpan(raw: string, fs: Fields) returns (k: seq<Lexeme>)
    requires ParseText(raw) == Some(Obj(fs)) && Lookup(fs, "content").Some?
    ensures var n, v := LexemesBefore(fs, "content"), Lookup(fs, "content").value;
      && Lexemes(SkipSpaces(TextBehind(raw, n))) == Source(ValueLexemes(v, k), false)
      && Lexemes(TextBehind(raw, n + |ValueLexemes(v, [])|)) == Source(k, false)
  {
    k := ValueListed(raw, fs, "content");
    ValueSpan(raw, LexemesBefore(fs, "content"), Lookup(fs, "content").value, k);
  }

  lemma ValueListed(raw: string, fs: Fields, key: string) returns (k: seq<Lexeme>)
    requires ParseText(raw) == Some(Obj(fs)) && Lookup(fs, key).Some?
    ensures LexemesBefore(fs, key) <= |Lexemes(raw).ls|
    ensures Lexemes(raw).ls[LexemesBefore(fs, key)..] == ValueLexemes(Lookup(fs, key).value, k)
  {
    TokenStream.ParsedListing(Lexemes(raw).ls);
    var inner := FieldLexemes(fs, [RBrace] + []);
    k := ListedAt(fs, key, [RBrace] + []);
    assert ([LBrace] + inner)[LexemesBefore(fs, key)..] == inner[LexemesBefore(fs, key) - 1..];
  }

  lemma DropTwice(ls: seq<Lexeme>, n: nat, a: seq<Lexeme>, k: seq<Lexeme>)
    requires n <= |ls| && ls[n..] == a + k
    ensures n + |a| <= |ls| && ls[n + |a|..] == k
  {
    assert |ls| == n + |a| + |k|;
    assert ls[n + |a|..] == ls[n..][|a|..];
  }

  lemma ValueSpan(t: string, n: nat, v: Json, k: seq<Lexeme>)
    requires n <= |Lexemes(t).ls| && Lexemes(t).ls[n..] == ValueLexemes(v, k)
    ensures Lexemes(SkipSpaces(TextBehind(t, n))) == Source(ValueLexemes(v, k), Lexemes(t).bad)
    ensures Lexemes(TextBehind(t, n + |ValueLexemes(v, [])|)) == Source(k, Lexemes(t).bad)
  {
    var ls, m := Lexemes(t).ls, |ValueLexemes(v, [])|;
    TokenStream.ListingAppends(v, k);
    DropTwice(ls, n, ValueLexemes(v, []), k);
    BehindLexemes(t, n);
    BehindLexemes(t, n + m);
  }

  lemma {:induction false} ListedAt(fs: Fields, key: string, m: seq<Lexeme>) returns (k: seq<Lexeme>)
    requires Lookup(fs, key).Some?
    ensures 3 <= LexemesBefore(fs, key) <= |FieldLexemes(fs, m)|
    ensures FieldLexemes(fs, m)[LexemesBefore(fs, key) - 1..] == ValueLexemes(Lookup(fs, key).value, k)
    decreases fs
  {
    var tail := (if fs.rest.NoFields? then [] else [Comma]) + FieldLexemes(fs.rest, m);
    FirstLexeme(fs.value, tail);
    if fs.key == key {
      k := tail;
      assert FieldLexemes(fs, m)[2..] == ValueLexemes(fs.value, tail);
    } else {
      k := ListedAt(fs.rest, key, m);
      var n := LexemesBefore(fs.rest, key);
      TokenStream.ListingAppends(fs.value, tail);
      var v := ValueLexemes(fs.value, []);
      assert FieldLexemes(fs, m) == ([LStr(fs.key), Colon] + v + [Comma]) + FieldLexemes(fs.rest, m);
      assert FieldLexemes(fs, m)[FieldSize(fs) + n - 1..] == FieldLexemes(fs.rest, m)[n - 1..];
    }
  }

  // ---------------------------------------------------------------- decoding the fields

  /** What lies outside the text: keys of feed references, message references, and numbers a float can hold. */
  datatype Reader = Reader(feedKey: string -> Option<bytes>, isMessage: string -> bool, isFloat: string -> bool)

  predicate PreviousFits(rd: Reader, v: Option<Json>) {
    v.Some? && (v.value.Null? || (v.value.Str? && rd.isMessage(v.value.s)))
  }

  predicate SequenceFits(v: Option<Json>) {
    v.Some? && (v.value.Null? || (v.value.Num? && Decimal.ParseInt(v.value.text).Some?))
  }

  predicate TimestampFits(rd: Reader, v: Option<Json>) {
    v.Some? && (v.value.Null? || (v.value.Num? && rd.isFloat(v.value.text)))
  }

  /** The key of the author, if all fields decode and the hash is the one that is used. */
  function AuthorKey(rd: Reader, fs: Fields): Option<bytes> {
    var author := Lookup(fs, "author");
    if && PreviousFits(rd, Lookup(fs, "previous")) && SequenceFits(Lookup(fs, "sequence"))
       && TimestampFits(rd, Lookup(fs, "timestamp")) && Lookup(fs, "hash") == Some(Str("sha256"))
       && author.Some? && author.value.Str?
    then rd.feedKey(author.value.s)
    else None
  }

  /** The content is small enough and of a known kind. */
  predicate ContentFits(raw: string, fs: Fields) {
    var content := Lookup(fs, "content");
    content.Some? && ContentSize(raw, fs) <= MaxContent && WellTyped(content.value)
  }
}
