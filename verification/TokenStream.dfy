/**
 What the printer shows for any text, document or not: the token reader hands
 out lexemes until the text ends or holds something that is no lexeme, and the
 printer stops without complaint where the text ends or where the outermost
 object is closed.
 */
module TokenStream {
  import opened Basics
  import opened JsonText
  import opened LegacyPrinter

  // ---------------------------------------------------------------- the source

  function Rest(s: Source, n: nat): Source
    requires n <= |s.ls|
  {
    s.(ls := s.ls[n..])
  }

  predicate Closes(x: Lexeme) { x == RBrace || x == RBrack }

  /** Something follows that closes no container; the reader looks no further than the next character. */
  predicate More(s: Source) { if s.ls == [] then s.bad else !Closes(s.ls[0]) }

  // ---------------------------------------------------------------- what is shown

  /** `Closed`: up to the closing bracket.  `Ended`: the text ended before it.  `Wrong`: the reader failed. */
  datatype Status = Closed | Ended | Wrong

  datatype Shown = Shown(status: Status, text: string, keys: seq<string>, rest: Source)

  function Stop(s: Source): Shown { Shown(if s.bad then Wrong else Ended, "", [], s) }

  function Failure(s: Source): Shown { Shown(Wrong, "", [], s) }

  function With(text: string, keys: seq<string>, r: Shown): Shown { r.(text := text + r.text, keys := keys + r.keys) }

  /** The end of an entry: a comma if there is more, and a line break. */
  function EndOf(s: Source): string { Separator(!More(s)) }

  function CloseText(d: nat, bracket: string, s: Source): string
    requires d >= 1
  {
    Indent(d - 1) + (bracket + EndOf(s))
  }

  function TopKey(key: string, d: nat): seq<string> { if d == 1 then [key] else [] }

  function KeyText(pr: char -> bool, key: string, d: nat): string { Indent(d) + (Quoted(pr, key) + ": ") }

  /** Inside a container: at its start, behind an element, or (objects) behind a key. */
  datatype Place = AtStart | AtComma | AtColon

  function ShowObject(pr: char -> bool, at: Place, s: Source, d: nat): (r: Shown)
    requires d >= 1
    ensures |r.rest.ls| <= |s.ls|
    ensures r.status.Ended? ==> r.rest == Source([], false)
    decreases |s.ls|, 1
  {
    if s.ls == [] then Stop(s)
    else if at.AtColon? then
      if s.ls[0] != Colon then Failure(s)
      else if |s.ls| == 1 then Stop(Rest(s, 1))
      else
        var v := ShowValue(pr, Rest(s, 1), d);
        if v.status.Closed? then With(v.text, v.keys, ShowObject(pr, AtComma, v.rest, d)) else v
    else if s.ls[0] == RBrace then Shown(Closed, CloseText(d, "}", Rest(s, 1)), [], Rest(s, 1))
    else if at.AtStart? then ShowKey(pr, s, d)
    else if s.ls[0] != Comma then Failure(s)
    else if |s.ls| == 1 then Stop(Rest(s, 1))
    else ShowKey(pr, Rest(s, 1), d)
  }

  function ShowKey(pr: char -> bool, s: Source, d: nat): (r: Shown)
    requires d >= 1 && s.ls != []
    ensures |r.rest.ls| <= |s.ls|
    ensures r.status.Ended? ==> r.rest == Source([], false)
    decreases |s.ls|, 0
  {
    if s.ls[0].LStr?
    then With(KeyText(pr, s.ls[0].s, d), TopKey(s.ls[0].s, d), ShowObject(pr, AtColon, Rest(s, 1), d))
    else Failure(s)
  }

  /** A value in object position. */
  function ShowValue(pr: char -> bool, s: Source, d: nat): (r: Shown)
    requires d >= 1 && s.ls != []
    ensures |r.rest.ls| <= |s.ls| && (r.status.Closed? ==> |r.rest.ls| < |s.ls|)
    ensures r.status.Ended? ==> r.rest == Source([], false)
    decreases |s.ls|, 0
  {
    var r := Rest(s, 1);
    match s.ls[0]
    case LStr(x) => Shown(Closed, ValueString(x) + EndOf(r), [], r)
    case LWord(x) => Shown(Closed, x + EndOf(r), [], r)
    case LBrace => With(if More(r) then "{\n" else "{", [], ShowObject(pr, AtStart, r, if More(r) then d + 1 else 1))
    case LBrack => With(if More(r) then "[\n" else "[", [], ShowArray(pr, AtStart, r, if More(r) then d + 1 else 1))
    case _ => Failure(s)
  }

  function ShowArray(pr: char -> bool, at: Place, s: Source, d: nat): (r: Shown)
    requires d >= 1 && !at.AtColon?
    ensures |r.rest.ls| <= |s.ls|
    ensures r.status.Ended? ==> r.rest == Source([], false)
    decreases |s.ls|, 1
  {
    if s.ls == [] then Stop(s)
    else if s.ls[0] == RBrack then Shown(Closed, CloseText(d, "]", Rest(s, 1)), [], Rest(s, 1))
    else if at.AtStart? then ShowItems(pr, s, d)
    else if s.ls[0] != Comma then Failure(s)
    else if |s.ls| == 1 then Stop(Rest(s, 1))
    else ShowItems(pr, Rest(s, 1), d)
  }

  function ShowItems(pr: char -> bool, s: Source, d: nat): (r: Shown)
    requires d >= 1 && s.ls != []
    ensures |r.rest.ls| <= |s.ls|
    ensures r.status.Ended? ==> r.rest == Source([], false)
    decreases |s.ls|, 0
  {
    var v := ShowItem(pr, s, d);
    if v.status.Closed? then With(v.text, v.keys, ShowArray(pr, AtComma, v.rest, d)) else v
  }

  /** A value in array position. */
  function ShowItem(pr: char -> bool, s: Source, d: nat): (r: Shown)
    requires d >= 1 && s.ls != []
    ensures |r.rest.ls| <= |s.ls| && (r.status.Closed? ==> |r.rest.ls| < |s.ls|)
    ensures r.status.Ended? ==> r.rest == Source([], false)
    decreases |s.ls|, 0, 0
  {
    var r := Rest(s, 1);
    match s.ls[0]
    case LStr(x) => Shown(Closed, Indent(d) + (Quoted(pr, x) + EndOf(r)), [], r)
    case LWord(x) => Shown(Closed, Indent(d) + (x + EndOf(r)), [], r)
    case LBrace => With(Indent(d) + "{\n", [], ShowObject(pr, AtStart, r, d + 1))
    case LBrack => With(Indent(d) + "[\n", [], ShowArray(pr, AtStart, r, d + 1))
    case _ => Failure(s)
  }

  // ---------------------------------------------------------------- documents

  /** What follows a value inside an object: the remaining fields behind a comma, and the closing brace. */
  function FieldsTail(fs: Fields, k: seq<Lexeme>): seq<Lexeme> {
    (if fs.NoFields? then [] else [Comma]) + FieldLexemes(fs, [RBrace] + k)
  }

  function ItemsTail(xs: Items, k: seq<Lexeme>): seq<Lexeme> {
    (if xs.NoItems? then [] else [Comma]) + ItemLexemes(xs, [RBrack] + k)
  }

  function TopKeys(fs: Fields, d: nat): seq<string> { if d == 1 then Keys(fs) else [] }

  lemma RestIs(x: Lexeme, ls: seq<Lexeme>, bad: bool)
    ensures Rest(Source([x] + ls, bad), 1) == Source(ls, bad)
  {}

  /** The whole value, whatever follows. */
  lemma {:induction false} ShowsValue(pr: char -> bool, v: Json, k: seq<Lexeme>, bad: bool, d: nat)
    requires d >= 1
    ensures ShowValue(pr, Source(ValueLexemes(v, k), bad), d)
      == Shown(Closed, ValueText(pr, v, d, EndOf(Source(k, bad))), [], Source(k, bad))
    decreases v, 2
  {
    match v
    case Obj(fs) => ShowsNested(pr, fs, k, bad, d);
    case Arr(xs) => ShowsNestedArray(pr, xs, k, bad, d);
    case Str(x) => RestIs(LStr(x), k, bad);
    case _ => RestIs(LWord(WordText(v)), k, bad);
  }

  lemma {:induction false} ShowsNested(pr: char -> bool, fs: Fields, k: seq<Lexeme>, bad: bool, d: nat)
    requires d >= 1
    ensures ShowValue(pr, Source(ValueLexemes(Obj(fs), k), bad), d)
      == Shown(Closed, ValueText(pr, Obj(fs), d, EndOf(Source(k, bad))), [], Source(k, bad))
    decreases fs, 3
  {
    var ls := FieldLexemes(fs, [RBrace] + k);
    RestIs(LBrace, ls, bad);
    if fs.NoFields? {
      ShowsEmptyObject(pr, k, bad, d);
    } else {
      assert ls[0] == LStr(fs.key);
      ObjectOpens(pr, ls, bad, d);
      ShowsObject(pr, fs, k, bad, d + 1);
      NonEmptyObject(pr, fs, d, EndOf(Source(k, bad)));
    }
  }

  lemma ObjectOpens(pr: char -> bool, ls: seq<Lexeme>, bad: bool, d: nat)
    requires d >= 1 && More(Source(ls, bad))
    ensures ShowValue(pr, Source([LBrace] + ls, bad), d)
      == With("{\n", [], ShowObject(pr, AtStart, Source(ls, bad), d + 1))
  {
    RestIs(LBrace, ls, bad);
  }

  lemma NonEmptyObject(pr: char -> bool, fs: Fields, d: nat, z: string)
    requires fs.Field?
    ensures ValueText(pr, Obj(fs), d, z) == "{\n" + FieldsText(pr, fs, d + 1, Indent(d) + ("}" + z))
  {}

  lemma ShowsEmptyObject(pr: char -> bool, k: seq<Lexeme>, bad: bool, d: nat)
    requires d >= 1
    ensures ShowValue(pr, Source([LBrace] + ([RBrace] + k), bad), d)
      == Shown(Closed, "{}" + EndOf(Source(k, bad)), [], Source(k, bad))
  {
    RestIs(LBrace, [RBrace] + k, bad);
    RestIs(RBrace, k, bad);
    assert "{" + (Indent(0) + ("}" + EndOf(Source(k, bad)))) == "{}" + EndOf(Source(k, bad));
  }

  lemma {:induction false} ShowsObject(pr: char -> bool, fs: Fields, k: seq<Lexeme>, bad: bool, d: nat)
    requires d >= 1
    ensures ShowObject(pr, AtStart, Source(FieldLexemes(fs, [RBrace] + k), bad), d)
      == Shown(Closed, FieldsText(pr, fs, d, CloseText(d, "}", Source(k, bad))), TopKeys(fs, d), Source(k, bad))
    decreases fs, 2
  {
    if fs.NoFields? {
      RestIs(RBrace, k, bad);
    } else {
      ShowsField(pr, fs, k, bad, d);
    }
  }

  lemma {:induction false} ShowsField(pr: char -> bool, fs: Fields, k: seq<Lexeme>, bad: bool, d: nat)
    requires d >= 1 && fs.Field?
    ensures ShowKey(pr, Source(FieldLexemes(fs, [RBrace] + k), bad), d)
      == Shown(Closed, FieldsText(pr, fs, d, CloseText(d, "}", Source(k, bad))), TopKeys(fs, d), Source(k, bad))
    decreases fs, 1
  {
    var ls, end := ValueLexemes(fs.value, FieldsTail(fs.rest, k)), CloseText(d, "}", Source(k, bad));
    FieldListing(fs, k);
    RestIs(LStr(fs.key), [Colon] + ls, bad);
    ShowsColon(pr, fs, k, bad, d);
    KeyedText(pr, fs, d, end);
  }

  lemma FieldListing(fs: Fields, k: seq<Lexeme>)
    requires fs.Field?
    ensures FieldLexemes(fs, [RBrace] + k)
      == [LStr(fs.key)] + ([Colon] + ValueLexemes(fs.value, FieldsTail(fs.rest, k)))
  {}

  lemma {:induction false} ShowsColon(pr: char -> bool, fs: Fields, k: seq<Lexeme>, bad: bool, d: nat)
    requires d >= 1 && fs.Field?
    ensures var s := Source([Colon] + ValueLexemes(fs.value, FieldsTail(fs.rest, k)), bad);
      var end := CloseText(d, "}", Source(k, bad));
      ShowObject(pr, AtColon, s, d)
        == Shown(Closed,
                 ValueText(pr, fs.value, d, Separator(fs.rest.NoFields?)) + FieldsText(pr, fs.rest, d, end),
                 TopKeys(fs.rest, d), Source(k, bad))
    decreases fs, 0
  {
    var tail := FieldsTail(fs.rest, k);
    var ls := ValueLexemes(fs.value, tail);
    RestIs(Colon, ls, bad);
    FirstLexeme(fs.value, tail);
    ShowsValue(pr, fs.value, tail, bad, d);
    ShowsMore(pr, fs.rest, k, bad, d);
    ColonStep(pr, Source([Colon] + ls, bad), d);
    assert EndOf(Source(tail, bad)) == Separator(fs.rest.NoFields?);
  }

  lemma ColonStep(pr: char -> bool, s: Source, d: nat)
    requires d >= 1 && |s.ls| > 1 && s.ls[0] == Colon
    ensures var v := ShowValue(pr, Rest(s, 1), d);
      ShowObject(pr, AtColon, s, d)
        == if v.status.Closed? then With(v.text, v.keys, ShowObject(pr, AtComma, v.rest, d)) else v
  {}

  lemma KeyedText(pr: char -> bool, fs: Fields, d: nat, x: string)
    requires fs.Field?
    ensures KeyText(pr, fs.key, d)
      + (ValueText(pr, fs.value, d, Separator(fs.rest.NoFields?)) + FieldsText(pr, fs.rest, d, x))
      == FieldsText(pr, fs, d, x)
  {
    var sep, more := Separator(fs.rest.NoFields?), FieldsText(pr, fs.rest, d, x);
    ValueAppend(pr, fs.value, d, sep, more);
    var i, q, y := Indent(d), Quoted(pr, fs.key), ValueText(pr, fs.value, d, sep + more);
    assert i + (q + ": ") + y == i + (q + (": " + y));
  }

  lemma {:induction false} ShowsMore(pr: char -> bool, fs: Fields, k: seq<Lexeme>, bad: bool, d: nat)
    requires d >= 1
    ensures ShowObject(pr, AtComma, Source(FieldsTail(fs, k), bad), d)
      == Shown(Closed, FieldsText(pr, fs, d, CloseText(d, "}", Source(k, bad))), TopKeys(fs, d), Source(k, bad))
    decreases fs, 2
  {
    if fs.NoFields? {
      assert FieldsTail(fs, k) == [RBrace] + k;
      RestIs(RBrace, k, bad);
    } else {
      RestIs(Comma, FieldLexemes(fs, [RBrace] + k), bad);
      ShowsField(pr, fs, k, bad, d);
    }
  }

  lemma {:induction false} ShowsNestedArray(pr: char -> bool, xs: Items, k: seq<Lexeme>, bad: bool, d: nat)
    requires d >= 1
    ensures ShowValue(pr, Source(ValueLexemes(Arr(xs), k), bad), d)
      == Shown(Closed, ValueText(pr, Arr(xs), d, EndOf(Source(k, bad))), [], Source(k, bad))
    decreases xs, 2
  {
    var ls := ItemLexemes(xs, [RBrack] + k);
    RestIs(LBrack, ls, bad);
    if xs.NoItems? {
      ShowsEmptyArray(pr, k, bad, d);
    } else {
      ItemsGoOn(xs, k, bad);
      ArrayOpens(pr, ls, bad, d);
      ShowsArray(pr, xs, k, bad, d + 1);
      NonEmptyText(pr, xs, d, EndOf(Source(k, bad)));
    }
  }

  lemma ItemsGoOn(xs: Items, k: seq<Lexeme>, bad: bool)
    requires xs.Item?
    ensures More(Source(ItemLexemes(xs, [RBrack] + k), bad))
  {
    FirstLexeme(xs.value, ItemsTail(xs.rest, k));
  }

  lemma ArrayOpens(pr: char -> bool, ls: seq<Lexeme>, bad: bool, d: nat)
    requires d >= 1 && More(Source(ls, bad))
    ensures ShowValue(pr, Source([LBrack] + ls, bad), d)
      == With("[\n", [], ShowArray(pr, AtStart, Source(ls, bad), d + 1))
  {
    RestIs(LBrack, ls, bad);
  }

  lemma NonEmptyText(pr: char -> bool, xs: Items, d: nat, z: string)
    requires xs.Item?
    ensures ValueText(pr, Arr(xs), d, z) == "[\n" + ItemsText(pr, xs, d + 1, Indent(d) + ("]" + z))
  {}

  lemma ShowsEmptyArray(pr: char -> bool, k: seq<Lexeme>, bad: bool, d: nat)
    requires d >= 1
    ensures ShowValue(pr, Source([LBrack] + ([RBrack] + k), bad), d)
      == Shown(Closed, "[]" + EndOf(Source(k, bad)), [], Source(k, bad))
  {
    RestIs(LBrack, [RBrack] + k, bad);
    RestIs(RBrack, k, bad);
    assert "[" + (Indent(0) + ("]" + EndOf(Source(k, bad)))) == "[]" + EndOf(Source(k, bad));
  }

  lemma {:induction false} ShowsArray(pr: char -> bool, xs: Items, k: seq<Lexeme>, bad: bool, d: nat)
    requires d >= 1
    ensures ShowArray(pr, AtStart, Source(ItemLexemes(xs, [RBrack] + k), bad), d)
      == Shown(Closed, ItemsText(pr, xs, d, CloseText(d, "]", Source(k, bad))), [], Source(k, bad))
    decreases xs, 1
  {
    if xs.NoItems? {
      RestIs(RBrack, k, bad);
    } else {
      FirstLexeme(xs.value, ItemsTail(xs.rest, k));
      ShowsItems(pr, xs, k, bad, d);
    }
  }

  lemma {:induction false} ShowsItems(pr: char -> bool, xs: Items, k: seq<Lexeme>, bad: bool, d: nat)
    requires d >= 1 && xs.Item?
    ensures ItemLexemes(xs, [RBrack] + k) != []
    ensures ShowItems(pr, Source(ItemLexemes(xs, [RBrack] + k), bad), d)
      == Shown(Closed, ItemsText(pr, xs, d, CloseText(d, "]", Source(k, bad))), [], Source(k, bad))
    decreases xs, 0
  {
    var tail, end := ItemsTail(xs.rest, k), CloseText(d, "]", Source(k, bad));
    FirstLexeme(xs.value, tail);
    ShowsItem(pr, xs.value, tail, bad, d);
    ShowsMoreItems(pr, xs.rest, k, bad, d);
    assert EndOf(Source(tail, bad)) == Separator(xs.rest.NoItems?);
    ItemedText(pr, xs, d, end);
  }

  lemma ItemedText(pr: char -> bool, xs: Items, d: nat, x: string)
    requires xs.Item?
    ensures Indent(d) + ItemText(pr, xs.value, d, Separator(xs.rest.NoItems?)) + ItemsText(pr, xs.rest, d, x)
      == ItemsText(pr, xs, d, x)
  {
    var sep, more := Separator(xs.rest.NoItems?), ItemsText(pr, xs.rest, d, x);
    ItemAppend(pr, xs.value, d, sep, more);
    Assoc(Indent(d), ItemText(pr, xs.value, d, sep), more);
  }

  lemma {:induction false} ShowsMoreItems(pr: char -> bool, xs: Items, k: seq<Lexeme>, bad: bool, d: nat)
    requires d >= 1
    ensures ShowArray(pr, AtComma, Source(ItemsTail(xs, k), bad), d)
      == Shown(Closed, ItemsText(pr, xs, d, CloseText(d, "]", Source(k, bad))), [], Source(k, bad))
    decreases xs, 1
  {
    if xs.NoItems? {
      assert ItemsTail(xs, k) == [RBrack] + k;
      RestIs(RBrack, k, bad);
    } else {
      RestIs(Comma, ItemLexemes(xs, [RBrack] + k), bad);
      ShowsItems(pr, xs, k, bad, d);
    }
  }

  lemma {:induction false} ShowsItem(pr: char -> bool, v: Json, k: seq<Lexeme>, bad: bool, d: nat)
    requires d >= 1
    ensures ShowItem(pr, Source(ValueLexemes(v, k), bad), d)
      == Shown(Closed, Indent(d) + ItemText(pr, v, d, EndOf(Source(k, bad))), [], Source(k, bad))
    decreases v, 2
  {
    match v
    case Obj(fs) => ShowsItemObject(pr, fs, k, bad, d);
    case Arr(xs) => ShowsItemArray(pr, xs, k, bad, d);
    case Str(x) => RestIs(LStr(x), k, bad);
    case _ => RestIs(LWord(WordText(v)), k, bad);
  }

  lemma {:induction false} ShowsItemObject(pr: char -> bool, fs: Fields, k: seq<Lexeme>, bad: bool, d: nat)
    requires d >= 1
    ensures ShowItem(pr, Source(ValueLexemes(Obj(fs), k), bad), d)
      == Shown(Closed, Indent(d) + ItemText(pr, Obj(fs), d, EndOf(Source(k, bad))), [], Source(k, bad))
    decreases fs, 3
  {
    RestIs(LBrace, FieldLexemes(fs, [RBrace] + k), bad);
    ShowsObject(pr, fs, k, bad, d + 1);
    Assoc(Indent(d), "{\n", FieldsText(pr, fs, d + 1, CloseText(d + 1, "}", Source(k, bad))));
  }

  lemma {:induction false} ShowsItemArray(pr: char -> bool, xs: Items, k: seq<Lexeme>, bad: bool, d: nat)
    requires d >= 1
    ensures ShowItem(pr, Source(ValueLexemes(Arr(xs), k), bad), d)
      == Shown(Closed, Indent(d) + ItemText(pr, Arr(xs), d, EndOf(Source(k, bad))), [], Source(k, bad))
    decreases xs, 3
  {
    RestIs(LBrack, ItemLexemes(xs, [RBrack] + k), bad);
    ShowsArray(pr, xs, k, bad, d + 1);
    Assoc(Indent(d), "[\n", ItemsText(pr, xs, d + 1, CloseText(d + 1, "]", Source(k, bad))));
  }

  // ---------------------------------------------------------------- which texts are accepted

  /** How reading ends, without the text. */
  datatype Ending = Ending(status: Status, rest: Source)

  function ScanEnd(s: Source): Ending { Ending(if s.bad then Wrong else Ended, s) }

  function ScanObject(at: Place, s: Source): (r: Ending)
    ensures |r.rest.ls| <= |s.ls|
    decreases |s.ls|, 1
  {
    if s.ls == [] then ScanEnd(s)
    else if at.AtColon? then
      if s.ls[0] != Colon then Ending(Wrong, s)
      else if |s.ls| == 1 then ScanEnd(Rest(s, 1))
      else
        var v := ScanValue(Rest(s, 1));
        if v.status.Closed? then ScanObject(AtComma, v.rest) else v
    else if s.ls[0] == RBrace then Ending(Closed, Rest(s, 1))
    else if at.AtStart? then ScanKey(s)
    else if s.ls[0] != Comma then Ending(Wrong, s)
    else if |s.ls| == 1 then ScanEnd(Rest(s, 1))
    else ScanKey(Rest(s, 1))
  }

  function ScanKey(s: Source): (r: Ending)
    requires s.ls != []
    ensures |r.rest.ls| <= |s.ls|
    decreases |s.ls|, 0
  {
    if s.ls[0].LStr? then ScanObject(AtColon, Rest(s, 1)) else Ending(Wrong, s)
  }

  function ScanValue(s: Source): (r: Ending)
    requires s.ls != []
    ensures |r.rest.ls| <= |s.ls| && (r.status.Closed? ==> |r.rest.ls| < |s.ls|)
    decreases |s.ls|, 0
  {
    var r := Rest(s, 1);
    match s.ls[0]
    case LStr(_) => Ending(Closed, r)
    case LWord(_) => Ending(Closed, r)
    case LBrace => ScanObject(AtStart, r)
    case LBrack => ScanArray(AtStart, r)
    case _ => Ending(Wrong, s)
  }

  function ScanArray(at: Place, s: Source): (r: Ending)
    requires !at.AtColon?
    ensures |r.rest.ls| <= |s.ls|
    decreases |s.ls|, 2
  {
    if s.ls == [] then ScanEnd(s)
    else if s.ls[0] == RBrack then Ending(Closed, Rest(s, 1))
    else if at.AtStart? then ScanItems(s)
    else if s.ls[0] != Comma then Ending(Wrong, s)
    else if |s.ls| == 1 then ScanEnd(Rest(s, 1))
    else ScanItems(Rest(s, 1))
  }

  function ScanItems(s: Source): (r: Ending)
    requires s.ls != []
    ensures |r.rest.ls| <= |s.ls|
    decreases |s.ls|, 1
  {
    var v := ScanValue(s);
    if v.status.Closed? then ScanArray(AtComma, v.rest) else v
  }

  predicate Same(a: Shown, b: Ending) { a.status == b.status && a.rest == b.rest }

  lemma {:induction false} ObjectScans(pr: char -> bool, at: Place, s: Source, d: nat)
    requires d >= 1
    ensures Same(ShowObject(pr, at, s, d), ScanObject(at, s))
    decreases |s.ls|, 1
  {
    if s.ls != [] {
      if at.AtColon? {
        if s.ls[0] == Colon && |s.ls| > 1 {
          ValueScans(pr, Rest(s, 1), d);
          var v := ScanValue(Rest(s, 1));
          if v.status.Closed? { ObjectScans(pr, AtComma, v.rest, d); }
        }
      } else if s.ls[0].LStr? && at.AtStart? {
        ObjectScans(pr, AtColon, Rest(s, 1), d);
      } else if s.ls[0] == Comma && at.AtComma? && |s.ls| > 1 && s.ls[1].LStr? {
        ObjectScans(pr, AtColon, Rest(Rest(s, 1), 1), d);
      }
    }
  }

  lemma {:induction false} ValueScans(pr: char -> bool, s: Source, d: nat)
    requires d >= 1 && s.ls != []
    ensures Same(ShowValue(pr, s, d), ScanValue(s)) && Same(ShowItem(pr, s, d), ScanValue(s))
    decreases |s.ls|, 0
  {
    var r := Rest(s, 1);
    var inner := if More(r) then d + 1 else 1;
    if s.ls[0] == LBrace {
      ObjectScans(pr, AtStart, r, inner);
      ObjectScans(pr, AtStart, r, d + 1);
    } else if s.ls[0] == LBrack {
      ArrayScans(pr, AtStart, r, inner);
      ArrayScans(pr, AtStart, r, d + 1);
    }
  }

  lemma {:induction false} ArrayScans(pr: char -> bool, at: Place, s: Source, d: nat)
    requires d >= 1 && !at.AtColon?
    ensures Same(ShowArray(pr, at, s, d), ScanArray(at, s))
    decreases |s.ls|, 2
  {
    if s.ls != [] && s.ls[0] != RBrack {
      if at.AtStart? {
        ItemsScans(pr, s, d);
      } else if s.ls[0] == Comma && |s.ls| > 1 {
        ItemsScans(pr, Rest(s, 1), d);
      }
    }
  }

  lemma {:induction false} ItemsScans(pr: char -> bool, s: Source, d: nat)
    requires d >= 1 && s.ls != []
    ensures Same(ShowItems(pr, s, d), ScanItems(s))
    decreases |s.ls|, 1
  {
    ValueScans(pr, s, d);
    var v := ScanValue(s);
    if v.status.Closed? { ArrayScans(pr, AtComma, v.rest, d); }
  }

  /** A prefix, one lexeme after the other. */
  predicate Begins(a: seq<Lexeme>, b: seq<Lexeme>) {
    a == [] || (b != [] && a[0] == b[0] && Begins(a[1..], b[1..]))
  }

  lemma {:induction false} PrefixBegins(a: seq<Lexeme>, b: seq<Lexeme>)
    ensures a <= b <==> Begins(a, b)
  {
    if a != [] && b != [] && a[0] == b[0] {
      PrefixBegins(a[1..], b[1..]);
      assert a == [a[0]] + a[1..] && b == [b[0]] + b[1..];
    }
  }

  lemma BeginsWith(a: seq<Lexeme>, x: Lexeme, rest: seq<Lexeme>)
    requires Begins(a, [x] + rest) && a != []
    ensures a[0] == x && Begins(a[1..], rest)
  {
    assert ([x] + rest)[1..] == rest;
  }

  /**
   Nothing was wrong.  A closed container leaves a prefix of `k`, the `n` lexemes that stand behind it; the text ended
   if it did not reach that far.
   */
  ghost predicate Viable(r: Ending, k: seq<Lexeme>, n: int) {
    && !r.status.Wrong? && !r.rest.bad
    && (r.status.Closed? ==> Begins(r.rest.ls, k) && |r.rest.ls| == n)
    && (r.status.Ended? ==> n < 0)
  }

  lemma {:induction false} ViableValue(v: Json, k: seq<Lexeme>, s: Source)
    requires s.ls != [] && !s.bad && Begins(s.ls, ValueLexemes(v, k))
    ensures Viable(ScanValue(s), k, |s.ls| + |k| - |ValueLexemes(v, k)|)
    decreases v, 2
  {
    match v
    case Obj(fs) =>
      BeginsWith(s.ls, LBrace, FieldLexemes(fs, [RBrace] + k));
      ViableObject(fs, k, Rest(s, 1));
    case Arr(xs) =>
      BeginsWith(s.ls, LBrack, ItemLexemes(xs, [RBrack] + k));
      ViableArray(xs, k, Rest(s, 1));
    case Str(x) => BeginsWith(s.ls, LStr(x), k);
    case _ => BeginsWith(s.ls, LWord(WordText(v)), k);
  }

  lemma {:induction false} ViableObject(fs: Fields, k: seq<Lexeme>, s: Source)
    requires !s.bad && Begins(s.ls, FieldLexemes(fs, [RBrace] + k))
    ensures Viable(ScanObject(AtStart, s), k, |s.ls| + |k| - |FieldLexemes(fs, [RBrace] + k)|)
    decreases fs, 3
  {
    FieldsLonger(fs, k);
    if s.ls != [] {
      if fs.NoFields? {
        BeginsWith(s.ls, RBrace, k);
      } else {
        ViableField(fs, k, s);
      }
    }
  }

  lemma {:induction false} ViableField(fs: Fields, k: seq<Lexeme>, s: Source)
    requires fs.Field? && s.ls != [] && !s.bad && Begins(s.ls, FieldLexemes(fs, [RBrace] + k))
    ensures s.ls[0].LStr? && Viable(ScanKey(s), k, |s.ls| + |k| - |FieldLexemes(fs, [RBrace] + k)|)
    decreases fs, 2
  {
    var ls := ValueLexemes(fs.value, FieldsTail(fs.rest, k));
    assert FieldLexemes(fs, [RBrace] + k) == [LStr(fs.key)] + ([Colon] + ls);
    BeginsWith(s.ls, LStr(fs.key), [Colon] + ls);
    ViableColon(fs, k, Rest(s, 1));
  }

  lemma {:induction false} ViableColon(fs: Fields, k: seq<Lexeme>, s: Source)
    requires fs.Field? && !s.bad && Begins(s.ls, [Colon] + ValueLexemes(fs.value, FieldsTail(fs.rest, k)))
    ensures Viable(ScanObject(AtColon, s), k, |s.ls| + |k| - 1 - |ValueLexemes(fs.value, FieldsTail(fs.rest, k))|)
    decreases fs, 1
  {
    FieldsLonger(fs.rest, k);
    ListingAppends(fs.value, FieldsTail(fs.rest, k));
    if s.ls != [] {
      BeginsWith(s.ls, Colon, ValueLexemes(fs.value, FieldsTail(fs.rest, k)));
      if |s.ls| > 1 {
        ViableValue(fs.value, FieldsTail(fs.rest, k), Rest(s, 1));
        var v := ScanValue(Rest(s, 1));
        if v.status.Closed? { ViableMore(fs.rest, k, v.rest); }
      }
    }
  }

  lemma {:induction false} ViableMore(fs: Fields, k: seq<Lexeme>, s: Source)
    requires !s.bad && Begins(s.ls, FieldsTail(fs, k))
    ensures Viable(ScanObject(AtComma, s), k, |s.ls| + |k| - |FieldsTail(fs, k)|)
    decreases fs, 3
  {
    FieldsLonger(fs, k);
    if s.ls != [] {
      if fs.NoFields? {
        assert FieldsTail(fs, k) == [RBrace] + k;
        BeginsWith(s.ls, RBrace, k);
      } else {
        BeginsWith(s.ls, Comma, FieldLexemes(fs, [RBrace] + k));
        if |s.ls| > 1 { ViableField(fs, k, Rest(s, 1)); }
      }
    }
  }

  lemma {:induction false} ViableArray(xs: Items, k: seq<Lexeme>, s: Source)
    requires !s.bad && Begins(s.ls, ItemLexemes(xs, [RBrack] + k))
    ensures Viable(ScanArray(AtStart, s), k, |s.ls| + |k| - |ItemLexemes(xs, [RBrack] + k)|)
    decreases xs, 3
  {
    ItemsLonger(xs, k);
    if s.ls != [] {
      if xs.NoItems? {
        BeginsWith(s.ls, RBrack, k);
      } else {
        FirstLexeme(xs.value, ItemsTail(xs.rest, k));
        ViableItems(xs, k, s);
      }
    }
  }

  lemma {:induction false} ViableItems(xs: Items, k: seq<Lexeme>, s: Source)
    requires xs.Item? && s.ls != [] && !s.bad && Begins(s.ls, ItemLexemes(xs, [RBrack] + k))
    ensures Viable(ScanItems(s), k, |s.ls| + |k| - |ItemLexemes(xs, [RBrack] + k)|)
    decreases xs, 2
  {
    ItemsLonger(xs.rest, k);
    ViableValue(xs.value, ItemsTail(xs.rest, k), s);
    var v := ScanValue(s);
    if v.status.Closed? { ViableMoreItems(xs.rest, k, v.rest); }
  }

  lemma {:induction false} ViableMoreItems(xs: Items, k: seq<Lexeme>, s: Source)
    requires !s.bad && Begins(s.ls, ItemsTail(xs, k))
    ensures Viable(ScanArray(AtComma, s), k, |s.ls| + |k| - |ItemsTail(xs, k)|)
    decreases xs, 3
  {
    ItemsLonger(xs, k);
    if s.ls != [] {
      if xs.NoItems? {
        assert ItemsTail(xs, k) == [RBrack] + k;
        BeginsWith(s.ls, RBrack, k);
      } else {
        BeginsWith(s.ls, Comma, ItemLexemes(xs, [RBrack] + k));
        if |s.ls| > 1 { ViableItems(xs, k, Rest(s, 1)); }
      }
    }
  }

  lemma Prepended(x: Lexeme, s: Source, ls: seq<Lexeme>)
    requires s.ls != [] && s.ls[0] == x
    ensures s.ls[1..] == ls ==> s.ls == [x] + ls
    ensures Begins(s.ls[1..], ls) ==> Begins(s.ls, [x] + ls)
  {
    assert s.ls == [x] + s.ls[1..] && ([x] + ls)[1..] == ls;
  }

  /** Read in full, `s` is `whole` in front of the rest; if the text ended, it is a prefix of `part`. */
  ghost predicate Explained(r: Ending, s: Source, whole: seq<Lexeme>, part: seq<Lexeme>) {
    && (r.status.Closed? ==> s.ls == whole && r.rest.bad == s.bad)
    && (r.status.Ended? ==> !s.bad && Begins(s.ls, part))
  }

  lemma ExplainedBehind(r: Ending, x: Lexeme, s: Source, whole: seq<Lexeme>, part: seq<Lexeme>)
    requires s.ls != [] && s.ls[0] == x && Explained(r, Rest(s, 1), whole, part)
    ensures Explained(r, s, [x] + whole, [x] + part)
  {
    Prepended(x, s, whole);
    Prepended(x, s, part);
  }

  /** What is accepted can be completed: a value that was read, or begun. */
  lemma {:induction false} RebuildValue(s: Source, k: seq<Lexeme>) returns (v: Json)
    requires s.ls != [] && !ScanValue(s).status.Wrong?
    ensures Explained(ScanValue(s), s, ValueLexemes(v, ScanValue(s).rest.ls), ValueLexemes(v, k))
    decreases |s.ls|, 0
  {
    var r, rest := Rest(s, 1), ScanValue(s).rest.ls;
    match s.ls[0]
    case LStr(x) => v := Str(x); Prepended(LStr(x), s, r.ls);
    case LWord(x) => v := WordValue(x); Prepended(LWord(x), s, r.ls);
    case LBrace =>
      var fs := RebuildObject(AtStart, r, k);
      v := Obj(fs);
      ExplainedBehind(ScanValue(s), LBrace, s, FieldLexemes(fs, [RBrace] + rest), FieldLexemes(fs, [RBrace] + k));
    case LBrack =>
      var xs := RebuildArray(AtStart, r, k);
      v := Arr(xs);
      ExplainedBehind(ScanValue(s), LBrack, s, ItemLexemes(xs, [RBrack] + rest), ItemLexemes(xs, [RBrack] + k));
  }

  /** The lexemes of fields at a place. */
  function FieldsAt(at: Place, fs: Fields, k: seq<Lexeme>): seq<Lexeme> {
    if at.AtStart? then FieldLexemes(fs, [RBrace] + k) else FieldsTail(fs, k)
  }

  function ItemsAt(at: Place, xs: Items, k: seq<Lexeme>): seq<Lexeme> {
    if at.AtStart? then ItemLexemes(xs, [RBrack] + k) else ItemsTail(xs, k)
  }

  lemma {:induction false} RebuildObject(at: Place, s: Source, k: seq<Lexeme>) returns (fs: Fields)
    requires !at.AtColon? && !ScanObject(at, s).status.Wrong?
    ensures Explained(ScanObject(at, s), s, FieldsAt(at, fs, ScanObject(at, s).rest.ls), FieldsAt(at, fs, k))
    decreases |s.ls|, 2
  {
    fs := NoFields;
    if s.ls != [] {
      var rest := ScanObject(at, s).rest.ls;
      if s.ls[0] == RBrace {
        Prepended(RBrace, s, s.ls[1..]);
        assert FieldsTail(NoFields, rest) == [RBrace] + rest;
      } else if at.AtStart? {
        fs := RebuildKey(s, k);
      } else if |s.ls| == 1 {
        fs := Field("", Null, NoFields);
        Prepended(Comma, s, FieldLexemes(fs, [RBrace] + k));
      } else {
        fs := RebuildKey(Rest(s, 1), k);
        ExplainedBehind(ScanKey(Rest(s, 1)), Comma, s, FieldLexemes(fs, [RBrace] + rest),
          FieldLexemes(fs, [RBrace] + k));
      }
    }
  }

  lemma {:induction false} RebuildKey(s: Source, k: seq<Lexeme>) returns (fs: Fields)
    requires s.ls != [] && !ScanKey(s).status.Wrong?
    ensures fs.Field?
    ensures Explained(ScanKey(s), s, FieldLexemes(fs, [RBrace] + ScanKey(s).rest.ls), FieldLexemes(fs, [RBrace] + k))
    decreases |s.ls|, 1
  {
    var r, key, rest := Rest(s, 1), s.ls[0].s, ScanKey(s).rest.ls;
    fs := RebuildColon(r, key, k);
    var a, b := ValueLexemes(fs.value, FieldsTail(fs.rest, rest)), ValueLexemes(fs.value, FieldsTail(fs.rest, k));
    ExplainedBehind(ScanKey(s), LStr(key), s, [Colon] + a, [Colon] + b);
    FieldListing(fs, rest);
    FieldListing(fs, k);
  }

  lemma {:induction false} RebuildColon(s: Source, key: string, k: seq<Lexeme>) returns (fs: Fields)
    requires !ScanObject(AtColon, s).status.Wrong?
    ensures fs.Field? && fs.key == key
    ensures var r := ScanObject(AtColon, s);
      Explained(r, s, [Colon] + ValueLexemes(fs.value, FieldsTail(fs.rest, r.rest.ls)),
                [Colon] + ValueLexemes(fs.value, FieldsTail(fs.rest, k)))
    decreases |s.ls|, 2
  {
    fs := Field(key, Null, NoFields);
    if |s.ls| == 1 {
      Prepended(Colon, s, ValueLexemes(fs.value, FieldsTail(fs.rest, k)));
    } else if |s.ls| > 1 {
      var s1 := Rest(s, 1);
      var v := RebuildValue(s1, FieldsTail(NoFields, k));
      var r := ScanValue(s1);
      var more := NoFields;
      if r.status.Closed? {
        more := RebuildObject(AtComma, r.rest, k);
        var e := ScanObject(AtComma, r.rest);
        if e.status.Ended? { BeginsInside(v, r.rest.ls, FieldsTail(more, k)); }
      }
      fs := Field(key, v, more);
      var e := ScanObject(AtColon, s);
      ExplainedBehind(e, Colon, s, ValueLexemes(v, FieldsTail(more, e.rest.ls)), ValueLexemes(v, FieldsTail(more, k)));
    }
  }

  /** A listing grows with what stands behind it. */
  lemma {:induction false} BeginsInside(v: Json, a: seq<Lexeme>, b: seq<Lexeme>)
    requires Begins(a, b)
    ensures Begins(ValueLexemes(v, a), ValueLexemes(v, b))
  {
    PrefixBegins(a, b);
    ListingAppends(v, a);
    ListingAppends(v, b);
    PrefixBegins(ValueLexemes(v, a), ValueLexemes(v, b));
  }

  lemma {:induction false} ListingAppends(v: Json, k: seq<Lexeme>)
    ensures ValueLexemes(v, k) == ValueLexemes(v, []) + k
    decreases v, 1
  {
    match v
    case Obj(fs) =>
      FieldsAppends(fs, [RBrace], k);
      assert [RBrace] + [] == [RBrace];
    case Arr(xs) =>
      ItemsAppends(xs, [RBrack], k);
      assert [RBrack] + [] == [RBrack];
    case _ =>
  }

  lemma {:induction false} FieldsAppends(fs: Fields, m: seq<Lexeme>, k: seq<Lexeme>)
    ensures FieldLexemes(fs, m + k) == FieldLexemes(fs, m) + k
    decreases fs, 0
  {
    if fs.Field? {
      var comma := if fs.rest.NoFields? then [] else [Comma];
      FieldsAppends(fs.rest, m, k);
      var t := comma + FieldLexemes(fs.rest, m);
      assert comma + FieldLexemes(fs.rest, m + k) == t + k;
      ListingAppends(fs.value, t);
      ListingAppends(fs.value, t + k);
    }
  }

  lemma {:induction false} ItemsAppends(xs: Items, m: seq<Lexeme>, k: seq<Lexeme>)
    ensures ItemLexemes(xs, m + k) == ItemLexemes(xs, m) + k
    decreases xs, 0
  {
    if xs.Item? {
      var comma := if xs.rest.NoItems? then [] else [Comma];
      ItemsAppends(xs.rest, m, k);
      var t := comma + ItemLexemes(xs.rest, m);
      assert comma + ItemLexemes(xs.rest, m + k) == t + k;
      ListingAppends(xs.value, t);
      ListingAppends(xs.value, t + k);
    }
  }

  lemma FieldsLonger(fs: Fields, k: seq<Lexeme>)
    ensures |FieldLexemes(fs, [RBrace] + k)| > |k| && |FieldsTail(fs, k)| > |k|
  {
    FieldsAppends(fs, [], [RBrace] + k);
    assert [] + ([RBrace] + k) == [RBrace] + k;
  }

  lemma ItemsLonger(xs: Items, k: seq<Lexeme>)
    ensures |ItemLexemes(xs, [RBrack] + k)| > |k| && |ItemsTail(xs, k)| > |k|
  {
    ItemsAppends(xs, [], [RBrack] + k);
    assert [] + ([RBrack] + k) == [RBrack] + k;
  }

  lemma {:induction false} RebuildArray(at: Place, s: Source, k: seq<Lexeme>) returns (xs: Items)
    requires !at.AtColon? && !ScanArray(at, s).status.Wrong?
    ensures Explained(ScanArray(at, s), s, ItemsAt(at, xs, ScanArray(at, s).rest.ls), ItemsAt(at, xs, k))
    decreases |s.ls|, 2
  {
    xs := NoItems;
    if s.ls != [] {
      var rest := ScanArray(at, s).rest.ls;
      if s.ls[0] == RBrack {
        Prepended(RBrack, s, s.ls[1..]);
        assert ItemsTail(NoItems, rest) == [RBrack] + rest;
      } else if at.AtStart? {
        xs := RebuildItems(s, k);
      } else if |s.ls| == 1 {
        xs := Item(Null, NoItems);
        Prepended(Comma, s, ItemLexemes(xs, [RBrack] + k));
      } else {
        xs := RebuildItems(Rest(s, 1), k);
        ExplainedBehind(ScanItems(Rest(s, 1)), Comma, s, ItemLexemes(xs, [RBrack] + rest),
          ItemLexemes(xs, [RBrack] + k));
      }
    }
  }

  lemma {:induction false} RebuildItems(s: Source, k: seq<Lexeme>) returns (xs: Items)
    requires s.ls != [] && !ScanItems(s).status.Wrong?
    ensures xs.Item?
    ensures Explained(ScanItems(s), s, ItemLexemes(xs, [RBrack] + ScanItems(s).rest.ls), ItemLexemes(xs, [RBrack] + k))
    decreases |s.ls|, 1
  {
    var v := RebuildValue(s, ItemsTail(NoItems, k));
    var r := ScanValue(s);
    var more := NoItems;
    if r.status.Closed? {
      more := RebuildArray(AtComma, r.rest, k);
      var e := ScanArray(AtComma, r.rest);
      if e.status.Ended? { BeginsInside(v, r.rest.ls, ItemsTail(more, k)); }
    }
    xs := Item(v, more);
  }

  // ---------------------------------------------------------------- the parser lists what it reads

  /** The parser's result lists exactly the lexemes it took. */
  lemma {:induction false} ParsedListing(ls: seq<Lexeme>)
    requires ParseValue(ls).Some?
    ensures ls == ValueLexemes(ParseValue(ls).value.value, ParseValue(ls).value.rest)
    decreases |ls|, 1
  {
    assert ls == [ls[0]] + ls[1..];
    if ls[0] == LBrace {
      if |ls| > 1 && ls[1] == RBrace {
        assert ls[1..] == [RBrace] + ls[2..];
      } else {
        ParsedFields(ls[1..]);
      }
    } else if ls[0] == LBrack {
      if |ls| > 1 && ls[1] == RBrack {
        assert ls[1..] == [RBrack] + ls[2..];
      } else {
        ParsedItems(ls[1..]);
      }
    }
  }

  lemma {:induction false} ParsedFields(ls: seq<Lexeme>)
    requires ParseFields(ls).Some?
    ensures var p := ParseFields(ls).value; p.value.Field? && ls == FieldLexemes(p.value, [RBrace] + p.rest)
    decreases |ls|, 0
  {
    var v := ParseValue(ls[2..]).value;
    ParsedListing(ls[2..]);
    assert ls == [ls[0], Colon] + ls[2..];
    if v.rest[0] == RBrace {
      assert v.rest == [] + ([RBrace] + v.rest[1..]);
    } else {
      ParsedFields(v.rest[1..]);
      assert v.rest == [Comma] + v.rest[1..];
    }
  }

  lemma {:induction false} ParsedItems(ls: seq<Lexeme>)
    requires ParseItems(ls).Some?
    ensures var p := ParseItems(ls).value; p.value.Item? && ls == ItemLexemes(p.value, [RBrack] + p.rest)
    decreases |ls|, 2
  {
    var v := ParseValue(ls).value;
    ParsedListing(ls);
    if v.rest[0] == RBrack {
      assert v.rest == [] + ([RBrack] + v.rest[1..]);
    } else {
      ParsedItems(v.rest[1..]);
      assert v.rest == [Comma] + v.rest[1..];
    }
  }

  // ---------------------------------------------------------------- which keys are recorded

  /** The keys among the first `m` lexemes of the fields. */
  function KeysWithin(fs: Fields, m: int): seq<string> {
    if fs.NoFields? || m <= 0 then []
    else [fs.key] + KeysWithin(fs.rest, m - (|FieldLexemes(fs, [])| - |FieldLexemes(fs.rest, [])|))
  }

  /** Keys of nested objects are not recorded. */
  lemma {:induction false} NoKeysInValue(pr: char -> bool, s: Source, d: nat)
    requires d >= 1 && s.ls != []
    ensures ShowValue(pr, s, d).keys == [] && ShowItem(pr, s, d).keys == []
    decreases |s.ls|, 0
  {
    var r := Rest(s, 1);
    var inner := if More(r) then d + 1 else 1;
    if s.ls[0] == LBrace {
      if More(r) {
        NoKeysInObject(pr, AtStart, r, inner);
      } else {
        assert ShowObject(pr, AtStart, r, 1).keys == [];
      }
      NoKeysInObject(pr, AtStart, r, d + 1);
    } else if s.ls[0] == LBrack {
      NoKeysInArray(pr, AtStart, r, inner);
      NoKeysInArray(pr, AtStart, r, d + 1);
    }
  }

  lemma {:induction false} NoKeysInObject(pr: char -> bool, at: Place, s: Source, d: nat)
    requires d >= 2
    ensures ShowObject(pr, at, s, d).keys == []
    decreases |s.ls|, 1
  {
    if s.ls != [] {
      if at.AtColon? {
        if s.ls[0] == Colon && |s.ls| > 1 {
          NoKeysInValue(pr, Rest(s, 1), d);
          var v := ShowValue(pr, Rest(s, 1), d);
          if v.status.Closed? { NoKeysInObject(pr, AtComma, v.rest, d); }
        }
      } else if s.ls[0].LStr? && at.AtStart? {
        NoKeysInObject(pr, AtColon, Rest(s, 1), d);
      } else if s.ls[0] == Comma && at.AtComma? && |s.ls| > 1 && s.ls[1].LStr? {
        NoKeysInObject(pr, AtColon, Rest(Rest(s, 1), 1), d);
      }
    }
  }

  lemma {:induction false} NoKeysInArray(pr: char -> bool, at: Place, s: Source, d: nat)
    requires d >= 1 && !at.AtColon?
    ensures ShowArray(pr, at, s, d).keys == []
    decreases |s.ls|, 2
  {
    if s.ls != [] && s.ls[0] != RBrack {
      if at.AtStart? {
        NoKeysInItems(pr, s, d);
      } else if s.ls[0] == Comma && |s.ls| > 1 {
        NoKeysInItems(pr, Rest(s, 1), d);
      }
    }
  }

  lemma {:induction false} NoKeysInItems(pr: char -> bool, s: Source, d: nat)
    requires d >= 1 && s.ls != []
    ensures ShowItems(pr, s, d).keys == []
    decreases |s.ls|, 1
  {
    NoKeysInValue(pr, s, d);
    var v := ShowItem(pr, s, d);
    if v.status.Closed? { NoKeysInArray(pr, AtComma, v.rest, d); }
  }

  /** Of an outermost object that breaks off, exactly the keys that were reached are recorded. */
  lemma {:induction false} KeysReached(pr: char -> bool, fs: Fields, s: Source)
    requires !s.bad && Begins(s.ls, FieldLexemes(fs, [RBrace] + []))
    ensures ShowObject(pr, AtStart, s, 1).keys == KeysWithin(fs, |s.ls|)
    decreases fs, 2
  {
    if s.ls != [] {
      if fs.NoFields? {
        BeginsWith(s.ls, RBrace, []);
      } else {
        KeysOfField(pr, fs, s);
      }
    }
  }

  lemma {:induction false} KeysOfField(pr: char -> bool, fs: Fields, s: Source)
    requires fs.Field? && s.ls != [] && !s.bad && Begins(s.ls, FieldLexemes(fs, [RBrace] + []))
    ensures s.ls[0].LStr? && ShowKey(pr, s, 1).keys == KeysWithin(fs, |s.ls|)
    decreases fs, 1
  {
    var ls := ValueLexemes(fs.value, FieldsTail(fs.rest, []));
    FieldListing(fs, []);
    BeginsWith(s.ls, LStr(fs.key), [Colon] + ls);
    KeysBehind(pr, fs, Rest(s, 1));
  }

  lemma {:induction false} KeysBehind(pr: char -> bool, fs: Fields, s: Source)
    requires fs.Field? && !s.bad && Begins(s.ls, [Colon] + ValueLexemes(fs.value, FieldsTail(fs.rest, [])))
    ensures ShowObject(pr, AtColon, s, 1).keys
      == KeysWithin(fs.rest, |s.ls| + 1 - (|FieldLexemes(fs, [])| - |FieldLexemes(fs.rest, [])|))
    decreases fs, 0
  {
    var tail := FieldsTail(fs.rest, []);
    FieldLength(fs);
    if s.ls != [] {
      BeginsWith(s.ls, Colon, ValueLexemes(fs.value, tail));
      if |s.ls| > 1 {
        var s1 := Rest(s, 1);
        ViableValue(fs.value, tail, s1);
        ValueScans(pr, s1, 1);
        NoKeysInValue(pr, s1, 1);
        ColonStep(pr, s, 1);
        var v := ShowValue(pr, s1, 1);
        if v.status.Closed? { KeysOfMore(pr, fs.rest, v.rest); }
      }
    }
  }

  /** A field takes its key, a colon, its value and, before another one, a comma. */
  lemma FieldLength(fs: Fields)
    requires fs.Field?
    ensures var n := |FieldLexemes(fs, [])| - |FieldLexemes(fs.rest, [])|;
      && n == 2 + |ValueLexemes(fs.value, [])| + (if fs.rest.NoFields? then 0 else 1) && n >= 3
      && |ValueLexemes(fs.value, FieldsTail(fs.rest, []))| == |ValueLexemes(fs.value, [])| + |FieldsTail(fs.rest, [])|
  {
    var comma := if fs.rest.NoFields? then [] else [Comma];
    ListingAppends(fs.value, comma + FieldLexemes(fs.rest, []));
    ListingAppends(fs.value, FieldsTail(fs.rest, []));
    FirstLexeme(fs.value, []);
  }

  lemma {:induction false} KeysOfMore(pr: char -> bool, fs: Fields, s: Source)
    requires !s.bad && Begins(s.ls, FieldsTail(fs, []))
    ensures ShowObject(pr, AtComma, s, 1).keys == KeysWithin(fs, |s.ls| - 1)
    decreases fs, 2
  {
    if s.ls != [] {
      if fs.NoFields? {
        assert FieldsTail(fs, []) == [RBrace] + [];
        BeginsWith(s.ls, RBrace, []);
      } else {
        BeginsWith(s.ls, Comma, FieldLexemes(fs, [RBrace] + []));
        if |s.ls| > 1 { KeysOfField(pr, fs, Rest(s, 1)); }
      }
    }
  }

  // ---------------------------------------------------------------- printed text that quoting spoilt

  lemma RestPut(x: Lexeme, s: Source)
    ensures Rest(Put(x, s), 1) == s
  {}

  lemma WholeScans(v: Json, k: Source)
    ensures ValueLexemes(v, k.ls) != [] && ScanValue(Source(ValueLexemes(v, k.ls), k.bad)) == Ending(Closed, k)
  {
    FirstLexeme(v, k.ls);
    ShowsValue(_ => true, v, k.ls, k.bad, 1);
    ValueScans(_ => true, Source(ValueLexemes(v, k.ls), k.bad), 1);
  }

  /** The listing of a value that is not quote-safe is refused, whatever follows. */
  lemma {:induction false} UnsafeValue(pr: char -> bool, v: Json, k: Source)
    requires !SafeValue(pr, v)
    ensures ListValue(pr, v, k).ls != [] && ScanValue(ListValue(pr, v, k)).status.Wrong?
    decreases v, 1
  {
    match v
    case Obj(fs) =>
      RestPut(LBrace, ListFields(pr, fs, Put(RBrace, k)));
      UnsafeFields(pr, fs, Put(RBrace, k));
    case Arr(xs) =>
      RestPut(LBrack, ListItems(pr, xs, Put(RBrack, k)));
      UnsafeItems(pr, xs, Put(RBrack, k));
  }

  lemma {:induction false} UnsafeFields(pr: char -> bool, fs: Fields, k: Source)
    requires !SafeFields(pr, fs)
    ensures ScanObject(AtStart, ListFields(pr, fs, k)).status.Wrong?
    ensures ScanObject(AtComma, Put(Comma, ListFields(pr, fs, k))).status.Wrong?
    decreases fs, 0
  {
    RestPut(Comma, ListFields(pr, fs, k));
    if QuoteSafe(pr, fs.key) {
      var tail := Behind(fs.rest.NoFields?, ListFields(pr, fs.rest, k));
      var inner := ListValue(pr, fs.value, tail);
      RestPut(LStr(fs.key), Put(Colon, inner));
      RestPut(Colon, inner);
      if SafeValue(pr, fs.value) {
        ListedValue(pr, fs.value, tail);
        WholeScans(fs.value, tail);
        UnsafeFields(pr, fs.rest, k);
      } else {
        UnsafeValue(pr, fs.value, tail);
      }
      assert ScanObject(AtColon, Put(Colon, inner)).status.Wrong?;
    }
  }

  lemma {:induction false} UnsafeItems(pr: char -> bool, xs: Items, k: Source)
    requires !SafeItems(pr, xs)
    ensures ScanArray(AtStart, ListItems(pr, xs, k)).status.Wrong?
    ensures ScanArray(AtComma, Put(Comma, ListItems(pr, xs, k))).status.Wrong?
    decreases xs, 0
  {
    RestPut(Comma, ListItems(pr, xs, k));
    if xs.value.Str? ==> QuoteSafe(pr, xs.value.s) {
      var tail := Behind(xs.rest.NoItems?, ListItems(pr, xs.rest, k));
      if SafeValue(pr, xs.value) {
        ListedValue(pr, xs.value, tail);
        FirstLexeme(xs.value, tail.ls);
        WholeScans(xs.value, tail);
        UnsafeItems(pr, xs.rest, k);
      } else {
        UnsafeValue(pr, xs.value, tail);
      }
    }
  }
}
