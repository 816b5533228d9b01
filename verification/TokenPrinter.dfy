/**
 The printer as the program runs it: a streaming decoder that checks the syntax
 as it goes, and two mutually recursive loops that read its tokens and write to
 a shared buffer; the order check on top-level fields; and the entry point.
 */
module TokenPrinter {
  import opened Basics
  import opened JsonText
  import opened LegacyPrinter
  import opened TokenStream

  // ---------------------------------------------------------------- the decoder

  datatype DecoderState =
    | TopValue
    | ArrayStart | ArrayValue | ArrayComma
    | ObjectStart | ObjectKey | ObjectColon | ObjectValue | ObjectComma

  predicate ValueAllowed(st: DecoderState) {
    st == TopValue || st == ArrayStart || st == ArrayValue || st == ObjectValue
  }

  function ValueEnd(st: DecoderState): DecoderState {
    if st == ArrayStart || st == ArrayValue then ArrayComma else if st == ObjectValue then ObjectComma else st
  }

  datatype Token = Got(x: Lexeme) | Eof | Failed

  /** The decoder: what it has not read, where it is, and where it was when it entered the open containers. */
  datatype Decoder = Decoder(input: Source, state: DecoderState, stack: seq<DecoderState>)

  datatype Taken = Taken(token: Token, dec: Decoder)

  /** The next token; a comma or colon is skipped where it belongs. */
  function Next(dec: Decoder): (r: Taken)
    ensures |r.dec.input.ls| <= |dec.input.ls| && (r.token.Got? ==> |r.dec.input.ls| < |dec.input.ls|)
  {
    Take(Skipped(dec))
  }

  function Skipped(dec: Decoder): Decoder {
    var Decoder(s, st, stack) := dec;
    if s.ls == [] then dec
    else if s.ls[0] == Colon && st == ObjectColon then Decoder(Rest(s, 1), ObjectValue, stack)
    else if s.ls[0] == Comma && st == ArrayComma then Decoder(Rest(s, 1), ArrayValue, stack)
    else if s.ls[0] == Comma && st == ObjectComma then Decoder(Rest(s, 1), ObjectKey, stack)
    else dec
  }

  function Take(dec: Decoder): Taken {
    var Decoder(s, st, stack) := dec;
    if s.ls == [] then Taken(if s.bad then Failed else Eof, dec)
    else
      var x, r := s.ls[0], Rest(s, 1);
      if x.LStr? && (st == ObjectStart || st == ObjectKey) then Taken(Got(x), Decoder(r, ObjectColon, stack))
      else if BeginsValue(x) && ValueAllowed(st) then Taken(Got(x), Entered(s, st, stack))
      else if x == RBrace && (st == ObjectStart || st == ObjectComma) && stack != []
        then Taken(Got(x), Popped(r, stack))
      else if x == RBrack && (st == ArrayStart || st == ArrayComma) && stack != [] then Taken(Got(x), Popped(r, stack))
      else Taken(Failed, dec)
  }

  function Popped(r: Source, stack: seq<DecoderState>): Decoder
    requires stack != []
  {
    Decoder(r, ValueEnd(stack[|stack| - 1]), stack[..|stack| - 1])
  }

  /** A value begins here. */
  predicate BeginsValue(x: Lexeme) { x.LStr? || x.LWord? || x == LBrace || x == LBrack }

  /** The decoder behind the first lexeme of a value that is read in the state `st`. */
  function Entered(s: Source, st: DecoderState, stack: seq<DecoderState>): Decoder
    requires s.ls != []
  {
    var r := Rest(s, 1);
    if s.ls[0] == LBrace then Decoder(r, ObjectStart, stack + [st])
    else if s.ls[0] == LBrack then Decoder(r, ArrayStart, stack + [st])
    else Decoder(r, ValueEnd(st), stack)
  }

  /** Inside an object or an array, as the decoder's state tells. */
  function PlaceOf(st: DecoderState): Place {
    if st == ObjectStart || st == ArrayStart then AtStart else if st == ObjectColon then AtColon else AtComma
  }

  /** An opening bracket in object position: an empty container takes no line break. */
  function OpenText(x: Lexeme, inner: Source): string {
    if x == LBrace then (if More(inner) then "{\n" else "{") else if More(inner) then "[\n" else "["
  }

  /** What is shown behind an opening bracket. */
  function ShowNested(pr: char -> bool, x: Lexeme, inner: Source, d: nat): Shown
    requires d >= 1
  {
    if x == LBrace then ShowObject(pr, AtStart, inner, d) else ShowArray(pr, AtStart, inner, d)
  }

  lemma ValueOpens(pr: char -> bool, s: Source, d: nat)
    requires d >= 1 && s.ls != []
    requires s.ls[0] == LBrace || s.ls[0] == LBrack
    ensures var r := Rest(s, 1);
      ShowValue(pr, s, d) == With(OpenText(s.ls[0], r), [], ShowNested(pr, s.ls[0], r, if More(r) then d + 1 else 1))
  {}

  lemma ItemOpens(pr: char -> bool, s: Source, d: nat)
    requires d >= 1 && s.ls != []
    requires s.ls[0] == LBrace || s.ls[0] == LBrack
    ensures ShowItem(pr, s, d)
      == With(Indent(d) + if s.ls[0] == LBrace then "{\n" else "[\n", [], ShowNested(pr, s.ls[0], Rest(s, 1), d + 1))
  {}

  lemma ScalarItem(pr: char -> bool, s: Source, d: nat)
    requires d >= 1 && s.ls != [] && (s.ls[0].LStr? || s.ls[0].LWord?)
    ensures var r := Rest(s, 1); var word := if s.ls[0].LStr? then Quoted(pr, s.ls[0].s) else s.ls[0].text;
      ShowItem(pr, s, d) == Shown(Closed, Indent(d) + (word + EndOf(r)), [], r)
  {}

  /** With `written` and `fields` so far and `r` still to come, the whole is shown behind `start` and `keys`. */
  ghost predicate Owes(whole: Shown, r: Shown, start: string, keys: seq<string>, written: string, fields: seq<string>) {
    && whole.status == r.status && whole.rest == r.rest
    && (!r.status.Wrong? ==> written + r.text == start + whole.text && fields + r.keys == keys + whole.keys)
  }

  lemma OwesLess(whole: Shown, text: string, ks: seq<string>, r: Shown, start: string, keys: seq<string>,
                 written: string, fields: seq<string>)
    requires Owes(whole, With(text, ks, r), start, keys, written, fields)
    ensures Owes(whole, r, start, keys, written + text, fields + ks)
  {
    Assoc(written, text, r.text);
    assert fields + ks + r.keys == fields + (ks + r.keys);
  }

  lemma OwesNothing(whole: Shown, r: Shown, start: string, keys: seq<string>, written: string, fields: seq<string>)
    requires Owes(whole, r, start, keys, written, fields) && r.status.Ended?
    ensures Owes(whole, Shown(Ended, "", [], r.rest), start, keys, written + r.text, fields + r.keys)
  {
    assert written + r.text + "" == written + r.text && fields + r.keys + [] == fields + r.keys;
  }

  class Printer {
    const printable: char -> bool
    var dec: Decoder
    var buffer: string
    var topLevelFields: seq<string>

    constructor (printable: char -> bool, input: Source)
      ensures this.printable == printable && dec == Decoder(input, TopValue, []) && buffer == "" && topLevelFields == []
    {
      this.printable, dec, buffer, topLevelFields := printable, Decoder(input, TopValue, []), "", [];
    }

    method ReadToken() returns (t: Token)
      modifies this`dec
      ensures Taken(t, dec) == Next(old(dec))
    {
      while true
        invariant Next(dec) == Next(old(dec))
        decreases |dec.input.ls|
      {
        if dec.input.ls != [] {
          var x, r, st := dec.input.ls[0], Rest(dec.input, 1), dec.state;
          if x == Colon && st == ObjectColon {
            dec := Decoder(r, ObjectValue, dec.stack);
            continue;
          } else if x == Comma && st == ArrayComma {
            dec := Decoder(r, ArrayValue, dec.stack);
            continue;
          } else if x == Comma && st == ObjectComma {
            dec := Decoder(r, ObjectKey, dec.stack);
            continue;
          }
        }
        var taken := Take(dec);
        dec := taken.dec;
        return taken.token;
      }
    }

    /** Writes the end of one entry: a comma if the decoder has more, and a line break. */
    method EndEntry()
      modifies this`buffer
      ensures buffer == old(buffer) + EndOf(dec.input)
    {
      if More(dec.input) {
        buffer := buffer + ",";
      }
      buffer := buffer + "\n";
    }

    /** Writes a key; keys of the outermost object are recorded. */
    method WriteKey(depth: nat, key: string)
      modifies this`buffer, this`topLevelFields
      ensures buffer == old(buffer) + KeyText(printable, key, depth)
      ensures topLevelFields == old(topLevelFields) + TopKey(key, depth)
    {
      if depth == 1 {
        topLevelFields := topLevelFields + [key];
      }
      buffer := buffer + (Indent(depth) + (Quoted(printable, key) + ": "));
    }

    method WriteString(s: string)
      modifies this`buffer
      ensures buffer == old(buffer) + ValueString(s)
    {
      var escaped := UnicodeEscapeSome(EscapeWith(ReplaceChar, s));
      TwoPasses(s);
      buffer := buffer + (['"'] + escaped + ['"']);
    }

    /** Closes a container: indentation, bracket, end of entry. */
    method Close(depth: nat, bracket: string)
      requires depth >= 1
      modifies this`buffer
      ensures buffer == old(buffer) + CloseText(depth, bracket, dec.input)
    {
      ghost var before := buffer;
      buffer := buffer + Indent(depth - 1);
      buffer := buffer + bracket;
      EndEntry();
      assert buffer == before + (Indent(depth - 1) + (bracket + EndOf(dec.input)));
    }

    /** A value in object position, whose first token `x` was just taken. */
    method FormatValue(x: Lexeme, depth: nat, ghost s: Source, ghost stack: seq<DecoderState>) returns (ok: bool)
      requires depth >= 1 && s.ls != [] && s.ls[0] == x
      requires BeginsValue(x) && dec == Entered(s, ObjectValue, stack)
      modifies this
      ensures var r := ShowValue(printable, s, depth);
        && (ok <==> !r.status.Wrong?)
        && (ok ==> buffer == old(buffer) + r.text && topLevelFields == old(topLevelFields) + r.keys)
        && (ok ==> dec.input == r.rest)
        && (r.status.Closed? ==> dec.state == ObjectComma && dec.stack == stack)
      decreases |s.ls|, 1
    {
      ghost var before := buffer;
      if x == LBrace || x == LBrack {
        ok := NestValue(x, depth, s, stack);
        return;
      }
      if x.LStr? {
        WriteString(x.s);
      } else {
        buffer := buffer + x.text;
      }
      EndEntry();
      ok := true;
      assert buffer == before + ShowValue(printable, s, depth).text;
    }

    /** A container in object position; an empty one takes no line breaks. */
    method NestValue(x: Lexeme, depth: nat, ghost s: Source, ghost stack: seq<DecoderState>) returns (ok: bool)
      requires depth >= 1 && s.ls != [] && s.ls[0] == x && (x == LBrace || x == LBrack)
      requires BeginsValue(x) && dec == Entered(s, ObjectValue, stack)
      modifies this
      ensures var r := ShowValue(printable, s, depth);
        && (ok <==> !r.status.Wrong?)
        && (ok ==> buffer == old(buffer) + r.text && topLevelFields == old(topLevelFields) + r.keys)
        && (ok ==> dec.input == r.rest)
        && (r.status.Closed? ==> dec.state == ObjectComma && dec.stack == stack)
      decreases |s.ls|, 0
    {
      ghost var before, inner := buffer, dec.input;
      ValueOpens(printable, s, depth);
      OpenBracket(x);
      var d := if More(dec.input) then depth + 1 else 1;
      assert (stack + [ObjectValue])[..|stack|] == stack;
      ok := FormatNested(x, d);
      Assoc(before, OpenText(x, inner), ShowNested(printable, x, inner, d).text);
    }

    /** Reads a container up to its closing bracket, or to the end of the text. */
    method FormatNested(x: Lexeme, depth: nat) returns (ok: bool)
      requires depth >= 1 && dec.state == (if x == LBrace then ObjectStart else ArrayStart) && dec.stack != []
      modifies this
      ensures var r := ShowNested(printable, x, old(dec).input, depth);
        && (ok <==> !r.status.Wrong?)
        && (ok ==> buffer == old(buffer) + r.text && topLevelFields == old(topLevelFields) + r.keys)
        && (ok ==> dec.input == r.rest)
        && (r.status.Closed? ==> dec == Popped(r.rest, old(dec).stack))
      decreases |dec.input.ls|, 5
    {
      if x == LBrace {
        ok := FormatObject(depth);
      } else {
        ok := FormatArray(depth);
      }
    }

    method OpenBracket(x: Lexeme)
      modifies this`buffer
      ensures buffer == old(buffer) + OpenText(x, dec.input)
    {
      buffer := buffer + if x == LBrace then "{" else "[";
      if More(dec.input) {
        buffer := buffer + "\n";
      }
    }

    /** The object loop still has this to show, out of `whole`. */
    ghost predicate Pending(whole: Shown, depth: nat, isKey: bool, start: string, keys: seq<string>,
                            stack: seq<DecoderState>)
      requires depth >= 1
      reads this
    {
      var r := ShowObject(printable, PlaceOf(dec.state), dec.input, depth);
      && (dec.input.ls != [] ==>
            && (dec.state == ObjectStart || dec.state == ObjectComma || dec.state == ObjectColon)
            && isKey == (dec.state != ObjectColon) && dec.stack == stack)
      && Owes(whole, r, start, keys, buffer, topLevelFields)
    }

    /** Reads an object up to its closing brace, or to the end of the text. */
    method FormatObject(depth: nat) returns (ok: bool)
      requires depth >= 1 && dec.state == ObjectStart && dec.stack != []
      modifies this
      ensures var r := ShowObject(printable, AtStart, old(dec).input, depth);
        && (ok <==> !r.status.Wrong?)
        && (ok ==> buffer == old(buffer) + r.text && topLevelFields == old(topLevelFields) + r.keys)
        && (ok ==> dec.input == r.rest)
        && (r.status.Closed? ==> dec == Popped(r.rest, old(dec).stack))
      decreases |dec.input.ls|, 2
    {
      ghost var whole, stack := ShowObject(printable, AtStart, dec.input, depth), dec.stack;
      var isKey := true;
      while true
        invariant |dec.input.ls| <= |old(dec).input.ls|
        invariant Pending(whole, depth, isKey, old(buffer), old(topLevelFields), stack)
        decreases |dec.input.ls|
      {
        ghost var d0 := dec;
        var t := ReadToken();
        if t.Eof? {
          EofMeans(printable, d0, depth);
          return true;
        }
        if t.Failed? {
          FailedMeans(printable, d0, depth);
          return false;
        }
        if t.x == RBrace {
          ClosedMeans(printable, d0, depth);
          Close(depth, "}");
          return true;
        }
        ok, isKey := ObjectEntry(t.x, depth, isKey, whole, d0, old(buffer), old(topLevelFields), stack);
        if !ok {
          return false;
        }
      }
    }

    /** One entry of the object loop: a key, or a value. */
    method ObjectEntry(x: Lexeme, depth: nat, isKey: bool, ghost whole: Shown, ghost d0: Decoder, ghost start: string,
                       ghost keys: seq<string>, ghost stack: seq<DecoderState>) returns (ok: bool, nextIsKey: bool)
      requires depth >= 1 && Taken(Got(x), dec) == Next(d0) && x != RBrace
      requires d0.input.ls != [] && isKey == (d0.state != ObjectColon) && d0.stack == stack
      requires d0.state == ObjectStart || d0.state == ObjectComma || d0.state == ObjectColon
      requires Owes(whole, ShowObject(printable, PlaceOf(d0.state), d0.input, depth), start, keys, buffer,
        topLevelFields)
      modifies this
      ensures ok ==> Pending(whole, depth, nextIsKey, start, keys, stack) && |dec.input.ls| < |d0.input.ls|
      ensures !ok ==> whole.status.Wrong?
      decreases |d0.input.ls|, 1
    {
      if x.LStr? && isKey {
        KeyMeans(printable, d0, depth);
        OwesLess(whole, KeyText(printable, x.s, depth), TopKey(x.s, depth),
          ShowObject(printable, AtColon, dec.input, depth), start, keys,
                 buffer, topLevelFields);
        WriteKey(depth, x.s);
        return true, false;
      }
      ValueMeans(printable, d0, depth);
      ok := ValueEntry(x, depth, whole, Rest(d0.input, 1), start, keys, stack);
      nextIsKey := true;
    }

    /** The value of an entry; `s` begins with it. */
    method ValueEntry(x: Lexeme, depth: nat, ghost whole: Shown, ghost s: Source, ghost start: string,
                      ghost keys: seq<string>, ghost stack: seq<DecoderState>) returns (ok: bool)
      requires depth >= 1 && s.ls != [] && s.ls[0] == x
      requires BeginsValue(x) && dec == Entered(s, ObjectValue, stack)
      requires var v := ShowValue(printable, s, depth);
        Owes(whole, if v.status.Closed? then With(v.text, v.keys, ShowObject(printable, AtComma, v.rest, depth))
          else v, start, keys,
             buffer, topLevelFields)
      modifies this
      ensures ok ==> Pending(whole, depth, true, start, keys, stack) && |dec.input.ls| <= |s.ls|
      ensures !ok ==> whole.status.Wrong?
      decreases |s.ls|, 2
    {
      ghost var v := ShowValue(printable, s, depth);
      if v.status.Closed? {
        OwesLess(whole, v.text, v.keys, ShowObject(printable, AtComma, v.rest, depth), start, keys, buffer,
          topLevelFields);
      } else if v.status.Ended? {
        OwesNothing(whole, v, start, keys, buffer, topLevelFields);
      }
      ok := FormatValue(x, depth, s, stack);
    }

    /** The array loop still has this to show, out of `whole`. */
    ghost predicate PendingArray(whole: Shown, depth: nat, start: string, keys: seq<string>, stack: seq<DecoderState>)
      requires depth >= 1
      reads this
    {
      var r := ShowArray(printable, ArrayPlace(dec.state), dec.input, depth);
      && (dec.input.ls != [] ==> (dec.state == ArrayStart || dec.state == ArrayComma) && dec.stack == stack)
      && Owes(whole, r, start, keys, buffer, topLevelFields)
    }

    /** Reads an array up to its closing bracket, or to the end of the text. */
    method FormatArray(depth: nat) returns (ok: bool)
      requires depth >= 1 && dec.state == ArrayStart && dec.stack != []
      modifies this
      ensures var r := ShowArray(printable, AtStart, old(dec).input, depth);
        && (ok <==> !r.status.Wrong?)
        && (ok ==> buffer == old(buffer) + r.text && topLevelFields == old(topLevelFields) + r.keys)
        && (ok ==> dec.input == r.rest)
        && (r.status.Closed? ==> dec == Popped(r.rest, old(dec).stack))
      decreases |dec.input.ls|, 4
    {
      ghost var whole, stack := ShowArray(printable, AtStart, dec.input, depth), dec.stack;
      while true
        invariant |dec.input.ls| <= |old(dec).input.ls|
        invariant PendingArray(whole, depth, old(buffer), old(topLevelFields), stack)
        decreases |dec.input.ls|
      {
        ghost var d0 := dec;
        var t := ReadToken();
        if t.Eof? {
          ArrayEof(printable, d0, depth);
          return true;
        }
        if t.Failed? {
          ArrayFailed(printable, d0, depth);
          return false;
        }
        if t.x == RBrack {
          ArrayClosed(printable, d0, depth);
          Close(depth, "]");
          return true;
        }
        ok := ArrayEntry(t.x, depth, whole, d0, old(buffer), old(topLevelFields), stack);
        if !ok {
          return false;
        }
      }
    }

    /** One entry of the array loop. */
    method ArrayEntry(x: Lexeme, depth: nat, ghost whole: Shown, ghost d0: Decoder, ghost start: string,
                      ghost keys: seq<string>, ghost stack: seq<DecoderState>) returns (ok: bool)
      requires depth >= 1 && Taken(Got(x), dec) == Next(d0) && x != RBrack
      requires d0.input.ls != [] && d0.stack == stack && (d0.state == ArrayStart || d0.state == ArrayComma)
      requires Owes(whole, ShowArray(printable, ArrayPlace(d0.state), d0.input, depth), start, keys, buffer,
        topLevelFields)
      modifies this
      ensures ok ==> PendingArray(whole, depth, start, keys, stack) && |dec.input.ls| < |d0.input.ls|
      ensures !ok ==> whole.status.Wrong?
      decreases |d0.input.ls|, 3
    {
      ghost var s := ItemMeans(printable, d0, depth);
      var st := if d0.state == ArrayStart then ArrayStart else ArrayValue;
      ok := ItemEntry(x, depth, whole, s, start, keys, stack, st);
    }

    method ItemEntry(x: Lexeme, depth: nat, ghost whole: Shown, ghost s: Source, ghost start: string,
                     ghost keys: seq<string>, ghost stack: seq<DecoderState>, ghost st: DecoderState) returns (ok: bool)
      requires depth >= 1 && s.ls != [] && s.ls[0] == x && (st == ArrayStart || st == ArrayValue)
      requires BeginsValue(x) && dec == Entered(s, st, stack)
      requires var v := ShowItem(printable, s, depth);
        Owes(whole, if v.status.Closed? then With(v.text, v.keys, ShowArray(printable, AtComma, v.rest, depth))
          else v, start, keys,
             buffer, topLevelFields)
      modifies this
      ensures ok ==> PendingArray(whole, depth, start, keys, stack) && |dec.input.ls| < |s.ls|
      ensures !ok ==> whole.status.Wrong?
      decreases |s.ls|, 2
    {
      ghost var v := ShowItem(printable, s, depth);
      if v.status.Closed? {
        OwesLess(whole, v.text, v.keys, ShowArray(printable, AtComma, v.rest, depth), start, keys, buffer,
          topLevelFields);
      } else if v.status.Ended? {
        OwesNothing(whole, v, start, keys, buffer, topLevelFields);
      }
      ok := FormatItem(x, depth, s, stack, st);
    }

    /** A value in array position, whose first token was just taken. */
    method FormatItem(x: Lexeme, depth: nat, ghost s: Source, ghost stack: seq<DecoderState>, ghost st: DecoderState)
      returns (ok: bool)
      requires depth >= 1 && s.ls != [] && s.ls[0] == x && (st == ArrayStart || st == ArrayValue)
      requires BeginsValue(x) && dec == Entered(s, st, stack)
      modifies this
      ensures var r := ShowItem(printable, s, depth);
        && (ok <==> !r.status.Wrong?)
        && (ok ==> buffer == old(buffer) + r.text && topLevelFields == old(topLevelFields) + r.keys)
        && (ok ==> dec.input == r.rest)
        && (r.status.Closed? ==> dec.state == ArrayComma && dec.stack == stack)
      decreases |s.ls|, 1
    {
      ghost var before := buffer;
      buffer := buffer + Indent(depth);
      if x == LBrace || x == LBrack {
        ok := NestItem(x, depth, s, stack, st, before);
        return;
      }
      ScalarItem(printable, s, depth);
      WriteScalar(x, before, depth);
      ok := true;
    }

    method WriteScalar(x: Lexeme, ghost before: string, ghost depth: nat)
      requires (x.LStr? || x.LWord?) && buffer == before + Indent(depth)
      modifies this`buffer
      ensures buffer
        == before + (Indent(depth) + ((if x.LStr? then Quoted(printable, x.s) else x.text) + EndOf(dec.input)))
    {
      ghost var word := if x.LStr? then Quoted(printable, x.s) else x.text;
      if x.LStr? {
        buffer := buffer + Quoted(printable, x.s);
      } else {
        buffer := buffer + x.text;
      }
      EndEntry();
      Assoc(before, Indent(depth), word);
      Assoc(before, Indent(depth) + word, EndOf(dec.input));
      Assoc(Indent(depth), word, EndOf(dec.input));
    }

    /** A container in array position, behind its indentation. */
    method NestItem(x: Lexeme, depth: nat, ghost s: Source, ghost stack: seq<DecoderState>, ghost st: DecoderState,
                    ghost before: string)
      returns (ok: bool)
      requires depth >= 1 && s.ls != [] && s.ls[0] == x && (st == ArrayStart || st == ArrayValue)
        && (x == LBrace || x == LBrack)
      requires BeginsValue(x) && dec == Entered(s, st, stack) && buffer == before + Indent(depth)
      modifies this
      ensures var r := ShowItem(printable, s, depth);
        && (ok <==> !r.status.Wrong?)
        && (ok ==> buffer == before + r.text && topLevelFields == old(topLevelFields) + r.keys && dec.input == r.rest)
        && (r.status.Closed? ==> dec.state == ArrayComma && dec.stack == stack)
      decreases |s.ls|, 0
    {
      ghost var inner, open := dec.input, if x == LBrace then "{\n" else "[\n";
      ItemOpens(printable, s, depth);
      buffer := buffer + if x == LBrace then "{\n" else "[\n";
      assert dec.stack == stack + [st] && (stack + [st])[..|stack|] == stack;
      Assoc(before, Indent(depth), open);
      ok := FormatNested(x, depth + 1);
      Assoc(before, Indent(depth) + open, ShowNested(printable, x, inner, depth + 1).text);
    }
  }

  lemma EofMeans(pr: char -> bool, d: Decoder, depth: nat)
    requires depth >= 1 && Next(d).token.Eof?
    requires d.input.ls != [] ==> d.state == ObjectStart || d.state == ObjectComma || d.state == ObjectColon
    ensures ShowObject(pr, PlaceOf(d.state), d.input, depth) == Shown(Ended, "", [], Next(d).dec.input)
  {}

  lemma FailedMeans(pr: char -> bool, d: Decoder, depth: nat)
    requires depth >= 1 && Next(d).token.Failed?
    requires d.input.ls != []
      ==> d.stack != [] && (d.state == ObjectStart || d.state == ObjectComma || d.state == ObjectColon)
    ensures ShowObject(pr, PlaceOf(d.state), d.input, depth).status.Wrong?
  {}

  lemma ClosedMeans(pr: char -> bool, d: Decoder, depth: nat)
    requires depth >= 1 && Next(d).token == Got(RBrace) && d.stack != []
    requires d.state == ObjectStart || d.state == ObjectComma || d.state == ObjectColon
    ensures var r := Rest(d.input, 1);
      && ShowObject(pr, PlaceOf(d.state), d.input, depth) == Shown(Closed, CloseText(depth, "}", r), [], r)
      && Next(d).dec == Popped(r, d.stack)
  {}

  lemma KeyMeans(pr: char -> bool, d: Decoder, depth: nat)
    requires depth >= 1 && Next(d).token.Got? && Next(d).token.x.LStr?
      && (d.state == ObjectStart || d.state == ObjectComma)
    ensures var r, key := Next(d).dec, Next(d).token.x.s;
      && r.state == ObjectColon && r.stack == d.stack
      && ShowObject(pr, PlaceOf(d.state), d.input, depth)
         == With(KeyText(pr, key, depth), TopKey(key, depth), ShowObject(pr, AtColon, r.input, depth))
  {}

  lemma ValueMeans(pr: char -> bool, d: Decoder, depth: nat)
    requires depth >= 1 && Next(d).token.Got? && Next(d).token.x != RBrace
    requires d.state == ObjectStart || d.state == ObjectComma || d.state == ObjectColon
    requires Next(d).token.x.LStr? ==> d.state == ObjectColon
    ensures d.state == ObjectColon && |d.input.ls| > 1 && d.input.ls[0] == Colon && d.input.ls[1] == Next(d).token.x
    ensures var s := Rest(d.input, 1); var v := ShowValue(pr, s, depth);
      && BeginsValue(Next(d).token.x) && Next(d).dec == Entered(s, ObjectValue, d.stack)
      && ShowObject(pr, AtColon, d.input, depth)
         == if v.status.Closed? then With(v.text, v.keys, ShowObject(pr, AtComma, v.rest, depth)) else v
  {}

  function ArrayPlace(st: DecoderState): Place { if st == ArrayStart then AtStart else AtComma }

  lemma ArrayEof(pr: char -> bool, d: Decoder, depth: nat)
    requires depth >= 1 && Next(d).token.Eof? && (d.input.ls != [] ==> d.state == ArrayStart || d.state == ArrayComma)
    ensures ShowArray(pr, ArrayPlace(d.state), d.input, depth) == Shown(Ended, "", [], Next(d).dec.input)
  {}

  lemma ArrayFailed(pr: char -> bool, d: Decoder, depth: nat)
    requires depth >= 1 && Next(d).token.Failed?
    requires d.input.ls != [] ==> d.stack != [] && (d.state == ArrayStart || d.state == ArrayComma)
    ensures ShowArray(pr, ArrayPlace(d.state), d.input, depth).status.Wrong?
  {
    if d.input.ls != [] && (d.state == ArrayStart || |d.input.ls| > 1) {
      var s := if d.state == ArrayStart then d.input else Rest(d.input, 1);
      assert d.input.ls[0] != RBrack;
      if d.state == ArrayStart || d.input.ls[0] == Comma {
        assert ShowItem(pr, s, depth).status.Wrong?;
        assert ShowItems(pr, s, depth).status.Wrong?;
      }
    }
  }

  lemma ArrayClosed(pr: char -> bool, d: Decoder, depth: nat)
    requires depth >= 1 && Next(d).token == Got(RBrack) && d.stack != []
      && (d.state == ArrayStart || d.state == ArrayComma)
    ensures var r := Rest(d.input, 1);
      && ShowArray(pr, ArrayPlace(d.state), d.input, depth) == Shown(Closed, CloseText(depth, "]", r), [], r)
      && Next(d).dec == Popped(r, d.stack)
  {}

  lemma ItemMeans(pr: char -> bool, d: Decoder, depth: nat) returns (s: Source)
    requires depth >= 1 && Next(d).token.Got? && Next(d).token.x != RBrack
      && (d.state == ArrayStart || d.state == ArrayComma)
    ensures s.ls != [] && |s.ls| <= |d.input.ls| && s.ls[0] == Next(d).token.x
    ensures BeginsValue(s.ls[0])
      && Next(d).dec == Entered(s, if d.state == ArrayStart then ArrayStart else ArrayValue, d.stack)
    ensures var v := ShowItem(pr, s, depth);
      ShowArray(pr, ArrayPlace(d.state), d.input, depth)
        == if v.status.Closed? then With(v.text, v.keys, ShowArray(pr, AtComma, v.rest, depth)) else v
  {
    s := if d.state == ArrayStart then d.input else Rest(d.input, 1);
  }

  // ---------------------------------------------------------------- field order

  const FieldOrders: seq<seq<string>> := [
    ["previous", "author", "sequence", "timestamp", "hash", "content", "signature"],
    ["previous", "sequence", "author", "timestamp", "hash", "content", "signature"]]

  /** The second order has author and sequence exchanged. */
  lemma SecondOrder()
    ensures |FieldOrders| == 2
    ensures var a := FieldOrders[0]; |a| == 7 && FieldOrders[1] == [a[0], a[2], a[1], a[3], a[4], a[5], a[6]]
  {}

  function Join(fields: seq<string>): string {
    if fields == [] then "" else if |fields| == 1 then fields[0] else fields[0] + ":" + Join(fields[1..])
  }

  /** The program compares lengths and the joined names. */
  predicate CheckFieldOrder(fields: seq<string>) {
    |fields| == 7 && (Join(fields) == Join(FieldOrders[0]) || Join(fields) == Join(FieldOrders[1]))
  }

  predicate NoColon(s: string) { forall i :: 0 <= i < |s| ==> s[i] != ':' }

  function Colons(s: string): nat { if s == "" then 0 else (if s[0] == ':' then 1 else 0) + Colons(s[1..]) }

  lemma {:induction false} ColonsConcat(a: string, b: string)
    ensures Colons(a + b) == Colons(a) + Colons(b)
  {
    if a == "" {
      assert a + b == b;
    } else {
      assert (a + b)[1..] == a[1..] + b;
      ColonsConcat(a[1..], b);
    }
  }

  lemma {:induction false} ColonsZero(s: string)
    ensures Colons(s) == 0 <==> NoColon(s)
  {
    if s != "" {
      ColonsZero(s[1..]);
      assert s == [s[0]] + s[1..];
    }
  }

  lemma {:induction false} ColonsOfJoin(fields: seq<string>)
    requires fields != []
    ensures Colons(Join(fields)) >= |fields| - 1
    ensures Colons(Join(fields)) == |fields| - 1 <==> forall i :: 0 <= i < |fields| ==> NoColon(fields[i])
  {
    ColonsZero(fields[0]);
    if |fields| > 1 {
      ColonsOfJoin(fields[1..]);
      ColonsConcat(fields[0], ":" + Join(fields[1..]));
      assert fields[0] + ":" + Join(fields[1..]) == fields[0] + (":" + Join(fields[1..]));
      ColonsConcat(":", Join(fields[1..]));
      assert Colons(":") == 1 by { assert ":"[1..] == ""; }
      assert fields == [fields[0]] + fields[1..];
    }
  }

  lemma {:induction false} FirstColon(a: string, b: string, x: string, y: string)
    requires NoColon(a) && NoColon(b) && a + ":" + x == b + ":" + y
    ensures a == b && x == y
  {
    var t := a + ":" + x;
    assert t[|a|] == ':' && t[|b|] == ':';
    assert forall i :: 0 <= i < |a| ==> t[i] == a[i];
    assert forall i :: 0 <= i < |b| ==> t[i] == b[i];
    assert t[..|a|] == a && t[..|b|] == b && t[|a| + 1..] == x && t[|b| + 1..] == y;
  }

  lemma {:induction false} JoinInjective(f: seq<string>, g: seq<string>)
    requires |f| == |g| && f != [] && Join(f) == Join(g)
    requires forall i :: 0 <= i < |f| ==> NoColon(f[i]) && NoColon(g[i])
    ensures f == g
  {
    if |f| == 1 {
      assert f == [f[0]] && g == [g[0]];
    } else {
      FirstColon(f[0], g[0], Join(f[1..]), Join(g[1..]));
      JoinInjective(f[1..], g[1..]);
      assert f == [f[0]] + f[1..] && g == [g[0]] + g[1..];
    }
  }

  lemma OrdersHaveNoColon(k: int)
    requires 0 <= k < 2
    ensures |FieldOrders[k]| == 7 && forall i :: 0 <= i < 7 ==> NoColon(FieldOrders[k][i])
  {}

  lemma JoinedOrder(fields: seq<string>, order: seq<string>)
    requires |fields| == |order| == 7 && Join(fields) == Join(order)
    requires forall i :: 0 <= i < 7 ==> NoColon(order[i])
    ensures fields == order
  {
    ColonsOfJoin(order);
    ColonsOfJoin(fields);
    JoinInjective(fields, order);
  }

  /** Comparing joined names accepts exactly the two listed orders: no name can smuggle in a delimiter. */
  lemma CheckFieldOrderExact(fields: seq<string>)
    ensures CheckFieldOrder(fields) <==> fields in FieldOrders
  {
    OrdersHaveNoColon(0);
    OrdersHaveNoColon(1);
    if |fields| == 7 && Join(fields) == Join(FieldOrders[0]) {
      JoinedOrder(fields, FieldOrders[0]);
    }
    if |fields| == 7 && Join(fields) == Join(FieldOrders[1]) {
      JoinedOrder(fields, FieldOrders[1]);
    }
  }

  // ---------------------------------------------------------------- entry point

  datatype PrintError = NotAnObject | BadSyntax | WrongFieldOrder

  function TrimLeft(s: string): string {
    if s != "" && s[0] == '\n' then TrimLeft(s[1..]) else s
  }

  function TrimRight(s: string): string {
    if s != "" && s[|s| - 1] == '\n' then TrimRight(s[..|s| - 1]) else s
  }

  /** What the program makes of any text. */
  function Printed(pr: char -> bool, text: string, strict: bool): Result<string, PrintError> {
    PrintedSource(pr, Lexemes(text), strict)
  }

  function PrintedSource(pr: char -> bool, s: Source, strict: bool): Result<string, PrintError> {
    if s.ls == [] || s.ls[0] != LBrace then Err(NotAnObject)
    else
      var r := ShowObject(pr, AtStart, Rest(s, 1), 1);
      if r.status.Wrong? then Err(BadSyntax)
      else if strict && r.keys !in FieldOrders then Err(WrongFieldOrder)
      else Ok(TrimRight(TrimLeft("{\n" + r.text)))
  }

  /** The program: decode, run the token loops, check the order, trim. */
  method PrettyPrint(pr: char -> bool, text: string, strict: bool) returns (r: Result<string, PrintError>)
    ensures r == Printed(pr, text, strict)
  {
    r := PrintSource(pr, Lexemes(text), strict);
  }

  method PrintSource(pr: char -> bool, s: Source, strict: bool) returns (r: Result<string, PrintError>)
    ensures r == PrintedSource(pr, s, strict)
  {
    var pp := new Printer(pr, s);
    FirstToken(s);
    var t := pp.ReadToken();
    if t != Got(LBrace) {
      return Err(NotAnObject);
    }
    pp.buffer := "{\n";
    ghost var keys := ShowObject(pr, AtStart, Rest(s, 1), 1).keys;
    assert [] + keys == keys;
    var ok := pp.FormatObject(1);
    if !ok {
      return Err(BadSyntax);
    }
    if strict {
      var fine := OrderFine(pp.topLevelFields);
      if !fine {
        return Err(WrongFieldOrder);
      }
    }
    r := Ok(TrimRight(TrimLeft(pp.buffer)));
  }

  method OrderFine(fields: seq<string>) returns (fine: bool)
    ensures fine <==> fields in FieldOrders
  {
    CheckFieldOrderExact(fields);
    fine := CheckFieldOrder(fields);
  }

  lemma FirstToken(s: Source)
    ensures var r := Next(Decoder(s, TopValue, []));
      if s.ls != [] && s.ls[0] == LBrace then r == Taken(Got(LBrace), Decoder(Rest(s, 1), ObjectStart, [TopValue]))
      else r.token != Got(LBrace)
  {
    assert [] + [TopValue] == [TopValue];
  }

  // ---------------------------------------------------------------- which texts are accepted

  /** The text begins with a whole object, its keys in order if asked; whatever follows it is not read. */
  ghost predicate StartsWithObject(s: Source, strict: bool) {
    exists fs: Fields, k: seq<Lexeme> :: s.ls == ValueLexemes(Obj(fs), k) && (strict ==> Keys(fs) in FieldOrders)
  }

  /** The text breaks off inside an object that more text would complete; the keys it got to are in order if asked. */
  ghost predicate BreaksOff(s: Source, strict: bool) {
    && !s.bad && s.ls != []
    && exists fs: Fields :: s.ls <= ValueLexemes(Obj(fs), []) && (strict ==> KeysWithin(fs, |s.ls| - 1) in FieldOrders)
  }

  /** Exactly these texts are printed without an error, documents or not. */
  lemma AcceptedIff(pr: char -> bool, text: string, strict: bool)
    ensures Printed(pr, text, strict).Ok?
      <==> StartsWithObject(Lexemes(text), strict) || BreaksOff(Lexemes(text), strict)
  {
    var s := Lexemes(text);
    if s.ls != [] && s.ls[0] == LBrace {
      ObjectScans(pr, AtStart, Rest(s, 1), 1);
      ObjectAcceptedIff(s);
      AcceptedInOrder(pr, s, strict);
    } else {
      forall fs: Fields, k: seq<Lexeme>
        ensures ValueLexemes(Obj(fs), k) != [] && ValueLexemes(Obj(fs), k)[0] == LBrace {}
    }
  }

  /** Whichever object the text begins with or breaks off in, the keys recorded are those that stand there. */
  lemma AcceptedInOrder(pr: char -> bool, s: Source, strict: bool)
    requires s.ls != [] && s.ls[0] == LBrace
    ensures var fine := strict ==> ShowObject(pr, AtStart, Rest(s, 1), 1).keys in FieldOrders;
      && (StartsWithObject(s, strict) <==> StartsWithObject(s, false) && fine)
      && (BreaksOff(s, strict) <==> BreaksOff(s, false) && fine)
  {
    forall fs: Fields, k: seq<Lexeme> | s.ls == ValueLexemes(Obj(fs), k)
      ensures ShowObject(pr, AtStart, Rest(s, 1), 1).keys == Keys(fs)
    {
      RecordedWhole(pr, s, fs, k);
    }
    forall fs: Fields | !s.bad && s.ls <= ValueLexemes(Obj(fs), [])
      ensures ShowObject(pr, AtStart, Rest(s, 1), 1).keys == KeysWithin(fs, |s.ls| - 1)
    {
      RecordedPart(pr, s, fs);
    }
  }

  lemma RecordedWhole(pr: char -> bool, s: Source, fs: Fields, k: seq<Lexeme>)
    requires s.ls == ValueLexemes(Obj(fs), k)
    ensures ShowObject(pr, AtStart, Rest(s, 1), 1).keys == Keys(fs)
  {
    assert Rest(s, 1).ls == FieldLexemes(fs, [RBrace] + k);
    ShowsObject(pr, fs, k, s.bad, 1);
  }

  lemma RecordedPart(pr: char -> bool, s: Source, fs: Fields)
    requires !s.bad && s.ls != [] && s.ls <= ValueLexemes(Obj(fs), [])
    ensures ShowObject(pr, AtStart, Rest(s, 1), 1).keys == KeysWithin(fs, |s.ls| - 1)
  {
    PrefixBegins(s.ls, ValueLexemes(Obj(fs), []));
    BeginsWith(s.ls, LBrace, FieldLexemes(fs, [RBrace] + []));
    KeysReached(pr, fs, Rest(s, 1));
  }

  lemma ObjectAcceptedIff(s: Source)
    requires s.ls != [] && s.ls[0] == LBrace
    ensures !ScanObject(AtStart, Rest(s, 1)).status.Wrong? <==> StartsWithObject(s, false) || BreaksOff(s, false)
  {
    assert ScanValue(s) == ScanObject(AtStart, Rest(s, 1));
    if StartsWithObject(s, false) {
      var fs, k :| s.ls == ValueLexemes(Obj(fs), k);
      WholeScans(Obj(fs), Source(k, s.bad));
    } else if BreaksOff(s, false) {
      var fs :| s.ls <= ValueLexemes(Obj(fs), []);
      PrefixBegins(s.ls, ValueLexemes(Obj(fs), []));
      ViableValue(Obj(fs), [], s);
    } else if !ScanValue(s).status.Wrong? {
      Completed(s);
    }
  }

  lemma Completed(s: Source)
    requires s.ls != [] && s.ls[0] == LBrace && !ScanValue(s).status.Wrong?
    ensures StartsWithObject(s, false) || BreaksOff(s, false)
  {
    var v := RebuildValue(s, []);
    BeginsObject(s, v);
    PrefixBegins(s.ls, ValueLexemes(v, []));
    assert v == Obj(v.fields);
  }

  lemma BeginsObject(s: Source, v: Json)
    requires s.ls != [] && s.ls[0] == LBrace && !ScanValue(s).status.Wrong?
    requires Explained(ScanValue(s), s, ValueLexemes(v, ScanValue(s).rest.ls), ValueLexemes(v, []))
    ensures v.Obj?
  {}

  /** What follows a whole object shows only as a comma behind it, unless it begins with a closing bracket. */
  lemma TrailingText(pr: char -> bool, text: string, fs: Fields, k: seq<Lexeme>, strict: bool)
    requires Lexemes(text).ls == ValueLexemes(Obj(fs), k)
    ensures Printed(pr, text, strict)
      == if strict && Keys(fs) !in FieldOrders then Err(WrongFieldOrder)
         else Ok(Print(pr, fs) + if More(Source(k, Lexemes(text).bad)) then "," else "")
  {
    var rest := Source(k, Lexemes(text).bad);
    assert Rest(Lexemes(text), 1).ls == FieldLexemes(fs, [RBrace] + k);
    ShowsObject(pr, fs, k, rest.bad, 1);
    ShownObject(pr, fs, EndOf(rest));
  }

  /** Without its closing brace an object passes the strict printer as well. */
  lemma BraceMissing(pr: char -> bool, text: string, fs: Fields)
    requires Lexemes(text) == Source([LBrace] + FieldLexemes(fs, []), false) && Keys(fs) in FieldOrders
    ensures ParseText(text).None? && Printed(pr, text, true).Ok?
  {
    var s := Lexemes(text);
    FieldsAppends(fs, [], [RBrace]);
    assert [] + [RBrace] == [RBrace] && [RBrace] + [] == [RBrace];
    AllWithin(fs, |s.ls| - 1);
    assert s.ls <= ValueLexemes(Obj(fs), []);
    AcceptedIff(pr, text, true);
    if ParseText(text).Some? {
      ParsedListing(s.ls);
      PrefixEnds(s, fs, ParseText(text).value);
    }
  }

  lemma {:induction false} AllWithin(fs: Fields, m: int)
    requires m >= |FieldLexemes(fs, [])|
    ensures KeysWithin(fs, m) == Keys(fs)
    decreases fs
  {
    if fs.Field? {
      FieldLength(fs);
      AllWithin(fs.rest, m - (|FieldLexemes(fs, [])| - |FieldLexemes(fs.rest, [])|));
    }
  }

  /** A proper prefix of a listing lists no other value. */
  lemma PrefixEnds(s: Source, fs: Fields, v: Json)
    requires !s.bad && s.ls <= ValueLexemes(Obj(fs), []) && |s.ls| < |ValueLexemes(Obj(fs), [])|
    ensures s.ls != ValueLexemes(v, [])
  {
    if s.ls == ValueLexemes(v, []) {
      WholeScans(v, Source([], false));
      PrefixBegins(s.ls, ValueLexemes(Obj(fs), []));
      ViableValue(Obj(fs), [], s);
    }
  }

  lemma ShownObject(pr: char -> bool, fs: Fields, end: string)
    requires end == "\n" || end == ",\n"
    ensures TrimRight(TrimLeft("{\n" + FieldsText(pr, fs, 1, Indent(0) + ("}" + end))))
      == Print(pr, fs) + if end == "\n" then "" else ","
  {
    FieldsAppend(pr, fs, 1, "}", end);
    assert Indent(0) + ("}" + end) == "}" + end;
    TrimShown(Print(pr, fs), end);
    PrintEnds(pr, fs);
    assert "{\n" + (FieldsText(pr, fs, 1, "}") + end) == Print(pr, fs) + end;
  }

  lemma TrimShown(t: string, end: string)
    requires end == "\n" || end == ",\n"
    ensures t != "" && t[0] != '\n' && t[|t| - 1] != '\n'
      ==> TrimRight(TrimLeft(t + end)) == t + if end == "\n" then "" else ","
  {
    var x := t + end;
    if t != "" && t[0] != '\n' && t[|t| - 1] != '\n' {
      assert x[0] == t[0] && x[..|x| - 1] == t + if end == "\n" then "" else ",";
    }
  }

  /** Three texts that are no documents and are printed without an error. */
  lemma AcceptedExamples(pr: char -> bool)
    ensures ParseText("{").None? && Printed(pr, "{", false) == Ok("{")
    ensures ParseText("{}x").None? && Printed(pr, "{}x", false) == Ok("{\n},")
    ensures ParseText("{}]").None? && Printed(pr, "{}]", false) == Ok("{\n}")
  {
    LexExamples();
    BraceAlone(pr);
    TrailingText(pr, "{}x", NoFields, [], false);
    TrailingText(pr, "{}]", NoFields, [RBrack], false);
    assert Print(pr, NoFields) == "{\n}";
    assert "{\n}" + "," == "{\n}," && "{\n}" + "" == "{\n}";
  }

  lemma BraceAlone(pr: char -> bool)
    ensures PrintedSource(pr, Source([LBrace], false), false) == Ok("{")
  {
    assert Rest(Source([LBrace], false), 1) == Source([], false);
    assert "{\n" + "" == "{\n" && "{\n"[..1] == "{";
    assert TrimRight("{") == "{";
  }

  lemma LexExamples()
    ensures Lexemes("{") == Source([LBrace], false) && ParseText("{").None?
    ensures Lexemes("{}x") == Source([LBrace, RBrace], true) && ParseText("{}x").None?
    ensures Lexemes("{}]") == Source([LBrace, RBrace, RBrack], false) && ParseText("{}]").None?
    ensures [LBrace, RBrace] == ValueLexemes(Obj(NoFields), [])
      && [LBrace, RBrace, RBrack] == ValueLexemes(Obj(NoFields), [RBrack])
  {
    assert "{"[1..] == "" && "{}x"[1..] == "}x" && "}x"[1..] == "x" && "{}]"[1..] == "}]" && "}]"[1..] == "]"
      && "]"[1..] == "";
    assert Lexemes("") == Source([], false);
    assert Lexemes("{").ls == [LBrace] + [];
    assert NextLexeme("x").None? by { assert WordRun("x") <= 1; }
    assert Lexemes("x") == Source([], true);
    assert Lexemes("}x").ls == [RBrace] + [];
    assert Lexemes("{}x").ls == [LBrace] + [RBrace];
    assert Lexemes("]").ls == [RBrack] + [];
    assert Lexemes("}]").ls == [RBrace] + [RBrack];
    assert Lexemes("{}]").ls == [LBrace] + [RBrace, RBrack];
    assert [LBrace][1..] == [];
    assert [LBrace, RBrace, RBrack][2..] == [RBrack];
  }

  /** A document is printed as its canonical text. */
  lemma DocumentPrinted(pr: char -> bool, text: string, fs: Fields, strict: bool)
    requires ParseText(text) == Some(Obj(fs))
    ensures Printed(pr, text, strict)
      == if strict && Keys(fs) !in FieldOrders then Err(WrongFieldOrder) else Ok(Print(pr, fs))
  {
    ParsedListing(Lexemes(text).ls);
    TrailingText(pr, text, fs, [], strict);
    assert Print(pr, fs) + "" == Print(pr, fs);
  }

  lemma PrintEnds(pr: char -> bool, fs: Fields)
    ensures Print(pr, fs) != "" && Print(pr, fs)[|Print(pr, fs)| - 1] == '}'
  {
    FieldsAppend(pr, fs, 1, "", "}");
    assert "" + "}" == "}";
  }

  /**
   Printing is idempotent exactly on quote-safe documents: their canonical text is printed as it stands, and the
   canonical text of any other document is refused.
   */
  lemma PrintIdempotent(pr: char -> bool, text: string, fs: Fields, strict: bool)
    requires PrintTable(pr) && ParseText(text) == Some(Obj(fs))
    ensures Printed(pr, text, false) == Ok(Print(pr, fs))
    ensures Printed(pr, Print(pr, fs), strict)
      == if SafeFields(pr, fs) then Printed(pr, text, strict) else Err(BadSyntax)
  {
    ParsedTextValid(text);
    DocumentPrinted(pr, text, fs, false);
    if SafeFields(pr, fs) {
      PrintedTextReadsBack(pr, fs);
      DocumentPrinted(pr, text, fs, strict);
      DocumentPrinted(pr, Print(pr, fs), fs, strict);
    } else {
      SpoiltRefused(pr, fs, strict);
    }
  }

  lemma SpoiltRefused(pr: char -> bool, fs: Fields, strict: bool)
    requires PrintTable(pr) && ValidFields(fs) && !SafeFields(pr, fs)
    ensures Printed(pr, Print(pr, fs), strict) == Err(BadSyntax)
  {
    PrintLexemes(pr, fs);
    var inner := ListFields(pr, fs, Put(RBrace, Source([], false)));
    RestPut(LBrace, inner);
    UnsafeFields(pr, fs, Put(RBrace, Source([], false)));
    ObjectScans(pr, AtStart, inner, 1);
  }

  /** A document whose canonical text cannot be printed: its key is a bell character, which is written `\a`. */
  lemma BellKey(pr: char -> bool, strict: bool)
    requires PrintTable(pr)
    ensures ParseText("{\"\\u0007\":null}") == Some(Obj(Field("\U{7}", Null, NoFields)))
    ensures Printed(pr, "{\"\\u0007\":null}", false) == Ok("{\n  \"\\a\": null\n}")
    ensures Printed(pr, "{\n  \"\\a\": null\n}", strict) == Err(BadSyntax)
  {
    var fs := Field("\U{7}", Null, NoFields);
    BellKeyParses();
    BellKeyText(pr);
    PrintIdempotent(pr, "{\"\\u0007\":null}", fs, strict);
    assert !QuoteSafeChar(pr, fs.key[0]);
  }

  lemma BellKeyParses()
    ensures ParseText("{\"\\u0007\":null}") == Some(Obj(Field("\U{7}", Null, NoFields)))
  {
    BellEscape();
    NullParses("\U{7}", "{\"\\u0007\":null}");
  }

  /** Under any key, spelt so that it reads back. */
  lemma NullParses(key: string, text: string)
    ensures text == "{" + (ValueString(key) + ":null}") ==> ParseText(text) == Some(Obj(Field(key, Null, NoFields)))
  {
    if text == "{" + (ValueString(key) + ":null}") {
      LexPunctuation('{', ValueString(key) + ":null}");
      LexValueString(key, ":null}");
      ColonNull();
      NullListing(key);
      ParseFromLexemes(text, Obj(Field(key, Null, NoFields)));
    }
  }

  lemma ColonNull()
    ensures Lexemes(":null}") == Source([Colon, LWord("null"), RBrace], false)
  {
    assert ":null}" == [':'] + "null}" && "null}" == "null" + "}" && "}" == ['}'] + "";
    LexPunctuation('}', "");
    LexWord("null", "}");
    LexPunctuation(':', "null}");
  }

  lemma NullListing(key: string)
    ensures ValueLexemes(Obj(Field(key, Null, NoFields)), [])
      == [LBrace] + ([LStr(key)] + [Colon, LWord("null"), RBrace])
  {
    assert FieldLexemes(NoFields, [RBrace] + []) == [RBrace];
    assert ValueLexemes(Null, [] + [RBrace]) == [LWord("null")] + [RBrace];
    assert FieldLexemes(Field(key, Null, NoFields), [RBrace] + []) == [LStr(key), Colon] + ([LWord("null")] + [RBrace]);
  }

  lemma BellEscape()
    ensures "{" + (ValueString("\U{7}") + ":null}") == "{\"\\u0007\":null}"
  {
    assert EscapeWith(ValueChar, "\U{7}"[1..]) == "";
    assert EscapeWith(ValueChar, "\U{7}") == ValueChar('\U{7}') + "";
  }

  lemma BellKeyText(pr: char -> bool)
    requires PrintTable(pr)
    ensures Print(pr, Field("\U{7}", Null, NoFields)) == "{\n  \"\\a\": null\n}"
  {
    assert !pr('\U{7}');
    var style := QuoteStyle(pr);
    assert EscapeWith(style, "\U{7}"[1..]) == "";
    assert EscapeWith(style, "\U{7}") == "\\a" + "";
    assert Indent(1) == "  ";
    assert Quoted(pr, "\U{7}") == "\"\\a\"";
  }

  /** Printing depends on the document only: spacing and escapes of the input do not matter. */
  lemma PrintIgnoresLayout(pr: char -> bool, t1: string, t2: string, fs: Fields, strict: bool)
    requires ValidFields(fs) && Renders(t1, Obj(fs)) && Renders(t2, Obj(fs))
    ensures Printed(pr, t1, strict) == Printed(pr, t2, strict)
    ensures Printed(pr, t1, false) == Ok(Print(pr, fs))
  {
    RenderedTextParses(t1, Obj(fs));
    RenderedTextParses(t2, Obj(fs));
    DocumentPrinted(pr, t1, fs, strict);
    DocumentPrinted(pr, t2, fs, strict);
    DocumentPrinted(pr, t1, fs, false);
  }
}
