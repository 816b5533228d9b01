/**
 Signing and verifying legacy messages: the signature codec, the byte form that
 is hashed, and the proof that `Verify` works on the very bytes `Sign` signed.
 Ed25519, HMAC and SHA-256 are parameters.
 */
module LegacyMessages {
  import opened Basics
  import opened JsonText
  import opened LegacyPrinter
  import opened LegacySignature
  import opened LegacyContent
  import TokenPrinter
  import Base64
  import Decimal

  // ---------------------------------------------------------------- signature codec

  const Suffix: string := ".sig.ed25519"
  const SignatureSize: nat := 64

  function SignatureString(sig: bytes): string { Base64.Encode(sig) + Suffix }

  /** Suffix, length estimate, base64, exact size. */
  function ParseSignature(t: string): (r: Option<bytes>)
    ensures r.Some? ==> |r.value| == SignatureSize
  {
    if |t| < 12 || t[|t| - 12..] != Suffix then None
    else
      var b64 := t[..|t| - 12];
      if |b64| / 4 * 3 < SignatureSize then None
      else
        var d := Base64.Decode(b64);
        if d.None? || |d.value| > SignatureSize then None
        else
          Base64.DecodeLength(b64);
          Some(d.value[..SignatureSize])
  }

  lemma SignatureRoundTrip(sig: bytes)
    requires |sig| == SignatureSize
    ensures ParseSignature(SignatureString(sig)) == Some(sig)
  {
    EncodedSize(sig);
    Base64.DecodeEncode(sig);
    var b :| b == Base64.Encode(sig);
    ParseEncoded(b, sig);
  }

  lemma EncodedSize(sig: bytes)
    requires |sig| == SignatureSize
    ensures |Base64.Encode(sig)| == 88
  {
    Base64.EncodeLength(sig);
  }

  lemma ParseEncoded(b: string, d: bytes)
    requires |b| == 88 && |d| == SignatureSize && Base64.Decode(b) == Some(d)
    ensures ParseSignature(b + Suffix) == Some(d)
  {
    var t := b + Suffix;
    assert |Suffix| == 12 && t[|t| - 12..] == Suffix && t[..|t| - 12] == b;
    assert d[..SignatureSize] == d;
  }

  /** Exactly the texts of 64 bytes in base64 with the suffix are signatures. */
  lemma ParsesIff(b64: string, sig: bytes)
    ensures ParseSignature(b64 + Suffix) == Some(sig) <==> Base64.Decode(b64) == Some(sig) && |sig| == SignatureSize
  {
    SuffixCut(b64);
    if Base64.Decode(b64).Some? {
      Base64.DecodeLength(b64);
      SizeMeans(|b64|, Base64.Decode(b64).value, sig);
    }
  }

  lemma SuffixCut(b64: string)
    ensures var t := b64 + Suffix; |t| >= 12 && t[|t| - 12..] == Suffix && t[..|t| - 12] == b64
  {
    assert |Suffix| == 12;
  }

  lemma SizeMeans(n: nat, d: bytes, sig: bytes)
    requires n % 4 == 0 && n / 4 * 3 - 2 <= |d| <= n / 4 * 3
    ensures !(n / 4 * 3 < SignatureSize) && !(|d| > SignatureSize) ==> |d| == SignatureSize && d[..SignatureSize] == d
    ensures d == sig && |sig| == SignatureSize ==> !(n / 4 * 3 < SignatureSize) && !(|d| > SignatureSize)
  {}

  lemma NoSuffixNoSignature(t: string)
    requires !HasSuffix(t, Suffix)
    ensures ParseSignature(t) == None
  {
    assert |Suffix| == 12;
  }

  /** The characters the pattern captures are those of base64 and the dots of the suffix. */
  lemma SignatureClass(c: char)
    ensures IsSignatureChar(c) <==> Base64.IsBase64Char(c) || c == '.'
  {}

  lemma SignatureStringMatches(sig: bytes)
    ensures SignatureText(SignatureString(sig))
  {
    Base64.EncodeAlphabet(sig);
    forall c: char | Base64.IsBase64Char(c) ensures IsSignatureChar(c) {}
    assert forall i :: 0 <= i < |Suffix| ==> IsSignatureChar(Suffix[i]);
  }

  /** The JSON string of a signature, filled into one buffer. */
  method MarshalSignature(sig: bytes) returns (enc: array<char>)
    ensures enc[..] == ['"'] + SignatureString(sig) + ['"']
  {
    var data := Base64.Encode(sig);
    var total := 2 + |data| + |Suffix|;
    enc := new char[total];
    enc[0] := '"';
    enc[total - 1] := '"';
    for i := 0 to |data|
      invariant enc[0] == '"' && enc[total - 1] == '"'
      invariant forall j :: 0 <= j < i ==> enc[1 + j] == data[j]
    {
      enc[1 + i] := data[i];
    }
    for i := 0 to |Suffix|
      invariant enc[0] == '"' && enc[total - 1] == '"'
      invariant forall j :: 0 <= j < |data| ==> enc[1 + j] == data[j]
      invariant forall j :: 0 <= j < i ==> enc[1 + |data| + j] == Suffix[j]
    {
      enc[1 + |data| + i] := Suffix[i];
    }
  }

  // ---------------------------------------------------------------- the hashed byte form

  function Units(c: char): seq<int> {
    var n := c as int;
    if n < 0x1_0000 then [n] else [0xD800 + (n - 0x1_0000) / 0x400, 0xDC00 + (n - 0x1_0000) % 0x400]
  }

  /** How UTF-16 reads one character back, section 2.2 of RFC 2781. */
  function FromUnits(us: seq<int>): int {
    if |us| == 1 && !(0xD800 <= us[0] < 0xE000) then us[0]
    else if |us| == 2 && 0xD800 <= us[0] < 0xDC00 && 0xDC00 <= us[1] < 0xE000
    then (us[0] - 0xD800) * 0x400 + (us[1] - 0xDC00) + 0x1_0000
    else -1
  }

  lemma UnitsReadBack(c: char)
    ensures FromUnits(Units(c)) == c as int
  {}

  /** UTF-16 code units. */
  function Utf16(s: string): (us: seq<int>)
    ensures forall i :: 0 <= i < |us| ==> 0 <= us[i] < 0x1_0000
  {
    if s == "" then [] else Units(s[0]) + Utf16(s[1..])
  }

  function LittleEndian(us: seq<int>): (bs: bytes)
    requires forall i :: 0 <= i < |us| ==> 0 <= us[i] < 0x1_0000
    ensures |bs| == 2 * |us|
    ensures forall i :: 0 <= i < |us| ==> bs[2 * i] as int == us[i] % 256
  {
    if us == [] then [] else [(us[0] % 256) as byte, (us[0] / 256) as byte] + LittleEndian(us[1..])
  }

  /** The low byte of every UTF-16 unit, as V8's "binary" encoding keeps it. */
  function LowBytes(us: seq<int>): bytes
    requires forall i :: 0 <= i < |us| ==> 0 <= us[i] < 0x1_0000
  {
    seq(|us|, i requires 0 <= i < |us| => (us[i] % 256) as byte)
  }

  function V8Binary(s: string): bytes { LowBytes(Utf16(s)) }

  /** Text of characters below 256 is hashed as these very bytes. */
  lemma {:induction false} LatinKept(s: string)
    requires forall i :: 0 <= i < |s| ==> s[i] < '\U{100}'
    ensures |V8Binary(s)| == |s| && forall i :: 0 <= i < |s| ==> V8Binary(s)[i] as int == s[i] as int
  {
    LatinUnits(s);
  }

  lemma {:induction false} LatinUnits(s: string)
    requires forall i :: 0 <= i < |s| ==> s[i] < '\U{100}'
    ensures |Utf16(s)| == |s| && forall i :: 0 <= i < |s| ==> Utf16(s)[i] == s[i] as int
  {
    if s != "" {
      LatinUnits(s[1..]);
      assert Utf16(s) == [s[0] as int] + Utf16(s[1..]);
    }
  }

  /** Every second byte of the UTF-16 text is dropped. */
  method InternalV8Binary(s: string) returns (z: array<byte>)
    ensures z[..] == V8Binary(s)
  {
    var us := Utf16(s);
    var u16b := LittleEndian(us);
    z := new byte[|u16b| / 2];
    var j, k := 0, 0;
    while k < |u16b|
      invariant k == 2 * j && j <= |us|
      invariant forall i :: 0 <= i < j ==> z[i] == (us[i] % 256) as byte
    {
      z[j] := u16b[k];
      j := j + 1;
      k := k + 2;
    }
  }

  // ---------------------------------------------------------------- messages

  datatype Payload = Text(text: string) | Mac(mac: bytes)

  datatype Crypto = Crypto(
    publicKey: bytes -> bytes,
    sign: (bytes, Payload) -> bytes,
    verify: (bytes, Payload, bytes) -> bool,
    mac: (bytes, string) -> bytes,
    sha256: bytes -> bytes)

  /** Signatures have the right size and verify under the signer's key. */
  ghost predicate Sound(cr: Crypto) {
    forall sk: bytes, p: Payload ::
      |cr.sign(sk, p)| == SignatureSize && cr.verify(cr.publicKey(sk), p, cr.sign(sk, p))
  }

  function MaybeHmac(cr: Crypto, text: string, hmac: Option<bytes>): Payload {
    match hmac
    case None => Text(text)
    case Some(key) => Mac(cr.mac(key, text))
  }

  datatype LegacyMessage = LegacyMessage(
    previous: Option<string>, author: string, sequence: int, timestamp: int, hash: string, content: Json)

  /** The fields in declaration order, in front of `last`. */
  function MessageFields(msg: LegacyMessage, last: Fields): Fields {
    Field("previous", if msg.previous.None? then Null else Str(msg.previous.value),
    Field("author", Str(msg.author),
    Field("sequence", Num(Decimal.FormatInt(msg.sequence)),
    Field("timestamp", Num(Decimal.FormatInt(msg.timestamp)),
    Field("hash", Str(msg.hash),
    Field("content", msg.content, last))))))
  }

  function UnsignedFields(msg: LegacyMessage): Fields { MessageFields(msg, NoFields) }

  function SignedFields(msg: LegacyMessage, sig: bytes): Fields {
    MessageFields(msg, Field("signature", Str(SignatureString(sig)), NoFields))
  }

  lemma {:induction false} AllDigitRun(s: string)
    requires forall i :: 0 <= i < |s| ==> IsDigit(s[i])
    ensures DigitRun(s) == |s|
  {
    if s != "" { AllDigitRun(s[1..]); }
  }

  lemma FormatIntIsNumber(i: int)
    ensures ValidNumber(Decimal.FormatInt(i))
  {
    var t := Decimal.FormatInt(i);
    var n := if i < 0 then -i else i;
    var a := Decimal.Digits(n);
    AllDigitRun(a);
    assert a[|a|..] == "";
    if i < 0 {
      assert t[0] == '-' && t[1..] == a;
    } else {
      assert t == a && t[0] != '-';
    }
  }

  lemma MessageValid(msg: LegacyMessage, last: Fields)
    requires ValidValue(msg.content) && ValidFields(last)
    ensures ValidFields(MessageFields(msg, last))
  {
    FormatIntIsNumber(msg.sequence);
    FormatIntIsNumber(msg.timestamp);
    var f5 := Field("content", msg.content, last);
    var f4 := Field("hash", Str(msg.hash), f5);
    var f3 := Field("timestamp", Num(Decimal.FormatInt(msg.timestamp)), f4);
    var f2 := Field("sequence", Num(Decimal.FormatInt(msg.sequence)), f3);
    assert ValidFields(f5) && ValidFields(f4) && ValidFields(f3) && ValidFields(f2);
    assert ValidFields(Field("author", Str(msg.author), f2));
  }

  // ---------------------------------------------------------------- sign

  datatype Signed = Signed(key: bytes, condensed: string, signedText: string, sig: bytes)

  /** An encoder of documents: any spacing, any readable escapes. */
  ghost predicate Encoder(encode: Json -> string) {
    forall v: Json :: ValidValue(v) ==> Renders(encode(v), v)
  }

  /** Print, sign, add the signature, print again and hash; the encoder's text is what travels. */
  function Sign(cr: Crypto, pr: char -> bool, encode: Json -> string,
                msg: LegacyMessage, secret: bytes, hmac: Option<bytes>): Option<Signed>
  {
    var pp := TokenPrinter.Printed(pr, encode(Obj(UnsignedFields(msg))), false);
    if pp.Err? then None
    else
      var sig := cr.sign(secret, MaybeHmac(cr, pp.value, hmac));
      var wire := encode(Obj(SignedFields(msg, sig)));
      var ppWithSig := TokenPrinter.Printed(pr, wire, false);
      if ppWithSig.Err? then None
      else Some(Signed(cr.sha256(V8Binary(ppWithSig.value)), wire, pp.value, sig))
  }

  // ---------------------------------------------------------------- verify

  datatype VerifyError = NotPrinted(e: TokenPrinter.PrintError) | NotDecoded | BadContent | NoSignature | BadSignature

  datatype Verified = Verified(key: bytes, checkedText: string)

  datatype Extracted = Extracted(text: string, sig: bytes)

  function ExtractSignature(b: string): Option<Extracted> {
    var c := Cut(b);
    if c.groups == [] then None
    else
      var sig := ParseSignature(c.groups[0]);
      if sig.None? then None else Some(Extracted(c.text, sig.value))
  }

  /** The last steps: cut the signature out of the printed text, check it, hash the printed text. */
  function VerifyText(cr: Crypto, enc: string, publicKey: bytes, hmac: Option<bytes>): Result<Verified, VerifyError> {
    var ext := ExtractSignature(enc);
    if ext.None? then Err(NoSignature)
    else if !cr.verify(publicKey, MaybeHmac(cr, ext.value.text, hmac), ext.value.sig) then Err(BadSignature)
    else Ok(Verified(cr.sha256(V8Binary(enc)), ext.value.text))
  }

  /** Print strictly, decode, check the fields, and check the signature on the printed text. */
  function Verify(cr: Crypto, pr: char -> bool, rd: Reader, raw: string, hmac: Option<bytes>)
    : Result<Verified, VerifyError>
  {
    match TokenPrinter.Printed(pr, raw, true)
    case Err(e) => Err(NotPrinted(e))
    case Ok(enc) => VerifyPrinted(cr, rd, raw, hmac, enc, ParseText(raw))
  }

  function VerifyPrinted(cr: Crypto, rd: Reader, raw: string, hmac: Option<bytes>, enc: string, doc: Option<Json>)
    : Result<Verified, VerifyError>
  {
    if doc.None? || !doc.value.Obj? then Err(NotDecoded)
    else
      var key := AuthorKey(rd, doc.value.fields);
      if key.None? then Err(NotDecoded)
      else if !ContentFits(raw, doc.value.fields) then Err(BadContent)
      else VerifyText(cr, enc, key.value, hmac)
  }

  // ---------------------------------------------------------------- what verification means

  /** A message without its signature fields. */
  function Bare(fs: Fields): Fields
    requires fs.Field?
  {
    fs.(rest := Strip(fs.rest))
  }

  /** The first signature field holds a signature of the canonical text of all other fields. */
  predicate SignedBy(cr: Crypto, pr: char -> bool, fs: Fields, publicKey: bytes, hmac: Option<bytes>)
    requires fs.Field?
  {
    && Stripped(fs.rest) != []
    && var sig := ParseSignature(Stripped(fs.rest)[0]);
       sig.Some? && match hmac
         case None => cr.verify(publicKey, Text(Print(pr, Bare(fs))), sig.value)
         case Some(k) => cr.verify(publicKey, Mac(cr.mac(k, Print(pr, Bare(fs)))), sig.value)
  }

  /** The parsed document has its fields in order, they decode, the content fits and the author signed it. */
  predicate Authentic(cr: Crypto, pr: char -> bool, rd: Reader, raw: string, hmac: Option<bytes>, fs: Fields) {
    && fs.Field? && Keys(fs) in TokenPrinter.FieldOrders
    && AuthorKey(rd, fs).Some? && ContentFits(raw, fs)
    && SignedBy(cr, pr, fs, AuthorKey(rd, fs).value, hmac)
  }

  /**
   Any text whatever verifies if and only if it is a document like this; then its key is the hash of its canonical
   text.
   */
  lemma VerifiesIff(cr: Crypto, pr: char -> bool, rd: Reader, raw: string, hmac: Option<bytes>)
    requires PrintTable(pr)
    ensures match ParseText(raw)
      case Some(Obj(fs)) =>
        && (Verify(cr, pr, rd, raw, hmac).Ok? <==> Authentic(cr, pr, rd, raw, hmac, fs))
        && (Verify(cr, pr, rd, raw, hmac).Ok? ==>
              Verify(cr, pr, rd, raw, hmac).value == Verified(cr.sha256(V8Binary(Print(pr, fs))), Print(pr, Bare(fs))))
      case _ => Verify(cr, pr, rd, raw, hmac).Err?
  {
    match ParseText(raw)
    case Some(Obj(fs)) =>
      DocumentVerified(cr, pr, rd, raw, hmac, fs);
      if fs.Field? {
        ParsedTextValid(raw);
        PrintedVerifiesIff(cr, pr, rd, raw, hmac, fs);
      } else {
        EmptyUnordered();
      }
    case _ =>
  }

  lemma EmptyUnordered()
    ensures Keys(NoFields) !in TokenPrinter.FieldOrders
  {}

  lemma DocumentVerified(cr: Crypto, pr: char -> bool, rd: Reader, raw: string, hmac: Option<bytes>, fs: Fields)
    requires ParseText(raw) == Some(Obj(fs))
    ensures Verify(cr, pr, rd, raw, hmac)
      == if Keys(fs) in TokenPrinter.FieldOrders then VerifyPrinted(cr, rd, raw, hmac, Print(pr, fs), Some(Obj(fs)))
         else Err(NotPrinted(TokenPrinter.WrongFieldOrder))
  {
    TokenPrinter.DocumentPrinted(pr, raw, fs, true);
  }

  lemma PrintedVerifiesIff(cr: Crypto, pr: char -> bool, rd: Reader, raw: string, hmac: Option<bytes>, fs: Fields)
    requires PrintTable(pr) && ValidFields(fs) && fs.Field?
    ensures var r := VerifyPrinted(cr, rd, raw, hmac, Print(pr, fs), Some(Obj(fs)));
      && (r.Ok? <==>
            && AuthorKey(rd, fs).Some? && ContentFits(raw, fs)
            && SignedBy(cr, pr, fs, AuthorKey(rd, fs).value, hmac))
      && (r.Ok? ==> r.value == Verified(cr.sha256(V8Binary(Print(pr, fs))), Print(pr, Bare(fs))))
  {
    if AuthorKey(rd, fs).Some? && ContentFits(raw, fs) {
      TextVerifiesIff(cr, pr, fs, hmac);
    }
  }

  lemma TextVerifiesIff(cr: Crypto, pr: char -> bool, fs: Fields, hmac: Option<bytes>)
    requires PrintTable(pr) && ValidFields(fs) && fs.Field?
    ensures forall key :: VerifyText(cr, Print(pr, fs), key, hmac).Ok? <==> SignedBy(cr, pr, fs, key, hmac)
    ensures forall key :: VerifyText(cr, Print(pr, fs), key, hmac).Ok? ==>
      VerifyText(cr, Print(pr, fs), key, hmac).value
        == Verified(cr.sha256(V8Binary(Print(pr, fs))), Print(pr, Bare(fs)))
  {
    CutPrinted(pr, fs);
  }

  // ---------------------------------------------------------------- agreement

  /** Cutting the printed signed form gives the printed unsigned form, and the signature itself. */
  lemma CutSigned(pr: char -> bool, msg: LegacyMessage, sig: bytes)
    requires PrintTable(pr) && ValidValue(msg.content) && |sig| == SignatureSize
    ensures ExtractSignature(Print(pr, SignedFields(msg, sig))) == Some(Extracted(Print(pr, UnsignedFields(msg)), sig))
  {
    var fs := SignedFields(msg, sig);
    var x := SignatureString(sig);
    MessageValid(msg, Field("signature", Str(x), NoFields));
    SignatureStringMatches(sig);
    StripMessage(msg, x);
    CutPrinted(pr, fs);
    SignatureRoundTrip(sig);
  }

  lemma StripMessage(msg: LegacyMessage, x: string)
    requires SignatureText(x)
    ensures var fs := MessageFields(msg, Field("signature", Str(x), NoFields));
      fs.(rest := Strip(fs.rest)) == UnsignedFields(msg) && Stripped(fs.rest) == [x]
  {
    var last := Field("signature", Str(x), NoFields);
    StripSignature(x);
    var f5 := Field("content", msg.content, last);
    StripOther("content", msg.content, last);
    var f4 := Field("hash", Str(msg.hash), f5);
    StripOther("hash", Str(msg.hash), f5);
    var f3 := Field("timestamp", Num(Decimal.FormatInt(msg.timestamp)), f4);
    StripOther("timestamp", f3.value, f4);
    var f2 := Field("sequence", Num(Decimal.FormatInt(msg.sequence)), f3);
    StripOther("sequence", f2.value, f3);
    StripOther("author", Str(msg.author), f2);
  }

  lemma StripSignature(x: string)
    requires SignatureText(x)
    ensures Strip(Field("signature", Str(x), NoFields)) == NoFields
      && Stripped(Field("signature", Str(x), NoFields)) == [x]
  {
    assert [x] + [] == [x];
  }

  lemma StripOther(key: string, v: Json, rest: Fields)
    requires |key| != |"signature"| || !v.Str?
    ensures Strip(Field(key, v, rest)) == Field(key, v, Strip(rest)) && Stripped(Field(key, v, rest)) == Stripped(rest)
  {
    assert [] + Stripped(rest) == Stripped(rest);
  }

  lemma SignedKeys(msg: LegacyMessage, sig: bytes)
    ensures Keys(SignedFields(msg, sig)) == TokenPrinter.FieldOrders[0]
  {
    var last := Field("signature", Str(SignatureString(sig)), NoFields);
    var f5 := Field("content", msg.content, last);
    var f4 := Field("hash", Str(msg.hash), f5);
    var f3 := Field("timestamp", Num(Decimal.FormatInt(msg.timestamp)), f4);
    var f2 := Field("sequence", Num(Decimal.FormatInt(msg.sequence)), f3);
    assert Keys(last) == ["signature"];
    assert Keys(f5) == ["content", "signature"];
    assert Keys(f4) == ["hash", "content", "signature"];
    assert Keys(f3) == ["timestamp", "hash", "content", "signature"];
    assert Keys(f2) == ["sequence", "timestamp", "hash", "content", "signature"];
    assert Keys(Field("author", Str(msg.author), f2))
      == ["author", "sequence", "timestamp", "hash", "content", "signature"];
  }

  lemma SignedLookups(msg: LegacyMessage, sig: bytes)
    ensures var fs := SignedFields(msg, sig);
      && Lookup(fs, "previous") == Some(if msg.previous.None? then Null else Str(msg.previous.value))
      && Lookup(fs, "author") == Some(Str(msg.author))
      && Lookup(fs, "sequence") == Some(Num(Decimal.FormatInt(msg.sequence)))
      && Lookup(fs, "timestamp") == Some(Num(Decimal.FormatInt(msg.timestamp)))
      && Lookup(fs, "hash") == Some(Str(msg.hash))
      && Lookup(fs, "content") == Some(msg.content)
  {
    var f1 := SignedFields(msg, sig).rest;
    var f3 := f1.rest.rest;
    EarlyLookups(msg, f3);
    LateLookups(msg, sig);
    assert f1 == Field("author", Str(msg.author), Field("sequence", Num(Decimal.FormatInt(msg.sequence)), f3));
  }

  lemma EarlyLookups(msg: LegacyMessage, f3: Fields)
    ensures var f2 := Field("sequence", Num(Decimal.FormatInt(msg.sequence)), f3);
      var f1 := Field("author", Str(msg.author), f2);
      && Lookup(f1, "author") == Some(Str(msg.author))
      && Lookup(f1, "sequence") == Some(Num(Decimal.FormatInt(msg.sequence)))
      && Lookup(f1, "timestamp") == Lookup(f3, "timestamp")
      && Lookup(f1, "hash") == Lookup(f3, "hash")
      && Lookup(f1, "content") == Lookup(f3, "content")
  {
    var f2 := Field("sequence", Num(Decimal.FormatInt(msg.sequence)), f3);
    assert Lookup(f2, "timestamp") == Lookup(f3, "timestamp");
    assert Lookup(f2, "hash") == Lookup(f3, "hash");
    assert Lookup(f2, "content") == Lookup(f3, "content");
  }

  lemma LateLookups(msg: LegacyMessage, sig: bytes)
    ensures var f3 := SignedFields(msg, sig).rest.rest.rest;
      && Lookup(f3, "timestamp") == Some(Num(Decimal.FormatInt(msg.timestamp)))
      && Lookup(f3, "hash") == Some(Str(msg.hash))
      && Lookup(f3, "content") == Some(msg.content)
  {
    var f4 := SignedFields(msg, sig).rest.rest.rest.rest;
    assert Lookup(f4, "hash") == Some(Str(msg.hash));
    assert Lookup(f4.rest, "content") == Some(msg.content);
    assert Lookup(f4, "content") == Some(msg.content);
  }

  lemma PrintedEncoded(pr: char -> bool, encode: Json -> string, fs: Fields)
    requires Encoder(encode) && ValidFields(fs)
    ensures TokenPrinter.Printed(pr, encode(Obj(fs)), false) == Ok(Print(pr, fs)) && Renders(encode(Obj(fs)), Obj(fs))
  {
    assert ValidValue(Obj(fs));
    RenderedTextParses(encode(Obj(fs)), Obj(fs));
    TokenPrinter.DocumentPrinted(pr, encode(Obj(fs)), fs, false);
  }

  /** `Sign` never fails on an encodable message; it signs the canonical text and hashes the canonical signed text. */
  lemma SignResult(cr: Crypto, pr: char -> bool, encode: Json -> string, msg: LegacyMessage, secret: bytes,
                   hmac: Option<bytes>)
    requires PrintTable(pr) && Encoder(encode) && ValidValue(msg.content)
    ensures var text := Print(pr, UnsignedFields(msg));
      var sig := cr.sign(secret, if hmac.None? then Text(text) else Mac(cr.mac(hmac.value, text)));
      Sign(cr, pr, encode, msg, secret, hmac)
        == Some(Signed(cr.sha256(V8Binary(Print(pr, SignedFields(msg, sig)))), encode(Obj(SignedFields(msg, sig))),
          text, sig))
  {
    SignedTextEncoded(pr, encode, msg, NoFields);
    SignedEncoded(pr, encode, msg, cr.sign(secret, MaybeHmac(cr, Print(pr, UnsignedFields(msg)), hmac)));
  }

  lemma SignedEncoded(pr: char -> bool, encode: Json -> string, msg: LegacyMessage, sig: bytes)
    requires Encoder(encode) && ValidValue(msg.content)
    ensures TokenPrinter.Printed(pr, encode(Obj(SignedFields(msg, sig))), false)
      == Ok(Print(pr, SignedFields(msg, sig)))
    ensures Renders(encode(Obj(SignedFields(msg, sig))), Obj(SignedFields(msg, sig)))
  {
    SignedTextEncoded(pr, encode, msg, Field("signature", Str(SignatureString(sig)), NoFields));
  }

  lemma SignedTextEncoded(pr: char -> bool, encode: Json -> string, msg: LegacyMessage, last: Fields)
    requires Encoder(encode) && ValidValue(msg.content) && ValidFields(last)
    ensures TokenPrinter.Printed(pr, encode(Obj(MessageFields(msg, last))), false)
      == Ok(Print(pr, MessageFields(msg, last)))
    ensures Renders(encode(Obj(MessageFields(msg, last))), Obj(MessageFields(msg, last)))
  {
    MessageValid(msg, last);
    PrintedEncoded(pr, encode, MessageFields(msg, last));
  }

  /** The message decodes as the format wants it; sequences have 64 bits. */
  predicate Decodes(rd: Reader, msg: LegacyMessage) {
    && msg.hash == "sha256" && (msg.previous.Some? ==> rd.isMessage(msg.previous.value))
    && -Decimal.MaxInt64 - 1 <= msg.sequence <= Decimal.MaxInt64 && rd.isFloat(Decimal.FormatInt(msg.timestamp))
  }

  /**
   Whatever a message contains: every rendering of the signed message, in particular the text `Sign` returns,
   verifies, `Verify` checks the signature against the very text that was signed, and both compute the same key.
   */
  lemma SignThenVerify(cr: Crypto, pr: char -> bool, encode: Json -> string, rd: Reader,
                       msg: LegacyMessage, secret: bytes, hmac: Option<bytes>,
                       s: Signed, raw: string)
    requires Sound(cr) && PrintTable(pr) && Encoder(encode) && ValidValue(msg.content)
    requires Decodes(rd, msg) && rd.feedKey(msg.author) == Some(cr.publicKey(secret))
    requires Sign(cr, pr, encode, msg, secret, hmac) == Some(s)
    requires Renders(raw, Obj(SignedFields(msg, s.sig))) && ContentFits(raw, SignedFields(msg, s.sig))
    ensures Verify(cr, pr, rd, raw, hmac) == Ok(Verified(s.key, s.signedText))
    ensures Renders(s.condensed, Obj(SignedFields(msg, s.sig)))
  {
    SignResult(cr, pr, encode, msg, secret, hmac);
    SignedEncoded(pr, encode, msg, s.sig);
    SignedVerifies(cr, pr, encode, rd, msg, secret, hmac, s, raw);
  }

  /** Of these payloads, a signature verifies for the one that was signed alone. */
  ghost predicate Unforgeable(cr: Crypto, secret: bytes, ps: set<Payload>) {
    forall p, p' :: p in ps && p' in ps && cr.verify(cr.publicKey(secret), p', cr.sign(secret, p)) ==> p == p'
  }

  /** With and without the network keys `keys`, these are the payloads of a text. */
  function Payloads(cr: Crypto, text: string, keys: set<bytes>): set<Payload> {
    {Text(text)} + set k | k in keys :: Mac(cr.mac(k, text))
  }

  /**
   Networks are kept apart: a message signed under one network key, or none, verifies under another if and only if it
   is the same one, as long as the keys have different authenticators for its text.
   */
  lemma NetworksApart(cr: Crypto, pr: char -> bool, encode: Json -> string, rd: Reader, msg: LegacyMessage,
                      secret: bytes, keys: set<bytes>, hmac: Option<bytes>, hmac': Option<bytes>,
                      s: Signed, raw: string)
    requires Sound(cr) && PrintTable(pr) && Encoder(encode) && ValidValue(msg.content)
    requires Decodes(rd, msg) && rd.feedKey(msg.author) == Some(cr.publicKey(secret))
    requires Sign(cr, pr, encode, msg, secret, hmac) == Some(s)
    requires Renders(raw, Obj(SignedFields(msg, s.sig))) && ContentFits(raw, SignedFields(msg, s.sig))
    requires (hmac.Some? ==> hmac.value in keys) && (hmac'.Some? ==> hmac'.value in keys)
    requires Unforgeable(cr, secret, Payloads(cr, Print(pr, UnsignedFields(msg)), keys))
    requires forall k, k' :: k in keys && k' in keys && k != k' ==>
      cr.mac(k, Print(pr, UnsignedFields(msg))) != cr.mac(k', Print(pr, UnsignedFields(msg)))
    ensures Verify(cr, pr, rd, raw, hmac').Ok? <==> hmac == hmac'
  {
    if hmac == hmac' {
      SignThenVerify(cr, pr, encode, rd, msg, secret, hmac, s, raw);
    } else {
      SignResult(cr, pr, encode, msg, secret, hmac);
      SignedTextParses(msg, s.sig, raw);
      SignedDecodes(cr, rd, msg, secret, s.sig);
      OtherNetwork(cr, pr, msg, secret, keys, hmac, hmac', s.sig);
      NotSigned(cr, pr, rd, raw, hmac', SignedFields(msg, s.sig), cr.publicKey(secret));
    }
  }

  lemma NotSigned(cr: Crypto, pr: char -> bool, rd: Reader, raw: string, hmac: Option<bytes>, fs: Fields, key: bytes)
    requires PrintTable(pr) && ParseText(raw) == Some(Obj(fs)) && fs.Field?
    requires AuthorKey(rd, fs) == Some(key) && !SignedBy(cr, pr, fs, key, hmac)
    ensures Verify(cr, pr, rd, raw, hmac).Err?
  {
    VerifiesIff(cr, pr, rd, raw, hmac);
  }

  lemma OtherNetwork(cr: Crypto, pr: char -> bool, msg: LegacyMessage, secret: bytes, keys: set<bytes>,
                     hmac: Option<bytes>, hmac': Option<bytes>, sig: bytes)
    requires (hmac.Some? ==> hmac.value in keys) && (hmac'.Some? ==> hmac'.value in keys) && hmac != hmac'
    requires Unforgeable(cr, secret, Payloads(cr, Print(pr, UnsignedFields(msg)), keys))
    requires forall k, k' :: k in keys && k' in keys && k != k' ==>
      cr.mac(k, Print(pr, UnsignedFields(msg))) != cr.mac(k', Print(pr, UnsignedFields(msg)))
    requires |sig| == SignatureSize && var text := Print(pr, UnsignedFields(msg));
      sig == cr.sign(secret, if hmac.None? then Text(text) else Mac(cr.mac(hmac.value, text)))
    ensures !SignedBy(cr, pr, SignedFields(msg, sig), cr.publicKey(secret), hmac')
  {
    SignedBare(msg, sig);
    PayloadsApart(cr, Print(pr, UnsignedFields(msg)), secret, keys, hmac, hmac');
  }

  lemma PayloadsApart(cr: Crypto, text: string, secret: bytes, keys: set<bytes>, hmac: Option<bytes>,
                      hmac': Option<bytes>)
    requires (hmac.Some? ==> hmac.value in keys) && (hmac'.Some? ==> hmac'.value in keys) && hmac != hmac'
    requires Unforgeable(cr, secret, Payloads(cr, text, keys))
    requires forall k, k' :: k in keys && k' in keys && k != k' ==> cr.mac(k, text) != cr.mac(k', text)
    ensures var sig := cr.sign(secret, if hmac.None? then Text(text) else Mac(cr.mac(hmac.value, text)));
      !cr.verify(cr.publicKey(secret), if hmac'.None? then Text(text) else Mac(cr.mac(hmac'.value, text)), sig)
  {
    var p := if hmac.None? then Text(text) else Mac(cr.mac(hmac.value, text));
    var p' := if hmac'.None? then Text(text) else Mac(cr.mac(hmac'.value, text));
    assert p in Payloads(cr, text, keys) && p' in Payloads(cr, text, keys) && p != p';
  }

  lemma SignedBare(msg: LegacyMessage, sig: bytes)
    requires |sig| == SignatureSize
    ensures Bare(SignedFields(msg, sig)) == UnsignedFields(msg)
      && Stripped(SignedFields(msg, sig).rest) == [SignatureString(sig)]
    ensures ParseSignature(Stripped(SignedFields(msg, sig).rest)[0]) == Some(sig)
  {
    SignatureStringMatches(sig);
    StripMessage(msg, SignatureString(sig));
    SignatureRoundTrip(sig);
  }

  lemma SignedVerifies(cr: Crypto, pr: char -> bool, encode: Json -> string, rd: Reader,
                       msg: LegacyMessage, secret: bytes, hmac: Option<bytes>,
                       s: Signed, raw: string)
    requires Sound(cr) && PrintTable(pr) && Encoder(encode) && ValidValue(msg.content)
    requires Decodes(rd, msg) && rd.feedKey(msg.author) == Some(cr.publicKey(secret))
    requires Sign(cr, pr, encode, msg, secret, hmac) == Some(s)
    requires Renders(raw, Obj(SignedFields(msg, s.sig))) && ContentFits(raw, SignedFields(msg, s.sig))
    ensures Verify(cr, pr, rd, raw, hmac) == Ok(Verified(s.key, s.signedText))
  {
    SignedTextParses(msg, s.sig, raw);
    SignedKeys(msg, s.sig);
    DocumentVerified(cr, pr, rd, raw, hmac, SignedFields(msg, s.sig));
    SignedDecodes(cr, rd, msg, secret, s.sig);
    SignedTextVerifies(cr, pr, encode, msg, secret, hmac, s);
  }

  lemma SignedTextVerifies(cr: Crypto, pr: char -> bool, encode: Json -> string, msg: LegacyMessage, secret: bytes,
                           hmac: Option<bytes>, s: Signed)
    requires Sound(cr) && PrintTable(pr) && Encoder(encode) && ValidValue(msg.content)
    requires Sign(cr, pr, encode, msg, secret, hmac) == Some(s)
    ensures VerifyText(cr, Print(pr, SignedFields(msg, s.sig)), cr.publicKey(secret), hmac)
      == Ok(Verified(s.key, s.signedText))
  {
    SignResult(cr, pr, encode, msg, secret, hmac);
    CutSigned(pr, msg, s.sig);
  }

  lemma SignedDecodes(cr: Crypto, rd: Reader, msg: LegacyMessage, secret: bytes, sig: bytes)
    requires Decodes(rd, msg) && rd.feedKey(msg.author) == Some(cr.publicKey(secret))
    ensures AuthorKey(rd, SignedFields(msg, sig)) == Some(cr.publicKey(secret))
  {
    SignedLookups(msg, sig);
    Decimal.ParseFormat(msg.sequence);
  }

  lemma SignedTextParses(msg: LegacyMessage, sig: bytes, raw: string)
    requires ValidValue(msg.content) && Renders(raw, Obj(SignedFields(msg, sig)))
    ensures ParseText(raw) == Some(Obj(SignedFields(msg, sig)))
  {
    MessageValid(msg, Field("signature", Str(SignatureString(sig)), NoFields));
    assert ValidValue(Obj(SignedFields(msg, sig)));
    RenderedTextParses(raw, Obj(SignedFields(msg, sig)));
  }
}
