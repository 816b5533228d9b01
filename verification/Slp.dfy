/** Shallow length-prefixed lists: every element is preceded by its length in two bytes. */
module Slp {
  import opened Basics

  /** A number modulo 2^16, little-endian. */
  function Uint16(n: nat): (r: bytes)
    ensures |r| == 2
  {
    [(n % 256) as byte, (n / 256 % 256) as byte]
  }

  function ReadUint16(b: bytes): (n: nat)
    requires |b| >= 2
    ensures n < 65536
  {
    b[0] as nat + 256 * b[1] as nat
  }

  lemma Uint16RoundTrip(n: nat, rest: bytes)
    ensures ReadUint16(Uint16(n) + rest) == n % 65536
  {}

  lemma ReadWrite(b: bytes)
    requires |b| >= 2
    ensures Uint16(ReadUint16(b)) == b[..2]
  {}

  /** The number that bytes stand for, the first one counting least. */
  function LittleEndian(b: bytes): nat { if b == [] then 0 else b[0] as nat + 256 * LittleEndian(b[1..]) }

  lemma Uint16IsLittleEndian(n: nat, b: bytes)
    ensures LittleEndian(Uint16(n)) == n % 65536
    ensures |b| >= 2 ==> ReadUint16(b) == LittleEndian(b[..2])
  {
    LittleEndianTwo(Uint16(n));
    if |b| >= 2 { LittleEndianTwo(b[..2]); }
  }

  lemma LittleEndianTwo(b: bytes)
    requires |b| == 2
    ensures LittleEndian(b) == b[0] as nat + 256 * b[1] as nat
  {
    assert b[1..][1..] == [];
    assert LittleEndian(b[1..]) == b[1] as nat;
  }

  predicate Fits(list: seq<bytes>) { forall i :: 0 <= i < |list| ==> |list[i]| < 65536 }

  /** The encoding of a list whose elements fit. */
  function Encoded(list: seq<bytes>): bytes {
    if list == [] then [] else Uint16(|list[0]|) + list[0] + Encoded(list[1..])
  }

  /** Decoding; `None` where the program's slicing runs out of bounds. */
  function Decoded(b: bytes): Option<seq<bytes>> {
    if b == [] then Some([])
    else if |b| < 2 || |b| < 2 + ReadUint16(b) then None
    else
      var n := ReadUint16(b);
      var rest := Decoded(b[2 + n..]);
      if rest.None? then None else Some([b[2..2 + n]] + rest.value)
  }

  /** Decoding inverts encoding. */
  lemma {:induction false} DecodeEncode(list: seq<bytes>)
    requires Fits(list)
    ensures Decoded(Encoded(list)) == Some(list)
  {
    if list != [] {
      DecodeEncode(list[1..]);
      DecodeCons(list[0], Encoded(list[1..]));
      assert list == [list[0]] + list[1..];
    }
  }

  lemma DecodeCons(x: bytes, rest: bytes)
    requires |x| < 65536
    ensures Decoded(Uint16(|x|) + x + rest) == Prepend([x], Decoded(rest))
  {
    var b := Uint16(|x|) + x + rest;
    Uint16RoundTrip(|x|, x + rest);
    assert b == Uint16(|x|) + (x + rest);
    var n := ReadUint16(b);
    assert n == |x|;
    assert b[2..2 + n] == x && b[2 + n..] == rest;
  }

  function Prepend(out: seq<bytes>, r: Option<seq<bytes>>): Option<seq<bytes>> {
    if r.None? then None else Some(out + r.value)
  }

  /** Whatever decodes is the encoding of what it decodes to. */
  lemma {:induction false} EncodeDecode(b: bytes)
    requires Decoded(b).Some?
    ensures Fits(Decoded(b).value) && Encoded(Decoded(b).value) == b
    decreases |b|
  {
    if b != [] {
      var x, rest := FirstEntry(b);
      EncodeDecode(rest);
      EncodedCons(x, Decoded(rest).value);
    }
  }

  lemma FirstEntry(b: bytes) returns (x: bytes, rest: bytes)
    requires b != [] && Decoded(b).Some?
    ensures |x| < 65536 && |rest| < |b| && b == Uint16(|x|) + x + rest
    ensures Decoded(rest).Some? && Decoded(b).value == [x] + Decoded(rest).value
  {
    var n := ReadUint16(b);
    x, rest := b[2..2 + n], b[2 + n..];
    ReadWrite(b);
    assert b == b[..2] + x + rest;
  }

  lemma EncodedCons(x: bytes, list: seq<bytes>)
    ensures Encoded([x] + list) == Uint16(|x|) + x + Encoded(list)
  {
    assert ([x] + list)[1..] == list;
  }

  /** Distinct lists, such as distinct derivation contexts, have distinct encodings. */
  lemma EncodedInjective(a: seq<bytes>, b: seq<bytes>)
    requires Fits(a) && Fits(b) && Encoded(a) == Encoded(b)
    ensures a == b
  {
    DecodeEncode(a);
    DecodeEncode(b);
  }

  lemma {:induction false} EncodedSnoc(list: seq<bytes>, x: bytes)
    ensures Encoded(list + [x]) == Encoded(list) + Uint16(|x|) + x
    decreases |list|
  {
    if list == [] {
      assert [x][1..] == [] && [] + [x] == [x];
    } else {
      assert (list + [x])[1..] == list[1..] + [x];
      EncodedSnoc(list[1..], x);
    }
  }

  /** An element that is too long is an error. */
  method Encode(list: seq<bytes>) returns (r: Option<bytes>)
    ensures r == if Fits(list) then Some(Encoded(list)) else None
  {
    var out: bytes := [];
    for i := 0 to |list|
      invariant Fits(list[..i]) && out == Encoded(list[..i])
    {
      if |list[i]| > 65535 {
        return None;
      }
      assert list[..i + 1] == list[..i] + [list[i]];
      EncodedSnoc(list[..i], list[i]);
      out := out + Uint16(|list[i]|);
      out := out + list[i];
    }
    assert list[..|list|] == list;
    return Some(out);
  }

  method Decode(data: bytes) returns (r: Option<seq<bytes>>)
    ensures r == Decoded(data)
  {
    var out: seq<bytes>, input := [], data;
    assert Decoded(data).Some? ==> [] + Decoded(data).value == Decoded(data).value;
    while |input| > 0
      invariant Decoded(data) == Prepend(out, Decoded(input))
      decreases |input|
    {
      if |input| < 2 {
        return None;
      }
      var entryLen := ReadUint16(input);
      if |input| - 2 < entryLen {
        return None;
      }
      DecodeStep(out, input);
      out := out + [input[2..2 + entryLen]];
      input := input[2 + entryLen..];
    }
    assert out + [] == out;
    return Some(out);
  }

  lemma DecodeStep(out: seq<bytes>, input: bytes)
    requires |input| >= 2 && |input| >= 2 + ReadUint16(input)
    ensures var n := ReadUint16(input);
      Prepend(out, Decoded(input)) == Prepend(out + [input[2..2 + n]], Decoded(input[2 + n..]))
  {
    var n := ReadUint16(input);
    DecodedFirst(input);
    PrependFirst(out, input[2..2 + n], Decoded(input[2 + n..]));
  }

  lemma DecodedFirst(input: bytes)
    requires |input| >= 2 && |input| >= 2 + ReadUint16(input)
    ensures var n := ReadUint16(input);
      Decoded(input) == Prepend([input[2..2 + n]], Decoded(input[2 + n..]))
  {}

  lemma PrependFirst(out: seq<bytes>, x: bytes, r: Option<seq<bytes>>)
    ensures Prepend(out, Prepend([x], r)) == Prepend(out + [x], r)
  {
    if r.Some? { assert out + ([x] + r.value) == (out + [x]) + r.value; }
  }

  lemma {:induction false} EncodedConcat(a: seq<bytes>, b: seq<bytes>)
    ensures Encoded(a + b) == Encoded(a) + Encoded(b)
    decreases |a|
  {
    if a == [] {
      assert a + b == b;
    } else {
      assert (a + b)[1..] == a[1..] + b;
      EncodedConcat(a[1..], b);
    }
  }

  /** Where an element stands: behind all earlier ones come its length, least byte first, and its bytes. */
  lemma ElementAt(before: seq<bytes>, x: bytes, behind: seq<bytes>)
    requires |x| < 65536
    ensures var e, at := Encoded(before + [x] + behind), |Encoded(before)|;
      && at + 2 + |x| <= |e|
      && LittleEndian(e[at..at + 2]) == |x| && e[at + 2..at + 2 + |x|] == x
      && e[..at] == Encoded(before) && e[at + 2 + |x|..] == Encoded(behind)
  {
    EncodedThree(before, x, behind);
    Uint16IsLittleEndian(|x|, []);
    var a, z :| a == Encoded(before) && z == Encoded(behind);
    PartsAt(a, Uint16(|x|), x, z);
  }

  lemma EncodedThree(before: seq<bytes>, x: bytes, behind: seq<bytes>)
    ensures Encoded(before + [x] + behind) == Encoded(before) + (Uint16(|x|) + x) + Encoded(behind)
  {
    EncodedConcat(before + [x], behind);
    EncodedConcat(before, [x]);
    assert [x][1..] == [] && Encoded([]) == [];
    assert Uint16(|x|) + x + [] == Uint16(|x|) + x;
  }

  lemma PartsAt(a: bytes, u: bytes, x: bytes, z: bytes)
    ensures var e := a + (u + x) + z;
      && e[..|a|] == a && e[|a|..|a| + |u|] == u && e[|a| + |u|..|a| + |u| + |x|] == x && e[|a| + |u| + |x|..] == z
  {}

  // ---------------------------------------------------------------- key derivation

  /** A key derivation function in the sense of HKDF-Expand: key and info give 32 bytes. */
  type Expand = (bytes, bytes) -> bytes

  datatype DeriveError = WrongLength | TooLong

  /** The derived key, or an error. */
  function Derived(expand: Expand, length: nat, key: bytes, infos: seq<bytes>): Result<bytes, DeriveError> {
    if length != 32 then Err(WrongLength)
    else if !Fits(infos) then Err(TooLong)
    else Ok(expand(key, Encoded(infos)))
  }

  /** Writes the derived key into the caller's buffer. */
  method DeriveTo(expand: Expand, out: array<byte>, key: bytes, infos: seq<bytes>) returns (err: Option<DeriveError>)
    requires |expand(key, Encoded(infos))| == 32
    modifies out
    ensures match Derived(expand, out.Length, key, infos)
      case Ok(k) => err == None && out[..] == k
      case Err(e) => err == Some(e) && out[..] == old(out[..])
  {
    if out.Length != 32 {
      return Some(WrongLength);
    }
    var slp := Encode(infos);
    if slp.None? {
      return Some(TooLong);
    }
    var k := expand(key, slp.value);
    for i := 0 to 32
      invariant out[..i] == k[..i]
    {
      out[i] := k[i];
    }
    assert k[..32] == k;
    err := None;
  }

  /** Distinct contexts get distinct keys, unless the derivation function collides on distinct info strings. */
  lemma ContextsSeparate(expand: Expand, key: bytes, a: seq<bytes>, b: seq<bytes>)
    requires Fits(a) && Fits(b) && a != b
    requires expand(key, Encoded(a)) == expand(key, Encoded(b)) ==> Encoded(a) == Encoded(b)
    ensures Derived(expand, 32, key, a) != Derived(expand, 32, key, b)
  {
    if Encoded(a) == Encoded(b) { EncodedInjective(a, b); }
  }
}
