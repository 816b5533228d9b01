/** Standard base64 (section 4 of RFC 4648) as the signature codec uses it. */
module Base64 {
  import opened Basics

  function Letter(n: int): char
    requires 0 <= n < 64
  {
    if n < 26 then ('A' as int + n) as char
    else if n < 52 then ('a' as int + n - 26) as char
    else if n < 62 then ('0' as int + n - 52) as char
    else if n == 62 then '+' else '/'
  }

  function Sextet(c: char): (n: int)
    ensures -1 <= n < 64
  {
    if 'A' <= c <= 'Z' then c as int - 'A' as int
    else if 'a' <= c <= 'z' then c as int - 'a' as int + 26
    else if '0' <= c <= '9' then c as int - '0' as int + 52
    else if c == '+' then 62 else if c == '/' then 63 else -1
  }

  lemma LetterSextet(n: int)
    requires 0 <= n < 64
    ensures Sextet(Letter(n)) == n && Letter(n) != '='
  {}

  // the four sextets of three bytes, and back
  function S0(a: byte): (n: int) ensures 0 <= n < 64 { a as int / 4 }
  function S1(a: byte, b: byte): (n: int) ensures 0 <= n < 64 { a as int % 4 * 16 + b as int / 16 }
  function S2(b: byte, c: byte): (n: int) ensures 0 <= n < 64 { b as int % 16 * 4 + c as int / 64 }
  function S3(c: byte): (n: int) ensures 0 <= n < 64 { c as int % 64 }

  function B0(p: int, q: int): byte requires 0 <= p < 64 && 0 <= q < 64 { (p * 4 + q / 16) as byte }
  function B1(q: int, r: int): byte requires 0 <= q < 64 && 0 <= r < 64 { (q % 16 * 16 + r / 4) as byte }
  function B2(r: int, s: int): byte requires 0 <= r < 64 && 0 <= s < 64 { (r % 4 * 64 + s) as byte }

  lemma GroupRoundTrip(a: byte, b: byte, c: byte)
    ensures B0(S0(a), S1(a, b)) == a && B1(S1(a, b), S2(b, c)) == b && B2(S2(b, c), S3(c)) == c
  {}

  function Encode(bs: bytes): string {
    if |bs| == 0 then ""
    else if |bs| == 1 then [Letter(S0(bs[0])), Letter(S1(bs[0], 0)), '=', '=']
    else if |bs| == 2 then [Letter(S0(bs[0])), Letter(S1(bs[0], bs[1])), Letter(S2(bs[1], 0)), '=']
    else [Letter(S0(bs[0])), Letter(S1(bs[0], bs[1])), Letter(S2(bs[1], bs[2])), Letter(S3(bs[2]))] + Encode(bs[3..])
  }

  function Push(bs: bytes, r: Option<bytes>): Option<bytes> {
    if r.None? then None else Some(bs + r.value)
  }

  function Decode(t: string): Option<bytes> {
    if t == "" then Some([])
    else if |t| < 4 || Sextet(t[0]) < 0 || Sextet(t[1]) < 0 then None
    else
      var p, q := Sextet(t[0]), Sextet(t[1]);
      if t[2] == '=' then
        if t[3] == '=' && |t| == 4 then Some([B0(p, q)]) else None
      else if Sextet(t[2]) < 0 then None
      else
        var r := Sextet(t[2]);
        if t[3] == '=' then
          if |t| == 4 then Some([B0(p, q), B1(q, r)]) else None
        else if Sextet(t[3]) < 0 then None
        else Push([B0(p, q), B1(q, r), B2(r, Sextet(t[3]))], Decode(t[4..]))
  }

  lemma DecodeOne(p: int, q: int)
    requires 0 <= p < 64 && 0 <= q < 64
    ensures Decode([Letter(p), Letter(q), '=', '=']) == Some([B0(p, q)])
  {
    LetterSextet(p);
    LetterSextet(q);
  }

  lemma DecodeTwo(p: int, q: int, r: int)
    requires 0 <= p < 64 && 0 <= q < 64 && 0 <= r < 64
    ensures Decode([Letter(p), Letter(q), Letter(r), '=']) == Some([B0(p, q), B1(q, r)])
  {
    LetterSextet(p);
    LetterSextet(q);
    LetterSextet(r);
  }

  lemma DecodeThree(p: int, q: int, r: int, s: int, rest: string)
    requires 0 <= p < 64 && 0 <= q < 64 && 0 <= r < 64 && 0 <= s < 64
    ensures Decode([Letter(p), Letter(q), Letter(r), Letter(s)] + rest)
         == Push([B0(p, q), B1(q, r), B2(r, s)], Decode(rest))
  {
    LetterSextet(p);
    LetterSextet(q);
    LetterSextet(r);
    LetterSextet(s);
    var t := [Letter(p), Letter(q), Letter(r), Letter(s)] + rest;
    assert t[0] == Letter(p) && t[1] == Letter(q) && t[2] == Letter(r) && t[3] == Letter(s) && t[4..] == rest;
  }

  lemma DecodeGroup(a: byte, b: byte, c: byte, rest: string)
    ensures Decode([Letter(S0(a)), Letter(S1(a, b)), Letter(S2(b, c)), Letter(S3(c))] + rest)
      == Push([a, b, c], Decode(rest))
  {
    GroupRoundTrip(a, b, c);
    DecodeThree(S0(a), S1(a, b), S2(b, c), S3(c), rest);
  }

  lemma OneRoundTrip(a: byte)
    ensures B0(S0(a), S1(a, 0)) == a
  {}

  lemma DecodeEncodeOne(a: byte)
    ensures Decode(Encode([a])) == Some([a])
  {
    var p, q := S0(a), S1(a, 0);
    OneRoundTrip(a);
    DecodeOne(p, q);
    assert Encode([a]) == [Letter(p), Letter(q), '=', '='];
  }

  lemma DecodeEncodeTwo(a: byte, b: byte)
    ensures Decode(Encode([a, b])) == Some([a, b])
  {
    GroupRoundTrip(a, b, 0);
    assert Encode([a, b]) == [Letter(S0(a)), Letter(S1(a, b)), Letter(S2(b, 0)), '='];
    DecodeTwo(S0(a), S1(a, b), S2(b, 0));
  }

  lemma {:induction false} DecodeEncode(bs: bytes)
    ensures Decode(Encode(bs)) == Some(bs)
  {
    if |bs| == 1 {
      DecodeEncodeOne(bs[0]);
      assert bs == [bs[0]];
    } else if |bs| == 2 {
      DecodeEncodeTwo(bs[0], bs[1]);
      assert bs == [bs[0], bs[1]];
    } else if |bs| > 2 {
      DecodeGroup(bs[0], bs[1], bs[2], Encode(bs[3..]));
      DecodeEncode(bs[3..]);
      PutBack(bs);
    }
  }

  lemma PutBack(bs: bytes)
    requires |bs| > 2
    ensures bs == [bs[0], bs[1], bs[2]] + bs[3..]
  {}

  function EncodedLen(n: nat): nat { (n + 2) / 3 * 4 }

  lemma {:induction false} EncodeLength(bs: bytes)
    ensures |Encode(bs)| == EncodedLen(|bs|)
  {
    if |bs| > 2 {
      EncodeLength(bs[3..]);
      var n := |bs|;
      assert (n + 2) / 3 == (n - 3 + 2) / 3 + 1;
    }
  }

  /** The decoder returns three bytes a group, less one or two for padding. */
  lemma {:induction false} DecodeLength(t: string)
    requires Decode(t).Some?
    ensures |t| % 4 == 0
    ensures |t| / 4 * 3 - 2 <= |Decode(t).value| <= |t| / 4 * 3
  {
    if |t| > 4 {
      DecodeLength(t[4..]);
    }
  }

  predicate IsBase64Char(c: char) { Sextet(c) >= 0 || c == '=' }

  lemma {:induction false} EncodeAlphabet(bs: bytes)
    ensures forall i :: 0 <= i < |Encode(bs)| ==> IsBase64Char(Encode(bs)[i])
  {
    if |bs| > 0 {
      var a := bs[0];
      var b := if |bs| > 1 then bs[1] else 0;
      var c := if |bs| > 2 then bs[2] else 0;
      LetterSextet(S0(a));
      LetterSextet(S1(a, b));
      LetterSextet(S2(b, c));
      LetterSextet(S3(c));
      if |bs| > 2 {
        EncodeAlphabet(bs[3..]);
      }
    }
  }

  /** The sextets of a text, most significant bits first, as one number. */
  function Number(ns: seq<int>, base: nat): int {
    if ns == [] then 0 else Number(ns[..|ns| - 1], base) * base + ns[|ns| - 1]
  }

  /** Three bytes and their four letters are the same number, in base 256 and in base 64. */
  lemma SameNumber(a: byte, b: byte, c: byte)
    ensures Number([a as int, b as int, c as int], 256) == Number([S0(a), S1(a, b), S2(b, c), S3(c)], 64)
  {
    var x, y := [a as int, b as int, c as int], [S0(a), S1(a, b), S2(b, c), S3(c)];
    assert x[..2] == [a as int, b as int] && x[..2][..1] == [a as int] && x[..2][..1][..0] == [];
    assert y[..3] == [S0(a), S1(a, b), S2(b, c)] && y[..3][..2] == [S0(a), S1(a, b)] && y[..3][..2][..1] == [S0(a)];
    assert y[..3][..2][..1][..0] == [];
    assert Number([a as int], 256) == a as int && Number([S0(a)], 64) == S0(a);
    assert Number(x[..2], 256) == a as int * 256 + b as int;
    assert Number(y[..3][..2], 64) == S0(a) * 64 + S1(a, b);
    assert Number(y[..3], 64) == (S0(a) * 64 + S1(a, b)) * 64 + S2(b, c);
  }

  /** The letters of table 1 of RFC 4648: where each range begins and ends, and that it counts up. */
  lemma AlphabetInOrder(n: int)
    requires 0 <= n < 63
    ensures Letter(0) == 'A' && Letter(25) == 'Z' && Letter(26) == 'a' && Letter(51) == 'z'
    ensures Letter(52) == '0' && Letter(61) == '9' && Letter(62) == '+' && Letter(63) == '/'
    ensures n !in {25, 51, 61, 62} ==> Letter(n + 1) as int == Letter(n) as int + 1
  {}

  /** Examples of section 10 of RFC 4648. */
  lemma Examples()
    ensures Encode([102]) == "Zg==" && Encode([102, 111]) == "Zm8=" && Encode([102, 111, 111]) == "Zm9v"
  {
    var three: bytes := [102, 111, 111];
    assert three[3..] == [];
    assert Encode(three) == [Letter(25), Letter(38), Letter(61), Letter(47)] + Encode([]);
  }
}
