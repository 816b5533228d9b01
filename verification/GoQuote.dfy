/**
 Keys and array strings are written as Go string literals.  How Go reads such a
 literal back, one character at a time, and that `%q` writes the shortest escape.
 */
module GoQuote {
  import opened Basics
  import opened JsonText
  import opened LegacyPrinter
  import opened V8Text

  /** The number of hexadecimal digits, or -1. */
  function HexNumber(t: string): int {
    if t == "" then 0
    else
      var n, d := HexNumber(t[..|t| - 1]), HexValue(t[|t| - 1]);
      if n < 0 || d < 0 then -1 else n * 16 + d
  }

  function ShortName(c: char): Option<char> {
    match c
    case 'a' => Some('\U{7}')
    case 'b' => Some('\U{8}')
    case 'f' => Some('\U{C}')
    case 'n' => Some('\n')
    case 'r' => Some('\r')
    case 't' => Some('\t')
    case 'v' => Some('\U{B}')
    case '\\' => Some('\\')
    case '"' => Some('"')
    case _ => None
  }

  /** The digits an escape takes. */
  function DigitsAfter(c: char): nat { if c == 'x' then 2 else if c == 'u' then 4 else if c == 'U' then 8 else 0 }

  /** A code point that an escape with that many digits may name; two digits name a byte, here an ASCII character. */
  predicate Names(n: int, digits: nat) {
    0 <= n < 0x11_0000 && !(0xD800 <= n < 0xE000) && (digits == 2 ==> n < 0x80)
  }

  /** The first character of an interpreted string literal. */
  function ReadLiteral(t: string): Option<Scanned> {
    if t == "" || t[0] == '"' || t[0] == '\n' then None
    else if t[0] != '\\' then Some(Scanned(t[0], t[1..]))
    else if |t| == 1 then None
    else if ShortName(t[1]).Some? then Some(Scanned(ShortName(t[1]).value, t[2..]))
    else
      var k := DigitsAfter(t[1]);
      if k == 0 || |t| < 2 + k || !Names(HexNumber(t[2..2 + k]), k) then None
      else Some(Scanned(HexNumber(t[2..2 + k]) as char, t[2 + k..]))
  }

  /** Whatever the character, Go reads back what `%q` writes. */
  lemma LiteralReadsBack(pr: char -> bool, c: char, r: string)
    requires PrintTable(pr)
    ensures ReadLiteral(QuoteChar(pr, c) + r) == Some(Scanned(c, r))
  {
    var w := QuoteChar(pr, c);
    var t := w + r;
    assert t[|w|..] == r && t[0] == w[0];
    if |w| > 2 {
      var k := |w| - 2;
      assert t[1] == w[1] && t[2..2 + k] == w[2..];
      DigitsRead(pr, c);
    }
  }

  lemma DigitsRead(pr: char -> bool, c: char)
    requires PrintTable(pr) && |QuoteChar(pr, c)| > 2
    ensures var w := QuoteChar(pr, c);
      HexNumber(w[2..]) == c as int && DigitsAfter(w[1]) == |w| - 2 && Names(c as int, |w| - 2)
  {
    var w, n := QuoteChar(pr, c), c as int;
    if c < ' ' {
      TwoDigits(n / 16, n % 16);
      assert w[2..] == [HexDigit(n / 16), HexDigit(n % 16)];
    } else if n < 0x1_0000 {
      FourDigits(n);
      assert w[2..] == Hex4(n);
    } else {
      EightDigits(n / 0x1_0000, n % 0x1_0000);
      assert w[2..] == Hex4(n / 0x1_0000) + Hex4(n % 0x1_0000);
    }
  }

  lemma TwoDigits(a: int, b: int)
    requires 0 <= a < 16 && 0 <= b < 16
    ensures HexNumber([HexDigit(a), HexDigit(b)]) == 16 * a + b
  {
    HexNext("", a);
    HexNext([HexDigit(a)], b);
    assert "" + [HexDigit(a)] == [HexDigit(a)] && [HexDigit(a)] + [HexDigit(b)] == [HexDigit(a), HexDigit(b)];
  }

  lemma HexNext(t: string, d: int)
    requires 0 <= d < 16
    ensures HexNumber(t + [HexDigit(d)]) == if HexNumber(t) < 0 then -1 else HexNumber(t) * 16 + d
  {
    assert (t + [HexDigit(d)])[..|t|] == t;
    HexDigitReadsBack(d);
  }

  lemma FourMore(t: string, n: int)
    requires 0 <= n < 0x1_0000 && HexNumber(t) >= 0
    ensures HexNumber(t + Hex4(n)) == HexNumber(t) * 0x1_0000 + n
  {
    var a, b, c, d := n / 4096, n / 256 % 16, n / 16 % 16, n % 16;
    var t1 := t + [HexDigit(a)];
    var t2 := t1 + [HexDigit(b)];
    var t3 := t2 + [HexDigit(c)];
    HexNext(t, a);
    HexNext(t1, b);
    HexNext(t2, c);
    HexNext(t3, d);
    assert t3 + [HexDigit(d)] == t + Hex4(n);
    Digits16(n);
  }

  lemma FourDigits(n: int)
    requires 0 <= n < 0x1_0000
    ensures HexNumber(Hex4(n)) == n
  {
    FourMore("", n);
    assert "" + Hex4(n) == Hex4(n);
  }

  lemma EightDigits(a: int, b: int)
    requires 0 <= a < 0x1_0000 && 0 <= b < 0x1_0000
    ensures HexNumber(Hex4(a) + Hex4(b)) == a * 0x1_0000 + b
  {
    FourDigits(a);
    FourMore(Hex4(a), b);
  }

  /** An escape of a character that cannot be printed is never shorter, and as short only in the same letters. */
  lemma ShortestEscape(pr: char -> bool, c: char, w: string)
    requires PrintTable(pr) && !pr(c) && c != '\U{7F}'
    requires |w| > 1 && w[0] == '\\' && ReadLiteral(w) == Some(Scanned(c, ""))
    ensures |QuoteChar(pr, c)| <= |w|
    ensures |QuoteChar(pr, c)| == |w| && SmallHex(w[2..]) ==> w == QuoteChar(pr, c)
  {
    if ShortName(w[1]).Some? {
      assert w == ['\\', w[1]];
      ShortForm(pr, c, w[1]);
    } else {
      LongForm(c, w);
      if |w| == 6 { FourDigitsSmall(w[2..]); }
      NotShorter(pr, c, DigitsAfter(w[1]));
      if |QuoteChar(pr, c)| == |w| && SmallHex(w[2..]) { SameForm(pr, c, w); }
    }
  }

  lemma ShortForm(pr: char -> bool, c: char, x: char)
    requires PrintTable(pr) && !pr(c) && ShortName(x) == Some(c)
    ensures QuoteChar(pr, c) == ['\\', x]
  {}

  lemma LongForm(c: char, w: string)
    requires |w| > 1 && w[0] == '\\' && ShortName(w[1]).None? && ReadLiteral(w) == Some(Scanned(c, ""))
    ensures var k := DigitsAfter(w[1]); |w| == 2 + k && k > 0 && HexNumber(w[2..]) == c as int && Names(c as int, k)
  {
    assert w[2..2 + DigitsAfter(w[1])] == w[2..];
  }

  lemma FourDigitsSmall(h: string)
    requires |h| == 4
    ensures HexNumber(h) < 0x1_0000
  {
    assert h[..3][..2] == h[..2] && h[..3][..2][..1] == h[..1] && h[..3][..2][..1][..0] == "";
    assert HexNumber(h[..1]) < 16 && HexNumber(h[..2]) < 256 && HexNumber(h[..3]) < 4096;
  }

  lemma NotShorter(pr: char -> bool, c: char, k: nat)
    requires PrintTable(pr) && !pr(c) && c != '\U{7F}' && (k == 2 || k == 4 || k == 8) && Names(c as int, k)
    requires k == 4 ==> c < '\U{10000}'
    ensures |QuoteChar(pr, c)| <= 2 + k
  {}

  lemma SameForm(pr: char -> bool, c: char, w: string)
    requires PrintTable(pr) && |w| == |QuoteChar(pr, c)| > 2 && w[0] == '\\' && DigitsAfter(w[1]) == |w| - 2
    requires HexNumber(w[2..]) == c as int && SmallHex(w[2..])
    ensures w == QuoteChar(pr, c)
  {
    var q := QuoteChar(pr, c);
    DigitsRead(pr, c);
    QuoteSmall(pr, c);
    SameDigits(w[2..], q[2..]);
    assert w == ['\\', w[1]] + w[2..] && q == ['\\', q[1]] + q[2..];
  }

  lemma QuoteSmall(pr: char -> bool, c: char)
    requires PrintTable(pr) && |QuoteChar(pr, c)| > 2
    ensures SmallHex(QuoteChar(pr, c)[2..])
  {
    forall n | 0 <= n < 16 ensures !('A' <= HexDigit(n) <= 'F') {}
  }

  lemma {:induction false} SameDigits(a: string, b: string)
    requires |a| == |b| && SmallHex(a) && SmallHex(b) && HexNumber(a) == HexNumber(b) >= 0
    ensures a == b
    decreases |a|
  {
    if a != "" {
      var n := |a| - 1;
      LastDigit(HexNumber(a[..n]), HexValue(a[n]), HexNumber(b[..n]), HexValue(b[n]));
      SameDigits(a[..n], b[..n]);
      assert a == a[..n] + [a[n]] && b == b[..n] + [b[n]];
    }
  }

  lemma LastDigit(m: int, d: int, m': int, d': int)
    requires 0 <= d < 16 && 0 <= d' < 16 && m * 16 + d == m' * 16 + d'
    ensures m == m' && d == d'
  {}
}
