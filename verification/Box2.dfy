/**
 Private-group envelopes: a sealed header, one slot per recipient that masks
 the message key, and the sealed body.  The cipher and the key derivation
 function are parameters; layout, slots, masking and offsets are real.
 */
module Box2 {
  import opened Basics
  import opened Slp
  import opened Box1
  import opened KeyStore

  const KeySize: nat := 32
  const MaxSlots: nat := 32

  // ---------------------------------------------------------------- masking

  /** The exclusive or of two numbers of `n` bits. */
  function XorBits(a: nat, b: nat, n: nat): nat {
    if n == 0 then 0 else (a + b) % 2 + 2 * XorBits(a / 2, b / 2, n - 1)
  }

  function Bit(a: nat, k: nat): nat { if k == 0 then a % 2 else Bit(a / 2, k - 1) }

  /** Bit by bit, the result is set where exactly one of the two is. */
  lemma {:induction false} BitOfXor(a: nat, b: nat, n: nat, k: nat)
    requires k < n
    ensures Bit(XorBits(a, b, n), k) == if Bit(a, k) == Bit(b, k) then 0 else 1
    decreases n
  {
    LowBit(a, b, XorBits(a / 2, b / 2, n - 1));
    if k > 0 {
      BitOfXor(a / 2, b / 2, n - 1, k - 1);
    } else {
      assert (a + b) % 2 == if a % 2 == b % 2 then 0 else 1;
    }
  }

  function Pow2(n: nat): nat { if n == 0 then 1 else 2 * Pow2(n - 1) }

  lemma {:induction false} XorRange(a: nat, b: nat, n: nat)
    ensures XorBits(a, b, n) < Pow2(n)
  {
    if n > 0 { XorRange(a / 2, b / 2, n - 1); }
  }

  /** Masking twice gives the number back. */
  lemma {:induction false} XorTwice(a: nat, b: nat, n: nat)
    requires a < Pow2(n)
    ensures XorBits(XorBits(a, b, n), b, n) == a
  {
    if n > 0 {
      XorTwice(a / 2, b / 2, n - 1);
      LowBit(a, b, XorBits(a / 2, b / 2, n - 1));
    }
  }

  lemma LowBit(a: nat, b: nat, rest: nat)
    ensures var x := (a + b) % 2 + 2 * rest; x / 2 == rest && (x + b) % 2 == a % 2
  {}

  lemma {:induction false} XorCommutes(a: nat, b: nat, n: nat)
    ensures XorBits(a, b, n) == XorBits(b, a, n)
  {
    if n > 0 { XorCommutes(a / 2, b / 2, n - 1); }
  }

  function XorByte(a: byte, b: byte): byte {
    XorRange(a as nat, b as nat, 8);
    assert Pow2(8) == 256;
    XorBits(a as nat, b as nat, 8) as byte
  }

  lemma XorByteTwice(a: byte, b: byte)
    ensures XorByte(XorByte(a, b), b) == a && XorByte(a, b) == XorByte(b, a)
  {
    assert Pow2(8) == 256;
    XorRange(a as nat, b as nat, 8);
    XorTwice(a as nat, b as nat, 8);
    XorCommutes(a as nat, b as nat, 8);
  }

  function Xor(a: bytes, b: bytes): (r: bytes)
    requires |a| == |b|
    ensures |r| == |a|
  {
    seq(|a|, i requires 0 <= i < |a| => XorByte(a[i], b[i]))
  }

  lemma Unmask(key: bytes, mask: bytes)
    requires |key| == |mask|
    ensures Xor(Xor(key, mask), mask) == key && Xor(mask, key) == Xor(key, mask)
  {
    forall i | 0 <= i < |key|
      ensures XorByte(XorByte(key[i], mask[i]), mask[i]) == key[i]
      ensures XorByte(mask[i], key[i]) == XorByte(key[i], mask[i])
    {
      XorByteTwice(key[i], mask[i]);
      XorByteTwice(mask[i], key[i]);
    }
  }

  /** A slot gives the message key to one mask only. */
  lemma MaskIsUnique(key: bytes, mask: bytes, mask': bytes)
    requires |key| == |mask| == |mask'| && Xor(mask', Xor(mask, key)) == key
    ensures mask == mask'
  {
    var slot := Xor(mask, key);
    Unmask(mask', slot);
    Unmask(mask, key);
    Unmask(key, mask);
    assert Xor(Xor(mask', slot), slot) == mask';
    assert Xor(key, slot) == mask';
    Unmask(key, slot);
    Unmask(slot, key);
    assert slot == Xor(mask, key);
    assert Xor(slot, key) == mask;
  }

  // ---------------------------------------------------------------- key derivation

  /** Sealing and key derivation. */
  datatype Suite = Suite(boxes: SecretBox, expand: Expand)

  ghost predicate LawfulSuite(s: Suite) {
    Lawful(s.boxes) && forall k: bytes, i: bytes :: |s.expand(k, i)| == KeySize
  }

  /** The encodings of the author and of the previous message. */
  datatype Context = Context(feed: bytes, previous: bytes)

  predicate ContextFits(c: Context) { |c.feed| < 65536 && |c.previous| < 65536 }

  function Info(c: Context, infos: seq<bytes>): seq<bytes> { [Ascii("envelope"), c.feed, c.previous] + infos }

  function Derive(s: Suite, c: Context, key: bytes, infos: seq<bytes>): bytes { s.expand(key, Encoded(Info(c, infos))) }

  function ReadKey(s: Suite, c: Context, msgKey: bytes): bytes { Derive(s, c, msgKey, [Ascii("read_key")]) }
  function HeaderKey(s: Suite, c: Context, readKey: bytes): bytes { Derive(s, c, readKey, [Ascii("header_key")]) }
  function BodyKey(s: Suite, c: Context, readKey: bytes): bytes { Derive(s, c, readKey, [Ascii("body_key")]) }
  function SlotKey(s: Suite, c: Context, r: Recipient): bytes { Derive(s, c, r.key, [Ascii("slot_key"), r.scheme]) }

  /** The keys of an envelope and the labels they are derived under, as the envelope specification names them. */
  lemma EnvelopeKeys(s: Suite, c: Context, key: bytes, r: Recipient)
    ensures ReadKey(s, c, key) == s.expand(key, Encoded([Ascii("envelope"), c.feed, c.previous, Ascii("read_key")]))
    ensures HeaderKey(s, c, key) == s.expand(key, Encoded([Ascii("envelope"), c.feed, c.previous, Ascii("header_key")]))
    ensures BodyKey(s, c, key) == s.expand(key, Encoded([Ascii("envelope"), c.feed, c.previous, Ascii("body_key")]))
    ensures SlotKey(s, c, r)
      == s.expand(r.key, Encoded([Ascii("envelope"), c.feed, c.previous, Ascii("slot_key"), r.scheme]))
  {
    InfoIs(c, Ascii("read_key"), r.scheme);
    InfoIs(c, Ascii("header_key"), r.scheme);
    InfoIs(c, Ascii("body_key"), r.scheme);
    InfoIs(c, Ascii("slot_key"), r.scheme);
  }

  lemma InfoIs(c: Context, name: bytes, scheme: bytes)
    ensures Info(c, [name]) == [Ascii("envelope"), c.feed, c.previous, name]
    ensures Info(c, [name, scheme]) == [Ascii("envelope"), c.feed, c.previous, name, scheme]
  {}

  /** Distinct contexts or schemes mean distinct inputs to the derivation of slot keys. */
  lemma SlotInfosDiffer(c: Context, c': Context, scheme: bytes, scheme': bytes)
    requires ContextFits(c) && ContextFits(c') && |scheme| < 65536 && |scheme'| < 65536
    requires Encoded(Info(c, [Ascii("slot_key"), scheme])) == Encoded(Info(c', [Ascii("slot_key"), scheme']))
    ensures c == c' && scheme == scheme'
  {
    var a, b := Info(c, [Ascii("slot_key"), scheme]), Info(c', [Ascii("slot_key"), scheme']);
    EncodedInjective(a, b);
    assert a[1] == c.feed && a[2] == c.previous && a[4] == scheme;
    assert b[1] == c'.feed && b[2] == c'.previous && b[4] == scheme';
  }

  /** Unless the derivation function collides, only the same key under the same scheme has the same slot key. */
  lemma SlotKeysDiffer(s: Suite, c: Context, r: Recipient, r': Recipient)
    requires ContextFits(c) && |r.scheme| < 65536 && |r'.scheme| < 65536
    requires var i, i' := Encoded(Info(c, [Ascii("slot_key"), r.scheme])),
      Encoded(Info(c, [Ascii("slot_key"), r'.scheme]));
      s.expand(r.key, i) == s.expand(r'.key, i') ==> r.key == r'.key && i == i'
    ensures SlotKey(s, c, r) == SlotKey(s, c, r') <==> r.key == r'.key && r.scheme == r'.scheme
  {
    if SlotKey(s, c, r) == SlotKey(s, c, r') { SlotInfosDiffer(c, c, r.scheme, r'.scheme); }
  }

  // ---------------------------------------------------------------- layout

  function Zero24(): bytes { seq(24, _ => 0 as byte) }

  function HeaderPlain(n: nat): (r: bytes)
    ensures |r| == 16
  {
    Uint16(32 + 32 * n) + seq(14, _ => 0 as byte)
  }

  function SlotsFor(s: Suite, c: Context, msgKey: bytes, recps: seq<Recipient>): bytes
    requires LawfulSuite(s) && |msgKey| == KeySize
  {
    if recps == [] then []
    else SlotsFor(s, c, msgKey, recps[..|recps| - 1]) + Xor(SlotKey(s, c, recps[|recps| - 1]), msgKey)
  }

  lemma {:induction false} SlotsForAt(s: Suite, c: Context, msgKey: bytes, recps: seq<Recipient>, rest: bytes, i: nat)
    requires LawfulSuite(s) && |msgKey| == KeySize && i < |recps|
    ensures |SlotsFor(s, c, msgKey, recps)| == 32 * |recps|
    ensures (SlotsFor(s, c, msgKey, recps) + rest)[32 * i..32 * (i + 1)] == Xor(SlotKey(s, c, recps[i]), msgKey)
    decreases |recps|
  {
    var n := |recps| - 1;
    var before, last := SlotsFor(s, c, msgKey, recps[..n]), Xor(SlotKey(s, c, recps[n]), msgKey);
    SlotsForLength(s, c, msgKey, recps[..n]);
    var all := SlotsFor(s, c, msgKey, recps) + rest;
    assert all == before + (last + rest);
    if i < n {
      SlotsForAt(s, c, msgKey, recps[..n], last + rest, i);
    }
  }

  lemma {:induction false} SlotsForLength(s: Suite, c: Context, msgKey: bytes, recps: seq<Recipient>)
    requires LawfulSuite(s) && |msgKey| == KeySize
    ensures |SlotsFor(s, c, msgKey, recps)| == 32 * |recps|
    decreases |recps|
  {
    if recps != [] { SlotsForLength(s, c, msgKey, recps[..|recps| - 1]); }
  }

  function Sealed(s: Suite, c: Context, msgKey: bytes, recps: seq<Recipient>, plain: bytes): bytes
    requires LawfulSuite(s) && |msgKey| == KeySize
  {
    var readKey := ReadKey(s, c, msgKey);
    s.boxes.seal(HeaderKey(s, c, readKey), Zero24(), HeaderPlain(|recps|))
    + SlotsFor(s, c, msgKey, recps)
    + s.boxes.seal(BodyKey(s, c, readKey), Zero24(), plain)
  }

  datatype EnvelopeError = EmptyPlaintext | TooManyRecipients | BadInfo | CouldNotDecrypt | Invalid | Truncated

  predicate SchemesFit(recps: seq<Recipient>) { forall i :: 0 <= i < |recps| ==> |recps[i].scheme| < 65536 }

  // ---------------------------------------------------------------- opening

  /** The header under a message key that is tried. */
  function TryKey(s: Suite, c: Context, header: bytes, msgKey: bytes): Option<bytes> {
    s.boxes.open(HeaderKey(s, c, ReadKey(s, c, msgKey)), Zero24(), header)
  }

  /** A slot under a candidate's mask. */
  function Unmasked(after: bytes, i: nat, slotKey: bytes): bytes
    requires 32 * (i + 1) <= |after| && |slotKey| == KeySize
  {
    Xor(slotKey, after[32 * i..32 * (i + 1)])
  }

  predicate Scanned(after: bytes, i: nat) { 32 * (i + 1) < |after| && i < MaxSlots }

  /** The first slot and candidate, from slot `i` and candidate `j` on, whose key opens the header. */
  function Search(s: Suite, c: Context, header: bytes, after: bytes, ks: seq<bytes>, i: nat, j: nat)
    : Option<(bytes, bytes)>
    requires j <= |ks| && forall k :: 0 <= k < |ks| ==> |ks[k]| == KeySize
    decreases MaxSlots - i, |ks| - j
  {
    if !Scanned(after, i) then None
    else if j == |ks| then Search(s, c, header, after, ks, i + 1, 0)
    else
      var m := Unmasked(after, i, ks[j]);
      var hdr := TryKey(s, c, header, m);
      if hdr.Some? then Some((hdr.value, ReadKey(s, c, m))) else Search(s, c, header, after, ks, i, j + 1)
  }

  function SlotKeys(s: Suite, c: Context, candidates: seq<Recipient>): (ks: seq<bytes>)
    requires LawfulSuite(s)
    ensures |ks| == |candidates| && forall k :: 0 <= k < |ks| ==>
      |ks[k]| == KeySize && ks[k] == SlotKey(s, c, candidates[k])
  {
    seq(|candidates|, k requires 0 <= k < |candidates| => SlotKey(s, c, candidates[k]))
  }

  function Opened2(s: Suite, c: Context, ctxt: bytes, candidates: seq<Recipient>): Result<bytes, EnvelopeError>
    requires LawfulSuite(s)
  {
    if !SchemesFit(candidates) then Err(BadInfo)
    else if |ctxt| < 32 then Err(Truncated)
    else
      var found := Search(s, c, ctxt[..32], ctxt[32..], SlotKeys(s, c, candidates), 0, 0);
      if found.None? then Err(CouldNotDecrypt)
      else if |found.value.0| < 2 then Err(Truncated)
      else
        var off := ReadUint16(found.value.0);
        if |ctxt| < off + Overhead then Err(Truncated)
        else
          var plain := s.boxes.open(BodyKey(s, c, found.value.1), Zero24(), ctxt[off..]);
          if plain.None? then Err(Invalid) else Ok(plain.value)
  }

  /** Ideal cipher and derivation: of the keys a reader tries, only the message key opens the header. */
  ghost predicate OpensOnlyWith(s: Suite, c: Context, header: bytes, after: bytes, ks: seq<bytes>, msgKey: bytes)
    requires forall k :: 0 <= k < |ks| ==> |ks[k]| == KeySize
  {
    forall i: nat, j: nat :: Scanned(after, i) && j < |ks| && TryKey(s, c, header, Unmasked(after, i, ks[j])).Some? ==>
      Unmasked(after, i, ks[j]) == msgKey
  }

  /** Some slot that is scanned gives the message key to some candidate. */
  ghost predicate Reaches(after: bytes, ks: seq<bytes>, msgKey: bytes, i0: nat, j0: nat)
    requires forall k :: 0 <= k < |ks| ==> |ks[k]| == KeySize
  {
    exists i: nat, j: nat :: Scanned(after, i) && j < |ks| && (i > i0 || (i == i0 && j >= j0))
      && Unmasked(after, i, ks[j]) == msgKey
  }

  lemma {:induction false} SearchFindsIff(s: Suite, c: Context, header: bytes, after: bytes, ks: seq<bytes>, i: nat,
                                          j: nat,
                                          msgKey: bytes, hdr: bytes)
    requires j <= |ks| && forall k :: 0 <= k < |ks| ==> |ks[k]| == KeySize
    requires OpensOnlyWith(s, c, header, after, ks, msgKey) && TryKey(s, c, header, msgKey) == Some(hdr)
    ensures Search(s, c, header, after, ks, i, j)
      == if Reaches(after, ks, msgKey, i, j) then Some((hdr, ReadKey(s, c, msgKey))) else None
    decreases MaxSlots - i, |ks| - j
  {
    if !Scanned(after, i) {
      assert !Reaches(after, ks, msgKey, i, j);
    } else if j == |ks| {
      SearchFindsIff(s, c, header, after, ks, i + 1, 0, msgKey, hdr);
      assert Reaches(after, ks, msgKey, i, j) <==> Reaches(after, ks, msgKey, i + 1, 0);
    } else {
      var m := Unmasked(after, i, ks[j]);
      if TryKey(s, c, header, m).None? {
        SearchFindsIff(s, c, header, after, ks, i, j + 1, msgKey, hdr);
        assert Reaches(after, ks, msgKey, i, j) <==> Reaches(after, ks, msgKey, i, j + 1);
      } else {
        assert m == msgKey && Reaches(after, ks, msgKey, i, j);
      }
    }
  }

  lemma SealedParts(s: Suite, c: Context, msgKey: bytes, recps: seq<Recipient>, plain: bytes)
    requires LawfulSuite(s) && |msgKey| == KeySize && |recps| <= MaxSlots
    ensures var ctxt, readKey := Sealed(s, c, msgKey, recps, plain), ReadKey(s, c, msgKey);
      && |ctxt| == 32 + 32 * |recps| + |plain| + Overhead
      && ctxt[..32] == s.boxes.seal(HeaderKey(s, c, readKey), Zero24(), HeaderPlain(|recps|))
      && ctxt[32..] == SlotsFor(s, c, msgKey, recps) + s.boxes.seal(BodyKey(s, c, readKey), Zero24(), plain)
      && ctxt[32 + 32 * |recps|..] == s.boxes.seal(BodyKey(s, c, readKey), Zero24(), plain)
      && ReadUint16(HeaderPlain(|recps|)) == 32 + 32 * |recps|
  {
    SlotsForLength(s, c, msgKey, recps);
    var readKey := ReadKey(s, c, msgKey);
    var header := s.boxes.seal(HeaderKey(s, c, readKey), Zero24(), HeaderPlain(|recps|));
    var slots, body := SlotsFor(s, c, msgKey, recps), s.boxes.seal(BodyKey(s, c, readKey), Zero24(), plain);
    HeaderOffset(|recps|);
    ThreeParts(header, slots, body);
  }

  lemma HeaderOffset(slots: nat)
    requires slots <= MaxSlots
    ensures ReadUint16(HeaderPlain(slots)) == 32 + 32 * slots
  {
    Uint16RoundTrip(32 + 32 * slots, seq(14, _ => 0 as byte));
  }

  lemma ThreeParts(a: bytes, b: bytes, c: bytes)
    ensures var all := a + b + c; all[..|a|] == a && all[|a|..] == b + c && all[|a| + |b|..] == c
  {}

  /**
   Under the ideal assumption a reader gets the exact plaintext if and only if some scanned slot gives the message key
   to one of its candidates; otherwise it gets an error.
   */
  lemma OpensIffReached(s: Suite, c: Context, msgKey: bytes, recps: seq<Recipient>, plain: bytes,
                        candidates: seq<Recipient>)
    requires LawfulSuite(s) && |msgKey| == KeySize && |recps| <= MaxSlots && SchemesFit(candidates)
    requires OpensHonestly(s, c, msgKey, recps, plain, candidates)
    ensures var ctxt := Sealed(s, c, msgKey, recps, plain);
      && |ctxt| >= 32
      && Opened2(s, c, ctxt, candidates)
         == if Reaches(ctxt[32..], SlotKeys(s, c, candidates), msgKey, 0, 0) then Ok(plain) else Err(CouldNotDecrypt)
  {
    var ctxt, ks := Sealed(s, c, msgKey, recps, plain), SlotKeys(s, c, candidates);
    SealedParts(s, c, msgKey, recps, plain);
    SearchFindsIff(s, c, ctxt[..32], ctxt[32..], ks, 0, 0, msgKey, HeaderPlain(|recps|));
  }

  ghost predicate OpensHonestly(s: Suite, c: Context, msgKey: bytes, recps: seq<Recipient>, plain: bytes,
                                candidates: seq<Recipient>)
    requires LawfulSuite(s) && |msgKey| == KeySize
  {
    var ctxt := Sealed(s, c, msgKey, recps, plain);
    |ctxt| >= 32 && OpensOnlyWith(s, c, ctxt[..32], ctxt[32..], SlotKeys(s, c, candidates), msgKey)
  }

  /** A recipient, in any slot, with its key anywhere among the candidates, recovers the plaintext. */
  lemma RecipientReads(s: Suite, c: Context, msgKey: bytes, recps: seq<Recipient>, plain: bytes,
                       candidates: seq<Recipient>, i: nat, j: nat)
    requires LawfulSuite(s) && |msgKey| == KeySize && |recps| <= MaxSlots && SchemesFit(candidates)
    requires OpensHonestly(s, c, msgKey, recps, plain, candidates)
    requires i < |recps| && j < |candidates| && SlotKey(s, c, recps[i]) == SlotKey(s, c, candidates[j])
    ensures Opened2(s, c, Sealed(s, c, msgKey, recps, plain), candidates) == Ok(plain)
  {
    var ctxt, ks := Sealed(s, c, msgKey, recps, plain), SlotKeys(s, c, candidates);
    OpensIffReached(s, c, msgKey, recps, plain, candidates);
    SealedParts(s, c, msgKey, recps, plain);
    SlotsForAt(s, c, msgKey, recps, s.boxes.seal(BodyKey(s, c, ReadKey(s, c, msgKey)), Zero24(), plain), i);
    Unmask(msgKey, ks[j]);
    Unmask(Xor(msgKey, ks[j]), ks[j]);
    assert Unmasked(ctxt[32..], i, ks[j]) == msgKey;
    assert Scanned(ctxt[32..], i);
    assert Reaches(ctxt[32..], ks, msgKey, 0, 0);
  }

  /**
   A reader none of whose candidates has a recipient's slot key gets an error, unless a stretch of the body happens to
   be the message key under one of its masks.
   */
  lemma OthersCannotRead(s: Suite, c: Context, msgKey: bytes, recps: seq<Recipient>, plain: bytes,
                         candidates: seq<Recipient>)
    requires LawfulSuite(s) && |msgKey| == KeySize && |recps| <= MaxSlots && SchemesFit(candidates)
    requires OpensHonestly(s, c, msgKey, recps, plain, candidates)
    requires forall i, j :: 0 <= i < |recps| && 0 <= j < |candidates| ==>
      SlotKey(s, c, recps[i]) != SlotKey(s, c, candidates[j])
    requires NoAccident(s, c, msgKey, recps, plain, candidates)
    ensures Opened2(s, c, Sealed(s, c, msgKey, recps, plain), candidates) == Err(CouldNotDecrypt)
  {
    var ctxt, ks := Sealed(s, c, msgKey, recps, plain), SlotKeys(s, c, candidates);
    OpensIffReached(s, c, msgKey, recps, plain, candidates);
    SealedParts(s, c, msgKey, recps, plain);
    forall i: nat, j: nat | Scanned(ctxt[32..], i) && j < |ks| ensures Unmasked(ctxt[32..], i, ks[j]) != msgKey {
      if i < |recps| {
        SlotsForAt(s, c, msgKey, recps, s.boxes.seal(BodyKey(s, c, ReadKey(s, c, msgKey)), Zero24(), plain), i);
        if Unmasked(ctxt[32..], i, ks[j]) == msgKey {
          MaskIsUnique(msgKey, SlotKey(s, c, recps[i]), ks[j]);
          assert false;
        }
      }
    }
  }

  // ---------------------------------------------------------------- from the ciphers to the recipients

  /** Of the keys a reader tries, the header opens only under the one it was sealed with. */
  ghost predicate OpensOnlySealing(s: Suite, c: Context, msgKey: bytes, recps: seq<Recipient>, plain: bytes,
                                   candidates: seq<Recipient>)
    requires LawfulSuite(s) && |msgKey| == KeySize
  {
    var ctxt, ks := Sealed(s, c, msgKey, recps, plain), SlotKeys(s, c, candidates);
    |ctxt| >= 32
    && forall i: nat, j: nat :: Scanned(ctxt[32..], i) && j < |ks| ==>
         var m := Unmasked(ctxt[32..], i, ks[j]);
         TryKey(s, c, ctxt[..32], m).Some? ==>
           HeaderKey(s, c, ReadKey(s, c, m)) == HeaderKey(s, c, ReadKey(s, c, msgKey))
  }

  /** Deriving the header key does not collide on the keys a reader tries. */
  ghost predicate DerivesApart(s: Suite, c: Context, msgKey: bytes, recps: seq<Recipient>, plain: bytes,
                               candidates: seq<Recipient>)
    requires LawfulSuite(s) && |msgKey| == KeySize
  {
    var ctxt, ks := Sealed(s, c, msgKey, recps, plain), SlotKeys(s, c, candidates);
    |ctxt| >= 32
    && forall i: nat, j: nat :: Scanned(ctxt[32..], i) && j < |ks| ==>
         var m := Unmasked(ctxt[32..], i, ks[j]);
         && (HeaderKey(s, c, ReadKey(s, c, m)) == HeaderKey(s, c, ReadKey(s, c, msgKey))
           ==> ReadKey(s, c, m) == ReadKey(s, c, msgKey))
         && (ReadKey(s, c, m) == ReadKey(s, c, msgKey) ==> m == msgKey)
  }

  /** An ideal box and a derivation without collisions leave only the message key to open the header. */
  lemma IdealOpensHonestly(s: Suite, c: Context, msgKey: bytes, recps: seq<Recipient>, plain: bytes,
                           candidates: seq<Recipient>)
    requires LawfulSuite(s) && |msgKey| == KeySize
    requires OpensOnlySealing(s, c, msgKey, recps, plain, candidates)
      && DerivesApart(s, c, msgKey, recps, plain, candidates)
    ensures OpensHonestly(s, c, msgKey, recps, plain, candidates)
  {
    var ctxt, ks := Sealed(s, c, msgKey, recps, plain), SlotKeys(s, c, candidates);
    forall i: nat, j: nat | Scanned(ctxt[32..], i) && j < |ks|
      && TryKey(s, c, ctxt[..32], Unmasked(ctxt[32..], i, ks[j])).Some?
      ensures Unmasked(ctxt[32..], i, ks[j]) == msgKey
    {
      var m := Unmasked(ctxt[32..], i, ks[j]);
      assert HeaderKey(s, c, ReadKey(s, c, m)) == HeaderKey(s, c, ReadKey(s, c, msgKey));
    }
  }

  /** One of the candidates is a recipient: the same key under the same scheme. */
  predicate Shares(recps: seq<Recipient>, candidates: seq<Recipient>) {
    exists i, j :: 0 <= i < |recps| && 0 <= j < |candidates| && Alike(recps[i], candidates[j])
  }

  predicate Alike(r: Recipient, r': Recipient) { r.key == r'.key && r.scheme == r'.scheme }

  /** Deriving slot keys does not collide on a recipient and a candidate. */
  ghost predicate SlotsApart(s: Suite, c: Context, recps: seq<Recipient>, candidates: seq<Recipient>) {
    forall i, j :: 0 <= i < |recps| && 0 <= j < |candidates| ==> SlotApart(s, c, recps[i], candidates[j])
  }

  predicate SlotApart(s: Suite, c: Context, r: Recipient, r': Recipient) {
    var i, i' := Encoded(Info(c, [Ascii("slot_key"), r.scheme])), Encoded(Info(c, [Ascii("slot_key"), r'.scheme]));
    s.expand(r.key, i) == s.expand(r'.key, i') ==> r.key == r'.key && i == i'
  }

  /**
   Under ideal ciphers every recipient, up to 32 and in any slot, recovers the exact plaintext, and everybody whose
   candidates hold no recipient's key under its scheme gets an error.
   */
  lemma RecipientsReadIff(s: Suite, c: Context, msgKey: bytes, recps: seq<Recipient>, plain: bytes,
                          candidates: seq<Recipient>)
    requires LawfulSuite(s) && ContextFits(c) && |msgKey| == KeySize && |recps| <= MaxSlots && SchemesFit(recps)
      && SchemesFit(candidates)
    requires OpensOnlySealing(s, c, msgKey, recps, plain, candidates)
      && DerivesApart(s, c, msgKey, recps, plain, candidates)
    requires SlotsApart(s, c, recps, candidates) && NoAccident(s, c, msgKey, recps, plain, candidates)
    ensures Opened2(s, c, Sealed(s, c, msgKey, recps, plain), candidates)
         == if Shares(recps, candidates) then Ok(plain) else Err(CouldNotDecrypt)
  {
    IdealOpensHonestly(s, c, msgKey, recps, plain, candidates);
    if Shares(recps, candidates) {
      var i, j :| 0 <= i < |recps| && 0 <= j < |candidates| && Alike(recps[i], candidates[j]);
      RecipientReads(s, c, msgKey, recps, plain, candidates, i, j);
    } else {
      forall i, j | 0 <= i < |recps| && 0 <= j < |candidates|
        ensures SlotKey(s, c, recps[i]) != SlotKey(s, c, candidates[j])
      {
        assert SlotApart(s, c, recps[i], candidates[j]) && !Alike(recps[i], candidates[j]);
        SlotKeysDiffer(s, c, recps[i], candidates[j]);
      }
      OthersCannotRead(s, c, msgKey, recps, plain, candidates);
    }
  }

  /** No scanned stretch behind the slots is the message key under a candidate's mask. */
  ghost predicate NoAccident(s: Suite, c: Context, msgKey: bytes, recps: seq<Recipient>, plain: bytes,
                             candidates: seq<Recipient>)
    requires LawfulSuite(s) && |msgKey| == KeySize
  {
    var ctxt, ks := Sealed(s, c, msgKey, recps, plain), SlotKeys(s, c, candidates);
    |ctxt| >= 32
    && forall i: nat, j: nat :: |recps| <= i && Scanned(ctxt[32..], i) && j < |ks| ==>
      Unmasked(ctxt[32..], i, ks[j]) != msgKey
  }

  // ---------------------------------------------------------------- the program

  /** Masks one key with another, byte by byte. */
  method XorInto(dst: array<byte>, a: bytes, b: bytes)
    requires dst.Length == |a| == |b|
    modifies dst
    ensures dst[..] == Xor(a, b)
  {
    for k := 0 to dst.Length
      invariant forall m :: 0 <= m < k ==> dst[m] == XorByte(a[m], b[m])
    {
      dst[k] := XorByte(a[k], b[k]);
    }
  }

  method Encrypt(s: Suite, c: Context, msgKey: bytes, plain: bytes, recps: seq<Recipient>)
    returns (r: Result<bytes, EnvelopeError>)
    requires LawfulSuite(s) && ContextFits(c) && |msgKey| == KeySize
    ensures r == if plain == [] then Err(EmptyPlaintext)
                 else if |recps| > MaxSlots then Err(TooManyRecipients)
                 else if !SchemesFit(recps) then Err(BadInfo)
                 else Ok(Sealed(s, c, msgKey, recps, plain))
  {
    if |plain| == 0 {
      return Err(EmptyPlaintext);
    }
    if |recps| > MaxSlots {
      return Err(TooManyRecipients);
    }
    var bodyOff := 32 + |recps| * 32;
    var readKey := ReadKey(s, c, msgKey);
    var out := s.boxes.seal(HeaderKey(s, c, readKey), Zero24(), HeaderPlain(|recps|));
    ghost var header := out;
    for i := 0 to |recps|
      invariant SchemesFit(recps[..i])
      invariant out == header + SlotsFor(s, c, msgKey, recps[..i])
    {
      if |recps[i].scheme| > 65535 {
        return Err(BadInfo);
      }
      var slot := new byte[KeySize](_ => 0);
      XorInto(slot, SlotKey(s, c, recps[i]), msgKey);
      assert recps[..i + 1][..i] == recps[..i];
      out := out + slot[..];
    }
    assert recps[..|recps|] == recps;
    SlotsForLength(s, c, msgKey, recps);
    assert |out| == bodyOff; // the offset check never fails
    out := out + s.boxes.seal(BodyKey(s, c, readKey), Zero24(), plain);
    return Ok(out);
  }

  /** Tries every candidate on every slot. */
  method GetReadKey(s: Suite, c: Context, header: bytes, after: bytes, ks: seq<bytes>)
    returns (found: Option<(bytes, bytes)>)
    requires forall k :: 0 <= k < |ks| ==> |ks[k]| == KeySize
    ensures found == Search(s, c, header, after, ks, 0, 0)
  {
    var i := 0;
    var msgKey := new byte[KeySize](_ => 0);
    while 32 * (i + 1) < |after| && i < MaxSlots
      invariant 0 <= i <= MaxSlots
      invariant Search(s, c, header, after, ks, i, 0) == Search(s, c, header, after, ks, 0, 0)
      decreases MaxSlots - i
    {
      var slot := after[32 * i..32 * (i + 1)];
      var j := 0;
      while j < |ks|
        invariant 0 <= j <= |ks|
        invariant Search(s, c, header, after, ks, i, j) == Search(s, c, header, after, ks, 0, 0)
      {
        XorInto(msgKey, ks[j], slot);
        var readKey := ReadKey(s, c, msgKey[..]);
        var hdr := s.boxes.open(HeaderKey(s, c, readKey), Zero24(), header);
        if hdr.Some? {
          return Some((hdr.value, readKey));
        }
        j := j + 1;
      }
      i := i + 1;
    }
    return None;
  }

  method Decrypt(s: Suite, c: Context, ctxt: bytes, candidates: seq<Recipient>)
    returns (r: Result<bytes, EnvelopeError>)
    requires LawfulSuite(s) && ContextFits(c)
    ensures r == Opened2(s, c, ctxt, candidates)
  {
    var ks: seq<bytes> := [];
    for k := 0 to |candidates|
      invariant SchemesFit(candidates[..k]) && ks == SlotKeys(s, c, candidates)[..k]
    {
      if |candidates[k].scheme| > 65535 {
        return Err(BadInfo);
      }
      ks := ks + [SlotKey(s, c, candidates[k])];
    }
    assert candidates[..|candidates|] == candidates && ks == SlotKeys(s, c, candidates);
    if |ctxt| < 32 {
      return Err(Truncated);
    }
    var found := GetReadKey(s, c, ctxt[..32], ctxt[32..], ks);
    if found.None? {
      return Err(CouldNotDecrypt);
    }
    var hdr, readKey := found.value.0, found.value.1;
    if |hdr| < 2 {
      return Err(Truncated);
    }
    var bodyOffset := ReadUint16(hdr);
    if |ctxt| < bodyOffset + Overhead {
      return Err(Truncated);
    }
    var plain := s.boxes.open(BodyKey(s, c, readKey), Zero24(), ctxt[bodyOffset..]);
    if plain.None? {
      return Err(Invalid);
    }
    return Ok(plain.value);
  }
}
