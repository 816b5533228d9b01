/**
 Private messages for up to 255 recipients: a header, one small box with the
 content key per recipient, and the boxed content.  The ciphers are parameters.
 */
module Box1 {
  import opened Basics

  /** Secret-key boxes: key, nonce and content give a box; key, nonce and box give the content or nothing. */
  datatype SecretBox = SecretBox(seal: (bytes, bytes, bytes) -> bytes, open: (bytes, bytes, bytes) -> Option<bytes>)

  const Overhead: nat := 16

  /** Boxes are 16 bytes longer than their content, and open with their key. */
  ghost predicate Lawful(s: SecretBox) {
    && (forall k: bytes, n: bytes, p: bytes ::
          |s.seal(k, n, p)| == |p| + Overhead && s.open(k, n, s.seal(k, n, p)) == Some(p))
    && (forall k: bytes, n: bytes, b: bytes :: s.open(k, n, b).Some? ==> |s.open(k, n, b).value| + Overhead == |b|)
  }

  const Header: nat := 24 + 32
  const Slot: nat := 32 + 1 + Overhead

  // ---------------------------------------------------------------- layout

  /** The key boxes of all recipients, who share the keys `ks` with the sender. */
  function Slots(s: SecretBox, nonce: bytes, ks: seq<bytes>, secret: bytes): bytes {
    if ks == [] then [] else s.seal(ks[0], nonce, secret) + Slots(s, nonce, ks[1..], secret)
  }

  lemma {:induction false} SlotsLength(s: SecretBox, nonce: bytes, ks: seq<bytes>, secret: bytes)
    requires Lawful(s) && |secret| == 33
    ensures |Slots(s, nonce, ks, secret)| == |ks| * Slot
    decreases |ks|
  {
    if ks != [] { SlotsLength(s, nonce, ks[1..], secret); }
  }

  lemma {:induction false} SlotsAt(s: SecretBox, nonce: bytes, ks: seq<bytes>, secret: bytes, rest: bytes, i: nat)
    requires Lawful(s) && |secret| == 33 && i < |ks|
    ensures |Slots(s, nonce, ks, secret)| == |ks| * Slot
    ensures (Slots(s, nonce, ks, secret) + rest)[i * Slot..(i + 1) * Slot] == s.seal(ks[i], nonce, secret)
    decreases |ks|
  {
    SlotsLength(s, nonce, ks, secret);
    var one, more := s.seal(ks[0], nonce, secret), Slots(s, nonce, ks[1..], secret);
    assert Slots(s, nonce, ks, secret) + rest == one + (more + rest);
    if i > 0 {
      SlotsAt(s, nonce, ks[1..], secret, rest, i - 1);
      Shifted(one, more + rest, (i - 1) * Slot, i * Slot);
    }
  }

  lemma Shifted(a: bytes, b: bytes, i: nat, j: nat)
    requires i <= j <= |b|
    ensures (a + b)[|a| + i..|a| + j] == b[i..j]
  {}

  /** What is in every key box: the number of recipients and the content key. */
  function SlotContent(n: nat, skey: bytes): bytes
    requires n < 256
  {
    [n as byte] + skey
  }

  /** The sender's random choices: nonce, one-time public key and content key. */
  datatype Random = Random(nonce: bytes, ephemeral: bytes, skey: bytes)

  predicate Sized(r: Random) { |r.nonce| == 24 && |r.ephemeral| == 32 && |r.skey| == 32 }

  function Envelope(s: SecretBox, r: Random, ks: seq<bytes>, plain: bytes): bytes
    requires |ks| < 256
  {
    r.nonce + r.ephemeral + Slots(s, r.nonce, ks, SlotContent(|ks|, r.skey)) + s.seal(r.skey, r.nonce, plain)
  }

  /** An envelope: nonce, one-time key, for each recipient a box with their number and the content key, the content. */
  lemma EnvelopeAt(s: SecretBox, r: Random, ks: seq<bytes>, plain: bytes, i: nat)
    requires Lawful(s) && Sized(r) && |ks| < 256 && i < |ks|
    ensures Header == 56 && Slot == 49
    ensures var e := Envelope(s, r, ks, plain);
      && |e| == Header + |ks| * Slot + |plain| + 16
      && e[..24] == r.nonce && e[24..Header] == r.ephemeral
      && e[Header + i * Slot..Header + (i + 1) * Slot] == s.seal(ks[i], r.nonce, [|ks| as byte] + r.skey)
      && e[Header + |ks| * Slot..] == s.seal(r.skey, r.nonce, plain)
  {
    var secret, body := SlotContent(|ks|, r.skey), s.seal(r.skey, r.nonce, plain);
    SlotsAt(s, r.nonce, ks, secret, body, i);
    var slots :| slots == Slots(s, r.nonce, ks, secret);
    FourAt(r.nonce, r.ephemeral, slots, body, i * Slot, (i + 1) * Slot);
  }

  lemma FourAt(a: bytes, b: bytes, c: bytes, d: bytes, i: nat, j: nat)
    requires i <= j <= |c|
    ensures var e := a + b + c + d;
      && e[..|a|] == a && e[|a|..|a| + |b|] == b && e[|a| + |b| + |c|..] == d
      && e[|a| + |b| + i..|a| + |b| + j] == (c + d)[i..j]
  {
    assert a + b + c + d == (a + b) + (c + d);
    Shifted(a + b, c + d, i, j);
  }

  datatype BoxError = WrongRecipients | TooShort | DecryptFailed | OutOfRange

  // ---------------------------------------------------------------- opening

  /** The place of the i-th key box. */
  function Window(body: bytes, i: nat): bytes
    requires (i + 1) * Slot <= |body|
  {
    body[i * Slot..(i + 1) * Slot]
  }

  /** The content of the first of 255 boxes, from the i-th on, that opens with the key. */
  function FirstOpen(s: SecretBox, key: bytes, nonce: bytes, body: bytes, i: nat): Option<bytes>
    decreases 255 - i
  {
    if i >= 255 || (i + 1) * Slot > |body| then None
    else
      var d := s.open(key, nonce, Window(body, i));
      if d.Some? then d else FirstOpen(s, key, nonce, body, i + 1)
  }

  /** Opening; `shared` is the key the reader shares with the message's one-time key. */
  function Opened(s: SecretBox, shared: bytes -> bytes, raw: bytes): Result<bytes, BoxError> {
    if |raw| < 122 then Err(TooShort)
    else
      var nonce := raw[..24];
      var d := FirstOpen(s, shared(raw[24..Header]), nonce, raw[Header..], 0);
      if d.None? || d.value == [] || d.value[0] == 0 then Err(DecryptFailed)
      else
        var at := Header + d.value[0] as nat * Slot;
        if at > |raw| then Err(OutOfRange)
        else
          var content := s.open(d.value[1..], nonce, raw[at..]);
          if content.None? then Err(DecryptFailed) else Ok(content.value)
  }

  /**
   Ideal boxes: no window of the message that a reader tries opens with a key other than the one it was sealed with.
   */
  ghost predicate OpensOnlyOwn(s: SecretBox, key: bytes, nonce: bytes, body: bytes, ks: seq<bytes>) {
    forall i: nat :: i < 255 && (i + 1) * Slot <= |body| && s.open(key, nonce, Window(body, i)).Some? ==>
      i < |ks| && ks[i] == key
  }

  /** A key that is among the recipients' finds the content key, past all other boxes. */
  lemma {:induction false} RecipientFinds(s: SecretBox, key: bytes, nonce: bytes, ks: seq<bytes>, secret: bytes,
                                          body: bytes, i: nat)
    requires |ks| <= 255 && i < |ks| && |body| >= |ks| * Slot && exists j :: i <= j < |ks| && ks[j] == key
    requires forall j: nat :: j < |ks| && ks[j] == key ==> s.open(key, nonce, Window(body, j)) == Some(secret)
    requires OpensOnlyOwn(s, key, nonce, body, ks)
    ensures FirstOpen(s, key, nonce, body, i) == Some(secret)
    decreases |ks| - i
  {
    if ks[i] != key {
      assert s.open(key, nonce, Window(body, i)).None?;
      RecipientFinds(s, key, nonce, ks, secret, body, i + 1);
    }
  }

  /** Any other key finds nothing. */
  lemma {:induction false} OthersFindNothing(s: SecretBox, key: bytes, nonce: bytes, body: bytes, i: nat,
                                             ks: seq<bytes>)
    requires key !in ks && OpensOnlyOwn(s, key, nonce, body, ks)
    ensures FirstOpen(s, key, nonce, body, i) == None
    decreases 255 - i
  {
    if i < 255 && (i + 1) * Slot <= |body| {
      assert s.open(key, nonce, Window(body, i)).None?;
      OthersFindNothing(s, key, nonce, body, i + 1, ks);
    }
  }

  lemma EnvelopeParts(s: SecretBox, r: Random, ks: seq<bytes>, plain: bytes)
    requires Lawful(s) && Sized(r) && |ks| < 256
    ensures var raw := Envelope(s, r, ks, plain);
      && |raw| == Header + |ks| * Slot + |plain| + Overhead
      && raw[..24] == r.nonce && raw[24..Header] == r.ephemeral
      && raw[Header..] == Slots(s, r.nonce, ks, SlotContent(|ks|, r.skey)) + s.seal(r.skey, r.nonce, plain)
      && raw[Header + |ks| * Slot..] == s.seal(r.skey, r.nonce, plain)
  {
    SlotsLength(s, r.nonce, ks, SlotContent(|ks|, r.skey));
    var slots, body := Slots(s, r.nonce, ks, SlotContent(|ks|, r.skey)), s.seal(r.skey, r.nonce, plain);
    var raw := Envelope(s, r, ks, plain);
    assert raw == r.nonce + (r.ephemeral + (slots + body));
    assert raw[24..] == r.ephemeral + (slots + body);
    assert raw[Header..] == slots + body;
    assert raw[Header..][|slots|..] == body;
  }

  /**
   A reader gets the exact content if and only if the key it shares with the sender is among the recipients' keys and
   the message is not an empty one for a single recipient, which is taken for too short.  All others get an error.
   */
  lemma OpensIffRecipient(s: SecretBox, r: Random, ks: seq<bytes>, plain: bytes, shared: bytes -> bytes)
    requires Lawful(s) && Sized(r) && 1 <= |ks| <= 255
    requires OpensOnlyOwn(s, shared(r.ephemeral), r.nonce, Envelope(s, r, ks, plain)[Header..], ks)
    ensures var o := Opened(s, shared, Envelope(s, r, ks, plain));
      o == if |ks| == 1 && plain == [] then Err(TooShort)
           else if shared(r.ephemeral) in ks then Ok(plain)
           else Err(DecryptFailed)
  {
    var raw, key, secret := Envelope(s, r, ks, plain), shared(r.ephemeral), SlotContent(|ks|, r.skey);
    EnvelopeParts(s, r, ks, plain);
    LongEnough(|ks|, |plain|);
    if key in ks {
      FindsSecret(s, key, r.nonce, ks, secret, s.seal(r.skey, r.nonce, plain));
      assert secret[1..] == r.skey;
    } else {
      OthersFindNothing(s, key, r.nonce, raw[Header..], 0, ks);
    }
  }

  lemma FindsSecret(s: SecretBox, key: bytes, nonce: bytes, ks: seq<bytes>, secret: bytes, rest: bytes)
    requires Lawful(s) && |secret| == 33 && key in ks && |ks| <= 255
    requires OpensOnlyOwn(s, key, nonce, Slots(s, nonce, ks, secret) + rest, ks)
    ensures FirstOpen(s, key, nonce, Slots(s, nonce, ks, secret) + rest, 0) == Some(secret)
  {
    var body := Slots(s, nonce, ks, secret) + rest;
    SlotsLength(s, nonce, ks, secret);
    forall j: nat | j < |ks| && ks[j] == key ensures s.open(key, nonce, Window(body, j)) == Some(secret) {
      SlotsAt(s, nonce, ks, secret, rest, j);
    }
    RecipientFinds(s, key, nonce, ks, secret, body, 0);
  }

  lemma LongEnough(n: nat, length: nat)
    requires n >= 1
    ensures Header + n * Slot + length + Overhead < 122 <==> n == 1 && length == 0
  {}

  // ---------------------------------------------------------------- recipients

  /** Key agreement: a secret and somebody's public key give a shared key. */
  datatype Agreement = Agreement(public: bytes -> bytes, shared: (bytes, bytes) -> bytes)

  function SharedKeys(a: Agreement, secret: bytes, recipients: seq<bytes>): seq<bytes> {
    seq(|recipients|, i requires 0 <= i < |recipients| => a.shared(secret, recipients[i]))
  }

  /** The envelope for a list of public keys, made with a one-time secret. */
  function EnvelopeFor(s: SecretBox, a: Agreement, eph: bytes, nonce: bytes, skey: bytes, recipients: seq<bytes>,
                       plain: bytes): bytes
    requires |recipients| < 256
  {
    Envelope(s, Random(nonce, a.public(eph), skey), SharedKeys(a, eph, recipients), plain)
  }

  /** Both sides agree, and a reader shares a recipient's key only if it is that recipient. */
  ghost predicate Agrees(a: Agreement, eph: bytes, secret: bytes, recipients: seq<bytes>) {
    && a.shared(secret, a.public(eph)) == a.shared(eph, a.public(secret))
    && forall i :: 0 <= i < |recipients| && a.shared(eph, recipients[i]) == a.shared(eph, a.public(secret)) ==>
         recipients[i] == a.public(secret)
  }

  /** Every recipient of one to 255 recovers the content, and nobody else does. */
  lemma RecipientsReadIff(s: SecretBox, a: Agreement, eph: bytes, nonce: bytes, skey: bytes, recipients: seq<bytes>,
                          plain: bytes, secret: bytes)
    requires Lawful(s) && |nonce| == 24 && |a.public(eph)| == 32 && |skey| == 32 && 1 <= |recipients| <= 255
    requires Agrees(a, eph, secret, recipients)
    requires OpensOnlyOwn(s, a.shared(secret, a.public(eph)), nonce,
                          EnvelopeFor(s, a, eph, nonce, skey, recipients, plain)[Header..],
                            SharedKeys(a, eph, recipients))
    ensures Opened(s, p => a.shared(secret, p), EnvelopeFor(s, a, eph, nonce, skey, recipients, plain))
      == if |recipients| == 1 && plain == [] then Err(TooShort)
         else if a.public(secret) in recipients then Ok(plain)
         else Err(DecryptFailed)
  {
    var ks := SharedKeys(a, eph, recipients);
    OpensIffRecipient(s, Random(nonce, a.public(eph), skey), ks, plain, p => a.shared(secret, p));
    var key := a.shared(secret, a.public(eph));
    if a.public(secret) in recipients {
      var i :| 0 <= i < |recipients| && recipients[i] == a.public(secret);
      assert ks[i] == key;
    }
    if key in ks {
      var i :| 0 <= i < |ks| && ks[i] == key;
      assert recipients[i] == a.public(secret);
    }
  }

  // ---------------------------------------------------------------- the program

  lemma {:induction false} SlotsSnoc(s: SecretBox, nonce: bytes, ks: seq<bytes>, k: bytes, secret: bytes)
    ensures Slots(s, nonce, ks + [k], secret) == Slots(s, nonce, ks, secret) + s.seal(k, nonce, secret)
    decreases |ks|
  {
    if ks == [] {
      assert [] + [k] == [k] && [k][1..] == [];
    } else {
      assert (ks + [k])[1..] == ks[1..] + [k];
      SlotsSnoc(s, nonce, ks[1..], k, secret);
    }
  }

  /** Encrypts for recipients given by their public keys. */
  method Encrypt(s: SecretBox, a: Agreement, eph: bytes, nonce: bytes, skey: bytes, plain: bytes,
                 recipients: seq<bytes>)
    returns (r: Result<bytes, BoxError>)
    requires |nonce| == 24 && |a.public(eph)| == 32 && |skey| == 32
    ensures r
      == if 1 <= |recipients| <= 255 then Ok(EnvelopeFor(s, a, eph, nonce, skey, recipients, plain))
      else Err(WrongRecipients)
  {
    var n := |recipients|;
    if n <= 0 || n > 255 {
      return Err(WrongRecipients);
    }
    var smsg := SlotContent(n, skey);
    var buffer := nonce;
    buffer := buffer + a.public(eph);
    ghost var ks := SharedKeys(a, eph, recipients);
    ghost var head := buffer;
    for i := 0 to n
      invariant buffer == head + Slots(s, nonce, ks[..i], smsg)
    {
      var shared := a.shared(eph, recipients[i]);
      assert ks[..i + 1] == ks[..i] + [shared];
      SlotsSnoc(s, nonce, ks[..i], shared, smsg);
      buffer := buffer + s.seal(shared, nonce, smsg);
    }
    assert ks[..n] == ks;
    buffer := buffer + s.seal(skey, nonce, plain);
    return Ok(buffer);
  }

  /** Decrypts with the reader's key agreement. */
  method Decrypt(s: SecretBox, shared: bytes -> bytes, raw: bytes) returns (r: Result<bytes, BoxError>)
    requires Lawful(s)
    ensures r == Opened(s, shared, raw)
  {
    if |raw| < 122 {
      return Err(TooShort);
    }
    var nonce, key := raw[..24], shared(raw[24..Header]);
    var cnt, skey: bytes := 0, [];
    var curr, i := raw[Header..], 0;
    ghost var body := curr;
    while i < 255
      invariant 0 <= i <= 255 && cnt == 0 && i * Slot <= |body| && curr == body[i * Slot..]
      invariant FirstOpen(s, key, nonce, body, i) == FirstOpen(s, key, nonce, body, 0)
      decreases 255 - i
    {
      if |curr| < Slot { // off the message's end
        break;
      }
      assert curr[..Slot] == Window(body, i) && curr[Slot..] == body[(i + 1) * Slot..];
      var decrypted := s.open(key, nonce, curr[..Slot]);
      if decrypted.None? {
        curr := curr[Slot..];
        i := i + 1;
        continue;
      }
      assert |decrypted.value| == 33;
      cnt := decrypted.value[0] as nat;
      skey := decrypted.value[1..];
      break;
    }
    if cnt == 0 {
      return Err(DecryptFailed);
    }
    if Header + cnt * Slot > |raw| {
      return Err(OutOfRange);
    }
    var content := s.open(skey, nonce, raw[Header + cnt * Slot..]);
    if content.None? {
      return Err(DecryptFailed);
    }
    return Ok(content.value);
  }
}
