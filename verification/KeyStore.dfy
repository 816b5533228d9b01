/**
 The key store: keys are filed under a scheme and an id, which are packed into
 one byte string for the backend.
 */
module KeyStore {
  import opened Basics
  import opened Slp

  type Scheme = bytes
  type Id = bytes

  function Ascii(s: string): (r: bytes)
    ensures |r| == |s|
  {
    seq(|s|, i requires 0 <= i < |s| => (s[i] as int % 256) as byte)
  }

  const LargeSymmetricGroup: Scheme := Ascii("envelope-large-symmetric-group")
  const DiffieStyle: Scheme := Ascii("envelope-id-based-dm-converted-ed25519")
  const MessageSigning: Scheme := Ascii("feed-message-signing-key")
  const MetafeedSubkey: Scheme := Ascii("metafeed-subkey")

  predicate Supported(ks: Scheme) {
    ks == LargeSymmetricGroup || ks == DiffieStyle || ks == MessageSigning || ks == MetafeedSubkey
  }

  // ---------------------------------------------------------------- packed keys

  function Marshal(ks: Scheme, id: Id): bytes { Uint16(|ks|) + ks + Uint16(|id|) + id }

  /** A packed key is the length-prefixed list of scheme and id, if the id is not too long for one. */
  lemma MarshalIsList(ks: Scheme, id: Id)
    ensures Marshal(ks, id) == Encoded([ks, id])
  {
    assert [ks, id][1..] == [id] && [id][1..] == [];
    assert Encoded([id]) == Uint16(|id|) + id + [];
  }

  lemma SupportedShort(ks: Scheme)
    requires Supported(ks)
    ensures |ks| < 65536
  {}

  /** Where the parts of a packed key are. */
  ghost predicate HasParts(data: bytes, ks: Scheme, id: Id) {
    var n := |ks|;
    && |data| == 4 + n + |id| && ReadUint16(data) == n
    && data[2..2 + n] == ks
    && ReadUint16(data[2 + n..]) == |id| % 65536
    && data[4 + n..] == id
  }

  lemma MarshalParts(ks: Scheme, id: Id)
    requires |ks| < 65536
    ensures HasParts(Marshal(ks, id), ks, id)
  {
    var head, mid := Uint16(|ks|), Uint16(|id|);
    Uint16RoundTrip(|ks|, ks + mid + id);
    Uint16RoundTrip(|id|, id);
    PartsOf(head, ks, mid, id);
  }

  lemma PartsOf(head: bytes, ks: bytes, mid: bytes, id: bytes)
    requires |head| == 2 && |mid| == 2
    ensures var data := head + ks + mid + id;
      && data == head + (ks + mid + id) && data[2..2 + |ks|] == ks && data[2 + |ks|..] == mid + id
        && data[4 + |ks|..] == id
  {}

  /** Packing is injective for all ids, also those whose length does not fit the two bytes. */
  lemma MarshalInjective(ks: Scheme, id: Id, ks': Scheme, id': Id)
    requires Supported(ks) && Supported(ks') && Marshal(ks, id) == Marshal(ks', id')
    ensures ks == ks' && id == id'
  {
    SupportedShort(ks);
    SupportedShort(ks');
    MarshalParts(ks, id);
    MarshalParts(ks', id');
    SameParts(Marshal(ks, id), ks, id, ks', id');
  }

  lemma SameParts(data: bytes, ks: Scheme, id: Id, ks': Scheme, id': Id)
    requires HasParts(data, ks, id) && HasParts(data, ks', id')
    ensures ks == ks' && id == id'
  {}

  datatype UnpackError = TooShort | TypeTooLong | BadType | IdTooLong

  /** Unpacking into a key that already holds `held`: its buffer is reused if it is long enough. */
  function Unpacked(held: Id, data: bytes): Result<(Scheme, Id), UnpackError> {
    if |data| < 2 then Err(TooShort)
    else
      var n := ReadUint16(data);
      if |data| - 2 < n + 2 then Err(TypeTooLong)
      else
        var ks := data[2..2 + n];
        if !Supported(ks) then Err(BadType)
        else
          var len := ReadUint16(data[2 + n..]);
          var rest := data[4 + n..];
          if |rest| < len then Err(IdTooLong)
          else
            var buffer := if |held| < len then Zeros(len) else held;
            Ok((ks, Overwritten(buffer, rest)))
  }

  function Zeros(n: nat): bytes { seq(n, _ => 0 as byte) }

  /** The built-in copy: as much as both hold. */
  function Overwritten(buffer: bytes, src: bytes): bytes {
    if |src| <= |buffer| then src + buffer[|src|..] else src[..|buffer|]
  }

  /**
   Unpacking a packed key gives it back if and only if the buffer at hand has the length of the id, or is shorter and
   the id's length fits two bytes.  For a fresh key that means: just for ids up to 65535 bytes.
   */
  lemma UnpackMarshalIff(ks: Scheme, id: Id, held: Id)
    requires Supported(ks)
    ensures Unpacked(held, Marshal(ks, id)) == Ok((ks, id)) <==> |held| == |id| || |held| < |id| < 65536
  {
    SupportedShort(ks);
    MarshalParts(ks, id);
    UnpackParts(Marshal(ks, id), ks, id, held);
  }

  lemma UnpackParts(data: bytes, ks: Scheme, id: Id, held: Id)
    requires Supported(ks) && HasParts(data, ks, id)
    ensures Unpacked(held, data) == Ok((ks, id)) <==> |held| == |id| || |held| < |id| < 65536
  {
    var len := |id| % 65536;
    var buffer := if |held| < len then Zeros(len) else held;
    OverwrittenWhole(buffer, id);
    assert data[2 + |ks|..][2..] == data[4 + |ks|..];
    assert Unpacked(held, data) == Ok((ks, Overwritten(buffer, id)));
  }

  lemma OverwrittenWhole(buffer: bytes, src: bytes)
    ensures |Overwritten(buffer, src)| == |buffer|
    ensures |buffer| == |src| ==> Overwritten(buffer, src) == src
  {}

  class IndexKey {
    var ks: Scheme
    var id: Id

    constructor (ks: Scheme, id: Id)
      ensures this.ks == ks && this.id == id
    {
      this.ks, this.id := ks, id;
    }

    /** Copies the packed key into a buffer. */
    method Read(data: array<byte>) returns (r: Option<int>)
      modifies data
      ensures var len := 4 + |id| + |ks|;
        if Supported(ks) && len <= data.Length
        then r == Some(len) && data[..] == Marshal(ks, id) + old(data[..])[len..]
        else r == None && data[..] == old(data[..])
    {
      var len := 4 + |id| + |ks|;
      if !Supported(ks) || data.Length < len {
        return None;
      }
      CopyFour(data, Uint16(|ks|), ks, Uint16(|id|), id);
      r := Some(len);
    }

    method MarshalBinary() returns (r: Option<bytes>)
      ensures r == if Supported(ks) then Some(Marshal(ks, id)) else None
    {
      var data := new byte[4 + |id| + |ks|](_ => 0);
      var n := Read(data);
      if n.None? {
        return None;
      }
      assert Marshal(ks, id) + [] == Marshal(ks, id);
      r := Some(data[..]);
    }

    /** Unpacks; on an error the scheme may have been changed. */
    method Write(data: bytes) returns (r: Option<UnpackError>)
      modifies this
      ensures match Unpacked(old(id), data)
        case Ok(k) => r == None && ks == k.0 && id == k.1
        case Err(e) => r == Some(e) && id == old(id)
    {
      if |data| < 2 {
        return Some(TooShort);
      }
      var typeLen := ReadUint16(data);
      var off := 2;
      if |data| - off < typeLen + 2 {
        return Some(TypeTooLong);
      }
      ks := data[off..off + typeLen];
      if !Supported(ks) {
        return Some(BadType);
      }
      off := off + typeLen;
      var idLen := ReadUint16(data[off..]);
      off := off + 2;
      if |data| - off < idLen {
        return Some(IdTooLong);
      }
      if |id| < idLen {
        id := Zeros(idLen);
      }
      id := Overwritten(id, data[off..]);
      r := None;
    }
  }

  /** The part of a buffer from `off` on becomes `src`. */
  function Patched(b: bytes, off: nat, src: bytes): bytes
    requires off + |src| <= |b|
  {
    b[..off] + src + b[off + |src|..]
  }

  method CopyInto(data: array<byte>, off: nat, src: bytes)
    requires off + |src| <= data.Length
    modifies data
    ensures data[..] == Patched(old(data[..]), off, src)
  {
    for i := 0 to |src|
      invariant forall j :: 0 <= j < data.Length ==>
        data[j] == if off <= j < off + i then src[j - off] else old(data[j])
    {
      data[off + i] := src[i];
    }
  }

  /** Four parts, one after the other. */
  method CopyFour(data: array<byte>, w: bytes, x: bytes, y: bytes, z: bytes)
    requires |w| + |x| + |y| + |z| <= data.Length
    modifies data
    ensures data[..] == w + x + y + z + old(data[..])[|w| + |x| + |y| + |z|..]
  {
    ghost var was := data[..];
    var off := 0;
    CopyInto(data, off, w);
    off := off + |w|;
    CopyInto(data, off, x);
    off := off + |x|;
    CopyInto(data, off, y);
    off := off + |y|;
    CopyInto(data, off, z);
    FourParts(was, w, x, y, z);
  }

  lemma FourParts(b: bytes, w: bytes, x: bytes, y: bytes, z: bytes)
    requires |w| + |x| + |y| + |z| <= |b|
    ensures var b1 := Patched(b, 0, w); var b2 := Patched(b1, |w|, x); var b3 := Patched(b2, |w| + |x|, y);
      Patched(b3, |w| + |x| + |y|, z) == w + x + y + z + b[|w| + |x| + |y| + |z|..]
  {
    var b1 := Patched(b, 0, w);
    assert b1 == w + b[|w|..];
    var b2 := Patched(b1, |w|, x);
    assert b2 == w + x + b[|w| + |x|..];
    var b3 := Patched(b2, |w| + |x|, y);
    assert b3 == w + x + y + b[|w| + |x| + |y|..];
  }

  // ---------------------------------------------------------------- the store

  datatype Recipient = Recipient(key: bytes, scheme: Scheme, metadata: string)

  datatype KeyOp =
    | AddKey(id: Id, r: Recipient)
    | SetKey(id: Id, r: Recipient)
    | RmKeys(ks: Scheme, id: Id)
    | RmKey(ks: Scheme, id: Id, key: bytes)
    | GetKeys(ks: Scheme, id: Id)

  datatype Reply = Done | Keys(list: seq<Recipient>) | InvalidScheme | NoSuchKey | NotInList

  function SchemeOf(op: KeyOp): Scheme { if op.AddKey? || op.SetKey? then op.r.scheme else op.ks }

  /** The position of the first entry with the key, or the length. */
  function Position(list: seq<Recipient>, key: bytes): (i: nat)
    ensures i <= |list|
    ensures i < |list| ==> list[i].key == key
    ensures forall j :: 0 <= j < i ==> list[j].key != key
  {
    if list == [] then 0 else if list[0].key == key then 0 else 1 + Position(list[1..], key)
  }

  /** What an operation does to a table in which its keys are filed under `k`. */
  function Applied<K>(t: map<K, seq<Recipient>>, k: K, op: KeyOp): (map<K, seq<Recipient>>, Reply) {
    match op
    case AddKey(_, r) => (t[k := (if k in t then t[k] else []) + [r]], Done)
    case SetKey(_, r) => (t[k := [r]], Done)
    case RmKeys(_, _) => (t - {k}, Done)
    case RmKey(_, _, key) =>
      if k !in t then (t, NoSuchKey)
      else
        var i := Position(t[k], key);
        if i == |t[k]| then (t, NotInList) else (t[k := t[k][..i] + t[k][i + 1..]], Done)
    case GetKeys(_, _) => (t, if k in t then Keys(t[k]) else NoSuchKey)
  }

  type Backend = map<bytes, seq<Recipient>>
  type Table = map<(Scheme, Id), seq<Recipient>>

  function BackendStep(b: Backend, op: KeyOp): (Backend, Reply) {
    if !Supported(SchemeOf(op)) then (b, InvalidScheme) else Applied(b, Marshal(SchemeOf(op), op.id), op)
  }

  function TableStep(t: Table, op: KeyOp): (Table, Reply) {
    if !Supported(SchemeOf(op)) then (t, InvalidScheme) else Applied(t, (SchemeOf(op), op.id), op)
  }

  /** The backend holds the table under packed keys. */
  ghost predicate Refines(b: Backend, t: Table) {
    forall ks: Scheme, id: Id :: Supported(ks) ==>
      && (Marshal(ks, id) in b <==> (ks, id) in t)
      && ((ks, id) in t ==> b[Marshal(ks, id)] == t[(ks, id)])
  }

  lemma StepRefines(b: Backend, t: Table, op: KeyOp)
    requires Refines(b, t)
    ensures Refines(BackendStep(b, op).0, TableStep(t, op).0)
    ensures BackendStep(b, op).1 == TableStep(t, op).1
  {
    var ks0, id0 := SchemeOf(op), op.id;
    if Supported(ks0) {
      var b', t' := BackendStep(b, op).0, TableStep(t, op).0;
      forall ks: Scheme, id: Id | Supported(ks)
        ensures (Marshal(ks, id) in b' <==> (ks, id) in t') && ((ks, id) in t' ==> b'[Marshal(ks, id)] == t'[(ks, id)])
      {
        if Marshal(ks, id) == Marshal(ks0, id0) {
          MarshalInjective(ks, id, ks0, id0);
        }
      }
    }
  }

  /** What the store answers when it is asked for keys. */
  function Answer(b: Backend, ks: Scheme, id: Id): Reply { BackendStep(b, GetKeys(ks, id)).1 }

  function Held(a: Reply): seq<Recipient> { if a.Keys? then a.list else [] }

  /** An operation on another scheme or id, or under an unknown scheme, leaves the answer as it was. */
  lemma OthersUntouched(b: Backend, op: KeyOp, ks: Scheme, id: Id)
    requires Supported(ks) && (SchemeOf(op) != ks || op.id != id)
    ensures Answer(BackendStep(b, op).0, ks, id) == Answer(b, ks, id)
  {
    if Supported(SchemeOf(op)) && Marshal(SchemeOf(op), op.id) == Marshal(ks, id) {
      MarshalInjective(SchemeOf(op), op.id, ks, id);
    }
  }

  /** Adding appends, setting replaces, removing all leaves nothing, and asking changes nothing. */
  lemma AnswerAfter(b: Backend, op: KeyOp)
    requires Supported(SchemeOf(op)) && !op.RmKey?
    ensures var before, after := Answer(b, SchemeOf(op), op.id), Answer(BackendStep(b, op).0, SchemeOf(op), op.id);
      match op
      case AddKey(_, r) => after == Keys(Held(before) + [r])
      case SetKey(_, r) => after == Keys([r])
      case RmKeys(_, _) => after == NoSuchKey
      case GetKeys(_, _) => after == before && BackendStep(b, op).1 == before
  {}

  predicate FirstWith(list: seq<Recipient>, key: bytes, i: int) {
    0 <= i < |list| && list[i].key == key && forall j :: 0 <= j < i ==> list[j].key != key
  }

  /** Removing one key takes out its first entry and no other, or says what is missing. */
  lemma AnswerAfterRemoving(b: Backend, ks: Scheme, id: Id, key: bytes)
    requires Supported(ks)
    ensures var step := BackendStep(b, RmKey(ks, id, key));
      Removes(Answer(b, ks, id), Answer(step.0, ks, id), step.1, key)
  {
    RemovingAnswers(b, Marshal(ks, id), ks, id, key);
  }

  ghost predicate Removes(before: Reply, after: Reply, reply: Reply, key: bytes) {
    var list := Held(before);
    if exists i :: 0 <= i < |list| && list[i].key == key then
      && reply == Done && after.Keys?
      && exists i :: FirstWith(list, key, i) && after.list == list[..i] + list[i + 1..]
    else after == before && reply == if before.Keys? then NotInList else before
  }

  lemma RemovingAnswers(b: Backend, k: bytes, ks: Scheme, id: Id, key: bytes)
    ensures var step, get := Applied(b, k, RmKey(ks, id, key)), GetKeys(ks, id);
      Removes(Applied(b, k, get).1, Applied(step.0, k, get).1, step.1, key)
  {
    if k in b {
      var i := Position(b[k], key);
      if i < |b[k]| { assert FirstWith(b[k], key, i); }
    }
  }

  function BackendRun(b: Backend, ops: seq<KeyOp>): seq<Reply>
    decreases |ops|
  {
    if ops == [] then [] else [BackendStep(b, ops[0]).1] + BackendRun(BackendStep(b, ops[0]).0, ops[1..])
  }

  function TableRun(t: Table, ops: seq<KeyOp>): seq<Reply>
    decreases |ops|
  {
    if ops == [] then [] else [TableStep(t, ops[0]).1] + TableRun(TableStep(t, ops[0]).0, ops[1..])
  }

  /** Every run of operations on the packed store answers as a map from scheme and id to a list of keys does. */
  lemma {:induction false} RunRefines(b: Backend, t: Table, ops: seq<KeyOp>)
    requires Refines(b, t)
    ensures BackendRun(b, ops) == TableRun(t, ops)
    decreases |ops|
  {
    if ops != [] {
      StepRefines(b, t, ops[0]);
      RunRefines(BackendStep(b, ops[0]).0, TableStep(t, ops[0]).0, ops[1..]);
    }
  }

  class Store {
    var backend: Backend

    constructor ()
      ensures backend == map[] && Refines(backend, map[])
    {
      backend := map[];
    }

    method Lookup(ks: Scheme, id: Id) returns (r: Reply)
      ensures r == BackendStep(backend, GetKeys(ks, id)).1
    {
      if !Supported(ks) {
        return InvalidScheme;
      }
      var idxk := new IndexKey(ks, id);
      var packed := idxk.MarshalBinary();
      if packed.value !in backend {
        return NoSuchKey;
      }
      r := Keys(backend[packed.value]);
    }

    method Add(id: Id, r: Recipient) returns (reply: Reply)
      modifies this
      ensures (backend, reply) == BackendStep(old(backend), AddKey(id, r))
    {
      if !Supported(r.scheme) {
        return InvalidScheme;
      }
      var idxk := new IndexKey(r.scheme, id);
      var packed := idxk.MarshalBinary();
      var found := Lookup(r.scheme, id);
      var recps := [];
      if found.Keys? {
        recps := found.list;
      }
      backend := backend[packed.value := recps + [r]];
      reply := Done;
    }

    method Set(id: Id, r: Recipient) returns (reply: Reply)
      modifies this
      ensures (backend, reply) == BackendStep(old(backend), SetKey(id, r))
    {
      if !Supported(r.scheme) {
        return InvalidScheme;
      }
      var idxk := new IndexKey(r.scheme, id);
      var packed := idxk.MarshalBinary();
      backend := backend[packed.value := [r]];
      reply := Done;
    }

    method RemoveAll(ks: Scheme, id: Id) returns (reply: Reply)
      modifies this
      ensures (backend, reply) == BackendStep(old(backend), RmKeys(ks, id))
    {
      var idxk := new IndexKey(ks, id);
      var packed := idxk.MarshalBinary();
      if packed.None? {
        return InvalidScheme;
      }
      backend := backend - {packed.value};
      reply := Done;
    }

    method Remove(ks: Scheme, id: Id, key: bytes) returns (reply: Reply)
      modifies this
      ensures (backend, reply) == BackendStep(old(backend), RmKey(ks, id, key))
    {
      reply := Lookup(ks, id);
      if !reply.Keys? {
        return;
      }
      var recps := reply.list;
      var idx := Find(recps, key);
      if idx < 0 {
        return NotInList;
      }
      recps := recps[..idx] + recps[idx + 1..];
      var idxk := new IndexKey(ks, id);
      var packed := idxk.MarshalBinary();
      backend := backend[packed.value := recps];
      reply := Done;
    }

    /** The search loop. */
    method Find(recps: seq<Recipient>, key: bytes) returns (idx: int)
      ensures idx == if Position(recps, key) < |recps| then Position(recps, key) else -1
    {
      idx := -1;
      for i := 0 to |recps|
        invariant idx == -1 && forall j :: 0 <= j < i ==> recps[j].key != key
      {
        if recps[i].key == key {
          idx := i;
          break;
        }
      }
    }
  }
}
