/**
 The combined index: which author, type, tangle and private sublogs a message
 belongs to, and how encrypted messages are indexed again when a key arrives.
 */
module CombinedIndex {
  import opened Basics
  import opened Feeds
  import Base64

  type Key = string

  /** What indexing reads from a message's content. */
  datatype Content = Content(kind: string, root: Option<string>, tangles: map<string, Option<string>>)

  /**
   What the index relies on: the two decryptions, JSON decoding of the content, and whether a gabby message
   holds arbitrary bytes.
   */
  datatype World = World(
    open1: bytes -> Option<string>,
    open2: (set<Key>, bytes, Feed, Option<string>) -> Option<string>,
    parse: string -> Option<Content>,
    arbitrary: Msg -> bool)

  /** More keys never change what could already be decrypted. */
  ghost predicate Stable(w: World) {
    forall k: set<Key>, k': set<Key>, d: bytes, a: Feed, p: Option<string> ::
      k <= k' && w.open2(k, d, a, p).Some? ==> w.open2(k', d, a, p) == w.open2(k, d, a, p)
  }

  // ---------------------------------------------------------------- classification of content

  /** `Broken`: an error ends the pass.  `Crash`: naming the content in that error runs out of bounds. */
  datatype Boxed = Box1(data: bytes) | Box2(data: bytes) | NotBoxed | Broken | Crash

  predicate HasPrefix(s: string, prefix: string) { |prefix| <= |s| && s[..|prefix|] == prefix }

  function BytesOf(s: string): bytes { seq(|s|, i requires 0 <= i < |s| => (s[i] as int % 256) as byte) }

  /** Classic feeds carry base64 in a JSON string. */
  function ClassicContent(input: string): Boxed
    requires input != ""
  {
    if !(input[0] == '"' && input[|input| - 1] == '"') then NotBoxed
    else if HasSuffix(input[1..], ".box\"") then
      var data := Base64.Decode(input[1..|input| - 5]);
      if data.Some? then Box1(data.value) else NotBoxed
    else if HasSuffix(input[1..], ".box2\"") then
      var data := Base64.Decode(input[1..|input| - 6]);
      if data.Some? then Box2(data.value) else NotBoxed
    else if |input| < 10 then Crash
    else Broken
  }

  function BoxedContent(w: World, m: Msg): Boxed
    requires m.content != ""
  {
    var input := m.content;
    match m.author.algo
    case Ssb1 => ClassicContent(input)
    case Gabby =>
      if !w.arbitrary(m) then NotBoxed
      else if HasPrefix(input, "box1:") then Box1(BytesOf(input[5..]))
      else if HasPrefix(input, "box2:") then Box2(BytesOf(input[5..]))
      else Broken
    case BendyButt => NotBoxed
  }

  // ---------------------------------------------------------------- index entries

  /** The sublogs of the users, private, byType and tangles indexes. */
  datatype Entry =
    | User(a: Feed)
    | MetaBox1 | MetaBox2 | Readable1 | Readable2
    | ByType(addr: string)
    | Tangle(addr: string)

  function TypeAddr(kind: string): string { "string:" + kind }
  function TangleV1(root: string): string { "v1:" + root }
  function TangleV2(name: string, root: string): string { "v2:" + name + ":" + root }

  /** With hashes of one length, tangles have distinct addresses. */
  lemma TangleAddressesDiffer(name: string, root: string, name': string, root': string)
    requires |root| == |root'|
    ensures TangleV1(root) != TangleV2(name', root')
    ensures TangleV2(name, root) == TangleV2(name', root') ==> name == name' && root == root'
  {
    assert TangleV1(root)[1] == '1' && TangleV2(name', root')[1] == '2';
    var t, t' := TangleV2(name, root), TangleV2(name', root');
    if t == t' {
      assert |name| == |name'|;
      assert name == t[3..3 + |name|] && name' == t'[3..3 + |name|];
      assert root == t[4 + |name|..] && root' == t'[4 + |name|..];
    }
  }

  function NamedTangles(c: Content): set<string> {
    set name | name in c.tangles && name != "" && c.tangles[name].Some? :: name
  }

  /** The type and tangle entries of clear content; content that does not decode, or has no type, has none. */
  function Topics(w: World, text: string): set<Entry> {
    match w.parse(text)
    case None => {}
    case Some(c) =>
      if c.kind == "" then {}
      else
        {ByType(TypeAddr(c.kind))}
        + (if c.root.Some? then {Tangle(TangleV1(c.root.value))} else {})
        + (set name | name in NamedTangles(c) :: Tangle(TangleV2(name, c.tangles[name].value)))
  }

  /** A typed content is entered under its type, its root and each tangle it names with a root, and nothing else. */
  lemma TopicsExact(w: World, text: string, e: Entry)
    ensures e in Topics(w, text)
      <==> w.parse(text).Some? && w.parse(text).value.kind != "" && OnTopic(w.parse(text).value, e)
  {
    if w.parse(text).Some? {
      var c := w.parse(text).value;
      if name :| InTangle(c, name, e) { assert name in NamedTangles(c); }
      forall name | name in NamedTangles(c) && e == Tangle(TangleV2(name, c.tangles[name].value))
        ensures InTangle(c, name, e)
      {}
    }
  }

  ghost predicate OnTopic(c: Content, e: Entry) {
    || e == ByType("string:" + c.kind)
    || (c.root.Some? && e == Tangle("v1:" + c.root.value))
    || exists name :: InTangle(c, name, e)
  }

  predicate InTangle(c: Content, name: string, e: Entry) {
    name in c.tangles && name != "" && c.tangles[name].Some? && e == Tangle("v2:" + name + ":" + c.tangles[name].value)
  }

  predicate Encrypted(m: Msg) { m.content != "" && m.content[0] != '{' }

  predicate IsBox2(w: World, m: Msg) { Encrypted(m) && BoxedContent(w, m).Box2? }

  function Opened2(w: World, m: Msg, keys: set<Key>): Option<string>
    requires IsBox2(w, m)
  {
    w.open2(keys, BoxedContent(w, m).data, m.author, m.previous)
  }

  /** A private-group message that these keys open. */
  predicate Reads(w: World, m: Msg, keys: set<Key>) { IsBox2(w, m) && Opened2(w, m, keys).Some? }

  /** The private entries of an encrypted message and its clear text, if readable. */
  datatype Opening = Opening(marks: set<Entry>, text: Option<string>)

  function OpeningOf(w: World, m: Msg, keys: set<Key>): Opening
    requires Encrypted(m)
  {
    OpeningOfBox(w, BoxedContent(w, m), m, keys)
  }

  function OpeningOfBox(w: World, boxed: Boxed, m: Msg, keys: set<Key>): Opening {
    match boxed
    case Box1(d) =>
      var t := w.open1(d);
      Opening({MetaBox1} + if t.Some? then {Readable1} else {}, t)
    case Box2(d) =>
      var t := w.open2(keys, d, m.author, m.previous);
      Opening({MetaBox2} + if t.Some? then {Readable2} else {}, t)
    case NotBoxed => Opening({}, None)
    case Broken => Opening({}, None)
    case Crash => Opening({}, None)
  }

  /** Every sublog a message belongs to when it is indexed with these keys. */
  function Facts(w: World, m: Msg, keys: set<Key>): set<Entry> {
    {User(m.author)}
    + if m.content == "" then {}
      else if !Encrypted(m) then Topics(w, m.content)
      else var o := OpeningOf(w, m, keys); o.marks + if o.text.Some? then Topics(w, o.text.value) else {}
  }

  lemma FactsMarks(w: World, m: Msg, keys: set<Key>)
    ensures MetaBox2 in Facts(w, m, keys) <==> IsBox2(w, m)
    ensures Readable2 in Facts(w, m, keys) <==> Reads(w, m, keys)
    ensures forall a :: User(a) in Facts(w, m, keys) <==> a == m.author
  {
    if Encrypted(m) {
      EncryptedMarks(w, BoxedContent(w, m), m, keys);
    } else if m.content != "" {
      TopicsOnly(w, m.content);
    }
  }

  lemma EncryptedMarks(w: World, boxed: Boxed, m: Msg, keys: set<Key>)
    ensures var o := OpeningOfBox(w, boxed, m, keys);
      var es := {User(m.author)} + (o.marks + if o.text.Some? then Topics(w, o.text.value) else {});
      && (MetaBox2 in es <==> boxed.Box2?)
      && (Readable2 in es <==> boxed.Box2? && w.open2(keys, boxed.data, m.author, m.previous).Some?)
      && (forall a :: User(a) in es <==> a == m.author)
  {
    BoxMarks(w, boxed, m, keys);
    var o := OpeningOfBox(w, boxed, m, keys);
    if o.text.Some? { TopicsOnly(w, o.text.value); }
  }

  lemma TopicsOnly(w: World, text: string)
    ensures forall e :: e in Topics(w, text) ==> e.ByType? || e.Tangle?
  {}

  lemma BoxMarks(w: World, boxed: Boxed, m: Msg, keys: set<Key>)
    ensures var o := OpeningOfBox(w, boxed, m, keys);
      && (MetaBox2 in o.marks <==> boxed.Box2?)
      && (Readable2 in o.marks <==> boxed.Box2? && w.open2(keys, boxed.data, m.author, m.previous).Some?)
      && (forall e :: e in o.marks ==> !e.User?)
  {}

  /** What a private message of one kind is entered under: its kind always, and if readable what it says. */
  function Private(w: World, a: Feed, kind: Entry, readable: Entry, text: Option<string>): set<Entry> {
    {User(a), kind} + if text.Some? then {readable} + Topics(w, text.value) else {}
  }

  /** The ordinary private message of a classic feed. */
  lemma ClassicPrivate(w: World, m: Msg, keys: set<Key>, d: bytes)
    requires m.author.algo.Ssb1? && m.content == "\"" + Base64.Encode(d) + ".box\""
    ensures Facts(w, m, keys) == Private(w, m.author, MetaBox1, Readable1, w.open1(d))
    ensures EndOf(w, m) == Finished
  {
    Base64.DecodeEncode(d);
    ClassicBox1(m.content, Base64.Encode(d), d);
  }

  /** A group message of a classic feed. */
  lemma ClassicGroup(w: World, m: Msg, keys: set<Key>, d: bytes)
    requires m.author.algo.Ssb1? && m.content == "\"" + Base64.Encode(d) + ".box2\""
    ensures Facts(w, m, keys) == Private(w, m.author, MetaBox2, Readable2, w.open2(keys, d, m.author, m.previous))
    ensures EndOf(w, m) == Finished
  {
    Base64.DecodeEncode(d);
    ClassicBox2(m.content, Base64.Encode(d), d);
  }

  lemma ClassicBox1(input: string, b64: string, d: bytes)
    requires input == "\"" + b64 + ".box\"" && Base64.Decode(b64) == Some(d)
    ensures input[0] == '"' && ClassicContent(input) == Box1(d)
  {
    EndsWith(b64, ".box\"", input);
    assert input[|input| - 1] == '"';
  }

  lemma ClassicBox2(input: string, b64: string, d: bytes)
    requires input == "\"" + b64 + ".box2\"" && Base64.Decode(b64) == Some(d)
    ensures input[0] == '"' && ClassicContent(input) == Box2(d)
  {
    EndsWith(b64, ".box2\"", input);
    assert input[|input| - 1] == '"' && input[1..] == b64 + ".box2\"";
    NotBox1(b64 + ".box2\"", b64);
  }

  lemma NotBox1(t: string, b64: string)
    requires t == b64 + ".box2\""
    ensures !HasSuffix(t, ".box\"")
  {
    assert t[|t| - 5..][3] == '2' && ".box\""[3] == 'x';
  }

  lemma EndsWith(b64: string, suffix: string, input: string)
    requires input == "\"" + b64 + suffix
    ensures input[0] == '"' && HasSuffix(input[1..], suffix) && input[1..|input| - |suffix|] == b64
  {
    assert input[1..] == b64 + suffix;
  }

  /** Private messages of a gabby feed carry their kind in front. */
  lemma GabbyPrivate(w: World, m: Msg, keys: set<Key>, s: string)
    requires m.author.algo.Gabby? && w.arbitrary(m) && m.content == "box1:" + s
    ensures Facts(w, m, keys) == Private(w, m.author, MetaBox1, Readable1, w.open1(BytesOf(s)))
    ensures EndOf(w, m) == Finished
  {
    assert m.content[5..] == s && m.content[..5] == "box1:" && m.content[0] == 'b';
  }

  lemma GabbyGroup(w: World, m: Msg, keys: set<Key>, s: string)
    requires m.author.algo.Gabby? && w.arbitrary(m) && m.content == "box2:" + s
    ensures Facts(w, m, keys)
      == Private(w, m.author, MetaBox2, Readable2, w.open2(keys, BytesOf(s), m.author, m.previous))
    ensures EndOf(w, m) == Finished
  {
    assert m.content[5..] == s && m.content[..5] == "box2:" && m.content[0] == 'b';
    assert "box1:"[3] != "box2:"[3];
  }

  /** Any other content of a classic feed that is no object is entered under its author alone. */
  lemma ClassicOther(w: World, m: Msg, keys: set<Key>, s: string)
    requires m.author.algo.Ssb1? && m.content == "\"" + s + "\"" && !HasSuffix(s, ".box") && !HasSuffix(s, ".box2")
    ensures Facts(w, m, keys) == {User(m.author)}
    ensures EndOf(w, m) == if |s| < 8 then Panic else Error
  {
    var input := m.content;
    assert input[1..] == s + "\"" && input[0] == '"';
    BareSuffix(s, ".box");
    BareSuffix(s, ".box2");
    assert ".box" + "\"" == ".box\"" && ".box2" + "\"" == ".box2\"";
  }

  lemma BareSuffix(s: string, suffix: string)
    ensures HasSuffix(s + "\"", suffix + "\"") <==> HasSuffix(s, suffix)
  {
    var t, u := s + "\"", suffix + "\"";
    if |suffix| <= |s| {
      assert t[|t| - |u|..] == s[|s| - |suffix|..] + "\"";
      assert s[|s| - |suffix|..] == t[|t| - |u|..][..|suffix|] && suffix == u[..|suffix|];
    }
  }

  /** Keys matter only to group messages they do not open. */
  lemma FactsStable(w: World, m: Msg, keys: set<Key>, more: set<Key>)
    requires Stable(w) && keys <= more && (IsBox2(w, m) ==> Reads(w, m, keys))
    ensures Facts(w, m, keys) == Facts(w, m, more)
  {}

  // ---------------------------------------------------------------- the indexes as bitmaps

  /** A log position in a sublog.  A sublog exists once something was appended to it. */
  datatype Fact = Fact(entry: Entry, position: int)

  type Index = set<Fact>

  function At(es: set<Entry>, p: int): Index { set e | e in es :: Fact(e, p) }

  function Positions(idx: Index, e: Entry): set<int> { set f | f in idx && f.entry == e :: f.position }

  predicate Exists(idx: Index, e: Entry) { Positions(idx, e) != {} }

  /** The index of a log where position `p` was indexed with the keys `with[p]`. */
  ghost function Indexed(w: World, log: seq<Msg>, with: seq<set<Key>>): Index
    requires |with| <= |log|
  {
    set p, e | 0 <= p < |with| && e in Facts(w, log[p], with[p]) :: Fact(e, p)
  }

  /** Indexing from scratch with one set of keys. */
  ghost function Fresh(w: World, log: seq<Msg>, n: nat, keys: set<Key>): Index
    requires n <= |log|
  {
    Indexed(w, log, seq(n, _ => keys))
  }

  lemma InIndexed(w: World, log: seq<Msg>, with: seq<set<Key>>, e: Entry, p: int)
    requires |with| <= |log|
    ensures Fact(e, p) in Indexed(w, log, with) <==> 0 <= p < |with| && e in Facts(w, log[p], with[p])
  {}

  lemma IndexedNext(w: World, log: seq<Msg>, with: seq<set<Key>>, keys: set<Key>)
    requires |with| < |log|
    ensures Indexed(w, log, with + [keys]) == Indexed(w, log, with) + At(Facts(w, log[|with|], keys), |with|)
  {
    forall e, p ensures Fact(e, p) in Indexed(w, log, with + [keys])
                   <==> Fact(e, p) in Indexed(w, log, with) + At(Facts(w, log[|with|], keys), |with|) {
      InIndexed(w, log, with + [keys], e, p);
      InIndexed(w, log, with, e, p);
    }
    SameFacts(Indexed(w, log, with + [keys]), Indexed(w, log, with) + At(Facts(w, log[|with|], keys), |with|));
  }

  lemma SameFacts(a: Index, b: Index)
    requires forall e, p :: Fact(e, p) in a <==> Fact(e, p) in b
    ensures a == b
  {
    forall f ensures f in a <==> f in b { assert f == Fact(f.entry, f.position); }
  }

  /** The group messages of an author that could not be read when they were indexed. */
  function Missing(idx: Index, a: Feed): set<int> {
    Positions(idx, User(a)) * Positions(idx, MetaBox2) - Positions(idx, Readable2)
  }

  /** When does indexing an author again get past its look-ups? */
  predicate ReindexOk(idx: Index, a: Feed) {
    && Exists(idx, MetaBox2)
    && (Positions(idx, User(a)) * Positions(idx, MetaBox2) != {} ==> Exists(idx, Readable2))
  }

  function Again(w: World, log: seq<Msg>, ps: set<int>, keys: set<Key>): Index {
    set p, e | p in ps && 0 <= p < |log| && e in Facts(w, log[p], keys) :: Fact(e, p)
  }

  function Reindexed(w: World, log: seq<Msg>, idx: Index, a: Feed, keys: set<Key>): Index {
    if ReindexOk(idx, a) then idx + Again(w, log, Missing(idx, a), keys) else idx
  }

  // ---------------------------------------------------------------- runs

  /** The log, how much of it is indexed, the indexes and the keys held. */
  datatype Indexing = Indexing(log: seq<Msg>, next: nat, idx: Index, keys: set<Key>)

  datatype IndexEvent =
    | Appended(m: Msg)       // to the receive log
    | Poured                 // the index takes the next message
    | KeyAdded(k: Key)
    | ReindexedAuthor(a: Feed)

  function IndexStep(w: World, s: Indexing, e: IndexEvent): Indexing {
    match e
    case Appended(m) => s.(log := s.log + [m])
    case Poured => if s.next >= |s.log| then s
                   else s.(next := s.next + 1, idx := s.idx + At(Facts(w, s.log[s.next], s.keys), s.next))
    case KeyAdded(k) => s.(keys := s.keys + {k})
    case ReindexedAuthor(a) => s.(idx := Reindexed(w, s.log, s.idx, a, s.keys))
  }

  function IndexRun(w: World, s: Indexing, es: seq<IndexEvent>): Indexing
    decreases |es|
  {
    if es == [] then s else IndexRun(w, IndexStep(w, s, es[0]), es[1..])
  }

  const NothingIndexed: Indexing := Indexing([], 0, {}, {})

  /** Every indexed message carries the facts some earlier set of keys gave it. */
  ghost predicate Explained(w: World, s: Indexing, with: seq<set<Key>>) {
    && s.next <= |s.log| && |with| == s.next
    && (forall p :: 0 <= p < |with| ==> with[p] <= s.keys)
    && s.idx == Indexed(w, s.log, with)
  }

  lemma PositionsIndexed(w: World, log: seq<Msg>, with: seq<set<Key>>, a: Feed, p: int)
    requires |with| <= |log|
    ensures var idx := Indexed(w, log, with);
      && (p in Positions(idx, User(a)) <==> 0 <= p < |with| && log[p].author == a)
      && (p in Positions(idx, MetaBox2) <==> 0 <= p < |with| && IsBox2(w, log[p]))
      && (p in Positions(idx, Readable2) <==> 0 <= p < |with| && Reads(w, log[p], with[p]))
      && (p in Missing(idx, a)
        <==> 0 <= p < |with| && log[p].author == a && IsBox2(w, log[p]) && !Reads(w, log[p], with[p]))
  {
    var idx := Indexed(w, log, with);
    InIndexed(w, log, with, User(a), p);
    InIndexed(w, log, with, MetaBox2, p);
    InIndexed(w, log, with, Readable2, p);
    if 0 <= p < |with| { FactsMarks(w, log[p], with[p]); }
    InPositions(idx, User(a), p);
    InPositions(idx, MetaBox2, p);
    InPositions(idx, Readable2, p);
  }

  lemma InPositions(idx: Index, e: Entry, p: int)
    ensures p in Positions(idx, e) <==> Fact(e, p) in idx
  {}

  /** The keys each position counts as indexed with after an author was indexed again. */
  ghost function Renewed(w: World, log: seq<Msg>, with: seq<set<Key>>, a: Feed, keys: set<Key>): seq<set<Key>>
    requires |with| <= |log|
  {
    seq(|with|, p requires 0 <= p < |with| =>
      if log[p].author == a && IsBox2(w, log[p]) && !Reads(w, log[p], with[p]) then keys else with[p])
  }

  lemma ReindexRenews(w: World, log: seq<Msg>, with: seq<set<Key>>, a: Feed, keys: set<Key>)
    requires |with| <= |log| && Stable(w) && forall p :: 0 <= p < |with| ==> with[p] <= keys
    ensures var idx := Indexed(w, log, with);
      idx + Again(w, log, Missing(idx, a), keys) == Indexed(w, log, Renewed(w, log, with, a, keys))
  {
    var idx := Indexed(w, log, with);
    var with' := Renewed(w, log, with, a, keys);
    var left, right := idx + Again(w, log, Missing(idx, a), keys), Indexed(w, log, with');
    forall e, p ensures Fact(e, p) in left <==> Fact(e, p) in right {
      InIndexed(w, log, with, e, p);
      InIndexed(w, log, with', e, p);
      PositionsIndexed(w, log, with, a, p);
      if p in Missing(idx, a) {
        UnreadIsLess(w, log[p], with[p], keys);
      }
    }
    SameFacts(left, right);
  }

  /** An unread group message gains facts, and loses none. */
  lemma UnreadIsLess(w: World, m: Msg, keys: set<Key>, more: set<Key>)
    requires IsBox2(w, m) && !Reads(w, m, keys)
    ensures Facts(w, m, keys) <= Facts(w, m, more)
  {}

  lemma StepExplained(w: World, s: Indexing, with: seq<set<Key>>, e: IndexEvent) returns (with': seq<set<Key>>)
    requires Stable(w) && Explained(w, s, with)
    ensures Explained(w, IndexStep(w, s, e), with')
  {
    with' := with;
    match e
    case Appended(m) =>
      forall e, p ensures Fact(e, p) in Indexed(w, s.log + [m], with) <==> Fact(e, p) in s.idx {
        InIndexed(w, s.log + [m], with, e, p);
        InIndexed(w, s.log, with, e, p);
      }
      SameFacts(Indexed(w, s.log + [m], with), s.idx);
    case Poured =>
      if s.next < |s.log| {
        with' := with + [s.keys];
        IndexedNext(w, s.log, with, s.keys);
      }
    case KeyAdded(k) =>
    case ReindexedAuthor(a) =>
      if ReindexOk(s.idx, a) {
        with' := Renewed(w, s.log, with, a, s.keys);
        ReindexRenews(w, s.log, with, a, s.keys);
      }
  }

  lemma {:induction false} RunExplained(w: World, s: Indexing, with: seq<set<Key>>, es: seq<IndexEvent>)
    returns (with': seq<set<Key>>)
    requires Stable(w) && Explained(w, s, with)
    ensures Explained(w, IndexRun(w, s, es), with')
    decreases |es|
  {
    if es == [] {
      with' := with;
    } else {
      var next := StepExplained(w, s, with, es[0]);
      with' := RunExplained(w, IndexStep(w, s, es[0]), next, es[1..]);
    }
  }

  lemma Reachable(w: World, es: seq<IndexEvent>) returns (with: seq<set<Key>>)
    requires Stable(w)
    ensures Explained(w, IndexRun(w, NothingIndexed, es), with)
  {
    assert Indexed(w, [], []) == {};
    with := RunExplained(w, NothingIndexed, [], es);
  }

  // ---------------------------------------------------------------- late keys

  /** The part of an index that concerns an author's messages. */
  function OfAuthor(idx: Index, log: seq<Msg>, a: Feed): Index {
    set f | f in idx && 0 <= f.position < |log| && log[f.position].author == a
  }

  /** A message of the author became readable since it was indexed. */
  predicate Gains(w: World, s: Indexing, a: Feed) {
    exists p :: p in Missing(s.idx, a) && 0 <= p < |s.log| && Reads(w, s.log[p], s.keys)
  }

  lemma OfAuthorSame(idx: Index, idx': Index, log: seq<Msg>, a: Feed)
    requires forall e, p :: 0 <= p < |log| && log[p].author == a ==> (Fact(e, p) in idx <==> Fact(e, p) in idx')
    ensures OfAuthor(idx, log, a) == OfAuthor(idx', log, a)
  {
    SameFacts(OfAuthor(idx, log, a), OfAuthor(idx', log, a));
  }

  /** An index made with some keys agrees with a fresh one on an author, if it reads what can be read of them. */
  lemma AgreesWithFresh(w: World, s: Indexing, with: seq<set<Key>>, a: Feed)
    requires Stable(w) && Explained(w, s, with)
    requires forall p :: 0 <= p < s.next && s.log[p].author == a && Reads(w, s.log[p], s.keys) ==>
      Reads(w, s.log[p], with[p])
    ensures OfAuthor(s.idx, s.log, a) == OfAuthor(Fresh(w, s.log, s.next, s.keys), s.log, a)
  {
    var all := seq(s.next, _ => s.keys);
    forall e, p | 0 <= p < |s.log| && s.log[p].author == a
      ensures Fact(e, p) in s.idx <==> Fact(e, p) in Fresh(w, s.log, s.next, s.keys)
    {
      InIndexed(w, s.log, with, e, p);
      InIndexed(w, s.log, all, e, p);
      if p < s.next {
        if IsBox2(w, s.log[p]) && !Reads(w, s.log[p], with[p]) {
          UnreadAlike(w, s.log[p], with[p], s.keys);
        } else {
          FactsStable(w, s.log[p], with[p], s.keys);
        }
      }
    }
    OfAuthorSame(s.idx, Fresh(w, s.log, s.next, s.keys), s.log, a);
  }

  lemma UnreadAlike(w: World, m: Msg, keys: set<Key>, more: set<Key>)
    requires IsBox2(w, m) && !Reads(w, m, keys) && !Reads(w, m, more)
    ensures Facts(w, m, keys) == Facts(w, m, more)
  {}

  /** What indexing again achieves when its look-ups succeed. */
  lemma ReindexAgrees(w: World, s: Indexing, with: seq<set<Key>>, a: Feed)
    requires Stable(w) && Explained(w, s, with) && ReindexOk(s.idx, a)
    ensures var r := IndexStep(w, s, ReindexedAuthor(a));
      OfAuthor(r.idx, s.log, a) == OfAuthor(Fresh(w, s.log, s.next, s.keys), s.log, a)
  {
    var with' := Renewed(w, s.log, with, a, s.keys);
    ReindexRenews(w, s.log, with, a, s.keys);
    AgreesWithFresh(w, IndexStep(w, s, ReindexedAuthor(a)), with', a);
  }

  /**
   Late keys: after any run, indexing an author again makes the users, private, byType and tangles entries of that
   author's messages equal to indexing the log from scratch with all the keys held now, if and only if the look-ups
   succeed or no message of the author became readable.
   */
  lemma LateKeyConfluence(w: World, es: seq<IndexEvent>, a: Feed)
    requires Stable(w)
    ensures var s := IndexRun(w, NothingIndexed, es); var r := IndexStep(w, s, ReindexedAuthor(a));
      && s.next <= |s.log|
      && (OfAuthor(r.idx, s.log, a) == OfAuthor(Fresh(w, s.log, s.next, s.keys), s.log, a)
          <==> ReindexOk(s.idx, a) || !Gains(w, s, a))
  {
    var with := Reachable(w, es);
    ExplainedConfluence(w, IndexRun(w, NothingIndexed, es), with, a);
  }

  lemma ExplainedConfluence(w: World, s: Indexing, with: seq<set<Key>>, a: Feed)
    requires Stable(w) && Explained(w, s, with)
    ensures var r := IndexStep(w, s, ReindexedAuthor(a));
      && s.next <= |s.log|
      && (OfAuthor(r.idx, s.log, a) == OfAuthor(Fresh(w, s.log, s.next, s.keys), s.log, a)
          <==> ReindexOk(s.idx, a) || !Gains(w, s, a))
  {
    if ReindexOk(s.idx, a) {
      ReindexAgrees(w, s, with, a);
    } else if Gains(w, s, a) {
      GainsDiffer(w, s, with, a);
    } else {
      NothingGained(w, s, with, a);
    }
  }

  lemma NothingGained(w: World, s: Indexing, with: seq<set<Key>>, a: Feed)
    requires Stable(w) && Explained(w, s, with) && !Gains(w, s, a)
    ensures OfAuthor(s.idx, s.log, a) == OfAuthor(Fresh(w, s.log, s.next, s.keys), s.log, a)
  {
    forall p | 0 <= p < s.next && s.log[p].author == a && Reads(w, s.log[p], s.keys)
      ensures Reads(w, s.log[p], with[p])
    {
      PositionsIndexed(w, s.log, with, a, p);
    }
    AgreesWithFresh(w, s, with, a);
  }

  lemma GainsDiffer(w: World, s: Indexing, with: seq<set<Key>>, a: Feed)
    requires Explained(w, s, with) && Gains(w, s, a)
    ensures OfAuthor(s.idx, s.log, a) != OfAuthor(Fresh(w, s.log, s.next, s.keys), s.log, a)
  {
    var p :| p in Missing(s.idx, a) && 0 <= p < |s.log| && Reads(w, s.log[p], s.keys);
    PositionsIndexed(w, s.log, with, a, p);
    InIndexed(w, s.log, with, Readable2, p);
    FreshReads(w, s, p);
    FactsMarks(w, s.log[p], with[p]);
    assert Fact(Readable2, p) in OfAuthor(Fresh(w, s.log, s.next, s.keys), s.log, a);
  }

  lemma FreshReads(w: World, s: Indexing, p: int)
    requires 0 <= p < s.next <= |s.log| && Reads(w, s.log[p], s.keys)
    ensures Fact(Readable2, p) in Fresh(w, s.log, s.next, s.keys)
  {
    InIndexed(w, s.log, seq(s.next, _ => s.keys), Readable2, p);
    FactsMarks(w, s.log[p], s.keys);
  }

  /** Indexing again a second time changes nothing, and other authors are never touched. */
  lemma ReindexIdempotent(w: World, es: seq<IndexEvent>, a: Feed, b: Feed)
    requires Stable(w)
    ensures var s := IndexRun(w, NothingIndexed, es); var r := IndexStep(w, s, ReindexedAuthor(a));
      && IndexStep(w, r, ReindexedAuthor(a)) == r
      && (a != b ==> OfAuthor(r.idx, s.log, b) == OfAuthor(s.idx, s.log, b))
  {
    var s := IndexRun(w, NothingIndexed, es);
    var with := Reachable(w, es);
    var r := IndexStep(w, s, ReindexedAuthor(a));
    if ReindexOk(s.idx, a) {
      var with' := Renewed(w, s.log, with, a, s.keys);
      ReindexRenews(w, s.log, with, a, s.keys);
      RenewedTwice(w, s.log, with, a, s.keys);
      ReindexRenews(w, s.log, with', a, s.keys);
    }
    if a != b {
      forall e, p | 0 <= p < |s.log| && s.log[p].author == b ensures Fact(e, p) in r.idx <==> Fact(e, p) in s.idx {
        PositionsIndexed(w, s.log, with, a, p);
      }
      OfAuthorSame(r.idx, s.idx, s.log, b);
    }
  }

  lemma RenewedTwice(w: World, log: seq<Msg>, with: seq<set<Key>>, a: Feed, keys: set<Key>)
    requires |with| <= |log|
    ensures var with' := Renewed(w, log, with, a, keys); Renewed(w, log, with', a, keys) == with'
  {}

  /** Pouring a whole log with one set of keys is indexing it from scratch. */
  lemma {:induction false} PouredIsFresh(w: World, log: seq<Msg>, n: nat, keys: set<Key>)
    requires n <= |log|
    ensures IndexRun(w, Indexing(log, 0, {}, keys), seq(n, _ => Poured))
      == Indexing(log, n, Fresh(w, log, n, keys), keys)
  {
    if n == 0 {
      assert Fresh(w, log, 0, keys) == {};
    } else {
      PouredIsFresh(w, log, n - 1, keys);
      var es := seq(n - 1, _ => Poured);
      assert seq(n, _ => Poured) == es + [Poured];
      IndexRunSnoc(w, Indexing(log, 0, {}, keys), es, Poured);
      var with := seq(n - 1, _ => keys);
      IndexedNext(w, log, with, keys);
      assert seq(n, _ => keys) == with + [keys];
    }
  }

  lemma {:induction false} IndexRunSnoc(w: World, s: Indexing, es: seq<IndexEvent>, e: IndexEvent)
    ensures IndexRun(w, s, es + [e]) == IndexStep(w, IndexRun(w, s, es), e)
    decreases |es|
  {
    if es == [] {
      assert ([] + [e])[1..] == [];
      assert IndexRun(w, s, [e]) == IndexRun(w, IndexStep(w, s, e), [e][1..]);
    } else {
      assert (es + [e])[1..] == es[1..] + [e];
      IndexRunSnoc(w, IndexStep(w, s, es[0]), es[1..], e);
    }
  }

  /** The first group message ever readable: its sublog is missing, so indexing its author again fails. */
  lemma FirstReadableFails(a: Feed, k: Key)
    requires a.algo.Gabby?
    ensures exists w: World :: Stable(w) && FirstReadable(w, a, k)
  {
    var m := Msg(a, 1, "key", None, "box2:x");
    LateMessage(m, k);
    LateStable(k);
    FailsInWorld(LateWorld(k), m, k);
  }

  lemma FailsInWorld(w: World, m: Msg, k: Key)
    requires Stable(w) && IsBox2(w, m) && !Reads(w, m, {}) && Reads(w, m, {k})
    ensures FirstReadable(w, m.author, k)
  {
    FirstReadableRun(w, m, k);
  }

  lemma LateStable(k: Key)
    ensures Stable(LateWorld(k))
  {}

  /** One key opens every group message. */
  function LateWorld(k: Key): World {
    World(_ => None, (keys: set<Key>, d, f, p) => if k in keys then Some("{}") else None, _ => None, _ => true)
  }

  lemma LateMessage(m: Msg, k: Key)
    requires m.author.algo.Gabby? && m.content == "box2:x"
    ensures IsBox2(LateWorld(k), m) && !Reads(LateWorld(k), m, {}) && Reads(LateWorld(k), m, {k})
  {
    assert HasPrefix(m.content, "box2:") && !HasPrefix(m.content, "box1:") && m.content[0] == 'b';
  }

  ghost predicate FirstReadable(w: World, a: Feed, k: Key) {
    exists m: Msg :: m.author == a && FailsFor(w, m, k)
  }

  predicate FailsFor(w: World, m: Msg, k: Key) {
    var s := IndexRun(w, NothingIndexed, [Appended(m), Poured, KeyAdded(k)]);
    !ReindexOk(s.idx, m.author) && Gains(w, s, m.author)
  }

  lemma FirstReadableRun(w: World, m: Msg, k: Key)
    requires IsBox2(w, m) && !Reads(w, m, {}) && Reads(w, m, {k})
    ensures FailsFor(w, m, k)
  {
    var es := [Appended(m), Poured, KeyAdded(k)];
    var s1 := IndexStep(w, NothingIndexed, es[0]);
    var s2 := IndexStep(w, s1, Poured);
    var s3 := IndexStep(w, s2, KeyAdded(k));
    RunOfThree(w, NothingIndexed, es[0], es[1], es[2]);
    IndexedNext(w, [m], [], {});
    var none: set<Key> := {};
    assert Indexed(w, [m], []) == {} && [] + [none] == [none];
    assert s3.idx == Indexed(w, [m], [none]);
    PositionsIndexed(w, [m], [none], m.author, 0);
    forall p ensures p !in Positions(s3.idx, Readable2) { PositionsIndexed(w, [m], [none], m.author, p); }
    assert 0 in Positions(s3.idx, User(m.author)) * Positions(s3.idx, MetaBox2);
    assert 0 in Missing(s3.idx, m.author) && s3.log == [m] && s3.keys == {k};
  }

  lemma RunOfThree(w: World, s: Indexing, a: IndexEvent, b: IndexEvent, c: IndexEvent)
    ensures IndexRun(w, s, [a, b, c]) == IndexStep(w, IndexStep(w, IndexStep(w, s, a), b), c)
  {
    assert [a, b, c][1..] == [b, c] && [b, c][1..] == [c] && [c][1..] == [];
    var s1 := IndexStep(w, s, a);
    var s2 := IndexStep(w, s1, b);
    assert IndexRun(w, s, [a, b, c]) == IndexRun(w, s1, [b, c]);
    assert IndexRun(w, s1, [b, c]) == IndexRun(w, s2, [c]);
    assert IndexRun(w, s2, [c]) == IndexRun(w, IndexStep(w, s2, c), []);
  }

  // ---------------------------------------------------------------- the program's object

  datatype Clear = Text(content: string) | NotForUs | Failed | Panicked

  /** How indexing a message ends. */
  datatype UpdateEnd = Finished | Error | Panic

  function EndOf(w: World, m: Msg): UpdateEnd {
    if m.content == "" then Panic
    else if Encrypted(m) && BoxedContent(w, m).Broken? then Error
    else if Encrypted(m) && BoxedContent(w, m).Crash? then Panic
    else Finished
  }

  /** What indexing a boxed message comes to, by what is in the box. */
  lemma BoxedUpdate(w: World, m: Msg, keys: set<Key>) returns (boxed: Boxed)
    requires Encrypted(m)
    ensures boxed == BoxedContent(w, m)
    ensures var o := OpeningOfBox(w, boxed, m, keys);
      Facts(w, m, keys) == {User(m.author)} + (o.marks + if o.text.Some? then Topics(w, o.text.value) else {})
    ensures EndOf(w, m) == if boxed.Broken? then Error else if boxed.Crash? then Panic else Finished
  {
    boxed := BoxedContent(w, m);
  }

  class Combined {
    const w: World
    var log: seq<Msg>
    var index: Index
    var keys: set<Key>
    var saved: int // the position of the newest message taken from the log

    constructor (w: World)
      ensures this.w == w && log == [] && index == {} && keys == {} && saved == -1
    {
      this.w, log, index, keys, saved := w, [], {}, {}, -1;
    }

    /** Marks the message as encrypted and, if it opens, as readable. */
    method TryDecrypt(m: Msg, p: int, ghost boxed: Boxed) returns (r: Clear)
      requires Encrypted(m) && boxed == BoxedContent(w, m)
      modifies this`index
      ensures var o := OpeningOfBox(w, boxed, m, keys);
        && index == old(index) + At(o.marks, p)
        && r == if o.text.Some? then Text(o.text.value)
                else if boxed.Broken? then Failed
                else if boxed.Crash? then Panicked
                else NotForUs
    {
      r := Unbox(BoxedContent(w, m), m, p);
    }

    method Unbox(boxed: Boxed, m: Msg, p: int) returns (r: Clear)
      modifies this`index
      ensures var o := OpeningOfBox(w, boxed, m, keys);
        && index == old(index) + At(o.marks, p)
        && r == if o.text.Some? then Text(o.text.value)
                else if boxed.Broken? then Failed
                else if boxed.Crash? then Panicked
                else NotForUs
    {
      if boxed.Broken? {
        return Failed;
      }
      if boxed.Crash? {
        return Panicked;
      }
      if boxed.NotBoxed? {
        return NotForUs;
      }
      var text;
      index := index + {Fact(if boxed.Box1? then MetaBox1 else MetaBox2, p)};
      if boxed.Box1? {
        text := w.open1(boxed.data);
      } else {
        text := w.open2(keys, boxed.data, m.author, m.previous);
      }
      if text.None? {
        return NotForUs;
      }
      index := index + {Fact(if boxed.Box1? then Readable1 else Readable2, p)};
      r := Text(text.value);
    }

    /** Adds a message to every sublog it belongs to.  On an error or a panic the entries made so far stay. */
    method Update(p: int, m: Msg) returns (end: UpdateEnd)
      modifies this`index
      ensures index == old(index) + At(Facts(w, m, keys), p)
      ensures end == EndOf(w, m)
    {
      index := index + {Fact(User(m.author), p)};
      var content := m.content;
      if content == "" { // its first byte is asked for
        return Panic;
      }
      if content[0] != '{' {
        ghost var boxed := BoxedUpdate(w, m, keys);
        var cleartext := TryDecrypt(m, p, boxed);
        match cleartext {
          case NotForUs => return Finished;
          case Failed => return Error;
          case Panicked => return Panic;
          case Text(t) => content := t;
        }
      }
      AddTopics(p, content);
      return Finished;
    }

    method AddTopics(p: int, content: string)
      modifies this`index
      ensures index == old(index) + At(Topics(w, content), p)
    {
      var parsed := w.parse(content);
      if parsed.None? || parsed.value.kind == "" {
        return;
      }
      var c := parsed.value;
      index := index + {Fact(ByType(TypeAddr(c.kind)), p)};
      if c.root.Some? {
        index := index + {Fact(Tangle(TangleV1(c.root.value)), p)};
      }
      ghost var before := index;
      ghost var named := set name | name in NamedTangles(c) :: Tangle(TangleV2(name, c.tangles[name].value));
      var todo := c.tangles.Keys;
      while todo != {}
        invariant todo <= c.tangles.Keys
        invariant index
          == before
          + At(set name | name in NamedTangles(c) && name !in todo :: Tangle(TangleV2(name, c.tangles[name].value)), p)
        decreases todo
      {
        var name :| name in todo;
        if name != "" && c.tangles[name].Some? {
          index := index + {Fact(Tangle(TangleV2(name, c.tangles[name].value)), p)};
        }
        todo := todo - {name};
      }
    }

    /** Takes the next message from the log; its position is saved first. */
    method Pour(p: nat) returns (end: UpdateEnd)
      requires p < |log|
      modifies this`index, this`saved
      ensures saved == p && index == old(index) + At(Facts(w, log[p], keys), p)
      ensures end == EndOf(w, log[p])
    {
      saved := p;
      end := Update(p, log[p]);
    }

    /** The index was built from this log. */
    ghost predicate Valid(with: seq<set<Key>>)
      reads this
    {
      && Stable(w)
      && Explained(w, Indexing(log, |with|, index, keys), with)
    }

    /** Indexes the author's group messages again that could not be read. */
    method Box2Reindex(a: Feed, ghost with: seq<set<Key>>) returns (ok: bool)
      requires Valid(with)
      modifies this`index
      ensures ok == ReindexOk(old(index), a)
      ensures index == Reindexed(w, log, old(index), a, keys)
    {
      if !Exists(index, MetaBox2) {
        return false;
      }
      var fromAuthor := Positions(index, User(a)) * Positions(index, MetaBox2);
      if fromAuthor == {} {
        assert Missing(index, a) == {};
        return true;
      }
      if !Exists(index, Readable2) {
        return false;
      }
      fromAuthor := fromAuthor - Positions(index, Readable2);
      assert fromAuthor == Missing(index, a);
      forall p ensures p in fromAuthor ==> 0 <= p < |log| && IsBox2(w, log[p]) {
        PositionsIndexed(w, log, with, a, p);
      }
      ok := UpdateAll(fromAuthor);
    }

    method UpdateAll(ps: set<int>) returns (ok: bool)
      requires forall p :: p in ps ==> 0 <= p < |log| && IsBox2(w, log[p])
      modifies this`index
      ensures ok && index == old(index) + Again(w, log, ps, keys)
    {
      var todo, done := ps, {};
      while todo != {}
        invariant done + todo == ps
        invariant index == old(index) + Again(w, log, done, keys)
        decreases todo
      {
        SomeMember(todo);
        var p :| p in todo;
        AgainNext(w, log, done, p, keys);
        var end := Update(p, log[p]);
        if end != Finished {
          return false;
        }
        todo, done := todo - {p}, done + {p};
      }
      return true;
    }
  }

  lemma SomeMember(s: set<int>)
    requires s != {}
    ensures exists p :: p in s
  {
    if forall p :: p !in s { assert false; }
  }

  lemma AgainNext(w: World, log: seq<Msg>, ps: set<int>, p: int, keys: set<Key>)
    requires 0 <= p < |log|
    ensures Again(w, log, ps + {p}, keys) == Again(w, log, ps, keys) + At(Facts(w, log[p], keys), p)
  {
    var left, right := Again(w, log, ps + {p}, keys), Again(w, log, ps, keys) + At(Facts(w, log[p], keys), p);
    forall e, q ensures Fact(e, q) in left <==> Fact(e, q) in right {}
    SameFacts(left, right);
  }
}
