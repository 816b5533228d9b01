/**
 Append-only verified feeds: the per-author verification drains, the router
 that hands them out, and the local publisher, all writing one receive log.
 */
module Feeds {
  import opened Basics

  datatype Algo = Ssb1 | Gabby | BendyButt

  datatype Feed = Feed(key: string, algo: Algo)

  datatype Msg = Msg(author: Feed, sequence: int, key: string, previous: Option<string>, content: string)

  // ---------------------------------------------------------------- feeds inside the receive log

  /** The messages of one author in log order: the author's sublog. */
  function ByAuthor(log: seq<Msg>, a: Feed): seq<Msg> {
    if log == [] then []
    else
      var m := log[|log| - 1];
      ByAuthor(log[..|log| - 1], a) + if m.author == a then [m] else []
  }

  lemma ByAuthorAppend(log: seq<Msg>, m: Msg, a: Feed)
    ensures ByAuthor(log + [m], a) == ByAuthor(log, a) + if m.author == a then [m] else []
  {
    assert (log + [m])[..|log|] == log;
  }

  lemma {:induction false} ByAuthorAuthors(log: seq<Msg>, a: Feed)
    ensures forall i :: 0 <= i < |ByAuthor(log, a)| ==> ByAuthor(log, a)[i].author == a
  {
    if log != [] { ByAuthorAuthors(log[..|log| - 1], a); }
  }

  /** The placeholder in front of every feed. */
  function FirstMessage(a: Feed): Msg { Msg(a, 0, "", None, "") }

  /** The newest stored message of an author, as a fresh drain sees it. */
  function Latest(log: seq<Msg>, a: Feed): Msg {
    var ms := ByAuthor(log, a);
    if ms == [] then FirstMessage(a) else ms[|ms| - 1]
  }

  /** Numbered from one; every message after the first names the key of the one before it. */
  predicate Chain(ms: seq<Msg>) {
    && (forall i :: 0 <= i < |ms| ==> ms[i].sequence == i + 1)
    && (forall i :: 0 < i < |ms| ==> ms[i].previous == Some(ms[i - 1].key))
  }

  ghost predicate GoodLog(log: seq<Msg>) {
    forall a: Feed :: Chain(ByAuthor(log, a))
  }

  // ---------------------------------------------------------------- validation of one message

  datatype Verdict = Accept | Skip | Reject

  /** May `next` follow `current`?  Messages already held are skipped. */
  function ValidateNext(current: Msg, next: Msg): Verdict {
    if current.sequence == 0 then
      if next.sequence == 1 then Accept else Reject
    else if current.author != next.author then Reject
    else if current.sequence + 1 != next.sequence then
      if next.sequence <= current.sequence then Skip else Reject
    else if next.previous != Some(current.key) then Reject
    else Accept
  }

  /**
   At the end of a feed: accepted are exactly the messages that continue the chain, and silently skipped exactly those
   with a number the feed already has, be they held or forks of it; a gap, and a fork at the end, are errors.
   */
  lemma VerdictMeans(log: seq<Msg>, m: Msg)
    requires Chain(ByAuthor(log, m.author))
    ensures var ms, v := ByAuthor(log, m.author), ValidateNext(Latest(log, m.author), m);
      && (v.Accept? <==> Chain(ms + [m]))
      && (v.Skip? <==> ms != [] && m.sequence <= |ms|)
      && (m in ms ==> v.Skip?)
      && (m.sequence > |ms| + 1 ==> v.Reject?)
      && (ms != [] && m.sequence == |ms| + 1 && m.previous != Some(ms[|ms| - 1].key) ==> v.Reject?)
  {
    var ms := ByAuthor(log, m.author);
    ByAuthorAuthors(log, m.author);
    var all := ms + [m];
    assert all[|ms|] == m && (ms != [] ==> all[|ms| - 1] == ms[|ms| - 1]);
    forall i | 0 <= i < |ms| ensures all[i] == ms[i] {}
  }

  // ---------------------------------------------------------------- the node as a state machine

  /** The receive log and, for every open drain, the message it holds as its newest. */
  datatype Node = Node(log: seq<Msg>, sinks: map<Feed, Msg>)

  const EmptyNode: Node := Node([], map[])

  function Opened(n: Node, a: Feed): Node {
    if a in n.sinks then n else n.(sinks := n.sinks[a := Latest(n.log, a)])
  }

  /** A verified message is handed to the drain of its author. */
  function Route(n: Node, m: Msg): Node {
    var o := Opened(n, m.author);
    if ValidateNext(o.sinks[m.author], m).Accept? then Node(o.log + [m], o.sinks[m.author := m]) else o
  }

  function CloseSink(n: Node, a: Feed): Node { n.(sinks := n.sinks - {a}) }

  type Hasher = (Feed, int, Option<string>, string) -> string

  /** The message the publisher makes next: the key is a hash of the rest. */
  function NextOwn(log: seq<Msg>, self: Feed, hash: Hasher, content: string): Msg {
    var l := Latest(log, self);
    var prev := if l.sequence + 1 > 1 then Some(l.key) else None;
    Msg(self, l.sequence + 1, hash(self, l.sequence + 1, prev, content), prev, content)
  }

  /** The publisher reads the log, not the drain. */
  function Publish(n: Node, self: Feed, hash: Hasher, content: string): Node {
    n.(log := n.log + [NextOwn(n.log, self, hash, content)])
  }

  datatype Event = Routed(m: Msg) | Closed(a: Feed) | Published(content: string)

  function Step(n: Node, self: Feed, hash: Hasher, e: Event): Node {
    match e
    case Routed(m) => Route(n, m)
    case Closed(a) => CloseSink(n, a)
    case Published(c) => Publish(n, self, hash, c)
  }

  function Run(n: Node, self: Feed, hash: Hasher, es: seq<Event>): Node
    decreases |es|
  {
    if es == [] then n else Run(Step(n, self, hash, es[0]), self, hash, es[1..])
  }

  /** No message is published while the drain of the own feed is open. */
  predicate PublishesWhileClosed(n: Node, self: Feed, hash: Hasher, es: seq<Event>)
    decreases |es|
  {
    es == []
    || ((es[0].Published? ==> self !in n.sinks)
      && PublishesWhileClosed(Step(n, self, hash, es[0]), self, hash, es[1..]))
  }

  // ---------------------------------------------------------------- the invariant

  /** Every feed is a chain and no open drain is stale. */
  ghost predicate Good(n: Node) {
    && GoodLog(n.log)
    && forall a :: a in n.sinks ==> n.sinks[a] == Latest(n.log, a)
  }

  lemma LatestOfChain(log: seq<Msg>, a: Feed)
    requires Chain(ByAuthor(log, a))
    ensures Latest(log, a).sequence == |ByAuthor(log, a)| && Latest(log, a).author == a
  {
    ByAuthorAuthors(log, a);
  }

  /** Appending the right successor keeps every chain. */
  lemma AppendKeepsLog(log: seq<Msg>, m: Msg)
    requires GoodLog(log)
    requires m.sequence == Latest(log, m.author).sequence + 1
    requires m.sequence > 1 ==> m.previous == Some(Latest(log, m.author).key)
    ensures GoodLog(log + [m])
    ensures forall a: Feed :: Latest(log + [m], a) == if a == m.author then m else Latest(log, a)
  {
    forall a: Feed
      ensures Chain(ByAuthor(log + [m], a))
      ensures Latest(log + [m], a) == if a == m.author then m else Latest(log, a)
    {
      assert Chain(ByAuthor(log, a));
      AppendKeepsChain(log, m, a);
    }
  }

  lemma AppendKeepsChain(log: seq<Msg>, m: Msg, a: Feed)
    requires Chain(ByAuthor(log, a))
    requires a == m.author
      ==> m.sequence == Latest(log, a).sequence + 1 && (m.sequence > 1 ==> m.previous == Some(Latest(log, a).key))
    ensures Chain(ByAuthor(log + [m], a))
    ensures Latest(log + [m], a) == if a == m.author then m else Latest(log, a)
  {
    var ms := ByAuthor(log, a);
    ByAuthorAppend(log, m, a);
    if a == m.author {
      LatestOfChain(log, a);
      ChainGrows(ms, m);
    } else {
      assert ms + [] == ms;
    }
  }

  lemma ChainGrows(ms: seq<Msg>, m: Msg)
    requires Chain(ms) && m.sequence == |ms| + 1 && (ms != [] ==> m.previous == Some(ms[|ms| - 1].key))
    ensures Chain(ms + [m]) && (ms + [m])[|ms|] == m
  {}

  lemma RouteKeepsGood(n: Node, m: Msg)
    requires Good(n)
    ensures Good(Route(n, m))
  {
    var o := Opened(n, m.author);
    assert Good(o);
    if ValidateNext(o.sinks[m.author], m).Accept? {
      assert Chain(ByAuthor(n.log, m.author));
      LatestOfChain(n.log, m.author);
      AppendKeepsLog(n.log, m);
    }
  }

  lemma PublishKeepsGood(n: Node, self: Feed, hash: Hasher, content: string)
    requires Good(n) && self !in n.sinks
    ensures Good(Publish(n, self, hash, content))
  {
    var m := NextOwn(n.log, self, hash, content);
    assert Chain(ByAuthor(n.log, self));
    LatestOfChain(n.log, self);
    AppendKeepsLog(n.log, m);
  }

  lemma {:induction false} RunKeepsGood(n: Node, self: Feed, hash: Hasher, es: seq<Event>)
    requires Good(n) && PublishesWhileClosed(n, self, hash, es)
    ensures Good(Run(n, self, hash, es))
    decreases |es|
  {
    if es != [] {
      match es[0] {
        case Routed(m) => RouteKeepsGood(n, m);
        case Closed(a) => assert Good(CloseSink(n, a));
        case Published(c) => PublishKeepsGood(n, self, hash, c);
      }
      RunKeepsGood(Step(n, self, hash, es[0]), self, hash, es[1..]);
    }
  }

  /**
   Chain safety over whole runs: from the empty log, every interleaving of routed messages, closed drains
   and publishes made while the own drain is closed leaves each author's messages a chain.
   */
  lemma ChainSafety(self: Feed, hash: Hasher, es: seq<Event>)
    requires PublishesWhileClosed(EmptyNode, self, hash, es)
    ensures GoodLog(Run(EmptyNode, self, hash, es).log)
  {
    RunKeepsGood(EmptyNode, self, hash, es);
  }

  /** A node whose own feed is fed by publishing alone satisfies the condition. */
  lemma {:induction false} OwnFeedOnlyPublished(n: Node, self: Feed, hash: Hasher, es: seq<Event>)
    requires self !in n.sinks
    requires forall i :: 0 <= i < |es| && es[i].Routed? ==> es[i].m.author != self
    ensures PublishesWhileClosed(n, self, hash, es)
    decreases |es|
  {
    if es != [] {
      OwnFeedOnlyPublished(Step(n, self, hash, es[0]), self, hash, es[1..]);
    }
  }

  /**
   The condition is exact.  Publishing keeps the chains safe against every later routed message if and only if
   the own drain is closed: with the drain open, the published message echoed back is stored a second time.
   */
  lemma PublishSafeIffClosed(n: Node, self: Feed, hash: Hasher, content: string)
    requires Good(n)
    ensures self !in n.sinks <==>
      forall m: Msg :: GoodLog(Route(Publish(n, self, hash, content), m).log)
  {
    var p := Publish(n, self, hash, content);
    if self !in n.sinks {
      PublishKeepsGood(n, self, hash, content);
      forall m: Msg ensures GoodLog(Route(p, m).log) { RouteKeepsGood(p, m); }
    } else {
      EchoBreaksChain(n, self, hash, content);
    }
  }

  lemma EchoBreaksChain(n: Node, self: Feed, hash: Hasher, content: string)
    requires Good(n) && self in n.sinks
    ensures !GoodLog(Route(Publish(n, self, hash, content), NextOwn(n.log, self, hash, content)).log)
  {
    var p := Publish(n, self, hash, content);
    var m := NextOwn(n.log, self, hash, content);
    assert Chain(ByAuthor(n.log, self));
    LatestOfChain(n.log, self);
    assert ValidateNext(p.sinks[self], m).Accept?;
    var k := |ByAuthor(n.log, self)|;
    ByAuthorAppend(n.log, m, self);
    ByAuthorAppend(p.log, m, self);
    var ms := ByAuthor(p.log + [m], self);
    assert ms[k + 1].sequence == k + 1;
    assert !Chain(ms);
  }

  // ---------------------------------------------------------------- the program's objects

  class ReceiveLog {
    var entries: seq<Msg>

    constructor ()
      ensures entries == []
    {
      entries := [];
    }

    method Append(m: Msg)
      modifies this
      ensures entries == old(entries) + [m]
    {
      entries := entries + [m];
    }
  }

  datatype DrainError = NoError | VerifyFailed | InvalidNext

  /** One author's drain; `verify` is the check of the message format. */
  class Drain {
    const who: Feed
    const storage: ReceiveLog
    var latestSeq: int
    var latestMsg: Msg

    constructor (who: Feed, latest: Msg, storage: ReceiveLog)
      ensures this.who == who && this.storage == storage && latestMsg == latest && latestSeq == latest.sequence
    {
      this.who, this.storage := who, storage;
      latestSeq, latestMsg := latest.sequence, latest;
    }

    method Verify(raw: string, verify: string -> Option<Msg>) returns (err: DrainError)
      requires latestSeq == latestMsg.sequence
      modifies this, storage
      ensures latestSeq == latestMsg.sequence
      ensures var next := verify(raw);
        if next.Some? && ValidateNext(old(latestMsg), next.value).Accept?
        then err == NoError && storage.entries == old(storage.entries) + [next.value] && latestMsg == next.value
        else
          && storage.entries == old(storage.entries) && latestMsg == old(latestMsg)
          && (err == NoError <==> next.Some? && ValidateNext(old(latestMsg), next.value).Skip?)
    {
      var next := verify(raw);
      if next.None? {
        return VerifyFailed;
      }
      match ValidateNext(latestMsg, next.value)
      case Skip => return NoError;
      case Reject => return InvalidNext;
      case Accept =>
        storage.Append(next.value);
        latestSeq := next.value.sequence;
        latestMsg := next.value;
        return NoError;
    }
  }

  class Router {
    const rx: ReceiveLog
    var sinks: map<Feed, Drain>

    ghost predicate Valid()
      reads this, sinks.Values
    {
      forall f :: f in sinks ==>
        sinks[f].who == f && sinks[f].storage == rx && sinks[f].latestSeq == sinks[f].latestMsg.sequence
    }

    ghost function State(): Node
      reads this, rx, sinks.Values
    {
      Node(rx.entries, map f | f in sinks :: sinks[f].latestMsg)
    }

    constructor (rx: ReceiveLog)
      ensures this.rx == rx && Valid() && State() == Node(rx.entries, map[])
    {
      this.rx := rx;
      sinks := map[];
    }

    /** The open drain of that author, or a new one on top of the newest stored message. */
    method GetSink(f: Feed) returns (d: Drain)
      requires Valid()
      modifies this
      ensures Valid() && State() == old(Opened(State(), f))
      ensures f in sinks && d == sinks[f]
      ensures forall g :: g in old(sinks) ==> g in sinks && sinks[g] == old(sinks[g])
      ensures fresh(sinks.Values - old(sinks.Values))
    {
      if f in sinks {
        return sinks[f];
      }
      ghost var before := State();
      d := new Drain(f, Latest(rx.entries, f), rx);
      sinks := sinks[f := d];
      assert State().sinks == before.sinks[f := Latest(rx.entries, f)];
    }

    method CloseDrain(f: Feed)
      requires Valid()
      modifies this
      ensures Valid() && State() == old(CloseSink(State(), f))
    {
      ghost var before := State();
      sinks := sinks - {f};
      assert State().sinks == before.sinks - {f};
    }

    /** One frame from a peer: find the author, get the drain, verify and store. */
    method Deliver(raw: string, authorOf: string -> Option<Feed>, verify: string -> Option<Msg>)
      returns (err: DrainError)
      requires Valid()
      requires verify(raw).Some? ==> authorOf(raw) == Some(verify(raw).value.author)
      modifies this, rx, sinks.Values
      ensures Valid()
      ensures verify(raw).Some? ==> State() == old(Route(State(), verify(raw).value))
      ensures verify(raw).None? ==> err != NoError && State().log == old(State().log)
    {
      var author := authorOf(raw);
      if author.None? {
        return VerifyFailed;
      }
      var d := GetSink(author.value);
      err := Forward(d, author.value, raw, verify);
    }

    /** The drain of the author takes the frame. */
    method Forward(d: Drain, author: Feed, raw: string, verify: string -> Option<Msg>) returns (err: DrainError)
      requires Valid() && author in sinks && sinks[author] == d
      modifies rx, d
      ensures Valid()
      ensures verify(raw).Some? ==>
        State() == (if ValidateNext(old(State()).sinks[author], verify(raw).value).Accept?
                    then Node(old(State()).log + [verify(raw).value], old(State()).sinks[author := verify(raw).value])
                      else old(State()))
      ensures verify(raw).None? ==> err != NoError && State() == old(State())
    {
      ghost var ready := State();
      err := d.Verify(raw, verify);
      forall g | g in sinks && g != author ensures sinks[g] != d {}
      assert State().sinks == ready.sinks[author := d.latestMsg];
      assert ready.sinks[author := ready.sinks[author]] == ready.sinks;
    }
  }

  /** The publisher of the node's own feed. */
  class PublishLog {
    const self: Feed
    const rx: ReceiveLog
    const hash: Hasher

    constructor (self: Feed, rx: ReceiveLog, hash: Hasher)
      ensures this.self == self && this.rx == rx && this.hash == hash
    {
      this.self, this.rx, this.hash := self, rx, hash;
    }

    method Append(content: string) returns (rlSeq: int)
      modifies rx
      ensures rx.entries == old(rx.entries) + [NextOwn(old(rx.entries), self, hash, content)]
      ensures rlSeq == |old(rx.entries)| && rx.entries[rlSeq].author == self
    {
      var mine := ByAuthor(rx.entries, self);
      var nextSequence, nextPrevious: Option<string> := 1, None;
      if mine != [] {
        var m := mine[|mine| - 1];
        nextSequence := m.sequence + 1;
        nextPrevious := if nextSequence > 1 then Some(m.key) else None;
      }
      var next := Msg(self, nextSequence, hash(self, nextSequence, nextPrevious, content), nextPrevious, content);
      rlSeq := |rx.entries|;
      rx.Append(next);
    }
  }
}
