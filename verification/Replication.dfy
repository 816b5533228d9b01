/**
 Replication of one author's feed between peers: safety in a network under any
 interleaving, duplication, reordering and loss, and completeness of one
 connection once its stream has drained.
 */
module Replication {
  import opened Basics
  import opened Feeds
  import opened Frontiers
  import opened TrackingSink

  // ---------------------------------------------------------------- the step that reads a frontier

  /**
   What the loop does with a peer's frontier: feeds to stream, and feeds to unsubscribe.  A key that is no feed
   reference, which decoding never lets in, ends it with a run-time panic.
   */
  method FilterRelevantNotes(all: Frontier, format: Algo)
    returns (panics: bool, filtered: map<Feed, Note>, unsubscribed: set<Feed>)
    ensures panics <==> exists k :: k in all && !k.Ref?
    ensures !panics ==>
      && (forall f: Feed :: f in filtered <==>
        Ref(f) in all && f.algo == format && all[Ref(f)].replicate && all[Ref(f)].receive)
      && (forall f :: f in filtered ==> Ref(f) in all && filtered[f] == all[Ref(f)])
      && (forall f: Feed :: f in unsubscribed <==> Ref(f) in all && f.algo == format && f !in filtered)
  {
    panics, filtered, unsubscribed := false, map[], {};
    var todo := all.Keys;
    while todo != {}
      invariant !panics && todo <= all.Keys && forall k :: k in all && k !in todo ==> k.Ref?
      invariant forall f: Feed :: f in filtered <==>
        Ref(f) in all && Ref(f) !in todo && f.algo == format && all[Ref(f)].replicate && all[Ref(f)].receive
      invariant forall f :: f in filtered ==> Ref(f) in all && filtered[f] == all[Ref(f)]
      invariant forall f: Feed :: f in unsubscribed <==>
        Ref(f) in all && Ref(f) !in todo && f.algo == format && f !in filtered
      decreases todo
    {
      var k :| k in todo;
      todo := todo - {k};
      if !k.Ref? {
        panics := true;
        return;
      }
      if k.feed.algo == format {
        if !all[k].replicate || !all[k].receive {
          unsubscribed := unsubscribed + {k.feed};
        } else {
          filtered := filtered[k.feed := all[k]];
        }
      }
    }
  }

  // ---------------------------------------------------------------- safety in a network

  /** All messages the author ever signs: numbered, linked, no sequence used twice. */
  ghost predicate AuthorChain(a: Feed, chain: seq<Msg>) {
    Chain(chain) && forall i :: 0 <= i < |chain| ==> chain[i].author == a
  }

  function Copy(n: Node, a: Feed): seq<Msg> { ByAuthor(n.log, a) }

  /** A replica holds a prefix of the author's chain, and its drain for the author is not stale. */
  ghost predicate Replica(n: Node, a: Feed, chain: seq<Msg>) {
    && Copy(n, a) <= chain
    && (a in n.sinks ==> n.sinks[a] == Latest(n.log, a))
  }

  /** Messages that can turn up: the author's own, as signed, and anything by others. */
  predicate Possible(m: Msg, a: Feed, chain: seq<Msg>) { m.author == a ==> m in chain }

  lemma LatestOfReplica(n: Node, a: Feed, chain: seq<Msg>)
    requires AuthorChain(a, chain) && Replica(n, a, chain)
    ensures Latest(n.log, a).sequence == |Copy(n, a)| && Latest(n.log, a).author == a
    ensures Copy(n, a) != [] ==> Latest(n.log, a) == chain[|Copy(n, a)| - 1]
  {}

  /** What delivering one message does to the copy. */
  lemma RouteReplica(n: Node, m: Msg, a: Feed, chain: seq<Msg>)
    requires AuthorChain(a, chain) && Replica(n, a, chain) && Possible(m, a, chain)
    ensures Replica(Route(n, m), a, chain)
    ensures |Copy(Route(n, m), a)|
         == if m.author == a && m.sequence == |Copy(n, a)| + 1 then |Copy(n, a)| + 1 else |Copy(n, a)|
  {
    if m.author == a {
      var i :| 0 <= i < |chain| && chain[i] == m;
      RouteOwn(n, m, a, chain, i);
    } else {
      RouteOther(n, m, a, chain);
    }
  }

  lemma RouteOther(n: Node, m: Msg, a: Feed, chain: seq<Msg>)
    requires Replica(n, a, chain) && m.author != a
    ensures Replica(Route(n, m), a, chain) && Copy(Route(n, m), a) == Copy(n, a)
  {
    ByAuthorAppend(n.log, m, a);
    assert Copy(n, a) + [] == Copy(n, a);
  }

  lemma RouteOwn(n: Node, m: Msg, a: Feed, chain: seq<Msg>, i: int)
    requires AuthorChain(a, chain) && Replica(n, a, chain) && 0 <= i < |chain| && chain[i] == m
    ensures Replica(Route(n, m), a, chain)
    ensures |Copy(Route(n, m), a)| == if i == |Copy(n, a)| then |Copy(n, a)| + 1 else |Copy(n, a)|
    ensures m.sequence == i + 1
  {
    LatestOfReplica(n, a, chain);
    var c := Copy(n, a);
    assert m.author == a && m.sequence == i + 1;
    if i == |c| {
      Accepted(n, m, a, chain);
    } else {
      assert !ValidateNext(Opened(n, a).sinks[a], m).Accept?;
    }
  }

  lemma Accepted(n: Node, m: Msg, a: Feed, chain: seq<Msg>)
    requires AuthorChain(a, chain) && Replica(n, a, chain) && |Copy(n, a)| < |chain| && chain[|Copy(n, a)|] == m
    ensures Replica(Route(n, m), a, chain) && |Copy(Route(n, m), a)| == |Copy(n, a)| + 1
  {
    NextAccepted(n, m, a, chain);
    ByAuthorAppend(n.log, m, a);
    var c := Copy(n, a);
    assert c + [m] == chain[..|c| + 1];
  }

  lemma NextAccepted(n: Node, m: Msg, a: Feed, chain: seq<Msg>)
    requires AuthorChain(a, chain) && Replica(n, a, chain) && |Copy(n, a)| < |chain| && chain[|Copy(n, a)|] == m
    ensures m.author == a && ValidateNext(Opened(n, a).sinks[a], m).Accept?
  {
    LatestOfReplica(n, a, chain);
  }

  datatype NetEvent =
    | Delivered(i: nat, m: Msg)
    | SinkClosed(i: nat, f: Feed)
    | OwnPublished(i: nat) // the author's node appends the next message of the chain itself

  predicate NetEnabled(net: map<nat, Node>, a: Feed, chain: seq<Msg>, e: NetEvent) {
    match e
    case Delivered(i, m) => i in net && Possible(m, a, chain)
    case SinkClosed(i, f) => i in net
    case OwnPublished(i) => i in net && a !in net[i].sinks && |Copy(net[i], a)| < |chain|
  }

  function NetStep(net: map<nat, Node>, a: Feed, chain: seq<Msg>, e: NetEvent): map<nat, Node>
    requires NetEnabled(net, a, chain, e)
  {
    match e
    case Delivered(i, m) => net[i := Route(net[i], m)]
    case SinkClosed(i, f) => net[i := CloseSink(net[i], f)]
    case OwnPublished(i) => net[i := net[i].(log := net[i].log + [chain[|Copy(net[i], a)|]])]
  }

  predicate NetRun(net: map<nat, Node>, a: Feed, chain: seq<Msg>, es: seq<NetEvent>)
    decreases |es|
  {
    es == [] || (NetEnabled(net, a, chain, es[0]) && NetRun(NetStep(net, a, chain, es[0]), a, chain, es[1..]))
  }

  function AfterNetRun(net: map<nat, Node>, a: Feed, chain: seq<Msg>, es: seq<NetEvent>): map<nat, Node>
    requires NetRun(net, a, chain, es)
    decreases |es|
  {
    if es == [] then net else AfterNetRun(NetStep(net, a, chain, es[0]), a, chain, es[1..])
  }

  lemma NetStepKeepsPrefixes(net: map<nat, Node>, a: Feed, chain: seq<Msg>, e: NetEvent)
    requires AuthorChain(a, chain) && NetEnabled(net, a, chain, e)
    requires forall i :: i in net ==> Replica(net[i], a, chain)
    ensures forall i :: i in net ==> Replica(NetStep(net, a, chain, e)[i], a, chain)
    ensures NetStep(net, a, chain, e).Keys == net.Keys
  {
    match e
    case Delivered(i, m) => RouteReplica(net[i], m, a, chain);
    case SinkClosed(i, f) =>
    case OwnPublished(i) =>
      var c := Copy(net[i], a);
      ByAuthorAppend(net[i].log, chain[|c|], a);
      assert c + [chain[|c|]] == chain[..|c| + 1];
  }

  /**
   If the author never reuses a sequence, every replica's copy stays a prefix of the author's chain, whatever is
   delivered to whom, how often, in which order, and whatever is lost.
   */
  lemma {:induction false} CopiesStayPrefixes(net: map<nat, Node>, a: Feed, chain: seq<Msg>, es: seq<NetEvent>)
    requires AuthorChain(a, chain) && NetRun(net, a, chain, es)
    requires forall i :: i in net ==> Replica(net[i], a, chain)
    ensures forall i :: i in net ==>
      i in AfterNetRun(net, a, chain, es) && Copy(AfterNetRun(net, a, chain, es)[i], a) <= chain
    decreases |es|
  {
    if es != [] {
      NetStepKeepsPrefixes(net, a, chain, es[0]);
      CopiesStayPrefixes(NetStep(net, a, chain, es[0]), a, chain, es[1..]);
    }
  }

  // ---------------------------------------------------------------- draining a stream

  /** The receiver works off a pipe. */
  function DrainPipe(n: Node, pipe: seq<Msg>): Node
    decreases |pipe|
  {
    if pipe == [] then n else DrainPipe(Route(n, pipe[0]), pipe[1..])
  }

  ghost predicate AllPossible(pipe: seq<Msg>, a: Feed, chain: seq<Msg>) {
    forall i :: 0 <= i < |pipe| ==> Possible(pipe[i], a, chain)
  }

  lemma {:induction false} DrainReplica(n: Node, pipe: seq<Msg>, a: Feed, chain: seq<Msg>)
    requires AuthorChain(a, chain) && Replica(n, a, chain) && AllPossible(pipe, a, chain)
    ensures Replica(DrainPipe(n, pipe), a, chain) && |Copy(DrainPipe(n, pipe), a)| >= |Copy(n, a)|
    decreases |pipe|
  {
    if pipe != [] {
      RouteReplica(n, pipe[0], a, chain);
      DrainReplica(Route(n, pipe[0]), pipe[1..], a, chain);
    }
  }

  /** A replica that is ahead stays ahead through the same pipe. */
  lemma {:induction false} DrainMonotone(n: Node, n': Node, pipe: seq<Msg>, a: Feed, chain: seq<Msg>)
    requires AuthorChain(a, chain) && AllPossible(pipe, a, chain)
    requires Replica(n, a, chain) && Replica(n', a, chain) && |Copy(n, a)| <= |Copy(n', a)|
    ensures |Copy(DrainPipe(n, pipe), a)| <= |Copy(DrainPipe(n', pipe), a)|
    decreases |pipe|
  {
    if pipe != [] {
      RouteReplica(n, pipe[0], a, chain);
      RouteReplica(n', pipe[0], a, chain);
      DrainMonotone(Route(n, pipe[0]), Route(n', pipe[0]), pipe[1..], a, chain);
    }
  }

  lemma {:induction false} DrainConcat(n: Node, p: seq<Msg>, q: seq<Msg>)
    ensures DrainPipe(n, p + q) == DrainPipe(DrainPipe(n, p), q)
    decreases |p|
  {
    if p == [] {
      assert p + q == q;
    } else {
      assert (p + q)[1..] == p[1..] + q;
      DrainConcat(Route(n, p[0]), p[1..], q);
    }
  }

  /** Consecutive messages from at most one past the copy bring the copy up to their end. */
  lemma {:induction false} DrainStretch(n: Node, from: int, to: int, a: Feed, chain: seq<Msg>)
    requires AuthorChain(a, chain) && Replica(n, a, chain) && 0 <= from <= to <= |chain| && from <= |Copy(n, a)|
    ensures |Copy(DrainPipe(n, chain[from..to]), a)| >= to
    decreases |chain| - from
  {
    var pipe := chain[from..to];
    if from < to {
      assert pipe[0] == chain[from] && pipe[1..] == chain[from + 1..to];
      RouteReplica(n, pipe[0], a, chain);
      DrainStretch(Route(n, pipe[0]), from + 1, to, a, chain);
    }
  }

  // ---------------------------------------------------------------- one connection

  /**
   A sender, a receiver, the live sinks the sender keeps for the receiver, and the messages under way.
   `wanted`: a note asking for the feed has reached the sender.
   */
  datatype Link = Link(sender: Node, receiver: Node, live: Live, pipe: seq<Msg>, wanted: bool)

  datatype LinkEvent =
    | FrontierIn(note: Note, id: nat)        // the receiver's note reaches the sender: stream the stored part, go live
    | Again(id: nat)                         // another frontier came in: stream again from the tracked note
    | Stop(s: int)                           // a note that does not want the feed
    | SenderGot(m: Msg, order: seq<nat>)     // the sender stores a message; the multi-sink passes it on
    | SenderPublished(order: seq<nat>)       // the sender is the author and appends the next message
    | SenderClosed(f: Feed)                  // the sender closes a drain
    | ReceiverReads                          // the receiver takes a message off the pipe
    | ReceiverElsewhere(m: Msg)              // the receiver gets a message from another peer
    | ReceiverClosed(f: Feed)                // the receiver closes a drain

  ghost predicate LinkEnabled(l: Link, a: Feed, chain: seq<Msg>, e: LinkEvent) {
    match e
    case FrontierIn(note, id) =>
      id !in l.live.sinks && note.replicate && note.receive && 0 <= note.sequence <= |Copy(l.receiver, a)|
    case Again(id) => id !in l.live.sinks && l.live.note.replicate && l.live.note.receive
    case Stop(s) => true
    case SenderGot(m, order) => Possible(m, a, chain) && Order(l.live, order)
    case SenderPublished(order) => a !in l.sender.sinks && |Copy(l.sender, a)| < |chain| && Order(l.live, order)
    case SenderClosed(f) => true
    case ReceiverReads => l.pipe != []
    case ReceiverElsewhere(m) => Possible(m, a, chain)
    case ReceiverClosed(f) => true
  }

  /** The stored messages written by one sink, one after the other: those the peer wants. */
  function StreamStored(l: Live, id: nat, stored: seq<Msg>): (Live, seq<Msg>)
    requires id in l.sinks
    decreases |stored|
  {
    if stored == [] then (l, [])
    else
      var r := StreamStored(Visit(l, id), id, stored[1..]);
      (r.0, (if Writes(l, id) then [stored[0]] else []) + r.1)
  }

  function StoredFrom(c: seq<Msg>, from: int): seq<Msg> { if 0 <= from <= |c| then c[from..] else [] }

  function Copies(m: Msg, n: nat): seq<Msg> { seq(n, _ => m) }

  /** A new sink at the peer's note streams the stored messages from there, and stays registered. */
  function Streamed(l: Link, a: Feed, id: nat): Link {
    var at := l.live.note.sequence;
    var r := StreamStored(l.live.(sinks := l.live.sinks[id := at]), id, StoredFrom(Copy(l.sender, a), at));
    l.(live := r.0, pipe := l.pipe + r.1)
  }

  ghost function LinkStep(l: Link, a: Feed, chain: seq<Msg>, e: LinkEvent): Link
    requires LinkEnabled(l, a, chain, e)
  {
    match e
    case FrontierIn(note, id) => Streamed(l.(live := l.live.(note := note), wanted := true), a, id)
    case Again(id) => Streamed(l, a, id)
    case Stop(s) => l.(live := l.live.(note := Note(s, false, false)), wanted := false)
    case SenderGot(m, order) =>
      var sender := Route(l.sender, m);
      if m.author == a && |Copy(sender, a)| > |Copy(l.sender, a)| then PassedOn(l, sender, m, order)
        else l.(sender := sender)
    case SenderPublished(order) =>
      var m := chain[|Copy(l.sender, a)|];
      PassedOn(l, l.sender.(log := l.sender.log + [m]), m, order)
    case SenderClosed(f) => l.(sender := CloseSink(l.sender, f))
    case ReceiverReads => l.(receiver := Route(l.receiver, l.pipe[0]), pipe := l.pipe[1..])
    case ReceiverElsewhere(m) => l.(receiver := Route(l.receiver, m))
    case ReceiverClosed(f) => l.(receiver := CloseSink(l.receiver, f))
  }

  /** The sender has stored a message of the feed, and the multi-sink writes it to the connection. */
  ghost function PassedOn(l: Link, sender: Node, m: Msg, order: seq<nat>): Link
    requires Order(l.live, order)
  {
    SentNeverShrinks(l.live, order);
    var live := VisitAll(l.live, order);
    l.(sender := sender, live := live, pipe := l.pipe + Copies(m, live.sent - l.live.sent))
  }

  lemma SentNeverShrinks(l: Live, order: seq<nat>)
    requires Order(l, order)
    ensures Visitable(l, order) && VisitAll(l, order).sent >= l.sent
  {
    SentGrows(l, order);
  }

  /** Some sink has caught up with the note, so the next live message will be written. */
  predicate CaughtUp(l: Live) {
    l.note.receive && exists id :: id in l.sinks && l.note.sequence <= l.sinks[id]
  }

  /**
   What holds in every state: copies are prefixes, the pipe is genuine, and draining it brings the receiver up to
   the sender.
   */
  ghost predicate LinkInvariant(l: Link, a: Feed, chain: seq<Msg>) {
    && Replica(l.sender, a, chain) && Replica(l.receiver, a, chain) && AllPossible(l.pipe, a, chain)
    && (l.wanted ==> CaughtUp(l.live))
    && (l.wanted ==> |Copy(DrainPipe(l.receiver, l.pipe), a)| >= |Copy(l.sender, a)|)
  }

  /** A sink that starts at the note writes the whole stored part. */
  lemma {:induction false} StreamWritesAll(l: Live, id: nat, stored: seq<Msg>)
    requires id in l.sinks && l.note.receive && l.note.sequence == l.sinks[id]
    ensures StreamStored(l, id, stored).1 == stored
    ensures id in StreamStored(l, id, stored).0.sinks && StreamStored(l, id, stored).0.note.receive
    ensures StreamStored(l, id, stored).0.sinks[id] == StreamStored(l, id, stored).0.note.sequence
    decreases |stored|
  {
    if stored != [] {
      StreamWritesAll(Visit(l, id), id, stored[1..]);
      assert stored == [stored[0]] + stored[1..];
    }
  }

  /** A caught-up set of sinks writes a live message at least once, in every order, and stays caught up. */
  lemma {:induction false} LiveWrites(l: Live, order: seq<nat>)
    requires Visitable(l, order) && CaughtUp(l)
    requires exists i :: 0 <= i < |order| && l.note.sequence <= l.sinks[order[i]]
    ensures VisitAll(l, order).sent > l.sent && CaughtUp(VisitAll(l, order))
    decreases |order|
  {
    var l1 := Visit(l, order[0]);
    if Writes(l, order[0]) {
      assert l1.sinks[order[0]] == l1.note.sequence;
      StaysCaughtUp(l1, order[1..]);
      SentGrows(l1, order[1..]);
    } else {
      var i :| 0 <= i < |order| && l.note.sequence <= l.sinks[order[i]];
      assert order[1..][i - 1] == order[i];
      LiveWrites(l, order[1..]);
    }
  }

  lemma {:induction false} StaysCaughtUp(l: Live, order: seq<nat>)
    requires Visitable(l, order) && CaughtUp(l)
    ensures CaughtUp(VisitAll(l, order))
    decreases |order|
  {
    if order != [] {
      var l1 := Visit(l, order[0]);
      if Writes(l, order[0]) { assert l1.sinks[order[0]] == l1.note.sequence; }
      StaysCaughtUp(l1, order[1..]);
    }
  }

  lemma FrontierInKeeps(l: Link, a: Feed, chain: seq<Msg>, note: Note, id: nat)
    requires AuthorChain(a, chain) && LinkInvariant(l, a, chain) && LinkEnabled(l, a, chain, FrontierIn(note, id))
    ensures LinkInvariant(LinkStep(l, a, chain, FrontierIn(note, id)), a, chain)
  {
    var stored := StoredFrom(Copy(l.sender, a), note.sequence);
    var start := l.live.(note := note, sinks := l.live.sinks[id := note.sequence]);
    StreamWritesAll(start, id, stored);
    StreamDrains(l.receiver, l.pipe, Copy(l.sender, a), note.sequence, a, chain);
  }

  /**
   The tracked note may be ahead of the receiver's copy: what is streamed again then only repeats what is under way.
   */
  lemma AgainKeeps(l: Link, a: Feed, chain: seq<Msg>, id: nat)
    requires AuthorChain(a, chain) && LinkInvariant(l, a, chain) && LinkEnabled(l, a, chain, Again(id))
    ensures LinkInvariant(LinkStep(l, a, chain, Again(id)), a, chain)
  {
    var at := l.live.note.sequence;
    var stored := StoredFrom(Copy(l.sender, a), at);
    StreamWritesAll(l.live.(sinks := l.live.sinks[id := at]), id, stored);
    StoredPossible(Copy(l.sender, a), at, a, chain);
    DrainReplica(l.receiver, l.pipe, a, chain);
    DrainReplica(DrainPipe(l.receiver, l.pipe), stored, a, chain);
    DrainConcat(l.receiver, l.pipe, stored);
  }

  /** The pipe followed by the stored messages from the note on brings the receiver up to the sender's copy. */
  lemma StreamDrains(n: Node, pipe: seq<Msg>, c: seq<Msg>, from: int, a: Feed, chain: seq<Msg>)
    requires AuthorChain(a, chain) && Replica(n, a, chain) && AllPossible(pipe, a, chain)
    requires c <= chain && 0 <= from <= |Copy(n, a)|
    ensures AllPossible(pipe + StoredFrom(c, from), a, chain)
    ensures |Copy(DrainPipe(n, pipe + StoredFrom(c, from)), a)| >= |c|
  {
    var stored := StoredFrom(c, from);
    var drained := DrainPipe(n, pipe);
    DrainReplica(n, pipe, a, chain);
    DrainConcat(n, pipe, stored);
    StoredPossible(c, from, a, chain);
    if from <= |c| {
      assert stored == chain[from..|c|];
      DrainStretch(drained, from, |c|, a, chain);
    }
  }

  lemma StoredPossible(c: seq<Msg>, from: int, a: Feed, chain: seq<Msg>)
    requires c <= chain
    ensures AllPossible(StoredFrom(c, from), a, chain)
  {}

  lemma SenderGotKeeps(l: Link, a: Feed, chain: seq<Msg>, m: Msg, order: seq<nat>)
    requires AuthorChain(a, chain) && LinkInvariant(l, a, chain) && LinkEnabled(l, a, chain, SenderGot(m, order))
    ensures LinkInvariant(LinkStep(l, a, chain, SenderGot(m, order)), a, chain)
  {
    RouteReplica(l.sender, m, a, chain);
    if m.author == a && |Copy(Route(l.sender, m), a)| > |Copy(l.sender, a)| {
      PassedOnKeeps(l, a, chain, Route(l.sender, m), m, order);
    }
  }

  lemma SenderPublishedKeeps(l: Link, a: Feed, chain: seq<Msg>, order: seq<nat>)
    requires AuthorChain(a, chain) && LinkInvariant(l, a, chain) && LinkEnabled(l, a, chain, SenderPublished(order))
    ensures LinkInvariant(LinkStep(l, a, chain, SenderPublished(order)), a, chain)
  {
    var c := Copy(l.sender, a);
    var m := chain[|c|];
    ByAuthorAppend(l.sender.log, m, a);
    assert c + [m] == chain[..|c| + 1];
    PassedOnKeeps(l, a, chain, l.sender.(log := l.sender.log + [m]), m, order);
  }

  lemma PassedOnKeeps(l: Link, a: Feed, chain: seq<Msg>, sender: Node, m: Msg, order: seq<nat>)
    requires AuthorChain(a, chain) && LinkInvariant(l, a, chain) && Order(l.live, order)
    requires m.author == a && m in chain && Replica(sender, a, chain)
    requires |Copy(sender, a)| == |Copy(l.sender, a)| + 1 == m.sequence
    ensures LinkInvariant(PassedOn(l, sender, m, order), a, chain)
  {
    SentNeverShrinks(l.live, order);
    var k: nat := VisitAll(l.live, order).sent - l.live.sent;
    MorePossible(l.pipe, m, k, a, chain);
    if l.wanted {
      LiveStays(l.live, order);
      CopiesReach(l.receiver, l.pipe, m, k, a, chain);
    }
  }

  lemma MorePossible(pipe: seq<Msg>, m: Msg, k: nat, a: Feed, chain: seq<Msg>)
    requires AllPossible(pipe, a, chain) && Possible(m, a, chain)
    ensures AllPossible(pipe + Copies(m, k), a, chain)
  {}

  lemma LiveStays(l: Live, order: seq<nat>)
    requires Order(l, order) && CaughtUp(l)
    ensures Visitable(l, order) && VisitAll(l, order).sent > l.sent && CaughtUp(VisitAll(l, order))
  {
    var id :| id in l.sinks && l.note.sequence <= l.sinks[id];
    assert id in order;
    LiveWrites(l, order);
  }

  /** A live message behind the pipe arrives, if the pipe brings the receiver up to its predecessor. */
  lemma CopiesReach(n: Node, pipe: seq<Msg>, m: Msg, k: nat, a: Feed, chain: seq<Msg>)
    requires AuthorChain(a, chain) && Replica(n, a, chain) && AllPossible(pipe, a, chain)
    requires m.author == a && m in chain && k > 0 && m.sequence <= |Copy(DrainPipe(n, pipe), a)| + 1
    ensures |Copy(DrainPipe(n, pipe + Copies(m, k)), a)| >= m.sequence
  {
    DrainReplica(n, pipe, a, chain);
    DrainConcat(n, pipe, Copies(m, k));
    CopiesDrain(DrainPipe(n, pipe), m, k, a, chain);
  }

  lemma CopiesDrain(n: Node, m: Msg, k: nat, a: Feed, chain: seq<Msg>)
    requires AuthorChain(a, chain) && Replica(n, a, chain) && m.author == a && m in chain && k > 0
    requires m.sequence <= |Copy(n, a)| + 1
    ensures |Copy(DrainPipe(n, Copies(m, k)), a)| >= m.sequence
  {
    var pipe := Copies(m, k);
    assert pipe[0] == m;
    RouteReplica(n, m, a, chain);
    assert AllPossible(pipe[1..], a, chain);
    DrainReplica(Route(n, m), pipe[1..], a, chain);
  }

  lemma LinkStepKeeps(l: Link, a: Feed, chain: seq<Msg>, e: LinkEvent)
    requires AuthorChain(a, chain) && LinkInvariant(l, a, chain) && LinkEnabled(l, a, chain, e)
    ensures LinkInvariant(LinkStep(l, a, chain, e), a, chain)
  {
    match e
    case FrontierIn(note, id) => FrontierInKeeps(l, a, chain, note, id);
    case Again(id) => AgainKeeps(l, a, chain, id);
    case Stop(s) =>
    case SenderGot(m, order) => SenderGotKeeps(l, a, chain, m, order);
    case SenderPublished(order) => SenderPublishedKeeps(l, a, chain, order);
    case SenderClosed(f) =>
    case ReceiverReads => RouteReplica(l.receiver, l.pipe[0], a, chain);
    case ReceiverElsewhere(m) =>
      RouteReplica(l.receiver, m, a, chain);
      DrainMonotone(l.receiver, Route(l.receiver, m), l.pipe, a, chain);
    case ReceiverClosed(f) => DrainMonotone(l.receiver, CloseSink(l.receiver, f), l.pipe, a, chain);
  }

  ghost predicate LinkRun(l: Link, a: Feed, chain: seq<Msg>, es: seq<LinkEvent>)
    decreases |es|
  {
    es == [] || (LinkEnabled(l, a, chain, es[0]) && LinkRun(LinkStep(l, a, chain, es[0]), a, chain, es[1..]))
  }

  ghost function AfterLinkRun(l: Link, a: Feed, chain: seq<Msg>, es: seq<LinkEvent>): Link
    requires LinkRun(l, a, chain, es)
    decreases |es|
  {
    if es == [] then l else AfterLinkRun(LinkStep(l, a, chain, es[0]), a, chain, es[1..])
  }

  lemma {:induction false} LinkRunKeeps(l: Link, a: Feed, chain: seq<Msg>, es: seq<LinkEvent>)
    requires AuthorChain(a, chain) && LinkInvariant(l, a, chain) && LinkRun(l, a, chain, es)
    ensures LinkInvariant(AfterLinkRun(l, a, chain, es), a, chain)
    decreases |es|
  {
    if es != [] {
      LinkStepKeeps(l, a, chain, es[0]);
      LinkRunKeeps(LinkStep(l, a, chain, es[0]), a, chain, es[1..]);
    }
  }

  /**
   Completeness: in every run of a connection, once a note asking for the feed has reached the sender and the pipe
   has drained, the receiver holds at least as many of the author's messages as the sender.
   */
  lemma DrainedReceiverHasAll(sender: Node, receiver: Node, note: Note, a: Feed, chain: seq<Msg>, es: seq<LinkEvent>)
    requires AuthorChain(a, chain) && Replica(sender, a, chain) && Replica(receiver, a, chain)
    requires LinkRun(Link(sender, receiver, Live(note, map[], 0), [], false), a, chain, es)
    ensures var l := AfterLinkRun(Link(sender, receiver, Live(note, map[], 0), [], false), a, chain, es);
      && Copy(l.sender, a) <= chain && Copy(l.receiver, a) <= chain
      && (l.wanted && l.pipe == [] ==> |Copy(l.receiver, a)| >= |Copy(l.sender, a)|)
  {
    LinkRunKeeps(Link(sender, receiver, Live(note, map[], 0), [], false), a, chain, es);
  }
}
