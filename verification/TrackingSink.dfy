/**
 Live sending: several tracking sinks of one peer and one feed hang on the same
 multi-sink; each consults and advances the peer's note in the state matrix.
 */
module TrackingSink {
  import opened Basics
  import opened Feeds
  import opened Frontiers

  // ---------------------------------------------------------------- one send as a function

  /** The peer's note for the feed, the counters of the registered sinks, and the network writes made. */
  datatype Live = Live(note: Note, sinks: map<nat, int>, sent: nat)

  /** A sink writes if the peer wants the message after its counter; then counter and note move on together. */
  predicate Writes(l: Live, id: nat)
    requires id in l.sinks
  {
    l.note.receive && l.note.sequence < l.sinks[id] + 1
  }

  function Visit(l: Live, id: nat): Live
    requires id in l.sinks
  {
    if Writes(l, id)
    then Live(l.note.(sequence := l.sinks[id] + 1), l.sinks[id := l.sinks[id] + 1], l.sent + 1)
    else l
  }

  predicate Visitable(l: Live, order: seq<nat>) { forall i :: 0 <= i < |order| ==> order[i] in l.sinks }

  function VisitAll(l: Live, order: seq<nat>): (r: Live)
    requires Visitable(l, order)
    ensures r.sinks.Keys == l.sinks.Keys
    decreases |order|
  {
    if order == [] then l else VisitAll(Visit(l, order[0]), order[1..])
  }

  /** Every sink once, in any order: how one message passes through the multi-sink. */
  ghost predicate Order(l: Live, order: seq<nat>) {
    && (forall id :: id in l.sinks <==> id in order)
    && (forall i, j :: 0 <= i < j < |order| ==> order[i] != order[j])
  }

  // ---------------------------------------------------------------- exactly once

  /** No counter is ahead of the note and at least one has caught up. */
  predicate InStep(l: Live) {
    && l.note.receive
    && (forall id :: id in l.sinks ==> l.sinks[id] <= l.note.sequence)
    && (exists id :: id in l.sinks && l.sinks[id] == l.note.sequence)
  }

  /** Sinks behind the note stay silent, and nothing changes. */
  lemma {:induction false} SilentVisits(l: Live, order: seq<nat>)
    requires Visitable(l, order) && forall i :: 0 <= i < |order| ==> l.sinks[order[i]] < l.note.sequence
    ensures VisitAll(l, order) == l
    decreases |order|
  {
    if order != [] { SilentVisits(l, order[1..]); }
  }

  /** Sink `w`, at `top`, made the only write. */
  predicate WrittenBy(l: Live, w: nat, top: int, r: Live) {
    && w in l.sinks && l.sinks[w] == top
    && r == Live(l.note.(sequence := top + 1), l.sinks[w := top + 1], l.sent + 1)
  }

  /** The general shape of one pass: counters below the note, plus equal ones at `top`, at least one of them visited. */
  lemma {:induction false} OneWriter(l: Live, order: seq<nat>, top: int)
    requires Visitable(l, order) && l.note.receive && l.note.sequence <= top
    requires forall i, j :: 0 <= i < j < |order| ==> order[i] != order[j]
    requires forall i :: 0 <= i < |order| ==> l.sinks[order[i]] < l.note.sequence || l.sinks[order[i]] == top
    requires exists i :: 0 <= i < |order| && l.sinks[order[i]] == top
    ensures exists w :: w in order && WrittenBy(l, w, top, VisitAll(l, order))
    decreases |order|
  {
    var id, rest := order[0], order[1..];
    var l1 := Visit(l, id);
    forall i | 0 <= i < |rest| ensures rest[i] == order[i + 1] {}
    if l.sinks[id] == top {
      SilentVisits(l1, rest);
      assert order[0] in order && WrittenBy(l, order[0], top, VisitAll(l, order));
    } else {
      assert l1 == l;
      var i :| 0 <= i < |order| && l.sinks[order[i]] == top;
      assert rest[i - 1] == order[i];
      OneWriter(l, rest, top);
      var w :| w in rest && WrittenBy(l, w, top, VisitAll(l, rest));
      assert w in order;
    }
  }

  /** Whatever the visiting order, a message reaches the network exactly once and the sinks stay in step. */
  lemma SendExactlyOnce(l: Live, order: seq<nat>)
    requires InStep(l) && Order(l, order)
    ensures VisitAll(l, order).sent == l.sent + 1
    ensures VisitAll(l, order).note == l.note.(sequence := l.note.sequence + 1)
    ensures InStep(VisitAll(l, order))
  {
    var id :| id in l.sinks && l.sinks[id] == l.note.sequence;
    assert id in order;
    OneWriter(l, order, l.note.sequence);
    var r := VisitAll(l, order);
    var w :| w in order && WrittenBy(l, w, l.note.sequence, r);
    assert r.sinks[w] == r.note.sequence;
  }

  // ---------------------------------------------------------------- exactly when

  /** The counters that are not behind the note are all equal, and there is one. */
  predicate OneLevel(l: Live) {
    && l.note.receive
    && (exists id :: id in l.sinks && l.note.sequence <= l.sinks[id])
    && (forall id, jd ::
          id in l.sinks && jd in l.sinks && l.note.sequence <= l.sinks[id] && l.note.sequence <= l.sinks[jd] ==>
            l.sinks[id] == l.sinks[jd])
  }

  /** Writes are never taken back. */
  lemma {:induction false} SentGrows(l: Live, order: seq<nat>)
    requires Visitable(l, order)
    ensures VisitAll(l, order).sent >= l.sent
    decreases |order|
  {
    if order != [] { SentGrows(Visit(l, order[0]), order[1..]); }
  }

  /** Some order that starts with the given sinks. */
  lemma OrderStartingWith(l: Live, first: seq<nat>) returns (order: seq<nat>)
    requires Visitable(l, first) && forall i, j :: 0 <= i < j < |first| ==> first[i] != first[j]
    ensures Order(l, order) && first <= order
  {
    order := first;
    var todo := l.sinks.Keys - (set i | 0 <= i < |first| :: first[i]);
    while todo != {}
      invariant first <= order && todo <= l.sinks.Keys
      invariant forall id :: id in l.sinks <==> id in order || id in todo
      invariant forall i :: 0 <= i < |order| ==> order[i] !in todo
      invariant forall i, j :: 0 <= i < j < |order| ==> order[i] != order[j]
      decreases todo
    {
      var id :| id in todo;
      order, todo := order + [id], todo - {id};
    }
  }

  lemma VisitPrefix(l: Live, a: seq<nat>, b: seq<nat>)
    requires Visitable(l, a + b)
    ensures Visitable(l, a) && Visitable(VisitAll(l, a), b) && VisitAll(l, a + b) == VisitAll(VisitAll(l, a), b)
    decreases |a|
  {
    assert forall i :: 0 <= i < |a| ==> (a + b)[i] == a[i];
    assert forall i :: 0 <= i < |b| ==> (a + b)[|a| + i] == b[i];
    if a == [] {
      assert a + b == b;
    } else {
      assert (a + b)[1..] == a[1..] + b;
      VisitPrefix(Visit(l, a[0]), a[1..], b);
    }
  }

  /**
   The condition is exact: every visiting order makes exactly one network write if and only if the peer wants the
   feed and the counters not behind the note sit on one level.
   */
  lemma ExactlyOnceIff(l: Live)
    ensures OneLevel(l) <==> forall order :: Order(l, order) ==> VisitAll(l, order).sent == l.sent + 1
  {
    if OneLevel(l) {
      var id :| id in l.sinks && l.note.sequence <= l.sinks[id];
      var top := l.sinks[id];
      forall order | Order(l, order) ensures VisitAll(l, order).sent == l.sent + 1 {
        assert id in order;
        OneWriter(l, order, top);
      }
    } else {
      var order := SpoiledOrder(l);
    }
  }

  /** Otherwise some order writes not at all or at least twice. */
  lemma SpoiledOrder(l: Live) returns (order: seq<nat>)
    requires !OneLevel(l)
    ensures Order(l, order) && VisitAll(l, order).sent != l.sent + 1
  {
    if !l.note.receive {
      order := OrderStartingWith(l, []);
      NothingSent(l, order);
    } else if forall id :: id in l.sinks ==> l.sinks[id] < l.note.sequence {
      order := OrderStartingWith(l, []);
      SilentVisits(l, order);
    } else {
      var a, b :| a in l.sinks && b in l.sinks && l.note.sequence <= l.sinks[a] < l.sinks[b];
      order := TwoWrites(l, a, b);
    }
  }

  /** The lower of two levels first, then the higher: both write. */
  lemma TwoWrites(l: Live, a: nat, b: nat) returns (order: seq<nat>)
    requires l.note.receive && a in l.sinks && b in l.sinks && l.note.sequence <= l.sinks[a] < l.sinks[b]
    ensures Order(l, order) && VisitAll(l, order).sent >= l.sent + 2
  {
    order := OrderStartingWith(l, [a, b]);
    FirstTwo(l, a, b);
    PrefixSent(l, [a, b], order);
  }

  lemma FirstTwo(l: Live, a: nat, b: nat)
    requires l.note.receive && a in l.sinks && b in l.sinks && l.note.sequence <= l.sinks[a] < l.sinks[b]
    ensures VisitAll(l, [a, b]).sent == l.sent + 2
  {
    VisitOne(l, a);
    VisitNext(l, [a], b);
    assert [a] + [b] == [a, b];
  }

  lemma PrefixSent(l: Live, a: seq<nat>, order: seq<nat>)
    requires Visitable(l, a) && Visitable(l, order) && a <= order
    ensures VisitAll(l, order).sent >= VisitAll(l, a).sent
  {
    var b := order[|a|..];
    assert order == a + b;
    VisitPrefix(l, a, b);
    SentGrows(VisitAll(l, a), b);
  }

  lemma VisitOne(l: Live, a: nat)
    requires a in l.sinks
    ensures VisitAll(l, [a]) == Visit(l, a)
  {
    assert [a][1..] == [];
    assert VisitAll(l, [a]) == VisitAll(Visit(l, a), []);
  }

  lemma {:induction false} NothingSent(l: Live, order: seq<nat>)
    requires Visitable(l, order) && !l.note.receive
    ensures VisitAll(l, order) == l
    decreases |order|
  {
    if order != [] { NothingSent(l, order[1..]); }
  }

  // ---------------------------------------------------------------- whole runs

  /** A message with some visiting order, or a new sink that starts at the current note. */
  datatype LiveEvent = Message(order: seq<nat>) | Registered(id: nat)

  ghost predicate Enabled(l: Live, e: LiveEvent) {
    match e
    case Message(order) => Order(l, order)
    case Registered(id) => id !in l.sinks
  }

  ghost function LiveStep(l: Live, e: LiveEvent): Live
    requires Enabled(l, e)
  {
    match e
    case Message(order) => VisitAll(l, order)
    case Registered(id) => l.(sinks := l.sinks[id := l.note.sequence])
  }

  ghost predicate LiveRun(l: Live, es: seq<LiveEvent>)
    decreases |es|
  {
    es == [] || (Enabled(l, es[0]) && LiveRun(LiveStep(l, es[0]), es[1..]))
  }

  ghost function AfterRun(l: Live, es: seq<LiveEvent>): Live
    requires LiveRun(l, es)
    decreases |es|
  {
    if es == [] then l else AfterRun(LiveStep(l, es[0]), es[1..])
  }

  function Messages(es: seq<LiveEvent>): nat {
    if es == [] then 0 else (if es[0].Message? then 1 else 0) + Messages(es[1..])
  }

  /** Over every run of sends and registrations, in every order, the network sees each message exactly once. */
  lemma {:induction false} RunExactlyOnce(l: Live, es: seq<LiveEvent>)
    requires InStep(l) && LiveRun(l, es)
    ensures InStep(AfterRun(l, es))
    ensures AfterRun(l, es).sent == l.sent + Messages(es)
    ensures AfterRun(l, es).note.sequence == l.note.sequence + Messages(es)
    decreases |es|
  {
    if es != [] {
      match es[0] {
        case Message(order) => SendExactlyOnce(l, order);
        case Registered(id) =>
          var r := LiveStep(l, es[0]);
          assert r.sinks[id] == r.note.sequence;
      }
      RunExactlyOnce(LiveStep(l, es[0]), es[1..]);
    }
  }

  lemma VisitNext(l: Live, order: seq<nat>, id: nat)
    requires Visitable(l, order) && id in l.sinks
    ensures Visitable(l, order + [id]) && VisitAll(l, order + [id]) == Visit(VisitAll(l, order), id)
  {
    VisitPrefix(l, order, [id]);
    VisitOne(VisitAll(l, order), id);
  }

  // ---------------------------------------------------------------- the program's objects

  /** The connection to the peer. */
  class Wire {
    var up: bool
    var sent: seq<string>

    constructor ()
      ensures up && sent == []
    {
      up, sent := true, [];
    }

    method Write(p: string) returns (ok: bool)
      modifies this`sent
      ensures ok == up
      ensures sent == if up then old(sent) + [p] else old(sent)
    {
      ok := up;
      if up {
        sent := sent + [p];
      }
    }
  }

  class Sink {
    const matrix: StateMatrix
    const wire: Wire
    const peer: Feed
    const author: Feed
    var sequence: int

    constructor (matrix: StateMatrix, wire: Wire, peer: Feed, author: Feed, s: int)
      ensures this.matrix == matrix && this.wire == wire && this.peer == peer && this.author == author && sequence == s
    {
      this.matrix, this.wire, this.peer, this.author, sequence := matrix, wire, peer, author, s;
    }

    /** The peer's frontier is open and holds a note for the feed. */
    ghost predicate Tracked()
      reads matrix
    {
      && author.algo in matrix.open
      && peer in matrix.open[author.algo]
      && Ref(author) in matrix.open[author.algo][peer]
    }

    ghost function Noted(): Note
      requires Tracked()
      reads matrix
    {
      matrix.open[author.algo][peer][Ref(author)]
    }

    /** Sends if the peer still wants the message, then advances the counter and the peer's note. */
    method Write(p: string) returns (ok: bool)
      requires Tracked()
      modifies this`sequence, matrix`open, wire`sent
      ensures Tracked()
      ensures var wants := old(Noted().receive && Noted().sequence < sequence + 1);
        if wants && wire.up
        then ok && wire.sent == old(wire.sent) + [p] && sequence == old(sequence) + 1
             && matrix.open == old(WithFrontier(matrix.State(), peer, author.algo,
                  SetSequence(matrix.open[author.algo][peer], author, sequence + 1)).open)
        else ok == !wants && wire.sent == old(wire.sent) && sequence == old(sequence) && matrix.open == old(matrix.open)
    {
      var wants := matrix.WantsFeedWithSeq(peer, author, sequence);
      if wants == Some(false) { // nothing is sent, and that is no failure
        return true;
      }
      ok := wire.Write(p);
      if !ok {
        return false;
      }
      sequence := sequence + 1;
      ghost var ups := [FeedWithLength(author, sequence)];
      assert ups[..0] == [];
      assert ApplySequences(matrix.open[author.algo][peer], ups)
        == SetSequence(matrix.open[author.algo][peer], author, sequence) by {
        assert ups[..|ups| - 1] == [];
      }
      var err := matrix.UpdateSequences(peer, [FeedWithLength(author, sequence)]);
      ok := err == Updated;
    }
  }

  /** Only this message was written, any number of times. */
  ghost predicate Extends(before: seq<string>, after: seq<string>, msg: string) {
    |before| <= |after| && after[..|before|] == before && forall i :: |before| <= i < |after| ==> after[i] == msg
  }

  lemma ExtendsTransitive(a: seq<string>, b: seq<string>, c: seq<string>, msg: string)
    requires Extends(a, b, msg) && Extends(b, c, msg)
    ensures Extends(a, c, msg)
  {
    assert c[..|a|] == b[..|a|] by {
      forall i | 0 <= i < |a| ensures c[i] == b[i] { assert c[..|b|][i] == c[i]; }
    }
    forall i | |a| <= i < |c| ensures c[i] == msg {
      if i < |b| { assert c[..|b|][i] == c[i]; }
    }
  }

  /** Part of a pass: `order` is done, `todo` is left. */
  ghost predicate Pending(keys: set<nat>, order: seq<nat>, todo: set<nat>) {
    && todo <= keys
    && (forall id: nat :: id in keys <==> id in order || id in todo)
    && (forall i :: 0 <= i < |order| ==> order[i] !in todo)
    && (forall i, j :: 0 <= i < j < |order| ==> order[i] != order[j])
  }

  lemma PendingStep(keys: set<nat>, order: seq<nat>, todo: set<nat>, id: nat)
    requires Pending(keys, order, todo) && id in todo
    ensures Pending(keys, order + [id], todo - {id})
  {}

  lemma PassDone(l: Live, order: seq<nat>)
    requires Pending(l.sinks.Keys, order, {})
    ensures Order(l, order)
  {}

  /** Registrations left while `todo` is still to be visited: those beyond the limit `s` whose write did not fail. */
  ghost predicate Kept(now: map<nat, Registration>, regs: map<nat, Registration>, todo: set<nat>, s: int,
                       failing: set<nat>) {
    && (forall id: nat :: id in now <==> id in regs && (id in todo || (regs[id].until > s && id !in failing)))
    && (forall id :: id in now ==> now[id] == regs[id])
  }

  lemma StillKept(now: map<nat, Registration>, regs: map<nat, Registration>, todo: set<nat>, s: int, failing: set<nat>,
                  id: nat)
    requires Kept(now, regs, todo, s, failing) && id in todo && id in regs
    ensures id in now && now[id] == regs[id]
  {}

  lemma KeptStep(now: map<nat, Registration>, regs: map<nat, Registration>, todo: set<nat>, s: int, failing: set<nat>,
                 id: nat)
    requires Kept(now, regs, todo, s, failing) && id in todo && id in regs
    ensures id in now && now[id] == regs[id]
    ensures Kept(if regs[id].until <= s || id in failing then now - {id} else now, regs, todo - {id}, s, failing)
  {}

  /** The registrations before the first message, behind it, and so on; the first message is number `s + 1`. */
  ghost predicate Sends(ms: seq<map<nat, Registration>>, s: int) {
    forall i :: 0 < i < |ms| ==> Kept(ms[i], ms[i - 1], {}, s + i, {})
  }

  /** A sink registered up to a number hears the next message, and every later one up to that number. */
  lemma {:induction false} HearsUntil(ms: seq<map<nat, Registration>>, s: int, id: nat, k: nat)
    requires Sends(ms, s) && k < |ms| && id in ms[0]
    ensures id in ms[k] <==> k == 0 || s + k + 1 <= ms[0][id].until
    ensures id in ms[k] ==> ms[k][id] == ms[0][id]
    decreases k
  {
    if k > 0 {
      HearsUntil(ms, s, id, k - 1);
      assert Kept(ms[k], ms[k - 1], {}, s + k, {});
    }
  }

  /** With the connection down nothing moves, and every sink that would write fails. */
  function VisitOver(up: bool, l: Live, order: seq<nat>): Live
    requires Visitable(l, order)
  {
    if up then VisitAll(l, order) else l
  }

  lemma VisitOverNext(up: bool, l: Live, order: seq<nat>, id: nat)
    requires Visitable(l, order) && id in l.sinks
    ensures Visitable(l, order + [id]) && VisitOver(up, l, order + [id]) == VisitOver(up, VisitOver(up, l, order), [id])
    ensures Failing(up, VisitOver(up, l, order)) == Failing(up, l)
  {
    VisitNext(l, order, id);
    if up { VisitOne(VisitAll(l, order), id); }
  }

  function Failing(up: bool, l: Live): set<nat> { if up then {} else set id | id in l.sinks && Writes(l, id) }

  datatype Registration = Registration(sink: Sink, until: int)

  function SinksOf(regs: map<nat, Registration>): set<Sink> { set id | id in regs :: regs[id].sink }

  class MultiSink {
    const matrix: StateMatrix
    const wire: Wire
    const peer: Feed
    const author: Feed
    var sequence: int
    var isClosed: bool
    var sinks: map<nat, Registration>

    constructor (matrix: StateMatrix, wire: Wire, peer: Feed, author: Feed, s: int)
      ensures this.matrix == matrix && this.wire == wire && this.peer == peer && this.author == author
      ensures sequence == s && !isClosed && sinks == map[]
    {
      this.matrix, this.wire, this.peer, this.author := matrix, wire, peer, author;
      sequence, isClosed, sinks := s, false, map[];
    }

    /** All sinks of `regs` are distinct tracking sinks for this peer and feed. */
    ghost predicate Sharing(regs: map<nat, Registration>)
      reads matrix
    {
      && author.algo in matrix.open
      && peer in matrix.open[author.algo]
      && Ref(author) in matrix.open[author.algo][peer]
      && (forall id :: id in regs ==>
            var s := regs[id].sink; s.matrix == matrix && s.wire == wire && s.peer == peer && s.author == author)
      && (forall id, jd :: id in regs && jd in regs && id != jd ==> regs[id].sink != regs[jd].sink)
    }

    ghost function LiveOf(regs: map<nat, Registration>): Live
      requires Sharing(regs)
      reads matrix, wire, SinksOf(regs)
    {
      Live(matrix.open[author.algo][peer][Ref(author)], map id | id in regs :: regs[id].sink.sequence, |wire.sent|)
    }

    /** A tracking sink for this peer and feed that stands at the note. */
    ghost predicate AtNote(sink: Sink)
      requires Sharing(sinks)
      reads this, matrix, sink
    {
      && sink.matrix == matrix && sink.wire == wire && sink.peer == peer && sink.author == author
      && sink.sequence == matrix.open[author.algo][peer][Ref(author)].sequence
    }

    /** A new tracking sink that starts at the note is the registration event of a live run. */
    method Register(id: nat, sink: Sink, until: int)
      modifies this`sinks
      ensures sinks == old(sinks)[id := Registration(sink, until)]
      ensures old(Sharing(sinks) && AtNote(sink)) && id !in old(sinks) && sink !in SinksOf(old(sinks)) ==>
        && Sharing(sinks)
        && Enabled(old(LiveOf(sinks)), Registered(id)) && LiveOf(sinks) == LiveStep(old(LiveOf(sinks)), Registered(id))
    {
      sinks := sinks[id := Registration(sink, until)];
      if old(Sharing(sinks) && AtNote(sink)) && id !in old(sinks) && sink !in SinksOf(old(sinks)) {
        assert Sharing(sinks);
        assert LiveOf(sinks).sinks == LiveStep(old(LiveOf(sinks)), Registered(id)).sinks;
      }
    }

    /** One turn of the loop: the sink with that number gets the message. */
    method Pour(reg: Registration, msg: string, ghost regs: map<nat, Registration>, ghost id: nat) returns (ok: bool)
      requires Sharing(regs) && id in regs && regs[id] == reg
      modifies matrix`open, wire`sent, reg.sink`sequence
      ensures Sharing(regs) && LiveOf(regs) == VisitOver(wire.up, old(LiveOf(regs)), [id])
      ensures ok == (id !in Failing(wire.up, old(LiveOf(regs))))
      ensures Extends(old(wire.sent), wire.sent, msg)
    {
      ghost var mid := LiveOf(regs);
      ok := reg.sink.Write(msg);
      if wire.up {
        VisitOne(mid, id);
        VisitRefined(regs, mid, id);
      } else {
        assert LiveOf(regs).sinks == mid.sinks;
      }
    }

    /**
     Passes a message to every sink in some order; sinks that reached their limit or failed are dropped.  A closed
     multi-sink does nothing.
     */
    method Send(msg: string) returns (ghost order: seq<nat>)
      requires Sharing(sinks)
      modifies this`sequence, this`sinks, matrix`open, wire`sent, SinksOf(sinks)
      ensures Sharing(old(sinks))
      ensures isClosed ==> sequence == old(sequence) && sinks == old(sinks) && LiveOf(sinks) == old(LiveOf(sinks))
      ensures !isClosed ==>
        && sequence == old(sequence) + 1
        && Order(old(LiveOf(sinks)), order) && Visitable(old(LiveOf(sinks)), order)
        && LiveOf(old(sinks)) == VisitOver(wire.up, old(LiveOf(sinks)), order)
        && Kept(sinks, old(sinks), {}, sequence, Failing(wire.up, old(LiveOf(sinks))))
      ensures Extends(old(wire.sent), wire.sent, msg)
    {
      order := [];
      if isClosed {
        return;
      }
      ghost var before := LiveOf(sinks);
      sequence := sequence + 1;
      order := PassOn(msg, before);
      PassDone(before, order);
    }

    /** The loop over the map of sinks. */
    method PassOn(msg: string, ghost before: Live) returns (ghost order: seq<nat>)
      requires Sharing(sinks) && LiveOf(sinks) == before
      modifies this`sinks, matrix`open, wire`sent, SinksOf(sinks)
      ensures Passing(old(sinks), before, order, {}, old(wire.sent), msg) && Pending(old(sinks).Keys, order, {})
    {
      ghost var regs := sinks;
      order := [];
      var todo := sinks.Keys;
      while todo != {}
        invariant Passing(regs, before, order, todo, old(wire.sent), msg) && Pending(regs.Keys, order, todo)
        decreases todo
      {
        var id :| id in todo;
        PendingStep(regs.Keys, order, todo, id);
        Turn(id, todo, msg, regs, before, order, old(wire.sent));
        todo := todo - {id};
        order := order + [id];
      }
    }

    /** The state of a pass over the registrations `regs` that began in `before`. */
    ghost predicate Passing(regs: map<nat, Registration>, before: Live, order: seq<nat>, todo: set<nat>,
                            sent: seq<string>, msg: string)
      reads this, matrix, wire, SinksOf(regs)
    {
      Written(regs, before, order, sent, msg) && Kept(sinks, regs, todo, sequence, Failing(wire.up, before))
    }

    /** What the sinks, the matrix and the connection look like after the sinks in `order`. */
    ghost predicate Written(regs: map<nat, Registration>, before: Live, order: seq<nat>, sent: seq<string>, msg: string)
      reads matrix, wire, SinksOf(regs)
    {
      && Sharing(regs) && before.sinks.Keys == regs.Keys
      && Visitable(before, order) && LiveOf(regs) == VisitOver(wire.up, before, order)
      && Extends(sent, wire.sent, msg)
    }

    method Turn(id: nat, ghost todo: set<nat>, msg: string,
                ghost regs: map<nat, Registration>, ghost before: Live, ghost order: seq<nat>, ghost sent: seq<string>)
      requires Passing(regs, before, order, todo, sent, msg) && id in todo && id in regs
      modifies this`sinks, matrix`open, wire`sent, SinksOf(regs)
      ensures Passing(regs, before, order + [id], todo - {id}, sent, msg)
    {
      StillKept(sinks, regs, todo, sequence, Failing(wire.up, before), id);
      var reg := sinks[id];
      var ok := WriteTurn(id, reg, msg, regs, before, order, sent);
      Drop(id, reg, ok, regs, todo, Failing(wire.up, before));
    }

    method WriteTurn(ghost id: nat, reg: Registration, msg: string,
                     ghost regs: map<nat, Registration>, ghost before: Live, ghost order: seq<nat>,
                       ghost sent: seq<string>) returns (ok: bool)
      requires Written(regs, before, order, sent, msg) && id in regs && regs[id] == reg
      modifies matrix`open, wire`sent, reg.sink`sequence
      ensures Written(regs, before, order + [id], sent, msg) && ok == (id !in Failing(wire.up, before))
    {
      VisitOverNext(wire.up, before, order, id);
      ghost var mid := wire.sent;
      ok := Pour(reg, msg, regs, id);
      ExtendsTransitive(sent, mid, wire.sent, msg);
    }

    method Drop(id: nat, reg: Registration, ok: bool, ghost regs: map<nat, Registration>, ghost todo: set<nat>,
                ghost failing: set<nat>)
      requires Kept(sinks, regs, todo, sequence, failing) && id in todo && id in regs && regs[id] == reg
        && ok == (id !in failing)
      modifies this`sinks
      ensures Kept(sinks, regs, todo - {id}, sequence, failing)
    {
      KeptStep(sinks, regs, todo, sequence, failing, id);
      if !ok || reg.until <= sequence {
        sinks := sinks - {id};
      }
    }

    /** After a write of one sink the others keep their counters. */
    lemma VisitRefined(regs: map<nat, Registration>, mid: Live, id: nat)
      requires Sharing(regs) && id in regs && mid.sinks.Keys == regs.Keys
      requires forall jd :: jd in regs && jd != id ==> regs[jd].sink.sequence == mid.sinks[jd]
      requires regs[id].sink.sequence == Visit(mid, id).sinks[id]
      requires matrix.open[author.algo][peer][Ref(author)] == Visit(mid, id).note && |wire.sent| == Visit(mid, id).sent
      ensures LiveOf(regs) == Visit(mid, id)
    {
      assert LiveOf(regs).sinks == Visit(mid, id).sinks;
    }
  }
}
