/**
 The contact graph: built from a key-value index, with a cache, or folded over
 the contact messages; both give the same follows and blocks.
 */
module ContactGraph {
  import opened Basics
  import opened Feeds
  import Hops

  /** A contact message's content; a message by `author` says what it thinks of `contact`. */
  datatype Contact = Contact(contact: Feed, following: bool, blocking: bool)

  /** Decodes content; anything that is no contact message gives nothing. */
  type Parser = string -> Option<Contact>

  // ---------------------------------------------------------------- graphs

  /** Minus infinity, 1, plus infinity and 0.1. */
  datatype Weight = MinusInfinity | One | Infinity | Tenth

  datatype Edge = Edge(weight: Weight, isBlock: bool)

  /** Numbered nodes with their feeds, the numbers of feeds, and the edges between numbers. */
  datatype Picture = Picture(nodes: seq<Feed>, lookup: map<Feed, nat>, edges: map<(nat, nat), Edge>)

  ghost predicate Sound(p: Picture) {
    && (forall f :: f in p.lookup ==> p.lookup[f] < |p.nodes| && p.nodes[p.lookup[f]] == f)
    && (forall e :: e in p.edges ==> e.0 < |p.nodes| && e.1 < |p.nodes|)
  }

  const EmptyPicture: Picture := Picture([], map[], map[])

  function EdgeOf(p: Picture, a: Feed, b: Feed): Option<Edge> {
    if a in p.lookup && b in p.lookup && (p.lookup[a], p.lookup[b]) in p.edges
    then Some(p.edges[(p.lookup[a], p.lookup[b])])
    else None
  }

  predicate Follows(p: Picture, a: Feed, b: Feed) { EdgeOf(p, a, b).Some? && EdgeOf(p, a, b).value.weight.One? }

  predicate Blocks(p: Picture, a: Feed, b: Feed) { EdgeOf(p, a, b).Some? && EdgeOf(p, a, b).value.weight.Infinity? }

  function WithNode(p: Picture, f: Feed): Picture {
    if f in p.lookup then p else p.(nodes := p.nodes + [f], lookup := p.lookup[f := |p.nodes|])
  }

  /** The same edges between the same feeds. */
  ghost predicate Alike(p: Picture, q: Picture) {
    forall a, b :: EdgeOf(q, a, b) == EdgeOf(p, a, b)
  }

  /** The same edges, but for one pair. */
  ghost predicate Differs(p: Picture, q: Picture, a: Feed, b: Feed, e: Option<Edge>) {
    forall x, y :: EdgeOf(q, x, y) == (if x == a && y == b then e else EdgeOf(p, x, y))
  }

  lemma WithNodeSound(p: Picture, f: Feed)
    requires Sound(p)
    ensures Sound(WithNode(p, f)) && WithNode(p, f).lookup.Keys == p.lookup.Keys + {f}
  {}

  lemma WithNodeAlike(p: Picture, f: Feed)
    requires Sound(p)
    ensures Alike(p, WithNode(p, f))
  {
    forall a, b ensures EdgeOf(WithNode(p, f), a, b) == EdgeOf(p, a, b) {}
  }

  function WithEdge(p: Picture, a: Feed, b: Feed, e: Edge): Picture
    requires a in p.lookup && b in p.lookup
  {
    p.(edges := p.edges[(p.lookup[a], p.lookup[b]) := e])
  }

  function WithoutEdge(p: Picture, a: Feed, b: Feed): Picture
    requires a in p.lookup && b in p.lookup
  {
    p.(edges := p.edges - {(p.lookup[a], p.lookup[b])})
  }

  lemma WithEdgeDiffers(p: Picture, a: Feed, b: Feed, e: Edge)
    requires Sound(p) && a in p.lookup && b in p.lookup
    ensures Sound(WithEdge(p, a, b, e)) && Differs(p, WithEdge(p, a, b, e), a, b, Some(e))
  {}

  lemma WithoutEdgeDiffers(p: Picture, a: Feed, b: Feed)
    requires Sound(p) && a in p.lookup && b in p.lookup
    ensures Sound(WithoutEdge(p, a, b)) && Differs(p, WithoutEdge(p, a, b), a, b, None)
  {}

  /** Two nodes, and the edge between them set or removed. */
  function Connected(p: Picture, a: Feed, b: Feed, e: Option<Edge>): Picture {
    var q := WithNode(WithNode(p, a), b);
    match e
    case Some(edge) => WithEdge(q, a, b, edge)
    case None => WithoutEdge(q, a, b)
  }

  lemma ConnectedDiffers(p: Picture, a: Feed, b: Feed, e: Option<Edge>)
    requires Sound(p)
    ensures Sound(Connected(p, a, b, e)) && Differs(p, Connected(p, a, b, e), a, b, e)
    ensures Connected(p, a, b, e).lookup.Keys == p.lookup.Keys + {a, b}
  {
    var q1 := WithNode(p, a);
    WithNodeSound(p, a);
    WithNodeAlike(p, a);
    var q := WithNode(q1, b);
    WithNodeSound(q1, b);
    WithNodeAlike(q1, b);
    match e {
      case Some(edge) => WithEdgeDiffers(q, a, b, edge);
      case None => WithoutEdgeDiffers(q, a, b);
    }
    forall x, y ensures EdgeOf(Connected(p, a, b, e), x, y) == (if x == a && y == b then e else EdgeOf(p, x, y)) {
      assert EdgeOf(q, x, y) == EdgeOf(q1, x, y) == EdgeOf(p, x, y);
    }
  }

  // ---------------------------------------------------------------- what contact messages say

  datatype Relation = NotFollowing | Following | Blocking | Metafeed

  /** Following takes precedence over blocking. */
  function RelationOf(c: Contact): Relation {
    if c.following then Following else if c.blocking then Blocking else NotFollowing
  }

  predicate About(parse: Parser, m: Msg, a: Feed, b: Feed) {
    m.author == a && parse(m.content).Some? && parse(m.content).value.contact == b
  }

  /** The newest contact message of `a` about `b`. */
  function LatestContact(parse: Parser, ms: seq<Msg>, a: Feed, b: Feed): Option<Contact> {
    if ms == [] then None
    else
      var m := ms[|ms| - 1];
      if About(parse, m, a, b) then parse(m.content)
      else LatestContact(parse, ms[..|ms| - 1], a, b)
  }

  // ---------------------------------------------------------------- the fold over the log

  function EdgeFromContact(c: Contact): Option<Edge> {
    if c.following then Some(Edge(One, c.blocking))
    else if c.blocking then Some(Edge(Infinity, true))
    else None
  }

  function Folded(parse: Parser, p: Picture, m: Msg): Picture {
    match parse(m.content)
    case None => p
    case Some(c) => if m.author == c.contact then p else Connected(p, m.author, c.contact, EdgeFromContact(c))
  }

  function LogGraph(parse: Parser, ms: seq<Msg>): Picture {
    if ms == [] then EmptyPicture else Folded(parse, LogGraph(parse, ms[..|ms| - 1]), ms[|ms| - 1])
  }

  /** The edge the latest contact message asks for. */
  function LogEdge(parse: Parser, ms: seq<Msg>, a: Feed, b: Feed): Option<Edge> {
    var latest := LatestContact(parse, ms, a, b);
    if a == b || latest.None? then None else EdgeFromContact(latest.value)
  }

  ghost predicate ShowsLatest(parse: Parser, p: Picture, ms: seq<Msg>) {
    Sound(p) && forall a, b :: EdgeOf(p, a, b) == LogEdge(parse, ms, a, b)
  }

  lemma FoldedShows(parse: Parser, p: Picture, ms: seq<Msg>, m: Msg)
    requires ShowsLatest(parse, p, ms)
    ensures ShowsLatest(parse, Folded(parse, p, m), ms + [m])
  {
    var c := parse(m.content);
    forall a, b ensures LogEdge(parse, ms + [m], a, b)
      == (if a != b && About(parse, m, a, b) then EdgeFromContact(c.value) else LogEdge(parse, ms, a, b))
    {
      assert (ms + [m])[..|ms|] == ms;
    }
    if c.Some? && m.author != c.value.contact {
      ConnectedDiffers(p, m.author, c.value.contact, EdgeFromContact(c.value));
      ShowsMore(parse, p, Folded(parse, p, m), ms, ms + [m], m.author, c.value.contact, EdgeFromContact(c.value));
    }
  }

  lemma ShowsMore(parse: Parser, p: Picture, q: Picture, ms: seq<Msg>, ms': seq<Msg>, a: Feed, b: Feed, e: Option<Edge>)
    requires ShowsLatest(parse, p, ms) && Sound(q) && Differs(p, q, a, b, e)
    requires forall x, y :: LogEdge(parse, ms', x, y) == (if x == a && y == b then e else LogEdge(parse, ms, x, y))
    ensures ShowsLatest(parse, q, ms')
  {}

  lemma {:induction false} LogGraphShows(parse: Parser, ms: seq<Msg>)
    ensures ShowsLatest(parse, LogGraph(parse, ms), ms)
  {
    if ms != [] {
      var before, m := ms[..|ms| - 1], ms[|ms| - 1];
      LogGraphShows(parse, before);
      FoldedShows(parse, LogGraph(parse, before), before, m);
      assert before + [m] == ms;
    }
  }

  // ---------------------------------------------------------------- the key-value index

  type Relations = map<(Feed, Feed), Relation>

  function SetContact(parse: Parser, kv: Relations, m: Msg): Relations {
    match parse(m.content)
    case None => kv
    case Some(c) => kv[(m.author, c.contact) := RelationOf(c)]
  }

  function Stored(parse: Parser, ms: seq<Msg>): Relations {
    if ms == [] then map[] else SetContact(parse, Stored(parse, ms[..|ms| - 1]), ms[|ms| - 1])
  }

  lemma {:induction false} StoredIsLatest(parse: Parser, ms: seq<Msg>, a: Feed, b: Feed)
    ensures (a, b) in Stored(parse, ms) <==> LatestContact(parse, ms, a, b).Some?
    ensures (a, b) in Stored(parse, ms)
      ==> Stored(parse, ms)[(a, b)] == RelationOf(LatestContact(parse, ms, a, b).value)
  {
    if ms != [] { StoredIsLatest(parse, ms[..|ms| - 1], a, b); }
  }

  function EdgeFromRelation(r: Relation): Option<Edge> {
    match r
    case NotFollowing => None
    case Following => Some(Edge(One, false))
    case Blocking => Some(Edge(Infinity, true))
    case Metafeed => Some(Edge(Tenth, false))
  }

  function EdgeAt(kv: Relations, a: Feed, b: Feed): Option<Edge> {
    if a != b && (a, b) in kv then EdgeFromRelation(kv[(a, b)]) else None
  }

  function NodesOf(kv: Relations): set<Feed> {
    (set k | k in kv && k.0 != k.1 :: k.0) + (set k | k in kv && k.0 != k.1 :: k.1)
  }

  /** A graph shows exactly what the index holds. */
  ghost predicate Depicts(p: Picture, kv: Relations) {
    Sound(p) && p.lookup.Keys == NodesOf(kv) && forall a, b :: EdgeOf(p, a, b) == EdgeAt(kv, a, b)
  }

  /** What the index knows about a feed's follows, itself included. */
  function FollowsOf(kv: Relations, who: Feed): set<Feed> {
    set k | k in kv && k.0 == who && kv[k].Following? :: k.1
  }

  /** The graph on which hops are walked. */
  function FollowsGraph(kv: Relations): Hops.FollowGraph { (f: Feed) => FollowsOf(kv, f) }

  /**
   The two builders agree on every sequence of messages: between distinct feeds both follow and block exactly as the
   latest contact message says, following first.  The index's own listing agrees as well.
   */
  lemma BuildersAgree(parse: Parser, ms: seq<Msg>, p: Picture, a: Feed, b: Feed)
    requires Depicts(p, Stored(parse, ms)) && a != b
    ensures var l, latest := LogGraph(parse, ms), LatestContact(parse, ms, a, b);
      && (Follows(p, a, b) <==> Follows(l, a, b))
      && (Blocks(p, a, b) <==> Blocks(l, a, b))
      && (Follows(l, a, b) <==> latest.Some? && latest.value.following)
      && (Blocks(l, a, b) <==> latest.Some? && latest.value.blocking && !latest.value.following)
      && (b in FollowsOf(Stored(parse, ms), a) <==> Follows(p, a, b))
  {
    StoredIsLatest(parse, ms, a, b);
    LogGraphShows(parse, ms);
    FollowsListed(Stored(parse, ms), a, b);
  }

  lemma FollowsListed(kv: Relations, a: Feed, b: Feed)
    ensures b in FollowsOf(kv, a) <==> (a, b) in kv && kv[(a, b)].Following?
  {
    if (a, b) in kv && kv[(a, b)].Following? {
      assert (a, b).0 == a && (a, b).1 == b;
    }
  }

  /** On the index, hops of maximum zero are the other feeds whose latest contact message says following. */
  lemma DirectHops(parse: Parser, ms: seq<Msg>, list: Hops.Listing, from: Feed, b: Feed)
    requires Hops.Lists(FollowsGraph(Stored(parse, ms)), list)
    ensures b in Hops.Hops(FollowsGraph(Stored(parse, ms)), list, from, 0) <==>
      b != from && LatestContact(parse, ms, from, b).Some? && LatestContact(parse, ms, from, b).value.following
  {
    var g := FollowsGraph(Stored(parse, ms));
    Hops.HopsBounds(g, list, from, 0);
    Hops.NoHops(g, from);
    StoredIsLatest(parse, ms, from, b);
    FollowsListed(Stored(parse, ms), from, b);
  }

  /** A feed that follows itself is listed among its follows, but neither graph has the edge. */
  lemma SelfFollow(parse: Parser, ms: seq<Msg>, p: Picture, a: Feed)
    requires Depicts(p, Stored(parse, ms))
    ensures !Follows(p, a, a) && !Follows(LogGraph(parse, ms), a, a)
    ensures a in FollowsOf(Stored(parse, ms), a) <==>
      LatestContact(parse, ms, a, a).Some? && LatestContact(parse, ms, a, a).value.following
  {
    StoredIsLatest(parse, ms, a, a);
    LogGraphShows(parse, ms);
    FollowsListed(Stored(parse, ms), a, a);
  }

  /** The block flag of an edge differs between the builders exactly when a message claims both at once. */
  lemma BlockFlagDiffersIff(parse: Parser, ms: seq<Msg>, p: Picture, a: Feed, b: Feed)
    requires Depicts(p, Stored(parse, ms)) && a != b
    ensures var latest := LatestContact(parse, ms, a, b);
      EdgeOf(p, a, b) != EdgeOf(LogGraph(parse, ms), a, b) <==>
        latest.Some? && latest.value.following && latest.value.blocking
  {
    StoredIsLatest(parse, ms, a, b);
    LogGraphShows(parse, ms);
  }

  /** What a graph shows is determined by the index. */
  lemma SamePicture(p: Picture, q: Picture, kv: Relations)
    requires Depicts(p, kv)
    ensures Depicts(q, kv) <==> Sound(q) && q.lookup.Keys == p.lookup.Keys && Alike(p, q)
  {}

  /** A relation set behind a cached graph leaves it right if and only if it concerns one feed or changes nothing. */
  lemma StaleIff(p: Picture, kv: Relations, a: Feed, b: Feed, r: Relation)
    requires Depicts(p, kv)
    ensures Depicts(p, kv[(a, b) := r])
       <==> a == b || (EdgeAt(kv, a, b) == EdgeFromRelation(r) && a in NodesOf(kv) && b in NodesOf(kv))
  {
    var kv' := kv[(a, b) := r];
    SetEdgeAt(kv, a, b, r);
    if a != b && Depicts(p, kv') {
      assert a in NodesOf(kv') && b in NodesOf(kv');
      assert EdgeOf(p, a, b) == EdgeAt(kv', a, b);
    }
  }

  lemma SetEdgeAt(kv: Relations, a: Feed, b: Feed, r: Relation)
    ensures NodesOf(kv[(a, b) := r]) == NodesOf(kv) + if a == b then {} else {a, b}
    ensures forall x, y ::
      EdgeAt(kv[(a, b) := r], x, y) == (if x == a && y == b && a != b then EdgeFromRelation(r) else EdgeAt(kv, x, y))
  {
    SetNodes(kv, a, b, r);
    var kv' := kv[(a, b) := r];
    forall x, y
      ensures EdgeAt(kv', x, y) == (if x == a && y == b && a != b then EdgeFromRelation(r) else EdgeAt(kv, x, y))
    {
      SetEdgeAtPair(kv, a, b, r, x, y);
    }
  }

  lemma SetEdgeAtPair(kv: Relations, a: Feed, b: Feed, r: Relation, x: Feed, y: Feed)
    ensures EdgeAt(kv[(a, b) := r], x, y)
      == if x == a && y == b && a != b then EdgeFromRelation(r) else EdgeAt(kv, x, y)
  {}

  lemma SetNodes(kv: Relations, a: Feed, b: Feed, r: Relation)
    ensures NodesOf(kv[(a, b) := r]) == NodesOf(kv) + if a == b then {} else {a, b}
  {
    var kv' := kv[(a, b) := r];
    assert (a, b) in kv' && (a, b).0 == a && (a, b).1 == b;
    forall f | f in NodesOf(kv) ensures f in NodesOf(kv') {
      var k :| k in kv && k.0 != k.1 && (f == k.0 || f == k.1);
      assert k in kv';
    }
    forall f | f in NodesOf(kv') ensures f in NodesOf(kv) || (a != b && (f == a || f == b)) {
      var k :| k in kv' && k.0 != k.1 && (f == k.0 || f == k.1);
      assert k == (a, b) || k in kv;
    }
  }

  /** Adding a relation to a graph keeps it in step with the index. */
  lemma DepictsMore(p: Picture, q: Picture, kv: Relations, a: Feed, b: Feed, r: Relation)
    requires Depicts(p, kv) && a != b
    requires Sound(q) && q.lookup.Keys == p.lookup.Keys + {a, b} && Differs(p, q, a, b, EdgeFromRelation(r))
    ensures Depicts(q, kv[(a, b) := r])
  {
    SetEdgeAt(kv, a, b, r);
  }

  lemma UnconnectedDiffers(p: Picture, a: Feed, b: Feed)
    requires Sound(p) && EdgeOf(p, a, b).None?
    ensures var q := WithNode(WithNode(p, a), b);
      Sound(q) && Differs(p, q, a, b, None) && q.lookup.Keys == p.lookup.Keys + {a, b}
  {
    var p1 := WithNode(p, a);
    WithNodeSound(p, a);
    WithNodeAlike(p, a);
    WithNodeSound(p1, b);
    WithNodeAlike(p1, b);
    AlikeDiffers(p, p1, WithNode(p1, b), a, b);
  }

  lemma AlikeDiffers(p: Picture, p1: Picture, q: Picture, a: Feed, b: Feed)
    requires Alike(p, p1) && Alike(p1, q) && EdgeOf(p, a, b).None?
    ensures Differs(p, q, a, b, None)
  {}

  // ---------------------------------------------------------------- the program's objects

  class Graph {
    var nodes: seq<Feed>
    var lookup: map<Feed, nat>
    var edges: map<(nat, nat), Edge>

    constructor ()
      ensures State() == EmptyPicture
    {
      nodes, lookup, edges := [], map[], map[];
    }

    ghost function State(): Picture
      reads this
    {
      Picture(nodes, lookup, edges)
    }

    method AddNode(f: Feed)
      modifies this`nodes, this`lookup
      ensures State() == WithNode(old(State()), f)
    {
      if f !in lookup {
        nodes, lookup := nodes + [f], lookup[f := |nodes|];
      }
    }

    method GetEdge(a: Feed, b: Feed) returns (r: Option<Edge>)
      ensures r == EdgeOf(State(), a, b)
    {
      if a !in lookup || b !in lookup {
        return None;
      }
      if (lookup[a], lookup[b]) !in edges {
        return None;
      }
      r := Some(edges[(lookup[a], lookup[b])]);
    }

    method BlockedList(a: Feed) returns (blocked: set<Feed>)
      requires Sound(State())
      ensures forall b :: b in blocked <==> Blocks(State(), a, b)
    {
      blocked := {};
      if a !in lookup {
        return;
      }
      var from := lookup[a];
      var todo := lookup.Keys;
      while todo != {}
        invariant todo <= lookup.Keys
        invariant forall b :: b in blocked <==> b !in todo && Blocks(State(), a, b)
        decreases todo
      {
        var b :| b in todo;
        todo := todo - {b};
        if (from, lookup[b]) in edges && edges[(from, lookup[b])].weight.Infinity? {
          blocked := blocked + {b};
        }
      }
    }
  }

  /** Keeps a graph up to date with the contact messages. */
  class LogBuilder {
    const parse: Parser
    const current: Graph

    constructor (parse: Parser)
      ensures this.parse == parse && fresh(current) && current.State() == LogGraph(parse, [])
    {
      this.parse := parse;
      current := new Graph();
    }

    method BuildGraph(m: Msg)
      modifies current
      ensures current.State() == Folded(parse, old(current.State()), m)
    {
      var parsed := parse(m.content);
      if parsed.None? {
        return;
      }
      var c := parsed.value;
      if m.author == c.contact {
        return;
      }
      current.AddNode(m.author);
      current.AddNode(c.contact);
      var ids := (current.lookup[m.author], current.lookup[c.contact]);
      var w := MinusInfinity;
      if c.following {
        w := One;
      } else if c.blocking {
        w := Infinity;
      } else {
        current.edges := current.edges - {ids};
        return;
      }
      current.edges := current.edges[ids := Edge(w, c.blocking)];
    }
  }

  /** The index with its cached graph. */
  /** The metafeed and the subfeed a management message is about. */
  datatype Pair = Pair(meta: Feed, sub: Feed)

  /** The decoded content of a metafeed message; what it is about is missing if the signature of the subfeed is bad. */
  datatype MetaContent =
    | Garbled
    | AddExisting(about: Option<Pair>)
    | AddDerived(about: Option<Pair>)
    | Tombstone(about: Option<Pair>)
    | OtherType

  datatype Change = Change(sub: Feed, relation: Relation)

  /** Messages of a metafeed about itself count, if the signatures are right. */
  function Managed(m: Msg, c: MetaContent): Option<Change> {
    if m.author.algo != BendyButt || c.Garbled? || c.OtherType? || c.about.None? || c.about.value.meta != m.author
      then None
    else Some(Change(c.about.value.sub, if c.Tombstone? then NotFollowing else Metafeed))
  }

  /** Both feeds are nodes of the index, and the relation makes no other edge than there is. */
  ghost predicate Shows(kv: Relations, a: Feed, b: Feed, r: Relation) {
    EdgeAt(kv, a, b) == EdgeFromRelation(r) && a in NodesOf(kv) && b in NodesOf(kv)
  }

  class BadgerBuilder {
    const parse: Parser
    const announced: Msg -> Option<Feed> // the metafeed a valid announcement names
    const manages: Msg -> MetaContent
    var relations: Relations
    var backlinks: map<Feed, Feed>
    var cached: Graph?

    constructor (parse: Parser, announced: Msg -> Option<Feed>, manages: Msg -> MetaContent)
      ensures this.parse == parse && this.announced == announced && this.manages == manages
      ensures relations == map[] && backlinks == map[] && cached == null
    {
      this.parse, this.announced, this.manages := parse, announced, manages;
      relations, backlinks, cached := map[], map[], null;
    }

    /** A cached graph equals a fresh build. */
    ghost predicate Valid()
      reads this, cached
    {
      cached != null ==> Depicts(cached.State(), relations)
    }

    method UpdateContacts(m: Msg)
      requires Valid()
      modifies this`relations, this`cached
      ensures Valid() && relations == SetContact(parse, old(relations), m)
    {
      var c := parse(m.content);
      if c.None? {
        return;
      }
      var rel := if c.value.following then Following else if c.value.blocking then Blocking else NotFollowing;
      relations := relations[(m.author, c.value.contact) := rel];
      cached := null;
    }

    method UpdateAnnouncement(m: Msg)
      requires Valid()
      modifies this`backlinks, this`cached
      ensures Valid()
      ensures backlinks == if announced(m).Some? then old(backlinks)[m.author := announced(m).value] else old(backlinks)
    {
      var meta := announced(m);
      if meta.None? {
        return;
      }
      backlinks := backlinks[m.author := meta.value];
      cached := null;
    }

    /**
     A metafeed message that counts adds or removes a subfeed, and the cached graph is left as it is: from then on the
     builder serves a fresh graph if and only if there is none cached, the message is about the metafeed itself, or the
     graph shows the relation already.  Every other message is skipped.
     */
    method UpdateMetafeeds(m: Msg)
      modifies this`relations, this`backlinks
      ensures cached == old(cached)
      ensures Managed(m, manages(m)).None? ==>
        relations == old(relations) && backlinks == old(backlinks) && Valid() == old(Valid())
      ensures Managed(m, manages(m)).Some? ==>
        var c, meta := Managed(m, manages(m)).value, m.author;
        && relations == old(relations)[(meta, c.sub) := c.relation]
        && backlinks == (if c.relation.Metafeed? then old(backlinks)[c.sub := meta] else old(backlinks))
        && (old(Valid()) ==> (Valid() <==>
              || cached == null
              || meta == c.sub
              || Shows(old(relations), meta, c.sub, c.relation)))
    {
      if m.author.algo != BendyButt {
        return;
      }
      match manages(m) {
        case Garbled => return;
        case AddExisting(about) =>
          if about.Some? && about.value.meta == m.author {
            backlinks := backlinks[about.value.sub := about.value.meta];
            SetRelation(about.value.meta, about.value.sub, Metafeed);
          }
        case AddDerived(about) =>
          if about.Some? && about.value.meta == m.author {
            backlinks := backlinks[about.value.sub := about.value.meta];
            SetRelation(about.value.meta, about.value.sub, Metafeed);
          }
        case Tombstone(about) =>
          if about.Some? && about.value.meta == m.author {
            SetRelation(about.value.meta, about.value.sub, NotFollowing);
          }
        case OtherType => return;
      }
    }

    method SetRelation(meta: Feed, sub: Feed, r: Relation)
      modifies this`relations
      ensures relations == old(relations)[(meta, sub) := r]
      ensures old(Valid()) ==> (Valid() <==> cached == null || meta == sub || Shows(old(relations), meta, sub, r))
    {
      if cached != null && Depicts(cached.State(), relations) {
        StaleIff(cached.State(), relations, meta, sub, r);
      }
      relations := relations[(meta, sub) := r];
    }

    method DeleteAuthor(who: Feed)
      requires Valid()
      modifies this`relations, this`backlinks, this`cached
      ensures Valid() && backlinks == old(backlinks) - {who}
      ensures relations == map k | k in old(relations) && k.0 != who :: old(relations)[k]
    {
      cached := null;
      relations := map k | k in relations && k.0 != who :: relations[k];
      backlinks := backlinks - {who};
    }

    /** The cached graph, or a new one. */
    method Build() returns (g: Graph)
      requires Valid()
      modifies this`cached
      ensures Valid() && cached == g && Depicts(g.State(), relations)
      ensures old(cached) != null ==> g == old(cached)
      ensures old(cached) == null ==> fresh(g)
    {
      if cached != null {
        return cached;
      }
      g := BuildFresh();
      cached := g;
    }

    /** A walk over the index. */
    method BuildFresh() returns (g: Graph)
      ensures fresh(g) && Depicts(g.State(), relations)
    {
      g := new Graph();
      var todo, done: Relations := relations.Keys, map[];
      while todo != {}
        invariant fresh(g) && todo <= relations.Keys && done.Keys == relations.Keys - todo
        invariant forall k :: k in done ==> done[k] == relations[k]
        invariant Depicts(g.State(), done)
        decreases todo
      {
        var k :| k in todo;
        assert k == (k.0, k.1);
        AddRelation(g, k.0, k.1, relations[k], done);
        todo, done := todo - {k}, done[k := relations[k]];
      }
      assert done == relations;
    }

    method AddRelation(g: Graph, a: Feed, b: Feed, r: Relation, ghost done: Relations)
      requires Depicts(g.State(), done) && (a, b) !in done
      modifies g
      ensures Depicts(g.State(), done[(a, b) := r])
    {
      ghost var before := g.State();
      if a == b { // no edge from a feed to itself
        SetEdgeAt(done, a, b, r);
        return;
      }
      g.AddNode(a);
      g.AddNode(b);
      var e := match r
        case NotFollowing => Edge(MinusInfinity, false)
        case Following => Edge(One, false)
        case Blocking => Edge(Infinity, true)
        case Metafeed => Edge(Tenth, false);
      if !e.weight.MinusInfinity? {
        ConnectedDiffers(before, a, b, Some(e));
        g.edges := g.edges[(g.lookup[a], g.lookup[b]) := e];
      } else {
        UnconnectedDiffers(before, a, b);
      }
      DepictsMore(before, g.State(), done, a, b, r);
    }
  }
}
