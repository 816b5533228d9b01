/**
 How far a want travels.  What a network does about one blob depends only on what
 each node holds about that blob; on this view it is proved that a want reaches
 every node up to three links away, and when it reaches the fourth.
 */
module BlobReach {
  import opened Basics
  import opened BlobWants

  // ---------------------------------------------------------------- what is sent

  /** One parcel for every connected peer that did not ask for the blob itself, and nothing else. */
  lemma {:induction false} BroadcastExact(m: Manager, peers: seq<nat>, r: Ref, d: int, x: Parcel)
    requires d < 0
    ensures multiset(Broadcast(m, peers, r, d))[x]
      == if x.ref == r && x.dist == d && r !in RemoteWants(m, x.peer) then multiset(peers)[x.peer] else 0
    decreases |peers|
  {
    if peers != [] {
      var n := |peers| - 1;
      BroadcastExact(m, peers[..n], r, d, x);
      LastPeer(peers, x.peer);
      LastParcel(Broadcast(m, peers[..n], r, d), r !in RemoteWants(m, peers[n]), Parcel(peers[n], r, d), x);
    }
  }

  /** One notice for every connected peer that asked for the blob, and nothing else. */
  lemma {:induction false} NoticesExact(m: Manager, peers: seq<nat>, r: Ref, size: int, x: Parcel)
    ensures multiset(Notices(m, peers, r, size))[x]
      == if x.ref == r && x.dist == size && r in RemoteWants(m, x.peer) then multiset(peers)[x.peer] else 0
    decreases |peers|
  {
    if peers != [] {
      var n := |peers| - 1;
      NoticesExact(m, peers[..n], r, size, x);
      LastPeer(peers, x.peer);
      LastParcel(Notices(m, peers[..n], r, size), r in RemoteWants(m, peers[n]), Parcel(peers[n], r, size), x);
    }
  }

  lemma LastPeer(peers: seq<nat>, p: nat)
    requires peers != []
    ensures multiset(peers)[p] == multiset(peers[..|peers| - 1])[p] + if peers[|peers| - 1] == p then 1 else 0
  {
    assert peers == peers[..|peers| - 1] + [peers[|peers| - 1]];
  }

  lemma LastParcel(ps: seq<Parcel>, sends: bool, last: Parcel, x: Parcel)
    ensures multiset(ps + if sends then [last] else [])[x] == multiset(ps)[x] + if sends && last == x then 1 else 0
  {
    assert ps + [] == ps;
  }

  // ---------------------------------------------------------------- one blob

  /** What a node holds about one blob: its want, whether it is stored or blocked, and which peers asked for it. */
  datatype Part = Part(open: Option<int>, stored: bool, blocked: bool, peers: seq<nat>, asked: map<nat, int>)

  function PartOf(m: Manager, r: Ref): Part {
    Part(if r in m.wants then Some(m.wants[r]) else None, r in m.stored, r in m.blocked, m.peers,
         map p | p in m.remote && r in m.remote[p] :: m.remote[p][r])
  }

  function View(n: Network, r: Ref): (ps: seq<Part>)
    ensures |ps| == |n.nodes| && forall i :: 0 <= i < |ps| ==> ps[i] == PartOf(n.nodes[i], r)
  {
    seq(|n.nodes|, i requires 0 <= i < |n.nodes| => PartOf(n.nodes[i], r))
  }

  /** The blob is stored there, or wanted from a distance of `d` or nearer. */
  predicate Near(ps: seq<Part>, v: nat, d: int) {
    v < |ps| && (ps[v].stored || (ps[v].open.Some? && ps[v].open.value >= d))
  }

  predicate Linked(ps: seq<Part>, u: nat, v: nat) { u < |ps| && v in ps[u].peers }

  /** Another way of three links from the origin to `v` that keeps clear of `u`. */
  ghost predicate Pentagon(ps: seq<Part>, o: nat, u: nat, v: nat) {
    exists x, y :: Around(ps, o, u, v, x, y) && x != u
  }

  ghost predicate Around(ps: seq<Part>, o: nat, u: nat, v: nat, x: nat, y: nat) {
    Linked(ps, o, x) && Linked(ps, x, y) && Linked(ps, y, v) && y != u
  }

  /** How a want of distance `d` can have come to `v`, which told `u`. */
  ghost predicate CameTo(ps: seq<Part>, o: nat, v: nat, u: nat, d: int) {
    && Linked(ps, v, u) && Near(ps, v, d) && -5 <= d <= -1
    && (d == -1 ==> v == o)
    && (d == -2 ==> Linked(ps, o, v))
    && (d == -3 ==> exists x :: Linked(ps, o, x) && Near(ps, x, -2) && Linked(ps, x, v))
    && (d == -4 ==> exists x, y :: Around(ps, o, u, v, x, y) && Near(ps, x, -2))
  }

  predicate Under(wire: seq<Packet>, r: Ref, u: nat, v: nat, d: int) { Packet(u, v, r, d) in wire }

  /** Every want under way, and every want a node was told of, came from the origin. */
  ghost predicate Traced(ps: seq<Part>, wire: seq<Packet>, r: Ref, o: nat) {
    && (forall p :: p in wire && p.ref == r && p.dist < 0 ==> CameTo(ps, o, p.from, p.to, p.dist))
    && (forall u, v :: 0 <= u < |ps| && v in ps[u].asked ==>
          CameTo(ps, o, v, u, ps[u].asked[v]) && ps[u].asked[v] >= -4)
    && (forall u :: 0 <= u < |ps| && ps[u].open.Some? ==>
          -5 <= ps[u].open.value <= -1 && (ps[u].open.value == -1 ==> u == o))
  }

  /** An open want was passed on to every peer, is under way to it, or the peer asked itself. */
  ghost predicate Passed(ps: seq<Part>, wire: seq<Packet>, r: Ref) {
    forall u: nat, v: nat ::
      Linked(ps, u, v) && v < |ps| && !ps[v].blocked && ps[u].open.Some? && ps[u].open.value > -5 ==>
      || Under(wire, r, u, v, ps[u].open.value) || Near(ps, v, ps[u].open.value - 1) || v in ps[u].asked
  }

  /** The origin passed its want on to all, and its peers theirs but where a longer way came first. */
  ghost predicate Begun(ps: seq<Part>, wire: seq<Packet>, r: Ref, o: nat) {
    && Near(ps, o, -1)
    && (forall v: nat :: Linked(ps, o, v) && v < |ps| && !ps[v].blocked && !ps[o].stored ==>
          Under(wire, r, o, v, -1) || Near(ps, v, -2))
    && (forall u: nat, v: nat :: Linked(ps, u, v) && v < |ps| && !ps[v].blocked && ps[u].open == Some(-2) ==>
          Under(wire, r, u, v, -2) || Near(ps, v, -3) || Pentagon(ps, o, u, v))
  }

  ghost predicate Flooding(ps: seq<Part>, wire: seq<Packet>, r: Ref, o: nat) {
    o < |ps| && Traced(ps, wire, r, o) && Passed(ps, wire, r) && Begun(ps, wire, r, o)
  }

  // ---------------------------------------------------------------- nothing is forgotten

  /** Links stay, stored blobs stay, and open wants come nearer or end with the blob stored. */
  ghost predicate Grown(ps: seq<Part>, ps': seq<Part>) {
    |ps'| == |ps| && forall i :: 0 <= i < |ps| ==> PartGrown(ps[i], ps'[i])
  }

  predicate PartGrown(a: Part, b: Part) {
    && b.peers == a.peers && b.blocked == a.blocked && (a.stored ==> b.stored)
    && (a.open.Some? ==> b.stored || (b.open.Some? && b.open.value >= a.open.value))
  }

  lemma NearGrows(ps: seq<Part>, ps': seq<Part>)
    requires Grown(ps, ps')
    ensures forall v: nat, d: int :: Near(ps, v, d) ==> Near(ps', v, d)
    ensures forall u: nat, v: nat :: Linked(ps, u, v) <==> Linked(ps', u, v)
  {
    forall v: nat, d: int | Near(ps, v, d) ensures Near(ps', v, d) { assert PartGrown(ps[v], ps'[v]); }
    forall u: nat, v: nat ensures Linked(ps, u, v) <==> Linked(ps', u, v) {
      if u < |ps| { assert PartGrown(ps[u], ps'[u]); }
    }
  }

  lemma CameGrows(ps: seq<Part>, ps': seq<Part>, o: nat, v: nat, u: nat, d: int)
    requires Grown(ps, ps') && CameTo(ps, o, v, u, d)
    ensures CameTo(ps', o, v, u, d)
  {
    NearGrows(ps, ps');
    if d == -3 {
      var x :| Linked(ps, o, x) && Near(ps, x, -2) && Linked(ps, x, v);
      assert Linked(ps', o, x) && Near(ps', x, -2) && Linked(ps', x, v);
    }
    if d == -4 {
      var x, y :| Around(ps, o, u, v, x, y) && Near(ps, x, -2);
      assert Around(ps', o, u, v, x, y) && Near(ps', x, -2);
    }
  }

  lemma PentagonGrows(ps: seq<Part>, ps': seq<Part>, o: nat, u: nat, v: nat)
    requires Grown(ps, ps') && Pentagon(ps, o, u, v)
    ensures Pentagon(ps', o, u, v)
  {
    NearGrows(ps, ps');
    var x, y :| Around(ps, o, u, v, x, y) && x != u;
    assert Around(ps', o, u, v, x, y);
  }

  // ---------------------------------------------------------------- steps that tell no one

  /** Of the wants for the blob, at most `gone` left the wire. */
  ghost predicate StillUnder(wire: seq<Packet>, wire': seq<Packet>, r: Ref, gone: Packet) {
    forall q :: q in wire && q.ref == r && q.dist < 0 && q != gone ==> q in wire'
  }

  ghost predicate Quiet(ps: seq<Part>, wire: seq<Packet>, ps': seq<Part>, wire': seq<Packet>, r: Ref, gone: Packet) {
    && Grown(ps, ps') && StillUnder(wire, wire', r, gone)
    && (forall q :: q in wire' && q.ref == r && q.dist < 0 ==> q in wire)
    && (gone.ref == r && gone.dist < 0 && gone.to < |ps| ==>
          ps[gone.to].blocked || gone.dist <= -5 || Near(ps', gone.to, gone.dist - 1))
    && (forall i :: 0 <= i < |ps| ==> QuietPart(ps[i], ps'[i]))
  }

  predicate QuietPart(a: Part, b: Part) {
    && (b.open.Some? ==> b.open == a.open)
    && (forall v :: v in b.asked ==> v in a.asked && b.asked[v] == a.asked[v])
    && (forall v :: v in a.asked ==> v in b.asked || b.stored)
    && (b.open.Some? ==> b.stored == a.stored)
  }

  lemma QuietTraced(ps: seq<Part>, wire: seq<Packet>, ps': seq<Part>, wire': seq<Packet>, r: Ref, gone: Packet, o: nat)
    requires Traced(ps, wire, r, o) && Quiet(ps, wire, ps', wire', r, gone)
    ensures Traced(ps', wire', r, o)
  {
    forall p | p in wire' && p.ref == r && p.dist < 0 ensures CameTo(ps', o, p.from, p.to, p.dist) {
      CameGrows(ps, ps', o, p.from, p.to, p.dist);
    }
    forall u, v | 0 <= u < |ps'| && v in ps'[u].asked
      ensures CameTo(ps', o, v, u, ps'[u].asked[v]) && ps'[u].asked[v] >= -4
    {
      assert QuietPart(ps[u], ps'[u]);
      CameGrows(ps, ps', o, v, u, ps[u].asked[v]);
    }
    forall u | 0 <= u < |ps'| && ps'[u].open.Some? ensures ps'[u].open == ps[u].open {
      assert QuietPart(ps[u], ps'[u]);
    }
  }

  lemma QuietPassed(ps: seq<Part>, wire: seq<Packet>, ps': seq<Part>, wire': seq<Packet>, r: Ref, gone: Packet)
    requires Passed(ps, wire, r) && Quiet(ps, wire, ps', wire', r, gone) && Unstored(ps)
    requires forall u :: 0 <= u < |ps| && ps[u].open.Some? ==> ps[u].open.value < 0
    ensures Passed(ps', wire', r)
  {
    NearGrows(ps, ps');
    forall u: nat, v: nat
      | Linked(ps', u, v) && v < |ps'| && !ps'[v].blocked && ps'[u].open.Some? && ps'[u].open.value > -5
      ensures Under(wire', r, u, v, ps'[u].open.value) || Near(ps', v, ps'[u].open.value - 1) || v in ps'[u].asked
    {
      assert QuietPart(ps[u], ps'[u]) && PartGrown(ps[v], ps'[v]);
      var d := ps[u].open.value;
      if Under(wire, r, u, v, d) && !Under(wire', r, u, v, d) { assert Packet(u, v, r, d) == gone; }
    }
  }

  /** Wanted blobs are not stored. */
  predicate Unstored(ps: seq<Part>) { forall u :: 0 <= u < |ps| && ps[u].open.Some? ==> !ps[u].stored }

  lemma QuietBegun(ps: seq<Part>, wire: seq<Packet>, ps': seq<Part>, wire': seq<Packet>, r: Ref, gone: Packet, o: nat)
    requires o < |ps| && Begun(ps, wire, r, o) && Quiet(ps, wire, ps', wire', r, gone)
    ensures Begun(ps', wire', r, o)
  {
    NearGrows(ps, ps');
    forall v: nat | Linked(ps', o, v) && v < |ps'| && !ps'[v].blocked && !ps'[o].stored
      ensures Under(wire', r, o, v, -1) || Near(ps', v, -2)
    {
      assert PartGrown(ps[o], ps'[o]) && PartGrown(ps[v], ps'[v]);
      if Under(wire, r, o, v, -1) && !Under(wire', r, o, v, -1) { assert Packet(o, v, r, -1) == gone; }
    }
    forall u: nat, v: nat | Linked(ps', u, v) && v < |ps'| && !ps'[v].blocked && ps'[u].open == Some(-2)
      ensures Under(wire', r, u, v, -2) || Near(ps', v, -3) || Pentagon(ps', o, u, v)
    {
      assert QuietPart(ps[u], ps'[u]) && PartGrown(ps[v], ps'[v]);
      if Pentagon(ps, o, u, v) { PentagonGrows(ps, ps', o, u, v); }
      if Under(wire, r, u, v, -2) && !Under(wire', r, u, v, -2) { assert Packet(u, v, r, -2) == gone; }
    }
  }

  lemma QuietFloods(ps: seq<Part>, wire: seq<Packet>, ps': seq<Part>, wire': seq<Packet>, r: Ref, gone: Packet, o: nat)
    requires Flooding(ps, wire, r, o) && Unstored(ps) && Quiet(ps, wire, ps', wire', r, gone)
    ensures Flooding(ps', wire', r, o)
  {
    QuietTraced(ps, wire, ps', wire', r, gone, o);
    QuietPassed(ps, wire, ps', wire', r, gone);
    QuietBegun(ps, wire, ps', wire', r, gone, o);
  }

  // ---------------------------------------------------------------- a want arrives

  /** What a node that neither stores nor blocks the blob does with a want of distance `d` from `from`. */
  function Asking(a: Part, from: nat, d: int): Part {
    var known := a.(asked := a.asked[from := d]);
    if a.open.Some? && a.open.value > d - 1 then known else known.(open := Some(d - 1))
  }

  ghost predicate Told(ps: seq<Part>, wire: seq<Packet>, ps': seq<Part>, wire': seq<Packet>, r: Ref, p: Packet) {
    && p in wire && p.ref == r && -4 <= p.dist < 0 && p.to < |ps| && !ps[p.to].blocked && !ps[p.to].stored
    && ps' == ps[p.to := Asking(ps[p.to], p.from, p.dist)]
    && StillUnder(wire, wire', r, p)
    && (forall q :: q in wire' && q.ref == r && q.dist < 0 ==> q in wire || Passes(ps, ps', p, q))
    && (Further(ps, p) ==> forall q: nat ::
          q in ps[p.to].peers && q !in ps'[p.to].asked ==> Packet(p.to, q, r, p.dist - 1) in wire')
  }

  /** The want is passed on, unless a nearer one is open. */
  predicate Further(ps: seq<Part>, p: Packet)
    requires p.to < |ps|
  {
    !(ps[p.to].open.Some? && ps[p.to].open.value > p.dist - 1)
  }

  predicate Passes(ps: seq<Part>, ps': seq<Part>, p: Packet, q: Packet)
    requires p.to < |ps| == |ps'|
  {
    Further(ps, p) && q.from == p.to && q.dist == p.dist - 1 && q.to in ps[p.to].peers && q.to !in ps'[p.to].asked
  }

  lemma ToldGrown(ps: seq<Part>, wire: seq<Packet>, ps': seq<Part>, wire': seq<Packet>, r: Ref, p: Packet)
    requires Told(ps, wire, ps', wire', r, p)
    ensures Grown(ps, ps') && Near(ps', p.to, p.dist - 1)
  {}

  /** A want that is passed on came one link further. */
  lemma OneFurther(ps: seq<Part>, ps': seq<Part>, o: nat, from: nat, v: nat, u: nat, d: int)
    requires Grown(ps, ps') && CameTo(ps, o, from, v, d) && d >= -4 && Linked(ps, v, u) && u != from
      && Near(ps', v, d - 1)
    ensures CameTo(ps', o, v, u, d - 1)
  {
    NearGrows(ps, ps');
    if d == -2 {
      assert Linked(ps', o, from) && Near(ps', from, -2) && Linked(ps', from, v);
    }
    if d == -3 {
      var x :| Linked(ps, o, x) && Near(ps, x, -2) && Linked(ps, x, from);
      assert Around(ps', o, u, v, x, from) && Near(ps', x, -2);
    }
  }

  lemma ToldTraced(ps: seq<Part>, wire: seq<Packet>, ps': seq<Part>, wire': seq<Packet>, r: Ref, p: Packet, o: nat)
    requires Traced(ps, wire, r, o) && Told(ps, wire, ps', wire', r, p)
    ensures Traced(ps', wire', r, o)
  {
    ToldGrown(ps, wire, ps', wire', r, p);
    forall q | q in wire' && q.ref == r && q.dist < 0 ensures CameTo(ps', o, q.from, q.to, q.dist) {
      if q in wire {
        CameGrows(ps, ps', o, q.from, q.to, q.dist);
      } else {
        OneFurther(ps, ps', o, p.from, p.to, q.to, p.dist);
      }
    }
    forall u, v | 0 <= u < |ps'| && v in ps'[u].asked
      ensures CameTo(ps', o, v, u, ps'[u].asked[v]) && ps'[u].asked[v] >= -4
    {
      if u == p.to && v == p.from {
        CameGrows(ps, ps', o, p.from, p.to, p.dist);
      } else {
        CameGrows(ps, ps', o, v, u, ps[u].asked[v]);
      }
    }
  }

  lemma ToldPassed(ps: seq<Part>, wire: seq<Packet>, ps': seq<Part>, wire': seq<Packet>, r: Ref, p: Packet)
    requires Passed(ps, wire, r) && Told(ps, wire, ps', wire', r, p)
    requires forall u :: 0 <= u < |ps| && ps[u].open.Some? ==> ps[u].open.value < 0
    ensures Passed(ps', wire', r)
  {
    ToldGrown(ps, wire, ps', wire', r, p);
    NearGrows(ps, ps');
    forall u: nat, v: nat
      | Linked(ps', u, v) && v < |ps'| && !ps'[v].blocked && ps'[u].open.Some? && ps'[u].open.value > -5
      ensures Under(wire', r, u, v, ps'[u].open.value) || Near(ps', v, ps'[u].open.value - 1) || v in ps'[u].asked
    {
      if u != p.to || !Further(ps, p) {
        var d := ps[u].open.value;
        assert ps'[u].open == ps[u].open;
        if Under(wire, r, u, v, d) && !Under(wire', r, u, v, d) { assert Packet(u, v, r, d) == p; }
      }
    }
  }

  lemma ToldBegun(ps: seq<Part>, wire: seq<Packet>, ps': seq<Part>, wire': seq<Packet>, r: Ref, p: Packet, o: nat)
    requires o < |ps| && Traced(ps, wire, r, o) && Begun(ps, wire, r, o) && Told(ps, wire, ps', wire', r, p)
    ensures Begun(ps', wire', r, o)
  {
    ToldGrown(ps, wire, ps', wire', r, p);
    NearGrows(ps, ps');
    forall v: nat | Linked(ps', o, v) && v < |ps'| && !ps'[v].blocked && !ps'[o].stored
      ensures Under(wire', r, o, v, -1) || Near(ps', v, -2)
    {
      if Under(wire, r, o, v, -1) && !Under(wire', r, o, v, -1) { assert Packet(o, v, r, -1) == p; }
    }
    forall u: nat, v: nat | Linked(ps', u, v) && v < |ps'| && !ps'[v].blocked && ps'[u].open == Some(-2)
      ensures Under(wire', r, u, v, -2) || Near(ps', v, -3) || Pentagon(ps', o, u, v)
    {
      if ps[u].open == Some(-2) {
        if Pentagon(ps, o, u, v) { PentagonGrows(ps, ps', o, u, v); }
        if Under(wire, r, u, v, -2) && !Under(wire', r, u, v, -2) { assert Packet(u, v, r, -2) == p; }
      } else {
        FirstPassed(ps, wire, ps', wire', r, p, o, v);
      }
    }
  }

  /** A peer of the origin that learns of its want passes it on, but to those that came to know it another way. */
  lemma FirstPassed(ps: seq<Part>, wire: seq<Packet>, ps': seq<Part>, wire': seq<Packet>, r: Ref, p: Packet, o: nat,
                    v: nat)
    requires Traced(ps, wire, r, o) && Begun(ps, wire, r, o) && Told(ps, wire, ps', wire', r, p)
    requires p.dist == -1 && Further(ps, p) && ps[p.to].open != Some(-2) && Linked(ps, p.to, v)
    ensures Under(wire', r, p.to, v, -2) || Near(ps', v, -3) || Pentagon(ps', o, p.to, v)
  {
    ToldGrown(ps, wire, ps', wire', r, p);
    NearGrows(ps, ps');
    if v in ps'[p.to].asked {
      if v == p.from {
        assert CameTo(ps, o, p.from, p.to, -1);
        assert Near(ps', v, -3);
      } else {
        AskedEarlier(ps, o, p.to, v, ps[p.to].asked[v]);
        if Pentagon(ps, o, p.to, v) { PentagonGrows(ps, ps', o, p.to, v); }
      }
    }
  }

  lemma AskedEarlier(ps: seq<Part>, o: nat, u: nat, v: nat, e: int)
    requires CameTo(ps, o, v, u, e) && e >= -4 && !Near(ps, u, -2)
    ensures Near(ps, v, -3) || Pentagon(ps, o, u, v)
  {
    if e == -4 {
      var x, y :| Around(ps, o, u, v, x, y) && Near(ps, x, -2);
      assert x != u;
    }
  }

  lemma ToldFloods(ps: seq<Part>, wire: seq<Packet>, ps': seq<Part>, wire': seq<Packet>, r: Ref, p: Packet, o: nat)
    requires Flooding(ps, wire, r, o) && Told(ps, wire, ps', wire', r, p)
    ensures Flooding(ps', wire', r, o)
  {
    ToldTraced(ps, wire, ps', wire', r, p, o);
    ToldPassed(ps, wire, ps', wire', r, p);
    ToldBegun(ps, wire, ps', wire', r, p, o);
  }

  // ---------------------------------------------------------------- the network's steps

  /** No parcel is a want for the blob. */
  ghost predicate NoWants(ps: seq<Parcel>, r: Ref) { forall x :: x in ps ==> x.ref != r || x.dist >= 0 }

  lemma SentPackets(i: nat, ps: seq<Parcel>, q: Packet)
    ensures q in Send(i, ps) <==> q.from == i && Parcel(q.to, q.ref, q.dist) in ps
  {
    if q.from == i && Parcel(q.to, q.ref, q.dist) in ps {
      var j :| 0 <= j < |ps| && ps[j] == Parcel(q.to, q.ref, q.dist);
      assert Send(i, ps)[j] == q;
    }
  }

  lemma WithoutOne(wire: seq<Packet>, k: nat, q: Packet)
    requires k < |wire|
    ensures q in Without(wire, k) ==> q in wire
    ensures q in wire && q != wire[k] ==> q in Without(wire, k)
  {
    assert wire == wire[..k] + [wire[k]] + wire[k + 1..];
  }

  /** A node acts; for the blob it forgets nothing and sends no want. */
  lemma ActedQuiet(n: Network, i: nat, act: (Manager, seq<Parcel>), wire: seq<Packet>, r: Ref, gone: Packet)
    requires i < |n.nodes| && NoWants(act.1, r)
    requires PartGrown(PartOf(n.nodes[i], r), PartOf(act.0, r)) && QuietPart(PartOf(n.nodes[i], r), PartOf(act.0, r))
    requires StillUnder(n.wire, wire, r, gone) && forall q :: q in wire ==> q in n.wire
    requires gone.ref == r && gone.dist < 0 && gone.to < |n.nodes| ==>
      || r in n.nodes[gone.to].blocked || gone.dist <= -5
      || Near(View(Acted(n, i, act, wire), r), gone.to, gone.dist - 1)
    ensures Quiet(View(n, r), n.wire, View(Acted(n, i, act, wire), r), Acted(n, i, act, wire).wire, r, gone)
  {
    var n' := Acted(n, i, act, wire);
    forall q | q in n'.wire && q.ref == r && q.dist < 0 ensures q in n.wire { SentPackets(i, act.1, q); }
  }

  lemma SameParts(a: Part)
    ensures PartGrown(a, a) && QuietPart(a, a)
  {}

  /** Whatever happens to another blob leaves this one alone. */
  lemma OtherBlob(m: Manager, r: Ref, q: Ref, from: nat, d: int, size: int, got: bool)
    requires q != r
    ensures PartOf(WantedAt(m, q, d).0, r) == PartOf(m, r) && NoWants(WantedAt(m, q, d).1, r)
    ensures PartOf(Put(m, q, size).0, r) == PartOf(m, r) && NoWants(Put(m, q, size).1, r)
    ensures PartOf(Remove(m, q).0, r) == PartOf(m, r) && NoWants(Remove(m, q).1, r)
  {
    PeersAbout(m, m.peers, q, d);
    PeersAbout(m, m.peers, q, size);
    PeersAbout(m, m.peers, q, 0);
  }

  lemma OtherAsked(m: Manager, r: Ref, q: Ref, from: nat, d: int)
    requires q != r
    ensures PartOf(Asked(m, from, q, d).0, r) == PartOf(m, r) && NoWants(Asked(m, from, q, d).1, r)
  {
    OtherRemote(m, r, from, RemoteWants(m, from)[q := d]);
    OtherRemote(m, r, from, RemoteWants(m, from) - {q});
    OtherBlob(m.(remote := m.remote[from := RemoteWants(m, from)[q := d]]), r, q, from, d - 1, d, true);
  }

  lemma OtherRemote(m: Manager, r: Ref, from: nat, wants: map<Ref, int>)
    requires r in wants <==> r in RemoteWants(m, from)
    requires r in wants ==> wants[r] == RemoteWants(m, from)[r]
    ensures PartOf(m.(remote := m.remote[from := wants]), r) == PartOf(m, r)
  {
    assert PartOf(m.(remote := m.remote[from := wants]), r).asked == PartOf(m, r).asked;
  }

  lemma OtherOffered(m: Manager, r: Ref, q: Ref, size: int, got: bool)
    requires q != r
    ensures PartOf(Offered(m, q, size, got).0, r) == PartOf(m, r) && NoWants(Offered(m, q, size, got).1, r)
  {
    OtherBlob(m, r, q, 0, size, size, got);
  }

  lemma OtherPoured(m: Manager, r: Ref, q: Ref, from: nat, d: int, got: bool)
    requires q != r
    ensures PartOf(Poured(m, from, q, d, got).0, r) == PartOf(m, r) && NoWants(Poured(m, from, q, d, got).1, r)
  {
    OtherAsked(m, r, q, from, d);
    OtherOffered(m, r, q, d, got);
  }

  /** Nothing else happens to the blob: no one gives it up or removes it, no packet about it is lost, fetching works. */
  ghost predicate Undisturbed(n: Network, e: WantEvent, r: Ref)
    requires WantEnabled(n, e)
  {
    match e
    case LocalWant(_, q) => q != r
    case LocalPut(_, q, _) => q != r
    case Removed(_, q) => q != r
    case Gave(_, q) => q != r
    case Delivered(k, got) =>
      var p := n.wire[k];
      p.ref == r && p.dist >= 0 && r in n.nodes[p.to].wants ==> got && p.dist <= n.nodes[p.to].maxSize
    case Lost(k) => n.wire[k].ref != r
    case Linked(_, _) => false
    case Unlinked(_, _) => false
    case Injected(p) => p.ref != r
  }

  ghost predicate AllSizes(n: Network) { forall i :: 0 <= i < |n.nodes| ==> SizesOf(n.nodes[i]) }

  /** A packet about the blob arrives at a node that only takes note of it, answers it, or fetches what is offered. */
  lemma PouredQuietly(m: Manager, from: nat, r: Ref, d: int, got: bool)
    requires Sane(m) && SizesOf(m)
    requires r in m.blocked || d < -4 || d >= 0 || r in m.stored
    requires d >= 0 && r in m.wants ==> got && d <= m.maxSize
    ensures var act := Poured(m, from, r, d, got);
      && NoWants(act.1, r)
      && PartGrown(PartOf(m, r), PartOf(act.0, r)) && QuietPart(PartOf(m, r), PartOf(act.0, r))
  {
    if d >= 0 {
      OfferedQuietly(m, r, d, got);
    } else if d >= -4 {
      assert PartOf(m.(remote := m.remote[from := RemoteWants(m, from) - {r}]), r).asked == PartOf(m, r).asked - {from};
    }
  }

  lemma OfferedQuietly(m: Manager, r: Ref, size: int, got: bool)
    requires size >= 0 && (r in m.wants ==> got && size <= m.maxSize)
    ensures var act := Offered(m, r, size, got);
      && NoWants(act.1, r)
      && PartGrown(PartOf(m, r), PartOf(act.0, r)) && QuietPart(PartOf(m, r), PartOf(act.0, r))
  {
    forall x | x in Notices(m, m.peers, r, size) ensures x.dist >= 0 { NoticesExact(m, m.peers, r, size, x); }
  }

  lemma AskedRemote(m: Manager, r: Ref, from: nat, d: int)
    ensures PartOf(m.(remote := m.remote[from := RemoteWants(m, from)[r := d]]), r)
      == PartOf(m, r).(asked := PartOf(m, r).asked[from := d])
  {
    var m1 := m.(remote := m.remote[from := RemoteWants(m, from)[r := d]]);
    assert PartOf(m1, r).asked == PartOf(m, r).asked[from := d];
  }

  /** A want arrives at a node that neither stores nor blocks the blob. */
  lemma PouredTold(m: Manager, from: nat, r: Ref, d: int, got: bool)
    requires r !in m.blocked && r !in m.stored && -4 <= d < 0
    ensures var act, a := Poured(m, from, r, d, got), PartOf(m, r);
      && PartOf(act.0, r) == Asking(a, from, d)
      && (if a.open.Some? && a.open.value > d - 1 then act.1 == []
          else forall x ::
            x in act.1 <==> x.ref == r && x.dist == d - 1 && x.peer in m.peers && x.peer !in PartOf(act.0, r).asked)
  {
    var m1 := m.(remote := m.remote[from := RemoteWants(m, from)[r := d]]);
    AskedRemote(m, r, from, d);
    forall x ensures x in Broadcast(m1, m1.peers, r, d - 1) <==>
      x.ref == r && x.dist == d - 1 && x.peer in m.peers && x.peer !in PartOf(m1, r).asked
    {
      BroadcastExact(m1, m1.peers, r, d - 1, x);
    }
  }

  /** No packet about the blob leaves the wire. */
  const NoPacket: Packet := Packet(0, 0, "", 0)

  lemma DeliveredQuietly(n: Network, k: nat, got: bool, r: Ref)
    requires WantEnabled(n, Delivered(k, got)) && Undisturbed(n, Delivered(k, got), r) && AllSane(n) && AllSizes(n)
    requires var p := n.wire[k]; var m := n.nodes[p.to];
      p.ref != r || r in m.blocked || p.dist < -4 || p.dist >= 0 || r in m.stored
    ensures var n' := WantStep(n, Delivered(k, got)); Quiet(View(n, r), n.wire, View(n', r), n'.wire, r, n.wire[k])
  {
    var p := n.wire[k];
    var m := n.nodes[p.to];
    forall q ensures (q in Without(n.wire, k) ==> q in n.wire) && (q in n.wire && q != p ==> q in Without(n.wire, k)) {
      WithoutOne(n.wire, k, q);
    }
    if p.ref == r {
      PouredQuietly(m, p.from, r, p.dist, got);
    } else {
      OtherPoured(m, r, p.ref, p.from, p.dist, got);
      SameParts(PartOf(m, r));
    }
    ActedQuiet(n, p.to, Poured(m, p.from, p.ref, p.dist, got), Without(n.wire, k), r, p);
  }

  lemma DeliveredTold(n: Network, k: nat, got: bool, r: Ref)
    requires WantEnabled(n, Delivered(k, got))
    requires var p := n.wire[k]; var m := n.nodes[p.to];
      p.ref == r && r !in m.blocked && -4 <= p.dist < 0 && r !in m.stored
    ensures var n' := WantStep(n, Delivered(k, got)); Told(View(n, r), n.wire, View(n', r), n'.wire, r, n.wire[k])
  {
    var p := n.wire[k];
    var m, n' := n.nodes[p.to], WantStep(n, Delivered(k, got));
    var act := Poured(m, p.from, r, p.dist, got);
    PouredTold(m, p.from, r, p.dist, got);
    assert View(n', r) == View(n, r)[p.to := PartOf(act.0, r)];
    forall q ensures (q in Without(n.wire, k) ==> q in n.wire) && (q in n.wire && q != p ==> q in Without(n.wire, k))
      && (q in Send(p.to, act.1) <==> q.from == p.to && Parcel(q.to, q.ref, q.dist) in act.1)
    {
      WithoutOne(n.wire, k, q);
      SentPackets(p.to, act.1, q);
    }
  }

  lemma OtherStepQuiet(n: Network, e: WantEvent, r: Ref)
    requires WantEnabled(n, e) && Undisturbed(n, e, r) && !e.Delivered?
    ensures var gone := if e.Lost? then n.wire[e.k] else NoPacket;
      Quiet(View(n, r), n.wire, View(WantStep(n, e), r), WantStep(n, e).wire, r, gone)
  {
    match e
    case LocalWant(i, q) =>
      OtherBlob(n.nodes[i], r, q, 0, -1, 0, true);
      ActedQuiet(n, i, WantedAt(n.nodes[i], q, -1), n.wire, r, NoPacket);
    case LocalPut(i, q, size) =>
      OtherBlob(n.nodes[i], r, q, 0, -1, size, true);
      ActedQuiet(n, i, Put(n.nodes[i], q, size), n.wire, r, NoPacket);
    case Removed(i, q) =>
      OtherBlob(n.nodes[i], r, q, 0, -1, 0, true);
      ActedQuiet(n, i, Remove(n.nodes[i], q), n.wire, r, NoPacket);
    case Gave(i, q) =>
      var m := n.nodes[i].(wants := n.nodes[i].wants - {q});
      assert PartOf(m, r) == PartOf(n.nodes[i], r);
      assert View(WantStep(n, e), r) == View(n, r);
    case Lost(k) =>
      forall q
        ensures (q in Without(n.wire, k) ==> q in n.wire)
        ensures q in n.wire && q != n.wire[k] ==> q in Without(n.wire, k)
      {
        WithoutOne(n.wire, k, q);
      }
      assert View(WantStep(n, e), r) == View(n, r);
    case Injected(p) => assert View(WantStep(n, e), r) == View(n, r);
  }

  lemma StepFloods(n: Network, e: WantEvent, r: Ref, o: nat)
    requires WantEnabled(n, e) && Undisturbed(n, e, r) && AllSane(n) && AllSizes(n)
    requires Flooding(View(n, r), n.wire, r, o)
    ensures Flooding(View(WantStep(n, e), r), WantStep(n, e).wire, r, o) && Grown(View(n, r), View(WantStep(n, e), r))
  {
    var ps, n' := View(n, r), WantStep(n, e);
    assert Unstored(ps);
    if e.Delivered? {
      var p := n.wire[e.k];
      var m := n.nodes[p.to];
      if p.ref == r && r !in m.blocked && -4 <= p.dist < 0 && r !in m.stored {
        DeliveredTold(n, e.k, e.got, r);
        ToldGrown(ps, n.wire, View(n', r), n'.wire, r, p);
        ToldFloods(ps, n.wire, View(n', r), n'.wire, r, p, o);
      } else {
        DeliveredQuietly(n, e.k, e.got, r);
        QuietFloods(ps, n.wire, View(n', r), n'.wire, r, p, o);
      }
    } else {
      OtherStepQuiet(n, e, r);
      QuietFloods(ps, n.wire, View(n', r), n'.wire, r, if e.Lost? then n.wire[e.k] else NoPacket, o);
    }
  }

  lemma StepSizes(n: Network, e: WantEvent)
    requires WantEnabled(n, e) && AllSizes(n)
    ensures AllSizes(WantStep(n, e))
  {
    if e.Delivered? {
      var p := n.wire[e.k];
      PouredSizes(n.nodes[p.to], p.from, p.ref, p.dist, e.got);
    }
  }

  // ---------------------------------------------------------------- how far a want gets

  /** Nobody wants the blob or was asked for it, and nothing about it is under way; some nodes may store it. */
  ghost predicate Unasked(n: Network, r: Ref) {
    && (forall i :: 0 <= i < |n.nodes| ==> r !in n.nodes[i].wants)
    && (forall i, p :: 0 <= i < |n.nodes| && p in n.nodes[i].remote ==> r !in n.nodes[i].remote[p])
    && Drained(n, r)
  }

  ghost predicate Drained(n: Network, r: Ref) { forall p :: p in n.wire ==> p.ref != r }

  lemma FloodBegins(n: Network, o: nat, r: Ref)
    requires o < |n.nodes| && Unasked(n, r) && r !in n.nodes[o].stored && r !in n.nodes[o].blocked
    ensures var n' := WantStep(n, LocalWant(o, r));
      Flooding(View(n', r), n'.wire, r, o) && Grown(View(n, r), View(n', r))
  {
    var m, n' := n.nodes[o], WantStep(n, LocalWant(o, r));
    var sent := Broadcast(m, m.peers, r, -1);
    forall q ensures q in Send(o, sent) <==> q.from == o && q.ref == r && q.dist == -1 && q.to in m.peers {
      SentPackets(o, sent, q);
      BroadcastExact(m, m.peers, r, -1, Parcel(q.to, q.ref, q.dist));
    }
    var ps, ps' := View(n, r), View(n', r);
    assert forall i :: 0 <= i < |ps| ==> ps[i].asked == map[] && ps[i].open == None;
    assert ps' == ps[o := ps[o].(open := Some(-1))];
    FirstWant(ps', n'.wire, r, o);
  }

  /** Only the origin wants the blob, and its peers are being told. */
  lemma FirstWant(ps: seq<Part>, wire: seq<Packet>, r: Ref, o: nat)
    requires o < |ps| && ps[o].open == Some(-1)
    requires forall i :: 0 <= i < |ps| ==> ps[i].asked == map[] && (i != o ==> ps[i].open == None)
    requires forall q :: q in wire && q.ref == r ==> q.from == o && q.dist == -1 && q.to in ps[o].peers
    requires forall v: nat :: v in ps[o].peers ==> Packet(o, v, r, -1) in wire
    ensures Flooding(ps, wire, r, o)
  {}

  ghost predicate UndisturbedRun(n: Network, es: seq<WantEvent>, r: Ref)
    decreases |es|
  {
    es == [] || (WantEnabled(n, es[0]) && Undisturbed(n, es[0], r) && UndisturbedRun(WantStep(n, es[0]), es[1..], r))
  }

  lemma GrownTransitive(a: seq<Part>, b: seq<Part>, c: seq<Part>)
    requires Grown(a, b) && Grown(b, c)
    ensures Grown(a, c)
  {
    forall i | 0 <= i < |a| ensures PartGrown(a[i], c[i]) { assert PartGrown(a[i], b[i]) && PartGrown(b[i], c[i]); }
  }

  lemma {:induction false} RunFloods(n: Network, es: seq<WantEvent>, r: Ref, o: nat)
    requires UndisturbedRun(n, es, r) && AllSane(n) && AllSizes(n) && Flooding(View(n, r), n.wire, r, o)
    ensures WantRun(n, es)
    ensures var end := AfterWants(n, es); Flooding(View(end, r), end.wire, r, o) && Grown(View(n, r), View(end, r))
    decreases |es|
  {
    if es != [] {
      var n' := WantStep(n, es[0]);
      StepFloods(n, es[0], r, o);
      WantStepKeeps(n, es[0]);
      StepSizes(n, es[0]);
      RunFloods(n', es[1..], r, o);
      GrownTransitive(View(n, r), View(n', r), View(AfterWants(n', es[1..]), r));
    } else {
      forall i | 0 <= i < |n.nodes| ensures PartGrown(View(n, r)[i], View(n, r)[i]) { SameParts(View(n, r)[i]); }
    }
  }

  /** A way along links through nodes that do not block the blob. */
  ghost predicate Way(ps: seq<Part>, path: seq<nat>) {
    && (forall i :: 0 <= i < |path| ==> path[i] < |ps| && !ps[path[i]].blocked)
    && (forall i :: 0 < i < |path| ==> Linked(ps, path[i - 1], path[i]))
  }

  /** Once nothing is under way, a want at distance `d` is one link further at distance `d - 1`, or at most 4. */
  lemma NextOnWay(ps: seq<Part>, wire: seq<Packet>, r: Ref, o: nat, u: nat, v: nat, d: int)
    requires Flooding(ps, wire, r, o) && (forall p :: p in wire ==> p.ref != r)
    requires Linked(ps, u, v) && v < |ps| && !ps[v].blocked && !ps[u].stored && Near(ps, u, d) && d >= -4
    ensures Near(ps, v, if d == -4 then -5 else -4)
  {
    var e := ps[u].open.value;
    if v in ps[u].asked {
      assert CameTo(ps, o, v, u, ps[u].asked[v]) && Near(ps, v, ps[u].asked[v]);
    } else {
      assert Near(ps, v, e - 1);
    }
  }

  lemma FirstOnWay(ps: seq<Part>, wire: seq<Packet>, r: Ref, o: nat, v: nat)
    requires Flooding(ps, wire, r, o) && (forall p :: p in wire ==> p.ref != r)
    requires Linked(ps, o, v) && v < |ps| && !ps[v].blocked && !ps[o].stored
    ensures Near(ps, v, -2)
  {}

  lemma SecondOnWay(ps: seq<Part>, wire: seq<Packet>, r: Ref, o: nat, u: nat, v: nat)
    requires Flooding(ps, wire, r, o) && (forall p :: p in wire ==> p.ref != r)
    requires Linked(ps, u, v) && v < |ps| && !ps[v].blocked && !ps[u].stored && Near(ps, u, -2)
      && !Pentagon(ps, o, u, v)
    ensures Near(ps, v, -3)
  {
    if ps[u].open == Some(-1) {
      assert u == o;
      FirstOnWay(ps, wire, r, o, v);
    }
  }

  lemma ReachedOnWay(ps: seq<Part>, wire: seq<Packet>, r: Ref, o: nat, path: seq<nat>)
    requires Flooding(ps, wire, r, o) && (forall p :: p in wire ==> p.ref != r)
    requires 1 <= |path| <= 5 && path[0] == o && Way(ps, path)
    requires forall i :: 0 <= i < |path| - 1 ==> !ps[path[i]].stored
    requires |path| == 5 ==> !Pentagon(ps, o, path[1], path[2])
    ensures Near(ps, path[|path| - 1], -5)
  {
    if |path| > 1 {
      FirstOnWay(ps, wire, r, o, path[1]);
      if |path| > 2 {
        NextOnWay(ps, wire, r, o, path[1], path[2], -2);
        if |path| == 4 { NextOnWay(ps, wire, r, o, path[2], path[3], -4); }
        if |path| == 5 {
          SecondOnWay(ps, wire, r, o, path[1], path[2]);
          NextOnWay(ps, wire, r, o, path[2], path[3], -3);
          NextOnWay(ps, wire, r, o, path[3], path[4], -4);
        }
      }
    }
  }

  /**
   A want for a blob nobody asked for before: once all packets about it are delivered, in whatever order and whatever
   else goes on, it is open or the blob stored at every node up to three links away along nodes that neither block nor
   store it; and four links away, unless the second node on the way can also be reached in three links around the first.
   */
  lemma WantReaches(n: Network, o: nat, r: Ref, es: seq<WantEvent>, path: seq<nat>)
    requires AllSane(n) && AllSizes(n) && Unasked(n, r)
    requires o < |n.nodes| && r !in n.nodes[o].stored && r !in n.nodes[o].blocked
    requires UndisturbedRun(WantStep(n, LocalWant(o, r)), es, r)
    requires 1 <= |path| <= 5 && path[0] == o && Way(View(n, r), path)
    requires |path| == 5 ==> !Pentagon(View(n, r), o, path[1], path[2])
    ensures WantRun(n, [LocalWant(o, r)] + es)
    ensures var end := AfterWants(n, [LocalWant(o, r)] + es); var v := path[|path| - 1];
      && |end.nodes| == |n.nodes|
      && (Drained(end, r) && (forall i :: 0 <= i < |path| - 1 ==> r !in end.nodes[path[i]].stored) ==>
            r in end.nodes[v].wants || r in end.nodes[v].stored)
  {
    var end := AfterWant(n, o, r, es);
    var ps, ps' := View(n, r), View(end, r);
    SameWay(ps, ps', o, path);
    if Drained(end, r) && forall i :: 0 <= i < |path| - 1 ==> r !in end.nodes[path[i]].stored {
      ReachedOnWay(ps', end.wire, r, o, path);
    }
  }

  lemma AfterWant(n: Network, o: nat, r: Ref, es: seq<WantEvent>) returns (end: Network)
    requires AllSane(n) && AllSizes(n) && Unasked(n, r)
    requires o < |n.nodes| && r !in n.nodes[o].stored && r !in n.nodes[o].blocked
    requires UndisturbedRun(WantStep(n, LocalWant(o, r)), es, r)
    ensures WantRun(n, [LocalWant(o, r)] + es) && end == AfterWants(n, [LocalWant(o, r)] + es)
    ensures Flooding(View(end, r), end.wire, r, o) && Grown(View(n, r), View(end, r))
  {
    var n1, run := WantStep(n, LocalWant(o, r)), [LocalWant(o, r)] + es;
    assert run[0] == LocalWant(o, r) && run[1..] == es;
    FloodBegins(n, o, r);
    WantStepKeeps(n, LocalWant(o, r));
    StepSizes(n, LocalWant(o, r));
    RunFloods(n1, es, r, o);
    end := AfterWants(n1, es);
    GrownTransitive(View(n, r), View(n1, r), View(end, r));
  }

  /** Ways and detours do not change. */
  lemma SameWay(ps: seq<Part>, ps': seq<Part>, o: nat, path: seq<nat>)
    requires Grown(ps, ps') && Way(ps, path)
    ensures Way(ps', path)
    ensures |path| == 5 && !Pentagon(ps, o, path[1], path[2]) ==> !Pentagon(ps', o, path[1], path[2])
  {
    NearGrows(ps, ps');
    forall i | 0 <= i < |path| ensures !ps'[path[i]].blocked { assert PartGrown(ps[path[i]], ps'[path[i]]); }
    if |path| == 5 && Pentagon(ps', o, path[1], path[2]) {
      var x, y :| Around(ps', o, path[1], path[2], x, y) && x != path[1];
      assert Around(ps, o, path[1], path[2], x, y);
    }
  }
}
