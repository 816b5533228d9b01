/**
 Blob wants: every node remembers which blobs it wants and how far away the
 asker is, and floods wants to its peers until they are too far off.
 */
module BlobWants {
  type Ref = string

  /**
   One node: the sizes of the blobs it stores, its wants with their distances, the refs it gave up on, the peers it is
   connected to, and for each peer the wants that peer sent.
   */
  datatype Manager = Manager(
    stored: map<Ref, int>,
    wants: map<Ref, int>,
    blocked: set<Ref>,
    peers: seq<nat>,
    remote: map<nat, map<Ref, int>>,
    maxSize: int)

  /** A want (negative distance) or an offer (the size) for a peer. */
  datatype Parcel = Parcel(peer: nat, ref: Ref, dist: int)

  function RemoteWants(m: Manager, p: nat): map<Ref, int> { if p in m.remote then m.remote[p] else map[] }

  // ---------------------------------------------------------------- one node

  /** Peers that asked for the same blob are not asked. */
  function Broadcast(m: Manager, peers: seq<nat>, r: Ref, d: int): seq<Parcel> {
    if peers == [] then []
    else
      var n := |peers| - 1;
      Broadcast(m, peers[..n], r, d)
      + if d < 0 && r in RemoteWants(m, peers[n]) then [] else [Parcel(peers[n], r, d)]
  }

  /** A want at some distance; a closer one that is open stays. */
  function WantedAt(m: Manager, r: Ref, d: int): (Manager, seq<Parcel>) {
    if r in m.stored || r in m.blocked || (r in m.wants && m.wants[r] > d) then (m, [])
    else (m.(wants := m.wants[r := d]), Broadcast(m, m.peers, r, d))
  }

  /** Peers that asked for the blob are told its size. */
  function Notices(m: Manager, peers: seq<nat>, r: Ref, size: int): seq<Parcel> {
    if peers == [] then []
    else
      var n := |peers| - 1;
      Notices(m, peers[..n], r, size)
      + if r in RemoteWants(m, peers[n]) then [Parcel(peers[n], r, size)] else []
  }

  function Put(m: Manager, r: Ref, size: int): (Manager, seq<Parcel>) {
    (m.(stored := m.stored[r := size], wants := m.wants - {r}), Notices(m, m.peers, r, size))
  }

  /** A blob is removed from the store; peers that asked for it are told a size of zero. */
  function Remove(m: Manager, r: Ref): (Manager, seq<Parcel>) {
    if r !in m.stored then (m, []) else (m.(stored := m.stored - {r}), Notices(m, m.peers, r, 0))
  }

  /** A want from a peer. */
  function Asked(m: Manager, from: nat, r: Ref, d: int): (Manager, seq<Parcel>) {
    if d < -4 then (m, [])
    else if r in m.stored then
      (m.(remote := m.remote[from := RemoteWants(m, from) - {r}]), [Parcel(from, r, m.stored[r])])
    else WantedAt(m.(remote := m.remote[from := RemoteWants(m, from)[r := d]]), r, d - 1)
  }

  /** An offer from a peer; `got` says whether fetching the blob from some peer worked. */
  function Offered(m: Manager, r: Ref, size: int, got: bool): (Manager, seq<Parcel>) {
    if r !in m.wants then (m, [])
    else if size > m.maxSize || !got then (m.(wants := m.wants - {r}), [])
    else Put(m, r, size)
  }

  function Poured(m: Manager, from: nat, r: Ref, d: int, got: bool): (Manager, seq<Parcel>) {
    if r in m.blocked then (m, []) else if d < 0 then Asked(m, from, r, d) else Offered(m, r, d, got)
  }

  // ---------------------------------------------------------------- what every step of a node keeps

  ghost predicate Sane(m: Manager) {
    && (forall r :: r in m.wants ==> -5 <= m.wants[r] <= -1 && r !in m.stored)
    && (forall p, r :: p in m.remote && r in m.remote[p] ==> -4 <= m.remote[p][r] <= -1)
  }

  /** While a want stays open it never moves further away. */
  ghost predicate NoFurther(m: Manager, m': Manager) {
    forall r :: r in m.wants && r in m'.wants ==> m'.wants[r] >= m.wants[r]
  }

  lemma WantedAtKeeps(m: Manager, r: Ref, d: int)
    requires Sane(m) && -5 <= d <= -1
    ensures Sane(WantedAt(m, r, d).0) && NoFurther(m, WantedAt(m, r, d).0)
  {}

  lemma PutKeeps(m: Manager, r: Ref, size: int)
    requires Sane(m)
    ensures Sane(Put(m, r, size).0) && NoFurther(m, Put(m, r, size).0)
  {}

  /** Whatever a peer sends. */
  lemma PouredKeeps(m: Manager, from: nat, r: Ref, d: int, got: bool)
    requires Sane(m)
    ensures Sane(Poured(m, from, r, d, got).0) && NoFurther(m, Poured(m, from, r, d, got).0)
  {
    if r !in m.blocked && -4 <= d < 0 && r !in m.stored {
      var m1 := m.(remote := m.remote[from := RemoteWants(m, from)[r := d]]);
      assert Sane(m1);
      WantedAtKeeps(m1, r, d - 1);
    }
  }

  // ---------------------------------------------------------------- the network

  /** A parcel under way. */
  datatype Packet = Packet(from: nat, to: nat, ref: Ref, dist: int)

  datatype Network = Network(nodes: seq<Manager>, wire: seq<Packet>)

  function Send(from: nat, ps: seq<Parcel>): seq<Packet> {
    seq(|ps|, i requires 0 <= i < |ps| => Packet(from, ps[i].peer, ps[i].ref, ps[i].dist))
  }

  datatype WantEvent =
    | LocalWant(i: nat, r: Ref)
    | LocalPut(i: nat, r: Ref, size: int)
    | Removed(i: nat, r: Ref)
    | Gave(i: nat, r: Ref)                 // a want is given up
    | Delivered(k: nat, got: bool)         // the k-th packet under way arrives
    | Lost(k: nat)
    | Linked(i: nat, peer: nat)            // a new connection; the wants sent at its start count as injected
    | Unlinked(i: nat, peer: nat)          // a connection ends
    | Injected(p: Packet)                  // from outside the network

  predicate WantEnabled(n: Network, e: WantEvent) {
    match e
    case LocalWant(i, r) => i < |n.nodes|
    case LocalPut(i, r, size) => i < |n.nodes| && size >= 0
    case Removed(i, r) => i < |n.nodes|
    case Gave(i, r) => i < |n.nodes|
    case Delivered(k, got) => k < |n.wire| && n.wire[k].to < |n.nodes|
    case Lost(k) => k < |n.wire|
    case Linked(i, p) => i < |n.nodes|
    case Unlinked(i, p) => i < |n.nodes|
    case Injected(p) => true
  }

  function Without(wire: seq<Packet>, k: nat): seq<Packet>
    requires k < |wire|
  {
    wire[..k] + wire[k + 1..]
  }

  function Others(peers: seq<nat>, p: nat): (r: seq<nat>)
    ensures |r| <= |peers| && p !in r && forall q :: q != p ==> (q in r <==> q in peers)
  {
    if peers == [] then [] else (if peers[0] == p then [] else [peers[0]]) + Others(peers[1..], p)
  }

  /** A peer that went away is neither asked nor told anything, and what it wanted is forgotten. */
  function Forgotten(m: Manager, p: nat): Manager { m.(peers := Others(m.peers, p), remote := m.remote - {p}) }

  function Acted(n: Network, i: nat, r: (Manager, seq<Parcel>), wire: seq<Packet>): Network
    requires i < |n.nodes|
  {
    Network(n.nodes[i := r.0], wire + Send(i, r.1))
  }

  function WantStep(n: Network, e: WantEvent): Network
    requires WantEnabled(n, e)
  {
    match e
    case LocalWant(i, r) => Acted(n, i, WantedAt(n.nodes[i], r, -1), n.wire)
    case LocalPut(i, r, size) => Acted(n, i, Put(n.nodes[i], r, size), n.wire)
    case Removed(i, r) => Acted(n, i, Remove(n.nodes[i], r), n.wire)
    case Gave(i, r) => n.(nodes := n.nodes[i := n.nodes[i].(wants := n.nodes[i].wants - {r})])
    case Delivered(k, got) =>
      var p := n.wire[k];
      Acted(n, p.to, Poured(n.nodes[p.to], p.from, p.ref, p.dist, got), Without(n.wire, k))
    case Lost(k) => n.(wire := Without(n.wire, k))
    case Linked(i, p) =>
      var m := n.nodes[i];
      n.(nodes := n.nodes[i := m.(peers := m.peers + [p], remote := m.remote[p := map[]])])
    case Unlinked(i, p) => n.(nodes := n.nodes[i := Forgotten(n.nodes[i], p)])
    case Injected(p) => n.(wire := n.wire + [p])
  }

  predicate WantRun(n: Network, es: seq<WantEvent>)
    decreases |es|
  {
    es == [] || (WantEnabled(n, es[0]) && WantRun(WantStep(n, es[0]), es[1..]))
  }

  function AfterWants(n: Network, es: seq<WantEvent>): Network
    requires WantRun(n, es)
    decreases |es|
  {
    if es == [] then n else AfterWants(WantStep(n, es[0]), es[1..])
  }

  ghost predicate AllSane(n: Network) {
    forall i :: 0 <= i < |n.nodes| ==> Sane(n.nodes[i])
  }

  lemma WantStepKeeps(n: Network, e: WantEvent)
    requires AllSane(n) && WantEnabled(n, e)
    ensures AllSane(WantStep(n, e)) && |WantStep(n, e).nodes| == |n.nodes|
    ensures forall i :: 0 <= i < |n.nodes| ==> NoFurther(n.nodes[i], WantStep(n, e).nodes[i])
  {
    match e
    case LocalWant(i, r) =>
      WantedAtKeeps(n.nodes[i], r, -1);
      NodeKeeps(n, i, WantedAt(n.nodes[i], r, -1).0);
    case LocalPut(i, r, size) =>
      PutKeeps(n.nodes[i], r, size);
      NodeKeeps(n, i, Put(n.nodes[i], r, size).0);
    case Removed(i, r) => NodeKeeps(n, i, Remove(n.nodes[i], r).0);
    case Gave(i, r) => NodeKeeps(n, i, n.nodes[i].(wants := n.nodes[i].wants - {r}));
    case Delivered(k, got) =>
      var p := n.wire[k];
      PouredKeeps(n.nodes[p.to], p.from, p.ref, p.dist, got);
      NodeKeeps(n, p.to, Poured(n.nodes[p.to], p.from, p.ref, p.dist, got).0);
    case Lost(k) =>
    case Linked(i, p) =>
      var m := n.nodes[i];
      NodeKeeps(n, i, m.(peers := m.peers + [p], remote := m.remote[p := map[]]));
    case Unlinked(i, p) => NodeKeeps(n, i, Forgotten(n.nodes[i], p));
    case Injected(p) =>
  }

  lemma NodeKeeps(n: Network, i: nat, m: Manager)
    requires AllSane(n) && i < |n.nodes| && Sane(m) && NoFurther(n.nodes[i], m)
    ensures forall j :: 0 <= j < |n.nodes| ==> Sane(n.nodes[i := m][j]) && NoFurther(n.nodes[j], n.nodes[i := m][j])
  {}

  /** In every run distances stay between -5 and -1 and no stored blob is wanted. */
  lemma {:induction false} WantRunSane(n: Network, es: seq<WantEvent>)
    requires AllSane(n) && WantRun(n, es)
    ensures AllSane(AfterWants(n, es))
    decreases |es|
  {
    if es != [] {
      WantStepKeeps(n, es[0]);
      WantRunSane(WantStep(n, es[0]), es[1..]);
    }
  }

  // ---------------------------------------------------------------- every flood ends

  /** Multiplication as repeated addition. */
  function Times(k: nat, w: nat): nat { if k == 0 then 0 else Times(k - 1, w) + w }

  function Power(b: nat, k: nat): nat { if k == 0 then 1 else Times(b, Power(b, k - 1)) }

  lemma {:induction false} TimesGrows(a: nat, b: nat, w: nat)
    requires a <= b
    ensures Times(a, w) <= Times(b, w) && (a < b ==> Times(a, w) + w <= Times(b, w))
    decreases b - a
  {
    if a < b { TimesGrows(a, b - 1, w); }
  }

  lemma {:induction false} TimesOne(k: nat)
    ensures Times(k, 1) == k
  {
    if k > 0 { TimesOne(k - 1); }
  }

  lemma {:induction false} PowerPositive(b: nat, k: nat)
    requires b > 0
    ensures Power(b, k) > 0
  {
    if k > 0 {
      PowerPositive(b, k - 1);
      TimesGrows(1, b, Power(b, k - 1));
    }
  }

  /** What a packet can still set off, if no node has more than `peers` peers. */
  function Weight(peers: nat, d: int): nat { if -5 <= d < 0 then Power(peers + 1, (d + 5) as nat) else 1 }

  function Load(peers: nat, wire: seq<Packet>): nat {
    if wire == [] then 0 else Load(peers, wire[..|wire| - 1]) + Weight(peers, wire[|wire| - 1].dist)
  }

  lemma {:induction false} LoadConcat(peers: nat, a: seq<Packet>, b: seq<Packet>)
    ensures Load(peers, a + b) == Load(peers, a) + Load(peers, b)
    decreases |b|
  {
    if b == [] {
      assert a + b == a;
    } else {
      assert (a + b)[..|a + b| - 1] == a + b[..|b| - 1];
      LoadConcat(peers, a, b[..|b| - 1]);
    }
  }

  lemma LoadWithout(peers: nat, wire: seq<Packet>, k: nat)
    requires k < |wire|
    ensures Load(peers, wire) == Load(peers, Without(wire, k)) + Weight(peers, wire[k].dist)
  {
    LoadConcat(peers, wire[..k], wire[k + 1..]);
    var head := wire[..k + 1];
    assert head[..k] == wire[..k] && wire == head + wire[k + 1..];
    LoadConcat(peers, head, wire[k + 1..]);
  }

  /** Parcels of one distance weigh as much as their number times the weight. */
  lemma {:induction false} LoadOfSame(peers: nat, from: nat, ps: seq<Parcel>, d: int)
    requires forall i :: 0 <= i < |ps| ==> ps[i].dist == d
    ensures Load(peers, Send(from, ps)) == Times(|ps|, Weight(peers, d))
    decreases |ps|
  {
    if ps != [] {
      var n := |ps| - 1;
      assert Send(from, ps)[..n] == Send(from, ps[..n]);
      LoadOfSame(peers, from, ps[..n], d);
    }
  }

  lemma {:induction false} BroadcastSize(m: Manager, peers: seq<nat>, r: Ref, d: int)
    ensures |Broadcast(m, peers, r, d)| <= |peers|
    ensures forall i :: 0 <= i < |Broadcast(m, peers, r, d)| ==> Broadcast(m, peers, r, d)[i].dist == d
  {
    if peers != [] { BroadcastSize(m, peers[..|peers| - 1], r, d); }
  }

  lemma {:induction false} NoticesSize(m: Manager, peers: seq<nat>, r: Ref, size: int)
    ensures |Notices(m, peers, r, size)| <= |peers|
    ensures forall i :: 0 <= i < |Notices(m, peers, r, size)| ==> Notices(m, peers, r, size)[i].dist == size
  {
    if peers != [] { NoticesSize(m, peers[..|peers| - 1], r, size); }
  }

  /** What storing the missing blobs, among the refs under way, can set off at one node. */
  function Gap(peers: nat, refs: set<Ref>, m: Manager): nat { Times(|refs - m.stored.Keys|, peers + 1) }

  function Sum(f: Manager -> nat, nodes: seq<Manager>): nat {
    if nodes == [] then 0 else Sum(f, nodes[..|nodes| - 1]) + f(nodes[|nodes| - 1])
  }

  lemma {:induction false} SumUpdate(f: Manager -> nat, nodes: seq<Manager>, i: nat, m: Manager)
    requires i < |nodes|
    ensures Sum(f, nodes[i := m]) + f(nodes[i]) == Sum(f, nodes) + f(m)
    decreases |nodes|
  {
    var n := |nodes| - 1;
    if i == n {
      assert nodes[i := m][..n] == nodes[..n];
    } else {
      assert nodes[i := m][..n] == nodes[..n][i := m];
      SumUpdate(f, nodes[..n], i, m);
    }
  }

  function Gaps(peers: nat, refs: set<Ref>, nodes: seq<Manager>): nat { Sum(m => Gap(peers, refs, m), nodes) }

  lemma GapsUpdate(peers: nat, refs: set<Ref>, nodes: seq<Manager>, i: nat, m: Manager)
    requires i < |nodes|
    ensures Gaps(peers, refs, nodes[i := m]) + Gap(peers, refs, nodes[i])
      == Gaps(peers, refs, nodes) + Gap(peers, refs, m)
  {
    SumUpdate(m => Gap(peers, refs, m), nodes, i, m);
  }

  function Measure(peers: nat, refs: set<Ref>, n: Network): nat { Load(peers, n.wire) + Gaps(peers, refs, n.nodes) }

  /** At least one peer, no node has more, stored sizes are sizes, and all packets are about the given refs. */
  ghost predicate Bounded(peers: nat, refs: set<Ref>, n: Network) {
    && peers >= 1
    && (forall i :: 0 <= i < |n.nodes| ==> |n.nodes[i].peers| <= peers)
    && (forall i :: 0 <= i < |n.nodes| ==> SizesOf(n.nodes[i]))
    && (forall k :: 0 <= k < |n.wire| ==> n.wire[k].ref in refs)
  }

  /** What a node sends on delivery is about the blob, and its peers stay. */
  lemma PouredSends(m: Manager, from: nat, r: Ref, d: int, got: bool)
    ensures var p := Poured(m, from, r, d, got);
      p.0.peers == m.peers && forall i :: 0 <= i < |p.1| ==> p.1[i].ref == r
  {
    PeersAbout(m, m.peers, r, d);
    var m1 := m.(remote := m.remote[from := RemoteWants(m, from)[r := d]]);
    PeersAbout(m1, m1.peers, r, d - 1);
  }

  lemma {:induction false} PeersAbout(m: Manager, peers: seq<nat>, r: Ref, d: int)
    ensures |Broadcast(m, peers, r, d)| <= |peers| && |Notices(m, peers, r, d)| <= |peers|
    ensures forall i :: 0 <= i < |Broadcast(m, peers, r, d)| ==> Broadcast(m, peers, r, d)[i].ref == r
    ensures forall i :: 0 <= i < |Notices(m, peers, r, d)| ==> Notices(m, peers, r, d)[i].ref == r
  {
    if peers != [] { PeersAbout(m, peers[..|peers| - 1], r, d); }
  }

  /** A want that is passed on weighs less than before, all its copies together. */
  lemma AskedLighter(peers: nat, m: Manager, from: nat, to: nat, r: Ref, d: int)
    requires 1 <= peers && |m.peers| <= peers && d < 0 && SizesOf(m)
    ensures Load(peers, Send(to, Asked(m, from, r, d).1)) < Weight(peers, d)
    ensures Asked(m, from, r, d).0.stored == m.stored
  {
    var ps := Asked(m, from, r, d).1;
    if d < -4 {
      PowerPositive(peers + 1, 0);
      assert Send(to, ps) == [];
    } else if r in m.stored {
      LoadOfSame(peers, to, ps, m.stored[r]);
      WeightAtLeast(peers, d);
    } else {
      var m1 := m.(remote := m.remote[from := RemoteWants(m, from)[r := d]]);
      BroadcastSize(m1, m1.peers, r, d - 1);
      CopiesLighter(peers, to, ps, d);
    }
  }

  lemma WeightStep(peers: nat, d: int)
    requires -4 <= d < 0
    ensures Weight(peers, d - 1) > 0 && Weight(peers, d) == Times(peers + 1, Weight(peers, d - 1))
  {
    PowerPositive(peers + 1, (d + 4) as nat);
  }

  lemma WeightAtLeast(peers: nat, d: int)
    requires peers >= 1 && -4 <= d < 0
    ensures Weight(peers, d) > 1
  {
    WeightStep(peers, d);
    var w := Weight(peers, d - 1);
    TimesGrows(1, peers + 1, w);
    assert Times(1, w) == w;
  }

  lemma CopiesLighter(peers: nat, from: nat, ps: seq<Parcel>, d: int)
    requires -4 <= d < 0 && |ps| <= peers && forall i :: 0 <= i < |ps| ==> ps[i].dist == d - 1
    ensures Load(peers, Send(from, ps)) < Weight(peers, d)
  {
    WeightStep(peers, d);
    LoadOfSame(peers, from, ps, d - 1);
    TimesGrows(|ps|, peers + 1, Weight(peers, d - 1));
  }

  /** An offer is used up; a blob that gets stored pays for the notices. */
  lemma OfferedLighter(peers: nat, refs: set<Ref>, m: Manager, to: nat, r: Ref, size: int, got: bool)
    requires |m.peers| <= peers && size >= 0 && r in refs && Sane(m)
    ensures var o := Offered(m, r, size, got);
      Load(peers, Send(to, o.1)) + Gap(peers, refs, o.0) <= Gap(peers, refs, m)
  {
    if r in m.wants && size <= m.maxSize && got {
      PutLighter(peers, refs, m, to, r, size);
    } else {
      assert Send(to, []) == [];
    }
  }

  lemma PutLighter(peers: nat, refs: set<Ref>, m: Manager, to: nat, r: Ref, size: int)
    requires |m.peers| <= peers && size >= 0 && r in refs && r !in m.stored
    ensures Load(peers, Send(to, Put(m, r, size).1)) + Gap(peers, refs, Put(m, r, size).0) < Gap(peers, refs, m)
  {
    NoticesLoad(peers, m, to, r, size);
    GapAfterPut(peers, refs, m, r, size);
  }

  lemma NoticesLoad(peers: nat, m: Manager, to: nat, r: Ref, size: int)
    requires |m.peers| <= peers && size >= 0
    ensures Load(peers, Send(to, Notices(m, m.peers, r, size))) <= peers
  {
    var ps := Notices(m, m.peers, r, size);
    NoticesSize(m, m.peers, r, size);
    LoadOfSame(peers, to, ps, size);
    TimesOne(|ps|);
  }

  lemma GapAfterPut(peers: nat, refs: set<Ref>, m: Manager, r: Ref, size: int)
    requires r in refs && r !in m.stored
    ensures Gap(peers, refs, m) == Gap(peers, refs, Put(m, r, size).0) + peers + 1
  {
    var m' := Put(m, r, size).0;
    assert m'.stored.Keys == m.stored.Keys + {r};
    OneFewer(refs, m.stored.Keys, m'.stored.Keys, r);
    TimesNext(|refs - m.stored.Keys|, |refs - m'.stored.Keys|, peers + 1);
  }

  lemma TimesNext(k: nat, j: nat, w: nat)
    requires k == j + 1
    ensures Times(k, w) == Times(j, w) + w
  {}

  lemma OneFewer(refs: set<Ref>, keys: set<Ref>, keys': set<Ref>, r: Ref)
    requires r in refs && r !in keys && keys' == keys + {r}
    ensures |refs - keys| == |refs - keys'| + 1
  {
    var after := refs - keys';
    assert refs - keys == after + {r} && r !in after;
  }

  /** Every delivery makes the measure smaller. */
  lemma DeliveryShrinks(peers: nat, refs: set<Ref>, n: Network, k: nat, got: bool)
    requires Bounded(peers, refs, n) && AllSane(n) && WantEnabled(n, Delivered(k, got))
    ensures Measure(peers, refs, WantStep(n, Delivered(k, got))) < Measure(peers, refs, n)
  {
    var p := n.wire[k];
    var m := n.nodes[p.to];
    var r := Poured(m, p.from, p.ref, p.dist, got);
    LoadWithout(peers, n.wire, k);
    LoadConcat(peers, Without(n.wire, k), Send(p.to, r.1));
    GapsUpdate(peers, refs, n.nodes, p.to, r.0);
    PouredLighter(peers, refs, m, p, got);
  }

  lemma PouredLighter(peers: nat, refs: set<Ref>, m: Manager, p: Packet, got: bool)
    requires 1 <= peers && |m.peers| <= peers && p.ref in refs && Sane(m) && SizesOf(m)
    ensures var r := Poured(m, p.from, p.ref, p.dist, got);
      Load(peers, Send(p.to, r.1)) + Gap(peers, refs, r.0) < Weight(peers, p.dist) + Gap(peers, refs, m)
  {
    if p.ref in m.blocked {
      WeightPositive(peers, p.dist);
      assert Send(p.to, []) == [];
    } else if p.dist < 0 {
      AskedLighter(peers, m, p.from, p.to, p.ref, p.dist);
    } else {
      OfferedLighter(peers, refs, m, p.to, p.ref, p.dist, got);
    }
  }

  lemma WeightPositive(peers: nat, d: int)
    ensures Weight(peers, d) > 0
  {
    if -5 <= d < 0 { PowerPositive(peers + 1, (d + 5) as nat); }
  }

  ghost predicate SizesOf(m: Manager) { forall q :: q in m.stored ==> m.stored[q] >= 0 }

  lemma PouredSizes(m: Manager, from: nat, r: Ref, d: int, got: bool)
    requires SizesOf(m)
    ensures SizesOf(Poured(m, from, r, d, got).0)
  {}

  lemma StepBounded(peers: nat, refs: set<Ref>, n: Network, k: nat, got: bool)
    requires Bounded(peers, refs, n) && WantEnabled(n, Delivered(k, got))
    ensures Bounded(peers, refs, WantStep(n, Delivered(k, got)))
  {
    var p := n.wire[k];
    PouredSends(n.nodes[p.to], p.from, p.ref, p.dist, got);
    PouredSizes(n.nodes[p.to], p.from, p.ref, p.dist, got);
  }

  // what the other events add

  /** The weight an event can bring into the network. */
  function Cost(peers: nat, e: WantEvent): nat {
    match e
    case LocalWant(_, _) => Times(peers, Weight(peers, -1))
    case LocalPut(_, _, _) => peers
    case Removed(_, _) => peers + (peers + 1)
    case Injected(p) => Weight(peers, p.dist)
    case _ => 0
  }

  /** The event is about one of the refs, and leaves no node with more than `peers` peers. */
  predicate Within(peers: nat, refs: set<Ref>, n: Network, e: WantEvent)
    requires WantEnabled(n, e)
  {
    match e
    case LocalWant(_, r) => r in refs
    case LocalPut(_, r, _) => r in refs
    case Removed(_, r) => r in refs
    case Linked(i, _) => |n.nodes[i].peers| < peers
    case Injected(p) => p.ref in refs
    case _ => true
  }

  lemma ActedMeasure(peers: nat, refs: set<Ref>, n: Network, i: nat, r: (Manager, seq<Parcel>))
    requires i < |n.nodes|
    ensures Measure(peers, refs, Acted(n, i, r, n.wire)) + Gap(peers, refs, n.nodes[i])
         == Measure(peers, refs, n) + Load(peers, Send(i, r.1)) + Gap(peers, refs, r.0)
  {
    LoadConcat(peers, n.wire, Send(i, r.1));
    GapsUpdate(peers, refs, n.nodes, i, r.0);
  }

  lemma WantCost(peers: nat, m: Manager, to: nat, r: Ref)
    requires |m.peers| <= peers
    ensures Load(peers, Send(to, WantedAt(m, r, -1).1)) <= Times(peers, Weight(peers, -1))
    ensures WantedAt(m, r, -1).0.stored == m.stored
  {
    var ps := WantedAt(m, r, -1).1;
    BroadcastSize(m, m.peers, r, -1);
    LoadOfSame(peers, to, ps, -1);
    TimesGrows(|ps|, peers, Weight(peers, -1));
  }

  lemma PutCost(peers: nat, refs: set<Ref>, m: Manager, to: nat, r: Ref, size: int)
    requires |m.peers| <= peers && size >= 0 && r in refs
    ensures Load(peers, Send(to, Put(m, r, size).1)) + Gap(peers, refs, Put(m, r, size).0)
      <= peers + Gap(peers, refs, m)
  {
    NoticesLoad(peers, m, to, r, size);
    if r in m.stored {
      assert Put(m, r, size).0.stored.Keys == m.stored.Keys;
    } else {
      GapAfterPut(peers, refs, m, r, size);
    }
  }

  lemma RemoveCost(peers: nat, refs: set<Ref>, m: Manager, to: nat, r: Ref)
    requires |m.peers| <= peers && r in refs
    ensures Load(peers, Send(to, Remove(m, r).1)) + Gap(peers, refs, Remove(m, r).0)
      <= peers + (peers + 1) + Gap(peers, refs, m)
  {
    if r in m.stored {
      NoticesLoad(peers, m, to, r, 0);
      var keys, keys' := m.stored.Keys, Remove(m, r).0.stored.Keys;
      assert keys' == keys - {r} && keys == keys' + {r};
      OneFewer(refs, keys', keys, r);
      TimesNext(|refs - keys'|, |refs - keys|, peers + 1);
    } else {
      assert Send(to, []) == [];
    }
  }

  lemma InjectedLoad(peers: nat, wire: seq<Packet>, p: Packet)
    ensures Load(peers, wire + [p]) == Load(peers, wire) + Weight(peers, p.dist)
  {
    assert (wire + [p])[..|wire|] == wire;
  }

  /** A delivery uses up at least one of the measure; every other event adds at most its cost. */
  lemma StepCost(peers: nat, refs: set<Ref>, n: Network, e: WantEvent)
    requires Bounded(peers, refs, n) && AllSane(n) && WantEnabled(n, e) && Within(peers, refs, n, e)
    ensures Measure(peers, refs, WantStep(n, e)) + (if e.Delivered? then 1 else 0)
      <= Measure(peers, refs, n) + Cost(peers, e)
  {
    match e
    case LocalWant(i, r) =>
      ActedMeasure(peers, refs, n, i, WantedAt(n.nodes[i], r, -1));
      WantCost(peers, n.nodes[i], i, r);
    case LocalPut(i, r, size) =>
      ActedMeasure(peers, refs, n, i, Put(n.nodes[i], r, size));
      PutCost(peers, refs, n.nodes[i], i, r, size);
    case Removed(i, r) =>
      ActedMeasure(peers, refs, n, i, Remove(n.nodes[i], r));
      RemoveCost(peers, refs, n.nodes[i], i, r);
    case Gave(i, r) => GapsUpdate(peers, refs, n.nodes, i, WantStep(n, e).nodes[i]);
    case Delivered(k, got) => DeliveryShrinks(peers, refs, n, k, got);
    case Lost(k) => LoadWithout(peers, n.wire, k);
    case Linked(i, p) => GapsUpdate(peers, refs, n.nodes, i, WantStep(n, e).nodes[i]);
    case Unlinked(i, p) => GapsUpdate(peers, refs, n.nodes, i, WantStep(n, e).nodes[i]);
    case Injected(p) => InjectedLoad(peers, n.wire, p);
  }

  /** All parcels are about the blob. */
  ghost predicate About(ps: seq<Parcel>, r: Ref) { forall i :: 0 <= i < |ps| ==> ps[i].ref == r }

  lemma ActedBounded(peers: nat, refs: set<Ref>, n: Network, i: nat, r: (Manager, seq<Parcel>), q: Ref)
    requires Bounded(peers, refs, n) && i < |n.nodes| && |r.0.peers| <= peers && SizesOf(r.0) && About(r.1, q)
      && q in refs
    ensures Bounded(peers, refs, Acted(n, i, r, n.wire))
  {}

  lemma OtherStepBounded(peers: nat, refs: set<Ref>, n: Network, e: WantEvent)
    requires Bounded(peers, refs, n) && WantEnabled(n, e) && Within(peers, refs, n, e)
    ensures Bounded(peers, refs, WantStep(n, e))
  {
    match e
    case LocalWant(i, r) =>
      PeersAbout(n.nodes[i], n.nodes[i].peers, r, -1);
      ActedBounded(peers, refs, n, i, WantedAt(n.nodes[i], r, -1), r);
    case LocalPut(i, r, size) =>
      PeersAbout(n.nodes[i], n.nodes[i].peers, r, size);
      ActedBounded(peers, refs, n, i, Put(n.nodes[i], r, size), r);
    case Removed(i, r) =>
      PeersAbout(n.nodes[i], n.nodes[i].peers, r, 0);
      ActedBounded(peers, refs, n, i, Remove(n.nodes[i], r), r);
    case Delivered(k, got) => StepBounded(peers, refs, n, k, got);
    case _ =>
  }

  ghost predicate WithinRun(peers: nat, refs: set<Ref>, n: Network, es: seq<WantEvent>)
    decreases |es|
  {
    es == []
      || (WantEnabled(n, es[0]) && Within(peers, refs, n, es[0]) && WithinRun(peers, refs, WantStep(n, es[0]), es[1..]))
  }

  function Deliveries(es: seq<WantEvent>): nat {
    if es == [] then 0 else (if es[0].Delivered? then 1 else 0) + Deliveries(es[1..])
  }

  function Costs(peers: nat, es: seq<WantEvent>): nat {
    if es == [] then 0 else Cost(peers, es[0]) + Costs(peers, es[1..])
  }

  /** In every run the deliveries are bounded by the measure at its start and the weight its events bring in. */
  lemma {:induction false} FloodBounded(peers: nat, refs: set<Ref>, n: Network, es: seq<WantEvent>)
    requires Bounded(peers, refs, n) && AllSane(n) && WithinRun(peers, refs, n, es)
    ensures WantRun(n, es)
    ensures Deliveries(es) + Measure(peers, refs, AfterWants(n, es)) <= Measure(peers, refs, n) + Costs(peers, es)
    decreases |es|
  {
    if es != [] {
      StepCost(peers, refs, n, es[0]);
      OtherStepBounded(peers, refs, n, es[0]);
      WantStepKeeps(n, es[0]);
      FloodBounded(peers, refs, WantStep(n, es[0]), es[1..]);
    }
  }

  /** A flood: packets are delivered or lost, wants given up, and connections ended. */
  predicate Flood(es: seq<WantEvent>) {
    forall i :: 0 <= i < |es| ==> es[i].Delivered? || es[i].Lost? || es[i].Gave? || es[i].Unlinked?
  }

  /** Once nobody wants anything new, the number of packets that can still be delivered is bounded by the measure. */
  lemma FloodEnds(peers: nat, refs: set<Ref>, n: Network, es: seq<WantEvent>)
    requires Bounded(peers, refs, n) && AllSane(n) && WantRun(n, es) && Flood(es)
    ensures Deliveries(es) <= Measure(peers, refs, n)
  {
    FloodWithin(peers, refs, n, es);
    FloodBounded(peers, refs, n, es);
  }

  lemma {:induction false} FloodWithin(peers: nat, refs: set<Ref>, n: Network, es: seq<WantEvent>)
    requires WantRun(n, es) && Flood(es)
    ensures WithinRun(peers, refs, n, es) && Costs(peers, es) == 0
    decreases |es|
  {
    if es != [] { FloodWithin(peers, refs, WantStep(n, es[0]), es[1..]); }
  }

  // ---------------------------------------------------------------- the program's object

  class WantManager {
    var stored: map<Ref, int>
    var wants: map<Ref, int>
    var blocked: set<Ref>
    var peers: seq<nat>
    var remote: map<nat, map<Ref, int>>
    const maxSize: int
    var sent: seq<Parcel>
    var available: seq<Parcel> // offers to be fetched
    var answered: seq<(nat, map<Ref, int>)>

    constructor (maxSize: int)
      ensures State() == Manager(map[], map[], {}, [], map[], maxSize) && Sane(State()) && sent == [] && available == []
        && answered == []
    {
      this.maxSize := maxSize;
      stored, wants, blocked, peers, remote, sent, available, answered := map[], map[], {}, [], map[], [], [], [];
    }

    ghost function State(): Manager
      reads this
    {
      Manager(stored, wants, blocked, peers, remote, maxSize)
    }

    method WantWithDist(r: Ref, d: int) returns (ok: bool)
      modifies this`wants, this`sent
      ensures State() == WantedAt(old(State()), r, d).0 && sent == old(sent) + WantedAt(old(State()), r, d).1
      ensures ok == (r in stored || r !in blocked)
    {
      if r in stored {
        return true;
      }
      if r in blocked {
        return false;
      }
      if r in wants && wants[r] > d { // an open want that is nearer stays
        return true;
      }
      ghost var before := State();
      wants := wants[r := d];
      assert before.peers[..|before.peers|] == before.peers;
      EmitWant(r, d, before);
      return true;
    }

    /** Tells every peer that did not ask for the blob itself. */
    method EmitWant(r: Ref, d: int, ghost m: Manager)
      requires m.peers == peers && m.remote == remote
      modifies this`sent
      ensures sent == old(sent) + Broadcast(m, peers, r, d)
    {
      for i := 0 to |peers|
        invariant sent == old(sent) + Broadcast(m, peers[..i], r, d)
      {
        assert peers[..i + 1][..i] == peers[..i];
        if !(d < 0 && peers[i] in remote && r in remote[peers[i]]) {
          sent := sent + [Parcel(peers[i], r, d)];
        }
      }
      assert peers[..|peers|] == peers;
    }

    /** The store got a blob: the want is over, and every peer that asked is told the size. */
    method StorePut(r: Ref, size: int)
      modifies this`stored, this`wants, this`sent
      ensures State() == Put(old(State()), r, size).0 && sent == old(sent) + Put(old(State()), r, size).1
    {
      ghost var m := State();
      stored := stored[r := size];
      wants := wants - {r};
      EmitBlob(r, size, m);
    }

    /** The store lost a blob. */
    method StoreRemove(r: Ref)
      modifies this`stored, this`sent
      ensures State() == Remove(old(State()), r).0 && sent == old(sent) + Remove(old(State()), r).1
    {
      ghost var m := State();
      if r !in stored {
        return;
      }
      stored := stored - {r};
      EmitBlob(r, 0, m);
    }

    /** Tells every peer that asked for the blob. */
    method EmitBlob(r: Ref, size: int, ghost m: Manager)
      requires m.peers == peers && m.remote == remote
      modifies this`sent
      ensures sent == old(sent) + Notices(m, peers, r, size)
    {
      for i := 0 to |peers|
        invariant sent == old(sent) + Notices(m, peers[..i], r, size)
      {
        assert peers[..i + 1][..i] == peers[..i];
        if peers[i] in remote && r in remote[peers[i]] {
          sent := sent + [Parcel(peers[i], r, size)];
        }
      }
      assert peers[..|peers|] == peers;
    }

    /** One entry of an incoming message: an offer is queued for fetching, an answer is kept for later. */
    method PourWant(from: nat, r: Ref, d: int, answers: map<Ref, int>) returns (answers': map<Ref, int>)
      modifies this`wants, this`remote, this`sent, this`available
      ensures var t := Taken(old(State()), from, r, d);
        && State() == t.node && sent == old(sent) + t.sent && available == old(available) + t.offers
        && answers' == answers + t.answers
    {
      answers' := answers;
      if r in blocked {
        return;
      }
      if d < 0 {
        if d < -4 { // too far off
          return;
        }
        var theirs := if from in remote then remote[from] else map[];
        if r !in stored {
          remote := remote[from := theirs[r := d]];
          var ok := WantWithDist(r, d - 1);
        } else {
          remote := remote[from := theirs - {r}];
          answers' := answers[r := stored[r]];
        }
      } else if r in wants {
        if d > maxSize {
          wants := wants - {r};
        } else {
          available := available + [Parcel(from, r, d)];
        }
      }
    }

    /**
     A message is a list of wants and offers; what it asks for and is stored is answered in one message at the
     end.
     */
    method Pour(from: nat, message: seq<(Ref, int)>)
      modifies this`wants, this`remote, this`sent, this`available, this`answered
      ensures var t := TakenAll(old(State()), from, message);
        && State() == t.node && sent == old(sent) + t.sent && available == old(available) + t.offers
        && answered == old(answered) + if t.answers == map[] then [] else [(from, t.answers)]
    {
      ghost var m, was, had := State(), sent, available;
      var mOut: map<Ref, int> := map[];
      for i := 0 to |message|
        invariant TookAll(m, was, had, from, message[..i], mOut) && answered == old(answered)
      {
        ghost var before := State();
        mOut := PourWant(from, message[i].0, message[i].1, mOut);
        TakenNext(m, from, message, i);
        ghost var t, l := TakenAll(m, from, message[..i]), Taken(before, from, message[i].0, message[i].1);
        Append3(was, t.sent, l.sent);
        Append3(had, t.offers, l.offers);
      }
      assert message[..|message|] == message;
      if mOut != map[] {
        answered := answered + [(from, mOut)];
      }
    }

    /** The state after a message, from the state, output and queue before it. */
    ghost predicate TookAll(m: Manager, was: seq<Parcel>, had: seq<Parcel>, from: nat, message: seq<(Ref, int)>,
                            answers: map<Ref, int>)
      reads this
    {
      var t := TakenAll(m, from, message);
      State() == t.node && sent == was + t.sent && available == had + t.offers && answers == t.answers
    }
  }

  /** The effect of entries: the node, the wants it floods, the offers it queues, and the sizes it answers with. */
  datatype Effect = Effect(node: Manager, sent: seq<Parcel>, offers: seq<Parcel>, answers: map<Ref, int>)

  function Taken(m: Manager, from: nat, r: Ref, d: int): Effect {
    if r !in m.blocked && 0 <= d <= m.maxSize && r in m.wants then Effect(m, [], [Parcel(from, r, d)], map[])
    else
      var p := Poured(m, from, r, d, true);
      if r !in m.blocked && -4 <= d < 0 && r in m.stored then Effect(p.0, [], [], map[r := m.stored[r]])
      else Effect(p.0, p.1, [], map[])
  }

  /** Sent alone, an entry has the effect of a packet in the network: what is answered is what would be sent back. */
  lemma EntryIsPacket(m: Manager, from: nat, r: Ref, d: int)
    ensures var t, p := Taken(m, from, r, d), Poured(m, from, r, d, true);
      t.offers == [] ==> t.node == p.0 && p.1 == t.sent + if r in t.answers then [Parcel(from, r, t.answers[r])] else []
  {}

  function TakenAll(m: Manager, from: nat, message: seq<(Ref, int)>): Effect {
    if message == [] then Effect(m, [], [], map[])
    else
      var n := |message| - 1;
      var before := TakenAll(m, from, message[..n]);
      var last := Taken(before.node, from, message[n].0, message[n].1);
      Effect(last.node, before.sent + last.sent, before.offers + last.offers, before.answers + last.answers)
  }

  lemma TakenNext(m: Manager, from: nat, message: seq<(Ref, int)>, i: nat)
    requires i < |message|
    ensures var b := TakenAll(m, from, message[..i]);
      var l := Taken(b.node, from, message[i].0, message[i].1);
      TakenAll(m, from, message[..i + 1]) == Effect(l.node, b.sent + l.sent, b.offers + l.offers, b.answers + l.answers)
  {
    assert message[..i + 1][..i] == message[..i];
  }

  lemma Append3(a: seq<Parcel>, b: seq<Parcel>, c: seq<Parcel>)
    ensures (a + b) + c == a + (b + c)
  {}

  /** Whatever a peer's message holds, distances stay in range and stored blobs are not wanted. */
  lemma {:induction false} TakenAllSane(m: Manager, from: nat, message: seq<(Ref, int)>)
    requires Sane(m)
    ensures Sane(TakenAll(m, from, message).node) && TakenAll(m, from, message).node.stored == m.stored
    decreases |message|
  {
    if message != [] {
      var n := |message| - 1;
      TakenAllSane(m, from, message[..n]);
      PouredKeeps(TakenAll(m, from, message[..n]).node, from, message[n].0, message[n].1, true);
    }
  }
}
