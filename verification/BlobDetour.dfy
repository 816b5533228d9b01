/**
 A network in which a want does not get four links far: a ring of five nodes with
 a tail.  The second node on the way hears of the want in three links around the
 ring first and asks the node before it, which then has no need to tell it.
 */
module BlobDetour {
  import opened Basics
  import opened BlobWants
  import opened BlobReach

  const Blob: Ref := "b"

  /** A node that knows of one blob only. */
  function Node(peers: seq<nat>, open: Option<int>, asked: map<nat, int>): Manager {
    Manager(map[], if open.Some? then map[Blob := open.value] else map[], {}, peers,
            map p | p in asked :: map[Blob := asked[p]], 0)
  }

  function Tell(peers: seq<nat>, asked: map<nat, int>, d: int): seq<Parcel> {
    if peers == [] then []
    else
      var n := |peers| - 1;
      Tell(peers[..n], asked, d) + if peers[n] in asked then [] else [Parcel(peers[n], Blob, d)]
  }

  lemma {:induction false} TellIs(peers: seq<nat>, all: seq<nat>, open: Option<int>, asked: map<nat, int>, d: int)
    requires d < 0
    ensures Broadcast(Node(all, open, asked), peers, Blob, d) == Tell(peers, asked, d)
    decreases |peers|
  {
    if peers != [] { TellIs(peers[..|peers| - 1], all, open, asked, d); }
  }

  lemma NodeAsked(peers: seq<nat>, open: Option<int>, asked: map<nat, int>, from: nat, d: int)
    requires -4 <= d < 0 && (open.Some? ==> open.value <= d - 1)
    ensures Poured(Node(peers, open, asked), from, Blob, d, true)
      == (Node(peers, Some(d - 1), asked[from := d]), Tell(peers, asked[from := d], d - 1))
  {
    var m := Node(peers, open, asked);
    var m1 := m.(remote := m.remote[from := RemoteWants(m, from)[Blob := d]]);
    assert RemoteWants(m, from)[Blob := d] == map[Blob := d];
    assert m1.remote == Node(peers, open, asked[from := d]).remote;
    assert m1.wants[Blob := d - 1] == map[Blob := d - 1];
    TellIs(peers, peers, open, asked[from := d], d - 1);
  }

  lemma TellOne(a: nat, asked: map<nat, int>, d: int)
    ensures Tell([a], asked, d) == if a in asked then [] else [Parcel(a, Blob, d)]
  {
    assert [a][..0] == [];
  }

  lemma TellTwo(a: nat, b: nat, asked: map<nat, int>, d: int)
    ensures Tell([a, b], asked, d) == Tell([a], asked, d) + Tell([b], asked, d)
  {
    assert [a, b][..1] == [a] && [b][..0] == [];
  }

  /** Of two peers the first has asked. */
  lemma TellSecond(a: nat, b: nat, asked: map<nat, int>, d: int)
    requires a in asked && b !in asked
    ensures Tell([a, b], asked, d) == [Parcel(b, Blob, d)]
  {
    TellTwo(a, b, asked, d);
    TellOne(a, asked, d);
    TellOne(b, asked, d);
  }

  lemma TellThree(a: nat, b: nat, c: nat, asked: map<nat, int>, d: int)
    ensures Tell([a, b, c], asked, d) == Tell([a, b], asked, d) + Tell([c], asked, d)
  {
    assert [a, b, c][..2] == [a, b] && [c][..0] == [];
  }

  /** Of three peers the first has asked. */
  lemma TellOthers(a: nat, b: nat, c: nat, asked: map<nat, int>, d: int)
    requires a in asked && b !in asked && c !in asked
    ensures Tell([a, b, c], asked, d) == [Parcel(b, Blob, d), Parcel(c, Blob, d)]
  {
    TellThree(a, b, c, asked, d);
    TellSecond(a, b, asked, d);
    TellOne(c, asked, d);
  }

  // ---------------------------------------------------------------- the run

  /**
   Links 0-1, 0-2, 2-3, 3-4, 4-1 make the ring, 4-5 and 5-6 the tail; each node with its want and who asked it.
   */
  function Ring(o0: Option<int>, o1: Option<int>, a1: map<nat, int>, o2: Option<int>, a2: map<nat, int>,
                o3: Option<int>, a3: map<nat, int>, o4: Option<int>, a4: map<nat, int>, o5: Option<int>,
                a5: map<nat, int>,
                wire: seq<Packet>): Network
  {
    Network([Node([1, 2], o0, map[]), Node([0, 4], o1, a1), Node([0, 3], o2, a2), Node([2, 4], o3, a3),
             Node([3, 1, 5], o4, a4), Node([4, 6], o5, a5), Node([5], None, map[])], wire)
  }

  const N: map<nat, int> := map[]
  const P01: Packet := Packet(0, 1, Blob, -1)

  const R0: Network := Ring(None, None, N, None, N, None, N, None, N, None, N, [])
  const R1: Network := Ring(Some(-1), None, N, None, N, None, N, None, N, None, N, [P01, Packet(0, 2, Blob, -1)])
  const R2: Network := Ring(Some(-1), None, N, Some(-2), map[0 := -1], None, N, None, N, None, N,
    [P01, Packet(2, 3, Blob, -2)])
  const R3: Network := Ring(Some(-1), None, N, Some(-2), map[0 := -1], Some(-3), map[2 := -2], None, N, None, N,
                            [P01, Packet(3, 4, Blob, -3)])
  const R4: Network := Ring(Some(-1), None, N, Some(-2), map[0 := -1], Some(-3), map[2 := -2], Some(-4), map[3 := -3],
    None, N,
                            [P01, Packet(4, 1, Blob, -4), Packet(4, 5, Blob, -4)])
  const R5: Network := Ring(Some(-1), Some(-5), map[4 := -4], Some(-2), map[0 := -1], Some(-3), map[2 := -2], Some(-4),
                            map[3 := -3], None, N, [P01, Packet(4, 5, Blob, -4), Packet(1, 0, Blob, -5)])
  const R6: Network := Ring(Some(-1), Some(-2), map[4 := -4, 0 := -1], Some(-2), map[0 := -1], Some(-3), map[2 := -2],
    Some(-4),
                            map[3 := -3], None, N, [Packet(4, 5, Blob, -4), Packet(1, 0, Blob, -5)])
  const R7: Network := Ring(Some(-1), Some(-2), map[4 := -4, 0 := -1], Some(-2), map[0 := -1], Some(-3), map[2 := -2],
    Some(-4),
                            map[3 := -3], Some(-5), map[4 := -4], [Packet(1, 0, Blob, -5), Packet(5, 6, Blob, -5)])
  const R8: Network := R7.(wire := [Packet(5, 6, Blob, -5)])
  const R9: Network := R7.(wire := [])

  lemma Step1()
    ensures WantStep(R0, LocalWant(0, Blob)) == R1
  {
    var m := R0.nodes[0];
    TellIs([1, 2], [1, 2], None, N, -1);
    TellTwo(1, 2, N, -1);
    TellOne(1, N, -1);
    TellOne(2, N, -1);
    assert m.wants[Blob := -1] == map[Blob := -1];
    Sent(0, [Parcel(1, Blob, -1), Parcel(2, Blob, -1)]);
    assert WantStep(R0, LocalWant(0, Blob)).nodes == R1.nodes;
  }

  lemma Sent(i: nat, ps: seq<Parcel>)
    ensures |Send(i, ps)| == |ps|
    ensures |ps| == 0 ==> Send(i, ps) == []
    ensures |ps| == 1 ==> Send(i, ps) == [Packet(i, ps[0].peer, ps[0].ref, ps[0].dist)]
    ensures |ps| == 2
      ==> Send(i, ps) == [Packet(i, ps[0].peer, ps[0].ref, ps[0].dist), Packet(i, ps[1].peer, ps[1].ref, ps[1].dist)]
  {}

  /** A want arrives at a node whose own is not nearer. */
  lemma Arrives(n: Network, k: nat, peers: seq<nat>, open: Option<int>, asked: map<nat, int>)
    requires k < |n.wire| && n.wire[k].to < |n.nodes| && n.wire[k].ref == Blob && -4 <= n.wire[k].dist < 0
    requires n.nodes[n.wire[k].to] == Node(peers, open, asked) && (open.Some? ==> open.value <= n.wire[k].dist - 1)
    ensures var p := n.wire[k]; var asked' := asked[p.from := p.dist];
      WantStep(n, Delivered(k, true))
        == Network(n.nodes[p.to := Node(peers, Some(p.dist - 1), asked')],
                   Without(n.wire, k) + Send(p.to, Tell(peers, asked', p.dist - 1)))
  {
    var p := n.wire[k];
    NodeAsked(peers, open, asked, p.from, p.dist);
  }

  /** A want from too far away is dropped. */
  lemma Dropped(n: Network, k: nat)
    requires k < |n.wire| && n.wire[k].to < |n.nodes| && n.wire[k].dist < -4
    ensures WantStep(n, Delivered(k, true)) == n.(wire := Without(n.wire, k))
  {
    assert n.nodes[n.wire[k].to := n.nodes[n.wire[k].to]] == n.nodes;
    assert Without(n.wire, k) + Send(n.wire[k].to, []) == Without(n.wire, k);
  }

  lemma Step2()
    ensures WantStep(R1, Delivered(1, true)) == R2
  {
    var asked := map[0 := -1];
    assert N[0 := -1] == asked;
    Arrives(R1, 1, [0, 3], None, N);
    TellSecond(0, 3, asked, -2);
    Sent(2, [Parcel(3, Blob, -2)]);
    assert R1.nodes[2 := R2.nodes[2]] == R2.nodes;
  }

  lemma Step3()
    ensures WantStep(R2, Delivered(1, true)) == R3
  {
    var asked := map[2 := -2];
    assert N[2 := -2] == asked;
    Arrives(R2, 1, [2, 4], None, N);
    TellSecond(2, 4, asked, -3);
    Sent(3, [Parcel(4, Blob, -3)]);
    assert R2.nodes[3 := R3.nodes[3]] == R3.nodes;
  }

  lemma Step4()
    ensures WantStep(R3, Delivered(1, true)) == R4
  {
    var asked := map[3 := -3];
    assert N[3 := -3] == asked;
    Arrives(R3, 1, [3, 1, 5], None, N);
    TellOthers(3, 1, 5, asked, -4);
    Sent(4, [Parcel(1, Blob, -4), Parcel(5, Blob, -4)]);
    assert R3.nodes[4 := R4.nodes[4]] == R4.nodes;
  }

  lemma Step5()
    ensures WantStep(R4, Delivered(1, true)) == R5
  {
    var asked := map[4 := -4];
    assert N[4 := -4] == asked;
    Arrives(R4, 1, [0, 4], None, N);
    TellTwo(0, 4, asked, -5);
    TellOne(0, asked, -5);
    TellOne(4, asked, -5);
    Sent(1, [Parcel(0, Blob, -5)]);
    assert R4.nodes[1 := R5.nodes[1]] == R5.nodes;
  }

  /** The direct want comes too late: both peers of node 1 have asked it by now. */
  lemma Step6()
    ensures WantStep(R5, Delivered(0, true)) == R6
  {
    var asked := map[4 := -4, 0 := -1];
    assert (map[4 := -4])[0 := -1] == asked;
    Arrives(R5, 0, [0, 4], Some(-5), map[4 := -4]);
    TellTwo(0, 4, asked, -2);
    TellOne(0, asked, -2);
    TellOne(4, asked, -2);
    Sent(1, []);
    assert R5.nodes[1 := R6.nodes[1]] == R6.nodes;
  }

  lemma Step7()
    ensures WantStep(R6, Delivered(0, true)) == R7
  {
    var asked := map[4 := -4];
    assert N[4 := -4] == asked;
    Arrives(R6, 0, [4, 6], None, N);
    TellSecond(4, 6, asked, -5);
    Sent(5, [Parcel(6, Blob, -5)]);
    assert R6.nodes[5 := R7.nodes[5]] == R7.nodes;
  }

  lemma Steps8And9()
    ensures WantStep(R7, Delivered(0, true)) == R8 && WantStep(R8, Delivered(0, true)) == R9
  {
    Dropped(R7, 0);
    Dropped(R8, 0);
  }

  function Late(): seq<WantEvent> { [Delivered(0, true), Delivered(0, true), Delivered(0, true), Delivered(0, true)] }

  function Early(): seq<WantEvent> { [Delivered(1, true), Delivered(1, true), Delivered(1, true), Delivered(1, true)] }

  lemma RunOn(n: Network, k: nat, es: seq<WantEvent>, end: Network)
    requires k < |n.wire| && n.wire[k].to < |n.nodes| && n.wire[k].dist < 0
    requires var n' := WantStep(n, Delivered(k, true));
      UndisturbedRun(n', es, Blob) && WantRun(n', es) && AfterWants(n', es) == end
    ensures var run := [Delivered(k, true)] + es;
      UndisturbedRun(n, run, Blob) && WantRun(n, run) && AfterWants(n, run) == end
  {
    var run := [Delivered(k, true)] + es;
    assert run[0] == Delivered(k, true) && run[1..] == es;
  }

  predicate Ready(n: Network, k: nat) { k < |n.wire| && n.wire[k].to < |n.nodes| && n.wire[k].dist < 0 }

  lemma FourSteps(a: Network, b: Network, c: Network, d: Network, e: Network, k: nat, es: seq<WantEvent>, end: Network)
    requires Ready(a, k) && Ready(b, k) && Ready(c, k) && Ready(d, k)
    requires WantStep(a, Delivered(k, true)) == b && WantStep(b, Delivered(k, true)) == c
    requires WantStep(c, Delivered(k, true)) == d && WantStep(d, Delivered(k, true)) == e
    requires UndisturbedRun(e, es, Blob) && WantRun(e, es) && AfterWants(e, es) == end
    ensures var x := Delivered(k, true); var run := [x, x, x, x] + es;
      UndisturbedRun(a, run, Blob) && WantRun(a, run) && AfterWants(a, run) == end
  {
    var x := Delivered(k, true);
    RunOn(d, k, es, end);
    RunOn(c, k, [x] + es, end);
    RunOn(b, k, [x] + ([x] + es), end);
    RunOn(a, k, [x] + ([x] + ([x] + es)), end);
    assert [x] + ([x] + ([x] + ([x] + es))) == [x, x, x, x] + es;
  }

  lemma LateRun()
    ensures UndisturbedRun(R5, Late(), Blob) && WantRun(R5, Late()) && AfterWants(R5, Late()) == R9
  {
    Step6();
    Step7();
    Steps8And9();
    FourSteps(R5, R6, R7, R8, R9, 0, [], R9);
    assert Late() + [] == Late();
  }

  lemma WholeRun()
    ensures UndisturbedRun(R1, Early() + Late(), Blob) && WantRun(R1, Early() + Late())
      && AfterWants(R1, Early() + Late()) == R9
  {
    LateRun();
    Step2();
    Step3();
    Step4();
    Step5();
    FourSteps(R1, R2, R3, R4, R5, 1, Late(), R9);
  }

  /** All packets are delivered, and node 6, four links away along 0, 1, 4, 5, does not know of the want. */
  lemma FourthMissed()
    ensures AllSane(R0) && AllSizes(R0) && Unasked(R0, Blob) && Way(View(R0, Blob), [0, 1, 4, 5, 6])
    ensures UndisturbedRun(WantStep(R0, LocalWant(0, Blob)), Early() + Late(), Blob)
    ensures var run := [LocalWant(0, Blob)] + (Early() + Late());
      && WantRun(R0, run) && AfterWants(R0, run) == R9 && Drained(R9, Blob)
      && (forall i :: 0 <= i < 7 ==> Blob !in R9.nodes[i].stored)
      && Blob !in R9.nodes[6].wants
  {
    Step1();
    WholeRun();
    FirstEvent(R0, LocalWant(0, Blob), Early() + Late(), R9);
    RingWay();
    RingBefore();
    RingAfter();
  }

  lemma FirstEvent(n: Network, e: WantEvent, es: seq<WantEvent>, end: Network)
    requires WantEnabled(n, e) && WantRun(WantStep(n, e), es) && AfterWants(WantStep(n, e), es) == end
    ensures WantRun(n, [e] + es) && AfterWants(n, [e] + es) == end
  {
    assert ([e] + es)[0] == e && ([e] + es)[1..] == es;
  }

  lemma RingBefore()
    ensures AllSane(R0) && AllSizes(R0) && Unasked(R0, Blob)
  {
    forall i | 0 <= i < 7
      ensures R0.nodes[i].wants == map[] && R0.nodes[i].stored == map[] && R0.nodes[i].remote == map[]
    {}
  }

  lemma RingAfter()
    ensures Drained(R9, Blob) && (forall i :: 0 <= i < 7 ==> Blob !in R9.nodes[i].stored) && Blob !in R9.nodes[6].wants
  {
    assert R9.nodes[6] == Node([5], None, map[]);
  }

  lemma RingWay()
    ensures Way(View(R0, Blob), [0, 1, 4, 5, 6])
  {
    var ps, path := View(R0, Blob), [0, 1, 4, 5, 6];
    assert ps[0].peers == [1, 2] && ps[1].peers == [0, 4] && ps[4].peers == [3, 1, 5] && ps[5].peers == [4, 6];
    assert [1, 2][0] == 1 && [0, 4][1] == 4 && [3, 1, 5][2] == 5 && [4, 6][1] == 6;
  }
}
