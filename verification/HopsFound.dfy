/**
 What the hop walk certainly finds beyond one hop.  A feed is marked visited when
 its loop is done, so it can be entered again on a way back, two steps deeper, and
 its friends are then visited too early.
 */
module HopsFound {
  import opened Feeds
  import opened Hops

  // ---------------------------------------------------------------- visited sets

  lemma {:induction false} EachGrows(g: FollowGraph, list: Listing, s: Walk, who: Feed, follows: seq<Feed>, k: nat,
                                     depth: int)
    requires Lists(g, list) && VisitedWalked(g, s) && depth > 0 && k <= |follows|
    ensures var part := Each(g, list, s, who, follows[..k], depth);
      VisitedWalked(g, part) && Grows(part, Each(g, list, s, who, follows, depth))
    decreases |follows| - k
  {
    EachFinds(g, list, s, who, follows[..k], depth);
    if k < |follows| {
      EachGrows(g, list, s, who, follows, k + 1, depth);
      assert follows[..k + 1][..k] == follows[..k];
      StepFinds(g, list, Each(g, list, s, who, follows[..k], depth), who, follows[k], depth);
    } else {
      assert follows[..k] == follows;
    }
  }

  /** At depth one only the feed itself is marked. */
  lemma {:induction false} EachAtOne(g: FollowGraph, list: Listing, s: Walk, who: Feed, follows: seq<Feed>)
    ensures Each(g, list, s, who, follows, 1).vis == s.vis
    decreases |follows|
  {
    if follows != [] { EachAtOne(g, list, s, who, follows[..|follows| - 1]); }
  }

  lemma RecurseAtOne(g: FollowGraph, list: Listing, s: Walk, who: Feed)
    ensures Recurse(g, list, s, who, 1).vis == s.vis + {who}
  {
    if who !in s.vis {
      EachAtOne(g, list, s.(calls := s.calls + 1), who, list(s.calls, who));
    } else {
      assert s.vis + {who} == s.vis;
    }
  }

  /** At depth two: the feed and its friends. */
  lemma {:induction false} EachAtTwo(g: FollowGraph, list: Listing, s: Walk, who: Feed, follows: seq<Feed>)
    ensures forall v :: v in Each(g, list, s, who, follows, 2).vis ==> v in s.vis || (v in follows && who in g(v))
    decreases |follows|
  {
    if follows != [] {
      var last := |follows| - 1;
      EachAtTwo(g, list, s, who, follows[..last]);
      var s1 := Each(g, list, s, who, follows[..last], 2);
      RecurseAtOne(g, list, s1.(walked := s1.walked + {follows[last]}), follows[last]);
    }
  }

  // ---------------------------------------------------------------- two hops

  /** Friends of the start that are visited have had their friends visited. */
  ghost predicate Deep(g: FollowGraph, from: Feed, vis: set<Feed>) {
    forall b, c :: b in vis && Friends(g, from, b) && Friends(g, b, c) ==> c in vis
  }

  /** The start does not follow itself, and no two of its friends are friends. */
  ghost predicate NoTriangle(g: FollowGraph, from: Feed) {
    && from !in g(from)
    && forall p, q :: Friends(g, from, p) && Friends(g, from, q) && p != q ==> !Friends(g, p, q)
  }

  lemma FriendAtTwo(g: FollowGraph, list: Listing, s: Walk, from: Feed, b: Feed)
    requires Lists(g, list) && VisitedWalked(g, s) && NoTriangle(g, from) && Friends(g, from, b) && Deep(g, from, s.vis)
    ensures Deep(g, from, Recurse(g, list, s, b, 2).vis)
  {
    if b !in s.vis {
      var follows := list(s.calls, b);
      EachFinds(g, list, s.(calls := s.calls + 1), b, follows, 2);
      EachAtTwo(g, list, s.(calls := s.calls + 1), b, follows);
    }
  }

  lemma {:induction false} EachDeep(g: FollowGraph, list: Listing, s: Walk, from: Feed, follows: seq<Feed>)
    requires Lists(g, list) && VisitedWalked(g, s) && NoTriangle(g, from) && Deep(g, from, s.vis)
    requires forall q :: q in follows ==> q in g(from)
    ensures Deep(g, from, Each(g, list, s, from, follows, 3).vis)
    decreases |follows|
  {
    if follows != [] {
      var last := |follows| - 1;
      EachDeep(g, list, s, from, follows[..last]);
      EachFinds(g, list, s, from, follows[..last], 3);
      var s1, q := Each(g, list, s, from, follows[..last], 3), follows[last];
      if from in g(q) { FriendAtTwo(g, list, s1.(walked := s1.walked + {q}), from, q); }
    }
  }

  /** Feeds up to two steps away are visited, if friends are, and friends of friends with them. */
  lemma TwoHops(g: FollowGraph, from: Feed, r: Walk)
    requires VisitedWalked(g, r) && from in r.vis
    requires forall b :: Friends(g, from, b) ==> b in r.vis
    requires forall b, c :: Friends(g, from, b) && Friends(g, b, c) ==> c in r.vis
    ensures FollowedWithin(g, from, 2) <= r.walked
  {
    forall p | p in Reach(g, from, 2) ensures p in r.vis {
      assert Reach(g, from, 0) == {from};
      if p !in Reach(g, from, 1) {
        var b :| b in Reach(g, from, 1) && p in g(b) && b in g(p);
        assert b == from || Friends(g, from, b);
        assert b != from ==> Friends(g, b, p);
        assert b == from ==> Friends(g, from, p);
      } else {
        assert p == from || Friends(g, from, p);
      }
    }
  }

  /**
   A maximum of two, the last one the documentation spells out, is exact in every order of the listings if the feed does
   not follow itself and no two of its friends are friends.
   */
  lemma TwoExact(g: FollowGraph, list: Listing, from: Feed)
    requires Lists(g, list) && NoTriangle(g, from)
    ensures Hops.Hops(g, list, from, 2) == Exact(g, from, 2)
  {
    var s := Walk({}, {}, 1);
    var follows := list(0, from);
    HopsBounds(g, list, from, 2);
    EachFinds(g, list, s, from, follows, 3);
    EachDeep(g, list, s, from, follows);
    var r := Recurse(g, list, Walk({}, {}, 0), from, 3);
    RecurseFinds(g, list, Walk({}, {}, 0), from, 3);
    assert r.vis == Each(g, list, s, from, follows, 3).vis + {from};
    TwoHops(g, from, r);
  }

  // ---------------------------------------------------------------- every even maximum

  /** Friendship leads from one colour to the other, so all ways back take an even number of steps. */
  ghost predicate TwoColoured(g: FollowGraph, colour: Feed -> bool) {
    forall p, q :: Friends(g, p, q) ==> colour(p) != colour(q)
  }

  /** Feeds of the other colour are entered at even depths, hence with their friends. */
  ghost predicate Even(g: FollowGraph, colour: Feed -> bool, from: Feed, vis: set<Feed>) {
    forall v, c :: v in vis && colour(v) != colour(from) && Friends(g, v, c) ==> c in vis
  }

  predicate InStep(colour: Feed -> bool, from: Feed, who: Feed, depth: int) {
    depth % 2 == if colour(who) == colour(from) then 1 else 0
  }

  lemma {:induction false} RecurseEven(g: FollowGraph, list: Listing, colour: Feed -> bool, from: Feed, s: Walk,
                                       who: Feed, depth: int)
    requires Lists(g, list) && VisitedWalked(g, s) && TwoColoured(g, colour)
    requires InStep(colour, from, who, depth) && Even(g, colour, from, s.vis)
    ensures Even(g, colour, from, Recurse(g, list, s, who, depth).vis)
    decreases depth, 2, 0
  {
    if depth > 0 && who !in s.vis {
      var s1, follows := s.(calls := s.calls + 1), list(s.calls, who);
      EachEven(g, list, colour, from, s1, who, follows, depth);
      EachFinds(g, list, s1, who, follows, depth);
    }
  }

  lemma {:induction false} EachEven(g: FollowGraph, list: Listing, colour: Feed -> bool, from: Feed, s: Walk,
                                    who: Feed, follows: seq<Feed>, depth: int)
    requires Lists(g, list) && VisitedWalked(g, s) && TwoColoured(g, colour) && depth > 0
    requires InStep(colour, from, who, depth) && Even(g, colour, from, s.vis)
    requires forall q :: q in follows ==> q in g(who)
    ensures Even(g, colour, from, Each(g, list, s, who, follows, depth).vis)
    decreases depth, 1, |follows|
  {
    if follows != [] {
      var last := |follows| - 1;
      EachEven(g, list, colour, from, s, who, follows[..last], depth);
      EachFinds(g, list, s, who, follows[..last], depth);
      var s1, q := Each(g, list, s, who, follows[..last], depth), follows[last];
      if who in g(q) {
        assert Friends(g, who, q);
        RecurseEven(g, list, colour, from, s1.(walked := s1.walked + {q}), q, depth - 1);
      }
    }
  }

  /** Every even maximum finds everything up to two hops, if friendship is two-coloured. */
  lemma EvenFinds(g: FollowGraph, list: Listing, colour: Feed -> bool, from: Feed, max: int)
    requires Lists(g, list) && TwoColoured(g, colour) && max >= 2 && max % 2 == 0
    ensures Exact(g, from, 2) <= Hops.Hops(g, list, from, max)
  {
    var s := Walk({}, {}, 0);
    var r := Recurse(g, list, s, from, max + 1);
    RecurseEven(g, list, colour, from, s, from, max + 1);
    RecurseFinds(g, list, s, from, max + 1);
    EachFinds(g, list, s.(calls := 1), from, list(0, from), max + 1);
    TwoHops(g, from, r);
  }

  ghost predicate TwoHopsAlways(max: int) {
    forall g: FollowGraph, list: Listing, colour: Feed -> bool, from: Feed ::
      Lists(g, list) && TwoColoured(g, colour) ==> Exact(g, from, 2) <= Hops.Hops(g, list, from, max)
  }

  /** From two on, two hops are certain on all two-coloured graphs exactly for the even maxima: more finds less. */
  lemma TwoHopsIffEven(max: int)
    requires max >= 2
    ensures TwoHopsAlways(max) <==> max % 2 == 0
  {
    if max % 2 == 0 {
      forall g: FollowGraph, list: Listing, colour: Feed -> bool, from: Feed | Lists(g, list) && TwoColoured(g, colour)
        ensures Exact(g, from, 2) <= Hops.Hops(g, list, from, max)
      {
        EvenFinds(g, list, colour, from, max);
      }
    } else {
      OddMisses(max);
    }
  }

  // Feeds 0 - 1 - 2 - 3 in a row of friends, and 0 follows 4.  From 2, feed 3 is listed first: the ways back from 3 end
  // in entering 2 at depth two and 1 at depth one, so 1 is marked before its friend 0 could be entered.

  function RowNames(i: int): seq<Feed> {
    if i == 0 then [Nth(1), Nth(4)]
    else if i == 1 then [Nth(0), Nth(2)]
    else if i == 2 then [Nth(3), Nth(1)]
    else if i == 3 then [Nth(2)]
    else []
  }

  function Row(): FollowGraph { (f: Feed) => set q | q in RowNames(|f.key|) }

  function RowList(): Listing { (n: nat, f: Feed) => RowNames(|f.key|) }

  function RowColour(): Feed -> bool { (f: Feed) => |f.key| % 2 == 0 }

  lemma RowIs()
    ensures Lists(Row(), RowList()) && TwoColoured(Row(), RowColour())
    ensures forall i :: 0 <= i ==> |Nth(i).key| == i
  {
    forall p, q | Friends(Row(), p, q) ensures RowColour()(p) != RowColour()(q) { RowPair(p, q); }
  }

  lemma RowPair(p: Feed, q: Feed)
    requires q in RowNames(|p.key|) && p in RowNames(|q.key|)
    ensures |p.key| % 2 != |q.key| % 2
  {
    RowStep(|p.key|, q);
  }

  lemma RowStep(i: int, q: Feed)
    requires q in RowNames(i)
    ensures (i == 0 && |q.key| == 4) || |q.key| == i + 1 || |q.key| == i - 1
  {}

  lemma {:induction false} OddRow(s: Walk, depth: int)
    requires depth >= 2 && depth % 2 == 0 && s.vis == {} && Nth(4) !in s.walked
    ensures var r := Recurse(Row(), RowList(), s, Nth(2), depth);
      Nth(1) in r.vis && Nth(3) in r.vis && Nth(4) !in r.walked
    decreases depth
  {
    RowIs();
    var g, list := Row(), RowList();
    var s1 := s.(calls := s.calls + 1);
    TwoFollows(g, list, s1, Nth(2), Nth(3), Nth(1), depth);
    var s2 := EachStep(g, list, s1, Nth(2), Nth(3), depth);
    OddBack(s1.(walked := s1.walked + {Nth(3)}), depth - 1);
    assert Nth(2) in g(Nth(3)) && Nth(2) in g(Nth(1));
    if depth == 2 {
      OddEnd(s2.(walked := s2.walked + {Nth(1)}));
    }
  }

  /** On the way back feed 2 is entered again. */
  lemma {:induction false} OddBack(s: Walk, depth: int)
    requires depth >= 1 && depth % 2 == 1 && s.vis == {} && Nth(4) !in s.walked
    ensures var r := Recurse(Row(), RowList(), s, Nth(3), depth);
      Nth(3) in r.vis && Nth(4) !in r.walked && (if depth == 1 then r.vis == {Nth(3)} else Nth(1) in r.vis)
    decreases depth
  {
    RowIs();
    var g, list := Row(), RowList();
    var s1 := s.(calls := s.calls + 1);
    OneFollow(g, list, s1, Nth(3), Nth(2), depth);
    assert Nth(3) in g(Nth(2)) && Nth(2) != Nth(4);
    var s2 := s1.(walked := s1.walked + {Nth(2)});
    if depth > 1 { OddRow(s2, depth - 1); }
  }

  lemma OneFollow(g: FollowGraph, list: Listing, s: Walk, who: Feed, q: Feed, depth: int)
    requires depth > 0
    ensures Each(g, list, s, who, [q], depth) == EachStep(g, list, s, who, q, depth)
  {
    assert [q][..0] == [];
  }

  lemma OddEnd(s: Walk)
    requires Nth(4) !in s.walked
    ensures var r := Recurse(Row(), RowList(), s, Nth(1), 1); r.vis == s.vis + {Nth(1)} && Nth(4) !in r.walked
  {
    RowIs();
    RecurseAtOne(Row(), RowList(), s, Nth(1));
    var s1 := s.(calls := s.calls + 1);
    TwoFollows(Row(), RowList(), s1, Nth(1), Nth(0), Nth(2), 1);
    assert Nth(0) != Nth(4) && Nth(2) != Nth(4);
  }

  lemma OddMisses(max: int)
    requires max >= 2 && max % 2 == 1
    ensures !TwoHopsAlways(max)
  {
    RowIs();
    OddHops(max);
    RowReached();
    FollowedExactly(Row(), Nth(2), Nth(0), Nth(4), 2);
    NotAlways(Row(), RowList(), RowColour(), Nth(2), Nth(4), max);
  }

  lemma OddHops(max: int)
    requires max >= 2 && max % 2 == 1
    ensures Nth(4) !in Hops.Hops(Row(), RowList(), Nth(2), max)
  {
    OddRow(Walk({}, {}, 0), max + 1);
  }

  lemma NotAlways(g: FollowGraph, list: Listing, colour: Feed -> bool, from: Feed, f: Feed, max: int)
    requires Lists(g, list) && TwoColoured(g, colour) && f in Exact(g, from, 2) && f !in Hops.Hops(g, list, from, max)
    ensures !TwoHopsAlways(max)
  {}

  lemma RowReached()
    ensures Nth(0) in Reach(Row(), Nth(2), 2) && Nth(4) in Row()(Nth(0)) && Nth(4) != Nth(2)
  {
    RowIs();
    var chain := [Nth(2), Nth(1), Nth(0)];
    assert Friends(Row(), Nth(2), Nth(1)) && Friends(Row(), Nth(1), Nth(0));
    ChainReached(Row(), chain, Nth(2), Nth(0), 2);
  }

  // ---------------------------------------------------------------- every maximum

  /** Whenever `p` is looked up, `q` is the first friend in the listing. */
  ghost predicate FirstFriend(g: FollowGraph, list: Listing, p: Feed, q: Feed) {
    forall n: nat :: exists j :: FirstAt(g, list(n, p), p, q, j)
  }

  ghost predicate FirstAt(g: FollowGraph, follows: seq<Feed>, p: Feed, q: Feed, j: int) {
    0 <= j < |follows| && follows[j] == q && p in g(q) && forall i :: 0 <= i < j ==> p !in g(follows[i])
  }

  lemma {:induction false} NoFriends(g: FollowGraph, list: Listing, s: Walk, who: Feed, follows: seq<Feed>, depth: int)
    requires depth > 0 && forall q :: q in follows ==> who !in g(q)
    ensures Each(g, list, s, who, follows, depth).vis == s.vis
    decreases |follows|
  {
    if follows != [] { NoFriends(g, list, s, who, follows[..|follows| - 1], depth); }
  }

  lemma {:induction false} FirstDescent(g: FollowGraph, list: Listing, s: Walk, chain: seq<Feed>, depth: int)
    requires Lists(g, list) && s.vis == {} && 1 <= |chain| <= depth
    requires forall i :: 0 < i < |chain| ==> FirstFriend(g, list, chain[i - 1], chain[i])
    ensures g(chain[|chain| - 1]) <= Recurse(g, list, s, chain[0], depth).walked
    decreases |chain|
  {
    var who := chain[0];
    var s1, follows := s.(calls := s.calls + 1), list(s.calls, who);
    EachFinds(g, list, s1, who, follows, depth);
    if |chain| > 1 {
      assert FirstFriend(g, list, chain[0], chain[1]);
      var j :| FirstAt(g, follows, who, chain[1], j);
      NoFriends(g, list, s1, who, follows[..j], depth);
      var s2 := Each(g, list, s1, who, follows[..j], depth);
      FirstDescent(g, list, s2.(walked := s2.walked + {chain[1]}), chain[1..], depth - 1);
      assert follows[..j + 1][..j] == follows[..j];
      EachGrows(g, list, s1, who, follows, j + 1, depth);
    }
  }

  /** For every graph and maximum: along first friends the walk goes to its full depth, whatever else there is. */
  lemma FirstFriendsFound(g: FollowGraph, list: Listing, chain: seq<Feed>, max: int, f: Feed)
    requires Lists(g, list) && 1 <= |chain| <= max + 1 && f in g(chain[|chain| - 1]) && f != chain[0]
    requires forall i :: 0 < i < |chain| ==> FirstFriend(g, list, chain[i - 1], chain[i])
    ensures f in Hops.Hops(g, list, chain[0], max)
  {
    FirstDescent(g, list, Walk({}, {}, 0), chain, max + 1);
  }
}
