/**
 The hop walk: a depth-bounded recursion over mutual follows that shares one
 set of visited feeds, on graphs without metafeed relations.
 */
module Hops {
  import opened Feeds

  /** Whom a feed follows. */
  type FollowGraph = Feed -> set<Feed>

  /** The order in which the n-th look-up lists the follows of a feed; sets are listed in any order. */
  type Listing = (nat, Feed) -> seq<Feed>

  ghost predicate Lists(g: FollowGraph, list: Listing) {
    forall n: nat, f: Feed, q: Feed :: q in list(n, f) <==> q in g(f)
  }

  /** The shared sets, and the number of look-ups so far. */
  datatype Walk = Walk(walked: set<Feed>, vis: set<Feed>, calls: nat)

  function Recurse(g: FollowGraph, list: Listing, s: Walk, who: Feed, depth: int): Walk
    decreases depth, 2, 0
  {
    if depth <= 0 || who in s.vis then s
    else
      var follows := list(s.calls, who);
      var r := Each(g, list, s.(calls := s.calls + 1), who, follows, depth);
      r.(vis := r.vis + {who})
  }

  /** The loop over the follows of one feed. */
  function Each(g: FollowGraph, list: Listing, s: Walk, who: Feed, follows: seq<Feed>, depth: int): Walk
    requires depth > 0
    decreases depth, 1, |follows|
  {
    if follows == [] then s
    else
      var last := |follows| - 1;
      EachStep(g, list, Each(g, list, s, who, follows[..last], depth), who, follows[last], depth)
  }

  /** A follow is walked; a friend is recursed into. */
  function EachStep(g: FollowGraph, list: Listing, s: Walk, who: Feed, q: Feed, depth: int): Walk
    requires depth > 0
    decreases depth, 0, 0
  {
    var s1 := s.(walked := s.walked + {q});
    if who in g(q) then Recurse(g, list, s1, q, depth - 1) else s1
  }

  function Hops(g: FollowGraph, list: Listing, from: Feed, max: int): set<Feed> {
    Recurse(g, list, Walk({}, {}, 0), from, max + 1).walked - {from}
  }

  // ---------------------------------------------------------------- what the walk is for

  /** Feeds at most `k` mutual-follow steps away. */
  function Reach(g: FollowGraph, from: Feed, k: int): set<Feed>
    decreases k
  {
    if k < 0 then {}
    else if k == 0 then {from}
    else Reach(g, from, k - 1) + set p, q | p in Reach(g, from, k - 1) && q in g(p) && p in g(q) :: q
  }

  /** Feeds followed by some feed at most `k` steps away. */
  function FollowedWithin(g: FollowGraph, from: Feed, k: int): set<Feed> {
    set p, f | p in Reach(g, from, k) && f in g(p) :: f
  }

  function Exact(g: FollowGraph, from: Feed, max: int): set<Feed> { FollowedWithin(g, from, max) - {from} }

  lemma {:induction false} ReachGrows(g: FollowGraph, from: Feed, k: int, k': int)
    requires k <= k'
    ensures Reach(g, from, k) <= Reach(g, from, k') && FollowedWithin(g, from, k) <= FollowedWithin(g, from, k')
    decreases k' - k
  {
    if k < k' {
      ReachGrows(g, from, k, k' - 1);
      ReachNext(g, from, k');
      FollowedMore(g, from, k, k');
    }
  }

  lemma ReachNext(g: FollowGraph, from: Feed, k: int)
    ensures Reach(g, from, k - 1) <= Reach(g, from, k)
  {}

  lemma FollowedMore(g: FollowGraph, from: Feed, k: int, k': int)
    requires Reach(g, from, k) <= Reach(g, from, k')
    ensures FollowedWithin(g, from, k) <= FollowedWithin(g, from, k')
  {}

  // ---------------------------------------------------------------- soundness

  lemma {:induction false} RecurseSound(g: FollowGraph, list: Listing, s: Walk, who: Feed, depth: int, from: Feed,
                                        k: int, max: int)
    requires Lists(g, list) && who in Reach(g, from, k) && 0 <= k && k + depth - 1 <= max
    requires s.walked <= FollowedWithin(g, from, max)
    ensures Recurse(g, list, s, who, depth).walked <= FollowedWithin(g, from, max)
    decreases depth, 2, 0
  {
    if depth > 0 && who !in s.vis {
      EachSound(g, list, s.(calls := s.calls + 1), who, list(s.calls, who), depth, from, k, max);
    }
  }

  lemma {:induction false} EachSound(g: FollowGraph, list: Listing, s: Walk, who: Feed, follows: seq<Feed>, depth: int,
                                     from: Feed, k: int, max: int)
    requires Lists(g, list) && who in Reach(g, from, k) && 0 <= k && k + depth - 1 <= max && depth > 0
    requires s.walked <= FollowedWithin(g, from, max) && forall q :: q in follows ==> q in g(who)
    ensures Each(g, list, s, who, follows, depth).walked <= FollowedWithin(g, from, max)
    decreases depth, 1, |follows|
  {
    if follows != [] {
      var last := |follows| - 1;
      EachSound(g, list, s, who, follows[..last], depth, from, k, max);
      StepSound(g, list, Each(g, list, s, who, follows[..last], depth), who, follows[last], depth, from, k, max);
    }
  }

  lemma {:induction false} StepSound(g: FollowGraph, list: Listing, s: Walk, who: Feed, q: Feed, depth: int, from: Feed,
                                     k: int, max: int)
    requires Lists(g, list) && who in Reach(g, from, k) && 0 <= k && k + depth - 1 <= max && depth > 0
    requires s.walked <= FollowedWithin(g, from, max) && q in g(who)
    ensures EachStep(g, list, s, who, q, depth).walked <= FollowedWithin(g, from, max)
    decreases depth, 0, 0
  {
    FollowFound(g, from, who, q, k, max);
    if who in g(q) {
      RecurseSound(g, list, s.(walked := s.walked + {q}), q, depth - 1, from, k + 1, max);
    }
  }

  lemma FollowFound(g: FollowGraph, from: Feed, who: Feed, q: Feed, k: int, max: int)
    requires who in Reach(g, from, k) && 0 <= k <= max && q in g(who)
    ensures q in FollowedWithin(g, from, max)
    ensures who in g(q) ==> q in Reach(g, from, k + 1)
  {
    ReachGrows(g, from, k, max);
  }

  // ---------------------------------------------------------------- what is certainly found

  /** The follows of visited feeds have been walked. */
  ghost predicate VisitedWalked(g: FollowGraph, s: Walk) {
    forall v :: v in s.vis ==> g(v) <= s.walked
  }

  predicate Grows(s: Walk, s': Walk) { s.walked <= s'.walked && s.vis <= s'.vis }

  lemma {:induction false} RecurseFinds(g: FollowGraph, list: Listing, s: Walk, who: Feed, depth: int)
    requires Lists(g, list) && VisitedWalked(g, s)
    ensures var r := Recurse(g, list, s, who, depth);
      Grows(s, r) && VisitedWalked(g, r) && (depth > 0 ==> who in r.vis)
    decreases depth, 2, 0
  {
    if depth > 0 && who !in s.vis {
      EachFinds(g, list, s.(calls := s.calls + 1), who, list(s.calls, who), depth);
    }
  }

  lemma {:induction false} EachFinds(g: FollowGraph, list: Listing, s: Walk, who: Feed, follows: seq<Feed>, depth: int)
    requires Lists(g, list) && VisitedWalked(g, s) && depth > 0
    ensures var r := Each(g, list, s, who, follows, depth);
      && Grows(s, r) && VisitedWalked(g, r)
      && (forall q :: q in follows ==> q in r.walked)
      && (forall q :: q in follows && who in g(q) && depth > 1 ==> q in r.vis)
    decreases depth, 1, |follows|
  {
    if follows != [] {
      var last := |follows| - 1;
      EachFinds(g, list, s, who, follows[..last], depth);
      StepFinds(g, list, Each(g, list, s, who, follows[..last], depth), who, follows[last], depth);
      assert forall q :: q in follows ==> q in follows[..last] || q == follows[last];
    }
  }

  lemma {:induction false} StepFinds(g: FollowGraph, list: Listing, s: Walk, who: Feed, q: Feed, depth: int)
    requires Lists(g, list) && VisitedWalked(g, s) && depth > 0
    ensures var r := EachStep(g, list, s, who, q, depth);
      && Grows(s, r) && VisitedWalked(g, r) && q in r.walked
      && (who in g(q) && depth > 1 ==> q in r.vis)
    decreases depth, 0, 0
  {
    if who in g(q) {
      RecurseFinds(g, list, s.(walked := s.walked + {q}), q, depth - 1);
    }
  }

  /** For every graph, order and depth: nothing too far, and everything up to one hop. */
  lemma HopsBounds(g: FollowGraph, list: Listing, from: Feed, max: int)
    requires Lists(g, list)
    ensures Hops(g, list, from, max) <= Exact(g, from, max)
    ensures Exact(g, from, if max < 1 then max else 1) <= Hops(g, list, from, max)
  {
    if max >= 0 {
      RecurseSound(g, list, Walk({}, {}, 0), from, max + 1, from, 0, max);
      FindsDirect(g, list, from, max);
    }
  }

  lemma FindsDirect(g: FollowGraph, list: Listing, from: Feed, max: int)
    requires Lists(g, list) && max >= 0
    ensures FollowedWithin(g, from, if max < 1 then 0 else 1) <= Recurse(g, list, Walk({}, {}, 0), from, max + 1).walked
  {
    var s := Walk({}, {}, 0);
    var r := Recurse(g, list, s, from, max + 1);
    RecurseFinds(g, list, s, from, max + 1);
    EachFinds(g, list, s.(calls := 1), from, list(0, from), max + 1);
    if max >= 1 {
      OneHop(g, from, r);
    }
  }

  lemma NoHops(g: FollowGraph, from: Feed)
    ensures Exact(g, from, 0) == g(from) - {from}
  {
    assert Reach(g, from, 0) == {from};
  }

  lemma OneHop(g: FollowGraph, from: Feed, r: Walk)
    requires VisitedWalked(g, r) && from in r.vis
    requires forall q :: q in g(from) && from in g(q) ==> q in r.vis
    ensures FollowedWithin(g, from, 1) <= r.walked
  {
    forall p | p in Reach(g, from, 1) ensures g(p) <= r.walked {
      assert Reach(g, from, 0) == {from};
      assert p == from || (p in g(from) && from in g(p));
    }
  }

  // ---------------------------------------------------------------- when the walk is exact

  ghost predicate AlwaysExact(max: int) {
    forall g: FollowGraph, list: Listing, from: Feed :: Lists(g, list)
      ==> Hops(g, list, from, max) == Exact(g, from, max)
  }

  /** The shared visited set makes the result exact for every graph and order if and only if max is at most one. */
  lemma HopsExactIff(max: int)
    ensures AlwaysExact(max) <==> max <= 1
  {
    if max <= 1 {
      forall g: FollowGraph, list: Listing, from: Feed | Lists(g, list)
        ensures Hops(g, list, from, max) == Exact(g, from, max)
      {
        HopsBounds(g, list, from, max);
      }
    } else {
      DetourMisses(max);
    }
  }

  // A triangle 0, 1, 2 of friends with a chain of friends 2, 3, .., max + 1, whose last member follows max + 2.  From
  // 0, feed 2 is first entered through 1 and marked visited; the direct way, one step shorter, is then not taken.

  function Nth(i: int): Feed
    requires 0 <= i
  {
    Feed(seq(i, _ => 'x'), Ssb1)
  }

  function Names(max: int, i: int): seq<Feed>
    requires 0 <= i && 2 <= max
  {
    if i == 0 then [Nth(1), Nth(2)]
    else if i == 1 then [Nth(0), Nth(2)]
    else if i == 2 then [Nth(0), Nth(1), Nth(3)]
    else if i <= max + 1 then [Nth(i - 1), Nth(i + 1)]
    else []
  }

  function Detour(max: int): FollowGraph
    requires 2 <= max
  {
    (f: Feed) => set q | q in Names(max, |f.key|)
  }

  function DetourList(max: int): Listing
    requires 2 <= max
  {
    (n: nat, f: Feed) => Names(max, |f.key|)
  }

  /** No call goes deeper than the detour allows, except the first. */
  predicate Limited(max: int, who: Feed, depth: int) {
    if |who.key| == 0 then depth <= max else depth <= max + 1 - |who.key|
  }

  lemma {:induction false} DetourRecurse(max: int, s: Walk, who: Feed, depth: int)
    requires 2 <= max && Limited(max, who, depth) && Nth(max + 2) !in s.walked
    ensures Nth(max + 2) !in Recurse(Detour(max), DetourList(max), s, who, depth).walked
    decreases depth, 2, 0
  {
    if depth > 0 && who !in s.vis {
      DetourEach(max, s.(calls := s.calls + 1), who, Names(max, |who.key|), depth);
    }
  }

  lemma {:induction false} DetourEach(max: int, s: Walk, who: Feed, follows: seq<Feed>, depth: int)
    requires 2 <= max && depth > 0 && Limited(max, who, depth) && Nth(max + 2) !in s.walked
    requires forall q :: q in follows ==> q in Names(max, |who.key|)
    ensures Nth(max + 2) !in Each(Detour(max), DetourList(max), s, who, follows, depth).walked
    decreases depth, 1, |follows|
  {
    if follows != [] {
      var last := |follows| - 1;
      DetourEach(max, s, who, follows[..last], depth);
      var q := follows[last];
      var s1 := Each(Detour(max), DetourList(max), s, who, follows[..last], depth);
      FollowLimited(max, who, q, depth);
      if who in Detour(max)(q) {
        DetourRecurse(max, s1.(walked := s1.walked + {q}), q, depth - 1);
      }
    }
  }

  lemma FollowLimited(max: int, who: Feed, q: Feed, depth: int)
    requires 2 <= max && depth > 0 && Limited(max, who, depth) && q in Names(max, |who.key|)
    ensures Limited(max, q, depth - 1) && q != Nth(max + 2)
  {
    assert forall i | 0 <= i :: |Nth(i).key| == i;
  }

  lemma DetourLists(max: int)
    requires 2 <= max
    ensures Lists(Detour(max), DetourList(max))
  {}

  /** The triangle's other friend is walked first, so feed 2 is already visited. */
  lemma DetourTop(max: int)
    requires 2 <= max
    ensures Nth(max + 2) !in Hops(Detour(max), DetourList(max), Nth(0), max)
  {
    var g, list, a, b, x := Detour(max), DetourList(max), Nth(0), Nth(1), Nth(2);
    assert |a.key| == 0 && |b.key| == 1 && |x.key| == 2 && |Nth(max + 2).key| == max + 2;
    var s := Walk({}, {}, 1);
    TwoFollows(g, list, s, a, b, x, max + 1);
    assert {} + {b} == {b};
    DetourOther(max, Walk({b}, {}, 1));
  }

  lemma TwoFollows(g: FollowGraph, list: Listing, s: Walk, who: Feed, q: Feed, q': Feed, depth: int)
    requires depth > 0
    ensures Each(g, list, s, who, [q, q'], depth)
      == EachStep(g, list, EachStep(g, list, s, who, q, depth), who, q', depth)
  {
    assert [q, q'][..1] == [q] && [q][..0] == [];
    assert Each(g, list, s, who, [q], depth) == EachStep(g, list, Each(g, list, s, who, [], depth), who, q, depth);
  }

  lemma DetourOther(max: int, s: Walk)
    requires 2 <= max && s.vis == {} && Nth(max + 2) !in s.walked
    ensures var r := Recurse(Detour(max), DetourList(max), s, Nth(1), max);
      Nth(2) in r.vis && Nth(max + 2) !in r.walked
  {
    assert |Nth(1).key| == 1 && |Nth(2).key| == 2;
    DetourRecurse(max, s, Nth(1), max);
    DetourLists(max);
    assert Nth(2) in Names(max, 1) && Nth(1) in Detour(max)(Nth(2));
    EachFinds(Detour(max), DetourList(max), s.(calls := s.calls + 1), Nth(1), Names(max, 1), max);
  }

  predicate Friends(g: FollowGraph, p: Feed, q: Feed) { q in g(p) && p in g(q) }

  predicate FriendChain(g: FollowGraph, chain: seq<Feed>) {
    chain != [] && forall i :: 0 < i < |chain| ==> Friends(g, chain[i - 1], chain[i])
  }

  /** The last member of a chain of friends is as many steps away as the chain is long. */
  lemma {:induction false} ChainReached(g: FollowGraph, chain: seq<Feed>, from: Feed, to: Feed, k: int)
    requires FriendChain(g, chain) && k == |chain| - 1 && chain[0] == from && chain[k] == to
    ensures to in Reach(g, from, k)
    decreases |chain|
  {
    if k > 0 {
      ChainReached(g, chain[..k], from, chain[k - 1], k - 1);
      FriendReached(g, from, chain[k - 1], to, k);
    }
  }

  lemma FollowedExactly(g: FollowGraph, from: Feed, p: Feed, f: Feed, k: int)
    requires p in Reach(g, from, k) && f in g(p) && f != from
    ensures f in Exact(g, from, k)
  {}

  lemma DetourReached(max: int)
    requires 2 <= max
    ensures Nth(max + 1) in Reach(Detour(max), Nth(0), max)
  {
    DetourChainFriends(max);
    ChainReached(Detour(max), DetourChain(max + 1), Nth(0), Nth(max + 1), max);
  }

  /** 0, 2, 3, .. */
  function DetourChain(n: nat): (r: seq<Feed>)
    ensures |r| == n && forall i :: 0 <= i < n ==> r[i] == Nth(if i == 0 then 0 else i + 1)
  {
    if n == 0 then [] else DetourChain(n - 1) + [Nth(if n == 1 then 0 else n)]
  }

  lemma DetourChainFriends(max: int)
    requires 2 <= max
    ensures FriendChain(Detour(max), DetourChain(max + 1))
  {
    var chain := DetourChain(max + 1);
    forall i | 0 < i < |chain| ensures Friends(Detour(max), chain[i - 1], chain[i]) {
      DetourFriends(max, if i == 1 then 0 else i, i + 1);
    }
  }

  lemma DetourFriends(max: int, i: int, j: int)
    requires 2 <= max && 2 <= j <= max + 1 && (i == j - 1 || (i == 0 && j == 2))
    ensures Friends(Detour(max), Nth(i), Nth(j))
  {
    assert |Nth(i).key| == i && |Nth(j).key| == j;
  }

  lemma FriendReached(g: FollowGraph, from: Feed, p: Feed, q: Feed, k: int)
    requires k >= 1 && p in Reach(g, from, k - 1) && q in g(p) && p in g(q)
    ensures q in Reach(g, from, k)
  {}

  lemma DetourMisses(max: int)
    requires 2 <= max
    ensures !AlwaysExact(max)
  {
    DetourLists(max);
    DetourTop(max);
    DetourReached(max);
    DetourLast(max);
    FollowedExactly(Detour(max), Nth(0), Nth(max + 1), Nth(max + 2), max);
  }

  lemma DetourLast(max: int)
    requires 2 <= max
    ensures Nth(max + 2) in Detour(max)(Nth(max + 1)) && Nth(max + 2) != Nth(0)
  {
    assert |Nth(max + 1).key| == max + 1 && |Nth(max + 2).key| == max + 2 && |Nth(0).key| == 0;
  }

  // ---------------------------------------------------------------- the program's object

  /** One walk: both sets are shared by all calls. */
  class Walker {
    const g: FollowGraph
    const list: Listing
    var walked: set<Feed>
    var vis: set<Feed>
    var calls: nat

    constructor (g: FollowGraph, list: Listing)
      ensures this.g == g && this.list == list && State() == Walk({}, {}, 0)
    {
      this.g, this.list := g, list;
      walked, vis, calls := {}, {}, 0;
    }

    ghost function State(): Walk
      reads this
    {
      Walk(walked, vis, calls)
    }

    method RecurseHops(who: Feed, depth: int)
      modifies this
      ensures State() == Recurse(g, list, old(State()), who, depth)
      decreases depth, 1
    {
      if depth <= 0 || who in vis {
        return;
      }
      var follows := list(calls, who);
      calls := calls + 1;
      ghost var start := State();
      assert Each(g, list, start, who, follows[..0], depth) == start;
      for i := 0 to |follows|
        invariant State() == Each(g, list, start, who, follows[..i], depth)
      {
        assert follows[..i + 1][..i] == follows[..i];
        walked := walked + {follows[i]};
        var back := g(follows[i]);
        if who in back { // a friend
          RecurseHops(follows[i], depth - 1);
        }
      }
      assert follows[..|follows|] == follows;
      vis := vis + {who};
    }
  }

  method HopsFrom(g: FollowGraph, list: Listing, from: Feed, max: int) returns (r: set<Feed>)
    requires Lists(g, list)
    ensures r == Hops(g, list, from, max)
    ensures max <= 1 ==> r == Exact(g, from, max)
  {
    var walker := new Walker(g, list);
    walker.RecurseHops(from, max + 1);
    HopsBounds(g, list, from, max);
    r := walker.walked - {from};
  }
}
