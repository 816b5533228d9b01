/**
 Serving a feed's history: the stored part first, then new messages as they
 arrive, through one multi-sink per feed.
 */
module History {
  import opened Feeds

  const MaxInt64: int := 0x7fff_ffff_ffff_ffff

  /** The 64-bit result of adding or subtracting two 64-bit numbers. */
  function Int64(x: int): int {
    if x > MaxInt64 then x - 0x1_0000_0000_0000_0000
    else if x < -MaxInt64 - 1 then x + 0x1_0000_0000_0000_0000
    else x
  }

  /** A forward request without bounds; `sequence` counts from one, zero means from the start. */
  datatype HistArgs = HistArgs(sequence: int, limit: int, live: bool)

  // ---------------------------------------------------------------- the two limits

  function NonliveLimit(arg: HistArgs, current: int): int {
    if arg.limit == -1 then -1
    else
      var last := Int64(Int64(arg.sequence + arg.limit) - 1);
      Int64(Int64((if last > current then current else last) - arg.sequence) + 1)
  }

  function LiveLimit(arg: HistArgs, current: int): int {
    if arg.limit == -1 then -1
    else
      var last := Int64(Int64(arg.sequence + arg.limit) - 1);
      if last < current then 0 else Int64(Int64(last - (current + 1)) + 1)
  }

  /** For a positive limit the two parts always share it out, as long as the last index fits 64 bits. */
  lemma LimitsSum(arg: HistArgs, n: int)
    requires 0 <= arg.sequence <= n < MaxInt64 && 0 < arg.limit && arg.sequence + arg.limit <= MaxInt64
    ensures NonliveLimit(arg, n - 1) + LiveLimit(arg, n - 1) == arg.limit
    ensures NonliveLimit(arg, n - 1) == if arg.limit < n - arg.sequence then arg.limit else n - arg.sequence
  {}

  // ---------------------------------------------------------------- the manager's state

  /** The position of the newest message and the sinks with the position that ends their subscription. */
  datatype Multi = Multi(sequence: int, sinks: map<nat, int>)

  datatype Serving = Serving(
    feeds: map<Feed, seq<Msg>>,   // the stored feeds
    live: map<Feed, Multi>,
    got: map<nat, seq<Msg>>,      // what each sink received
    closed: set<nat>,
    failing: set<nat>)            // sinks whose next write fails

  function Stored(s: Serving, a: Feed): seq<Msg> { if a in s.feeds then s.feeds[a] else [] }

  /** A margaret query over one feed. */
  function Query(feed: seq<Msg>, from: int, limit: int): seq<Msg> {
    var rest := if from <= 0 then feed else if from > |feed| then [] else feed[from..];
    if limit < 0 || limit >= |rest| then rest else rest[..limit]
  }

  /** The zero-based start. */
  function Start(arg: HistArgs): int { if arg.sequence == 0 then 0 else arg.sequence - 1 }

  predicate Beyond(arg: HistArgs, n: nat) { arg.sequence != 0 && Start(arg) >= n }

  /** The request as the limits see it: a live request for nothing that is stored means no limit. */
  function Effective(arg: HistArgs, n: nat): HistArgs {
    HistArgs(Start(arg), if !Beyond(arg, n) && arg.live && arg.limit == 0 then -1 else arg.limit, arg.live)
  }

  function StoredPart(feed: seq<Msg>, arg: HistArgs): seq<Msg> {
    var eff := Effective(arg, |feed|);
    if Beyond(arg, |feed|) then [] else Query(feed, eff.sequence, NonliveLimit(eff, |feed| - 1))
  }

  function LiveEnd(arg: HistArgs, latest: int): int {
    var limit := LiveLimit(arg, latest);
    if limit == -1 then MaxInt64 else Int64(latest + limit)
  }

  /** The position at which the live subscription ends. */
  function Until(arg: HistArgs, n: nat): int { LiveEnd(Effective(arg, n), n - 1) }

  function Subscribe(s: Serving, id: nat, a: Feed, at: int, until: int): Serving {
    var mu := if a in s.live then s.live[a] else Multi(at, map[]);
    s.(live := s.live[a := mu.(sinks := mu.sinks[id := until])])
  }

  /** After the stored part: live requests are subscribed, the others closed. */
  function Finished(s: Serving, id: nat, a: Feed, arg: HistArgs, latest: int): Serving {
    if arg.live then Subscribe(s, id, a, latest, LiveEnd(arg, latest)) else s.(closed := s.closed + {id})
  }

  /** A request from a new sink. */
  function Request(s: Serving, id: nat, a: Feed, arg: HistArgs): Serving {
    var feed := Stored(s, a);
    Finished(s.(got := s.got[id := StoredPart(feed, arg)]), id, a, Effective(arg, |feed|), |feed| - 1)
  }

  /** A new message of the receive log. */
  function Arrive(s: Serving, m: Msg): Serving {
    var s1 := s.(feeds := s.feeds[m.author := Stored(s, m.author) + [m]]);
    if m.author !in s.live then s1
    else
      var mu := s.live[m.author];
      s1.(live := s.live[m.author := Passed(mu, s.failing)], got := Heard(s.got, mu.sinks.Keys - s.failing, m))
  }

  /** A sink that failed or reached its end is dropped, after the message was passed to it. */
  function Passed(mu: Multi, failing: set<nat>): Multi {
    Multi(mu.sequence + 1, map id | id in mu.sinks && id !in failing && mu.sinks[id] > mu.sequence + 1 :: mu.sinks[id])
  }

  function Heard(got: map<nat, seq<Msg>>, ids: set<nat>, m: Msg): map<nat, seq<Msg>> {
    map id | id in got :: if id in ids then got[id] + [m] else got[id]
  }

  datatype ServeEvent = Arrived(m: Msg) | Requested(id: nat, a: Feed, arg: HistArgs) | Broke(id: nat)

  predicate ServeEnabled(s: Serving, e: ServeEvent) {
    match e
    case Arrived(m) => true
    case Requested(id, a, arg) => id !in s.got
    case Broke(id) => id in s.got
  }

  function ServeStep(s: Serving, e: ServeEvent): Serving {
    match e
    case Arrived(m) => Arrive(s, m)
    case Requested(id, a, arg) => Request(s, id, a, arg)
    case Broke(id) => s.(failing := s.failing + {id})
  }

  predicate ServeRun(s: Serving, es: seq<ServeEvent>)
    decreases |es|
  {
    es == [] || (ServeEnabled(s, es[0]) && ServeRun(ServeStep(s, es[0]), es[1..]))
  }

  function AfterServing(s: Serving, es: seq<ServeEvent>): Serving
    decreases |es|
  {
    if es == [] then s else AfterServing(ServeStep(s, es[0]), es[1..])
  }

  /** Multi-sinks stand at the end of their feed, and know only sinks that exist. */
  ghost predicate InSync(s: Serving) {
    && (forall a :: a in s.live ==> s.live[a].sequence == |Stored(s, a)| - 1)
    && (forall a, id :: a in s.live && id in s.live[a].sinks ==> id in s.got)
    && s.failing <= s.got.Keys
  }

  lemma StepKeepsInSync(s: Serving, e: ServeEvent)
    requires InSync(s) && ServeEnabled(s, e)
    ensures InSync(ServeStep(s, e))
  {
    match e
    case Arrived(m) => ArriveKeepsInSync(s, m);
    case Requested(id, a, arg) => RequestKeepsInSync(s, id, a, arg);
    case Broke(id) =>
  }

  lemma ArriveKeepsInSync(s: Serving, m: Msg)
    requires InSync(s)
    ensures InSync(Arrive(s, m))
  {}

  lemma RequestKeepsInSync(s: Serving, id: nat, a: Feed, arg: HistArgs)
    requires InSync(s)
    ensures InSync(Request(s, id, a, arg))
  {}

  lemma {:induction false} RunKeepsInSync(s: Serving, es: seq<ServeEvent>)
    requires InSync(s) && ServeRun(s, es)
    ensures InSync(AfterServing(s, es))
    decreases |es|
  {
    if es != [] {
      StepKeepsInSync(s, es[0]);
      RunKeepsInSync(ServeStep(s, es[0]), es[1..]);
    }
  }

  // ---------------------------------------------------------------- what one sink receives

  /** What a subscription made when `n` messages were stored has received from the feed. */
  function LivePart(feed: seq<Msg>, n: nat, until: int): seq<Msg>
    requires n <= |feed|
  {
    feed[n..Min(|feed|, Max(until, n) + 1)]
  }

  function Min(a: int, b: int): int { if a < b then a else b }
  function Max(a: int, b: int): int { if a < b then b else a }

  /** Sink `id` asked for feed `a` when it had `n` messages; `first` is the stored part it got. */
  ghost predicate Following(s: Serving, id: nat, a: Feed, first: seq<Msg>, n: nat, until: int) {
    && InSync(s) && n <= |Stored(s, a)| && a in s.live
    && id in s.got && id !in s.failing
    && s.got[id] == first + LivePart(Stored(s, a), n, until)
    && (forall b :: b in s.live && id in s.live[b].sinks ==> b == a && s.live[b].sinks[id] == until)
    && (id in s.live[a].sinks <==> |Stored(s, a)| <= Max(until, n))
  }

  lemma RequestFollows(s: Serving, id: nat, a: Feed, arg: HistArgs)
    requires InSync(s) && id !in s.got && arg.live
    ensures var feed := Stored(s, a);
      Following(Request(s, id, a, arg), id, a, StoredPart(feed, arg), |feed|, Until(arg, |feed|))
  {
    var feed := Stored(s, a);
    var r := Request(s, id, a, arg);
    StepKeepsInSync(s, Requested(id, a, arg));
    assert Stored(r, a) == feed;
    assert LivePart(feed, |feed|, Until(arg, |feed|)) == [];
  }

  lemma LivePartGrows(feed: seq<Msg>, m: Msg, n: nat, until: int)
    requires n <= |feed|
    ensures LivePart(feed + [m], n, until) == LivePart(feed, n, until) + if |feed| <= Max(until, n) then [m] else []
  {}

  lemma OwnArrives(s: Serving, m: Msg, id: nat, a: Feed, first: seq<Msg>, n: nat, until: int)
    requires Following(s, id, a, first, n, until) && m.author == a
    ensures Following(Arrive(s, m), id, a, first, n, until)
  {
    var feed := Stored(s, a);
    var r := Arrive(s, m);
    StepKeepsInSync(s, Arrived(m));
    assert Stored(r, a) == feed + [m];
    LivePartGrows(feed, m, n, until);
    var more := if |feed| <= Max(until, n) then [m] else [];
    assert r.got[id] == first + (LivePart(feed, n, until) + more);
  }

  lemma OtherArrives(s: Serving, m: Msg, id: nat, a: Feed, first: seq<Msg>, n: nat, until: int)
    requires Following(s, id, a, first, n, until) && m.author != a
    ensures Following(Arrive(s, m), id, a, first, n, until)
  {
    StepKeepsInSync(s, Arrived(m));
    assert Stored(Arrive(s, m), a) == Stored(s, a);
  }

  lemma OthersRequest(s: Serving, e: ServeEvent, id: nat, a: Feed, first: seq<Msg>, n: nat, until: int)
    requires Following(s, id, a, first, n, until) && e.Requested? && ServeEnabled(s, e)
    ensures Following(ServeStep(s, e), id, a, first, n, until)
  {
    StepKeepsInSync(s, e);
    assert ServeStep(s, e).got[id] == s.got[id];
  }

  lemma {:induction false} RunFollowing(s: Serving, es: seq<ServeEvent>, id: nat, a: Feed, first: seq<Msg>, n: nat,
                                        until: int)
    requires Following(s, id, a, first, n, until) && ServeRun(s, es) && Broke(id) !in es
    ensures Following(AfterServing(s, es), id, a, first, n, until)
    decreases |es|
  {
    if es != [] {
      var e := es[0];
      match e {
        case Arrived(m) =>
          if m.author == a {
            OwnArrives(s, m, id, a, first, n, until);
          } else {
            OtherArrives(s, m, id, a, first, n, until);
          }
        case Requested(jd, b, arg) => OthersRequest(s, e, id, a, first, n, until);
        case Broke(jd) => StepKeepsInSync(s, e);
      }
      RunFollowing(ServeStep(s, e), es[1..], id, a, first, n, until);
    }
  }

  /** The state after a request and whatever happens next. */
  function AfterRequest(s: Serving, id: nat, a: Feed, arg: HistArgs, es: seq<ServeEvent>): Serving {
    AfterServing(Request(s, id, a, arg), es)
  }

  ghost predicate Scenario(s: Serving, id: nat, a: Feed, arg: HistArgs, es: seq<ServeEvent>) {
    && InSync(s) && id !in s.got && ServeRun(Request(s, id, a, arg), es) && Broke(id) !in es
    && 0 <= arg.sequence <= MaxInt64 && -1 <= arg.limit <= MaxInt64
    && |Stored(AfterRequest(s, id, a, arg, es), a)| < MaxInt64
  }

  /** Messages up to and including the first limit: what the peer asked for. */
  function Wanted(feed: seq<Msg>, arg: HistArgs): seq<Msg>
    requires 0 <= arg.sequence
  {
    if Start(arg) > |feed| then []
    else if arg.limit == -1 then feed[Start(arg)..]
    else feed[Start(arg)..Min(|feed|, Max(Start(arg), Start(arg) + arg.limit))]
  }

  /** The run only ever extends the feed. */
  lemma {:induction false} FeedGrows(s: Serving, es: seq<ServeEvent>, a: Feed)
    ensures Stored(s, a) <= Stored(AfterServing(s, es), a)
    decreases |es|
  {
    if es != [] {
      assert Stored(s, a) <= Stored(ServeStep(s, es[0]), a);
      FeedGrows(ServeStep(s, es[0]), es[1..], a);
    }
  }

  /** Everything a live request delivers, in terms of the final feed and the number of messages stored when it came. */
  function Served(feed: seq<Msg>, n: nat, arg: HistArgs): seq<Msg>
    requires n <= |feed| && 0 <= arg.sequence && -1 <= arg.limit
  {
    var start, limit := Start(arg), arg.limit;
    if Beyond(arg, n) then
      if limit == -1 then feed[n..] else if start + limit - 1 > MaxInt64 then feed[n..Min(|feed|, n + 1)]
      else feed[n..Min(|feed|, Max(n + 1, start + limit))]
    else if limit <= 0 then feed[start..]
    else if n - start < limit && start + limit - 1 <= MaxInt64 then feed[start..Min(|feed|, start + limit)]
    else feed[start..Min(n, start + limit)] + feed[n..Min(|feed|, n + 1)]
  }

  lemma HistoryServes(s: Serving, id: nat, a: Feed, arg: HistArgs, es: seq<ServeEvent>)
    requires Scenario(s, id, a, arg, es) && arg.live
    ensures var end := AfterRequest(s, id, a, arg, es);
      && Stored(s, a) <= Stored(end, a)
      && id in end.got && end.got[id] == Served(Stored(end, a), |Stored(s, a)|, arg)
  {
    var feed := Stored(s, a);
    var n := |feed|;
    var end := AfterRequest(s, id, a, arg, es);
    RequestFollows(s, id, a, arg);
    RunFollowing(Request(s, id, a, arg), es, id, a, StoredPart(feed, arg), n, Until(arg, n));
    FeedGrows(Request(s, id, a, arg), es, a);
    ServedParts(Stored(end, a), n, arg);
    assert Stored(end, a)[..n] == feed;
  }

  ghost predicate Sensible(feed: seq<Msg>, n: nat, arg: HistArgs) {
    n <= |feed| < MaxInt64 && arg.live && 0 <= arg.sequence <= MaxInt64 && -1 <= arg.limit <= MaxInt64
  }

  lemma ServedParts(feed: seq<Msg>, n: nat, arg: HistArgs)
    requires Sensible(feed, n, arg)
    ensures StoredPart(feed[..n], arg) + LivePart(feed, n, Until(arg, n)) == Served(feed, n, arg)
  {
    var until := UntilValue(arg, n);
    if Beyond(arg, n) {
      assert [] + LivePart(feed, n, until) == LivePart(feed, n, until);
    } else {
      StoredPartIs(feed, n, arg);
      JoinParts(feed, n, arg, until);
    }
  }

  lemma UntilValue(arg: HistArgs, n: nat) returns (until: int)
    requires Sensible([], 0, arg) && n < MaxInt64
    ensures until == Until(arg, n)
    ensures arg.limit == -1 || (arg.limit == 0 && !Beyond(arg, n)) ==> until == MaxInt64
    ensures arg.limit >= 0 && (arg.limit > 0 || Beyond(arg, n)) ==>
      until
        == if n <= Start(arg) + arg.limit && Start(arg) + arg.limit - 1 <= MaxInt64 then Start(arg) + arg.limit - 1
        else n - 1
  {
    until := Until(arg, n);
  }

  lemma JoinParts(feed: seq<Msg>, n: nat, arg: HistArgs, until: int)
    requires Sensible(feed, n, arg) && !Beyond(arg, n)
    requires arg.limit <= 0 ==> until == MaxInt64
    requires arg.limit > 0 ==>
      until
        == if n <= Start(arg) + arg.limit && Start(arg) + arg.limit - 1 <= MaxInt64 then Start(arg) + arg.limit - 1
        else n - 1
    ensures feed[Start(arg)..if arg.limit <= 0 then n else Min(n, Start(arg) + arg.limit)] + LivePart(feed, n, until)
         == Served(feed, n, arg)
  {
    var start := Start(arg);
    if arg.limit <= 0 {
      Join(feed, start, n, |feed|);
    } else if n - start < arg.limit && start + arg.limit - 1 <= MaxInt64 {
      Join(feed, start, n, Min(|feed|, start + arg.limit));
    }
  }

  lemma Join(feed: seq<Msg>, i: int, j: int, k: int)
    requires 0 <= i <= j <= k <= |feed|
    ensures feed[i..j] + feed[j..k] == feed[i..k]
  {}

  lemma StoredPartIs(feed: seq<Msg>, n: nat, arg: HistArgs)
    requires Sensible(feed, n, arg) && !Beyond(arg, n)
    ensures StoredPart(feed[..n], arg) == feed[Start(arg)..if arg.limit <= 0 then n else Min(n, Start(arg) + arg.limit)]
  {
    var start := Start(arg);
    assert feed[..n][start..] == feed[start..n];
    if 0 < arg.limit {
      var k := Min(n, start + arg.limit);
      assert feed[start..n][..k - start] == feed[start..k];
    }
  }

  // ---------------------------------------------------------------- the promise and when it is kept

  /** What is asked for, by message numbers: those from the given one on, from the first if none is given. */
  lemma WantedByNumber(feed: seq<Msg>, arg: HistArgs)
    requires Chain(feed) && 0 <= arg.sequence && -1 <= arg.limit
    ensures var first, w := Max(arg.sequence, 1), Wanted(feed, arg);
      && (forall j :: 0 <= j < |w| ==> w[j].sequence == first + j && w[j] in feed)
      && (forall m ::
            m in feed && first <= m.sequence && (arg.limit == -1 || m.sequence < first + arg.limit) ==> m in w)
      && (arg.limit >= 0 ==> |w| <= arg.limit)
  {
    var first, w := Max(arg.sequence, 1), Wanted(feed, arg);
    forall m | m in feed && first <= m.sequence && (arg.limit == -1 || m.sequence < first + arg.limit) ensures m in w {
      var i :| 0 <= i < |feed| && feed[i] == m;
      assert w[i - Start(arg)] == m;
    }
  }

  /**
   A live request is served exactly what it asks for, without gap or overlap, if and only if it starts at most one
   past the stored end and its limit, if it has one, reaches beyond the stored messages (and fits 64 bits).  Every
   failure shows once the feed is two messages past its stored end and the start.
   */
  lemma HistoryExactIff(s: Serving, id: nat, a: Feed, arg: HistArgs, es: seq<ServeEvent>)
    requires Scenario(s, id, a, arg, es) && arg.live
    ensures var end, n, start := AfterRequest(s, id, a, arg, es), |Stored(s, a)|, Start(arg);
      var kept := start <= n && (arg.limit == -1 || (n - start < arg.limit && start + arg.limit - 1 <= MaxInt64));
      && id in end.got
      && (kept ==> end.got[id] == Wanted(Stored(end, a), arg))
      && (!kept && |Stored(end, a)| >= Max(n, start) + 2 ==> end.got[id] != Wanted(Stored(end, a), arg))
  {
    HistoryServes(s, id, a, arg, es);
    ServedExactIff(Stored(AfterRequest(s, id, a, arg, es), a), |Stored(s, a)|, arg);
  }

  lemma ServedExactIff(feed: seq<Msg>, n: nat, arg: HistArgs)
    requires n <= |feed| < MaxInt64 && 0 <= arg.sequence && -1 <= arg.limit
    ensures var start := Start(arg);
      var kept := start <= n && (arg.limit == -1 || (n - start < arg.limit && start + arg.limit - 1 <= MaxInt64));
      && (kept ==> Served(feed, n, arg) == Wanted(feed, arg))
      && (!kept && |feed| >= Max(n, start) + 2 ==> |Served(feed, n, arg)| != |Wanted(feed, arg)|)
  {}

  /** With a limit beyond the stored part, the sink is dropped exactly when that many messages have arrived. */
  lemma LimitDrops(s: Serving, id: nat, a: Feed, arg: HistArgs, es: seq<ServeEvent>)
    requires Scenario(s, id, a, arg, es) && arg.live && Start(arg) <= |Stored(s, a)|
    requires |Stored(s, a)| - Start(arg) < arg.limit && Start(arg) + arg.limit - 1 <= MaxInt64
    ensures var end := AfterRequest(s, id, a, arg, es);
      && a in end.live && id in end.got && |end.got[id]| <= arg.limit
      && (id in end.live[a].sinks <==> |end.got[id]| < arg.limit)
  {
    var feed := Stored(s, a);
    var r := Request(s, id, a, arg);
    FeedGrows(r, es, a);
    var until := UntilIs(feed, arg);
    RequestFollows(s, id, a, arg);
    RunFollowing(r, es, id, a, StoredPart(feed, arg), |feed|, until);
  }

  lemma UntilIs(feed: seq<Msg>, arg: HistArgs) returns (until: int)
    requires |feed| < MaxInt64 && arg.live && 0 <= arg.sequence <= MaxInt64
    requires Start(arg) <= |feed| && |feed| - Start(arg) < arg.limit <= MaxInt64
      && Start(arg) + arg.limit - 1 <= MaxInt64
    ensures until == Until(arg, |feed|) == Start(arg) + arg.limit - 1 >= |feed|
    ensures |StoredPart(feed, arg)| == |feed| - Start(arg)
  {
    until := Until(arg, |feed|);
  }

  /**
   A limit the stored part already exhausts: one live message too many, and a gap before it unless the limit is
   exact.
   */
  lemma LimitOvershoots(s: Serving, id: nat, a: Feed, arg: HistArgs, es: seq<ServeEvent>)
    requires Scenario(s, id, a, arg, es) && arg.live && 0 < arg.limit <= |Stored(s, a)| - Start(arg)
    requires |Stored(AfterRequest(s, id, a, arg, es), a)| > |Stored(s, a)|
    ensures var end, n, start := AfterRequest(s, id, a, arg, es), |Stored(s, a)|, Start(arg);
      id in end.got && end.got[id] == Stored(s, a)[start..start + arg.limit] + [Stored(end, a)[n]]
  {
    HistoryServes(s, id, a, arg, es);
    FeedGrows(Request(s, id, a, arg), es, a);
  }

  /**
   A live limit of zero, documented as an empty stream, means no limit if the start is stored, and one message if it
   is not.
   */
  lemma ZeroLimit(s: Serving, id: nat, a: Feed, arg: HistArgs, es: seq<ServeEvent>)
    requires Scenario(s, id, a, arg, es) && arg.live && arg.limit == 0
    requires |Stored(AfterRequest(s, id, a, arg, es), a)| > Max(|Stored(s, a)|, Start(arg))
    ensures var end, n, start := AfterRequest(s, id, a, arg, es), |Stored(s, a)|, Start(arg);
      && Wanted(Stored(end, a), arg) == []
      && id in end.got
      && (arg.sequence == 0 || start < n ==> end.got[id] == Stored(end, a)[start..])
      && (arg.sequence != 0 && start == n ==> end.got[id] == [Stored(end, a)[n]])
      && end.got[id] != []
  {
    HistoryServes(s, id, a, arg, es);
  }

  /** A request that is not live gets the stored messages it asks for, is closed, and hears nothing more. */
  lemma {:induction false} StoredOnly(s: Serving, id: nat, a: Feed, arg: HistArgs, es: seq<ServeEvent>)
    requires Scenario(s, id, a, arg, es) && !arg.live && Start(arg) + arg.limit - 1 <= MaxInt64
    ensures var end := AfterRequest(s, id, a, arg, es);
      id in end.got && id in end.closed && end.got[id] == Wanted(Stored(s, a), arg)
  {
    var r := Request(s, id, a, arg);
    StepKeepsInSync(s, Requested(id, a, arg));
    Silent(r, id, es);
    FeedGrows(r, es, a);
    StoredOnlyPart(Stored(s, a), arg);
  }

  lemma StoredOnlyPart(feed: seq<Msg>, arg: HistArgs)
    requires |feed| < MaxInt64 && !arg.live && 0 <= arg.sequence <= MaxInt64 && -1 <= arg.limit <= MaxInt64
    requires Start(arg) + arg.limit - 1 <= MaxInt64
    ensures StoredPart(feed, arg) == Wanted(feed, arg)
  {
    var start := Start(arg);
    if !Beyond(arg, |feed|) && arg.limit >= 0 {
      assert feed[start..][..Min(|feed|, start + arg.limit) - start] == feed[start..Min(|feed|, start + arg.limit)];
    }
  }

  lemma {:induction false} Silent(s: Serving, id: nat, es: seq<ServeEvent>)
    requires InSync(s) && ServeRun(s, es) && id in s.got && id in s.closed
    requires forall b :: b in s.live ==> id !in s.live[b].sinks
    ensures id in AfterServing(s, es).got && id in AfterServing(s, es).closed
    ensures AfterServing(s, es).got[id] == s.got[id]
    decreases |es|
  {
    if es != [] {
      StepKeepsInSync(s, es[0]);
      assert ServeStep(s, es[0]).got[id] == s.got[id];
      Silent(ServeStep(s, es[0]), id, es[1..]);
    }
  }

  // ---------------------------------------------------------------- the program's object

  class FeedManager {
    var feeds: map<Feed, seq<Msg>>
    var liveFeeds: map<Feed, Multi>
    var got: map<nat, seq<Msg>>
    var closed: set<nat>
    var failing: set<nat>

    constructor (stored: map<Feed, seq<Msg>>)
      ensures State() == Serving(stored, map[], map[], {}, {}) && InSync(State())
    {
      feeds, liveFeeds, got, closed, failing := stored, map[], map[], {}, {};
    }

    ghost function State(): Serving
      reads this
    {
      Serving(feeds, liveFeeds, got, closed, failing)
    }

    method AddLiveFeed(id: nat, a: Feed, latest: int, limit: int)
      modifies this`liveFeeds
      ensures State() == Subscribe(old(State()), id, a, latest, if limit == -1 then MaxInt64 else Int64(latest + limit))
    {
      if a !in liveFeeds {
        liveFeeds := liveFeeds[a := Multi(latest, map[])];
      }
      var until := Int64(latest + limit);
      if limit == -1 {
        until := MaxInt64;
      }
      var mu := liveFeeds[a];
      liveFeeds := liveFeeds[a := mu.(sinks := mu.sinks[id := until])];
    }

    method CreateStreamHistory(id: nat, a: Feed, request: HistArgs)
      modifies this`got, this`liveFeeds, this`closed
      ensures State() == Request(old(State()), id, a, request)
    {
      var userLog := if a in feeds then feeds[a] else [];
      var latest := |userLog| - 1;
      var arg, beyond := Resolve(request, latest);
      var part := [];
      if !beyond {
        part := Query(userLog, arg.sequence, NonliveLimit(arg, latest));
      }
      assert part == StoredPart(userLog, request);
      got := got[id := part];
      Finish(id, a, arg, latest);
    }

    /** Positions count from zero; `beyond`: more than is stored. */
    method Resolve(request: HistArgs, latest: int) returns (arg: HistArgs, beyond: bool)
      requires latest >= -1
      ensures arg == Effective(request, latest + 1) && beyond == Beyond(request, latest + 1)
    {
      arg := request;
      if arg.sequence != 0 {
        arg := arg.(sequence := arg.sequence - 1);
        if arg.sequence > latest {
          return arg, true;
        }
      }
      if arg.live && arg.limit == 0 {
        arg := arg.(limit := -1);
      }
      return arg, false;
    }

    /** Goes live or closes the sink. */
    method Finish(id: nat, a: Feed, arg: HistArgs, latest: int)
      modifies this`liveFeeds, this`closed
      ensures State() == Finished(old(State()), id, a, arg, latest)
    {
      if arg.live {
        AddLiveFeed(id, a, latest, LiveLimit(arg, latest));
        return;
      }
      closed := closed + {id};
    }

    /** The receive log grew by a message: it is stored and passed to the feed's multi-sink. */
    method Pour(m: Msg)
      requires InSync(State())
      modifies this`feeds, this`liveFeeds, this`got
      ensures State() == Arrive(old(State()), m)
      ensures InSync(State())
    {
      StepKeepsInSync(State(), Arrived(m));
      feeds := feeds[m.author := (if m.author in feeds then feeds[m.author] else []) + [m]];
      if m.author !in liveFeeds {
        return;
      }
      Send(m);
    }

    /** Passes the message to every sink of the feed, in any order. */
    method Send(m: Msg)
      requires m.author in liveFeeds && forall id :: id in liveFeeds[m.author].sinks ==> id in got
      modifies this`liveFeeds, this`got
      ensures liveFeeds == old(liveFeeds)[m.author := Passed(old(liveFeeds[m.author]), failing)]
      ensures got == Heard(old(got), old(liveFeeds[m.author].sinks).Keys - failing, m)
    {
      var mu := liveFeeds[m.author];
      var sequence := mu.sequence + 1;
      var left := mu.sinks;
      var todo := mu.sinks.Keys;
      assert got == Heard(got, {}, m);
      assert mu.sinks.Keys - todo - failing == {};
      while todo != {}
        invariant todo <= mu.sinks.Keys && liveFeeds == old(liveFeeds)
        invariant left == map id | id in mu.sinks
          && (id in todo || (id !in failing && mu.sinks[id] > sequence)) :: mu.sinks[id]
        invariant got == Heard(old(got), mu.sinks.Keys - todo - failing, m)
        decreases todo
      {
        var id :| id in todo;
        todo := todo - {id};
        if id !in failing {
          got := got[id := got[id] + [m]];
        }
        if id in failing || mu.sinks[id] <= sequence {
          left := left - {id};
        }
      }
      assert mu.sinks.Keys - {} - failing == mu.sinks.Keys - failing;
      assert Multi(sequence, left) == Passed(mu, failing);
      liveFeeds := liveFeeds[m.author := Multi(sequence, left)];
    }
  }
}
