/**
 Subset queries: a tree of and/or over author and type is evaluated on the
 bitmaps of the combined index, which are changed in place.
 */
module SubsetQuery {
  import opened Basics
  import opened Feeds
  import opened CombinedIndex

  datatype Operation =
    | ByAuthor(feed: Feed)
    | OfType(kind: string)
    | And(args: seq<Operation>)
    | Or(args: seq<Operation>)
    | Unknown(name: string)

  // ---------------------------------------------------------------- what a query means

  /** The type of a message's readable content. */
  function Kind(w: World, m: Msg, keys: set<Key>): Option<string> {
    var text :=
      if m.content == "" then None
      else if !Encrypted(m) then Some(m.content)
      else OpeningOf(w, m, keys).text;
    if text.None? then None
    else
      match w.parse(text.value)
      case None => None
      case Some(c) => if c.kind == "" then None else Some(c.kind)
  }

  lemma TypedFacts(w: World, m: Msg, keys: set<Key>, kind: string)
    ensures ByType(TypeAddr(kind)) in Facts(w, m, keys) <==> Kind(w, m, keys) == Some(kind)
  {
    assert forall k: string :: TypeAddr(k) == TypeAddr(kind) ==> k == TypeAddr(k)[7..] == kind;
    TopicKind(w, m.content, kind);
    if m.content != "" && Encrypted(m) {
      var o := OpeningOf(w, m, keys);
      if o.text.Some? { TopicKind(w, o.text.value, kind); }
    }
  }

  lemma TopicKind(w: World, text: string, kind: string)
    ensures ByType(TypeAddr(kind)) in Topics(w, text)
      <==> w.parse(text).Some? && w.parse(text).value.kind == kind != ""
  {
    assert forall k: string :: TypeAddr(k) == TypeAddr(kind) ==> k == TypeAddr(k)[7..] == kind;
  }

  predicate Satisfies(w: World, m: Msg, keys: set<Key>, q: Operation) {
    match q
    case ByAuthor(f) => m.author == f
    case OfType(k) => Kind(w, m, keys) == Some(k)
    case And(args) => forall i :: 0 <= i < |args| ==> Satisfies(w, m, keys, args[i])
    case Or(args) => exists i :: 0 <= i < |args| && Satisfies(w, m, keys, args[i])
    case Unknown(_) => false
  }

  /** The positions whose messages satisfy the query; position `p` was indexed with the keys `with[p]`. */
  ghost function Answer(w: World, log: seq<Msg>, with: seq<set<Key>>, q: Operation): set<int>
    requires |with| <= |log|
  {
    set p | 0 <= p < |with| && Satisfies(w, log[p], with[p], q)
  }

  // ---------------------------------------------------------------- evaluation

  /** `Nothing`: a nil bitmap.  `Undefined`: a nil bitmap was combined, which the bitmap library leaves open. */
  datatype Outcome = Bits(bits: set<int>) | Nothing | LoadFailed | Undefined

  function Load(idx: Index, e: Entry): Outcome {
    if Exists(idx, e) then Bits(Positions(idx, e)) else LoadFailed
  }

  function Combine(conj: bool, a: Outcome, b: Outcome): Outcome {
    if b.LoadFailed? then LoadFailed
    else if a.Bits? && b.Bits? then Bits(if conj then a.bits * b.bits else a.bits + b.bits)
    else Undefined
  }

  function Eval(idx: Index, q: Operation): Outcome
    decreases q
  {
    match q
    case ByAuthor(f) => Load(idx, User(f))
    case OfType(k) => Load(idx, ByType(TypeAddr(k)))
    case And(args) => EvalArgs(idx, true, args)
    case Or(args) => EvalArgs(idx, false, args)
    case Unknown(_) => LoadFailed
  }

  /** The arguments from left to right; the first failure or undefined combination decides. */
  function EvalArgs(idx: Index, conj: bool, args: seq<Operation>): Outcome
    decreases args
  {
    if args == [] then Nothing
    else if |args| == 1 then Eval(idx, args[0])
    else
      var last := |args| - 1;
      var before := EvalArgs(idx, conj, args[..last]);
      if before.LoadFailed? || before.Undefined? then before
      else Combine(conj, before, Eval(idx, args[last]))
  }

  /** Every and/or has arguments, every operation is known, every sublog asked for exists. */
  predicate Answerable(idx: Index, q: Operation) {
    match q
    case ByAuthor(f) => Exists(idx, User(f))
    case OfType(k) => Exists(idx, ByType(TypeAddr(k)))
    case And(args) => args != [] && forall i :: 0 <= i < |args| ==> Answerable(idx, args[i])
    case Or(args) => args != [] && forall i :: 0 <= i < |args| ==> Answerable(idx, args[i])
    case Unknown(_) => false
  }

  // ---------------------------------------------------------------- the planner equals a scan of the log

  /** A query has a bitmap if and only if it is answerable, and then the bitmap is exactly a scan of the log. */
  lemma {:induction false} PlannerEqualsScan(w: World, log: seq<Msg>, with: seq<set<Key>>, q: Operation)
    requires |with| <= |log|
    ensures EvalScans(w, log, with, Eval(Indexed(w, log, with), q), q)
    decreases q
  {
    var idx := Indexed(w, log, with);
    match q
    case ByAuthor(f) =>
      forall p ensures p in Positions(idx, User(f)) <==> p in Answer(w, log, with, q) {
        PositionsIndexed(w, log, with, f, p);
      }
    case OfType(k) =>
      forall p ensures p in Positions(idx, ByType(TypeAddr(k))) <==> p in Answer(w, log, with, q) {
        InPositions(idx, ByType(TypeAddr(k)), p);
        InIndexed(w, log, with, ByType(TypeAddr(k)), p);
        if 0 <= p < |with| { TypedFacts(w, log[p], with[p], k); }
      }
    case And(args) => ArgsEqualScan(w, log, with, args, true);
    case Or(args) => ArgsEqualScan(w, log, with, args, false);
    case Unknown(_) =>
  }

  function Joined(conj: bool, args: seq<Operation>): Operation { if conj then And(args) else Or(args) }

  lemma {:induction false} ArgsEqualScan(w: World, log: seq<Msg>, with: seq<set<Key>>, args: seq<Operation>, conj: bool)
    requires |with| <= |log|
    ensures EvalScans(w, log, with, EvalArgs(Indexed(w, log, with), conj, args), Joined(conj, args))
    decreases args
  {
    if |args| == 1 {
      PlannerEqualsScan(w, log, with, args[0]);
    } else if args != [] {
      var last := |args| - 1;
      ArgsEqualScan(w, log, with, args[..last], conj);
      PlannerEqualsScan(w, log, with, args[last]);
      CombineScans(w, log, with, args, conj);
    }
  }

  /** The outcome is a bitmap just for answerable queries, and then it is the answer. */
  ghost predicate EvalScans(w: World, log: seq<Msg>, with: seq<set<Key>>, r: Outcome, q: Operation)
    requires |with| <= |log|
  {
    (r.Bits? <==> Answerable(Indexed(w, log, with), q)) && (r.Bits? ==> r.bits == Answer(w, log, with, q))
  }

  lemma CombineScans(w: World, log: seq<Msg>, with: seq<set<Key>>, args: seq<Operation>, conj: bool)
    requires |with| <= |log| && |args| > 1
    requires var idx, last := Indexed(w, log, with), |args| - 1;
      && EvalScans(w, log, with, EvalArgs(idx, conj, args[..last]), Joined(conj, args[..last]))
      && EvalScans(w, log, with, Eval(idx, args[last]), args[last])
    ensures EvalScans(w, log, with, EvalArgs(Indexed(w, log, with), conj, args), Joined(conj, args))
  {
    AnswerableSplit(Indexed(w, log, with), args, conj);
    AnswerSplit(w, log, with, args, conj);
  }

  lemma AnswerableSplit(idx: Index, args: seq<Operation>, conj: bool)
    requires |args| > 1
    ensures Answerable(idx, Joined(conj, args))
       <==> Answerable(idx, Joined(conj, args[..|args| - 1])) && Answerable(idx, args[|args| - 1])
  {
    var last := |args| - 1;
    assert forall i :: 0 <= i < |args| ==> args[i] == if i < last then args[..last][i] else args[last];
  }

  lemma AnswerSplit(w: World, log: seq<Msg>, with: seq<set<Key>>, args: seq<Operation>, conj: bool)
    requires |args| > 1 && |with| <= |log|
    ensures var a, b := Answer(w, log, with, Joined(conj, args[..|args| - 1])), Answer(w, log, with, args[|args| - 1]);
      Answer(w, log, with, Joined(conj, args)) == if conj then a * b else a + b
  {
    forall p | 0 <= p < |with| ensures var last := |args| - 1;
      Satisfies(w, log[p], with[p], Joined(conj, args))
        == if conj then Satisfies(w, log[p], with[p], Joined(conj, args[..last]))
          && Satisfies(w, log[p], with[p], args[last])
           else Satisfies(w, log[p], with[p], Joined(conj, args[..last])) || Satisfies(w, log[p], with[p], args[last])
    {
      SatisfiesSplit(w, log[p], with[p], args, conj);
    }
  }

  lemma SatisfiesSplit(w: World, m: Msg, keys: set<Key>, args: seq<Operation>, conj: bool)
    requires |args| > 1
    ensures var last := |args| - 1;
      Satisfies(w, m, keys, Joined(conj, args))
        == if conj then Satisfies(w, m, keys, Joined(conj, args[..last])) && Satisfies(w, m, keys, args[last])
           else Satisfies(w, m, keys, Joined(conj, args[..last])) || Satisfies(w, m, keys, args[last])
  {
    var last := |args| - 1;
    assert forall i :: 0 <= i < last ==> args[..last][i] == args[i];
    if !conj && Satisfies(w, m, keys, Or(args)) {
      var i :| 0 <= i < |args| && Satisfies(w, m, keys, args[i]);
      if i < last { assert Satisfies(w, m, keys, args[..last][i]); }
    }
  }

  /** The author of a query need not be known: then the scan is empty, but the planner reports an error. */
  lemma UnknownAuthorFails(w: World, log: seq<Msg>, with: seq<set<Key>>, f: Feed)
    requires |with| <= |log| && forall p :: 0 <= p < |with| ==> log[p].author != f
    ensures Answer(w, log, with, ByAuthor(f)) == {} && Eval(Indexed(w, log, with), ByAuthor(f)) == LoadFailed
  {
    forall p ensures p !in Positions(Indexed(w, log, with), User(f)) { PositionsIndexed(w, log, with, f, p); }
  }

  // ---------------------------------------------------------------- the program's objects

  /** A bitmap is changed in place. */
  class Bitmap {
    var bits: set<int>

    constructor (bits: set<int>)
      ensures this.bits == bits
    {
      this.bits := bits;
    }

    method And(other: Bitmap)
      modifies this
      ensures bits == old(bits) * old(other.bits)
    {
      bits := bits * other.bits;
    }

    method Or(other: Bitmap)
      modifies this
      ensures bits == old(bits) + old(other.bits)
    {
      bits := bits + other.bits;
    }
  }

  ghost predicate Represents(status: Outcome, bitmap: Bitmap?, r: Outcome)
    reads bitmap
  {
    && (bitmap != null <==> r.Bits?)
    && (if r.Bits? then status.Bits? && bitmap.bits == r.bits else status == r)
  }

  class SubsetPlanner {
    var index: Index

    constructor (index: Index)
      ensures this.index == index
    {
      this.index := index;
    }

    /** A new copy of a sublog's bitmap. */
    method LoadBitmap(e: Entry) returns (status: Outcome, bitmap: Bitmap?)
      ensures Represents(status, bitmap, Load(index, e))
      ensures bitmap != null ==> fresh(bitmap)
    {
      if !Exists(index, e) {
        return LoadFailed, null;
      }
      bitmap := new Bitmap(Positions(index, e));
      status := Bits({});
    }

    /** The first argument's bitmap takes in the others. */
    method CombineBitmaps(q: Operation) returns (status: Outcome, bitmap: Bitmap?)
      ensures Represents(status, bitmap, Eval(index, q))
      ensures bitmap != null ==> fresh(bitmap)
      decreases q
    {
      match q {
        case ByAuthor(f) => status, bitmap := LoadBitmap(User(f));
        case OfType(k) => status, bitmap := LoadBitmap(ByType(TypeAddr(k)));
        case Unknown(_) => return LoadFailed, null;
        case And(args) => status, bitmap := CombineArgs(true, args);
        case Or(args) => status, bitmap := CombineArgs(false, args);
      }
    }

    method CombineArgs(conj: bool, args: seq<Operation>) returns (status: Outcome, bitmap: Bitmap?)
      ensures Represents(status, bitmap, EvalArgs(index, conj, args))
      ensures bitmap != null ==> fresh(bitmap)
      decreases args
    {
      if |args| == 0 {
        return Nothing, null;
      }
      status, bitmap := CombineBitmaps(args[0]);
      assert args[..1] == [args[0]];
      if status.LoadFailed? || status.Undefined? {
        StopsAt(index, conj, args, 1);
        return;
      }
      for i := 1 to |args|
        invariant Represents(status, bitmap, EvalArgs(index, conj, args[..i]))
        invariant !status.LoadFailed? && !status.Undefined?
        invariant bitmap != null ==> fresh(bitmap)
      {
        assert args[..i + 1][..i] == args[..i];
        var s, next := CombineBitmaps(args[i]);
        if s.LoadFailed? || s.Undefined? || bitmap == null || next == null {
          StopsAt(index, conj, args, i + 1);
          return if s.LoadFailed? then LoadFailed else Undefined, null;
        }
        if conj {
          bitmap.And(next);
        } else {
          bitmap.Or(next);
        }
      }
      assert args[..|args|] == args;
    }

    /** The messages of the combined bitmap, in log order. */
    method QuerySubsetMessages(log: seq<Msg>, q: Operation) returns (r: Option<seq<Msg>>)
      requires forall p :: Eval(index, q).Bits? && p in Eval(index, q).bits ==> 0 <= p < |log|
      ensures var e := Eval(index, q);
        r == if e.Bits? then Some(Picked(log, 0, e.bits)) else if e.Nothing? then Some([]) else None
    {
      var status, resulting := CombineBitmaps(q);
      if resulting == null {
        return if status.Nothing? then Some([]) else None;
      }
      var msgs := ReadAll(log, resulting.bits);
      return Some(msgs);
    }
  }

  /** Iterates over a bitmap in ascending order. */
  method ReadAll(log: seq<Msg>, bits: set<int>) returns (msgs: seq<Msg>)
    requires forall p :: p in bits ==> 0 <= p < |log|
    ensures msgs == Picked(log, 0, bits)
  {
    var todo, from := bits, 0;
    msgs := [];
    while todo != {}
      invariant 0 <= from <= |log| && forall p :: p in todo ==> from <= p < |log|
      invariant msgs + Picked(log, from, todo) == Picked(log, 0, bits)
      decreases todo
    {
      Least(todo);
      var p :| p in todo && forall i :: i in todo ==> p <= i;
      PickLeast(log, from, todo, p);
      msgs := msgs + [log[p]];
      todo, from := todo - {p}, p + 1;
    }
    PickNone(log, from);
  }

  /** The messages at the given positions from `from` on. */
  function Picked(log: seq<Msg>, from: int, ps: set<int>): seq<Msg>
    requires 0 <= from <= |log|
    decreases |log| - from
  {
    if from == |log| then [] else (if from in ps then [log[from]] else []) + Picked(log, from + 1, ps)
  }

  lemma {:induction false} PickLeast(log: seq<Msg>, from: int, ps: set<int>, p: int)
    requires 0 <= from <= p < |log| && p in ps && forall i :: i in ps ==> p <= i
    ensures Picked(log, from, ps) == [log[p]] + Picked(log, p + 1, ps - {p})
    decreases |log| - from
  {
    if from < p {
      PickLeast(log, from + 1, ps, p);
    } else {
      PickLater(log, p + 1, ps, p);
    }
  }

  lemma {:induction false} PickLater(log: seq<Msg>, from: int, ps: set<int>, p: int)
    requires 0 <= p < from <= |log|
    ensures Picked(log, from, ps) == Picked(log, from, ps - {p})
    decreases |log| - from
  {
    if from < |log| { PickLater(log, from + 1, ps, p); }
  }

  lemma {:induction false} PickNone(log: seq<Msg>, from: int)
    requires 0 <= from <= |log|
    ensures Picked(log, from, {}) == []
    decreases |log| - from
  {
    if from < |log| { PickNone(log, from + 1); }
  }

  lemma {:induction false} Least(s: set<int>)
    requires s != {}
    ensures exists p :: p in s && forall i :: i in s ==> p <= i
    decreases s
  {
    SomeMember(s);
    var p :| p in s;
    if !forall i :: i in s ==> p <= i {
      var below := set i | i in s && i < p;
      var j :| j in s && j < p;
      assert j in below && p !in below && below <= s;
      Least(below);
      var q :| q in below && forall i :: i in below ==> q <= i;
      forall i | i in s ensures q <= i {
        if i < p { assert i in below; }
      }
      assert q in s;
    }
  }

  /** What the scan of the log returns. */
  ghost function Scan(w: World, log: seq<Msg>, with: seq<set<Key>>, q: Operation): seq<Msg>
    requires |with| <= |log|
  {
    if |with| == 0 then []
    else
      var n := |with| - 1;
      Scan(w, log, with[..n], q) + if Satisfies(w, log[n], with[n], q) then [log[n]] else []
  }

  /** Picking the positions of the answer is filtering the log. */
  lemma {:induction false} PickedIsScan(w: World, log: seq<Msg>, with: seq<set<Key>>, q: Operation)
    requires |with| <= |log|
    ensures Picked(log, 0, Answer(w, log, with, q)) == Scan(w, log, with, q)
  {
    if |with| == 0 {
      assert Answer(w, log, with, q) == {};
      PickNone(log, 0);
    } else {
      var n := |with| - 1;
      PickedIsScan(w, log, with[..n], q);
      var before := Answer(w, log, with[..n], q);
      AnswerNext(w, log, with, q);
      if Satisfies(w, log[n], with[n], q) {
        PickLast(log, 0, before, n);
      }
    }
  }

  lemma AnswerNext(w: World, log: seq<Msg>, with: seq<set<Key>>, q: Operation)
    requires 0 < |with| <= |log|
    ensures var n := |with| - 1; var before := Answer(w, log, with[..n], q);
      && Answer(w, log, with, q) == (if Satisfies(w, log[n], with[n], q) then before + {n} else before)
      && (forall p :: p in before ==> p < n)
  {}

  lemma {:induction false} PickLast(log: seq<Msg>, from: int, ps: set<int>, n: int)
    requires 0 <= from <= n < |log| && forall p :: p in ps ==> p < n
    ensures Picked(log, from, ps + {n}) == Picked(log, from, ps) + [log[n]]
    decreases |log| - from
  {
    if from < n {
      PickLast(log, from + 1, ps, n);
    } else {
      PickBeyond(log, n, ps);
      PickBeyond(log, n + 1, ps);
      PickBeyond(log, n + 1, ps + {n});
    }
  }

  lemma {:induction false} PickBeyond(log: seq<Msg>, from: int, ps: set<int>)
    requires 0 <= from <= |log| && forall p :: p in ps ==> p < from
    ensures Picked(log, from, ps) == []
    decreases |log| - from
  {
    if from < |log| { PickBeyond(log, from + 1, ps); }
  }

  /** An answerable query returns the filtered log. */
  lemma QueryIsScan(w: World, log: seq<Msg>, with: seq<set<Key>>, q: Operation)
    requires |with| <= |log| && Answerable(Indexed(w, log, with), q)
    ensures var e := Eval(Indexed(w, log, with), q);
      e.Bits? && Picked(log, 0, e.bits) == Scan(w, log, with, q)
  {
    PlannerEqualsScan(w, log, with, q);
    PickedIsScan(w, log, with, q);
  }

  /** A failed or undefined prefix decides. */
  lemma {:induction false} StopsAt(idx: Index, conj: bool, args: seq<Operation>, i: nat)
    requires 0 < i <= |args|
    requires var r := EvalArgs(idx, conj, args[..i]); r.LoadFailed? || r.Undefined?
    ensures EvalArgs(idx, conj, args) == EvalArgs(idx, conj, args[..i])
    decreases |args| - i
  {
    if i == |args| {
      assert args[..i] == args;
    } else {
      assert args[..i + 1][..i] == args[..i];
      StopsAt(idx, conj, args, i + 1);
    }
  }
}
