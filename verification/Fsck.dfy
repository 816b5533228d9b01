/** The one-pass consistency check of the receive log. */
module Fsck {
  import opened Basics
  import opened Feeds

  /** An author's messages carry the sequences 1, 2, 3, ... in log order. */
  predicate Numbered(ms: seq<Msg>) { forall i :: 0 <= i < |ms| ==> ms[i].sequence == i + 1 }

  predicate Broken(log: seq<Msg>, a: Feed) { !Numbered(ByAuthor(log, a)) }

  datatype WrongSequence = WrongSequence(author: Feed, stored: int, logical: int)

  datatype Report = Report(errors: seq<WrongSequence>, positions: set<int>)

  /** Positions are kept as 32-bit numbers. */
  function Position(p: int): int { p % 0x1_0000_0000 }

  function Authors(errors: seq<WrongSequence>): set<Feed> {
    set i | 0 <= i < |errors| :: errors[i].author
  }

  /** The positions of all messages of the given authors among the first `n`. */
  ghost function PositionsOf(log: seq<Msg>, n: nat, who: set<Feed>): set<int>
    requires n <= |log|
  {
    set p | 0 <= p < n && log[p].author in who :: Position(p)
  }

  /** State of the scan for one author after reading `log`. */
  function Expected(log: seq<Msg>, a: Feed): int {
    if Broken(log, a) then -1 else |ByAuthor(log, a)|
  }

  lemma ScanStep(log: seq<Msg>, i: nat, a: Feed)
    requires i < |log|
    ensures ByAuthor(log[..i + 1], a) == ByAuthor(log[..i], a) + if log[i].author == a then [log[i]] else []
    ensures Broken(log[..i], a) ==> Broken(log[..i + 1], a)
    ensures log[i].author != a ==> ByAuthor(log[..i + 1], a) == ByAuthor(log[..i], a)
    ensures log[i].author == a ==>
      (Broken(log[..i + 1], a) <==> Broken(log[..i], a) || log[i].sequence != |ByAuthor(log[..i], a)| + 1)
  {
    assert log[..i + 1] == log[..i] + [log[i]];
    ByAuthorAppend(log[..i], log[i], a);
    var ms, more := ByAuthor(log[..i], a), ByAuthor(log[..i + 1], a);
    if Broken(log[..i], a) {
      var k :| 0 <= k < |ms| && ms[k].sequence != k + 1;
      assert more[k] == ms[k];
    }
    if log[i].author == a {
      assert more[|ms|] == log[i];
      assert forall k :: 0 <= k < |ms| ==> more[k] == ms[k];
    }
  }

  /** What the loop knows after the first `i` messages. */
  ghost predicate Scanned(log: seq<Msg>, i: nat, last: map<Feed, int>, all: map<Feed, set<int>>,
                          errors: seq<WrongSequence>)
    requires i <= |log|
  {
    && (forall a: Feed :: a in last <==> ByAuthor(log[..i], a) != [])
    && (forall a: Feed :: a in last ==> last[a] == Expected(log[..i], a))
    && (forall a: Feed :: a in all <==> a in last)
    && (forall a: Feed :: a in all ==> all[a] == PositionsOf(log, i, {a}))
    && (forall a: Feed :: a in Authors(errors) <==> Broken(log[..i], a))
    && (forall j, k :: 0 <= j < k < |errors| ==> errors[j].author != errors[k].author)
  }

  lemma PositionsStep(log: seq<Msg>, i: nat, a: Feed)
    requires i < |log|
    ensures PositionsOf(log, i + 1, {a}) == PositionsOf(log, i, {a}) + if log[i].author == a then {Position(i)} else {}
  {}

  lemma AuthorsAppend(errors: seq<WrongSequence>, e: WrongSequence)
    ensures Authors(errors + [e]) == Authors(errors) + {e.author}
  {
    var more := errors + [e];
    forall a | a in Authors(errors) ensures a in Authors(more) {
      var i :| 0 <= i < |errors| && errors[i].author == a;
      assert more[i].author == a;
    }
    assert more[|errors|].author == e.author;
  }

  /** The bookkeeping after one more message: only its author's entries change. */
  ghost predicate Advanced(log: seq<Msg>, i: nat, last: map<Feed, int>, all: map<Feed, set<int>>,
                           errors: seq<WrongSequence>,
                           last': map<Feed, int>, all': map<Feed, set<int>>, errors': seq<WrongSequence>)
    requires i < |log|
  {
    var a := log[i].author;
    && last' == last[a := Expected(log[..i + 1], a)]
    && all' == all[a := PositionsOf(log, i + 1, {a})]
    && if Broken(log[..i + 1], a) && !Broken(log[..i], a)
       then |errors'| == |errors| + 1 && errors' == errors + [errors'[|errors|]] && errors'[|errors|].author == a
       else errors' == errors
  }

  lemma AdvanceEach(log: seq<Msg>, i: nat, last: map<Feed, int>, all: map<Feed, set<int>>, errors: seq<WrongSequence>,
                    last': map<Feed, int>, all': map<Feed, set<int>>, errors': seq<WrongSequence>, a: Feed)
    requires i < |log| && Scanned(log, i, last, all, errors)
      && Advanced(log, i, last, all, errors, last', all', errors')
    ensures a in last' <==> ByAuthor(log[..i + 1], a) != []
    ensures a in last' ==> last'[a] == Expected(log[..i + 1], a)
    ensures a in all' <==> a in last'
    ensures a in all' ==> all'[a] == PositionsOf(log, i + 1, {a})
    ensures a in Authors(errors') <==> Broken(log[..i + 1], a)
  {
    ScanStep(log, i, a);
    PositionsStep(log, i, a);
    if errors' != errors { AuthorsAppend(errors, errors'[|errors|]); }
  }

  lemma AdvanceKeepsScanned(log: seq<Msg>, i: nat, last: map<Feed, int>, all: map<Feed, set<int>>,
                            errors: seq<WrongSequence>,
                            last': map<Feed, int>, all': map<Feed, set<int>>, errors': seq<WrongSequence>)
    requires i < |log| && Scanned(log, i, last, all, errors)
      && Advanced(log, i, last, all, errors, last', all', errors')
    ensures Scanned(log, i + 1, last', all', errors')
  {
    forall a: Feed
      ensures a in last' <==> ByAuthor(log[..i + 1], a) != []
      ensures a in last' ==> last'[a] == Expected(log[..i + 1], a)
      ensures a in all' <==> a in last'
      ensures a in all' ==> all'[a] == PositionsOf(log, i + 1, {a})
      ensures a in Authors(errors') <==> Broken(log[..i + 1], a)
    {
      AdvanceEach(log, i, last, all, errors, last', all', errors', a);
    }
    ErrorsDistinct(log, i, last, all, errors, last', all', errors');
  }

  lemma ErrorsDistinct(log: seq<Msg>, i: nat, last: map<Feed, int>, all: map<Feed, set<int>>,
                       errors: seq<WrongSequence>,
                       last': map<Feed, int>, all': map<Feed, set<int>>, errors': seq<WrongSequence>)
    requires i < |log| && Scanned(log, i, last, all, errors)
      && Advanced(log, i, last, all, errors, last', all', errors')
    ensures forall j, k :: 0 <= j < k < |errors'| ==> errors'[j].author != errors'[k].author
  {
    forall j, k | 0 <= j < k < |errors'| ensures errors'[j].author != errors'[k].author {
      assert errors'[j].author in Authors(errors);
    }
  }

  /** The feed of this message's author is broken by it. */
  predicate BreaksAt(log: seq<Msg>, i: nat)
    requires i < |log|
  {
    Broken(log[..i + 1], log[i].author) && !Broken(log[..i], log[i].author)
  }

  /**
   The report of a break: a first message is reported with its position, later ones with the sequence they should
   have.
   */
  function ErrorAt(log: seq<Msg>, i: nat): WrongSequence
    requires i < |log|
  {
    var n := |ByAuthor(log[..i], log[i].author)|;
    WrongSequence(log[i].author, if n == 0 then i else n + 1, log[i].sequence)
  }

  /** All breaks among the first `n` messages, in log order. */
  function Breaks(log: seq<Msg>, n: nat): seq<WrongSequence>
    requires n <= |log|
  {
    if n == 0 then [] else Breaks(log, n - 1) + if BreaksAt(log, n - 1) then [ErrorAt(log, n - 1)] else []
  }

  /** The sequence test for one message: the author's new state, and an error if the feed breaks here. */
  method Judge(log: seq<Msg>, i: nat, last: map<Feed, int>) returns (next: int, err: Option<WrongSequence>)
    requires i < |log|
    requires forall a: Feed :: a in last <==> ByAuthor(log[..i], a) != []
    requires forall a: Feed :: a in last ==> last[a] == Expected(log[..i], a)
    ensures next == Expected(log[..i + 1], log[i].author)
    ensures err == if BreaksAt(log, i) then Some(ErrorAt(log, i)) else None
  {
    var m := log[i];
    ScanStep(log, i, m.author);
    if m.author !in last {
      if m.sequence != 1 {
        return -1, Some(WrongSequence(m.author, i, m.sequence));
      }
      return 1, None;
    }
    var curr := last[m.author];
    if curr < 0 { // a break of this feed was reported before
      return -1, None;
    }
    if curr + 1 != m.sequence {
      return -1, Some(WrongSequence(m.author, curr + 1, m.sequence));
    }
    return curr + 1, None;
  }

  /** All positions of the reported authors. */
  method NullMap(log: seq<Msg>, all: map<Feed, set<int>>, errors: seq<WrongSequence>) returns (nulls: set<int>)
    requires forall j :: 0 <= j < |errors| ==> errors[j].author in all
    requires forall a: Feed :: a in all ==> all[a] == PositionsOf(log, |log|, {a})
    ensures nulls == PositionsOf(log, |log|, Authors(errors))
  {
    nulls := {};
    for j := 0 to |errors|
      invariant nulls == PositionsOf(log, |log|, Authors(errors[..j]))
    {
      assert errors[..j + 1] == errors[..j] + [errors[j]];
      AuthorsAppend(errors[..j], errors[j]);
      nulls := nulls + all[errors[j].author];
      PositionsUnion(log, Authors(errors[..j]), errors[j].author);
    }
    assert errors[..|errors|] == errors;
  }

  /** One turn of the loop. */
  method ScanMessage(log: seq<Msg>, i: nat, last: map<Feed, int>, all: map<Feed, set<int>>, errors: seq<WrongSequence>)
    returns (last': map<Feed, int>, all': map<Feed, set<int>>, errors': seq<WrongSequence>)
    requires i < |log| && Scanned(log, i, last, all, errors)
    ensures Scanned(log, i + 1, last', all', errors')
    ensures errors' == errors + if BreaksAt(log, i) then [ErrorAt(log, i)] else []
  {
    var a := log[i].author;
    all' := all;
    if a !in all {
      NoPositions(log, i, a);
      all' := all[a := {}];
    }
    PositionsStep(log, i, a);
    all' := all'[a := all'[a] + {Position(i)}];
    var next, err := Judge(log, i, last);
    errors' := if err.Some? then errors + [err.value] else errors;
    last' := last[a := next];
    assert Advanced(log, i, last, all, errors, last', all', errors');
    AdvanceKeepsScanned(log, i, last, all, errors, last', all', errors');
  }

  /**
   The check: nil exactly when every author's messages are numbered 1, 2, 3, ...; otherwise each broken author is
   reported once and the position set holds exactly the messages of broken authors.
   */
  method SequenceFsck(log: seq<Msg>) returns (report: Option<Report>)
    ensures report.None? <==> forall a: Feed :: !Broken(log, a)
    ensures report.Some? ==>
      && (forall a: Feed :: a in Authors(report.value.errors) <==> Broken(log, a))
      && (forall j, k :: 0 <= j < k < |report.value.errors| ==>
        report.value.errors[j].author != report.value.errors[k].author)
      && report.value.errors == Breaks(log, |log|)
      && report.value.positions == PositionsOf(log, |log|, Authors(report.value.errors))
  {
    var all, errors := ScanLog(log);
    if errors == [] {
      return None;
    }
    assert errors[0].author in Authors(errors);
    var nulls := NullMap(log, all, errors);
    return Some(Report(errors, nulls));
  }

  /** The loop over the log. */
  method ScanLog(log: seq<Msg>) returns (all: map<Feed, set<int>>, errors: seq<WrongSequence>)
    ensures Outcome(log, all, errors) && errors == Breaks(log, |log|)
  {
    var last: map<Feed, int>;
    last, all, errors := map[], map[], [];
    var i := 0;
    while i < |log|
      invariant 0 <= i <= |log|
      invariant Scanned(log, i, last, all, errors) && errors == Breaks(log, i)
    {
      last, all, errors := ScanMessage(log, i, last, all, errors);
      i := i + 1;
    }
    ScannedAll(log, last, all, errors);
  }

  /** What the loop has found out in the end. */
  ghost predicate Outcome(log: seq<Msg>, all: map<Feed, set<int>>, errors: seq<WrongSequence>) {
    && (forall a: Feed :: a in all ==> all[a] == PositionsOf(log, |log|, {a}))
    && (forall j :: 0 <= j < |errors| ==> errors[j].author in all)
    && (forall a: Feed :: a in Authors(errors) <==> Broken(log, a))
    && (forall j, k :: 0 <= j < k < |errors| ==> errors[j].author != errors[k].author)
  }

  lemma ScannedAll(log: seq<Msg>, last: map<Feed, int>, all: map<Feed, set<int>>, errors: seq<WrongSequence>)
    requires Scanned(log, |log|, last, all, errors)
    ensures Outcome(log, all, errors)
  {
    assert log[..|log|] == log;
    forall j | 0 <= j < |errors| ensures errors[j].author in all {
      assert errors[j].author in Authors(errors);
    }
  }

  lemma {:induction false} NoPositions(log: seq<Msg>, i: nat, a: Feed)
    requires i <= |log| && ByAuthor(log[..i], a) == []
    ensures PositionsOf(log, i, {a}) == {}
  {
    if i > 0 {
      ScanStep(log, i - 1, a);
      NoPositions(log, i - 1, a);
      PositionsStep(log, i - 1, a);
    }
  }

  lemma PositionsUnion(log: seq<Msg>, who: set<Feed>, a: Feed)
    ensures PositionsOf(log, |log|, who + {a}) == PositionsOf(log, |log|, who) + PositionsOf(log, |log|, {a})
  {}

  /** Below 2^32 messages the recorded positions are the log positions themselves. */
  lemma PositionsExact(log: seq<Msg>, who: set<Feed>, p: int)
    requires |log| <= 0x1_0000_0000
    ensures p in PositionsOf(log, |log|, who) <==> 0 <= p < |log| && log[p].author in who
  {
    forall q | 0 <= q < |log| ensures Position(q) == q {}
    if 0 <= p < |log| && log[p].author in who {
      assert Position(p) == p;
    }
  }

  /** The check accepts every log a node can reach. */
  lemma FsckAcceptsReachable(self: Feed, hash: Hasher, es: seq<Event>)
    requires PublishesWhileClosed(EmptyNode, self, hash, es)
    ensures forall a: Feed :: !Broken(Run(EmptyNode, self, hash, es).log, a)
  {
    ChainSafety(self, hash, es);
    var log := Run(EmptyNode, self, hash, es).log;
    forall a: Feed ensures !Broken(log, a) { assert Chain(ByAuthor(log, a)); }
  }

  // ---------------------------------------------------------------- the quick check

  /** The quick check compares an author's last sequence with the number of entries in the index. */
  predicate LengthOk(log: seq<Msg>, a: Feed) {
    var ms := ByAuthor(log, a);
    ms == [] || ms[|ms| - 1].sequence == |ms|
  }

  /** The first feed that fails, reported with its length, counted from zero, and its last sequence. */
  ghost predicate FirstWrong(log: seq<Msg>, feeds: seq<Feed>, i: int, e: WrongSequence) {
    && 0 <= i < |feeds| && !LengthOk(log, feeds[i]) && (forall j :: 0 <= j < i ==> LengthOk(log, feeds[j]))
    && var ms := ByAuthor(log, feeds[i]); e == WrongSequence(feeds[i], |ms| - 1, ms[|ms| - 1].sequence)
  }

  method LengthFsck(log: seq<Msg>, feeds: seq<Feed>) returns (wrong: Option<WrongSequence>)
    ensures wrong.None? <==> forall i :: 0 <= i < |feeds| ==> LengthOk(log, feeds[i])
    ensures wrong.Some? ==> exists i :: FirstWrong(log, feeds, i, wrong.value)
  {
    for i := 0 to |feeds|
      invariant forall j :: 0 <= j < i ==> LengthOk(log, feeds[j])
    {
      var ms := ByAuthor(log, feeds[i]);
      if ms != [] {
        var stored := |ms| - 1; // zero-based
        if ms[stored].sequence != stored + 1 {
          assert FirstWrong(log, feeds, i, WrongSequence(feeds[i], stored, ms[stored].sequence));
          return Some(WrongSequence(feeds[i], stored, ms[stored].sequence));
        }
      }
    }
    return None;
  }

  /** Every message counts one up from the one before it. */
  predicate Counting(ms: seq<Msg>) { forall i :: 0 < i < |ms| ==> ms[i].sequence == ms[i - 1].sequence + 1 }

  /** The quick check sees what the full one sees, if and only if the author's messages count up one by one. */
  lemma LengthDecidesIff(log: seq<Msg>, a: Feed)
    ensures !Broken(log, a) <==> LengthOk(log, a) && Counting(ByAuthor(log, a))
    ensures LengthOk(log, a) ==> (!Broken(log, a) <==> Counting(ByAuthor(log, a)))
  {
    var ms := ByAuthor(log, a);
    if ms != [] && ms[|ms| - 1].sequence == |ms| && Counting(ms) {
      forall i | 0 <= i < |ms| ensures ms[i].sequence == i + 1 { CountsDown(ms, i); }
    }
  }

  lemma {:induction false} CountsDown(ms: seq<Msg>, i: nat)
    requires i < |ms| && ms[|ms| - 1].sequence == |ms| && Counting(ms)
    ensures ms[i].sequence == i + 1
    decreases |ms| - i
  {
    if i + 1 < |ms| {
      CountsDown(ms, i + 1);
      assert ms[i + 1].sequence == ms[i + 1 - 1].sequence + 1;
    }
  }

  /** Two messages that changed places: the last one has the right number, so the quick check is content. */
  lemma LengthMissesReordering(a: Feed)
    ensures var log := [Msg(a, 2, "y", None, ""), Msg(a, 1, "x", None, ""), Msg(a, 3, "z", None, "")];
      LengthOk(log, a) && Broken(log, a)
  {
    var x, y, z := Msg(a, 1, "x", None, ""), Msg(a, 2, "y", None, ""), Msg(a, 3, "z", None, "");
    ByAuthorAppend([y, x], z, a);
    ByAuthorAppend([y], x, a);
    ByAuthorAppend([], y, a);
    assert [y, x] + [z] == [y, x, z] && [y] + [x] == [y, x] && [] + [y] == [y];
    assert ByAuthor([y, x, z], a) == [y, x, z];
    assert [y, x, z][0].sequence == 2;
  }
}
