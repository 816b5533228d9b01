/**
 The word filter: words are kept in a trie, and a text is scanned for them
 once from left to right, skipping characters that do not fit.
 */
module WordScanner {
  import opened Basics

  // ---------------------------------------------------------------- what a scan reports, in terms of the words

  predicate Live(words: set<string>, p: string) { exists w :: w in words && p <= w }

  /** A word and the segment of the text in which it was found. */
  datatype Hit = Hit(target: string, start: int, end: int)

  /** The scan from position `i`, having matched the prefix `p` of some word since `start`. */
  function Scan(words: set<string>, ignored: set<char>, txt: string, i: int, p: string, start: int): seq<Hit>
    requires 0 <= i <= |txt|
    decreases |txt| - i
  {
    if i == |txt| then []
    else
      var c := txt[i];
      var q := p + [c];
      if c in ignored || !Live(words, q) then Scan(words, ignored, txt, i + 1, p, start)
      else
        var s := if p == "" then i else start;
        if q in words then [Hit(q, s, i + 1)] + Scan(words, ignored, txt, i + 1, "", -1)
        else Scan(words, ignored, txt, i + 1, q, s)
  }

  function ScanAll(words: set<string>, ignored: set<char>, txt: string): seq<Hit> {
    Scan(words, ignored, txt, 0, "", -1)
  }

  // ---------------------------------------------------------------- soundness

  /** The text without ignored characters. */
  function Kept(txt: string, ignored: set<char>): string {
    if txt == "" then ""
    else
      var n := |txt| - 1;
      Kept(txt[..n], ignored) + if txt[n] in ignored then "" else [txt[n]]
  }

  predicate Subsequence(a: string, b: string) {
    a == "" || (b != "" && (Subsequence(a, b[..|b| - 1])
                            || (a[|a| - 1] == b[|b| - 1] && Subsequence(a[..|a| - 1], b[..|b| - 1]))))
  }

  lemma KeptNext(txt: string, i: int, j: int, ignored: set<char>)
    requires 0 <= i <= j < |txt|
    ensures Kept(txt[i..j + 1], ignored) == Kept(txt[i..j], ignored) + if txt[j] in ignored then "" else [txt[j]]
  {
    assert txt[i..j + 1][..j - i] == txt[i..j];
  }

  lemma SubsequenceNext(a: string, b: string, c: char)
    requires Subsequence(a, b)
    ensures Subsequence(a, b + [c]) && Subsequence(a + [c], b + [c])
  {
    assert (b + [c])[..|b|] == b && (a + [c])[..|a|] == a;
  }

  /** No shorter non-empty prefix is a word. */
  ghost predicate NoShorter(words: set<string>, p: string) {
    forall k :: 0 < k < |p| ==> p[..k] !in words
  }

  ghost predicate Genuine(words: set<string>, ignored: set<char>, txt: string, h: Hit) {
    && 0 <= h.start < h.end <= |txt|
    && h.target != "" && h.target in words && NoShorter(words, h.target)
    && Subsequence(h.target, Kept(txt[h.start..h.end], ignored))
    && txt[h.start] == h.target[0] && txt[h.end - 1] == h.target[|h.target| - 1]
  }

  /** What is known about a partly matched word. */
  ghost predicate Matching(words: set<string>, ignored: set<char>, txt: string, i: int, p: string, start: int) {
    && 0 <= i <= |txt|
    && (p != "" ==>
          && 0 <= start < i && p !in words && NoShorter(words, p) && p[0] == txt[start]
          && Subsequence(p, Kept(txt[start..i], ignored)))
  }

  lemma MatchingSkips(words: set<string>, ignored: set<char>, txt: string, i: int, p: string, start: int)
    requires Matching(words, ignored, txt, i, p, start) && i < |txt|
    ensures Matching(words, ignored, txt, i + 1, p, start)
  {
    if p != "" {
      KeptNext(txt, start, i, ignored);
      var kept := Kept(txt[start..i], ignored);
      SubsequenceNext(p, kept, txt[i]);
      assert kept + "" == kept;
    }
  }

  /** The segment so far with the next character taken. */
  lemma MatchingTakes(words: set<string>, ignored: set<char>, txt: string, i: int, p: string, start: int)
    requires Matching(words, ignored, txt, i, p, start) && i < |txt| && txt[i] !in ignored
    ensures var q, s := p + [txt[i]], if p == "" then i else start;
      && 0 <= s < i + 1 && NoShorter(words, q) && q[0] == txt[s]
      && Subsequence(q, Kept(txt[s..i + 1], ignored))
  {
    var q, s := p + [txt[i]], if p == "" then i else start;
    KeptNext(txt, s, i, ignored);
    if p == "" {
      assert txt[i..i] == "";
    }
    assert Subsequence(p, Kept(txt[s..i], ignored));
    SubsequenceNext(p, Kept(txt[s..i], ignored), txt[i]);
    forall k | 0 < k < |q| ensures q[..k] !in words {
      assert q[..k] == p[..k];
      assert k == |p| ==> p[..k] == p;
    }
  }

  /** Hits are genuine, in order, disjoint, and begin where the current match began or later. */
  ghost predicate InOrder(hits: seq<Hit>, from: int) {
    && (forall k :: 0 <= k < |hits| ==> from <= hits[k].start)
    && (forall j, k :: 0 <= j < k < |hits| ==> hits[j].end <= hits[k].start)
  }

  ghost predicate AllSound(words: set<string>, ignored: set<char>, txt: string, hits: seq<Hit>, from: int) {
    (forall k :: 0 <= k < |hits| ==> Genuine(words, ignored, txt, hits[k])) && InOrder(hits, from)
  }

  lemma SoundCons(words: set<string>, ignored: set<char>, txt: string, h: Hit, rest: seq<Hit>)
    requires Genuine(words, ignored, txt, h) && AllSound(words, ignored, txt, rest, h.end)
    ensures AllSound(words, ignored, txt, [h] + rest, h.start)
  {}

  lemma SoundEarlier(words: set<string>, ignored: set<char>, txt: string, hits: seq<Hit>, from: int, from': int)
    requires AllSound(words, ignored, txt, hits, from) && from' <= from
    ensures AllSound(words, ignored, txt, hits, from')
  {}

  lemma {:induction false} ScanSound(words: set<string>, ignored: set<char>, txt: string, i: int, p: string, start: int)
    requires Matching(words, ignored, txt, i, p, start)
    ensures AllSound(words, ignored, txt, Scan(words, ignored, txt, i, p, start), if p == "" then i else start)
    decreases |txt| - i, 1
  {
    if i < |txt| {
      if txt[i] in ignored || !Live(words, p + [txt[i]]) {
        MatchingSkips(words, ignored, txt, i, p, start);
        ScanSound(words, ignored, txt, i + 1, p, start);
        SoundEarlier(words, ignored, txt, Scan(words, ignored, txt, i + 1, p, start),
                     if p == "" then i + 1 else start, if p == "" then i else start);
      } else {
        TakeSound(words, ignored, txt, i, p, start);
      }
    }
  }

  lemma {:induction false} TakeSound(words: set<string>, ignored: set<char>, txt: string, i: int, p: string, start: int)
    requires Matching(words, ignored, txt, i, p, start) && i < |txt| && txt[i] !in ignored && Live(words, p + [txt[i]])
    ensures AllSound(words, ignored, txt, Scan(words, ignored, txt, i, p, start), if p == "" then i else start)
    decreases |txt| - i, 0
  {
    var q, s := p + [txt[i]], if p == "" then i else start;
    ScanTakes(words, ignored, txt, i, p, start);
    if q in words {
      ScanSound(words, ignored, txt, i + 1, "", -1);
      FoundSound(words, ignored, txt, i, p, start, Scan(words, ignored, txt, i + 1, "", -1));
    } else {
      MatchGoesOn(words, ignored, txt, i, p, start);
      ScanSound(words, ignored, txt, i + 1, q, s);
    }
  }

  lemma ScanTakes(words: set<string>, ignored: set<char>, txt: string, i: int, p: string, start: int)
    requires 0 <= i < |txt| && txt[i] !in ignored && Live(words, p + [txt[i]])
    ensures var q, s := p + [txt[i]], if p == "" then i else start;
      Scan(words, ignored, txt, i, p, start)
        == if q in words then [Hit(q, s, i + 1)] + Scan(words, ignored, txt, i + 1, "", -1)
          else Scan(words, ignored, txt, i + 1, q, s)
  {}

  lemma FoundSound(words: set<string>, ignored: set<char>, txt: string, i: int, p: string, start: int, rest: seq<Hit>)
    requires Matching(words, ignored, txt, i, p, start) && i < |txt| && txt[i] !in ignored && p + [txt[i]] in words
    requires AllSound(words, ignored, txt, rest, i + 1)
    ensures var s := if p == "" then i else start;
      AllSound(words, ignored, txt, [Hit(p + [txt[i]], s, i + 1)] + rest, s)
  {
    FoundGenuine(words, ignored, txt, i, p, start);
    SoundCons(words, ignored, txt, Hit(p + [txt[i]], if p == "" then i else start, i + 1), rest);
  }

  lemma FoundGenuine(words: set<string>, ignored: set<char>, txt: string, i: int, p: string, start: int)
    requires Matching(words, ignored, txt, i, p, start) && i < |txt| && txt[i] !in ignored && p + [txt[i]] in words
    ensures Genuine(words, ignored, txt, Hit(p + [txt[i]], if p == "" then i else start, i + 1))
  {
    MatchingTakes(words, ignored, txt, i, p, start);
  }

  lemma MatchGoesOn(words: set<string>, ignored: set<char>, txt: string, i: int, p: string, start: int)
    requires Matching(words, ignored, txt, i, p, start) && i < |txt| && txt[i] !in ignored && p + [txt[i]] !in words
    ensures Matching(words, ignored, txt, i + 1, p + [txt[i]], if p == "" then i else start)
  {
    MatchingTakes(words, ignored, txt, i, p, start);
  }

  /** Every reported word is genuine and the segments are in order and disjoint, for all words and texts. */
  lemma HitsSound(words: set<string>, ignored: set<char>, txt: string)
    ensures AllSound(words, ignored, txt, ScanAll(words, ignored, txt), 0)
  {
    ScanSound(words, ignored, txt, 0, "", -1);
  }

  // ---------------------------------------------------------------- completeness

  /** `p` is the longest prefix of the word that is a subsequence of the text so far. */
  ghost predicate Longest(w: string, p: string, seen: string) {
    p <= w && forall k :: 0 <= k <= |w| ==> (Subsequence(w[..k], seen) <==> k <= |p|)
  }

  lemma LongestNext(w: string, p: string, seen: string, c: char)
    requires Longest(w, p, seen) && p != w
    ensures Longest(w, if p + [c] <= w then p + [c] else p, seen + [c])
  {
    assert (seen + [c])[..|seen|] == seen;
    forall k | 0 <= k <= |w|
      ensures Subsequence(w[..k], seen + [c]) <==> k <= |p| || (k == |p| + 1 && w[|p|] == c)
    {
      if k > 0 { assert w[..k][..k - 1] == w[..k - 1]; }
    }
    assert p + [c] <= w <==> w[|p|] == c;
  }

  lemma {:induction false} GreedyFinds(w: string, ignored: set<char>, txt: string, i: int, p: string, start: int)
    requires 0 <= i <= |txt| && p != w && Longest(w, p, Kept(txt[..i], ignored))
    ensures Scan({w}, ignored, txt, i, p, start) != [] <==> Subsequence(w, Kept(txt, ignored))
    decreases |txt| - i
  {
    if i == |txt| {
      assert txt[..i] == txt && w[..|w|] == w;
    } else {
      var c, seen := txt[i], Kept(txt[..i], ignored);
      KeptPrefix(txt, i, ignored);
      LiveOne(w, p + [c]);
      if c in ignored {
        assert seen + "" == seen;
        GreedyFinds(w, ignored, txt, i + 1, p, start);
      } else if p + [c] == w {
        LongestNext(w, p, seen, c);
        assert w[..|w|] == w;
        SubsequenceLater(w, txt, i + 1, ignored);
      } else {
        LongestNext(w, p, seen, c);
        if p + [c] <= w {
          GreedyFinds(w, ignored, txt, i + 1, p + [c], if p == "" then i else start);
        } else {
          GreedyFinds(w, ignored, txt, i + 1, p, start);
        }
      }
    }
  }

  lemma LiveOne(w: string, q: string)
    ensures Live({w}, q) <==> q <= w
  {
    assert w in {w};
  }

  lemma KeptPrefix(txt: string, i: int, ignored: set<char>)
    requires 0 <= i < |txt|
    ensures Kept(txt[..i + 1], ignored) == Kept(txt[..i], ignored) + if txt[i] in ignored then "" else [txt[i]]
  {
    assert txt[..i + 1][..i] == txt[..i];
  }

  lemma {:induction false} SubsequenceLater(w: string, txt: string, i: int, ignored: set<char>)
    requires 0 <= i <= |txt| && Subsequence(w, Kept(txt[..i], ignored))
    ensures Subsequence(w, Kept(txt, ignored))
    decreases |txt| - i
  {
    if i == |txt| {
      assert txt[..i] == txt;
    } else {
      KeptPrefix(txt, i, ignored);
      var seen := Kept(txt[..i], ignored);
      SubsequenceNext(w, seen, txt[i]);
      assert seen + "" == seen;
      SubsequenceLater(w, txt, i + 1, ignored);
    }
  }

  /** With a single word the scan reports something if and only if the word is a subsequence of what is not ignored. */
  lemma OneWordFoundIff(w: string, ignored: set<char>, txt: string)
    requires w != ""
    ensures ScanAll({w}, ignored, txt) != [] <==> Subsequence(w, Kept(txt, ignored))
  {
    assert txt[..0] == "";
    forall k | 0 <= k <= |w| ensures Subsequence(w[..k], "") <==> k <= 0 {}
    GreedyFinds(w, ignored, txt, 0, "", -1);
  }

  // ---------------------------------------------------------------- completeness of a set of words

  /** The scan reports something whenever a non-empty word is a subsequence of what is not ignored. */
  ghost predicate Complete(words: set<string>, ignored: set<char>) {
    forall txt: string :: Occurs(words, Kept(txt, ignored)) ==> ScanAll(words, ignored, txt) != []
  }

  predicate Occurs(words: set<string>, kept: string) { exists w :: w in words && w != "" && Subsequence(w, kept) }

  function Prefixes(words: set<string>): set<string> { set w, k | w in words && 0 <= k <= |w| :: w[..k] }

  /** A place where the scan can stand: a prefix of a word, itself and all its non-empty prefixes no words. */
  predicate Free(words: set<string>, ignored: set<char>, q: string) {
    && q in Prefixes(words)
    && (forall k :: 0 < k <= |q| ==> q[..k] !in words)
    && (forall k :: 0 <= k < |q| ==> q[k] !in ignored)
  }

  /**
   From `p` the scan can be led past the characters of `w` without reaching a word: each character is met at a place
   `q` where it completes none.
   */
  predicate Misses(words: set<string>, ignored: set<char>, p: string, w: string)
    decreases |w|
  {
    w == ""
    || (w[0] !in ignored
        && exists q :: q in Prefixes(words) && MissesAt(words, ignored, p, w, q))
  }

  predicate MissesAt(words: set<string>, ignored: set<char>, p: string, w: string, q: string)
    requires w != ""
    decreases |w|, 0
  {
    && Free(words, ignored, q) && p <= q && q + [w[0]] !in words
    && Misses(words, ignored, if Live(words, q + [w[0]]) then q + [w[0]] else q, w[1..])
  }

  /** Scanning a text from the place `p` reports nothing. */
  predicate Silent(words: set<string>, ignored: set<char>, t: string, p: string)
    decreases |t|
  {
    t == ""
    || (if t[0] in ignored || !Live(words, p + [t[0]]) then Silent(words, ignored, t[1..], p)
        else p + [t[0]] !in words && Silent(words, ignored, t[1..], p + [t[0]]))
  }

  lemma {:induction false} SilentScan(words: set<string>, ignored: set<char>, txt: string, i: int, p: string,
                                      start: int)
    requires 0 <= i <= |txt|
    ensures Scan(words, ignored, txt, i, p, start) == [] <==> Silent(words, ignored, txt[i..], p)
    decreases |txt| - i
  {
    if i < |txt| {
      var c, q, s := txt[i], p + [txt[i]], if p == "" then i else start;
      assert txt[i..][0] == c && txt[i..][1..] == txt[i + 1..];
      if c in ignored || !Live(words, q) {
        SilentScan(words, ignored, txt, i + 1, p, start);
      } else if q !in words {
        SilentScan(words, ignored, txt, i + 1, q, s);
      }
    }
  }

  lemma {:induction false} KeptCons(t: string, ignored: set<char>)
    requires t != ""
    ensures Kept(t, ignored) == (if t[0] in ignored then "" else [t[0]]) + Kept(t[1..], ignored)
    decreases |t|
  {
    var n := |t| - 1;
    if n > 0 {
      KeptCons(t[..n], ignored);
      assert t[..n][1..] == t[1..][..n - 1];
    } else {
      assert t[..0] == "" && t[1..] == "";
    }
  }

  /** The first character of a subsequence can be matched as early as possible. */
  lemma {:induction false} SubsequenceCons(w: string, t: string)
    requires Subsequence(w, t) && w != ""
    ensures t != "" && Subsequence(if w[0] == t[0] then w[1..] else w, t[1..])
    decreases |t|
  {
    var n, m := |t| - 1, |w| - 1;
    if n == 0 {
      assert t[..0] == "" && w[..m] == "" && w[1..] == "";
    } else {
      assert t[1..][..n - 1] == t[..n][1..];
      if Subsequence(w, t[..n]) {
        SubsequenceCons(w, t[..n]);
      } else if m > 0 {
        SubsequenceCons(w[..m], t[..n]);
        assert w[..m][1..] == w[1..][..m - 1];
      } else {
        assert w[1..] == "" && w[..0] == "";
      }
    }
  }

  lemma {:induction false} SubsequencePut(w: string, a: string, t: string)
    requires w != "" && Subsequence(w[1..], t)
    ensures Subsequence(w, a + [w[0]] + t)
    decreases |t|
  {
    var all := a + [w[0]] + t;
    if t == "" {
      assert w == [w[0]] && w[..0] == "" && all[|all| - 1] == w[0];
    } else {
      var n, m := |t| - 1, |w| - 1;
      assert all[..|all| - 1] == a + [w[0]] + t[..n];
      if Subsequence(w[1..], t[..n]) {
        SubsequencePut(w, a, t[..n]);
      } else {
        assert w[..m][1..] == w[1..][..m - 1] && w[..m][0] == w[0];
        SubsequencePut(w[..m], a, t[..n]);
      }
    }
  }

  /** A silent text that holds the word shows that the word can be missed. */
  lemma {:induction false} SilentMisses(words: set<string>, ignored: set<char>, t: string, p: string, w: string)
    requires Free(words, ignored, p) && Silent(words, ignored, t, p) && Subsequence(w, Kept(t, ignored))
    ensures Misses(words, ignored, p, w)
    decreases |t|
  {
    if w != "" {
      KeptCons(t, ignored);
      var c, rest := t[0], t[1..];
      if c in ignored {
        assert "" + Kept(rest, ignored) == Kept(rest, ignored);
        SilentMisses(words, ignored, rest, p, w);
      } else {
        var q := p + [c];
        SubsequenceCons(w, [c] + Kept(rest, ignored));
        assert ([c] + Kept(rest, ignored))[1..] == Kept(rest, ignored);
        var p' := if Live(words, q) then q else p;
        if Live(words, q) { StillFree(words, ignored, p, c); }
        var w' := if w[0] == c then w[1..] else w;
        SilentMisses(words, ignored, rest, p', w');
        if w[0] == c {
          NotAWord(words, q);
          assert MissesAt(words, ignored, p, w, p);
        } else {
          MissesEarlier(words, ignored, p, p', w);
        }
      }
    }
  }

  lemma NotAWord(words: set<string>, q: string)
    ensures q in words ==> Live(words, q)
  {}

  lemma StillFree(words: set<string>, ignored: set<char>, p: string, c: char)
    requires Free(words, ignored, p) && Live(words, p + [c]) && p + [c] !in words && c !in ignored
    ensures Free(words, ignored, p + [c])
  {
    var q := p + [c];
    var w :| w in words && q <= w;
    assert q == w[..|q|];
    forall k | 0 < k <= |q| ensures q[..k] !in words {
      if k <= |p| { assert q[..k] == p[..k]; } else { assert q[..k] == q; }
    }
  }

  lemma MissesEarlier(words: set<string>, ignored: set<char>, p: string, p': string, w: string)
    requires p <= p' && Misses(words, ignored, p', w)
    ensures Misses(words, ignored, p, w)
  {
    if w != "" {
      var q :| q in Prefixes(words) && MissesAt(words, ignored, p', w, q);
      assert MissesAt(words, ignored, p, w, q);
    }
  }

  /** A word that can be missed is missed in some text. */
  lemma {:induction false} MissedText(words: set<string>, ignored: set<char>, p: string, w: string) returns (t: string)
    requires Free(words, ignored, p) && Misses(words, ignored, p, w)
    ensures Silent(words, ignored, t, p) && Subsequence(w, Kept(t, ignored))
    decreases |w|
  {
    if w == "" {
      t := "";
    } else {
      var q :| q in Prefixes(words) && MissesAt(words, ignored, p, w, q);
      var c := w[0];
      var q' := if Live(words, q + [c]) then q + [c] else q;
      if Live(words, q + [c]) { StillFree(words, ignored, q, c); }
      var more := MissedText(words, ignored, q', w[1..]);
      t := q[|p|..] + ([c] + more);
      SilentFirst(words, ignored, q, c, more);
      SilentAlong(words, ignored, p, q, [c] + more);
      MissedKept(w, q[|p|..], more, ignored);
    }
  }

  lemma MissedKept(w: string, a: string, more: string, ignored: set<char>)
    requires w != "" && w[0] !in ignored && (forall k :: 0 <= k < |a| ==> a[k] !in ignored)
    requires Subsequence(w[1..], Kept(more, ignored))
    ensures Subsequence(w, Kept(a + ([w[0]] + more), ignored))
  {
    assert a + ([w[0]] + more) == a + [w[0]] + more;
    KeptAlong(a + [w[0]], more, ignored);
    SubsequencePut(w, a, Kept(more, ignored));
  }

  lemma SilentFirst(words: set<string>, ignored: set<char>, q: string, c: char, t: string)
    requires c !in ignored && q + [c] !in words
    requires Silent(words, ignored, t, if Live(words, q + [c]) then q + [c] else q)
    ensures Silent(words, ignored, [c] + t, q)
  {
    assert ([c] + t)[1..] == t;
  }

  lemma {:induction false} SilentAlong(words: set<string>, ignored: set<char>, p: string, q: string, t: string)
    requires p <= q && Free(words, ignored, q) && Silent(words, ignored, t, q)
    ensures Silent(words, ignored, q[|p|..] + t, p)
    decreases |q| - |p|
  {
    if p == q {
      assert q[|p|..] + t == t;
    } else {
      var c := q[|p|];
      var p' := p + [c];
      assert p' == q[..|p'|];
      PrefixLive(words, q, p');
      SilentAlong(words, ignored, p', q, t);
      var all := q[|p|..] + t;
      assert all[0] == c && all[1..] == q[|p'|..] + t;
    }
  }

  lemma PrefixLive(words: set<string>, q: string, p: string)
    requires q in Prefixes(words) && p <= q
    ensures Live(words, p)
  {
    var w, k :| w in words && 0 <= k <= |w| && q == w[..k];
    assert p <= w;
  }

  lemma {:induction false} KeptAlong(a: string, t: string, ignored: set<char>)
    requires forall k :: 0 <= k < |a| ==> a[k] !in ignored
    ensures Kept(a + t, ignored) == a + Kept(t, ignored)
    decreases |a|
  {
    if a == "" {
      assert a + t == t;
    } else {
      KeptCons(a + t, ignored);
      assert (a + t)[1..] == a[1..] + t;
      KeptAlong(a[1..], t, ignored);
    }
  }

  /**
   The scan is complete for a set of words if and only if no word of it can be missed; the word list alone decides.
   */
  lemma CompleteIff(words: set<string>, ignored: set<char>)
    ensures Complete(words, ignored) <==> forall w :: w in words && w != "" ==> !Misses(words, ignored, "", w)
  {
    if w :| w in words && w != "" && Misses(words, ignored, "", w) {
      StartIsFree(words, ignored, w);
      var t := MissedText(words, ignored, "", w);
      SilentScan(words, ignored, t, 0, "", -1);
      assert t[0..] == t;
      assert Occurs(words, Kept(t, ignored));
    } else {
      forall txt: string | Occurs(words, Kept(txt, ignored)) ensures ScanAll(words, ignored, txt) != [] {
        var w :| w in words && w != "" && Subsequence(w, Kept(txt, ignored));
        SilentScan(words, ignored, txt, 0, "", -1);
        assert txt[0..] == txt;
        StartIsFree(words, ignored, w);
        if Silent(words, ignored, txt, "") { SilentMisses(words, ignored, txt, "", w); }
      }
    }
  }

  lemma StartIsFree(words: set<string>, ignored: set<char>, w: string)
    requires w in words
    ensures Free(words, ignored, "")
  {
    assert w[..0] == "";
  }

  /** With two words the scan can commit itself to one and miss the other, even when it stands there in full. */
  lemma SecondWordMissed()
    ensures !Complete({"ab", "c"}, {}) && ScanAll({"ab", "c"}, {}, "ac") == []
      && ScanAll({"c"}, {}, "ac") == [Hit("c", 1, 2)]
  {
    TwoWordsSilent();
    OneWordHit();
    WordThere();
  }

  lemma TwoWordsSilent()
    ensures ScanAll({"ab", "c"}, {}, "ac") == []
  {
    var two: set<string> := {"ab", "c"};
    assert "ab"[..1] == "a" && "" + ['a'] == "a" && "a" + ['c'] == "ac";
    assert "ab" in two && Live(two, "a") && |"a"| == 1 && "a" !in two;
    assert forall w :: w in two ==> !("ac" <= w) by { assert "ab"[1] == 'b' && "ac"[1] == 'c'; }
    assert Scan(two, {}, "ac", 1, "a", 0) == Scan(two, {}, "ac", 2, "a", 0) == [];
  }

  lemma OneWordHit()
    ensures ScanAll({"c"}, {}, "ac") == [Hit("c", 1, 2)]
  {
    var one: set<string> := {"c"};
    assert "" + ['a'] == "a" && "" + ['c'] == "c";
    assert forall w :: w in one ==> !("a" <= w) by { assert "a"[0] == 'a' && "c"[0] == 'c'; }
    assert "c" in one && Live(one, "c");
    assert Scan(one, {}, "ac", 1, "", -1) == [Hit("c", 1, 2)] + Scan(one, {}, "ac", 2, "", -1);
  }

  lemma WordThere()
    ensures Occurs({"ab", "c"}, Kept("ac", {}))
  {
    KeptAlong("ac", "", {});
    assert "ac" + "" == "ac" && "ac"[..1] == "a" && "c"[..0] == "";
    assert "c" in {"ab", "c"} && Subsequence("c", "ac");
  }

  // ---------------------------------------------------------------- the trie

  datatype Node = Node(isEnd: bool, value: string, child: map<char, nat>)

  /** The node a key leads to. */
  function Walk(nodes: seq<Node>, key: string): Option<nat> {
    if key == "" then (if nodes == [] then None else Some(0))
    else
      var n := |key| - 1;
      match Walk(nodes, key[..n])
      case None => None
      case Some(i) =>
        if i < |nodes| && key[n] in nodes[i].child then Some(nodes[i].child[key[n]]) else None
  }

  /** Nodes are where their paths say. */
  ghost predicate Shaped(nodes: seq<Node>, paths: seq<string>) {
    && |paths| == |nodes| > 0 && paths[0] == ""
    && (forall i, c :: 0 <= i < |nodes| && c in nodes[i].child ==>
          nodes[i].child[c] < |nodes| && paths[nodes[i].child[c]] == paths[i] + [c])
    && (forall i :: 0 < i < |nodes| ==> paths[i] != "" && nodes[i].value == [paths[i][|paths[i]| - 1]])
  }

  lemma {:induction false} WalkPath(nodes: seq<Node>, paths: seq<string>, key: string)
    requires Shaped(nodes, paths) && Walk(nodes, key).Some?
    ensures Walk(nodes, key).value < |nodes| && paths[Walk(nodes, key).value] == key
    decreases |key|
  {
    if key != "" {
      var n := |key| - 1;
      WalkPath(nodes, paths, key[..n]);
      ChildPath(nodes, paths, Walk(nodes, key[..n]).value, key[n]);
      assert key == key[..n] + [key[n]];
    }
  }

  predicate Accepted(nodes: seq<Node>, w: string) {
    Walk(nodes, w).Some? && Walk(nodes, w).value < |nodes| && nodes[Walk(nodes, w).value].isEnd
  }

  predicate Leads(words: set<string>, p: string, more: string) { Live(words, p) || p <= more }

  /** The words are exactly the paths of end nodes, every word is there, and every node leads to a word or to `more`. */
  ghost predicate Holds(nodes: seq<Node>, paths: seq<string>, words: set<string>, more: string) {
    && Shaped(nodes, paths)
    && (forall i :: 0 <= i < |nodes| && nodes[i].isEnd ==> paths[i] in words)
    && (forall w {:trigger Accepted(nodes, w)} :: w in words ==> Accepted(nodes, w))
    && (forall i {:trigger Leads(words, paths[i], more)} :: 0 <= i < |nodes| ==> Leads(words, paths[i], more))
  }

  /** The trie accepts exactly the words, and a key leads somewhere exactly if it is a prefix of a word. */
  lemma AcceptsIff(nodes: seq<Node>, paths: seq<string>, words: set<string>, key: string)
    requires Holds(nodes, paths, words, "")
    ensures Walk(nodes, key).Some? <==> Live(words, key) || key == ""
    ensures Walk(nodes, key).Some?
      ==> Walk(nodes, key).value < |nodes| && (nodes[Walk(nodes, key).value].isEnd <==> key in words)
  {
    assert key in words ==> Accepted(nodes, key);
    if Walk(nodes, key).Some? {
      WalkPath(nodes, paths, key);
      assert Leads(words, paths[Walk(nodes, key).value], "");
    }
    if Live(words, key) {
      var w :| w in words && key <= w;
      assert Accepted(nodes, w);
      WalkPrefix(nodes, w, key);
    }
  }

  lemma {:induction false} WalkPrefix(nodes: seq<Node>, w: string, key: string)
    requires Walk(nodes, w).Some? && key <= w
    ensures Walk(nodes, key).Some?
    decreases |w|
  {
    if key != w {
      WalkPrefix(nodes, w[..|w| - 1], key);
    }
  }

  /** Children are only added. */
  ghost predicate Grown(nodes: seq<Node>, nodes': seq<Node>) {
    && |nodes| <= |nodes'|
    && (forall i, c :: 0 <= i < |nodes| && c in nodes[i].child ==>
      c in nodes'[i].child && nodes'[i].child[c] == nodes[i].child[c])
    && (forall i :: 0 <= i < |nodes| && nodes[i].isEnd ==> nodes'[i].isEnd)
  }

  lemma {:induction false} WalkGrown(nodes: seq<Node>, nodes': seq<Node>, key: string)
    requires Grown(nodes, nodes') && Walk(nodes, key).Some?
    ensures Walk(nodes', key) == Walk(nodes, key)
    decreases |key|
  {
    if key != "" { WalkGrown(nodes, nodes', key[..|key| - 1]); }
  }

  lemma HoldsGrown(nodes: seq<Node>, paths: seq<string>, nodes': seq<Node>, paths': seq<string>, words: set<string>,
                   more: string)
    requires Holds(nodes, paths, words, more) && Shaped(nodes', paths') && Grown(nodes, nodes')
    requires forall i :: 0 <= i < |nodes'| && nodes'[i].isEnd ==> paths'[i] in words
    requires forall i {:trigger Leads(words, paths'[i], more)} :: 0 <= i < |nodes'| ==> Leads(words, paths'[i], more)
    ensures Holds(nodes', paths', words, more)
  {
    forall w | w in words ensures Accepted(nodes', w) {
      assert Accepted(nodes, w);
      WalkGrown(nodes, nodes', w);
    }
  }

  /** Node `cur` gets a new child. */
  function WithChild(nodes: seq<Node>, cur: nat, c: char): seq<Node>
    requires cur < |nodes|
  {
    nodes[cur := nodes[cur].(child := nodes[cur].child[c := |nodes|])] + [Node(false, [c], map[])]
  }

  lemma WithChildHolds(nodes: seq<Node>, paths: seq<string>, words: set<string>, key: string, k: nat, cur: nat)
    requires k < |key| && Holds(nodes, paths, words, key) && cur < |nodes| && paths[cur] == key[..k]
    requires key[k] !in nodes[cur].child
    ensures Holds(WithChild(nodes, cur, key[k]), paths + [key[..k + 1]], words, key)
    ensures Grown(nodes, WithChild(nodes, cur, key[k]))
  {
    var nodes', paths' := WithChild(nodes, cur, key[k]), paths + [key[..k + 1]];
    WithChildShaped(nodes, paths, key, k, cur);
    forall i | 0 <= i < |nodes'| ensures Leads(words, paths'[i], key) {
      if i < |nodes| { assert paths'[i] == paths[i]; assert Leads(words, paths[i], key); }
    }
    HoldsGrown(nodes, paths, nodes', paths', words, key);
  }

  lemma WithChildShaped(nodes: seq<Node>, paths: seq<string>, key: string, k: nat, cur: nat)
    requires k < |key| && Shaped(nodes, paths) && cur < |nodes| && paths[cur] == key[..k] && key[k] !in nodes[cur].child
    ensures Shaped(WithChild(nodes, cur, key[k]), paths + [key[..k + 1]])
    ensures Grown(nodes, WithChild(nodes, cur, key[k]))
  {
    var nodes', paths' := WithChild(nodes, cur, key[k]), paths + [key[..k + 1]];
    PrefixNext(key, k);
    WithChildValues(nodes, paths, key[k], cur);
    forall i, c | 0 <= i < |nodes'| && c in nodes'[i].child
      ensures nodes'[i].child[c] < |nodes'| && paths'[nodes'[i].child[c]] == paths'[i] + [c]
    {
      WithChildPath(nodes, paths, key[k], cur, i, c);
    }
  }

  lemma WithChildValues(nodes: seq<Node>, paths: seq<string>, d: char, cur: nat)
    requires Shaped(nodes, paths) && cur < |nodes|
    ensures var nodes', paths' := WithChild(nodes, cur, d), paths + [paths[cur] + [d]];
      forall i :: 0 < i < |nodes'| ==> paths'[i] != "" && nodes'[i].value == [paths'[i][|paths'[i]| - 1]]
  {
    var nodes', paths' := WithChild(nodes, cur, d), paths + [paths[cur] + [d]];
    forall i | 0 < i < |nodes'| ensures paths'[i] != "" && nodes'[i].value == [paths'[i][|paths'[i]| - 1]] {
      if i < |nodes| { assert paths'[i] == paths[i] && nodes'[i].value == nodes[i].value; }
    }
  }

  lemma WithChildPath(nodes: seq<Node>, paths: seq<string>, d: char, cur: nat, i: nat, c: char)
    requires Shaped(nodes, paths) && cur < |nodes| && i <= |nodes| && c in WithChild(nodes, cur, d)[i].child
      && d !in nodes[cur].child
    ensures var nodes', paths' := WithChild(nodes, cur, d), paths + [paths[cur] + [d]];
      nodes'[i].child[c] < |nodes'| && paths'[nodes'[i].child[c]] == paths'[i] + [c]
  {
    if i < |nodes| && c in nodes[i].child { ChildPath(nodes, paths, i, c); }
  }

  lemma ChildPath(nodes: seq<Node>, paths: seq<string>, i: nat, c: char)
    requires Shaped(nodes, paths) && i < |nodes| && c in nodes[i].child
    ensures var j := nodes[i].child[c]; 0 < j < |nodes| && paths[j] == paths[i] + [c] && nodes[j].value == [c]
  {
    var j := nodes[i].child[c];
    assert paths[j] == paths[i] + [c];
    assert paths[j] != "" && paths[j][|paths[j]| - 1] == c;
  }

  lemma Descended(nodes: seq<Node>, paths: seq<string>, key: string, k: nat, cur: nat)
    requires k < |key| && Shaped(nodes, paths) && cur < |nodes| && paths[cur] == key[..k]
      && Walk(nodes, key[..k]) == Some(cur)
    requires key[k] in nodes[cur].child
    ensures var next := nodes[cur].child[key[k]];
      && next < |nodes| && paths[next] == key[..k + 1] && Walk(nodes, key[..k + 1]) == Some(next)
      && nodes[next := nodes[next].(value := [key[k]])] == nodes
  {
    ChildPath(nodes, paths, cur, key[k]);
    WalkNext(nodes, key, k, cur);
    PrefixNext(key, k);
  }

  lemma PrefixNext(key: string, k: nat)
    requires k < |key|
    ensures key[..k] + [key[k]] == key[..k + 1]
  {}

  lemma WalkNext(nodes: seq<Node>, key: string, k: nat, cur: nat)
    requires k < |key| && Walk(nodes, key[..k]) == Some(cur) && cur < |nodes|
    ensures Walk(nodes, key[..k + 1]) == if key[k] in nodes[cur].child then Some(nodes[cur].child[key[k]]) else None
  {
    assert key[..k + 1][..k] == key[..k];
  }

  class Trie {
    var nodes: seq<Node>
    var size: int
    ghost var paths: seq<string>
    ghost var words: set<string>

    constructor ()
      ensures Valid() && words == {}
    {
      nodes, size, paths, words := [Node(false, "", map[])], 0, [""], {};
    }

    ghost predicate Valid()
      reads this
    {
      Holds(nodes, paths, words, "") && size == |words|
    }

    /** Inserting `key` has followed, or made, the path of `p`. */
    ghost predicate At(cur: nat, p: string, key: string)
      reads this
    {
      Holds(nodes, paths, words, key) && cur < |nodes| && paths[cur] == p && Walk(nodes, p) == Some(cur)
    }

    method Insert(key: string)
      requires Valid()
      modifies this
      ensures Valid() && words == old(words) + {key}
    {
      HoldsMore(nodes, paths, words, key);
      var cur := 0;
      for k := 0 to |key|
        invariant At(cur, key[..k], key) && words == old(words) && size == old(size)
      {
        cur := Descend(cur, key, k);
      }
      assert key[..|key|] == key;
      EndAt(cur, key);
    }

    /** One character further, adding a node if there is none. */
    method Descend(cur: nat, key: string, k: nat) returns (next: nat)
      requires k < |key| && At(cur, key[..k], key)
      modifies this`nodes, this`paths
      ensures At(next, key[..k + 1], key)
    {
      var c := key[k];
      if c !in nodes[cur].child {
        AddChild(cur, key, k);
      }
      next := nodes[cur].child[c];
      Descended(nodes, paths, key, k, cur);
      nodes := nodes[next := nodes[next].(value := [c])]; // as it was
    }

    method AddChild(cur: nat, key: string, k: nat)
      requires k < |key| && At(cur, key[..k], key) && key[k] !in nodes[cur].child
      modifies this`nodes, this`paths
      ensures At(cur, key[..k], key) && key[k] in nodes[cur].child
    {
      WithChildHolds(nodes, paths, words, key, k, cur);
      WalkGrown(nodes, WithChild(nodes, cur, key[k]), key[..k]);
      nodes := nodes[cur := nodes[cur].(child := nodes[cur].child[key[k] := |nodes|])] + [Node(false, [key[k]], map[])];
      paths := paths + [key[..k + 1]];
    }

    method EndAt(cur: nat, key: string)
      requires At(cur, key, key) && size == |words|
      modifies this
      ensures Valid() && words == old(words) + {key}
    {
      WordAdded(nodes, paths, words, key, cur);
      if !nodes[cur].isEnd {
        size := size + 1;
        nodes := nodes[cur := nodes[cur].(isEnd := true)];
      }
      words := words + {key};
    }

    method Follow(cur: nat, key: string, k: nat) returns (child: Option<nat>)
      requires Valid() && k < |key| && cur < |nodes| && Walk(nodes, key[..k]) == Some(cur)
      ensures child == Walk(nodes, key[..k + 1])
      ensures child.None? ==> !Live(words, key[..k + 1])
      ensures child.Some? ==> child.value < |nodes| && (nodes[child.value].isEnd <==> key[..k + 1] in words)
    {
      WalkNext(nodes, key, k, cur);
      AcceptsIff(nodes, paths, words, key[..k + 1]);
      child := if key[k] in nodes[cur].child then Some(nodes[cur].child[key[k]]) else None;
    }

    /** The node a key leads to, and the length in bytes of the longest non-empty word that the key begins with. */
    method FindNode(key: string) returns (node: Option<nat>, index: nat)
      requires Valid()
      ensures node == Walk(nodes, key) && index == ByteLength(key[..LongestWord(words, key, |key|)])
    {
      var cur: nat, f, off: nat := 0, false, 0;
      ghost var found: nat := 0;
      index := 0;
      for k := 0 to |key|
        invariant FoundAt(nodes, words, key, k, cur, f, off, found, index)
      {
        var child: Option<nat>;
        child, f, off, found, index := FindStep(key, k, cur, f, off, found, index);
        if child.None? {
          return None, index;
        }
        cur := child.value;
      }
      node, index := Some(cur), FindEnd(key, cur, f, off, found, index);
    }

    /** One character of the key. */
    method FindStep(key: string, k: nat, cur: nat, f: bool, off: nat, ghost found: nat, index: nat)
      returns (child: Option<nat>, f': bool, off': nat, ghost found': nat, index': nat)
      requires Valid() && k < |key| && FoundAt(nodes, words, key, k, cur, f, off, found, index)
      ensures child.Some? ==> FoundAt(nodes, words, key, k + 1, child.value, f', off', found', index')
      ensures child.None? ==> Walk(nodes, key).None? && index' == ByteLength(key[..LongestWord(words, key, |key|)])
    {
      f', off', found', index' := false, off, if f then k else found, if f then off else index;
      child := Follow(cur, key, k);
      if child.None? {
        StopsHere(nodes, words, key, k, cur, f, off, found, index);
        return;
      }
      off', f' := off + Utf8Width(key[k]), nodes[child.value].isEnd;
      GoesOn(nodes, words, key, k, cur, f, off, found, index, child.value, f');
    }

    /** The key has been followed to its end. */
    function FindEnd(key: string, cur: nat, f: bool, off: nat, ghost found: nat, index: nat): (r: nat)
      requires Valid() && FoundAt(nodes, words, key, |key|, cur, f, off, found, index)
      reads this
      ensures Walk(nodes, key) == Some(cur) && r == ByteLength(key[..LongestWord(words, key, |key|)])
    {
      assert key[..|key|] == key;
      AcceptsIff(nodes, paths, words, key);
      if nodes[cur].isEnd then off else index
    }
  }

  /** The first `k` characters have been followed; a word that ends just here is not counted yet. */
  ghost predicate FoundAt(nodes: seq<Node>, words: set<string>, key: string, k: nat, cur: nat, f: bool, off: nat,
                          found: nat, index: nat)
    requires k <= |key|
  {
    && cur < |nodes| && Walk(nodes, key[..k]) == Some(cur) && off == ByteLength(key[..k])
    && (f <==> k > 0 && key[..k] in words)
    && found == LongestWord(words, key, if f then k - 1 else k) && index == ByteLength(key[..found])
  }

  lemma GoesOn(nodes: seq<Node>, words: set<string>, key: string, k: nat, cur: nat, f: bool, off: nat, found: nat,
               index: nat, next: nat, f': bool)
    requires k < |key| && FoundAt(nodes, words, key, k, cur, f, off, found, index)
    requires next < |nodes| && Walk(nodes, key[..k + 1]) == Some(next) && (f' <==> key[..k + 1] in words)
    ensures FoundAt(nodes, words, key, k + 1, next, f', off + Utf8Width(key[k]),
      if f then k else found, if f then off else index)
  {
    Counted(words, key, k, f, found);
    ByteNext(key, k);
  }

  lemma StopsHere(nodes: seq<Node>, words: set<string>, key: string, k: nat, cur: nat, f: bool, off: nat, found: nat,
                  index: nat)
    requires k < |key| && FoundAt(nodes, words, key, k, cur, f, off, found, index)
    requires Walk(nodes, key[..k + 1]).None? && !Live(words, key[..k + 1])
    ensures Walk(nodes, key).None? && (if f then off else index) == ByteLength(key[..LongestWord(words, key, |key|)])
  {
    Counted(words, key, k, f, found);
    NoLonger(words, key, k, |key|);
    WalkStops(nodes, key, k + 1);
  }

  lemma ByteNext(s: string, k: nat)
    requires k < |s|
    ensures ByteLength(s[..k + 1]) == ByteLength(s[..k]) + Utf8Width(s[k])
  {
    assert s[..k + 1][..k] == s[..k];
  }

  /** The longest of the first `k` non-empty prefixes of a key that is a word, or 0. */
  ghost function LongestWord(words: set<string>, key: string, k: nat): (n: nat)
    requires k <= |key|
    ensures n <= k && (n > 0 ==> key[..n] in words) && forall j :: n < j <= k ==> key[..j] !in words
  {
    if k == 0 then 0 else if key[..k] in words then k else LongestWord(words, key, k - 1)
  }

  /** A word that ended just before is now counted. */
  lemma Counted(words: set<string>, key: string, k: nat, f: bool, found: nat)
    requires k <= |key| && (f <==> k > 0 && key[..k] in words)
      && found == LongestWord(words, key, if f then k - 1 else k)
    ensures (if f then k else found) == LongestWord(words, key, k)
    ensures k < |key| ==>
      LongestWord(words, key, k + 1) == if key[..k + 1] in words then k + 1 else LongestWord(words, key, k)
  {}

  lemma {:induction false} NoLonger(words: set<string>, key: string, k: nat, m: nat)
    requires k < |key| && k <= m <= |key| && !Live(words, key[..k + 1])
    ensures LongestWord(words, key, m) == LongestWord(words, key, k)
    decreases m
  {
    if m > k {
      assert key[..k + 1] <= key[..m];
      NoLonger(words, key, k, m - 1);
    }
  }

  lemma HoldsMore(nodes: seq<Node>, paths: seq<string>, words: set<string>, key: string)
    requires Holds(nodes, paths, words, "")
    ensures Holds(nodes, paths, words, key)
  {
    forall i | 0 <= i < |nodes| ensures Leads(words, paths[i], key) { assert Leads(words, paths[i], ""); }
  }

  lemma WordAdded(nodes: seq<Node>, paths: seq<string>, words: set<string>, key: string, cur: nat)
    requires Holds(nodes, paths, words, key) && cur < |nodes| && paths[cur] == key && Walk(nodes, key) == Some(cur)
    ensures Holds(nodes[cur := nodes[cur].(isEnd := true)], paths, words + {key}, "")
    ensures nodes[cur].isEnd <==> key in words
    ensures nodes[cur].isEnd ==> nodes[cur := nodes[cur].(isEnd := true)] == nodes
  {
    assert key in words ==> Accepted(nodes, key);
    EndShaped(nodes, paths, cur);
    AllAccepted(nodes, paths, words, key, cur);
    AllLead(nodes, paths, words, key);
  }

  lemma AllAccepted(nodes: seq<Node>, paths: seq<string>, words: set<string>, key: string, cur: nat)
    requires Holds(nodes, paths, words, key) && cur < |nodes| && Walk(nodes, key) == Some(cur)
    ensures var nodes' := nodes[cur := nodes[cur].(isEnd := true)];
      forall w {:trigger Accepted(nodes', w)} :: w in words + {key} ==> Accepted(nodes', w)
  {
    var nodes' := nodes[cur := nodes[cur].(isEnd := true)];
    forall w | w in words + {key} ensures Accepted(nodes', w) {
      assert w in words ==> Accepted(nodes, w);
      EndAccepted(nodes, cur, w);
    }
  }

  lemma AllLead(nodes: seq<Node>, paths: seq<string>, words: set<string>, key: string)
    requires Holds(nodes, paths, words, key)
    ensures forall i {:trigger Leads(words + {key}, paths[i], "")} :: 0 <= i < |nodes| ==>
      Leads(words + {key}, paths[i], "")
  {
    forall i | 0 <= i < |nodes| ensures Leads(words + {key}, paths[i], "") {
      assert Leads(words, paths[i], key);
      LeadsMore(words, paths[i], key);
    }
  }

  lemma EndShaped(nodes: seq<Node>, paths: seq<string>, cur: nat)
    requires Shaped(nodes, paths) && cur < |nodes|
    ensures Shaped(nodes[cur := nodes[cur].(isEnd := true)], paths)
  {}

  lemma EndAccepted(nodes: seq<Node>, cur: nat, w: string)
    requires cur < |nodes| && (Accepted(nodes, w) || Walk(nodes, w) == Some(cur))
    ensures Accepted(nodes[cur := nodes[cur].(isEnd := true)], w)
  {
    WalkGrown(nodes, nodes[cur := nodes[cur].(isEnd := true)], w);
  }

  lemma LeadsMore(words: set<string>, p: string, key: string)
    requires Leads(words, p, key)
    ensures Live(words + {key}, p)
  {
    if Live(words, p) {
      var w :| w in words && p <= w;
      assert w in words + {key};
    } else {
      assert key in words + {key};
    }
  }

  lemma {:induction false} WalkStops(nodes: seq<Node>, key: string, k: nat)
    requires k <= |key| && Walk(nodes, key[..k]).None?
    ensures Walk(nodes, key).None?
    decreases |key| - k
  {
    if k == |key| {
      assert key[..k] == key;
    } else {
      assert key[..k + 1][..k] == key[..k];
      WalkStops(nodes, key, k + 1);
    }
  }

  // ---------------------------------------------------------------- the scanner

  function Targets(hits: seq<Hit>): seq<string> { seq(|hits|, k requires 0 <= k < |hits| => hits[k].target) }

  predicate InText(hits: seq<Hit>, txt: string) {
    forall k :: 0 <= k < |hits| ==> 0 <= hits[k].start <= hits[k].end <= |txt|
  }

  function Segments(hits: seq<Hit>, txt: string): seq<string>
    requires InText(hits, txt)
  {
    seq(|hits|, k requires 0 <= k < |hits| => txt[hits[k].start..hits[k].end])
  }

  ghost predicate Reported(hits: seq<Hit>, txt: string, found: seq<string>, target: seq<string>) {
    InText(hits, txt) && found == Segments(hits, txt) && target == Targets(hits)
  }

  lemma ReportedNext(hits: seq<Hit>, txt: string, found: seq<string>, target: seq<string>, h: Hit)
    requires Reported(hits, txt, found, target) && 0 <= h.start <= h.end <= |txt|
    ensures Reported(hits + [h], txt, found + [txt[h.start..h.end]], target + [h.target])
  {}

  class Scanner {
    const trie: Trie
    var ignored: set<char>

    constructor (chars: string)
      ensures trie.Valid() && trie.words == {} && fresh(trie) && ignored == set c | c in chars
    {
      trie := new Trie();
      ignored := set c | c in chars;
    }

    method AddBadWords(words: seq<string>)
      requires trie.Valid()
      modifies trie
      ensures trie.Valid() && trie.words == old(trie.words) + WordSet(words)
    {
      for i := 0 to |words|
        invariant trie.Valid() && trie.words == old(trie.words) + WordSet(words[..i])
      {
        AddWord(words, i, old(trie.words));
      }
      assert words[..|words|] == words;
    }

    method AddWord(words: seq<string>, i: nat, ghost before: set<string>)
      requires i < |words| && trie.Valid() && trie.words == before + WordSet(words[..i])
      modifies trie
      ensures trie.Valid() && trie.words == before + WordSet(words[..i + 1])
    {
      trie.Insert(words[i]);
      OneMore(words, i);
    }

    /** Reports the words found and the segments they were found in. */
    method Check(txt: string) returns (found: seq<string>, target: seq<string>, b: bool)
      requires trie.Valid()
      ensures var hits := ScanAll(trie.words, ignored, txt);
        Reported(hits, txt, found, target) && (b <==> hits != [])
    {
      ghost var hits: seq<Hit> := [];
      var at := Idle;
      found, target := [], [];
      for i := 0 to |txt|
        invariant Scanning(txt, i, at, hits) && Reported(hits, txt, found, target)
      {
        at, found, target, hits := Turn(txt, i, at, hits, found, target);
      }
      b := |found| > 0;
      NothingLeft(txt, at, hits);
    }

    lemma NothingLeft(txt: string, at: Place, hits: seq<Hit>)
      requires Scanning(txt, |txt|, at, hits)
      ensures hits == ScanAll(trie.words, ignored, txt)
    {
      assert hits + [] == hits;
    }

    /** One turn of the loop. */
    method Turn(txt: string, i: int, at: Place, ghost hits: seq<Hit>, found: seq<string>, target: seq<string>)
      returns (next: Place, found': seq<string>, target': seq<string>, ghost hits': seq<Hit>)
      requires Scanning(txt, i, at, hits) && i < |txt| && Reported(hits, txt, found, target)
      ensures Scanning(txt, i + 1, next, hits') && Reported(hits', txt, found', target')
    {
      var hit;
      found', target', hits' := found, target, hits;
      next, hit := Step(txt, i, at, hits);
      if hit.Some? {
        ReportedNext(hits, txt, found, target, hit.value);
        target' := target + [hit.value.target];
        found' := found + [txt[hit.value.start..hit.value.end]];
        hits' := hits + [hit.value];
      }
    }

    /** `hits` are reported, and the rest of the scan is still to come. */
    ghost predicate Scanning(txt: string, i: int, at: Place, hits: seq<Hit>)
      reads this, trie
    {
      && 0 <= i <= |txt| && trie.Valid()
      && Placed(trie.nodes, i, at)
      && hits + Scan(trie.words, ignored, txt, i, at.tmp, at.start) == ScanAll(trie.words, ignored, txt)
    }

    /** One character of the text. */
    method Step(txt: string, i: int, at: Place, ghost hits: seq<Hit>) returns (next: Place, hit: Option<Hit>)
      requires Scanning(txt, i, at, hits) && i < |txt|
      ensures hit.Some? ==> 0 <= hit.value.start <= hit.value.end <= |txt|
      ensures Scanning(txt, i + 1, next, if hit.Some? then hits + [hit.value] else hits)
    {
      next, hit := at, None;
      if txt[i] in ignored {
        return;
      }
      next := Move(at, txt[i], i);
      if next == at || next.node.None? {
        return;
      }
      if trie.nodes[next.node.value].isEnd {
        hit := Some(Hit(next.tmp, next.start, i + 1));
        next := Idle;
        HitFirst(hits, hit.value, Scan(trie.words, ignored, txt, i + 1, "", -1));
      }
    }

    /** The place behind a character that is not ignored. */
    method Move(at: Place, val: char, i: int) returns (next: Place)
      requires trie.Valid() && Placed(trie.nodes, i, at) && 0 <= i
      ensures var q := at.tmp + [val];
        if !Live(trie.words, q) then next == at
        else
          && next.node.Some? && next.node.value < |trie.nodes| && next != at
          && next.tmp == q && Walk(trie.nodes, q) == next.node && next.start == (if at.tmp == "" then i else at.start)
          && (trie.nodes[next.node.value].isEnd <==> q in trie.words)
    {
      Continues(trie.nodes, trie.paths, trie.words, at.tmp, val);
      if at.node.None? {
        var child, index := trie.FindNode([val]);
        assert "" + [val] == [val];
        if child.None? {
          return Idle;
        }
        next := Place(child, i, trie.nodes[child.value].value);
      } else {
        var children := trie.nodes[at.node.value].child;
        if val !in children {
          return at;
        }
        next := Place(Some(children[val]), at.start, at.tmp + trie.nodes[children[val]].value);
      }
      assert |next.tmp| == |at.tmp| + 1;
    }
  }

  function WordSet(words: seq<string>): set<string> { set w | w in words }

  lemma OneMore(words: seq<string>, i: nat)
    requires i < |words|
    ensures WordSet(words[..i + 1]) == WordSet(words[..i]) + {words[i]}
  {
    var more, some := words[..i + 1], words[..i];
    assert forall w :: w in more <==> w in some || w == words[i];
  }

  lemma HitFirst(hits: seq<Hit>, h: Hit, rest: seq<Hit>)
    ensures hits + ([h] + rest) == (hits + [h]) + rest
  {}

  /** Where the scanner is: the current node, the start of the segment and the word so far. */
  datatype Place = Place(node: Option<nat>, start: int, tmp: string)

  const Idle: Place := Place(None, -1, "")

  ghost predicate Placed(nodes: seq<Node>, i: int, at: Place) {
    match at.node
    case None => at == Idle
    case Some(n) => at.tmp != "" && Walk(nodes, at.tmp) == Some(n) && n < |nodes| && 0 <= at.start < i
  }

  /** A word so far goes on with a character just if the trie has a child for it. */
  lemma Continues(nodes: seq<Node>, paths: seq<string>, words: set<string>, p: string, c: char)
    requires Holds(nodes, paths, words, "") && Walk(nodes, p).Some?
    ensures Walk(nodes, p).value < |nodes|
    ensures var n, q := Walk(nodes, p).value, p + [c];
      && (c in nodes[n].child <==> Live(words, q))
      && Walk(nodes, q) == (if c in nodes[n].child then Some(nodes[n].child[c]) else None)
      && (c in nodes[n].child ==> var j := nodes[n].child[c];
            j < |nodes| && nodes[j].value == [c] && (nodes[j].isEnd <==> q in words))
  {
    WalkPath(nodes, paths, p);
    var q := p + [c];
    assert q[..|p|] == p;
    AcceptsIff(nodes, paths, words, q);
    var n := Walk(nodes, p).value;
    if c in nodes[n].child { ChildPath(nodes, paths, n, c); }
  }
}
