/**
 The state matrix of epidemic broadcast trees: one network frontier per peer and
 feed format, the integer code of its notes, and its persistence.
 */
module Frontiers {
  import opened Basics
  import opened Feeds
  import Decimal

  // ---------------------------------------------------------------- notes

  datatype Note = Note(sequence: int, replicate: bool, receive: bool)

  predicate Int64(i: int) { -Decimal.MaxInt64 - 1 <= i <= Decimal.MaxInt64 }

  /** Two's complement of 64 bits. */
  function Wrap64(x: int): (r: int)
    ensures Int64(r)
  {
    (x + 0x8000_0000_0000_0000) % 0x1_0000_0000_0000_0000 - 0x8000_0000_0000_0000
  }

  /** Sequence and flags in one integer: -1 for "do not replicate", else twice the sequence, odd for "do not send". */
  function NoteCode(n: Note): int {
    if !n.replicate then -1
    else
      var i := Wrap64(2 * (if n.sequence == -1 then 0 else n.sequence));
      if n.receive then i else i + 1
  }

  function EncodeNote(n: Note): string { Decimal.FormatInt(NoteCode(n)) }

  function DecodeNote(t: string): Option<Note> {
    var i := Decimal.ParseInt(t);
    if i.None? || i.value < -1 then None
    else if i.value == -1 then Some(Note(0, false, false))
    else Some(Note(i.value / 2, true, i.value % 2 == 0))
  }

  const TwoTo62: int := 0x4000_0000_0000_0000

  /** Notes that survive the code: replicated ones with a sequence below 2^62, and the plain refusal. */
  predicate Canonical(n: Note) {
    if n.replicate then 0 <= n.sequence < TwoTo62 else n == Note(0, false, false)
  }

  /** On the wire, even numbers ask for messages and odd ones do not; half of either is the sequence. */
  lemma CodeMeans(s: int, receive: bool)
    requires 0 <= s < TwoTo62
    ensures var code := NoteCode(Note(s, true, receive));
      0 <= code && (receive <==> code % 2 == 0) && code / 2 == s
    ensures NoteCode(Note(s, false, receive)) == -1
  {}

  /** One note of each kind. */
  lemma CodesOfFive()
    ensures EncodeNote(Note(5, true, true)) == "10" && EncodeNote(Note(5, true, false)) == "11"
    ensures EncodeNote(Note(5, false, true)) == "-1"
    ensures DecodeNote("10") == Some(Note(5, true, true)) && DecodeNote("11") == Some(Note(5, true, false))
  {
    assert NoteCode(Note(5, true, true)) == 10 && NoteCode(Note(5, true, false)) == 11;
    Decimal.Samples();
    Decimal.ParseFormat(10);
    Decimal.ParseFormat(11);
  }

  lemma DecodeCode(i: int)
    requires Int64(i)
    ensures DecodeNote(Decimal.FormatInt(i)) == Decoded(i)
  {
    Decimal.ParseFormat(i);
  }

  lemma WrapDouble(s: int)
    requires Int64(s)
    ensures Wrap64(2 * s) == if 2 * s > Decimal.MaxInt64 then 2 * s - 0x1_0000_0000_0000_0000
                             else if 2 * s < -Decimal.MaxInt64 - 1 then 2 * s + 0x1_0000_0000_0000_0000 else 2 * s
  {}

  function Decoded(i: int): Option<Note> {
    if i < -1 then None else if i == -1 then Some(Note(0, false, false)) else Some(Note(i / 2, true, i % 2 == 0))
  }

  lemma CodeIff(n: Note)
    requires Int64(n.sequence)
    ensures Int64(NoteCode(n)) && (Decoded(NoteCode(n)) == Some(n) <==> Canonical(n))
  {
    if n.replicate && n.sequence != -1 {
      var w := Wrap64(2 * n.sequence);
      WrapDouble(n.sequence);
      assert w % 2 == 0;
    }
  }

  /** Decoding inverts encoding exactly on the canonical notes, for every 64-bit sequence. */
  lemma NoteRoundTripIff(n: Note)
    requires Int64(n.sequence)
    ensures DecodeNote(EncodeNote(n)) == Some(n) <==> Canonical(n)
  {
    CodeIff(n);
    DecodeCode(NoteCode(n));
  }

  /** "No messages" becomes zero, refusals lose their other fields. */
  lemma NoteNormalises(n: Note)
    ensures n.replicate && n.sequence == -1 ==> DecodeNote(EncodeNote(n)) == Some(n.(sequence := 0))
    ensures !n.replicate ==> DecodeNote(EncodeNote(n)) == Some(Note(0, false, false))
  {
    if !n.replicate {
      DecodeCode(-1);
    } else if n.sequence == -1 {
      WrapDouble(0);
      DecodeCode(if n.receive then 0 else 1);
    }
  }

  lemma DecodedIsCanonical(t: string)
    requires DecodeNote(t).Some?
    ensures Canonical(DecodeNote(t).value)
  {}

  // ---------------------------------------------------------------- frontiers and their documents

  /** A key of a frontier: text that parses as a feed reference, or text that does not. */
  datatype RefText = Ref(feed: Feed) | Junk(text: string)

  type Frontier = map<RefText, Note>

  /** A JSON object from reference texts to note codes. */
  type Document = map<RefText, string>

  function FrontierDocument(nf: Frontier): Document { map k | k in nf :: EncodeNote(nf[k]) }

  /** One bad note spoils the document; keys that are no feed references are dropped. */
  function ReadDocument(doc: Document): Option<Frontier> {
    if exists k :: k in doc && DecodeNote(doc[k]).None? then None
    else Some(map k | k in doc && k.Ref? :: DecodeNote(doc[k]).value)
  }

  ghost predicate CanonicalFrontier(nf: Frontier) { forall k :: k in nf ==> k.Ref? && Canonical(nf[k]) }

  lemma ReadsBack(doc: Document, nf: Frontier)
    requires doc.Keys == nf.Keys && forall k :: k in nf ==> k.Ref? && DecodeNote(doc[k]) == Some(nf[k])
    ensures ReadDocument(doc) == Some(nf)
  {
    assert ReadDocument(doc).value == nf;
  }

  /** A frontier survives being saved and reloaded exactly when its keys are feed references and its notes canonical. */
  lemma ReloadIff(nf: Frontier)
    requires forall k :: k in nf ==> Int64(nf[k].sequence)
    ensures ReadDocument(FrontierDocument(nf)) == Some(nf) <==> CanonicalFrontier(nf)
  {
    var doc := FrontierDocument(nf);
    assert doc.Keys == nf.Keys;
    forall k | k in nf
      ensures DecodeNote(doc[k]) == Some(nf[k]) <==> Canonical(nf[k])
    {
      NoteRoundTripIff(nf[k]);
    }
    if CanonicalFrontier(nf) {
      ReadsBack(doc, nf);
    }
    if ReadDocument(doc) == Some(nf) {
      forall k | k in nf ensures k.Ref? && Canonical(nf[k]) {
        assert k in ReadDocument(doc).value;
      }
    }
  }

  // ---------------------------------------------------------------- one peer's frontier over a run

  /** Does the peer want the message after number `s` of that feed? */
  predicate WantsSequence(nf: Frontier, f: Feed, s: int) {
    Ref(f) !in nf || (nf[Ref(f)].receive && nf[Ref(f)].sequence < s + 1)
  }

  function SetSequence(nf: Frontier, f: Feed, s: int): Frontier {
    if Ref(f) in nf then nf[Ref(f) := nf[Ref(f)].(sequence := s)] else nf
  }

  datatype FrontierEvent =
    | Received(doc: Document)          // a frontier document from the peer
    | Sent(feed: Feed, sinkSequence: int) // one write of a tracking sink

  function ApplyEvent(nf: Frontier, e: FrontierEvent): Frontier {
    match e
    case Received(doc) => if ReadDocument(doc).None? then nf else nf + ReadDocument(doc).value
    case Sent(f, s) => if WantsSequence(nf, f, s) then SetSequence(nf, f, s + 1) else nf
  }

  function ApplyEvents(nf: Frontier, es: seq<FrontierEvent>): Frontier
    decreases |es|
  {
    if es == [] then nf else ApplyEvents(ApplyEvent(nf, es[0]), es[1..])
  }

  lemma EventKeepsCanonical(nf: Frontier, e: FrontierEvent)
    requires CanonicalFrontier(nf) && (e.Sent? ==> 0 <= e.sinkSequence + 1 < TwoTo62)
    ensures CanonicalFrontier(ApplyEvent(nf, e))
  {
    if e.Received? && ReadDocument(e.doc).Some? {
      var up := ReadDocument(e.doc).value;
      forall k | k in up ensures Canonical(up[k]) { DecodedIsCanonical(e.doc[k]); }
    }
  }

  lemma {:induction false} EventsKeepCanonical(nf: Frontier, es: seq<FrontierEvent>)
    requires CanonicalFrontier(nf)
    requires forall i :: 0 <= i < |es| && es[i].Sent? ==> 0 <= es[i].sinkSequence + 1 < TwoTo62
    ensures CanonicalFrontier(ApplyEvents(nf, es))
    decreases |es|
  {
    if es != [] {
      EventKeepsCanonical(nf, es[0]);
      EventsKeepCanonical(ApplyEvent(nf, es[0]), es[1..]);
    }
  }

  /**
   In every run of decoded updates and tracked writes (sinks below 2^62), saving the frontier and
   reloading it gives the same frontier.
   */
  lemma FrontierPersists(es: seq<FrontierEvent>)
    requires forall i :: 0 <= i < |es| && es[i].Sent? ==> 0 <= es[i].sinkSequence + 1 < TwoTo62
    ensures var nf := ApplyEvents(map[], es); ReadDocument(FrontierDocument(nf)) == Some(nf)
  {
    EventsKeepCanonical(map[], es);
    ReloadIff(ApplyEvents(map[], es));
  }

  /** A bare sequence update, without the test of a tracking sink, may put a number on a refusal, which is then lost. */
  lemma SequenceUpdatePersistsIff(nf: Frontier, f: Feed, s: int)
    requires CanonicalFrontier(nf) && Ref(f) in nf && Int64(s)
    ensures var up := SetSequence(nf, f, s);
      ReadDocument(FrontierDocument(up)) == Some(up) <==>
      if nf[Ref(f)].replicate then 0 <= s < TwoTo62 else s == 0
  {
    var up := SetSequence(nf, f, s);
    forall k | k in up ensures Int64(up[k].sequence) {}
    ReloadIff(up);
    assert up[Ref(f)] == nf[Ref(f)].(sequence := s);
  }

  // ---------------------------------------------------------------- the matrix

  /** The open frontiers by format and peer, and the files. */
  datatype Matrix = Matrix(open: map<Algo, map<Feed, Frontier>>, files: map<(Feed, Algo), Document>)

  function OpenOf(m: Matrix, format: Algo): map<Feed, Frontier> {
    if format in m.open then m.open[format] else map[]
  }

  /** The frontier of a peer: open, from its file, or empty.  None: the file cannot be decoded. */
  function Loaded(m: Matrix, peer: Feed, format: Algo): Option<Frontier> {
    if peer in OpenOf(m, format) then Some(OpenOf(m, format)[peer])
    else if (peer, format) !in m.files then Some(map[])
    else ReadDocument(m.files[(peer, format)])
  }

  /** Loading registers the frontier, except that a new one is dropped while no frontier of that format is open. */
  function AfterLoad(m: Matrix, peer: Feed, format: Algo): Matrix {
    if peer in OpenOf(m, format) || Loaded(m, peer, format).None? then m
    else if (peer, format) !in m.files && format !in m.open then m
    else m.(open := m.open[format := OpenOf(m, format)[peer := Loaded(m, peer, format).value]])
  }

  function WithFrontier(m: Matrix, peer: Feed, format: Algo, nf: Frontier): Matrix {
    m.(open := m.open[format := OpenOf(m, format)[peer := nf]])
  }

  function Saved(m: Matrix, peer: Feed, format: Algo): Matrix {
    if peer in OpenOf(m, format)
    then m.(files := m.files[(peer, format) := FrontierDocument(OpenOf(m, format)[peer])]) else m
  }

  function SavedAndClosed(m: Matrix, peer: Feed, format: Algo): Matrix {
    var s := Saved(m, peer, format);
    if format in s.open then s.(open := s.open[format := s.open[format] - {peer}]) else s
  }

  /** Closing a peer and asking for its frontier again gives the frontier it had, for canonical frontiers. */
  lemma CloseThenLoad(m: Matrix, peer: Feed, format: Algo)
    requires peer in OpenOf(m, format) && CanonicalFrontier(OpenOf(m, format)[peer])
    ensures Loaded(SavedAndClosed(m, peer, format), peer, format) == Some(OpenOf(m, format)[peer])
  {
    ReloadIff(OpenOf(m, format)[peer]);
  }

  lemma LoadThenStore(m: Matrix, peer: Feed, format: Algo, nf: Frontier)
    ensures WithFrontier(AfterLoad(m, peer, format), peer, format, nf) == WithFrontier(m, peer, format, nf)
  {
    if AfterLoad(m, peer, format) != m {
      var old1, new1 := OpenOf(m, format), OpenOf(AfterLoad(m, peer, format), format);
      assert new1[peer := nf] == old1[peer := nf];
      assert m.open[format := new1][format := new1[peer := nf]] == m.open[format := old1[peer := nf]];
    }
  }

  /** An open frontier is shared: changing it changes the matrix. */
  function ChangedInPlace(m: Matrix, who: Feed, format: Algo, nf: Frontier): Matrix {
    if who in OpenOf(m, format) then WithFrontier(m, who, format, nf) else m
  }

  lemma StoreTwice(m: Matrix, who: Feed, format: Algo, nf: Frontier)
    ensures WithFrontier(ChangedInPlace(m, who, format, nf), who, format, nf) == WithFrontier(m, who, format, nf)
  {
    if who in OpenOf(m, format) {
      var o := OpenOf(m, format)[who := nf];
      assert o[who := nf] == o && m.open[format := o][format := o] == m.open[format := o];
    }
  }

  lemma LoadedInPlace(m: Matrix, who: Feed, format: Algo)
    requires Loaded(m, who, format).Some?
    ensures var l := AfterLoad(m, who, format); ChangedInPlace(l, who, format, Loaded(m, who, format).value) == l
  {
    var l, nf := AfterLoad(m, who, format), Loaded(m, who, format).value;
    if who in OpenOf(l, format) {
      assert OpenOf(l, format)[who] == nf;
      assert OpenOf(l, format)[who := nf] == OpenOf(l, format);
      assert l.open[format := l.open[format]] == l.open;
    }
  }

  lemma ChangedAgain(m: Matrix, who: Feed, format: Algo, nf: Frontier, nf': Frontier)
    ensures ChangedInPlace(ChangedInPlace(m, who, format, nf), who, format, nf') == ChangedInPlace(m, who, format, nf')
  {
    if who in OpenOf(m, format) {
      var o := OpenOf(m, format);
      assert o[who := nf][who := nf'] == o[who := nf'];
      assert m.open[format := o[who := nf]][format := o[who := nf']] == m.open[format := o[who := nf']];
    }
  }

  /** How many feeds at the front are of the format. */
  function OneFormat(feeds: seq<FeedWithLength>, format: Algo): (n: nat)
    ensures n <= |feeds| && (n < |feeds| ==> feeds[n].feed.algo != format) && forall i :: 0 <= i < n ==>
      feeds[i].feed.algo == format
  {
    if feeds == [] || feeds[0].feed.algo != format then 0 else 1 + OneFormat(feeds[1..], format)
  }

  datatype FeedWithLength = FeedWithLength(feed: Feed, sequence: int)

  datatype ObservedFeed = ObservedFeed(feed: Feed, note: Note)

  function ApplySequences(nf: Frontier, fs: seq<FeedWithLength>): Frontier {
    if fs == [] then nf
    else var last := fs[|fs| - 1]; SetSequence(ApplySequences(nf, fs[..|fs| - 1]), last.feed, last.sequence)
  }

  function ApplyFill(nf: Frontier, fs: seq<ObservedFeed>): Frontier {
    if fs == [] then nf
    else
      var last, before := fs[|fs| - 1], ApplyFill(nf, fs[..|fs| - 1]);
      if last.note.replicate then before[Ref(last.feed) := last.note] else before - {Ref(last.feed)}
  }

  /** The own frontier and then the peer's are loaded; a failure ends it. */
  function BothLoaded(m: Matrix, self: Feed, peer: Feed, format: Algo): Matrix {
    if Loaded(m, self, format).None? then m else AfterLoad(AfterLoad(m, self, format), peer, format)
  }

  /**
   A feed is told to the peer if we want it and it is new to them, or if they replicate and want it or it is their
   own.
   */
  predicate Relevant(mine: Frontier, theirs: Frontier, peer: Feed, k: RefText) {
    && k in mine
    && if k in theirs then theirs[k].replicate && (theirs[k].receive || k == Ref(peer)) else mine[k].receive
  }

  /**
   What a peer must hear of: feeds it asked for, its own feed unless refused, and feeds new to it that we want.  What it
   must not: feeds it refused, feeds of others it does not want now, and feeds new to it that we do not want.
   */
  lemma MustHear(part: Frontier, mine: Frontier, theirs: Frontier, peer: Feed, k: RefText)
    requires IsRelevantPart(part, mine, theirs, peer) && k in mine
    ensures k in theirs && theirs[k].replicate && theirs[k].receive ==> k in part && part[k] == mine[k]
    ensures k in theirs && theirs[k].replicate && k == Ref(peer) ==> k in part && part[k] == mine[k]
    ensures k !in theirs && mine[k].receive ==> k in part && part[k] == mine[k]
    ensures k in theirs && !theirs[k].replicate ==> k !in part
    ensures k in theirs && !theirs[k].receive && k != Ref(peer) ==> k !in part
    ensures k !in theirs && !mine[k].receive ==> k !in part
  {}

  datatype MatrixError = Updated | LoadFailed | MixedFormats | NilMap

  class StateMatrix {
    const self: Feed
    var open: map<Algo, map<Feed, Frontier>>
    var files: map<(Feed, Algo), Document>

    ghost function State(): Matrix
      reads this
    {
      Matrix(open, files)
    }

    /** Opens the own frontier in every format. */
    constructor (self: Feed, files: map<(Feed, Algo), Document>)
      ensures this.self == self
      ensures State() == AfterLoad(AfterLoad(AfterLoad(Matrix(map[], files), self, Ssb1), self, Gabby), self, BendyButt)
    {
      this.self, this.open, this.files := self, map[], files;
      new;
      var _ := LoadFrontier(self, Ssb1);
      var _ := LoadFrontier(self, Gabby);
      var _ := LoadFrontier(self, BendyButt);
    }

    method LoadFrontier(peer: Feed, format: Algo) returns (curr: Option<Frontier>)
      modifies this`open
      ensures curr == old(Loaded(State(), peer, format))
      ensures State() == old(AfterLoad(State(), peer, format))
    {
      var formatMap: map<Feed, Frontier> := map[];
      var has := format in open;
      if has {
        formatMap := open[format];
      }
      if peer in formatMap {
        return Some(formatMap[peer]);
      }
      if (peer, format) !in files {
        if has { // the format's map is shared; a new one is not put back
          open := open[format := formatMap[peer := map[]]];
        }
        return Some(map[]);
      }
      curr := ReadDocument(files[(peer, format)]);
      if curr.Some? {
        open := open[format := formatMap[peer := curr.value]];
      }
    }

    method SaveAndClose(peer: Feed, format: Algo)
      modifies this
      ensures State() == old(SavedAndClosed(State(), peer, format))
    {
      if format in open {
        if peer in open[format] {
          files := files[(peer, format) := FrontierDocument(open[format][peer])];
        }
        open := open[format := open[format] - {peer}];
      }
    }

    method WantsFeedWithSeq(peer: Feed, feed: Feed, s: int) returns (wants: Option<bool>)
      modifies this`open
      ensures State() == old(AfterLoad(State(), peer, feed.algo))
      ensures wants == match old(Loaded(State(), peer, feed.algo))
                       case None => None
                       case Some(nf) => Some(WantsSequence(nf, feed, s))
    {
      var nf := LoadFrontier(peer, feed.algo);
      if nf.None? {
        return None;
      }
      if Ref(feed) !in nf.value {
        return Some(true); // without a note the peer is taken to want it
      }
      var n := nf.value[Ref(feed)];
      if !n.receive {
        return Some(false);
      }
      return Some(n.sequence < s + 1);
    }

    /**
     Changed sequences of feeds of one format.  An open frontier is changed in place, so what precedes a feed of
     another format stays changed.  Writing to a format map that was never made is a crash.
     */
    method UpdateSequences(who: Feed, feeds: seq<FeedWithLength>) returns (err: MatrixError)
      modifies this`open
      ensures feeds == [] ==> err == Updated && State() == old(State())
      ensures feeds != [] ==>
        var format := feeds[0].feed.algo;
        var nf, m := old(Loaded(State(), who, feeds[0].feed.algo)), old(AfterLoad(State(), who, feeds[0].feed.algo));
        var n := OneFormat(feeds, format);
        if nf.None? then err == LoadFailed && State() == old(State())
        else if n < |feeds| then
          && err == MixedFormats
          && State() == ChangedInPlace(m, who, format, ApplySequences(nf.value, feeds[..n]))
        else if format !in m.open then err == NilMap && State() == m
        else err == Updated && State() == old(WithFrontier(State(), who, feeds[0].feed.algo,
               ApplySequences(Loaded(State(), who, feeds[0].feed.algo).value, feeds)))
    {
      if feeds == [] {
        return Updated;
      }
      var format := feeds[0].feed.algo;
      var loaded := LoadFrontier(who, format);
      if loaded.None? {
        return LoadFailed;
      }
      ghost var m := State();
      LoadedInPlace(old(State()), who, format);
      var nf := loaded.value;
      for i := 0 to |feeds|
        invariant i <= OneFormat(feeds, format)
        invariant nf == ApplySequences(loaded.value, feeds[..i]) && State() == ChangedInPlace(m, who, format, nf)
      {
        var up := feeds[i];
        if up.feed.algo != format {
          return MixedFormats;
        }
        assert feeds[..i + 1][..i] == feeds[..i];
        ChangedAgain(m, who, format, nf, SetSequence(nf, up.feed, up.sequence));
        nf := SetSequence(nf, up.feed, up.sequence);
        if format in open && who in open[format] { // the same object
          open := open[format := open[format][who := nf]];
        }
      }
      assert feeds[..|feeds|] == feeds;
      if format !in open {
        return NilMap;
      }
      StoreTwice(m, who, format, nf);
      LoadThenStore(old(State()), who, format, nf);
      open := open[format := open[format][who := nf]];
      return Updated;
    }

    /** Overwrites the notes of a peer with those of a received frontier and returns the whole. */
    method Update(who: Feed, update: Frontier, format: Algo) returns (current: Option<Frontier>)
      modifies this`open
      ensures var nf := old(Loaded(State(), who, format));
        if nf.None? then current == None && State() == old(State())
        else current == Some(nf.value + update) && State() == old(WithFrontier(State(), who, format, nf.value + update))
    {
      var loaded := LoadFrontier(who, format);
      if loaded.None? {
        return None;
      }
      var nf := loaded.value + update;
      var formatMap: map<Feed, Frontier> := map[];
      if format in open {
        formatMap := open[format];
      }
      LoadThenStore(old(State()), who, format, nf);
      open := open[format := formatMap[who := nf]];
      return Some(nf);
    }

    method Fill(who: Feed, feeds: seq<ObservedFeed>) returns (err: MatrixError)
      modifies this`open
      ensures feeds == [] ==> err == Updated && State() == old(State())
      ensures feeds != [] ==>
        var nf := old(Loaded(State(), who, feeds[0].feed.algo));
        if nf.None? then err == LoadFailed && State() == old(State())
        else
          && err == Updated
          && State() == old(WithFrontier(State(), who, feeds[0].feed.algo, ApplyFill(nf.value, feeds)))
    {
      if feeds == [] {
        return Updated;
      }
      var format := feeds[0].feed.algo;
      var loaded := LoadFrontier(who, format);
      if loaded.None? {
        return LoadFailed;
      }
      var nf := loaded.value;
      for i := 0 to |feeds|
        invariant nf == ApplyFill(loaded.value, feeds[..i])
      {
        var up := feeds[i];
        assert feeds[..i + 1][..i] == feeds[..i];
        if up.note.replicate {
          nf := nf[Ref(up.feed) := up.note];
        } else {
          nf := nf - {Ref(up.feed)};
        }
      }
      assert feeds[..|feeds|] == feeds;
      var formatMap: map<Feed, Frontier> := map[];
      if format in open {
        formatMap := open[format];
      }
      LoadThenStore(old(State()), who, format, nf);
      open := open[format := formatMap[who := nf]];
      return Updated;
    }

    /** What to tell a peer: the relevant part of the own frontier. */
    method Changed(peer: Feed, format: Algo) returns (relevant: Option<Frontier>)
      modifies this`open
      ensures var mine := old(Loaded(State(), self, format));
        var theirs := old(Loaded(AfterLoad(State(), self, format), peer, format));
        if mine.None? || theirs.None? then relevant == None
        else relevant.Some? && IsRelevantPart(relevant.value, mine.value, theirs.value, peer)
      ensures State() == old(BothLoaded(State(), self, peer, format))
    {
      var mine := LoadFrontier(self, format);
      if mine.None? {
        return None;
      }
      var theirs := LoadFrontier(peer, format);
      if theirs.None? {
        return None;
      }
      var res := RelevantPart(mine.value, theirs.value, peer);
      return Some(res);
    }

    /** The frontier that is sent to a peer: the own feed is not asked for. */
    method LoadState(peer: Feed, format: Algo) returns (r: Option<Frontier>)
      modifies this`open
      ensures var mine := old(Loaded(State(), self, format));
        var theirs := old(Loaded(AfterLoad(State(), self, format), peer, format));
        && (r.None? <==> mine.None? || theirs.None?)
        && (r.Some? ==> forall k: RefText :: k in r.value <==> Relevant(mine.value, theirs.value, peer, k))
        && (r.Some? ==> forall k: RefText :: k in r.value ==>
              r.value[k] == if k == Ref(self) then mine.value[k].(receive := false) else mine.value[k])
      ensures State() == old(BothLoaded(State(), self, peer, format))
    {
      r := Changed(peer, format);
      if r.None? {
        return;
      }
      var state := r.value;
      if Ref(self) in state {
        state := state[Ref(self) := state[Ref(self)].(receive := false)];
      }
      r := Some(state);
    }
  }

  /** Exactly the relevant feeds, each with our own note. */
  ghost predicate IsRelevantPart(res: Frontier, mine: Frontier, theirs: Frontier, peer: Feed) {
    && (forall k: RefText :: k in res <==> Relevant(mine, theirs, peer, k))
    && (forall k: RefText :: k in res ==> res[k] == mine[k])
  }

  method RelevantPart(mine: Frontier, theirs: Frontier, peer: Feed) returns (res: Frontier)
    ensures IsRelevantPart(res, mine, theirs, peer)
  {
    res := map[];
    var todo := mine.Keys;
    while todo != {}
      invariant todo <= mine.Keys
      invariant forall k: RefText :: k in res <==> k !in todo && Relevant(mine, theirs, peer, k)
      invariant forall k: RefText :: k in res ==> res[k] == mine[k]
      decreases todo
    {
      var k :| k in todo;
      todo := todo - {k};
      if k !in theirs {
        if mine[k].receive {
          res := res[k := mine[k]]; // new to the peer: ask for it
        }
      } else if theirs[k].replicate && (theirs[k].receive || k == Ref(peer)) {
        res := res[k := mine[k]];
      }
    }
  }
}
