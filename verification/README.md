# Verified model of a Secure Scuttlebutt server

The project models the replication, indexing and encoding core of the go-ssb server and proves what that core promises,
for all inputs and all runs. One module stands for one component:

| module | component |
|---|---|
| `JsonText`, `LegacyPrinter` | JSON text, and the canonical text of a message |
| `V8Text`, `GoQuote` | the text of `JSON.stringify` that the printer is to reproduce, and string literals as Go reads them |
| `TokenStream`, `TokenPrinter` | what the token loops show of any token stream, whole or broken off, and the printer that runs them on the decoder's states |
| `LegacySignature`, `LegacyContent`, `LegacyMessages`, `Base64` | cutting the signature out of the text, the checks on fields and content, signing, verifying and the hashed byte form |
| `Feeds`, `Fsck` | drains, verification router and publisher on one receive log, and the consistency checkers |
| `Frontiers`, `Decimal` | notes, network frontiers and the state matrix with its files |
| `TrackingSink`, `Replication` | live sending through state-tracking sinks, and replication of a feed between peers |
| `History` | serving the history of a feed, stored part and live part |
| `CombinedIndex`, `SubsetQuery` | bitmap indexes, indexing again when a key arrives, and the query planner |
| `Hops`, `HopsFound`, `ContactGraph` | the hop walk and what it certainly finds, and the two contact graph builders with the cached graph |
| `BlobWants`, `BlobReach`, `BlobDetour` | flooding of blob wants, how far a want gets, and a network in which it gets less far |
| `WordScanner` | the word trie and the scanner on top of it |
| `Slp`, `KeyStore`, `Box1`, `Box2` | length-prefixed lists, the key store, and the two envelope formats |

How things are represented:

- Code that changes objects step by step is a class or a method with loops; its contract ties it to a function on values,
  and the properties are proved of that function. Iteration over a Go map is a choice of any remaining key.
- Methods under a lock are atomic steps. A protocol is a set of events, and a run is any sequence of enabled events.
- Logs are sequences, bitmaps are sets of positions, the key-value databases are maps. Feed and message references are
  opaque values whose encodings are injective.
- Ciphers, signatures, hashes, key agreement, JSON decoding of contents, the printable-character table and randomness are
  parameters. Where a proof needs something of a cipher it is stated for the one message at hand (for example: of the keys
  a reader tries, only the message key opens the header), because as a law for all keys it could not be met.
- Characters are Unicode code points. 64-bit wrap-around is modelled where it shows (note codes and history limits), as are
  the 16-bit lengths and the 32-bit positions of the consistency checker.

## Where the code does not meet its promise

Each of these is a result: a lemma gives the failing case and the exact condition.

- Keys and array strings are written with Go's `%q`, whose `\a`, `\v`, `\x..` and `\U........` forms are not JSON: the printed
  text reads back exactly for quote-safe documents (`PrintedTextReadsBack`), and the printer refuses the canonical text of any
  other document (`PrintIdempotent`, `BellKey`).
- A message published while a drain for the own feed is open is stored a second time when it comes back from a peer
  (`PublishSafeIffClosed`).
- The printer is to write what V8 writes. It does exactly for documents with a field whose keys and array strings hold
  printable or short-escaped characters only and whose arrays hold no empty container (`PrintsReferenceIff`, `EmptyInArray`).
- The printer does not insist on a document: it accepts every text that begins with a whole object, whatever follows, and every
  text that breaks off inside one (`AcceptedIff`, `AcceptedExamples`), in strict mode too (`BraceMissing`); text behind the object
  shows as a comma (`TrailingText`).
- `lengthFSCK` misses reordered feeds (`LengthMissesReordering`); a feed that passes it is unbroken exactly if its messages
  count up one by one (`LengthDecidesIff`).
- `UpdateSequences` on a note that refuses replication is lost on reload (`SequenceUpdatePersistsIff`).
- Sinks at different levels send a message twice in some visiting order (`ExactlyOnceIff`).
- A live history request whose limit the stored part already exhausts gets one message too many; one that starts further
  than one past the end starts too early; a limit that overflows 64 bits ends the live part at once; a limit of zero, documented
  as an empty stream, delivers everything, or one message if it starts at the end (`HistoryExactIff`, `LimitOvershoots`,
  `ZeroLimit`).
- `Box2Reindex` fails for the very first readable group message, because the sublog of readable messages does not exist yet
  (`LateKeyConfluence`, `FirstReadableFails`).
- A query for an author or type nobody used is an error instead of an empty answer (`PlannerEqualsScan`,
  `UnknownAuthorFails`).
- The documentation of `Hops` describes every maximum; because of the shared visited set the result is exact for all graphs
  just for a maximum of at most one (`HopsExactIff`). A maximum of two is exact if the feed does not follow itself and no two of
  its friends are friends (`TwoExact`). Feeds are marked visited when their loop ends and can be entered again on the way back, so
  that a larger maximum may find less: on two-coloured graphs two hops are certain exactly for even maxima (`TwoHopsIffEven`).
- Distances let a want travel four links beyond the node that has it. Three are certain, the fourth unless the second node on the way is
  also three links away around the first (`WantReaches`); `FourthMissed` gives such a network and an order of delivery in which it is missed.
- A fork of an old message is skipped without an error like a message already held (`VerdictMeans`).
- `updateMetafeeds` leaves a cached graph in place (`StaleIff`, `UpdateMetafeeds`); the two builders disagree on the block flag of an edge when a
  message claims both follow and block (`BlockFlagDiffersIff`).
- `UpdateSequences` changes an open frontier in place, so that the feeds in front of one of another format stay changed when it
  returns its error (`UpdateSequences`).
- The scanner commits itself to the first word that begins and can miss another (`SecondWordMissed`); the word list alone
  decides whether it is complete (`CompleteIff`).
- Unpacking an index key into one with a longer id keeps the longer length (`UnpackMarshalIff`).
- An empty private message for one recipient is taken for too short when it is opened (`OpensIffRecipient`).

## Model

| member | source | states |
|---|---|---|
| JsonText.RenderedTextParses | message/legacy/encode.go:276-314 | a text with any spacing and any readable escapes decodes to its document |
| JsonText.ParseValueLexemes | message/legacy/encode.go:16-185 | the parser inverts the token sequence of every valid value, whatever follows |
| JsonText.LexLayout | message/legacy/encode.go:276-314 | lexing recovers the tokens from any layout whose words are separated |
| JsonText.ParsedTextValid | message/legacy/encode.go:276-314 | whatever decodes is a valid document |
| LegacyPrinter.UnicodeEscapeSome | message/legacy/replace.go:17-37 | the rune loop is a character-wise escape of control characters |
| LegacyPrinter.TwoPasses | message/legacy/replace.go:17-37 | replacer and second pass together are one character-wise escape |
| LegacyPrinter.ValueCharReadsBack | message/legacy/replace.go:17-37 | every character of an object string value reads back |
| V8Text.ShortestSpelling | message/legacy/encode.go:155-156 | every character of an object string value is written in its shortest readable spelling, hexadecimal digits small, and there is no other such spelling |
| LegacyPrinter.PrintedTextReadsBack | message/legacy/encode.go:16-185 | the printed text decodes to the same document if keys and array strings are quote-safe, and is no JSON otherwise |
| LegacyPrinter.LexFields | message/legacy/encode.go:88-185 | the tokens of printed fields are those of the document up to the first string that quoting spoils |
| TokenPrinter.Printer.FormatObject | message/legacy/encode.go:88-185 | on any token stream the object loop writes exactly what is shown of it, records exactly the outermost keys in order and leaves exactly the rest; it succeeds at the closing brace and at the end of the text, and fails exactly on a token the decoder refuses |
| TokenPrinter.Printer.FormatArray | message/legacy/encode.go:16-86 | the same for the array loop |
| TokenPrinter.Printer.ObjectEntry | message/legacy/encode.go:88-185 | one turn of the object loop keeps text written, tokens left and keys recorded in step with the whole |
| TokenPrinter.Printer.ReadToken | message/legacy/encode.go:93-104 | the decoder hands out the next token its state allows, skipping commas and colons in their places, and refuses any other |
| TokenPrinter.CheckFieldOrderExact | message/legacy/encode.go:202-258 | comparing joined names accepts exactly the two listed orders |
| TokenPrinter.SecondOrder | message/legacy/encode.go:206-211 | the second accepted order has author and sequence exchanged |
| TokenPrinter.PrettyPrint | message/legacy/encode.go:276-314 | on every text, whole or not, the program returns what is shown of its tokens, trimmed, and tells its three errors apart |
| V8Text.PrintsReferenceIff | message/legacy/encode.go:276-314 | the program prints a document as `JSON.stringify(document, null, 2)` does if and only if it has a field, its keys and array strings are plain, and no array holds an empty container |
| V8Text.StringifyParses | message/legacy/encode.go:276-314 | the reference text of a document decodes to it |
| V8Text.EmptyInArray | message/legacy/encode.go:41-52 | a document the program prints otherwise |
| GoQuote.LiteralReadsBack | message/legacy/encode.go:148-154 | Go reads back what `%q` writes for a character, whatever it is |
| GoQuote.ShortestEscape | message/legacy/encode.go:148-154 | a character that cannot be printed is written in its shortest Go escape, hexadecimal digits small |
| TokenPrinter.AcceptedIff | message/legacy/encode.go:16-185 | in either mode a text is printed without an error if and only if it begins with a whole object or breaks off inside one and, in strict mode, the outermost keys that stand there are in an accepted order |
| TokenPrinter.TrailingText | message/legacy/encode.go:106-120 | what follows a whole object shows as one comma behind its canonical text, and not at all if it begins with a closing bracket; strict mode looks at the keys of the object alone |
| TokenPrinter.BraceMissing | message/legacy/encode.go:93-99 | an object without its closing brace is no document and passes the strict printer |
| TokenPrinter.AcceptedExamples | message/legacy/encode.go:88-120 | three texts that are no documents and are printed |
| TokenPrinter.DocumentPrinted | message/legacy/encode.go:276-314 | a document is printed as its canonical text, or refused exactly for its field order |
| TokenStream.ShowsValue | message/legacy/encode.go:88-185 | the listing of any value, followed by anything, shows as the canonical text of that value and leaves what follows |
| TokenStream.ShowsObject | message/legacy/encode.go:88-185 | the same for the inside of an object, with its keys recorded in order |
| TokenStream.RebuildValue | message/legacy/encode.go:16-185 | every stream the loops accept as a value is the listing of a value and a rest, or the beginning of such a listing |
| TokenStream.KeysReached | message/legacy/encode.go:148-153 | of an outermost object that breaks off exactly the keys that were reached are recorded |
| TokenStream.UnsafeValue | message/legacy/encode.go:16-185 | the printed text of a value that is not quote-safe is refused by the token loops, whatever follows |
| TokenPrinter.PrintIdempotent | message/legacy/encode.go:276-314 | the program prints the canonical text of a document as it stands if the document is quote-safe, and refuses it as bad syntax if not, in either mode |
| TokenPrinter.BellKey | message/legacy/encode.go:148-165 | a document whose key is a bell character: what the program prints for it, and that it refuses to print that |
| TokenPrinter.PrintIgnoresLayout | message/legacy/encode.go:276-314 | the program prints all renderings of a document alike, in either mode |
| LegacySignature.CutPrinted | message/legacy/signature.go:20-37 | cutting a printed object removes exactly the outermost signature fields behind the first and captures their values, whatever is nested |
| LegacyMessages.SignatureRoundTrip | message/legacy/signature.go:41-110 | parsing the text of a 64-byte signature gives it back |
| LegacyMessages.ParsesIff | message/legacy/signature.go:41-90 | a text with the suffix is a signature if and only if it is base64 of 64 bytes |
| LegacyMessages.SignatureClass | message/legacy/signature.go:20 | the pattern captures exactly the characters of base64 and the dot |
| LegacyMessages.MarshalSignature | message/legacy/signature.go:92-110 | the filled buffer is the quoted signature text |
| LegacyMessages.InternalV8Binary | message/legacy/replace.go:41-60 | the index loop keeps the low byte of every UTF-16 unit |
| LegacyMessages.UnitsReadBack | message/legacy/replace.go:41-60 | UTF-16 reads every character back from its units |
| LegacyMessages.LatinKept | message/legacy/replace.go:41-60 | text of characters below 256 is hashed as these bytes |
| LegacyMessages.CutSigned | message/legacy/signature.go:23-37 | cutting the printed signed form gives the printed unsigned form and the signature |
| LegacyMessages.SignResult | message/legacy/signature.go:144-198 | signing never fails and signs the canonical text, or its authenticator under the network key, whatever spacing the encoder uses |
| LegacyMessages.SignThenVerify | message/legacy/verify.go:52-136 | every rendering of a signed message whose content fits verifies against the very text that was signed, and both sides compute one key |
| LegacyMessages.VerifiesIff | message/legacy/verify.go:52-136 | any text verifies if and only if it is a document with its fields in order that decode, a content that fits, and a signature of the canonical text of all other fields by its author; its key is then the hash of its canonical text |
| LegacyMessages.NetworksApart | message/legacy/verify.go:117-148 | a message signed under a network key, or none, verifies under another if and only if it is the same |
| LegacyContent.ContentSpan | message/legacy/verify.go:76-81 | the text that is measured begins and ends with the tokens of the content |
| LegacyContent.TypeLength | message/legacy/verify.go:83-99 | an ASCII type has to have 3 to 52 characters, whatever the case of its key |
| Base64.DecodeEncode | message/legacy/signature.go:41-110 | base64 decoding inverts encoding |
| Base64.SameNumber | message/legacy/signature.go:41-110 | three bytes and their four letters are one number, in base 256 and in base 64 |
| Base64.AlphabetInOrder | message/legacy/signature.go:41-110 | the letters are those of the standard |
| Base64.Examples | message/legacy/signature.go:41-110 | examples of the standard, with and without padding |
| Feeds.ChainSafety | message/drains.go:163-238 | in every run from the empty log each author's messages are numbered 1..n and linked |
| Feeds.RouteKeepsGood | message/drains.go:163-238 | delivering any message keeps all chains and no drain goes stale |
| Feeds.PublishKeepsGood | message/publish.go:85-127 | publishing while the own drain is closed keeps all chains |
| Feeds.OwnFeedOnlyPublished | plugins/ebt/loop.go:121-131 | a node whose own feed is fed by publishing alone always publishes with its drain closed |
| Feeds.PublishSafeIffClosed | message/publish.go:85-127 | publishing is safe against every later delivery if and only if the own drain is closed |
| Feeds.EchoBreaksChain | message/publish.go:85-127 | with an open drain the echoed message breaks the chain |
| Feeds.Drain.Verify | message/drains.go:163-193 | stores exactly accepted messages, skips held ones silently, rejects the rest |
| Feeds.VerdictMeans | message/drains.go:197-238 | accepted are exactly the messages that continue the chain, skipped exactly those with a number the feed has; a gap and a fork at the end are errors |
| Feeds.Router.GetSink | message/verifier.go:61-86 | hands out the open drain, or a new one at the newest stored message |
| Feeds.Router.CloseDrain | message/verifier.go:88-92 | forgets the drain and nothing else |
| Feeds.Router.Deliver | plugins/ebt/loop.go:80-131 | a frame acts as routing its message; a bad frame stores nothing |
| Feeds.PublishLog.Append | message/publish.go:85-127 | appends the successor of the newest own message and returns its position |
| Fsck.SequenceFsck | sbot/fsck.go:235-355 | reports nothing exactly when no author is broken; else exactly the first break of each broken author, in log order, and exactly the positions of their messages |
| Fsck.Judge | sbot/fsck.go:292-332 | the test of one message reports, with its exact fields, an error just where a feed first breaks |
| Fsck.NullMap | sbot/fsck.go:335-355 | the position set is that of the reported authors |
| Fsck.PositionsExact | sbot/fsck.go:235-355 | below 2^32 entries the recorded positions are the log positions |
| Fsck.FsckAcceptsReachable | sbot/fsck.go:235-355 | the check accepts every log a node can reach |
| Fsck.LengthFsck | sbot/fsck.go:151-213 | nil exactly when last sequence and length agree for every feed; else the first feed where they differ, with its two numbers |
| Fsck.LengthDecidesIff | sbot/fsck.go:151-213 | a feed is unbroken if and only if it passes the quick check and its messages count up one by one |
| Fsck.LengthMissesReordering | sbot/fsck.go:151-213 | the quick check accepts the feed 2, 1, 3, which the full one rejects |
| Decimal.ParseFormat | ebt.go:30-68 | parsing a formatted 64-bit number gives it back |
| Frontiers.NoteRoundTripIff | ebt.go:30-68 | decoding inverts encoding exactly for replicated notes with a sequence from 0 below 2^62 and for the plain refusal |
| Frontiers.NoteNormalises | ebt.go:30-68 | -1 becomes 0, refusals lose their other fields |
| Frontiers.CodeMeans | ebt.go:30-68 | even codes ask for messages, odd ones do not, half of either is the sequence, -1 refuses |
| Frontiers.CodesOfFive | ebt.go:30-68 | the text of one note of each kind |
| Frontiers.ReloadIff | ebt.go:113-138 | a frontier survives saving and loading exactly when its keys are references and its notes canonical |
| Frontiers.FrontierPersists | internal/statematrix/store.go:89-189 | in every run of decoded updates and tracked writes the frontier survives saving and loading |
| Frontiers.SequenceUpdatePersistsIff | internal/statematrix/store.go:406-440 | a bare sequence update survives exactly on replicated notes below 2^62 |
| Frontiers.CloseThenLoad | internal/statematrix/store.go:128-148 | a frontier that was saved and closed is loaded again as it was |
| Frontiers.StateMatrix.LoadFrontier | internal/statematrix/store.go:89-126 | the open frontier, or the file's, or an empty one; a bad file is an error and opens nothing |
| Frontiers.StateMatrix.SaveAndClose | internal/statematrix/store.go:128-189 | the file holds the encoded frontier and the entry is closed |
| Frontiers.StateMatrix.WantsFeedWithSeq | internal/statematrix/store.go:293-316 | wanted exactly if there is no note, or it receives and is behind |
| Frontiers.StateMatrix.UpdateSequences | internal/statematrix/store.go:406-440 | sets the sequences of noted feeds in order; a feed of another format is an error that leaves the earlier ones changed if the frontier was open; failed loads and missing format maps are told apart |
| Frontiers.StateMatrix.Update | internal/statematrix/store.go:373-397 | the peer's frontier becomes the old one overwritten by the update; a failed load changes nothing |
| Frontiers.StateMatrix.Fill | internal/statematrix/store.go:443-479 | observed notes are entered and refused feeds removed in order; a failed load changes nothing |
| Frontiers.StateMatrix.Changed | internal/statematrix/store.go:319-363 | exactly the own notes the peer should hear of, and exactly the two frontiers are open afterwards |
| Frontiers.MustHear | internal/statematrix/store.go:342-361 | which feeds a peer must hear of, and which it must not |
| Frontiers.StateMatrix.LoadState | plugins/ebt/statetracking.go:17-32 | the same, with the own feed never asked for |
| TrackingSink.SendExactlyOnce | plugins/ebt/statetracking.go:123-151 | in every visiting order a message is written exactly once and the invariant is kept |
| TrackingSink.ExactlyOnceIff | internal/luigiutils/multisink.go:82-98 | every order writes exactly once if and only if the note receives and the sinks not behind it stand at one level |
| TrackingSink.RunExactlyOnce | internal/luigiutils/multisink.go:49-98 | over every run of sends and registrations each message is written exactly once |
| TrackingSink.Sink.Write | plugins/ebt/statetracking.go:123-151 | writes exactly if wanted, then advances counter and note; a failed write changes nothing |
| TrackingSink.MultiSink.Send | internal/luigiutils/multisink.go:82-98 | visits every sink once in some order and drops exactly those at their limit or failed; over a connection that is down nothing moves, and a closed multi-sink does nothing |
| TrackingSink.HearsUntil | internal/luigiutils/multisink.go:82-98 | a sink registered up to a number hears the next message and every later one up to that number |
| TrackingSink.MultiSink.Register | internal/luigiutils/multisink.go:49-60 | a new sink that starts at the note acts as the registration event of a live run |
| Replication.FilterRelevantNotes | plugins/ebt/statetracking.go:52-87 | exactly the feeds of the format that want replication and messages, all others of the format are unsubscribed; panics exactly on a key that is no reference |
| Replication.CopiesStayPrefixes | plugins/ebt/loop.go:54-190 | under any delivery, duplication, reordering and loss every copy stays a prefix of the author's chain |
| Replication.RouteReplica | message/drains.go:163-238 | a delivered message extends a copy exactly if it is the next one |
| Replication.LinkStepKeeps | plugins/ebt/loop.go:54-190 | every step of a connection, among them the sender publishing itself and a feed streamed again at its tracked note, keeps: what is under way brings the receiver up to the sender |
| Replication.AgainKeeps | plugins/ebt/loop.go:134-186 | streaming again from a note that is ahead of the receiver only repeats what is under way |
| Replication.SenderPublishedKeeps | message/publish.go:85-127 | a message the sender publishes and its multi-sink passes on keeps the invariant |
| Replication.DrainedReceiverHasAll | plugins/ebt/loop.go:133-190 | once a wanting note has arrived and the stream has drained, the receiver holds at least what the sender holds |
| History.LimitsSum | plugins/gossip/feed_manager.go:152-184 | the two limits share out a positive limit |
| History.HistoryServes | plugins/gossip/feed_manager.go:187-308 | everything a live request delivers, for all starts and limits and any later run |
| History.WantedByNumber | plugins/gossip/feed_manager.go:187-246 | what a request asks for, in message numbers |
| History.HistoryExactIff | plugins/gossip/feed_manager.go:187-308 | the delivery is exactly what was asked for if and only if the start is at most one past the end and the limit, zero included, reaches beyond the stored part |
| History.LimitDrops | internal/luigiutils/multisink.go:82-98 | the sink is dropped exactly when the limit is reached |
| History.LimitOvershoots | plugins/gossip/feed_manager.go:168-184 | an exhausted limit delivers one live message more |
| History.ZeroLimit | plugins/gossip/feed_manager.go:244-246 | a live limit of zero delivers everything from a stored start on, and one message from the end |
| History.StoredOnly | plugins/gossip/feed_manager.go:226-308 | a request that is not live gets exactly the stored messages asked for, is closed and hears no more |
| History.RunKeepsInSync | internal/luigiutils/multisink.go:82-98 | multi-sinks always stand at the end of their feed |
| History.FeedManager.CreateStreamHistory | plugins/gossip/feed_manager.go:187-308 | acts as the request step |
| History.FeedManager.AddLiveFeed | plugins/gossip/feed_manager.go:118-150 | subscribes the sink up to the right position |
| History.FeedManager.Pour | plugins/gossip/feed_manager.go:74-96 | acts as the arrival step |
| History.FeedManager.Send | internal/luigiutils/multisink.go:82-98 | in any order every working sink hears the message once, and finished or failed sinks are dropped |
| CombinedIndex.LateKeyConfluence | multilogs/combined.go:116-182 | after any run, indexing an author again equals indexing from scratch if and only if its look-ups succeed or nothing became readable |
| CombinedIndex.ReindexIdempotent | multilogs/combined.go:116-182 | a second time changes nothing, and other authors are not touched |
| CombinedIndex.FirstReadableFails | multilogs/combined.go:143-148 | a run in which the look-up fails and a readable message stays unindexed |
| CombinedIndex.RunExplained | multilogs/combined.go:219-345 | in every run each message carries exactly the entries some earlier key set gave it |
| CombinedIndex.PouredIsFresh | multilogs/combined.go:185-216 | pouring a log with one key set is indexing it from scratch |
| CombinedIndex.TangleAddressesDiffer | internal/storedrefs/storedrefs.go:44-58 | tangles have distinct addresses |
| CombinedIndex.Combined.Update | multilogs/combined.go:219-345 | adds exactly the message's entries, and ends well, with an error or in a panic exactly where the content says so |
| CombinedIndex.ClassicPrivate | multilogs/combined.go:456-482 | a classic message `"base64.box"` is entered as a private message and, if it opens, under what it says |
| CombinedIndex.ClassicGroup | multilogs/combined.go:456-482 | a classic message `"base64.box2"` is entered as a group message and, if the keys open it, under what it says |
| CombinedIndex.GabbyPrivate | multilogs/combined.go:485-520 | a gabby message that begins with `box1:` likewise |
| CombinedIndex.GabbyGroup | multilogs/combined.go:485-520 | a gabby message that begins with `box2:` likewise |
| CombinedIndex.ClassicOther | multilogs/combined.go:456-482 | any other text of a classic feed is entered under its author alone and ends in an error, or in a panic if it is short |
| CombinedIndex.TopicsExact | multilogs/combined.go:262-345 | a typed content is entered under its type, its root and each tangle with a root, and nothing else |
| CombinedIndex.Combined.TryDecrypt | multilogs/combined.go:373-442 | marks the message and returns its clear text, or tells not for us, an error and a panic apart |
| CombinedIndex.Combined.AddTopics | multilogs/combined.go:262-345 | adds exactly the type and tangle entries |
| CombinedIndex.Combined.Pour | multilogs/combined.go:185-216 | saves the position and indexes the message, whatever its content |
| CombinedIndex.Combined.Box2Reindex | multilogs/combined.go:116-182 | succeeds exactly if the look-ups do, and then adds exactly the entries of the unread messages |
| SubsetQuery.PlannerEqualsScan | query/subsetquery_plan.go:72-114 | a query has a bitmap if and only if it is well-formed and its sublogs exist, and then the bitmap is exactly a scan of the log |
| SubsetQuery.QueryIsScan | query/subsetquery_plan.go:38-70 | the messages returned are the log filtered by the query, in log order |
| SubsetQuery.UnknownAuthorFails | query/subsetquery_plan.go:75-76 | an author nobody saw is an error |
| SubsetQuery.SubsetPlanner.CombineBitmaps | query/subsetquery_plan.go:72-114 | in-place combination gives the evaluation, on a bitmap of its own |
| SubsetQuery.SubsetPlanner.CombineArgs | query/subsetquery_plan.go:81-109 | the first argument's bitmap takes in the others from left to right |
| SubsetQuery.SubsetPlanner.QuerySubsetMessages | query/subsetquery_plan.go:38-70 | the messages at the bitmap's positions in ascending order |
| Hops.HopsBounds | graph/builder.go:363-478 | for every graph, listing order and maximum: nothing too far away, and everything up to one hop |
| Hops.HopsExactIff | graph/builder.go:356-375 | the result is exact on all graphs if and only if the maximum is at most one |
| Hops.DetourMisses | graph/builder.go:377-385 | for every larger maximum a graph on which a feed is missed |
| HopsFound.TwoExact | graph/builder.go:356-385 | a maximum of two is exact in every order if the feed does not follow itself and no two of its friends are friends |
| HopsFound.EvenFinds | graph/builder.go:363-478 | every even maximum finds everything up to two hops, if friendship is two-coloured |
| HopsFound.TwoHopsIffEven | graph/builder.go:363-478 | from two on, two hops are certain on all two-coloured graphs exactly for even maxima |
| HopsFound.FirstFriendsFound | graph/builder.go:377-478 | for every graph and maximum, along first listed friends the walk goes to its full depth |
| Hops.Walker.RecurseHops | graph/builder.go:377-478 | the recursion on the shared sets is the walk function |
| Hops.HopsFrom | graph/builder.go:363-375 | the returned set, exact for a maximum of at most one |
| ContactGraph.BuildersAgree | graph/graph.go:44-76 | on distinct feeds both builders and the listing follow and block exactly as the latest contact message says, following first |
| ContactGraph.LogGraphShows | graph/logbuilder.go:105-173 | the folded graph has exactly the edges of the latest contacts |
| ContactGraph.StoredIsLatest | graph/builder_indexing.go:73-120 | the index holds exactly the latest contact per pair |
| ContactGraph.SelfFollow | graph/builder.go:246-282 | following oneself is listed but is no edge |
| ContactGraph.DirectHops | graph/builder.go:246-282 | on the index, hops of maximum zero are exactly the other feeds whose latest contact says following |
| ContactGraph.BlockFlagDiffersIff | graph/logbuilder.go:154-170 | the edges differ between the builders exactly when a contact claims both |
| ContactGraph.StaleIff | graph/builder_indexing.go:129-258 | a relation set behind the cache leaves the graph right exactly if it changes nothing |
| ContactGraph.SamePicture | graph/builder.go:118-230 | two graphs of one index show the same |
| ContactGraph.Graph.GetEdge | graph/graph.go:44-60 | the edge between two feeds, if any |
| ContactGraph.Graph.BlockedList | graph/graph.go:86-106 | exactly the blocked feeds |
| ContactGraph.LogBuilder.BuildGraph | graph/logbuilder.go:105-173 | edits the graph as the fold step |
| ContactGraph.BadgerBuilder.Build | graph/builder.go:118-230 | a cached or new graph, in both cases what the index holds |
| ContactGraph.BadgerBuilder.BuildFresh | graph/builder.go:128-226 | the walk over the index, in any order, gives a graph of exactly the index |
| ContactGraph.BadgerBuilder.UpdateContacts | graph/builder_indexing.go:73-120 | sets the relation and keeps the cache right |
| ContactGraph.BadgerBuilder.UpdateAnnouncement | graph/builder_indexing.go:34-64 | sets the backlink of a valid announcement and keeps the cache right |
| ContactGraph.BadgerBuilder.UpdateMetafeeds | graph/builder_indexing.go:129-258 | messages of other feeds, garbled, badly signed or about another metafeed change nothing; any other sets the relation and keeps the cache, and the builder then serves a right graph if and only if none is cached, the message is about the metafeed itself, or the graph shows the relation already |
| ContactGraph.BadgerBuilder.DeleteAuthor | graph/builder.go:88-107 | removes exactly the author's entries and keeps the cache right |
| BlobWants.WantRunSane | blobstore/wants.go:240-263 | in every run, connections that come and go included, distances stay in [-5, -1] and no stored blob is wanted |
| BlobWants.WantStepKeeps | blobstore/wants.go:128-144 | no step moves an open want further away |
| BlobWants.DeliveryShrinks | blobstore/wants.go:410-478 | every delivery, to any node, makes the measure smaller |
| BlobWants.FloodEnds | blobstore/wants.go:410-478 | in every run of deliveries, losses, given-up wants and ended connections the deliveries are bounded by the measure |
| BlobWants.FloodBounded | blobstore/wants.go:128-478 | in every run the deliveries and the measure left are at most the measure at the start and the cost of what the events bring in |
| BlobWants.StepCost | blobstore/wants.go:128-478 | a delivery uses up one of the measure, any other event adds at most its cost |
| BlobWants.EntryIsPacket | blobstore/wants.go:420-466 | an entry that is no offer acts as a packet of the network |
| BlobWants.TakenAllSane | blobstore/wants.go:410-478 | whatever a message holds, distances stay in range |
| BlobWants.WantManager.WantWithDist | blobstore/wants.go:240-263 | stores and floods a want unless the blob is stored, blocked or wanted from nearer |
| BlobWants.WantManager.EmitWant | blobstore/wants.go:365-392 | asks every peer that did not ask itself |
| BlobReach.BroadcastExact | blobstore/wants.go:365-392 | one parcel for every connected peer that did not ask itself, and nothing else |
| BlobReach.NoticesExact | blobstore/wants.go:338-362 | one notice for every connected peer that asked, and nothing else |
| BlobReach.WantReaches | blobstore/wants.go:240-478 | once all packets about it are delivered, in any order, a new want is open or the blob stored at every node up to three links away along nodes that neither block nor store it, and four links away unless the second node can be reached in three links around the first |
| BlobDetour.FourthMissed | blobstore/wants.go:240-478 | a network and a delivery order in which the fourth link is missed |
| BlobWants.WantManager.EmitBlob | blobstore/wants.go:338-362 | tells every peer that asked, and nobody else |
| BlobWants.WantManager.StorePut | blobstore/wants.go:128-144 | ends the want and tells every peer that asked the size |
| BlobWants.WantManager.StoreRemove | blobstore/wants.go:338-362 | tells every peer that asked a size of zero |
| BlobWants.WantManager.PourWant | blobstore/wants.go:420-466 | one entry of a message: passed on, answered, dropped or queued |
| BlobWants.WantManager.Pour | blobstore/wants.go:410-478 | the entries of a message one after the other; what is asked for and stored is answered in one message at the end |
| WordScanner.HitsSound | dfa/dfa.go:92-164 | every reported word is a word with no shorter non-empty word as prefix and a subsequence of its segment without ignored characters; segments are ordered and disjoint |
| WordScanner.OneWordFoundIff | dfa/dfa.go:92-164 | a single word is reported if and only if it is a subsequence of the text without ignored characters |
| WordScanner.CompleteIff | dfa/dfa.go:92-164 | the scan reports something on every text in which a word occurs if and only if the word list lets no word be missed |
| WordScanner.SecondWordMissed | dfa/dfa.go:140-160 | a set of two words for which the scan is not complete, and the text that shows it |
| WordScanner.AcceptsIff | dfa/trie.go:76-98 | the trie accepts exactly the inserted words and leads on exactly for their prefixes |
| WordScanner.Trie.Insert | dfa/trie.go:39-53 | adds exactly the word, and the size counts distinct words |
| WordScanner.Trie.FindNode | dfa/trie.go:76-98 | the node of a key and the length in bytes of the longest word it begins with |
| WordScanner.Scanner.AddBadWords | dfa/dfa.go:37-45 | adds exactly the listed words |
| WordScanner.Scanner.Check | dfa/dfa.go:92-164 | the scan over the trie reports exactly what the scan over the set of words does |
| Slp.DecodeEncode | internal/slp/encoding.go:24-55 | decoding inverts encoding for elements up to 65535 bytes |
| Slp.EncodeDecode | internal/slp/encoding.go:38-55 | whatever decodes is the encoding of its result |
| Slp.EncodedInjective | internal/slp/encoding.go:24-36 | distinct lists have distinct encodings |
| Slp.Uint16IsLittleEndian | internal/slp/encoding.go:24-55 | lengths are written and read least byte first |
| Slp.ElementAt | internal/slp/encoding.go:24-36 | where an element, its length and everything else stand |
| Slp.Encode | internal/slp/encoding.go:24-36 | the encoding, or an error exactly for a longer element |
| Slp.Decode | internal/slp/encoding.go:39-55 | the decoding loop |
| Slp.DeriveTo | private/box2/derive.go:37-56 | writes the derived key, or leaves the buffer alone on an error |
| Slp.ContextsSeparate | private/box2/derive.go:37-46 | distinct contexts get distinct keys unless derivation collides |
| KeyStore.MarshalInjective | private/keys/types.go:61-90 | packing is injective for all ids |
| KeyStore.MarshalIsList | private/keys/types.go:61-90 | a packed key is the length-prefixed list of scheme and id |
| KeyStore.UnpackMarshalIff | private/keys/types.go:92-131 | unpacking gives the key back exactly for fitting ids and buffers that are not longer |
| KeyStore.IndexKey.Read | private/keys/types.go:61-84 | fills exactly the packed key into the buffer, or nothing |
| KeyStore.IndexKey.MarshalBinary | private/keys/types.go:86-90 | the packed key, for supported schemes |
| KeyStore.IndexKey.Write | private/keys/types.go:92-126 | unpacks in place with all four errors |
| KeyStore.StepRefines | private/keys/store.go:35-187 | one operation on packed keys is the operation on the table |
| KeyStore.RunRefines | private/keys/store.go:35-187 | every run answers as a map from scheme and id to a list of keys |
| KeyStore.AnswerAfter | private/keys/store.go:35-97 | adding appends, setting replaces, removing all leaves nothing, asking changes nothing |
| KeyStore.AnswerAfterRemoving | private/keys/store.go:100-134 | removing a key takes out its first entry and no other, or says what is missing |
| KeyStore.OthersUntouched | private/keys/store.go:35-187 | operations on other schemes or ids leave an answer as it was |
| KeyStore.Store.Add | private/keys/store.go:35-63 | appends to the list under the packed key |
| KeyStore.Store.Set | private/keys/store.go:66-82 | replaces the list |
| KeyStore.Store.RemoveAll | private/keys/store.go:85-97 | removes the list |
| KeyStore.Store.Remove | private/keys/store.go:100-134 | removes the first entry with the key, or reports why not |
| KeyStore.Store.Lookup | private/keys/store.go:146-187 | the list, or the error |
| Box1.OpensIffRecipient | private/box/boxer.go:101-147 | a reader gets the exact content if and only if it shares a recipient's key and the message is not taken for too short |
| Box1.RecipientsReadIff | private/box/boxer.go:46-147 | every one of 1 to 255 recipients recovers the content, others get an error |
| Box1.EnvelopeAt | private/box/boxer.go:46-98 | where nonce, one-time key, key boxes and content stand, and what is in them |
| Box1.Encrypt | private/box/boxer.go:46-98 | the envelope for 1 to 255 recipients, else an error |
| Box1.Decrypt | private/box/boxer.go:101-147 | the slot scan is the opening function |
| Box2.OpensIffReached | private/box2/boxer.go:198-281 | a reader gets the exact plaintext if and only if a scanned slot gives a candidate the message key |
| Box2.RecipientReads | private/box2/boxer.go:87-281 | every recipient, in any of up to 32 slots and with its key anywhere among the candidates, recovers the plaintext |
| Box2.OthersCannotRead | private/box2/boxer.go:198-253 | candidates without a recipient's slot key get an error |
| Box2.RecipientsReadIff | private/box2/boxer.go:87-281 | a reader gets the exact plaintext if one of its keys is a recipient's under the same scheme, and an error otherwise |
| Box2.IdealOpensHonestly | private/box2/boxer.go:198-253 | if the header opens only under its sealing key and derivation does not collide, only the message key opens it |
| Box2.SlotKeysDiffer | private/box2/boxer.go:47-74 | only the same key under the same scheme has the same slot key, unless derivation collides |
| Box2.EnvelopeKeys | private/box2/boxer.go:47-74 | the four keys of an envelope and the labels they are derived under |
| Box2.SealedParts | private/box2/boxer.go:87-167 | where header, slots and body stand, and the offset the header holds |
| Box2.BitOfXor | private/box2/boxer.go:87-167 | masking is exclusive or, bit by bit |
| Box2.Encrypt | private/box2/boxer.go:87-167 | the envelope with its three errors; the offset check never fails |
| Box2.GetReadKey | private/box2/boxer.go:198-253 | the nested loops find the first slot and candidate that open the header |
| Box2.Decrypt | private/box2/boxer.go:257-281 | the opening function with its errors |

## Left out

- The HTTP and payment service (restful, chain, cmd), sockets, secret-handshake and the muxrpc handlers: thin over external services.
- Cryptographic primitives, the metafeed, gabbygrove and tfk encodings, JSON decoding of message contents and bencode: parameters.
- Invalid UTF-8 in texts. `%q` is modelled as in Go up to 1.18 (the module file names Go 1.13): later versions write DEL as `\x7f`.
- LegacyMessages.SignThenVerify: reading feed and message references and the range of floats are parameters; a message whose fields do not decode fails to verify (`VerifiesIff`).
- Gonum's shortest paths and `Authorize`, metafeed relations in the hop walk, and the log builder's own hop walk.
- The time between the stored part and the live registration in `CreateStreamHistory`: the hand-over is one step.
- Bounds (`gt`, `lt`) and reversal in history requests, and a sink that fails in the middle of the stored part.
- The ordered helper log for group membership and the own frontier that indexing updates.
- Nulled log entries, `HealRepo` and `NullFeed`.
- The retry loop that fetches an offered blob is one outcome, success or failure.
- ContactGraph.BadgerBuilder.UpdateMetafeeds: decoding the bencoded content and checking its signature is a parameter, `manages`.
- WordScanner.Scanner.Check: the replacement text is not computed; `FilterInvalidChar` and `PrefixMatch` are not modelled.
- SubsetQuery.SubsetPlanner.CombineBitmaps: what the bitmap library does with a nil bitmap is left open (`Undefined`).
- Iterators of the bitmap library are taken to visit every member once in ascending order.
- Frontiers.StateMatrix.UpdateSequences: the lock that the program leaves held on the error for mixed formats.
- Replication.DrainedReceiverHasAll: a frontier that arrives does not claim more than its sender holds, and the connection does not lose what is under way; loss is part of `CopiesStayPrefixes`.
- Timestamps, metrics, logging, broadcasts, invites and connection trackers.
