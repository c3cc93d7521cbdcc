# utx0_node: a verified model

utx0_node is a small UTXO node. It speaks newline-delimited JSON with its peers, gossips peer addresses,
keeps objects in a key-value store under the hash of their canonical JSON, and validates transactions
against that store. This project models that behaviour in Dafny and proves properties of it. Nothing
here is executed.

## How it is laid out

| layer | modules | what it is about |
|---|---|---|
| JSON | `Json`, `Utf8`, `JsonOrder`, `Text`, `JsonText`, `JsonRoundTrip`, `StringGrammar`, `JsonGrammar`, `JsonShortest` | values, key order, serde_json's compact printer and its parser with the recursion limit of 128; the grammar of JSON texts, which the parser reads exactly and of which the printer writes the shortest |
| canonical form | `Canonical` | the canonical printer, object ids |
| transactions | `Storage`, `Transaction`, `TransactionText`, `TransactionForm`, `SignedTexts`, `Spending`, `Verdicts`, `DoubleSpend` | the store, which JSON is a transaction, two-pass validation, what inputs sign, what an accepted transaction means, when each error is returned, outputs spent twice |
| codecs | `PeerText`, `Messages`, `Framing`, `WireForm`, `ObjectForm`, `PeerLog`, `PeerFiles` | peers, messages, frames, the JSON form of each message, the lines of the peers file, the file after any writes |
| one connection | `Dispatch`, `Handshake`, `Session`, `Connections`, `TwoEnds`, `TalkMethods`, `ReplySizes`, `Completion` | one message, the handshake, the loop over received bytes, a whole connection at either end, the two ends in every interleaving and that they do what the connections do, which pairs of nodes always complete it |
| many nodes | `Network`, `NetworkOrder`, `NetworkStore`, `StayingOpen`, `StoreRaces`, `Propagation`, `NetworkWeights`, `Gossip`, `GossipFiles` | any number of nodes and connections, every interleaving |
| connection manager | `Outbound`, `OutboundTasks`, `OutboundLoop` | the spawning loop, its tasks and the housekeeping loop on one shared map |

Code that works by changing things is a method or a class (`ToCanonicalJson`, `ValidateTransaction`,
`FrameReader`, `PeerStore`, `Dispatcher`, `RunMessageLoop`, `OutboundConnections`, ...), proved equal to a
function; what the code is for is then proved about that function. Behaviour that depends on
interleaving is a state machine whose steps are the code's atomic accesses, and the results hold in every
state of every run.

A Dafny `string` stands for a Rust `String` (a `char` is a Unicode scalar value), and for its UTF-8 bytes
where the code works on bytes; `Framing.Utf8Len` counts them where their number matters. Random choices,
timeouts, and failures of the store, the socket or the peers file are parameters that the results
quantify over. Blake2s, Ed25519 and hex are functions about which nothing is assumed; a result that needs
a digest without collisions on the texts in question says so (`CollisionFree`).

## What is worth knowing before reading

Some things one might expect of the code do not hold. For each there is an input, and the exact condition
under which they do.

- Stored bytes can change. Looking an id up and storing it are two steps, so two connections can both find
  an id missing, and the text stored last replaces the first: `StoreRaces.StoredBytesChange` shows it with
  `{"object":{}}` and `{"object": {}}`. A stored text stays in every run exactly when no task of its node is
  about to store another under its id (`StoreRaces.TextStaysIffSettled`). What always survives is that every
  entry certifies its id, and, without a collision, the value it stands for.
- An accepted transaction can create more than the outputs it spends are worth, because inputs are summed one
  by one: `DoubleSpend.DoubleSpendIsAccepted`. The sum is too large exactly when an output that is worth
  something is spent twice (`DoubleSpend.SumExceedsIffSpentTwice`).
- A handle can outlive a housekeeping prune, exactly when its task has finished but the handle has still to be
  inserted when the prune starts (`Outbound.OutlivesIffPending`). The next prune of the spawning loop removes
  it.
- A conversation can fail although both ends follow the protocol: it completes exactly when every frame sent is
  below the limit (`TwoEnds.CompleteIffAllSmall`), which the two nodes as they start decide
  (`Completion.AlwaysCompletesIffFits`). Nothing bounds the hosts in an answer, so peers that all arrive can make
  an answer that is refused (`ReplySizes.ReceivedHostsMakeItTooLarge`).
- The peers file can bring back peers nobody gossiped. A host is written as it is, so a comma or a newline in
  it makes its line read as other peers (`PeerLog.LineReadsAs`); any peer with a clean host can be planted that
  way, a banned one included (`GossipFiles.BannedPeerComesBack`). A write that breaks off inside a line can bring
  back a banned peer as well, with one digit of its port missing (`GossipFiles.BrokenWriteBringsBack`).
  `GossipFiles.BansHoldAfterReloadIff` says, for every run, exactly when a ban survives a restart.
- The peers file can lose records. An append continues an unfinished line, so with two addresses the peer that
  was there and the one appended are both lost (`PeerFiles.AddressesAreLost`). The record of an unfinished line
  survives exactly when what is now read as its port is the same number, or it is recorded elsewhere
  (`PeerFiles.UnfinishedSurvivesIff`); finished lines are never lost (`PeerFiles.FileReadsAsWritten`).
- `read_frame` has no entry for `GetObject`, `GotObject` and `Object` in its key filter, so a frame of that
  kind is always refused (`Framing.FrameRoundTrip`, `Framing.ObjectMessagesNeverArrive`), and no byte stream can
  change a store (`Session.NoStreamReachesTheStore`). The results about stores are therefore about messages
  handed to the dispatch code, not about bytes.
- `validate_transaction` is not called by the dispatch code. `NetworkStore.ValidationBesideTheNetwork` puts the
  two side by side.
- A public node names its own address in replies even when it has banned it (`Gossip.BannedInReplyIffOwn`).
- Canonical text nested 128 deep or more can be printed but not read back (`Canonical.CanonicalReadBack`).

## Model

| member | source | states |
|---|---|---|
| Canonical.ToCanonicalJson | src/util/canonical.rs:6-42 | the recursive printer, with its loops and its sort by key, computes the compact text of the value with the keys of every object sorted, at every depth |
| Canonical.CanonicalDecides | src/util/canonical.rs:21-39 | two values have the same canonical text if and only if they are the same up to the order of keys at any depth |
| Canonical.UniquelyDecodable | src/util/canonical.rs:6-42 | canonical texts followed by anything that cannot extend a number are equal only if value (up to key order) and rest are equal |
| Canonical.CanonicalParses | src/util/canonical.rs:6-42 | a parser takes exactly the canonical text off any longer text and returns the value with sorted keys, whenever its depth limit allows |
| Canonical.CanonicalReadBack | src/util/canonical.rs:71-74 | parsing the canonical text succeeds if and only if the value is nested less than 128 deep, and then gives the value back up to key order |
| Canonical.RecanonicalisingIsIdentity | src/util/canonical.rs:71-74 | what is parsed from any text has distinct sorted keys, so parsing canonical text and printing it again changes nothing |
| Canonical.ComputeObjectId | src/util/canonical.rs:44-50 | the id is the digest of the canonical text |
| Canonical.ObjectIdDecides | src/util/canonical.rs:44-50 | without a collision, ids are equal if and only if the values are the same up to key order |
| JsonRoundTrip.ValueParses | src/util/canonical.rs:40 | the compact text of any value, with serde_json's escapes, parses back to the value with sorted keys and leaves what follows; it fails exactly when the nesting reaches the depth limit |
| JsonRoundTrip.StringParses | src/util/canonical.rs:32 | unescaping undoes escaping for every string, whatever follows the closing quote; for the other spellings see `StringGrammar.ReadsIffSpelled` |
| JsonRoundTrip.ParsedNormal | src/util/canonical.rs:71-74 | every parsed value has distinct keys in ascending order at every depth, also when the text repeats keys |
| StringGrammar.ReadsIffSpelled | src/util/canonical.rs:71-74 | what follows a quote is read as a string if and only if it spells it up to the closing quote: each character as it is, by its short escape, or by one or two code units with hex digits of either case |
| JsonGrammar.TreeReads | src/net/dispatch.rs:83-84 | every text of a value, with any white space between tokens, any spelling of strings, any order of keys and repeated keys, is read as that value and leaves what follows, exactly when it is not nested too deeply |
| JsonGrammar.FromStrIff | src/net/dispatch.rs:83-84 | a text is read as a value if and only if it is such a text of that value between white space, nested less than 128 deep: nothing else is read |
| JsonGrammar.LastCounts | src/net/dispatch.rs:83-84 | of entries with equal keys the last one counts |
| JsonShortest.StringIsShortest | src/util/canonical.rs:32 | a printed string is the shortest text that reads back as it, and any other text of that length that does has a capital hex digit in an escape |
| JsonShortest.CanonicalIsShortest | src/util/canonical.rs:6-42 | canonical text is the shortest of all texts of its value, and the only one of that length with its keys in order and its hex digits in lower case: this fixes every character of it |
| Text.DigitsAreDecimal | src/util/canonical.rs:40 | numbers are printed in decimal notation without leading zeros |
| JsonOrder.SameIffSortedEqual | src/util/canonical.rs:22-24 | values are equal up to key order exactly when sorting their keys makes them equal |
| Json.AscendingUnique | src/util/canonical.rs:24 | a set of entries has only one order by key |
| Utf8.BeforeIsByteOrder | src/util/canonical.rs:24 | comparing characters one by one orders keys exactly as comparing their UTF-8 bytes does |
| Storage.RedbStore.Has | src/storage/redb_store.rs:21-26 | tells whether the id is in the table, or fails and changes nothing |
| Storage.RedbStore.Get | src/storage/redb_store.rs:28-36 | returns the bytes under the id, or nothing, or fails |
| Storage.RedbStore.Put | src/storage/redb_store.rs:38-49 | replaces the bytes under the id, leaves every other id alone, and returns what was there; a failure changes nothing |
| Storage.SameIdSameValue | src/net/dispatch.rs:88-109 | two texts that certify the same id are texts of the same value, unless their canonical texts collide |
| Transaction.ValidateTransaction | src/protocol/transaction.rs:58-165 | the two passes with their early returns give the verdict of the first failing check in code order, or accept; reads are numbered so that the store may differ between them |
| Transaction.SumInputs | src/protocol/transaction.rs:81-103 | the first loop fails with the first failing input check, and otherwise returns the sum of the resolved values, counted once per input |
| Transaction.ResolveParent | src/protocol/transaction.rs:84-98 | finds the output an input refers to, or the error of the step that fails |
| Transaction.TryFoldIsExact | src/protocol/transaction.rs:106-111 | the checked fold is the exact sum, and fails exactly when it reaches 2^128 |
| Transaction.BlankSignatures | src/protocol/transaction.rs:117-131 | overwriting in place blanks the signature of every input that is an object and touches nothing else |
| Transaction.VerifyInput | src/protocol/transaction.rs:136-163 | the second pass on one input, including the `unwrap` and the index that could panic |
| Transaction.VerifyInputs | src/protocol/transaction.rs:136-164 | the second loop gives the verdict of the first input whose check is not passed |
| SignedTexts.BlankIdempotent | src/protocol/transaction.rs:117-131 | blanking twice is blanking once |
| SignedTexts.SignedTextDecides | src/protocol/transaction.rs:117-134 | for all values, the signed texts are equal if and only if the values agree on everything but the signatures of inputs and key order |
| SignedTexts.BlankedTx | src/protocol/transaction.rs:117-131 | a blanked value decodes to the same transaction with empty signatures |
| SignedTexts.SameTx | src/protocol/transaction.rs:62-64 | values equal up to key order decode to the same transaction, or both to none |
| SignedTexts.SignedTextFixesTransaction | src/protocol/transaction.rs:117-134 | two transactions with the same signed text differ in nothing but signatures |
| Verdicts.VerdictIsFirstFailure | src/protocol/transaction.rs:58-165 | whatever the reads return, an error or panic is the verdict exactly when the check at some place of the code gives it and every check before it passes; without a transaction to check the verdict is settled by its shape |
| Verdicts.RefusedIff | src/protocol/transaction.rs:62-163 | over a fixed store each error is returned exactly in its own case, in the terms of the store: an outpoint that cannot be resolved, a stored value that is no transaction, inputs worth less than the outputs, a bad key, a bad signature, each with all that comes before it in order; and never an unknown object |
| Spending.ValidIffAllChecksPass | src/protocol/transaction.rs:80-165 | a transaction that is no coinbase is accepted exactly when every input resolves without overflow, the sums compare, and every signature verifies |
| Spending.ExactArithmetic | src/protocol/transaction.rs:81-115 | with fewer than 2^64 inputs and outputs no prefix of a sum reaches 2^128: the overflow errors cannot occur and the comparison is that of the mathematical sums |
| Spending.ValidIffAcceptable | src/protocol/transaction.rs:58-165 | over any fixed store validation never panics and accepts exactly: a coinbase with outputs only, or a transaction with inputs and outputs whose inputs all refer to existing outputs worth at least what it creates, each authorised by its owner over the blanked canonical text |
| TransactionText.ValueDecodes | src/protocol/transaction.rs:8-42 | every transaction of 64-bit numbers has a JSON value that decodes to it |
| TransactionText.StoredTextDecodes | src/protocol/transaction.rs:89-94 | stored as canonical text, that value is read as the same transaction |
| TransactionForm.DecodesIff | src/protocol/transaction.rs:8-42 | a value is decoded as a transaction if and only if it is the value of that transaction up to key order at any depth, its height left out or null when there is none, with numbers of 64 bits: unknown and missing fields and values of another kind are refused |
| TransactionForm.HoldsIff | src/protocol/transaction.rs:62-64 | the object handed to validation holds a transaction if and only if its field `object` is of that form; its other fields do not matter |
| TransactionForm.ShapeDecides | src/protocol/transaction.rs:62-78 | whatever the store: an object that holds a transaction with a height is valid if and only if that has outputs and no inputs; without a height it is refused when either is missing, and otherwise judged by its checks; an object that holds none is refused |
| DoubleSpend.SumExceedsIffSpentTwice | src/protocol/transaction.rs:81-103 | the sum of the inputs is at least what the outputs they spend are worth, each counted once, and more exactly when one that is worth something is spent twice |
| DoubleSpend.ConservedUnlessSpentTwice | src/protocol/transaction.rs:113-115 | an acceptable transaction that spends nothing twice creates no more than the outputs it spends are worth |
| DoubleSpend.DoubleSpendIsAccepted | src/protocol/transaction.rs:81-165 | for any owner who signs it, a transaction with two equal inputs is accepted and creates twice what it spends |
| DoubleSpend.DoubleSpendExists | src/protocol/transaction.rs:81-165 | whatever the digest, there are such a transaction, a signature, and a store whose only entry certifies its id |
| Spending.ValueStays | src/net/dispatch.rs:104-109 | while a store only grows and certifies itself, an id keeps its value between any two reads, without a collision |
| Spending.SecondPassCannotPanic | src/protocol/transaction.rs:136-146 | with such a store, and reads that may fail at any time, the `unwrap` always finds a parent and the index is in range |
| Spending.GoneParentPanics | src/protocol/transaction.rs:136-146 | the second pass reads every parent again: if the first one has gone from the store since, validation panics |
| Spending.BothPassesAgree | src/protocol/transaction.rs:82-103 | whatever the first pass resolves, the second finds the same transaction under the same id |
| Spending.AcceptableIsFoundValid | src/protocol/transaction.rs:58-165 | a transaction acceptable when its validation starts is accepted, although the store grows meanwhile |
| Spending.FoundValidIsAcceptable | src/protocol/transaction.rs:58-165 | an accepted transaction is acceptable in the store as the last read finds it |
| PeerText.Ipv4ParsesExactlyItsText | src/protocol/peerlist.rs:28-29 | the address parser accepts exactly the texts the printer makes of addresses: strict dotted decimal (section 3.1.1 of RFC 6943) |
| PeerText.ShownPeerParsesBack | src/protocol/peerlist.rs:12-38 | a printed peer parses back to itself if and only if its host is a canonical address |
| PeerText.ParsingNormalises | src/protocol/peerlist.rs:18-38 | every parsed peer has a canonical host and its printed form parses to it again, although white space, a plus sign and leading zeros of the port are accepted |
| PeerText.AcceptedIff | src/protocol/peerlist.rs:18-38 | a text is accepted as a peer exactly when it is the peer's canonical address, a colon, an optional plus sign, any zeros and the port, between any white space |
| PeerText.PortAcceptedIff | src/protocol/peerlist.rs:25 | a port is accepted exactly with an optional plus sign and any leading zeros |
| Text.SpacesAreListed | src/protocol/peerlist.rs:21 | trimming drops exactly the twenty-five characters that Unicode lists as white space |
| Messages.ParsedTextIsSendable | src/protocol/message.rs:61-66 | any text that parses as a JSON value within the recursion limit can be sent in an object message |
| ObjectForm.RawIff | src/protocol/message.rs:61-66 | a text is taken as a raw value if and only if it is a JSON text of any nesting, and is kept without the white space around it |
| Framing.FrameReader.ReadFrame | src/net/framing.rs:7-41 | reads one line of at most the limit and decodes it with the key filter, or gives the error of the step that fails, and leaves the rest of the input |
| Framing.FrameWriter.WriteFrame | src/net/framing.rs:43-53 | appends the message's text and one newline; a write that breaks leaves a beginning of it and is an I/O error |
| Framing.MessageIsOneLine | src/net/framing.rs:47-48 | the text of a message contains a newline if and only if it is an object whose raw value does; the other messages have no control character at all |
| Framing.FrameRoundTrip | src/net/framing.rs:7-53 | what a reader makes of any written message, whatever follows it: it arrives, with the rest left, if and only if its frame is below the limit and it is not about an object; a frame below the limit about an object is refused as invalid, and a line at the limit as oversized, or as an I/O error when the limit cuts a character |
| Framing.ObjectMessagesNeverArrive | src/net/framing.rs:26-38 | whatever the bytes, `read_frame` yields no message about objects |
| Framing.StreamRoundTrip | src/net/framing.rs:7-53 | writing any messages and reading until the first error gives exactly the messages before the first one refused and then its error, or the end of the connection |
| Framing.RefusalIff | src/net/framing.rs:7-53 | none is refused if and only if all their frames are below the limit and none is about an object; then all are read |
| Framing.LongLineIsRefused | src/net/framing.rs:8-14 | a line of 524288 bytes or more is refused: as oversized if and only if the limit falls between two characters, and otherwise with an I/O error |
| WireForm.WrittenInForm | src/protocol/message.rs:8-34 | the text of every message but an object parses to its form: its own tag, exactly its own keys, and its own values |
| ObjectForm.ObjectInForm | src/protocol/message.rs:24-27 | so does that of an object message, with the value of its raw text whatever the spelling, unless it is nested as deeply as the parser goes |
| WireForm.LineReadIff | src/net/framing.rs:15-41 | a line is read as a message if and only if it is an object of that form and not about objects, where a peer may have more keys and any other tag without other keys is unknown; a line of white space ends the connection, and everything else is invalid |
| PeerLog.PeerStore.constructor | src/state/peers.rs:32-47 | a store opened on a file knows exactly the peers its lines describe |
| PeerLog.PeerStore.AppendPeer | src/state/peers.rs:15-30 | a new peer enters the map and its line the file; when the file does not open, or the write breaks off, that is an error and a beginning of the line, possibly empty, is there; a known peer changes nothing |
| PeerLog.LoadFromDisk | src/state/peers.rs:32-47 | the loop over lines collects exactly the peers of the lines that parse, skipping garbage |
| PeerLog.RecordedConcat | src/state/peers.rs:36-45 | what is written to a file that is empty or ends in a newline is read on its own: no record before it is lost or changed |
| PeerLog.LineReadsAs | src/state/peers.rs:25-41 | the line written for a peer with any host is read as exactly the peers its fields and lines spell |
| PeerLog.PlantsNothingIffHarmless | src/state/peers.rs:25-41 | the line of any host, of any number of lines, is read as no other peer if and only if the host is clean or none of the lines it spells is read as a peer at all: each earlier line as it stands, the last by the field behind its first comma |
| PeerLog.AnyCleanPeerCanBePlanted | src/state/peers.rs:25-41 | a host that spells the line of any clean peer is read as that peer |
| PeerLog.RecordedAreClean | src/state/peers.rs:37-41 | whatever a file contains, every host read from it is trimmed and free of commas and newlines |
| PeerLog.ReadBackIffClean | src/state/peers.rs:25-41 | a peer is read back from its own line if and only if its host is clean |
| PeerFiles.RecordedAfter | src/state/peers.rs:36-45 | whatever is written to any file, the records of its finished lines are kept, and what is written is read behind its unfinished line, if there is one |
| PeerFiles.AppendedToAny | src/state/peers.rs:25-45 | appending a line to any file: it is read as the line of a host that begins with the unfinished line; on a file that is empty or ends in a newline, the line of a clean peer adds that peer and no other |
| PeerFiles.UnfinishedSurvivesIff | src/state/peers.rs:25-45 | the record of an unfinished line survives the next append exactly when the text now read as its port spells the same port, or it is recorded in another line as well |
| PeerFiles.OnlyNewlineMissing | src/state/peers.rs:27-28 | a write that breaks off just before the newline leaves such a record |
| PeerFiles.BothAreLost | src/state/peers.rs:25-45 | the next append of a clean peer then loses both, unless the old port and the new host together spell a port |
| PeerFiles.AddressesAreLost | src/state/peers.rs:25-45 | which they never do when the hosts are addresses |
| PeerFiles.BrokenPortPlants | src/state/peers.rs:27-28 | a write that breaks off before the last digit of a port is read as another peer |
| PeerFiles.FileReadsAsWritten | src/state/peers.rs:15-47 | after any number of appends of any hosts to any file, wherever each write breaks off, what is read is exactly what the finished lines were read as and what was written, read behind the unfinished line |
| PeerFiles.FailuresLoseNothing | src/state/peers.rs:24-28 | then no record is lost if and only if those of the unfinished line are still read, and the file replays to peers of the map only if and only if the map has everyone read from finished lines and from what was written |
| PeerFiles.WholeLinesReadAs | src/state/peers.rs:24-28 | when every write is whole or the file does not open, what was written is read as exactly the peers that the hosts of the written lines spell |
| PeerFiles.SyncedIffClean | src/state/peers.rs:15-47 | after any number of successful appends to a file that replays to the map, it replays to the map again if and only if every appended host is clean |
| Dispatch.PickAndBuildPeers | src/net/dispatch.rs:121-138 | filtering, truncating, retaining and inserting in place give the reply as a function of the shuffled map |
| Dispatch.PickedPeersFacts | src/net/dispatch.rs:121-138 | for every shuffle the reply has no duplicates, names only known peers that are not banned or the node itself, has at most ten peers besides a public node, which comes first, and leaves nobody out when there are fewer |
| Dispatch.ImportPeers | src/net/dispatch.rs:140-152 | appends the peers that are not banned one by one and stops at the first write that fails, with that peer in the map already |
| Dispatch.Dispatcher.Dispatch | src/net/dispatch.rs:43-117 | the body of the loop: what is sent, how map and store change, and whether the loop goes on, for each message and each failure of the store |
| Dispatch.Dispatcher.ReceiveObject | src/net/dispatch.rs:79-113 | an object is refused as malformed, answered with a mismatch error, ignored when known, or stored under its own id; the store changes in the last case only |
| StayingOpen.StopsIff | src/net/dispatch.rs:43-117 | a message ends the loop if and only if the store fails on it, it asks for a stored text that is no JSON, or it is an object that is malformed or has another id, and only the last without an error; an object is stored if and only if it proves its id and is not held |
| StayingOpen.AnswersIff | src/net/dispatch.rs:43-117 | exactly these are answered: a request for peers, a request for a JSON text that is held, an announcement of something not held, an object with another id; a request for something not held changes nothing and gets nothing |
| Session.TakeTurn | src/net/dispatch.rs:33-118 | one turn on the bytes left: an invalid or oversized frame is answered and ends the loop, other read errors end it silently, and a write that breaks ends it with an I/O error |
| Session.RunMessageLoop | src/net/dispatch.rs:21-119 | the endless loop computes the conversation that the received bytes and the fate of each write determine: node, bytes sent, result |
| Session.StreamThenAnything | src/net/dispatch.rs:32-118 | any frames, then any bytes: a refused frame ends the loop whatever follows it, with one error message when it is invalid or oversized; if none is refused, the loop goes on with the bytes as it would have on its own |
| Session.StreamIsAnswered | src/net/dispatch.rs:32-118 | a stream of any frames gets exactly the replies to the messages before the first one refused, in order, then at most one error, and leaves the node it would have from handling them one by one: the loop on bytes refines the dispatch of messages |
| Session.OnlyTwoErrorsAreAnswered | src/net/dispatch.rs:33-41 | when reading fails, an invalid frame and an oversized one get an error message each, written out, and count as a regular end; any other error ends the loop in silence with that error |
| Session.BrokenSaysBeginning | src/net/dispatch.rs:32-118 | however its writes break, a connection has sent a beginning of what it would have sent, and makes no other difference unless it ends with an I/O error |
| Session.NoStreamReachesTheStore | src/net/framing.rs:26-38 | no received byte stream changes the store |
| Handshake.Inbound | src/protocol/handshake.rs:19-57 | the listener sends its greeting and a request for peers exactly when it is greeted in time, tells a peer that sent another message what it expected, and fails with an I/O error at the first write that breaks |
| Handshake.Outbound | src/protocol/handshake.rs:63-97 | the dialer greets, and goes on with a request for peers exactly when it is greeted in time; it reads nothing when it cannot connect or its greeting is not written |
| Handshake.GreetingIsHeard | src/protocol/handshake.rs:31-46 | of all frames exactly the greetings below the limit open the handshake, and what follows is left for the message loop |
| Connections.HandleConnection | src/net/listener.rs:41-51 | an accepted connection: the inbound handshake, and the loop on what is left of the input if it succeeds |
| Connections.DialPeer | src/net/client.rs:45-71 | a dialled connection: the outbound handshake, and the loop on what is left of the input if it succeeds |
| Connections.OpeningIs | src/protocol/handshake.rs:30-96 | what either end says to any first frame: a dialer its greeting, and a request for peers too exactly when it hears a greeting below the limit; a listener both exactly then, what it expected to any other message below the limit, and nothing to a frame that is refused |
| Connections.ConnectionIsAnswered | src/protocol/handshake.rs:30-96 | a whole connection of either end, in bytes, to a peer that sends any frames and any bytes: its opening, the replies to the messages before the first one refused in order, and then what the refused frame, or the rest, gets; nothing but its opening without a greeting |
| Connections.TimedOutConnection | src/protocol/handshake.rs:31-33 | a timeout ends the connection with nothing read: a dialer has greeted, a listener has said nothing |
| Connections.BrokenHandshake | src/protocol/handshake.rs:43-54 | a write of the handshake that breaks ends the connection with an I/O error and a beginning of its opening sent |
| TwoEnds.ArrivesIffSmall | src/net/framing.rs:8-14 | what one end has written arrives at the other exactly when its frame is below the limit |
| TwoEnds.TalkStaysOk | src/protocol/handshake.rs:30-96 | in every interleaving, with frames of any size, each direction follows its script, there are no more than fourteen steps, and neither end closes while all frames are below the limit |
| TwoEnds.BothWaitingIsComplete | src/protocol/handshake.rs:30-96 | there is no deadlock: two ends that both wait for the other are both in the message loop with everything read |
| TwoEnds.CompleteIffAllSmall | src/protocol/handshake.rs:30-96 | a conversation that cannot go on is complete if and only if every frame sent is below the limit; complete is ten steps, each direction exactly a greeting, a request and an answer, and each end knows every peer it was sent and has not banned; otherwise both ends are closed |
| TalkMethods.TalkIsConnections | src/protocol/handshake.rs:30-96 | in every interleaving both ends do what the code of their connections does on the bytes the other has written: an end in the loop has sent, and is, what the handshake and the loop have made of what it has read, and goes on so whatever comes; a closed end has the node, the bytes and the result of its whole connection |
| Completion.AlwaysCompletesIffFits | src/protocol/handshake.rs:30-96 | decided before anything is said: every conversation of two nodes completes, however they interleave and shuffle, if and only if both greetings and every answer that either can make from the map it starts with are below the limit |
| ReplySizes.HostsInFrame | src/net/dispatch.rs:47-49 | a message of peers is at least as long as their hosts together |
| ReplySizes.LongOwnHostNeverCompletes | src/net/dispatch.rs:132-136 | a public node whose host is as long as the limit completes no conversation |
| ReplySizes.TwoLongHostsMakeItTooLarge | src/net/dispatch.rs:121-138 | a node that knows few peers, two of them with hosts that reach the limit together, makes an answer that is refused, whatever the shuffle |
| ReplySizes.ReceivedHostsMakeItTooLarge | src/net/dispatch.rs:47-52 | two peers of that kind are each received in a frame below the limit |
| ReplySizes.SuchHostsExist | src/net/dispatch.rs:47-52 | there are such peers |
| Network.ImportedFacts | src/net/dispatch.rs:140-152 | importing keeps every known peer and adds only peers that were sent |
| Network.RunExtends | src/net/dispatch.rs:43-117 | between any two states of a run, peer maps and the ids stored only grow |
| NetworkOrder.DeliveredInOrder | src/net/dispatch.rs:33-34 | in every run, what an end has read and what is under way to it is what was under way at the start and what the other end has sent since, in that order, without loss or repetition |
| NetworkStore.RunKeepsCertified | src/net/dispatch.rs:79-113 | in every interleaving of any number of connections, every stored text parses to a value with an object under `object` whose id is its key, and so does every text about to be stored |
| NetworkStore.StoredValueNeverChanges | src/net/dispatch.rs:104-109 | an id once stored stays stored and, without a collision, stands for the same value in every later state |
| StoreRaces.TextStaysIffSettled | src/net/dispatch.rs:104-109 | a stored text stays in every run if and only if no task of its node has found the id missing and is about to store another text under it |
| StoreRaces.RaceReplacesText | src/net/dispatch.rs:104-109 | from any state where two connections of a node are about to deliver two texts of a missing object, there is a run in which the second text replaces the first |
| StoreRaces.TwoTextsOneId | src/net/dispatch.rs:83-89 | two different texts certify one id, whatever the digest |
| StoreRaces.TheTexts | src/net/dispatch.rs:83-89 | the two texts written out: with and without a space after the colon |
| StoreRaces.StoredBytesChange | src/net/dispatch.rs:104-109 | a run in which the bytes under an id change from one of these texts to the other |
| NetworkStore.ValidationBesideTheNetwork | src/protocol/transaction.rs:82-146 | validation on a node whose connections go on storing objects never panics, and what it accepts is acceptable in the store as its last read finds it |
| NetworkStore.HeldObjectIsSent | src/net/dispatch.rs:62-71 | in every reachable state a node that is asked for an object it holds sends it and stays in the loop |
| StayingOpen.HonestRunsStayOpen | src/net/dispatch.rs:43-117 | from certified stores, with only objects under way that prove their ids: in no run without store faults and lost connections does anybody ever leave the loop |
| NetworkStore.RepliesAreCertified | src/net/dispatch.rs:62-113 | the reply carries the stored bytes, and no receiver ever finds a mismatch in it |
| NetworkStore.AnnouncedObjectArrives | src/net/dispatch.rs:62-113 | over an idle connection an announced object is asked for, sent and stored in four steps; the receiver then holds the same bytes under the same id and nothing else has changed at any node |
| Propagation.AnnouncedObjectsArrive | src/net/dispatch.rs:62-113 | in every run, from any certified state with the object announced anywhere in a queue by a node that holds it: once nothing is left to deliver and neither end is gone, the receiver holds it, whatever failed meanwhile |
| Propagation.WhatArrives | src/net/dispatch.rs:62-113 | without a collision what it holds is the value the sender holds |
| Propagation.NamedPeersAreLearnt | src/net/dispatch.rs:51-55 | in every run that ends with nothing left to deliver: everyone named in a list of peers that was ever in the queue of a task is in the map of its node or banned by it, if the task is still there and the peers file has taken every line since |
| NetworkWeights.RunsAreFinite | src/net/dispatch.rs:43-117 | a network takes no more steps than the weight of what is in flight, however its steps interleave: there is no reply loop |
| NetworkWeights.QuietIsReachable | src/net/dispatch.rs:43-117 | from every state a run without faults or lost connections leads to one with nothing left to deliver or store |
| Gossip.GossipInventsNobody | src/net/dispatch.rs:121-152 | every peer in any map or message of a run was in some map or message at its start, or is the own address of a public node |
| Gossip.BansHold | src/net/dispatch.rs:145-146 | a map free of its node's banned peers stays so in every run |
| Gossip.BannedInReplyIffOwn | src/net/dispatch.rs:126-136 | a banned peer is named in a reply exactly when it is the public node's own address |
| GossipFiles.FilesReadAsWritten | src/state/peers.rs:15-47 | in every run, wherever writes break off, what is read from a node's file is exactly what its finished lines were read as at the start and what was written since, read behind the unfinished line |
| GossipFiles.FilesAreCoveredIff | src/state/peers.rs:15-47 | in every run a file that replays to peers of the map does so again if and only if the map has everyone read from what was written; records are lost if and only if those of the unfinished line at the start are no longer read |
| GossipFiles.TextIsLines | src/state/peers.rs:24-28 | if no write breaks off inside a line, what a run writes is whole lines of peers of the map |
| GossipFiles.FilesAreCovered | src/state/peers.rs:15-47 | so when moreover every host a network starts from is clean, a finished file replays to peers of the map in every state and loses no record |
| GossipFiles.BansHoldAfterReloadIff | src/net/dispatch.rs:145-149 | in every run, wherever writes break off: a node that restarts from its file is free of banned peers if and only if the finished lines it started with were and none is read from what was written since, behind the unfinished line |
| GossipFiles.BannedPeerComesBack | src/net/dispatch.rs:145-149 | any banned peer with a clean host comes back that way, when a peer that spells its line as host is gossiped |
| GossipFiles.BrokenWriteBringsBack | src/net/dispatch.rs:145-149 | and also when only peers that are not banned are gossiped and a write breaks off before the last digit of a port |
| Outbound.RunKeepsInv | src/net/client.rs:18-80 | in every interleaving every entry is its own task's, every connected task has its entry or is about to get it, and the map with all that is planned stays within its bound |
| Outbound.BoundedInEveryInterleaving | src/net/client.rs:18-80 | at most `max_outbound_connection` tasks are connecting or connected, at most one per peer, and the map never exceeds that maximum |
| Outbound.RemovesOwnEntry | src/net/client.rs:72 | a task's own removal finds its own handle under its peer, or none |
| Outbound.OnlyDoneOrOwnHandlesLeave | src/net/client.rs:19-75 | a handle leaves the map only when its task has finished or by that task's own removal: prunes drop no live handle and insertions replace none |
| Outbound.LiveHandlesStay | src/net/client.rs:18-80 | in every interleaving a handle stays under its peer as long as its task has neither finished nor removed itself |
| OutboundTasks.LoopedTasksCleanUp | src/net/client.rs:59-73 | in every interleaving the handle of a task that has been in the message loop is out of the map when the task ends, unless it was aborted or its handle was inserted late |
| OutboundTasks.FailedTasksWaitForPrune | src/net/client.rs:45-56 | in every interleaving the entry of a task whose handshake has failed stays until a prune looks at it |
| Outbound.SpawnerPruneEndsStaleHandles | src/net/client.rs:19 | the handle of a task that has finished before a prune of the spawning loop starts is gone for good once it is complete |
| Outbound.KeeperPruneEndsStaleHandles | src/net/housekeeping.rs:19 | the same for the housekeeping loop, unless the handle had still to be inserted when the prune started |
| Outbound.OutlivesIffPending | src/net/housekeeping.rs:19 | from any state meeting the invariant, the handle of a finished task can be in the map after a complete prune of the housekeeping loop if and only if it had still to be inserted when the prune started |
| Outbound.LateInsertOutlivesPrune | src/net/client.rs:42-75 | the run that does it, whatever else is in the map |
| Outbound.LateInsertHappens | src/net/client.rs:42-75 | such a state is reached from the start for every maximum above zero |
| OutboundLoop.OutboundConnections.Retain | src/net/client.rs:19 | visiting the keys one by one removes exactly the entries of finished tasks |
| OutboundLoop.OutboundConnections.SpawnAll | src/net/client.rs:33-76 | one task is started and its handle inserted for each candidate, in order |
| OutboundLoop.OutboundConnections.Turn | src/net/client.rs:19-77 | one undisturbed turn of the loop: its effect on tasks and map, and a run of the interleaving model that has this effect |
| OutboundLoop.InsertedEntries | src/net/client.rs:33-76 | insertion keeps every retained handle and gives each candidate its own |
| OutboundLoop.TurnFillsTheRoom | src/net/client.rs:21-31 | after a turn the map is full or every known peer is in it, and it is not over its maximum |

## Left out

- Floating-point JSON numbers: values hold integers only; the shortest printing of a double is inside the JSON library.
- Blake2s, Ed25519 and hex decoding: functions without assumptions; nothing about forgery is stated.
- Tokio, sockets and clocks: a timeout is a parameter of the handshake, a write that breaks one of each write, a lost connection a step of the network.
- redb transactions and the table that does not exist before the first write: a store call may fail at any time, and then changes nothing.
- Invalid UTF-8 in received bytes and in stored bytes; a write breaks between characters.
- The array form that serde's derived structs also accept: payloads, inputs, outpoints, outputs and peers are objects here.
- `RawValue` accepts unpaired surrogate escapes that the value parser refuses; `Messages.RawOf` parses with the value grammar and no depth limit.
- Concurrent writers of the peers file: appends happen one after the other.
- The number of inbound connections (src/state/connection.rs) and the accepting loop (src/net/listener.rs): counting adds nothing hard.
- Configuration, logging, startup and the mapping of errors to messages outside the message loop.
- Network.Apply: importing the peers of one message, and enumerating the map for one reply, are single steps of the network; the code takes them peer by peer.
- `PartialEq` for messages is the equality of the datatype.
- Which peers are picked at random: every permutation and every choice of distinct members is allowed, so nothing about likelihood.
- Session.RunMessageLoop: its store calls never fail on `put`, because no received frame gets that far; `Dispatch.Dispatcher.Dispatch` has that failure.
- Completion.AlwaysCompletesIffFits: the setting of `TwoEnds.CompleteIffAllSmall`.
- TwoEnds.CompleteIffAllSmall: two ends whose peer maps are changed by no third connection, without timeouts or writes that break.
- The connection manager under interference is a state machine, not a class, because its map is shared by tasks that run at any time; `OutboundLoop.OutboundConnections` is the class for a turn without interference. Candidates are any distinct known peers that are not connected, at most as many as there is room for; neither the code nor the model filters them by the ban list.
- Transactions with 2^64 or more inputs or outputs, which no vector in memory can have.
