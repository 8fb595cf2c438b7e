# DDCP, verified model

DDCP copies changes between cr-sqlite databases. A node announces its site id and the greatest version of its local rows in the DHT; a peer that has tracked less asks for the rows above its watermark, checks that the answer comes from the announced site, and merges the rows and the new watermark in one transaction. Nodes commit, announce, pull, fail and get replaced independently of each other.

This project models that protocol, its SQLite layer, its wire format and its node bookkeeping, and proves what the design promises of them.

| file | what it models |
|---|---|
| `Replica.dfy` | a replicated database as the protocol sees it; `merge` and local commits as functions; order-freedom of merging |
| `Protocol.dfy` | the state machine: commits, announcements, refreshes, pulls, the responder's two reads, deliveries, database replacement; runs |
| `Watermarks.dfy`, `Safety.dfy` | the invariant of every reachable state, and what it gives: watermark and skip soundness, delta pull against full copy, replacement |
| `Exposure.dfy`, `Convergence.dfy`, `Progress.dfy` | the winner of a cell stays visible; convergence and bounded work once writes stop; every run can be continued to convergence |
| `Database.dfy` | `DB` as a class over the tables, proved against the functions of `Replica.dfy` |
| `Utf8.dfy`, `Words.dfy`, `Wire.dfy`, `Layout.dfy`, `RoundTrip.dfy`, `Codec.dfy` | Cap'n Proto segments, the layout of every message, builders and readers, round trips |
| `Transport.dfy` | sealing, envelopes and the two ends of a call |
| `Routes.dfy`, `Registry.dfy` | the published private route; the remotes in memory and in the table store |
| `Rounds.dfy` | what a pull and a round of pulls leave of the puller's database, and when the order of a round does not matter |
| `Refinement.dfy` | pulls and answers of the classes, with other tasks at work at both ends, are runs of the protocol; convergence of what users see |
| `Ddcp.dfy` | `push`, `pull`, `pull_from`, the puller's round and the responder, over the classes above; a pull carried over bytes |

## What is assumed

Of cr-sqlite, which is not part of this model, the following and nothing else (on ranks in `Replica.dfy`, on stored rows in `Database.dfy`):

- a local commit stamps every cell it writes with one version above every version that database stamped before, so versions are positive (`CanCommit`, `Commit`);
- a local write strictly raises the rank of the cell in the order by which conflicts are resolved (`CanCommit`);
- inserting a remote row keeps the greater rank, keeps the existing row on a tie, and a row won from a remote is no longer local, so neither `site_id is null` query sees it (`Insert`, `InsertChange`);
- cells are independent of each other.

Ranks are real numbers. The order on (cl, col_version, val) is left open, and any total order on a countable set is the order of some set of reals; in `Database.dfy` the order is a parameter of the class.

Of the network: a request or response, once sent, stays available for ever. A delivery may therefore come late, out of order, repeatedly or never, which covers lost messages and merges that fail. A puller's calls die with its database; replacement gives a site id that was never used. No node is its own remote.

Of the cryptosystem (`Transport.Lawful`): opening undoes sealing, key agreement is symmetric, and a printed key parses back. A nonce has 24 bytes (`Transport.NONCE_LENGTH`), which the Veilid crate fixes and this repository only uses.

Calls whose outcome is decided elsewhere (SQLite queries and transactions, the table store, Veilid) take that outcome as a parameter. Names, addresses and messages that come from outside are parameters too, as bytes.

## What the code does that is easy to miss

- The version a node announces can go down; `Safety.StatusDropsIff` says exactly when. The skip test is still sound.
- One peer whose refresh fails calls off every pull of the round (`Ddcp.Node.PullRound`).
- `push` refreshes the peers after announcing, so it can fail although the announcement went out (`Ddcp.Node.Push`).
- The server looks senders up in a copy of its peers made at start, which no refresh reaches. Whoever was copied before its status was read is refused, and whoever was added later gets no reply; `Transport.AnsweredIff` says exactly who is answered.
- Two names may stand for one database. `Rounds.RoundOrderFreeIff` says exactly when the order of a round cannot matter, whatever the peers answer: when no database is ahead under two names. If they answer honestly, it does not matter even then, whichever calls fail (`Rounds.AnsweredRoundOrderFree`).
- `close` forgets the route before releasing it, so a failed release leaks it (`Routes.CloseLeaksIff`).
- `remove_peer` forgets the peer before deleting it from the store, and `Peer::new` stores before it reads back; `Registry.AgreementKeptIff` says exactly which failures leave memory and store in disagreement.
- A change list of 2^32 elements or more runs off the list made for its truncated length (`Codec.Builder.SetChanges`).

## Model

| member | source | states |
|---|---|---|
| Replica.MergeIsJoin | src/db.rs:66-90 | inserting rows one by one leaves in each cell the old entry when no row beats it, and otherwise the best row, as a remote |
| Replica.JoinIsUnique | src/db.rs:66-90 | that description has one solution, whatever the order and repetition of the rows |
| Replica.MaxVersionIsMax | src/db.rs:72-76 | the version `merge` returns is the maximum of 0 and the row versions |
| Replica.MergeOrderFree | src/db.rs:61-109 | any permutation or repetition of a response's rows leaves the same database and the same version |
| Replica.MergeHistoryOrderFree | src/db.rs:61-109 | delayed, reordered and repeated responses leave the same database: cells are the join of all rows, each watermark the maximum of its old value and the versions received from that site |
| Replica.TopVersion | src/db.rs:126-138 | the greatest version among the local rows, if any |
| Watermarks.MergeExtendsCover | src/lib.rs:166-172 | merging a complete response moves a sound watermark to a sound watermark |
| Watermarks.ScanIsComplete | src/db.rs:146-181 | a scan carries every local row above `since` up to its greatest version |
| Watermarks.DeliverKeepsInv | src/lib.rs:166-172 | delivering any response at any time, refused or merged, keeps the invariant |
| Watermarks.CommitKeepsInv | src/db.rs:126-138 | local commits, also between a responder's two reads, keep the invariant |
| Watermarks.AnswerStatusKeepsInv | src/db.rs:141-145 | the responder's first read, with its early return, keeps the invariant |
| Watermarks.AnswerRowsKeepsInv | src/db.rs:146-182 | the responder's second read keeps the invariant |
| Watermarks.BeginPullKeepsInv | src/lib.rs:152-166 | reading the watermark and asking, or skipping, keeps the invariant |
| Watermarks.ReplaceKeepsInv | src/lib.rs:166-169 | replacing a database behind a DHT key keeps the invariant |
| Watermarks.ReachableInv | src/lib.rs:136-173 | the invariant holds in every reachable state |
| Safety.WatermarkSoundness | src/db.rs:39-109 | in every reachable state, whatever a peer still holds as local with a version up to the puller's watermark is dominated by the puller's copy |
| Safety.DeltaPullRefinesFullCopy | src/lib.rs:153-171 | in every reachable state, merging what is above the watermark leaves the same database, watermark included, as merging the peer's whole local change set |
| Safety.DelayedPullRefinesFullCopy | src/lib.rs:153-172 | a pull asked at one moment, answered at a later one and delivered at a third, with commits, merges, other pulls and replacements in between, leaves the database that a copy of all the responder held when it answered would leave |
| Safety.EveryDeliveryRefinesFullCopy | src/lib.rs:166-172 | in any run, every delivery that is not refused leaves the database that a copy of all the responder held at some earlier moment, when it answered, would leave |
| Safety.EveryAnswerWasGiven | src/lib.rs:321-340 | every response in the network is the answer of its peer's database, given after the request was sent |
| Safety.SeenWasAnnounced | src/ident.rs:282-297 | every status a puller goes by was computed by that peer at some earlier announcement |
| Safety.SkipSoundness | src/lib.rs:153-159 | when a pull is skipped, take any announcement of the status it went by, and there is one: everything the peer held as local then, and still holds unchanged, is dominated at the puller |
| Safety.StatusDropsIff | src/db.rs:126-138 | a merge never raises the version a node announces, and lowers it exactly when that version is positive and every cell stamped with it is lost to a better row |
| Safety.ReplacedPeerIsRefused | src/lib.rs:166-169 | a pull about the announced site that is answered by a database which replaced it is refused and changes nothing |
| Safety.NewSiteIsUntracked | src/db.rs:39-58 | until a response of the new site is merged, its watermark is absent |
| Safety.NewSiteIsCopiedFromZero | src/lib.rs:153-172 | the first pull of a new site starts at 0; once its answer, early and empty or scanned, is delivered, the puller dominates every row the new database held when it answered, with a watermark past all of them; an answer of yet another site is refused |
| Exposure.MergeKeepsShown | src/db.rs:150-162 | a merge takes the best local copy of a cell away only in favour of a better one that is local elsewhere |
| Exposure.WinnerStaysExposed | src/db.rs:150-162 | without replacement, whatever rank a database holds or a response carries, some node holds the cell as local at least as good |
| Exposure.GreatestIsLocal | src/db.rs:150-162 | the greatest rank of a cell over all databases and responses is the rank of a local row |
| Exposure.PresentWasWritten | src/lib.rs:136-173 | every rank anywhere in the system was written by some local transaction |
| Convergence.AnswersAreSufficient | src/db.rs:141-183 | after writes stop, every answer to a request carries all that its origin still holds above `since` |
| Convergence.CompletedPullCatchesUp | src/lib.rs:152-173 | a pull begun after writes stopped, once merged, leaves the puller dominating all its peer holds as local and its watermark past it |
| Convergence.Convergence | src/lib.rs:136-173 | without replacement, once writes stop, every node announces and every ordered pair completes a pull, all nodes hold exactly the cells ever written, each with the greatest rank ever written |
| Convergence.ConvergenceAfterReplacements | src/lib.rs:136-173 | after earlier replacements, every cell whose greatest rank some node still shows as local ends up with that rank at every node |
| Convergence.SecondPullHasNoEffect | src/lib.rs:152-173 | a pull of the same pair begun after such a pull is over changes neither cells nor watermarks |
| Convergence.AtMostOneEffect | src/lib.rs:246-258 | each ordered pair has at most one pull begun after writes stop that changes anything |
| Convergence.BoundedWork | src/lib.rs:237-262 | n nodes pulling one peer at a time make at most n(n-1) state-changing pulls after writes and replacements stop |
| Convergence.EveryChangeIsCounted | src/lib.rs:237-262 | a delivery that changes a cell or a watermark belongs to a pull begun before writes stopped or to one of those counted |
| Progress.EveryRunCanSettle | src/lib.rs:136-173 | every run, however it went, can be continued without writes and replacements until every node has announced and every ordered pair has completed a pull, so convergence is always within reach |
| Database.InsertRefines | src/db.rs:66-71 | the insert on stored rows is the insert of the protocol |
| Database.InsertStoresColumns | src/db.rs:66-87 | an insert touches its own cell only, and leaves there the old row or all five columns of the change, attributed to the site it came from |
| Database.DB.TrackedPeerVersion | src/db.rs:39-58 | reads the watermark of a site, 0 when there is none, unless the query fails |
| Database.DB.Merge | src/db.rs:61-109 | for any list and any failing call, either rows and watermark move as the protocol's merge says, every row being an old one or some change's columns attributed to the site, and the greatest version is returned, or nothing changes |
| Database.DB.Status | src/db.rs:126-138 | the site id and the greatest local version, 0 when there is none, unless the query fails |
| Database.DB.Scan | src/db.rs:146-181 | exactly the local rows above `since`, all columns as stored, none twice |
| Database.ScanReportsColumns | src/db.rs:157-176 | such a list reports each local row above `since` column for column, and each once |
| Database.ScanRefines | src/db.rs:146-181 | such a list is, for the protocol, the set of local rows above `since` |
| Database.EarlyReturnAgrees | src/db.rs:142-145 | the early return is taken exactly when the scan at that moment would select nothing, for any non-negative `since` |
| Database.DB.Changes | src/db.rs:141-183 | whatever other tasks commit or merge between the two reads, the answer is empty with nothing above `since` at the first, or exactly the local rows above `since` at the second; it is an error exactly when a read that is reached fails |
| Words.UnpackPack | src/proto/codec.rs:117-130 | bytes packed into zero-padded words are read back |
| Words.LittleEndianDigit | src/proto/ddcp_capnp.rs:1995-2037 | numbers are written least significant byte first |
| Words.BitsAreTwosComplement | src/proto/ddcp_capnp.rs:1995-2037 | an `i64` is stored as the one 64-bit number congruent to it, and read back as such |
| Wire.StructPtrBytes | src/proto/ddcp_capnp.rs:1334-1336 | the eight bytes of a struct pointer |
| Wire.ListPtrBytes | src/proto/ddcp_capnp.rs:1054-1056 | the eight bytes of a pointer to bytes and of one to a list of structs |
| Wire.FrameBytes | src/proto/codec.rs:85-87 | the bytes of a whole message: its header and its words |
| Wire.UnframeIff | src/proto/codec.rs:90-93 | exactly which bytes are a message, and which segment they hold |
| Wire.ReadBytesIff | src/proto/ddcp_capnp.rs:76-78 | exactly when a pointer is read as bytes, and as which |
| Wire.ReadTextIff | src/proto/ddcp_capnp.rs:68-70 | exactly when a pointer is read as a text, and as which |
| Utf8.ValidIffEncoding | src/proto/codec.rs:163-181 | the texts accepted are exactly the encodings of sequences of Unicode scalar values |
| Wire.FrameRoundTrip | src/proto/codec.rs:85-93 | the framed bytes of a segment give back the segment |
| Wire.BytesAreRead | src/proto/ddcp_capnp.rs:76-78 | a byte list that was laid out is read back through its pointer |
| Wire.TextIsRead | src/proto/ddcp_capnp.rs:68-70 | a text with its NUL is read back through its pointer and is UTF-8 |
| Wire.ListIsRead | src/proto/ddcp_capnp.rs:1054-1056 | a list of structs is found with its count and sections |
| RoundTrip.TagIsRead | src/proto/ddcp_capnp.rs:2310-2337 | the 16-bit discriminant is written and read without touching another word |
| RoundTrip.ValueBuilt | src/proto/ddcp_capnp.rs:2394-2427 | each kind of value leaves its discriminant in word 0 and its payload in word 1 or pointer 0, and touches nothing else |
| RoundTrip.ChangeBuilt | src/proto/ddcp_capnp.rs:1930-2037 | a change leaves its numbers in words 0 to 3, its strings behind pointers 0 to 2 and its value behind pointer 3, and touches nothing outside its element |
| RoundTrip.ChangeIsRead | src/proto/codec.rs:163-181 | reading an element gives back its change |
| RoundTrip.ChangesBuilt | src/proto/codec.rs:113-132 | after the loop every element of the list holds its change, in order |
| RoundTrip.ChangesMessageBuilt | src/proto/codec.rs:105-132 | the whole response message: discriminant 1, `changes_result` (0, 2) behind the root, site id behind pointer 0, all elements behind pointer 1 |
| RoundTrip.StatusBuilt | src/proto/ddcp_capnp.rs:1310-1382 | a status response: discriminant 0, `d_b_status` (1, 1) behind the root, version in word 0, site id behind pointer 0 |
| RoundTrip.RequestBuilt | src/proto/ddcp_capnp.rs:391-402 | a request: its discriminant, and for changes the version in word 0 of `changes_params` (1, 0) |
| RoundTrip.NodeStatusBuilt | src/proto/ddcp_capnp.rs:1556-1645 | an announcement: status, key and route behind pointers 0, 1 and 2, none overwriting another |
| RoundTrip.EnvelopeBuilt | src/proto/ddcp_capnp.rs:87-159 | an envelope: sender and contents behind pointers 0 and 1 |
| RoundTrip.ResponseRoundTrip | src/proto/codec.rs:105-191 | every response that fits decodes to itself: both kinds, all five kinds of value, in order |
| RoundTrip.ChangesFit | src/proto/codec.rs:105-146 | what fits, in numbers: fields below 2^29 bytes and a message of at most 2^29 words |
| RoundTrip.RequestRoundTrip | src/proto/codec.rs:71-103 | every request fits and decodes to itself |
| RoundTrip.NodeStatusRoundTrip | src/proto/codec.rs:201-227 | every announcement that fits decodes to itself |
| RoundTrip.EnvelopeRoundTrip | src/proto/codec.rs:235-258 | every envelope that fits decodes to itself |
| Codec.Builder.SetValue | src/proto/codec.rs:124-131 | writes the value's layout in place and notes a list that is too long |
| Codec.Builder.SetChange | src/proto/codec.rs:116-131 | writes a change's layout in place |
| Codec.Builder.SetChanges | src/proto/codec.rs:113-132 | the index loop builds the whole list, and stays in range exactly when the length survives the cast to `u32` |
| Codec.EncodeResponse | src/proto/codec.rs:105-146 | succeeds exactly when the response fits, with its framed layout |
| Codec.EncodeRequest | src/proto/codec.rs:71-88 | always succeeds, with the request's framed layout |
| Codec.EncodeNodeStatus | src/proto/codec.rs:201-213 | succeeds exactly when the announcement fits |
| Codec.EncodeEnvelope | src/proto/codec.rs:235-244 | succeeds exactly when the envelope fits |
| Codec.ReadChanges | src/proto/codec.rs:160-182 | the decoding loop gives all elements in order, or the first error |
| Codec.ReadResponse | src/proto/codec.rs:148-191 | decodes by discriminant, with the first error met |
| Codec.EncodeThenDecode | src/proto/codec.rs:105-191 | encoding and then decoding gives the response back exactly when it fits |
| Transport.UnsealSeal | src/proto/crypto.rs:41-64 | what one end seals behind a nonce the other end opens |
| Transport.Encode | src/proto/crypto.rs:41-51 | encrypts its buffer in place behind a nonce; whoever holds the other end of the conversation reads the plain bytes |
| Transport.Decode | src/proto/crypto.rs:53-64 | decrypts its buffer in place; what the other end sealed comes out, a short or forged message is an error |
| Transport.AskIff | src/ident.rs:404-412 | a call goes out exactly when the peer's key is known and parses, a route to it was imported and the request fits, and then as the sealed request from our own address |
| Transport.PrepareCall | src/ident.rs:404-412 | `Conclave::changes` up to the call, over the buffers it works on: succeeds exactly when the call can go out, with its bytes |
| Transport.FinishCall | src/ident.rs:430-434 | `Conclave::changes` after the call, over the buffers it works on: gives changes exactly when the envelope decodes, its contents open under the key of the peer asked, and they are changes (`ReadReplyIff`) |
| Transport.RequestArrives | src/lib.rs:302-353 | a known sender's request, of either kind, is understood, and what goes back is the sealed answer to it or the error of its size |
| Transport.ReplyIsRead | src/lib.rs:321-353 | a response goes out exactly when it and its envelope fit, from its responder, and the other end reads it |
| Transport.EndToEnd | src/ident.rs:404-435 | with keys known, a route and a request that fits, the exchange succeeds exactly when response and envelope fit, and then the puller gets exactly the responder's `changes` |
| Transport.LawsCanBeMet | src/proto/crypto.rs:41-64 | the laws assumed of the cryptosystem can be met |
| Transport.AnsweredIff | src/lib.rs:274-353 | a call is answered exactly when its sender is in the server's start-up copy with a status whose key parses and the reply fits; it is ignored exactly when the sender is not in the copy |
| Routes.RoutesAreConserved | src/ident.rs:134-170 | over any run of announcements and route changes, failed ones included, the routes allocated and unreleased are exactly the one held, if any |
| Routes.SuccessPublishesHeldRoute | src/ident.rs:142-170 | whenever an announcement succeeds, the published value decodes to the status with the route held |
| Routes.AnnounceOutcome | src/ident.rs:142-170 | which route an announcement goes out with and keeps, exactly when it succeeds, and that it then publishes the status with that route, and otherwise nothing |
| Routes.CloseLeaksIff | src/ident.rs:172-182 | closing keeps conservation exactly unless the release is reached and fails |
| Routes.AnnouncementIsUnderstood | src/ident.rs:282-297 | a reader decodes the announced site, version, key and route, and derives the announcer's key from it |
| Routes.Sovereign.DoAnnounce | src/ident.rs:142-170 | state and outcome are those of the run model (`AnnounceOutcome`); other DHT records untouched |
| Routes.Sovereign.ReleaseRoute | src/ident.rs:134-140 | drops the route and gives it back, or changes nothing when releasing fails (`ReleaseOutcome`) |
| Routes.Sovereign.Close | src/ident.rs:172-182 | once the record is closed no route is held, whether or not it could be released (`CloseOutcome`); fails exactly when closing the record or releasing a held route fails |
| Registry.AgreementMeansSameDirectory | src/ident.rs:220-234 | agreement says that memory lists what a restart would rebuild |
| Registry.AgreementKeptIff | src/ident.rs:203-256 | exactly which operations and failures keep memory and store in agreement |
| Registry.RegistryAgrees | src/ident.rs:203-256 | any sequence of additions, re-additions and removals whose storage calls succeed keeps them in agreement |
| Registry.Conclave.RemoteAdd | src/lib.rs:193-197 | stores the key and remembers an unrefreshed peer under that name only, as far as no storage call fails (`AddOutcome`); an address that does not parse changes nothing |
| Registry.Conclave.RemoteRemove | src/ident.rs:389-398 | forgets a known peer and deletes its key unless that fails, touches no other (`RemoveOutcome`), and tells whether there was such a peer |
| Registry.Conclave.LoadAll | src/ident.rs:220-234 | rebuilds an agreeing registry of unrefreshed peers exactly when the table can be listed and every key is UTF-8 and can be read |
| Rounds.RoundOrderFree | src/lib.rs:246-258 | whatever the peers answer, rounds of the same pulls leave the same database if no two of them go by statuses of one database that are both ahead |
| Rounds.RivalsMatter | src/lib.rs:246-258 | if two do, in any round from any database, there are answers with which the order matters |
| Rounds.RoundOrderFreeIff | src/lib.rs:246-258 | so the order of a round is irrelevant for all answers and failures exactly when no two statuses of one database are both ahead |
| Rounds.RoundIsFullCopies | src/lib.rs:246-258 | a round whose successful pulls are answered by the databases they are about leaves full copies of those that were ahead of their watermarks and for which some pull succeeds |
| Rounds.AnsweredRoundOrderFree | src/lib.rs:246-258 | such a round does not depend on order or on repeated names, even with statuses of different age and with failing calls and merges |
| Rounds.ReachableSoundPeers | src/lib.rs:136-173 | the databases of a system are such peers in every reachable state |
| Rounds.AnsweredOneMore | src/db.rs:141-183 | what `changes` gives is such an answer |
| Refinement.CommitIsRun | src/db.rs:126-138 | any node can commit with a greater version and raised ranks, which leaves the written cells local with that version |
| Refinement.PushIsRun | src/lib.rs:121-134 | any node can push at any time; its record then holds its site and the greatest version among its local rows |
| Refinement.RefreshIsRun | src/ident.rs:273-297 | any node can refresh any other that has announced, and then goes by what it read |
| Refinement.ReplacementIsRun | src/db.rs:126-138 | any database can be replaced by an empty one of a new site, which has read nothing |
| Refinement.PullAsks | src/lib.rs:152-166 | a pull that does not skip asks its peer for what is above the watermark of the announced site; one that skips leaves the system as it is |
| Refinement.ScanIsProtocolAnswer | src/db.rs:146-182 | what `changes` lists is an answer the protocol may send from the database it was read from |
| Refinement.ActsAreSteps | src/db.rs:61-138 | whatever other tasks commit and merge at a database is a run of the protocol |
| Refinement.CommitIsActivity | src/db.rs:126-138 | conversely, every local transaction of the protocol is something other tasks may do to the database |
| Refinement.DeliveryIsActivity | src/db.rs:61-109 | and so is every delivery that is not refused |
| Refinement.AnswerIsRun | src/db.rs:141-183 | `changes` as a whole, with other tasks at work between its two reads, is a run of the protocol that ends with its answer sent |
| Refinement.DeliveryIsRun | src/lib.rs:166-172 | whenever the answer comes, with other tasks at work before it, a pull refuses or merges it as the protocol's delivery does; a failed merge leaves no trace |
| Refinement.PullIsProtocolRun | src/lib.rs:152-173 | a whole pull, from the watermark it reads to its merge, with other tasks at work at both ends and any call failing, is a run of the protocol that leaves both databases as the classes leave them |
| Refinement.TablesConverge | src/lib.rs:136-173 | after convergence, if conflict resolution tells all payloads apart, all nodes list the same cells with the same value, column version and causal length |
| Ddcp.ReadingsStore | src/ident.rs:361-366 | when all peers refresh, each ends up with the status decoded from its record and the route imported from it, or without a status when it has no record; name and address stay |
| Ddcp.RefreshKeepsAgreement | src/ident.rs:361-366 | refreshing peers, even when it fails half-way, leaves the registry in memory and the table in agreement |
| Ddcp.PushedStatusIsSeen | src/lib.rs:121-134 | whoever reads the record of a node that pushed stores, and so goes by, the site id and version of the pusher's database |
| Ddcp.PullOverTheWire | src/lib.rs:152-173 | a pull carried through codec, envelopes and seals, with other tasks at work at both ends, leaves the puller with the database a full copy would, or with what the other tasks left when its merge fails |
| Ddcp.EveryPeerIsPulled | src/lib.rs:246-258 | a round pulls from every visited peer that has a status, in turn, by that status and asking for what is above the watermark that the pulls before it left |
| Ddcp.StatuslessArePassedOver | src/lib.rs:248-254 | a peer without a status is passed over |
| Ddcp.Node.FetchChanges | src/ident.rs:404-435 | sends the bytes of the call to the network and reads what it brings back for them |
| Ddcp.Node.PullFrom | src/lib.rs:152-173 | skips with the watermark, fails leaving only what other tasks did, or merges the answer read from the reply's bytes on top of it and returns the version |
| Ddcp.Node.RefreshPeer | src/ident.rs:273-308 | decodes the record and stores its status, even when importing the route then fails; a record that does not decode leaves the old status; the table is not touched |
| Ddcp.Node.RefreshPeers | src/ident.rs:361-366 | refreshes peer after peer up to the first failure |
| Ddcp.Node.PullByName | src/lib.rs:137-150 | pulls only from a known peer with a fresh status and route, and returns what the pull returns |
| Ddcp.Node.PullAll | src/lib.rs:246-258 | the pulls of the visited peers (`EveryPeerIsPulled`) take effect one after the other, with other tasks at work before and during each; failed ones leave no trace |
| Ddcp.Node.PullRound | src/lib.rs:239-258 | one failed refresh calls off all pulls; otherwise the round is its pulls |
| Ddcp.Node.Push | src/lib.rs:121-134 | announces the database's own status, then refreshes and stores the peers' statuses; fails also when only the latter failed; a failing status query changes nothing |
| Ddcp.Node.HandleCall | src/lib.rs:309-353 | answers a call as the exchange model says, from a database at which other tasks work between its two reads; a failing read means no reply |

## Left out

- SQLite, cr-sqlite and SQL: foreign code, used only through the assumptions above; deleting a row is a write of its cells, and how one delete affects other cells of the row is not modelled.
- Rows of `crsql_tracked_peers` with other tags or events: this program writes none.
- Veilid networking, route building, tasks, timers and cancellation: their effects are the parameters and the interleavings of the model.
- Real cryptography and nonce randomness: no secrecy is claimed.
- Wire: far pointers, capabilities and lists of other element sizes; a message that needs any of them is an error here.
- Wire.FrameRoundTrip: one segment, where the Cap'n Proto library may split a message built in pieces into several.
- Codec.EncodeThenDecode: the library's limits on how much a reader traverses and how deep it nests are not part of the condition; they depend on the library's own accounting, which is not part of this model.
- Codec.EncodeResponse: reports a message that is too large as an error where Rust panics, and counts as too large whatever does not fit in one segment of 2^29 words.
- `f64` values are their 64 bits; comparing them as numbers is not needed.
- Strings are their UTF-8 bytes.
- `Request::Status` is served but never sent by the program.
- Transport.EndToEnd: takes the responder's `changes` as a function of `since`; `Ddcp.Node.HandleCall` gives that function from a database at which other tasks work between the two reads.
- Rounds.RoundOrderFree: nothing else writes during the round, and so in the other results on its order; `Ddcp.Node.PullRound` allows for other tasks.
- Routes: one `Sovereign` value; clones of a conclave in the puller and server tasks, and releasing the routes imported from peers, are not accounted for.
- Opening and closing the DHT records of peers in `refresh_dht` and `Peer::new`: only what is read from them matters here.
- Restoring an old backup under the same site id, and a node listed as its own remote.
- The command line, configuration, logging and `src/store.rs`, which is not part of the program.
