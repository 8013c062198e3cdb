# BallotBox in Dafny

A model of BallotBox, an e-voting daemon and its clients, and proofs about it. The daemon keeps
elections in six SimpleDB tables reached over a line protocol, takes requests as HTTTP messages,
and lets voters cast, update and check ballots. The project models five parts.

**The ballot store and its transactions.** `Tables` holds the tables as multisets of rows and the
statements on them; SimpleDB has no UPDATE, so every change is a delete and an insert. `Session` is
the server's session state machine, where a statement may complete, deadlock or fail, and the
connection in front of it, where a reply may be lost, late or garbled (`Network` hands out these
fates; nothing is assumed about them). `Commands` are the statement sequences of each store
operation, `Brain` the transactions, the retry loops and the handlers, `ElectionId` the numbering of
elections. `BallotLog`, `BallotTally` and `Refinement` say what the tables mean: a plain map of
elections and a log of accepted votes. `Runs` takes arbitrary sequences of requests and proves the
store a refinement of that plain world. `Outcomes` and `FinalResults` are what holds of every run
whatever receipts were issued: nonces, rows that change only while an election is open, states, and
results that are final. `Service` says that on clean exchanges the daemon answers as that world rules,
and `Independence` that elections do not touch one another. `Reachable` is what holds while receipts
are not shared: receipts that can be looked up, versions, and matched owner, ballot and nonce rows.
`Receipts` shows how few receipts there are and what a shared one does, and `Voter` puts a client
session in front of the store.

**The wire grammar.** `Htttp` reads messages, `HtttpGrammar` says which texts are messages and of what,
`HtttpWriter` writes them into a caller's buffer, and `HtttpRoundTrip` proves exactly when what was
written is read back. `CodecBody`, `CodecFields` and
`WireNumbers` are the key=value bodies with their hex, lists and rows; `RequestCodec`,
`ResponseCodec` and `ResponseWire` are the two codecs, from a struct through the wire to the struct
on the other side.

**Two concurrent accounts.** `LogSender` and `StatementQueue` are atomic steps of several threads;
their `Run` methods take any schedule.

**The database line protocol.** `LineProtocol` is the buffered reader and the responses, `RowReader`
the table reader with the printer it has to undo, `StoredText` which texts survive the two; `TextLines`
is cutting and joining text.

**Tokens.** `Token` is the canonical token encoding over an HMAC of which only the width is known.

Bytes are characters. A field that C holds in a fixed array is a string shorter than the array. 32-bit
and 64-bit wrap-around, truncating copies and fixed capacities are written out where the code has them.

## Where code and comments differ

- `bb_record_ballot` returns the retry code when all its attempts lose a deadlock, although
  include/libballotbrain/types.h:87-92 says the code never leaves the library. `RecordBallot` states
  that it comes out then and only then. The codec has no name for it, so no response is then sent.
- An over-long line loses its excess (src/libtetrisdb/wire.c:114), although src/libtetrisdb/wire.h:42-45
  says it is split. `LineProtocol` discards it.
- A response body loses the empty lines it starts with (src/libtetrisdb/wire.c:177-182); `BodyIs` says so.
- `bb_alloc_id` falls back to E-100 when the store does not answer, which may be taken
  (`FallbackMayCollide`), and the number after INT_MAX wraps. `ChosenIsNew` says exactly when the id is
  free, `TakenBreaks` what happens otherwise, and the run theorems suppose only that it was
  (`AllNumbered`), which `OneRowExactly` shows to be necessary and `AnsweredNumbers` gets from clean
  exchanges.
- The serializer accepts a colon in a header key that the parser cannot read, and generated headers
  count towards the parser's limit; the round trips are stated as exact conditions.
- An election id with a slash is cut at the slash when a request is decoded; `RequestArrives` gives
  what arrives for every request.
- Distinct nonces can share a receipt, of which there are at most 2^20 (`LowBitsDecide`), and
  superseding one deletes every row that carries it. Only what
  is read off the ballot rows depends on this: the refinement of the tallies and lookups supposes that
  no ballot superseded more than one (`AllAlone`), which `RowsExactly` shows to be necessary, and the
  lookup of a receipt supposes that receipts were new when issued (`AllUnshared`).

## Model

| member | source | states |
|---|---|---|
| `Session.StatementSession.Control` | db/src/java/simpledb/Parser.java:430-468 | set transaction, commit and rollback on the session state; each succeeds only where it is in place; the committed tables move only at a commit, and then to the transaction’s copy; after a commit or rollback none is open |
| `Session.StatementSession.Process` | db/src/java/simpledb/Parser.java:510-587 | one statement: inside a transaction only its copy moves, outside one a write commits by itself; a failed statement takes the open transaction down with it, unless only its text or its output was at fault, and outside one leaves the committed tables alone unless only its output was |
| `Session.StatementSession.Close` | db/src/java/simpledb/StatementSession.java:150-165 | hanging up aborts an open transaction and leaves the committed tables as they were |
| `Connection.Socket.Exec` | src/libtetrisdb/socket/socket.c:172-197 | a lost or late reply poisons the connection; ok means the statement took effect on the tables the connection stands on, inside a transaction or outside one; the committed tables move only by a commit, to the transaction’s copy, or outside a transaction by this one statement; a commit, a rollback and a lost deadlock each leave no transaction open; a working connection fails only if the exchange was neither clean nor a deadlock, and hears the retry marker only for a deadlock |
| `Tables.Apply` | db/src/java/simpledb/Parser.java:323-428 | insert and delete as row operations: the tables become exactly the effect of the statement |
| `Tables.Answer` | db/src/java/simpledb/Parser.java:282-321 | a select answers with all matching rows, each as often as stored, in some order |
| `Commands.RunAddElection` | src/libballotbrain/db.c:234-284 | the election, option and eligible rows appear together, lists cut at their array bounds |
| `Commands.RunSetState` | src/libballotbrain/db.c:380-427 | delete and insert amount to replacing the state in one existing row |
| `Commands.RunAppendBallot` | src/libballotbrain/db.c:429-443 | one more ballot row, nothing else |
| `Commands.RunMarkSuperseded` | src/libballotbrain/db.c:445-486 | all rows carrying the hash are replaced by one superseded row |
| `Commands.RunMarkNonce` | src/libballotbrain/db.c:488-497 | one more nonce row |
| `Commands.RunSetOwner` | src/libballotbrain/db.c:499-518 | the voter’s owner rows are replaced by the one given |
| `Commands.RunGetElection` | src/libballotbrain/db.c:286-378 | the answer is a stored election with its options by index and its eligible list; no answer means no such row |
| `Commands.CountOptions` | src/libballotbrain/db.c:520-555 | the counting loop gives, for every option, the number of live rows that name it |
| `Commands.RunGetTally` | src/libballotbrain/db.c:520-555 | the tally answered is the number of live rows per option in the tables read |
| `Commands.RunGetHashes` | src/libballotbrain/db.c:557-596 | the live rows, cut at the array bound and not otherwise |
| `Commands.RunFindHash` | src/libballotbrain/db.c:598-633 | a live row with the hash, or the certainty that there is none |
| `Commands.RunNonceSeen` | src/libballotbrain/db.c:635-655 | whether the nonce row is stored |
| `Commands.RunGetPriorBallot` | src/libballotbrain/db.c:657-689 | the voter’s owner row, or the certainty that there is none |
| `Commands.RunOp` | src/libballotbrain/db.c:691-708 | success means the whole command took effect on the tables the connection stands on, inside a transaction or outside one; inside one the committed tables stay; a command nothing stands in the way of fails only if an exchange was not clean |
| `Brain.Context.OneShotWrite` | src/libballotbrain/db.c:714-742 | a write of its own is applied as a whole or not at all; it is applied without success only if the commit’s reply was lost, and fails, with nothing in its way, only if an exchange broke |
| `Brain.Context.BeginAndWrite` | src/libballotbrain/db.c:714-742 | begin, the write, and its commit or rollback: whatever comes of it, no transaction is left open on a connection that works |
| `Brain.Context.DbExec` | src/libballotbrain/db.c:744-773 | inside the open transaction only its copy moves; alone, three attempts still apply the command at most once, and without success only if the last reply was lost; alone a command nothing stands in the way of fails only if an exchange broke or all three attempts lost a deadlock |
| `Brain.Context.BeginTxn` | src/libballotbrain/txn.c:21-37 | an open transaction sees the committed tables; a failure leaves none open |
| `Brain.Context.CommitTxn` | src/libballotbrain/txn.c:39-47 | success means the transaction’s view is committed; the tables change without success only if the commit got through and the network lost its reply; nothing stays open on either side |
| `Brain.Context.RollbackTxn` | src/libballotbrain/txn.c:49-58 | the committed tables are untouched and no transaction stays open on either side |
| `Brain.Context.LoadElection` | src/libballotbrain/handlers.c:14-32 | found, not found and failed are told apart and agree with the tables read |
| `Brain.Context.CheckBallot` | src/libballotbrain/handlers.c:165-230 | a pass means every gate holds in the transaction’s view; a refusal is the one the stored election and nonces call for |
| `Brain.Context.WriteBallot` | src/libballotbrain/handlers.c:238-286 | the append, the superseding, the owner and the nonce together are the write set of one accepted ballot |
| `Brain.Context.RecordLocked` | src/libballotbrain/handlers.c:165-287 | read, check and write inside one transaction: recorded in its view, or refused for a reason that holds there |
| `Brain.Context.RecordBallot` | src/libballotbrain/handlers.c:297-340 | for any statement outcomes: the whole write set once or not at all, OK implies applied, applied without OK only if the last exchange got through and its reply was lost, no transaction is open on return; the retry code escapes if and only if three attempts were each answered with the retry marker for a deadlock of its own; with every owner’s receipt stored it fails only if an exchange broke |
| `Brain.DeadlocksBound` | src/libballotbrain/handlers.c:297-340 | the retry markers met are no more than the deadlocks among the exchanges, so with fewer than three the code does not escape |
| `Brain.Context.TransitionState` | src/libballotbrain/lifecycle.c:21-55 | the state moves along one legal edge of the loaded election or stays, and without success only if the last reply was lost; every status but a store failure is the one the tables call for |
| `Brain.Context.AllocId` | src/libballotbrain/ballotbrain.c:53-88 | E-100 in an empty table or one of negative numbers only; else one past the largest number, wrapping after INT_MAX; E-100 without an answer, and then only if an exchange was not clean |
| `Brain.Context.CreateElection` | src/libballotbrain/handlers.c:36-73 | a valid configuration under the operator’s id if that is free, or under the allocated one, which is the first number only if an exchange was not clean; every other status is the one the configuration and the tables call for, and leaves the tables alone unless the last reply was lost |
| `Brain.Context.Join` | src/libballotbrain/handlers.c:91-159 | admission reports the stored ballot and version of the voter, and a refusal reports none; every status but a store failure is the one the tables call for |
| `Brain.Context.FetchResults` | src/libballotbrain/handlers.c:357-391 | tally and rows read belong to the stored election |
| `Brain.Context.GetResults` | src/libballotbrain/handlers.c:393-438 | results only of a published election, to an eligible voter or the admin; every refusal is the one the tables call for |
| `Brain.Context.LookupHash` | src/libballotbrain/handlers.c:459-502 | a live row with that hash and the name of its option, or the certainty that none is live |
| `Brain.Context.Dispatch` | src/ballotd/dispatch.c:13-120 | every request is one of the steps the refinement is proved for, with its ruling, its refusals and what it answers; the store moves without success only if the last exchange got through and its reply was lost; a request that can be served goes unanswered, or falls back to the first number, only if an exchange was not clean |
| `Refinement.LegalEdges` | src/libballotbrain/lifecycle.c:11-19 | a transition is legal if and only if it goes to the next of the four stages |
| `Refinement.ConfigMeans` | src/libballotbrain/config.c:14-28 | a configuration is accepted if and only if it has a title, two options at least and closes after it opens, in the order of the first differing character or of a proper prefix; otherwise the first of these that fails names the refusal |
| `BallotTally.BallotLands` | src/libballotbrain/handlers.c:252-280 | one ballot’s writes turn the rows of a vote log into those of the log with the vote appended if and only if the superseded hash is carried by exactly one row |
| `BallotTally.FreshKeepsUnique` | src/libballotbrain/crypto.c:58-70 | a receipt that is new in its election keeps all receipts of the election distinct |
| `BallotTally.TallyExact` | src/libballotbrain/db.c:520-555 | the live rows for an option are as many as the voters whose last ballot chose it |
| `BallotTally.HashListExact` | src/libballotbrain/db.c:557-596 | the live rows of an election are as many as its voters with a ballot |
| `BallotTally.TallySums` | src/libballotbrain/handlers.c:357-391 | the tallies add up to the voters whose last ballot names an option |
| `Refinement.BallotStep` | src/libballotbrain/handlers.c:165-287 | an accepted ballot is a vote appended to the log that the log’s own verdict accepts too, and the owner and nonce rows follow, whatever its receipt |
| `Refinement.BallotPictured` | src/libballotbrain/handlers.c:252-280 | the ballot rows follow the log if and only if the superseded receipt was on one ballot and is not issued again; otherwise a ballot has lost its row |
| `Refinement.CreateStep` | src/libballotbrain/handlers.c:36-73 | a creation under a free id adds an election that was not there, with its options and voters |
| `Refinement.ChosenIsNew` | src/libballotbrain/handlers.c:36-73 | the id a creation settles on is free if and only if the operator chose it, or E-100 is free when the store did not answer, or the wrapped id is free when the largest number is in use |
| `Refinement.TakenBreaks` | src/libballotbrain/handlers.c:36-73 | a creation under a taken id leaves two rows for one election, which is the picture of no world |
| `Refinement.AdvanceStep` | src/libballotbrain/lifecycle.c:21-55 | a transition moves that election’s state and nothing else |
| `Refinement.EnterStep` | src/libballotbrain/handlers.c:91-159 | the version reported on joining is the number of the voter’s accepted ballots |
| `Refinement.RowsPublished` | src/libballotbrain/db.c:557-596 | the 64-row bound never cuts the published rows |
| `Refinement.ResultsStep` | src/libballotbrain/handlers.c:357-438 | the results read are the count over the vote log: tally, rows, their sum and the eligible bound |
| `Refinement.CheckStep` | src/libballotbrain/handlers.c:459-502 | a receipt is found exactly when some live vote carries it, with the name of that vote’s option |
| `Refinement.StepRefines` | src/ballotd/dispatch.c:13-120 | every dispatched request on a store that pictures a world is one step of that world, with the status the world rules, and the new store pictures the next world if and only if no more than one ballot was superseded |
| `Refinement.StepTracks` | src/ballotd/dispatch.c:13-120 | whatever receipts were issued, every dispatched request under a free id is one step of the world: elections, rulings, versions and the log follow |
| `Runs.Serve` | src/ballotd/main.c:340-396 | whatever is asked and whatever fails, the loop over requests produces a run; if all exchanges were clean no number fell back and every request that can be served was answered |
| `Runs.RunTracks` | src/ballotd/main.c:376-389 | every run from an empty store in which allocated ids were free is a run of the plain world but for what is read off the ballot rows; no receipt need be new |
| `Runs.RunRefines` | src/ballotd/main.c:376-389 | every run from an empty store in which allocated ids were free and no ballot superseded more than one is a run of the plain world: its rulings, its log, its tallies and its receipts |
| `Runs.RowsExactly` | src/libballotbrain/handlers.c:252-280 | in every such run each store has a ballot row for each nonce if and only if no ballot recorded superseded more than one |
| `Runs.RunDistinct` | src/libballotbrain/crypto.c:58-70 | with new receipts throughout, no two ballots of an election ever share a receipt, and the run is a run of the plain world |
| `Service.AlwaysBacked` | src/libballotbrain/db.c:445-486 | in every run every owner row’s receipt is on some ballot row, shared or not, so an update always finds what it supersedes |
| `Service.AnsweredNumbers` | src/libballotbrain/ballotbrain.c:53-88 | with every number allocated from an answer and below the largest, every allocated id of the run was free |
| `Service.CleanRun` | src/ballotd/main.c:376-389 | a run served throughout, as one is when all exchanges were clean, answers every request but a lookup with the status the plain world rules, whatever receipts were issued |
| `Service.CleanLookup` | src/ballotd/main.c:376-389 | and lookups too if no ballot superseded more than one |
| `Runs.StepLater` | src/libballotbrain/lifecycle.c:11-55 | one request moves one state by at most one edge and records at most one ballot, of an open election |
| `Runs.RunLater` | src/libballotbrain/handlers.c:173-181 | over any stretch of a run states only advance, settings stay, and ballots are added only while an election is not closed |
| `Outcomes.NoncesOnce` | src/libballotbrain/handlers.c:204-217 | in every run each nonce of an election is stored at most once; nothing is assumed of receipts or numbers |
| `Outcomes.ReplayRefused` | src/libballotbrain/handlers.c:204-217 | in every run a nonce belongs to at most one accepted ballot of an election, whichever voter sends it again |
| `Outcomes.ChangedWhileOpen` | src/libballotbrain/handlers.c:173-181 | one request changes the ballot, owner or nonce rows of an election only if it submits a ballot there while the row says OPEN |
| `Outcomes.RowsFrozen` | src/libballotbrain/handlers.c:173-181 | once an election is closed its ballot, owner and nonce rows never change again, whatever receipts were issued |
| `Outcomes.OneRowExactly` | src/libballotbrain/ballotbrain.c:53-88 | every store of a run has one row for each election if and only if every allocated id was free |
| `Outcomes.StatesAdvance` | src/libballotbrain/lifecycle.c:11-55 | from any store of a run to any later one an election keeps its row and settings and its state only advances, whatever receipts were issued |
| `FinalResults.LiveWithinEligible` | src/libballotbrain/db.c:445-518 | in every store of every run an election has no more live ballot rows than owner rows and no more of these than eligible rows, whatever receipts were issued |
| `FinalResults.NeverOvercounted` | src/libballotbrain/db.c:557-596 | live rows are at most the voters with a ballot, and these at most the eligible ones, so the 64-row list is never cut |
| `FinalResults.OwnersReached` | src/libballotbrain/db.c:499-518 | as many owner rows with version k or more as voters with k ballots or more |
| `FinalResults.ResultsAgree` | src/libballotbrain/handlers.c:393-438 | any two successful results answers of a run for one election agree on title, options, tally and rows, whatever receipts were issued |
| `Independence.StepSeen` | src/ballotd/dispatch.c:13-120 | every request is, to one election, a request on the rows of that election alone, or leaves them alone |
| `Independence.RunOfOne` | src/ballotd/main.c:376-389 | to one election every run is a run on its rows alone, whose ids were free if its own was |
| `Independence.ResultsAgreeOne` | src/libballotbrain/handlers.c:393-438 | two successful results answers for an election agree if its own id was free, whatever became of other elections |
| `Independence.StatesAdvanceOne` | src/libballotbrain/lifecycle.c:11-55 | an election whose own id was free keeps one row, its settings, and a state that only advances |
| `Independence.RowsFrozenOne` | src/libballotbrain/handlers.c:173-181 | once closed, the rows of an election whose own id was free never change again |
| `Independence.RunOfOneRefines` | src/ballotd/main.c:376-389 | an election whose own id was free and whose own ballots superseded one at most is a plain world of its own: ruled, recorded, counted and searched as its own log says |
| `Reachable.ReceiptLookup` | src/libballotbrain/handlers.c:459-502 | a receipt is found, with the option voted for and its name, until the voter’s next ballot, and never after it |
| `Reachable.ReceiptAnswered` | src/libballotbrain/handlers.c:459-502 | the same in terms of requests: a lookup succeeds if and only if no later ballot of the voter was accepted in between |
| `Reachable.VersionsRunUp` | src/libballotbrain/handlers.c:219-232 | a voter’s ballots carry versions 1 to v and only v is live |
| `Reachable.VersionAt` | src/libballotbrain/handlers.c:219-232 | every version from 1 to the count belongs to exactly one ballot of the voter |
| `Reachable.VersionRows` | src/libballotbrain/handlers.c:219-232 | on the tables: as many ballot rows of version k as owners whose version is k or more, and none below 1 |
| `Reachable.OwnersMatchLive` | src/libballotbrain/db.c:445-518 | owner rows and live ballot rows match one to one: one owner row for each voter and for each receipt, one live row with its receipt and version, and no live row without an owner |
| `Reachable.NoncesMatchBallots` | src/libballotbrain/db.c:476-497 | as many nonce rows as ballot rows in every election, and nonce rows single if and only if the log repeats no nonce |
| `Reachable.ReachableRows` | src/libballotbrain/db.c:476-518 | in every store of a run in which no ballot superseded more than one: versions run from 1 without a gap and nonces match ballots |
| `Reachable.ReachableOwners` | src/libballotbrain/db.c:445-518 | in every store of a run with new receipts the owner rows match the live rows one to one with their versions |
| `ElectionId.NumberOfAllocated` | src/libballotbrain/db.c:119-126 | an allocated id is filed under its own number |
| `ElectionId.IdNumberMeans` | src/libballotbrain/db.c:119-126 | every id: the number is the decimal numeral after the last dash, white space and a plus sign allowed, clamped to a long and cut to 32 bits; 0 if what follows is no numeral or there is no dash |
| `ElectionId.AllocatedOverRows` | src/libballotbrain/ballotbrain.c:53-88 | the id after reading max(seq): E-100 in an empty table, else E- and one past the largest number, wrapping after INT_MAX |
| `ElectionId.AllocatedIsNew` | src/libballotbrain/ballotbrain.c:53-88 | below INT_MAX an allocated id is absent from the table, for any mix of chosen and allocated ids |
| `ElectionId.AllocatedFree` | src/libballotbrain/ballotbrain.c:53-88 | an id allocated from an answer is free if and only if the largest number is not in use or the id its 32-bit successor wraps to is free |
| `ElectionId.FallbackMayCollide` | src/libballotbrain/ballotbrain.c:53-88 | without an answer the allocated id may be taken: a concrete table |
| `Receipts.SameReceipt` | src/libballotbrain/crypto.c:18-34 | two different nonces share a receipt at every version |
| `Receipts.LowBitsDecide` | src/libballotbrain/crypto.c:18-26 | two seeds that agree in their low 20 bits give the same 64 digits, so there are at most 2^20 receipts |
| `Receipts.SeedMeans` | src/libballotbrain/crypto.c:58-64 | seed and nonce give back the version’s share: the exclusive or undoes itself |
| `Receipts.KnownReceipt` | src/libballotbrain/crypto.c:18-34 | the first digits of one receipt, worked out |
| `Receipts.SharedReceiptLosesVote` | src/libballotbrain/db.c:445-486 | with a shared receipt another voter’s update removes a voter from the tally |
| `Receipts.CollisionLosesVote` | src/libballotbrain/crypto.c:18-70 | the receipts of the code do so: in an open election with two votes a third ballot is accepted, and the second voter is lost from the tally |
| `Voter.VoterSession.Join` | src/libballotclient/voter.c:69-126 | the outcome is the one the daemon’s world rules for that voter, or a timeout, which a lost message always is and a complete round trip only if an exchange was not clean; admission takes over the store’s version exactly; a refusal keeps the session, except that a closed or unopened election is remembered unjoined |
| `Voter.VoterSession.SubmitVote` | src/libballotclient/voter.c:128-172 | what is recorded, if anything, is a vote of this voter for this option with this nonce, under the receipt kept; the status is the one the daemon’s world rules, NotJoined or BadOption without sending, or a failure, which a lost message always is; the local version moves exactly when the voter is told; a ballot lands untold only when the store or the reply failed after the request got through |
| `Voter.EncryptBallot` | src/libballotclient/voter_crypto.c:24-37 | the daemon opens the ballot to the option that was encrypted, with the voter and nonce it was made for |
| `Voter.EmptyBallot` | src/libballotbrain/crypto.c:48-56 | a ballot without a payload is ruled on and recorded as one for the first option |
| `Voter.NeverAhead` | src/libballotclient/voter.c:69-172 | through joins, submissions, lost replies and everybody else’s requests, the local version never exceeds the store’s and falls short by exactly the untold ballots |
| `Voter.NeverAheadOfRow` | src/libballotclient/voter.c:69-172 | against the tables: the local version and the untold ballots add up to the version of the voter’s owner row |
| `Voter.RouteMatchesStore` | src/libballotclient/voter.c:15-23 | if since some admission no submission that got through was left unanswered and nobody else cast the voter’s ballot, the version is the store’s, and cast or update is routed as the store would |
| `Voter.InSyncExactly` | src/libballotclient/voter.c:69-172 | the version is the store’s if and only if since the admission every turn told the session of all the voter’s ballots that landed |
| `Voter.Do` | src/libballotclient/voter.c:69-172 | every join, submission or request of others against the daemon is a turn of a life, unless it is a creation whose allocated id may be taken |
| `Voter.Live` | src/libballotclient/voter.c:69-172 | any acts of a session, with any requests of others in between and whatever is lost, make a life whose worlds track the stores: all of them, or all before a creation whose allocated id may be taken |
| `Voter.OthersOnlyAdd` | src/libballotclient/voter.c:69-172 | nothing else makes the store’s count fall behind a session’s version |
| `Htttp.FindCrlf` | src/libhtttp/htttp.c:40-55 | the first CRLF at or after the offset, strictly both bytes |
| `Htttp.ParseUint` | src/libhtttp/htttp.c:81-105 | accepts exactly 1 to 32 digits whose value fits 32 bits, and returns that value |
| `Htttp.SameNameMeans` | src/libhtttp/htttp.c:16-35 | names match if and only if they differ in nothing but the case of ASCII letters |
| `Htttp.ParseTail` | src/libhtttp/htttp.c:113-190 | the in-place scan reads the header lines and checks the body against its length as the line-by-line reading does |
| `Htttp.ParseRequest` | src/libhtttp/htttp.c:195-242 | the in-place parser is the line-by-line reading of a request |
| `Htttp.ParseResponse` | src/libhtttp/htttp.c:245-290 | the in-place parser is the line-by-line reading of a response |
| `HtttpGrammar.BodyExactly` | src/libhtttp/htttp.c:161-190 | after the blank line exactly the declared number of bytes is the body: no length means no body, and any surplus or shortfall is refused |
| `HtttpGrammar.TailExactly` | src/libhtttp/htttp.c:113-190 | accepted if and only if the text is header lines, a blank line and the declared body, with the headers and body read |
| `HtttpGrammar.RequestExactly` | src/libhtttp/htttp.c:195-242 | a request is read from a text if and only if the text is its verb, path and version, up to 32 header lines, a blank line and all of its declared body |
| `HtttpGrammar.ResponseExactly` | src/libhtttp/htttp.c:245-290 | a response is read from a text if and only if the text is the version, its code from 100 to 599, any reason, up to 32 header lines, a blank line and all of its declared body |
| `HtttpWriter.Append` | src/libhtttp/htttp.c:318-332 | nothing is written unless everything fits |
| `HtttpWriter.ValidField` | src/libhtttp/htttp.c:299-314 | visible ASCII, and spaces where allowed |
| `HtttpWriter.EmitHeaders` | src/libhtttp/htttp.c:357-384 | the kept headers in order; which error, when they are illegal, too many or too long |
| `Htttp.KeptMeans` | src/libhtttp/htttp.c:357-384 | a caller’s header goes out unless it is a length, or in a response a date |
| `HtttpWriter.EmitBody` | src/libhtttp/htttp.c:388-408 | a length header only with a body, then the blank line and the body |
| `HtttpWriter.SerializeRequest` | src/libhtttp/htttp.c:413-459 | success exactly for legal requests that fit, with the wire text in the buffer |
| `HtttpWriter.SerializeResponse` | src/libhtttp/htttp.c:462-522 | success exactly for known statuses with legal headers that fit, with the wire text in the buffer |
| `Htttp.ReasonsDiffer` | src/libhtttp/htttp.c:570-600 | the eleven codes that can be sent, each under a reason of its own |
| `HtttpRoundTrip.LinesRead` | src/libhtttp/htttp.c:113-160 | a printed header block is read back whole, or refused when a key holds a colon or the table overflows |
| `HtttpRoundTrip.RequestRoundTrip` | src/libhtttp/htttp.c:113-242 | a serialized request is read back with its length header regenerated last if and only if every sent key is colon-free and at most 32 headers were sent; otherwise it is refused |
| `HtttpRoundTrip.ColonRefused` | src/libhtttp/htttp.c:299-314 | a concrete request the serializer lets out and the parser refuses |
| `HtttpRoundTrip.Forwarded` | src/libhtttp/htttp.c:195-242 | whatever was parsed and serializes again is read by the next peer as the same message |
| `HtttpRoundTrip.ResponseRoundTrip` | src/libhtttp/htttp.c:245-290 | a serialized response is read back with date first and length last if and only if keys are colon-free and generated headers still fit the limit |
| `CodecBody.BodyAppend` | src/libballotclient/codec.c:148-178 | a text with CR, or LF before its end, or without room, is refused |
| `CodecBody.BodyPairs` | src/libballotclient/codec.c:184-221 | the scan hands out one pair per line with a key, cut at 63 and 319 characters |
| `CodecBody.HexRoundTrip` | src/libballotclient/codec.c:111-144 | hex printed is read back |
| `CodecBody.EitherCase` | src/libballotclient/codec.c:122-144 | hex is read in either case |
| `CodecBody.OddUnreadable` | src/libballotclient/codec.c:129-144 | odd hex is never read, and a read is half as long |
| `CodecBody.HexEncode` | src/libballotclient/codec.c:111-121 | two digits per byte, or refused without room for the terminator |
| `CodecBody.HexDecode` | src/libballotclient/codec.c:129-144 | the bytes read, or a failure; either way the buffer holds what was written before the first pair that is not hex, and behind it what it held |
| `CodecBody.FieldsRead` | src/libballotclient/codec.c:184-221 | a written body is read back line for line |
| `RequestCodec.BodyFits` | src/libballotclient/codec.c:290-327 | no in-bounds request outgrows the 8192-byte body |
| `RequestCodec.EncodeRequest` | src/libballotclient/codec.c:286-359 | success exactly when no field breaks its line, path and caller name are legal and the output fits |
| `RequestCodec.DecodeRequest` | src/libballotclient/codec.c:361-410 | the callbacks run over the lines make exactly the decoded request, an unreadable payload overwriting the bytes of an earlier one |
| `RequestCodec.DecodedFields` | src/libballotclient/codec.c:361-410 | whatever lines a body holds, a decoded request fills only the fields its op uses |
| `RequestCodec.DecodedLines` | src/libballotclient/codec.c:266-284 | a ballot is decoded only with a readable payload, a receipt check only with a hash |
| `RequestCodec.PathIdMeans` | src/libballotclient/codec.c:222-233 | the id of a path: its part behind /election/ up to the next slash, cut to 15 characters; none if that is empty or the path is another |
| `RequestCodec.BallotMessage` | src/libballotclient/codec.c:318-327 | the path and body text of every ballot message |
| `RequestCodec.CheckMessage` | src/libballotclient/codec.c:329-336 | the path and body text of every receipt check |
| `RequestCodec.RequestArrives` | src/libballotclient/codec.c:286-410 | what the daemon decodes from every encodable request: the same request if and only if its id is non-empty without a slash, its payload has at most 159 bytes and its hash is non-empty where used; a longer payload is rejected, never shortened |
| `WireNumbers.IntReads` | src/libballotclient/codec.c:598-646 | a printed int is read back whole before anything but a digit |
| `WireNumbers.CsvReads` | src/libballotclient/codec.c:615-623 | a printed tally list is read back |
| `WireNumbers.RowReads` | src/libballotclient/codec.c:626-639 | a printed ballot row is scanned back if and only if its hash is non-empty without a comma |
| `WireNumbers.LongHashLost` | src/libballotclient/codec.c:626-639 | a row whose hash is empty or too long is dropped |
| `WireNumbers.BrokenRowLost` | src/libballotclient/codec.c:626-639 | a row with a number missing, or running into anything but a comma, is dropped |
| `ResponseCodec.ResponseFits` | src/libballotclient/codec.c:460-569 | every in-bounds response fits the 8192-byte body whatever its integers |
| `ResponseCodec.DecodeBounds` | src/libballotclient/codec.c:648-676 | every byte sequence decodes to counts within the arrays, and no more hashes than rows arrived |
| `ResponseCodec.CountsCut` | src/libballotclient/codec.c:671-674 | a claimed count stands unless it exceeds what came, and then is the number that came |
| `ResponseCodec.StatusNeeded` | src/libballotclient/codec.c:648-676 | a decoded status was named in the body; without a known one the response is refused |
| `ResponseWire.EncodeResponse` | src/libballotclient/codec.c:460-569 | success exactly for named results whose fields keep to their lines and that fit; the retry code is never sent |
| `ResponseWire.DecodeResponse` | src/libballotclient/codec.c:648-676 | the callback run over the lines, then the clamping |
| `ResponseWire.StatusClass` | src/libballotclient/codec.c:414-447 | the HTTTP code of every result by its class: success, fault of the message, of the caller, missing, wrong moment, or the daemon’s own |
| `ResponseWire.ResponseArrives` | src/libballotclient/codec.c:460-676 | the client decodes the response sent if and only if every published hash is non-empty without a comma |
| `Token.Mint` | src/libtetrisauth/lib/token.c:61-106 | success exactly for a legal name, a secret of 32 bytes or more and room; every minted token is under 256 bytes |
| `Token.NameCharMeans` | src/libtetrisauth/lib/token.c:24-36 | the characters a name may hold, listed |
| `Token.SplitToken` | src/libtetrisauth/lib/token.c:128-167 | exactly five lines, the last 64 characters wide |
| `Token.ParsePosLl` | src/libtetrisauth/lib/token.c:184-205 | accepts exactly the canonical decimals up to LLONG_MAX, each of which prints back to itself |
| `Token.Verify` | src/libtetrisauth/lib/token.c:224-257 | accepts a string with claims c at a time if and only if c is legal, unexpired and the string is what minting c gives; an expired genuine token is told apart |
| `Token.OnlyTheseClaims` | src/libtetrisauth/lib/token.c:128-222 | no token is minted for two different claims |
| `Token.NegativeNeverVerifies` | src/libtetrisauth/lib/token.c:49-59 | a token minted with a negative number verifies for no claims |
| `LogSender.Sender.Enter` | src/libtetrisutil/logmsg.c:166-183 | no waiting: the lock or the way to a drop |
| `LogSender.Sender.CountDrop` | src/libtetrisutil/logmsg.c:156-158 | the lifetime count moves first, the drop is caught between the counters |
| `LogSender.Sender.CompareExchange` | src/libtetrisutil/logmsg.c:159-163 | a drop is counted or tried again, and given up only when the counter is full |
| `LogSender.Sender.LoadReport` | src/libtetrisutil/logmsg.c:185-191 | the report is what is unreported now |
| `LogSender.Sender.Send` | src/libtetrisutil/logmsg.c:193-213 | a delivered record carries its report; a failed one becomes a drop |
| `LogSender.Sender.Subtract` | src/libtetrisutil/logmsg.c:195-200 | the subtraction never underflows |
| `LogSender.Sender.Run` | src/libtetrisutil/logmsg.c:156-214 | for any interleaving below saturation: drops are on delivered records, unreported, or caught between the counters; exactly the first two whenever no thread is inside |
| `StatementQueue.Queue.Submit` | src/libtetrisdb/pipe/queue.c:155-185 | accepted at the end of the queue, or counted as dropped; never waiting |
| `StatementQueue.Queue.Dequeue` | src/libtetrisdb/pipe/queue.c:30-45 | the oldest statement, or the exit only when stopping and empty |
| `StatementQueue.Queue.Attempt` | src/libtetrisdb/pipe/queue.c:47-90 | each statement ends as done, rejected or dropped, after at most four executions |
| `StatementQueue.Queue.Stop` | src/libtetrisdb/pipe/queue.c:207-246 | whatever the child does and whatever is still submitted meanwhile, every accepted statement is finished in order, the drain finds nothing, and submissions are succeeded, errors or dropped |
| `StatementQueue.Queue.Run` | src/libtetrisdb/pipe/queue.c:30-185 | for any interleaving: conservation, first in first out, nothing accepted after a stop or a dead child, and once the worker has exited everything accepted is finished and every submission accounted for |
| `LineProtocol.Reader.ReadLine` | src/libtetrisdb/wire.c:70-118 | the first line of the byte stream, its excess discarded, however the bytes were split into reads |
| `LineProtocol.Reader.Response` | src/libtetrisdb/wire.c:155-185 | the response at the front of the byte stream, and exactly the bytes behind it left |
| `LineProtocol.ReadTwice` | src/libtetrisdb/wire.c:155-185 | two readers of the same bytes in different pieces get the same response |
| `LineProtocol.OwnMarker` | src/libtetrisdb/wire.c:155-185 | a response ends at its own marker, with the outcome it reports, if and only if no line above starts like one |
| `LineProtocol.Paired` | src/libtetrisdb/wire.c:155-185 | statement k is answered by reply k, with the outcome that reply’s marker reports |
| `LineProtocol.ReportsRead` | src/libtetrisdb/wire.c:144-152 | a marker line is classified as an outcome if and only if it is the runner’s print of that outcome, anything else being an error |
| `LineProtocol.OutcomeArrives` | db/src/java/simpledb/StatementSession.java:28-38 | whatever outcome the runner prints behind lines that do not look like markers is the outcome the client gets |
| `LineProtocol.BodyIs` | src/libtetrisdb/wire.c:175-183 | a body is the text of its lines, less empty ones it starts with, cut to the buffer |
| `RowReader.RowsBegin` | src/libtetrisdb/socket/rows.c:36-49 | the line under the first rule, never the first line |
| `RowReader.BlockCount` | src/libtetrisdb/socket/rows.c:52-83 | the rows above the blank line, if the trailer under it agrees |
| `RowReader.CountRows` | src/libtetrisdb/socket/rows.c:85-90 | the pointer walk counts what the lines say |
| `RowReader.RowFields` | src/libtetrisdb/socket/rows.c:92-132 | every field of the row as a slice inside the body, as many as fit the caller’s arrays |
| `RowReader.TableReads` | src/libtetrisdb/socket/rows.c:36-132 | for every printed table with no rule above its own: the number of rows if and only if no row is a single empty field, and then a row’s fields exactly if and only if none holds a tab |
| `StoredText.SafeTableReads` | src/libballotbrain/db.c:87-92 | a printed table of texts the store accepts, no row being one empty field, comes back row by row and field by field |

## Left out

- The user interfaces, the shell, the log daemon and the resource files: screens and utilities.
- Sockets, polling, processes, signals and the encrypted transport: only the outcomes they return are modelled, as parameters.
- SimpleDB's planner, operators, buffer pool and locks: a transaction is taken to be atomic and serialisable, and log writes to succeed. A commit may also be refused as a deadlock, which covers the retry branch of the caller.
- SQL text and quoting: statements are typed row operations.
- Truncated or unreadable select replies inside the store operations: replies there are complete or reported as failed.
- HMAC, ballot encryption and certificate checks: a function parameter, the placeholder of the source, and a non-empty name.
- The account store: the same begin, check, insert and commit in an easier form.
- Concurrent daemons on one store: requests are served one at a time, as the daemon's admin thread does.
- The clock: the response date is a parameter, receipt times are constant and not modelled.
- Null pointers and failed allocations, except the queue's failed copy.
- The hook run before a vote is submitted, and the option list a client session keeps.
- RowReader.TableReads: supposes that no line of dashes was printed above the table's own rule, and takes the announced row count without 32-bit overflow.
- HtttpWriter.SerializeRequest: which of several errors is reported is stated for requests that fit the buffer; a body pointer without a body is not modelled.
- CodecBody.BodyPairs: the pairs are collected in order and then handed to the callbacks, which only depend on them.
- ResponseWire.EncodeResponse: the tally line is written in one append instead of one per number; the text and the room it needs are the same.
- LogSender.Sender.Run: beyond 2^64 - 1 drops only the lock discipline and the absence of underflow are kept.
