# ForensicChain's evidence path, verified

ForensicChain takes in digital evidence, proves later that it has not changed,
and records who handled it. Four stores are involved: the collector's artifact
and outbox tables, the broker's queue and dead-letter queue, the custody table,
and the ledger with one hash chain per case. This project models the code that
moves between them and proves what it keeps, step by step and over whole runs.

`dafny verify dfyconfig.toml` checks everything.

| module | models |
|---|---|
| `Basics` | sorting by (time, id) and filtering, shared by the stores |
| `CanonicalJson` | `json.dumps(..., sort_keys=True)`, written out character by character |
| `JsonReader` | a reader for that text after RFC 8259, the order of its keys and its escapes |
| `HashChain`, `LedgerValidator` | the ledger's hashes, its rows, and the replay of a case |
| `Ledger` | requests and their hashed payloads, one append, histories of appends |
| `LedgerProtocol` | concurrent append transactions, one step per statement |
| `LedgerStore` | the ledger service as an object over its two tables |
| `Custody` | processing of one custody message, the timeline and its check |
| `OutboxWorker` | the outbox relay's cycle, its progress and its reordering |
| `Pipeline` | outbox, relay, broker and consumer together, with crashes and redelivery |
| `ConsumerService` | the custody consumer as an object |
| `Evidence` | uploads, verifications and report anchors against the ledger, interleaved |
| `CollectorService` | the collector's upload and verification handlers as an object |
| `ConcurrentLedger` | those handlers against the transactions of `LedgerProtocol`, statement by statement |
| `Whole` | the composition: from upload to custody |

Two styles meet here. What the source does by updating state is a class with
methods (`LedgerService`, `OutboxTable`, `Consumer`, `Collector`) or a method
with a loop, specified by functions of the tables. What many processes do at
once is a state machine over steps, and `Run` is any sequence of enabled steps.
The methods are tied to the machines: one pass of the consumer, one cycle of the
relay, one upload and one verification are runs (`PassIsRun`, `CycleIsRun`,
`UploadIsRun`, `VerificationIsRun`), so what holds of every run holds of them.
`RunRefines` ties the two ledgers: handlers interleaved with the single
statements of append transactions do nothing that they could not do if every
append were one step.

Texts are settled by `JsonReader`: what is hashed or sent is what a JSON reader
gives back, with the keys of every dictionary in ascending order.

SHA-256 (section 6.2 of FIPS 180-4) is any function to 64 hexadecimal
characters, and RSA signing (section 8.2 of RFC 8017) any pair of functions in
which a signature verifies its own hash. Where a result needs SHA-256 not to
collide, it assumes that only of the finite set of texts hashed in the chains it
speaks of (`CollisionFree`).

## What the proofs found

- **A custody timeline is not always valid.** An event links to the row that is
  newest by (timestamp, id) when it is consumed; the check sorts by the same key
  afterwards. The two agree exactly when an artifact's events were consumed in
  non-decreasing order of timestamp (`CustodyValidIff`); two messages can break it
  (`LateArrivalBreaks`), and a timeline that fails once fails for good
  (`BrokenForGood`). The reporter stamps whole seconds
  and the collector microseconds, so a report event made in the same second as
  the newest event breaks the timeline unless that event fell on the second
  itself (`ReportKeepsValid`).
- **The timeline check does not cover event contents.** The docstring of
  `compute_event_hash` says that later edits are detectable; `_validate_chain`
  compares links and never recomputes a hash. An edit of one event of a valid
  timeline goes unnoticed exactly when it keeps the link and, unless the event
  is the last, the stored hash (`EditNoticedIff`); a stored row may be rewritten
  in its actor, reason, payload and every other such column
  (`ContentEditUnnoticed`).
- **The ledger accepts a case exactly when the clock readings taken under its
  lock came in commit order** (`AcceptanceInAnyRun`), ties being decided by the
  random record id (`TieRejected`). A clock that always moves on keeps every case
  accepted (`ClockedRunAccepts`); one set back makes a case invalid for good
  (`RejectedForGood`), and artifacts in it are then judged LEDGER_CORRUPTED.
- **The validator strips the case id, the append does not** (`StripKeeps`). A
  case stored under a name with white space at either end is never the one
  replayed, and a blank name is always LEDGER_CORRUPTED (`Promised`,
  `HonestVerdicts`).
- **Cutting the newest rows off the ledger is not noticed by the replay**
  (`PrefixOfChain`), while removing any other row, or editing any payload, is
  (`DeletionDetected`, `PayloadEditDetected`).
- **The ledger's columns are not hashed.** The replay recomputes the hash of
  `raw_payload` only, while proofs are fetched from the columns beside it. A row
  rewritten in those columns leaves its case accepted (`ColumnEditUnnoticed`);
  what notices a rewritten signature is the signature check, exactly when the new
  text does not verify (`RewrittenProofJudged`).
- **Ten outbox rows that cannot be published block every newer row for ever**
  (`NeverPublished`, `PublishedIff`). The worker logs that it is giving up on
  a row after `MAX_RETRIES` attempts, but nothing takes the row out of the
  window of ten.
- **A ledger proof can exist without an ingestion** (`ProofWithoutIngestion`),
  and an artifact whose ingestion was committed and announced can still be marked
  INGESTION_FAILED (`IngestedIff`).

## Model

| member | source | states |
|---|---|---|
| CanonicalJson.DumpsIsCanonical | services/immutable-ledger/chain/hash_chain.py:5-11 | two payloads serialise to the same text if and only if they are equal in type and value, whatever order their keys were inserted in, at every depth |
| CanonicalJson.WriteUnique | services/immutable-ledger/chain/hash_chain.py:10 | unique readability: a serialised value followed by any text that may follow it can be read back in one way only, so nothing is lost by the encoding or its escapes |
| CanonicalJson.EscapeCharPrefixFree | services/immutable-ledger/chain/hash_chain.py:10 | no escape sequence of one character is a prefix of another's, surrogate pairs included |
| CanonicalJson.NormalMeaning | services/immutable-ledger/chain/hash_chain.py:10 | sorting the keys at every level keeps the value |
| CanonicalJson.FieldTellsApart | services/immutable-ledger/servicer.py:86-120 | dictionaries that differ in one field never serialise equally |
| JsonReader.ReadsBack | services/immutable-ledger/chain/hash_chain.py:10 | a reader written after the grammar of RFC 8259 gives every value back from its text, digits, escapes and surrogate pairs included, and stops where the text ends |
| JsonReader.DumpsReadsBack | services/immutable-ledger/chain/hash_chain.py:10 | what is hashed for a payload reads back as a value of the same meaning |
| JsonReader.LessIsFirstDifference | services/immutable-ledger/chain/hash_chain.py:10 | one key comes before another exactly when they agree up to a place at which the one ends or has the smaller code point |
| JsonReader.NormalAscends | services/immutable-ledger/chain/hash_chain.py:10 | in the text that is hashed the keys of every dictionary, at every depth, stand in strictly ascending order of code points |
| JsonReader.OthersAreUnits | services/immutable-ledger/chain/hash_chain.py:10 | every other character that is not printable ASCII is written as one code unit or a surrogate pair, in lower-case hexadecimal digits |
| JsonReader.SampleText | services/immutable-ledger/chain/hash_chain.py:10 | the text of one nested dictionary given out of order, character by character |
| HashChain.LinkTextInjective | services/immutable-ledger/chain/hash_chain.py:13-24 | the text hashed for a record determines payload hash and predecessor, because digests have a fixed length and the genesis suffix another |
| HashChain.LinkTextParts | services/immutable-ledger/chain/hash_chain.py:19-24 | for digests the text is the 64 characters of the payload hash and then the predecessor, or GENESIS without one |
| HashChain.HashCommitsToHistory | services/immutable-ledger/chain/hash_chain.py:13-32 | in two chains, equal record hashes stand at equal depth over the same serialised payloads and the same earlier hashes |
| HashChain.RecordHashesDistinct | services/immutable-ledger/chain/hash_chain.py:19-24 | no cycle: two rows of a chain have the same record hash only if they are the same row |
| HashChain.PredecessorsDistinct | services/immutable-ledger/servicer.py:30-33 | no fork: two rows of a chain have the same predecessor only if they are the same row |
| LedgerValidator.ReplayChain | services/immutable-ledger/servicer.py:179-216 | the count reported is the length of the longest well-formed prefix, the verdict holds exactly when that is the whole list, and a failure names the first bad row and the first of the three tests it fails |
| LedgerValidator.LongestChainUnique | services/immutable-ledger/servicer.py:179-216 | that count is determined by the rows |
| LedgerValidator.PrefixOfChain | services/immutable-ledger/servicer.py:179-216 | every prefix of an accepted list is accepted in full |
| LedgerValidator.PayloadEditDetected | services/immutable-ledger/servicer.py:190-197 | an accepted list with the payload of row i changed is rejected with exactly i rows checked |
| LedgerValidator.DeletionDetected | services/immutable-ledger/servicer.py:182-188 | an accepted list with row i, not the last, removed is rejected with exactly i rows checked |
| LedgerValidator.MemberOrderIrrelevant | services/immutable-ledger/servicer.py:190-197 | a payload read back from the database with its keys in another order changes the outcome at no row |
| LedgerValidator.HeadCommitsToPayloads | services/immutable-ledger/servicer.py:179-216 | two accepted lists end in the same hash if and only if they have the same length and equal payloads at every position |
| LedgerValidator.OneOrderAccepted | services/immutable-ledger/servicer.py:171-188 | of all orders of a chain's rows only one is accepted |
| LedgerValidator.StripKeeps | services/immutable-ledger/servicer.py:163 | a case id is looked up under its own name if and only if it is empty or has no white space at either end |
| LedgerValidator.StripIsMiddle | services/immutable-ledger/servicer.py:163 | the stripped id is the part of the id between white space at both ends, and has none at its own |
| Ledger.PayloadFields | services/immutable-ledger/servicer.py:85-120 | the hashed payload of a proof or a verification carries every field of the request under its own key, and only a proof has a hash value |
| Ledger.ReplayColumns | services/immutable-ledger/servicer.py:37-54 | in every history of appends each column of a row, the two algorithms and the signer included, says what its hashed payload says under the same name, and a verification has none of the five columns of a proof |
| Ledger.ProofIsNoVerification | services/immutable-ledger/servicer.py:85-120 | a proof and a verification never hash the same text |
| Ledger.AppendConsistent | services/immutable-ledger/servicer.py:21-62 | an append keeps every case's rows one chain in commit order with the state row at its end |
| Ledger.ReplayConsistent | services/immutable-ledger/servicer.py:21-62 | so does every history of appends from the empty ledger |
| Ledger.AppendToCase | services/immutable-ledger/servicer.py:21-62 | an append adds one row to the end of its own case and changes no other case |
| Ledger.AcceptedIffStampedInOrder | services/immutable-ledger/servicer.py:171-216 | the validator accepts a case if and only if sorting by (created_at, record_id) gives back the commit order |
| Ledger.StampedInOrderAccepted | services/immutable-ledger/servicer.py:171-216 | acceptance of rows stamped in order needs no assumption about the hash |
| Ledger.LaterClockKeepsOrder | services/immutable-ledger/servicer.py:33-35 | a clock that has moved on since the case's last rows keeps every case in order |
| Ledger.OutOfOrderForGood | services/immutable-ledger/servicer.py:33-35 | a tie with a smaller record id, or a clock set back, puts a case out of order, and one more append never repairs it |
| Ledger.TieRejected | services/immutable-ledger/servicer.py:33-35 | two appends to a new case at the same clock reading, the second with the smaller record id, are rejected, whatever the hash function |
| Ledger.ColumnEditUnnoticed | services/immutable-ledger/servicer.py:179-216 | a row rewritten in any columns but its case, id, clock reading, payload and three hashes leaves its case accepted if and only if it was accepted before |
| LedgerProtocol.RunIsSerial | services/immutable-ledger/servicer.py:18-83 | for every interleaving of append transactions and rollbacks, the committed tables are those of the committed appends run one at a time in commit order |
| LedgerProtocol.LockInvariantKept | services/immutable-ledger/servicer.py:21-33 | every statement keeps: a transaction past its lock holds it alone, has read the head that is still current, and has staged the row that head calls for |
| LedgerProtocol.CommitIsAppend | services/immutable-ledger/servicer.py:36-62 | a commit has the effect of one serial append; no other step, a rollback included, changes committed data |
| LedgerProtocol.NoForkInAnyRun | services/immutable-ledger/servicer.py:18-83 | under any concurrency a case's rows form one chain in commit order, the head is the last row's hash (or there is neither), and no two rows share a predecessor |
| LedgerProtocol.ColumnsInAnyRun | services/immutable-ledger/servicer.py:37-54 | under any concurrency the columns of every committed row agree with its hashed payload |
| LedgerProtocol.AcceptanceInAnyRun | services/immutable-ledger/servicer.py:162-216 | under any concurrency the validator accepts a case if and only if its clock readings came in commit order |
| LedgerProtocol.RejectedForGood | services/immutable-ledger/servicer.py:162-216 | under any concurrency, a case that is rejected in one state is rejected in every later state of every run |
| LedgerProtocol.ClockedRunAccepts | services/immutable-ledger/servicer.py:21-35 | when each clock reading under a case's lock is later than the case's rows, every case is accepted in every state of every interleaving and never has fewer rows checked than before, with no assumption about the hash |
| LedgerProtocol.CasesDoNotInterfere | services/immutable-ledger/servicer.py:21-62 | a step of one case's transaction leaves the rows and head of every other case alone; a case's rows only grow at the end |
| LedgerProtocol.NeverStuck | services/immutable-ledger/servicer.py:27-30 | no deadlock: in every reachable state a waiting transaction waits for one that can take its next step |
| LedgerStore.LedgerService.AppendRecord | services/immutable-ledger/servicer.py:18-83 | an append takes effect as one serial append exactly when the record id is new and the commit takes effect, and otherwise leaves no trace; the caller is told of success, with the stored hashes, exactly when it took effect and nothing raised |
| LedgerStore.LedgerService.ValidateLedgerChain | services/immutable-ledger/servicer.py:162-222 | the answer is valid exactly when the stripped id is not blank, nothing raises and the case's rows in (created_at, record_id) order form a chain; then all rows of the case were checked |
| LedgerStore.LedgerService.GetProofByArtifactId | services/immutable-ledger/servicer.py:129-155 | there is an answer exactly when the artifact has a proof, and it is one with the latest created_at |
| Custody.MakeEventSound | services/chain-of-custody/consumer.py:43-78 | the content hashed for an event agrees with its columns in each of the twelve fields, predecessor and payload included, and its hash is that content's |
| Custody.ContentFields | services/chain-of-custody/chain/custody_chain.py:20-54 | the hashed content has exactly twelve keys; under each literal key is the message's own value or null, the address is the payload's, and under previous_event_hash is the predecessor's hash or null |
| Custody.EventColumns | services/chain-of-custody/consumer.py:61-78 | each column of a recorded event, actor, case, reason, address and correlation included, is the message's own field, empty only where the message has none or null |
| Custody.SameTextIff | services/chain-of-custody/chain/custody_chain.py:5-17 | the same text is hashed for two messages if and only if they mean the same in every field and follow the same event |
| Custody.HashCommitsToEvent | services/chain-of-custody/chain/custody_chain.py:5-17 | unless their texts collide, two events with one hash have the same id, artifact, case, actor, type, reason, address, correlation and predecessor, and payloads of the same meaning |
| Custody.TimelineCommits | services/chain-of-custody/routers/custody.py:40-45 | two timelines that check and end in the same hash have the same length and say the same, event by event |
| Custody.TablesCommit | services/chain-of-custody/consumer.py:43-78 | the same of the timelines of any two custody tables, and then the artifact is the same |
| Custody.ProcessKeeps | services/chain-of-custody/consumer.py:26-80 | a consumed message keeps: no event twice, processed ids are exactly the ids of the events, each event linked to its artifact's latest when it was consumed |
| Custody.ProcessAppends | services/chain-of-custody/consumer.py:63-80 | a consumed message adds one event to its own artifact and none to any other |
| Custody.ValidateChain | services/chain-of-custody/routers/custody.py:40-45 | the check is true exactly when every event names the hash of the one before it and the first names none |
| Custody.EditNoticedIff | services/chain-of-custody/routers/custody.py:40-45 | replacing one event of a valid timeline leaves it valid if and only if the link is the same and, unless it is the last, the hash is |
| Custody.ContentEditUnnoticed | services/chain-of-custody/routers/custody.py:40-45 | rewriting any columns of a stored event but its id, artifact, timestamp and two hashes leaves the artifact's timeline valid |
| Custody.LatestIsLast | services/chain-of-custody/db/repository.py:13-21 | the hash a new event is linked to is that of the event which sorts last by (timestamp, id) |
| Custody.CustodyValidIff | services/chain-of-custody/routers/custody.py:40-45 | an artifact's timeline checks if and only if its events were consumed in non-decreasing order of timestamp |
| Custody.InvalidForGood | services/chain-of-custody/routers/custody.py:40-45 | a timeline that fails the check fails it whenever events have only been added since |
| Custody.NextEventKeepsValid | services/chain-of-custody/consumer.py:43-78 | one more event keeps a valid timeline valid if and only if it is not stamped before the newest event |
| Custody.ReportKeepsValid | services/audit-reporter/rabbitmq/publisher.py:36 | a report event, stamped in whole seconds, keeps it valid if and only if it falls in a later second or the newest event was stamped on the second itself |
| Custody.LateArrivalBreaks | services/chain-of-custody/db/repository.py:13-21 | two messages of a new artifact, the second stamped earlier, are both recorded and leave an invalid timeline, whatever the hash function |
| OutboxWorker.OutboxTable.PublishOutboxEvents | services/evidence-collector/worker.py:22-80 | a cycle appends to the exchange the payloads of the batch that reached it, in batch order, and commits for every row of the batch what AfterCycleColumns says; if the commit fails no row changes |
| OutboxWorker.OutboxTable.PublishEach | services/evidence-collector/worker.py:45-72 | the loop has that effect on rows and exchange for any batch without repeats |
| OutboxWorker.AfterCycleColumns | services/evidence-collector/worker.py:45-74 | after a committing cycle retry_count has risen by exactly one, and last_error is the row's own error, for rows of the batch that were not accepted and for no others; published and published_at are set, with the row's own clock reading, exactly for accepted rows of the batch; all else is unchanged |
| OutboxWorker.RetriesCounted | services/evidence-collector/worker.py:60-74 | over every run, a row's retry_count grows by exactly the number of cycles that took it without publishing it |
| OutboxWorker.PendingAfterCycle | services/evidence-collector/worker.py:45-74 | a committing cycle leaves waiting exactly the rows that waited before, less those of its batch that were published |
| OutboxWorker.PassedOver | services/evidence-collector/worker.py:30-43 | a cycle that does not take a waiting row takes ten other waiting rows, none of them newer |
| OutboxWorker.PublishedWithin | services/evidence-collector/worker.py:30-74 | over every run and every batch order, whatever arrives: if k < 10 of the rows not newer than a row can never be published, the row is published within n cycles once n * (10 - k) exceeds the number of the others not newer than it |
| OutboxWorker.NeverPublished | services/evidence-collector/worker.py:60-74 | with ten or more older rows that can never be published, a row is never published, over any run |
| OutboxWorker.PublishedIff | services/evidence-collector/worker.py:30-74 | if later rows are newer and no stuck row was created at the same instant, then after more cycles than there are publishable rows ahead a row is published if and only if fewer than ten stuck rows are older |
| OutboxWorker.BoundedDisorder | services/evidence-collector/worker.py:30-45 | over every run without failures, with rows arriving in order of created_at, a row leaves at most nine places before or after its turn by created_at, ties sharing a range of turns |
| OutboxWorker.TenApartInOrder | services/evidence-collector/worker.py:30-45 | in such a run, two rows that leave ten or more places apart leave in order of created_at |
| Pipeline.RunIsSafe | services/chain-of-custody/consumer.py:107-141 | every interleaving of collector commits, relay, broker and consumer steps, with crash, rollback, lost reply or redelivery between any two, keeps all invariants of the pipeline |
| Pipeline.SecuredAlways | services/evidence-collector/worker.py:45-78 | no loss and no double record in any reachable state: each committed event is unpublished, in the live queue, in custody or in the DLQ; custody holds it at most once; processed ids are the ids of the events; retry headers never exceed 3 and dead letters carry exactly 3 |
| Pipeline.RemovalKeepsSafe | services/chain-of-custody/consumer.py:115-141 | acknowledging or rejecting a message takes an event out of the queue only when it is held elsewhere |
| Pipeline.TimelineInAnyRun | services/chain-of-custody/routers/custody.py:40-45 | in any reachable state a timeline checks if and only if its events were consumed in order of time |
| Pipeline.BrokenForGood | services/chain-of-custody/routers/custody.py:40-45 | a timeline that fails the check in one reachable state fails it in every later state of every run |
| Pipeline.TimelinesOnlyGrow | services/chain-of-custody/db/repository.py:64-70 | a step appends to the events of at most one artifact and leaves the timeline of every other as it was |
| Pipeline.RunIsGenuine | services/chain-of-custody/consumer.py:34-78 | everything queued or recorded in custody was made from an envelope the collector or the reporter wrote |
| Pipeline.RecordedFaithfully | services/chain-of-custody/consumer.py:45-78 | the custody event with the id of an outbox row is made from that row's payload and no other |
| Pipeline.AttemptsBounded | services/chain-of-custody/consumer.py:107-145 | in every run without a consumer crash, for every single published message and its retry copies: it is delivered at most four times; while queued and not being handled, its header equals the number of deliveries, all of which failed; a dead letter has failed exactly four times; and whenever the consumer is idle it is in exactly one of queue, completed and DLQ, with the body it was published with |
| Pipeline.MessagesConserved | services/chain-of-custody/consumer.py:107-145 | in such a run, whenever the consumer is idle, queued, completed and dead-lettered messages add up to the published ones |
| Pipeline.CycleIsRun | services/evidence-collector/worker.py:22-80 | a whole cycle of the relay is a run of the pipeline with the effect on outbox and queue that the worker's method has |
| ConsumerService.Consumer.GetLastEventHash | services/chain-of-custody/db/repository.py:13-21 | none exactly when the artifact has no event, and otherwise the hash of an event of the artifact that none of its events comes after by (timestamp, id) |
| ConsumerService.Consumer.ProcessMessage | services/chain-of-custody/consumer.py:26-85 | a message is recorded exactly when it is readable, new and the commit takes effect; it raises exactly when it is malformed or the database fails; a duplicate writes nothing |
| ConsumerService.Consumer.ConsumeOne | services/chain-of-custody/consumer.py:108-145 | a pass removes the message; on failure it leaves one copy with the header raised by one if that was below 3 and otherwise moves it to the DLQ; a lost acknowledgement counts as a failure although the event is recorded |
| ConsumerService.PassIsRun | services/chain-of-custody/consumer.py:108-145 | such a pass is a run of the pipeline to the same tables and queues |
| ConsumerService.PassDecreases | services/chain-of-custody/consumer.py:109-145 | every pass of the loop strictly lowers the sum over the queue of four minus the header, whatever fails |
| ConsumerService.PassesEnd | services/chain-of-custody/consumer.py:108-145 | the loop ends: with nothing new published there are at most as many passes as that sum |
| Evidence.StepIsSafe | services/evidence-collector/routers/evidence.py:36-187 | every statement of every upload, verification, access, anchor and ledger commit, in any interleaving, keeps all invariants tying artifacts, events, calls and ledger rows together |
| Evidence.StepGrows | services/evidence-collector/routers/evidence.py:36-187 | no step takes back a ledger row, an event, a committed call, an artifact's content or the proof columns of a finished upload |
| Evidence.SagaConsistent | services/evidence-collector/routers/evidence.py:78-174 | at every point of every run each INGESTED artifact has an EvidenceIngested event, no artifact has two, and every such event names a committed proof whose hash and signature are the artifact's own |
| Evidence.IngestedIff | services/evidence-collector/routers/evidence.py:127-174 | an artifact is INGESTED if and only if its finalising commit took place and no later failure of the handler was written over it |
| Evidence.ProofWithoutIngestion | services/evidence-collector/routers/evidence.py:115-125 | for any upload there is a run that leaves its proof in the ledger, the artifact INGESTION_FAILED and no event: the collector gives up and the ledger commits afterwards |
| Evidence.ProofIsStable | services/immutable-ledger/servicer.py:129-155 | once a proof can be fetched it is the only row that can ever be fetched for its artifact, in every later state, and its columns and its hashed payload hold the digest and signature of the original |
| Evidence.VerdictExact | services/evidence-collector/routers/evidence.py:324-350 | in any reachable state: LEDGER_CORRUPTED exactly when the ledger does not report the case valid, never INVALID_SIGNATURE, and otherwise TAMPERED exactly when the file's digest is not the original's |
| Evidence.CheckedFits | services/evidence-collector/routers/evidence.py:342-350 | in any state, reachable or not, each of the four verdicts is given if and only if its own condition on the ledger's report, the check of the signature and the two digests holds, the most severe first |
| Evidence.RewrittenSignature | services/evidence-collector/routers/evidence.py:324-350 | if the stored signature of a proof is rewritten, the replay has the same outcome as before, and INVALID_SIGNATURE is the verdict exactly when the case is reported valid and the new text does not verify |
| Evidence.ReportedIff | services/immutable-ledger/servicer.py:162-216 | the ledger reports a case valid if and only if its name is not blank, the server does not fail and the rows under the stripped name were stamped in commit order |
| Evidence.HonestJudgements | services/evidence-collector/routers/evidence.py:342-350 | in every state of every run with an advancing ledger clock and no server error, a judged verification has the promised verdict on the file it was given |
| Evidence.HonestVerdicts | services/evidence-collector/routers/evidence.py:312-377 | in every such run a verification event says VALID for a file with the original's digest and TAMPERED for any other, with no other verdict unless the case id is blank |
| Evidence.IngestedGetsVerdict | services/evidence-collector/routers/evidence.py:312-377 | from every state of every such run, for every INGESTED artifact and every file, the run can go on to a verification event on that file, and it carries the promised verdict |
| Evidence.StartedGetsVerdict | services/evidence-collector/routers/evidence.py:312-377 | a verification under way can be carried on to the promised verdict from wherever it stands and whatever was appended meanwhile, once its artifact is INGESTED or it has fetched a proof |
| Evidence.IngestedHasProof | services/immutable-ledger/servicer.py:129-155 | in every reachable state an INGESTED artifact has a proof to fetch, and every proof that can be fetched for it has a hash and a signature |
| Evidence.VerificationTrace | services/evidence-collector/routers/evidence.py:352-377 | in every run a verification event is Passed if and only if its verdict is VALID, and a record id it names is a committed VERIFICATION_RESULT_RECORDED row in the artifact's own case, with the same artifact, verdict and both hashes |
| CollectorService.ReceiveFile | services/evidence-collector/routers/evidence.py:64-72 | reading in chunks of a mebibyte stores the body unchanged and counts its length |
| CollectorService.Collector.UploadEvidence | services/evidence-collector/routers/evidence.py:36-187 | for each point of failure, what artifacts (file_size included), outbox and ledger hold afterwards, also when the write of INGESTION_FAILED is itself lost; the caller is answered 201 exactly when the artifact ends INGESTED, save that a failure after the commit which cannot be written down leaves it INGESTED although the caller is told of an error; 503 exactly when signing or the append failed and that was written down; and 500 otherwise |
| CollectorService.Collector.RecordAndFinalise | services/evidence-collector/routers/evidence.py:115-174 | the ledger call, the finalising commit and each failure around them, with the columns, the event and the status code they leave |
| CollectorService.Collector.VerifyEvidence | services/evidence-collector/routers/evidence.py:249-395 | there is a verdict whenever the artifact exists, no call fails and the ledger has a proof whose columns hold hash and signature, and none if the artifact is missing or a call fails; it is judged on a latest proof and the ledger as it stood, whatever state that is in; VALID implies that the ledger reports the case valid and that a latest proof holds the file's digest with a signature that verifies it; the record is appended if the ledger commits, the event says whether that was known, and either event may be lost |
| CollectorService.Collector.JudgeAndRecord | services/evidence-collector/routers/evidence.py:337-377 | each of the four verdicts exactly under its own condition on the ledger's report, the signature check and the two hashes; the record and the event it leaves |
| CollectorService.RewrittenProofJudged | services/evidence-collector/routers/evidence.py:324-350 | in every reachable state, once a proof's stored signature is rewritten every verification of its artifact that reaches a verdict says INVALID_SIGNATURE if and only if the case is reported valid and the new text does not verify the original's digest |
| CollectorService.ProofPayload | services/evidence-collector/grpc_clients/ledger_client.py:19-41 | the hashed payload of an upload's proof, key by key, with its constant record type, algorithms and signer |
| CollectorService.ResultPayload | services/evidence-collector/grpc_clients/ledger_client.py:76-93 | the hashed payload of a verification record, key by key: case, verdict, both hashes, verifier and time |
| CollectorService.IngestedIsAnswered | services/evidence-collector/routers/evidence.py:312-350 | in every reachable state an INGESTED artifact meets what VerifyEvidence asks for, so it gets a verdict if no call fails |
| CollectorService.UploadIsRun | services/evidence-collector/routers/evidence.py:36-187 | every way an upload can go is a run of the interleaved machine between the same stores |
| CollectorService.VerificationIsRun | services/evidence-collector/routers/evidence.py:249-395 | so is every verification that reaches a verdict |
| ConcurrentLedger.StepRefines | services/immutable-ledger/servicer.py:18-83 | handlers and append transactions interleaved statement by statement: each statement amounts to one step or none of the machine in which an append is one step |
| ConcurrentLedger.RunRefines | services/immutable-ledger/servicer.py:18-83 | every such run is a run of that machine between the same artifacts, events, calls and ledger, so all that is proved of it holds here |
| ConcurrentLedger.VerdictsUnderConcurrency | services/evidence-collector/routers/evidence.py:312-377 | with a clock that moves on under each case's lock, over every interleaving of statements, a verification event says VALID for the original's digest and TAMPERED for any other unless the case id is blank |
| Whole.EnvelopeIsReadable | services/evidence-collector/routers/evidence.py:575-603 | every envelope the collector writes can be processed by the consumer, under the event's id and artifact and with its payload, as long as its timestamp parses |
| Whole.EnvelopeFields | services/evidence-collector/routers/evidence.py:575-592 | an envelope carries each of its fields under its own key; its type and routing key are those EnvelopeTypes fixes |
| Whole.EnvelopeTypes | services/evidence-collector/routers/evidence.py:26-30 | each kind of event has its own event_type and routing_key, with their texts: a verification is a VerificationPassed if and only if its verdict is VALID and otherwise a VerificationFailed, and so on for the other four |
| Whole.IngestedPayload | services/evidence-collector/routers/evidence.py:149-157 | the payload of an ingestion event, key by key |
| Whole.VerifiedPayload | services/evidence-collector/routers/evidence.py:586-592 | the payload of a verification event, key by key; it names a ledger record exactly when one was known to be committed, and otherwise has the empty text, which is no record's |
| Whole.RunIsSafe | services/evidence-collector/worker.py:22-80 | every run of collector, ledger, relay, broker and consumer together keeps the invariants of all of them, and the outbox rows match the collector's events one for one |
| Whole.IngestedIsAccountedFor | services/evidence-collector/routers/evidence.py:127-174 | from upload to custody, in every run: an INGESTED artifact has a committed proof named by its one EvidenceIngested event; that event is unpublished, queued, dead-lettered or recorded; it is recorded at most once, made from exactly the envelope in its outbox row, under its own artifact and hash, and naming that proof and no other ledger row |
| Whole.VerificationIsAccountedFor | services/evidence-collector/routers/evidence.py:352-377 | from verdict to custody, in every run: the event of a verification is unpublished, queued, dead-lettered or recorded, at most once; the custody row is made from exactly its envelope, is a VerificationPassed if and only if the verdict is VALID, has verdict and both digests, and names the committed ledger row that holds the same verdict and no other row, or none |
| Whole.CustodyTellsTheTruth | services/evidence-collector/routers/evidence.py:342-377 | with an advancing ledger clock and no server error, in every run: custody says that a verification passed if and only if the file had the digest of the stored original and the case id is not blank, and otherwise gives the verdict that applies |

## Left out

- Evidence.HonestVerdicts: assumes that the ledger's clock moves on between commits to a case and that validation does not fail on the server; without that, VerdictExact and ReportedIff say what happens.
- Pipeline.AttemptsBounded: covers runs without a consumer crash, because a crash redelivers without raising the header; the bound on the header itself holds in every run.
- OutboxWorker.PublishedWithin: every cycle commits, and a row is either always or never publishable.
- OutboxWorker.PublishedIff: leaves open what becomes of a row when stuck rows were created at its very instant, since either order of them is a correct answer to the query.
- Custody.ProcessAppends: a database failure in the middle of a message is a transaction that leaves no trace, not a sequence of half-done statements.
- CollectorService.Collector.UploadEvidence: files on disk, and their removal after a failure, are not modelled; the stored bytes are kept as the artifact's content.
- Reports: the audit reporter appears only as an appender of report proofs and as a publisher without an outbox; report files, their comparison and its endpoints are left out.
- One relay and one consumer process handling messages one at a time; several relays would share the table through SKIP LOCKED.
- The broker: exchanges, bindings and topology; a published message is in the custody queue, which may deliver in any order. gRPC appears only as replies that fail or are lost after the server committed.
- SHA-256, RSA and base64 themselves; JSON arrays and floating-point numbers, which the hashed dictionaries do not contain; database text that jsonb refuses.
- Normalisation of UUID text, column lengths and malformed identifiers: ids are taken as stored and written by an injective function, and a failed conversion is a database failure.
- The parser of ISO timestamps is a parameter; times are integers counting microseconds.
- Users, cases, roles, tokens and the checks on them; listing, viewing and downloading evidence except for the events they emit; PDF reports; the web interface.
- Envelope fields that come from the caller or describe the file (case, actor, address, reason, name, size) are arbitrary, since no result depends on them.
