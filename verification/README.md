# Sidetree protocol verification

This project models the core of a Sidetree node and proves properties of the model with Dafny 4.11. Sidetree (DIF
Sidetree v1.0.0, sections "File Structures", "Transaction & Operation Processing" and "Resolution") anchors batches of
operations on decentralized identifiers (DIDs) on a ledger. A writer packs queued operations into five linked files and
anchors the address of the first; observers read the ledger, download and check the files, rebuild the operations and
store them; a resolver follows the chain of hash commitments through the stored operations of a DID to its document.

The model has four parts.

- **Batches.** `RequestHandler`, `OperationQueue` and `BatchWriter` take, queue and pack operations;
  `TransactionProcessor` and the five file modules check and rebuild them. `BatchRoundTrip` proves that writer and
  observer agree, `AcceptedBatches` and `StoredOperations` what holds of batches from anyone, `QueueProtocol` what holds
  over all runs of request handlers and a batch writer that fails and restarts. `PlainEnvironment` is a concrete
  environment in which `BatchExamples` meets all hypotheses; `ForeignBatch` is a batch made without a request handler.
  `AcceptedFiles` says exactly which files are accepted, `RetryAnswers` when a transaction is to be processed again.
  `ProcessedOperations` joins batches and resolution.
- **Resolution.** `DocumentComposer`, `OperationProcessor` and `Resolver` apply operations; `DocumentPatches` gives the
  meaning of every patch, `OperationValidity` the exact conditions under which requests are admitted and operations
  valid, `Authenticity` what signatures guarantee of a resolved DID; `ResolutionHistory` proves
  that the resolver refines a linear scan, `ResolutionOrder` that the order of operations does not matter,
  `ResolutionGrowth` that resolution is append-only, `ResolutionTermination` when it ends and `ResolutionProgress` a
  condition on the operations under which it does; `ResolutionCycle` holds an input on which a loop does not end.
- **Observing.** `ObserverProtocol` is a step system of concurrent processing over a ledger that changes at any time;
  `Observer` holds the loops on the heap; `ObserverProgress` proves that it catches up. `ReadingSafety` says when reading on is safe, `ReadingOver` is a run in which it
  is not; `SyncSafety` and `LosingOn` do the same for transactions that could not be stored. `TransactionStore` and
  `Reorganization` cover reverts, `HistoricalSync` and `SyncProtocol` catching up, `ObserverLifetime` both in turn,
  `TransactionSelector` and `ThroughputLimiter` rate limits, which `OperationLimit` states of anchor strings,
  `DownloadManager` downloads.
- **Text and arithmetic.** `AnchoredDataSerializer`, `JwsCompact` (RFC 7515, section 7.1), `FeeManager`,
  `ValueTimeLockVerifier`, `ArrayMethods`, `Multihash`, `Text`, `Traversal`, `Iteration`.

Code that changes state in the source is a class or a method with loops, proved against a function; the properties are
lemmas about those functions. Exceptions are values of `Result`. `dafny verify dfyconfig.toml` checks everything.

Where the code departs from what one would expect, the model follows the code and the exact condition is proved:

- A batch with a deactivate and a create or recover is anchored and paid for but never stored, because deactivates are
  rebuilt over the suffixes of all core operations (`WriterAndObserverAgree`, `CreateWithDeactivateIsLost`).
- The suffix of an update, recover or deactivate is checked to be a multihash when a batch is read, not when a request
  is admitted, so an admitted request can spoil its batch (`WriterAndObserverAgree`); an update does so by leaving every
  create of the batch without its delta (`UnencodedUpdateSpoilsItsBatch`, `CreateWithBadUpdateIsSpoiled`).
- Reading a batch never compares a reveal value with the key in the proof at its position, but the resolver does when it
  builds its index, outside of any exception handling: a batch not made by a request handler can hold a recover that
  makes every later resolution of its DID throw, deactivated or not (`StoredOperationsAreIndexedExactly`,
  `UnindexedRecoveryThrows`, `AcceptedRecoverThrows`, `DeactivatedForever`).
- Adding services overwrites by position but does not learn the positions of what it pushes, so it is an upsert only
  for lists without a repeated new identifier (`ServicesAddedIsUpsert`).
- The resolver's loops do not end if commitments form a cycle (`ResolutionEndsExactly`, `CycleNeverEnds`).
- A revert to transaction 0 deletes the operations of that transaction too (`RevertedOperations`,
  `CutAtZeroLosesOperations`).
- Historical sync need not end without retries or with empty batches, and a stopped sync is marked complete
  (`SyncEndsExactly`, `FailingBatchIsTriedForEver`, `PerformHistoricalSync`). It goes on after a transaction that could
  not be stored, which can then be missing for good (`LosingIsHarmlessExactly`, `LostForEver`, `LosingOnIsForEver`).
- The ledger is read after the last stored transaction, whatever is still under processing. If it is read on while
  something under processing has been reorganised away, that is stored, and a transaction that took its number is lost
  (`FetchIsSafeExactly`, `ReadingOverLosesTransaction`).
- A restart between anchoring and dequeuing anchors a batch twice (`AnchoredExactlyOnce`).
- Comments in `packages/core/src/Observer.ts` describe transactions that end in an error and hold back those after them;
  in the code every transaction ends as processed, so that handling is never reached (`ProcessTransaction`).
- The prefix theorem of the observer is about transactions, not their operations: a failed transaction is stored as
  processed too and not tried again.

## Model

| member | source | states |
|---|---|---|
| `AnchoredDataSerializer.SerializeThenDeserialize` | packages/core/src/AnchoredDataSerializer.ts:21-75 | Reading an anchor string back gives the data that was anchored if and only if the count is between 1 and 10000 and the URI holds no period; otherwise reading fails. |
| `AnchoredDataSerializer.DeserializeThenSerialize` | packages/core/src/AnchoredDataSerializer.ts:31-75 | Whatever anchor string is accepted is exactly the one that the data read from it would be anchored as. |
| `FeeManager.ComputedFeeIsLeastAccepted` | packages/core/src/FeeManager.ts:36-100 | On every input the fee check accepts a payment if and only if it is at least the fee the writer computes, although one multiplies and the other divides. |
| `FeeManager.FeeSurvivesLowerNormalizedFee` | packages/core/src/FeeManager.ts:36-100 | The fee computed for one normalized fee is accepted under any normalized fee that is not higher. |
| `ValueTimeLockVerifier.LockPaysForEveryOperation` | packages/core/src/ValueTimeLockVerifier.ts:39-134 | The lock check accepts a count if and only if no lock is needed, or the lock is the writer's, is active, and holds the amount for every single operation: rounding down never admits nor refuses wrongly. |
| `JwsCompact.PrintingUndoesParsing` | packages/core/src/util/Jws.ts:45-103 | Printing a parsed compact JWS gives the original text. |
| `JwsCompact.ParsingUndoesPrinting` | packages/core/src/util/Jws.ts:45-96 | A JWS with valid parts free of periods is recovered from its printed form. |
| `ArrayMethods.HasDuplicates` | packages/core/src/util/ArrayMethods.ts:27-39 | The set-filling loop answers whether two positions hold the same value. |
| `ArrayMethods.AreMutuallyExclusive` | packages/core/src/util/ArrayMethods.ts:44-57 | The loop answers whether two arrays share no value. |
| `ArrayMethods.NoDuplicatesInConcatenation` | packages/core/src/CoreIndexFile.ts:196-200 | Two lists together are free of duplicates exactly if each is and they share nothing: the checks made per file and across files add up to one operation per DID. |
| `Multihash.IndexAgreesWithProcessor` | packages/common/src/util/Multihash.ts:219-291 | For a key whose reveal value matches, the string the index looks up is the commitment the processor accepts if and only if the commitment is canonically encoded. |
| `Operations.AdmittedRequestIsRecovered` | packages/core/src/Operation.ts:24-41 | Parsing an admitted request loses nothing: the request and its DID suffix can be read off the parsed operation. |
| `Traversal.FirstFailureDecides` | packages/core/src/CoreProofFile.ts:120-200 | A list is refused with the error of its first bad element, whatever follows. |
| `AnchoredDataSerializer.AnchorStringOnLedger` | packages/core/src/AnchoredDataSerializer.ts:21-75 | A concrete anchor string: the count in decimal digits, a period and the URI. |
| `CoreIndexFile.Parse` | packages/core/src/CoreIndexFile.ts:49-246 | The loops over creates, recovers and deactivates accept exactly the models that satisfy the presence, duplicate and URI rules, and list the suffixes in file order. |
| `CoreProofFile.Parse` | packages/core/src/CoreProofFile.ts:76-206 | The loops over both lists of proofs, with their counter of positions, come to the parsing of every element in order, and a file without proofs is refused; what is accepted is in `CoreProofIsAcceptedExactly`. |
| `ProvisionalProofFile.Parse` | packages/core/src/ProvisionalProofFile.ts:65-148 | Update proofs are listed in order; a file without any is refused. |
| `ChunkFile.Parse` | packages/core/src/ChunkFile.ts:25-83 | The deltas are accepted in order if every one of them is valid. |
| `AcceptedFiles.CoreIndexIsAcceptedExactly` | packages/core/src/CoreIndexFile.ts:49-246 | A core index file is accepted if and only if it decodes, its lock identifier has at most 200 characters, suffix data and references are multihashes, no suffix occurs twice, URIs have at most 100 characters and are there just when they must be; the suffixes are those of creates, recovers and deactivates in order. |
| `AcceptedFiles.CoreProofIsAcceptedExactly` | packages/core/src/CoreProofFile.ts:76-206 | A core proof file is accepted, into given proofs, if and only if its texts are their compact forms with payloads of the right type, the payload of the i-th deactivate names the i-th expected suffix, and there is a proof. |
| `AcceptedFiles.AcceptedDeactivatesAreForTheirDids` | packages/core/src/DeactivateOperation.ts:105-125 | Every deactivate of an accepted core proof file is signed for the suffix at its position. |
| `AcceptedFiles.ForeignDeactivateIsRefused` | packages/core/src/CoreProofFile.ts:169-189 | A core proof file with a deactivate signed for another DID at any position is refused. |
| `AcceptedFiles.ProvisionalProofIsAcceptedExactly` | packages/core/src/ProvisionalProofFile.ts:65-148 | A provisional proof file is accepted, into given proofs, if and only if its texts are their compact forms with payloads of updates, and there is one. |
| `AcceptedFiles.ProvisionalIndexIsAcceptedExactly` | packages/core/src/ProvisionalIndexFile.ts:33-204 | A provisional index file is accepted if and only if it names one chunk file, its updates are multihashes of different suffixes, and it names a proof file just if there are updates. |
| `AcceptedFiles.ChunkIsAcceptedExactly` | packages/core/src/ChunkFile.ts:25-83 | A chunk file is accepted, into given deltas, if and only if these are its deltas in order, and all are of the right size and good. |
| `OperationStore.OperationStore.InsertOrReplace` | packages/db/src/MongoDbOperationStore.ts:53-75 | An operation replaces the one with the same DID, transaction, position and type, and no other. |
| `OperationStore.InsertedExactly` | packages/db/src/MongoDbOperationStore.ts:53-75 | After inserting, the store holds exactly the last of the inserted operations of every DID, transaction, position and type, and what it held before for others. |
| `OperationStore.OperationStore.Get` | packages/db/src/MongoDbOperationStore.ts:80-91 | Exactly the operations of a DID, each once, by transaction number and then by position. |
| `OperationStore.OperationStore.Delete` | packages/db/src/MongoDbOperationStore.ts:93-101 | An operation stays in the store if and only if a number is given, it is not 0, and the operation is not later than it; keys stay right. |
| `OperationStore.DeletionCutsList` | packages/db/src/MongoDbOperationStore.ts:80-101 | What `Get` lists of a DID after a deletion is a beginning of what it listed before, cut exactly before the first later operation; an empty one for the number 0. |
| `OperationQueue.OperationQueue.Enqueue` | packages/db/src/MongoDbOperationQueue.ts:49-65 | An operation is appended if and only if none waits for its DID. |
| `OperationQueue.OperationQueue.Dequeue` | packages/db/src/MongoDbOperationQueue.ts:67-82 | The oldest operations leave, as many as asked for; an empty queue throws. |
| `OperationQueue.OperationQueue.Peek` | packages/db/src/MongoDbOperationQueue.ts:84-98 | The beginning of the queue, exactly as long as asked for or as there is, with one operation per DID; the queue stays. |
| `OperationQueue.OperationQueue.Contains` | packages/db/src/MongoDbOperationQueue.ts:103-108 | The query for one match answers whether an operation for the DID, whatever its request, would break the unique index of the queue. |
| `RequestHandler.RequestHandler.HandleOperationRequest` | packages/core/src/RequestHandler.ts:39-140 | A request is queued if and only if it is valid and none waits for its DID; everything queued stays admitted. |
| `OperationValidity.AdmittedExactly` | packages/core/src/RequestHandler.ts:39-140 | A request is admitted if and only if its signed data is the compact form of a JWS whose payload holds a key that hashes to the reveal value and, for a deactivate, its own suffix; its delta, unless it is a deactivate, is good and of the right size; and, for a create, its suffix data is good. |
| `OperationValidity.AdmittedDeactivateIsItsOwn` | packages/core/src/DeactivateOperation.ts:105-125 | An admitted deactivate is signed for the DID it is about. |
| `BatchWriter.BatchWriter.WriteFiles` | packages/core/src/BatchWriter.ts:80-120 | The files are stored in the order the source writes them, each linked to by its address. |
| `BatchWriter.BatchWriter.WriteBatch` | packages/core/src/BatchWriter.ts:49-125 | Peeking, parsing and packing come to nothing, to an exception after the files written so far, or to the URI of the core index file, as planned from the queue. |
| `BatchWriter.BatchWriter.Write` | packages/core/src/BatchWriter.ts:40-160 | Queue, store and ledger after a write, whether there was nothing to write, a step threw, the ledger refused, or the batch was anchored; only then does it leave the queue. |
| `BatchWriter.WrittenBuffersAreReadable` | packages/core/src/BatchWriter.ts:80-120 | Every file of a batch can be read from the store after writing, if their addresses tell the written files apart. |
| `BatchRoundTrip.PartitionSortsByType` | packages/core/src/BatchWriter.ts:59-78 | Partitioning keeps the queue order inside every type. |
| `BatchRoundTrip.GroupingKeepsDidsDistinct` | packages/core/src/BatchWriter.ts:59-78 | Grouping by type keeps one operation per DID. |
| `BatchWriter.AllowedIsWhatTheLockPaysFor` | packages/core/src/BatchWriter.ts:228-250 | The writer may put a number of operations into a batch if and only if it is at most 10000 and an observer lets an active lock of the writer pay for it. |
| `BatchWriter.BatchIsAsLargeAsTheLockAllows` | packages/core/src/BatchWriter.ts:49-60 | A write takes the oldest operations of the queue, as many as there are and the lock pays for. |
| `TransactionProcessor.ComposeCreates` | packages/core/src/TransactionProcessor.ts:475-522 | Creates are rebuilt by position from suffix data and the first deltas. |
| `TransactionProcessor.ComposeRecovers` | packages/core/src/TransactionProcessor.ts:524-578 | Recovers are rebuilt by position, with the deltas after those of the creates. |
| `TransactionProcessor.ComposeDeactivates` | packages/core/src/TransactionProcessor.ts:580-625 | Deactivates are rebuilt over all suffixes of the core index file, and reading past the reveal values throws. |
| `TransactionProcessor.ComposeUpdates` | packages/core/src/TransactionProcessor.ts:627-685 | Updates are rebuilt by position, with the deltas after those of creates and recovers. |
| `TransactionProcessor.TransactionProcessor.ProcessTransaction` | packages/core/src/TransactionProcessor.ts:41-209 | What is stored and what is answered for any downloaded files: core failures store nothing, provisional failures store core operations only; when the answer asks for a retry is in `RetriedExactly`. |
| `AcceptedFiles.CoreFilesAreAcceptedExactly` | packages/core/src/TransactionProcessor.ts:211-294 | Core files are accepted if and only if the anchor string can be read, the fee is at least the normalized fee and 0.001 of it per operation, the index file can be downloaded within 1000000 bytes, is accepted and lists no more operations than claimed, up to 100 are claimed or an active lock of the writer holds enough, and the proof file, if named, can be downloaded within 2500000 bytes, is accepted and has as many proofs as needed. |
| `AcceptedFiles.ProvisionalFilesAreAcceptedExactly` | packages/core/src/TransactionProcessor.ts:296-422 | The same for the three provisional files: downloads, total count, no suffix shared with the core files, and counts of proofs and deltas. |
| `AcceptedFiles.StoredDeactivatesAreForTheirDids` | packages/core/src/TransactionProcessor.ts:580-625 | Whatever is downloaded, a stored deactivate with signed data is signed for the DID it is stored for. |
| `RetryAnswers.RetriedExactly` | packages/core/src/TransactionProcessor.ts:66-185 | The answer asks for a retry if and only if a core file asked for is not reachable or the core files raise an exception, or, with accepted and unmixed core files, a provisional file asked for is not reachable, not found or not a file, or the provisional files raise an exception. |
| `RetryAnswers.RetryLosesNothing` | packages/core/src/TransactionProcessor.ts:66-209 | What is answered as processed completely would be stored and answered the same if every file that was not reachable had been. |
| `AcceptedBatches.CompositionFailsExactlyOnMixedBatches` | packages/core/src/TransactionProcessor.ts:424-473 | Verified files can be composed if and only if no deactivate shares them with a create or a recover. |
| `AcceptedBatches.ComposedOperationsAreNumbered` | packages/core/src/TransactionProcessor.ts:424-685 | Composed operations carry the suffixes of the files in order and are numbered by output position. |
| `AcceptedBatches.ComposedOperationsPartitionDeltas` | packages/core/src/TransactionProcessor.ts:475-685 | The deltas of the chunk file are handed out exactly once and in order. |
| `AcceptedBatches.AcceptedBatchIsSound` | packages/core/src/TransactionProcessor.ts:41-209 | For arbitrary downloads, the stored operations are at most one per DID, no more than were paid for, numbered by position, and carry exactly the deltas of an accepted chunk file. |
| `AcceptedBatches.CoreKeysAreStable` | packages/core/src/TransactionProcessor.ts:475-625 | Operations rebuilt without the provisional files have store keys that the complete rebuilding writes too. |
| `AcceptedBatches.ReplayIsIdempotent` | packages/core/src/TransactionProcessor.ts:187-197 | After any number of processings with some files missing, one complete processing leaves the store exactly as if it had been the only one. |
| `ProcessedOperations.ListedNumbersAreDistinct` | packages/core/src/TransactionProcessor.ts:41-209 | Whatever transactions were processed, however often and with whatever files available, what the store lists of a DID holds at most one operation of each transaction: the hypothesis of the resolution theorems. |
| `ProcessedOperations.ProcessingIsAppendOnly` | packages/db/src/MongoDbOperationStore.ts:53-91 | Processing later transactions only adds operations of later transactions to the end of what is listed of a DID. |
| `ProcessedOperations.DeactivationSurvivesProcessing` | packages/core/src/Resolver.ts:43-68 | From ledger to document: a DID that is deactivated by the transactions processed so far resolves to the same state or to an exception, whatever later transactions hold. |
| `BatchRoundTrip.TakenBatchIsProcessed` | packages/core/src/TransactionProcessor.ts:41-473 | What an observer makes of any anchored batch: refused for a bad core suffix; lost if mixed; rebuilt whole if all suffixes are multihashes; otherwise the creates, recovers and deactivates are rebuilt without deltas and the updates are not. The stored list is given in each case. |
| `BatchRoundTrip.WriterAndObserverAgree` | packages/core/src/BatchWriter.ts:40-160 | A batch the writer anchors passes every observer check and is stored operation by operation, grouped by type in queue order and numbered by position, if and only if it is not mixed and its suffixes are multihashes; a mixed one stores nothing. |
| `BatchRoundTrip.AnchorIsAccepted` | packages/core/src/BatchWriter.ts:120-150 | Anchor string and fee of a planned batch pass the observer's parsing and fee check. |
| `BatchRoundTrip.CoreFilesAreReadBack` | packages/core/src/TransactionProcessor.ts:211-294 | The core index and core proof files the writer makes are verified into the batch they were made from, or refused for a suffix that is no multihash. |
| `BatchRoundTrip.ProvisionalFilesAreReadBack` | packages/core/src/TransactionProcessor.ts:296-422 | The same for the provisional index, provisional proof and chunk files. |
| `BatchRoundTrip.OperationsAreRebuilt` | packages/core/src/TransactionProcessor.ts:424-685 | Composing read-back files gives the requests of the batch, each with its suffix, reveal value, signed data and delta. |
| `BatchRoundTrip.WrittenFilesAreServed` | packages/core/src/BatchWriter.ts:80-120 | Files written to a store whose addresses tell them apart are what a download from it yields. |
| `BatchRoundTrip.WrittenBatchIsStored` | packages/core/src/BatchWriter.ts:80-153 | End to end: from what one write leaves in the content store and on the ledger, an observer stores the batch whole if and only if it is not mixed and its suffixes are multihashes. |
| `BatchRoundTrip.WrittenMixedBatchIsLost` | packages/core/src/TransactionProcessor.ts:589-600 | End to end: a written batch that mixes deactivates with creates or recovers passes every check of its core files, stores nothing, and ends in an exception. |
| `BatchRoundTrip.UnencodedUpdateSpoilsItsBatch` | packages/core/src/TransactionProcessor.ts:187-197 | An admitted update whose suffix is no multihash makes the observer store the rest of the batch without its deltas and its other updates; no create stored that way can ever be applied, and the answer `true` means that it is not tried again. |
| `BatchRoundTrip.StoredCreatesAreRefused` | packages/core/src/CreateOperation.ts:58-65 | A create stored without its delta is refused by the operation parser, so it never makes a state. |
| `PlainEnvironment.CodecIsLawful` | packages/core/src/CoreIndexFile.ts:49-246 | The laws assumed of the encodings can be met: a concrete text format for all five files meets every one of them. |
| `BatchExamples.AnyQueueIsServed` | packages/core/src/BatchWriter.ts:40-160 | The hypotheses of the end-to-end theorems can be met: with concrete files and short addresses, and whatever the checks of single operations are, every queue of admitted operations is anchored and served. |
| `BatchExamples.CreateAndUpdateAreStored` | packages/core/src/TransactionProcessor.ts:41-209 | A concrete batch of a create and an update that goes from the queue to the store of the observer. |
| `BatchExamples.CreateWithDeactivateIsLost` | packages/core/src/TransactionProcessor.ts:589-600 | Two concrete admitted requests, a create and a deactivate, whose anchored transaction passes the checks of its core files and ends in an exception with nothing stored. |
| `BatchExamples.CreateWithBadUpdateIsSpoiled` | packages/core/src/TransactionProcessor.ts:187-197 | Two concrete admitted requests, a create and an update of a DID whose suffix is no multihash: the create is stored without its delta, cannot be applied, and the transaction counts as processed. |
| `StoredOperations.StoredOperationsAreIndexedExactly` | packages/core/src/TransactionProcessor.ts:258-294 | For any accepted downloads: all stored recovers, deactivates and updates can be indexed by the resolver if and only if the proof at every position is of the right type and its key hashes to the reveal value at that position, which no check of the files compares. |
| `StoredOperations.RecoverIsIndexed` | packages/core/src/CoreProofFile.ts:120-190 | The same for one recover: its index key exists if and only if its proof exists and opens its reveal value. |
| `StoredOperations.UnindexedRecoveryThrows` | packages/core/src/Resolver.ts:282-284 | One stored recover or deactivate that cannot be indexed makes every resolution of a created DID throw, whatever else is stored. |
| `ForeignBatch.AcceptedRecoverThrows` | packages/core/src/Resolver.ts:282-284 | A concrete batch not made by a request handler: its files pass every check, its recover is stored and cannot be indexed, and resolving the DID, which succeeded before, throws. |
| `StoredOperations.ResolutionThrowsExactly` | packages/core/src/Resolver.ts:43-68 | Resolution throws if and only if a recover or deactivate cannot be indexed, or an update cannot and the DID is not deactivated. |
| `StoredOperations.AdmittedIsIndexed` | packages/core/src/RequestHandler.ts:39-140 | Every request that a request handler admits can be indexed: such operations come only from batches made without one. |
| `QueueProtocol.RunsKeepInvariant` | packages/db/src/MongoDbOperationQueue.ts:49-108 | The protocol invariant holds after every interleaving of requests with the steps, failures and restarts of a batch writer. |
| `QueueProtocol.AcceptedIsNeverLost` | packages/core/src/BatchWriter.ts:49-153 | After every run the accepted operations are the dequeued batches in order followed by the queue; every dequeued batch is on the ledger; every batch on the ledger is an admitted stretch of accepted operations with one operation per DID. |
| `QueueProtocol.AnchoredExactlyOnce` | packages/core/src/BatchWriter.ts:150-153 | Anchored batches followed by what is only queued are the accepted operations if and only if the writer was never interrupted between anchoring and dequeuing. |
| `QueueProtocol.DequeueTakesTheAnchoredBatch` | packages/core/src/BatchWriter.ts:150-153 | Dequeuing removes exactly what was peeked and anchored, whatever was queued in between. |
| `QueueProtocol.WriteIsSteps` | packages/core/src/BatchWriter.ts:40-160 | `Write` is peeking, anchoring and dequeuing in the protocol: queue and ledger stay in step, the ledger holding, in order, an entry planned from each anchored batch alone. |
| `QueueProtocol.AnchoredBatchIsStored` | packages/core/src/RequestHandler.ts:39-140 | From request to store: every batch anchored in any run meets the hypotheses of the round trip, so it is stored whole if and only if it is not mixed and its suffixes are multihashes. |
| `DocumentComposer.UpsertIsMapUpdate` | packages/core/src/DocumentComposer.ts:505-518 | The ordered upsert changes the entry of one identifier and reorders or duplicates none. |
| `DocumentComposer.KeysAddedIsUpsert` | packages/core/src/DocumentComposer.ts:505-518 | Adding keys through a map is the ordered upsert. |
| `DocumentComposer.ServicesAddedIsUpsert` | packages/core/src/DocumentComposer.ts:536-558 | Adding services through a table of positions is the ordered upsert if and only if no new identifier is added twice. |
| `DocumentComposer.CheckedPatchesAreUpserts` | packages/core/src/DocumentComposer.ts:471-569 | Over any sequence of checked patches identifiers stay unique and both additions mean the one upsert. |
| `DocumentComposer.ValidatePublicKeys` | packages/core/src/DocumentComposer.ts:252-319 | Keys pass the uniqueness check exactly if their identifiers differ. |
| `DocumentComposer.ValidateServices` | packages/core/src/DocumentComposer.ts:390-449 | Services pass the uniqueness check exactly if their identifiers differ. |
| `DocumentComposer.AddPublicKeys` | packages/core/src/DocumentComposer.ts:505-518 | In place, the document's keys become the upserted keys and nothing else changes. |
| `DocumentComposer.RemovePublicKeys` | packages/core/src/DocumentComposer.ts:523-534 | In place, the keys with the listed identifiers go. |
| `DocumentComposer.AddServices` | packages/core/src/DocumentComposer.ts:536-558 | In place in the services array, known identifiers are overwritten at their position and others are pushed. |
| `DocumentComposer.RemoveServices` | packages/core/src/DocumentComposer.ts:560-569 | In place, the services with the listed identifiers go. |
| `DocumentComposer.ApplyPatchesInPlace` | packages/core/src/DocumentComposer.ts:471-500 | The document object ends as the fold of its patches, whose meaning is in `PatchesAreMeant`, and no array of services but its own is changed. |
| `DocumentComposer.DeepCopy` | packages/core/src/util/JsObject.ts:8-22 | The copy has the same keys and services and shares no object with the original. |
| `DocumentComposer.PatchedCopy` | packages/core/src/OperationProcessor.ts:224-236 | Patching a copy leaves the original document on the heap as it was. |
| `DocumentPatches.PatchedExactly` | packages/core/src/DocumentComposer.ts:481-569 | A checked patch leads to one document and no other: a replacement takes over whole; every other patch keeps the other property; removing leaves exactly the items with other identifiers, each once and in order; adding keeps every item at its position, renewed if its identifier is added, followed by the new ones in order. |
| `DocumentPatches.PatchesAreMeant` | packages/core/src/DocumentComposer.ts:471-476 | Checked patches are carried out in order, each leading from the document before it to the one it means. |
| `DocumentPatches.ReplacementForgets` | packages/core/src/DocumentComposer.ts:481-488 | Whatever patches come before a replacement, and whatever the document was, has no bearing on the result. |
| `OperationProcessor.TransitionKeepsUnique` | packages/core/src/OperationProcessor.ts:26-363 | Every valid operation leads from a document with unique key and service identifiers to one. |
| `OperationProcessor.NewStartingState` | packages/core/src/OperationProcessor.ts:116-177 | A create or recover makes a state object of its own, empty if the delta does not match. |
| `OperationProcessor.ApplyToObject` | packages/core/src/OperationProcessor.ts:182-363 | Applying an operation to a state object returns a new object holding the transition, or the given one if there is none, and never changes the given state or its document; when there is a transition, and to what, is in `UpdateIsValidExactly`, `RecoverIsValidExactly` and `DeactivateIsValidExactly`. |
| `OperationValidity.UpdateIsValidExactly` | packages/core/src/OperationProcessor.ts:182-248 | An update is valid if and only if its signed data is in order, its key opens the update commitment of the state, its signature verifies under that key and its good delta hashes to the signed hash; it patches the document, takes the new update commitment and number, and keeps the recovery commitment. |
| `OperationValidity.RecoverIsValidExactly` | packages/core/src/OperationProcessor.ts:253-324 | A recover is valid if and only if its key opens the recovery commitment and its signature verifies; the new state has the signed recovery commitment and the patched empty document, or an empty one that cannot be updated if the delta is not good or does not hash to the signed hash. |
| `OperationValidity.DeactivateIsValidExactly` | packages/core/src/OperationProcessor.ts:329-363 | A deactivate is valid if and only if it is signed for its own DID by a key that opens the recovery commitment; it keeps the document and leaves no commitment. |
| `OperationValidity.CreateIsValidExactly` | packages/core/src/OperationProcessor.ts:116-177 | A create makes a state if and only if it has a delta, good or not, and good suffix data; the state is that of a recover with the same commitments. |
| `Resolver.ConstructCommitValueToOperationLookupMap` | packages/core/src/Resolver.ts:269-299 | The index holds under every commitment exactly the operations that open it, in order; one operation that does not parse throws. |
| `Resolver.SortedIsAscending` | packages/core/src/Resolver.ts:140-143 | Sorting a bucket orders it by transaction number and keeps its operations. |
| `Resolver.ApplyFirstValidOperation` | packages/core/src/Resolver.ts:242-264 | The first operation that changes the transaction number decides the next state. |
| `Resolver.ApplyOperations` | packages/core/src/Resolver.ts:127-205 | For any operations and any number of turns, the while loop has followed the commitments that many turns, or has left the chain at its end. |
| `Resolver.ApplyCreateOperation` | packages/core/src/Resolver.ts:107-122 | The first create that can be applied makes the state. |
| `Resolver.CategorizeOperationsByType` | packages/core/src/Resolver.ts:71-102 | The operations of each type, in order. |
| `Resolver.ResolveOperations` | packages/core/src/Resolver.ts:26-69 | Resolution of any operations, following each loop for any number of turns: no DID, an exception from index building, a state, or not ended yet. |
| `ResolutionHistory.HistoryIsSound` | packages/core/src/Resolver.ts:242-264 | Every link of a history by linear scan is the lowest-numbered operation valid at that point and opens a commitment not opened before. |
| `ResolutionHistory.HistoryIsMaximal` | packages/core/src/Resolver.ts:133-164 | At the end of a history no operation is valid. |
| `ResolutionHistory.ValidOperationIsInBucket` | packages/core/src/Resolver.ts:286-296 | An operation that is valid on a state is filed under the commitment of that state. |
| `ResolutionHistory.NextStateIsLowestValid` | packages/core/src/Resolver.ts:242-264 | One turn through the index applies exactly the operation one linear scan finds. |
| `ResolutionHistory.ResolverRefinesScan` | packages/core/src/Resolver.ts:26-299 | With distinct transaction numbers, canonical commitments and none opened twice, the indexed resolver ends and equals resolution by repeated linear scan. |
| `ResolutionProgress.RisingHistoryEnds` | packages/core/src/Resolver.ts:133-202 | If every operation makes a commitment of higher rank than the one it opens, no history by linear scan opens a commitment twice, from whatever state. |
| `ResolutionProgress.RisingTerminates` | packages/core/src/Resolver.ts:133-202 | Under the same condition on the operations the resolver ends, however commitments are encoded. |
| `ResolutionProgress.RisingResolvesAsScanned` | packages/core/src/Resolver.ts:26-299 | Under that condition and with canonical commitments, the indexed resolver ends and equals the linear scan: no hypothesis on the outcome of either. |
| `ResolutionHistory.RecoveriesAreAppendOnly` | packages/core/src/Resolver.ts:127-167 | Later operations only extend the chain of recoveries, and cannot extend it after a deactivation. |
| `ResolutionHistory.HistoryIsAppendOnly` | packages/core/src/Resolver.ts:43-68 | By linear scan, later operations keep the create and the chain of recoveries; if that chain is unchanged they only extend the chain of updates. |
| `ResolutionGrowth.NextStateStays` | packages/core/src/Resolver.ts:133-158 | A turn of a loop that is possible stays possible, and the same, when operations of later transactions are indexed too. |
| `ResolutionGrowth.ResolutionIsAppendOnly` | packages/core/src/Resolver.ts:43-68 | Resolving with operations of later transactions added starts from the same create and comes through the state recovered to before; unless it goes on from there, it comes through the state resolved to before. No hypothesis on commitments. |
| `ResolutionGrowth.UnrelatedOperationsChangeNothing` | packages/core/src/Resolver.ts:26-69 | Later operations that open neither commitment of the resolved state leave it unchanged if they can be indexed, and make resolution throw if not. |
| `ResolutionGrowth.DeactivatedForever` | packages/core/src/Resolver.ts:43-68 | Once a DID is deactivated it resolves to the same state whatever is added later, if and only if the later recovers and deactivates can be indexed; otherwise resolution throws. |
| `ResolutionHistory.HistoryIgnoresOrder` | packages/core/src/Resolver.ts:71-102 | A history depends on which operations there are, not on their order. |
| `ResolutionOrder.ResolutionIgnoresOrder` | packages/core/src/Resolver.ts:71-102 | For distinct transaction numbers, permuting recovers, deactivates and updates changes neither whether resolution ends nor what it comes to, whatever their commitments. |
| `ResolutionTermination.LoopEndsExactly` | packages/core/src/Resolver.ts:133-202 | Either loop of the resolver ends if and only if it does not apply the operation of one transaction twice; if it does, it goes round for ever. |
| `ResolutionTermination.ResolvedWithinExactly` | packages/core/src/Resolver.ts:26-69 | However many turns are followed, resolution comes to one outcome or to none; more turns than operations come to it unless resolution never ends. |
| `ResolutionTermination.ResolutionEndsExactly` | packages/core/src/Resolver.ts:26-69 | Resolution as a whole ends if and only if neither loop applies one transaction twice. |
| `ResolutionCycle.CycleNeverEnds` | packages/core/src/Resolver.ts:178-202 | A concrete input: two updates that commit to each other's keys are applied in turn for ever. |
| `Iteration.EndsExactly` | packages/core/src/Resolver.ts:133-202 | A loop whose future depends on the number of its state alone ends if and only if no number recurs. |
| `Authenticity.ResolvedIsAuthentic` | packages/core/src/Resolver.ts:26-299 | A DID that resolves was created by the first create that can be applied and brought to its state by operations each of which is signed by a key that the state before it commits to. |
| `Authenticity.ResolvedIsComplete` | packages/core/src/Resolver.ts:127-202 | Resolution stops only where no stored recover or deactivate, and, for a DID that is not deactivated, no stored update is authorised any more. |
| `Authenticity.TurnIsAuthorised` | packages/core/src/Resolver.ts:242-264 | For any stored operations, a turn of either loop applies one that is authorised on a state before it. |
| `Authenticity.ForgeriesChangeNothing` | packages/core/src/OperationProcessor.ts:182-363 | Stored operations whose signature does not verify under the key they name change neither whether resolution ends nor what it comes to, as long as they parse. |
| `Authenticity.NothingSignedNothingApplied` | packages/core/src/Resolver.ts:26-69 | If no stored operation is signed by the key it names, resolution ends and comes to the state of the first create, or throws. |
| `Authenticity.FirstStateIsFirst` | packages/core/src/Resolver.ts:107-122 | The first state is made by the first create with a delta and good suffix data, and by no later one. |
| `Authenticity.IndexedExactly` | packages/core/src/Resolver.ts:269-299 | An operation is filed under a commitment if and only if its signed data, and the delta of an update, are in order and the commitment is the encoded hash of what its reveal value decodes to. |
| `TransactionStore.InsertedInOrder` | packages/db/src/MongoDbTransactionStore.ts:106-125 | Adding keeps the order of the unique index and everything stored, and adds just if the number was free. |
| `TransactionStore.TransactionStore.AddTransaction` | packages/db/src/MongoDbTransactionStore.ts:106-125 | A transaction is filed under its number; a duplicate changes nothing. |
| `TransactionStore.TransactionStore.GetLastTransaction` | packages/db/src/MongoDbTransactionStore.ts:127-138 | The stored transaction with the greatest number, if any. |
| `TransactionStore.TransactionStore.GetExponentiallySpacedTransactions` | packages/db/src/MongoDbTransactionStore.ts:140-154 | The loop with doubling distance collects exactly the transactions at the distances 1, 2, 4, ... from the end. |
| `TransactionStore.TransactionStore.RemoveTransactionsLaterThan` | packages/db/src/MongoDbTransactionStore.ts:156-166 | Exactly the later transactions go; without a number all go. |
| `TransactionStore.TransactionStore.GetTransactionsStartingFrom` | packages/db/src/MongoDbTransactionStore.ts:196-229 | Exactly the stored transactions between two times, or of one time if the bounds are equal, in the order of their numbers. |
| `Reorganization.CutIndex` | packages/core/src/Observer.ts:700-712 | The store is cut after the first sample inside its valid beginning, or emptied if there is none. |
| `Reorganization.RemovedIsProportionate` | packages/core/src/Observer.ts:700-729 | A revert removes at least the invalid transactions and fewer than twice as many, nothing if none is invalid. |
| `Reorganization.RevertedIsValid` | packages/core/src/Observer.ts:717-728 | After a revert the store is a valid prefix of what it was. |
| `Reorganization.RevertIsRestartable` | packages/core/src/Observer.ts:717-728 | A revert stopped after any of its three deletions chooses the same cut point when started again and comes to the same stores. |
| `Reorganization.AnyNumberOfRestarts` | packages/core/src/Observer.ts:717-728 | The same for any number of stopped reverts. |
| `Reorganization.RevertedOperations` | packages/db/src/MongoDbOperationStore.ts:93-101 | No operation later than the cut point survives; all others do if and only if the cut point is not transaction 0 or no operation has that number. |
| `Reorganization.RevertedUnresolvable` | packages/core/src/Observer.ts:717-728 | Exactly the unresolvable transactions up to the cut point survive a revert. |
| `Reorganization.CutAtZeroLosesOperations` | packages/db/src/MongoDbOperationStore.ts:93-101 | A concrete store whose kept transaction 0 loses its operations. |
| `ObserverProtocol.RunsKeepInvariant` | packages/core/src/Observer.ts:378-542 | The invariant holds after every run of fetching, completing in any order, storing, failing, restarting, ledger changes at any time and reverts, if the ledger is never read on while something under processing has left it. |
| `ObserverProtocol.StoreHasNoGap` | packages/core/src/Observer.ts:386-452 | After every such run what is stored was on the ledger as last read, was processed, and qualified or was there before; its qualified part is a prefix of the qualified ledger. |
| `ObserverProtocol.FetchedIsCovered` | packages/common/src/interfaces/IBlockchain.ts:22-38 | What is read after the last stored transaction continues the qualified ledger without a gap, also if it is read twice. |
| `ReadingSafety.FetchIsSafeExactly` | packages/core/src/Observer.ts:397-452 | After a fetch, completing and storing can bring something that is not on the ledger into the store if and only if something under processing has left the ledger, which the source does not check. |
| `ReadingOver.ReadingOverLosesTransaction` | packages/core/src/Observer.ts:386-500 | A concrete run in which a transaction that was reorganised away while under processing stays in the store, the one that took its number never enters it, and nothing notices. |
| `ObserverProtocol.StoreOneKeepsInvariant` | packages/core/src/Observer.ts:629-648 | The next processed transaction of the list can be stored without leaving a gap. |
| `ObserverProtocol.RevertKeepsInvariant` | packages/core/src/Observer.ts:700-729 | A revert, made with nothing under processing, re-establishes the invariant for the ledger as it is. |
| `Observer.Observer.QueueTransactions` | packages/core/src/Observer.ts:436-452 | Fetched transactions join the list in order, unprocessed. |
| `Observer.Observer.ProcessTransaction` | packages/core/src/Observer.ts:655-695 | Whatever processing comes to, the transaction ends as processed, its operations are stored, and only success removes it from the unresolvable ones. |
| `Observer.Observer.StoreThenTrimConsecutiveTransactionsProcessed` | packages/core/src/Observer.ts:629-648 | The processed beginning of the list is stored in order and leaves the list; nothing after it does. |
| `Observer.Observer.RevertInvalidTransactions` | packages/core/src/Observer.ts:700-729 | The three deletions with the cut point chosen from the samples. |
| `Observer.StoringLoopIsSteps` | packages/core/src/Observer.ts:629-648 | The storing loop does what the steps of the protocol do. |
| `ObserverProgress.FetchedExactly` | packages/common/src/interfaces/IBlockchain.ts:22-38 | Reading to the end fetches exactly the qualified transactions of the ledger after the last stored one. |
| `ObserverProgress.ReadingOnCatchesUp` | packages/core/src/Observer.ts:386-452 | If nothing under processing has left the ledger, reading to the end, completing what is listed and storing it makes the store hold every qualified transaction of the ledger and none that is not on it. |
| `ObserverProgress.RevertingCatchesUp` | packages/core/src/Observer.ts:378-452 | From any state that a run reaches with nothing under processing, whatever has happened to the ledger, a revert and reading on come to the same. |
| `HistoricalSync.HistoricalSync.PerformHistoricalSync` | packages/core/src/Observer.ts:207-275 | For any configuration and any number of turns of the loop: how far the sync is, how many attempts it made, which block ranges it processed, whether it threw and whether it has ended; a stopped sync is marked complete too. |
| `HistoricalSync.AttemptsAreBounded` | packages/core/src/Observer.ts:207-275 | With retries and non-empty batches, at most (1 + maxRetries) attempts for every batch of the gap, after which the sync has ended. |
| `HistoricalSync.BatchCountIsCeiling` | packages/core/src/Observer.ts:210-218 | The number of batches of a gap is the gap divided by the batch size, rounded up. |
| `HistoricalSync.NormalExitCoversEverything` | packages/core/src/Observer.ts:207-275 | An exit that is neither a stop nor an exception has processed every block from start to target inclusive; an exception follows 1 + maxRetries failures in a row. |
| `HistoricalSync.SyncEndsExactly` | packages/core/src/Observer.ts:207-275 | Below the target the sync ends, whatever batches fail and however often, if and only if the batch size and the number of retries are at least 1. |
| `HistoricalSync.SyncedFollowsSteps` | packages/core/src/Observer.ts:207-275 | The loop as followed for a number of turns has been left if and only if its step cannot be repeated that often. |
| `HistoricalSync.FailingBatchIsTriedForEver` | packages/core/src/Observer.ts:241-268 | Without retries a batch that always fails is tried for ever. |
| `HistoricalSync.EmptyBatchesNeverEnd` | packages/core/src/Observer.ts:210-224 | With batch size 0 the loop never ends. |
| `SyncProtocol.NothingIsSkipped` | packages/core/src/Observer.ts:134-190 | After every run of historical sync from any sound store, with crashes inside batches and resumptions at the block of the last stored transaction, the qualified part of the store is a prefix of the qualified ledger, if no qualified transaction was lost. |
| `SyncSafety.LosingIsHarmlessExactly` | packages/core/src/Observer.ts:306-340 | When a batch is finished after a transaction of it could not be stored, everything qualified up to its last block is stored if and only if that transaction does not qualify or was stored before; the order of the store has a gap unless that is so or the batch ends with it. |
| `SyncSafety.LostForEver` | packages/core/src/Observer.ts:306-340 | A qualified transaction lost before one of a later block of its batch is never stored, however the sync goes on and wherever it is resumed. |
| `LosingOn.LosingOnIsForEver` | packages/core/src/Observer.ts:306-340 | A concrete run that loses the first of two transactions for good. |
| `SyncProtocol.StartedEmptyStoresPrefix` | packages/core/src/Observer.ts:134-190 | Started on an empty store, the store is a prefix of the ledger. |
| `SyncProtocol.FinishedBatchIsStored` | packages/core/src/Observer.ts:280-340 | When a batch is finished every qualified transaction up to its last block is stored. |
| `ObserverLifetime.NothingIsEverSkipped` | packages/core/src/Observer.ts:109-190 | However an observer goes back and forth between historical sync and live processing, restarted anywhere: what is stored was on the ledger as last read, and no qualified transaction before a stored one is missing. |
| `TransactionSelector.RankedIsSorted` | packages/core/src/TransactionSelector.ts:44-54 | The order of the priority queue is a permutation by fee descending, then number ascending. |
| `TransactionSelector.PriorityQueue.Pop` | packages/core/src/TransactionSelector.ts:44-54 | Popping gives the next transaction of the ranking and leaves the rest of it. |
| `TransactionSelector.FirstPerWriterIsFirst` | packages/core/src/TransactionSelector.ts:117-142 | Every writer has exactly one candidate, the first of its transactions. |
| `TransactionSelector.CandidatesAreRanked` | packages/core/src/TransactionSelector.ts:117-142 | The candidates are the readable first transactions of the writers, best first. |
| `TransactionSelector.TransactionSelector.EnqueueFirstTransactionFromEachWriter` | packages/core/src/TransactionSelector.ts:117-142 | The loop pushes the first transaction of every writer, in order. |
| `TransactionSelector.TransactionSelector.GetNumbersAlreadyInTransactionTime` | packages/core/src/TransactionSelector.ts:144-174 | Stored transactions of a time all count as transactions; those that cannot be read count no operations. |
| `TransactionSelector.TransactionSelector.GetHighestFeeTransactions` | packages/core/src/TransactionSelector.ts:179-216 | The popping loop, which counts a transaction that does not fit before it stops, takes what the recursive selection takes. |
| `TransactionSelector.SelectionIsLongestFitting` | packages/core/src/TransactionSelector.ts:61-100 | What is selected is the longest prefix of the ranked candidates that fits both remaining limits, as counted by the selector; `SelectionKeepsLimits` says the same of anchor strings and numbers. |
| `TransactionSelector.TransactionSelector.SelectQualifiedTransactions` | packages/core/src/TransactionSelector.ts:61-115 | The loops select what the function selects, and refuse transactions of different times. |
| `OperationLimit.SelectionKeepsLimits` | packages/core/src/TransactionSelector.ts:61-216 | Of one time, the operations in the anchor strings of what is selected and of what is stored already are at most 600000 and the transactions at most 300, if anything is selected; and it is as many of the candidates, best first, as keep these limits. |
| `OperationLimit.SelectedPaidMost` | packages/core/src/TransactionSelector.ts:44-54 | What is selected paid more than any candidate that is not, or as much and is earlier. |
| `OperationLimit.SixtyFullBatches` | packages/core/src/TransactionSelector.ts:179-216 | Of transactions whose anchor strings each claim 10000 operations, at most 60 are selected for one time. |
| `OperationLimit.QualifiedKeepLimits` | packages/core/src/ThroughputLimiter.ts:32-58 | Whatever ledger transactions are read at once, what qualifies keeps both limits for every time. |
| `OperationLimit.StoringKeepsLimits` | packages/core/src/Observer.ts:424-452 | Reading and storing what qualifies, as often as it is done, in whatever order and however much of it, never takes a time over its limits. |
| `OperationLimit.OperationsOfOneTime` | packages/core/src/TransactionProcessor.ts:41-209 | Whatever their files hold, the selected and the stored transactions of one time together store at most 600000 operations, if anything is selected. |
| `ThroughputLimiter.GroupsAreStretches` | packages/core/src/ThroughputLimiter.ts:32-48 | The groups put together are the transactions in order; each has one time and neighbours differ. |
| `ThroughputLimiter.MixedBlocksAreUnreachable` | packages/core/src/ThroughputLimiter.ts:32-58 | The selector never refuses a group, so the error for mixed blocks cannot occur. |
| `ThroughputLimiter.ThroughputLimiter.GetQualifiedTransactions` | packages/core/src/ThroughputLimiter.ts:32-58 | The selections of the groups, one after the other, never an error. |
| `DownloadManager.DownloadsAreConserved` | packages/core/src/DownloadManager.ts:70-195 | After every run each requested download is in exactly one of pending, active, completed and delivered; starts are in the order of requests; active downloads never exceed a positive lane limit; a caller gets the result recorded for its own handle. |
| `DownloadManager.ResultsAreFinal` | packages/core/src/DownloadManager.ts:139-195 | A recorded result is never replaced and a delivery never taken back. |
| `DownloadManager.TurnKeepsLanes` | packages/core/src/DownloadManager.ts:90-118 | A turn of the monitoring loop never exceeds the lanes; with no lanes nothing starts. |
| `DownloadManager.TurnLeavesNothingIdle` | packages/core/src/DownloadManager.ts:70-118 | In any run, after a turn of the monitoring loop no download waits while a lane is free, and whatever is completed is filed. |
| `DownloadManager.DownloadManager.Start` | packages/core/src/DownloadManager.ts:70-124 | The in-place turn of the monitoring loop is the turn of the protocol. |
| `DownloadManager.DownloadManager.Download` | packages/core/src/DownloadManager.ts:139-156 | A download joins the end of the pending ones. |
| `DownloadManager.DownloadManager.TakeResult` | packages/core/src/DownloadManager.ts:156-165 | A caller takes the result filed under its handle, which is then gone. |
| `DownloadManager.DownloadInfo.DownloadAsync` | packages/core/src/DownloadManager.ts:174-195 | A download is completed in any case, with "not reachable" for an exception. |

## Left out

- Cryptography and encodings (SHA-256, multihash bytes, signatures, base64url, canonical JSON, gzip) are uninterpreted functions in the records `Primitives` and `FileCodec`; the only laws assumed of them are written out in `Lawful`, `Canonical` and `GoodAddresses`.
- Field-by-field schema checks (key and service contents, URI syntax, unknown properties) are uninterpreted predicates; only the uniqueness and count rules are modelled.
- File sizes are not computed: a file that is too large shows as the result of its download, and the round trip assumes downloads that serve the writer's files.
- The type of an anchored operation is the type of the request in its buffer; the source stores both.
- The workaround for commitments that arrive as arrays of characters is left out: a commitment is a string.
- Version selection: one set of processors, selectors and parameters for all transaction times, and one hash algorithm.
- Exceptions from stores and from the lock lookup of the batch writer are not modelled, except for the exception after anchoring in `QueueProtocol` and in the storing loop in `ObserverProtocol`.
- Concrete ledgers, content stores and the database driver: a ledger is a sequence, a content store a map, a collection a sequence or map with its unique key.
- RetryAnswers.RetriedExactly: assumes that decompression, JSON and schema checks do not raise the three error codes of a failed download.
- OperationLimit.QualifiedKeepLimits: assumes that transactions are read in the order of their times, as a ledger lists them.
- Timers, sleeps, events, logging, the retry schedule of unresolvable transactions and the re-processing of them.
- Patches are values: sharing between the arrays of a parsed operation and the document it is applied to is not captured.
- The in-place sort of a bucket in the resolver's map is a sorted copy; buckets are not looked up again after sorting.
- Fees and locks are computed over the reals; rounding of floating point numbers is not modelled.
- Selection is fixed by a predicate in `ObserverProtocol`: that the limits of one transaction time depend on what is stored already is modelled in `TransactionSelector` and `OperationLimit`.
- A revert is one step of `ObserverProtocol`; that it may stop after any of its deletions is covered by `RevertIsRestartable`, and the transaction store is the last of them.
- A reorganisation in the middle of a historical sync is not a step of `SyncProtocol`, whose ledger only grows: the sync reads ranges of blocks and does not compare them with what is stored, and the ledger may change between the phases of `ObserverLifetime`.
- When the source waits before it reverts, and that it reverts only if the time of the ledger has caught up, is not modelled: a revert is possible whenever nothing is under processing.
- The default lane count of the download manager for a limit that is not a number.
- How ties are popped by the priority queue library does not matter for distinct transaction numbers and is not modelled for others.
- Observer.Observer.StoreThenTrimConsecutiveTransactionsProcessed: describes the loop undisturbed; completions in the middle of it are steps of `ObserverProtocol`.
- Observer.Observer.ProcessTransaction: describes one call; that calls overlap is in `ObserverProtocol`.
- ResolutionHistory.ResolverRefinesScan: needs that no commitment is opened twice along the chain, because the resolver does not check for reuse; `RisingResolvesAsScanned` derives it from the operations, and `ResolutionEndsExactly` says when resolution ends without it.
- Resolver.ResolveOperations: takes a number of turns, because the loops of the source need not end; `ResolvedWithinExactly` removes it.
- HistoricalSync.HistoricalSync.PerformHistoricalSync: takes a number of turns for the same reason; `AttemptsAreBounded` says how many are enough.
- DocumentComposer.DeepCopy: contents of keys and services are opaque texts, so it is out of sight that the source's copy turns a nested `null` (a null `serviceEndpoint`, say) into an empty object.
- BatchRoundTrip.WriterAndObserverAgree: assumes lawful codecs, an active lock owned by the writer, and downloads that serve the files.
