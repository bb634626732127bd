/** What an observer makes of the batches a writer anchors. */
module BatchRoundTrip {
  import opened Wrappers
  import opened Models
  import opened Multihash
  import opened Operations
  import opened ArrayMethods
  import opened JwsCompact
  import opened Traversal
  import opened OperationQueue
  import opened RequestHandler
  import opened BatchWriter
  import opened CoreIndexFile
  import opened CoreProofFile
  import opened ProvisionalIndexFile
  import opened TransactionProcessor
  import opened OperationProcessor
  import AnchoredDataSerializer
  import ChunkFile
  import FeeManager
  import ProvisionalProofFile

  // ------------------------------------------------------------ requests by type

  function OfType(requests: seq<Request>, t: OperationType): (r: seq<Request>)
    ensures forall q :: q in r <==> q in requests && TypeOf(q) == t
    ensures forall i :: 0 <= i < |r| ==> r[i] in requests && TypeOf(r[i]) == t
  {
    if requests == [] then []
    else
      var last := requests[|requests| - 1];
      OfType(requests[..|requests| - 1], t) + if TypeOf(last) == t then [last] else []
  }

  /** A batch in the order the observer lists it: creates, recovers, deactivates, updates, each in queue order. */
  function Grouped(requests: seq<Request>): seq<Request> {
    OfType(requests, Create) + OfType(requests, Recover) + OfType(requests, Deactivate) + OfType(requests, Update)
  }

  /** A batch in which a deactivate shares the core index file with a create or a recover. */
  predicate Mixed(requests: seq<Request>) {
    && (exists q <- requests :: q.DeactivateRequest?)
    && (exists q <- requests :: q.CreateRequest? || q.RecoverRequest?)
  }

  /** The index files only admit DID suffixes that are multihashes. */
  predicate SuffixesEncoded(p: Primitives, requests: seq<Request>) {
    forall q <- requests :: !q.CreateRequest? ==> IsMultihash(p, q.didSuffix)
  }

  function RequestSuffixes(p: Primitives, requests: seq<Request>): seq<string> {
    seq(|requests|, i requires 0 <= i < |requests| => SuffixOf(p, requests[i]))
  }

  lemma {:induction false} OfTypeKeepsDistinct(requests: seq<Request>, t: OperationType)
    requires NoDuplicates(requests)
    ensures NoDuplicates(OfType(requests, t))
  {
    if requests != [] {
      var n := |requests| - 1;
      OfTypeKeepsDistinct(requests[..n], t);
      assert requests[n] !in requests[..n];
    }
  }

  lemma {:induction false} TypesPartition(requests: seq<Request>)
    ensures |Grouped(requests)| == |requests|
    ensures multiset(Grouped(requests)) == multiset(requests)
  {
    if requests != [] {
      var n := |requests| - 1;
      TypesPartition(requests[..n]);
      assert requests == requests[..n] + [requests[n]];
    }
  }

  lemma DistinctDids(p: Primitives, requests: seq<Request>)
    requires NoDuplicates(RequestSuffixes(p, requests))
    ensures NoDuplicates(requests)
    ensures forall q, r :: q in requests && r in requests && q != r ==> SuffixOf(p, q) != SuffixOf(p, r)
  {
    forall i, j | 0 <= i < j < |requests|
      ensures SuffixOf(p, requests[i]) != SuffixOf(p, requests[j])
    {
      assert RequestSuffixes(p, requests)[i] != RequestSuffixes(p, requests)[j];
    }
  }

  lemma GroupedIsDistinct(requests: seq<Request>)
    requires NoDuplicates(requests)
    ensures NoDuplicates(Grouped(requests))
  {
    OfTypeKeepsDistinct(requests, Create);
    OfTypeKeepsDistinct(requests, Recover);
    OfTypeKeepsDistinct(requests, Deactivate);
    OfTypeKeepsDistinct(requests, Update);
    var cr := OfType(requests, Create) + OfType(requests, Recover);
    NoDuplicatesInConcatenation(OfType(requests, Create), OfType(requests, Recover));
    NoDuplicatesInConcatenation(cr, OfType(requests, Deactivate));
    NoDuplicatesInConcatenation(cr + OfType(requests, Deactivate), OfType(requests, Update));
  }

  /** Grouping by type never puts two requests of one DID together. */
  lemma GroupingKeepsDidsDistinct(p: Primitives, requests: seq<Request>)
    requires NoDuplicates(RequestSuffixes(p, requests))
    ensures NoDuplicates(RequestSuffixes(p, Grouped(requests)))
  {
    DistinctDids(p, requests);
    GroupedIsDistinct(requests);
    var g := Grouped(requests);
    forall i, j | 0 <= i < j < |g|
      ensures RequestSuffixes(p, g)[i] != RequestSuffixes(p, g)[j]
    {
      assert g[i] in requests && g[j] in requests && g[i] != g[j];
    }
  }

  // ------------------------------------------------------------ well-formed operations

  predicate GoodDelta(p: Primitives, delta: Option<Delta>) {
    CheckSizedDelta(p, delta).Ok?
  }

  predicate GoodJws(p: Primitives, jws: Jws) {
    ParseCompactJws(p, Some(ToCompactJws(jws))) == Ok(jws)
  }

  predicate GoodCreate(p: Primitives, o: CreateOperation) {
    && ValidSuffixData(p, o.suffixData) && o.didUniqueSuffix == p.uniqueSuffix(o.suffixData) && GoodDelta(p, o.delta)
  }

  predicate GoodRecover(p: Primitives, o: RecoverOperation) {
    && IsMultihash(p, o.revealValue) && GoodJws(p, o.signedDataJws) && GoodDelta(p, o.delta)
    && p.recoverPayload(o.signedDataJws.payload).Ok?
  }

  predicate GoodDeactivate(p: Primitives, o: DeactivateOperation) {
    && IsMultihash(p, o.revealValue) && GoodJws(p, o.signedDataJws)
    && ParseDeactivatePayload(p, o.signedDataJws.payload, Some(o.didUniqueSuffix)).Ok?
  }

  predicate GoodUpdate(p: Primitives, o: UpdateOperation) {
    && IsMultihash(p, o.revealValue) && GoodJws(p, o.signedDataJws) && GoodDelta(p, o.delta)
    && p.updatePayload(o.signedDataJws.payload).Ok?
  }

  predicate GoodModel(p: Primitives, m: OperationModel) {
    match m
    case CreateModel(o) => GoodCreate(p, o)
    case RecoverModel(o) => GoodRecover(p, o)
    case DeactivateModel(o) => GoodDeactivate(p, o)
    case UpdateModel(o) => GoodUpdate(p, o)
  }

  lemma AdmittedModelIsGood(p: Primitives, request: Request)
    requires Admit(p, request).Ok?
    ensures GoodModel(p, Admit(p, request).value)
  {
    if !request.CreateRequest? {
      PrintingUndoesParsing(p, request.signedData);
    }
  }

  predicate GoodBatch(p: Primitives, batch: Batch) {
    && (forall i :: 0 <= i < |batch.creates| ==> GoodCreate(p, batch.creates[i]))
    && (forall i :: 0 <= i < |batch.recovers| ==> GoodRecover(p, batch.recovers[i]))
    && (forall i :: 0 <= i < |batch.deactivates| ==> GoodDeactivate(p, batch.deactivates[i]))
    && (forall i :: 0 <= i < |batch.updates| ==> GoodUpdate(p, batch.updates[i]))
  }

  /** The requests of one type that a partitioned batch came from. */
  function RequestsIn(batch: Batch, t: OperationType): seq<Request> {
    match t
    case Create =>
      seq(|batch.creates|, i requires 0 <= i < |batch.creates| => RequestOf(CreateModel(batch.creates[i])))
    case Recover =>
      seq(|batch.recovers|, i requires 0 <= i < |batch.recovers| => RequestOf(RecoverModel(batch.recovers[i])))
    case Deactivate =>
      seq(|batch.deactivates|, i requires 0 <= i < |batch.deactivates| =>
        RequestOf(DeactivateModel(batch.deactivates[i])))
    case Update =>
      seq(|batch.updates|, i requires 0 <= i < |batch.updates| => RequestOf(UpdateModel(batch.updates[i])))
  }

  lemma SortedAddsRequest(batch: Batch, model: OperationModel, t: OperationType)
    ensures RequestsIn(Sorted(batch, model), t)
            == RequestsIn(batch, t) + if TypeOf(RequestOf(model)) == t then [RequestOf(model)] else []
  {
  }

  /** Partitioning parsed operations sorts the requests they came from by type. */
  lemma {:induction false} PartitionSortsByType(models: seq<OperationModel>, requests: seq<Request>, t: OperationType)
    requires |models| == |requests|
    requires forall i :: 0 <= i < |models| ==> RequestOf(models[i]) == requests[i]
    ensures RequestsIn(Partition(models), t) == OfType(requests, t)
  {
    if models == [] {
      assert RequestsIn(Partition(models), t) == [];
    } else {
      var n := |models| - 1;
      PartitionSortsByType(models[..n], requests[..n], t);
      SortedAddsRequest(Partition(models[..n]), models[n], t);
    }
  }

  lemma {:induction false} PartitionKeepsGood(p: Primitives, models: seq<OperationModel>)
    requires forall i :: 0 <= i < |models| ==> GoodModel(p, models[i])
    ensures GoodBatch(p, Partition(models))
  {
    if models != [] {
      var n := |models| - 1;
      PartitionKeepsGood(p, models[..n]);
      assert GoodModel(p, models[n]);
    }
  }

  // ------------------------------------------------------------ each file is read back

  function Suffixes(p: Primitives, batch: Batch, t: OperationType): seq<string> {
    RequestSuffixes(p, RequestsIn(batch, t))
  }

  function CoreSuffixes(p: Primitives, batch: Batch): seq<string> {
    Suffixes(p, batch, Create) + Suffixes(p, batch, Recover) + Suffixes(p, batch, Deactivate)
  }

  predicate Encoded(p: Primitives, batch: Batch, t: OperationType) {
    SuffixesEncoded(p, RequestsIn(batch, t))
  }

  lemma PackedRecovers(p: Primitives, batch: Batch)
    requires GoodBatch(p, batch)
    ensures ReferenceSuffixes(RecoverReferences(batch.recovers)) == Suffixes(p, batch, Recover)
    ensures ValidReferences(p, RecoverReferences(batch.recovers)) <==> Encoded(p, batch, Recover)
  {
    EncodedReferences(p, RecoverReferences(batch.recovers), RequestsIn(batch, Recover));
  }

  lemma PackedDeactivates(p: Primitives, batch: Batch)
    requires GoodBatch(p, batch)
    ensures ReferenceSuffixes(DeactivateReferences(batch.deactivates)) == Suffixes(p, batch, Deactivate)
    ensures ValidReferences(p, DeactivateReferences(batch.deactivates)) <==> Encoded(p, batch, Deactivate)
  {
    EncodedReferences(p, DeactivateReferences(batch.deactivates), RequestsIn(batch, Deactivate));
  }

  lemma PackedUpdates(p: Primitives, batch: Batch)
    requires GoodBatch(p, batch)
    ensures ReferenceSuffixes(UpdateReferences(batch.updates)) == Suffixes(p, batch, Update)
    ensures ValidReferences(p, UpdateReferences(batch.updates)) <==> Encoded(p, batch, Update)
  {
    EncodedReferences(p, UpdateReferences(batch.updates), RequestsIn(batch, Update));
  }

  lemma EncodedReferences(p: Primitives, references: seq<Reference>, requests: seq<Request>)
    requires |references| == |requests|
    requires forall i :: 0 <= i < |requests| ==>
               && !requests[i].CreateRequest?
               && requests[i].didSuffix == references[i].didSuffix
               && IsMultihash(p, references[i].revealValue)
    ensures ValidReferences(p, references) <==> SuffixesEncoded(p, requests)
  {
    if SuffixesEncoded(p, requests) {
      forall i | 0 <= i < |references|
        ensures IsMultihash(p, references[i].didSuffix)
      {
        assert requests[i] in requests;
      }
    }
    if ValidReferences(p, references) {
      forall i | 0 <= i < |requests|
        ensures IsMultihash(p, requests[i].didSuffix)
      {
        assert references[i] in references;
      }
    }
  }

  /** The core index file of a batch is rejected only for a DID suffix that is not a multihash. */
  lemma PackedCoreIndex(
    p: Primitives, lockId: Option<string>, provisionalIndexUri: Option<string>, coreProofUri: Option<string>,
    batch: Batch)
    requires GoodBatch(p, batch) && NoDuplicates(CoreSuffixes(p, batch))
    requires CheckWriterLockId(lockId).Ok?
    requires provisionalIndexUri.Some? ==> |provisionalIndexUri.value| <= MAX_CAS_URI_LENGTH
    requires coreProofUri.Some? ==> |coreProofUri.value| <= MAX_CAS_URI_LENGTH
    requires batch.creates != [] || batch.recovers != [] ==> provisionalIndexUri.Some?
    requires coreProofUri.Some? <==> batch.recovers != [] || batch.deactivates != []
    ensures var model := CoreIndexFile.CreateFileModel(
              lockId, provisionalIndexUri, coreProofUri, batch.creates, batch.recovers, batch.deactivates);
            && Indexed(p, model) == CoreIndex(model, CoreSuffixes(p, batch), Suffixes(p, batch, Create),
                                              Suffixes(p, batch, Recover), Suffixes(p, batch, Deactivate))
            && CheckModel(p, model)
               == if Encoded(p, batch, Recover) && Encoded(p, batch, Deactivate) then Ok(())
                  else Err(EncodedMultihashNotSupported)
  {
    PackedRecovers(p, batch);
    PackedDeactivates(p, batch);
    var model := CoreIndexFile.CreateFileModel(
      lockId, provisionalIndexUri, coreProofUri, batch.creates, batch.recovers, batch.deactivates);
    assert CreateSuffixes(p, Creates(model)) == Suffixes(p, batch, Create);
    assert ValidCreates(p, Creates(model));
  }

  function RecoverJws(batch: Batch): seq<Jws> {
    seq(|batch.recovers|, i requires 0 <= i < |batch.recovers| => batch.recovers[i].signedDataJws)
  }

  function DeactivateJws(batch: Batch): seq<Jws> {
    seq(|batch.deactivates|, i requires 0 <= i < |batch.deactivates| => batch.deactivates[i].signedDataJws)
  }

  function UpdateJws(batch: Batch): seq<Jws> {
    seq(|batch.updates|, i requires 0 <= i < |batch.updates| => batch.updates[i].signedDataJws)
  }

  lemma PackedRecoverProofs(p: Primitives, batch: Batch)
    requires GoodBatch(p, batch)
    ensures ParseAll(RecoverProofParser(p), RecoverProofs(batch.recovers)) == Ok(RecoverJws(batch))
  {
    var proofs := RecoverProofs(batch.recovers);
    forall i | 0 <= i < |proofs|
      ensures RecoverProofParser(p)(i, proofs[i]) == Ok(RecoverJws(batch)[i])
    {
      assert GoodRecover(p, batch.recovers[i]);
    }
    ParsesTo(RecoverProofParser(p), proofs, RecoverJws(batch));
  }

  lemma PackedDeactivateProofs(p: Primitives, batch: Batch, expected: seq<string>)
    requires GoodBatch(p, batch) && expected == Suffixes(p, batch, Deactivate)
    ensures ParseAll(DeactivateProofParser(p, expected), DeactivateProofs(batch.deactivates))
            == Ok(DeactivateJws(batch))
  {
    var proofs := DeactivateProofs(batch.deactivates);
    forall i | 0 <= i < |proofs|
      ensures DeactivateProofParser(p, expected)(i, proofs[i]) == Ok(DeactivateJws(batch)[i])
    {
      assert GoodDeactivate(p, batch.deactivates[i]) && expected[i] == batch.deactivates[i].didUniqueSuffix;
    }
    ParsesTo(DeactivateProofParser(p, expected), proofs, DeactivateJws(batch));
  }

  lemma PackedCoreProof(ctx: Context, batch: Batch)
    requires ctx.codec.Lawful() && GoodBatch(ctx.primitives, batch)
    requires batch.recovers != [] || batch.deactivates != []
    ensures CoreProofFile.Parsed(ctx, CoreProofFile.CreateBuffer(ctx, batch.recovers, batch.deactivates).value,
                                 Suffixes(ctx.primitives, batch, Deactivate))
            == Ok(CoreProof(RecoverJws(batch), DeactivateJws(batch)))
  {
    var recovers, deactivates := RecoverProofs(batch.recovers), DeactivateProofs(batch.deactivates);
    var model := CoreProofFileModel(Some(CoreProofs(Some(recovers), Some(deactivates))));
    assert ctx.codec.decodeCoreProof(CoreProofFile.CreateBuffer(ctx, batch.recovers, batch.deactivates).value)
        == Ok(model);
    PackedRecoverProofs(ctx.primitives, batch);
    PackedDeactivateProofs(ctx.primitives, batch, Suffixes(ctx.primitives, batch, Deactivate));
  }

  lemma PackedProvisionalProof(ctx: Context, batch: Batch)
    requires ctx.codec.Lawful() && GoodBatch(ctx.primitives, batch) && batch.updates != []
    ensures ProvisionalProofFile.Parsed(ctx, ProvisionalProofFile.CreateBuffer(ctx, batch.updates).value)
            == Ok(UpdateJws(batch))
  {
    var p, updates := ctx.primitives, ProvisionalProofFile.UpdateProofs(batch.updates);
    forall i | 0 <= i < |updates|
      ensures ProvisionalProofFile.UpdateProofParser(p)(i, updates[i]) == Ok(UpdateJws(batch)[i])
    {
      assert GoodUpdate(p, batch.updates[i]);
    }
    ParsesTo(ProvisionalProofFile.UpdateProofParser(p), updates, UpdateJws(batch));
  }

  function OptionalDeltas(batch: Batch): seq<Option<Delta>> {
    ChunkFile.CreateDeltas(batch.creates) + ChunkFile.RecoverDeltas(batch.recovers)
    + ChunkFile.UpdateDeltas(batch.updates)
  }

  lemma DeltasAreGood(p: Primitives, batch: Batch)
    requires GoodBatch(p, batch)
    ensures forall i :: 0 <= i < |OptionalDeltas(batch)| ==> GoodDelta(p, OptionalDeltas(batch)[i])
  {
  }

  /** The deltas of a well-formed batch, in chunk file order. */
  function Deltas(p: Primitives, deltas: seq<Option<Delta>>): (r: seq<Delta>)
    requires forall i :: 0 <= i < |deltas| ==> GoodDelta(p, deltas[i])
  {
    seq(|deltas|, i requires 0 <= i < |deltas| => assert GoodDelta(p, deltas[i]); deltas[i].value)
  }

  lemma GoodDeltasParse(p: Primitives, deltas: seq<Option<Delta>>)
    requires forall i :: 0 <= i < |deltas| ==> GoodDelta(p, deltas[i])
    ensures ParseAll(ChunkFile.DeltaParser(p), deltas) == Ok(Deltas(p, deltas))
    ensures None !in deltas
  {
    forall i | 0 <= i < |deltas|
      ensures ChunkFile.DeltaParser(p)(i, deltas[i]) == Ok(Deltas(p, deltas)[i])
    {
      assert GoodDelta(p, deltas[i]);
    }
    ParsesTo(ChunkFile.DeltaParser(p), deltas, Deltas(p, deltas));
  }

  lemma PackedChunk(ctx: Context, batch: Batch)
    requires ctx.codec.Lawful() && GoodBatch(ctx.primitives, batch) && OptionalDeltas(batch) != []
    ensures forall i :: 0 <= i < |OptionalDeltas(batch)| ==> GoodDelta(ctx.primitives, OptionalDeltas(batch)[i])
    ensures ChunkFile.Parsed(ctx, ChunkFile.CreateBuffer(ctx, batch.creates, batch.recovers, batch.updates).value)
            == Ok(Deltas(ctx.primitives, OptionalDeltas(batch)))
  {
    DeltasAreGood(ctx.primitives, batch);
    GoodDeltasParse(ctx.primitives, OptionalDeltas(batch));
  }

  lemma PackedProvisionalIndex(ctx: Context, chunkUri: string, proofUri: Option<string>, batch: Batch)
    requires ctx.codec.Lawful() && GoodBatch(ctx.primitives, batch)
    requires NoDuplicates(Suffixes(ctx.primitives, batch, Update))
    requires |chunkUri| <= MAX_CAS_URI_LENGTH
    requires proofUri.Some? ==> |proofUri.value| <= MAX_CAS_URI_LENGTH
    requires proofUri.Some? <==> batch.updates != []
    ensures ProvisionalIndexFile.Parse(ctx, ctx.codec.encodeProvisionalIndex(
              ProvisionalIndexFile.CreateFileModel(chunkUri, proofUri, batch.updates)))
            == if Encoded(ctx.primitives, batch, Update) then
                 Ok(ProvisionalIndex(chunkUri, UpdateReferences(batch.updates), proofUri,
                                     Suffixes(ctx.primitives, batch, Update)))
               else Err(EncodedMultihashNotSupported)
  {
    PackedUpdates(ctx.primitives, batch);
  }

  // ------------------------------------------------------------ the batch as a whole

  /** Addresses fit the limit on URIs and can be part of an anchor string. */
  ghost predicate GoodAddresses(address: Address) {
    forall b :: |address(b)| <= MAX_CAS_URI_LENGTH && AnchoredDataSerializer.DELIMITER !in address(b)
  }

  predicate Downloadable(fetch: Downloads, address: Address, buffer: Option<Buffer>, maxSize: nat) {
    buffer.Some? ==> fetch(address(buffer.value), maxSize) == Success(buffer.value)
  }

  /** Every file of a batch can be downloaded within its size limit. */
  predicate Serves(fetch: Downloads, address: Address, files: PackedFiles) {
    && Downloadable(fetch, address, files.coreProof, MAX_PROOF_FILE_SIZE)
    && Downloadable(fetch, address, files.provisionalProof, MAX_PROOF_FILE_SIZE)
    && Downloadable(fetch, address, files.chunk, MAX_CHUNK_FILE_SIZE)
    && Downloadable(fetch, address, files.provisionalIndex, MAX_PROVISIONAL_INDEX_FILE_SIZE)
    && (files.coreIndex.Ok? ==>
          fetch(address(files.coreIndex.value), MAX_CORE_INDEX_FILE_SIZE) == Success(files.coreIndex.value))
  }

  /** The lock the writer used is known under its identifier, belongs to the transaction's writer and is active. */
  predicate LockHolds(ctx: Context, lock: Option<ValueTimeLock>, transaction: Transaction) {
    lock.Some? ==>
      && lock.value.identifier != ""
      && ctx.valueTimeLock(lock.value.identifier) == lock
      && lock.value.owner == transaction.writer
      && lock.value.lockTransactionTime <= transaction.transactionTime < lock.value.unlockTransactionTime
  }

  /** The files a well-formed batch is read back into. */
  function PackedCoreFiles(ctx: Context, address: Address, lockId: Option<string>, batch: Batch, count: nat)
    : CoreFiles
  {
    var files := Pack(ctx, address, lockId, batch);
    var model := CoreIndexFile.CreateFileModel(
      lockId, UriOf(address, files.provisionalIndex), UriOf(address, files.coreProof),
      batch.creates, batch.recovers, batch.deactivates);
    CoreFiles(
      Indexed(ctx.primitives, model),
      if files.coreProof.Some? then Some(CoreProof(RecoverJws(batch), DeactivateJws(batch))) else None,
      count)
  }

  /** The core files describe the batch. */
  predicate Describes(p: Primitives, core: CoreFiles, batch: Batch) {
    && core.index.didUniqueSuffixes == CoreSuffixes(p, batch)
    && core.index.createDidSuffixes == Suffixes(p, batch, Create)
    && core.index.recoverDidSuffixes == Suffixes(p, batch, Recover)
    && core.index.deactivateDidSuffixes == Suffixes(p, batch, Deactivate)
  }

  lemma CoreIndexIsParsed(ctx: Context, address: Address, lockId: Option<string>, batch: Batch, count: nat)
    requires ctx.codec.Lawful() && GoodAddresses(address) && GoodBatch(ctx.primitives, batch)
    requires NoDuplicates(CoreSuffixes(ctx.primitives, batch))
    requires Pack(ctx, address, lockId, batch).coreIndex.Ok?
    ensures CoreIndexFile.Parsed(ctx, Pack(ctx, address, lockId, batch).coreIndex.value)
            == if Encoded(ctx.primitives, batch, Recover) && Encoded(ctx.primitives, batch, Deactivate) then
                 Ok(PackedCoreFiles(ctx, address, lockId, batch, count).index)
               else Err(EncodedMultihashNotSupported)
    ensures Describes(ctx.primitives, PackedCoreFiles(ctx, address, lockId, batch, count), batch)
    ensures PackedCoreFiles(ctx, address, lockId, batch, count).index.model.writerLockId == lockId
  {
    var files := Pack(ctx, address, lockId, batch);
    PackedCoreIndex(
      ctx.primitives, lockId, UriOf(address, files.provisionalIndex), UriOf(address, files.coreProof), batch);
  }

  lemma CoreIndexIsWithinLimits(
    ctx: Context, lock: Option<ValueTimeLock>, transaction: Transaction, index: CoreIndex, count: nat)
    requires LockHolds(ctx, lock, transaction) && index.model.writerLockId == LockId(lock)
    requires |index.didUniqueSuffixes| <= count <= GetNumberOfOperationsAllowed(ctx, lock)
    ensures CheckCoreIndex(ctx, transaction, index, count).Ok?
  {
    assert LockOf(ctx, index.model) == lock;
  }

  lemma CoreIndexIsReadBack(
    ctx: Context, address: Address, fetch: Downloads, lock: Option<ValueTimeLock>, batch: Batch,
    transaction: Transaction, count: nat)
    requires ctx.codec.Lawful() && GoodAddresses(address) && GoodBatch(ctx.primitives, batch)
    requires NoDuplicates(CoreSuffixes(ctx.primitives, batch))
    requires Pack(ctx, address, LockId(lock), batch).coreIndex.Ok?
    requires Serves(fetch, address, Pack(ctx, address, LockId(lock), batch))
    requires LockHolds(ctx, lock, transaction)
    requires |CoreSuffixes(ctx.primitives, batch)| <= count <= GetNumberOfOperationsAllowed(ctx, lock)
    ensures VerifyCoreIndexFile(
              ctx, fetch, transaction, address(Pack(ctx, address, LockId(lock), batch).coreIndex.value), count)
            == if Encoded(ctx.primitives, batch, Recover) && Encoded(ctx.primitives, batch, Deactivate) then
                 Ok(PackedCoreFiles(ctx, address, LockId(lock), batch, count).index)
               else Err(EncodedMultihashNotSupported)
    ensures Describes(ctx.primitives, PackedCoreFiles(ctx, address, LockId(lock), batch, count), batch)
  {
    CoreIndexIsParsed(ctx, address, LockId(lock), batch, count);
    CoreIndexIsWithinLimits(
      ctx, lock, transaction, PackedCoreFiles(ctx, address, LockId(lock), batch, count).index, count);
  }

  lemma CoreProofIsReadBack(
    ctx: Context, address: Address, fetch: Downloads, lock: Option<ValueTimeLock>, batch: Batch, count: nat)
    requires ctx.codec.Lawful() && GoodAddresses(address) && GoodBatch(ctx.primitives, batch)
    requires Serves(fetch, address, Pack(ctx, address, LockId(lock), batch))
    requires PackedCoreFiles(ctx, address, LockId(lock), batch, count).index.recoverDidSuffixes
             == Suffixes(ctx.primitives, batch, Recover)
    requires PackedCoreFiles(ctx, address, LockId(lock), batch, count).index.deactivateDidSuffixes
             == Suffixes(ctx.primitives, batch, Deactivate)
    ensures VerifyCoreProofFile(ctx, fetch, PackedCoreFiles(ctx, address, LockId(lock), batch, count).index)
            == Ok(PackedCoreFiles(ctx, address, LockId(lock), batch, count).proof)
  {
    if batch.recovers != [] || batch.deactivates != [] {
      PackedCoreProof(ctx, batch);
    }
  }

  function PackedProvisionalFiles(ctx: Context, address: Address, lockId: Option<string>, batch: Batch)
    : ProvisionalFiles
    requires GoodBatch(ctx.primitives, batch)
  {
    var files := Pack(ctx, address, lockId, batch);
    if files.chunk.None? then NO_PROVISIONAL_FILES
    else
      DeltasAreGood(ctx.primitives, batch);
      ProvisionalFiles(
        Some(ProvisionalIndex(address(files.chunk.value), UpdateReferences(batch.updates),
                              UriOf(address, files.provisionalProof), Suffixes(ctx.primitives, batch, Update))),
        if batch.updates != [] then Some(UpdateJws(batch)) else None,
        Some(Deltas(ctx.primitives, OptionalDeltas(batch))))
  }

  lemma ProvisionalIndexIsReadBack(
    ctx: Context, address: Address, fetch: Downloads, lockId: Option<string>, batch: Batch, core: CoreFiles)
    requires ctx.codec.Lawful() && GoodAddresses(address) && GoodBatch(ctx.primitives, batch)
    requires NoDuplicates(CoreSuffixes(ctx.primitives, batch) + Suffixes(ctx.primitives, batch, Update))
    requires Serves(fetch, address, Pack(ctx, address, lockId, batch))
    requires Describes(ctx.primitives, core, batch)
    requires core.index.model.provisionalIndexFileUri
             == UriOf(address, Pack(ctx, address, lockId, batch).provisionalIndex)
    requires core.paid >= |CoreSuffixes(ctx.primitives, batch)| + |Suffixes(ctx.primitives, batch, Update)|
    ensures VerifyProvisionalIndexFile(ctx, fetch, core.index, core.paid)
            == if Encoded(ctx.primitives, batch, Update) then
                 Ok(PackedProvisionalFiles(ctx, address, lockId, batch).index)
               else Err(EncodedMultihashNotSupported)
  {
    var files := Pack(ctx, address, lockId, batch);
    NoDuplicatesInConcatenation(CoreSuffixes(ctx.primitives, batch), Suffixes(ctx.primitives, batch, Update));
    if files.chunk.Some? {
      PackedProvisionalIndex(ctx, address(files.chunk.value), UriOf(address, files.provisionalProof), batch);
    } else {
      assert OptionalDeltas(batch) == [];
      assert |batch.updates| == 0;
    }
  }

  lemma ProvisionalProofIsReadBack(
    ctx: Context, address: Address, fetch: Downloads, lockId: Option<string>, batch: Batch)
    requires ctx.codec.Lawful() && GoodAddresses(address) && GoodBatch(ctx.primitives, batch)
    requires Serves(fetch, address, Pack(ctx, address, lockId, batch))
    ensures var files := PackedProvisionalFiles(ctx, address, lockId, batch);
            VerifyProvisionalProofFile(ctx, fetch, files.index) == Ok(files.proof)
  {
    var files := PackedProvisionalFiles(ctx, address, lockId, batch);
    if batch.updates != [] {
      PackedProvisionalProof(ctx, batch);
      var buffer := Pack(ctx, address, lockId, batch).provisionalProof.value;
      assert DownloadFile(fetch, files.index.value.provisionalProofFileUri.value, MAX_PROOF_FILE_SIZE) == Ok(buffer);
      assert ProvisionalProofFile.Parsed(ctx, buffer) == Ok(files.proof.value);
    }
  }

  lemma ChunkIsReadBack(
    ctx: Context, address: Address, fetch: Downloads, lockId: Option<string>, batch: Batch, core: CoreFiles)
    requires ctx.codec.Lawful() && GoodAddresses(address) && GoodBatch(ctx.primitives, batch)
    requires Serves(fetch, address, Pack(ctx, address, lockId, batch))
    requires Describes(ctx.primitives, core, batch)
    ensures var files := PackedProvisionalFiles(ctx, address, lockId, batch);
            VerifyChunkFile(ctx, fetch, core.index, files.index) == Ok(files.deltas)
  {
    var files := PackedProvisionalFiles(ctx, address, lockId, batch);
    if files.index.Some? {
      PackedChunk(ctx, batch);
      var buffer := Pack(ctx, address, lockId, batch).chunk.value;
      assert DownloadFile(fetch, files.index.value.chunkFileUri, MAX_CHUNK_FILE_SIZE) == Ok(buffer);
      assert ChunkFile.Parsed(ctx, buffer) == Ok(files.deltas.value);
    }
  }

  lemma ProvisionalFilesAreReadBack(
    ctx: Context, address: Address, fetch: Downloads, lockId: Option<string>, batch: Batch, core: CoreFiles)
    requires ctx.codec.Lawful() && GoodAddresses(address) && GoodBatch(ctx.primitives, batch)
    requires NoDuplicates(CoreSuffixes(ctx.primitives, batch) + Suffixes(ctx.primitives, batch, Update))
    requires Serves(fetch, address, Pack(ctx, address, lockId, batch))
    requires Describes(ctx.primitives, core, batch)
    requires core.index.model.provisionalIndexFileUri
             == UriOf(address, Pack(ctx, address, lockId, batch).provisionalIndex)
    requires core.paid >= |CoreSuffixes(ctx.primitives, batch)| + |Suffixes(ctx.primitives, batch, Update)|
    ensures VerifyProvisionalFiles(ctx, fetch, core)
            == if Encoded(ctx.primitives, batch, Update) then
                 Ok(PackedProvisionalFiles(ctx, address, lockId, batch))
               else Err(EncodedMultihashNotSupported)
  {
    ProvisionalIndexIsReadBack(ctx, address, fetch, lockId, batch, core);
    if Encoded(ctx.primitives, batch, Update) {
      ProvisionalProofIsReadBack(ctx, address, fetch, lockId, batch);
      ChunkIsReadBack(ctx, address, fetch, lockId, batch, core);
    }
  }

  // ------------------------------------------------------------ the operations are rebuilt

  /** Requests anchored by a transaction at consecutive positions. */
  function RebuiltFrom(p: Primitives, transaction: Transaction, requests: seq<Request>, start: nat)
    : seq<AnchoredOperation>
  {
    seq(|requests|, i requires 0 <= i < |requests| =>
      Composed(transaction, SuffixOf(p, requests[i]), requests[i], start + i))
  }

  lemma RebuiltConcatenation(
    p: Primitives, transaction: Transaction, a: seq<Request>, b: seq<Request>, start: nat)
    ensures RebuiltFrom(p, transaction, a + b, start)
            == RebuiltFrom(p, transaction, a, start) + RebuiltFrom(p, transaction, b, start + |a|)
  {
  }

  /** Core files that were read back from the packed form of a batch. */
  predicate Represents(p: Primitives, core: CoreFiles, batch: Batch) {
    && core.Valid()
    && Describes(p, core, batch)
    && Creates(core.index.model) == SuffixDatas(batch.creates)
    && Recovers(core.index.model) == RecoverReferences(batch.recovers)
    && Deactivates(core.index.model) == DeactivateReferences(batch.deactivates)
    && (core.proof.Some? ==> core.proof.value == CoreProof(RecoverJws(batch), DeactivateJws(batch)))
  }

  predicate DeltasMatch(deltas: Option<seq<Delta>>, batch: Batch) {
    forall i :: 0 <= i < |OptionalDeltas(batch)| ==> DeltaAt(deltas, i) == OptionalDeltas(batch)[i]
  }

  /** The provisional and chunk files that go with them. */
  predicate RepresentsRest(p: Primitives, core: CoreFiles, provisional: ProvisionalFiles, batch: Batch) {
    && provisional.Valid(core)
    && DeltasMatch(provisional.deltas, batch)
    && (provisional.index.None? ==> batch.updates == [])
    && (provisional.index.Some? ==>
          && provisional.index.value.updates == UpdateReferences(batch.updates)
          && provisional.index.value.didUniqueSuffixes == Suffixes(p, batch, Update)
          && (batch.updates != [] ==> provisional.proof == Some(UpdateJws(batch))))
  }

  lemma CreatesAreRebuilt(
    p: Primitives, core: CoreFiles, deltas: Option<seq<Delta>>, batch: Batch, transaction: Transaction)
    requires Represents(p, core, batch) && DeltasMatch(deltas, batch)
    ensures ComposedCreates(transaction, core, deltas) == RebuiltFrom(p, transaction, RequestsIn(batch, Create), 0)
  {
    assert forall i :: 0 <= i < |batch.creates| ==> OptionalDeltas(batch)[i] == batch.creates[i].delta;
  }

  lemma RecoversAreRebuilt(
    p: Primitives, core: CoreFiles, deltas: Option<seq<Delta>>, batch: Batch, transaction: Transaction)
    requires Represents(p, core, batch) && DeltasMatch(deltas, batch)
    ensures ComposedRecovers(transaction, core, deltas)
            == RebuiltFrom(p, transaction, RequestsIn(batch, Recover), |batch.creates|)
  {
    forall i | 0 <= i < |batch.recovers|
      ensures DeltaAt(deltas, |batch.creates| + i) == batch.recovers[i].delta
    {
      assert OptionalDeltas(batch)[|batch.creates| + i] == batch.recovers[i].delta;
    }
  }

  lemma DeactivatesAreRebuilt(p: Primitives, core: CoreFiles, batch: Batch, transaction: Transaction)
    requires Represents(p, core, batch)
    requires batch.deactivates == [] || (batch.creates == [] && batch.recovers == [])
    ensures ComposedDeactivates(transaction, core)
            == Ok(RebuiltFrom(p, transaction, RequestsIn(batch, Deactivate), |batch.creates| + |batch.recovers|))
  {
    if batch.deactivates != [] {
      assert core.index.didUniqueSuffixes == core.index.deactivateDidSuffixes;
      assert ComposedDeactivates(transaction, core).value
          == RebuiltFrom(p, transaction, RequestsIn(batch, Deactivate), |batch.creates| + |batch.recovers|);
    } else {
      assert RequestsIn(batch, Deactivate) == [];
      assert RebuiltFrom(p, transaction, [], |batch.creates| + |batch.recovers|) == [];
    }
  }

  lemma UpdateIsRebuilt(
    p: Primitives, core: CoreFiles, provisional: ProvisionalFiles, batch: Batch, transaction: Transaction, i: nat)
    requires Represents(p, core, batch) && RepresentsRest(p, core, provisional, batch)
    requires i < |batch.updates| && provisional.index.Some?
    ensures ComposedUpdate(transaction, core, provisional, i)
            == RebuiltFrom(p, transaction, RequestsIn(batch, Update),
                           |batch.creates| + |batch.recovers| + |batch.deactivates|)[i]
  {
    var start := |batch.creates| + |batch.recovers|;
    assert OptionalDeltas(batch)[start + i] == batch.updates[i].delta;
  }

  lemma UpdatesAreRebuilt(
    p: Primitives, core: CoreFiles, provisional: ProvisionalFiles, batch: Batch, transaction: Transaction)
    requires Represents(p, core, batch) && RepresentsRest(p, core, provisional, batch)
    ensures ComposedUpdates(transaction, core, provisional)
            == RebuiltFrom(p, transaction, RequestsIn(batch, Update),
                           |batch.creates| + |batch.recovers| + |batch.deactivates|)
  {
    if provisional.index.Some? {
      forall i | 0 <= i < |batch.updates|
        ensures ComposedUpdate(transaction, core, provisional, i)
                == RebuiltFrom(p, transaction, RequestsIn(batch, Update),
                               |batch.creates| + |batch.recovers| + |batch.deactivates|)[i]
      {
        UpdateIsRebuilt(p, core, provisional, batch, transaction, i);
      }
    }
  }

  // ------------------------------------------------------------ writer and observer

  /** The requests of the batch that the writer takes from the queue. */
  function Taken(ctx: Context, lock: Option<ValueTimeLock>, queue: seq<QueuedOperation>): seq<Request> {
    Requests(First(queue, GetNumberOfOperationsAllowed(ctx, lock)))
  }

  function TakenBatch(ctx: Context, lock: Option<ValueTimeLock>, queue: seq<QueuedOperation>): Batch
    requires ParseAll(RequestParser(ctx.primitives), Taken(ctx, lock, queue)).Ok?
  {
    Partition(ParseAll(RequestParser(ctx.primitives), Taken(ctx, lock, queue)).value)
  }

  /** A queue of admitted operations, at most one per DID. */
  predicate Ready(p: Primitives, queue: seq<QueuedOperation>) {
    AllAdmitted(p, queue) && OnePerDid(queue)
  }

  lemma AdmittedRequestsParse(ctx: Context, lock: Option<ValueTimeLock>, queue: seq<QueuedOperation>)
    requires Ready(ctx.primitives, queue)
    ensures ParseAll(RequestParser(ctx.primitives), Taken(ctx, lock, queue)).Ok?
    ensures GoodBatch(ctx.primitives, TakenBatch(ctx, lock, queue))
    ensures forall t :: RequestsIn(TakenBatch(ctx, lock, queue), t) == OfType(Taken(ctx, lock, queue), t)
  {
    var p, requests := ctx.primitives, Taken(ctx, lock, queue);
    var models := seq(|requests|, i requires 0 <= i < |requests| => Admit(p, requests[i]).value);
    forall i | 0 <= i < |requests|
      ensures RequestParser(p)(i, requests[i]) == Ok(models[i])
      ensures GoodModel(p, models[i]) && RequestOf(models[i]) == requests[i]
    {
      assert Admitted(p, queue[i]);
      AdmittedRequestIsRecovered(p, requests[i]);
      AdmittedModelIsGood(p, requests[i]);
    }
    ParsesTo(RequestParser(p), requests, models);
    PartitionKeepsGood(p, models);
    forall t {
      PartitionSortsByType(models, requests, t);
    }
  }

  lemma TakenDidsAreDistinct(ctx: Context, lock: Option<ValueTimeLock>, queue: seq<QueuedOperation>)
    requires Ready(ctx.primitives, queue)
    ensures NoDuplicates(RequestSuffixes(ctx.primitives, Taken(ctx, lock, queue)))
  {
    var p, requests := ctx.primitives, Taken(ctx, lock, queue);
    forall i | 0 <= i < |requests|
      ensures RequestSuffixes(p, requests)[i] == QueuedSuffixes(queue)[i]
    {
      assert Admitted(p, queue[i]);
    }
  }

  lemma SuffixesOfConcatenation(p: Primitives, a: seq<Request>, b: seq<Request>)
    ensures RequestSuffixes(p, a + b) == RequestSuffixes(p, a) + RequestSuffixes(p, b)
  {
  }

  /** The four lists of a taken batch hold its requests, one per DID. */
  lemma TakenBatchIsDistinct(ctx: Context, lock: Option<ValueTimeLock>, queue: seq<QueuedOperation>)
    requires Ready(ctx.primitives, queue)
    requires ParseAll(RequestParser(ctx.primitives), Taken(ctx, lock, queue)).Ok?
    requires forall t :: RequestsIn(TakenBatch(ctx, lock, queue), t) == OfType(Taken(ctx, lock, queue), t)
    ensures var batch := TakenBatch(ctx, lock, queue);
            && NoDuplicates(CoreSuffixes(ctx.primitives, batch) + Suffixes(ctx.primitives, batch, Update))
            && |CoreSuffixes(ctx.primitives, batch)| + |Suffixes(ctx.primitives, batch, Update)|
               == |Taken(ctx, lock, queue)|
  {
    var p, requests := ctx.primitives, Taken(ctx, lock, queue);
    TakenDidsAreDistinct(ctx, lock, queue);
    GroupingKeepsDidsDistinct(p, requests);
    TypesPartition(requests);
    var cr := OfType(requests, Create) + OfType(requests, Recover);
    SuffixesOfConcatenation(p, OfType(requests, Create), OfType(requests, Recover));
    SuffixesOfConcatenation(p, cr, OfType(requests, Deactivate));
    SuffixesOfConcatenation(p, cr + OfType(requests, Deactivate), OfType(requests, Update));
  }

  /** A transaction that anchors what the writer planned, at the fee it computed. */
  predicate AnchoredBy(
    ctx: Context, address: Address, normalizedFee: real, lock: Option<ValueTimeLock>, queue: seq<QueuedOperation>,
    transaction: Transaction)
  {
    var plan := Plan(ctx, address, normalizedFee, lock, queue);
    && plan.Anchoring?
    && transaction.anchorString == plan.anchorString
    && transaction.transactionFeePaid == plan.fee
    && transaction.normalizedTransactionFee <= normalizedFee
  }

  /** What the environment owes the writer: lawful codecs, usable addresses, an active lock it owns, and files that
      can be downloaded. */
  ghost predicate Cooperates(
    ctx: Context, address: Address, fetch: Downloads, lock: Option<ValueTimeLock>, queue: seq<QueuedOperation>,
    transaction: Transaction)
    requires ParseAll(RequestParser(ctx.primitives), Taken(ctx, lock, queue)).Ok?
  {
    && ctx.codec.Lawful()
    && GoodAddresses(address)
    && LockHolds(ctx, lock, transaction)
    && Serves(fetch, address, Pack(ctx, address, LockId(lock), TakenBatch(ctx, lock, queue)))
  }

  lemma AnchorIsAccepted(
    ctx: Context, address: Address, normalizedFee: real, lock: Option<ValueTimeLock>, queue: seq<QueuedOperation>,
    transaction: Transaction)
    requires GoodAddresses(address)
    requires AnchoredBy(ctx, address, normalizedFee, lock, queue, transaction)
    ensures ParseAll(RequestParser(ctx.primitives), Taken(ctx, lock, queue)).Ok?
    ensures Pack(ctx, address, LockId(lock), TakenBatch(ctx, lock, queue)).coreIndex.Ok?
    ensures 0 < |Taken(ctx, lock, queue)| <= GetNumberOfOperationsAllowed(ctx, lock)
    ensures AnchoredDataSerializer.Deserialize(transaction.anchorString)
            == Ok(AnchoredData(address(Pack(ctx, address, LockId(lock), TakenBatch(ctx, lock, queue)).coreIndex.value),
                               |Taken(ctx, lock, queue)|))
    ensures FeeManager.VerifyTransactionFee(
              transaction.transactionFeePaid, |Taken(ctx, lock, queue)|, transaction.normalizedTransactionFee).Ok?
  {
    var count := |Taken(ctx, lock, queue)|;
    var uri := address(Pack(ctx, address, LockId(lock), TakenBatch(ctx, lock, queue)).coreIndex.value);
    AnchoredDataSerializer.SerializeThenDeserialize(AnchoredData(uri, count));
    FeeManager.FeeSurvivesLowerNormalizedFee(count, normalizedFee, transaction.normalizedTransactionFee);
  }

  /** What the writer knows of the batch it takes. */
  lemma TakenBatchIsGood(ctx: Context, lock: Option<ValueTimeLock>, queue: seq<QueuedOperation>)
    requires Ready(ctx.primitives, queue)
    requires ParseAll(RequestParser(ctx.primitives), Taken(ctx, lock, queue)).Ok?
    ensures var p, batch := ctx.primitives, TakenBatch(ctx, lock, queue);
            && GoodBatch(p, batch)
            && NoDuplicates(CoreSuffixes(p, batch) + Suffixes(p, batch, Update)) && NoDuplicates(CoreSuffixes(p, batch))
            && |CoreSuffixes(p, batch)| + |Suffixes(p, batch, Update)| == |Taken(ctx, lock, queue)|
  {
    AdmittedRequestsParse(ctx, lock, queue);
    TakenBatchIsDistinct(ctx, lock, queue);
    var p, batch := ctx.primitives, TakenBatch(ctx, lock, queue);
    NoDuplicatesInConcatenation(CoreSuffixes(p, batch), Suffixes(p, batch, Update));
  }

  lemma CoreFilesFromParts(
    ctx: Context, fetch: Downloads, transaction: Transaction, uri: string, core: CoreFiles, encoded: bool)
    requires AnchoredDataSerializer.Deserialize(transaction.anchorString) == Ok(AnchoredData(uri, core.paid))
    requires FeeManager.VerifyTransactionFee(
               transaction.transactionFeePaid, core.paid, transaction.normalizedTransactionFee).Ok?
    requires VerifyCoreIndexFile(ctx, fetch, transaction, uri, core.paid)
             == if encoded then Ok(core.index) else Err(EncodedMultihashNotSupported)
    requires VerifyCoreProofFile(ctx, fetch, core.index) == Ok(core.proof)
    ensures VerifyCoreFiles(ctx, fetch, transaction) == if encoded then Ok(core) else Err(EncodedMultihashNotSupported)
  {
  }

  lemma CoreFilesAreReadBack(
    ctx: Context, address: Address, fetch: Downloads, normalizedFee: real, lock: Option<ValueTimeLock>,
    queue: seq<QueuedOperation>, transaction: Transaction)
    requires Ready(ctx.primitives, queue)
    requires AnchoredBy(ctx, address, normalizedFee, lock, queue, transaction)
    requires ParseAll(RequestParser(ctx.primitives), Taken(ctx, lock, queue)).Ok?
    requires Cooperates(ctx, address, fetch, lock, queue, transaction)
    ensures var batch := TakenBatch(ctx, lock, queue);
            var core := PackedCoreFiles(ctx, address, LockId(lock), batch, |Taken(ctx, lock, queue)|);
            && Describes(ctx.primitives, core, batch)
            && VerifyCoreFiles(ctx, fetch, transaction)
               == if Encoded(ctx.primitives, batch, Recover) && Encoded(ctx.primitives, batch, Deactivate) then Ok(core)
                  else Err(EncodedMultihashNotSupported)
  {
    var p, batch, count := ctx.primitives, TakenBatch(ctx, lock, queue), |Taken(ctx, lock, queue)|;
    TakenBatchIsGood(ctx, lock, queue);
    AnchorIsAccepted(ctx, address, normalizedFee, lock, queue, transaction);
    CoreIndexIsReadBack(ctx, address, fetch, lock, batch, transaction, count);
    CoreProofIsReadBack(ctx, address, fetch, lock, batch, count);
    CoreFilesFromParts(
      ctx, fetch, transaction, address(Pack(ctx, address, LockId(lock), batch).coreIndex.value),
      PackedCoreFiles(ctx, address, LockId(lock), batch, count),
      Encoded(p, batch, Recover) && Encoded(p, batch, Deactivate));
  }

  lemma OperationsAreRebuilt(
    p: Primitives, core: CoreFiles, provisional: ProvisionalFiles, batch: Batch, transaction: Transaction)
    requires Represents(p, core, batch) && RepresentsRest(p, core, provisional, batch)
    requires batch.deactivates == [] || (batch.creates == [] && batch.recovers == [])
    ensures ComposedOperations(transaction, core, provisional)
            == Ok(RebuiltFrom(p, transaction,
                              RequestsIn(batch, Create) + RequestsIn(batch, Recover) + RequestsIn(batch, Deactivate)
                              + RequestsIn(batch, Update), 0))
  {
    CreatesAreRebuilt(p, core, provisional.deltas, batch, transaction);
    RecoversAreRebuilt(p, core, provisional.deltas, batch, transaction);
    DeactivatesAreRebuilt(p, core, batch, transaction);
    UpdatesAreRebuilt(p, core, provisional, batch, transaction);
    var c, r, d, u :=
      RequestsIn(batch, Create), RequestsIn(batch, Recover), RequestsIn(batch, Deactivate), RequestsIn(batch, Update);
    RebuiltConcatenation(p, transaction, c, r, 0);
    RebuiltConcatenation(p, transaction, c + r, d, 0);
    RebuiltConcatenation(p, transaction, c + r + d, u, 0);
  }

  /** Files that were read back describe the batch, its proofs and its deltas. */
  lemma PackedFilesRepresent(
    ctx: Context, address: Address, lockId: Option<string>, batch: Batch, core: CoreFiles)
    requires GoodBatch(ctx.primitives, batch)
    requires core.Valid() && Describes(ctx.primitives, core, batch)
    requires core == PackedCoreFiles(ctx, address, lockId, batch, core.paid)
    ensures Represents(ctx.primitives, core, batch)
    ensures PackedProvisionalFiles(ctx, address, lockId, batch).Valid(core) ==>
              RepresentsRest(ctx.primitives, core, PackedProvisionalFiles(ctx, address, lockId, batch), batch)
  {
    if PackedProvisionalFiles(ctx, address, lockId, batch).index.None? {
      assert OptionalDeltas(batch) == [];
      assert |batch.updates| == 0;
    } else {
      DeltasAreGood(ctx.primitives, batch);
      forall i | 0 <= i < |OptionalDeltas(batch)|
        ensures Some(Deltas(ctx.primitives, OptionalDeltas(batch))[i]) == OptionalDeltas(batch)[i]
      {
        assert GoodDelta(ctx.primitives, OptionalDeltas(batch)[i]);
      }
    }
  }

  lemma EncodedByType(p: Primitives, requests: seq<Request>)
    ensures SuffixesEncoded(p, requests) <==>
            && SuffixesEncoded(p, OfType(requests, Recover))
            && SuffixesEncoded(p, OfType(requests, Deactivate))
            && SuffixesEncoded(p, OfType(requests, Update))
  {
    if SuffixesEncoded(p, OfType(requests, Recover)) && SuffixesEncoded(p, OfType(requests, Deactivate))
       && SuffixesEncoded(p, OfType(requests, Update)) {
      forall q | q in requests && !q.CreateRequest?
        ensures IsMultihash(p, q.didSuffix)
      {
        assert q in OfType(requests, TypeOf(q));
      }
    }
  }

  lemma MixedByType(requests: seq<Request>)
    ensures Mixed(requests) <==>
            OfType(requests, Deactivate) != [] && (OfType(requests, Create) != [] || OfType(requests, Recover) != [])
  {
    if OfType(requests, Deactivate) != [] && (OfType(requests, Create) != [] || OfType(requests, Recover) != []) {
      assert OfType(requests, Deactivate)[0].DeactivateRequest?;
      var o := if OfType(requests, Create) != [] then OfType(requests, Create)[0] else OfType(requests, Recover)[0];
      assert o.CreateRequest? || o.RecoverRequest?;
    }
    if Mixed(requests) {
      var d :| d in requests && d.DeactivateRequest?;
      assert d in OfType(requests, Deactivate);
      var o :| o in requests && (o.CreateRequest? || o.RecoverRequest?);
      assert o in OfType(requests, TypeOf(o));
    }
  }

  function WithoutDelta(request: Request): Request {
    match request
    case CreateRequest(suffixData, _) => CreateRequest(suffixData, None)
    case RecoverRequest(didSuffix, revealValue, signedData, _) => RecoverRequest(didSuffix, revealValue, signedData, None)
    case DeactivateRequest(_, _, _) => request
    case UpdateRequest(didSuffix, revealValue, signedData, _) => UpdateRequest(didSuffix, revealValue, signedData, None)
  }

  function WithoutDeltas(requests: seq<Request>): seq<Request> {
    seq(|requests|, i requires 0 <= i < |requests| => WithoutDelta(requests[i]))
  }

  lemma CoreOperationsWithoutDeltas(p: Primitives, core: CoreFiles, batch: Batch, transaction: Transaction)
    requires Represents(p, core, batch)
    ensures ComposedCreates(transaction, core, None)
            == RebuiltFrom(p, transaction, WithoutDeltas(RequestsIn(batch, Create)), 0)
    ensures ComposedRecovers(transaction, core, None)
            == RebuiltFrom(p, transaction, WithoutDeltas(RequestsIn(batch, Recover)), |batch.creates|)
  {
  }

  lemma ConcatenatedWithoutDeltas(c: seq<Request>, r: seq<Request>, d: seq<Request>)
    requires forall q <- d :: q.DeactivateRequest?
    ensures WithoutDeltas(c + r + d) == WithoutDeltas(c) + WithoutDeltas(r) + d
  {
    forall i | 0 <= i < |d|
      ensures WithoutDelta(d[i]) == d[i]
    {
      assert d[i] in d;
    }
  }

  lemma CoreOperationsAreRebuiltWithoutDeltas(
    p: Primitives, core: CoreFiles, batch: Batch, transaction: Transaction)
    requires Represents(p, core, batch)
    requires batch.deactivates == [] || (batch.creates == [] && batch.recovers == [])
    ensures ComposedOperations(transaction, core, NO_PROVISIONAL_FILES)
            == Ok(RebuiltFrom(p, transaction, WithoutDeltas(
                    RequestsIn(batch, Create) + RequestsIn(batch, Recover) + RequestsIn(batch, Deactivate)), 0))
  {
    var c, r, d := RequestsIn(batch, Create), RequestsIn(batch, Recover), RequestsIn(batch, Deactivate);
    CoreOperationsWithoutDeltas(p, core, batch, transaction);
    DeactivatesAreRebuilt(p, core, batch, transaction);
    ConcatenatedWithoutDeltas(c, r, d);
    RebuiltConcatenation(p, transaction, WithoutDeltas(c), WithoutDeltas(r), 0);
    RebuiltConcatenation(p, transaction, WithoutDeltas(c) + WithoutDeltas(r), d, 0);
    var all := ComposedCreates(transaction, core, None) + ComposedRecovers(transaction, core, None)
               + ComposedDeactivates(transaction, core).value;
    assert all + [] == all;
  }

  /** What becomes of a batch whose core index file is accepted: a mixed one is lost, one with encoded suffixes is
      rebuilt whole, and of any other the core operations are, without their deltas. */
  predicate BatchOutcome(p: Primitives, batch: Batch, transaction: Transaction, processed: Processing) {
    if batch.deactivates != [] && (batch.creates != [] || batch.recovers != []) then
      processed == Processing(None, Err(Unexpected))
    else if Encoded(p, batch, Update) then
      processed == Processing(
        Some(RebuiltFrom(p, transaction,
                         RequestsIn(batch, Create) + RequestsIn(batch, Recover)
                         + RequestsIn(batch, Deactivate) + RequestsIn(batch, Update), 0)), Ok(true))
    else
      processed == Processing(
        Some(RebuiltFrom(p, transaction,
                         WithoutDeltas(RequestsIn(batch, Create) + RequestsIn(batch, Recover)
                                       + RequestsIn(batch, Deactivate)), 0)), Ok(true))
  }

  lemma VerifiedBatchIsComposed(
    ctx: Context, fetch: Downloads, batch: Batch, core: CoreFiles, provisional: ProvisionalFiles,
    transaction: Transaction)
    requires VerifyCoreFiles(ctx, fetch, transaction) == Ok(core)
    requires VerifyProvisionalFiles(ctx, fetch, core)
             == if Encoded(ctx.primitives, batch, Update) then Ok(provisional) else Err(EncodedMultihashNotSupported)
    requires Represents(ctx.primitives, core, batch)
    requires provisional.Valid(core) ==> RepresentsRest(ctx.primitives, core, provisional, batch)
    ensures BatchOutcome(ctx.primitives, batch, transaction, Processed(ctx, fetch, transaction))
  {
    if batch.deactivates == [] || (batch.creates == [] && batch.recovers == []) {
      if Encoded(ctx.primitives, batch, Update) {
        OperationsAreRebuilt(ctx.primitives, core, provisional, batch, transaction);
      } else {
        CoreOperationsAreRebuiltWithoutDeltas(ctx.primitives, core, batch, transaction);
      }
    }
  }

  lemma PackedBatchIsComposed(
    ctx: Context, address: Address, fetch: Downloads, lockId: Option<string>, batch: Batch, core: CoreFiles,
    transaction: Transaction)
    requires ctx.codec.Lawful() && GoodAddresses(address) && GoodBatch(ctx.primitives, batch)
    requires NoDuplicates(CoreSuffixes(ctx.primitives, batch) + Suffixes(ctx.primitives, batch, Update))
    requires Serves(fetch, address, Pack(ctx, address, lockId, batch))
    requires Describes(ctx.primitives, core, batch)
    requires core == PackedCoreFiles(ctx, address, lockId, batch, core.paid)
    requires core.paid >= |CoreSuffixes(ctx.primitives, batch)| + |Suffixes(ctx.primitives, batch, Update)|
    requires VerifyCoreFiles(ctx, fetch, transaction) == Ok(core)
    ensures BatchOutcome(ctx.primitives, batch, transaction, Processed(ctx, fetch, transaction))
  {
    ProvisionalFilesAreReadBack(ctx, address, fetch, lockId, batch, core);
    PackedFilesRepresent(ctx, address, lockId, batch, core);
    var provisional := PackedProvisionalFiles(ctx, address, lockId, batch);
    VerifiedBatchIsComposed(ctx, fetch, batch, core, provisional, transaction);
  }

  lemma RefusedCoreFiles(ctx: Context, fetch: Downloads, transaction: Transaction)
    requires VerifyCoreFiles(ctx, fetch, transaction) == Err(EncodedMultihashNotSupported)
    ensures Processed(ctx, fetch, transaction) == Processing(None, Ok(true))
  {
  }

  /** The four ways the processing of a planned batch can go, by the contents of its parts. */
  lemma TakenBatchIsProcessed(
    ctx: Context, address: Address, fetch: Downloads, normalizedFee: real, lock: Option<ValueTimeLock>,
    queue: seq<QueuedOperation>, transaction: Transaction)
    requires Ready(ctx.primitives, queue)
    requires AnchoredBy(ctx, address, normalizedFee, lock, queue, transaction)
    requires ParseAll(RequestParser(ctx.primitives), Taken(ctx, lock, queue)).Ok?
    requires Cooperates(ctx, address, fetch, lock, queue, transaction)
    ensures var p, batch := ctx.primitives, TakenBatch(ctx, lock, queue);
            if Encoded(p, batch, Recover) && Encoded(p, batch, Deactivate) then
              BatchOutcome(p, batch, transaction, Processed(ctx, fetch, transaction))
            else Processed(ctx, fetch, transaction) == Processing(None, Ok(true))
  {
    var p, batch := ctx.primitives, TakenBatch(ctx, lock, queue);
    CoreFilesAreReadBack(ctx, address, fetch, normalizedFee, lock, queue, transaction);
    if Encoded(p, batch, Recover) && Encoded(p, batch, Deactivate) {
      TakenBatchIsGood(ctx, lock, queue);
      var core := PackedCoreFiles(ctx, address, LockId(lock), batch, |Taken(ctx, lock, queue)|);
      PackedBatchIsComposed(ctx, address, fetch, LockId(lock), batch, core, transaction);
    } else {
      RefusedCoreFiles(ctx, fetch, transaction);
    }
  }

  /** The taken batch, in terms of the requests that were taken. */
  lemma TakenByType(ctx: Context, lock: Option<ValueTimeLock>, queue: seq<QueuedOperation>)
    requires Ready(ctx.primitives, queue)
    requires ParseAll(RequestParser(ctx.primitives), Taken(ctx, lock, queue)).Ok?
    ensures var p, batch, requests := ctx.primitives, TakenBatch(ctx, lock, queue), Taken(ctx, lock, queue);
            && (Encoded(p, batch, Recover) && Encoded(p, batch, Deactivate) && Encoded(p, batch, Update)
                <==> SuffixesEncoded(p, requests))
            && (Mixed(requests) <==> batch.deactivates != [] && (batch.creates != [] || batch.recovers != []))
            && Grouped(requests) == RequestsIn(batch, Create) + RequestsIn(batch, Recover)
                                    + RequestsIn(batch, Deactivate) + RequestsIn(batch, Update)
            && |Grouped(requests)| == |CoreSuffixes(p, batch)| + |Suffixes(p, batch, Update)|
            && (Suffixes(p, batch, Update) == [] ==> Encoded(p, batch, Update))
  {
    var p, batch, requests := ctx.primitives, TakenBatch(ctx, lock, queue), Taken(ctx, lock, queue);
    AdmittedRequestsParse(ctx, lock, queue);
    TakenBatchIsDistinct(ctx, lock, queue);
    TypesPartition(requests);
    EncodedByType(p, requests);
    MixedByType(requests);
    assert RequestsIn(batch, Create) == OfType(requests, Create);
    assert RequestsIn(batch, Recover) == OfType(requests, Recover);
    assert RequestsIn(batch, Deactivate) == OfType(requests, Deactivate);
    assert RequestsIn(batch, Update) == OfType(requests, Update);
  }

  lemma OutcomeIsWholeExactly(p: Primitives, batch: Batch, transaction: Transaction, requests: seq<Request>,
                              processed: Processing)
    requires BatchOutcome(p, batch, transaction, processed)
    requires requests == RequestsIn(batch, Create) + RequestsIn(batch, Recover)
                         + RequestsIn(batch, Deactivate) + RequestsIn(batch, Update)
    requires |requests| == |CoreSuffixes(p, batch)| + |Suffixes(p, batch, Update)|
    requires Suffixes(p, batch, Update) == [] ==> Encoded(p, batch, Update)
    ensures processed == Processing(Some(RebuiltFrom(p, transaction, requests, 0)), Ok(true))
            <==> && Encoded(p, batch, Update)
                 && !(batch.deactivates != [] && (batch.creates != [] || batch.recovers != []))
  {
    if !Encoded(p, batch, Update) {
      var core := RequestsIn(batch, Create) + RequestsIn(batch, Recover) + RequestsIn(batch, Deactivate);
      assert |RequestsIn(batch, Update)| == |Suffixes(p, batch, Update)| > 0;
      assert |RebuiltFrom(p, transaction, WithoutDeltas(core), 0)| == |core| < |requests|;
      assert |RebuiltFrom(p, transaction, requests, 0)| == |requests|;
    }
  }

  /** The transaction of a planned batch is processed into the batch itself, operation by operation, in the order
      creates, recovers, deactivates, updates and numbered by position, if and only if the batch is not mixed and its
      DID suffixes are multihashes. */
  lemma WriterAndObserverAgree(
    ctx: Context, address: Address, fetch: Downloads, normalizedFee: real, lock: Option<ValueTimeLock>,
    queue: seq<QueuedOperation>, transaction: Transaction)
    requires Ready(ctx.primitives, queue)
    requires AnchoredBy(ctx, address, normalizedFee, lock, queue, transaction)
    requires ParseAll(RequestParser(ctx.primitives), Taken(ctx, lock, queue)).Ok?
    requires Cooperates(ctx, address, fetch, lock, queue, transaction)
    ensures var requests := Taken(ctx, lock, queue);
            && (Processed(ctx, fetch, transaction)
                == Processing(Some(RebuiltFrom(ctx.primitives, transaction, Grouped(requests), 0)), Ok(true))
                <==> SuffixesEncoded(ctx.primitives, requests) && !Mixed(requests))
            && (SuffixesEncoded(ctx.primitives, requests) && Mixed(requests) ==>
                  Processed(ctx, fetch, transaction) == Processing(None, Err(Unexpected)))
  {
    var p, batch, requests := ctx.primitives, TakenBatch(ctx, lock, queue), Taken(ctx, lock, queue);
    TakenBatchIsProcessed(ctx, address, fetch, normalizedFee, lock, queue, transaction);
    TakenByType(ctx, lock, queue);
    if Encoded(p, batch, Recover) && Encoded(p, batch, Deactivate) {
      OutcomeIsWholeExactly(p, batch, transaction, Grouped(requests), Processed(ctx, fetch, transaction));
    }
  }

  /** A create that was stored without its delta is refused whenever it is read again. */
  lemma CreateWithoutDeltaIsRefused(p: Primitives, operation: AnchoredOperation)
    requires operation.operationBuffer.CreateRequest? && operation.operationBuffer.delta.None?
    ensures ParseCreate(p, operation.operationBuffer) == Err(CreateOperationMissingOrUnknownProperty)
    ensures Transition(p, operation, None).None?
  {
  }

  lemma StoredCreatesAreRefused(p: Primitives, transaction: Transaction, requests: seq<Request>)
    ensures forall o <- RebuiltFrom(p, transaction, WithoutDeltas(requests), 0) ::
              o.operationBuffer.CreateRequest? ==> Transition(p, o, None).None?
  {
    var stored := RebuiltFrom(p, transaction, WithoutDeltas(requests), 0);
    forall o | o in stored && o.operationBuffer.CreateRequest?
      ensures Transition(p, o, None).None?
    {
      var i :| 0 <= i < |stored| && stored[i] == o;
      assert o.operationBuffer == WithoutDelta(requests[i]);
      CreateWithoutDeltaIsRefused(p, o);
    }
  }

  /** An update whose suffix is no multihash takes the provisional files of its batch with it: the other updates are not
      stored, the creates and recovers are stored without their deltas, so that no create of the batch can ever be
      applied, and the transaction counts as processed, so that it is not tried again. */
  lemma UnencodedUpdateSpoilsItsBatch(
    ctx: Context, address: Address, fetch: Downloads, normalizedFee: real, lock: Option<ValueTimeLock>,
    queue: seq<QueuedOperation>, transaction: Transaction)
    requires Ready(ctx.primitives, queue)
    requires AnchoredBy(ctx, address, normalizedFee, lock, queue, transaction)
    requires ParseAll(RequestParser(ctx.primitives), Taken(ctx, lock, queue)).Ok?
    requires Cooperates(ctx, address, fetch, lock, queue, transaction)
    requires !Mixed(Taken(ctx, lock, queue)) && !SuffixesEncoded(ctx.primitives, Taken(ctx, lock, queue))
    requires SuffixesEncoded(ctx.primitives, OfType(Taken(ctx, lock, queue), Recover))
    requires SuffixesEncoded(ctx.primitives, OfType(Taken(ctx, lock, queue), Deactivate))
    ensures var requests := Taken(ctx, lock, queue);
            var stored := RebuiltFrom(ctx.primitives, transaction, WithoutDeltas(
                            OfType(requests, Create) + OfType(requests, Recover) + OfType(requests, Deactivate)), 0);
            && Processed(ctx, fetch, transaction) == Processing(Some(stored), Ok(true))
            && forall o <- stored :: o.operationBuffer.CreateRequest? ==> Transition(ctx.primitives, o, None).None?
  {
    var p, batch, requests := ctx.primitives, TakenBatch(ctx, lock, queue), Taken(ctx, lock, queue);
    TakenBatchIsProcessed(ctx, address, fetch, normalizedFee, lock, queue, transaction);
    TakenByType(ctx, lock, queue);
    AdmittedRequestsParse(ctx, lock, queue);
    assert RequestsIn(batch, Create) == OfType(requests, Create);
    assert RequestsIn(batch, Recover) == OfType(requests, Recover);
    assert RequestsIn(batch, Deactivate) == OfType(requests, Deactivate);
    StoredCreatesAreRefused(
      p, transaction, OfType(requests, Create) + OfType(requests, Recover) + OfType(requests, Deactivate));
  }

  /** What the writer stored can be downloaded from its store, if the files have different addresses and every file is
      within its size limit. */
  lemma WrittenFilesAreServed(
    fetch: Downloads, before: map<string, Buffer>, address: Address, files: PackedFiles)
    requires ToldApart(address, Written(files))
    requires forall uri, max :: uri in Added(before, address, Written(files)) ==>
               fetch(uri, max) == Success(Added(before, address, Written(files))[uri])
    ensures Serves(fetch, address, files)
  {
    forall b | b in Written(files)
      ensures forall max :: fetch(address(b), max) == Success(b)
    {
      var i :| 0 <= i < |Written(files)| && Written(files)[i] == b;
      WrittenBuffersAreReadable(before, address, Written(files), i);
    }
  }

  /** Every file a content store holds can be downloaded from it. */
  ghost predicate ServesStore(fetch: Downloads, files: map<string, Buffer>) {
    forall uri, max :: uri in files ==> fetch(uri, max) == Success(files[uri])
  }

  lemma PlannedFilesAreWritten(
    ctx: Context, address: Address, normalizedFee: real, lock: Option<ValueTimeLock>, queue: seq<QueuedOperation>)
    requires Plan(ctx, address, normalizedFee, lock, queue).Anchoring?
    ensures ParseAll(RequestParser(ctx.primitives), Taken(ctx, lock, queue)).Ok?
    ensures Plan(ctx, address, normalizedFee, lock, queue).written
            == Written(Pack(ctx, address, LockId(lock), TakenBatch(ctx, lock, queue)))
  {
  }

  /** What one write leaves behind, as an observer needs it: the hypotheses are about the plan of the queue, the content
      store after the write, and the transaction on the ledger. */
  ghost predicate WrittenAndAnchored(
    ctx: Context, address: Address, fetch: Downloads, normalizedFee: real, lock: Option<ValueTimeLock>, before: World,
    transaction: Transaction)
  {
    var plan := Plan(ctx, address, normalizedFee, lock, before.queue);
    && Ready(ctx.primitives, before.queue) && ctx.codec.Lawful() && GoodAddresses(address)
    && LockHolds(ctx, lock, transaction)
    && AnchoredBy(ctx, address, normalizedFee, lock, before.queue, transaction)
    && ToldApart(address, plan.written)
    && ServesStore(fetch, After(plan, true, address, before).files)
  }

  lemma WrittenFilesCooperate(
    ctx: Context, address: Address, fetch: Downloads, normalizedFee: real, lock: Option<ValueTimeLock>, before: World,
    transaction: Transaction)
    requires WrittenAndAnchored(ctx, address, fetch, normalizedFee, lock, before, transaction)
    ensures ParseAll(RequestParser(ctx.primitives), Taken(ctx, lock, before.queue)).Ok?
    ensures Cooperates(ctx, address, fetch, lock, before.queue, transaction)
  {
    PlannedFilesAreWritten(ctx, address, normalizedFee, lock, before.queue);
    var files := Pack(ctx, address, LockId(lock), TakenBatch(ctx, lock, before.queue));
    WrittenFilesAreServed(fetch, before.files, address, files);
  }

  /** What one write leaves in the content store and on the ledger is all an observer needs: it stores the batch whole
      if and only if the batch is not mixed and its suffixes are multihashes. */
  lemma WrittenBatchIsStored(
    ctx: Context, address: Address, fetch: Downloads, normalizedFee: real, lock: Option<ValueTimeLock>, before: World,
    transaction: Transaction)
    requires WrittenAndAnchored(ctx, address, fetch, normalizedFee, lock, before, transaction)
    ensures Processed(ctx, fetch, transaction)
            == Processing(Some(RebuiltFrom(ctx.primitives, transaction, Grouped(Taken(ctx, lock, before.queue)), 0)),
                          Ok(true))
            <==> && SuffixesEncoded(ctx.primitives, Taken(ctx, lock, before.queue))
                 && !Mixed(Taken(ctx, lock, before.queue))
  {
    WrittenFilesCooperate(ctx, address, fetch, normalizedFee, lock, before, transaction);
    WriterAndObserverAgree(ctx, address, fetch, normalizedFee, lock, before.queue, transaction);
  }

  /** A mixed batch passes every check of its core files, and is lost. */
  lemma WrittenMixedBatchIsLost(
    ctx: Context, address: Address, fetch: Downloads, normalizedFee: real, lock: Option<ValueTimeLock>, before: World,
    transaction: Transaction)
    requires WrittenAndAnchored(ctx, address, fetch, normalizedFee, lock, before, transaction)
    requires SuffixesEncoded(ctx.primitives, Taken(ctx, lock, before.queue)) && Mixed(Taken(ctx, lock, before.queue))
    ensures VerifyCoreFiles(ctx, fetch, transaction).Ok?
    ensures Processed(ctx, fetch, transaction) == Processing(None, Err(Unexpected))
  {
    WrittenFilesCooperate(ctx, address, fetch, normalizedFee, lock, before, transaction);
    TakenByType(ctx, lock, before.queue);
    CoreFilesAreReadBack(ctx, address, fetch, normalizedFee, lock, before.queue, transaction);
    WriterAndObserverAgree(ctx, address, fetch, normalizedFee, lock, before.queue, transaction);
  }
}
