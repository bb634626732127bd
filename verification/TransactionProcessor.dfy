/** Downloads and checks the files of an anchored batch, rebuilds its operations and stores them. */
module TransactionProcessor {
  import opened Wrappers
  import opened Models
  import opened ArrayMethods
  import opened JwsCompact
  import opened CoreIndexFile
  import opened CoreProofFile
  import opened ProvisionalIndexFile
  import opened OperationStore
  import ProvisionalProofFile
  import ChunkFile
  import AnchoredDataSerializer
  import FeeManager
  import ValueTimeLockVerifier

  /** What a download of a URI yields, given the size limit asked for. */
  type Downloads = (string, nat) -> FetchResult

  // ------------------------------------------------------------ downloading and checking

  function DownloadFile(fetch: Downloads, uri: string, maxSize: nat): Result<Buffer, Error> {
    match fetch(uri, maxSize)
    case Success(content) => Ok(content)
    case InvalidHash => Err(CasFileUriNotValid)
    case MaxSizeExceeded => Err(CasFileTooLarge)
    case NotAFile => Err(CasFileNotAFile)
    case NotReachable => Err(CasNotReachable)
    case NotFound => Err(CasFileNotFound)
  }

  /** An empty lock identifier counts as none. */
  function LockOf(ctx: Context, model: CoreIndexFileModel): Option<ValueTimeLock> {
    if model.writerLockId.Some? && model.writerLockId.value != "" then ctx.valueTimeLock(model.writerLockId.value)
    else None
  }

  function CheckCoreIndex(ctx: Context, transaction: Transaction, index: CoreIndex, paid: nat): Result<(), Error> {
    if |index.didUniqueSuffixes| > paid then Err(CoreIndexFileOperationCountExceededPaidLimit)
    else
      ValueTimeLockVerifier.VerifyLockAmount(
        LockOf(ctx, index.model), paid, transaction.transactionTime, transaction.writer, ctx.versionMetadata)
  }

  function VerifyCoreIndexFile(ctx: Context, fetch: Downloads, transaction: Transaction, uri: string, paid: nat)
    : (r: Result<CoreIndex, Error>)
    ensures r.Ok? ==> r.value.Valid() && |r.value.didUniqueSuffixes| <= paid
  {
    if paid > MAX_OPERATIONS_PER_BATCH then Err(TransactionProcessorPaidOperationCountExceedsLimit)
    else
      var buffer :- DownloadFile(fetch, uri, MAX_CORE_INDEX_FILE_SIZE);
      var index :- CoreIndexFile.Parsed(ctx, buffer);
      var _ :- CheckCoreIndex(ctx, transaction, index, paid);
      Ok(index)
  }

  /** Only the total number of proofs is compared with the number of references. */
  function VerifyCoreProofFile(ctx: Context, fetch: Downloads, index: CoreIndex): Result<Option<CoreProof>, Error> {
    if index.model.coreProofFileUri.None? then Ok(None)
    else
      var buffer :- DownloadFile(fetch, index.model.coreProofFileUri.value, MAX_PROOF_FILE_SIZE);
      var proof :- CoreProofFile.Parsed(ctx, buffer, index.deactivateDidSuffixes);
      if |index.deactivateDidSuffixes| + |index.recoverDidSuffixes|
         != |proof.deactivateProofs| + |proof.recoverProofs| then
        Err(CoreProofFileProofCountNotTheSameAsOperationCountInCoreIndexFile)
      else Ok(Some(proof))
  }

  function VerifyProvisionalIndexFile(ctx: Context, fetch: Downloads, core: CoreIndex, paid: nat)
    : Result<Option<ProvisionalIndex>, Error>
  {
    if core.model.provisionalIndexFileUri.None? then Ok(None)
    else
      var buffer :- DownloadFile(fetch, core.model.provisionalIndexFileUri.value, MAX_PROVISIONAL_INDEX_FILE_SIZE);
      var index :- ProvisionalIndexFile.Parse(ctx, buffer);
      if |index.didUniqueSuffixes| > paid - |core.didUniqueSuffixes| then
        Err(ProvisionalIndexFileUpdateOperationCountGreaterThanMaxPaidCount)
      else if !NothingShared(core.didUniqueSuffixes, index.didUniqueSuffixes) then
        Err(ProvisionalIndexFileDidReferenceDuplicatedWithCoreIndexFile)
      else Ok(Some(index))
  }

  function VerifyProvisionalProofFile(ctx: Context, fetch: Downloads, index: Option<ProvisionalIndex>)
    : Result<Option<seq<Jws>>, Error>
  {
    if index.None? || index.value.provisionalProofFileUri.None? then Ok(None)
    else
      var buffer :- DownloadFile(fetch, index.value.provisionalProofFileUri.value, MAX_PROOF_FILE_SIZE);
      var proofs :- ProvisionalProofFile.Parsed(ctx, buffer);
      if |index.value.didUniqueSuffixes| != |proofs| then
        Err(ProvisionalProofFileProofCountNotTheSameAsOperationCountInProvisionalIndexFile)
      else Ok(Some(proofs))
  }

  function VerifyChunkFile(ctx: Context, fetch: Downloads, core: CoreIndex, index: Option<ProvisionalIndex>)
    : Result<Option<seq<Delta>>, Error>
  {
    if index.None? then Ok(None)
    else
      var buffer :- DownloadFile(fetch, index.value.chunkFileUri, MAX_CHUNK_FILE_SIZE);
      var deltas :- ChunkFile.Parsed(ctx, buffer);
      if |deltas| != |core.createDidSuffixes| + |core.recoverDidSuffixes| + |index.value.didUniqueSuffixes| then
        Err(ChunkFileDeltaCountIncorrect)
      else Ok(Some(deltas))
  }

  /** The files whose operations are kept whatever becomes of the others. */
  datatype CoreFiles = CoreFiles(index: CoreIndex, proof: Option<CoreProof>, paid: nat)
  {
    predicate Valid() {
      && index.Valid()
      && |index.didUniqueSuffixes| <= paid
      && (index.model.coreProofFileUri.Some? <==> proof.Some?)
      && (proof.Some? ==>
            |index.deactivateDidSuffixes| + |index.recoverDidSuffixes|
            == |proof.value.deactivateProofs| + |proof.value.recoverProofs|)
    }
  }

  datatype ProvisionalFiles = ProvisionalFiles(
    index: Option<ProvisionalIndex>, proof: Option<seq<Jws>>, deltas: Option<seq<Delta>>)
  {
    predicate Valid(core: CoreFiles) {
      && (deltas.Some? <==> index.Some?)
      && (index.None? ==> proof.None?)
      && (index.Some? ==>
            && index.value.Valid()
            && NothingShared(core.index.didUniqueSuffixes, index.value.didUniqueSuffixes)
            && |core.index.didUniqueSuffixes| + |index.value.didUniqueSuffixes| <= core.paid
            && (proof.Some? <==> index.value.updates != [])
            && (proof.Some? ==> |proof.value| == |index.value.updates|)
            && |deltas.value| == |core.index.createDidSuffixes| + |core.index.recoverDidSuffixes|
                                 + |index.value.didUniqueSuffixes|)
    }
  }

  const NO_PROVISIONAL_FILES := ProvisionalFiles(None, None, None)

  function VerifyCoreFiles(ctx: Context, fetch: Downloads, transaction: Transaction): (r: Result<CoreFiles, Error>)
    ensures r.Ok? ==> r.value.Valid() && r.value.paid <= MAX_OPERATIONS_PER_BATCH
  {
    var data :- AnchoredDataSerializer.Deserialize(transaction.anchorString);
    var _ :- FeeManager.VerifyTransactionFee(
      transaction.transactionFeePaid, data.numberOfOperations, transaction.normalizedTransactionFee);
    var index :- VerifyCoreIndexFile(ctx, fetch, transaction, data.coreIndexFileUri, data.numberOfOperations);
    var proof :- VerifyCoreProofFile(ctx, fetch, index);
    Ok(CoreFiles(index, proof, data.numberOfOperations))
  }

  function VerifyProvisionalFiles(ctx: Context, fetch: Downloads, core: CoreFiles)
    : (r: Result<ProvisionalFiles, Error>)
    ensures r.Ok? ==> r.value.Valid(core)
  {
    var index :- VerifyProvisionalIndexFile(ctx, fetch, core.index, core.paid);
    var proof :- VerifyProvisionalProofFile(ctx, fetch, index);
    var deltas :- VerifyChunkFile(ctx, fetch, core.index, index);
    Ok(ProvisionalFiles(index, proof, deltas))
  }

  // ------------------------------------------------------------ composing operations

  /** JavaScript's indexing: out of range is `undefined`. */
  function At<T>(s: seq<T>, i: nat): Option<T> {
    if i < |s| then Some(s[i]) else None
  }

  /** The delta of the operation at a position among those that carry one. */
  function DeltaAt(deltas: Option<seq<Delta>>, i: nat): Option<Delta> {
    if deltas.Some? then At(deltas.value, i) else None
  }

  function ProofAt(proofs: seq<Jws>, i: nat): Option<string> {
    if i < |proofs| then Some(ToCompactJws(proofs[i])) else None
  }

  function Composed(transaction: Transaction, didUniqueSuffix: string, request: Request, index: nat)
    : AnchoredOperation
  {
    AnchoredOperation(
      didUniqueSuffix, request, index, transaction.transactionNumber, transaction.transactionTime)
  }

  function ComposedCreate(transaction: Transaction, core: CoreFiles, deltas: Option<seq<Delta>>, i: nat)
    : AnchoredOperation
    requires core.Valid() && i < |core.index.createDidSuffixes|
  {
    Composed(transaction, core.index.createDidSuffixes[i],
             CreateRequest(Creates(core.index.model)[i], DeltaAt(deltas, i)), i)
  }

  function ComposedRecover(transaction: Transaction, core: CoreFiles, deltas: Option<seq<Delta>>, i: nat)
    : AnchoredOperation
    requires core.Valid() && i < |core.index.recoverDidSuffixes|
  {
    var start := |core.index.createDidSuffixes|;
    var suffix := core.index.recoverDidSuffixes[i];
    Composed(transaction, suffix,
             RecoverRequest(suffix, Recovers(core.index.model)[i].revealValue,
                            ProofAt(core.proof.value.recoverProofs, i), DeltaAt(deltas, start + i)),
             start + i)
  }

  /** The suffix is looked up among all suffixes of the file, the reveal value among the deactivates alone. */
  function ComposedDeactivate(transaction: Transaction, core: CoreFiles, i: nat): AnchoredOperation
    requires core.Valid() && core.proof.Some?
    requires i < |core.index.didUniqueSuffixes| && i < |Deactivates(core.index.model)|
  {
    var start := |core.index.createDidSuffixes| + |core.index.recoverDidSuffixes|;
    var suffix := core.index.didUniqueSuffixes[i];
    Composed(transaction, suffix,
             DeactivateRequest(suffix, Deactivates(core.index.model)[i].revealValue,
                               ProofAt(core.proof.value.deactivateProofs, i)),
             start + i)
  }

  function ComposedUpdate(transaction: Transaction, core: CoreFiles, provisional: ProvisionalFiles, i: nat)
    : AnchoredOperation
    requires core.Valid() && provisional.Valid(core)
    requires provisional.index.Some? && i < |provisional.index.value.updates|
  {
    var index := provisional.index.value;
    var start := |core.index.createDidSuffixes| + |core.index.recoverDidSuffixes|;
    var suffix := index.didUniqueSuffixes[i];
    Composed(transaction, suffix,
             UpdateRequest(suffix, index.updates[i].revealValue,
                           ProofAt(provisional.proof.value, i), DeltaAt(provisional.deltas, start + i)),
             |core.index.didUniqueSuffixes| + i)
  }

  function ComposedCreates(transaction: Transaction, core: CoreFiles, deltas: Option<seq<Delta>>)
    : seq<AnchoredOperation>
    requires core.Valid()
  {
    seq(|core.index.createDidSuffixes|, i requires 0 <= i < |core.index.createDidSuffixes| =>
      ComposedCreate(transaction, core, deltas, i))
  }

  function ComposedRecovers(transaction: Transaction, core: CoreFiles, deltas: Option<seq<Delta>>)
    : seq<AnchoredOperation>
    requires core.Valid()
  {
    seq(|core.index.recoverDidSuffixes|, i requires 0 <= i < |core.index.recoverDidSuffixes| =>
      ComposedRecover(transaction, core, deltas, i))
  }

  /** Reading a reveal value past the end of the deactivates throws. */
  function ComposedDeactivates(transaction: Transaction, core: CoreFiles): Result<seq<AnchoredOperation>, Error>
    requires core.Valid()
  {
    if core.index.deactivateDidSuffixes == [] then Ok([])
    else if |core.index.didUniqueSuffixes| > |Deactivates(core.index.model)| then Err(Unexpected)
    else Ok(seq(|core.index.didUniqueSuffixes|, i requires 0 <= i < |core.index.didUniqueSuffixes| =>
      ComposedDeactivate(transaction, core, i)))
  }

  function ComposedUpdates(transaction: Transaction, core: CoreFiles, provisional: ProvisionalFiles)
    : seq<AnchoredOperation>
    requires core.Valid() && provisional.Valid(core)
  {
    if provisional.index.None? then []
    else
      seq(|provisional.index.value.updates|, i requires 0 <= i < |provisional.index.value.updates| =>
        ComposedUpdate(transaction, core, provisional, i))
  }

  function ComposedOperations(transaction: Transaction, core: CoreFiles, provisional: ProvisionalFiles)
    : Result<seq<AnchoredOperation>, Error>
    requires core.Valid() && provisional.Valid(core)
  {
    var deactivates :- ComposedDeactivates(transaction, core);
    Ok(ComposedCreates(transaction, core, provisional.deltas)
       + ComposedRecovers(transaction, core, provisional.deltas)
       + deactivates
       + ComposedUpdates(transaction, core, provisional))
  }

  // ------------------------------------------------------------ processing a transaction

  /** Whether a failure to get valid core files is worth a retry. */
  predicate CoreRetryNeeded(error: Error) {
    error == CasNotReachable || error == Unexpected
  }

  predicate ProvisionalRetryNeeded(error: Error) {
    error == CasNotReachable || error == CasFileNotFound || error == CasFileNotAFile || error == Unexpected
  }

  /** `stored` is what is inserted into the operation store, if anything; `outcome` is the value returned
      (whether the transaction is processed completely), or the exception thrown. */
  datatype Processing = Processing(stored: Option<seq<AnchoredOperation>>, outcome: Result<bool, Error>)

  function Processed(ctx: Context, fetch: Downloads, transaction: Transaction): Processing {
    match VerifyCoreFiles(ctx, fetch, transaction)
    case Err(error) => Processing(None, Ok(!CoreRetryNeeded(error)))
    case Ok(core) =>
      var verified := VerifyProvisionalFiles(ctx, fetch, core);
      var provisional := if verified.Ok? then verified.value else NO_PROVISIONAL_FILES;
      var complete := verified.Ok? || !ProvisionalRetryNeeded(verified.error);
      match ComposedOperations(transaction, core, provisional)
      case Err(error) => Processing(None, Err(error))
      case Ok(operations) => Processing(Some(operations), Ok(complete))
  }

  method ComposeCreates(transaction: Transaction, core: CoreFiles, deltas: Option<seq<Delta>>)
    returns (operations: seq<AnchoredOperation>)
    requires core.Valid()
    ensures operations == ComposedCreates(transaction, core, deltas)
  {
    var suffixes := core.index.createDidSuffixes;
    operations := [];
    for i := 0 to |suffixes|
      invariant |operations| == i
      invariant forall k :: 0 <= k < i ==> operations[k] == ComposedCreate(transaction, core, deltas, k)
    {
      var request := CreateRequest(Creates(core.index.model)[i], DeltaAt(deltas, i));
      operations := operations + [Composed(transaction, suffixes[i], request, i)];
    }
  }

  method ComposeRecovers(transaction: Transaction, core: CoreFiles, deltas: Option<seq<Delta>>)
    returns (operations: seq<AnchoredOperation>)
    requires core.Valid()
    requires deltas.Some? ==> |core.index.createDidSuffixes| + |core.index.recoverDidSuffixes| <= |deltas.value|
    ensures operations == ComposedRecovers(transaction, core, deltas)
  {
    var suffixes := core.index.recoverDidSuffixes;
    operations := [];
    if suffixes == [] {
      return;
    }
    var start := |core.index.createDidSuffixes|;
    var recoverDeltas := if deltas.Some? then Some(deltas.value[start..start + |suffixes|]) else None;
    for i := 0 to |suffixes|
      invariant |operations| == i
      invariant forall k :: 0 <= k < i ==> operations[k] == ComposedRecover(transaction, core, deltas, k)
    {
      var request := RecoverRequest(
        suffixes[i], Recovers(core.index.model)[i].revealValue,
        ProofAt(core.proof.value.recoverProofs, i), DeltaAt(recoverDeltas, i));
      operations := operations + [Composed(transaction, suffixes[i], request, start + i)];
    }
  }

  method ComposeDeactivates(transaction: Transaction, core: CoreFiles)
    returns (r: Result<seq<AnchoredOperation>, Error>)
    requires core.Valid()
    ensures r == ComposedDeactivates(transaction, core)
  {
    if core.index.deactivateDidSuffixes == [] {
      return Ok([]);
    }
    var suffixes := core.index.didUniqueSuffixes;
    var references := Deactivates(core.index.model);
    var start := |core.index.createDidSuffixes| + |core.index.recoverDidSuffixes|;
    var operations := [];
    for i := 0 to |suffixes|
      invariant i <= |references| && |operations| == i
      invariant forall k :: 0 <= k < i ==> operations[k] == ComposedDeactivate(transaction, core, k)
    {
      if i >= |references| {
        return Err(Unexpected);
      }
      var request := DeactivateRequest(
        suffixes[i], references[i].revealValue, ProofAt(core.proof.value.deactivateProofs, i));
      operations := operations + [Composed(transaction, suffixes[i], request, start + i)];
    }
    assert operations == ComposedDeactivates(transaction, core).value;
    return Ok(operations);
  }

  method ComposeUpdates(transaction: Transaction, core: CoreFiles, provisional: ProvisionalFiles)
    returns (operations: seq<AnchoredOperation>)
    requires core.Valid() && provisional.Valid(core)
    ensures operations == ComposedUpdates(transaction, core, provisional)
  {
    operations := [];
    if provisional.index.None? || provisional.index.value.didUniqueSuffixes == [] {
      return;
    }
    var index := provisional.index.value;
    var start := |core.index.createDidSuffixes| + |core.index.recoverDidSuffixes|;
    var updateDeltas := provisional.deltas.value[start..];
    for i := 0 to |index.didUniqueSuffixes|
      invariant |operations| == i
      invariant forall k :: 0 <= k < i ==> operations[k] == ComposedUpdate(transaction, core, provisional, k)
    {
      var suffix := index.didUniqueSuffixes[i];
      var request := UpdateRequest(
        suffix, index.updates[i].revealValue, ProofAt(provisional.proof.value, i), DeltaAt(Some(updateDeltas), i));
      operations := operations + [Composed(transaction, suffix, request, |core.index.didUniqueSuffixes| + i)];
    }
  }

  class TransactionProcessor {
    const ctx: Context
    const operationStore: OperationStore

    constructor (ctx: Context, operationStore: OperationStore)
      ensures this.ctx == ctx && this.operationStore == operationStore
    {
      this.ctx := ctx;
      this.operationStore := operationStore;
    }

    method ProcessTransaction(transaction: Transaction, fetch: Downloads) returns (r: Result<bool, Error>)
      modifies operationStore
      ensures r == Processed(ctx, fetch, transaction).outcome
      ensures operationStore.contents ==
              match Processed(ctx, fetch, transaction).stored
              case None => old(operationStore.contents)
              case Some(operations) => Inserted(old(operationStore.contents), operations)
    {
      var verifiedCore := VerifyCoreFiles(ctx, fetch, transaction);
      if verifiedCore.Err? {
        return Ok(!CoreRetryNeeded(verifiedCore.error));
      }
      var core := verifiedCore.value;

      var retryNeeded := false;
      var provisional := NO_PROVISIONAL_FILES;
      var verified := VerifyProvisionalFiles(ctx, fetch, core);
      if verified.Ok? {
        provisional := verified.value;
      } else {
        retryNeeded := ProvisionalRetryNeeded(verified.error);
      }

      var creates := ComposeCreates(transaction, core, provisional.deltas);
      var recovers := ComposeRecovers(transaction, core, provisional.deltas);
      var deactivates := ComposeDeactivates(transaction, core);
      if deactivates.Err? {
        return Err(deactivates.error);
      }
      var updates := ComposeUpdates(transaction, core, provisional);

      operationStore.InsertOrReplace(creates + recovers + deactivates.value + updates);
      return Ok(!retryNeeded);
    }
  }
}
