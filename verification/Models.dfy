/** The data that Sidetree nodes exchange and store, and the functions of the environment they rely on. */
module Models {
  import opened Wrappers

  type Buffer = string

  /** The error codes the modelled checks raise. `Malformed` stands for any other `SidetreeError`,
      `Unexpected` for any exception that is not a `SidetreeError`. */
  datatype Error =
    | CasFileUriNotValid | CasFileTooLarge | CasFileNotAFile | CasNotReachable | CasFileNotFound
    | AnchoredDataIncorrectFormat
    | AnchoredDataNumberOfOperationsNotPositiveInteger
    | AnchoredDataNumberOfOperationsGreaterThanMax
    | OperationCountLessThanZero
    | TransactionFeePaidLessThanNormalizedFee
    | TransactionFeePaidInvalid
    | ValueTimeLockVerifierTransactionWriterLockOwnerMismatch
    | ValueTimeLockVerifierTransactionTimeOutsideLockRange
    | ValueTimeLockVerifierInvalidNumberOfOperations
    | TransactionProcessorPaidOperationCountExceedsLimit
    | CoreIndexFileWriterLockIdExceededMaxSize
    | CoreIndexFileMultipleOperationsForTheSameDid
    | CoreIndexFileProvisionalIndexFileUriMissing
    | CoreIndexFileCoreProofFileUriNotAllowed
    | CoreIndexFileOperationCountExceededPaidLimit
    | CoreProofFileOperationsNotFound
    | CoreProofFileHasNoProofs
    | CoreProofFileProofCountNotTheSameAsOperationCountInCoreIndexFile
    | ProvisionalIndexFileChunksPropertyDoesNotHaveExactlyOneElement
    | ProvisionalIndexFileUpdateOperationsNotArray
    | ProvisionalIndexFileMultipleOperationsForTheSameDid
    | ProvisionalIndexFileProvisionalProofFileUriNotAllowed
    | ProvisionalIndexFileUpdateOperationCountGreaterThanMaxPaidCount
    | ProvisionalIndexFileDidReferenceDuplicatedWithCoreIndexFile
    | ProvisionalProofFileOperationsNotFound
    | ProvisionalProofFileUpdatePropertyNotAnArray
    | ProvisionalProofFileHasNoProofs
    | ProvisionalProofFileProofCountNotTheSameAsOperationCountInProvisionalIndexFile
    | ChunkFileDeltaCountIncorrect
    | DeactivateOperationSignedDidUniqueSuffixMismatch
    | InputValidatorCasFileUriNotString
    | InputValidatorCasFileUriExceedsMaxLength
    | EncodedMultihashNotSupported
    | CanonicalizedObjectHashMismatch
    | JwsCompactJwsNotString
    | JwsCompactJwsInvalid
    | JwsSignatureNotBase64UrlString
    | JwsPayloadNotBase64UrlString
    | CreateOperationMissingOrUnknownProperty
    | DeltaIsNullOrUndefined
    | DeltaExceedsMaximumSize
    | DocumentComposerPublicKeyIdDuplicated
    | DocumentComposerPatchServiceIdNotUnique
    | BatchWriterAlreadyHasOperationForDid
    | QueueingMultipleOperationsPerDidNotAllowed
    | TransactionsNotInSameBlock
    | Malformed
    | Unexpected

  // ------------------------------------------------------------ documents and deltas

  datatype PublicKey = PublicKey(id: string, content: string)
  datatype Service = Service(id: string, content: string)

  /** The contents of a DID document; a property that is absent is `None`. */
  datatype DocumentModel = DocumentModel(publicKeys: Option<seq<PublicKey>>, services: Option<seq<Service>>)

  datatype Patch =
    | Replace(document: DocumentModel)
    | AddPublicKeys(publicKeys: seq<PublicKey>)
    | RemovePublicKeys(keyIds: seq<string>)
    | AddServices(services: seq<Service>)
    | RemoveServices(serviceIds: seq<string>)

  datatype Delta = Delta(patches: seq<Patch>, updateCommitment: string)

  datatype SuffixData = SuffixData(deltaHash: string, recoveryCommitment: string, didType: Option<string>)

  // ------------------------------------------------------------ operations

  /** An operation request: the JSON object held by an operation buffer. Absent properties are `None`. */
  datatype Request =
    | CreateRequest(suffixData: SuffixData, delta: Option<Delta>)
    | RecoverRequest(didSuffix: string, revealValue: string, signedData: Option<string>, delta: Option<Delta>)
    | DeactivateRequest(didSuffix: string, revealValue: string, signedData: Option<string>)
    | UpdateRequest(didSuffix: string, revealValue: string, signedData: Option<string>, delta: Option<Delta>)

  datatype OperationType = Create | Recover | Deactivate | Update

  function TypeOf(request: Request): OperationType {
    match request
    case CreateRequest(_, _) => Create
    case RecoverRequest(_, _, _, _) => Recover
    case DeactivateRequest(_, _, _) => Deactivate
    case UpdateRequest(_, _, _, _) => Update
  }

  datatype UpdateSignedData = UpdateSignedData(updateKey: string, deltaHash: string)
  datatype RecoverSignedData = RecoverSignedData(recoveryKey: string, deltaHash: string, recoveryCommitment: string)
  datatype DeactivateSignedData = DeactivateSignedData(didSuffix: string, recoveryKey: string)

  datatype Jws = Jws(protectedHeader: string, payload: string, signature: string)

  datatype CreateOperation = CreateOperation(didUniqueSuffix: string, suffixData: SuffixData, delta: Option<Delta>)
  datatype RecoverOperation = RecoverOperation(
    didUniqueSuffix: string, revealValue: string, signedDataJws: Jws, signedData: RecoverSignedData,
    delta: Option<Delta>)
  datatype DeactivateOperation = DeactivateOperation(
    didUniqueSuffix: string, revealValue: string, signedDataJws: Jws, signedData: DeactivateSignedData)
  datatype UpdateOperation = UpdateOperation(
    didUniqueSuffix: string, revealValue: string, signedDataJws: Jws, signedData: UpdateSignedData,
    delta: Option<Delta>)

  datatype OperationModel =
    | CreateModel(create: CreateOperation)
    | RecoverModel(recover: RecoverOperation)
    | DeactivateModel(deactivate: DeactivateOperation)
    | UpdateModel(update: UpdateOperation)

  datatype QueuedOperation = QueuedOperation(didUniqueSuffix: string, operationBuffer: Request)

  /** An operation taken from a batch. Its type is the type of the request in its buffer. */
  datatype AnchoredOperation = AnchoredOperation(
    didUniqueSuffix: string,
    operationBuffer: Request,
    operationIndex: nat,
    transactionNumber: nat,
    transactionTime: nat)

  // ------------------------------------------------------------ transactions and locks

  datatype Transaction = Transaction(
    transactionNumber: nat,
    transactionTime: nat,
    transactionTimeHash: string,
    anchorString: string,
    transactionFeePaid: real,
    normalizedTransactionFee: real,
    writer: string)

  datatype AnchoredData = AnchoredData(coreIndexFileUri: string, numberOfOperations: nat)

  type PositiveReal = r: real | r > 0.0 witness 1.0

  datatype ValueTimeLock = ValueTimeLock(
    identifier: string,
    amountLocked: real,
    lockTransactionTime: nat,
    unlockTransactionTime: nat,
    normalizedFee: PositiveReal,
    owner: string)

  datatype VersionMetadata = VersionMetadata(
    normalizedFeeToPerOperationFeeMultiplier: PositiveReal,
    valueTimeLockAmountMultiplier: PositiveReal)

  // ------------------------------------------------------------ protocol parameters

  const MAX_CAS_URI_LENGTH: nat := 100
  const MAX_CORE_INDEX_FILE_SIZE: nat := 1000000
  const MAX_PROVISIONAL_INDEX_FILE_SIZE: nat := 1000000
  const MAX_PROOF_FILE_SIZE: nat := 2500000
  const MAX_CHUNK_FILE_SIZE: nat := 10000000
  const MAX_OPERATIONS_PER_TRANSACTION_TIME: int := 600000
  const MAX_TRANSACTIONS_PER_TRANSACTION_TIME: int := 300
  const MAX_OPERATIONS_PER_BATCH: nat := 10000
  const MAX_OPERATIONS_WITHOUT_LOCK: nat := 100
  const MAX_WRITER_LOCK_ID_SIZE: nat := 200
  const FEE_MULTIPLIER: PositiveReal := 0.001

  // ------------------------------------------------------------ file contents

  datatype Reference = Reference(didSuffix: string, revealValue: string)

  datatype CoreOperations = CoreOperations(
    create: Option<seq<SuffixData>>, recover: Option<seq<Reference>>, deactivate: Option<seq<Reference>>)
  datatype CoreIndexFileModel = CoreIndexFileModel(
    writerLockId: Option<string>,
    provisionalIndexFileUri: Option<string>,
    coreProofFileUri: Option<string>,
    operations: Option<CoreOperations>)

  datatype CoreProofs = CoreProofs(recover: Option<seq<string>>, deactivate: Option<seq<string>>)
  datatype CoreProofFileModel = CoreProofFileModel(operations: Option<CoreProofs>)

  datatype ProvisionalOperations = ProvisionalOperations(update: Option<seq<Reference>>)
  datatype ProvisionalIndexFileModel = ProvisionalIndexFileModel(
    chunks: seq<string>, operations: Option<ProvisionalOperations>, provisionalProofFileUri: Option<string>)

  datatype ProvisionalProofs = ProvisionalProofs(update: Option<seq<string>>)
  datatype ProvisionalProofFileModel = ProvisionalProofFileModel(operations: Option<ProvisionalProofs>)

  /** A delta that is JSON `null` is `None`. */
  datatype ChunkFileModel = ChunkFileModel(deltas: Option<seq<Option<Delta>>>)

  // ------------------------------------------------------------ the environment

  datatype FetchResult = Success(content: Buffer) | InvalidHash | MaxSizeExceeded | NotAFile | NotReachable | NotFound

  /** Cryptography, canonicalization and schema checks, none of which is interpreted. */
  datatype Primitives = Primitives(
    uniqueSuffix: SuffixData -> string,
    isBase64Url: string -> bool,
    jwsHeader: string -> Result<(), Error>,
    updatePayload: string -> Result<UpdateSignedData, Error>,
    recoverPayload: string -> Result<RecoverSignedData, Error>,
    deactivatePayload: string -> Result<DeactivateSignedData, Error>,
    patchSchema: Patch -> Result<(), Error>,
    deltaWithinSize: Delta -> bool,
    didTypeOk: Option<string> -> bool,
    digest: string -> string,
    encodeMultihash: string -> string,
    decodeMultihash: string -> Option<string>,
    canonicalDelta: Delta -> string,
    verifySignature: (Jws, string) -> bool)

  /** Compression and JSON text of the five file kinds. */
  datatype FileCodec = FileCodec(
    encodeCoreIndex: CoreIndexFileModel -> Buffer,
    decodeCoreIndex: Buffer -> Result<CoreIndexFileModel, Error>,
    encodeCoreProof: CoreProofFileModel -> Buffer,
    decodeCoreProof: Buffer -> Result<CoreProofFileModel, Error>,
    encodeProvisionalIndex: ProvisionalIndexFileModel -> Buffer,
    decodeProvisionalIndex: Buffer -> Result<ProvisionalIndexFileModel, Error>,
    encodeProvisionalProof: ProvisionalProofFileModel -> Buffer,
    decodeProvisionalProof: Buffer -> Result<ProvisionalProofFileModel, Error>,
    encodeChunk: ChunkFileModel -> Buffer,
    decodeChunk: Buffer -> Result<ChunkFileModel, Error>)
  {
    /** Decoding undoes encoding. */
    ghost predicate Lawful() {
      && (forall m :: decodeCoreIndex(encodeCoreIndex(m)) == Ok(m))
      && (forall m :: decodeCoreProof(encodeCoreProof(m)) == Ok(m))
      && (forall m :: decodeProvisionalIndex(encodeProvisionalIndex(m)) == Ok(m))
      && (forall m :: decodeProvisionalProof(encodeProvisionalProof(m)) == Ok(m))
      && (forall m :: decodeChunk(encodeChunk(m)) == Ok(m))
    }
  }

  /** Everything a node consults that is not part of this model. */
  datatype Context = Context(
    primitives: Primitives,
    codec: FileCodec,
    versionMetadata: nat -> VersionMetadata,
    valueTimeLock: string -> Option<ValueTimeLock>)
}
