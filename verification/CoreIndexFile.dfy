/** The core index file: the creates, recovers and deactivates of a batch, and the URIs of the other files. */
module CoreIndexFile {
  import opened Wrappers
  import opened Models
  import opened Multihash
  import opened Operations
  import opened ArrayMethods

  datatype CoreIndex = CoreIndex(
    model: CoreIndexFileModel,
    didUniqueSuffixes: seq<string>,
    createDidSuffixes: seq<string>,
    recoverDidSuffixes: seq<string>,
    deactivateDidSuffixes: seq<string>)
  {
    /** A parsed file's derived lists agree with its model and with each other. */
    predicate Valid() {
      && didUniqueSuffixes == createDidSuffixes + recoverDidSuffixes + deactivateDidSuffixes
      && NoDuplicates(didUniqueSuffixes)
      && |createDidSuffixes| == |Creates(model)|
      && recoverDidSuffixes == ReferenceSuffixes(Recovers(model))
      && deactivateDidSuffixes == ReferenceSuffixes(Deactivates(model))
      && (createDidSuffixes != [] || recoverDidSuffixes != [] ==> model.provisionalIndexFileUri.Some?)
      && (model.coreProofFileUri.Some? <==> recoverDidSuffixes != [] || deactivateDidSuffixes != [])
    }
  }

  function OrEmpty<T>(s: Option<seq<T>>): seq<T> {
    if s.Some? then s.value else []
  }

  function Creates(model: CoreIndexFileModel): seq<SuffixData> {
    if model.operations.None? then [] else OrEmpty(model.operations.value.create)
  }

  function Recovers(model: CoreIndexFileModel): seq<Reference> {
    if model.operations.None? then [] else OrEmpty(model.operations.value.recover)
  }

  function Deactivates(model: CoreIndexFileModel): seq<Reference> {
    if model.operations.None? then [] else OrEmpty(model.operations.value.deactivate)
  }

  function CreateSuffixes(p: Primitives, creates: seq<SuffixData>): (r: seq<string>) {
    seq(|creates|, i requires 0 <= i < |creates| => p.uniqueSuffix(creates[i]))
  }

  function ReferenceSuffixes(references: seq<Reference>): (r: seq<string>) {
    seq(|references|, i requires 0 <= i < |references| => references[i].didSuffix)
  }

  predicate ValidReferences(p: Primitives, references: seq<Reference>) {
    forall r <- references :: IsMultihash(p, r.didSuffix) && IsMultihash(p, r.revealValue)
  }

  predicate ValidCreates(p: Primitives, creates: seq<SuffixData>) {
    forall s <- creates :: ValidSuffixData(p, s)
  }

  function CheckWriterLockId(writerLockId: Option<string>): Result<(), Error> {
    if writerLockId.Some? && |writerLockId.value| > MAX_WRITER_LOCK_ID_SIZE then
      Err(CoreIndexFileWriterLockIdExceededMaxSize)
    else Ok(())
  }

  function CheckCasFileUri(uri: Option<string>): Result<(), Error> {
    if uri.None? then Err(InputValidatorCasFileUriNotString)
    else if |uri.value| > MAX_CAS_URI_LENGTH then Err(InputValidatorCasFileUriExceedsMaxLength)
    else Ok(())
  }

  function CheckUris(model: CoreIndexFileModel): Result<(), Error> {
    var _ :-
      if model.provisionalIndexFileUri.Some? then CheckCasFileUri(model.provisionalIndexFileUri)
      else if |Creates(model)| + |Recovers(model)| != 0 then Err(CoreIndexFileProvisionalIndexFileUriMissing)
      else Ok(());
    if |Recovers(model)| > 0 || |Deactivates(model)| > 0 then CheckCasFileUri(model.coreProofFileUri)
    else if model.coreProofFileUri.Some? then Err(CoreIndexFileCoreProofFileUriNotAllowed)
    else Ok(())
  }

  /** The lists an index file is parsed into, if its checks pass. */
  function Indexed(p: Primitives, model: CoreIndexFileModel): CoreIndex {
    var creates := CreateSuffixes(p, Creates(model));
    var recovers := ReferenceSuffixes(Recovers(model));
    var deactivates := ReferenceSuffixes(Deactivates(model));
    CoreIndex(model, creates + recovers + deactivates, creates, recovers, deactivates)
  }

  function CheckModel(p: Primitives, model: CoreIndexFileModel): Result<(), Error> {
    var _ :- CheckWriterLockId(model.writerLockId);
    if !ValidCreates(p, Creates(model)) || !ValidReferences(p, Recovers(model))
       || !ValidReferences(p, Deactivates(model)) then Err(EncodedMultihashNotSupported)
    else if !NoDuplicates(Indexed(p, model).didUniqueSuffixes) then Err(CoreIndexFileMultipleOperationsForTheSameDid)
    else CheckUris(model)
  }

  function Parsed(ctx: Context, buffer: Buffer): (r: Result<CoreIndex, Error>)
    ensures r.Ok? ==> r.value.Valid()
  {
    var model :- ctx.codec.decodeCoreIndex(buffer);
    var _ :- CheckModel(ctx.primitives, model);
    Ok(Indexed(ctx.primitives, model))
  }

  method Parse(ctx: Context, buffer: Buffer) returns (r: Result<CoreIndex, Error>)
    ensures r == Parsed(ctx, buffer)
  {
    var p := ctx.primitives;
    var model :- ctx.codec.decodeCoreIndex(buffer);
    var _ :- CheckWriterLockId(model.writerLockId);

    var didUniqueSuffixes := [];

    if !ValidCreates(p, Creates(model)) {
      return Err(EncodedMultihashNotSupported);
    }
    var createDidSuffixes := CreateSuffixes(p, Creates(model));
    for i := 0 to |createDidSuffixes|
      invariant didUniqueSuffixes == createDidSuffixes[..i]
    {
      didUniqueSuffixes := didUniqueSuffixes + [createDidSuffixes[i]];
    }

    if !ValidReferences(p, Recovers(model)) {
      return Err(EncodedMultihashNotSupported);
    }
    var recoverDidSuffixes := ReferenceSuffixes(Recovers(model));
    for i := 0 to |recoverDidSuffixes|
      invariant didUniqueSuffixes == createDidSuffixes + recoverDidSuffixes[..i]
    {
      didUniqueSuffixes := didUniqueSuffixes + [recoverDidSuffixes[i]];
    }

    if !ValidReferences(p, Deactivates(model)) {
      return Err(EncodedMultihashNotSupported);
    }
    var deactivateDidSuffixes := ReferenceSuffixes(Deactivates(model));
    for i := 0 to |deactivateDidSuffixes|
      invariant didUniqueSuffixes == createDidSuffixes + recoverDidSuffixes + deactivateDidSuffixes[..i]
    {
      didUniqueSuffixes := didUniqueSuffixes + [deactivateDidSuffixes[i]];
    }

    assert didUniqueSuffixes == Indexed(p, model).didUniqueSuffixes;
    var duplicated := HasDuplicates(didUniqueSuffixes);
    if duplicated {
      return Err(CoreIndexFileMultipleOperationsForTheSameDid);
    }
    var _ :- CheckUris(model);
    return Ok(CoreIndex(model, didUniqueSuffixes, createDidSuffixes, recoverDidSuffixes, deactivateDidSuffixes));
  }

  function NonEmpty<T>(s: seq<T>): Option<seq<T>> {
    if s == [] then None else Some(s)
  }

  function RecoverReferences(operations: seq<RecoverOperation>): seq<Reference> {
    seq(|operations|, i requires 0 <= i < |operations| =>
      Reference(operations[i].didUniqueSuffix, operations[i].revealValue))
  }

  function DeactivateReferences(operations: seq<DeactivateOperation>): seq<Reference> {
    seq(|operations|, i requires 0 <= i < |operations| =>
      Reference(operations[i].didUniqueSuffix, operations[i].revealValue))
  }

  function SuffixDatas(operations: seq<CreateOperation>): seq<SuffixData> {
    seq(|operations|, i requires 0 <= i < |operations| => operations[i].suffixData)
  }

  function CreateFileModel(
    writerLockId: Option<string>,
    provisionalIndexFileUri: Option<string>,
    coreProofFileUri: Option<string>,
    creates: seq<CreateOperation>,
    recovers: seq<RecoverOperation>,
    deactivates: seq<DeactivateOperation>)
    : (model: CoreIndexFileModel)
    ensures Creates(model) == SuffixDatas(creates)
    ensures Recovers(model) == RecoverReferences(recovers)
    ensures Deactivates(model) == DeactivateReferences(deactivates)
  {
    var operations :=
      if creates == [] && recovers == [] && deactivates == [] then None
      else Some(CoreOperations(
        NonEmpty(SuffixDatas(creates)),
        NonEmpty(RecoverReferences(recovers)),
        NonEmpty(DeactivateReferences(deactivates))));
    CoreIndexFileModel(writerLockId, provisionalIndexFileUri, coreProofFileUri, operations)
  }

  /** Creating a file throws if the lock identifier is too long. */
  function CreateBuffer(
    ctx: Context,
    writerLockId: Option<string>,
    provisionalIndexFileUri: Option<string>,
    coreProofFileUri: Option<string>,
    creates: seq<CreateOperation>,
    recovers: seq<RecoverOperation>,
    deactivates: seq<DeactivateOperation>)
    : Result<Buffer, Error>
  {
    var _ :- CheckWriterLockId(writerLockId);
    Ok(ctx.codec.encodeCoreIndex(CreateFileModel(
      writerLockId, provisionalIndexFileUri, coreProofFileUri, creates, recovers, deactivates)))
  }
}
