/** The provisional index file: the updates of a batch and the URIs of the chunk and provisional proof files. */
module ProvisionalIndexFile {
  import opened Wrappers
  import opened Models
  import opened ArrayMethods
  import opened CoreIndexFile

  datatype ProvisionalIndex = ProvisionalIndex(
    chunkFileUri: string,
    updates: seq<Reference>,
    provisionalProofFileUri: Option<string>,
    didUniqueSuffixes: seq<string>)
  {
    predicate Valid() {
      && didUniqueSuffixes == ReferenceSuffixes(updates)
      && NoDuplicates(didUniqueSuffixes)
      && (provisionalProofFileUri.Some? <==> updates != [])
    }
  }

  function UpdateReferences(operations: seq<UpdateOperation>): seq<Reference> {
    seq(|operations|, i requires 0 <= i < |operations| =>
      Reference(operations[i].didUniqueSuffix, operations[i].revealValue))
  }

  function CreateFileModel(
    chunkFileUri: string, provisionalProofFileUri: Option<string>, updates: seq<UpdateOperation>)
    : ProvisionalIndexFileModel
  {
    if updates == [] then ProvisionalIndexFileModel([chunkFileUri], None, None)
    else
      ProvisionalIndexFileModel(
        [chunkFileUri], Some(ProvisionalOperations(Some(UpdateReferences(updates)))), provisionalProofFileUri)
  }

  function CheckChunks(chunks: seq<string>): Result<(), Error> {
    if |chunks| != 1 then Err(ProvisionalIndexFileChunksPropertyDoesNotHaveExactlyOneElement)
    else CheckCasFileUri(Some(chunks[0]))
  }

  /** Checks the update references and returns them. */
  function CheckOperations(p: Primitives, operations: Option<ProvisionalOperations>): Result<seq<Reference>, Error> {
    if operations.None? then Ok([])
    else if operations.value.update.None? then Err(ProvisionalIndexFileUpdateOperationsNotArray)
    else
      var updates := operations.value.update.value;
      if !ValidReferences(p, updates) then Err(EncodedMultihashNotSupported)
      else if !NoDuplicates(ReferenceSuffixes(updates)) then Err(ProvisionalIndexFileMultipleOperationsForTheSameDid)
      else Ok(updates)
  }

  function Parse(ctx: Context, buffer: Buffer): (r: Result<ProvisionalIndex, Error>)
    ensures r.Ok? ==> r.value.Valid()
  {
    var model :- ctx.codec.decodeProvisionalIndex(buffer);
    var _ :- CheckChunks(model.chunks);
    var updates :- CheckOperations(ctx.primitives, model.operations);
    var _ :-
      if updates != [] then CheckCasFileUri(model.provisionalProofFileUri)
      else if model.provisionalProofFileUri.Some? then Err(ProvisionalIndexFileProvisionalProofFileUriNotAllowed)
      else Ok(());
    Ok(ProvisionalIndex(model.chunks[0], updates, model.provisionalProofFileUri, ReferenceSuffixes(updates)))
  }
}
