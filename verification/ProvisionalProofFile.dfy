/** The provisional proof file: the signed data of the updates of a batch, by position. */
module ProvisionalProofFile {
  import opened Wrappers
  import opened Models
  import opened JwsCompact
  import opened Traversal

  function UpdateProofs(operations: seq<UpdateOperation>): seq<string> {
    seq(|operations|, i requires 0 <= i < |operations| => ToCompactJws(operations[i].signedDataJws))
  }

  function CreateBuffer(ctx: Context, updates: seq<UpdateOperation>): Option<Buffer> {
    if updates == [] then None
    else Some(ctx.codec.encodeProvisionalProof(
      ProvisionalProofFileModel(Some(ProvisionalProofs(Some(UpdateProofs(updates)))))))
  }

  function ParseUpdateProof(p: Primitives, signedData: string): Result<Jws, Error> {
    var jws :- ParseCompactJws(p, Some(signedData));
    var _ :- p.updatePayload(jws.payload);
    Ok(jws)
  }

  function UpdateProofParser(p: Primitives): ElementParser<string, Jws, Error> {
    (i: nat, signedData: string) => ParseUpdateProof(p, signedData)
  }

  function Parsed(ctx: Context, buffer: Buffer): Result<seq<Jws>, Error> {
    var model :- ctx.codec.decodeProvisionalProof(buffer);
    if model.operations.None? then Err(ProvisionalProofFileOperationsNotFound)
    else if model.operations.value.update.None? then Err(ProvisionalProofFileUpdatePropertyNotAnArray)
    else
      var updateProofs :- ParseAll(UpdateProofParser(ctx.primitives), model.operations.value.update.value);
      if updateProofs == [] then Err(ProvisionalProofFileHasNoProofs) else Ok(updateProofs)
  }

  method Parse(ctx: Context, buffer: Buffer) returns (r: Result<seq<Jws>, Error>)
    ensures r == Parsed(ctx, buffer)
  {
    var p := ctx.primitives;
    var model :- ctx.codec.decodeProvisionalProof(buffer);
    if model.operations.None? {
      return Err(ProvisionalProofFileOperationsNotFound);
    }
    if model.operations.value.update.None? {
      return Err(ProvisionalProofFileUpdatePropertyNotAnArray);
    }
    var models := model.operations.value.update.value;
    ghost var parser := UpdateProofParser(p);
    var updateProofs: seq<Jws> := [];
    for i := 0 to |models|
      invariant ParseAll(parser, models[..i]) == Ok(updateProofs)
    {
      ParseAllStep(parser, models, i);
      var proof := ParseUpdateProof(p, models[i]);
      if proof.Err? {
        FirstFailureDecides(parser, models, i + 1);
        return Err(proof.error);
      }
      updateProofs := updateProofs + [proof.value];
    }
    assert models[..|models|] == models;
    if |updateProofs| == 0 {
      return Err(ProvisionalProofFileHasNoProofs);
    }
    return Ok(updateProofs);
  }
}
