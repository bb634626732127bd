/** The core proof file: the signed data of the recovers and deactivates of a batch, by position. */
module CoreProofFile {
  import opened Wrappers
  import opened Models
  import opened Operations
  import opened JwsCompact
  import opened Traversal

  datatype CoreProof = CoreProof(recoverProofs: seq<Jws>, deactivateProofs: seq<Jws>)

  function RecoverProofs(operations: seq<RecoverOperation>): seq<string> {
    seq(|operations|, i requires 0 <= i < |operations| => ToCompactJws(operations[i].signedDataJws))
  }

  function DeactivateProofs(operations: seq<DeactivateOperation>): seq<string> {
    seq(|operations|, i requires 0 <= i < |operations| => ToCompactJws(operations[i].signedDataJws))
  }

  function CreateBuffer(ctx: Context, recovers: seq<RecoverOperation>, deactivates: seq<DeactivateOperation>)
    : Option<Buffer>
  {
    if recovers == [] && deactivates == [] then None
    else Some(ctx.codec.encodeCoreProof(CoreProofFileModel(Some(
      CoreProofs(Some(RecoverProofs(recovers)), Some(DeactivateProofs(deactivates)))))))
  }

  function ParseRecoverProof(p: Primitives, signedData: string): Result<Jws, Error> {
    var jws :- ParseCompactJws(p, Some(signedData));
    var _ :- p.recoverPayload(jws.payload);
    Ok(jws)
  }

  /** A deactivate proof must be signed for the DID listed at the same position in the core index file. */
  function ParseDeactivateProof(p: Primitives, signedData: string, expected: seq<string>, index: nat)
    : Result<Jws, Error>
  {
    var jws :- ParseCompactJws(p, Some(signedData));
    var _ :- ParseDeactivatePayload(p, jws.payload, if index < |expected| then Some(expected[index]) else None);
    Ok(jws)
  }

  function RecoverProofParser(p: Primitives): ElementParser<string, Jws, Error> {
    (i: nat, signedData: string) => ParseRecoverProof(p, signedData)
  }

  function DeactivateProofParser(p: Primitives, expected: seq<string>): ElementParser<string, Jws, Error> {
    (i: nat, signedData: string) => ParseDeactivateProof(p, signedData, expected, i)
  }

  function Parsed(ctx: Context, buffer: Buffer, expected: seq<string>): Result<CoreProof, Error> {
    var model :- ctx.codec.decodeCoreProof(buffer);
    if model.operations.None? then Err(CoreProofFileOperationsNotFound)
    else
      var recoverModels := if model.operations.value.recover.Some? then model.operations.value.recover.value else [];
      var deactivateModels :=
        if model.operations.value.deactivate.Some? then model.operations.value.deactivate.value else [];
      var recoverProofs :- ParseAll(RecoverProofParser(ctx.primitives), recoverModels);
      var deactivateProofs :- ParseAll(DeactivateProofParser(ctx.primitives, expected), deactivateModels);
      if |recoverProofs| + |deactivateProofs| == 0 then Err(CoreProofFileHasNoProofs)
      else Ok(CoreProof(recoverProofs, deactivateProofs))
  }

  method ParseRecoverProofs(p: Primitives, models: seq<string>) returns (r: Result<seq<Jws>, Error>)
    ensures r == ParseAll(RecoverProofParser(p), models)
  {
    var recoverProofs := [];
    ghost var parser := RecoverProofParser(p);
    for i := 0 to |models|
      invariant ParseAll(parser, models[..i]) == Ok(recoverProofs)
    {
      ParseAllStep(parser, models, i);
      var proof := ParseRecoverProof(p, models[i]);
      if proof.Err? {
        FirstFailureDecides(parser, models, i + 1);
        return Err(proof.error);
      }
      recoverProofs := recoverProofs + [proof.value];
    }
    assert models[..|models|] == models;
    return Ok(recoverProofs);
  }

  method ParseDeactivateProofs(p: Primitives, models: seq<string>, expected: seq<string>)
    returns (r: Result<seq<Jws>, Error>)
    ensures r == ParseAll(DeactivateProofParser(p, expected), models)
  {
    var deactivateProofs := [];
    ghost var parser := DeactivateProofParser(p, expected);
    var deactivateProofIndex := 0;
    while deactivateProofIndex < |models|
      invariant deactivateProofIndex <= |models|
      invariant ParseAll(parser, models[..deactivateProofIndex]) == Ok(deactivateProofs)
    {
      ParseAllStep(parser, models, deactivateProofIndex);
      var proof := ParseDeactivateProof(p, models[deactivateProofIndex], expected, deactivateProofIndex);
      if proof.Err? {
        FirstFailureDecides(parser, models, deactivateProofIndex + 1);
        return Err(proof.error);
      }
      deactivateProofs := deactivateProofs + [proof.value];
      deactivateProofIndex := deactivateProofIndex + 1;
    }
    assert models[..|models|] == models;
    return Ok(deactivateProofs);
  }

  method Parse(ctx: Context, buffer: Buffer, expectedDeactivatedDidUniqueSuffixes: seq<string>)
    returns (r: Result<CoreProof, Error>)
    ensures r == Parsed(ctx, buffer, expectedDeactivatedDidUniqueSuffixes)
  {
    var p := ctx.primitives;
    var model :- ctx.codec.decodeCoreProof(buffer);
    if model.operations.None? {
      return Err(CoreProofFileOperationsNotFound);
    }
    var recoverProofs, deactivateProofs: seq<Jws> := [], [];
    var numberOfProofs := 0;

    if model.operations.value.recover.Some? {
      recoverProofs :- ParseRecoverProofs(p, model.operations.value.recover.value);
      numberOfProofs := numberOfProofs + |recoverProofs|;
    }
    if model.operations.value.deactivate.Some? {
      deactivateProofs :- ParseDeactivateProofs(
        p, model.operations.value.deactivate.value, expectedDeactivatedDidUniqueSuffixes);
      numberOfProofs := numberOfProofs + |deactivateProofs|;
    }

    if numberOfProofs == 0 {
      return Err(CoreProofFileHasNoProofs);
    }
    return Ok(CoreProof(recoverProofs, deactivateProofs));
  }
}
