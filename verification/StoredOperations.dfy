/** When the operations stored for a transaction can be indexed, and what resolution makes of those that cannot. */
module StoredOperations {
  import opened Wrappers
  import opened Models
  import opened Multihash
  import opened JwsCompact
  import opened Traversal
  import opened Operations
  import opened OperationProcessor
  import opened Resolver
  import opened CoreIndexFile
  import opened TransactionProcessor
  import ChunkFile
  import CoreProofFile
  import ProvisionalProofFile

  // ------------------------------------------------------------ what the file checks establish

  predicate ReadBack(p: Primitives, jws: Jws) {
    ParseCompactJws(p, Some(ToCompactJws(jws))) == Ok(jws)
  }

  predicate CoreChecked(p: Primitives, core: CoreFiles) {
    && ValidReferences(p, Recovers(core.index.model)) && ValidReferences(p, Deactivates(core.index.model))
    && (core.proof.Some? ==>
          && (forall jws <- core.proof.value.recoverProofs :: ReadBack(p, jws) && p.recoverPayload(jws.payload).Ok?)
          && |core.proof.value.deactivateProofs| <= |core.index.deactivateDidSuffixes|
          && forall i :: 0 <= i < |core.proof.value.deactivateProofs| ==>
               && ReadBack(p, core.proof.value.deactivateProofs[i])
               && ParseDeactivatePayload(p, core.proof.value.deactivateProofs[i].payload,
                                         Some(core.index.deactivateDidSuffixes[i])).Ok?)
  }

  predicate ProvisionalChecked(p: Primitives, provisional: ProvisionalFiles) {
    && (provisional.index.Some? ==> ValidReferences(p, provisional.index.value.updates))
    && (provisional.proof.Some? ==>
          forall jws <- provisional.proof.value :: ReadBack(p, jws) && p.updatePayload(jws.payload).Ok?)
    && (provisional.deltas.Some? ==> forall d <- provisional.deltas.value :: CheckDelta(p, Some(d)).Ok?)
  }

  lemma RecoverProofsAreChecked(p: Primitives, texts: seq<string>, proofs: seq<Jws>)
    requires ParseAll(CoreProofFile.RecoverProofParser(p), texts) == Ok(proofs)
    ensures forall jws <- proofs :: ReadBack(p, jws) && p.recoverPayload(jws.payload).Ok?
  {
    forall i | 0 <= i < |proofs|
      ensures ReadBack(p, proofs[i]) && p.recoverPayload(proofs[i].payload).Ok?
    {
      ParsedElement(CoreProofFile.RecoverProofParser(p), texts, i);
      PrintingUndoesParsing(p, Some(texts[i]));
    }
  }

  lemma DeactivateProofsAreChecked(p: Primitives, texts: seq<string>, proofs: seq<Jws>, expected: seq<string>)
    requires ParseAll(CoreProofFile.DeactivateProofParser(p, expected), texts) == Ok(proofs)
    ensures |proofs| <= |expected|
    ensures forall i :: 0 <= i < |proofs| ==>
              ReadBack(p, proofs[i]) && ParseDeactivatePayload(p, proofs[i].payload, Some(expected[i])).Ok?
  {
    forall i | 0 <= i < |proofs|
      ensures i < |expected|
      ensures ReadBack(p, proofs[i]) && ParseDeactivatePayload(p, proofs[i].payload, Some(expected[i])).Ok?
    {
      ParsedElement(CoreProofFile.DeactivateProofParser(p, expected), texts, i);
      PrintingUndoesParsing(p, Some(texts[i]));
    }
    if |proofs| > 0 {
      assert |proofs| - 1 < |expected|;
    }
  }

  lemma UpdateProofsAreChecked(p: Primitives, texts: seq<string>, proofs: seq<Jws>)
    requires ParseAll(ProvisionalProofFile.UpdateProofParser(p), texts) == Ok(proofs)
    ensures forall jws <- proofs :: ReadBack(p, jws) && p.updatePayload(jws.payload).Ok?
  {
    forall i | 0 <= i < |proofs|
      ensures ReadBack(p, proofs[i]) && p.updatePayload(proofs[i].payload).Ok?
    {
      ParsedElement(ProvisionalProofFile.UpdateProofParser(p), texts, i);
      PrintingUndoesParsing(p, Some(texts[i]));
    }
  }

  lemma DeltasAreChecked(p: Primitives, read: seq<Option<Delta>>, deltas: seq<Delta>)
    requires ParseAll(ChunkFile.DeltaParser(p), read) == Ok(deltas)
    ensures forall d <- deltas :: CheckDelta(p, Some(d)).Ok?
  {
    forall i | 0 <= i < |deltas|
      ensures CheckDelta(p, Some(deltas[i])).Ok?
    {
      ParsedElement(ChunkFile.DeltaParser(p), read, i);
    }
  }

  lemma CoreProofIsChecked(ctx: Context, buffer: Buffer, expected: seq<string>)
    requires CoreProofFile.Parsed(ctx, buffer, expected).Ok?
    ensures var proof, p := CoreProofFile.Parsed(ctx, buffer, expected).value, ctx.primitives;
            && (forall jws <- proof.recoverProofs :: ReadBack(p, jws) && p.recoverPayload(jws.payload).Ok?)
            && |proof.deactivateProofs| <= |expected|
            && forall i :: 0 <= i < |proof.deactivateProofs| ==>
                 && ReadBack(p, proof.deactivateProofs[i])
                 && ParseDeactivatePayload(p, proof.deactivateProofs[i].payload, Some(expected[i])).Ok?
  {
    var operations := ctx.codec.decodeCoreProof(buffer).value.operations.value;
    var proof := CoreProofFile.Parsed(ctx, buffer, expected).value;
    RecoverProofsAreChecked(ctx.primitives, OrEmpty(operations.recover), proof.recoverProofs);
    DeactivateProofsAreChecked(ctx.primitives, OrEmpty(operations.deactivate), proof.deactivateProofs, expected);
  }

  lemma VerifiedCoreIsChecked(ctx: Context, fetch: Downloads, transaction: Transaction)
    requires VerifyCoreFiles(ctx, fetch, transaction).Ok?
    ensures CoreChecked(ctx.primitives, VerifyCoreFiles(ctx, fetch, transaction).value)
  {
    var core := VerifyCoreFiles(ctx, fetch, transaction).value;
    if core.proof.Some? {
      var buffer := DownloadFile(fetch, core.index.model.coreProofFileUri.value, MAX_PROOF_FILE_SIZE).value;
      CoreProofIsChecked(ctx, buffer, core.index.deactivateDidSuffixes);
    }
  }

  lemma VerifiedProvisionalIsChecked(ctx: Context, fetch: Downloads, core: CoreFiles)
    requires VerifyProvisionalFiles(ctx, fetch, core).Ok?
    ensures ProvisionalChecked(ctx.primitives, VerifyProvisionalFiles(ctx, fetch, core).value)
  {
    var provisional := VerifyProvisionalFiles(ctx, fetch, core).value;
    if provisional.proof.Some? {
      var buffer :=
        DownloadFile(fetch, provisional.index.value.provisionalProofFileUri.value, MAX_PROOF_FILE_SIZE).value;
      UpdateProofsAreChecked(
        ctx.primitives, ctx.codec.decodeProvisionalProof(buffer).value.operations.value.update.value,
        provisional.proof.value);
    }
    if provisional.deltas.Some? {
      var buffer := DownloadFile(fetch, provisional.index.value.chunkFileUri, MAX_CHUNK_FILE_SIZE).value;
      DeltasAreChecked(ctx.primitives, ctx.codec.decodeChunk(buffer).value.deltas.value, provisional.deltas.value);
    }
  }

  // ------------------------------------------------------------ what they do not establish

  function RecoverKey(p: Primitives, jws: Jws): Option<string> {
    match p.recoverPayload(jws.payload)
    case Err(_) => None
    case Ok(signedData) => Some(signedData.recoveryKey)
  }

  function DeactivateKey(p: Primitives, jws: Jws): Option<string> {
    match p.deactivatePayload(jws.payload)
    case Err(_) => None
    case Ok(signedData) => Some(signedData.recoveryKey)
  }

  function UpdateKey(p: Primitives, jws: Jws): Option<string> {
    match p.updatePayload(jws.payload)
    case Err(_) => None
    case Ok(signedData) => Some(signedData.updateKey)
  }

  predicate Opens(p: Primitives, key: Option<string>, revealValue: string) {
    key.Some? && HashThenEncode(p, key.value) == revealValue
  }

  /** There is a proof for every reference, and its key has the reveal value of the reference as its hash. */
  predicate ProofsOpen(
    p: Primitives, keyOf: (Primitives, Jws) -> Option<string>, proofs: seq<Jws>, references: seq<Reference>)
  {
    && |proofs| == |references|
    && forall i :: 0 <= i < |references| ==> Opens(p, keyOf(p, proofs[i]), references[i].revealValue)
  }

  predicate CoreProofsOpen(p: Primitives, core: CoreFiles) {
    core.proof.Some? ==>
      && ProofsOpen(p, RecoverKey, core.proof.value.recoverProofs, Recovers(core.index.model))
      && ProofsOpen(p, DeactivateKey, core.proof.value.deactivateProofs, Deactivates(core.index.model))
  }

  predicate ProvisionalProofsOpen(p: Primitives, provisional: ProvisionalFiles) {
    provisional.index.Some? && provisional.proof.Some? ==>
      ProofsOpen(p, UpdateKey, provisional.proof.value, provisional.index.value.updates)
  }

  predicate CanBeIndexed(p: Primitives, operation: AnchoredOperation) {
    !operation.operationBuffer.CreateRequest? ==> CommitKey(p, operation).Ok?
  }

  lemma RecoverIsIndexed(
    p: Primitives, transaction: Transaction, core: CoreFiles, deltas: Option<seq<Delta>>, i: nat)
    requires core.Valid() && CoreChecked(p, core) && i < |core.index.recoverDidSuffixes|
    ensures CanBeIndexed(p, ComposedRecover(transaction, core, deltas, i)) <==>
            && i < |core.proof.value.recoverProofs|
            && Opens(p, RecoverKey(p, core.proof.value.recoverProofs[i]), Recovers(core.index.model)[i].revealValue)
  {
    assert Recovers(core.index.model)[i] in Recovers(core.index.model);
    if i < |core.proof.value.recoverProofs| {
      assert core.proof.value.recoverProofs[i] in core.proof.value.recoverProofs;
    }
  }

  lemma DeactivateRequestIsIndexed(p: Primitives, operation: AnchoredOperation, jws: Jws)
    requires operation.operationBuffer.DeactivateRequest? && IsMultihash(p, operation.operationBuffer.revealValue)
    requires operation.operationBuffer.signedData == Some(ToCompactJws(jws)) && ReadBack(p, jws)
    requires ParseDeactivatePayload(p, jws.payload, Some(operation.operationBuffer.didSuffix)).Ok?
    ensures CanBeIndexed(p, operation) <==> Opens(p, DeactivateKey(p, jws), operation.operationBuffer.revealValue)
  {
  }

  lemma DeactivateIsIndexed(p: Primitives, transaction: Transaction, core: CoreFiles, i: nat)
    requires core.Valid() && CoreChecked(p, core) && i < |core.index.deactivateDidSuffixes|
    requires core.index.didUniqueSuffixes == core.index.deactivateDidSuffixes
    ensures CanBeIndexed(p, ComposedDeactivate(transaction, core, i)) <==>
            && i < |core.proof.value.deactivateProofs|
            && Opens(p, DeactivateKey(p, core.proof.value.deactivateProofs[i]),
                     Deactivates(core.index.model)[i].revealValue)
  {
    var references, operation := Deactivates(core.index.model), ComposedDeactivate(transaction, core, i);
    assert references[i] in references;
    if i < |core.proof.value.deactivateProofs| {
      DeactivateRequestIsIndexed(p, operation, core.proof.value.deactivateProofs[i]);
    } else {
      assert operation.operationBuffer.signedData.None?;
    }
  }

  lemma UpdateIsIndexed(
    p: Primitives, transaction: Transaction, core: CoreFiles, provisional: ProvisionalFiles, i: nat)
    requires core.Valid() && provisional.Valid(core) && ProvisionalChecked(p, provisional)
    requires provisional.index.Some? && i < |provisional.index.value.updates|
    ensures CanBeIndexed(p, ComposedUpdate(transaction, core, provisional, i)) <==>
            Opens(p, UpdateKey(p, provisional.proof.value[i]), provisional.index.value.updates[i].revealValue)
  {
    var updates, n := provisional.index.value.updates, |core.index.createDidSuffixes| + |core.index.recoverDidSuffixes|;
    assert updates[i] in updates && provisional.proof.value[i] in provisional.proof.value;
    assert provisional.deltas.value[n + i] in provisional.deltas.value;
  }

  predicate LongEnough(
    p: Primitives, keyOf: (Primitives, Jws) -> Option<string>, proofs: seq<Jws>, references: seq<Reference>)
  {
    && |references| <= |proofs|
    && forall i :: 0 <= i < |references| ==> Opens(p, keyOf(p, proofs[i]), references[i].revealValue)
  }

  /** Operations that can be indexed one by one just if their proof is there and opens their reference. */
  lemma AllIndexed(
    p: Primitives, keyOf: (Primitives, Jws) -> Option<string>, proofs: seq<Jws>, references: seq<Reference>,
    operations: seq<AnchoredOperation>)
    requires |operations| == |references|
    requires forall i :: 0 <= i < |operations| ==>
               (CanBeIndexed(p, operations[i]) <==>
                  i < |proofs| && Opens(p, keyOf(p, proofs[i]), references[i].revealValue))
    ensures (forall i :: 0 <= i < |operations| ==> CanBeIndexed(p, operations[i]))
            <==> LongEnough(p, keyOf, proofs, references)
  {
    if |operations| > 0 {
      var last := |operations| - 1;
      assert CanBeIndexed(p, operations[last]) ==> last < |proofs|;
    }
  }

  lemma CoreOperationsAreIndexed(
    p: Primitives, transaction: Transaction, core: CoreFiles, deltas: Option<seq<Delta>>)
    requires core.Valid() && CoreChecked(p, core) && ComposedDeactivates(transaction, core).Ok?
    ensures (forall o <- ComposedRecovers(transaction, core, deltas) + ComposedDeactivates(transaction, core).value ::
               CanBeIndexed(p, o))
            <==> CoreProofsOpen(p, core)
  {
    var recovers := ComposedRecovers(transaction, core, deltas);
    var deactivates := ComposedDeactivates(transaction, core).value;
    AllInConcatenation(p, recovers, deactivates);
    if core.proof.Some? {
      var proof, model := core.proof.value, core.index.model;
      forall i | 0 <= i < |recovers|
        ensures CanBeIndexed(p, recovers[i]) <==>
                i < |proof.recoverProofs|
                && Opens(p, RecoverKey(p, proof.recoverProofs[i]), Recovers(model)[i].revealValue)
      {
        RecoverIsIndexed(p, transaction, core, deltas, i);
      }
      forall i | 0 <= i < |deactivates|
        ensures CanBeIndexed(p, deactivates[i]) <==>
                i < |proof.deactivateProofs|
                && Opens(p, DeactivateKey(p, proof.deactivateProofs[i]), Deactivates(model)[i].revealValue)
      {
        DeactivateIsIndexed(p, transaction, core, i);
      }
      AllIndexed(p, RecoverKey, proof.recoverProofs, Recovers(model), recovers);
      AllIndexed(p, DeactivateKey, proof.deactivateProofs, Deactivates(model), deactivates);
      CountsMatch(|recovers|, |deactivates|, |proof.recoverProofs|, |proof.deactivateProofs|);
    }
  }

  lemma AllInConcatenation(p: Primitives, a: seq<AnchoredOperation>, b: seq<AnchoredOperation>)
    ensures (forall o <- a + b :: CanBeIndexed(p, o)) <==>
            && (forall i :: 0 <= i < |a| ==> CanBeIndexed(p, a[i]))
            && (forall i :: 0 <= i < |b| ==> CanBeIndexed(p, b[i]))
  {
    forall i | 0 <= i < |a|
      ensures a[i] in a + b
    {
      assert (a + b)[i] == a[i];
    }
    forall i | 0 <= i < |b|
      ensures b[i] in a + b
    {
      assert (a + b)[|a| + i] == b[i];
    }
  }

  /** If the total is right and neither list is too short, both counts are right. */
  lemma CountsMatch(r: nat, d: nat, recoverProofs: nat, deactivateProofs: nat)
    requires r + d == recoverProofs + deactivateProofs
    ensures (r <= recoverProofs && d <= deactivateProofs) <==> (r == recoverProofs && d == deactivateProofs)
  {
  }

  lemma UpdatesAreIndexed(
    p: Primitives, transaction: Transaction, core: CoreFiles, provisional: ProvisionalFiles)
    requires core.Valid() && provisional.Valid(core) && ProvisionalChecked(p, provisional)
    ensures (forall o <- ComposedUpdates(transaction, core, provisional) :: CanBeIndexed(p, o))
            <==> ProvisionalProofsOpen(p, provisional)
  {
    var updates := ComposedUpdates(transaction, core, provisional);
    AllInConcatenation(p, updates, []);
    assert updates + [] == updates;
    if provisional.index.Some? && provisional.proof.Some? {
      var proofs, references := provisional.proof.value, provisional.index.value.updates;
      forall i | 0 <= i < |updates|
        ensures CanBeIndexed(p, updates[i]) <==>
                i < |proofs| && Opens(p, UpdateKey(p, proofs[i]), references[i].revealValue)
      {
        UpdateIsIndexed(p, transaction, core, provisional, i);
      }
      AllIndexed(p, UpdateKey, proofs, references, updates);
    }
  }

  /** The files whose operations are stored for a transaction. */
  function FilesOf(ctx: Context, fetch: Downloads, core: CoreFiles): ProvisionalFiles {
    var verified := VerifyProvisionalFiles(ctx, fetch, core);
    if verified.Ok? then verified.value else NO_PROVISIONAL_FILES
  }

  /** Whatever was downloaded and accepted, the stored recovers, deactivates and updates can all be indexed if and only
      if every reveal value has a proof of its own type at its position whose key hashes to it. No check of the files
      compares the two, and of the proofs in the core proof file only the total number is checked. */
  lemma StoredOperationsAreIndexedExactly(ctx: Context, fetch: Downloads, transaction: Transaction)
    requires Processed(ctx, fetch, transaction).stored.Some?
    ensures var core := VerifyCoreFiles(ctx, fetch, transaction);
            && core.Ok?
            && ((forall o <- Processed(ctx, fetch, transaction).stored.value :: CanBeIndexed(ctx.primitives, o))
                <==> && CoreProofsOpen(ctx.primitives, core.value)
                     && ProvisionalProofsOpen(ctx.primitives, FilesOf(ctx, fetch, core.value)))
  {
    var p, core := ctx.primitives, VerifyCoreFiles(ctx, fetch, transaction).value;
    var provisional := FilesOf(ctx, fetch, core);
    VerifiedCoreIsChecked(ctx, fetch, transaction);
    if VerifyProvisionalFiles(ctx, fetch, core).Ok? {
      VerifiedProvisionalIsChecked(ctx, fetch, core);
    }
    CoreOperationsAreIndexed(p, transaction, core, provisional.deltas);
    UpdatesAreIndexed(p, transaction, core, provisional);
    var creates := ComposedCreates(transaction, core, provisional.deltas);
    var recovers := ComposedRecovers(transaction, core, provisional.deltas);
    var deactivates := ComposedDeactivates(transaction, core).value;
    var updates := ComposedUpdates(transaction, core, provisional);
    AllInParts(p, creates, recovers, deactivates, updates);
    assert Processed(ctx, fetch, transaction).stored.value == creates + recovers + deactivates + updates;
  }

  lemma AllInParts(
    p: Primitives, creates: seq<AnchoredOperation>, recovers: seq<AnchoredOperation>,
    deactivates: seq<AnchoredOperation>, updates: seq<AnchoredOperation>)
    requires forall o <- creates :: o.operationBuffer.CreateRequest?
    ensures (forall o <- creates + recovers + deactivates + updates :: CanBeIndexed(p, o)) <==>
            && (forall o <- recovers + deactivates :: CanBeIndexed(p, o))
            && (forall o <- updates :: CanBeIndexed(p, o))
  {
    var all, core := creates + recovers + deactivates + updates, recovers + deactivates;
    assert all == creates + core + updates;
    forall o
      ensures o in all <==> o in creates || o in core || o in updates
    {
    }
  }

  // ------------------------------------------------------------ what resolution makes of them

  /** A recover or deactivate that cannot be indexed, once stored for a DID that can be created, makes every resolution
      of the DID throw, whatever else is stored. */
  lemma UnindexedRecoveryThrows(p: Primitives, operations: seq<AnchoredOperation>, operation: AnchoredOperation)
    requires operation in operations && InPhase(Recovery, operation) && !CanBeIndexed(p, operation)
    requires FirstState(p, OfType(operations, Create)).Some?
    ensures Terminates(p, operations) && Resolve(p, operations) == Thrown
  {
    var phase := PhaseOperations(Recovery, operations);
    assert operation in phase;
    var i :| 0 <= i < |phase| && phase[i] == operation;
    assert !Indexable(p, phase);
  }

  predicate AllIndexable(p: Primitives, operations: seq<AnchoredOperation>, phase: Phase) {
    forall o <- operations :: InPhase(phase, o) ==> CanBeIndexed(p, o)
  }

  lemma IndexableExactly(p: Primitives, operations: seq<AnchoredOperation>, phase: Phase)
    ensures Indexable(p, PhaseOperations(phase, operations)) <==> AllIndexable(p, operations, phase)
  {
    var chosen := PhaseOperations(phase, operations);
    forall o
      ensures o in chosen <==> o in operations && InPhase(phase, o)
    {
    }
    if Indexable(p, chosen) {
      forall o | o in operations && InPhase(phase, o)
        ensures CanBeIndexed(p, o)
      {
        var i :| 0 <= i < |chosen| && chosen[i] == o;
      }
    } else {
      var i :| 0 <= i < |chosen| && CommitKey(p, chosen[i]).Err?;
      assert chosen[i] in operations;
    }
  }

  /** Resolution throws if and only if a stored recover or deactivate cannot be indexed, or a stored update cannot and
      the DID is not deactivated. */
  lemma ResolutionThrowsExactly(p: Primitives, operations: seq<AnchoredOperation>)
    requires Terminates(p, operations) && FirstState(p, OfType(operations, Create)).Some?
    ensures Resolve(p, operations) == Thrown <==>
            || !AllIndexable(p, operations, Recovery)
            || (&& !AllIndexable(p, operations, Updating)
                && Run(p, Recovery, PhaseOperations(Recovery, operations),
                       FirstState(p, OfType(operations, Create)).value, {}).value.nextRecoveryCommitmentHash.Some?)
  {
    IndexableExactly(p, operations, Recovery);
    IndexableExactly(p, operations, Updating);
  }

  /** The request handler admits only what can be indexed, so it takes a batch that no request handler made. */
  lemma AdmittedIsIndexed(p: Primitives, operation: AnchoredOperation)
    requires Lawful(p) && Admit(p, operation.operationBuffer).Ok?
    ensures CanBeIndexed(p, operation)
  {
  }
}
