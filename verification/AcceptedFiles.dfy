/** Exactly which files an observer accepts, in terms of the environment and of numbers alone. */
module AcceptedFiles {
  import opened Wrappers
  import opened Models
  import opened ArrayMethods
  import opened JwsCompact
  import opened Traversal
  import opened OperationValidity
  import opened TransactionProcessor
  import AcceptedBatches
  import AnchoredDataSerializer
  import ChunkFile
  import CoreIndexFile
  import CoreProofFile
  import FeeManager
  import Operations
  import ProvisionalIndexFile
  import ProvisionalProofFile
  import StoredOperations
  import ValueTimeLockVerifier

  // ------------------------------------------------------------ core index file

  predicate GoodReferences(p: Primitives, references: seq<Reference>) {
    forall i :: 0 <= i < |references| ==>
      p.decodeMultihash(references[i].didSuffix).Some? && p.decodeMultihash(references[i].revealValue).Some?
  }

  predicate GoodUri(uri: Option<string>) {
    uri.Some? && |uri.value| <= 100
  }

  /** The suffixes of creates, recovers and deactivates, in that order. */
  function BatchSuffixes(
    p: Primitives, creates: seq<SuffixData>, recovers: seq<Reference>, deactivates: seq<Reference>): seq<string>
  {
    if creates != [] then [p.uniqueSuffix(creates[0])] + BatchSuffixes(p, creates[1..], recovers, deactivates)
    else if recovers != [] then [recovers[0].didSuffix] + BatchSuffixes(p, [], recovers[1..], deactivates)
    else if deactivates != [] then [deactivates[0].didSuffix] + BatchSuffixes(p, [], [], deactivates[1..])
    else []
  }

  predicate GoodCoreIndex(
    p: Primitives, model: CoreIndexFileModel, creates: seq<SuffixData>, recovers: seq<Reference>,
    deactivates: seq<Reference>)
  {
    && (model.writerLockId.Some? ==> |model.writerLockId.value| <= 200)
    && (forall i :: 0 <= i < |creates| ==> GoodSuffixData(p, creates[i]))
    && GoodReferences(p, recovers) && GoodReferences(p, deactivates)
    && NoDuplicates(BatchSuffixes(p, creates, recovers, deactivates))
    && (if model.provisionalIndexFileUri.Some? then GoodUri(model.provisionalIndexFileUri)
        else creates == [] && recovers == [])
    && (if recovers == [] && deactivates == [] then model.coreProofFileUri.None? else GoodUri(model.coreProofFileUri))
  }

  lemma CreateSuffixesFromFront(p: Primitives, creates: seq<SuffixData>)
    requires creates != []
    ensures CoreIndexFile.CreateSuffixes(p, creates)
            == [p.uniqueSuffix(creates[0])] + CoreIndexFile.CreateSuffixes(p, creates[1..])
  {
  }

  lemma ReferenceSuffixesFromFront(references: seq<Reference>)
    requires references != []
    ensures CoreIndexFile.ReferenceSuffixes(references)
            == [references[0].didSuffix] + CoreIndexFile.ReferenceSuffixes(references[1..])
  {
  }

  lemma ThreeFromFront(a: string, b: seq<string>, c: seq<string>, d: seq<string>)
    ensures [a] + (b + c + d) == [a] + b + c + d
  {
  }

  lemma {:induction false} SuffixesInOrder(
    p: Primitives, creates: seq<SuffixData>, recovers: seq<Reference>, deactivates: seq<Reference>)
    ensures BatchSuffixes(p, creates, recovers, deactivates)
            == CoreIndexFile.CreateSuffixes(p, creates) + CoreIndexFile.ReferenceSuffixes(recovers)
               + CoreIndexFile.ReferenceSuffixes(deactivates)
  {
    if creates != [] {
      SuffixesInOrder(p, creates[1..], recovers, deactivates);
      CreateSuffixesFromFront(p, creates);
      ThreeFromFront(p.uniqueSuffix(creates[0]), CoreIndexFile.CreateSuffixes(p, creates[1..]),
                     CoreIndexFile.ReferenceSuffixes(recovers), CoreIndexFile.ReferenceSuffixes(deactivates));
    } else if recovers != [] {
      SuffixesInOrder(p, [], recovers[1..], deactivates);
      ReferenceSuffixesFromFront(recovers);
      ThreeFromFront(recovers[0].didSuffix, [], CoreIndexFile.ReferenceSuffixes(recovers[1..]),
                     CoreIndexFile.ReferenceSuffixes(deactivates));
    } else if deactivates != [] {
      SuffixesInOrder(p, [], [], deactivates[1..]);
      ReferenceSuffixesFromFront(deactivates);
    }
  }

  lemma ReferencesAreChecked(p: Primitives, references: seq<Reference>)
    ensures CoreIndexFile.ValidReferences(p, references) <==> GoodReferences(p, references)
  {
    if CoreIndexFile.ValidReferences(p, references) {
      forall i | 0 <= i < |references|
        ensures p.decodeMultihash(references[i].didSuffix).Some? && p.decodeMultihash(references[i].revealValue).Some?
      {
        assert references[i] in references;
      }
    }
  }

  lemma CreatesAreChecked(p: Primitives, creates: seq<SuffixData>)
    ensures CoreIndexFile.ValidCreates(p, creates) <==> forall i :: 0 <= i < |creates| ==> GoodSuffixData(p, creates[i])
  {
    if CoreIndexFile.ValidCreates(p, creates) {
      forall i | 0 <= i < |creates|
        ensures GoodSuffixData(p, creates[i])
      {
        assert creates[i] in creates;
      }
    }
  }

  /** The operations that a core index file lists, each kind in order. */
  predicate ListsOperations(
    model: CoreIndexFileModel, creates: seq<SuffixData>, recovers: seq<Reference>, deactivates: seq<Reference>)
  {
    match model.operations
    case None => creates == [] && recovers == [] && deactivates == []
    case Some(o) =>
      && creates == (if o.create.Some? then o.create.value else [])
      && recovers == (if o.recover.Some? then o.recover.value else [])
      && deactivates == (if o.deactivate.Some? then o.deactivate.value else [])
  }

  lemma UrisAreCheckedExactly(
    model: CoreIndexFileModel, creates: seq<SuffixData>, recovers: seq<Reference>, deactivates: seq<Reference>)
    requires ListsOperations(model, creates, recovers, deactivates)
    ensures CoreIndexFile.CheckUris(model).Ok? <==>
            && (if model.provisionalIndexFileUri.Some? then GoodUri(model.provisionalIndexFileUri)
                else creates == [] && recovers == [])
            && (if recovers == [] && deactivates == [] then model.coreProofFileUri.None?
                else GoodUri(model.coreProofFileUri))
  {
    assert CoreIndexFile.Creates(model) == creates;
    assert CoreIndexFile.Recovers(model) == recovers && CoreIndexFile.Deactivates(model) == deactivates;
  }

  lemma CoreIndexIsCheckedExactly(
    p: Primitives, model: CoreIndexFileModel, creates: seq<SuffixData>, recovers: seq<Reference>,
    deactivates: seq<Reference>)
    requires ListsOperations(model, creates, recovers, deactivates)
    ensures CoreIndexFile.CheckModel(p, model).Ok? <==> GoodCoreIndex(p, model, creates, recovers, deactivates)
  {
    CreatesAreChecked(p, creates);
    ReferencesAreChecked(p, recovers);
    ReferencesAreChecked(p, deactivates);
    SuffixesInOrder(p, creates, recovers, deactivates);
    UrisAreCheckedExactly(model, creates, recovers, deactivates);
    assert CoreIndexFile.Creates(model) == creates;
    assert CoreIndexFile.Recovers(model) == recovers && CoreIndexFile.Deactivates(model) == deactivates;
  }

  /** A core index file is accepted if and only if it decodes to a model whose lock identifier, suffix data, references
      and URIs are in order and that has no suffix twice; its lists of suffixes are those of the model. */
  lemma CoreIndexIsAcceptedExactly(
    ctx: Context, buffer: Buffer, creates: seq<SuffixData>, recovers: seq<Reference>, deactivates: seq<Reference>)
    requires var model := ctx.codec.decodeCoreIndex(buffer);
             model.Ok? ==> ListsOperations(model.value, creates, recovers, deactivates)
    ensures var model, r := ctx.codec.decodeCoreIndex(buffer), CoreIndexFile.Parsed(ctx, buffer);
            && (r.Ok? <==> model.Ok? && GoodCoreIndex(ctx.primitives, model.value, creates, recovers, deactivates))
            && (r.Ok? ==>
                  && r.value.model == model.value
                  && r.value.didUniqueSuffixes == BatchSuffixes(ctx.primitives, creates, recovers, deactivates)
                  && r.value.createDidSuffixes == BatchSuffixes(ctx.primitives, creates, [], [])
                  && r.value.recoverDidSuffixes == BatchSuffixes(ctx.primitives, [], recovers, [])
                  && r.value.deactivateDidSuffixes == BatchSuffixes(ctx.primitives, [], [], deactivates))
  {
    var p, model := ctx.primitives, ctx.codec.decodeCoreIndex(buffer);
    if model.Ok? {
      CoreIndexIsCheckedExactly(p, model.value, creates, recovers, deactivates);
      SuffixesInOrder(p, creates, recovers, deactivates);
      SuffixesInOrder(p, creates, [], []);
      SuffixesInOrder(p, [], recovers, []);
      SuffixesInOrder(p, [], [], deactivates);
      assert CoreIndexFile.Creates(model.value) == creates;
    }
  }

  // ------------------------------------------------------------ proof files

  /** Every text is a compact JWS with a payload that is accepted. */
  ghost predicate AllSigned(p: Primitives, texts: seq<string>, proofs: seq<Jws>, good: (nat, string) -> bool) {
    && |proofs| == |texts|
    && forall i :: 0 <= i < |texts| ==> Signed(p, Some(texts[i]), proofs[i]) && good(i, proofs[i].payload)
  }

  ghost predicate Parses(f: ElementParser<string, Jws, Error>, p: Primitives, good: (nat, string) -> bool) {
    forall i: nat, text, jws :: f(i, text) == Ok(jws) <==> Signed(p, Some(text), jws) && good(i, jws.payload)
  }

  lemma ProofsAreParsedExactly(
    f: ElementParser<string, Jws, Error>, p: Primitives, good: (nat, string) -> bool, texts: seq<string>,
    proofs: seq<Jws>)
    requires Parses(f, p, good)
    ensures ParseAll(f, texts) == Ok(proofs) <==> AllSigned(p, texts, proofs, good)
  {
    if AllSigned(p, texts, proofs, good) {
      forall i | 0 <= i < |texts|
        ensures f(i, texts[i]) == Ok(proofs[i])
      {
        assert Signed(p, Some(texts[i]), proofs[i]);
      }
      ParsesTo(f, texts, proofs);
    }
    if ParseAll(f, texts) == Ok(proofs) {
      forall i | 0 <= i < |texts|
        ensures Signed(p, Some(texts[i]), proofs[i]) && good(i, proofs[i].payload)
      {
        ParsedElement(f, texts, i);
      }
    }
  }

  function ForRecover(p: Primitives): (nat, string) -> bool {
    (i: nat, payload: string) => p.recoverPayload(payload).Ok?
  }

  /** The payload is signed for the DID that is expected at the position. */
  function ForDeactivate(p: Primitives, expected: seq<string>): (nat, string) -> bool {
    (i: nat, payload: string) =>
      && i < |expected| && p.deactivatePayload(payload).Ok?
      && p.deactivatePayload(payload).value.didSuffix == expected[i]
  }

  function ForUpdate(p: Primitives): (nat, string) -> bool {
    (i: nat, payload: string) => p.updatePayload(payload).Ok?
  }

  lemma RecoverProofsParse(p: Primitives)
    ensures Parses(CoreProofFile.RecoverProofParser(p), p, ForRecover(p))
  {
    forall i: nat, text, jws
      ensures CoreProofFile.RecoverProofParser(p)(i, text) == Ok(jws) <==>
              Signed(p, Some(text), jws) && ForRecover(p)(i, jws.payload)
    {
      ParsedIsSigned(p, Some(text), jws);
    }
  }

  lemma DeactivateProofsParse(p: Primitives, expected: seq<string>)
    ensures Parses(CoreProofFile.DeactivateProofParser(p, expected), p, ForDeactivate(p, expected))
  {
    forall i: nat, text, jws
      ensures CoreProofFile.DeactivateProofParser(p, expected)(i, text) == Ok(jws) <==>
              Signed(p, Some(text), jws) && ForDeactivate(p, expected)(i, jws.payload)
    {
      ParsedIsSigned(p, Some(text), jws);
    }
  }

  lemma UpdateProofsParse(p: Primitives)
    ensures Parses(ProvisionalProofFile.UpdateProofParser(p), p, ForUpdate(p))
  {
    forall i: nat, text, jws
      ensures ProvisionalProofFile.UpdateProofParser(p)(i, text) == Ok(jws) <==>
              Signed(p, Some(text), jws) && ForUpdate(p)(i, jws.payload)
    {
      ParsedIsSigned(p, Some(text), jws);
    }
  }

  /** A core proof file is accepted if and only if its texts are signed data of recovers and of deactivates, the payload
      of the i-th deactivate names the i-th expected suffix, and there is at least one proof. */
  lemma CoreProofIsAcceptedExactly(
    ctx: Context, buffer: Buffer, expected: seq<string>, recovers: seq<Jws>, deactivates: seq<Jws>)
    ensures CoreProofFile.Parsed(ctx, buffer, expected) == Ok(CoreProofFile.CoreProof(recovers, deactivates)) <==>
            var p, model := ctx.primitives, ctx.codec.decodeCoreProof(buffer);
            && model.Ok? && model.value.operations.Some?
            && AllSigned(p, OrEmpty(model.value.operations.value.recover), recovers, ForRecover(p))
            && AllSigned(p, OrEmpty(model.value.operations.value.deactivate), deactivates, ForDeactivate(p, expected))
            && |recovers| + |deactivates| > 0
  {
    var p, model := ctx.primitives, ctx.codec.decodeCoreProof(buffer);
    RecoverProofsParse(p);
    DeactivateProofsParse(p, expected);
    if model.Ok? && model.value.operations.Some? {
      var o := model.value.operations.value;
      ProofsAreParsedExactly(CoreProofFile.RecoverProofParser(p), p, ForRecover(p), OrEmpty(o.recover), recovers);
      ProofsAreParsedExactly(
        CoreProofFile.DeactivateProofParser(p, expected), p, ForDeactivate(p, expected), OrEmpty(o.deactivate),
        deactivates);
    }
  }

  /** Every deactivate of an accepted core proof file is signed for the DID at its position. */
  lemma AcceptedDeactivatesAreForTheirDids(ctx: Context, buffer: Buffer, expected: seq<string>, i: nat)
    requires CoreProofFile.Parsed(ctx, buffer, expected).Ok?
    requires i < |CoreProofFile.Parsed(ctx, buffer, expected).value.deactivateProofs|
    ensures var payload := CoreProofFile.Parsed(ctx, buffer, expected).value.deactivateProofs[i].payload;
            && i < |expected| && ctx.primitives.deactivatePayload(payload).Ok?
            && ctx.primitives.deactivatePayload(payload).value.didSuffix == expected[i]
  {
    var proof := CoreProofFile.Parsed(ctx, buffer, expected).value;
    CoreProofIsAcceptedExactly(ctx, buffer, expected, proof.recoverProofs, proof.deactivateProofs);
  }

  /** A core proof file with a deactivate signed for another DID, at any position, is refused. */
  lemma ForeignDeactivateIsRefused(
    ctx: Context, buffer: Buffer, expected: seq<string>, texts: seq<string>, i: nat, jws: Jws)
    requires var model := ctx.codec.decodeCoreProof(buffer);
             model.Ok? && model.value.operations.Some? && model.value.operations.value.deactivate == Some(texts)
    requires i < |texts| && Signed(ctx.primitives, Some(texts[i]), jws)
    requires ctx.primitives.deactivatePayload(jws.payload).Ok?
    requires i < |expected| ==> ctx.primitives.deactivatePayload(jws.payload).value.didSuffix != expected[i]
    ensures CoreProofFile.Parsed(ctx, buffer, expected).Err?
  {
    var r := CoreProofFile.Parsed(ctx, buffer, expected);
    if r.Ok? {
      CoreProofIsAcceptedExactly(ctx, buffer, expected, r.value.recoverProofs, r.value.deactivateProofs);
      ParsedIsSigned(ctx.primitives, Some(texts[i]), jws);
      ParsedIsSigned(ctx.primitives, Some(texts[i]), r.value.deactivateProofs[i]);
    }
  }

  /** A provisional proof file is accepted if and only if its texts are signed data of updates, at least one. */
  lemma ProvisionalProofIsAcceptedExactly(ctx: Context, buffer: Buffer, proofs: seq<Jws>)
    ensures ProvisionalProofFile.Parsed(ctx, buffer) == Ok(proofs) <==>
            var p, model := ctx.primitives, ctx.codec.decodeProvisionalProof(buffer);
            && model.Ok? && model.value.operations.Some? && model.value.operations.value.update.Some?
            && AllSigned(p, model.value.operations.value.update.value, proofs, ForUpdate(p))
            && |proofs| > 0
  {
    var p, model := ctx.primitives, ctx.codec.decodeProvisionalProof(buffer);
    UpdateProofsParse(p);
    if model.Ok? && model.value.operations.Some? && model.value.operations.value.update.Some? {
      ProofsAreParsedExactly(
        ProvisionalProofFile.UpdateProofParser(p), p, ForUpdate(p), model.value.operations.value.update.value, proofs);
    }
  }

  // ------------------------------------------------------------ provisional index and chunk file

  predicate GoodProvisionalIndex(p: Primitives, model: ProvisionalIndexFileModel, updates: seq<Reference>) {
    && |model.chunks| == 1 && |model.chunks[0]| <= 100
    && (model.operations.Some? ==> model.operations.value.update.Some?)
    && updates == (if model.operations.Some? then model.operations.value.update.value else [])
    && GoodReferences(p, updates)
    && (forall i, j :: 0 <= i < j < |updates| ==> updates[i].didSuffix != updates[j].didSuffix)
    && (if updates == [] then model.provisionalProofFileUri.None? else GoodUri(model.provisionalProofFileUri))
  }

  /** A provisional index file is accepted if and only if it names one chunk file, its updates are in order and of
      different DIDs, and it names a proof file just if there are updates. */
  lemma ProvisionalIndexIsAcceptedExactly(ctx: Context, buffer: Buffer, updates: seq<Reference>)
    ensures var model, r := ctx.codec.decodeProvisionalIndex(buffer), ProvisionalIndexFile.Parse(ctx, buffer);
            && (r.Ok? && r.value.updates == updates <==>
                  model.Ok? && GoodProvisionalIndex(ctx.primitives, model.value, updates))
            && (r.Ok? ==>
                  && r.value.chunkFileUri == model.value.chunks[0]
                  && r.value.provisionalProofFileUri == model.value.provisionalProofFileUri
                  && |r.value.didUniqueSuffixes| == |r.value.updates|
                  && forall i :: 0 <= i < |r.value.updates| ==>
                       r.value.didUniqueSuffixes[i] == r.value.updates[i].didSuffix)
  {
    var model := ctx.codec.decodeProvisionalIndex(buffer);
    if model.Ok? && model.value.operations.Some? && model.value.operations.value.update.Some? {
      var listed := model.value.operations.value.update.value;
      ReferencesAreChecked(ctx.primitives, listed);
      assert forall i :: 0 <= i < |listed| ==> CoreIndexFile.ReferenceSuffixes(listed)[i] == listed[i].didSuffix;
    }
  }

  /** A chunk file is accepted if and only if all its deltas are there, good and of the right size. */
  lemma ChunkIsAcceptedExactly(ctx: Context, buffer: Buffer, deltas: seq<Delta>)
    ensures ChunkFile.Parsed(ctx, buffer) == Ok(deltas) <==>
            var p, model := ctx.primitives, ctx.codec.decodeChunk(buffer);
            && model.Ok? && model.value.deltas.Some? && |model.value.deltas.value| == |deltas|
            && forall i :: 0 <= i < |deltas| ==>
                 model.value.deltas.value[i] == Some(deltas[i]) && SizedDelta(p, Some(deltas[i]))
  {
    var p, model := ctx.primitives, ctx.codec.decodeChunk(buffer);
    if model.Ok? && model.value.deltas.Some? {
      ChunkDeltasExactly(p, model.value.deltas.value, deltas);
    }
  }

  lemma DeltaIsSizedExactly(p: Primitives, read: Option<Delta>, delta: Delta)
    ensures ChunkFile.CheckedDelta(p, read) == Ok(delta) <==> read == Some(delta) && SizedDelta(p, read)
  {
    DeltaIsCheckedExactly(p, read);
  }

  lemma ChunkDeltasExactly(p: Primitives, read: seq<Option<Delta>>, deltas: seq<Delta>)
    ensures (None !in read && ParseAll(ChunkFile.DeltaParser(p), read) == Ok(deltas)) <==>
            && |read| == |deltas|
            && forall i :: 0 <= i < |deltas| ==> read[i] == Some(deltas[i]) && SizedDelta(p, Some(deltas[i]))
  {
    var f := ChunkFile.DeltaParser(p);
    if ParseAll(f, read) == Ok(deltas) {
      forall i | 0 <= i < |deltas|
        ensures read[i] == Some(deltas[i]) && SizedDelta(p, Some(deltas[i]))
      {
        ParsedElement(f, read, i);
        DeltaIsSizedExactly(p, read[i], deltas[i]);
      }
    }
    if |read| == |deltas| && forall i :: 0 <= i < |deltas| ==> read[i] == Some(deltas[i])
                                                               && SizedDelta(p, Some(deltas[i])) {
      forall i | 0 <= i < |read|
        ensures f(i, read[i]) == Ok(deltas[i])
      {
        DeltaIsSizedExactly(p, read[i], deltas[i]);
      }
      ParsesTo(f, read, deltas);
    }
  }

  // ------------------------------------------------------------ the files of a transaction

  /** Enough is paid for a number of operations. */
  predicate PaysFor(transaction: Transaction, n: nat) {
    && n >= 1
    && transaction.transactionFeePaid >= transaction.normalizedTransactionFee
    && transaction.transactionFeePaid >= transaction.normalizedTransactionFee * 0.001 * n as real
  }

  lemma FeeIsCheckedExactly(transaction: Transaction, n: nat)
    ensures FeeManager.VerifyTransactionFee(
              transaction.transactionFeePaid, n, transaction.normalizedTransactionFee).Ok?
            <==> PaysFor(transaction, n)
  {
    FeeManager.ComputedFeeIsLeastAccepted(transaction.transactionFeePaid, n, transaction.normalizedTransactionFee);
  }

  /** Up to 100 operations need no lock; more need one that is the writer's, active, and large enough. */
  predicate LockAllows(ctx: Context, transaction: Transaction, model: CoreIndexFileModel, n: nat) {
    || n <= 100
    || (&& model.writerLockId.Some? && model.writerLockId.value != ""
        && var lock := ctx.valueTimeLock(model.writerLockId.value);
           && lock.Some? && lock.value.owner == transaction.writer
           && lock.value.lockTransactionTime <= transaction.transactionTime < lock.value.unlockTransactionTime
           && var version := ctx.versionMetadata(lock.value.lockTransactionTime);
              lock.value.amountLocked
              >= lock.value.normalizedFee * version.normalizedFeeToPerOperationFeeMultiplier
                 * version.valueTimeLockAmountMultiplier * n as real)
  }

  lemma LockIsCheckedExactly(ctx: Context, transaction: Transaction, index: CoreIndexFile.CoreIndex, n: nat)
    ensures CheckCoreIndex(ctx, transaction, index, n).Ok? <==>
            |index.didUniqueSuffixes| <= n && LockAllows(ctx, transaction, index.model, n)
  {
    ValueTimeLockVerifier.LockPaysForEveryOperation(
      LockOf(ctx, index.model), n, transaction.transactionTime, transaction.writer, ctx.versionMetadata);
  }

  predicate Downloaded(fetch: Downloads, uri: string, max: nat) {
    fetch(uri, max).Success?
  }

  /** The core files of a transaction are accepted if and only if its anchor string can be read, it pays for the number
      of operations in it, the core index file can be downloaded, is accepted and lists no more operations, a lock
      allows as many, and the core proof file, if one is named, can be downloaded, is accepted and has as many proofs as
      there are recovers and deactivates. */
  lemma CoreFilesAreAcceptedExactly(ctx: Context, fetch: Downloads, transaction: Transaction, core: CoreFiles)
    ensures VerifyCoreFiles(ctx, fetch, transaction) == Ok(core) <==>
            var data := AnchoredDataSerializer.Deserialize(transaction.anchorString);
            && data.Ok? && core.paid == data.value.numberOfOperations && PaysFor(transaction, core.paid)
            && Downloaded(fetch, data.value.coreIndexFileUri, 1000000)
            && CoreIndexFile.Parsed(ctx, fetch(data.value.coreIndexFileUri, 1000000).content) == Ok(core.index)
            && |core.index.didUniqueSuffixes| <= core.paid
            && LockAllows(ctx, transaction, core.index.model, core.paid)
            && CoreProofFits(ctx, fetch, core)
  {
    var data := AnchoredDataSerializer.Deserialize(transaction.anchorString);
    if data.Ok? {
      AnchoredDataSerializer.DeserializeThenSerialize(transaction.anchorString);
      FeeIsCheckedExactly(transaction, data.value.numberOfOperations);
      LockIsCheckedExactly(ctx, transaction, core.index, data.value.numberOfOperations);
      CoreIndexIsVerifiedExactly(ctx, fetch, transaction, data.value, core.index);
      CoreProofIsVerifiedExactly(ctx, fetch, core);
    }
  }

  lemma CoreIndexIsVerifiedExactly(
    ctx: Context, fetch: Downloads, transaction: Transaction, data: AnchoredData, index: CoreIndexFile.CoreIndex)
    requires data.numberOfOperations <= 10000
    ensures VerifyCoreIndexFile(ctx, fetch, transaction, data.coreIndexFileUri, data.numberOfOperations) == Ok(index)
            <==>
            && Downloaded(fetch, data.coreIndexFileUri, 1000000)
            && CoreIndexFile.Parsed(ctx, fetch(data.coreIndexFileUri, 1000000).content) == Ok(index)
            && CheckCoreIndex(ctx, transaction, index, data.numberOfOperations).Ok?
  {
  }

  /** The core proof file that belongs to a core index file. */
  predicate CoreProofFits(ctx: Context, fetch: Downloads, core: CoreFiles) {
    match core.index.model.coreProofFileUri
    case None => core.proof == None
    case Some(uri) =>
      && Downloaded(fetch, uri, 2500000) && core.proof.Some?
      && CoreProofFile.Parsed(ctx, fetch(uri, 2500000).content, core.index.deactivateDidSuffixes)
         == Ok(core.proof.value)
      && |core.proof.value.deactivateProofs| + |core.proof.value.recoverProofs|
         == |core.index.deactivateDidSuffixes| + |core.index.recoverDidSuffixes|
  }

  lemma CoreProofIsVerifiedExactly(ctx: Context, fetch: Downloads, core: CoreFiles)
    ensures VerifyCoreProofFile(ctx, fetch, core.index) == Ok(core.proof) <==> CoreProofFits(ctx, fetch, core)
  {
  }

  /** The provisional files that belong to core files. */
  predicate ProvisionalIndexFits(ctx: Context, fetch: Downloads, core: CoreFiles, provisional: ProvisionalFiles) {
    match core.index.model.provisionalIndexFileUri
    case None => provisional.index == None
    case Some(uri) =>
      && Downloaded(fetch, uri, 1000000) && provisional.index.Some?
      && ProvisionalIndexFile.Parse(ctx, fetch(uri, 1000000).content) == Ok(provisional.index.value)
      && |core.index.didUniqueSuffixes| + |provisional.index.value.didUniqueSuffixes| <= core.paid
      && (forall i, j :: 0 <= i < |core.index.didUniqueSuffixes|
                         && 0 <= j < |provisional.index.value.didUniqueSuffixes| ==>
            core.index.didUniqueSuffixes[i] != provisional.index.value.didUniqueSuffixes[j])
  }

  predicate ProvisionalProofFits(ctx: Context, fetch: Downloads, provisional: ProvisionalFiles) {
    if provisional.index.None? || provisional.index.value.provisionalProofFileUri.None? then provisional.proof == None
    else
      var uri := provisional.index.value.provisionalProofFileUri.value;
      && Downloaded(fetch, uri, 2500000) && provisional.proof.Some?
      && ProvisionalProofFile.Parsed(ctx, fetch(uri, 2500000).content) == Ok(provisional.proof.value)
      && |provisional.proof.value| == |provisional.index.value.didUniqueSuffixes|
  }

  predicate ChunkFits(ctx: Context, fetch: Downloads, core: CoreFiles, provisional: ProvisionalFiles) {
    if provisional.index.None? then provisional.deltas == None
    else
      var uri := provisional.index.value.chunkFileUri;
      && Downloaded(fetch, uri, 10000000) && provisional.deltas.Some?
      && ChunkFile.Parsed(ctx, fetch(uri, 10000000).content) == Ok(provisional.deltas.value)
      && |provisional.deltas.value|
         == |core.index.createDidSuffixes| + |core.index.recoverDidSuffixes|
            + |provisional.index.value.didUniqueSuffixes|
  }

  /** The provisional files are accepted if and only if each that is named can be downloaded and is accepted, the
      updates do not exceed what is paid for and are of other DIDs than the core operations, and proofs and deltas are
      as many as the operations that need them. */
  lemma ProvisionalFilesAreAcceptedExactly(
    ctx: Context, fetch: Downloads, core: CoreFiles, provisional: ProvisionalFiles)
    ensures VerifyProvisionalFiles(ctx, fetch, core) == Ok(provisional) <==>
            && ProvisionalIndexFits(ctx, fetch, core, provisional)
            && ProvisionalProofFits(ctx, fetch, provisional)
            && ChunkFits(ctx, fetch, core, provisional)
  {
    ProvisionalIndexIsVerifiedExactly(ctx, fetch, core, provisional);
    ProvisionalProofIsVerifiedExactly(ctx, fetch, provisional);
    ChunkIsVerifiedExactly(ctx, fetch, core, provisional);
  }

  lemma ProvisionalIndexIsVerifiedExactly(
    ctx: Context, fetch: Downloads, core: CoreFiles, provisional: ProvisionalFiles)
    ensures VerifyProvisionalIndexFile(ctx, fetch, core.index, core.paid) == Ok(provisional.index)
            <==> ProvisionalIndexFits(ctx, fetch, core, provisional)
  {
  }

  lemma ProvisionalProofIsVerifiedExactly(ctx: Context, fetch: Downloads, provisional: ProvisionalFiles)
    ensures VerifyProvisionalProofFile(ctx, fetch, provisional.index) == Ok(provisional.proof)
            <==> ProvisionalProofFits(ctx, fetch, provisional)
  {
  }

  lemma ChunkIsVerifiedExactly(ctx: Context, fetch: Downloads, core: CoreFiles, provisional: ProvisionalFiles)
    ensures VerifyChunkFile(ctx, fetch, core.index, provisional.index) == Ok(provisional.deltas)
            <==> ChunkFits(ctx, fetch, core, provisional)
  {
  }

  // ------------------------------------------------------------ what is stored

  /** The operation is signed for the DID it is stored for. */
  ghost predicate SignedForItsDid(p: Primitives, operation: AnchoredOperation, jws: Jws)
    requires operation.operationBuffer.DeactivateRequest?
  {
    && Signed(p, operation.operationBuffer.signedData, jws) && p.deactivatePayload(jws.payload).Ok?
    && p.deactivatePayload(jws.payload).value.didSuffix == operation.didUniqueSuffix
  }

  lemma CheckedProofIsForItsDid(p: Primitives, jws: Jws, suffix: string)
    requires StoredOperations.ReadBack(p, jws)
    requires Operations.ParseDeactivatePayload(p, jws.payload, Some(suffix)).Ok?
    ensures Signed(p, Some(ToCompactJws(jws)), jws) && p.deactivatePayload(jws.payload).Ok?
    ensures p.deactivatePayload(jws.payload).value.didSuffix == suffix
  {
    ParsedIsSigned(p, Some(ToCompactJws(jws)), jws);
  }

  lemma ComposedDeactivateIsForItsDid(p: Primitives, transaction: Transaction, core: CoreFiles, i: nat)
    requires core.Valid() && StoredOperations.CoreChecked(p, core) && i < |core.index.deactivateDidSuffixes|
    requires core.index.didUniqueSuffixes == core.index.deactivateDidSuffixes
    ensures var o := ComposedDeactivate(transaction, core, i);
            && o.operationBuffer.didSuffix == o.didUniqueSuffix
            && (o.operationBuffer.signedData.Some? <==> i < |core.proof.value.deactivateProofs|)
            && (i < |core.proof.value.deactivateProofs| ==>
                  SignedForItsDid(p, o, core.proof.value.deactivateProofs[i]))
  {
    if i < |core.proof.value.deactivateProofs| {
      assert StoredOperations.ReadBack(p, core.proof.value.deactivateProofs[i]);
      CheckedProofIsForItsDid(p, core.proof.value.deactivateProofs[i], core.index.deactivateDidSuffixes[i]);
    }
  }

  /** Whatever was downloaded, a deactivate that is stored carries data signed for the DID it is stored for, unless the
      core proof file had fewer deactivate proofs and it carries no signed data. */
  lemma StoredDeactivatesAreForTheirDids(
    ctx: Context, fetch: Downloads, transaction: Transaction, operation: AnchoredOperation)
    requires Processed(ctx, fetch, transaction).stored.Some?
    requires operation in Processed(ctx, fetch, transaction).stored.value
    requires operation.operationBuffer.DeactivateRequest?
    ensures operation.operationBuffer.didSuffix == operation.didUniqueSuffix
    ensures operation.operationBuffer.signedData.Some? ==>
              exists jws :: SignedForItsDid(ctx.primitives, operation, jws)
  {
    var core := VerifyCoreFiles(ctx, fetch, transaction).value;
    StoredOperations.VerifiedCoreIsChecked(ctx, fetch, transaction);
    var i := DeactivatePosition(ctx, fetch, transaction, operation);
    ComposedDeactivateIsForItsDid(ctx.primitives, transaction, core, i);
  }

  lemma ComposedByType(transaction: Transaction, core: CoreFiles, provisional: ProvisionalFiles)
    requires core.Valid() && provisional.Valid(core)
    ensures forall i :: 0 <= i < |ComposedCreates(transaction, core, provisional.deltas)| ==>
              ComposedCreates(transaction, core, provisional.deltas)[i].operationBuffer.CreateRequest?
    ensures forall i :: 0 <= i < |ComposedRecovers(transaction, core, provisional.deltas)| ==>
              ComposedRecovers(transaction, core, provisional.deltas)[i].operationBuffer.RecoverRequest?
    ensures forall i :: 0 <= i < |ComposedUpdates(transaction, core, provisional)| ==>
              ComposedUpdates(transaction, core, provisional)[i].operationBuffer.UpdateRequest?
  {
  }

  /** Where a stored deactivate comes from. */
  lemma DeactivatePosition(ctx: Context, fetch: Downloads, transaction: Transaction, operation: AnchoredOperation)
    returns (i: nat)
    requires Processed(ctx, fetch, transaction).stored.Some?
    requires operation in Processed(ctx, fetch, transaction).stored.value
    requires operation.operationBuffer.DeactivateRequest?
    ensures VerifyCoreFiles(ctx, fetch, transaction).Ok?
    ensures var core := VerifyCoreFiles(ctx, fetch, transaction).value;
            && core.index.didUniqueSuffixes == core.index.deactivateDidSuffixes
            && i < |core.index.deactivateDidSuffixes| && operation == ComposedDeactivate(transaction, core, i)
  {
    var core := VerifyCoreFiles(ctx, fetch, transaction).value;
    var provisional := StoredOperations.FilesOf(ctx, fetch, core);
    AcceptedBatches.CompositionFailsExactlyOnMixedBatches(transaction, core, provisional);
    var creates := ComposedCreates(transaction, core, provisional.deltas);
    var recovers := ComposedRecovers(transaction, core, provisional.deltas);
    var deactivates := ComposedDeactivates(transaction, core).value;
    var updates := ComposedUpdates(transaction, core, provisional);
    assert Processed(ctx, fetch, transaction).stored.value == creates + recovers + deactivates + updates;
    ComposedByType(transaction, core, provisional);
    FromParts(creates, recovers, deactivates, updates, operation);
    i :| 0 <= i < |deactivates| && deactivates[i] == operation;
  }

  lemma FromParts(
    creates: seq<AnchoredOperation>, recovers: seq<AnchoredOperation>, deactivates: seq<AnchoredOperation>,
    updates: seq<AnchoredOperation>, operation: AnchoredOperation)
    requires operation in creates + recovers + deactivates + updates && operation.operationBuffer.DeactivateRequest?
    requires forall i :: 0 <= i < |creates| ==> creates[i].operationBuffer.CreateRequest?
    requires forall i :: 0 <= i < |recovers| ==> recovers[i].operationBuffer.RecoverRequest?
    requires forall i :: 0 <= i < |updates| ==> updates[i].operationBuffer.UpdateRequest?
    ensures operation in deactivates
  {
    assert operation !in creates && operation !in recovers && operation !in updates;
  }
}
