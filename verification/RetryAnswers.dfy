/** When a transaction is to be processed again, in terms of what the downloads of its files yield. */
module RetryAnswers {
  import opened Wrappers
  import opened Models
  import opened Operations
  import opened JwsCompact
  import opened Traversal
  import opened CoreIndexFile
  import opened TransactionProcessor
  import AcceptedBatches
  import AnchoredDataSerializer
  import ChunkFile
  import CoreProofFile
  import FeeManager
  import ProvisionalIndexFile
  import ProvisionalProofFile
  import Text

  // ------------------------------------------------------------ what is asked for

  /** The URI and paid count in an anchor string that can be read and for which enough was paid. */
  function Asked(transaction: Transaction): Option<AnchoredData> {
    var data := AnchoredDataSerializer.Deserialize(transaction.anchorString);
    if data.Ok? && FeeManager.VerifyTransactionFee(
      transaction.transactionFeePaid, data.value.numberOfOperations, transaction.normalizedTransactionFee).Ok?
    then Some(data.value) else None
  }

  /** The core index file, if it is accepted. */
  function AcceptedCoreIndex(ctx: Context, fetch: Downloads, transaction: Transaction): Option<CoreIndex> {
    match Asked(transaction)
    case None => None
    case Some(data) =>
      var r := VerifyCoreIndexFile(ctx, fetch, transaction, data.coreIndexFileUri, data.numberOfOperations);
      if r.Ok? then Some(r.value) else None
  }

  /** The network did not answer for a core file that was asked for. */
  predicate CoreFileNotReachable(ctx: Context, fetch: Downloads, transaction: Transaction) {
    var asked, index := Asked(transaction), AcceptedCoreIndex(ctx, fetch, transaction);
    || (asked.Some? && fetch(asked.value.coreIndexFileUri, 1000000) == NotReachable)
    || (index.Some? && index.value.model.coreProofFileUri.Some?
        && fetch(index.value.model.coreProofFileUri.value, 2500000) == NotReachable)
  }

  /** A file that may still turn up, or be replaced by what is expected. */
  predicate MayTurnUp(r: FetchResult) {
    r == NotReachable || r == NotFound || r == NotAFile
  }

  /** A provisional file that was asked for may still turn up: the proof file is asked for once the index file is
      accepted, and the chunk file once the proof file is, if there is one. */
  predicate ProvisionalFileMissing(ctx: Context, fetch: Downloads, core: CoreFiles) {
    var uri := core.index.model.provisionalIndexFileUri;
    var index := VerifyProvisionalIndexFile(ctx, fetch, core.index, core.paid);
    || (uri.Some? && MayTurnUp(fetch(uri.value, 1000000)))
    || (index.Ok? && index.value.Some?
        && (|| (index.value.value.provisionalProofFileUri.Some?
                && MayTurnUp(fetch(index.value.value.provisionalProofFileUri.value, 2500000)))
            || (VerifyProvisionalProofFile(ctx, fetch, index.value).Ok?
                && MayTurnUp(fetch(index.value.value.chunkFileUri, 10000000)))))
  }

  // ------------------------------------------------------------ errors of parsing are not errors of downloading

  predicate Missing(error: Error) {
    error == CasNotReachable || error == CasFileNotFound || error == CasFileNotAFile
  }

  predicate NotMissing<T>(r: Result<T, Error>) {
    r.Err? ==> !Missing(r.error)
  }

  /** Decompression, JSON and schema checks raise errors of their own, none of those that downloads end in. */
  ghost predicate OwnErrors(ctx: Context) {
    && (forall b :: NotMissing(ctx.codec.decodeCoreIndex(b)) && NotMissing(ctx.codec.decodeCoreProof(b)))
    && (forall b :: NotMissing(ctx.codec.decodeProvisionalIndex(b)) && NotMissing(ctx.codec.decodeProvisionalProof(b)))
    && (forall b :: NotMissing(ctx.codec.decodeChunk(b)))
    && (forall s :: NotMissing(ctx.primitives.jwsHeader(s)) && NotMissing(ctx.primitives.updatePayload(s)))
    && (forall s :: NotMissing(ctx.primitives.recoverPayload(s)) && NotMissing(ctx.primitives.deactivatePayload(s)))
    && (forall patch :: NotMissing(ctx.primitives.patchSchema(patch)))
  }

  lemma {:induction false} ElementsHaveOwnErrors<A, B>(f: ElementParser<A, B, Error>, s: seq<A>)
    requires forall i :: 0 <= i < |s| ==> NotMissing(f(i, s[i]))
    ensures NotMissing(ParseAll(f, s))
  {
    if s != [] {
      var n := |s| - 1;
      forall i | 0 <= i < n
        ensures NotMissing(f(i, s[..n][i]))
      {
        assert s[..n][i] == s[i];
      }
      ElementsHaveOwnErrors(f, s[..n]);
      assert NotMissing(f(n, s[n]));
    }
  }

  lemma CoreIndexHasOwnErrors(ctx: Context, buffer: Buffer)
    requires OwnErrors(ctx)
    ensures NotMissing(CoreIndexFile.Parsed(ctx, buffer))
  {
    assert NotMissing(ctx.codec.decodeCoreIndex(buffer));
  }

  lemma JwsHasOwnErrors(ctx: Context, text: Option<string>)
    requires OwnErrors(ctx)
    ensures NotMissing(ParseCompactJws(ctx.primitives, text))
  {
    if text.Some? {
      var parts := Text.Split(text.value, '.');
      assert NotMissing(ctx.primitives.jwsHeader(parts[0]));
    }
  }

  lemma RecoverProofHasOwnErrors(ctx: Context, text: string)
    requires OwnErrors(ctx)
    ensures NotMissing(CoreProofFile.ParseRecoverProof(ctx.primitives, text))
  {
    JwsHasOwnErrors(ctx, Some(text));
    var jws := ParseCompactJws(ctx.primitives, Some(text));
    if jws.Ok? {
      assert NotMissing(ctx.primitives.recoverPayload(jws.value.payload));
    }
  }

  lemma DeactivateProofHasOwnErrors(ctx: Context, text: string, expected: seq<string>, index: nat)
    requires OwnErrors(ctx)
    ensures NotMissing(CoreProofFile.ParseDeactivateProof(ctx.primitives, text, expected, index))
  {
    JwsHasOwnErrors(ctx, Some(text));
    var jws := ParseCompactJws(ctx.primitives, Some(text));
    if jws.Ok? {
      assert NotMissing(ctx.primitives.deactivatePayload(jws.value.payload));
    }
  }

  lemma UpdateProofHasOwnErrors(ctx: Context, text: string)
    requires OwnErrors(ctx)
    ensures NotMissing(ProvisionalProofFile.ParseUpdateProof(ctx.primitives, text))
  {
    JwsHasOwnErrors(ctx, Some(text));
    var jws := ParseCompactJws(ctx.primitives, Some(text));
    if jws.Ok? {
      assert NotMissing(ctx.primitives.updatePayload(jws.value.payload));
    }
  }

  lemma RecoverProofsHaveOwnErrors(ctx: Context, texts: seq<string>)
    requires OwnErrors(ctx)
    ensures NotMissing(ParseAll(CoreProofFile.RecoverProofParser(ctx.primitives), texts))
  {
    forall i | 0 <= i < |texts|
      ensures NotMissing(CoreProofFile.RecoverProofParser(ctx.primitives)(i, texts[i]))
    {
      RecoverProofHasOwnErrors(ctx, texts[i]);
    }
    ElementsHaveOwnErrors(CoreProofFile.RecoverProofParser(ctx.primitives), texts);
  }

  lemma DeactivateProofsHaveOwnErrors(ctx: Context, texts: seq<string>, expected: seq<string>)
    requires OwnErrors(ctx)
    ensures NotMissing(ParseAll(CoreProofFile.DeactivateProofParser(ctx.primitives, expected), texts))
  {
    forall i | 0 <= i < |texts|
      ensures NotMissing(CoreProofFile.DeactivateProofParser(ctx.primitives, expected)(i, texts[i]))
    {
      DeactivateProofHasOwnErrors(ctx, texts[i], expected, i);
    }
    ElementsHaveOwnErrors(CoreProofFile.DeactivateProofParser(ctx.primitives, expected), texts);
  }

  lemma UpdateProofsHaveOwnErrors(ctx: Context, texts: seq<string>)
    requires OwnErrors(ctx)
    ensures NotMissing(ParseAll(ProvisionalProofFile.UpdateProofParser(ctx.primitives), texts))
  {
    forall i | 0 <= i < |texts|
      ensures NotMissing(ProvisionalProofFile.UpdateProofParser(ctx.primitives)(i, texts[i]))
    {
      UpdateProofHasOwnErrors(ctx, texts[i]);
    }
    ElementsHaveOwnErrors(ProvisionalProofFile.UpdateProofParser(ctx.primitives), texts);
  }

  lemma CoreProofHasOwnErrors(ctx: Context, buffer: Buffer, expected: seq<string>)
    requires OwnErrors(ctx)
    ensures NotMissing(CoreProofFile.Parsed(ctx, buffer, expected))
  {
    var model := ctx.codec.decodeCoreProof(buffer);
    assert NotMissing(model);
    if model.Ok? && model.value.operations.Some? {
      RecoverProofsHaveOwnErrors(ctx, OrEmpty(model.value.operations.value.recover));
      DeactivateProofsHaveOwnErrors(ctx, OrEmpty(model.value.operations.value.deactivate), expected);
    }
  }

  lemma ProvisionalIndexHasOwnErrors(ctx: Context, buffer: Buffer)
    requires OwnErrors(ctx)
    ensures NotMissing(ProvisionalIndexFile.Parse(ctx, buffer))
  {
    assert NotMissing(ctx.codec.decodeProvisionalIndex(buffer));
  }

  lemma ProvisionalProofHasOwnErrors(ctx: Context, buffer: Buffer)
    requires OwnErrors(ctx)
    ensures NotMissing(ProvisionalProofFile.Parsed(ctx, buffer))
  {
    var model := ctx.codec.decodeProvisionalProof(buffer);
    assert NotMissing(model);
    if model.Ok? && model.value.operations.Some? && model.value.operations.value.update.Some? {
      UpdateProofsHaveOwnErrors(ctx, model.value.operations.value.update.value);
    }
  }

  lemma {:induction false} PatchesHaveOwnErrors(ctx: Context, patches: seq<Patch>)
    requires OwnErrors(ctx)
    ensures NotMissing(CheckPatches(ctx.primitives, patches))
  {
    if patches != [] {
      assert NotMissing(ctx.primitives.patchSchema(patches[0]));
      PatchesHaveOwnErrors(ctx, patches[1..]);
    }
  }

  lemma DeltaHasOwnErrors(ctx: Context, delta: Option<Delta>)
    requires OwnErrors(ctx)
    ensures NotMissing(ChunkFile.CheckedDelta(ctx.primitives, delta))
  {
    if delta.Some? {
      PatchesHaveOwnErrors(ctx, delta.value.patches);
    }
  }

  lemma DeltasHaveOwnErrors(ctx: Context, deltas: seq<Option<Delta>>)
    requires OwnErrors(ctx)
    ensures NotMissing(ParseAll(ChunkFile.DeltaParser(ctx.primitives), deltas))
  {
    forall i | 0 <= i < |deltas|
      ensures NotMissing(ChunkFile.DeltaParser(ctx.primitives)(i, deltas[i]))
    {
      DeltaHasOwnErrors(ctx, deltas[i]);
    }
    ElementsHaveOwnErrors(ChunkFile.DeltaParser(ctx.primitives), deltas);
  }

  lemma ChunkHasOwnErrors(ctx: Context, buffer: Buffer)
    requires OwnErrors(ctx)
    ensures NotMissing(ChunkFile.Parsed(ctx, buffer))
  {
    var model := ctx.codec.decodeChunk(buffer);
    assert NotMissing(model);
    if model.Ok? && model.value.deltas.Some? {
      DeltasHaveOwnErrors(ctx, model.value.deltas.value);
    }
  }

  // ------------------------------------------------------------ errors of the core files

  lemma CoreIndexFileFails(ctx: Context, fetch: Downloads, transaction: Transaction, uri: string, paid: nat)
    requires OwnErrors(ctx) && paid <= 10000
    ensures var r := VerifyCoreIndexFile(ctx, fetch, transaction, uri, paid);
            r.Err? && r.error == CasNotReachable <==> fetch(uri, 1000000) == NotReachable
  {
    var buffer := DownloadFile(fetch, uri, 1000000);
    if buffer.Ok? {
      CoreIndexHasOwnErrors(ctx, buffer.value);
    }
  }

  lemma CoreProofFileFails(ctx: Context, fetch: Downloads, index: CoreIndex)
    requires OwnErrors(ctx)
    ensures var r := VerifyCoreProofFile(ctx, fetch, index);
            r.Err? && r.error == CasNotReachable <==>
            index.model.coreProofFileUri.Some? && fetch(index.model.coreProofFileUri.value, 2500000) == NotReachable
  {
    if index.model.coreProofFileUri.Some? {
      var buffer := DownloadFile(fetch, index.model.coreProofFileUri.value, 2500000);
      if buffer.Ok? {
        CoreProofHasOwnErrors(ctx, buffer.value, index.deactivateDidSuffixes);
      }
    }
  }

  lemma CoreFilesFail(ctx: Context, fetch: Downloads, transaction: Transaction)
    requires OwnErrors(ctx)
    ensures var r := VerifyCoreFiles(ctx, fetch, transaction);
            r.Err? && r.error == CasNotReachable <==> CoreFileNotReachable(ctx, fetch, transaction)
  {
    var asked, index := Asked(transaction), AcceptedCoreIndex(ctx, fetch, transaction);
    if asked.Some? {
      AnchoredDataSerializer.DeserializeThenSerialize(transaction.anchorString);
      CoreIndexFileFails(ctx, fetch, transaction, asked.value.coreIndexFileUri, asked.value.numberOfOperations);
    }
    if index.Some? {
      CoreProofFileFails(ctx, fetch, index.value);
    }
  }

  // ------------------------------------------------------------ errors of the provisional files

  lemma DownloadFails(fetch: Downloads, uri: string, max: nat)
    ensures !NotMissing(DownloadFile(fetch, uri, max)) <==> MayTurnUp(fetch(uri, max))
  {
  }

  lemma ProvisionalIndexFileFails(ctx: Context, fetch: Downloads, core: CoreIndex, paid: nat)
    requires OwnErrors(ctx)
    ensures !NotMissing(VerifyProvisionalIndexFile(ctx, fetch, core, paid)) <==>
            && core.model.provisionalIndexFileUri.Some?
            && MayTurnUp(fetch(core.model.provisionalIndexFileUri.value, 1000000))
  {
    if core.model.provisionalIndexFileUri.Some? {
      DownloadFails(fetch, core.model.provisionalIndexFileUri.value, 1000000);
      var buffer := DownloadFile(fetch, core.model.provisionalIndexFileUri.value, 1000000);
      if buffer.Ok? {
        ProvisionalIndexHasOwnErrors(ctx, buffer.value);
      }
    }
  }

  lemma ProvisionalProofFileFails(
    ctx: Context, fetch: Downloads, index: Option<ProvisionalIndexFile.ProvisionalIndex>)
    requires OwnErrors(ctx)
    ensures !NotMissing(VerifyProvisionalProofFile(ctx, fetch, index)) <==>
            && index.Some? && index.value.provisionalProofFileUri.Some?
            && MayTurnUp(fetch(index.value.provisionalProofFileUri.value, 2500000))
  {
    if index.Some? && index.value.provisionalProofFileUri.Some? {
      DownloadFails(fetch, index.value.provisionalProofFileUri.value, 2500000);
      var buffer := DownloadFile(fetch, index.value.provisionalProofFileUri.value, 2500000);
      if buffer.Ok? {
        ProvisionalProofHasOwnErrors(ctx, buffer.value);
      }
    }
  }

  lemma ChunkFileFails(
    ctx: Context, fetch: Downloads, core: CoreIndex, index: Option<ProvisionalIndexFile.ProvisionalIndex>)
    requires OwnErrors(ctx)
    ensures !NotMissing(VerifyChunkFile(ctx, fetch, core, index)) <==>
            index.Some? && MayTurnUp(fetch(index.value.chunkFileUri, 10000000))
  {
    if index.Some? {
      DownloadFails(fetch, index.value.chunkFileUri, 10000000);
      var buffer := DownloadFile(fetch, index.value.chunkFileUri, 10000000);
      if buffer.Ok? {
        ChunkHasOwnErrors(ctx, buffer.value);
      }
    }
  }

  lemma ProvisionalFilesFail(ctx: Context, fetch: Downloads, core: CoreFiles)
    requires OwnErrors(ctx)
    ensures !NotMissing(VerifyProvisionalFiles(ctx, fetch, core)) <==> ProvisionalFileMissing(ctx, fetch, core)
  {
    ProvisionalIndexFileFails(ctx, fetch, core.index, core.paid);
    var index := VerifyProvisionalIndexFile(ctx, fetch, core.index, core.paid);
    if index.Ok? {
      ProvisionalProofFileFails(ctx, fetch, index.value);
      ChunkFileFails(ctx, fetch, core.index, index.value);
    }
  }

  // ------------------------------------------------------------ the answer

  predicate Raised<T>(r: Result<T, Error>) {
    r.Err? && r.error == Unexpected
  }

  /** A transaction is left to be processed again if and only if a core file that was asked for is not reachable, or the
      core files raise an exception, or, with the core files accepted and no deactivate beside a create or recover, a
      provisional file that was asked for is not reachable, not found or not a file, or the provisional files raise an
      exception. In particular a core file that is not found is given up. */
  lemma RetriedExactly(ctx: Context, fetch: Downloads, transaction: Transaction)
    requires OwnErrors(ctx)
    ensures Processed(ctx, fetch, transaction).outcome == Ok(false) <==>
            var core := VerifyCoreFiles(ctx, fetch, transaction);
            || CoreFileNotReachable(ctx, fetch, transaction)
            || Raised(core)
            || (&& core.Ok?
                && (|| core.value.index.deactivateDidSuffixes == []
                    || (core.value.index.createDidSuffixes == [] && core.value.index.recoverDidSuffixes == []))
                && (|| ProvisionalFileMissing(ctx, fetch, core.value)
                    || Raised(VerifyProvisionalFiles(ctx, fetch, core.value))))
  {
    CoreFilesFail(ctx, fetch, transaction);
    var core := VerifyCoreFiles(ctx, fetch, transaction);
    if core.Ok? {
      ProvisionalFilesFail(ctx, fetch, core.value);
      var verified := VerifyProvisionalFiles(ctx, fetch, core.value);
      var provisional := if verified.Ok? then verified.value else NO_PROVISIONAL_FILES;
      AcceptedBatches.CompositionFailsExactlyOnMixedBatches(transaction, core.value, provisional);
    }
  }

  // ------------------------------------------------------------ what is answered as complete is complete

  /** What could not be reached may be something else later; what could be reached stays what it is. */
  ghost predicate OnlyOutagesDiffer(fetch: Downloads, full: Downloads) {
    forall uri, max :: fetch(uri, max) != NotReachable ==> full(uri, max) == fetch(uri, max)
  }

  predicate Outage<T>(r: Result<T, Error>) {
    r.Err? && r.error == CasNotReachable
  }

  lemma DownloadDiffersByOutage(fetch: Downloads, full: Downloads, uri: string, max: nat)
    requires OnlyOutagesDiffer(fetch, full)
    ensures Outage(DownloadFile(fetch, uri, max)) || DownloadFile(full, uri, max) == DownloadFile(fetch, uri, max)
  {
  }

  lemma CoreIndexDiffersByOutage(
    ctx: Context, fetch: Downloads, full: Downloads, transaction: Transaction, uri: string, paid: nat)
    requires OnlyOutagesDiffer(fetch, full) && paid <= MAX_OPERATIONS_PER_BATCH
    ensures var r := VerifyCoreIndexFile(ctx, fetch, transaction, uri, paid);
            Outage(r) || VerifyCoreIndexFile(ctx, full, transaction, uri, paid) == r
  {
    DownloadDiffersByOutage(fetch, full, uri, MAX_CORE_INDEX_FILE_SIZE);
  }

  lemma CoreProofDiffersByOutage(ctx: Context, fetch: Downloads, full: Downloads, index: CoreIndex)
    requires OnlyOutagesDiffer(fetch, full)
    ensures var r := VerifyCoreProofFile(ctx, fetch, index); Outage(r) || VerifyCoreProofFile(ctx, full, index) == r
  {
    if index.model.coreProofFileUri.Some? {
      DownloadDiffersByOutage(fetch, full, index.model.coreProofFileUri.value, MAX_PROOF_FILE_SIZE);
    }
  }

  lemma CoreDiffersByOutage(ctx: Context, fetch: Downloads, full: Downloads, transaction: Transaction)
    requires OnlyOutagesDiffer(fetch, full)
    ensures || Outage(VerifyCoreFiles(ctx, fetch, transaction))
            || VerifyCoreFiles(ctx, full, transaction) == VerifyCoreFiles(ctx, fetch, transaction)
  {
    var asked, index := Asked(transaction), AcceptedCoreIndex(ctx, fetch, transaction);
    if asked.Some? {
      AnchoredDataSerializer.DeserializeThenSerialize(transaction.anchorString);
      CoreIndexDiffersByOutage(
        ctx, fetch, full, transaction, asked.value.coreIndexFileUri, asked.value.numberOfOperations);
    }
    if index.Some? {
      CoreProofDiffersByOutage(ctx, fetch, full, index.value);
    }
  }

  lemma ProvisionalIndexDiffersByOutage(
    ctx: Context, fetch: Downloads, full: Downloads, core: CoreIndex, paid: nat)
    requires OnlyOutagesDiffer(fetch, full)
    ensures var r := VerifyProvisionalIndexFile(ctx, fetch, core, paid);
            Outage(r) || VerifyProvisionalIndexFile(ctx, full, core, paid) == r
  {
    if core.model.provisionalIndexFileUri.Some? {
      DownloadDiffersByOutage(fetch, full, core.model.provisionalIndexFileUri.value, MAX_PROVISIONAL_INDEX_FILE_SIZE);
    }
  }

  lemma ProvisionalProofDiffersByOutage(
    ctx: Context, fetch: Downloads, full: Downloads, index: Option<ProvisionalIndexFile.ProvisionalIndex>)
    requires OnlyOutagesDiffer(fetch, full)
    ensures var r := VerifyProvisionalProofFile(ctx, fetch, index);
            Outage(r) || VerifyProvisionalProofFile(ctx, full, index) == r
  {
    if index.Some? && index.value.provisionalProofFileUri.Some? {
      DownloadDiffersByOutage(fetch, full, index.value.provisionalProofFileUri.value, MAX_PROOF_FILE_SIZE);
    }
  }

  lemma ChunkDiffersByOutage(
    ctx: Context, fetch: Downloads, full: Downloads, core: CoreIndex,
    index: Option<ProvisionalIndexFile.ProvisionalIndex>)
    requires OnlyOutagesDiffer(fetch, full)
    ensures var r := VerifyChunkFile(ctx, fetch, core, index);
            Outage(r) || VerifyChunkFile(ctx, full, core, index) == r
  {
    if index.Some? {
      DownloadDiffersByOutage(fetch, full, index.value.chunkFileUri, MAX_CHUNK_FILE_SIZE);
    }
  }

  lemma ProvisionalDiffersByOutage(ctx: Context, fetch: Downloads, full: Downloads, core: CoreFiles)
    requires OnlyOutagesDiffer(fetch, full)
    ensures || Outage(VerifyProvisionalFiles(ctx, fetch, core))
            || VerifyProvisionalFiles(ctx, full, core) == VerifyProvisionalFiles(ctx, fetch, core)
  {
    ProvisionalIndexDiffersByOutage(ctx, fetch, full, core.index, core.paid);
    var index := VerifyProvisionalIndexFile(ctx, fetch, core.index, core.paid);
    if index.Ok? {
      ProvisionalProofDiffersByOutage(ctx, fetch, full, index.value);
      ChunkDiffersByOutage(ctx, fetch, full, core.index, index.value);
    }
  }

  /** What was answered as processed completely would come to the same if every file that was not reachable had been:
      the transaction does not need to be processed again. */
  lemma RetryLosesNothing(ctx: Context, fetch: Downloads, full: Downloads, transaction: Transaction)
    requires OnlyOutagesDiffer(fetch, full)
    requires Processed(ctx, fetch, transaction).outcome == Ok(true)
    ensures Processed(ctx, full, transaction) == Processed(ctx, fetch, transaction)
  {
    CoreDiffersByOutage(ctx, fetch, full, transaction);
    var core := VerifyCoreFiles(ctx, fetch, transaction);
    if core.Ok? {
      ProvisionalDiffersByOutage(ctx, fetch, full, core.value);
    }
  }
}
