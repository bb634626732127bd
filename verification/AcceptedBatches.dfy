/** What holds of every transaction an observer accepts, whoever wrote it and whatever the files contain. */
module AcceptedBatches {
  import opened Wrappers
  import opened Models
  import opened ArrayMethods
  import opened CoreIndexFile
  import opened OperationStore
  import opened TransactionProcessor
  import AnchoredDataSerializer

  /** The delta property of a request, for the types that have one. */
  function DeltaProperty(request: Request): seq<Option<Delta>> {
    if request.DeactivateRequest? then [] else [request.delta]
  }

  /** The deltas that a list of operations carries, in order. */
  function DeltasOf(operations: seq<AnchoredOperation>): seq<Option<Delta>> {
    if operations == [] then []
    else
      DeltasOf(operations[..|operations| - 1]) + DeltaProperty(operations[|operations| - 1].operationBuffer)
  }

  function AllSome<T>(s: seq<T>): seq<Option<T>> {
    seq(|s|, i requires 0 <= i < |s| => Some(s[i]))
  }

  function SuffixesOf(operations: seq<AnchoredOperation>): seq<string> {
    seq(|operations|, i requires 0 <= i < |operations| => operations[i].didUniqueSuffix)
  }

  lemma {:induction false} DeltasOfConcatenation(a: seq<AnchoredOperation>, b: seq<AnchoredOperation>)
    ensures DeltasOf(a + b) == DeltasOf(a) + DeltasOf(b)
  {
    if b == [] {
      assert a + b == a;
    } else {
      var n := |b| - 1;
      DeltasOfConcatenation(a, b[..n]);
      assert (a + b)[..|a + b| - 1] == a + b[..n] && (a + b)[|a + b| - 1] == b[n];
      var last := DeltaProperty(b[n].operationBuffer);
      assert DeltasOf(a) + (DeltasOf(b[..n]) + last) == DeltasOf(a) + DeltasOf(b[..n]) + last;
    }
  }

  /** Every operation carries the delta at its position of a list. */
  predicate Carry(operations: seq<AnchoredOperation>, deltas: seq<Option<Delta>>) {
    && |operations| == |deltas|
    && forall i :: 0 <= i < |operations| ==> DeltaProperty(operations[i].operationBuffer) == [deltas[i]]
  }

  lemma {:induction false} DeltasByPosition(operations: seq<AnchoredOperation>, deltas: seq<Option<Delta>>)
    requires Carry(operations, deltas)
    ensures DeltasOf(operations) == deltas
  {
    if operations != [] {
      var n := |operations| - 1;
      DeltasByPosition(operations[..n], deltas[..n]);
      assert deltas == deltas[..n] + [deltas[n]];
    }
  }

  lemma {:induction false} NoDeltas(operations: seq<AnchoredOperation>)
    requires forall i :: 0 <= i < |operations| ==> operations[i].operationBuffer.DeactivateRequest?
    ensures DeltasOf(operations) == []
  {
    if operations != [] {
      NoDeltas(operations[..|operations| - 1]);
    }
  }

  /** Composition succeeds exactly if no deactivate shares its batch with a create or a recover. */
  lemma CompositionFailsExactlyOnMixedBatches(
    transaction: Transaction, core: CoreFiles, provisional: ProvisionalFiles)
    requires core.Valid() && provisional.Valid(core)
    ensures ComposedOperations(transaction, core, provisional).Ok? <==>
            || core.index.deactivateDidSuffixes == []
            || (core.index.createDidSuffixes == [] && core.index.recoverDidSuffixes == [])
    ensures ComposedOperations(transaction, core, provisional).Ok? && core.index.deactivateDidSuffixes != [] ==>
              core.index.didUniqueSuffixes == core.index.deactivateDidSuffixes
  {
  }

  /** The operations belong to the transaction and to the given DIDs, and are numbered consecutively. */
  predicate Numbered(
    operations: seq<AnchoredOperation>, start: nat, suffixes: seq<string>, transaction: Transaction)
  {
    && SuffixesOf(operations) == suffixes
    && forall i :: 0 <= i < |operations| ==>
         && operations[i].operationIndex == start + i
         && operations[i].transactionNumber == transaction.transactionNumber
         && operations[i].transactionTime == transaction.transactionTime
  }

  lemma NumberedConcatenation(
    a: seq<AnchoredOperation>, b: seq<AnchoredOperation>, start: nat, s: seq<string>, t: seq<string>,
    transaction: Transaction)
    requires Numbered(a, start, s, transaction) && Numbered(b, start + |a|, t, transaction)
    ensures Numbered(a + b, start, s + t, transaction)
  {
    assert SuffixesOf(a + b) == SuffixesOf(a) + SuffixesOf(b);
  }

  function UpdateSuffixes(provisional: ProvisionalFiles): seq<string> {
    if provisional.index.Some? then provisional.index.value.didUniqueSuffixes else []
  }

  lemma CoreOperationsAreNumbered(transaction: Transaction, core: CoreFiles, deltas: Option<seq<Delta>>)
    requires core.Valid() && ComposedDeactivates(transaction, core).Ok?
    ensures Numbered(ComposedCreates(transaction, core, deltas) + ComposedRecovers(transaction, core, deltas)
                     + ComposedDeactivates(transaction, core).value,
                     0, core.index.didUniqueSuffixes, transaction)
  {
    var creates := ComposedCreates(transaction, core, deltas);
    var recovers := ComposedRecovers(transaction, core, deltas);
    var deactivates := ComposedDeactivates(transaction, core).value;
    var index := core.index;
    assert Numbered(creates, 0, index.createDidSuffixes, transaction);
    assert Numbered(recovers, |creates|, index.recoverDidSuffixes, transaction);
    assert Numbered(deactivates, |creates| + |recovers|, index.deactivateDidSuffixes, transaction);
    NumberedConcatenation(creates, recovers, 0, index.createDidSuffixes, index.recoverDidSuffixes, transaction);
    NumberedConcatenation(creates + recovers, deactivates, 0,
                          index.createDidSuffixes + index.recoverDidSuffixes, index.deactivateDidSuffixes, transaction);
  }

  /** Positions, DIDs and count of the operations composed from verified files. */
  lemma ComposedOperationsAreNumbered(transaction: Transaction, core: CoreFiles, provisional: ProvisionalFiles)
    requires core.Valid() && provisional.Valid(core)
    requires ComposedOperations(transaction, core, provisional).Ok?
    ensures Numbered(ComposedOperations(transaction, core, provisional).value, 0,
                     core.index.didUniqueSuffixes + UpdateSuffixes(provisional), transaction)
  {
    CoreOperationsAreNumbered(transaction, core, provisional.deltas);
    var coreOperations := ComposedCreates(transaction, core, provisional.deltas)
      + ComposedRecovers(transaction, core, provisional.deltas) + ComposedDeactivates(transaction, core).value;
    var updates := ComposedUpdates(transaction, core, provisional);
    assert |coreOperations| == |SuffixesOf(coreOperations)|;
    assert Numbered(updates, |coreOperations|, UpdateSuffixes(provisional), transaction);
    NumberedConcatenation(
      coreOperations, updates, 0, core.index.didUniqueSuffixes, UpdateSuffixes(provisional), transaction);
  }

  lemma CreatesCarryDeltas(transaction: Transaction, core: CoreFiles, deltas: seq<Delta>)
    requires core.Valid() && |core.index.createDidSuffixes| <= |deltas|
    ensures Carry(ComposedCreates(transaction, core, Some(deltas)),
                  AllSome(deltas)[..|core.index.createDidSuffixes|])
  {
  }

  lemma RecoversCarryDeltas(transaction: Transaction, core: CoreFiles, deltas: seq<Delta>, c: nat, r: nat)
    requires core.Valid() && c == |core.index.createDidSuffixes|
    requires r == c + |core.index.recoverDidSuffixes| && r <= |deltas|
    ensures Carry(ComposedRecovers(transaction, core, Some(deltas)), AllSome(deltas)[c..r])
  {
  }

  lemma UpdatesCarryDeltas(transaction: Transaction, core: CoreFiles, provisional: ProvisionalFiles, r: nat)
    requires core.Valid() && provisional.Valid(core) && provisional.deltas.Some?
    requires r == |core.index.createDidSuffixes| + |core.index.recoverDidSuffixes|
    ensures Carry(ComposedUpdates(transaction, core, provisional), AllSome(provisional.deltas.value)[r..])
  {
  }

  lemma DeltasOfParts(
    creates: seq<AnchoredOperation>, recovers: seq<AnchoredOperation>, deactivates: seq<AnchoredOperation>,
    updates: seq<AnchoredOperation>, c: seq<Option<Delta>>, r: seq<Option<Delta>>, u: seq<Option<Delta>>)
    requires Carry(creates, c) && Carry(recovers, r) && Carry(updates, u)
    requires forall i :: 0 <= i < |deactivates| ==> deactivates[i].operationBuffer.DeactivateRequest?
    ensures DeltasOf(creates + recovers + deactivates + updates) == c + r + u
  {
    calc {
      DeltasOf(creates + recovers + deactivates + updates);
    == { DeltasOfConcatenation(creates + recovers + deactivates, updates); DeltasByPosition(updates, u); }
      DeltasOf(creates + recovers + deactivates) + u;
    == { DeltasOfConcatenation(creates + recovers, deactivates); NoDeltas(deactivates); }
      DeltasOf(creates + recovers) + [] + u;
    == { DeltasOfConcatenation(creates, recovers); DeltasByPosition(creates, c); DeltasByPosition(recovers, r); }
      c + r + [] + u;
    ==
      c + r + u;
    }
  }

  /** The deltas of the chunk file are handed out exactly once, in order. */
  lemma ComposedOperationsPartitionDeltas(transaction: Transaction, core: CoreFiles, provisional: ProvisionalFiles)
    requires core.Valid() && provisional.Valid(core) && provisional.deltas.Some?
    requires ComposedOperations(transaction, core, provisional).Ok?
    ensures DeltasOf(ComposedOperations(transaction, core, provisional).value) == AllSome(provisional.deltas.value)
  {
    var deltas, all := provisional.deltas.value, AllSome(provisional.deltas.value);
    var c := |core.index.createDidSuffixes|;
    var r := c + |core.index.recoverDidSuffixes|;
    var creates := ComposedCreates(transaction, core, provisional.deltas);
    var recovers := ComposedRecovers(transaction, core, provisional.deltas);
    var deactivates := ComposedDeactivates(transaction, core).value;
    var updates := ComposedUpdates(transaction, core, provisional);
    CreatesCarryDeltas(transaction, core, deltas);
    RecoversCarryDeltas(transaction, core, deltas, c, r);
    UpdatesCarryDeltas(transaction, core, provisional, r);
    DeltasOfParts(creates, recovers, deactivates, updates, all[..c], all[c..r], all[r..]);
    Rejoin(all, c, r);
  }

  lemma Rejoin<T>(s: seq<T>, i: nat, j: nat)
    requires i <= j <= |s|
    ensures s[..i] + s[i..j] + s[j..] == s
  {
  }

  /** Whatever was downloaded, the operations stored for a transaction are at most one per DID, no more than were
      paid for, and numbered by position; if the chunk file was accepted, its deltas are exactly theirs. */
  lemma AcceptedBatchIsSound(ctx: Context, fetch: Downloads, transaction: Transaction)
    requires Processed(ctx, fetch, transaction).stored.Some?
    ensures var operations := Processed(ctx, fetch, transaction).stored.value;
            var data := AnchoredDataSerializer.Deserialize(transaction.anchorString);
            var core := VerifyCoreFiles(ctx, fetch, transaction);
            && data.Ok? && core.Ok?
            && |operations| <= data.value.numberOfOperations <= MAX_OPERATIONS_PER_BATCH
            && NoDuplicates(SuffixesOf(operations))
            && (forall i :: 0 <= i < |operations| ==>
                  && operations[i].operationIndex == i
                  && operations[i].transactionNumber == transaction.transactionNumber)
            && (var provisional := VerifyProvisionalFiles(ctx, fetch, core.value);
                provisional.Ok? && provisional.value.deltas.Some? ==>
                  DeltasOf(operations) == AllSome(provisional.value.deltas.value))
  {
    var core := VerifyCoreFiles(ctx, fetch, transaction).value;
    var verified := VerifyProvisionalFiles(ctx, fetch, core);
    var provisional := if verified.Ok? then verified.value else NO_PROVISIONAL_FILES;
    ComposedOperationsAreNumbered(transaction, core, provisional);
    NoDuplicatesInConcatenation(core.index.didUniqueSuffixes, UpdateSuffixes(provisional));
    var operations := Processed(ctx, fetch, transaction).stored.value;
    assert |SuffixesOf(operations)| == |operations|;
    if provisional.deltas.Some? {
      ComposedOperationsPartitionDeltas(transaction, core, provisional);
    }
  }

  // ------------------------------------------------------------ processing a transaction again

  /** Files are addressed by content, so another attempt sees the same files or fails to get them. */
  ghost predicate PartlyAvailable(fetch: Downloads, full: Downloads) {
    forall uri, max :: fetch(uri, max).Success? ==> fetch(uri, max) == full(uri, max)
  }

  lemma SameDownload(fetch: Downloads, full: Downloads, uri: string, max: nat)
    requires PartlyAvailable(fetch, full) && DownloadFile(fetch, uri, max).Ok?
    ensures DownloadFile(fetch, uri, max) == DownloadFile(full, uri, max)
  {
    assert fetch(uri, max).Success?;
  }

  /** An attempt that verifies the core files verifies the same ones a complete attempt does. */
  lemma FewerFilesVerifyTheSameCore(ctx: Context, fetch: Downloads, full: Downloads, transaction: Transaction)
    requires PartlyAvailable(fetch, full) && VerifyCoreFiles(ctx, fetch, transaction).Ok?
    ensures VerifyCoreFiles(ctx, fetch, transaction) == VerifyCoreFiles(ctx, full, transaction)
  {
    var uri := AnchoredDataSerializer.Deserialize(transaction.anchorString).value.coreIndexFileUri;
    SameDownload(fetch, full, uri, MAX_CORE_INDEX_FILE_SIZE);
    var index := VerifyCoreFiles(ctx, fetch, transaction).value.index;
    if index.model.coreProofFileUri.Some? {
      SameDownload(fetch, full, index.model.coreProofFileUri.value, MAX_PROOF_FILE_SIZE);
    }
  }

  lemma FewerFilesVerifyTheSameProvisional(ctx: Context, fetch: Downloads, full: Downloads, core: CoreFiles)
    requires PartlyAvailable(fetch, full) && VerifyProvisionalFiles(ctx, fetch, core).Ok?
    ensures VerifyProvisionalFiles(ctx, fetch, core) == VerifyProvisionalFiles(ctx, full, core)
  {
    var index := VerifyProvisionalIndexFile(ctx, fetch, core.index, core.paid).value;
    if index.Some? {
      SameDownload(fetch, full, core.index.model.provisionalIndexFileUri.value, MAX_PROVISIONAL_INDEX_FILE_SIZE);
      SameDownload(fetch, full, index.value.chunkFileUri, MAX_CHUNK_FILE_SIZE);
      if index.value.provisionalProofFileUri.Some? {
        SameDownload(fetch, full, index.value.provisionalProofFileUri.value, MAX_PROOF_FILE_SIZE);
      }
    }
  }

  function KeysOf(operations: seq<AnchoredOperation>): set<OperationKey> {
    set o <- operations :: KeyOf(o)
  }

  lemma CoreKeyIsStable(transaction: Transaction, core: CoreFiles, provisional: ProvisionalFiles, i: nat)
    requires core.Valid() && provisional.Valid(core)
    requires ComposedOperations(transaction, core, NO_PROVISIONAL_FILES).Ok?
    requires ComposedOperations(transaction, core, provisional).Ok?
    requires i < |ComposedOperations(transaction, core, NO_PROVISIONAL_FILES).value|
    requires i < |ComposedOperations(transaction, core, provisional).value|
    ensures KeyOf(ComposedOperations(transaction, core, NO_PROVISIONAL_FILES).value[i])
            == KeyOf(ComposedOperations(transaction, core, provisional).value[i])
  {
  }

  /** The keys of the core operations do not depend on the provisional files. */
  lemma CoreKeysAreStable(transaction: Transaction, core: CoreFiles, provisional: ProvisionalFiles)
    requires core.Valid() && provisional.Valid(core)
    ensures var without := ComposedOperations(transaction, core, NO_PROVISIONAL_FILES);
            var with := ComposedOperations(transaction, core, provisional);
            && (without.Ok? <==> with.Ok?)
            && (with.Ok? ==> KeysOf(without.value) <= KeysOf(with.value))
  {
    var without := ComposedOperations(transaction, core, NO_PROVISIONAL_FILES);
    var with := ComposedOperations(transaction, core, provisional);
    if with.Ok? {
      assert |without.value| <= |with.value|;
      forall i | 0 <= i < |without.value|
        ensures KeyOf(without.value[i]) in KeysOf(with.value)
      {
        CoreKeyIsStable(transaction, core, provisional, i);
        assert with.value[i] in with.value;
      }
    }
  }

  lemma {:induction false} InsertedKeys(operations: seq<AnchoredOperation>)
    ensures Inserted(map[], operations).Keys == KeysOf(operations)
  {
    if operations != [] {
      var n := |operations| - 1;
      InsertedKeys(operations[..n]);
      assert operations == operations[..n] + [operations[n]];
    }
  }

  /** The store after several runs, each of which may have inserted operations. */
  function AfterRuns(contents: Contents, runs: seq<Option<seq<AnchoredOperation>>>): Contents {
    if runs == [] then contents
    else
      var before := AfterRuns(contents, runs[..|runs| - 1]);
      if runs[|runs| - 1].None? then before else Inserted(before, runs[|runs| - 1].value)
  }

  /** A run writes no key that another one does not write too. */
  predicate Within(run: Option<seq<AnchoredOperation>>, full: Option<seq<AnchoredOperation>>) {
    run.Some? ==> full.Some? && KeysOf(run.value) <= KeysOf(full.value)
  }

  lemma LaterRunOverrides(
    before: Contents, run: Option<seq<AnchoredOperation>>, full: Option<seq<AnchoredOperation>>)
    requires Within(run, full)
    ensures AfterRuns(AfterRuns(before, [run]), [full]) == AfterRuns(before, [full])
  {
    assert [run][..0] == [] && [full][..0] == [];
    if run.Some? {
      InsertedOverrides(before, run.value);
      InsertedOverrides(before, full.value);
      InsertedOverrides(Inserted(before, run.value), full.value);
      InsertedKeys(run.value);
      InsertedKeys(full.value);
    }
  }

  lemma {:induction false} LastRunOverrides(
    contents: Contents, runs: seq<Option<seq<AnchoredOperation>>>, full: Option<seq<AnchoredOperation>>)
    requires forall i :: 0 <= i < |runs| ==> Within(runs[i], full)
    ensures AfterRuns(AfterRuns(contents, runs), [full]) == AfterRuns(contents, [full])
  {
    if runs != [] {
      var n := |runs| - 1;
      var before := AfterRuns(contents, runs[..n]);
      LastRunOverrides(contents, runs[..n], full);
      LaterRunOverrides(before, runs[n], full);
      assert [runs[n]][..0] == [];
    }
  }

  lemma AttemptWithin(ctx: Context, fetch: Downloads, full: Downloads, transaction: Transaction)
    requires PartlyAvailable(fetch, full)
    ensures Within(Processed(ctx, fetch, transaction).stored, Processed(ctx, full, transaction).stored)
  {
    var verified := VerifyCoreFiles(ctx, fetch, transaction);
    if verified.Ok? {
      FewerFilesVerifyTheSameCore(ctx, fetch, full, transaction);
      var some := VerifyProvisionalFiles(ctx, fetch, verified.value);
      var all := VerifyProvisionalFiles(ctx, full, verified.value);
      if some.Ok? {
        FewerFilesVerifyTheSameProvisional(ctx, fetch, full, verified.value);
      } else if all.Ok? {
        CoreKeysAreStable(transaction, verified.value, all.value);
      }
    }
  }

  /** What each attempt at a transaction stores. */
  function Attempts(ctx: Context, fetches: seq<Downloads>, transaction: Transaction)
    : seq<Option<seq<AnchoredOperation>>>
  {
    seq(|fetches|, i requires 0 <= i < |fetches| => Processed(ctx, fetches[i], transaction).stored)
  }

  /** Processing a transaction any number of times with whatever files are available, and then once more with all of
      them, leaves the store exactly as one complete processing would. */
  lemma ReplayIsIdempotent(
    ctx: Context, fetches: seq<Downloads>, full: Downloads, transaction: Transaction, contents: Contents)
    requires forall i :: 0 <= i < |fetches| ==> PartlyAvailable(fetches[i], full)
    ensures AfterRuns(AfterRuns(contents, Attempts(ctx, fetches, transaction)), Attempts(ctx, [full], transaction))
            == AfterRuns(contents, Attempts(ctx, [full], transaction))
  {
    forall i | 0 <= i < |fetches|
      ensures Within(Attempts(ctx, fetches, transaction)[i], Processed(ctx, full, transaction).stored)
    {
      AttemptWithin(ctx, fetches[i], full, transaction);
    }
    LastRunOverrides(contents, Attempts(ctx, fetches, transaction), Processed(ctx, full, transaction).stored);
    assert Attempts(ctx, [full], transaction) == [Processed(ctx, full, transaction).stored];
  }
}
