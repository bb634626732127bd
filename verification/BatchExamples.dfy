/** Batches in a concrete environment: the hypotheses of the round trip can be met, and a batch that is lost. */
module BatchExamples {
  import opened Wrappers
  import opened Models
  import opened PlainEnvironment
  import opened Operations
  import opened JwsCompact
  import opened OperationQueue
  import opened RequestHandler
  import opened BatchWriter
  import opened BatchRoundTrip
  import opened TransactionProcessor
  import opened OperationProcessor

  /** A file is stored under the character its text starts with, which tells the kinds of files apart. */
  const ADDRESS: Address := (b: Buffer) => if b == "" || b[0] == '.' then "" else [b[0]]

  function Store(files: map<string, Buffer>): Downloads {
    (uri: string, maxSize: nat) => if uri in files then Success(files[uri]) else NotFound
  }

  ghost function PlanOf(p: Primitives, queue: seq<QueuedOperation>): WritePlan {
    Plan(ContextWith(p), ADDRESS, 1.0, None, queue)
  }

  ghost function StoreAfter(p: Primitives, queue: seq<QueuedOperation>): Downloads {
    Store(After(PlanOf(p, queue), true, ADDRESS, World(queue, map[], [])).files)
  }

  /** The transaction that anchors what is planned for a queue. */
  ghost function TransactionOf(p: Primitives, queue: seq<QueuedOperation>): Transaction
    requires PlanOf(p, queue).Anchoring?
  {
    Transaction(1, 1, "hash", PlanOf(p, queue).anchorString, PlanOf(p, queue).fee, 1.0, "writer")
  }

  lemma QueueIsAnchored(p: Primitives, queue: seq<QueuedOperation>)
    requires Ready(p, queue) && queue != []
    ensures PlanOf(p, queue).Anchoring?
  {
    AdmittedRequestsParse(ContextWith(p), None, queue);
    assert GetNumberOfOperationsAllowed(ContextWith(p), None) > 0;
  }

  predicate OfKind(buffer: Option<Buffer>, kind: char) {
    buffer.Some? ==> buffer.value != "" && buffer.value[0] == kind
  }

  /** The files of a batch start with five different characters. */
  predicate OfFiveKinds(files: PackedFiles) {
    && OfKind(files.coreProof, 'p') && OfKind(files.provisionalProof, 'q') && OfKind(files.chunk, 'c')
    && OfKind(files.provisionalIndex, 'j') && (files.coreIndex.Ok? ==> OfKind(Some(files.coreIndex.value), 'i'))
  }

  function FileOfKind(files: PackedFiles, kind: char): Option<Buffer> {
    if kind == 'p' then files.coreProof
    else if kind == 'q' then files.provisionalProof
    else if kind == 'c' then files.chunk
    else if kind == 'j' then files.provisionalIndex
    else if files.coreIndex.Ok? then Some(files.coreIndex.value) else None
  }

  lemma WrittenFileIsOfItsKind(files: PackedFiles, b: Buffer)
    requires OfFiveKinds(files) && b in Written(files)
    ensures b != "" && ADDRESS(b) == [b[0]] && FileOfKind(files, b[0]) == Some(b)
  {
  }

  lemma KindsAreToldApart(files: PackedFiles)
    requires OfFiveKinds(files)
    ensures ToldApart(ADDRESS, Written(files))
  {
    forall b, c | b in Written(files) && c in Written(files) && ADDRESS(b) == ADDRESS(c)
      ensures b == c
    {
      WrittenFileIsOfItsKind(files, b);
      WrittenFileIsOfItsKind(files, c);
      assert [b[0]][0] == [c[0]][0];
    }
  }

  lemma PackedFilesAreOfFiveKinds(p: Primitives, lockId: Option<string>, batch: Batch)
    ensures OfFiveKinds(Pack(ContextWith(p), ADDRESS, lockId, batch))
  {
  }

  /** With these files and addresses, whatever the checks of single operations are, every queue of admitted operations,
      one per DID, meets all hypotheses of the round trip: its oldest operations are anchored, and what was written can
      be read back. */
  lemma AnyQueueIsServed(p: Primitives, queue: seq<QueuedOperation>)
    requires Ready(p, queue) && queue != []
    ensures PlanOf(p, queue).Anchoring?
    ensures WrittenAndAnchored(ContextWith(p), ADDRESS, StoreAfter(p, queue), 1.0, None, World(queue, map[], []),
                               TransactionOf(p, queue))
  {
    QueueIsAnchored(p, queue);
    CodecIsLawful();
    PlannedFilesAreWritten(ContextWith(p), ADDRESS, 1.0, None, queue);
    PackedFilesAreOfFiveKinds(p, None, TakenBatch(ContextWith(p), None, queue));
    KindsAreToldApart(Pack(ContextWith(p), ADDRESS, None, TakenBatch(ContextWith(p), None, queue)));
  }

  // ------------------------------------------------------------ three batches

  const CREATE := CreateRequest(SuffixData("new", "key", None), Some(Delta([], "key")))
  const DELTALESS_CREATE := CreateRequest(SuffixData("new", "key", None), None)
  const DEACTIVATE := DeactivateRequest("did", "key", Some(ToCompactJws(Jws("h", "key", "s"))))
  const UPDATE := UpdateRequest("did", "a", Some(ToCompactJws(Jws("h", "a", "s"))), Some(Delta([], "b")))

  /** An update of a DID whose suffix is no multihash, which a request handler does not check. */
  const BAD_UPDATE := UpdateRequest("bad", "a", Some(ToCompactJws(Jws("h", "a", "s"))), Some(Delta([], "b")))

  const CREATE_AND_UPDATE := [QueuedOperation("new", CREATE), QueuedOperation("did", UPDATE)]
  const CREATE_AND_DEACTIVATE := [QueuedOperation("new", CREATE), QueuedOperation("did", DEACTIVATE)]

  const CREATE_AND_BAD_UPDATE := [QueuedOperation("new", CREATE), QueuedOperation("bad", BAD_UPDATE)]

  lemma CreateIsAdmitted()
    ensures Admitted(PLAIN, QueuedOperation("new", CREATE))
  {
    assert CheckPatches(PLAIN, []) == Ok(());
  }

  lemma DeactivateIsAdmitted()
    ensures Admitted(PLAIN, QueuedOperation("did", DEACTIVATE))
  {
    ParsingUndoesPrinting(PLAIN, Jws("h", "key", "s"));
  }

  lemma UpdateIsAdmitted()
    ensures Admitted(PLAIN, QueuedOperation("did", UPDATE))
  {
    ParsingUndoesPrinting(PLAIN, Jws("h", "a", "s"));
    assert CheckPatches(PLAIN, []) == Ok(());
  }

  lemma TwoAreReady(p: Primitives, a: QueuedOperation, b: QueuedOperation)
    requires Admitted(p, a) && Admitted(p, b) && a.didUniqueSuffix != b.didUniqueSuffix
    ensures Ready(p, [a, b])
  {
  }

  lemma TwoAreTaken(p: Primitives, a: QueuedOperation, b: QueuedOperation)
    ensures Taken(ContextWith(p), None, [a, b]) == [a.operationBuffer, b.operationBuffer]
  {
    assert First([a, b], 100) == [a, b];
  }

  /** What becomes of the transaction that a queue is anchored in. */
  ghost function OutcomeOf(p: Primitives, queue: seq<QueuedOperation>): Processing
    requires PlanOf(p, queue).Anchoring?
  {
    Processed(ContextWith(p), StoreAfter(p, queue), TransactionOf(p, queue))
  }

  lemma CreateAndUpdateAreGrouped(transaction: Transaction)
    ensures Grouped([CREATE, UPDATE]) == [CREATE, UPDATE]
    ensures RebuiltFrom(PLAIN, transaction, [CREATE, UPDATE], 0)
            == [Composed(transaction, "new", CREATE, 0), Composed(transaction, "did", UPDATE, 1)]
  {
    var requests: seq<Request> := [CREATE, UPDATE];
    assert requests[..1] == [CREATE] && [CREATE][..0] == [];
    forall t
      ensures OfType(requests, t) == if t == Create then [CREATE] else if t == Update then [UPDATE] else []
    {
      assert OfType([CREATE], t) == if t == Create then [CREATE] else [];
    }
  }

  /** A batch that is stored whole: one create and one update. */
  lemma CreateAndUpdateAreStored()
    ensures PlanOf(PLAIN, CREATE_AND_UPDATE).Anchoring?
    ensures var transaction := TransactionOf(PLAIN, CREATE_AND_UPDATE);
            OutcomeOf(PLAIN, CREATE_AND_UPDATE)
            == Processing(Some([Composed(transaction, "new", CREATE, 0), Composed(transaction, "did", UPDATE, 1)]),
                          Ok(true))
  {
    var queue := CREATE_AND_UPDATE;
    CreateIsAdmitted();
    UpdateIsAdmitted();
    TwoAreReady(PLAIN, queue[0], queue[1]);
    AnyQueueIsServed(PLAIN, queue);
    TwoAreTaken(PLAIN, queue[0], queue[1]);
    CreateAndUpdateAreGrouped(TransactionOf(PLAIN, queue));
    WrittenBatchIsStored(
      ContextWith(PLAIN), ADDRESS, StoreAfter(PLAIN, queue), 1.0, None, World(queue, map[], []),
      TransactionOf(PLAIN, queue));
  }

  /** The smallest batch that is lost: two admitted requests, a create and a deactivate, whose anchored transaction
      passes every check of the core files, stores nothing and throws. */
  lemma CreateWithDeactivateIsLost()
    ensures Ready(PLAIN, CREATE_AND_DEACTIVATE) && PlanOf(PLAIN, CREATE_AND_DEACTIVATE).Anchoring?
    ensures VerifyCoreFiles(ContextWith(PLAIN), StoreAfter(PLAIN, CREATE_AND_DEACTIVATE),
                            TransactionOf(PLAIN, CREATE_AND_DEACTIVATE)).Ok?
    ensures OutcomeOf(PLAIN, CREATE_AND_DEACTIVATE) == Processing(None, Err(Unexpected))
  {
    var queue := CREATE_AND_DEACTIVATE;
    CreateIsAdmitted();
    DeactivateIsAdmitted();
    TwoAreReady(PLAIN, queue[0], queue[1]);
    AnyQueueIsServed(PLAIN, queue);
    TwoAreTaken(PLAIN, queue[0], queue[1]);
    assert CREATE in [CREATE, DEACTIVATE] && DEACTIVATE in [CREATE, DEACTIVATE];
    WrittenMixedBatchIsLost(
      ContextWith(PLAIN), ADDRESS, StoreAfter(PLAIN, queue), 1.0, None, World(queue, map[], []),
      TransactionOf(PLAIN, queue));
  }

  lemma BothAreAdmitted()
    ensures Ready(PICKY, CREATE_AND_BAD_UPDATE)
  {
    ParsingUndoesPrinting(PICKY, Jws("h", "a", "s"));
    assert CheckPatches(PICKY, []) == Ok(());
    TwoAreReady(PICKY, CREATE_AND_BAD_UPDATE[0], CREATE_AND_BAD_UPDATE[1]);
  }

  lemma CreateAndBadUpdateByType()
    ensures forall t ::
              OfType([CREATE, BAD_UPDATE], t)
              == if t == Create then [CREATE] else if t == Update then [BAD_UPDATE] else []
  {
    var requests: seq<Request> := [CREATE, BAD_UPDATE];
    assert requests[..1] == [CREATE] && [CREATE][..0] == [];
    forall t
      ensures OfType(requests, t) == if t == Create then [CREATE] else if t == Update then [BAD_UPDATE] else []
    {
      assert OfType([CREATE], t) == if t == Create then [CREATE] else [];
    }
  }

  lemma OneIsRebuilt(transaction: Transaction)
    ensures RebuiltFrom(PICKY, transaction, WithoutDeltas([CREATE] + [] + []), 0)
            == [Composed(transaction, "new", DELTALESS_CREATE, 0)]
  {
    assert [CREATE] + [] + [] == [CREATE];
    assert WithoutDeltas([CREATE]) == [DELTALESS_CREATE];
  }

  lemma SpoiledRequests()
    ensures var requests := [CREATE, BAD_UPDATE];
            && !Mixed(requests) && !SuffixesEncoded(PICKY, requests)
            && OfType(requests, Recover) == [] && OfType(requests, Deactivate) == []
            && OfType(requests, Create) == [CREATE]
  {
    CreateAndBadUpdateByType();
    assert BAD_UPDATE in [CREATE, BAD_UPDATE];
  }

  /** A batch that is spoiled: two admitted requests, a create and an update of a DID whose suffix is no multihash. The
      create is stored without its delta and can never be applied, the update is not stored, and the transaction counts
      as processed. */
  lemma CreateWithBadUpdateIsSpoiled()
    ensures Ready(PICKY, CREATE_AND_BAD_UPDATE) && PlanOf(PICKY, CREATE_AND_BAD_UPDATE).Anchoring?
    ensures var stored := Composed(TransactionOf(PICKY, CREATE_AND_BAD_UPDATE), "new", DELTALESS_CREATE, 0);
            && OutcomeOf(PICKY, CREATE_AND_BAD_UPDATE) == Processing(Some([stored]), Ok(true))
            && Transition(PICKY, stored, None).None?
  {
    var queue := CREATE_AND_BAD_UPDATE;
    BothAreAdmitted();
    AnyQueueIsServed(PICKY, queue);
    TwoAreTaken(PICKY, queue[0], queue[1]);
    SpoiledRequests();
    var ctx, fetch, transaction := ContextWith(PICKY), StoreAfter(PICKY, queue), TransactionOf(PICKY, queue);
    WrittenFilesCooperate(ctx, ADDRESS, fetch, 1.0, None, World(queue, map[], []), transaction);
    UnencodedUpdateSpoilsItsBatch(ctx, ADDRESS, fetch, 1.0, None, queue, transaction);
    OneIsRebuilt(transaction);
    CreateWithoutDeltaIsRefused(PICKY, Composed(transaction, "new", DELTALESS_CREATE, 0));
  }
}
