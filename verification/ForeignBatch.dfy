/** A batch that no request handler made: its files pass every check, and once it is stored its DID cannot be resolved. */
module ForeignBatch {
  import opened Wrappers
  import opened Models
  import opened JwsCompact
  import opened PlainEnvironment
  import opened OperationProcessor
  import opened Resolver
  import opened TransactionProcessor
  import opened StoredOperations
  import AnchoredDataSerializer
  import ChunkFile
  import CoreIndexFile
  import CoreProofFile
  import ProvisionalIndexFile
  import Traversal

  // ------------------------------------------------------------ the files

  /** One recover, which reveals the key "x" but is signed with the key "k". */
  const CORE_INDEX := CoreIndexFileModel(
    None, Some("j"), Some("p"), Some(CoreOperations(None, Some([Reference("new", "x")]), None)))

  const PROOF := Jws("h", "k", "s")
  const CORE_PROOF := CoreProofFileModel(Some(CoreProofs(Some([ToCompactJws(PROOF)]), None)))
  const PROVISIONAL_INDEX := ProvisionalIndexFileModel(["c"], None, None)
  const DELTA := Delta([], "a")
  const CHUNK := ChunkFileModel(Some([Some(DELTA)]))

  ghost const CTX := ContextWith(PLAIN)

  ghost function Fetch(uri: string, maxSize: nat): FetchResult {
    if uri == "i" then Success(CODEC.encodeCoreIndex(CORE_INDEX))
    else if uri == "p" then Success(CODEC.encodeCoreProof(CORE_PROOF))
    else if uri == "j" then Success(CODEC.encodeProvisionalIndex(PROVISIONAL_INDEX))
    else if uri == "c" then Success(CODEC.encodeChunk(CHUNK))
    else NotFound
  }

  const ANCHOR := AnchoredDataSerializer.Serialize(AnchoredData("i", 1))
  const TRANSACTION := Transaction(2, 2, "hash", ANCHOR, 1.0, 1.0, "writer")

  const CREATED := AnchoredOperation(
    "new", CreateRequest(SuffixData("new", "key", None), Some(Delta([], "key"))), 0, 1, 1)

  /** What is stored for the recover. */
  const STORED := AnchoredOperation("new", RecoverRequest("new", "x", Some(ToCompactJws(PROOF)), Some(DELTA)), 0, 2, 2)

  // ------------------------------------------------------------ the files are accepted

  function Index(): CoreIndexFile.CoreIndex {
    CoreIndexFile.CoreIndex(CORE_INDEX, ["new"], [], ["new"], [])
  }

  lemma IndexIsParsed()
    ensures CoreIndexFile.Parsed(CTX, CODEC.encodeCoreIndex(CORE_INDEX)) == Ok(Index())
  {
    CodecIsLawful();
    var references := CoreIndexFile.Recovers(CORE_INDEX);
    assert references == [Reference("new", "x")];
    assert CoreIndexFile.Indexed(PLAIN, CORE_INDEX) == Index() by {
      assert CoreIndexFile.ReferenceSuffixes(references) == ["new"];
    }
  }

  lemma ProofIsParsed()
    ensures CoreProofFile.Parsed(CTX, CODEC.encodeCoreProof(CORE_PROOF), []) == Ok(CoreProofFile.CoreProof([PROOF], []))
  {
    CodecIsLawful();
    ParsingUndoesPrinting(PLAIN, PROOF);
    Traversal.ParsesTo(CoreProofFile.RecoverProofParser(PLAIN), [ToCompactJws(PROOF)], [PROOF]);
    Traversal.ParsesTo(CoreProofFile.DeactivateProofParser(PLAIN, []), [], []);
  }

  ghost function Core(): CoreFiles {
    CoreFiles(Index(), Some(CoreProofFile.CoreProof([PROOF], [])), 1)
  }

  lemma CoreIndexFileIsVerified()
    ensures VerifyCoreIndexFile(CTX, Fetch, TRANSACTION, "i", 1) == Ok(Index())
  {
    IndexIsParsed();
  }

  lemma CoreProofFileIsVerified()
    ensures VerifyCoreProofFile(CTX, Fetch, Index()) == Ok(Some(CoreProofFile.CoreProof([PROOF], [])))
  {
    ProofIsParsed();
  }

  lemma CoreFilesAreVerified()
    ensures VerifyCoreFiles(CTX, Fetch, TRANSACTION) == Ok(Core())
  {
    AnchoredDataSerializer.SerializeThenDeserialize(AnchoredData("i", 1));
    CoreIndexFileIsVerified();
    CoreProofFileIsVerified();
  }

  function Provisional(): ProvisionalFiles {
    ProvisionalFiles(Some(ProvisionalIndexFile.ProvisionalIndex("c", [], None, [])), None, Some([DELTA]))
  }

  lemma ProvisionalIndexIsParsed()
    ensures ProvisionalIndexFile.Parse(CTX, CODEC.encodeProvisionalIndex(PROVISIONAL_INDEX))
            == Ok(Provisional().index.value)
  {
    CodecIsLawful();
    assert CoreIndexFile.ReferenceSuffixes([]) == [];
  }

  lemma ChunkIsParsed()
    ensures ChunkFile.Parsed(CTX, CODEC.encodeChunk(CHUNK)) == Ok([DELTA])
  {
    CodecIsLawful();
    Traversal.ParsesTo(ChunkFile.DeltaParser(PLAIN), [Some(DELTA)], [DELTA]);
  }

  lemma ProvisionalFilesAreVerified()
    ensures VerifyProvisionalFiles(CTX, Fetch, Core()) == Ok(Provisional())
  {
    ProvisionalIndexIsParsed();
    ChunkIsParsed();
  }

  lemma RecoverIsComposed()
    ensures ComposedOperations(TRANSACTION, Core(), Provisional()) == Ok([STORED])
  {
    assert ComposedCreates(TRANSACTION, Core(), Some([DELTA])) == [];
    assert ComposedRecovers(TRANSACTION, Core(), Some([DELTA])) == [STORED];
    assert ComposedUpdates(TRANSACTION, Core(), Provisional()) == [];
    assert [] + [STORED] + [] + [] == [STORED];
  }

  lemma RecoverIsStored()
    ensures Processed(CTX, Fetch, TRANSACTION) == Processing(Some([STORED]), Ok(true))
  {
    CoreFilesAreVerified();
    ProvisionalFilesAreVerified();
    RecoverIsComposed();
  }

  // ------------------------------------------------------------ what it does to its DID

  lemma RecoverCannotBeIndexed()
    ensures !CanBeIndexed(PLAIN, STORED)
  {
    ParsingUndoesPrinting(PLAIN, PROOF);
  }

  lemma CreateIsApplied()
    ensures Transition(PLAIN, CREATED, None).Some?
    ensures Transition(PLAIN, CREATED, None).value.nextRecoveryCommitmentHash == Some("key")
  {
  }

  lemma OneCreate()
    ensures OfType([CREATED], Create) == [CREATED]
    ensures forall t :: t != Create ==> OfType([CREATED], t) == []
  {
    assert [CREATED][..0] == [];
    assert OfType([], Create) == [];
    forall t | t != Create
      ensures OfType([CREATED], t) == []
    {
      assert OfType([CREATED][..0], t) == [];
    }
  }

  lemma NothingNext(phase: Phase, didState: DidState)
    ensures NextState(PLAIN, phase, [], didState).None?
  {
  }

  /** Before, the DID resolves. */
  lemma CreatedResolves()
    ensures Terminates(PLAIN, [CREATED]) && Resolve(PLAIN, [CREATED]).Resolved?
  {
    OneCreate();
    CreateIsApplied();
    var none: seq<AnchoredOperation> := [];
    assert none + none == none;
    var first := Transition(PLAIN, CREATED, None).value;
    assert FirstState(PLAIN, [CREATED]) == Some(first);
    NothingNext(Recovery, first);
    NothingNext(Updating, first);
  }

  lemma StoredRecoverThrows()
    ensures Terminates(PLAIN, [CREATED, STORED]) && Resolve(PLAIN, [CREATED, STORED]) == Thrown
  {
    RecoverCannotBeIndexed();
    CreateIsApplied();
    OneCreate();
    assert [CREATED, STORED][..1] == [CREATED];
    assert OfType([CREATED, STORED], Create) == [CREATED];
    UnindexedRecoveryThrows(PLAIN, [CREATED, STORED], STORED);
  }

  /** One created DID, and one batch whose files pass every check: the recover in it is stored as its only operation, it
      cannot be indexed, and resolving the DID, which succeeded before, throws. */
  lemma AcceptedRecoverThrows()
    ensures Processed(CTX, Fetch, TRANSACTION) == Processing(Some([STORED]), Ok(true))
    ensures !CanBeIndexed(PLAIN, STORED)
    ensures Terminates(PLAIN, [CREATED]) && Resolve(PLAIN, [CREATED]).Resolved?
    ensures Terminates(PLAIN, [CREATED, STORED]) && Resolve(PLAIN, [CREATED, STORED]) == Thrown
  {
    RecoverIsStored();
    RecoverCannotBeIndexed();
    CreatedResolves();
    StoredRecoverThrows();
  }
}
