/** Packs queued operations into the five files of a batch and anchors them. */
module BatchWriter {
  import opened Wrappers
  import opened Models
  import opened Operations
  import opened OperationQueue
  import opened Traversal
  import AnchoredDataSerializer
  import ChunkFile
  import CoreIndexFile
  import CoreProofFile
  import FeeManager
  import ProvisionalIndexFile
  import ProvisionalProofFile
  import ValueTimeLockVerifier

  // ------------------------------------------------------------ partitioning

  /** The operations of a batch by type. */
  datatype Batch = Batch(
    creates: seq<CreateOperation>,
    recovers: seq<RecoverOperation>,
    deactivates: seq<DeactivateOperation>,
    updates: seq<UpdateOperation>)

  function Sorted(batch: Batch, model: OperationModel): Batch {
    match model
    case CreateModel(o) => batch.(creates := batch.creates + [o])
    case RecoverModel(o) => batch.(recovers := batch.recovers + [o])
    case DeactivateModel(o) => batch.(deactivates := batch.deactivates + [o])
    case UpdateModel(o) => batch.(updates := batch.updates + [o])
  }

  function Partition(models: seq<OperationModel>): Batch {
    if models == [] then Batch([], [], [], [])
    else Sorted(Partition(models[..|models| - 1]), models[|models| - 1])
  }

  function Requests(operations: seq<QueuedOperation>): seq<Request> {
    seq(|operations|, i requires 0 <= i < |operations| => operations[i].operationBuffer)
  }

  function RequestParser(p: Primitives): ElementParser<Request, OperationModel, Error> {
    (i: nat, request: Request) => Operations.Parse(p, request)
  }

  // ------------------------------------------------------------ packing

  type Address = Buffer -> string

  function UriOf(address: Address, buffer: Option<Buffer>): Option<string> {
    if buffer.Some? then Some(address(buffer.value)) else None
  }

  /** The files of a batch; the core index file cannot be made if the lock identifier is too long. */
  datatype PackedFiles = PackedFiles(
    coreProof: Option<Buffer>,
    provisionalProof: Option<Buffer>,
    chunk: Option<Buffer>,
    provisionalIndex: Option<Buffer>,
    coreIndex: Result<Buffer, Error>)

  function Pack(ctx: Context, address: Address, writerLockId: Option<string>, batch: Batch): PackedFiles {
    var coreProof := CoreProofFile.CreateBuffer(ctx, batch.recovers, batch.deactivates);
    var provisionalProof := ProvisionalProofFile.CreateBuffer(ctx, batch.updates);
    var chunk := ChunkFile.CreateBuffer(ctx, batch.creates, batch.recovers, batch.updates);
    var provisionalIndex :=
      if chunk.None? then None
      else Some(ctx.codec.encodeProvisionalIndex(ProvisionalIndexFile.CreateFileModel(
        address(chunk.value), UriOf(address, provisionalProof), batch.updates)));
    var coreIndex := CoreIndexFile.CreateBuffer(
      ctx, writerLockId, UriOf(address, provisionalIndex), UriOf(address, coreProof),
      batch.creates, batch.recovers, batch.deactivates);
    PackedFiles(coreProof, provisionalProof, chunk, provisionalIndex, coreIndex)
  }

  function Present(buffer: Option<Buffer>): seq<Buffer> {
    if buffer.Some? then [buffer.value] else []
  }

  /** The buffers written to the content addressable store, in order. */
  function Written(files: PackedFiles): seq<Buffer> {
    Present(files.coreProof) + Present(files.provisionalProof) + Present(files.chunk)
    + Present(files.provisionalIndex) + (if files.coreIndex.Ok? then [files.coreIndex.value] else [])
  }

  function Min(x: int, y: int): int {
    if x < y then x else y
  }

  function GetNumberOfOperationsAllowed(ctx: Context, lock: Option<ValueTimeLock>): int {
    Min(ValueTimeLockVerifier.CalculateMaxNumberOfOperationsAllowed(lock, ctx.versionMetadata),
        MAX_OPERATIONS_PER_BATCH)
  }

  function LockId(lock: Option<ValueTimeLock>): Option<string> {
    if lock.Some? then Some(lock.value.identifier) else None
  }

  /** What writing a batch amounts to: nothing, an exception after some files were written, or an anchoring. */
  datatype WritePlan =
    | NothingToWrite
    | Failing(written: seq<Buffer>, error: Error)
    | Anchoring(written: seq<Buffer>, anchorString: string, fee: real, count: nat)

  function Plan(ctx: Context, address: Address, normalizedFee: real, lock: Option<ValueTimeLock>,
                queue: seq<QueuedOperation>): WritePlan
  {
    var queued := First(queue, GetNumberOfOperationsAllowed(ctx, lock));
    if queued == [] then NothingToWrite
    else
      match ParseAll(RequestParser(ctx.primitives), Requests(queued))
      case Err(error) => Failing([], error)
      case Ok(models) =>
        var files := Pack(ctx, address, LockId(lock), Partition(models));
        match files.coreIndex
        case Err(error) => Failing(Written(files), error)
        case Ok(coreIndex) =>
          Anchoring(
            Written(files),
            AnchoredDataSerializer.Serialize(AnchoredData(address(coreIndex), |queued|)),
            FeeManager.ComputeMinimumTransactionFee(normalizedFee, |queued|).value,
            |queued|)
  }

  /** What the writer may put into a batch is what an observer lets the lock pay for, up to a full batch: for a lock
      that is the writer's and active. */
  lemma AllowedIsWhatTheLockPaysFor(
    ctx: Context, lock: Option<ValueTimeLock>, n: nat, time: nat, writer: string)
    requires lock.Some? ==>
               lock.value.owner == writer && lock.value.lockTransactionTime <= time < lock.value.unlockTransactionTime
    ensures n <= GetNumberOfOperationsAllowed(ctx, lock) <==>
            n <= 10000 && ValueTimeLockVerifier.VerifyLockAmount(lock, n, time, writer, ctx.versionMetadata).Ok?
  {
  }

  /** A write takes the oldest operations of the queue, as many as there are and an observer lets the lock pay for. */
  lemma BatchIsAsLargeAsTheLockAllows(
    ctx: Context, lock: Option<ValueTimeLock>, queue: seq<QueuedOperation>, n: nat, time: nat, writer: string)
    requires lock.Some? ==>
               lock.value.owner == writer && lock.value.lockTransactionTime <= time < lock.value.unlockTransactionTime
    ensures var taken := First(queue, GetNumberOfOperationsAllowed(ctx, lock));
            && taken <= queue
            && (n <= |taken| <==>
                && n <= |queue| && n <= 10000
                && ValueTimeLockVerifier.VerifyLockAmount(lock, n, time, writer, ctx.versionMetadata).Ok?)
  {
    AllowedIsWhatTheLockPaysFor(ctx, lock, n, time, writer);
  }

  /** The count that is anchored is that of the operations taken. */
  lemma AnchoredCountIsTaken(
    ctx: Context, address: Address, normalizedFee: real, lock: Option<ValueTimeLock>, queue: seq<QueuedOperation>)
    ensures var plan := Plan(ctx, address, normalizedFee, lock, queue);
            && (plan.NothingToWrite? <==> queue == [])
            && (plan.Anchoring? ==> plan.count == |First(queue, GetNumberOfOperationsAllowed(ctx, lock))|)
  {
  }

  // ------------------------------------------------------------ writing

  /** A content addressable store. */
  class Cas {
    const address: Address
    var files: map<string, Buffer>

    constructor (address: Address)
      ensures this.address == address && files == map[]
    {
      this.address := address;
      files := map[];
    }

    method Write(content: Buffer) returns (uri: string)
      modifies this
      ensures uri == address(content)
      ensures files == old(files)[uri := content]
    {
      uri := address(content);
      files := files[uri := content];
    }
  }

  function Added(files: map<string, Buffer>, address: Address, buffers: seq<Buffer>): map<string, Buffer> {
    if buffers == [] then files
    else
      var last := buffers[|buffers| - 1];
      Added(files, address, buffers[..|buffers| - 1])[address(last) := last]
  }

  lemma AddedStep(files: map<string, Buffer>, address: Address, buffers: seq<Buffer>, buffer: Buffer)
    ensures Added(files, address, buffers + [buffer]) == Added(files, address, buffers)[address(buffer) := buffer]
  {
    assert (buffers + [buffer])[..|buffers|] == buffers;
  }

  /** Different contents among the buffers have different addresses. */
  predicate ToldApart(address: Address, buffers: seq<Buffer>) {
    forall b <- buffers, c <- buffers :: address(b) == address(c) ==> b == c
  }

  /** If the contents written are told apart by their addresses, every one of them can be read back. */
  lemma {:induction false} WrittenBuffersAreReadable(
    files: map<string, Buffer>, address: Address, buffers: seq<Buffer>, i: nat)
    requires i < |buffers| && ToldApart(address, buffers)
    ensures address(buffers[i]) in Added(files, address, buffers)
    ensures Added(files, address, buffers)[address(buffers[i])] == buffers[i]
  {
    var n := |buffers| - 1;
    if i < n {
      WrittenBuffersAreReadable(files, address, buffers[..n], i);
    }
  }

  /** The ledger as the writer sees it: a write is appended, or fails. */
  class Ledger {
    var available: bool
    var anchored: seq<(string, real)>

    constructor (available: bool)
      ensures this.available == available && anchored == []
    {
      this.available := available;
      anchored := [];
    }

    method Write(anchorString: string, fee: real) returns (r: Result<(), Error>)
      modifies this`anchored
      ensures r == if available then Ok(()) else Err(Unexpected)
      ensures anchored == if available then old(anchored) + [(anchorString, fee)] else old(anchored)
    {
      if !available {
        return Err(Unexpected);
      }
      anchored := anchored + [(anchorString, fee)];
      return Ok(());
    }
  }

  class BatchWriter {
    const ctx: Context
    const operationQueue: OperationQueue
    const cas: Cas
    const blockchain: Ledger

    constructor (ctx: Context, operationQueue: OperationQueue, cas: Cas, blockchain: Ledger)
      ensures this.ctx == ctx && this.operationQueue == operationQueue
      ensures this.cas == cas && this.blockchain == blockchain
    {
      this.ctx := ctx;
      this.operationQueue := operationQueue;
      this.cas := cas;
      this.blockchain := blockchain;
    }

    /** Writes a file if there is one. */
    method WriteIfNeeded(buffer: Option<Buffer>, ghost before: map<string, Buffer>, ghost written: seq<Buffer>)
      returns (uri: Option<string>)
      requires cas.files == Added(before, cas.address, written)
      modifies cas
      ensures uri == UriOf(cas.address, buffer)
      ensures cas.files == Added(before, cas.address, written + Present(buffer))
    {
      if buffer.None? {
        assert written + Present(buffer) == written;
        return None;
      }
      AddedStep(before, cas.address, written, buffer.value);
      var u := cas.Write(buffer.value);
      return Some(u);
    }

    /** Writes the files of a batch and returns the URI of its core index file. */
    method WriteFiles(writerLockId: Option<string>, batch: Batch) returns (r: Result<string, Error>)
      modifies cas
      ensures var files := Pack(ctx, cas.address, writerLockId, batch);
              && cas.files == Added(old(cas.files), cas.address, Written(files))
              && r == if files.coreIndex.Ok? then Ok(cas.address(files.coreIndex.value))
                      else Err(files.coreIndex.error)
    {
      ghost var before, files := cas.files, Pack(ctx, cas.address, writerLockId, batch);
      var coreProof := CoreProofFile.CreateBuffer(ctx, batch.recovers, batch.deactivates);
      var coreProofFileUri := WriteIfNeeded(coreProof, before, []);
      ghost var written := Present(coreProof);
      assert [] + Present(coreProof) == written;

      var provisionalProof := ProvisionalProofFile.CreateBuffer(ctx, batch.updates);
      var provisionalProofFileUri := WriteIfNeeded(provisionalProof, before, written);
      written := written + Present(provisionalProof);

      var chunk := ChunkFile.CreateBuffer(ctx, batch.creates, batch.recovers, batch.updates);
      var chunkFileUri := WriteIfNeeded(chunk, before, written);
      written := written + Present(chunk);

      var provisionalIndex := None;
      if chunkFileUri.Some? {
        provisionalIndex := Some(ctx.codec.encodeProvisionalIndex(ProvisionalIndexFile.CreateFileModel(
          chunkFileUri.value, provisionalProofFileUri, batch.updates)));
      }
      assert provisionalIndex == files.provisionalIndex;
      var provisionalIndexFileUri := WriteIfNeeded(provisionalIndex, before, written);
      written := written + Present(provisionalIndex);

      var coreIndex := CoreIndexFile.CreateBuffer(
        ctx, writerLockId, provisionalIndexFileUri, coreProofFileUri,
        batch.creates, batch.recovers, batch.deactivates);
      assert coreIndex == files.coreIndex;
      if coreIndex.Err? {
        assert Written(files) == written;
        return Err(coreIndex.error);
      }
      assert Written(files) == written + [coreIndex.value];
      AddedStep(before, cas.address, written, coreIndex.value);
      var coreIndexFileUri := cas.Write(coreIndex.value);
      return Ok(coreIndexFileUri);
    }

    ghost function View(): World
      reads operationQueue, cas, blockchain
    {
      World(operationQueue.operations, cas.files, blockchain.anchored)
    }

    /** Writes the anchor string to the ledger, and takes the batch from the queue if the ledger accepts it. */
    method Anchor(anchorString: string, fee: real, count: nat) returns (r: Result<nat, Error>)
      requires operationQueue.Valid() && 0 < count && |First(operationQueue.operations, count)| == count
      modifies operationQueue, blockchain`anchored
      ensures operationQueue.Valid()
      ensures r == if blockchain.available then Ok(count) else Err(Unexpected)
      ensures operationQueue.operations
              == if blockchain.available then old(operationQueue.operations)[count..]
                 else old(operationQueue.operations)
      ensures blockchain.anchored
              == if blockchain.available then old(blockchain.anchored) + [(anchorString, fee)]
                 else old(blockchain.anchored)
    {
      var anchored := blockchain.Write(anchorString, fee);
      if anchored.Err? {
        return Err(anchored.error);
      }
      var dequeued := operationQueue.Dequeue(count);
      return Ok(count);
    }

    /** Takes the oldest operations and writes the files of their batch: nothing to write, an exception, or the URI of
        the core index file and the number of operations. */
    method WriteBatch(normalizedFee: real, currentLock: Option<ValueTimeLock>)
      returns (coreIndexFileUri: Result<string, Error>, numberOfOperations: nat)
      requires operationQueue.Valid()
      modifies cas
      ensures var plan := Plan(ctx, cas.address, normalizedFee, currentLock, operationQueue.operations);
              match plan
              case NothingToWrite => coreIndexFileUri.Ok? && numberOfOperations == 0 && cas.files == old(cas.files)
              case Failing(written, error) =>
                coreIndexFileUri == Err(error) && cas.files == Added(old(cas.files), cas.address, written)
              case Anchoring(written, anchorString, fee, count) =>
                && coreIndexFileUri.Ok? && numberOfOperations == count > 0
                && |First(operationQueue.operations, count)| == count
                && cas.files == Added(old(cas.files), cas.address, written)
                && anchorString == AnchoredDataSerializer.Serialize(AnchoredData(coreIndexFileUri.value, count))
                && Ok(fee) == FeeManager.ComputeMinimumTransactionFee(normalizedFee, count)
    {
      var numberOfOpsAllowed := GetNumberOfOperationsAllowed(ctx, currentLock);
      var queuedOperations := operationQueue.Peek(numberOfOpsAllowed);
      numberOfOperations := |queuedOperations|;
      BeginningIsFirst(operationQueue.operations, queuedOperations, numberOfOpsAllowed);
      if numberOfOperations == 0 {
        return Ok(""), 0;
      }
      var models := ParseAll(RequestParser(ctx.primitives), Requests(queuedOperations));
      if models.Err? {
        return Err(models.error), numberOfOperations;
      }
      coreIndexFileUri := WriteFiles(LockId(currentLock), Partition(models.value));
    }

    /** Anchors the oldest queued operations; they leave the queue only once the ledger has taken the batch. */
    method Write(normalizedFee: real, currentLock: Option<ValueTimeLock>) returns (r: Result<nat, Error>)
      requires operationQueue.Valid()
      modifies operationQueue, cas, blockchain`anchored
      ensures operationQueue.Valid()
      ensures var plan := Plan(ctx, cas.address, normalizedFee, currentLock, old(operationQueue.operations));
              && r == Answer(plan, blockchain.available)
              && View() == After(plan, blockchain.available, cas.address, old(View()))
    {
      var coreIndexFileUri, numberOfOperations := WriteBatch(normalizedFee, currentLock);
      if coreIndexFileUri.Err? {
        return Err(coreIndexFileUri.error);
      }
      if numberOfOperations == 0 {
        return Ok(0);
      }
      var anchorString := AnchoredDataSerializer.Serialize(AnchoredData(coreIndexFileUri.value, numberOfOperations));
      var fee := FeeManager.ComputeMinimumTransactionFee(normalizedFee, numberOfOperations);
      r := Anchor(anchorString, fee.value, numberOfOperations);
    }
  }

  /** What a batch writer works on. */
  datatype World = World(
    queue: seq<QueuedOperation>, files: map<string, Buffer>, anchored: seq<(string, real)>)

  function Answer(plan: WritePlan, available: bool): Result<nat, Error> {
    match plan
    case NothingToWrite => Ok(0)
    case Failing(_, error) => Err(error)
    case Anchoring(_, _, _, count) => if available then Ok(count) else Err(Unexpected)
  }

  /** What is left of the queue, what is stored, and what is on the ledger after a plan was carried out. A ledger that
      is not available leaves everything but the stored files as it was. */
  function After(plan: WritePlan, available: bool, address: Address, before: World): World {
    match plan
    case NothingToWrite => before
    case Failing(written, _) => before.(files := Added(before.files, address, written))
    case Anchoring(written, anchorString, fee, count) =>
      if available then
        World(before.queue[|First(before.queue, count)|..], Added(before.files, address, written),
              before.anchored + [(anchorString, fee)])
      else before.(files := Added(before.files, address, written))
  }
}
