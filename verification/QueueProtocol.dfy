/** All runs of request handlers and one batch writer over the operation queue, with handlers interleaved anywhere. */
module QueueProtocol {
  import opened Models
  import opened Operations
  import opened OperationQueue
  import opened RequestHandler
  import BatchRoundTrip
  import BatchWriter
  import TransactionProcessor
  import Traversal
  import Wrappers

  type Batch = seq<QueuedOperation>

  /** How far the batch writer is with the batch it took. */
  datatype Writer = Idle | Peeked(batch: Batch) | Anchored(batch: Batch)

  /** `accepted`, `anchored` and `dequeued` record what happened so far; `interrupted` counts the batches that were
      anchored without the queue being told. */
  datatype State = State(
    queue: seq<QueuedOperation>, accepted: seq<QueuedOperation>, anchored: seq<Batch>, dequeued: seq<Batch>,
    writer: Writer, interrupted: nat)

  /** `Abandon` is an exception in the writer, a failed ledger write, or a restart. */
  datatype Step = Submit(request: Request) | Peek(count: int) | Anchor | Dequeue | Abandon

  const INITIAL := State([], [], [], [], Idle, 0)

  /** A step that is not enabled changes nothing. */
  function Next(p: Primitives, s: State, step: Step): State {
    match step
    case Submit(request) =>
      var operation := QueuedOperation(SuffixOf(p, request), request);
      if Admit(p, request).Err? || Holds(s.queue, operation.didUniqueSuffix) then s
      else s.(queue := s.queue + [operation], accepted := s.accepted + [operation])
    case Peek(count) =>
      var batch := First(s.queue, count);
      if s.writer.Idle? && batch != [] then s.(writer := Peeked(batch)) else s
    case Anchor =>
      if s.writer.Peeked? then s.(anchored := s.anchored + [s.writer.batch], writer := Anchored(s.writer.batch)) else s
    case Dequeue =>
      if s.writer.Anchored? then
        var taken := First(s.queue, |s.writer.batch|);
        s.(queue := s.queue[|taken|..], dequeued := s.dequeued + [taken], writer := Idle)
      else s
    case Abandon =>
      s.(writer := Idle, interrupted := s.interrupted + if s.writer.Anchored? then 1 else 0)
  }

  function Run(p: Primitives, steps: seq<Step>): State {
    if steps == [] then INITIAL else Next(p, Run(p, steps[..|steps| - 1]), steps[|steps| - 1])
  }

  function Flatten(batches: seq<Batch>): seq<QueuedOperation> {
    if batches == [] then [] else Flatten(batches[..|batches| - 1]) + batches[|batches| - 1]
  }

  /** The batch that is on the ledger but still in the queue. */
  function Pending(s: State): seq<Batch> {
    if s.writer.Anchored? then [s.writer.batch] else []
  }

  predicate IsStretch(batch: Batch, operations: seq<QueuedOperation>) {
    exists i :: 0 <= i <= |operations| && batch <= operations[i..]
  }

  /** What the ledger holds can be processed: every batch is a stretch of the accepted operations, admitted one by one,
      with one operation for a DID. */
  predicate GoodBatch(p: Primitives, accepted: seq<QueuedOperation>, batch: Batch) {
    batch != [] && OnePerDid(batch) && AllAdmitted(p, batch) && IsStretch(batch, accepted)
  }

  predicate Invariant(p: Primitives, s: State) {
    && s.accepted == Flatten(s.dequeued) + s.queue
    && OnePerDid(s.queue) && AllAdmitted(p, s.queue)
    && (!s.writer.Idle? ==> s.writer.batch != [] && s.writer.batch <= s.queue)
    && (forall b <- s.dequeued :: b in s.anchored)
    && (s.writer.Anchored? ==> s.writer.batch in s.anchored)
    && (forall b <- s.anchored :: GoodBatch(p, s.accepted, b))
    && (s.interrupted == 0 ==> s.anchored == s.dequeued + Pending(s))
    && (s.interrupted > 0 ==> |Flatten(s.anchored)| > |Flatten(s.dequeued + Pending(s))|)
  }

  lemma FlattenAppend(batches: seq<Batch>, batch: Batch)
    ensures Flatten(batches + [batch]) == Flatten(batches) + batch
  {
    assert (batches + [batch])[..|batches|] == batches;
  }

  lemma SubmitKeepsInvariant(p: Primitives, s: State, request: Request)
    requires Invariant(p, s)
    ensures Invariant(p, Next(p, s, Submit(request)))
  {
    var operation := QueuedOperation(SuffixOf(p, request), request);
    var next := Next(p, s, Submit(request));
    if next != s {
      AppendingKeepsOnePerDid(s.queue, operation);
      forall b | b in s.anchored
        ensures GoodBatch(p, next.accepted, b)
      {
        assert GoodBatch(p, s.accepted, b);
        var i :| 0 <= i <= |s.accepted| && b <= s.accepted[i..];
        assert next.accepted[i..] == s.accepted[i..] + [operation];
      }
    }
  }

  lemma AnchorKeepsInvariant(p: Primitives, s: State)
    requires Invariant(p, s) && s.writer.Peeked?
    ensures Invariant(p, Next(p, s, Anchor))
  {
    var batch, next := s.writer.batch, Next(p, s, Anchor);
    assert s.queue == s.accepted[|Flatten(s.dequeued)|..];
    assert IsStretch(batch, s.accepted);
    assert batch == s.queue[0..|batch|];
    SliceKeepsOnePerDid(s.queue, 0, |batch|);
    FlattenAppend(s.anchored, batch);
    FlattenAppend(s.dequeued, batch);
    assert s.dequeued + Pending(s) == s.dequeued;
    assert GoodBatch(p, s.accepted, batch);
  }

  lemma PrefixLeaves(p: Primitives, queue: seq<QueuedOperation>, batch: Batch)
    requires OnePerDid(queue) && AllAdmitted(p, queue) && batch <= queue
    ensures First(queue, |batch|) == batch
    ensures queue == batch + queue[|batch|..]
    ensures OnePerDid(queue[|batch|..]) && AllAdmitted(p, queue[|batch|..])
  {
    assert queue[|batch|..] == queue[|batch|..|queue|];
    SliceKeepsOnePerDid(queue, |batch|, |queue|);
  }

  lemma BatchMovesOut(p: Primitives, s: State, rest: seq<QueuedOperation>)
    requires Invariant(p, s) && s.writer.Anchored? && s.queue == s.writer.batch + rest
    requires OnePerDid(rest) && AllAdmitted(p, rest)
    ensures Invariant(p, s.(queue := rest, dequeued := s.dequeued + [s.writer.batch], writer := Idle))
  {
    var batch, after := s.writer.batch, s.dequeued + [s.writer.batch];
    Rejoined(s.dequeued, batch, s.queue, rest);
    assert Pending(s) == [batch] && after + [] == after;
  }

  /** What leaves the queue is exactly what the writer peeked and anchored, whatever was queued in the meantime. */
  lemma DequeueTakesTheAnchoredBatch(p: Primitives, s: State)
    requires Invariant(p, s) && s.writer.Anchored?
    ensures Next(p, s, Dequeue).dequeued == s.dequeued + [s.writer.batch]
    ensures s.queue == s.writer.batch + Next(p, s, Dequeue).queue
    ensures Invariant(p, Next(p, s, Dequeue))
  {
    var batch := s.writer.batch;
    PrefixLeaves(p, s.queue, batch);
    BatchMovesOut(p, s, s.queue[|batch|..]);
  }

  lemma AbandonKeepsInvariant(p: Primitives, s: State)
    requires Invariant(p, s)
    ensures Invariant(p, Next(p, s, Abandon))
  {
    var next := Next(p, s, Abandon);
    assert next.dequeued + Pending(next) == s.dequeued;
    if s.writer.Anchored? {
      FlattenAppend(s.dequeued, s.writer.batch);
    }
  }

  lemma PeekKeepsInvariant(p: Primitives, s: State, count: int)
    requires Invariant(p, s)
    ensures Invariant(p, Next(p, s, Peek(count)))
  {
    var next := Next(p, s, Peek(count));
    assert s.writer.Idle? ==> Pending(next) == Pending(s);
  }

  /** The invariant holds after every run. */
  lemma {:induction false} RunsKeepInvariant(p: Primitives, steps: seq<Step>)
    ensures Invariant(p, Run(p, steps))
  {
    if steps != [] {
      var before := steps[..|steps| - 1];
      RunsKeepInvariant(p, before);
      var s := Run(p, before);
      match steps[|steps| - 1]
      case Submit(request) => SubmitKeepsInvariant(p, s, request);
      case Peek(count) => PeekKeepsInvariant(p, s, count);
      case Anchor => if s.writer.Peeked? { AnchorKeepsInvariant(p, s); }
      case Dequeue => if s.writer.Anchored? { DequeueTakesTheAnchoredBatch(p, s); }
      case Abandon => AbandonKeepsInvariant(p, s);
    }
  }

  /** After every run, every accepted operation is in the queue or in a batch on the ledger, in the order of acceptance;
      nothing else is in either. */
  lemma AcceptedIsNeverLost(p: Primitives, steps: seq<Step>)
    ensures var s := Run(p, steps);
            && s.accepted == Flatten(s.dequeued) + s.queue
            && OnePerDid(s.queue)
            && (forall b <- s.dequeued :: b in s.anchored)
            && (forall b <- s.anchored :: GoodBatch(p, s.accepted, b))
  {
    RunsKeepInvariant(p, steps);
  }

  /** What is only queued: the queue without the batch that is on the ledger already. */
  function StillQueued(s: State): seq<QueuedOperation> {
    if s.writer.Anchored? then s.queue[|First(s.queue, |s.writer.batch|)|..] else s.queue
  }

  lemma Rejoined(dequeued: seq<Batch>, batch: Batch, queue: seq<QueuedOperation>, rest: seq<QueuedOperation>)
    requires queue == batch + rest
    ensures Flatten(dequeued) + queue == Flatten(dequeued + [batch]) + rest
  {
    FlattenAppend(dequeued, batch);
    var done := Flatten(dequeued);
    assert done + (batch + rest) == (done + batch) + rest;
  }

  lemma StillQueuedIsTheRest(p: Primitives, s: State)
    requires Invariant(p, s)
    ensures s.accepted == Flatten(s.dequeued + Pending(s)) + StillQueued(s)
  {
    if s.writer.Anchored? {
      PrefixLeaves(p, s.queue, s.writer.batch);
      Rejoined(s.dequeued, s.writer.batch, s.queue, StillQueued(s));
    } else {
      assert s.dequeued + Pending(s) == s.dequeued;
    }
  }

  /** The anchored batches in order, followed by what is still only queued, are the accepted operations if and only if
      the writer was never interrupted between anchoring and dequeuing. */
  lemma AnchoredExactlyOnce(p: Primitives, steps: seq<Step>)
    ensures Run(p, steps).accepted == Flatten(Run(p, steps).anchored) + StillQueued(Run(p, steps))
            <==> Run(p, steps).interrupted == 0
  {
    var s := Run(p, steps);
    RunsKeepInvariant(p, steps);
    StillQueuedIsTheRest(p, s);
    var done := Flatten(s.dequeued + Pending(s));
    if s.interrupted > 0 {
      assert |s.accepted| == |done| + |StillQueued(s)|;
    }
  }

  /** A ledger entry that a writing of the batch makes. */
  ghost predicate IsEntry(ctx: Context, address: BatchWriter.Address, batch: Batch, entry: (string, real)) {
    exists normalizedFee, lock ::
      var plan := BatchWriter.Plan(ctx, address, normalizedFee, lock, batch);
      plan.Anchoring? && entry == (plan.anchorString, plan.fee)
  }

  /** The ledger holds one entry for each anchored batch, in order. */
  ghost predicate OnLedger(
    ctx: Context, address: BatchWriter.Address, batches: seq<Batch>, ledger: seq<(string, real)>)
  {
    |batches| == |ledger| && forall i :: 0 <= i < |batches| ==> IsEntry(ctx, address, batches[i], ledger[i])
  }

  /** A plan is about the peeked operations alone. */
  lemma PlanTakesThePeekedBatch(
    ctx: Context, address: BatchWriter.Address, normalizedFee: real, lock: Wrappers.Option<ValueTimeLock>,
    queue: seq<QueuedOperation>)
    ensures var plan := BatchWriter.Plan(ctx, address, normalizedFee, lock, queue);
            var batch := First(queue, BatchWriter.GetNumberOfOperationsAllowed(ctx, lock));
            && plan == BatchWriter.Plan(ctx, address, normalizedFee, lock, batch)
            && (plan.Anchoring? ==> plan.count == |batch| && batch != [])
            && (plan.Anchoring? ==> IsEntry(ctx, address, batch, (plan.anchorString, plan.fee)))
  {
    var count := BatchWriter.GetNumberOfOperationsAllowed(ctx, lock);
    assert First(First(queue, count), count) == First(queue, count);
  }

  lemma PeekAnchorDequeue(p: Primitives, s: State, count: int)
    requires s.writer.Idle? && First(s.queue, count) != []
    ensures var next := Next(p, Next(p, Next(p, s, Peek(count)), Anchor), Dequeue);
            && next.writer.Idle? && next.interrupted == s.interrupted
            && next.queue == s.queue[|First(s.queue, count)|..]
            && next.anchored == s.anchored + [First(s.queue, count)]
  {
    var batch := First(s.queue, count);
    var peeked := Next(p, s, Peek(count));
    assert peeked == s.(writer := Peeked(batch));
    var anchored := Next(p, peeked, Anchor);
    assert anchored.queue == s.queue && anchored.writer == Anchored(batch);
    assert First(s.queue, |batch|) == batch;
  }

  lemma PeekAbandon(p: Primitives, s: State, count: int)
    requires s.writer.Idle?
    ensures Next(p, Next(p, s, Peek(count)), Abandon) == s
  {
  }

  lemma OneMoreEntry(
    ctx: Context, address: BatchWriter.Address, batches: seq<Batch>, ledger: seq<(string, real)>, batch: Batch,
    entry: (string, real))
    requires OnLedger(ctx, address, batches, ledger) && IsEntry(ctx, address, batch, entry)
    ensures OnLedger(ctx, address, batches + [batch], ledger + [entry])
  {
  }

  /** A writing of a batch is a peek followed, if the batch could be anchored, by an anchoring and a dequeue: the queue
      becomes the protocol's, and the ledger still holds an entry for each batch the protocol has anchored. */
  lemma WriteIsSteps(
    ctx: Context, address: BatchWriter.Address, normalizedFee: real, lock: Wrappers.Option<ValueTimeLock>,
    available: bool, before: BatchWriter.World, s: State)
    requires s.writer.Idle? && s.queue == before.queue && OnLedger(ctx, address, s.anchored, before.anchored)
    ensures var p, count := ctx.primitives, BatchWriter.GetNumberOfOperationsAllowed(ctx, lock);
            var plan := BatchWriter.Plan(ctx, address, normalizedFee, lock, before.queue);
            var after := BatchWriter.After(plan, available, address, before);
            var next := if plan.Anchoring? && available then Next(p, Next(p, Next(p, s, Peek(count)), Anchor), Dequeue)
                        else Next(p, Next(p, s, Peek(count)), Abandon);
            && next.writer.Idle? && next.interrupted == s.interrupted
            && after.queue == next.queue && OnLedger(ctx, address, next.anchored, after.anchored)
  {
    var plan := BatchWriter.Plan(ctx, address, normalizedFee, lock, before.queue);
    PlanTakesThePeekedBatch(ctx, address, normalizedFee, lock, before.queue);
    if plan.Anchoring? && available {
      var count := BatchWriter.GetNumberOfOperationsAllowed(ctx, lock);
      PeekAnchorDequeue(ctx.primitives, s, count);
      assert First(before.queue, plan.count) == First(before.queue, count);
      OneMoreEntry(ctx, address, s.anchored, before.anchored, First(s.queue, count), (plan.anchorString, plan.fee));
    } else {
      PeekAbandon(ctx.primitives, s, BatchWriter.GetNumberOfOperationsAllowed(ctx, lock));
    }
  }

  /** From request to store: a batch anchored in any run is a batch that observers accept and store whole, in the order
      of creates, recovers, deactivates and updates, if and only if it does not mix deactivates with creates or
      recovers and its suffixes are multihashes. */
  lemma AnchoredBatchIsStored(
    ctx: Context, steps: seq<Step>, batch: Batch, address: BatchWriter.Address, fetch: TransactionProcessor.Downloads,
    normalizedFee: real, lock: Wrappers.Option<ValueTimeLock>, transaction: Transaction)
    requires batch in Run(ctx.primitives, steps).anchored
    requires BatchRoundTrip.AnchoredBy(ctx, address, normalizedFee, lock, batch, transaction)
    requires Traversal.ParseAll(BatchWriter.RequestParser(ctx.primitives), BatchRoundTrip.Taken(ctx, lock, batch)).Ok?
    requires BatchRoundTrip.Cooperates(ctx, address, fetch, lock, batch, transaction)
    ensures var requests := BatchRoundTrip.Taken(ctx, lock, batch);
            TransactionProcessor.Processed(ctx, fetch, transaction)
            == TransactionProcessor.Processing(
                 Wrappers.Some(
                   BatchRoundTrip.RebuiltFrom(ctx.primitives, transaction, BatchRoundTrip.Grouped(requests), 0)),
                 Wrappers.Ok(true))
            <==> BatchRoundTrip.SuffixesEncoded(ctx.primitives, requests) && !BatchRoundTrip.Mixed(requests)
  {
    RunsKeepInvariant(ctx.primitives, steps);
    assert GoodBatch(ctx.primitives, Run(ctx.primitives, steps).accepted, batch);
    BatchRoundTrip.WriterAndObserverAgree(ctx, address, fetch, normalizedFee, lock, batch, transaction);
  }
}
