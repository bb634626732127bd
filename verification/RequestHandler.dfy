/** Admission of operation requests to the queue. */
module RequestHandler {
  import opened Wrappers
  import opened Models
  import opened Operations
  import opened OperationQueue

  /** What every queued operation satisfies: it was admitted, and is filed under its own DID. */
  predicate Admitted(p: Primitives, operation: QueuedOperation) {
    Admit(p, operation.operationBuffer).Ok? && operation.didUniqueSuffix == SuffixOf(p, operation.operationBuffer)
  }

  predicate AllAdmitted(p: Primitives, operations: seq<QueuedOperation>) {
    forall i :: 0 <= i < |operations| ==> Admitted(p, operations[i])
  }

  class RequestHandler {
    const primitives: Primitives
    const operationQueue: OperationQueue

    constructor (primitives: Primitives, operationQueue: OperationQueue)
      ensures this.primitives == primitives && this.operationQueue == operationQueue
    {
      this.primitives := primitives;
      this.operationQueue := operationQueue;
    }

    /** Queues a request if and only if it is valid and no request for its DID is waiting. */
    method HandleOperationRequest(request: Request) returns (r: Result<(), Error>)
      requires operationQueue.Valid() && AllAdmitted(primitives, operationQueue.operations)
      modifies operationQueue
      ensures operationQueue.Valid() && AllAdmitted(primitives, operationQueue.operations)
      ensures r.Ok? <==> Admit(primitives, request).Ok?
                         && !Holds(old(operationQueue.operations), SuffixOf(primitives, request))
      ensures operationQueue.operations ==
              if r.Ok? then old(operationQueue.operations) + [QueuedOperation(SuffixOf(primitives, request), request)]
              else old(operationQueue.operations)
    {
      var operationModel :- Admit(primitives, request);
      AdmittedRequestIsRecovered(primitives, request);
      var waiting := operationQueue.Contains(ModelSuffix(operationModel));
      if waiting {
        return Err(QueueingMultipleOperationsPerDidNotAllowed);
      }
      r := operationQueue.Enqueue(QueuedOperation(ModelSuffix(operationModel), request));
    }
  }
}
