/** The queue of admitted operations waiting to be anchored, in the order they were inserted. */
module OperationQueue {
  import opened Wrappers
  import opened Models
  import opened ArrayMethods

  function QueuedSuffixes(operations: seq<QueuedOperation>): seq<string> {
    seq(|operations|, i requires 0 <= i < |operations| => operations[i].didUniqueSuffix)
  }

  /** The unique index on the DID suffix. */
  predicate OnePerDid(operations: seq<QueuedOperation>) {
    NoDuplicates(QueuedSuffixes(operations))
  }

  predicate Holds(operations: seq<QueuedOperation>, didUniqueSuffix: string) {
    exists i :: 0 <= i < |operations| && operations[i].didUniqueSuffix == didUniqueSuffix
  }

  function First(operations: seq<QueuedOperation>, count: int): seq<QueuedOperation> {
    if count <= 0 then [] else if count <= |operations| then operations[..count] else operations
  }

  predicate IsBeginning(r: seq<QueuedOperation>, operations: seq<QueuedOperation>, count: int) {
    r <= operations && |r| == if count <= 0 then 0 else if count <= |operations| then count else |operations|
  }

  lemma BeginningIsFirst(operations: seq<QueuedOperation>, r: seq<QueuedOperation>, count: int)
    requires IsBeginning(r, operations, count)
    ensures r == First(operations, count)
    ensures First(operations, |r|) == r
  {
  }

  lemma AppendingKeepsOnePerDid(operations: seq<QueuedOperation>, operation: QueuedOperation)
    requires OnePerDid(operations) && !Holds(operations, operation.didUniqueSuffix)
    ensures OnePerDid(operations + [operation])
  {
    assert QueuedSuffixes(operations + [operation]) == QueuedSuffixes(operations) + [operation.didUniqueSuffix];
  }

  lemma SliceKeepsOnePerDid(operations: seq<QueuedOperation>, from: nat, to: nat)
    requires OnePerDid(operations) && from <= to <= |operations|
    ensures OnePerDid(operations[from..to])
  {
    assert QueuedSuffixes(operations[from..to]) == QueuedSuffixes(operations)[from..to];
  }

  lemma AppendableExactly(operations: seq<QueuedOperation>, operation: QueuedOperation)
    requires OnePerDid(operations)
    ensures OnePerDid(operations + [operation]) <==> !Holds(operations, operation.didUniqueSuffix)
  {
    var appended := QueuedSuffixes(operations + [operation]);
    if Holds(operations, operation.didUniqueSuffix) {
      var i :| 0 <= i < |operations| && operations[i].didUniqueSuffix == operation.didUniqueSuffix;
      assert appended[i] == appended[|operations|];
    } else {
      AppendingKeepsOnePerDid(operations, operation);
    }
  }

  /** The first match for a DID, if there is any. */
  function FindOne(operations: seq<QueuedOperation>, didUniqueSuffix: string): (r: seq<QueuedOperation>)
    ensures |r| > 0 <==> Holds(operations, didUniqueSuffix)
  {
    if operations == [] then []
    else if operations[0].didUniqueSuffix == didUniqueSuffix then [operations[0]]
    else
      assert Holds(operations[1..], didUniqueSuffix) ==> Holds(operations, didUniqueSuffix);
      assert Holds(operations, didUniqueSuffix) ==> Holds(operations[1..], didUniqueSuffix) by {
        if i :| 0 <= i < |operations| && operations[i].didUniqueSuffix == didUniqueSuffix {
          assert operations[1..][i - 1] == operations[i];
        }
      }
      FindOne(operations[1..], didUniqueSuffix)
  }

  class OperationQueue {
    var operations: seq<QueuedOperation>

    ghost predicate Valid()
      reads this
    {
      OnePerDid(operations)
    }

    constructor ()
      ensures Valid() && operations == []
    {
      operations := [];
    }

    method Enqueue(operation: QueuedOperation) returns (r: Result<(), Error>)
      requires Valid()
      modifies this
      ensures Valid()
      ensures r == if Holds(old(operations), operation.didUniqueSuffix)
                   then Err(BatchWriterAlreadyHasOperationForDid) else Ok(())
      ensures operations == if r.Ok? then old(operations) + [operation] else old(operations)
    {
      var held := Contains(operation.didUniqueSuffix);
      if held {
        return Err(BatchWriterAlreadyHasOperationForDid);
      }
      AppendingKeepsOnePerDid(operations, operation);
      operations := operations + [operation];
      return Ok(());
    }

    /** Throws on an empty queue, whose last operation does not exist. */
    method Dequeue(count: int) returns (r: Result<seq<QueuedOperation>, Error>)
      requires Valid()
      modifies this
      ensures Valid()
      ensures r == if count > 0 && old(operations) == [] then Err(Unexpected) else Ok(First(old(operations), count))
      ensures operations == old(operations)[|First(old(operations), count)|..]
    {
      if count <= 0 {
        return Ok([]);
      }
      var taken := First(operations, count);
      if taken == [] {
        return Err(Unexpected);
      }
      SliceKeepsOnePerDid(operations, |taken|, |operations|);
      assert operations[|taken|..] == operations[|taken|..|operations|];
      operations := operations[|taken|..];
      return Ok(taken);
    }

    /** The beginning of the queue, as much of it as is asked for and there; what `Dequeue` would take next. */
    method Peek(count: int) returns (r: seq<QueuedOperation>)
      requires Valid()
      ensures IsBeginning(r, operations, count) && OnePerDid(r)
    {
      if count <= 0 {
        return [];
      }
      r := operations[..if count <= |operations| then count else |operations|];
      assert r == operations[0..|r|];
      SliceKeepsOnePerDid(operations, 0, |r|);
    }

    /** Whether an operation waits for a DID, in other words, whether another one cannot join the queue. */
    method Contains(didUniqueSuffix: string) returns (r: bool)
      requires Valid()
      ensures r <==> Holds(operations, didUniqueSuffix)
      ensures forall request :: r <==> !OnePerDid(operations + [QueuedOperation(didUniqueSuffix, request)])
    {
      var found := FindOne(operations, didUniqueSuffix);
      r := |found| > 0;
      forall request
        ensures r <==> !OnePerDid(operations + [QueuedOperation(didUniqueSuffix, request)])
      {
        AppendableExactly(operations, QueuedOperation(didUniqueSuffix, request));
      }
    }
  }
}
