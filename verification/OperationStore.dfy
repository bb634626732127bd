/** The store of anchored operations, unique by DID, transaction, position and type. */
module OperationStore {
  import opened Wrappers
  import opened Models
  import opened ArrayMethods

  datatype OperationKey = OperationKey(
    didUniqueSuffix: string, transactionNumber: nat, operationIndex: nat, opType: OperationType)

  type Contents = map<OperationKey, AnchoredOperation>

  function KeyOf(operation: AnchoredOperation): OperationKey {
    OperationKey(operation.didUniqueSuffix, operation.transactionNumber, operation.operationIndex,
                 TypeOf(operation.operationBuffer))
  }

  function Inserted(contents: Contents, operations: seq<AnchoredOperation>): Contents {
    if operations == [] then contents
    else
      var last := operations[|operations| - 1];
      Inserted(contents, operations[..|operations| - 1])[KeyOf(last) := last]
  }

  /** What is left after deleting the operations later than a transaction; the number 0 is taken for "none". */
  function Kept(contents: Contents, transactionNumber: Option<nat>): Contents {
    if transactionNumber.Some? && transactionNumber.value != 0 then
      map k | k in contents && k.transactionNumber <= transactionNumber.value :: contents[k]
    else map[]
  }

  /** Every operation is filed under its own key. */
  predicate WellKeyed(contents: Contents) {
    forall k <- contents :: KeyOf(contents[k]) == k
  }

  predicate Before(a: AnchoredOperation, b: AnchoredOperation) {
    || a.transactionNumber < b.transactionNumber
    || (a.transactionNumber == b.transactionNumber && a.operationIndex <= b.operationIndex)
  }

  predicate Chronological(operations: seq<AnchoredOperation>) {
    forall i, j :: 0 <= i < j < |operations| ==> Before(operations[i], operations[j])
  }

  predicate Holds(contents: Contents, operation: AnchoredOperation) {
    KeyOf(operation) in contents && contents[KeyOf(operation)] == operation
  }

  /** The operations of a DID, each once, in chronological order. */
  ghost predicate Lists(contents: Contents, didUniqueSuffix: string, operations: seq<AnchoredOperation>) {
    && Chronological(operations) && NoDuplicates(operations)
    && forall o :: o in operations <==> o.didUniqueSuffix == didUniqueSuffix && Holds(contents, o)
  }

  lemma {:induction false} InsertedIsWellKeyed(contents: Contents, operations: seq<AnchoredOperation>)
    requires WellKeyed(contents)
    ensures WellKeyed(Inserted(contents, operations))
  {
    if operations != [] {
      InsertedIsWellKeyed(contents, operations[..|operations| - 1]);
    }
  }

  /** Inserting overrides the contents with what the operations alone would store. */
  lemma {:induction false} InsertedOverrides(contents: Contents, operations: seq<AnchoredOperation>)
    ensures Inserted(contents, operations) == contents + Inserted(map[], operations)
  {
    if operations != [] {
      InsertedOverrides(contents, operations[..|operations| - 1]);
    }
  }

  /** Two operations cannot be in the store together: the same DID, transaction, position and type. */
  predicate SameSlot(a: AnchoredOperation, b: AnchoredOperation) {
    && a.didUniqueSuffix == b.didUniqueSuffix && a.transactionNumber == b.transactionNumber
    && a.operationIndex == b.operationIndex
    && match a.operationBuffer
       case CreateRequest(_, _) => b.operationBuffer.CreateRequest?
       case RecoverRequest(_, _, _, _) => b.operationBuffer.RecoverRequest?
       case DeactivateRequest(_, _, _) => b.operationBuffer.DeactivateRequest?
       case UpdateRequest(_, _, _, _) => b.operationBuffer.UpdateRequest?
  }

  /** After inserting, the store holds exactly the operations that came last for their DID, transaction, position and
      type, and of those it held before the ones that no inserted operation takes the place of. */
  lemma {:induction false} InsertedExactly(
    contents: Contents, operations: seq<AnchoredOperation>, operation: AnchoredOperation)
    ensures Holds(Inserted(contents, operations), operation) <==>
            || (exists i :: 0 <= i < |operations| && IsLastOfSlot(operations, i, operation))
            || (Holds(contents, operation)
                && forall i :: 0 <= i < |operations| ==> !SameSlot(operations[i], operation))
  {
    if operations != [] {
      var n := |operations| - 1;
      InsertedExactly(contents, operations[..n], operation);
      if SameSlot(operations[n], operation) {
        assert operation == operations[n] ==> IsLastOfSlot(operations, n, operation);
      } else {
        LastOfSlotStays(operations, operation);
      }
    }
  }

  predicate IsLastOfSlot(operations: seq<AnchoredOperation>, i: nat, operation: AnchoredOperation)
    requires i < |operations|
  {
    operations[i] == operation && forall j :: i < j < |operations| ==> !SameSlot(operations[j], operation)
  }

  lemma LastOfSlotStays(operations: seq<AnchoredOperation>, operation: AnchoredOperation)
    requires operations != [] && !SameSlot(operations[|operations| - 1], operation)
    ensures var fewer := operations[..|operations| - 1];
            (exists i :: 0 <= i < |fewer| && IsLastOfSlot(fewer, i, operation))
            <==> exists i :: 0 <= i < |operations| && IsLastOfSlot(operations, i, operation)
  {
    var fewer := operations[..|operations| - 1];
    if i :| 0 <= i < |fewer| && IsLastOfSlot(fewer, i, operation) {
      assert IsLastOfSlot(operations, i, operation);
    }
    if i :| 0 <= i < |operations| && IsLastOfSlot(operations, i, operation) {
      assert IsLastOfSlot(fewer, i, operation);
    }
  }

  class OperationStore {
    var contents: Contents

    constructor ()
      ensures contents == map[]
    {
      contents := map[];
    }

    method InsertOrReplace(operations: seq<AnchoredOperation>)
      modifies this
      ensures contents == Inserted(old(contents), operations)
    {
      for i := 0 to |operations|
        invariant contents == Inserted(old(contents), operations[..i])
      {
        assert operations[..i + 1][..i] == operations[..i];
        contents := contents[KeyOf(operations[i]) := operations[i]];
      }
      assert operations[..|operations|] == operations;
    }

    /** All operations of a DID in chronological order. */
    method Get(didUniqueSuffix: string) returns (operations: seq<AnchoredOperation>)
      requires WellKeyed(contents)
      ensures Lists(contents, didUniqueSuffix, operations)
    {
      operations := [];
      var keys := contents.Keys;
      while keys != {}
        invariant keys <= contents.Keys
        invariant Chronological(operations) && NoDuplicates(operations)
        invariant forall o <- operations :: o.didUniqueSuffix == didUniqueSuffix && Holds(contents, o)
                                            && KeyOf(o) !in keys
        invariant forall k <- contents ::
                    k !in keys && k.didUniqueSuffix == didUniqueSuffix ==> contents[k] in operations
        decreases keys
      {
        var k :| k in keys;
        assert KeyOf(contents[k]) == k;
        keys := keys - {k};
        if k.didUniqueSuffix == didUniqueSuffix {
          PlacedInOrder(operations, contents[k]);
          operations := Placed(operations, contents[k]);
        }
      }
    }

    /** Operations stay if and only if there is a number, it is not 0, and they are not later than it. */
    method Delete(transactionNumber: Option<nat>)
      modifies this
      ensures forall o :: Holds(contents, o) <==>
                Holds(old(contents), o) && transactionNumber.Some? && transactionNumber.value != 0
                && o.transactionNumber <= transactionNumber.value
      ensures WellKeyed(old(contents)) ==> WellKeyed(contents)
      ensures contents == Kept(old(contents), transactionNumber)
    {
      if transactionNumber.Some? && transactionNumber.value != 0 {
        contents := map k | k in contents && k.transactionNumber <= transactionNumber.value :: contents[k];
      } else {
        contents := map[];
      }
    }
  }

  /** Where an operation belongs in a chronological list. */
  function Position(operations: seq<AnchoredOperation>, operation: AnchoredOperation): (n: nat)
    requires Chronological(operations)
    ensures n <= |operations|
    ensures forall i :: 0 <= i < n ==> Before(operations[i], operation)
    ensures forall i :: n <= i < |operations| ==> Before(operation, operations[i])
  {
    if operations == [] || !Before(operations[0], operation) then 0
    else 1 + Position(operations[1..], operation)
  }

  function Placed(operations: seq<AnchoredOperation>, operation: AnchoredOperation): seq<AnchoredOperation>
    requires Chronological(operations)
  {
    var n := Position(operations, operation);
    operations[..n] + [operation] + operations[n..]
  }

  lemma PlacedPair(operations: seq<AnchoredOperation>, operation: AnchoredOperation, n: nat, i: nat, j: nat)
    requires Chronological(operations) && NoDuplicates(operations) && operation !in operations
    requires n == Position(operations, operation) && i < j <= |operations|
    ensures var r := operations[..n] + [operation] + operations[n..];
            Before(r[i], r[j]) && r[i] != r[j]
  {
    var r := operations[..n] + [operation] + operations[n..];
    if i == n {
      assert r[j] == operations[j - 1];
    } else if j == n {
      assert r[i] == operations[i];
    } else {
      var i', j' := if i < n then i else i - 1, if j < n then j else j - 1;
      assert r[i] == operations[i'] && r[j] == operations[j'];
    }
  }

  lemma PlacedInOrder(operations: seq<AnchoredOperation>, operation: AnchoredOperation)
    requires Chronological(operations) && NoDuplicates(operations) && operation !in operations
    ensures Chronological(Placed(operations, operation)) && NoDuplicates(Placed(operations, operation))
    ensures forall o :: o in Placed(operations, operation) <==> o in operations || o == operation
  {
    var n, r := Position(operations, operation), Placed(operations, operation);
    assert operations == operations[..n] + operations[n..];
    forall i, j | 0 <= i < j < |r|
      ensures Before(r[i], r[j]) && r[i] != r[j]
    {
      PlacedPair(operations, operation, n, i, j);
    }
  }

  // ------------------------------------------------------------ deleting and listing

  /** How many operations of a chronological list are not later than a transaction. */
  function NotLater(operations: seq<AnchoredOperation>, transactionNumber: nat): (n: nat)
    requires Chronological(operations)
    ensures n <= |operations|
    ensures forall i :: 0 <= i < n ==> operations[i].transactionNumber <= transactionNumber
    ensures forall i :: n <= i < |operations| ==> operations[i].transactionNumber > transactionNumber
  {
    var last := |operations| - 1;
    if operations == [] || operations[last].transactionNumber <= transactionNumber then |operations|
    else NotLater(operations[..last], transactionNumber)
  }

  /** Deleting cuts what is listed of a DID at one place: a beginning stays, for the number 0 an empty one. */
  lemma DeletionCutsList(
    contents: Contents, didUniqueSuffix: string, transactionNumber: nat, before: seq<AnchoredOperation>,
    after: seq<AnchoredOperation>)
    requires Lists(contents, didUniqueSuffix, before)
    requires Lists(Kept(contents, Some(transactionNumber)), didUniqueSuffix, after)
    ensures var n := if transactionNumber == 0 then 0 else NotLater(before, transactionNumber);
            && |after| == n && (forall o :: o in after <==> o in before[..n])
            && forall o <- before[n..] :: transactionNumber == 0 || o.transactionNumber > transactionNumber
  {
    var n := if transactionNumber == 0 then 0 else NotLater(before, transactionNumber);
    forall o
      ensures o in after <==> o in before[..n]
    {
      if o in before[..n] {
        assert o in before;
      }
      if o in after {
        assert o in before;
      }
    }
    SameLength(after, before[..n]);
  }

  lemma SameLength<T>(a: seq<T>, b: seq<T>)
    requires NoDuplicates(a) && NoDuplicates(b) && forall x :: x in a <==> x in b
    ensures |a| == |b|
  {
    SetOfDistinct(a);
    SetOfDistinct(b);
    assert (set x | x in a) == (set x | x in b);
  }

  lemma {:induction false} SetOfDistinct<T>(s: seq<T>)
    requires NoDuplicates(s)
    ensures |set x | x in s| == |s|
  {
    if s != [] {
      var n := |s| - 1;
      SetOfDistinct(s[..n]);
      assert (set x | x in s) == (set x | x in s[..n]) + {s[n]};
    }
  }
}
