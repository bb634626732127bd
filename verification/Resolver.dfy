/** Resolves a DID: follows the chain of commitments through an index from commitments to operations. */
module Resolver {
  import opened Wrappers
  import opened Models
  import opened Multihash
  import opened Iteration
  import opened OperationProcessor

  // ------------------------------------------------------------ the index

  /** The commitment that an operation opens, as the index computes it; an operation that does not parse throws. */
  function CommitKey(p: Primitives, operation: AnchoredOperation): Result<string, Error> {
    var revealValue :- RevealValue(p, operation);
    match CommitValue(p, revealValue)
    case None => Err(Malformed)
    case Some(c) => Ok(c)
  }

  predicate Indexable(p: Primitives, operations: seq<AnchoredOperation>) {
    forall i :: 0 <= i < |operations| ==> CommitKey(p, operations[i]).Ok?
  }

  /** The operations that open a commitment, in the order given. */
  function Bucket(p: Primitives, operations: seq<AnchoredOperation>, c: string): (r: seq<AnchoredOperation>)
    ensures forall o :: o in r <==> o in operations && CommitKey(p, o) == Ok(c)
  {
    if operations == [] then []
    else
      var last := operations[|operations| - 1];
      Bucket(p, operations[..|operations| - 1], c) + if CommitKey(p, last) == Ok(c) then [last] else []
  }

  type Index = map<string, seq<AnchoredOperation>>

  ghost predicate IsIndex(p: Primitives, operations: seq<AnchoredOperation>, index: Index) {
    && (forall c :: c in index <==> Bucket(p, operations, c) != [])
    && (forall c <- index :: index[c] == Bucket(p, operations, c))
  }

  // ------------------------------------------------------------ one step along the chain

  function Insert(operations: seq<AnchoredOperation>, operation: AnchoredOperation): (r: seq<AnchoredOperation>)
    ensures multiset(r) == multiset(operations) + multiset{operation}
  {
    if operations == [] || operations[|operations| - 1].transactionNumber <= operation.transactionNumber then
      operations + [operation]
    else
      assert operations == operations[..|operations| - 1] + [operations[|operations| - 1]];
      Insert(operations[..|operations| - 1], operation) + [operations[|operations| - 1]]
  }

  /** The stable sort by transaction number. */
  function SortedByNumber(operations: seq<AnchoredOperation>): (r: seq<AnchoredOperation>)
    ensures multiset(r) == multiset(operations)
  {
    if operations == [] then []
    else
      assert operations == operations[..|operations| - 1] + [operations[|operations| - 1]];
      Insert(SortedByNumber(operations[..|operations| - 1]), operations[|operations| - 1])
  }

  predicate Ascending(operations: seq<AnchoredOperation>) {
    forall i, j :: 0 <= i < j < |operations| ==> operations[i].transactionNumber <= operations[j].transactionNumber
  }

  lemma {:induction false} InsertMembers(operations: seq<AnchoredOperation>, operation: AnchoredOperation)
    ensures forall o :: o in Insert(operations, operation) <==> o in operations || o == operation
  {
    if operations != [] && operations[|operations| - 1].transactionNumber > operation.transactionNumber {
      var n := |operations| - 1;
      InsertMembers(operations[..n], operation);
      assert operations == operations[..n] + [operations[n]];
    }
  }

  lemma AppendKeepsAscending(operations: seq<AnchoredOperation>, operation: AnchoredOperation)
    requires Ascending(operations)
    requires forall i :: 0 <= i < |operations| ==> operations[i].transactionNumber <= operation.transactionNumber
    ensures Ascending(operations + [operation])
  {
  }

  lemma {:induction false} InsertKeepsAscending(operations: seq<AnchoredOperation>, operation: AnchoredOperation)
    requires Ascending(operations)
    ensures Ascending(Insert(operations, operation))
  {
    if operations != [] && operations[|operations| - 1].transactionNumber > operation.transactionNumber {
      var n := |operations| - 1;
      var r := Insert(operations[..n], operation);
      InsertKeepsAscending(operations[..n], operation);
      InsertMembers(operations[..n], operation);
      forall i | 0 <= i < |r|
        ensures r[i].transactionNumber <= operations[n].transactionNumber
      {
        assert r[i] in r;
      }
      AppendKeepsAscending(r, operations[n]);
    } else if operations != [] {
      var n := |operations| - 1;
      assert forall i :: 0 <= i < n ==> operations[i].transactionNumber <= operations[n].transactionNumber;
      AppendKeepsAscending(operations, operation);
    }
  }

  lemma {:induction false} SortedIsAscending(operations: seq<AnchoredOperation>)
    ensures Ascending(SortedByNumber(operations))
    ensures forall o :: o in SortedByNumber(operations) <==> o in operations
  {
    if operations != [] {
      var n := |operations| - 1;
      SortedIsAscending(operations[..n]);
      InsertKeepsAscending(SortedByNumber(operations[..n]), operations[n]);
    }
    forall o
      ensures o in SortedByNumber(operations) <==> o in operations
    {
      assert o in SortedByNumber(operations) <==> o in multiset(SortedByNumber(operations));
      assert o in operations <==> o in multiset(operations);
    }
  }

  /** A bad operation must not stop resolution: its exception is swallowed and the state stays as it was. */
  function ApplyOperation(p: Primitives, operation: AnchoredOperation, didState: DidState): DidState {
    var transition := Transition(p, operation, Some(didState));
    if transition.Some? then transition.value else didState
  }

  /** The state after the first operation that changes the transaction number. An operation that is applied without
      changing it is not noticed, but the operations after it are applied to its result. */
  function FirstApplied(p: Primitives, operations: seq<AnchoredOperation>, original: DidState, current: DidState)
    : Option<DidState>
  {
    if operations == [] then None
    else
      var next := ApplyOperation(p, operations[0], current);
      if next.lastOperationTransactionNumber != original.lastOperationTransactionNumber then Some(next)
      else FirstApplied(p, operations[1..], original, next)
  }

  function NextState(p: Primitives, phase: Phase, operations: seq<AnchoredOperation>, didState: DidState)
    : Option<DidState>
  {
    match Commitment(phase, didState)
    case None => None
    case Some(c) => FirstApplied(p, SortedByNumber(Bucket(p, operations, c)), didState, didState)
  }

  /** One turn of the loop of a phase; `None` where the loop ends. */
  function Step(p: Primitives, phase: Phase, operations: seq<AnchoredOperation>): DidState -> Option<DidState> {
    didState => NextState(p, phase, operations, didState)
  }

  function Numbers(operations: seq<AnchoredOperation>): set<nat> {
    set o <- operations :: o.transactionNumber
  }

  lemma {:induction false} AppliedNumber(
    p: Primitives, operations: seq<AnchoredOperation>, original: DidState, current: DidState)
    requires current.lastOperationTransactionNumber == original.lastOperationTransactionNumber
    requires FirstApplied(p, operations, original, current).Some?
    ensures FirstApplied(p, operations, original, current).value.lastOperationTransactionNumber in Numbers(operations)
  {
    var next := ApplyOperation(p, operations[0], current);
    if next.lastOperationTransactionNumber == original.lastOperationTransactionNumber {
      AppliedNumber(p, operations[1..], original, next);
    } else {
      assert operations[0] in operations;
    }
  }

  lemma NextNumber(p: Primitives, phase: Phase, operations: seq<AnchoredOperation>, didState: DidState)
    requires NextState(p, phase, operations, didState).Some?
    ensures NextState(p, phase, operations, didState).value.lastOperationTransactionNumber in Numbers(operations)
  {
    var bucket := Bucket(p, operations, Commitment(phase, didState).value);
    SortedIsAscending(bucket);
    AppliedNumber(p, SortedByNumber(bucket), didState, didState);
  }

  // ------------------------------------------------------------ the chain

  /** The state the loop of a phase ends in, or `None` if the loop applies one transaction number twice. */
  function Run(p: Primitives, phase: Phase, operations: seq<AnchoredOperation>, didState: DidState, applied: set<nat>)
    : Option<DidState>
    decreases Numbers(operations) - applied
  {
    var next := NextState(p, phase, operations, didState);
    if next.None? then Some(didState)
    else
      NextNumber(p, phase, operations, didState);
      var number := next.value.lastOperationTransactionNumber;
      if number in applied then None else Run(p, phase, operations, next.value, applied + {number})
  }

  function OfType(operations: seq<AnchoredOperation>, t: OperationType): (r: seq<AnchoredOperation>)
    ensures forall o :: o in r <==> o in operations && TypeOf(o.operationBuffer) == t
  {
    if operations == [] then []
    else
      var last := operations[|operations| - 1];
      OfType(operations[..|operations| - 1], t) + if TypeOf(last.operationBuffer) == t then [last] else []
  }

  /** The operations a phase works with, in the order they are indexed. */
  function PhaseOperations(phase: Phase, operations: seq<AnchoredOperation>): seq<AnchoredOperation> {
    match phase
    case Recovery => OfType(operations, Recover) + OfType(operations, Deactivate)
    case Updating => OfType(operations, Update)
  }

  /** The state made by the first create that can be applied. */
  function FirstState(p: Primitives, creates: seq<AnchoredOperation>): Option<DidState> {
    if creates == [] then None
    else
      var state := Transition(p, creates[0], None);
      if state.Some? then state else FirstState(p, creates[1..])
  }

  /** What resolution comes to: an exception from index building, no DID, or a state. */
  datatype Resolution = Thrown | DidNotFound | Resolved(didState: DidState)

  /** Neither loop applies one transaction number twice. */
  predicate Terminates(p: Primitives, operations: seq<AnchoredOperation>) {
    var first := FirstState(p, OfType(operations, Create));
    first.Some? && Indexable(p, PhaseOperations(Recovery, operations)) ==>
      var recovered := Run(p, Recovery, PhaseOperations(Recovery, operations), first.value, {});
      && recovered.Some?
      && (recovered.value.nextRecoveryCommitmentHash.Some? && Indexable(p, PhaseOperations(Updating, operations)) ==>
            Run(p, Updating, PhaseOperations(Updating, operations), recovered.value, {}).Some?)
  }

  function Resolve(p: Primitives, operations: seq<AnchoredOperation>): Resolution
    requires Terminates(p, operations)
  {
    var first := FirstState(p, OfType(operations, Create));
    if first.None? then DidNotFound
    else if !Indexable(p, PhaseOperations(Recovery, operations)) then Thrown
    else
      var recovered := Run(p, Recovery, PhaseOperations(Recovery, operations), first.value, {}).value;
      if recovered.nextRecoveryCommitmentHash.None? then Resolved(recovered)
      else if !Indexable(p, PhaseOperations(Updating, operations)) then Thrown
      else Resolved(Run(p, Updating, PhaseOperations(Updating, operations), recovered, {}).value)
  }

  /** What resolution comes to if both loops end within a number of turns. */
  function ResolvedWithin(p: Primitives, operations: seq<AnchoredOperation>, turns: nat): Option<Resolution> {
    var first := FirstState(p, OfType(operations, Create));
    if first.None? then Some(DidNotFound)
    else if !Indexable(p, PhaseOperations(Recovery, operations)) then Some(Thrown)
    else
      var recovered := Final(Step(p, Recovery, PhaseOperations(Recovery, operations)), first.value, turns);
      if recovered.None? then None
      else if recovered.value.nextRecoveryCommitmentHash.None? then Some(Resolved(recovered.value))
      else if !Indexable(p, PhaseOperations(Updating, operations)) then Some(Thrown)
      else
        var final := Final(Step(p, Updating, PhaseOperations(Updating, operations)), recovered.value, turns);
        if final.None? then None else Some(Resolved(final.value))
  }

  // ------------------------------------------------------------ the resolver's loops

  lemma BucketGrows(p: Primitives, operations: seq<AnchoredOperation>, i: nat, c: string)
    requires i < |operations|
    ensures Bucket(p, operations[..i + 1], c)
            == Bucket(p, operations[..i], c) + if CommitKey(p, operations[i]) == Ok(c) then [operations[i]] else []
  {
    assert operations[..i + 1][..i] == operations[..i];
  }

  lemma EntryAdded(
    before: string -> seq<AnchoredOperation>, after: string -> seq<AnchoredOperation>, c: string,
    operation: AnchoredOperation, index: Index)
    requires forall k :: after(k) == before(k) + if k == c then [operation] else []
    requires (forall k :: k in index <==> before(k) != []) && forall k <- index :: index[k] == before(k)
    ensures var grown := index[c := (if c in index then index[c] else []) + [operation]];
            (forall k :: k in grown <==> after(k) != []) && forall k <- grown :: grown[k] == after(k)
  {
  }

  lemma IndexableGrows(p: Primitives, operations: seq<AnchoredOperation>, i: nat)
    requires i < |operations| && CommitKey(p, operations[i]).Ok? && Indexable(p, operations[..i])
    ensures Indexable(p, operations[..i + 1])
  {
    var more := operations[..i + 1];
    forall j | 0 <= j < |more|
      ensures CommitKey(p, more[j]).Ok?
    {
      assert j < i ==> more[j] == operations[..i][j];
    }
  }

  /** Indexing one more operation: it joins the bucket of its commitment. */
  lemma IndexGrows(p: Primitives, operations: seq<AnchoredOperation>, i: nat, c: string, index: Index)
    requires i < |operations| && CommitKey(p, operations[i]) == Ok(c) && IsIndex(p, operations[..i], index)
    ensures IsIndex(p, operations[..i + 1], index[c := (if c in index then index[c] else []) + [operations[i]]])
  {
    var before := k => Bucket(p, operations[..i], k);
    var after := k => Bucket(p, operations[..i + 1], k);
    var key := CommitKey(p, operations[i]);
    forall k
      ensures after(k) == before(k) + if k == c then [operations[i]] else []
    {
      BucketGrows(p, operations, i, k);
      assert (key == Ok(k)) == (k == c);
    }
    EntryAdded(before, after, c, operations[i], index);
  }

  method ConstructCommitValueToOperationLookupMap(p: Primitives, operations: seq<AnchoredOperation>)
    returns (r: Result<Index, Error>)
    ensures r.Ok? <==> Indexable(p, operations)
    ensures r.Ok? ==> IsIndex(p, operations, r.value)
  {
    var index: Index := map[];
    for i := 0 to |operations|
      invariant Indexable(p, operations[..i])
      invariant IsIndex(p, operations[..i], index)
    {
      var commitValue := CommitKey(p, operations[i]);
      if commitValue.Err? {
        return Err(commitValue.error);
      }
      var c := commitValue.value;
      IndexableGrows(p, operations, i);
      IndexGrows(p, operations, i, c, index);
      if c in index {
        index := index[c := index[c] + [operations[i]]];
      } else {
        assert [] + [operations[i]] == [operations[i]];
        index := index[c := [operations[i]]];
      }
    }
    assert operations[..|operations|] == operations;
    return Ok(index);
  }

  method ApplyFirstValidOperation(p: Primitives, operations: seq<AnchoredOperation>, originalDidState: DidState)
    returns (r: Option<DidState>)
    ensures r == FirstApplied(p, operations, originalDidState, originalDidState)
  {
    var newDidState := originalDidState;
    for i := 0 to |operations|
      invariant newDidState.lastOperationTransactionNumber == originalDidState.lastOperationTransactionNumber
      invariant FirstApplied(p, operations, originalDidState, originalDidState)
             == FirstApplied(p, operations[i..], originalDidState, newDidState)
    {
      newDidState := ApplyOperation(p, operations[i], newDidState);
      if newDidState.lastOperationTransactionNumber != originalDidState.lastOperationTransactionNumber {
        return Some(newDidState);
      }
    }
    return None;
  }

  /** What a turn finds through the index. */
  function LookedUp(p: Primitives, phase: Phase, index: Index, didState: DidState): Option<DidState> {
    var commitment := Commitment(phase, didState);
    if commitment.Some? && commitment.value in index then
      FirstApplied(p, SortedByNumber(index[commitment.value]), didState, didState)
    else None
  }

  lemma LookedUpIsNext(p: Primitives, phase: Phase, operations: seq<AnchoredOperation>, index: Index, didState: DidState)
    requires IsIndex(p, operations, index)
    ensures LookedUp(p, phase, index, didState) == NextState(p, phase, operations, didState)
  {
  }

  /** Applies operations until none matches the next commitment. As the loop need not end, it is followed for a number
      of turns, and `ended` says whether it has left the loop by then. */
  method ApplyOperations(p: Primitives, phase: Phase, ghost operations: seq<AnchoredOperation>, index: Index,
                         startingDidState: DidState, turns: nat) returns (didState: DidState, ended: bool)
    requires IsIndex(p, operations, index)
    ensures ended ==> Final(Step(p, phase, operations), startingDidState, turns) == Some(didState)
    ensures !ended ==> Turns(Step(p, phase, operations), startingDidState, turns) == Some(didState)
  {
    ghost var step := Step(p, phase, operations);
    didState := startingDidState;
    var turn := 0;
    while turn < turns && Commitment(phase, didState).Some? && Commitment(phase, didState).value in index
      invariant Follows(step, startingDidState, didState, turn, turns)
    {
      LookedUpIsNext(p, phase, operations, index, didState);
      FollowsOn(step, startingDidState, didState, LookedUp(p, phase, index, didState), turn, turns);
      var operationsWithCorrectRevealValue := SortedByNumber(index[Commitment(phase, didState).value]);
      var newDidState := ApplyFirstValidOperation(p, operationsWithCorrectRevealValue, didState);
      if newDidState.None? {
        return didState, true;
      }
      didState, turn := newDidState.value, turn + 1;
    }
    ended := turn < turns;
    if ended {
      LookedUpIsNext(p, phase, operations, index, didState);
      FollowsOn(step, startingDidState, didState, LookedUp(p, phase, index, didState), turn, turns);
    }
  }

  method ApplyCreateOperation(p: Primitives, createOperations: seq<AnchoredOperation>)
    returns (didState: Option<DidState>)
    ensures didState == FirstState(p, createOperations)
  {
    didState := None;
    for i := 0 to |createOperations|
      invariant didState.None?
      invariant FirstState(p, createOperations) == FirstState(p, createOperations[i..])
    {
      didState := Transition(p, createOperations[i], None);
      if didState.Some? {
        return;
      }
    }
  }

  method CategorizeOperationsByType(operations: seq<AnchoredOperation>)
    returns (creates: seq<AnchoredOperation>, recovers: seq<AnchoredOperation>, updates: seq<AnchoredOperation>,
             deactivates: seq<AnchoredOperation>)
    ensures creates == OfType(operations, Create) && recovers == OfType(operations, Recover)
    ensures updates == OfType(operations, Update) && deactivates == OfType(operations, Deactivate)
  {
    creates, recovers, updates, deactivates := [], [], [], [];
    for i := 0 to |operations|
      invariant creates == OfType(operations[..i], Create) && recovers == OfType(operations[..i], Recover)
      invariant updates == OfType(operations[..i], Update) && deactivates == OfType(operations[..i], Deactivate)
    {
      assert operations[..i + 1][..i] == operations[..i];
      match operations[i].operationBuffer
      case CreateRequest(_, _) => creates := creates + [operations[i]];
      case RecoverRequest(_, _, _, _) => recovers := recovers + [operations[i]];
      case UpdateRequest(_, _, _, _) => updates := updates + [operations[i]];
      case DeactivateRequest(_, _, _) => deactivates := deactivates + [operations[i]];
    }
    assert operations[..|operations|] == operations;
  }

  /** Resolves a DID from its stored operations, following each loop for a number of turns; `None` if a loop has not
      ended by then. */
  method ResolveOperations(p: Primitives, operations: seq<AnchoredOperation>, turns: nat)
    returns (r: Option<Resolution>)
    ensures r == ResolvedWithin(p, operations, turns)
  {
    var creates, recovers, updates, deactivates := CategorizeOperationsByType(operations);
    var first := ApplyCreateOperation(p, creates);
    if first.None? {
      return Some(DidNotFound);
    }
    var recoveryIndex := ConstructCommitValueToOperationLookupMap(p, recovers + deactivates);
    if recoveryIndex.Err? {
      return Some(Thrown);
    }
    var didState, ended := ApplyOperations(p, Recovery, recovers + deactivates, recoveryIndex.value, first.value, turns);
    FinalOrGoingOn(Step(p, Recovery, recovers + deactivates), first.value, turns);
    if !ended {
      return None;
    }
    if didState.nextRecoveryCommitmentHash.None? {
      return Some(Resolved(didState));
    }
    var updateIndex := ConstructCommitValueToOperationLookupMap(p, updates);
    if updateIndex.Err? {
      return Some(Thrown);
    }
    FinalOrGoingOn(Step(p, Updating, updates), didState, turns);
    didState, ended := ApplyOperations(p, Updating, updates, updateIndex.value, didState, turns);
    return if ended then Some(Resolved(didState)) else None;
  }
}
