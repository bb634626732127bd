/** A condition on the operations under which resolution ends and no commitment is opened twice. */
module ResolutionProgress {
  import opened Wrappers
  import opened Models
  import opened Multihash
  import opened Operations
  import opened OperationProcessor
  import opened Iteration
  import opened Resolver
  import opened ResolutionHistory
  import opened ResolutionTermination

  /** The encoding of a commitment that operations are indexed under. */
  function Normal(p: Primitives, c: string): string {
    match p.decodeMultihash(c)
    case None => c
    case Some(digest) => p.encodeMultihash(digest)
  }

  /** The commitment that an operation makes in place of the one it opens. */
  function Makes(p: Primitives, operation: AnchoredOperation): Option<string> {
    match operation.operationBuffer
    case CreateRequest(_, _) => None
    case RecoverRequest(_, _, _, _) =>
      var parsed := ParseRecover(p, operation.operationBuffer);
      if parsed.Ok? then Some(parsed.value.signedData.recoveryCommitment) else None
    case DeactivateRequest(_, _, _) => None
    case UpdateRequest(_, _, _, delta) => if delta.Some? then Some(delta.value.updateCommitment) else None
  }

  /** Every operation makes a commitment of a higher rank than the one it opens: commitments do not go round. */
  predicate Rising(p: Primitives, operations: seq<AnchoredOperation>, rank: string -> nat) {
    forall o <- operations ::
      CommitKey(p, o).Ok? && Makes(p, o).Some? ==>
        rank(CommitKey(p, o).value) < rank(Normal(p, Makes(p, o).value))
  }

  /** A valid operation opens the commitment of the state and leaves the one it makes. */
  lemma ValidOperationOpens(p: Primitives, phase: Phase, operation: AnchoredOperation, didState: DidState)
    requires Lawful(p) && InPhase(phase, operation) && Valid(p, operation, didState)
    ensures Commitment(phase, didState).Some?
    ensures CommitKey(p, operation) == Ok(Normal(p, Commitment(phase, didState).value))
    ensures var next := Commitment(phase, ApplyOperation(p, operation, didState));
            next.Some? ==> next == Makes(p, operation)
  {
    match operation.operationBuffer
    case UpdateRequest(_, _, _, _) =>
      var o := ParseUpdate(p, operation.operationBuffer).value;
      assert p.decodeMultihash(o.revealValue) == Some(p.digest(o.signedData.updateKey));
    case RecoverRequest(_, _, _, _) =>
      var o := ParseRecover(p, operation.operationBuffer).value;
      assert p.decodeMultihash(o.revealValue) == Some(p.digest(o.signedData.recoveryKey));
    case DeactivateRequest(_, _, _) =>
      var o := ParseDeactivate(p, operation.operationBuffer).value;
      assert p.decodeMultihash(o.revealValue) == Some(p.digest(o.signedData.recoveryKey));
  }

  /** The state is beyond a rank: nothing of that rank or below can be opened any more. */
  predicate Beyond(p: Primitives, phase: Phase, rank: string -> nat, r: int, didState: DidState) {
    var c := Commitment(phase, didState);
    c.Some? ==> r < rank(Normal(p, c.value))
  }

  lemma ApplyingRises(
    p: Primitives, phase: Phase, operations: seq<AnchoredOperation>, rank: string -> nat, operation: AnchoredOperation,
    didState: DidState)
    requires Lawful(p) && Rising(p, operations, rank) && operation in operations
    requires InPhase(phase, operation) && Valid(p, operation, didState)
    ensures Commitment(phase, didState).Some?
    ensures CommitKey(p, operation) == Ok(Normal(p, Commitment(phase, didState).value))
    ensures Beyond(p, phase, rank, rank(Normal(p, Commitment(phase, didState).value)),
                   ApplyOperation(p, operation, didState))
  {
    ValidOperationOpens(p, phase, operation, didState);
  }

  // ------------------------------------------------------------ the scan opens nothing twice

  lemma {:induction false} RisingHistoryEnds(
    p: Primitives, phase: Phase, operations: seq<AnchoredOperation>, rank: string -> nat, didState: DidState,
    used: set<string>)
    requires Lawful(p) && Rising(p, operations, rank) && forall o <- operations :: InPhase(phase, o)
    requires forall k <- used :: Beyond(p, phase, rank, rank(k), didState)
    ensures History(p, operations, didState, used).Some?
    decreases Openable(p, operations) - used
  {
    var lowest := LowestValid(p, operations, didState);
    if lowest.Some? {
      ApplyingRises(p, phase, operations, rank, lowest.value, didState);
      var key := CommitKey(p, lowest.value).value;
      RisingHistoryEnds(p, phase, operations, rank, ApplyOperation(p, lowest.value, didState), used + {key});
    }
  }

  // ------------------------------------------------------------ the loops end

  lemma {:induction false} FirstAppliedRises(
    p: Primitives, phase: Phase, operations: seq<AnchoredOperation>, rank: string -> nat, r: int, original: DidState,
    current: DidState)
    requires Lawful(p) && Rising(p, operations, rank) && forall o <- operations :: InPhase(phase, o)
    requires current.lastOperationTransactionNumber == original.lastOperationTransactionNumber
    requires Beyond(p, phase, rank, r - 1, current)
    requires FirstApplied(p, operations, original, current).Some?
    ensures Beyond(p, phase, rank, r, FirstApplied(p, operations, original, current).value)
  {
    var next := ApplyOperation(p, operations[0], current);
    if Valid(p, operations[0], current) {
      ApplyingRises(p, phase, operations, rank, operations[0], current);
    }
    if next.lastOperationTransactionNumber == original.lastOperationTransactionNumber {
      FirstAppliedRises(p, phase, operations[1..], rank, r, original, next);
    }
  }

  /** Every turn of a loop leads to a commitment of a higher rank, if to any. */
  lemma TurnRises(
    p: Primitives, phase: Phase, operations: seq<AnchoredOperation>, rank: string -> nat, didState: DidState)
    requires Lawful(p) && Rising(p, operations, rank) && forall o <- operations :: InPhase(phase, o)
    requires NextState(p, phase, operations, didState).Some?
    ensures Commitment(phase, didState).Some?
    ensures Beyond(p, phase, rank, rank(Normal(p, Commitment(phase, didState).value)),
                   NextState(p, phase, operations, didState).value)
  {
    var c := Commitment(phase, didState).value;
    var bucket := Bucket(p, operations, c);
    var sorted := SortedByNumber(bucket);
    SortedIsAscending(bucket);
    forall o | o in sorted
      ensures o in operations
    {
      assert o in bucket;
    }
    FirstAppliedRises(p, phase, sorted, rank, rank(Normal(p, c)), didState, didState);
  }

  /** So do any number of turns. */
  lemma {:induction false} TurnsRise(
    p: Primitives, phase: Phase, operations: seq<AnchoredOperation>, rank: string -> nat, start: DidState, m: nat,
    n: nat)
    requires Lawful(p) && Rising(p, operations, rank) && forall o <- operations :: InPhase(phase, o)
    requires m < n && Turns(Step(p, phase, operations), start, n).Some?
    ensures Turns(Step(p, phase, operations), start, m).Some?
    ensures var c := Commitment(phase, Turns(Step(p, phase, operations), start, m).value);
            c.Some? && Beyond(p, phase, rank, rank(Normal(p, c.value)),
                              Turns(Step(p, phase, operations), start, n).value)
  {
    var step := Step(p, phase, operations);
    var before, after := LastTurn(step, start, n);
    TurnRises(p, phase, operations, rank, before);
    if m < n - 1 {
      TurnsRise(p, phase, operations, rank, start, m, n - 1);
    }
  }

  /** A loop over operations whose commitments do not go round ends. */
  lemma RisingRunEnds(
    p: Primitives, phase: Phase, operations: seq<AnchoredOperation>, rank: string -> nat, didState: DidState)
    requires Lawful(p) && DistinctNumbers(operations)
    requires Rising(p, operations, rank) && forall o <- operations :: InPhase(phase, o)
    ensures Run(p, phase, operations, didState, {}).Some?
  {
    var step := Step(p, phase, operations);
    StepIsBounded(p, phase, operations);
    RunIsChain(p, phase, operations, didState, {});
    if Run(p, phase, operations, didState, {}).None? {
      var m, n := ChainRepeats(step, Number, Numbers(operations), didState, {});
      SameTurnsAlike(p, phase, operations, didState, m, n);
      TurnsRise(p, phase, operations, rank, didState, m, n);
      assert false;
    }
  }

  // ------------------------------------------------------------ resolution as a whole

  /** Resolution ends if commitments do not go round, however they are encoded. */
  lemma RisingTerminates(p: Primitives, operations: seq<AnchoredOperation>, recoveryRank: string -> nat,
                         updateRank: string -> nat)
    requires Lawful(p) && DistinctNumbers(operations)
    requires Rising(p, PhaseOperations(Recovery, operations), recoveryRank)
    requires Rising(p, PhaseOperations(Updating, operations), updateRank)
    ensures Terminates(p, operations)
  {
    var first := FirstState(p, OfType(operations, Create));
    if first.Some? {
      RisingRunEnds(p, Recovery, PhaseOperations(Recovery, operations), recoveryRank, first.value);
      var recovered := Run(p, Recovery, PhaseOperations(Recovery, operations), first.value, {}).value;
      RisingRunEnds(p, Updating, PhaseOperations(Updating, operations), updateRank, recovered);
    }
  }

  /** If moreover commitments are canonically encoded, the resolver does what repeated linear scans do. */
  lemma RisingResolvesAsScanned(p: Primitives, operations: seq<AnchoredOperation>, recoveryRank: string -> nat,
                                updateRank: string -> nat)
    requires Regular(p, operations)
    requires Rising(p, PhaseOperations(Recovery, operations), recoveryRank)
    requires Rising(p, PhaseOperations(Updating, operations), updateRank)
    ensures FirstState(p, OfType(operations, Create)).Some? ==> Scan(p, operations).Some?
    ensures Terminates(p, operations) && Resolve(p, operations) == ScanResolution(p, operations)
  {
    var first := FirstState(p, OfType(operations, Create));
    if first.Some? {
      RisingHistoryEnds(p, Recovery, PhaseOperations(Recovery, operations), recoveryRank, first.value, {});
      var recoveries := History(p, PhaseOperations(Recovery, operations), first.value, {}).value;
      RisingHistoryEnds(p, Updating, PhaseOperations(Updating, operations), updateRank,
                        Replay(p, first.value, recoveries), {});
    }
    ResolverRefinesScan(p, operations);
  }
}
