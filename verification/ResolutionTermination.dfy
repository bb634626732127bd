/** When the resolver's loops end. */
module ResolutionTermination {
  import opened Wrappers
  import opened Models
  import opened OperationProcessor
  import opened Iteration
  import opened Resolver
  import opened ResolutionHistory

  // ------------------------------------------------------------ states that behave alike

  /** The states differ in their documents only. */
  predicate Alike(a: DidState, b: DidState) {
    && a.nextRecoveryCommitmentHash == b.nextRecoveryCommitmentHash
    && a.nextUpdateCommitmentHash == b.nextUpdateCommitmentHash
    && a.lastOperationTransactionNumber == b.lastOperationTransactionNumber
  }

  lemma ApplyAlike(p: Primitives, operation: AnchoredOperation, a: DidState, b: DidState)
    requires Alike(a, b)
    ensures Alike(ApplyOperation(p, operation, a), ApplyOperation(p, operation, b))
  {
  }

  lemma {:induction false} FirstAppliedAlike(
    p: Primitives, operations: seq<AnchoredOperation>, a: DidState, b: DidState, currentA: DidState, currentB: DidState)
    requires Alike(a, b) && Alike(currentA, currentB)
    ensures BothOrNeither(Alike, FirstApplied(p, operations, a, currentA), FirstApplied(p, operations, b, currentB))
  {
    if operations != [] {
      ApplyAlike(p, operations[0], currentA, currentB);
      var nextA, nextB := ApplyOperation(p, operations[0], currentA), ApplyOperation(p, operations[0], currentB);
      FirstAppliedAlike(p, operations[1..], a, b, nextA, nextB);
    }
  }

  /** The document never decides how a loop goes on. */
  lemma NextStateAlike(p: Primitives, phase: Phase, operations: seq<AnchoredOperation>, a: DidState, b: DidState)
    requires Alike(a, b)
    ensures BothOrNeither(Alike, NextState(p, phase, operations, a), NextState(p, phase, operations, b))
  {
    var commitment := Commitment(phase, a);
    assert commitment == Commitment(phase, b);
    if commitment.Some? {
      FirstAppliedAlike(p, SortedByNumber(Bucket(p, operations, commitment.value)), a, b, a, b);
    }
  }

  // ------------------------------------------------------------ the operation behind a turn

  /** The operation is what gave the state its number and commitments. */
  predicate MadeBy(p: Primitives, operation: AnchoredOperation, before: DidState, after: DidState) {
    && Transition(p, operation, Some(before)) == Some(after)
    && after.lastOperationTransactionNumber == operation.transactionNumber
  }

  lemma {:induction false} AppliedIsMade(
    p: Primitives, phase: Phase, operations: seq<AnchoredOperation>, original: DidState, current: DidState)
    returns (operation: AnchoredOperation, before: DidState)
    requires current.lastOperationTransactionNumber == original.lastOperationTransactionNumber
    requires forall o <- operations :: InPhase(phase, o)
    requires FirstApplied(p, operations, original, current).Some?
    ensures operation in operations
    ensures MadeBy(p, operation, before, FirstApplied(p, operations, original, current).value)
    ensures phase == Updating ==> before.nextRecoveryCommitmentHash == current.nextRecoveryCommitmentHash
  {
    var next := ApplyOperation(p, operations[0], current);
    assert InPhase(phase, operations[0]);
    if next.lastOperationTransactionNumber != original.lastOperationTransactionNumber {
      operation, before := operations[0], current;
    } else {
      operation, before := AppliedIsMade(p, phase, operations[1..], original, next);
    }
  }

  lemma TurnIsMade(p: Primitives, phase: Phase, operations: seq<AnchoredOperation>, didState: DidState)
    returns (operation: AnchoredOperation, before: DidState)
    requires forall o <- operations :: InPhase(phase, o)
    requires NextState(p, phase, operations, didState).Some?
    ensures operation in operations
    ensures MadeBy(p, operation, before, NextState(p, phase, operations, didState).value)
    ensures phase == Updating ==> before.nextRecoveryCommitmentHash == didState.nextRecoveryCommitmentHash
  {
    var bucket := Bucket(p, operations, Commitment(phase, didState).value);
    SortedIsAscending(bucket);
    var sorted := SortedByNumber(bucket);
    forall o | o in sorted
      ensures o in operations && InPhase(phase, o)
    {
      assert o in bucket;
    }
    operation, before := AppliedIsMade(p, phase, sorted, didState, didState);
  }

  lemma MadeAlike(
    p: Primitives, phase: Phase, operation: AnchoredOperation, a: DidState, b: DidState, r: DidState, s: DidState)
    requires InPhase(phase, operation) && MadeBy(p, operation, a, r) && MadeBy(p, operation, b, s)
    requires phase == Updating ==> a.nextRecoveryCommitmentHash == b.nextRecoveryCommitmentHash
    ensures Alike(r, s)
    ensures phase == Updating ==> r.nextRecoveryCommitmentHash == a.nextRecoveryCommitmentHash
  {
  }

  /** Two turns that apply the operation of one transaction lead to states that behave alike. */
  lemma SameNumberAlike(
    p: Primitives, phase: Phase, operations: seq<AnchoredOperation>, a: DidState, b: DidState, r: DidState, s: DidState)
    requires DistinctNumbers(operations) && (forall o <- operations :: InPhase(phase, o))
    requires phase == Updating ==> a.nextRecoveryCommitmentHash == b.nextRecoveryCommitmentHash
    requires NextState(p, phase, operations, a) == Some(r) && NextState(p, phase, operations, b) == Some(s)
    requires r.lastOperationTransactionNumber == s.lastOperationTransactionNumber
    ensures Alike(r, s)
  {
    var x, before := TurnIsMade(p, phase, operations, a);
    var y, before' := TurnIsMade(p, phase, operations, b);
    assert x == y;
    MadeAlike(p, phase, x, before, before', r, s);
  }

  // ------------------------------------------------------------ the loop ends or goes round

  function Number(didState: DidState): nat {
    didState.lastOperationTransactionNumber
  }

  lemma StepIsBounded(p: Primitives, phase: Phase, operations: seq<AnchoredOperation>)
    ensures Bounded(Step(p, phase, operations), Number, Numbers(operations))
  {
    forall s | Step(p, phase, operations)(s).Some?
      ensures Number(Step(p, phase, operations)(s).value) in Numbers(operations)
    {
      NextNumber(p, phase, operations, s);
    }
  }

  lemma StepRespectsAlike(p: Primitives, phase: Phase, operations: seq<AnchoredOperation>)
    ensures Respects(Step(p, phase, operations), Alike)
  {
    forall a, b | Alike(a, b)
      ensures BothOrNeither(Alike, Step(p, phase, operations)(a), Step(p, phase, operations)(b))
    {
      NextStateAlike(p, phase, operations, a, b);
    }
  }

  lemma {:induction false} RunIsChain(
    p: Primitives, phase: Phase, operations: seq<AnchoredOperation>, didState: DidState, applied: set<nat>)
    requires Bounded(Step(p, phase, operations), Number, Numbers(operations))
    ensures Run(p, phase, operations, didState, applied)
            == Chain(Step(p, phase, operations), Number, Numbers(operations), didState, applied)
    decreases Numbers(operations) - applied
  {
    var next := Step(p, phase, operations)(didState);
    if next.Some? && Number(next.value) !in applied {
      RunIsChain(p, phase, operations, next.value, applied + {Number(next.value)});
    }
  }

  /** Updates leave the recovery commitment alone. */
  lemma RecoveryCommitmentStays(p: Primitives, operations: seq<AnchoredOperation>, start: DidState, n: nat)
    requires forall o <- operations :: InPhase(Updating, o)
    requires Turns(Step(p, Updating, operations), start, n).Some?
    ensures Turns(Step(p, Updating, operations), start, n).value.nextRecoveryCommitmentHash
            == start.nextRecoveryCommitmentHash
  {
    var step := Step(p, Updating, operations);
    var kept := (s: DidState) => s.nextRecoveryCommitmentHash == start.nextRecoveryCommitmentHash;
    forall s | kept(s) && step(s).Some?
      ensures kept(step(s).value)
    {
      var o, before := TurnIsMade(p, Updating, operations, s);
      MadeAlike(p, Updating, o, before, before, step(s).value, step(s).value);
    }
    TurnsKeep(step, kept, start, n);
  }

  /** The last of a number of turns. */
  lemma LastStep(p: Primitives, phase: Phase, operations: seq<AnchoredOperation>, start: DidState, n: nat)
    returns (before: DidState, after: DidState)
    requires (forall o <- operations :: InPhase(phase, o)) && 1 <= n
    requires Turns(Step(p, phase, operations), start, n).Some?
    ensures Turns(Step(p, phase, operations), start, n) == Some(after)
    ensures NextState(p, phase, operations, before) == Some(after)
    ensures phase == Updating ==> before.nextRecoveryCommitmentHash == start.nextRecoveryCommitmentHash
  {
    before, after := LastTurn(Step(p, phase, operations), start, n);
    if phase == Updating {
      RecoveryCommitmentStays(p, operations, start, n - 1);
    }
  }

  lemma SameTurnsAlike(
    p: Primitives, phase: Phase, operations: seq<AnchoredOperation>, start: DidState, m: nat, n: nat)
    requires DistinctNumbers(operations) && forall o <- operations :: InPhase(phase, o)
    requires 1 <= m < n && SameNumber(Step(p, phase, operations), Number, start, m, n)
    ensures Alike(Turns(Step(p, phase, operations), start, m).value, Turns(Step(p, phase, operations), start, n).value)
  {
    var a, r := LastStep(p, phase, operations, start, m);
    var b, s := LastStep(p, phase, operations, start, n);
    SameNumberAlike(p, phase, operations, a, b, r, s);
  }

  /** A loop of the resolver ends if and only if it does not apply an operation twice. */
  lemma LoopEndsExactly(p: Primitives, phase: Phase, operations: seq<AnchoredOperation>, didState: DidState)
    requires DistinctNumbers(operations) && forall o <- operations :: InPhase(phase, o)
    ensures Run(p, phase, operations, didState, {}).Some?
            <==> exists n: nat :: Turns(Step(p, phase, operations), didState, n).None?
  {
    var step := Step(p, phase, operations);
    StepIsBounded(p, phase, operations);
    StepRespectsAlike(p, phase, operations);
    RunIsChain(p, phase, operations, didState, {});
    forall m, n | 1 <= m < n && SameNumber(step, Number, didState, m, n)
      ensures Alike(Turns(step, didState, m).value, Turns(step, didState, n).value)
    {
      SameTurnsAlike(p, phase, operations, didState, m, n);
    }
    EndsExactly(step, Number, Numbers(operations), Alike, didState);
  }

  // ------------------------------------------------------------ resolution as a whole

  /** A loop that applies no number twice has ended after one turn more than there are numbers. */
  lemma RunIsFinal(p: Primitives, phase: Phase, operations: seq<AnchoredOperation>, didState: DidState, turns: nat)
    requires Run(p, phase, operations, didState, {}).Some? && |Numbers(operations)| < turns
    ensures Final(Step(p, phase, operations), didState, turns) == Run(p, phase, operations, didState, {})
  {
    StepIsBounded(p, phase, operations);
    RunIsChain(p, phase, operations, didState, {});
    assert Numbers(operations) - {} == Numbers(operations);
    ChainIsFinal(Step(p, phase, operations), Number, Numbers(operations), didState, {}, turns);
  }

  /** Wherever a loop ends, it is where `Run` says. */
  lemma FinalIsRun(p: Primitives, phase: Phase, operations: seq<AnchoredOperation>, didState: DidState, turns: nat)
    requires DistinctNumbers(operations) && forall o <- operations :: InPhase(phase, o)
    ensures var final, run := Final(Step(p, phase, operations), didState, turns),
                              Run(p, phase, operations, didState, {});
            && (final.Some? ==> final == run)
            && (run.Some? && |Numbers(operations)| < turns ==> final == run)
  {
    var step := Step(p, phase, operations);
    FinalOrGoingOn(step, didState, turns);
    LoopEndsExactly(p, phase, operations, didState);
    if Run(p, phase, operations, didState, {}).Some? {
      var enough := turns + |Numbers(operations)| + 1;
      RunIsFinal(p, phase, operations, didState, enough);
      if |Numbers(operations)| < turns {
        RunIsFinal(p, phase, operations, didState, turns);
      } else if Final(step, didState, turns).Some? {
        FinalStays(step, didState, turns, enough);
      }
    }
  }

  lemma FewerPhaseNumbers(operations: seq<AnchoredOperation>, phase: Phase)
    ensures |Numbers(PhaseOperations(phase, operations))| <= |Numbers(operations)|
  {
    var some, all := Numbers(PhaseOperations(phase, operations)), Numbers(operations);
    assert all == some + (all - some);
  }

  /** Following both loops for a number of turns comes to what `Resolve` says or to nothing, and after more turns than
      there are operations it comes to nothing only if resolution does not end. */
  lemma ResolvedWithinExactly(p: Primitives, operations: seq<AnchoredOperation>, turns: nat)
    requires DistinctNumbers(operations)
    ensures ResolvedWithin(p, operations, turns).Some? ==>
              Terminates(p, operations) && ResolvedWithin(p, operations, turns) == Some(Resolve(p, operations))
    ensures Terminates(p, operations) && |operations| < turns ==> ResolvedWithin(p, operations, turns).Some?
  {
    var first := FirstState(p, OfType(operations, Create));
    if first.Some? {
      FewNumbers(operations);
      FewerPhaseNumbers(operations, Recovery);
      FewerPhaseNumbers(operations, Updating);
      FinalIsRun(p, Recovery, PhaseOperations(Recovery, operations), first.value, turns);
      var recovered := Run(p, Recovery, PhaseOperations(Recovery, operations), first.value, {});
      if recovered.Some? {
        FinalIsRun(p, Updating, PhaseOperations(Updating, operations), recovered.value, turns);
      }
    }
  }

  lemma {:induction false} FewNumbers(operations: seq<AnchoredOperation>)
    ensures |Numbers(operations)| <= |operations|
  {
    if operations != [] {
      var n := |operations| - 1;
      FewNumbers(operations[..n]);
      assert Numbers(operations) == Numbers(operations[..n]) + {operations[n].transactionNumber};
    }
  }

  /** Resolution ends if and only if neither of its loops applies the operation of one transaction twice. */
  lemma ResolutionEndsExactly(p: Primitives, operations: seq<AnchoredOperation>)
    requires DistinctNumbers(operations)
    ensures Terminates(p, operations) <==> exists turns: nat :: ResolvedWithin(p, operations, turns).Some?
  {
    ResolvedWithinExactly(p, operations, |operations| + 1);
    forall turns: nat | ResolvedWithin(p, operations, turns).Some?
      ensures Terminates(p, operations)
    {
      ResolvedWithinExactly(p, operations, turns);
    }
  }
}
