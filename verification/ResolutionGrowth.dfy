/** What operations of later transactions do to a resolved DID. */
module ResolutionGrowth {
  import opened Wrappers
  import opened Models
  import opened OperationProcessor
  import opened Iteration
  import opened Resolver
  import opened ResolutionHistory
  import opened ResolutionOrder
  import opened ResolutionTermination

  // ------------------------------------------------------------ one turn

  lemma {:induction false} BucketConcatenation(
    p: Primitives, a: seq<AnchoredOperation>, b: seq<AnchoredOperation>, c: string)
    ensures Bucket(p, a + b, c) == Bucket(p, a, c) + Bucket(p, b, c)
  {
    if b == [] {
      assert a + b == a;
    } else {
      var n := |b| - 1;
      BucketConcatenation(p, a, b[..n], c);
      assert (a + b)[..|a + b| - 1] == a + b[..n] && (a + b)[|a + b| - 1] == b[n];
      var last := if CommitKey(p, b[n]) == Ok(c) then [b[n]] else [];
      assert Bucket(p, a, c) + (Bucket(p, b[..n], c) + last) == Bucket(p, a, c) + Bucket(p, b[..n], c) + last;
    }
  }

  lemma AscendingConcatenation(a: seq<AnchoredOperation>, b: seq<AnchoredOperation>)
    requires Ascending(a) && Ascending(b) && Later(a, b)
    ensures Ascending(a + b)
  {
    forall i, j | 0 <= i < j < |a + b|
      ensures (a + b)[i].transactionNumber <= (a + b)[j].transactionNumber
    {
      if i < |a| <= j {
        assert a[i] in a && b[j - |a|] in b;
      }
    }
  }

  lemma SortedConcatenation(a: seq<AnchoredOperation>, b: seq<AnchoredOperation>)
    requires DistinctNumbers(a + b) && Later(a, b)
    ensures SortedByNumber(a + b) == SortedByNumber(a) + SortedByNumber(b)
  {
    SortedIsAscending(a);
    SortedIsAscending(b);
    SortedIsAscending(a + b);
    AscendingConcatenation(SortedByNumber(a), SortedByNumber(b));
    AscendingIsUnique(SortedByNumber(a + b), SortedByNumber(a) + SortedByNumber(b));
  }

  lemma {:induction false} FirstAppliedStays(
    p: Primitives, operations: seq<AnchoredOperation>, more: seq<AnchoredOperation>, original: DidState,
    current: DidState)
    requires FirstApplied(p, operations, original, current).Some?
    ensures FirstApplied(p, operations + more, original, current) == FirstApplied(p, operations, original, current)
  {
    var next := ApplyOperation(p, operations[0], current);
    if next.lastOperationTransactionNumber == original.lastOperationTransactionNumber {
      FirstAppliedStays(p, operations[1..], more, original, next);
      assert (operations + more)[1..] == operations[1..] + more;
    }
  }

  /** A turn that is possible stays possible, and the same, when later operations are added. */
  lemma NextStateStays(
    p: Primitives, phase: Phase, operations: seq<AnchoredOperation>, more: seq<AnchoredOperation>, didState: DidState)
    requires DistinctNumbers(operations + more) && Later(operations, more)
    requires NextState(p, phase, operations, didState).Some?
    ensures NextState(p, phase, operations + more, didState) == NextState(p, phase, operations, didState)
  {
    var c := Commitment(phase, didState).value;
    var a, b := Bucket(p, operations, c), Bucket(p, more, c);
    BucketConcatenation(p, operations, more, c);
    SortedConcatenation(a, b);
    FirstAppliedStays(p, SortedByNumber(a), SortedByNumber(b), didState, didState);
  }

  lemma {:induction false} NothingOpens(p: Primitives, operations: seq<AnchoredOperation>, c: string)
    requires forall o <- operations :: CommitKey(p, o) != Ok(c)
    ensures Bucket(p, operations, c) == []
  {
    if operations != [] {
      NothingOpens(p, operations[..|operations| - 1], c);
    }
  }

  /** Operations that do not open the next commitment take no part in a turn. */
  lemma OthersTakeNoPart(
    p: Primitives, phase: Phase, operations: seq<AnchoredOperation>, more: seq<AnchoredOperation>, didState: DidState)
    requires forall o <- more :: Commitment(phase, didState).Some? ==>
               CommitKey(p, o) != Ok(Commitment(phase, didState).value)
    ensures NextState(p, phase, operations + more, didState) == NextState(p, phase, operations, didState)
  {
    var commitment := Commitment(phase, didState);
    if commitment.Some? {
      BucketConcatenation(p, operations, more, commitment.value);
      NothingOpens(p, more, commitment.value);
      assert Bucket(p, operations, commitment.value) + [] == Bucket(p, operations, commitment.value);
    }
  }

  // ------------------------------------------------------------ one phase

  lemma PhaseConcatenation(phase: Phase, operations: seq<AnchoredOperation>, more: seq<AnchoredOperation>)
    ensures multiset(PhaseOperations(phase, operations + more))
            == multiset(PhaseOperations(phase, operations) + PhaseOperations(phase, more))
  {
    forall t
      ensures OfType(operations + more, t) == OfType(operations, t) + OfType(more, t)
    {
      OfTypeConcatenation(operations, more, t);
    }
  }

  /** How the operations of a phase grow. */
  lemma PhaseGrows(phase: Phase, operations: seq<AnchoredOperation>, more: seq<AnchoredOperation>)
    requires DistinctNumbers(operations + more) && Later(operations, more)
    ensures var a, b := PhaseOperations(phase, operations), PhaseOperations(phase, more);
            var all := PhaseOperations(phase, operations + more);
            && multiset(all) == multiset(a + b) && DistinctNumbers(all) && DistinctNumbers(a + b)
            && Later(a, b) && forall o <- all :: InPhase(phase, o)
  {
    PhaseConcatenation(phase, operations, more);
    PhaseIsDistinct(operations + more, phase);
    SameMembers(PhaseOperations(phase, operations + more),
                PhaseOperations(phase, operations) + PhaseOperations(phase, more));
  }

  lemma PhaseNextStays(
    p: Primitives, phase: Phase, operations: seq<AnchoredOperation>, more: seq<AnchoredOperation>, didState: DidState)
    requires DistinctNumbers(operations + more) && Later(operations, more)
    requires NextState(p, phase, PhaseOperations(phase, operations), didState).Some?
    ensures NextState(p, phase, PhaseOperations(phase, operations + more), didState)
            == NextState(p, phase, PhaseOperations(phase, operations), didState)
  {
    var a, b := PhaseOperations(phase, operations), PhaseOperations(phase, more);
    PhaseGrows(phase, operations, more);
    NextStateStays(p, phase, a, b, didState);
    SameNextState(p, phase, PhaseOperations(phase, operations + more), a + b, didState);
  }

  /** None of the operations opens the commitment of a state. */
  predicate Unopened(p: Primitives, phase: Phase, more: seq<AnchoredOperation>, didState: DidState) {
    Commitment(phase, didState).Some? ==>
      forall o <- PhaseOperations(phase, more) :: CommitKey(p, o) != Ok(Commitment(phase, didState).value)
  }

  lemma PhaseNextIsNone(
    p: Primitives, phase: Phase, operations: seq<AnchoredOperation>, more: seq<AnchoredOperation>, didState: DidState)
    requires DistinctNumbers(operations + more) && Later(operations, more)
    requires NextState(p, phase, PhaseOperations(phase, operations), didState).None?
    requires Unopened(p, phase, more, didState)
    ensures NextState(p, phase, PhaseOperations(phase, operations + more), didState).None?
  {
    var a, b := PhaseOperations(phase, operations), PhaseOperations(phase, more);
    PhaseGrows(phase, operations, more);
    OthersTakeNoPart(p, phase, a, b, didState);
    SameNextState(p, phase, PhaseOperations(phase, operations + more), a + b, didState);
  }

  lemma IndexableConcatenation(p: Primitives, a: seq<AnchoredOperation>, b: seq<AnchoredOperation>)
    ensures Indexable(p, a + b) <==> Indexable(p, a) && Indexable(p, b)
  {
    if Indexable(p, a + b) {
      forall i | 0 <= i < |a|
        ensures CommitKey(p, a[i]).Ok?
      {
        assert (a + b)[i] == a[i];
      }
      forall i | 0 <= i < |b|
        ensures CommitKey(p, b[i]).Ok?
      {
        assert (a + b)[|a| + i] == b[i];
      }
    }
  }

  lemma PhaseIndexable(p: Primitives, phase: Phase, operations: seq<AnchoredOperation>, more: seq<AnchoredOperation>)
    ensures Indexable(p, PhaseOperations(phase, operations + more))
            <==> Indexable(p, PhaseOperations(phase, operations)) && Indexable(p, PhaseOperations(phase, more))
  {
    var a, b := PhaseOperations(phase, operations), PhaseOperations(phase, more);
    PhaseConcatenation(phase, operations, more);
    SameIndexable(p, PhaseOperations(phase, operations + more), a + b);
    IndexableConcatenation(p, a, b);
  }

  /** A loop ends in a state it reaches and cannot leave. */
  lemma RunReaches(p: Primitives, phase: Phase, operations: seq<AnchoredOperation>, didState: DidState)
    requires Run(p, phase, operations, didState, {}).Some?
    ensures var final := Run(p, phase, operations, didState, {}).value;
            Reaches(Step(p, phase, operations), didState, final) && NextState(p, phase, operations, final).None?
  {
    var turns := |Numbers(operations)| + 1;
    RunIsFinal(p, phase, operations, didState, turns);
    FinalOrGoingOn(Step(p, phase, operations), didState, turns);
  }

  /** What a loop reaches, it still reaches when later operations are added. */
  lemma RunStillReached(
    p: Primitives, phase: Phase, operations: seq<AnchoredOperation>, more: seq<AnchoredOperation>, didState: DidState)
    requires DistinctNumbers(operations + more) && Later(operations, more)
    requires Run(p, phase, PhaseOperations(phase, operations), didState, {}).Some?
    ensures Reaches(Step(p, phase, PhaseOperations(phase, operations + more)), didState,
                    Run(p, phase, PhaseOperations(phase, operations), didState, {}).value)
  {
    var step := Step(p, phase, PhaseOperations(phase, operations));
    var further := Step(p, phase, PhaseOperations(phase, operations + more));
    var final := Run(p, phase, PhaseOperations(phase, operations), didState, {}).value;
    RunReaches(p, phase, PhaseOperations(phase, operations), didState);
    var n: nat :| Turns(step, didState, n) == Some(final);
    forall s | step(s).Some?
      ensures further(s) == step(s)
    {
      PhaseNextStays(p, phase, operations, more, s);
    }
    TurnsExtend(step, further, didState, n);
  }

  /** If both loops end, the longer one goes on from where the shorter one ended. */
  lemma RunGoesOn(
    p: Primitives, phase: Phase, operations: seq<AnchoredOperation>, more: seq<AnchoredOperation>, didState: DidState)
    requires DistinctNumbers(operations + more) && Later(operations, more)
    requires Run(p, phase, PhaseOperations(phase, operations), didState, {}).Some?
    requires Run(p, phase, PhaseOperations(phase, operations + more), didState, {}).Some?
    ensures Reaches(Step(p, phase, PhaseOperations(phase, operations + more)),
                    Run(p, phase, PhaseOperations(phase, operations), didState, {}).value,
                    Run(p, phase, PhaseOperations(phase, operations + more), didState, {}).value)
  {
    var all := PhaseOperations(phase, operations + more);
    var turns := |Numbers(all)| + 1;
    RunStillReached(p, phase, operations, more, didState);
    RunIsFinal(p, phase, all, didState, turns);
    ReachesFinal(Step(p, phase, all), didState, Run(p, phase, PhaseOperations(phase, operations), didState, {}).value,
                 turns);
  }

  /** If no later operation opens the commitment of the state a loop ends in, it still ends there. */
  lemma RunStays(
    p: Primitives, phase: Phase, operations: seq<AnchoredOperation>, more: seq<AnchoredOperation>, didState: DidState)
    requires DistinctNumbers(operations + more) && Later(operations, more)
    requires Run(p, phase, PhaseOperations(phase, operations), didState, {}).Some?
    requires Unopened(p, phase, more, Run(p, phase, PhaseOperations(phase, operations), didState, {}).value)
    ensures Run(p, phase, PhaseOperations(phase, operations + more), didState, {})
            == Run(p, phase, PhaseOperations(phase, operations), didState, {})
  {
    var final := Run(p, phase, PhaseOperations(phase, operations), didState, {}).value;
    var all := PhaseOperations(phase, operations + more);
    RunReaches(p, phase, PhaseOperations(phase, operations), didState);
    RunStillReached(p, phase, operations, more, didState);
    PhaseNextIsNone(p, phase, operations, more, final);
    var turns := ReachedEnd(Step(p, phase, all), didState, final);
    PhaseGrows(phase, operations, more);
    FinalIsRun(p, phase, all, didState, turns);
  }

  // ------------------------------------------------------------ resolution as a whole

  /** The state after recoveries and deactivations. */
  function RecoveredState(p: Primitives, operations: seq<AnchoredOperation>): DidState
    requires Terminates(p, operations) && Resolve(p, operations).Resolved?
  {
    var first := FirstState(p, OfType(operations, Create)).value;
    Run(p, Recovery, PhaseOperations(Recovery, operations), first, {}).value
  }

  /** Updates leave the recovery commitment as the recoveries made it. */
  lemma ResolvedKeepsRecovery(p: Primitives, operations: seq<AnchoredOperation>)
    requires Terminates(p, operations) && Resolve(p, operations).Resolved?
    ensures Resolve(p, operations).didState.nextRecoveryCommitmentHash
            == RecoveredState(p, operations).nextRecoveryCommitmentHash
  {
    var recovered, updates := RecoveredState(p, operations), PhaseOperations(Updating, operations);
    if recovered.nextRecoveryCommitmentHash.Some? {
      RunReaches(p, Updating, updates, recovered);
      var n: nat :| Turns(Step(p, Updating, updates), recovered, n) == Some(Resolve(p, operations).didState);
      RecoveryCommitmentStays(p, updates, recovered, n);
    }
  }

  /** Resolution is append-only: with operations of later transactions added it starts from the same create, comes
      through the state it was recovered to before, and unless it goes on from there, comes through the state it was
      resolved to before. */
  lemma ResolutionIsAppendOnly(p: Primitives, operations: seq<AnchoredOperation>, more: seq<AnchoredOperation>)
    requires DistinctNumbers(operations + more) && Later(operations, more)
    requires Terminates(p, operations) && Resolve(p, operations).Resolved?
    requires Terminates(p, operations + more) && Resolve(p, operations + more).Resolved?
    ensures FirstState(p, OfType(operations + more, Create)) == FirstState(p, OfType(operations, Create))
    ensures var before, after := RecoveredState(p, operations), RecoveredState(p, operations + more);
            && Reaches(Step(p, Recovery, PhaseOperations(Recovery, operations + more)), before, after)
            && (before == after ==>
                  Reaches(Step(p, Updating, PhaseOperations(Updating, operations + more)),
                          Resolve(p, operations).didState, Resolve(p, operations + more).didState))
  {
    CreateStays(p, operations, more);
    RunGoesOn(p, Recovery, operations, more, FirstState(p, OfType(operations, Create)).value);
    var before, after := RecoveredState(p, operations), RecoveredState(p, operations + more);
    if before == after {
      if before.nextRecoveryCommitmentHash.Some? {
        RunGoesOn(p, Updating, operations, more, before);
      } else {
        assert Turns(Step(p, Updating, PhaseOperations(Updating, operations + more)), before, 0) == Some(before);
      }
    }
  }

  /** Later operations that open neither commitment of the resolved state leave it as it is, if and only if they can be
      indexed; otherwise resolution throws. Those that would update a deactivated DID are not even indexed. */
  lemma UnrelatedOperationsChangeNothing(
    p: Primitives, operations: seq<AnchoredOperation>, more: seq<AnchoredOperation>, didState: DidState)
    requires DistinctNumbers(operations + more) && Later(operations, more)
    requires Terminates(p, operations) && Resolve(p, operations) == Resolved(didState)
    requires Unopened(p, Recovery, more, didState) && Unopened(p, Updating, more, didState)
    ensures Terminates(p, operations + more)
    ensures Resolve(p, operations + more)
            == if && Indexable(p, PhaseOperations(Recovery, more))
                  && (didState.nextRecoveryCommitmentHash.Some? ==> Indexable(p, PhaseOperations(Updating, more)))
               then Resolved(didState) else Thrown
  {
    var first := FirstState(p, OfType(operations, Create)).value;
    var recovered := RecoveredState(p, operations);
    CreateStays(p, operations, more);
    PhaseIndexable(p, Recovery, operations, more);
    PhaseIndexable(p, Updating, operations, more);
    ResolvedKeepsRecovery(p, operations);
    RunStays(p, Recovery, operations, more, first);
    if recovered.nextRecoveryCommitmentHash.Some? {
      RunStays(p, Updating, operations, more, recovered);
    }
  }

  /** Once a DID is deactivated, nothing added later makes it resolve to another state; but a later recover or
      deactivate that cannot be indexed makes its resolution throw. */
  lemma DeactivatedForever(
    p: Primitives, operations: seq<AnchoredOperation>, more: seq<AnchoredOperation>, didState: DidState)
    requires DistinctNumbers(operations + more) && Later(operations, more)
    requires Terminates(p, operations) && Resolve(p, operations) == Resolved(didState)
    requires didState.nextRecoveryCommitmentHash.None?
    ensures Terminates(p, operations + more)
    ensures Resolve(p, operations + more)
            == if Indexable(p, PhaseOperations(Recovery, more)) then Resolved(didState) else Thrown
  {
    CreateStays(p, operations, more);
    PhaseIndexable(p, Recovery, operations, more);
    ResolvedKeepsRecovery(p, operations);
    RunStays(p, Recovery, operations, more, FirstState(p, OfType(operations, Create)).value);
  }
}
