/** Resolution by linear scan, and what the indexed resolver owes to it. */
module ResolutionHistory {
  import opened Wrappers
  import opened Models
  import opened Multihash
  import opened Operations
  import opened OperationProcessor
  import opened Resolver

  predicate Valid(p: Primitives, operation: AnchoredOperation, didState: DidState) {
    Transition(p, operation, Some(didState)).Some?
  }

  /** The lowest-numbered operation that is valid on a state, by linear scan. */
  function LowestValid(p: Primitives, operations: seq<AnchoredOperation>, didState: DidState)
    : (r: Option<AnchoredOperation>)
    ensures r.None? ==> forall o <- operations :: !Valid(p, o, didState)
    ensures r.Some? ==>
              && r.value in operations && Valid(p, r.value, didState)
              && forall o <- operations :: Valid(p, o, didState) ==> r.value.transactionNumber <= o.transactionNumber
  {
    if operations == [] then None
    else
      var rest := LowestValid(p, operations[1..], didState);
      if Valid(p, operations[0], didState)
         && (rest.None? || operations[0].transactionNumber <= rest.value.transactionNumber) then Some(operations[0])
      else rest
  }

  lemma ValidOperationIsIndexed(p: Primitives, operation: AnchoredOperation, didState: DidState)
    requires Valid(p, operation, didState)
    ensures CommitKey(p, operation).Ok?
  {
  }

  /** The commitments that some operation opens. */
  function Openable(p: Primitives, operations: seq<AnchoredOperation>): set<string> {
    set o | o in operations && CommitKey(p, o).Ok? :: CommitKey(p, o).value
  }

  /** The operations that repeated linear scans apply, or `None` if one of them opens a commitment for the second
      time. `used` holds the commitments opened before. */
  function History(p: Primitives, operations: seq<AnchoredOperation>, didState: DidState, used: set<string>)
    : Option<seq<AnchoredOperation>>
    decreases Openable(p, operations) - used
  {
    var next := LowestValid(p, operations, didState);
    if next.None? then Some([])
    else
      ValidOperationIsIndexed(p, next.value, didState);
      var key := CommitKey(p, next.value).value;
      if key in used then None
      else
        var rest := History(p, operations, Transition(p, next.value, Some(didState)).value, used + {key});
        if rest.None? then None else Some([next.value] + rest.value)
  }

  /** The state after a list of operations. */
  function Replay(p: Primitives, didState: DidState, history: seq<AnchoredOperation>): DidState
    decreases |history|
  {
    if history == [] then didState else Replay(p, ApplyOperation(p, history[0], didState), history[1..])
  }

  /** The first link of a history, and the rest of it. */
  lemma HistoryStep(p: Primitives, operations: seq<AnchoredOperation>, didState: DidState, used: set<string>)
    requires History(p, operations, didState, used).Some? && History(p, operations, didState, used).value != []
    ensures var h := History(p, operations, didState, used).value;
            && LowestValid(p, operations, didState) == Some(h[0])
            && CommitKey(p, h[0]).Ok? && CommitKey(p, h[0]).value in Openable(p, operations) - used
            && Transition(p, h[0], Some(didState)) == Some(ApplyOperation(p, h[0], didState))
            && History(p, operations, ApplyOperation(p, h[0], didState), used + {CommitKey(p, h[0]).value})
               == Some(h[1..])
  {
    ValidOperationIsIndexed(p, LowestValid(p, operations, didState).value, didState);
  }

  /** At the end of a history no operation is valid. */
  lemma {:induction false} HistoryIsMaximal(
    p: Primitives, operations: seq<AnchoredOperation>, didState: DidState, used: set<string>)
    requires History(p, operations, didState, used).Some?
    ensures forall o <- operations ::
              !Valid(p, o, Replay(p, didState, History(p, operations, didState, used).value))
    decreases |History(p, operations, didState, used).value|
  {
    var h := History(p, operations, didState, used).value;
    if h != [] {
      HistoryStep(p, operations, didState, used);
      HistoryIsMaximal(p, operations, ApplyOperation(p, h[0], didState), used + {CommitKey(p, h[0]).value});
    }
  }

  /** Every link of a history is the lowest-numbered operation that is valid after the links before it, and opens a
      commitment that was not opened before. */
  lemma {:induction false} HistoryIsSound(
    p: Primitives, operations: seq<AnchoredOperation>, didState: DidState, used: set<string>, i: nat)
    requires History(p, operations, didState, used).Some?
    requires i < |History(p, operations, didState, used).value|
    ensures var h := History(p, operations, didState, used).value;
            && LowestValid(p, operations, Replay(p, didState, h[..i])) == Some(h[i])
            && CommitKey(p, h[i]).Ok? && CommitKey(p, h[i]).value !in used
            && forall j :: 0 <= j < i ==> CommitKey(p, h[j]) != CommitKey(p, h[i])
    decreases i
  {
    var h := History(p, operations, didState, used).value;
    HistoryStep(p, operations, didState, used);
    if i > 0 {
      HistoryIsSound(p, operations, ApplyOperation(p, h[0], didState), used + {CommitKey(p, h[0]).value}, i - 1);
      assert h[..i][1..] == h[1..][..i - 1];
      forall j | 0 <= j < i
        ensures CommitKey(p, h[j]) != CommitKey(p, h[i])
      {
        if j > 0 {
          assert h[1..][j - 1] == h[j];
        }
      }
    }
  }

  // ------------------------------------------------------------ hypotheses

  /** No two operations of a DID share a transaction. */
  predicate DistinctNumbers(operations: seq<AnchoredOperation>) {
    forall a, b :: a in operations && b in operations && a.transactionNumber == b.transactionNumber ==> a == b
  }

  predicate CanonicalCommitment(p: Primitives, c: Option<string>) {
    c.Some? ==> Canonical(p, c.value)
  }

  predicate CanonicalState(p: Primitives, didState: DidState) {
    && CanonicalCommitment(p, didState.nextRecoveryCommitmentHash)
    && CanonicalCommitment(p, didState.nextUpdateCommitmentHash)
  }

  predicate CanonicalDelta(p: Primitives, delta: Option<Delta>) {
    delta.Some? ==> Canonical(p, delta.value.updateCommitment)
  }

  /** The commitments an operation makes are canonically encoded. */
  predicate CanonicalOperation(p: Primitives, operation: AnchoredOperation) {
    match operation.operationBuffer
    case CreateRequest(suffixData, delta) => Canonical(p, suffixData.recoveryCommitment) && CanonicalDelta(p, delta)
    case RecoverRequest(_, _, _, delta) =>
      && CanonicalDelta(p, delta)
      && (ParseRecover(p, operation.operationBuffer).Ok? ==>
            Canonical(p, ParseRecover(p, operation.operationBuffer).value.signedData.recoveryCommitment))
    case DeactivateRequest(_, _, _) => true
    case UpdateRequest(_, _, _, delta) => CanonicalDelta(p, delta)
  }

  predicate CanonicalOperations(p: Primitives, operations: seq<AnchoredOperation>) {
    forall o <- operations :: CanonicalOperation(p, o)
  }

  lemma TransitionKeepsCanonical(p: Primitives, operation: AnchoredOperation, didState: Option<DidState>)
    requires CanonicalOperation(p, operation)
    requires didState.Some? ==> CanonicalState(p, didState.value)
    requires Transition(p, operation, didState).Some?
    ensures CanonicalState(p, Transition(p, operation, didState).value)
    ensures Transition(p, operation, didState).value.lastOperationTransactionNumber == operation.transactionNumber
  {
  }

  /** A valid operation is filed under the commitment it opens. */
  lemma ValidOperationIsInBucket(p: Primitives, phase: Phase, operation: AnchoredOperation, didState: DidState)
    requires Lawful(p) && CanonicalState(p, didState) && InPhase(phase, operation) && Valid(p, operation, didState)
    ensures Commitment(phase, didState).Some?
    ensures CommitKey(p, operation) == Ok(Commitment(phase, didState).value)
  {
    match operation.operationBuffer
    case UpdateRequest(_, _, _, _) =>
      var o := ParseUpdate(p, operation.operationBuffer).value;
      IndexAgreesWithProcessor(p, o.signedData.updateKey, o.revealValue, didState.nextUpdateCommitmentHash.value);
    case RecoverRequest(_, _, _, _) =>
      var o := ParseRecover(p, operation.operationBuffer).value;
      IndexAgreesWithProcessor(p, o.signedData.recoveryKey, o.revealValue, didState.nextRecoveryCommitmentHash.value);
    case DeactivateRequest(_, _, _) =>
      var o := ParseDeactivate(p, operation.operationBuffer).value;
      IndexAgreesWithProcessor(p, o.signedData.recoveryKey, o.revealValue, didState.nextRecoveryCommitmentHash.value);
  }

  // ------------------------------------------------------------ the index refines the scan

  lemma {:induction false} NothingApplied(
    p: Primitives, operations: seq<AnchoredOperation>, didState: DidState)
    requires forall i :: 0 <= i < |operations| ==> !Valid(p, operations[i], didState)
    ensures FirstApplied(p, operations, didState, didState).None?
  {
    if operations != [] {
      assert !Valid(p, operations[0], didState);
      NothingApplied(p, operations[1..], didState);
    }
  }

  lemma {:induction false} FirstAppliedIsFound(
    p: Primitives, operations: seq<AnchoredOperation>, k: nat, didState: DidState)
    requires k < |operations|
    requires forall i :: 0 <= i < k ==> !Valid(p, operations[i], didState)
    requires Valid(p, operations[k], didState)
    requires operations[k].transactionNumber != didState.lastOperationTransactionNumber
    ensures FirstApplied(p, operations, didState, didState) == Transition(p, operations[k], Some(didState))
  {
    if k > 0 {
      assert !Valid(p, operations[0], didState);
      FirstAppliedIsFound(p, operations[1..], k - 1, didState);
    }
  }

  /** The first position of an operation in a list. */
  function Position(operations: seq<AnchoredOperation>, operation: AnchoredOperation): (k: nat)
    requires operation in operations
    ensures k < |operations| && operations[k] == operation
    ensures forall i :: 0 <= i < k ==> operations[i] != operation
  {
    if operations[0] == operation then 0 else 1 + Position(operations[1..], operation)
  }

  /** One turn of the loop applies what one linear scan finds. */
  lemma NextStateIsLowestValid(p: Primitives, phase: Phase, operations: seq<AnchoredOperation>, didState: DidState)
    requires Lawful(p) && DistinctNumbers(operations) && CanonicalState(p, didState)
    requires forall o <- operations :: InPhase(phase, o)
    requires LowestValid(p, operations, didState).Some? ==>
               forall o <- operations ::
                 CommitKey(p, o) == CommitKey(p, LowestValid(p, operations, didState).value) ==>
                   o.transactionNumber != didState.lastOperationTransactionNumber
    ensures NextState(p, phase, operations, didState)
            == match LowestValid(p, operations, didState)
               case None => None
               case Some(o) => Transition(p, o, Some(didState))
  {
    var lowest := LowestValid(p, operations, didState);
    if Commitment(phase, didState).Some? {
      var bucket := Bucket(p, operations, Commitment(phase, didState).value);
      var sorted := SortedByNumber(bucket);
      SortedIsAscending(bucket);
      if lowest.None? {
        forall i | 0 <= i < |sorted|
          ensures !Valid(p, sorted[i], didState)
        {
          assert sorted[i] in bucket;
        }
        NothingApplied(p, sorted, didState);
      } else {
        ValidOperationIsInBucket(p, phase, lowest.value, didState);
        var k := Position(sorted, lowest.value);
        forall i | 0 <= i < k
          ensures !Valid(p, sorted[i], didState)
        {
          assert sorted[i] in bucket;
          assert sorted[i].transactionNumber <= sorted[k].transactionNumber;
        }
        FirstAppliedIsFound(p, sorted, k, didState);
      }
    } else if lowest.Some? {
      ValidOperationIsInBucket(p, phase, lowest.value, didState);
    }
  }

  /** What has been applied so far has its commitment among those opened. */
  ghost predicate Used(
    p: Primitives, operations: seq<AnchoredOperation>, didState: DidState, used: set<string>, applied: set<nat>)
  {
    forall o <- operations ::
      o.transactionNumber == didState.lastOperationTransactionNumber || o.transactionNumber in applied ==>
        CommitKey(p, o).Ok? && CommitKey(p, o).value in used
  }

  /** The loop of a phase ends, in the state that the history by linear scan leads to. */
  lemma {:induction false} RunFollowsHistory(
    p: Primitives, phase: Phase, operations: seq<AnchoredOperation>, didState: DidState, used: set<string>,
    applied: set<nat>)
    requires Lawful(p) && DistinctNumbers(operations)
    requires CanonicalState(p, didState) && CanonicalOperations(p, operations)
    requires forall o <- operations :: InPhase(phase, o)
    requires Used(p, operations, didState, used, applied)
    requires History(p, operations, didState, used).Some?
    ensures Run(p, phase, operations, didState, applied)
            == Some(Replay(p, didState, History(p, operations, didState, used).value))
    decreases Openable(p, operations) - used
  {
    var lowest := LowestValid(p, operations, didState);
    NextStateIsLowestValid(p, phase, operations, didState);
    if lowest.Some? {
      ValidOperationIsIndexed(p, lowest.value, didState);
      var key := CommitKey(p, lowest.value).value;
      var state := Transition(p, lowest.value, Some(didState)).value;
      TransitionKeepsCanonical(p, lowest.value, Some(didState));
      var number := lowest.value.transactionNumber;
      assert number !in applied;
      assert Used(p, operations, state, used + {key}, applied + {number});
      RunFollowsHistory(p, phase, operations, state, used + {key}, applied + {number});
      var h := History(p, operations, didState, used).value;
      assert h[1..] == History(p, operations, state, used + {key}).value;
    }
  }

  // ------------------------------------------------------------ resolution as a whole

  /** The steps of resolution by linear scan. */
  datatype Trace = Trace(
    create: AnchoredOperation, recoveries: seq<AnchoredOperation>, recovered: DidState,
    updates: seq<AnchoredOperation>, final: DidState)

  function FirstCreate(p: Primitives, creates: seq<AnchoredOperation>): (r: Option<AnchoredOperation>)
    ensures r.Some? <==> FirstState(p, creates).Some?
    ensures r.Some? ==> r.value in creates && Transition(p, r.value, None) == FirstState(p, creates)
  {
    if creates == [] then None
    else if Transition(p, creates[0], None).Some? then Some(creates[0])
    else FirstCreate(p, creates[1..])
  }

  /** The operations that resolution by linear scan applies, and the state they lead to; `None` if a commitment would be
      opened twice. */
  function Scan(p: Primitives, operations: seq<AnchoredOperation>): Option<Trace>
    requires FirstState(p, OfType(operations, Create)).Some?
  {
    var create := FirstCreate(p, OfType(operations, Create)).value;
    var first := Transition(p, create, None).value;
    var recoveries := History(p, PhaseOperations(Recovery, operations), first, {});
    if recoveries.None? then None
    else
      var recovered := Replay(p, first, recoveries.value);
      if recovered.nextRecoveryCommitmentHash.None? then Some(Trace(create, recoveries.value, recovered, [], recovered))
      else
        var updates := History(p, PhaseOperations(Updating, operations), recovered, {});
        if updates.None? then None
        else Some(Trace(create, recoveries.value, recovered, updates.value, Replay(p, recovered, updates.value)))
  }

  /** The hypotheses under which the index and the scan agree. */
  ghost predicate Regular(p: Primitives, operations: seq<AnchoredOperation>) {
    Lawful(p) && DistinctNumbers(operations) && CanonicalOperations(p, operations)
  }

  lemma {:induction false} ReplayKeepsCanonical(p: Primitives, didState: DidState, history: seq<AnchoredOperation>)
    requires CanonicalState(p, didState) && CanonicalOperations(p, history)
    ensures CanonicalState(p, Replay(p, didState, history))
    decreases |history|
  {
    if history != [] {
      if Transition(p, history[0], Some(didState)).Some? {
        TransitionKeepsCanonical(p, history[0], Some(didState));
      }
      ReplayKeepsCanonical(p, ApplyOperation(p, history[0], didState), history[1..]);
    }
  }

  lemma {:induction false} ReplayNumber(p: Primitives, didState: DidState, history: seq<AnchoredOperation>)
    ensures var number := Replay(p, didState, history).lastOperationTransactionNumber;
            number == didState.lastOperationTransactionNumber || exists o <- history :: o.transactionNumber == number
    decreases |history|
  {
    if history != [] {
      var next := ApplyOperation(p, history[0], didState);
      ReplayNumber(p, next, history[1..]);
      assert history[0] in history;
      assert forall o <- history[1..] :: o in history;
    }
  }

  lemma {:induction false} HistoryMembers(
    p: Primitives, operations: seq<AnchoredOperation>, didState: DidState, used: set<string>)
    requires History(p, operations, didState, used).Some?
    ensures forall o <- History(p, operations, didState, used).value :: o in operations
  {
    var h := History(p, operations, didState, used).value;
    forall i | 0 <= i < |h|
      ensures h[i] in operations
    {
      HistoryIsSound(p, operations, didState, used, i);
    }
  }

  /** The states at which the two loops start. */
  lemma ScanStarts(p: Primitives, operations: seq<AnchoredOperation>)
    requires Regular(p, operations)
    requires FirstState(p, OfType(operations, Create)).Some? && Scan(p, operations).Some?
    ensures var trace := Scan(p, operations).value;
            var first := FirstState(p, OfType(operations, Create)).value;
            && trace.recovered == Replay(p, first, trace.recoveries)
            && History(p, PhaseOperations(Recovery, operations), first, {}) == Some(trace.recoveries)
            && CanonicalState(p, first) && CanonicalState(p, trace.recovered)
            && (forall o <- PhaseOperations(Recovery, operations) ::
                  o.transactionNumber != first.lastOperationTransactionNumber)
            && (forall o <- PhaseOperations(Updating, operations) ::
                  o.transactionNumber != trace.recovered.lastOperationTransactionNumber)
            && (trace.recovered.nextRecoveryCommitmentHash.Some? ==>
                  && History(p, PhaseOperations(Updating, operations), trace.recovered, {}) == Some(trace.updates)
                  && trace.final == Replay(p, trace.recovered, trace.updates))
            && (trace.recovered.nextRecoveryCommitmentHash.None? ==> trace.final == trace.recovered)
  {
    var trace := Scan(p, operations).value;
    var first := FirstState(p, OfType(operations, Create)).value;
    TransitionKeepsCanonical(p, trace.create, None);
    HistoryMembers(p, PhaseOperations(Recovery, operations), first, {});
    ReplayKeepsCanonical(p, first, trace.recoveries);
    ReplayNumber(p, first, trace.recoveries);
  }

  /** What resolution by linear scan comes to. */
  function ScanResolution(p: Primitives, operations: seq<AnchoredOperation>): Resolution
    requires FirstState(p, OfType(operations, Create)).Some? ==> Scan(p, operations).Some?
  {
    if FirstState(p, OfType(operations, Create)).None? then DidNotFound
    else
      var trace := Scan(p, operations).value;
      if !Indexable(p, PhaseOperations(Recovery, operations)) then Thrown
      else if trace.recovered.nextRecoveryCommitmentHash.Some?
              && !Indexable(p, PhaseOperations(Updating, operations)) then Thrown
      else Resolved(trace.final)
  }

  /** The indexed resolver ends, and comes to the same as resolution by linear scan: the first create that can be
      applied, then repeatedly the lowest-numbered recovery or deactivation that is valid, then the same for updates;
      it throws only if an operation it indexes does not parse. */
  lemma ResolverRefinesScan(p: Primitives, operations: seq<AnchoredOperation>)
    requires Regular(p, operations)
    requires FirstState(p, OfType(operations, Create)).Some? ==> Scan(p, operations).Some?
    ensures Terminates(p, operations)
    ensures Resolve(p, operations) == ScanResolution(p, operations)
  {
    if FirstState(p, OfType(operations, Create)).Some? {
      var trace := Scan(p, operations).value;
      var first := FirstState(p, OfType(operations, Create)).value;
      ScanStarts(p, operations);
      RunFollowsHistory(p, Recovery, PhaseOperations(Recovery, operations), first, {}, {});
      if trace.recovered.nextRecoveryCommitmentHash.Some? {
        RunFollowsHistory(p, Updating, PhaseOperations(Updating, operations), trace.recovered, {}, {});
      }
    }
  }

  // ------------------------------------------------------------ append-only history

  /** The operations that are not among the earlier ones belong to later transactions. */
  ghost predicate Extends(earlier: seq<AnchoredOperation>, all: seq<AnchoredOperation>) {
    && DistinctNumbers(all)
    && (forall o <- earlier :: o in all)
    && (forall n, o :: n in all && n !in earlier && o in earlier ==> o.transactionNumber < n.transactionNumber)
  }

  /** A history over more operations, all later than the old ones, extends the old history. */
  lemma {:induction false} HistoryOnlyGrows(
    p: Primitives, earlier: seq<AnchoredOperation>, all: seq<AnchoredOperation>, didState: DidState,
    used: set<string>)
    requires Extends(earlier, all)
    requires History(p, all, didState, used).Some?
    ensures History(p, earlier, didState, used).Some?
    ensures History(p, earlier, didState, used).value <= History(p, all, didState, used).value
    decreases |History(p, all, didState, used).value|
  {
    var lowest := LowestValid(p, earlier, didState);
    if lowest.Some? {
      HistoryStep(p, all, didState, used);
      var h := History(p, all, didState, used).value;
      assert h[0] == lowest.value;
      HistoryOnlyGrows(p, earlier, all, ApplyOperation(p, h[0], didState), used + {CommitKey(p, h[0]).value});
      var rest := History(p, earlier, ApplyOperation(p, h[0], didState), used + {CommitKey(p, h[0]).value}).value;
      assert History(p, earlier, didState, used).value == [h[0]] + rest;
    }
  }

  lemma {:induction false} OfTypeConcatenation(a: seq<AnchoredOperation>, b: seq<AnchoredOperation>, t: OperationType)
    ensures OfType(a + b, t) == OfType(a, t) + OfType(b, t)
  {
    if b == [] {
      assert a + b == a;
    } else {
      var n := |b| - 1;
      OfTypeConcatenation(a, b[..n], t);
      assert (a + b)[..|a + b| - 1] == a + b[..n] && (a + b)[|a + b| - 1] == b[n];
      var last := if TypeOf(b[n].operationBuffer) == t then [b[n]] else [];
      assert OfType(a, t) + (OfType(b[..n], t) + last) == OfType(a, t) + OfType(b[..n], t) + last;
    }
  }

  lemma {:induction false} FirstCreateStays(
    p: Primitives, creates: seq<AnchoredOperation>, more: seq<AnchoredOperation>)
    requires FirstState(p, creates).Some?
    ensures FirstState(p, creates + more) == FirstState(p, creates)
    ensures FirstCreate(p, creates + more) == FirstCreate(p, creates)
  {
    if Transition(p, creates[0], None).None? {
      FirstCreateStays(p, creates[1..], more);
      assert (creates + more)[1..] == creates[1..] + more;
    }
  }

  /** The part of a history that follows some of its links is the history from there. */
  lemma {:induction false} HistoryEndsWhereNothingIsValid(
    p: Primitives, operations: seq<AnchoredOperation>, didState: DidState, used: set<string>, n: nat)
    requires History(p, operations, didState, used).Some?
    requires n <= |History(p, operations, didState, used).value|
    requires forall o <- operations ::
               !Valid(p, o, Replay(p, didState, History(p, operations, didState, used).value[..n]))
    ensures n == |History(p, operations, didState, used).value|
  {
    if n < |History(p, operations, didState, used).value| {
      HistoryIsSound(p, operations, didState, used, n);
    }
  }

  /** Operations of later transactions are added to what is stored of a DID. */
  ghost predicate Later(operations: seq<AnchoredOperation>, more: seq<AnchoredOperation>) {
    forall o, n :: o in operations && n in more ==> o.transactionNumber < n.transactionNumber
  }

  lemma PhaseExtends(phase: Phase, operations: seq<AnchoredOperation>, more: seq<AnchoredOperation>)
    requires DistinctNumbers(operations + more) && Later(operations, more)
    ensures Extends(PhaseOperations(phase, operations), PhaseOperations(phase, operations + more))
  {
    var earlier, all := PhaseOperations(phase, operations), PhaseOperations(phase, operations + more);
    forall o | o in all
      ensures o in operations + more && InPhase(phase, o)
    {
    }
    forall o | o in earlier
      ensures o in all && o in operations
    {
      assert o in operations + more;
    }
    forall n | n in all && n !in earlier
      ensures n in more
    {
    }
  }

  /** A state without a recovery commitment can be neither recovered nor deactivated. */
  lemma DeactivatedAcceptsNothing(p: Primitives, operations: seq<AnchoredOperation>, didState: DidState)
    requires forall o <- operations :: InPhase(Recovery, o)
    requires didState.nextRecoveryCommitmentHash.None?
    ensures forall o <- operations :: !Valid(p, o, didState)
  {
    forall o | o in operations
      ensures !Valid(p, o, didState)
    {
      assert InPhase(Recovery, o);
    }
  }

  /** If the earlier chain ends in a deactivated state, it is the whole chain. */
  lemma DeactivationEndsHistory(
    p: Primitives, all: seq<AnchoredOperation>, didState: DidState, before: seq<AnchoredOperation>)
    requires forall o <- all :: InPhase(Recovery, o)
    requires History(p, all, didState, {}).Some?
    requires before <= History(p, all, didState, {}).value
    requires Replay(p, didState, before).nextRecoveryCommitmentHash.None?
    ensures History(p, all, didState, {}) == Some(before)
  {
    DeactivatedAcceptsNothing(p, all, Replay(p, didState, before));
    var h := History(p, all, didState, {}).value;
    assert h[..|before|] == before;
    HistoryEndsWhereNothingIsValid(p, all, didState, {}, |before|);
    assert h == before;
  }

  lemma CreateStays(p: Primitives, operations: seq<AnchoredOperation>, more: seq<AnchoredOperation>)
    requires FirstState(p, OfType(operations, Create)).Some?
    ensures FirstState(p, OfType(operations + more, Create)) == FirstState(p, OfType(operations, Create))
    ensures FirstCreate(p, OfType(operations + more, Create)) == FirstCreate(p, OfType(operations, Create))
  {
    OfTypeConcatenation(operations, more, Create);
    FirstCreateStays(p, OfType(operations, Create), OfType(more, Create));
  }

  /** The chain of recoveries is append-only, and complete once the DID is deactivated. */
  lemma RecoveriesAreAppendOnly(
    p: Primitives, operations: seq<AnchoredOperation>, more: seq<AnchoredOperation>, first: DidState)
    requires DistinctNumbers(operations + more) && Later(operations, more)
    requires History(p, PhaseOperations(Recovery, operations + more), first, {}).Some?
    ensures var before := History(p, PhaseOperations(Recovery, operations), first, {});
            var after := History(p, PhaseOperations(Recovery, operations + more), first, {});
            && before.Some? && before.value <= after.value
            && (Replay(p, first, before.value).nextRecoveryCommitmentHash.None? ==> before == after)
  {
    var earlier, all := PhaseOperations(Recovery, operations), PhaseOperations(Recovery, operations + more);
    PhaseExtends(Recovery, operations, more);
    HistoryOnlyGrows(p, earlier, all, first, {});
    var before := History(p, earlier, first, {}).value;
    if Replay(p, first, before).nextRecoveryCommitmentHash.None? {
      DeactivationEndsHistory(p, all, first, before);
    }
  }

  /** The parts of a trace. */
  lemma ScanParts(p: Primitives, operations: seq<AnchoredOperation>)
    requires FirstState(p, OfType(operations, Create)).Some?
    ensures var first := FirstState(p, OfType(operations, Create)).value;
            var recoveries := History(p, PhaseOperations(Recovery, operations), first, {});
            var trace := Scan(p, operations);
            && (trace.Some? ==>
                  && recoveries == Some(trace.value.recoveries)
                  && trace.value.recovered == Replay(p, first, trace.value.recoveries)
                  && Some(trace.value.create) == FirstCreate(p, OfType(operations, Create)))
            && (recoveries.Some? ==>
                  var recovered := Replay(p, first, recoveries.value);
                  if recovered.nextRecoveryCommitmentHash.None? then
                    trace.Some? && trace.value.updates == [] && trace.value.final == recovered
                  else
                    var updates := History(p, PhaseOperations(Updating, operations), recovered, {});
                    && (trace.Some? <==> updates.Some?)
                    && (trace.Some? ==>
                          trace.value.updates == updates.value
                          && trace.value.final == Replay(p, recovered, updates.value)))
  {
  }

  /** History is append-only: operations of later transactions leave the create and the chain of recoveries in place
      and only extend that chain; if they do not extend it, they only extend the chain of updates. */
  lemma HistoryIsAppendOnly(p: Primitives, operations: seq<AnchoredOperation>, more: seq<AnchoredOperation>)
    requires DistinctNumbers(operations + more) && Later(operations, more)
    requires FirstState(p, OfType(operations, Create)).Some?
    requires FirstState(p, OfType(operations + more, Create)).Some? && Scan(p, operations + more).Some?
    ensures var first := FirstState(p, OfType(operations, Create)).value;
            var before := History(p, PhaseOperations(Recovery, operations), first, {});
            var after := Scan(p, operations + more).value;
            && first == FirstState(p, OfType(operations + more, Create)).value
            && before.Some? && before.value <= after.recoveries
            && (before.value == after.recoveries ==>
                  && Scan(p, operations).Some?
                  && Scan(p, operations).value.create == after.create
                  && Scan(p, operations).value.recovered == after.recovered
                  && Scan(p, operations).value.updates <= after.updates)
  {
    CreateStays(p, operations, more);
    ScanParts(p, operations);
    ScanParts(p, operations + more);
    RecoveriesAreAppendOnly(p, operations, more, FirstState(p, OfType(operations, Create)).value);
    var recovered := Scan(p, operations + more).value.recovered;
    if recovered.nextRecoveryCommitmentHash.Some? {
      PhaseExtends(Updating, operations, more);
      HistoryOnlyGrows(p, PhaseOperations(Updating, operations), PhaseOperations(Updating, operations + more),
                       recovered, {});
    }
  }

  // ------------------------------------------------------------ order independence

  lemma {:induction false} HistoryIgnoresOrder(
    p: Primitives, a: seq<AnchoredOperation>, b: seq<AnchoredOperation>, didState: DidState, used: set<string>)
    requires DistinctNumbers(a) && forall o :: o in a <==> o in b
    ensures History(p, a, didState, used) == History(p, b, didState, used)
    decreases Openable(p, a) - used
  {
    assert Openable(p, a) == Openable(p, b);
    var lowest := LowestValid(p, a, didState);
    assert lowest == LowestValid(p, b, didState);
    if lowest.Some? {
      ValidOperationIsIndexed(p, lowest.value, didState);
      var key := CommitKey(p, lowest.value).value;
      if key !in used {
        HistoryIgnoresOrder(p, a, b, Transition(p, lowest.value, Some(didState)).value, used + {key});
      }
    }
  }
}
