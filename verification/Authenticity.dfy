/** Resolution goes by signatures: whatever it applies is signed by the holder of the key last committed to, and what is
    not signed changes nothing. */
module Authenticity {
  import opened Wrappers
  import opened Models
  import opened Operations
  import opened OperationValidity
  import opened OperationProcessor
  import opened Resolver
  import opened ResolutionHistory
  import opened ResolutionTermination

  // ------------------------------------------------------------ every turn is authorised

  /** The signed data of an operation is by a key that the state commits to. */
  ghost predicate Authorised(p: Primitives, operation: AnchoredOperation, didState: DidState) {
    match operation.operationBuffer
    case CreateRequest(_, _) => false
    case UpdateRequest(_, _, _, _) => exists jws :: AuthorisesUpdate(p, operation, didState, jws)
    case RecoverRequest(_, _, _, _) => exists jws :: AuthorisesRecover(p, operation, didState, jws)
    case DeactivateRequest(_, _, _) => exists jws :: AuthorisesDeactivate(p, operation, didState, jws)
  }

  lemma ValidIsAuthorised(p: Primitives, operation: AnchoredOperation, didState: DidState)
    ensures Valid(p, operation, didState) <==> Authorised(p, operation, didState)
  {
    match operation.operationBuffer
    case CreateRequest(_, _) => OnlyCreatesStart(p, operation, didState);
    case UpdateRequest(_, _, _, _) => UpdateIsValidExactly(p, operation, didState);
    case RecoverRequest(_, _, _, _) => RecoverIsValidExactly(p, operation, didState);
    case DeactivateRequest(_, _, _) => DeactivateIsValidExactly(p, operation, didState);
  }

  /** Every link of a chain is authorised on the state that the links before it lead to. */
  ghost predicate AuthorisedChain(p: Primitives, start: DidState, links: seq<AnchoredOperation>) {
    forall i :: 0 <= i < |links| ==> Authorised(p, links[i], Replay(p, start, links[..i]))
  }

  lemma HistoryIsAuthorised(
    p: Primitives, operations: seq<AnchoredOperation>, didState: DidState, used: set<string>)
    requires History(p, operations, didState, used).Some?
    ensures AuthorisedChain(p, didState, History(p, operations, didState, used).value)
  {
    var h := History(p, operations, didState, used).value;
    forall i | 0 <= i < |h|
      ensures Authorised(p, h[i], Replay(p, didState, h[..i]))
    {
      HistoryIsSound(p, operations, didState, used, i);
      ValidIsAuthorised(p, h[i], Replay(p, didState, h[..i]));
    }
  }

  /** A turn of either loop applies an operation of its phase that is authorised on some state before it, whatever the
      stored operations are. */
  lemma TurnIsAuthorised(p: Primitives, phase: Phase, operations: seq<AnchoredOperation>, didState: DidState)
    returns (operation: AnchoredOperation, before: DidState)
    requires forall o <- operations :: InPhase(phase, o)
    requires NextState(p, phase, operations, didState).Some?
    ensures operation in operations && Authorised(p, operation, before)
    ensures Transition(p, operation, Some(before)) == NextState(p, phase, operations, didState)
  {
    operation, before := TurnIsMade(p, phase, operations, didState);
    ValidIsAuthorised(p, operation, before);
  }

  /** A DID that resolves has been created by the first create that can be applied, and brought from there to its state
      by operations each of which is signed by a key that the state before it commits to. */
  lemma ResolvedIsAuthentic(p: Primitives, operations: seq<AnchoredOperation>)
    requires Regular(p, operations)
    requires FirstState(p, OfType(operations, Create)).Some? && Scan(p, operations).Some?
    ensures Terminates(p, operations)
    ensures Resolve(p, operations).Resolved? ==>
              var trace := Scan(p, operations).value;
              var first := FirstState(p, OfType(operations, Create)).value;
              && trace.create in operations && Transition(p, trace.create, None) == Some(first)
              && AuthorisedChain(p, first, trace.recoveries)
              && AuthorisedChain(p, Replay(p, first, trace.recoveries), trace.updates)
              && Resolve(p, operations).didState == Replay(p, Replay(p, first, trace.recoveries), trace.updates)
  {
    ResolverRefinesScan(p, operations);
    ScanStarts(p, operations);
    var trace := Scan(p, operations).value;
    var first := FirstState(p, OfType(operations, Create)).value;
    HistoryIsAuthorised(p, PhaseOperations(Recovery, operations), first, {});
    if trace.recovered.nextRecoveryCommitmentHash.Some? {
      HistoryIsAuthorised(p, PhaseOperations(Updating, operations), trace.recovered, {});
    }
  }

  /** Resolution stops only where nothing stored can go on: no recovery or deactivation is valid after the recoveries,
      and, unless the DID is deactivated, no update is valid on the final state. */
  lemma ResolvedIsComplete(p: Primitives, operations: seq<AnchoredOperation>)
    requires Regular(p, operations)
    requires FirstState(p, OfType(operations, Create)).Some? && Scan(p, operations).Some?
    ensures Terminates(p, operations)
    ensures Resolve(p, operations).Resolved? ==>
              var recovered, final := Scan(p, operations).value.recovered, Resolve(p, operations).didState;
              && (forall o <- operations :: InPhase(Recovery, o) ==> !Authorised(p, o, recovered))
              && (if recovered.nextRecoveryCommitmentHash.None? then final == recovered
                  else forall o <- operations :: InPhase(Updating, o) ==> !Authorised(p, o, final))
  {
    ResolverRefinesScan(p, operations);
    ScanStarts(p, operations);
    var trace := Scan(p, operations).value;
    var first := FirstState(p, OfType(operations, Create)).value;
    NothingIsLeft(p, Recovery, operations, first);
    if trace.recovered.nextRecoveryCommitmentHash.Some? {
      NothingIsLeft(p, Updating, operations, trace.recovered);
    }
  }

  lemma NothingIsLeft(p: Primitives, phase: Phase, operations: seq<AnchoredOperation>, start: DidState)
    requires History(p, PhaseOperations(phase, operations), start, {}).Some?
    ensures var final := Replay(p, start, History(p, PhaseOperations(phase, operations), start, {}).value);
            forall o <- operations :: InPhase(phase, o) ==> !Authorised(p, o, final)
  {
    var chosen := PhaseOperations(phase, operations);
    var final := Replay(p, start, History(p, chosen, start, {}).value);
    HistoryIsMaximal(p, chosen, start, {});
    forall o | o in operations && InPhase(phase, o)
      ensures !Authorised(p, o, final)
    {
      assert o in chosen;
      ValidIsAuthorised(p, o, final);
    }
  }

  // ------------------------------------------------------------ the index

  /** An operation is filed under a commitment if and only if its signed data is in order, with a good delta if it is an
      update, and the commitment is the encoded hash of what its reveal value decodes to. */
  lemma IndexedExactly(p: Primitives, operation: AnchoredOperation, c: string)
    requires !operation.operationBuffer.CreateRequest?
    ensures var request := operation.operationBuffer;
            CommitKey(p, operation) == Ok(c) <==>
            && ProperlySigned(p, request) && (request.UpdateRequest? ==> GoodDelta(p, request.delta))
            && p.decodeMultihash(request.revealValue).Some?
            && c == p.encodeMultihash(p.digest(p.decodeMultihash(request.revealValue).value))
  {
    ProperlySignedExactly(p, operation.operationBuffer);
  }

  // ------------------------------------------------------------ the first create

  /** The state a DID starts from is made by the first create with a delta and good suffix data, whatever creates come
      after it. */
  lemma {:induction false} FirstStateIsFirst(p: Primitives, creates: seq<AnchoredOperation>, k: nat)
    requires forall o <- creates :: o.operationBuffer.CreateRequest?
    requires k <= |creates|
    requires forall i :: 0 <= i < k ==> !MakesState(p, creates[i].operationBuffer)
    requires k < |creates| ==> MakesState(p, creates[k].operationBuffer)
    ensures FirstState(p, creates) == if k < |creates| then Transition(p, creates[k], None) else None
    ensures k < |creates| ==> FirstState(p, creates).Some?
  {
    if creates != [] {
      CreateIsValidExactly(p, creates[0]);
      if k > 0 {
        assert !MakesState(p, creates[0].operationBuffer);
        FirstStateIsFirst(p, creates[1..], k - 1);
      }
    }
  }

  predicate MakesState(p: Primitives, request: Request)
    requires request.CreateRequest?
  {
    request.delta.Some? && GoodSuffixData(p, request.suffixData)
  }

  // ------------------------------------------------------------ forgeries

  /** The key that the payload of a signed request names. */
  function KeyIn(p: Primitives, request: Request, payload: string): Option<string> {
    match request
    case CreateRequest(_, _) => None
    case UpdateRequest(_, _, _, _) =>
      if p.updatePayload(payload).Ok? then Some(p.updatePayload(payload).value.updateKey) else None
    case RecoverRequest(_, _, _, _) =>
      if p.recoverPayload(payload).Ok? then Some(p.recoverPayload(payload).value.recoveryKey) else None
    case DeactivateRequest(_, _, _) =>
      if p.deactivatePayload(payload).Ok? then Some(p.deactivatePayload(payload).value.recoveryKey) else None
  }

  /** The operation carries a JWS that verifies under the key it names. */
  ghost predicate Verifies(p: Primitives, request: Request)
    requires !request.CreateRequest?
  {
    exists jws ::
      && Signed(p, request.signedData, jws) && KeyIn(p, request, jws.payload).Some?
      && p.verifySignature(jws, KeyIn(p, request, jws.payload).value)
  }

  ghost predicate Forged(p: Primitives, operation: AnchoredOperation) {
    !operation.operationBuffer.CreateRequest? && !Verifies(p, operation.operationBuffer)
  }

  lemma ForgedIsNeverValid(p: Primitives, operation: AnchoredOperation, didState: DidState)
    requires Forged(p, operation)
    ensures ApplyOperation(p, operation, didState) == didState
  {
    ValidIsAuthorised(p, operation, didState);
  }

  /** The operations with a property, in order. */
  ghost function Chosen(keep: AnchoredOperation -> bool, operations: seq<AnchoredOperation>): seq<AnchoredOperation> {
    if operations == [] then []
    else
      var last, rest := operations[|operations| - 1], Chosen(keep, operations[..|operations| - 1]);
      if keep(last) then rest + [last] else rest
  }

  lemma {:induction false} ChosenMembers(keep: AnchoredOperation -> bool, operations: seq<AnchoredOperation>)
    ensures forall o :: o in Chosen(keep, operations) <==> o in operations && keep(o)
  {
    if operations != [] {
      var n := |operations| - 1;
      ChosenMembers(keep, operations[..n]);
      assert operations == operations[..n] + [operations[n]];
    }
  }

  lemma ChosenAppend(keep: AnchoredOperation -> bool, operations: seq<AnchoredOperation>, o: AnchoredOperation)
    ensures Chosen(keep, operations + [o])
            == if keep(o) then Chosen(keep, operations) + [o] else Chosen(keep, operations)
  {
    assert (operations + [o])[..|operations|] == operations;
  }

  lemma {:induction false} ChosenConcatenation(
    keep: AnchoredOperation -> bool, a: seq<AnchoredOperation>, b: seq<AnchoredOperation>)
    ensures Chosen(keep, a + b) == Chosen(keep, a) + Chosen(keep, b)
  {
    if b == [] {
      assert a + b == a;
    } else {
      var n := |b| - 1;
      ChosenConcatenation(keep, a, b[..n]);
      assert a + b == (a + b[..n]) + [b[n]] && b == b[..n] + [b[n]];
      ChosenAppend(keep, a + b[..n], b[n]);
      ChosenAppend(keep, b[..n], b[n]);
      var front, rest := Chosen(keep, a), Chosen(keep, b[..n]);
      assert front + (rest + [b[n]]) == front + rest + [b[n]];
    }
  }

  lemma BucketAppend(p: Primitives, operations: seq<AnchoredOperation>, o: AnchoredOperation, c: string)
    ensures Bucket(p, operations + [o], c)
            == if CommitKey(p, o) == Ok(c) then Bucket(p, operations, c) + [o] else Bucket(p, operations, c)
  {
    assert (operations + [o])[..|operations|] == operations;
  }

  lemma {:induction false} BucketOfChosen(
    p: Primitives, keep: AnchoredOperation -> bool, operations: seq<AnchoredOperation>, c: string)
    ensures Bucket(p, Chosen(keep, operations), c) == Chosen(keep, Bucket(p, operations, c))
  {
    if operations != [] {
      var n := |operations| - 1;
      assert operations == operations[..n] + [operations[n]];
      BucketOfChosen(p, keep, operations[..n], c);
      BucketAppend(p, operations[..n], operations[n], c);
      BucketAppend(p, Chosen(keep, operations[..n]), operations[n], c);
      ChosenAppend(keep, Bucket(p, operations[..n], c), operations[n]);
    }
  }

  lemma TypeAppend(operations: seq<AnchoredOperation>, o: AnchoredOperation, t: OperationType)
    ensures OfType(operations + [o], t)
            == if TypeOf(o.operationBuffer) == t then OfType(operations, t) + [o] else OfType(operations, t)
  {
    assert (operations + [o])[..|operations|] == operations;
  }

  lemma {:induction false} TypeOfChosen(
    keep: AnchoredOperation -> bool, operations: seq<AnchoredOperation>, t: OperationType)
    ensures OfType(Chosen(keep, operations), t) == Chosen(keep, OfType(operations, t))
  {
    if operations != [] {
      var n := |operations| - 1;
      assert operations == operations[..n] + [operations[n]];
      TypeOfChosen(keep, operations[..n], t);
      TypeAppend(operations[..n], operations[n], t);
      TypeAppend(Chosen(keep, operations[..n]), operations[n], t);
      ChosenAppend(keep, OfType(operations[..n], t), operations[n]);
    }
  }

  lemma {:induction false} AllChosen(keep: AnchoredOperation -> bool, operations: seq<AnchoredOperation>)
    requires forall o <- operations :: keep(o)
    ensures Chosen(keep, operations) == operations
  {
    if operations != [] {
      AllChosen(keep, operations[..|operations| - 1]);
    }
  }

  lemma {:induction false} NothingChosen(keep: AnchoredOperation -> bool, operations: seq<AnchoredOperation>)
    requires forall o <- operations :: !keep(o)
    ensures Chosen(keep, operations) == []
  {
    if operations != [] {
      NothingChosen(keep, operations[..|operations| - 1]);
    }
  }

  lemma InsertAtEnd(operations: seq<AnchoredOperation>, o: AnchoredOperation)
    requires forall x <- operations :: x.transactionNumber <= o.transactionNumber
    ensures Insert(operations, o) == operations + [o]
  {
    if operations != [] {
      assert operations[|operations| - 1] in operations;
    }
  }

  lemma InsertBeforeLast(operations: seq<AnchoredOperation>, last: AnchoredOperation, o: AnchoredOperation)
    requires last.transactionNumber > o.transactionNumber
    ensures Insert(operations + [last], o) == Insert(operations, o) + [last]
  {
    assert (operations + [last])[..|operations|] == operations;
  }

  lemma AscendingEndsHighest(operations: seq<AnchoredOperation>, o: AnchoredOperation)
    requires Ascending(operations)
    requires operations == [] || operations[|operations| - 1].transactionNumber <= o.transactionNumber
    ensures forall x <- operations :: x.transactionNumber <= o.transactionNumber
  {
  }

  /** Inserting into a sorted list and choosing commute. */
  lemma {:induction false} InsertIntoChosen(
    keep: AnchoredOperation -> bool, operations: seq<AnchoredOperation>, o: AnchoredOperation)
    requires Ascending(operations)
    ensures Chosen(keep, Insert(operations, o))
            == if keep(o) then Insert(Chosen(keep, operations), o) else Chosen(keep, operations)
  {
    if operations == [] || operations[|operations| - 1].transactionNumber <= o.transactionNumber {
      AscendingEndsHighest(operations, o);
      ChosenAppend(keep, operations, o);
      ChosenMembers(keep, operations);
      InsertAtEnd(Chosen(keep, operations), o);
    } else {
      var n := |operations| - 1;
      assert operations == operations[..n] + [operations[n]];
      InsertIntoChosen(keep, operations[..n], o);
      InsertBeforeLast(operations[..n], operations[n], o);
      ChosenAppend(keep, Insert(operations[..n], o), operations[n]);
      InsertBeforeLast(Chosen(keep, operations[..n]), operations[n], o);
    }
  }

  lemma SortedAppend(operations: seq<AnchoredOperation>, o: AnchoredOperation)
    ensures SortedByNumber(operations + [o]) == Insert(SortedByNumber(operations), o)
  {
    assert (operations + [o])[..|operations|] == operations;
  }

  lemma {:induction false} SortedChosen(keep: AnchoredOperation -> bool, operations: seq<AnchoredOperation>)
    ensures SortedByNumber(Chosen(keep, operations)) == Chosen(keep, SortedByNumber(operations))
  {
    if operations != [] {
      var n := |operations| - 1;
      SortedChosen(keep, operations[..n]);
      SortedIsAscending(operations[..n]);
      InsertIntoChosen(keep, SortedByNumber(operations[..n]), operations[n]);
      SortedAppend(Chosen(keep, operations[..n]), operations[n]);
    }
  }

  /** What is not forged. */
  ghost function NotForged(p: Primitives): AnchoredOperation -> bool {
    o => !Forged(p, o)
  }

  /** The operations that are not forged, in order. */
  ghost function Genuine(p: Primitives, operations: seq<AnchoredOperation>): seq<AnchoredOperation> {
    Chosen(NotForged(p), operations)
  }

  lemma {:induction false} ForgedAreSkipped(
    p: Primitives, operations: seq<AnchoredOperation>, original: DidState, current: DidState)
    requires current.lastOperationTransactionNumber == original.lastOperationTransactionNumber
    ensures FirstApplied(p, Genuine(p, operations), original, current)
            == FirstApplied(p, operations, original, current)
  {
    if operations != [] {
      var head, rest := operations[0], operations[1..];
      assert operations == [head] + rest;
      ChosenConcatenation(NotForged(p), [head], rest);
      ChosenAppend(NotForged(p), [], head);
      assert [] + [head] == [head];
      if !NotForged(p)(head) {
        ForgedIsNeverValid(p, head, current);
        assert [] + Genuine(p, rest) == Genuine(p, rest);
        ForgedAreSkipped(p, rest, original, current);
      } else {
        var next := ApplyOperation(p, head, current);
        assert ([head] + Genuine(p, rest))[1..] == Genuine(p, rest);
        if next.lastOperationTransactionNumber == original.lastOperationTransactionNumber {
          ForgedAreSkipped(p, rest, original, next);
        }
      }
    }
  }

  lemma NextWithoutForged(p: Primitives, phase: Phase, operations: seq<AnchoredOperation>, didState: DidState)
    ensures NextState(p, phase, Genuine(p, operations), didState) == NextState(p, phase, operations, didState)
  {
    var commitment := Commitment(phase, didState);
    if commitment.Some? {
      var bucket := Bucket(p, operations, commitment.value);
      BucketOfChosen(p, NotForged(p), operations, commitment.value);
      SortedChosen(NotForged(p), bucket);
      ForgedAreSkipped(p, SortedByNumber(bucket), didState, didState);
    }
  }

  lemma {:induction false} RunWithoutForged(
    p: Primitives, phase: Phase, operations: seq<AnchoredOperation>, didState: DidState, applied: set<nat>)
    ensures Run(p, phase, Genuine(p, operations), didState, applied) == Run(p, phase, operations, didState, applied)
    decreases Numbers(operations) - applied
  {
    NextWithoutForged(p, phase, operations, didState);
    var next := NextState(p, phase, operations, didState);
    if next.Some? && next.value.lastOperationTransactionNumber !in applied {
      NextNumber(p, phase, operations, didState);
      RunWithoutForged(p, phase, operations, next.value, applied + {next.value.lastOperationTransactionNumber});
    }
  }

  lemma PhaseOfGenuine(p: Primitives, phase: Phase, operations: seq<AnchoredOperation>)
    ensures PhaseOperations(phase, Genuine(p, operations)) == Genuine(p, PhaseOperations(phase, operations))
  {
    match phase
    case Recovery =>
      TypeOfChosen(NotForged(p), operations, Recover);
      TypeOfChosen(NotForged(p), operations, Deactivate);
      ChosenConcatenation(NotForged(p), OfType(operations, Recover), OfType(operations, Deactivate));
    case Updating =>
      TypeOfChosen(NotForged(p), operations, Update);
  }

  /** A phase can be indexed with its forgeries just if it can be without them, unless a forgery cannot. */
  lemma IndexableWithoutForged(p: Primitives, operations: seq<AnchoredOperation>)
    requires forall o <- operations :: Forged(p, o) ==> CommitKey(p, o).Ok?
    ensures Indexable(p, Genuine(p, operations)) <==> Indexable(p, operations)
  {
    ChosenMembers(NotForged(p), operations);
    var genuine := Genuine(p, operations);
    if Indexable(p, genuine) {
      forall i | 0 <= i < |operations|
        ensures CommitKey(p, operations[i]).Ok?
      {
        assert operations[i] in operations;
        if !Forged(p, operations[i]) {
          assert operations[i] in genuine;
        }
      }
    }
    if Indexable(p, operations) {
      forall i | 0 <= i < |genuine|
        ensures CommitKey(p, genuine[i]).Ok?
      {
        assert genuine[i] in operations;
      }
    }
  }

  lemma PhaseWithoutForged(p: Primitives, phase: Phase, operations: seq<AnchoredOperation>)
    requires forall o <- operations :: Forged(p, o) ==> CommitKey(p, o).Ok?
    ensures Indexable(p, PhaseOperations(phase, Genuine(p, operations)))
            <==> Indexable(p, PhaseOperations(phase, operations))
  {
    PhaseOfGenuine(p, phase, operations);
    IndexableWithoutForged(p, PhaseOperations(phase, operations));
  }

  lemma PhaseRunWithoutForged(
    p: Primitives, phase: Phase, operations: seq<AnchoredOperation>, didState: DidState)
    ensures Run(p, phase, PhaseOperations(phase, Genuine(p, operations)), didState, {})
            == Run(p, phase, PhaseOperations(phase, operations), didState, {})
  {
    PhaseOfGenuine(p, phase, operations);
    RunWithoutForged(p, phase, PhaseOperations(phase, operations), didState, {});
  }

  lemma CreatesAreGenuine(p: Primitives, operations: seq<AnchoredOperation>)
    ensures OfType(Genuine(p, operations), Create) == OfType(operations, Create)
  {
    TypeOfChosen(NotForged(p), operations, Create);
    AllChosen(NotForged(p), OfType(operations, Create));
  }

  /** Operations whose signature does not verify change nothing, as long as they parse: resolution ends and comes to the
      same with and without them, whatever else is stored. */
  lemma ForgeriesChangeNothing(p: Primitives, operations: seq<AnchoredOperation>)
    requires forall o <- operations :: Forged(p, o) ==> CommitKey(p, o).Ok?
    ensures Terminates(p, Genuine(p, operations)) <==> Terminates(p, operations)
    ensures Terminates(p, operations) ==> Resolve(p, Genuine(p, operations)) == Resolve(p, operations)
  {
    CreatesAreGenuine(p, operations);
    PhaseWithoutForged(p, Recovery, operations);
    PhaseWithoutForged(p, Updating, operations);
    var first := FirstState(p, OfType(operations, Create));
    if first.Some? {
      PhaseRunWithoutForged(p, Recovery, operations, first.value);
      var recovered := Run(p, Recovery, PhaseOperations(Recovery, operations), first.value, {});
      if recovered.Some? {
        PhaseRunWithoutForged(p, Updating, operations, recovered.value);
      }
    }
  }

  lemma ForgedPhaseStandsStill(
    p: Primitives, phase: Phase, operations: seq<AnchoredOperation>, didState: DidState)
    requires forall o <- operations :: InPhase(phase, o) ==> Forged(p, o)
    ensures Run(p, phase, PhaseOperations(phase, operations), didState, {}) == Some(didState)
  {
    var chosen := PhaseOperations(phase, operations);
    forall o | o in chosen
      ensures Forged(p, o)
    {
      assert o in operations && InPhase(phase, o);
    }
    NothingChosen(NotForged(p), chosen);
    NextWithoutForged(p, phase, chosen, didState);
    assert NextState(p, phase, [], didState).None?;
  }

  /** If nothing stored of a DID is signed by the key it names, resolution ends and comes to the state of the first
      create, or throws. */
  lemma NothingSignedNothingApplied(p: Primitives, operations: seq<AnchoredOperation>)
    requires forall o <- operations :: !o.operationBuffer.CreateRequest? ==> Forged(p, o)
    ensures Terminates(p, operations)
    ensures match FirstState(p, OfType(operations, Create))
            case None => Resolve(p, operations) == DidNotFound
            case Some(first) => Resolve(p, operations) == Resolved(first) || Resolve(p, operations) == Thrown
  {
    var first := FirstState(p, OfType(operations, Create));
    if first.Some? {
      ForgedPhaseStandsStill(p, Recovery, operations, first.value);
      ForgedPhaseStandsStill(p, Updating, operations, first.value);
    }
  }
}
