/** Applies one anchored operation to the state of a DID. */
module OperationProcessor {
  import opened Wrappers
  import opened Models
  import opened Multihash
  import opened Operations
  import opened DocumentComposer

  datatype DidState = DidState(
    document: DocumentModel,
    nextRecoveryCommitmentHash: Option<string>,
    nextUpdateCommitmentHash: Option<string>,
    lastOperationTransactionNumber: nat)

  /** The delta is available and is the one that was committed to. */
  predicate MatchingDelta(p: Primitives, delta: Option<Delta>, deltaHash: string) {
    delta.Some? && VerifyEncodedMultihashForContent(p, p.canonicalDelta(delta.value), deltaHash)
  }

  /** The state an accepted create or recover starts from: without a matching delta it has no document and cannot be
      updated. */
  function StartingState(
    p: Primitives, delta: Option<Delta>, deltaHash: string, recoveryCommitment: string, transactionNumber: nat)
    : DidState
  {
    if MatchingDelta(p, delta, deltaHash) then
      DidState(ApplyPatches(EMPTY_DOCUMENT, delta.value.patches), Some(recoveryCommitment),
               Some(delta.value.updateCommitment), transactionNumber)
    else DidState(EMPTY_DOCUMENT, Some(recoveryCommitment), None, transactionNumber)
  }

  // In the functions below `Ok(None)` means that the given state is returned as it is, `Err` that parsing throws.

  function ApplyCreate(p: Primitives, operation: AnchoredOperation, didState: Option<DidState>)
    : Result<Option<DidState>, Error>
    requires operation.operationBuffer.CreateRequest?
  {
    if didState.Some? then Ok(None)
    else
      var create :- ParseCreate(p, operation.operationBuffer);
      Ok(Some(StartingState(p, create.delta, create.suffixData.deltaHash, create.suffixData.recoveryCommitment,
                            operation.transactionNumber)))
  }

  function ApplyUpdate(p: Primitives, operation: AnchoredOperation, didState: DidState)
    : Result<Option<DidState>, Error>
    requires operation.operationBuffer.UpdateRequest?
  {
    var update :- ParseUpdate(p, operation.operationBuffer);
    if !VerifyDoubleHash(p, update.signedData.updateKey, didState.nextUpdateCommitmentHash) then Ok(None)
    else if !p.verifySignature(update.signedDataJws, update.signedData.updateKey) then Ok(None)
    else if !MatchingDelta(p, update.delta, update.signedData.deltaHash) then Ok(None)
    else
      Ok(Some(DidState(ApplyPatches(didState.document, update.delta.value.patches), didState.nextRecoveryCommitmentHash,
                       Some(update.delta.value.updateCommitment), operation.transactionNumber)))
  }

  function ApplyRecover(p: Primitives, operation: AnchoredOperation, didState: DidState)
    : Result<Option<DidState>, Error>
    requires operation.operationBuffer.RecoverRequest?
  {
    var recover :- ParseRecover(p, operation.operationBuffer);
    if !VerifyDoubleHash(p, recover.signedData.recoveryKey, didState.nextRecoveryCommitmentHash) then Ok(None)
    else if !p.verifySignature(recover.signedDataJws, recover.signedData.recoveryKey) then Ok(None)
    else
      Ok(Some(StartingState(p, recover.delta, recover.signedData.deltaHash, recover.signedData.recoveryCommitment,
                            operation.transactionNumber)))
  }

  function ApplyDeactivate(p: Primitives, operation: AnchoredOperation, didState: DidState)
    : Result<Option<DidState>, Error>
    requires operation.operationBuffer.DeactivateRequest?
  {
    var deactivate :- ParseDeactivate(p, operation.operationBuffer);
    if !VerifyDoubleHash(p, deactivate.signedData.recoveryKey, didState.nextRecoveryCommitmentHash) then Ok(None)
    else if !p.verifySignature(deactivate.signedDataJws, deactivate.signedData.recoveryKey) then Ok(None)
    else Ok(Some(DidState(didState.document, None, None, operation.transactionNumber)))
  }

  function Apply(p: Primitives, operation: AnchoredOperation, didState: Option<DidState>)
    : Result<Option<DidState>, Error>
  {
    match operation.operationBuffer
    case CreateRequest(_, _) => ApplyCreate(p, operation, didState)
    case UpdateRequest(_, _, _, _) => if didState.None? then Ok(None) else ApplyUpdate(p, operation, didState.value)
    case RecoverRequest(_, _, _, _) => if didState.None? then Ok(None) else ApplyRecover(p, operation, didState.value)
    case DeactivateRequest(_, _, _) =>
      if didState.None? then Ok(None) else ApplyDeactivate(p, operation, didState.value)
  }

  /** The state an operation leads to, if it is valid on the given one. */
  function Transition(p: Primitives, operation: AnchoredOperation, didState: Option<DidState>): Option<DidState> {
    var applied := Apply(p, operation, didState);
    if applied.Ok? then applied.value else None
  }

  /** The reveal value of an operation that is not a create. */
  function RevealValue(p: Primitives, operation: AnchoredOperation): Result<string, Error> {
    match operation.operationBuffer
    case CreateRequest(_, _) => Err(Malformed)
    case UpdateRequest(_, revealValue, _, _) => var _ :- ParseUpdate(p, operation.operationBuffer); Ok(revealValue)
    case RecoverRequest(_, revealValue, _, _) => var _ :- ParseRecover(p, operation.operationBuffer); Ok(revealValue)
    case DeactivateRequest(_, revealValue, _) => var _ :- ParseDeactivate(p, operation.operationBuffer); Ok(revealValue)
  }

  /** Recoveries and deactivations open the recovery commitment, updates the update commitment. */
  datatype Phase = Recovery | Updating

  predicate InPhase(phase: Phase, operation: AnchoredOperation) {
    match phase
    case Recovery => operation.operationBuffer.RecoverRequest? || operation.operationBuffer.DeactivateRequest?
    case Updating => operation.operationBuffer.UpdateRequest?
  }

  function Commitment(phase: Phase, didState: DidState): Option<string> {
    match phase
    case Recovery => didState.nextRecoveryCommitmentHash
    case Updating => didState.nextUpdateCommitmentHash
  }

  /** Documents of resolved states never hold two keys or two services with one identifier. */
  predicate UniqueState(didState: DidState) {
    UniqueDocument(didState.document)
  }

  lemma StartingStateIsUnique(
    p: Primitives, delta: Option<Delta>, deltaHash: string, recoveryCommitment: string, transactionNumber: nat)
    requires delta.Some? ==> CheckDelta(p, delta).Ok?
    ensures UniqueState(StartingState(p, delta, deltaHash, recoveryCommitment, transactionNumber))
  {
    if MatchingDelta(p, delta, deltaHash) {
      CheckedPatchesAreUpserts(p, EMPTY_DOCUMENT, delta.value.patches);
    }
  }

  /** Every valid operation leads from a state with unique identifiers to one. */
  lemma TransitionKeepsUnique(p: Primitives, operation: AnchoredOperation, didState: Option<DidState>)
    requires didState.Some? ==> UniqueState(didState.value)
    requires Transition(p, operation, didState).Some?
    ensures UniqueState(Transition(p, operation, didState).value)
  {
    match operation.operationBuffer
    case CreateRequest(_, _) =>
      var o := ParseCreate(p, operation.operationBuffer).value;
      StartingStateIsUnique(p, o.delta, o.suffixData.deltaHash, o.suffixData.recoveryCommitment,
                            operation.transactionNumber);
    case RecoverRequest(_, _, _, _) =>
      var o := ParseRecover(p, operation.operationBuffer).value;
      StartingStateIsUnique(p, o.delta, o.signedData.deltaHash, o.signedData.recoveryCommitment,
                            operation.transactionNumber);
    case DeactivateRequest(_, _, _) =>
    case UpdateRequest(_, _, _, _) =>
      var o := ParseUpdate(p, operation.operationBuffer).value;
      CheckedPatchesAreUpserts(p, didState.value.document, o.delta.value.patches);
  }

  // ------------------------------------------------------------ states on the heap

  /** A DID state object, whose document is an object of its own. */
  class DidStateObject {
    var document: Document
    var nextRecoveryCommitmentHash: Option<string>
    var nextUpdateCommitmentHash: Option<string>
    var lastOperationTransactionNumber: nat

    constructor (document: Document, recovery: Option<string>, update: Option<string>, transactionNumber: nat)
      ensures this.document == document && nextRecoveryCommitmentHash == recovery
      ensures nextUpdateCommitmentHash == update && lastOperationTransactionNumber == transactionNumber
    {
      this.document := document;
      nextRecoveryCommitmentHash := recovery;
      nextUpdateCommitmentHash := update;
      lastOperationTransactionNumber := transactionNumber;
    }

    ghost function View(): DidState
      reads this, document, document.services
    {
      DidState(document.View(), nextRecoveryCommitmentHash, nextUpdateCommitmentHash, lastOperationTransactionNumber)
    }
  }

  /** The new state of an accepted create or recover, with a document of its own. */
  method NewStartingState(
    p: Primitives, delta: Option<Delta>, deltaHash: string, recoveryCommitment: string, transactionNumber: nat)
    returns (r: DidStateObject)
    ensures fresh(r) && fresh(r.document.Footprint())
    ensures r.View() == StartingState(p, delta, deltaHash, recoveryCommitment, transactionNumber)
  {
    var empty := new Document();
    r := new DidStateObject(empty, Some(recoveryCommitment), None, transactionNumber);
    if MatchingDelta(p, delta, deltaHash) {
      r.nextUpdateCommitmentHash := Some(delta.value.updateCommitment);
      var document := new Document();
      ApplyPatchesInPlace(document, delta.value.patches);
      r.document := document;
    }
  }

  /** Applies an operation to a state object. An operation that is not valid returns the given object; a valid one
      returns a new object, and neither the given object nor its document is changed by making it. */
  method ApplyToObject(p: Primitives, operation: AnchoredOperation, didState: DidStateObject)
    returns (r: DidStateObject)
    ensures var transition := Transition(p, operation, Some(didState.View()));
            if transition.None? then r == didState else fresh(r) && r.View() == transition.value
    ensures r.document == didState.document || fresh(r.document.Footprint())
    ensures didState.View() == old(didState.View())
  {
    r := didState;
    match operation.operationBuffer
    case CreateRequest(_, _) =>
    case UpdateRequest(_, _, _, _) =>
      var parsed := ParseUpdate(p, operation.operationBuffer);
      if parsed.Ok?
         && VerifyDoubleHash(p, parsed.value.signedData.updateKey, didState.nextUpdateCommitmentHash)
         && p.verifySignature(parsed.value.signedDataJws, parsed.value.signedData.updateKey)
         && MatchingDelta(p, parsed.value.delta, parsed.value.signedData.deltaHash) {
        var delta := parsed.value.delta.value;
        r := new DidStateObject(didState.document, didState.nextRecoveryCommitmentHash, Some(delta.updateCommitment),
                                operation.transactionNumber);
        var document := PatchedCopy(didState.document, delta.patches);
        r.document := document;
      }
    case RecoverRequest(_, _, _, _) =>
      var parsed := ParseRecover(p, operation.operationBuffer);
      if parsed.Ok?
         && VerifyDoubleHash(p, parsed.value.signedData.recoveryKey, didState.nextRecoveryCommitmentHash)
         && p.verifySignature(parsed.value.signedDataJws, parsed.value.signedData.recoveryKey) {
        r := NewStartingState(p, parsed.value.delta, parsed.value.signedData.deltaHash,
                              parsed.value.signedData.recoveryCommitment, operation.transactionNumber);
      }
    case DeactivateRequest(_, _, _) =>
      var parsed := ParseDeactivate(p, operation.operationBuffer);
      if parsed.Ok?
         && VerifyDoubleHash(p, parsed.value.signedData.recoveryKey, didState.nextRecoveryCommitmentHash)
         && p.verifySignature(parsed.value.signedDataJws, parsed.value.signedData.recoveryKey) {
        r := new DidStateObject(didState.document, None, None, operation.transactionNumber);
      }
  }
}
