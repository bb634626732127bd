/** When requests are admitted and operations are valid, in terms of the environment alone. */
module OperationValidity {
  import opened Wrappers
  import opened Models
  import opened Text
  import opened JwsCompact
  import opened Operations
  import opened OperationProcessor
  import DocumentComposer

  // ------------------------------------------------------------ signed data

  /** The text is the compact form of a JWS whose parts are well-formed. */
  predicate Signed(p: Primitives, text: Option<string>, jws: Jws) {
    && text == Some(jws.protectedHeader + "." + jws.payload + "." + jws.signature)
    && '.' !in jws.protectedHeader && '.' !in jws.payload && '.' !in jws.signature
    && p.jwsHeader(jws.protectedHeader).Ok? && p.isBase64Url(jws.payload) && p.isBase64Url(jws.signature)
  }

  /** Exactly the compact forms are parsed, into the JWS they are the form of. */
  lemma ParsedIsSigned(p: Primitives, text: Option<string>, jws: Jws)
    ensures ParseCompactJws(p, text) == Ok(jws) <==> Signed(p, text, jws)
  {
    if Signed(p, text, jws) {
      ParsingUndoesPrinting(p, jws);
    }
    if ParseCompactJws(p, text) == Ok(jws) {
      PrintingUndoesParsing(p, text);
      SplitIsInvertedByJoin(text.value, '.');
      var parts := Split(text.value, '.');
      assert '.' !in parts[0] && '.' !in parts[1] && '.' !in parts[2];
    }
  }

  /** The text is the encoded hash of the content. */
  predicate IsHashOf(p: Primitives, content: string, text: string) {
    p.decodeMultihash(text).Some? && p.encodeMultihash(p.digest(content)) == text
  }

  /** The commitment decodes to the hash of the hash of the key. */
  predicate CommitsTo(p: Primitives, commitment: Option<string>, key: string) {
    commitment.Some? && p.decodeMultihash(commitment.value) == Some(p.digest(p.digest(key)))
  }

  // ------------------------------------------------------------ deltas

  predicate DistinctKeys(keys: seq<PublicKey>) {
    forall i, j :: 0 <= i < j < |keys| ==> keys[i].id != keys[j].id
  }

  predicate DistinctServices(services: seq<Service>) {
    forall i, j :: 0 <= i < j < |services| ==> services[i].id != services[j].id
  }

  predicate GoodPatch(p: Primitives, patch: Patch) {
    && p.patchSchema(patch).Ok?
    && match patch
       case Replace(document) =>
         && (document.publicKeys.Some? ==> DistinctKeys(document.publicKeys.value))
         && (document.services.Some? ==> DistinctServices(document.services.value))
       case AddPublicKeys(keys) => DistinctKeys(keys)
       case AddServices(services) => DistinctServices(services)
       case RemovePublicKeys(_) => true
       case RemoveServices(_) => true
  }

  predicate GoodDelta(p: Primitives, delta: Option<Delta>) {
    && delta.Some? && p.decodeMultihash(delta.value.updateCommitment).Some?
    && forall i :: 0 <= i < |delta.value.patches| ==> GoodPatch(p, delta.value.patches[i])
  }

  lemma PatchIsCheckedExactly(p: Primitives, patch: Patch)
    ensures CheckPatch(p, patch).Ok? <==> GoodPatch(p, patch)
  {
    KeysAreCheckedExactly(if patch.AddPublicKeys? then patch.publicKeys
                          else if patch.Replace? then OrEmpty(patch.document.publicKeys) else []);
    ServicesAreCheckedExactly(if patch.AddServices? then patch.services
                              else if patch.Replace? then OrEmpty(patch.document.services) else []);
  }

  function OrEmpty<T>(s: Option<seq<T>>): seq<T> {
    if s.Some? then s.value else []
  }

  lemma KeysAreCheckedExactly(keys: seq<PublicKey>)
    ensures CheckPublicKeys(keys).Ok? <==> DistinctKeys(keys)
  {
    assert forall i :: 0 <= i < |keys| ==> KeyIds(keys)[i] == keys[i].id;
  }

  lemma ServicesAreCheckedExactly(services: seq<Service>)
    ensures CheckServices(services).Ok? <==> DistinctServices(services)
  {
    assert forall i :: 0 <= i < |services| ==> ServiceIds(services)[i] == services[i].id;
  }

  lemma {:induction false} PatchesAreCheckedExactly(p: Primitives, patches: seq<Patch>)
    ensures CheckPatches(p, patches).Ok? <==> forall i :: 0 <= i < |patches| ==> GoodPatch(p, patches[i])
  {
    if patches != [] {
      PatchIsCheckedExactly(p, patches[0]);
      PatchesAreCheckedExactly(p, patches[1..]);
      assert forall i :: 0 < i < |patches| ==> patches[i] == patches[1..][i - 1];
      assert forall i :: 0 <= i < |patches| - 1 ==> patches[1..][i] == patches[i + 1];
    }
  }

  lemma DeltaIsCheckedExactly(p: Primitives, delta: Option<Delta>)
    ensures CheckDelta(p, delta).Ok? <==> GoodDelta(p, delta)
  {
    if delta.Some? {
      PatchesAreCheckedExactly(p, delta.value.patches);
    }
  }

  // ------------------------------------------------------------ parsing

  /** What the signed data of each type of request must hold. */
  predicate SignedForUpdate(p: Primitives, request: Request, jws: Jws)
    requires request.UpdateRequest?
  {
    && Signed(p, request.signedData, jws) && p.updatePayload(jws.payload).Ok?
    && IsHashOf(p, p.updatePayload(jws.payload).value.updateKey, request.revealValue)
  }

  predicate SignedForRecover(p: Primitives, request: Request, jws: Jws)
    requires request.RecoverRequest?
  {
    && Signed(p, request.signedData, jws) && p.recoverPayload(jws.payload).Ok?
    && IsHashOf(p, p.recoverPayload(jws.payload).value.recoveryKey, request.revealValue)
  }

  /** A deactivate is signed for the DID it is about. */
  predicate SignedForDeactivate(p: Primitives, request: Request, jws: Jws)
    requires request.DeactivateRequest?
  {
    && Signed(p, request.signedData, jws) && p.deactivatePayload(jws.payload).Ok?
    && p.deactivatePayload(jws.payload).value.didSuffix == request.didSuffix
    && IsHashOf(p, p.deactivatePayload(jws.payload).value.recoveryKey, request.revealValue)
  }

  lemma UpdateIsParsedExactly(p: Primitives, request: Request, jws: Jws)
    requires request.UpdateRequest?
    ensures SignedForUpdate(p, request, jws) && GoodDelta(p, request.delta) <==>
            ParseUpdate(p, request).Ok? && ParseUpdate(p, request).value.signedDataJws == jws
    ensures ParseUpdate(p, request).Ok? && ParseUpdate(p, request).value.signedDataJws == jws ==>
              Ok(ParseUpdate(p, request).value.signedData) == p.updatePayload(jws.payload)
  {
    ParsedIsSigned(p, request.signedData, jws);
    DeltaIsCheckedExactly(p, request.delta);
  }

  lemma RecoverIsParsedExactly(p: Primitives, request: Request, jws: Jws)
    requires request.RecoverRequest?
    ensures SignedForRecover(p, request, jws) <==>
            ParseRecover(p, request).Ok? && ParseRecover(p, request).value.signedDataJws == jws
    ensures ParseRecover(p, request).Ok? && ParseRecover(p, request).value.signedDataJws == jws ==>
              Ok(ParseRecover(p, request).value.signedData) == p.recoverPayload(jws.payload)
  {
    ParsedIsSigned(p, request.signedData, jws);
  }

  lemma DeactivateIsParsedExactly(p: Primitives, request: Request, jws: Jws)
    requires request.DeactivateRequest?
    ensures SignedForDeactivate(p, request, jws) <==>
            ParseDeactivate(p, request).Ok? && ParseDeactivate(p, request).value.signedDataJws == jws
    ensures ParseDeactivate(p, request).Ok? && ParseDeactivate(p, request).value.signedDataJws == jws ==>
              Ok(ParseDeactivate(p, request).value.signedData) == p.deactivatePayload(jws.payload)
  {
    ParsedIsSigned(p, request.signedData, jws);
  }

  // ------------------------------------------------------------ admission

  predicate GoodSuffixData(p: Primitives, suffixData: SuffixData) {
    && p.decodeMultihash(suffixData.deltaHash).Some? && p.decodeMultihash(suffixData.recoveryCommitment).Some?
    && p.didTypeOk(suffixData.didType)
  }

  predicate SizedDelta(p: Primitives, delta: Option<Delta>) {
    GoodDelta(p, delta) && p.deltaWithinSize(delta.value)
  }

  /** Whether some JWS is what the signed data of a request must be. */
  ghost predicate ProperlySigned(p: Primitives, request: Request) {
    match request
    case CreateRequest(_, _) => true
    case UpdateRequest(_, _, _, _) => exists jws :: SignedForUpdate(p, request, jws)
    case RecoverRequest(_, _, _, _) => exists jws :: SignedForRecover(p, request, jws)
    case DeactivateRequest(_, _, _) => exists jws :: SignedForDeactivate(p, request, jws)
  }

  lemma ProperlySignedExactly(p: Primitives, request: Request)
    ensures request.UpdateRequest? ==>
              (ProperlySigned(p, request) && GoodDelta(p, request.delta) <==> ParseUpdate(p, request).Ok?)
    ensures request.RecoverRequest? ==> (ProperlySigned(p, request) <==> ParseRecover(p, request).Ok?)
    ensures request.DeactivateRequest? ==> (ProperlySigned(p, request) <==> ParseDeactivate(p, request).Ok?)
  {
    match request
    case CreateRequest(_, _) =>
    case UpdateRequest(_, _, _, _) =>
      forall jws {
        UpdateIsParsedExactly(p, request, jws);
      }
    case RecoverRequest(_, _, _, _) =>
      forall jws {
        RecoverIsParsedExactly(p, request, jws);
      }
    case DeactivateRequest(_, _, _) =>
      forall jws {
        DeactivateIsParsedExactly(p, request, jws);
      }
  }

  /** A request is admitted if and only if its signed data is in order and, unless it is a deactivate, its delta is,
      and, if it is a create, its suffix data is. */
  lemma AdmittedExactly(p: Primitives, request: Request)
    ensures Admit(p, request).Ok? <==>
            && ProperlySigned(p, request)
            && (!request.DeactivateRequest? ==> SizedDelta(p, request.delta))
            && (request.CreateRequest? ==> GoodSuffixData(p, request.suffixData))
  {
    ProperlySignedExactly(p, request);
    if !request.DeactivateRequest? {
      DeltaIsCheckedExactly(p, request.delta);
    }
  }

  /** A deactivate that is admitted is signed for the DID it is about. */
  lemma AdmittedDeactivateIsItsOwn(p: Primitives, request: Request)
    requires request.DeactivateRequest? && Admit(p, request).Ok?
    ensures exists jws ::
              && Signed(p, request.signedData, jws) && p.deactivatePayload(jws.payload).Ok?
              && p.deactivatePayload(jws.payload).value.didSuffix == request.didSuffix
  {
    AdmittedExactly(p, request);
    var jws :| SignedForDeactivate(p, request, jws);
  }

  // ------------------------------------------------------------ validity

  /** The signed data of an update is by a key that the state commits to, and is about the delta it comes with. */
  predicate AuthorisesUpdate(p: Primitives, operation: AnchoredOperation, didState: DidState, jws: Jws)
    requires operation.operationBuffer.UpdateRequest?
  {
    var request := operation.operationBuffer;
    && SignedForUpdate(p, request, jws) && GoodDelta(p, request.delta)
    && var signedData := p.updatePayload(jws.payload).value;
       && CommitsTo(p, didState.nextUpdateCommitmentHash, signedData.updateKey)
       && p.verifySignature(jws, signedData.updateKey)
       && IsHashOf(p, p.canonicalDelta(request.delta.value), signedData.deltaHash)
  }

  predicate AuthorisesRecover(p: Primitives, operation: AnchoredOperation, didState: DidState, jws: Jws)
    requires operation.operationBuffer.RecoverRequest?
  {
    && SignedForRecover(p, operation.operationBuffer, jws)
    && var signedData := p.recoverPayload(jws.payload).value;
       && CommitsTo(p, didState.nextRecoveryCommitmentHash, signedData.recoveryKey)
       && p.verifySignature(jws, signedData.recoveryKey)
  }

  predicate AuthorisesDeactivate(p: Primitives, operation: AnchoredOperation, didState: DidState, jws: Jws)
    requires operation.operationBuffer.DeactivateRequest?
  {
    && SignedForDeactivate(p, operation.operationBuffer, jws)
    && var signedData := p.deactivatePayload(jws.payload).value;
       && CommitsTo(p, didState.nextRecoveryCommitmentHash, signedData.recoveryKey)
       && p.verifySignature(jws, signedData.recoveryKey)
  }

  /** An update is valid if and only if it is authorised; it patches the document, sets the update commitment of its
      delta, and keeps the recovery commitment. */
  lemma UpdateIsValidExactly(p: Primitives, operation: AnchoredOperation, didState: DidState)
    requires operation.operationBuffer.UpdateRequest?
    ensures Transition(p, operation, Some(didState)).Some? <==>
            exists jws :: AuthorisesUpdate(p, operation, didState, jws)
    ensures Transition(p, operation, Some(didState)).Some? ==>
              var delta := operation.operationBuffer.delta;
              && delta.Some?
              && Transition(p, operation, Some(didState)).value
                 == DidState(DocumentComposer.ApplyPatches(didState.document, delta.value.patches),
                             didState.nextRecoveryCommitmentHash, Some(delta.value.updateCommitment),
                             operation.transactionNumber)
  {
    forall jws {
      UpdateIsParsedExactly(p, operation.operationBuffer, jws);
    }
    var parsed := ParseUpdate(p, operation.operationBuffer);
    if Transition(p, operation, Some(didState)).Some? {
      assert AuthorisesUpdate(p, operation, didState, parsed.value.signedDataJws);
    }
  }

  /** The state a create or recover starts from: with a good delta that hashes to the expected value, the patched empty
      document and the update commitment of the delta; otherwise an empty document that cannot be updated. */
  predicate StartsFrom(
    p: Primitives, didState: DidState, delta: Option<Delta>, deltaHash: string, recoveryCommitment: string,
    transactionNumber: nat)
  {
    && didState.nextRecoveryCommitmentHash == Some(recoveryCommitment)
    && didState.lastOperationTransactionNumber == transactionNumber
    && if GoodDelta(p, delta) && IsHashOf(p, p.canonicalDelta(delta.value), deltaHash) then
         && didState.document == DocumentComposer.ApplyPatches(DocumentModel(None, None), delta.value.patches)
         && didState.nextUpdateCommitmentHash == Some(delta.value.updateCommitment)
       else didState.document == DocumentModel(None, None) && didState.nextUpdateCommitmentHash == None
  }

  /** A recover is valid if and only if it is authorised; what it makes does not depend on the document before. */
  lemma RecoverIsValidExactly(p: Primitives, operation: AnchoredOperation, didState: DidState)
    requires operation.operationBuffer.RecoverRequest?
    ensures Transition(p, operation, Some(didState)).Some? <==>
            exists jws :: AuthorisesRecover(p, operation, didState, jws)
    ensures forall jws :: AuthorisesRecover(p, operation, didState, jws) ==>
              var signedData := p.recoverPayload(jws.payload).value;
              && Transition(p, operation, Some(didState)).Some?
              && StartsFrom(p, Transition(p, operation, Some(didState)).value, operation.operationBuffer.delta,
                            signedData.deltaHash, signedData.recoveryCommitment, operation.transactionNumber)
  {
    DeltaIsCheckedExactly(p, operation.operationBuffer.delta);
    forall jws {
      RecoverIsParsedExactly(p, operation.operationBuffer, jws);
    }
    var parsed := ParseRecover(p, operation.operationBuffer);
    if Transition(p, operation, Some(didState)).Some? {
      assert AuthorisesRecover(p, operation, didState, parsed.value.signedDataJws);
    }
  }

  /** A deactivate is valid if and only if it is authorised; it keeps the document and leaves no commitment. */
  lemma DeactivateIsValidExactly(p: Primitives, operation: AnchoredOperation, didState: DidState)
    requires operation.operationBuffer.DeactivateRequest?
    ensures Transition(p, operation, Some(didState)).Some? <==>
            exists jws :: AuthorisesDeactivate(p, operation, didState, jws)
    ensures Transition(p, operation, Some(didState)).Some? ==>
              Transition(p, operation, Some(didState)).value
              == DidState(didState.document, None, None, operation.transactionNumber)
  {
    forall jws {
      DeactivateIsParsedExactly(p, operation.operationBuffer, jws);
    }
    var parsed := ParseDeactivate(p, operation.operationBuffer);
    if Transition(p, operation, Some(didState)).Some? {
      assert AuthorisesDeactivate(p, operation, didState, parsed.value.signedDataJws);
    }
  }

  /** A create makes a state if and only if it comes with a delta, good or not, and good suffix data. */
  lemma CreateIsValidExactly(p: Primitives, operation: AnchoredOperation)
    requires operation.operationBuffer.CreateRequest?
    ensures var request := operation.operationBuffer;
            && (Transition(p, operation, None).Some? <==>
                request.delta.Some? && GoodSuffixData(p, request.suffixData))
            && (Transition(p, operation, None).Some? ==>
                  StartsFrom(p, Transition(p, operation, None).value, request.delta, request.suffixData.deltaHash,
                             request.suffixData.recoveryCommitment, operation.transactionNumber))
  {
    DeltaIsCheckedExactly(p, operation.operationBuffer.delta);
  }

  /** Only creates make a state from nothing, and they do nothing else. */
  lemma OnlyCreatesStart(p: Primitives, operation: AnchoredOperation, didState: DidState)
    ensures operation.operationBuffer.CreateRequest? ==> Transition(p, operation, Some(didState)).None?
    ensures !operation.operationBuffer.CreateRequest? ==> Transition(p, operation, None).None?
  {
  }
}
