/** Parsing of operation requests, and the checks a request passes before it is queued. */
module Operations {
  import opened Wrappers
  import opened Models
  import opened Multihash
  import opened JwsCompact
  import opened ArrayMethods

  // ------------------------------------------------------------ deltas

  function KeyIds(keys: seq<PublicKey>): (ids: seq<string>) {
    seq(|keys|, i requires 0 <= i < |keys| => keys[i].id)
  }

  function ServiceIds(services: seq<Service>): (ids: seq<string>) {
    seq(|services|, i requires 0 <= i < |services| => services[i].id)
  }

  function CheckPublicKeys(keys: seq<PublicKey>): Result<(), Error> {
    if NoDuplicates(KeyIds(keys)) then Ok(()) else Err(DocumentComposerPublicKeyIdDuplicated)
  }

  function CheckServices(services: seq<Service>): Result<(), Error> {
    if NoDuplicates(ServiceIds(services)) then Ok(()) else Err(DocumentComposerPatchServiceIdNotUnique)
  }

  function CheckDocument(document: DocumentModel): Result<(), Error> {
    var _ :- if document.publicKeys.Some? then CheckPublicKeys(document.publicKeys.value) else Ok(());
    if document.services.Some? then CheckServices(document.services.value) else Ok(())
  }

  function CheckPatch(p: Primitives, patch: Patch): Result<(), Error> {
    var _ :- p.patchSchema(patch);
    match patch
    case Replace(document) => CheckDocument(document)
    case AddPublicKeys(keys) => CheckPublicKeys(keys)
    case AddServices(services) => CheckServices(services)
    case RemovePublicKeys(_) => Ok(())
    case RemoveServices(_) => Ok(())
  }

  function CheckPatches(p: Primitives, patches: seq<Patch>): Result<(), Error> {
    if patches == [] then Ok(())
    else
      var _ :- CheckPatch(p, patches[0]);
      CheckPatches(p, patches[1..])
  }

  /** The schema check of a delta. */
  function CheckDelta(p: Primitives, delta: Option<Delta>): Result<(), Error> {
    if delta.None? then Err(Malformed)
    else
      var _ :- CheckPatches(p, delta.value.patches);
      if IsMultihash(p, delta.value.updateCommitment) then Ok(()) else Err(EncodedMultihashNotSupported)
  }

  /** The schema check preceded by the check of presence and size. */
  function CheckSizedDelta(p: Primitives, delta: Option<Delta>): Result<(), Error> {
    if delta.None? then Err(DeltaIsNullOrUndefined)
    else if !p.deltaWithinSize(delta.value) then Err(DeltaExceedsMaximumSize)
    else CheckDelta(p, delta)
  }

  /** An invalid delta is treated as one that is not available. */
  function UsableDelta(p: Primitives, delta: Option<Delta>): Option<Delta> {
    if CheckDelta(p, delta).Ok? then delta else None
  }

  // ------------------------------------------------------------ requests

  predicate ValidSuffixData(p: Primitives, suffixData: SuffixData) {
    && IsMultihash(p, suffixData.deltaHash)
    && IsMultihash(p, suffixData.recoveryCommitment)
    && p.didTypeOk(suffixData.didType)
  }

  function ParseCreate(p: Primitives, request: Request): Result<CreateOperation, Error>
    requires request.CreateRequest?
  {
    if request.delta.None? then Err(CreateOperationMissingOrUnknownProperty)
    else if !ValidSuffixData(p, request.suffixData) then Err(EncodedMultihashNotSupported)
    else Ok(CreateOperation(p.uniqueSuffix(request.suffixData), request.suffixData, UsableDelta(p, request.delta)))
  }

  function ParseDeactivatePayload(p: Primitives, payload: string, expectedDidUniqueSuffix: Option<string>)
    : Result<DeactivateSignedData, Error>
  {
    var signedData :- p.deactivatePayload(payload);
    if Some(signedData.didSuffix) != expectedDidUniqueSuffix then Err(DeactivateOperationSignedDidUniqueSuffixMismatch)
    else Ok(signedData)
  }

  function ParseRecover(p: Primitives, request: Request): Result<RecoverOperation, Error>
    requires request.RecoverRequest?
  {
    if !IsMultihash(p, request.revealValue) then Err(EncodedMultihashNotSupported)
    else
      var jws :- ParseCompactJws(p, request.signedData);
      var signedData :- p.recoverPayload(jws.payload);
      if !VerifyEncodedMultihashForContent(p, signedData.recoveryKey, request.revealValue) then
        Err(CanonicalizedObjectHashMismatch)
      else
        Ok(RecoverOperation(request.didSuffix, request.revealValue, jws, signedData, UsableDelta(p, request.delta)))
  }

  function ParseDeactivate(p: Primitives, request: Request): Result<DeactivateOperation, Error>
    requires request.DeactivateRequest?
  {
    if !IsMultihash(p, request.revealValue) then Err(EncodedMultihashNotSupported)
    else
      var jws :- ParseCompactJws(p, request.signedData);
      var signedData :- ParseDeactivatePayload(p, jws.payload, Some(request.didSuffix));
      if !VerifyEncodedMultihashForContent(p, signedData.recoveryKey, request.revealValue) then
        Err(CanonicalizedObjectHashMismatch)
      else
        Ok(DeactivateOperation(request.didSuffix, request.revealValue, jws, signedData))
  }

  function ParseUpdate(p: Primitives, request: Request): Result<UpdateOperation, Error>
    requires request.UpdateRequest?
  {
    if !IsMultihash(p, request.revealValue) then Err(EncodedMultihashNotSupported)
    else
      var jws :- ParseCompactJws(p, request.signedData);
      var signedData :- p.updatePayload(jws.payload);
      if !VerifyEncodedMultihashForContent(p, signedData.updateKey, request.revealValue) then
        Err(CanonicalizedObjectHashMismatch)
      else
        var _ :- CheckDelta(p, request.delta);
        Ok(UpdateOperation(request.didSuffix, request.revealValue, jws, signedData, request.delta))
  }

  function Parse(p: Primitives, request: Request): Result<OperationModel, Error> {
    match request
    case CreateRequest(_, _) => var o :- ParseCreate(p, request); Ok(CreateModel(o))
    case RecoverRequest(_, _, _, _) => var o :- ParseRecover(p, request); Ok(RecoverModel(o))
    case DeactivateRequest(_, _, _) => var o :- ParseDeactivate(p, request); Ok(DeactivateModel(o))
    case UpdateRequest(_, _, _, _) => var o :- ParseUpdate(p, request); Ok(UpdateModel(o))
  }

  /** The DID an operation request is about. */
  function SuffixOf(p: Primitives, request: Request): string {
    match request
    case CreateRequest(suffixData, _) => p.uniqueSuffix(suffixData)
    case RecoverRequest(didSuffix, _, _, _) => didSuffix
    case DeactivateRequest(didSuffix, _, _) => didSuffix
    case UpdateRequest(didSuffix, _, _, _) => didSuffix
  }

  // ------------------------------------------------------------ admission

  /** The validation of a request before it may be queued: the delta first, for the types that carry one. */
  function Admit(p: Primitives, request: Request): Result<OperationModel, Error> {
    var _ :- if request.DeactivateRequest? then Ok(()) else CheckSizedDelta(p, request.delta);
    Parse(p, request)
  }

  /** The request that carries a parsed operation. */
  function RequestOf(operation: OperationModel): Request {
    match operation
    case CreateModel(o) => CreateRequest(o.suffixData, o.delta)
    case RecoverModel(o) =>
      RecoverRequest(o.didUniqueSuffix, o.revealValue, Some(ToCompactJws(o.signedDataJws)), o.delta)
    case DeactivateModel(o) =>
      DeactivateRequest(o.didUniqueSuffix, o.revealValue, Some(ToCompactJws(o.signedDataJws)))
    case UpdateModel(o) =>
      UpdateRequest(o.didUniqueSuffix, o.revealValue, Some(ToCompactJws(o.signedDataJws)), o.delta)
  }

  function ModelSuffix(operation: OperationModel): string {
    match operation
    case CreateModel(o) => o.didUniqueSuffix
    case RecoverModel(o) => o.didUniqueSuffix
    case DeactivateModel(o) => o.didUniqueSuffix
    case UpdateModel(o) => o.didUniqueSuffix
  }

  /** Nothing is lost between an admitted request and the operation parsed from it. */
  lemma AdmittedRequestIsRecovered(p: Primitives, request: Request)
    requires Admit(p, request).Ok?
    ensures RequestOf(Admit(p, request).value) == request
    ensures ModelSuffix(Admit(p, request).value) == SuffixOf(p, request)
    ensures Parse(p, request) == Admit(p, request)
  {
    if !request.CreateRequest? {
      PrintingUndoesParsing(p, request.signedData);
    }
  }
}
