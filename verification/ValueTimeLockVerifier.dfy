/** How many operations a value time lock pays for. */
module ValueTimeLockVerifier {
  import opened Wrappers
  import opened Models

  type MetadataFetcher = nat -> VersionMetadata

  /** The amount that must be locked per operation. */
  function AmountPerOperation(lock: ValueTimeLock, metadata: VersionMetadata): (r: PositiveReal) {
    var feePerOperation := lock.normalizedFee * metadata.normalizedFeeToPerOperationFeeMultiplier;
    feePerOperation * metadata.valueTimeLockAmountMultiplier
  }

  function CalculateMaxNumberOfOperationsAllowed(lock: Option<ValueTimeLock>, fetcher: MetadataFetcher): int {
    if lock.None? then MAX_OPERATIONS_WITHOUT_LOCK
    else
      var numberOfOpsAllowed :=
        lock.value.amountLocked / AmountPerOperation(lock.value, fetcher(lock.value.lockTransactionTime));
      var numberOfOpsAllowedInt := numberOfOpsAllowed.Floor;
      if numberOfOpsAllowedInt > MAX_OPERATIONS_WITHOUT_LOCK then numberOfOpsAllowedInt
      else MAX_OPERATIONS_WITHOUT_LOCK
  }

  function VerifyLockAmount(
    lock: Option<ValueTimeLock>, numberOfOperations: nat, time: nat, writer: string, fetcher: MetadataFetcher)
    : Result<(), Error>
  {
    if numberOfOperations <= MAX_OPERATIONS_WITHOUT_LOCK then Ok(())
    else if lock.Some? && lock.value.owner != writer then
      Err(ValueTimeLockVerifierTransactionWriterLockOwnerMismatch)
    else if lock.Some? && (time < lock.value.lockTransactionTime || time >= lock.value.unlockTransactionTime) then
      Err(ValueTimeLockVerifierTransactionTimeOutsideLockRange)
    else if numberOfOperations > CalculateMaxNumberOfOperationsAllowed(lock, fetcher) then
      Err(ValueTimeLockVerifierInvalidNumberOfOperations)
    else Ok(())
  }

  /** A batch passes exactly if it is small enough to need no lock, or a lock owned by the writer is active and
      holds at least the amount for every operation: rounding down never admits an unpaid operation nor rejects
      a paid one. */
  lemma LockPaysForEveryOperation(
    lock: Option<ValueTimeLock>, numberOfOperations: nat, time: nat, writer: string, fetcher: MetadataFetcher)
    ensures VerifyLockAmount(lock, numberOfOperations, time, writer, fetcher).Ok? <==>
            || numberOfOperations <= MAX_OPERATIONS_WITHOUT_LOCK
            || (&& lock.Some?
                && lock.value.owner == writer
                && lock.value.lockTransactionTime <= time < lock.value.unlockTransactionTime
                && lock.value.amountLocked >=
                   AmountPerOperation(lock.value, fetcher(lock.value.lockTransactionTime)) * numberOfOperations as real)
  {
    if numberOfOperations > MAX_OPERATIONS_WITHOUT_LOCK && lock.Some? {
      var per := AmountPerOperation(lock.value, fetcher(lock.value.lockTransactionTime));
      var q := lock.value.amountLocked / per;
      var n := numberOfOperations as real;
      assert q * per == lock.value.amountLocked;
      if q >= n {
        assert (q - n) * per >= 0.0;
      } else {
        assert (n - q) * per > 0.0;
      }
      assert numberOfOperations <= q.Floor <==> n <= q;
    }
  }
}
