/** The minimum fee a writer pays and the check an observer makes of it. */
module FeeManager {
  import opened Wrappers
  import opened Models

  function Max(x: real, y: real): real {
    if x > y then x else y
  }

  function ComputeMinimumTransactionFee(normalizedFee: real, numberOfOperations: int): Result<real, Error> {
    if numberOfOperations <= 0 then Err(OperationCountLessThanZero)
    else
      var feePerOperation := normalizedFee * FEE_MULTIPLIER;
      var feeForAllOperations := feePerOperation * numberOfOperations as real;
      Ok(Max(feeForAllOperations, normalizedFee))
  }

  function VerifyTransactionFee(transactionFeePaid: real, numberOfOperations: int, normalizedFee: real)
    : Result<(), Error>
  {
    if numberOfOperations <= 0 then Err(OperationCountLessThanZero)
    else if transactionFeePaid < normalizedFee then Err(TransactionFeePaidLessThanNormalizedFee)
    else
      var actualFeePerOperation := transactionFeePaid / numberOfOperations as real;
      var expectedFeePerOperation := normalizedFee * FEE_MULTIPLIER;
      if actualFeePerOperation < expectedFeePerOperation then Err(TransactionFeePaidInvalid) else Ok(())
  }

  lemma QuotientAtLeast(x: real, n: real, y: real)
    requires n > 0.0
    ensures x / n >= y <==> x >= y * n
  {
    var q := x / n;
    assert q * n == x;
    if q >= y {
      assert (q - y) * n >= 0.0;
    } else {
      assert (y - q) * n > 0.0;
    }
  }

  lemma Scale(x: real, y: real, factor: real)
    requires x <= y && factor > 0.0
    ensures x * factor <= y * factor
  {
    assert (y - x) * factor >= 0.0;
  }

  lemma MaxIsMonotone(a: real, b: real, c: real, d: real)
    requires a <= b && c <= d
    ensures Max(a, c) <= Max(b, d)
  {
  }

  /** The fee the writer computes is the least fee the observer accepts: the two formulas agree on every input. */
  lemma ComputedFeeIsLeastAccepted(paid: real, numberOfOperations: int, normalizedFee: real)
    ensures VerifyTransactionFee(paid, numberOfOperations, normalizedFee).Ok? <==>
            var minimum := ComputeMinimumTransactionFee(normalizedFee, numberOfOperations);
            minimum.Ok? && paid >= minimum.value
  {
    if numberOfOperations > 0 {
      QuotientAtLeast(paid, numberOfOperations as real, normalizedFee * FEE_MULTIPLIER);
    }
  }

  lemma FeeIsMonotone(numberOfOperations: int, higher: real, lower: real)
    requires numberOfOperations > 0 && lower <= higher
    ensures ComputeMinimumTransactionFee(lower, numberOfOperations).value
            <= ComputeMinimumTransactionFee(higher, numberOfOperations).value
  {
    var n := numberOfOperations as real;
    Scale(lower, higher, FEE_MULTIPLIER);
    Scale(lower * FEE_MULTIPLIER, higher * FEE_MULTIPLIER, n);
    MaxIsMonotone(lower * FEE_MULTIPLIER * n, higher * FEE_MULTIPLIER * n, lower, higher);
  }

  /** A fee computed for one normalized fee is accepted under any normalized fee that is not higher. */
  lemma FeeSurvivesLowerNormalizedFee(numberOfOperations: int, higher: real, lower: real)
    requires numberOfOperations > 0 && lower <= higher
    ensures VerifyTransactionFee(ComputeMinimumTransactionFee(higher, numberOfOperations).value,
                                 numberOfOperations, lower).Ok?
  {
    FeeIsMonotone(numberOfOperations, higher, lower);
    ComputedFeeIsLeastAccepted(
      ComputeMinimumTransactionFee(higher, numberOfOperations).value, numberOfOperations, lower);
  }
}
