/** The anchor string written to the ledger: a count of operations and the URI of the core index file. */
module AnchoredDataSerializer {
  import opened Wrappers
  import opened Models
  import opened Text

  const DELIMITER := '.'

  function Serialize(data: AnchoredData): string {
    ToDecimal(data.numberOfOperations) + [DELIMITER] + data.coreIndexFileUri
  }

  function ParsePositiveInteger(input: string): Result<nat, Error> {
    if IsPositiveDecimal(input) then Ok(FromDecimal(input))
    else Err(AnchoredDataNumberOfOperationsNotPositiveInteger)
  }

  function Deserialize(serializedData: string): Result<AnchoredData, Error> {
    var splitData := Split(serializedData, DELIMITER);
    if |splitData| != 2 then Err(AnchoredDataIncorrectFormat)
    else
      var numberOfOperations :- ParsePositiveInteger(splitData[0]);
      if numberOfOperations > MAX_OPERATIONS_PER_BATCH then Err(AnchoredDataNumberOfOperationsGreaterThanMax)
      else Ok(AnchoredData(splitData[1], numberOfOperations))
  }

  /** Exactly the data that can be read back after being anchored. */
  predicate Anchorable(data: AnchoredData) {
    && 1 <= data.numberOfOperations <= MAX_OPERATIONS_PER_BATCH
    && DELIMITER !in data.coreIndexFileUri
  }

  /** Deserializing a serialized value succeeds exactly for anchorable data, and then gives the value back. */
  lemma SerializeThenDeserialize(data: AnchoredData)
    ensures Deserialize(Serialize(data)) == Ok(data) <==> Anchorable(data)
    ensures Deserialize(Serialize(data)).Ok? <==> Anchorable(data)
  {
    var n := ToDecimal(data.numberOfOperations);
    SplitAfterPrefix(n, data.coreIndexFileUri, DELIMITER);
    DecimalRoundTrip(data.numberOfOperations);
    var rest := Split(data.coreIndexFileUri, DELIMITER);
    assert Split(Serialize(data), DELIMITER) == [n] + rest;
    if DELIMITER !in data.coreIndexFileUri {
      SplitWithoutDelimiter(data.coreIndexFileUri, DELIMITER);
    } else {
      SplitIsInvertedByJoin(data.coreIndexFileUri, DELIMITER);
      assert |rest| != 1;
    }
  }

  /** The accepted anchor strings are exactly the serializations: no two of them mean the same data. */
  lemma DeserializeThenSerialize(s: string)
    requires Deserialize(s).Ok?
    ensures Serialize(Deserialize(s).value) == s
    ensures Anchorable(Deserialize(s).value)
  {
    var splitData := Split(s, DELIMITER);
    SplitIsInvertedByJoin(s, DELIMITER);
    DecimalIsCanonical(splitData[0]);
    assert Join(splitData, DELIMITER) == splitData[0] + [DELIMITER] + splitData[1] by {
      assert splitData[1..][0] == splitData[1];
    }
  }

  /** An anchor string as it stands on the ledger: the count in decimal digits, a period, and the URI. */
  lemma AnchorStringOnLedger()
    ensures Serialize(AnchoredData("abc", 1024)) == "1024.abc"
    ensures Deserialize("1024.abc") == Ok(AnchoredData("abc", 1024))
  {
    assert ToDecimal(1024) == ToDecimal(102) + ['4'];
    assert ToDecimal(102) == ToDecimal(10) + ['2'];
    assert ToDecimal(10) == "10";
    SerializeThenDeserialize(AnchoredData("abc", 1024));
  }
}
