/** Two updates that commit to each other's keys: a concrete input on which the update loop does not end. */
module ResolutionCycle {
  import opened Wrappers
  import opened Models
  import opened PlainEnvironment
  import opened Operations
  import opened JwsCompact
  import opened OperationProcessor
  import opened Iteration
  import opened Resolver
  import opened ResolutionTermination

  function UpdateWith(key: string, transactionNumber: nat): AnchoredOperation {
    AnchoredOperation(
      "did", UpdateRequest("did", key, Some(ToCompactJws(Jws("h", key, "s"))), Some(Delta([], Other(key)))),
      0, transactionNumber, 0)
  }

  const UPDATES := [UpdateWith("a", 1), UpdateWith("b", 2)]

  predicate IsKey(key: string) {
    key == "a" || key == "b"
  }

  function NumberFor(key: string): nat {
    if key == "a" then 1 else 2
  }

  lemma UpdateParses(key: string, transactionNumber: nat)
    requires IsKey(key)
    ensures var o := UpdateWith(key, transactionNumber);
            && ParseUpdate(PLAIN, o.operationBuffer)
               == Ok(UpdateOperation("did", key, Jws("h", key, "s"), UpdateSignedData(key, Other(key)),
                                     Some(Delta([], Other(key)))))
            && CommitKey(PLAIN, o) == Ok(key)
  {
    ParsingUndoesPrinting(PLAIN, Jws("h", key, "s"));
    assert CheckDelta(PLAIN, Some(Delta([], Other(key)))) == Ok(());
  }

  lemma UpdateApplies(key: string, transactionNumber: nat, didState: DidState)
    requires IsKey(key) && didState.nextUpdateCommitmentHash == Some(key)
    ensures Transition(PLAIN, UpdateWith(key, transactionNumber), Some(didState))
            == Some(didState.(nextUpdateCommitmentHash := Some(Other(key)),
                              lastOperationTransactionNumber := transactionNumber))
  {
    UpdateParses(key, transactionNumber);
  }

  lemma OneUpdatePerKey(key: string)
    requires IsKey(key)
    ensures SortedByNumber(Bucket(PLAIN, UPDATES, key)) == [UpdateWith(key, NumberFor(key))]
  {
    UpdateParses("a", 1);
    UpdateParses("b", 2);
    var a, b := UpdateWith("a", 1), UpdateWith("b", 2);
    assert UPDATES[..1] == [a] && [a][..0] == [];
    assert Bucket(PLAIN, [a], key) == if key == "a" then [a] else [];
    var only := UpdateWith(key, NumberFor(key));
    assert Bucket(PLAIN, UPDATES, key) == [only];
    assert [only][..0] == [];
    assert SortedByNumber([only]) == Insert([], only);
  }

  lemma TurnGoesOn(key: string, didState: DidState)
    requires IsKey(key) && didState.nextUpdateCommitmentHash == Some(key)
    requires didState.lastOperationTransactionNumber != NumberFor(key)
    ensures NextState(PLAIN, Updating, UPDATES, didState)
            == Some(didState.(nextUpdateCommitmentHash := Some(Other(key)),
                              lastOperationTransactionNumber := NumberFor(key)))
  {
    OneUpdatePerKey(key);
    UpdateApplies(key, NumberFor(key), didState);
  }

  /** The next update is the one that was not applied last. */
  predicate Turning(didState: DidState) {
    || (didState.nextUpdateCommitmentHash == Some("a") && didState.lastOperationTransactionNumber != 1)
    || (didState.nextUpdateCommitmentHash == Some("b") && didState.lastOperationTransactionNumber != 2)
  }

  lemma TurningGoesOn(didState: DidState)
    requires Turning(didState)
    ensures var next := NextState(PLAIN, Updating, UPDATES, didState); next.Some? && Turning(next.value)
  {
    TurnGoesOn(didState.nextUpdateCommitmentHash.value, didState);
  }

  /** From a state that commits to either key the update loop never ends, and `Run` is cut off. */
  lemma CycleNeverEnds(start: DidState)
    requires Turning(start)
    ensures forall n: nat :: Turns(Step(PLAIN, Updating, UPDATES), start, n).Some?
    ensures Run(PLAIN, Updating, UPDATES, start, {}).None?
  {
    var step := Step(PLAIN, Updating, UPDATES);
    forall s | Turning(s)
      ensures step(s).Some? && Turning(step(s).value)
    {
      TurningGoesOn(s);
    }
    forall n: nat
      ensures Turns(step, start, n).Some?
    {
      NeverEnds(step, Turning, start, n);
    }
    LoopEndsExactly(PLAIN, Updating, UPDATES, start);
  }
}
