/** A historical sync that goes on after a transaction it could not store: a run that loses the transaction for good. */
module LosingOn {
  import opened Wrappers
  import opened Models
  import opened TransactionStore
  import opened SyncProtocol
  import O = ObserverProtocol
  import SyncSafety

  function On(transactionNumber: nat): Transaction {
    Transaction(transactionNumber, transactionNumber, "block", "", 0.0, 0.0, "writer")
  }

  const ONE := On(1)
  const TWO := On(2)
  const LEDGER := [ONE, TWO]
  const BLOCK: BlockOf := (t: Transaction) => t.transactionTime

  const START := State(LEDGER, [], 2, 0, None)
  const END := State(LEDGER, [TWO], 2, 2, None)

  /** Both transactions are in one batch; the first cannot be stored. */
  const STEPS := [BeginBatch(2), LoseNext, ProcessNext, FinishBatch]

  /** The states of the run. */
  function At(k: nat): State
    requires k <= |STEPS|
  {
    if k == 0 then START
    else if k == 1 then START.(pending := Some(Pending(LEDGER, 2)))
    else if k == 2 then START.(pending := Some(Pending([TWO], 2)))
    else if k == 3 then State(LEDGER, [TWO], 2, 0, Some(Pending([], 2)))
    else END
  }

  lemma BatchBegins()
    ensures Next(BLOCK, At(0), STEPS[0]) == At(1)
  {
    SelectsAll(InRange(BLOCK, 0, 2), LEDGER);
  }

  lemma BatchEnds()
    ensures Next(BLOCK, At(1), STEPS[1]) == At(2)
    ensures Next(BLOCK, At(2), STEPS[2]) == At(3)
    ensures Next(BLOCK, At(3), STEPS[3]) == At(4)
  {
    assert LEDGER[1..] == [TWO] && [TWO][1..] == [];
    assert Inserted([], TWO) == [TWO];
  }

  lemma {:induction false} RunAlong(start: State, steps: seq<Step>, at: nat -> State, k: nat)
    requires k <= |steps| && at(0) == start
    requires forall i :: 0 <= i < |steps| ==> Next(BLOCK, at(i), steps[i]) == at(i + 1)
    ensures Run(BLOCK, start, steps[..k]) == at(k)
  {
    if k > 0 {
      RunAlong(start, steps, at, k - 1);
      assert steps[..k][..k - 1] == steps[..k - 1];
    }
  }

  lemma RunIsAt()
    ensures Run(BLOCK, START, STEPS[..|STEPS|]) == At(|STEPS|)
  {
    var at := (k: nat) => if k <= |STEPS| then At(k) else END;
    BatchBegins();
    BatchEnds();
    RunAlong(START, STEPS, at, |STEPS|);
  }

  lemma StartIsInitial(qualifies: Transaction -> bool)
    ensures Initial(BLOCK, qualifies, START)
  {
  }

  lemma OneIsGone()
    ensures SyncSafety.Gone(BLOCK, END, ONE)
  {
    assert TWO in END.stored;
  }

  /** The first transaction stays on the ledger and is never stored, whatever the sync does afterwards and however often
      it is resumed. */
  lemma LosingOnIsForEver(qualifies: Transaction -> bool, steps: seq<Step>)
    ensures Initial(BLOCK, qualifies, START)
    ensures Run(BLOCK, START, STEPS) == END
    ensures ONE in END.ledger && ONE !in Run(BLOCK, END, steps).stored
  {
    StartIsInitial(qualifies);
    RunIsAt();
    assert STEPS[..|STEPS|] == STEPS;
    OneIsGone();
    SyncSafety.GoneForEver(BLOCK, END, ONE, steps);
  }
}
