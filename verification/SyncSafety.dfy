/** What comes of a historical sync that goes on after a transaction it could not store. */
module SyncSafety {
  import opened Wrappers
  import opened Models
  import opened TransactionStore
  import opened SyncProtocol
  import O = ObserverProtocol
  import ReadingSafety

  function Processes(n: nat): seq<Step> {
    if n == 0 then [] else Processes(n - 1) + [ProcessNext]
  }

  /** The rest of a batch, undisturbed. */
  function RestOfBatch(n: nat): seq<Step> {
    Processes(n) + [FinishBatch]
  }

  /** Every qualified transaction up to the last block synced is stored. */
  predicate Complete(block: BlockOf, qualifies: Transaction -> bool, s: State) {
    forall t <- s.ledger :: qualifies(t) && block(t) <= s.lastSynced ==> t in s.stored
  }

  // ------------------------------------------------------------ the rest of a batch

  /** Some transactions of a batch have been processed. */
  predicate ProcessedSoFar(s: State, r: State, batch: Pending, n: nat)
    requires n <= |batch.transactions|
  {
    && r == s.(stored := r.stored, pending := Some(Pending(batch.transactions[n..], batch.to)))
    && Increasing(r.stored) && (forall t <- r.stored :: t in s.stored || t in batch.transactions[..n])
    && (forall t <- r.stored :: t in s.ledger)
    && (forall t <- batch.transactions[..n] :: t in r.stored)
  }

  lemma OneMoreIsProcessed(block: BlockOf, s: State, before: State, r: State, batch: Pending, n: nat)
    requires Increasing(s.ledger) && n < |batch.transactions| && ProcessedSoFar(s, before, batch, n)
    requires batch.transactions[n] in s.ledger && r == Next(block, before, ProcessNext)
    ensures ProcessedSoFar(s, r, batch, n + 1)
  {
    var p, t := batch.transactions, batch.transactions[n];
    O.LedgerIsDistinct(s.ledger);
    ReadingSafety.InsertedIsKnown(O.Known(s.ledger), before.stored, t);
    InsertedInOrder(before.stored, t);
    assert p[n..][0] == t && p[n..][1..] == p[n + 1..] && p[..n + 1] == p[..n] + [t];
    assert r.stored == Inserted(before.stored, t);
    forall u | u in r.stored
      ensures u in s.ledger
    {
      assert u in O.Known(s.ledger);
    }
  }

  lemma {:induction false} FirstAreProcessed(block: BlockOf, s: State, n: nat)
    requires Increasing(s.ledger) && Increasing(s.stored) && (forall t <- s.stored :: t in s.ledger)
    requires s.pending.Some? && n <= |s.pending.value.transactions|
    requires forall t <- s.pending.value.transactions :: t in s.ledger
    ensures ProcessedSoFar(s, Run(block, s, Processes(n)), s.pending.value, n)
  {
    if n > 0 {
      FirstAreProcessed(block, s, n - 1);
      var before := Run(block, s, Processes(n - 1));
      assert Processes(n)[..|Processes(n)| - 1] == Processes(n - 1);
      var r := Next(block, before, ProcessNext);
      assert Run(block, s, Processes(n)) == r;
      assert s.pending.value.transactions[n - 1] in s.pending.value.transactions;
      OneMoreIsProcessed(block, s, before, r, s.pending.value, n - 1);
    }
  }

  lemma {:induction false} ProcessesKeepInvariant(block: BlockOf, qualifies: Transaction -> bool, s: State, n: nat)
    requires Invariant(block, qualifies, s)
    ensures Invariant(block, qualifies, Run(block, s, Processes(n)))
  {
    if n > 0 {
      ProcessesKeepInvariant(block, qualifies, s, n - 1);
      assert Processes(n)[..|Processes(n)| - 1] == Processes(n - 1);
      StepKeepsInvariant(block, qualifies, Run(block, s, Processes(n - 1)), ProcessNext);
    }
  }

  // ------------------------------------------------------------ after a loss

  /** The state after losing the next transaction and finishing the batch without further disturbance. */
  function AfterLoss(block: BlockOf, s: State): State
    requires s.pending.Some? && s.pending.value.transactions != []
  {
    Run(block, Next(block, s, LoseNext), RestOfBatch(|s.pending.value.transactions| - 1))
  }

  lemma PendingIsOnLedger(block: BlockOf, qualifies: Transaction -> bool, s: State)
    requires Invariant(block, qualifies, s) && s.pending.Some?
    ensures forall t <- s.pending.value.transactions :: t in s.ledger && block(t) <= s.pending.value.to
    ensures Increasing(s.stored) && forall t <- s.stored :: t in s.ledger
  {
    forall t | t in s.pending.value.transactions
      ensures t in s.ledger
    {
      assert t in O.Known(s.ledger);
    }
    forall t | t in s.stored
      ensures t in s.ledger
    {
      assert t in O.Known(s.ledger);
    }
  }

  lemma RestIsFinished(block: BlockOf, s: State, n: nat)
    ensures Run(block, s, RestOfBatch(n)) == Next(block, Run(block, s, Processes(n)), FinishBatch)
  {
    assert RestOfBatch(n)[..|RestOfBatch(n)| - 1] == Processes(n);
  }

  /** All of a batch is processed. */
  predicate AllProcessed(s: State, last: State, batch: Pending) {
    && last == s.(stored := last.stored, pending := Some(Pending([], batch.to)))
    && Increasing(last.stored) && (forall t <- last.stored :: t in s.ledger)
    && (forall t <- last.stored :: t in s.stored || t in batch.transactions)
    && (forall t <- batch.transactions :: t in last.stored)
  }

  lemma BatchIsProcessed(block: BlockOf, s: State)
    requires Increasing(s.ledger) && Increasing(s.stored) && (forall t <- s.stored :: t in s.ledger)
    requires s.pending.Some? && forall t <- s.pending.value.transactions :: t in s.ledger
    ensures var batch := s.pending.value;
            AllProcessed(s, Run(block, s, Processes(|batch.transactions|)), batch)
  {
    var p := s.pending.value.transactions;
    FirstAreProcessed(block, s, |p|);
    assert p[..|p|] == p && p[|p|..] == [];
  }

  lemma LossSkips(block: BlockOf, s: State)
    requires s.pending.Some? && s.pending.value.transactions != []
    ensures Next(block, s, LoseNext)
            == s.(pending := Some(Pending(s.pending.value.transactions[1..], s.pending.value.to)))
  {
  }

  lemma BatchIsFinished(block: BlockOf, s: State, n: nat)
    requires Increasing(s.ledger) && Increasing(s.stored) && (forall t <- s.stored :: t in s.ledger)
    requires s.pending.Some? && forall t <- s.pending.value.transactions :: t in s.ledger
    requires n == |s.pending.value.transactions|
    ensures var last := Run(block, s, Processes(n));
            && AllProcessed(s, last, s.pending.value)
            && Run(block, s, RestOfBatch(n)) == Next(block, last, FinishBatch)
  {
    BatchIsProcessed(block, s);
    RestIsFinished(block, s, n);
  }

  lemma LostIsOnLedger(block: BlockOf, qualifies: Transaction -> bool, s: State)
    requires Invariant(block, qualifies, s) && s.pending.Some? && s.pending.value.transactions != []
    ensures var lost := Next(block, s, LoseNext);
            && Increasing(lost.ledger) && Increasing(lost.stored) && (forall t <- lost.stored :: t in lost.ledger)
            && lost.pending.Some? && (forall t <- lost.pending.value.transactions :: t in lost.ledger)
            && |lost.pending.value.transactions| == |s.pending.value.transactions| - 1
  {
    var p := s.pending.value.transactions;
    PendingIsOnLedger(block, qualifies, s);
    LossSkips(block, s);
    assert forall t <- p[1..] :: t in p;
  }

  /** The rest of the batch is processed. */
  lemma RestIsProcessed(block: BlockOf, qualifies: Transaction -> bool, s: State)
    requires Invariant(block, qualifies, s) && s.pending.Some? && s.pending.value.transactions != []
    ensures var lost := Next(block, s, LoseNext);
            var last := Run(block, lost, Processes(|s.pending.value.transactions| - 1));
            && lost.pending.Some? && AllProcessed(lost, last, lost.pending.value)
            && AfterLoss(block, s) == Next(block, last, FinishBatch)
  {
    LostIsOnLedger(block, qualifies, s);
    BatchIsFinished(block, Next(block, s, LoseNext), |s.pending.value.transactions| - 1);
  }

  /** Everything of the batch but the lost transaction is stored. */
  lemma LossEnds(block: BlockOf, qualifies: Transaction -> bool, s: State)
    requires Invariant(block, qualifies, s) && s.pending.Some? && s.pending.value.transactions != []
    ensures var p, end := s.pending.value.transactions, AfterLoss(block, s);
            && end == s.(stored := end.stored, lastSynced := s.pending.value.to, pending := None)
            && Increasing(end.stored) && (forall t <- end.stored :: t in s.ledger)
            && (forall t <- end.stored :: t in s.stored || t in p[1..])
            && (forall t <- p[1..] :: t in end.stored)
            && (|p| == 1 ==> end.stored == s.stored)
  {
    LossSkips(block, s);
    RestIsProcessed(block, qualifies, s);
    assert Processes(0) == [];
  }

  lemma FinishedIsComplete(block: BlockOf, qualifies: Transaction -> bool, s: State)
    requires Invariant(block, qualifies, s) && s.pending.Some? && s.pending.value.transactions == []
    ensures Complete(block, qualifies, Next(block, s, FinishBatch))
    ensures O.Resting(qualifies, s.ledger, Next(block, s, FinishBatch).stored)
  {
    forall t | t in s.ledger && qualifies(t) && block(t) <= s.pending.value.to
      ensures t in s.stored
    {
      assert t in O.Required(qualifies, s.ledger);
    }
  }

  lemma HarmlessLossIsComplete(block: BlockOf, qualifies: Transaction -> bool, s: State)
    requires Invariant(block, qualifies, s) && s.pending.Some? && s.pending.value.transactions != []
    requires Harmless(qualifies, s)
    ensures Complete(block, qualifies, AfterLoss(block, s))
    ensures O.Resting(qualifies, s.ledger, AfterLoss(block, s).stored)
  {
    var n, lost := |s.pending.value.transactions| - 1, Next(block, s, LoseNext);
    LosingKeepsInvariant(block, qualifies, s);
    ProcessesKeepInvariant(block, qualifies, lost, n);
    RestIsProcessed(block, qualifies, s);
    FinishedIsComplete(block, qualifies, Run(block, lost, Processes(n)));
  }

  /** When the batch is finished, everything qualified up to its last block is stored if and only if the transaction that
      could not be stored does not qualify or was stored before. The order of the store has a gap unless that is so or
      the batch ends with that transaction. */
  lemma LosingIsHarmlessExactly(block: BlockOf, qualifies: Transaction -> bool, s: State)
    requires Invariant(block, qualifies, s) && s.pending.Some? && s.pending.value.transactions != []
    ensures var p, end := s.pending.value.transactions, AfterLoss(block, s);
            && end.pending.None? && end.lastSynced == s.pending.value.to
            && (Complete(block, qualifies, end) <==> (qualifies(p[0]) ==> p[0] in s.stored))
            && (O.Resting(qualifies, end.ledger, end.stored)
                <==> (qualifies(p[0]) ==> p[0] in s.stored) || |p| == 1)
  {
    var p, end := s.pending.value.transactions, AfterLoss(block, s);
    LossEnds(block, qualifies, s);
    if qualifies(p[0]) ==> p[0] in s.stored {
      HarmlessLossIsComplete(block, qualifies, s);
    } else {
      PendingIsOnLedger(block, qualifies, s);
      assert p[0] in p && p[0] in O.Required(qualifies, s.ledger);
      assert p[0] !in p[1..] && p[0] !in end.stored;
      if |p| > 1 {
        assert p[1] == p[1..][0];
        assert p[1] in end.stored && p[0].transactionNumber < p[1].transactionNumber;
      }
    }
  }

  // ------------------------------------------------------------ lost for good

  /** The transaction is behind what has been synced and behind what is stored. */
  predicate Gone(block: BlockOf, s: State, t: Transaction) {
    && InBlockOrder(block, s.ledger) && Increasing(s.stored) && (forall u <- s.stored :: u in s.ledger)
    && t !in s.stored && block(t) < s.lastSynced && (exists u <- s.stored :: block(t) < block(u))
    && (s.pending.Some? ==>
          && s.lastSynced <= s.pending.value.to && t !in s.pending.value.transactions
          && forall u <- s.pending.value.transactions :: u in s.ledger)
  }

  lemma StartingPhaseIsAfter(block: BlockOf, s: State, t: Transaction, batchSize: nat, target: nat)
    requires Gone(block, s, t)
    ensures s.stored != []
    ensures block(t) < block(s.stored[|s.stored| - 1])
  {
    var u :| u in s.stored && block(t) < block(u);
    var last := s.stored[|s.stored| - 1];
    assert last in s.stored;
    var k :| 0 <= k < |s.stored| && s.stored[k] == u;
    BlocksInOrder(block, s.ledger, last, u);
  }

  lemma StoringOtherKeepsGone(block: BlockOf, s: State, t: Transaction)
    requires Gone(block, s, t) && s.pending.Some? && s.pending.value.transactions != []
    ensures Gone(block, Next(block, s, ProcessNext), t)
  {
    var p := s.pending.value.transactions;
    assert p[0] in p && forall u <- p[1..] :: u in p;
    InsertedInOrder(s.stored, p[0]);
    var u :| u in s.stored && block(t) < block(u);
    assert u in Next(block, s, ProcessNext).stored;
  }

  lemma StepKeepsGone(block: BlockOf, s: State, t: Transaction, step: Step)
    requires Gone(block, s, t)
    ensures Gone(block, Next(block, s, step), t)
  {
    match step
    case Grow(u) =>
      if MayGrow(block, s, u) {
        BlockOrderGrows(block, s, u);
      }
    case ProcessNext =>
      if s.pending.Some? && s.pending.value.transactions != [] {
        StoringOtherKeepsGone(block, s, t);
      }
    case LoseNext =>
      if s.pending.Some? && s.pending.value.transactions != [] {
        assert forall u <- s.pending.value.transactions[1..] :: u in s.pending.value.transactions;
      }
    case BeginBatch(_) =>
    case FinishBatch =>
    case Resume(batchSize, target) => StartingPhaseIsAfter(block, s, t, batchSize, target);
  }

  lemma {:induction false} GoneForEver(block: BlockOf, s: State, t: Transaction, steps: seq<Step>)
    requires Gone(block, s, t)
    ensures Gone(block, Run(block, s, steps), t)
  {
    if steps != [] {
      var n := |steps| - 1;
      GoneForEver(block, s, t, steps[..n]);
      StepKeepsGone(block, Run(block, s, steps[..n]), t, steps[n]);
    }
  }

  /** A qualified transaction that is lost while a later block of its batch holds another one is never stored, however
      the sync goes on and wherever it is resumed. */
  lemma LostForEver(block: BlockOf, qualifies: Transaction -> bool, s: State, steps: seq<Step>)
    requires Invariant(block, qualifies, s) && s.pending.Some? && s.pending.value.transactions != []
    requires !Harmless(qualifies, s)
    requires var p := s.pending.value.transactions; block(p[0]) < block(p[|p| - 1])
    ensures s.pending.value.transactions[0] in s.ledger
    ensures s.pending.value.transactions[0] !in Run(block, AfterLoss(block, s), steps).stored
  {
    var p, end := s.pending.value.transactions, AfterLoss(block, s);
    var last := p[|p| - 1];
    PendingIsOnLedger(block, qualifies, s);
    LossEnds(block, qualifies, s);
    assert p[0] in p && last in p && last == p[1..][|p| - 2];
    assert p[0] !in p[1..];
    GoneForEver(block, end, p[0], steps);
  }
}
