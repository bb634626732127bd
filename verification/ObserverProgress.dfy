/** The observer catches up: what the live loop can always do next brings every qualified transaction into the store. */
module ObserverProgress {
  import opened Wrappers
  import opened Models
  import opened TransactionStore
  import opened ObserverProtocol
  import opened ReadingSafety

  // ------------------------------------------------------------ reading

  predicate AfterStored(s: State, t: Transaction) {
    s.stored != [] ==> s.stored[|s.stored| - 1].transactionNumber < t.transactionNumber
  }

  lemma {:induction false} AfterIsNoLonger(ledger: seq<Transaction>, since: Option<nat>)
    ensures |After(ledger, since)| <= |ledger|
  {
    if !(ledger == [] || since.None? || since.value < ledger[0].transactionNumber) {
      AfterIsNoLonger(ledger[1..], since);
    }
  }

  /** Reading to the end fetches exactly the qualified transactions of the ledger after the last stored one. */
  lemma FetchedExactly(qualifies: Transaction -> bool, s: State, count: nat, t: Transaction)
    requires Increasing(s.ledger) && |s.ledger| <= count
    ensures t in Fetched(s, qualifies, count) <==> t in s.ledger && qualifies(t) && AfterStored(s, t)
  {
    var after := After(s.ledger, NumberOf(Last(s.stored)));
    AfterIsNoLonger(s.ledger, NumberOf(Last(s.stored)));
    assert after[..|after|] == after;
  }

  // ------------------------------------------------------------ storing keeps what is stored

  lemma StoringStepKeepsStored(qualifies: Transaction -> bool, s: State, step: Step)
    requires Invariant(qualifies, s) && OnlyStores([step])
    ensures forall t <- s.stored :: t in Next(qualifies, s, step).stored
  {
    assert step in [step];
    if step.StoreNext? && CanStore(s) {
      InsertedInOrder(s.stored, s.underProcessing[s.storing.value].transaction);
    }
  }

  lemma {:induction false} StoredStays(qualifies: Transaction -> bool, s: State, steps: seq<Step>)
    requires Invariant(qualifies, s) && OnlyStores(steps)
    ensures forall t <- s.stored :: t in Run(qualifies, s, steps).stored
  {
    if steps != [] {
      var n := |steps| - 1;
      assert steps[n] in steps;
      StoredStays(qualifies, s, steps[..n]);
      StoringKeepsInvariant(qualifies, s, steps[..n]);
      StoringStepKeepsStored(qualifies, Run(qualifies, s, steps[..n]), steps[n]);
    }
  }

  // ------------------------------------------------------------ catching up

  /** The store holds every qualified transaction of the ledger, and none that is not on it. */
  predicate CaughtUp(qualifies: Transaction -> bool, s: State) {
    && (forall t <- s.ledger :: qualifies(t) ==> t in s.stored)
    && forall t <- s.stored :: t in s.ledger
  }

  lemma ListedIsKnown(qualifies: Transaction -> bool, s: State)
    requires Invariant(qualifies, s)
    ensures forall i :: 0 <= i < |s.underProcessing| ==> s.underProcessing[i].transaction in Known(s.read)
  {
    forall i | 0 <= i < |s.underProcessing|
      ensures s.underProcessing[i].transaction in Known(s.read)
    {
      assert Transactions(s.underProcessing)[i] in Known(s.read);
    }
  }

  lemma AllListedAreStored(qualifies: Transaction -> bool, s: State)
    requires Invariant(qualifies, s) && s.storing.None? && s.read == s.ledger
    ensures var n := |s.underProcessing|;
            var r := Run(qualifies, s, Through(n));
            && Invariant(qualifies, r) && r.ledger == s.ledger && r.read == s.ledger
            && (forall t <- s.stored :: t in r.stored)
            && forall i :: 0 <= i < n ==> s.underProcessing[i].transaction in r.stored
  {
    var n := |s.underProcessing|;
    ListedIsKnown(qualifies, s);
    LedgerIsDistinct(s.read);
    ThroughOnlyStores(n);
    ThroughStores(qualifies, s, Known(s.read), n);
    StoringKeepsInvariant(qualifies, s, Through(n));
    StoredStays(qualifies, s, Through(n));
  }

  lemma FetchedIsListed(qualifies: Transaction -> bool, s: State, count: nat, t: Transaction)
    requires CanRead(s) && t in Fetched(s, qualifies, count)
    ensures var next := Next(qualifies, s, Fetch(count));
            exists i :: 0 <= i < |next.underProcessing| && next.underProcessing[i].transaction == t
  {
    var fetched, next := Fetched(s, qualifies, count), Next(qualifies, s, Fetch(count));
    var k :| 0 <= k < |fetched| && fetched[k] == t;
    assert next.underProcessing[|s.underProcessing| + k] == Entries(fetched)[k];
  }

  lemma RestIsRead(qualifies: Transaction -> bool, s: State, t: Transaction)
    requires Resting(qualifies, s.ledger, s.stored) && t in s.ledger && qualifies(t) && t !in s.stored
    ensures t in Fetched(s, qualifies, |s.ledger|)
  {
    NotStoredIsAfter(qualifies, s, t);
    AfterIsNoLonger(s.ledger, NumberOf(Last(s.stored)));
    var after := After(s.ledger, NumberOf(Last(s.stored)));
    assert after[..|after|] == after;
  }

  /** If nothing under processing has left the ledger, reading to the end, completing what is listed and storing it
      brings the store to hold every qualified transaction of the ledger and nothing else of it. */
  lemma ReadingOnCatchesUp(qualifies: Transaction -> bool, s: State)
    requires Invariant(qualifies, s) && CanRead(s) && InFlightIsOnLedger(s)
    ensures var next := Next(qualifies, s, Fetch(|s.ledger|));
            var r := Run(qualifies, next, Through(|next.underProcessing|));
            r.ledger == s.ledger && CaughtUp(qualifies, r)
  {
    var next := Next(qualifies, s, Fetch(|s.ledger|));
    SwitchKeepsInvariant(qualifies, s);
    SafeFetchKeepsInvariant(qualifies, s, |s.ledger|);
    AllListedAreStored(qualifies, next);
    var r := Run(qualifies, next, Through(|next.underProcessing|));
    forall t | t in s.ledger && qualifies(t)
      ensures t in r.stored
    {
      if t !in s.stored {
        RestIsRead(qualifies, s, t);
        FetchedIsListed(qualifies, s, |s.ledger|, t);
      }
    }
    StoredIsRead(qualifies, r);
  }

  /** From any state that a run can reach with nothing under processing, whatever has happened to the ledger, a revert
      and reading on catch up with it. */
  lemma RevertingCatchesUp(qualifies: Transaction -> bool, s: State)
    requires Invariant(qualifies, s) && s.storing.None? && s.underProcessing == []
    ensures var reverted := Next(qualifies, s, Revert);
            var next := Next(qualifies, reverted, Fetch(|s.ledger|));
            var r := Run(qualifies, next, Through(|next.underProcessing|));
            r.ledger == s.ledger && CaughtUp(qualifies, r)
  {
    RevertKeepsInvariant(qualifies, s);
    var reverted := Next(qualifies, s, Revert);
    StoredIsRead(qualifies, reverted);
    ReadingOnCatchesUp(qualifies, reverted);
  }
}
