/** When reading the ledger on can bring a transaction into the store that has left the ledger. */
module ReadingSafety {
  import opened Wrappers
  import opened Models
  import opened TransactionStore
  import opened ObserverProtocol

  /** The steps that lead from the list to the store. */
  predicate OnlyStores(steps: seq<Step>) {
    forall step <- steps :: step.Complete? || step.BeginStoring? || step.StoreNext?
  }

  predicate HoldsLedgerOnly(s: State) {
    forall t <- s.stored :: t in s.ledger
  }

  lemma {:induction false} RunConcatenation(qualifies: Transaction -> bool, s: State, a: seq<Step>, b: seq<Step>)
    ensures Run(qualifies, s, a + b) == Run(qualifies, Run(qualifies, s, a), b)
  {
    if b == [] {
      assert a + b == a;
    } else {
      var n := |b| - 1;
      RunConcatenation(qualifies, s, a, b[..n]);
      assert (a + b)[..|a + b| - 1] == a + b[..n];
    }
  }

  // ------------------------------------------------------------ nothing in flight has left the ledger

  lemma {:induction false} StoringKeepsInvariant(qualifies: Transaction -> bool, s: State, steps: seq<Step>)
    requires Invariant(qualifies, s) && OnlyStores(steps)
    ensures var r := Run(qualifies, s, steps);
            Invariant(qualifies, r) && r.read == s.read && r.ledger == s.ledger
  {
    if steps != [] {
      var n := |steps| - 1;
      assert steps[n] in steps;
      StoringKeepsInvariant(qualifies, s, steps[..n]);
      StepKeepsInvariant(qualifies, Run(qualifies, s, steps[..n]), steps[n]);
    }
  }

  lemma SafeFetchStoresLedgerOnly(qualifies: Transaction -> bool, s: State, count: nat, steps: seq<Step>)
    requires Invariant(qualifies, s) && CanRead(s) && InFlightIsOnLedger(s) && OnlyStores(steps)
    ensures HoldsLedgerOnly(Run(qualifies, Next(qualifies, s, Fetch(count)), steps))
  {
    var next := Next(qualifies, s, Fetch(count));
    SafeFetchKeepsInvariant(qualifies, s, count);
    StoringKeepsInvariant(qualifies, next, steps);
    var r := Run(qualifies, next, steps);
    forall t | t in r.stored
      ensures t in r.ledger
    {
      assert t in Known(r.read);
    }
  }

  // ------------------------------------------------------------ something in flight has left it

  function Completes(n: nat): seq<Step> {
    if n == 0 then [] else Completes(n - 1) + [Complete(n - 1)]
  }

  function Stores(n: nat): seq<Step> {
    if n == 0 then [] else Stores(n - 1) + [StoreNext]
  }

  /** Completing and storing the first transactions of the list. */
  function Through(n: nat): seq<Step> {
    Completes(n) + [BeginStoring] + Stores(n)
  }

  lemma {:induction false} ThroughOnlyStores(n: nat)
    ensures OnlyStores(Completes(n)) && OnlyStores(Stores(n)) && OnlyStores(Through(n))
  {
    if n > 0 {
      ThroughOnlyStores(n - 1);
    }
  }

  /** The state with another list and other records of completion. */
  predicate SameButList(s: State, r: State) {
    r == s.(underProcessing := r.underProcessing, completed := r.completed)
    && Transactions(r.underProcessing) == Transactions(s.underProcessing)
  }

  lemma {:induction false} FirstAreCompleted(qualifies: Transaction -> bool, s: State, n: nat)
    requires n <= |s.underProcessing|
    ensures var r := Run(qualifies, s, Completes(n));
            && SameButList(s, r) && |r.underProcessing| == |s.underProcessing|
            && forall i :: 0 <= i < n ==> r.underProcessing[i].processed
  {
    if n > 0 {
      FirstAreCompleted(qualifies, s, n - 1);
      var before := Run(qualifies, s, Completes(n - 1));
      assert Completes(n)[..|Completes(n)| - 1] == Completes(n - 1);
      var r := Next(qualifies, before, Complete(n - 1));
      assert Run(qualifies, s, Completes(n)) == r;
      assert Transactions(r.underProcessing) == Transactions(before.underProcessing);
    }
  }

  lemma InsertedIsKnown(known: set<Transaction>, stored: seq<Transaction>, t: Transaction)
    requires Increasing(stored) && DistinctNumbers(known) && t in known && forall u <- stored :: u in known
    ensures Increasing(Inserted(stored, t)) && t in Inserted(stored, t)
    ensures forall u <- Inserted(stored, t) :: u in known
    ensures forall u <- stored :: u in Inserted(stored, t)
  {
    InsertedInOrder(stored, t);
    if Stored(stored, t.transactionNumber) {
      var k :| 0 <= k < |stored| && stored[k].transactionNumber == t.transactionNumber;
      assert stored[k] in known;
    }
  }

  /** The storing loop has brought the first transactions of the list into the store. */
  predicate StoredSoFar(s: State, r: State, known: set<Transaction>, n: nat)
    requires n <= |s.underProcessing|
  {
    && r == s.(stored := r.stored, storing := Some(n))
    && Increasing(r.stored) && (forall u <- r.stored :: u in known)
    && (forall i :: 0 <= i < n ==> s.underProcessing[i].transaction in r.stored)
  }

  lemma OneMoreIsStored(
    qualifies: Transaction -> bool, s: State, before: State, r: State, known: set<Transaction>, n: nat)
    requires n < |s.underProcessing| && StoredSoFar(s, before, known, n) && DistinctNumbers(known)
    requires s.underProcessing[n].processed && s.underProcessing[n].transaction in known
    requires r == Next(qualifies, before, StoreNext)
    ensures StoredSoFar(s, r, known, n + 1)
  {
    InsertedIsKnown(known, before.stored, s.underProcessing[n].transaction);
    assert r == before.(stored := Inserted(before.stored, s.underProcessing[n].transaction), storing := Some(n + 1));
  }

  lemma {:induction false} FirstAreStored(qualifies: Transaction -> bool, s: State, known: set<Transaction>, n: nat)
    requires s.storing == Some(0) && n <= |s.underProcessing|
    requires forall i :: 0 <= i < n ==> s.underProcessing[i].processed && s.underProcessing[i].transaction in known
    requires Increasing(s.stored) && DistinctNumbers(known) && forall u <- s.stored :: u in known
    ensures StoredSoFar(s, Run(qualifies, s, Stores(n)), known, n)
  {
    if n > 0 {
      FirstAreStored(qualifies, s, known, n - 1);
      var before := Run(qualifies, s, Stores(n - 1));
      assert Stores(n)[..|Stores(n)| - 1] == Stores(n - 1);
      var r := Next(qualifies, before, StoreNext);
      assert Run(qualifies, s, Stores(n)) == r;
      OneMoreIsStored(qualifies, s, before, r, known, n - 1);
    }
  }

  /** The list as it is brought into the store, in order. */
  lemma ThroughStores(qualifies: Transaction -> bool, s: State, known: set<Transaction>, n: nat)
    requires s.storing.None? && n <= |s.underProcessing|
    requires forall i :: 0 <= i < n ==> s.underProcessing[i].transaction in known
    requires Increasing(s.stored) && DistinctNumbers(known) && forall u <- s.stored :: u in known
    ensures var r := Run(qualifies, s, Through(n));
            r.ledger == s.ledger && forall i :: 0 <= i < n ==> s.underProcessing[i].transaction in r.stored
  {
    FirstAreCompleted(qualifies, s, n);
    var completed := Run(qualifies, s, Completes(n));
    var begun := Next(qualifies, completed, BeginStoring);
    assert [BeginStoring][..0] == [];
    assert Run(qualifies, completed, [BeginStoring]) == begun;
    RunConcatenation(qualifies, s, Completes(n), [BeginStoring]);
    RunConcatenation(qualifies, s, Completes(n) + [BeginStoring], Stores(n));
    forall i | 0 <= i < n
      ensures begun.underProcessing[i].transaction == s.underProcessing[i].transaction
    {
      assert Transactions(completed.underProcessing)[i] == Transactions(s.underProcessing)[i];
    }
    FirstAreStored(qualifies, begun, known, n);
  }

  /** What has left the ledger while under processing is stored once it and everything listed before it is completed. */
  lemma UnsafeFetchStoresLeft(qualifies: Transaction -> bool, s: State, count: nat) returns (n: nat)
    requires Invariant(qualifies, s) && CanRead(s) && !InFlightIsOnLedger(s)
    ensures !HoldsLedgerOnly(Run(qualifies, Next(qualifies, s, Fetch(count)), Through(n)))
  {
    var next := Next(qualifies, s, Fetch(count));
    var i :| 0 <= i < |s.underProcessing| && s.underProcessing[i].transaction !in s.ledger;
    n := i + 1;
    forall j | 0 <= j < n
      ensures next.underProcessing[j].transaction in Known(s.read)
    {
      assert Transactions(s.underProcessing)[j] in Known(s.read);
    }
    LedgerIsDistinct(s.read);
    ThroughStores(qualifies, next, Known(s.read), n);
    assert next.underProcessing[i] == s.underProcessing[i];
  }

  /** Whatever is read on, the store can come to hold only what is on the ledger if and only if nothing under processing
      has left the ledger. The source reads on without asking. */
  lemma FetchIsSafeExactly(qualifies: Transaction -> bool, s: State, count: nat)
    requires Invariant(qualifies, s) && CanRead(s)
    ensures InFlightIsOnLedger(s) <==>
            forall steps | OnlyStores(steps) ::
              HoldsLedgerOnly(Run(qualifies, Next(qualifies, s, Fetch(count)), steps))
  {
    if InFlightIsOnLedger(s) {
      forall steps | OnlyStores(steps)
        ensures HoldsLedgerOnly(Run(qualifies, Next(qualifies, s, Fetch(count)), steps))
      {
        SafeFetchStoresLedgerOnly(qualifies, s, count, steps);
      }
    } else {
      var n := UnsafeFetchStoresLeft(qualifies, s, count);
      ThroughOnlyStores(n);
    }
  }
}
