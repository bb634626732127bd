/** Reverting what a reorganised ledger no longer holds. */
module Reorganization {
  import opened Wrappers
  import opened Models
  import opened TransactionStore
  import OperationStore

  /** The three stores that a revert cuts back. */
  datatype Stores = Stores(
    operations: OperationStore.Contents, unresolvable: set<Transaction>, transactions: seq<Transaction>)

  function FirstValid(transactions: seq<Transaction>, valid: Transaction -> bool): (r: Option<Transaction>)
    ensures r.Some? ==> r.value in transactions && valid(r.value)
    ensures r.None? ==> forall t <- transactions :: !valid(t)
  {
    if transactions == [] then None
    else if valid(transactions[0]) then Some(transactions[0])
    else FirstValid(transactions[1..], valid)
  }

  /** The number of the best known valid recent transaction. */
  function CutPoint(transactions: seq<Transaction>, valid: Transaction -> bool): Option<nat> {
    match FirstValid(Samples(transactions), valid)
    case None => None
    case Some(t) => Some(t.transactionNumber)
  }

  function KeptUnresolvable(unresolvable: set<Transaction>, cut: Option<nat>): set<Transaction> {
    set t | t in unresolvable && cut.Some? && t.transactionNumber <= cut.value
  }

  /** The stores after the first deletions of a revert: operations, unresolvable transactions, then transactions. */
  function Attempt(stores: Stores, valid: Transaction -> bool, deletions: nat): Stores {
    var cut := CutPoint(stores.transactions, valid);
    Stores(
      if deletions >= 1 then OperationStore.Kept(stores.operations, cut) else stores.operations,
      if deletions >= 2 then KeptUnresolvable(stores.unresolvable, cut) else stores.unresolvable,
      if deletions >= 3 then Kept(stores.transactions, cut) else stores.transactions)
  }

  function Reverted(stores: Stores, valid: Transaction -> bool): Stores {
    Attempt(stores, valid, 3)
  }

  /** A reorganisation invalidates the end of the store. */
  predicate ValidPrefix(transactions: seq<Transaction>, valid: Transaction -> bool, v: nat) {
    && v <= |transactions|
    && forall i :: 0 <= i < |transactions| ==> (valid(transactions[i]) <==> i < v)
  }

  // ------------------------------------------------------------ how much is removed

  /** The sample that is found is the first one inside the valid prefix. */
  lemma {:induction false} FirstValidIndex(samples: seq<Transaction>, valid: Transaction -> bool) returns (k: nat)
    ensures k <= |samples|
    ensures forall j :: 0 <= j < k ==> !valid(samples[j])
    ensures FirstValid(samples, valid) == if k < |samples| then Some(samples[k]) else None
    ensures k < |samples| ==> valid(samples[k])
  {
    if samples == [] || valid(samples[0]) {
      k := 0;
    } else {
      var rest := FirstValidIndex(samples[1..], valid);
      k := rest + 1;
      forall j | 0 <= j < k
        ensures !valid(samples[j])
      {
        assert j > 0 ==> samples[j] == samples[1..][j - 1];
      }
    }
  }

  lemma {:induction false} KeptLength(transactions: seq<Transaction>, i: nat)
    requires Increasing(transactions) && i < |transactions|
    ensures Kept(transactions, Some(transactions[i].transactionNumber)) == transactions[..i + 1]
  {
    var cut := transactions[i].transactionNumber;
    var r := Kept(transactions, Some(cut));
    assert transactions[i] in r;
    var j :| 0 <= j < |r| && r[j] == transactions[i];
    assert r[j] == transactions[j];
    assert r[|r| - 1] in r && r[|r| - 1] == transactions[|r| - 1];
  }

  lemma SampleAt(transactions: seq<Transaction>, k: nat)
    requires k < SampleCount(|transactions|)
    ensures |Samples(transactions)| == SampleCount(|transactions|)
    ensures Pow2(k) <= |transactions| && Samples(transactions)[k] == transactions[|transactions| - Pow2(k)]
  {
    SampleIsInRange(|transactions|, k);
  }

  /** The cut point is the first valid sample; the sample before it, if any, is not valid. */
  lemma CutSample(transactions: seq<Transaction>, valid: Transaction -> bool) returns (k: nat)
    ensures k <= SampleCount(|transactions|)
    ensures k > 0 ==> Pow2(k - 1) <= |transactions| && !valid(transactions[|transactions| - Pow2(k - 1)])
    ensures if k < SampleCount(|transactions|) then
              && Pow2(k) <= |transactions| && valid(transactions[|transactions| - Pow2(k)])
              && CutPoint(transactions, valid) == Some(transactions[|transactions| - Pow2(k)].transactionNumber)
            else CutPoint(transactions, valid) == None
  {
    var samples := Samples(transactions);
    k := FirstValidIndex(samples, valid);
    if k > 0 {
      SampleAt(transactions, k - 1);
      assert !valid(samples[k - 1]);
    }
    if k < SampleCount(|transactions|) {
      SampleAt(transactions, k);
    }
  }

  /** The store is cut after the first valid sample, at the distance of the k-th power of two from the end. */
  lemma CutIndex(transactions: seq<Transaction>, valid: Transaction -> bool, v: nat) returns (k: nat)
    requires Increasing(transactions) && ValidPrefix(transactions, valid, v)
    ensures k <= SampleCount(|transactions|)
    ensures k > 0 ==> v <= |transactions| - Pow2(k - 1)
    ensures var cut := CutPoint(transactions, valid);
            if k < SampleCount(|transactions|) then
              && 0 <= |transactions| - Pow2(k) < v
              && cut == Some(transactions[|transactions| - Pow2(k)].transactionNumber)
              && Kept(transactions, cut) == transactions[..|transactions| - Pow2(k) + 1]
            else cut == None && Kept(transactions, cut) == []
  {
    k := CutSample(transactions, valid);
    if k < SampleCount(|transactions|) {
      KeptLength(transactions, |transactions| - Pow2(k));
    }
  }

  /** The transactions removed are at least those that are invalid, and fewer than twice as many. With no invalid
      transaction nothing is removed; with no valid sample everything is. */
  lemma RemovedIsProportionate(transactions: seq<Transaction>, valid: Transaction -> bool, v: nat)
    requires Increasing(transactions) && ValidPrefix(transactions, valid, v)
    ensures var invalid := |transactions| - v;
            var removed := |transactions| - |Kept(transactions, CutPoint(transactions, valid))|;
            if invalid == 0 then removed == 0 else invalid <= removed < 2 * invalid
  {
    var k := CutIndex(transactions, valid, v);
    if k > 0 {
      assert Pow2(k) == 2 * Pow2(k - 1);
    }
  }

  /** After a revert the store is a valid prefix of what it was. */
  lemma RevertedIsValid(stores: Stores, valid: Transaction -> bool, v: nat)
    requires Increasing(stores.transactions) && ValidPrefix(stores.transactions, valid, v)
    ensures var r := Reverted(stores, valid).transactions;
            r <= stores.transactions && |r| <= v && ValidPrefix(r, valid, |r|)
  {
    RemovedIsProportionate(stores.transactions, valid, v);
  }

  // ------------------------------------------------------------ restarting

  lemma ValidLastIsTheCut(transactions: seq<Transaction>, valid: Transaction -> bool)
    requires Increasing(transactions) && transactions != [] && valid(transactions[|transactions| - 1])
    ensures var cut := Some(transactions[|transactions| - 1].transactionNumber);
            CutPoint(transactions, valid) == cut && Kept(transactions, cut) == transactions
  {
    SampleAt(transactions, 0);
    KeptLength(transactions, |transactions| - 1);
    assert transactions[..|transactions|] == transactions;
  }

  lemma EmptyHasNoCut(valid: Transaction -> bool)
    ensures CutPoint([], valid) == None && Kept([], None) == []
  {
    assert Samples([]) == [];
  }

  lemma PrefixIsStable(transactions: seq<Transaction>, valid: Transaction -> bool, v: nat, i: nat)
    requires Increasing(transactions) && ValidPrefix(transactions, valid, v) && i < v
    ensures var cut := Some(transactions[i].transactionNumber);
            CutPoint(transactions[..i + 1], valid) == cut && Kept(transactions[..i + 1], cut) == transactions[..i + 1]
  {
    ValidLastIsTheCut(transactions[..i + 1], valid);
  }

  lemma CutPointIsStable(transactions: seq<Transaction>, valid: Transaction -> bool, v: nat)
    requires Increasing(transactions) && ValidPrefix(transactions, valid, v)
    ensures var cut := CutPoint(transactions, valid);
            && CutPoint(Kept(transactions, cut), valid) == cut
            && Kept(Kept(transactions, cut), cut) == Kept(transactions, cut)
  {
    var k := CutIndex(transactions, valid, v);
    if k < SampleCount(|transactions|) {
      PrefixIsStable(transactions, valid, v, |transactions| - Pow2(k));
    } else {
      EmptyHasNoCut(valid);
    }
  }

  lemma KeptTwice(operations: OperationStore.Contents, unresolvable: set<Transaction>, cut: Option<nat>)
    ensures OperationStore.Kept(OperationStore.Kept(operations, cut), cut) == OperationStore.Kept(operations, cut)
    ensures KeptUnresolvable(KeptUnresolvable(unresolvable, cut), cut) == KeptUnresolvable(unresolvable, cut)
  {
  }

  lemma SameCutSameStores(stores: Stores, valid: Transaction -> bool, deletions: nat)
    requires CutPoint(Attempt(stores, valid, deletions).transactions, valid) == CutPoint(stores.transactions, valid)
    requires var kept := Kept(stores.transactions, CutPoint(stores.transactions, valid));
             Kept(kept, CutPoint(stores.transactions, valid)) == kept
    ensures Reverted(Attempt(stores, valid, deletions), valid) == Reverted(stores, valid)
  {
    KeptTwice(stores.operations, stores.unresolvable, CutPoint(stores.transactions, valid));
  }

  /** A revert that was stopped after any of its deletions chooses the same cut point when it is started again, and
      comes to the same stores as a revert that was not stopped. */
  lemma RevertIsRestartable(stores: Stores, valid: Transaction -> bool, v: nat, deletions: nat)
    requires Increasing(stores.transactions) && ValidPrefix(stores.transactions, valid, v)
    ensures CutPoint(Attempt(stores, valid, deletions).transactions, valid) == CutPoint(stores.transactions, valid)
    ensures Reverted(Attempt(stores, valid, deletions), valid) == Reverted(stores, valid)
  {
    CutPointIsStable(stores.transactions, valid, v);
    SameCutSameStores(stores, valid, deletions);
  }

  function Attempts(stores: Stores, valid: Transaction -> bool, deletions: seq<nat>): Stores
    decreases |deletions|
  {
    if deletions == [] then stores else Attempts(Attempt(stores, valid, deletions[0]), valid, deletions[1..])
  }

  /** However often a revert is stopped, the one that is not stopped comes to the same stores. */
  lemma {:induction false} AnyNumberOfRestarts(
    stores: Stores, valid: Transaction -> bool, v: nat, deletions: seq<nat>)
    requires Increasing(stores.transactions) && ValidPrefix(stores.transactions, valid, v)
    ensures Reverted(Attempts(stores, valid, deletions), valid) == Reverted(stores, valid)
    decreases |deletions|
  {
    if deletions != [] {
      RevertIsRestartable(stores, valid, v, deletions[0]);
      var next := Attempt(stores, valid, deletions[0]);
      RevertedIsValid(stores, valid, v);
      if deletions[0] >= 3 {
        assert next.transactions == Reverted(stores, valid).transactions;
        AnyNumberOfRestarts(next, valid, |next.transactions|, deletions[1..]);
      } else {
        AnyNumberOfRestarts(next, valid, v, deletions[1..]);
      }
    }
  }

  // ------------------------------------------------------------ operations

  /** The operations of the transactions that are kept. */
  function OperationsUpTo(operations: OperationStore.Contents, cut: Option<nat>): OperationStore.Contents {
    map k | k in operations && cut.Some? && k.transactionNumber <= cut.value :: operations[k]
  }

  /** After a revert no operation is later than the cut point. The operations up to the cut point are all still there
      if and only if the cut point is not transaction 0, or there are none: for the number 0 every operation is
      deleted. */
  lemma RevertedOperations(stores: Stores, valid: Transaction -> bool)
    ensures var cut, r := CutPoint(stores.transactions, valid), Reverted(stores, valid).operations;
            && (forall k <- r :: cut.Some? && k.transactionNumber <= cut.value)
            && (r == OperationsUpTo(stores.operations, cut)
                <==> cut != Some(0) || forall k <- stores.operations :: k.transactionNumber != 0)
  {
    var cut := CutPoint(stores.transactions, valid);
    var upTo := OperationsUpTo(stores.operations, cut);
    if cut == Some(0) {
      assert Reverted(stores, valid).operations == map[];
      forall k | k in stores.operations && k.transactionNumber == 0
        ensures upTo != map[]
      {
        assert k in upTo;
      }
    }
  }

  /** After a revert exactly the unresolvable transactions up to the cut point are still to be tried again; without a
      cut point there are none. */
  lemma RevertedUnresolvable(stores: Stores, valid: Transaction -> bool)
    ensures var cut, r := CutPoint(stores.transactions, valid), Reverted(stores, valid).unresolvable;
            forall t :: t in r <==> t in stores.unresolvable && cut.Some? && t.transactionNumber <= cut.value
  {
  }

  /** The smallest case: cut at transaction 0, the operations of the transaction that is kept are lost. */
  lemma CutAtZeroLosesOperations(kept: Transaction, removed: Transaction, operation: AnchoredOperation)
    requires kept.transactionNumber == 0 && removed.transactionNumber == 1 && operation.transactionNumber == 0
    ensures var stores := Stores(map[OperationStore.KeyOf(operation) := operation], {}, [kept, removed]);
            Reverted(stores, t => t == kept) == Stores(map[], {}, [kept])
  {
    var transactions, valid := [kept, removed], (t: Transaction) => t == kept;
    assert ValidPrefix(transactions, valid, 1);
    var k := CutIndex(transactions, valid, 1);
    assert SampleCount(2) == 2;
    assert Pow2(1) == 2;
    assert k == 1;
    assert transactions[..1] == [kept];
  }
}
