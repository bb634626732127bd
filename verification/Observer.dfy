/** The observer: its list of transactions under processing, and the stores it keeps. */
module Observer {
  import opened Wrappers
  import opened Models
  import opened TransactionStore
  import opened ObserverProtocol
  import OperationStore
  import Reorganization
  import TransactionProcessor

  class TransactionUnderProcessing {
    const transaction: Transaction
    var processed: bool

    constructor (transaction: Transaction)
      ensures this.transaction == transaction && !processed
    {
      this.transaction := transaction;
      processed := false;
    }
  }

  class UnresolvableTransactionStore {
    var transactions: set<Transaction>

    constructor ()
      ensures transactions == {}
    {
      transactions := {};
    }

    method RemoveUnresolvableTransaction(transaction: Transaction)
      modifies this
      ensures transactions == old(transactions) - {transaction}
    {
      transactions := transactions - {transaction};
    }

    method RemoveUnresolvableTransactionsLaterThan(transactionNumber: Option<nat>)
      modifies this
      ensures transactions == Reorganization.KeptUnresolvable(old(transactions), transactionNumber)
    {
      if transactionNumber.None? {
        transactions := {};
        return;
      }
      transactions := set t | t in transactions && t.transactionNumber <= transactionNumber.value;
    }
  }

  function Processing(entry: TransactionUnderProcessing): Entry
    reads entry
  {
    Entry(entry.transaction, entry.processed)
  }

  /** The length of the beginning of a list that is processed. */
  function ProcessedCount(entries: seq<Entry>): (n: nat)
    ensures n <= |entries|
    ensures forall i :: 0 <= i < n ==> entries[i].processed
    ensures n < |entries| ==> !entries[n].processed
  {
    if entries == [] || !entries[0].processed then 0
    else
      var n := ProcessedCount(entries[1..]);
      assert forall i :: 0 < i <= n ==> entries[i] == entries[1..][i - 1];
      1 + n
  }

  function InsertedAll(stored: seq<Transaction>, entries: seq<Entry>): seq<Transaction> {
    if entries == [] then stored
    else Inserted(InsertedAll(stored, entries[..|entries| - 1]), entries[|entries| - 1].transaction)
  }

  lemma {:induction false} InsertedAllIsIncreasing(stored: seq<Transaction>, entries: seq<Entry>)
    requires Increasing(stored)
    ensures Increasing(InsertedAll(stored, entries))
  {
    if entries != [] {
      var n := |entries| - 1;
      InsertedAllIsIncreasing(stored, entries[..n]);
      InsertedInOrder(InsertedAll(stored, entries[..n]), entries[n].transaction);
    }
  }

  /** The list without its processed beginning. */
  function Trimmed(entries: seq<Entry>): seq<Entry> {
    entries[ProcessedCount(entries)..]
  }

  /** The store with the processed beginning of the list. */
  function StoredAfter(stored: seq<Transaction>, entries: seq<Entry>): seq<Transaction> {
    InsertedAll(stored, entries[..ProcessedCount(entries)])
  }

  lemma InsertedOneMore(stored: seq<Transaction>, entries: seq<Entry>, i: nat)
    requires i < |entries|
    ensures InsertedAll(stored, entries[..i + 1]) == Inserted(InsertedAll(stored, entries[..i]), entries[i].transaction)
  {
    assert entries[..i + 1][..i] == entries[..i];
  }

  lemma ProcessedCountIs(entries: seq<Entry>, i: nat)
    requires i <= |entries| && (forall j :: 0 <= j < i ==> entries[j].processed)
    requires i < |entries| ==> !entries[i].processed
    ensures ProcessedCount(entries) == i
  {
    var n := ProcessedCount(entries);
    assert n < |entries| ==> !entries[n].processed;
  }

  class Observer {
    var transactionsUnderProcessing: seq<TransactionUnderProcessing>
    const transactionStore: TransactionStore
    const operationStore: OperationStore.OperationStore
    const unresolvableTransactionStore: UnresolvableTransactionStore

    constructor (transactionStore: TransactionStore, operationStore: OperationStore.OperationStore,
                 unresolvableTransactionStore: UnresolvableTransactionStore)
      ensures transactionsUnderProcessing == [] && this.transactionStore == transactionStore
      ensures this.operationStore == operationStore
      ensures this.unresolvableTransactionStore == unresolvableTransactionStore
    {
      transactionsUnderProcessing := [];
      this.transactionStore := transactionStore;
      this.operationStore := operationStore;
      this.unresolvableTransactionStore := unresolvableTransactionStore;
    }

    ghost function View(): (r: seq<Entry>)
      reads this, transactionsUnderProcessing
      ensures |r| == |transactionsUnderProcessing|
    {
      seq(|transactionsUnderProcessing|, i requires 0 <= i < |transactionsUnderProcessing|
        reads this, transactionsUnderProcessing => Processing(transactionsUnderProcessing[i]))
    }

    /** Queues fetched transactions; their processing is not waited for. */
    method QueueTransactions(qualifiedTransactions: seq<Transaction>)
      modifies this
      ensures View() == old(View()) + Entries(qualifiedTransactions)
      ensures transactionsUnderProcessing[..|old(transactionsUnderProcessing)|] == old(transactionsUnderProcessing)
    {
      for i := 0 to |qualifiedTransactions|
        invariant |transactionsUnderProcessing| == |old(transactionsUnderProcessing)| + i
        invariant transactionsUnderProcessing[..|old(transactionsUnderProcessing)|] == old(transactionsUnderProcessing)
        invariant forall e <- old(transactionsUnderProcessing) :: e.processed == old(e.processed)
        invariant forall j :: 0 <= j < i ==>
                    Processing(transactionsUnderProcessing[|old(transactionsUnderProcessing)| + j])
                    == Entry(qualifiedTransactions[j], false)
      {
        var transactionUnderProcessing := new TransactionUnderProcessing(qualifiedTransactions[i]);
        transactionsUnderProcessing := transactionsUnderProcessing + [transactionUnderProcessing];
      }
      assert forall j :: 0 <= j < |old(transactionsUnderProcessing)| ==>
          transactionsUnderProcessing[j] == old(transactionsUnderProcessing)[j];
    }

    /** Whatever comes of it, a transaction ends as processed; only success is recorded. */
    method ProcessTransaction(
      transactionUnderProcessing: TransactionUnderProcessing, processor: TransactionProcessor.TransactionProcessor,
      fetch: TransactionProcessor.Downloads)
      requires processor.operationStore == operationStore
      modifies transactionUnderProcessing, operationStore, unresolvableTransactionStore
      ensures transactionUnderProcessing.processed
      ensures var t := transactionUnderProcessing.transaction;
              var processing := TransactionProcessor.Processed(processor.ctx, fetch, t);
              && operationStore.contents ==
                 (if processing.stored.None? then old(operationStore.contents)
                  else OperationStore.Inserted(old(operationStore.contents), processing.stored.value))
              && unresolvableTransactionStore.transactions ==
                 old(unresolvableTransactionStore.transactions) - if processing.outcome == Ok(true) then {t} else {}
    {
      var transaction := transactionUnderProcessing.transaction;
      var r := processor.ProcessTransaction(transaction, fetch);
      var transactionProcessedSuccessfully := r.Ok? && r.value;
      if transactionProcessedSuccessfully {
        unresolvableTransactionStore.RemoveUnresolvableTransaction(transaction);
      }
      transactionUnderProcessing.processed := true;
    }

    predicate IsProcessed(i: nat)
      requires i < |transactionsUnderProcessing|
      reads this, transactionsUnderProcessing
      ensures IsProcessed(i) == View()[i].processed
    {
      transactionsUnderProcessing[i].processed
    }

    method StoreTransaction(i: nat)
      requires transactionStore.Valid() && i < |transactionsUnderProcessing|
      modifies transactionStore
      ensures transactionStore.Valid() && View() == old(View())
      ensures transactionStore.transactions == Inserted(old(transactionStore.transactions), View()[i].transaction)
    {
      transactionStore.AddTransaction(transactionsUnderProcessing[i].transaction);
    }

    /** Stores the processed transactions at the beginning of the list, in order, and counts them. */
    method StoreConsecutiveTransactionsProcessed() returns (i: nat)
      requires transactionStore.Valid()
      modifies transactionStore
      ensures transactionStore.Valid() && View() == old(View()) && i == ProcessedCount(View())
      ensures transactionStore.transactions == StoredAfter(old(transactionStore.transactions), View())
    {
      ghost var entries, stored := View(), transactionStore.transactions;
      i := 0;
      while i < |transactionsUnderProcessing| && IsProcessed(i)
        invariant i <= |entries| && View() == entries && transactionStore.Valid()
        invariant forall j :: 0 <= j < i ==> entries[j].processed
        invariant transactionStore.transactions == InsertedAll(stored, entries[..i])
      {
        InsertedOneMore(stored, entries, i);
        StoreTransaction(i);
        i := i + 1;
      }
      ProcessedCountIs(entries, i);
    }

    /** Stores the processed transactions at the beginning of the list, in order, and takes them off the list. */
    method StoreThenTrimConsecutiveTransactionsProcessed()
      requires transactionStore.Valid()
      modifies this, transactionStore
      ensures transactionStore.Valid() && View() == Trimmed(old(View()))
      ensures transactionStore.transactions == StoredAfter(old(transactionStore.transactions), old(View()))
    {
      ghost var entries := View();
      var i := StoreConsecutiveTransactionsProcessed();
      transactionsUnderProcessing := transactionsUnderProcessing[i..];
      assert View() == entries[i..];
    }

    /** Cuts all stores back to the best known valid recent transaction, the transaction store last. */
    method RevertInvalidTransactions(valid: Transaction -> bool)
      requires transactionStore.Valid()
      modifies operationStore, unresolvableTransactionStore, transactionStore
      ensures transactionStore.Valid()
      ensures Reorganization.Stores(operationStore.contents, unresolvableTransactionStore.transactions,
                                    transactionStore.transactions)
              == Reorganization.Reverted(
                   Reorganization.Stores(old(operationStore.contents), old(unresolvableTransactionStore.transactions),
                                         old(transactionStore.transactions)), valid)
    {
      var exponentiallySpacedTransactions := transactionStore.GetExponentiallySpacedTransactions();
      var best := Reorganization.FirstValid(exponentiallySpacedTransactions, valid);
      var number := NumberOf(best);
      operationStore.Delete(number);
      unresolvableTransactionStore.RemoveUnresolvableTransactionsLaterThan(number);
      transactionStore.RemoveTransactionsLaterThan(number);
    }
  }

  // ------------------------------------------------------------ the storing loop as steps

  /** The state after the storing loop has run to its end, undisturbed. */
  function StoringDone(s: State): State {
    s.(stored := StoredAfter(s.stored, s.underProcessing), underProcessing := Trimmed(s.underProcessing),
       storing := None)
  }

  function Storing(qualifies: Transaction -> bool, s: State, turns: nat): State {
    if turns == 0 then Next(qualifies, s, BeginStoring)
    else Next(qualifies, Storing(qualifies, s, turns - 1), StoreNext)
  }

  lemma StoresOne(qualifies: Transaction -> bool, s: State, i: nat)
    requires s.storing == Some(i) && CanStore(s)
    ensures Next(qualifies, s, StoreNext)
            == s.(stored := Inserted(s.stored, s.underProcessing[i].transaction), storing := Some(i + 1))
  {
  }

  lemma {:induction false} StoringTurns(qualifies: Transaction -> bool, s: State, turns: nat)
    requires s.storing.None? && turns <= ProcessedCount(s.underProcessing)
    ensures Storing(qualifies, s, turns)
            == s.(stored := InsertedAll(s.stored, s.underProcessing[..turns]), storing := Some(turns))
  {
    if turns == 0 {
      assert s.underProcessing[..0] == [];
    } else {
      StoringTurns(qualifies, s, turns - 1);
      InsertedOneMore(s.stored, s.underProcessing, turns - 1);
      StoresOne(qualifies, Storing(qualifies, s, turns - 1), turns - 1);
    }
  }

  lemma StoringTrims(qualifies: Transaction -> bool, s: State, n: nat)
    requires s.storing == Some(n) && !CanStore(s) && n <= |s.underProcessing|
    ensures Next(qualifies, s, StoreNext) == s.(underProcessing := s.underProcessing[n..], storing := None)
  {
  }

  /** What `StoreThenTrimConsecutiveTransactionsProcessed` does is what the steps of the protocol do. */
  lemma StoringLoopIsSteps(qualifies: Transaction -> bool, s: State)
    requires s.storing.None?
    ensures Storing(qualifies, s, ProcessedCount(s.underProcessing) + 1) == StoringDone(s)
  {
    var n := ProcessedCount(s.underProcessing);
    StoringTurns(qualifies, s, n);
    StoringTrims(qualifies, Storing(qualifies, s, n), n);
  }
}
