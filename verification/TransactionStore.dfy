/** The store of processed transactions, unique by transaction number. */
module TransactionStore {
  import opened Wrappers
  import opened Models

  /** The transactions in the order of the store's unique index. */
  predicate Increasing(transactions: seq<Transaction>) {
    forall i, j :: 0 <= i < j < |transactions| ==> transactions[i].transactionNumber < transactions[j].transactionNumber
  }

  predicate Stored(transactions: seq<Transaction>, transactionNumber: nat) {
    exists i :: 0 <= i < |transactions| && transactions[i].transactionNumber == transactionNumber
  }

  /** Adds a transaction where it belongs, unless its number is taken. */
  function Inserted(transactions: seq<Transaction>, transaction: Transaction): seq<Transaction> {
    if transactions == [] || transactions[|transactions| - 1].transactionNumber < transaction.transactionNumber then
      transactions + [transaction]
    else
      var n := |transactions| - 1;
      if transactions[n].transactionNumber == transaction.transactionNumber then transactions
      else Inserted(transactions[..n], transaction) + [transactions[n]]
  }

  /** The store stays in order, keeps what it has, and gains the transaction if its number was free. */
  lemma {:induction false} InsertedInOrder(transactions: seq<Transaction>, transaction: Transaction)
    requires Increasing(transactions)
    ensures Increasing(Inserted(transactions, transaction))
    ensures forall t :: t in Inserted(transactions, transaction) <==>
              t in transactions || (t == transaction && !Stored(transactions, transaction.transactionNumber))
  {
    if transactions != [] {
      var n := |transactions| - 1;
      assert transactions == transactions[..n] + [transactions[n]];
      if transactions[n].transactionNumber > transaction.transactionNumber {
        InsertedInOrder(transactions[..n], transaction);
        var rest := Inserted(transactions[..n], transaction);
        assert forall t <- rest :: t.transactionNumber < transactions[n].transactionNumber;
        assert Stored(transactions, transaction.transactionNumber)
            == Stored(transactions[..n], transaction.transactionNumber) by {
          if Stored(transactions, transaction.transactionNumber) {
            var i :| 0 <= i < |transactions| && transactions[i].transactionNumber == transaction.transactionNumber;
            assert transactions[..n][i] == transactions[i];
          }
        }
      }
    }
  }

  function Last(transactions: seq<Transaction>): Option<Transaction> {
    if transactions == [] then None else Some(transactions[|transactions| - 1])
  }

  /** What is left after removing the transactions later than a number, or all of them if there is no number. */
  function Kept(transactions: seq<Transaction>, transactionNumber: Option<nat>): (r: seq<Transaction>)
    ensures forall t :: t in r <==>
              t in transactions && transactionNumber.Some? && t.transactionNumber <= transactionNumber.value
    ensures Increasing(transactions) ==> r <= transactions
  {
    if transactions == [] || transactionNumber.None? then []
    else
      var n := |transactions| - 1;
      assert transactions == transactions[..n] + [transactions[n]];
      Kept(transactions[..n], transactionNumber)
      + if transactions[n].transactionNumber <= transactionNumber.value then [transactions[n]] else []
  }

  // ------------------------------------------------------------ samples

  function Pow2(k: nat): (r: nat)
    ensures r >= 1
  {
    if k == 0 then 1 else 2 * Pow2(k - 1)
  }

  /** How many of the distances 1, 2, 4, ... lead from the end to a transaction. */
  function SampleCount(n: nat): (c: nat)
    ensures n < Pow2(c) && (c > 0 ==> Pow2(c - 1) <= n)
  {
    if n == 0 then 0 else 1 + SampleCount(n / 2)
  }

  lemma {:induction false} Pow2IsMonotone(j: nat, k: nat)
    requires j <= k
    ensures Pow2(j) <= Pow2(k)
  {
    if j < k {
      Pow2IsMonotone(j, k - 1);
    }
  }

  lemma SampleIsInRange(n: nat, k: nat)
    requires k < SampleCount(n)
    ensures Pow2(k) <= n
  {
    Pow2IsMonotone(k, SampleCount(n) - 1);
  }

  /** The transactions at the distances 1, 2, 4, ... from the end. */
  function Samples(transactions: seq<Transaction>): seq<Transaction> {
    seq(SampleCount(|transactions|), k requires 0 <= k < SampleCount(|transactions|) =>
      SampleIsInRange(|transactions|, k); transactions[|transactions| - Pow2(k)])
  }

  // ------------------------------------------------------------ the store

  class TransactionStore {
    var transactions: seq<Transaction>

    ghost predicate Valid()
      reads this
    {
      Increasing(transactions)
    }

    constructor ()
      ensures Valid() && transactions == []
    {
      transactions := [];
    }

    /** Adding a transaction whose number is stored already changes nothing. */
    method AddTransaction(transaction: Transaction)
      requires Valid()
      modifies this
      ensures Valid() && transactions == Inserted(old(transactions), transaction)
    {
      InsertedInOrder(transactions, transaction);
      transactions := Inserted(transactions, transaction);
    }

    method GetLastTransaction() returns (r: Option<Transaction>)
      requires Valid()
      ensures r == Last(transactions)
      ensures r.Some? ==> r.value in transactions
                          && forall t <- transactions :: t.transactionNumber <= r.value.transactionNumber
    {
      return Last(transactions);
    }

    method GetExponentiallySpacedTransactions() returns (r: seq<Transaction>)
      ensures r == Samples(transactions)
    {
      r := [];
      var n := |transactions|;
      var index: int, distance := n - 1, 1;
      while index >= 0
        invariant |r| <= SampleCount(n)
        invariant index == n - Pow2(|r|) && distance == Pow2(|r|)
        invariant r == Samples(transactions)[..|r|]
        decreases index
      {
        if |r| == SampleCount(n) {
          assert false;
        }
        assert Samples(transactions)[..|r| + 1] == Samples(transactions)[..|r|] + [transactions[index]];
        r := r + [transactions[index]];
        index := index - distance;
        distance := distance * 2;
      }
      if |r| < SampleCount(n) {
        SampleIsInRange(n, |r|);
        assert false;
      }
    }

    method RemoveTransactionsLaterThan(transactionNumber: Option<nat>)
      requires Valid()
      modifies this
      ensures Valid() && transactions == Kept(old(transactions), transactionNumber)
    {
      var before := transactions;
      transactions := Kept(transactions, transactionNumber);
      assert transactions <= before;
    }

    /** Exactly the transactions within the times, each once, in the order of their numbers. */
    method GetTransactionsStartingFrom(inclusiveBeginTransactionTime: nat, exclusiveEndTransactionTime: nat)
      returns (r: seq<Transaction>)
      ensures forall t :: t in r <==>
                t in transactions && WithinTimes(t, inclusiveBeginTransactionTime, exclusiveEndTransactionTime)
      ensures Increasing(transactions) ==> Increasing(r)
      ensures r == StartingFrom(transactions, inclusiveBeginTransactionTime, exclusiveEndTransactionTime)
    {
      if Increasing(transactions) {
        StartingFromInOrder(transactions, inclusiveBeginTransactionTime, exclusiveEndTransactionTime);
      }
      return StartingFrom(transactions, inclusiveBeginTransactionTime, exclusiveEndTransactionTime);
    }
  }

  /** Equal bounds ask for a single transaction time. */
  predicate WithinTimes(transaction: Transaction, begin: nat, end: nat) {
    if begin == end then transaction.transactionTime == begin else begin <= transaction.transactionTime < end
  }

  function StartingFrom(transactions: seq<Transaction>, begin: nat, end: nat): (r: seq<Transaction>)
    ensures forall t :: t in r <==> t in transactions && WithinTimes(t, begin, end)
  {
    if transactions == [] then []
    else
      var n := |transactions| - 1;
      assert transactions == transactions[..n] + [transactions[n]];
      StartingFrom(transactions[..n], begin, end)
      + if WithinTimes(transactions[n], begin, end) then [transactions[n]] else []
  }

  lemma {:induction false} StartingFromInOrder(transactions: seq<Transaction>, begin: nat, end: nat)
    requires Increasing(transactions)
    ensures Increasing(StartingFrom(transactions, begin, end))
  {
    if transactions != [] {
      var n := |transactions| - 1;
      StartingFromInOrder(transactions[..n], begin, end);
      var rest := StartingFrom(transactions[..n], begin, end);
      forall i | 0 <= i < |rest|
        ensures rest[i].transactionNumber < transactions[n].transactionNumber
      {
        assert rest[i] in rest;
      }
    }
  }
}
