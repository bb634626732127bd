/** Rate limiting: which of the transactions of one transaction time are processed. */
module TransactionSelector {
  import opened Wrappers
  import opened Models
  import opened TransactionStore
  import AnchoredDataSerializer

  // ------------------------------------------------------------ the priority queue

  /** A higher fee comes first; at equal fees, the earlier transaction. */
  predicate Before(a: Transaction, b: Transaction) {
    || a.transactionFeePaid > b.transactionFeePaid
    || (a.transactionFeePaid == b.transactionFeePaid && a.transactionNumber <= b.transactionNumber)
  }

  function BestIndex(transactions: seq<Transaction>): (k: nat)
    requires transactions != []
    ensures k < |transactions|
    ensures forall i :: 0 <= i < |transactions| ==> Before(transactions[k], transactions[i])
  {
    var n := |transactions| - 1;
    if n == 0 then 0
    else
      var k := BestIndex(transactions[..n]);
      assert forall i :: 0 <= i < n ==> Before(transactions[k], transactions[..n][i]);
      if Before(transactions[k], transactions[n]) then k else n
  }

  function Without(transactions: seq<Transaction>, k: nat): seq<Transaction>
    requires k < |transactions|
  {
    transactions[..k] + transactions[k + 1..]
  }

  /** The transactions in the order a priority queue gives them out. */
  function Ranked(transactions: seq<Transaction>): seq<Transaction>
    decreases |transactions|
  {
    if transactions == [] then []
    else
      var k := BestIndex(transactions);
      [transactions[k]] + Ranked(Without(transactions, k))
  }

  class PriorityQueue {
    var items: seq<Transaction>

    constructor ()
      ensures items == []
    {
      items := [];
    }

    method Push(transaction: Transaction)
      modifies this
      ensures items == old(items) + [transaction]
    {
      items := items + [transaction];
    }

    method Pop() returns (r: Transaction)
      requires items != []
      modifies this
      ensures Ranked(old(items)) == [r] + Ranked(items) && |items| == |old(items)| - 1
    {
      var k := BestIndex(items);
      r := items[k];
      items := Without(items, k);
    }
  }

  predicate ByPriority(transactions: seq<Transaction>) {
    forall i, j :: 0 <= i < j < |transactions| ==> Before(transactions[i], transactions[j])
  }

  lemma WithoutKeepsOthers(transactions: seq<Transaction>, k: nat)
    requires k < |transactions|
    ensures multiset(transactions) == multiset(Without(transactions, k)) + multiset{transactions[k]}
    ensures forall t <- Without(transactions, k) :: t in transactions
  {
    assert transactions == transactions[..k] + [transactions[k]] + transactions[k + 1..];
  }

  lemma SameElements(a: seq<Transaction>, b: seq<Transaction>, t: Transaction)
    requires multiset(a) == multiset(b)
    ensures t in a <==> t in b
  {
    assert t in a <==> t in multiset(a);
    assert t in b <==> t in multiset(b);
  }

  /** Ranking only reorders, and puts higher fees and then lower numbers first. */
  lemma {:induction false} RankedIsSorted(transactions: seq<Transaction>)
    ensures multiset(Ranked(transactions)) == multiset(transactions)
    ensures ByPriority(Ranked(transactions))
    decreases |transactions|
  {
    if transactions != [] {
      var k := BestIndex(transactions);
      var rest := Without(transactions, k);
      var ranked := Ranked(rest);
      RankedIsSorted(rest);
      WithoutKeepsOthers(transactions, k);
      forall i | 0 <= i < |ranked|
        ensures Before(transactions[k], ranked[i])
      {
        SameElements(ranked, rest, ranked[i]);
      }
    }
  }

  // ------------------------------------------------------------ candidates

  function Writers(transactions: seq<Transaction>): set<string> {
    set t | t in transactions :: t.writer
  }

  lemma WritersAppend(transactions: seq<Transaction>, t: Transaction)
    ensures Writers(transactions + [t]) == Writers(transactions) + {t.writer}
  {
    var all := transactions + [t];
    assert all[|transactions|] in all;
    forall u | u in transactions
      ensures u in all
    {
    }
  }

  /** The first transaction of every writer. */
  function FirstPerWriter(transactions: seq<Transaction>): (r: seq<Transaction>)
    ensures Writers(r) == Writers(transactions)
  {
    if transactions == [] then []
    else
      var n := |transactions| - 1;
      assert transactions == transactions[..n] + [transactions[n]];
      var rest := FirstPerWriter(transactions[..n]);
      WritersAppend(transactions[..n], transactions[n]);
      WritersAppend(rest, transactions[n]);
      if transactions[n].writer in Writers(transactions[..n]) then rest else rest + [transactions[n]]
  }

  predicate OnePerWriter(transactions: seq<Transaction>) {
    forall i, j :: 0 <= i < j < |transactions| ==> transactions[i].writer != transactions[j].writer
  }

  predicate ContainsFirsts(candidates: seq<Transaction>, transactions: seq<Transaction>) {
    forall k :: 0 <= k < |transactions| && transactions[k].writer !in Writers(transactions[..k]) ==>
      transactions[k] in candidates
  }

  lemma OneMoreWriter(candidates: seq<Transaction>, t: Transaction)
    requires OnePerWriter(candidates) && t.writer !in Writers(candidates)
    ensures OnePerWriter(candidates + [t])
  {
    forall i | 0 <= i < |candidates|
      ensures candidates[i].writer != t.writer
    {
      assert candidates[i] in candidates;
    }
  }

  lemma FirstsStay(candidates: seq<Transaction>, more: seq<Transaction>, transactions: seq<Transaction>)
    requires transactions != [] && ContainsFirsts(candidates, transactions[..|transactions| - 1])
    requires forall t <- candidates :: t in more
    requires var last := transactions[|transactions| - 1];
             last.writer !in Writers(transactions[..|transactions| - 1]) ==> last in more
    ensures ContainsFirsts(more, transactions)
  {
    var n := |transactions| - 1;
    forall k | 0 <= k < |transactions| && transactions[k].writer !in Writers(transactions[..k])
      ensures transactions[k] in more
    {
      assert k < n ==> transactions[..n][..k] == transactions[..k] && transactions[..n][k] == transactions[k];
    }
  }

  /** Every writer has exactly one candidate, the first of its transactions. */
  lemma {:induction false} FirstPerWriterIsFirst(transactions: seq<Transaction>)
    ensures OnePerWriter(FirstPerWriter(transactions)) && ContainsFirsts(FirstPerWriter(transactions), transactions)
  {
    if transactions != [] {
      var n := |transactions| - 1;
      var before, rest := transactions[..n], FirstPerWriter(transactions[..n]);
      FirstPerWriterIsFirst(before);
      if transactions[n].writer in Writers(before) {
        FirstsStay(rest, rest, transactions);
      } else {
        OneMoreWriter(rest, transactions[n]);
        FirstsStay(rest, rest + [transactions[n]], transactions);
      }
    }
  }

  // ------------------------------------------------------------ counting

  /** The number of operations a transaction claims, if its anchor string can be read. */
  function OperationCount(t: Transaction): (r: Option<nat>)
    ensures r.Some? ==> r.value >= 1
  {
    var data := AnchoredDataSerializer.Deserialize(t.anchorString);
    if data.Ok? then
      AnchoredDataSerializer.DeserializeThenSerialize(t.anchorString);
      Some(data.value.numberOfOperations)
    else None
  }

  function CountOrZero(t: Transaction): nat {
    if OperationCount(t).Some? then OperationCount(t).value else 0
  }

  function TotalOperations(transactions: seq<Transaction>): nat {
    if transactions == [] then 0
    else TotalOperations(transactions[..|transactions| - 1]) + CountOrZero(transactions[|transactions| - 1])
  }

  function Readable(transactions: seq<Transaction>): seq<Transaction> {
    if transactions == [] then []
    else
      (if OperationCount(transactions[0]).Some? then [transactions[0]] else []) + Readable(transactions[1..])
  }

  /** Exactly the readable transactions, which claim at least one operation each. */
  lemma {:induction false} ReadableAreCounted(transactions: seq<Transaction>)
    ensures forall t :: t in Readable(transactions) <==> t in transactions && OperationCount(t).Some?
    ensures forall t <- Readable(transactions) :: CountOrZero(t) >= 1
  {
    if transactions != [] {
      ReadableAreCounted(transactions[1..]);
      assert transactions == [transactions[0]] + transactions[1..];
    }
  }

  lemma ReadableStep(t: Transaction, rest: seq<Transaction>)
    ensures Readable([t] + rest) == if OperationCount(t).Some? then [t] + Readable(rest) else Readable(rest)
  {
    assert ([t] + rest)[1..] == rest;
  }

  // ------------------------------------------------------------ selection

  /** Takes transactions while both limits allow it. */
  function TakeFitting(transactions: seq<Transaction>, operations: int, count: int): seq<Transaction> {
    if transactions == [] || count <= 0 || CountOrZero(transactions[0]) > operations then []
    else [transactions[0]] + TakeFitting(transactions[1..], operations - CountOrZero(transactions[0]), count - 1)
  }

  predicate Fits(transactions: seq<Transaction>, operations: int, count: int) {
    transactions == [] || (TotalOperations(transactions) <= operations && |transactions| <= count)
  }

  predicate SameTime(transactions: seq<Transaction>) {
    forall i :: 0 <= i < |transactions| ==> transactions[i].transactionTime == transactions[0].transactionTime
  }

  /** What competes for selection. */
  function Candidates(transactions: seq<Transaction>): seq<Transaction> {
    Readable(Ranked(FirstPerWriter(transactions)))
  }

  function OperationsLeft(stored: seq<Transaction>, time: nat): int {
    MAX_OPERATIONS_PER_TRANSACTION_TIME - TotalOperations(StartingFrom(stored, time, time))
  }

  function TransactionsLeft(stored: seq<Transaction>, time: nat): int {
    MAX_TRANSACTIONS_PER_TRANSACTION_TIME - |StartingFrom(stored, time, time)|
  }

  function Selected(transactions: seq<Transaction>, stored: seq<Transaction>): Result<seq<Transaction>, Error> {
    if transactions == [] then Ok([])
    else if !SameTime(transactions) then Err(TransactionsNotInSameBlock)
    else
      var time := transactions[0].transactionTime;
      Ok(TakeFitting(Candidates(transactions), OperationsLeft(stored, time), TransactionsLeft(stored, time)))
  }

  lemma {:induction false} TotalFromFront(transactions: seq<Transaction>)
    requires transactions != []
    ensures TotalOperations(transactions) == CountOrZero(transactions[0]) + TotalOperations(transactions[1..])
  {
    var n := |transactions| - 1;
    if n > 0 {
      TotalFromFront(transactions[..n]);
      assert transactions[..n][1..] == transactions[1..][..n - 1];
    } else {
      assert transactions[..0] == [] && transactions[1..] == [];
    }
  }

  lemma FitsFromFront(transactions: seq<Transaction>, operations: int, count: int)
    requires transactions != []
    ensures Fits(transactions, operations, count)
            <==> && count >= 1 && CountOrZero(transactions[0]) <= operations
                 && Fits(transactions[1..], operations - CountOrZero(transactions[0]), count - 1)
  {
    TotalFromFront(transactions);
    assert transactions[1..] == [] ==> TotalOperations(transactions[1..]) == 0;
  }

  /** What is taken is the longest beginning that fits both limits. */
  lemma {:induction false} TakenIsLongestFitting(transactions: seq<Transaction>, operations: int, count: int, n: nat)
    requires n <= |transactions|
    ensures var r := TakeFitting(transactions, operations, count);
            && r <= transactions && Fits(r, operations, count)
            && (Fits(transactions[..n], operations, count) <==> n <= |r|)
    decreases |transactions|
  {
    var r := TakeFitting(transactions, operations, count);
    if n > 0 {
      FitsFromFront(transactions[..n], operations, count);
      assert transactions[..n][1..] == transactions[1..][..n - 1];
    }
    if r != [] {
      var left := operations - CountOrZero(transactions[0]);
      TakenIsLongestFitting(transactions[1..], left, count - 1, if n > 0 then n - 1 else 0);
      FitsFromFront(r, operations, count);
      assert r[1..] == TakeFitting(transactions[1..], left, count - 1);
    }
  }

  lemma {:induction false} ReadableKeepsOrder(transactions: seq<Transaction>)
    requires ByPriority(transactions)
    ensures ByPriority(Readable(transactions))
  {
    if transactions != [] {
      ReadableKeepsOrder(transactions[1..]);
      ReadableAreCounted(transactions[1..]);
      forall t | t in transactions[1..]
        ensures Before(transactions[0], t)
      {
      }
    }
  }

  /** The candidates are the readable first transactions of the writers, best first. */
  lemma CandidatesAreRanked(transactions: seq<Transaction>)
    ensures ByPriority(Candidates(transactions))
    ensures forall t :: t in Candidates(transactions) <==> t in FirstPerWriter(transactions) && OperationCount(t).Some?
  {
    var first := FirstPerWriter(transactions);
    RankedIsSorted(first);
    ReadableKeepsOrder(Ranked(first));
    ReadableAreCounted(Ranked(first));
    forall t
      ensures t in Ranked(first) <==> t in first
    {
      SameElements(Ranked(first), first, t);
    }
  }

  /** What is selected is the longest beginning of the candidates that fits what is left of both limits. */
  lemma SelectionIsLongestFitting(transactions: seq<Transaction>, stored: seq<Transaction>, time: nat, n: nat)
    requires transactions != [] && SameTime(transactions) && transactions[0].transactionTime == time
    requires n <= |Candidates(transactions)|
    ensures Selected(transactions, stored).Ok?
    ensures var r := Selected(transactions, stored).value;
            && r <= Candidates(transactions)
            && Fits(r, OperationsLeft(stored, time), TransactionsLeft(stored, time))
            && (Fits(Candidates(transactions)[..n], OperationsLeft(stored, time), TransactionsLeft(stored, time))
                <==> n <= |r|)
  {
    TakenIsLongestFitting(Candidates(transactions), OperationsLeft(stored, time), TransactionsLeft(stored, time), n);
  }

  /** Either the limit was passed and everything is taken, or the rest of what is taken comes from the ranking. */
  predicate Remains(
    all: seq<Transaction>, taken: seq<Transaction>, seen: nat, ranked: seq<Transaction>, operations: int, count: int)
  {
    || (taken == all && seen > operations)
    || all == taken + TakeFitting(Readable(ranked), operations - seen, count - |taken|)
  }

  lemma TakeSkipOrStop(
    all: seq<Transaction>, taken: seq<Transaction>, seen: nat, t: Transaction, ranked: seq<Transaction>,
    operations: int, count: int)
    requires Remains(all, taken, seen, [t] + ranked, operations, count) && |taken| < count && seen < operations
    ensures match OperationCount(t)
            case None => Remains(all, taken, seen, ranked, operations, count)
            case Some(c) =>
              Remains(all, if seen + c <= operations then taken + [t] else taken, seen + c, ranked, operations, count)
  {
    ReadableStep(t, ranked);
    if OperationCount(t).Some? {
      var rest, c := Readable(ranked), CountOrZero(t);
      assert ([t] + rest)[1..] == rest;
      var next := TakeFitting(rest, operations - seen - c, count - |taken| - 1);
      assert taken + ([t] + next) == taken + [t] + next;
      assert taken + [] == taken;
    }
  }

  lemma NothingRemains(
    all: seq<Transaction>, taken: seq<Transaction>, seen: nat, ranked: seq<Transaction>, operations: int, count: int)
    requires Remains(all, taken, seen, ranked, operations, count)
    requires count <= |taken| || operations <= seen || ranked == []
    ensures taken == all
  {
    ReadableAreCounted(ranked);
    assert taken + [] == taken;
  }

  // ------------------------------------------------------------ the selector

  class TransactionSelector {
    const transactionStore: TransactionStore

    constructor (transactionStore: TransactionStore)
      ensures this.transactionStore == transactionStore
    {
      this.transactionStore := transactionStore;
    }

    method ValidateTransactions(transactions: seq<Transaction>, currentTransactionTime: nat)
      returns (r: Result<(), Error>)
      ensures r == if forall i :: 0 <= i < |transactions| ==> transactions[i].transactionTime == currentTransactionTime
                   then Ok(()) else Err(TransactionsNotInSameBlock)
    {
      for i := 0 to |transactions|
        invariant forall j :: 0 <= j < i ==> transactions[j].transactionTime == currentTransactionTime
      {
        if transactions[i].transactionTime != currentTransactionTime {
          return Err(TransactionsNotInSameBlock);
        }
      }
      return Ok(());
    }

    method EnqueueFirstTransactionFromEachWriter(transactions: seq<Transaction>, queue: PriorityQueue)
      requires queue.items == []
      modifies queue
      ensures queue.items == FirstPerWriter(transactions)
    {
      var writerToTransactionNumber: map<string, nat> := map[];
      for i := 0 to |transactions|
        invariant writerToTransactionNumber.Keys == Writers(transactions[..i])
        invariant queue.items == FirstPerWriter(transactions[..i])
      {
        assert transactions[..i + 1][..i] == transactions[..i];
        assert transactions[..i + 1] == transactions[..i] + [transactions[i]];
        WritersAppend(transactions[..i], transactions[i]);
        if transactions[i].writer !in writerToTransactionNumber {
          queue.Push(transactions[i]);
          writerToTransactionNumber :=
            writerToTransactionNumber[transactions[i].writer := transactions[i].transactionNumber];
        }
      }
      assert transactions[..|transactions|] == transactions;
    }

    /** A stored transaction whose anchor string cannot be read counts as a transaction, but not as operations. */
    method GetNumbersAlreadyInTransactionTime(transactionTime: nat)
      returns (numberOfOperations: nat, numberOfTransactions: nat)
      ensures var already := StartingFrom(transactionStore.transactions, transactionTime, transactionTime);
              numberOfOperations == TotalOperations(already) && numberOfTransactions == |already|
    {
      var transactions := transactionStore.GetTransactionsStartingFrom(transactionTime, transactionTime);
      numberOfOperations, numberOfTransactions := 0, |transactions|;
      for i := 0 to |transactions|
        invariant numberOfOperations == TotalOperations(transactions[..i])
      {
        assert transactions[..i + 1][..i] == transactions[..i];
        var count := OperationCount(transactions[i]);
        if count.Some? {
          numberOfOperations := numberOfOperations + count.value;
        }
      }
      assert transactions[..|transactions|] == transactions;
    }

    /** A transaction that goes over the limit of operations is counted but not taken, which ends the loop. */
    method GetHighestFeeTransactions(operations: int, count: int, queue: PriorityQueue)
      returns (r: seq<Transaction>)
      modifies queue
      ensures r == TakeFitting(Readable(Ranked(old(queue.items))), operations, count)
    {
      var numberOfOperationsSeen: nat := 0;
      r := [];
      ghost var ranked := Ranked(queue.items);
      ghost var all := TakeFitting(Readable(ranked), operations, count);
      assert Remains(all, r, 0, ranked, operations, count) by {
        assert [] + all == all;
      }
      while |r| < count && numberOfOperationsSeen < operations && |queue.items| > 0
        invariant ranked == Ranked(queue.items)
        invariant Remains(all, r, numberOfOperationsSeen, ranked, operations, count)
        decreases |queue.items|
      {
        var current := queue.Pop();
        ranked := Ranked(queue.items);
        TakeSkipOrStop(all, r, numberOfOperationsSeen, current, ranked, operations, count);
        var numberOfOperations := OperationCount(current);
        if numberOfOperations.Some? {
          numberOfOperationsSeen := numberOfOperationsSeen + numberOfOperations.value;
          if numberOfOperationsSeen <= operations {
            r := r + [current];
          }
        }
      }
      NothingRemains(all, r, numberOfOperationsSeen, ranked, operations, count);
    }

    /** Selects from the transactions of one transaction time; other input is refused. */
    method SelectQualifiedTransactions(transactions: seq<Transaction>) returns (r: Result<seq<Transaction>, Error>)
      ensures r == Selected(transactions, transactionStore.transactions)
    {
      if transactions == [] {
        return Ok([]);
      }
      ghost var stored := transactionStore.transactions;
      var currentTransactionTime := transactions[0].transactionTime;
      var valid := ValidateTransactions(transactions, currentTransactionTime);
      if valid.Err? {
        return Err(valid.error);
      }
      assert SameTime(transactions);
      var queue := new PriorityQueue();
      EnqueueFirstTransactionFromEachWriter(transactions, queue);
      var numberOfOperations, numberOfTransactions := GetNumbersAlreadyInTransactionTime(currentTransactionTime);
      var operations := MAX_OPERATIONS_PER_TRANSACTION_TIME - numberOfOperations;
      var count := MAX_TRANSACTIONS_PER_TRANSACTION_TIME - numberOfTransactions;
      assert operations == OperationsLeft(stored, currentTransactionTime);
      assert count == TransactionsLeft(stored, currentTransactionTime);
      var selected := GetHighestFeeTransactions(operations, count, queue);
      assert selected == TakeFitting(Candidates(transactions), operations, count);
      return Ok(selected);
    }
  }
}
