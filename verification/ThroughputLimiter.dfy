/** Groups fetched transactions by transaction time and lets the selector choose from each group. */
module ThroughputLimiter {
  import opened Wrappers
  import opened Models
  import opened TransactionSelector

  function TimeOf(group: seq<Transaction>): nat
    requires group != []
  {
    group[0].transactionTime
  }

  predicate NonEmpty(groups: seq<seq<Transaction>>) {
    forall i :: 0 <= i < |groups| ==> |groups[i]| > 0
  }

  /** Adds a transaction to the last group, or starts a new one for a new time. */
  function Grouped(groups: seq<seq<Transaction>>, t: Transaction): (r: seq<seq<Transaction>>)
    requires NonEmpty(groups)
    ensures NonEmpty(r)
  {
    var n := |groups| - 1;
    if groups != [] && TimeOf(groups[n]) == t.transactionTime then groups[..n] + [groups[n] + [t]]
    else groups + [[t]]
  }

  function Groups(transactions: seq<Transaction>): (r: seq<seq<Transaction>>)
    ensures NonEmpty(r)
  {
    if transactions == [] then []
    else Grouped(Groups(transactions[..|transactions| - 1]), transactions[|transactions| - 1])
  }

  function Concatenated(groups: seq<seq<Transaction>>): seq<Transaction> {
    if groups == [] then [] else Concatenated(groups[..|groups| - 1]) + groups[|groups| - 1]
  }

  /** Groups of one time each, with different times next to each other. */
  predicate Stretches(groups: seq<seq<Transaction>>) {
    && NonEmpty(groups)
    && (forall i :: 0 <= i < |groups| ==> SameTime(groups[i]))
    && forall i :: 0 < i < |groups| ==> TimeOf(groups[i - 1]) != TimeOf(groups[i])
  }

  lemma ConcatenatedAppend(groups: seq<seq<Transaction>>, group: seq<Transaction>)
    ensures Concatenated(groups + [group]) == Concatenated(groups) + group
  {
    assert (groups + [group])[..|groups|] == groups;
  }

  lemma GroupedConcatenates(groups: seq<seq<Transaction>>, t: Transaction)
    requires NonEmpty(groups)
    ensures Concatenated(Grouped(groups, t)) == Concatenated(groups) + [t]
  {
    var n := |groups| - 1;
    if groups != [] && TimeOf(groups[n]) == t.transactionTime {
      var before, last := groups[..n], groups[n];
      ConcatenatedAppend(before, last + [t]);
      assert Concatenated(before) + (last + [t]) == Concatenated(before) + last + [t];
    } else {
      ConcatenatedAppend(groups, [t]);
    }
  }

  lemma GroupExtends(group: seq<Transaction>, t: Transaction)
    requires group != [] && SameTime(group) && TimeOf(group) == t.transactionTime
    ensures SameTime(group + [t]) && TimeOf(group + [t]) == TimeOf(group)
  {
  }

  lemma GroupedKeepsStretches(groups: seq<seq<Transaction>>, t: Transaction)
    requires Stretches(groups)
    ensures Stretches(Grouped(groups, t))
  {
    var r, n := Grouped(groups, t), |groups| - 1;
    if groups != [] && TimeOf(groups[n]) == t.transactionTime {
      GroupExtends(groups[n], t);
      assert r[n] == groups[n] + [t] && forall i :: 0 <= i < n ==> r[i] == groups[i];
    } else {
      assert r[|groups|] == [t] && forall i :: 0 <= i < |groups| ==> r[i] == groups[i];
    }
  }

  /** Put together, the groups are the transactions in order. */
  lemma {:induction false} GroupsAreStretches(transactions: seq<Transaction>)
    ensures Stretches(Groups(transactions)) && Concatenated(Groups(transactions)) == transactions
  {
    if transactions != [] {
      var n := |transactions| - 1;
      var before := Groups(transactions[..n]);
      GroupsAreStretches(transactions[..n]);
      GroupedKeepsStretches(before, transactions[n]);
      GroupedConcatenates(before, transactions[n]);
      assert transactions == transactions[..n] + [transactions[n]];
    }
  }

  /** The selections from the groups, one after the other. */
  function Qualified(groups: seq<seq<Transaction>>, stored: seq<Transaction>): Result<seq<Transaction>, Error> {
    if groups == [] then Ok([])
    else
      var rest :- Qualified(groups[..|groups| - 1], stored);
      var selected :- Selected(groups[|groups| - 1], stored);
      Ok(rest + selected)
  }

  lemma {:induction false} SameTimeGroupsAreSelected(groups: seq<seq<Transaction>>, stored: seq<Transaction>)
    requires forall i :: 0 <= i < |groups| ==> SameTime(groups[i])
    ensures Qualified(groups, stored).Ok?
  {
    if groups != [] {
      SameTimeGroupsAreSelected(groups[..|groups| - 1], stored);
    }
  }

  /** The selector never sees a group with two transaction times. */
  lemma MixedBlocksAreUnreachable(transactions: seq<Transaction>, stored: seq<Transaction>)
    ensures Qualified(Groups(transactions), stored).Ok?
  {
    GroupsAreStretches(transactions);
    SameTimeGroupsAreSelected(Groups(transactions), stored);
  }

  lemma QualifiedStep(groups: seq<seq<Transaction>>, i: nat, stored: seq<Transaction>)
    requires i < |groups| && SameTime(groups[i]) && Qualified(groups[..i], stored).Ok?
    ensures Selected(groups[i], stored).Ok?
    ensures Qualified(groups[..i + 1], stored)
            == Ok(Qualified(groups[..i], stored).value + Selected(groups[i], stored).value)
  {
    assert groups[..i + 1][..i] == groups[..i];
  }

  class ThroughputLimiter {
    const transactionSelector: TransactionSelector

    constructor (transactionSelector: TransactionSelector)
      ensures this.transactionSelector == transactionSelector
    {
      this.transactionSelector := transactionSelector;
    }

    method GroupByTime(transactions: seq<Transaction>) returns (groups: seq<seq<Transaction>>)
      ensures groups == Groups(transactions)
    {
      var currentTransactionTime: Option<nat> := None;
      groups := [];
      for i := 0 to |transactions|
        invariant groups == Groups(transactions[..i])
        invariant currentTransactionTime == if groups == [] then None else Some(TimeOf(groups[|groups| - 1]))
      {
        assert transactions[..i + 1][..i] == transactions[..i];
        ghost var before, t := groups, transactions[i];
        if currentTransactionTime != Some(transactions[i].transactionTime) {
          groups := groups + [[]];
          assert [] + [t] == [t];
          currentTransactionTime := Some(transactions[i].transactionTime);
        }
        groups := groups[|groups| - 1 := groups[|groups| - 1] + [transactions[i]]];
        assert groups == if |groups| == |before| then before[..|before| - 1] + [before[|before| - 1] + [t]]
                         else before + [[t]];
      }
      assert transactions[..|transactions|] == transactions;
    }

    method GetQualifiedTransactions(transactions: seq<Transaction>) returns (r: Result<seq<Transaction>, Error>)
      ensures r == Qualified(Groups(transactions), transactionSelector.transactionStore.transactions)
      ensures r.Ok?
    {
      var groups := GroupByTime(transactions);
      GroupsAreStretches(transactions);
      var qualifiedTransactions := [];
      ghost var stored := transactionSelector.transactionStore.transactions;
      for i := 0 to |groups|
        invariant Qualified(groups[..i], stored) == Ok(qualifiedTransactions)
      {
        QualifiedStep(groups, i, stored);
        var selected := transactionSelector.SelectQualifiedTransactions(groups[i]);
        if selected.Err? {
          assert false;
        }
        qualifiedTransactions := qualifiedTransactions + selected.value;
      }
      assert groups[..|groups|] == groups;
      return Ok(qualifiedTransactions);
    }
  }
}
