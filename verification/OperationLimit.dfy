/** The limits on operations and transactions of one transaction time, in terms of what anchor strings claim. */
module OperationLimit {
  import opened Wrappers
  import opened Models
  import opened TransactionStore
  import opened TransactionSelector
  import opened ThroughputLimiter
  import opened TransactionProcessor
  import AcceptedBatches
  import AnchoredDataSerializer

  // ------------------------------------------------------------ counting

  /** The number of operations in the anchor string of a transaction; 0 if it cannot be read. */
  function Claimed(t: Transaction): nat {
    match AnchoredDataSerializer.Deserialize(t.anchorString)
    case Ok(data) => data.numberOfOperations
    case Err(_) => 0
  }

  function TotalClaimed(transactions: seq<Transaction>): nat {
    if transactions == [] then 0 else Claimed(transactions[0]) + TotalClaimed(transactions[1..])
  }

  /** The transactions of one time, in order. */
  function OfTime(transactions: seq<Transaction>, time: nat): seq<Transaction> {
    if transactions == [] then []
    else
      var rest := OfTime(transactions[1..], time);
      if transactions[0].transactionTime == time then [transactions[0]] + rest else rest
  }

  /** What an anchor string made by a writer claims is what the writer put in. */
  lemma WrittenIsClaimed(t: Transaction, data: AnchoredData)
    requires t.anchorString == AnchoredDataSerializer.Serialize(data) && AnchoredDataSerializer.Anchorable(data)
    ensures Claimed(t) == data.numberOfOperations
  {
    AnchoredDataSerializer.SerializeThenDeserialize(data);
  }

  lemma {:induction false} ClaimedInConcatenation(a: seq<Transaction>, b: seq<Transaction>)
    ensures TotalClaimed(a + b) == TotalClaimed(a) + TotalClaimed(b)
  {
    if a == [] {
      assert a + b == b;
    } else {
      ClaimedInConcatenation(a[1..], b);
      assert (a + b)[1..] == a[1..] + b;
    }
  }

  lemma {:induction false} TimeInConcatenation(a: seq<Transaction>, b: seq<Transaction>, time: nat)
    ensures OfTime(a + b, time) == OfTime(a, time) + OfTime(b, time)
  {
    if a == [] {
      assert a + b == b;
    } else {
      TimeInConcatenation(a[1..], b, time);
      assert (a + b)[1..] == a[1..] + b;
      var rest, more := OfTime(a[1..], time), OfTime(b, time);
      assert [a[0]] + (rest + more) == [a[0]] + rest + more;
    }
  }

  lemma {:induction false} CountedIsClaimed(transactions: seq<Transaction>)
    ensures TotalOperations(transactions) == TotalClaimed(transactions)
  {
    if transactions != [] {
      var n := |transactions| - 1;
      CountedIsClaimed(transactions[..n]);
      ClaimedInConcatenation(transactions[..n], [transactions[n]]);
      assert transactions == transactions[..n] + [transactions[n]];
      assert [transactions[n]][1..] == [];
    }
  }

  lemma {:induction false} StartingFromIsOfTime(transactions: seq<Transaction>, time: nat)
    ensures StartingFrom(transactions, time, time) == OfTime(transactions, time)
  {
    if transactions != [] {
      var n := |transactions| - 1;
      StartingFromIsOfTime(transactions[..n], time);
      TimeInConcatenation(transactions[..n], [transactions[n]], time);
      assert transactions == transactions[..n] + [transactions[n]];
      assert [transactions[n]][1..] == [];
    }
  }

  // ------------------------------------------------------------ one selection

  /** The transactions of a time stay within both limits, together with those already stored. */
  predicate KeepLimits(transactions: seq<Transaction>, stored: seq<Transaction>, time: nat) {
    && TotalClaimed(transactions) + TotalClaimed(OfTime(stored, time)) <= 600000
    && |transactions| + |OfTime(stored, time)| <= 300
  }

  predicate AllOfTime(transactions: seq<Transaction>, time: nat) {
    forall i :: 0 <= i < |transactions| ==> transactions[i].transactionTime == time
  }

  lemma FitsIsKeepingLimits(transactions: seq<Transaction>, stored: seq<Transaction>, time: nat)
    ensures Fits(transactions, OperationsLeft(stored, time), TransactionsLeft(stored, time))
            <==> transactions == [] || KeepLimits(transactions, stored, time)
  {
    CountedIsClaimed(transactions);
    StartingFromIsOfTime(stored, time);
    CountedIsClaimed(OfTime(stored, time));
  }

  lemma CandidatesAreOffered(transactions: seq<Transaction>)
    ensures forall t <- Candidates(transactions) ::
              t in transactions && AnchoredDataSerializer.Deserialize(t.anchorString).Ok?
  {
    CandidatesAreRanked(transactions);
    FirstsAreOffered(transactions);
  }

  /** Every selected transaction is one of those offered, and can be read. */
  lemma SelectedAreOffered(transactions: seq<Transaction>, stored: seq<Transaction>, time: nat)
    requires AllOfTime(transactions, time)
    ensures Selected(transactions, stored).Ok?
    ensures AllOfTime(Selected(transactions, stored).value, time)
    ensures forall t <- Selected(transactions, stored).value ::
              t in transactions && AnchoredDataSerializer.Deserialize(t.anchorString).Ok?
  {
    if transactions != [] {
      SelectionIsLongestFitting(transactions, stored, time, 0);
      CandidatesAreOffered(transactions);
      var r := Selected(transactions, stored).value;
      forall i | 0 <= i < |r|
        ensures r[i] in transactions && AnchoredDataSerializer.Deserialize(r[i].anchorString).Ok?
      {
        assert r[i] == Candidates(transactions)[i];
      }
    }
  }

  lemma {:induction false} FirstsAreOffered(transactions: seq<Transaction>)
    ensures forall t <- FirstPerWriter(transactions) :: t in transactions
  {
    if transactions != [] {
      var n := |transactions| - 1;
      FirstsAreOffered(transactions[..n]);
      assert transactions == transactions[..n] + [transactions[n]];
    }
  }

  /** Whatever is selected of a time, the operations claimed, together with those claimed by the stored transactions of
      that time, are at most 600000, and the transactions at most 300; and it is as much of the candidates, from the
      best on, as keeps these limits. */
  lemma SelectionKeepsLimits(transactions: seq<Transaction>, stored: seq<Transaction>, time: nat, n: nat)
    requires transactions != [] && AllOfTime(transactions, time) && 0 < n <= |Candidates(transactions)|
    ensures Selected(transactions, stored).Ok?
    ensures var r := Selected(transactions, stored).value;
            && r <= Candidates(transactions)
            && (r != [] ==> KeepLimits(r, stored, time))
            && (n <= |r| <==> KeepLimits(Candidates(transactions)[..n], stored, time))
  {
    SelectionIsLongestFitting(transactions, stored, time, n);
    FitsIsKeepingLimits(Selected(transactions, stored).value, stored, time);
    FitsIsKeepingLimits(Candidates(transactions)[..n], stored, time);
  }

  /** What is selected paid more than any candidate that is not, or paid as much and is earlier on the ledger. */
  lemma SelectedPaidMost(transactions: seq<Transaction>, stored: seq<Transaction>, time: nat, i: nat, j: nat)
    requires transactions != [] && AllOfTime(transactions, time)
    requires Selected(transactions, stored).Ok?
    requires i < |Selected(transactions, stored).value| <= j < |Candidates(transactions)|
    ensures var t, u := Selected(transactions, stored).value[i], Candidates(transactions)[j];
            || t.transactionFeePaid > u.transactionFeePaid
            || (t.transactionFeePaid == u.transactionFeePaid && t.transactionNumber <= u.transactionNumber)
  {
    SelectionIsLongestFitting(transactions, stored, time, 0);
    CandidatesAreRanked(transactions);
    RankedPair(Candidates(transactions), Selected(transactions, stored).value, i, j);
  }

  lemma RankedPair(ranked: seq<Transaction>, taken: seq<Transaction>, i: nat, j: nat)
    requires ByPriority(ranked) && taken <= ranked && i < |taken| <= j < |ranked|
    ensures Before(taken[i], ranked[j])
  {
    assert taken[i] == ranked[i];
  }

  lemma SelectedKeepLimits(transactions: seq<Transaction>, stored: seq<Transaction>, time: nat)
    requires AllOfTime(transactions, time)
    ensures Selected(transactions, stored).Ok?
    ensures Selected(transactions, stored).value != [] ==>
              KeepLimits(Selected(transactions, stored).value, stored, time)
  {
    if transactions != [] {
      SelectionIsLongestFitting(transactions, stored, time, 0);
      FitsIsKeepingLimits(Selected(transactions, stored).value, stored, time);
    }
  }

  lemma {:induction false} FullClaims(transactions: seq<Transaction>)
    requires forall i :: 0 <= i < |transactions| ==> Claimed(transactions[i]) == 10000
    ensures TotalClaimed(transactions) == 10000 * |transactions|
  {
    if transactions != [] {
      FullClaims(transactions[1..]);
    }
  }

  /** Of transactions that each anchor a full batch, at most 60 are selected for one time. */
  lemma SixtyFullBatches(transactions: seq<Transaction>, stored: seq<Transaction>, time: nat, uri: string)
    requires AllOfTime(transactions, time) && '.' !in uri
    requires forall t <- transactions :: t.anchorString == AnchoredDataSerializer.Serialize(AnchoredData(uri, 10000))
    ensures Selected(transactions, stored).Ok? && |Selected(transactions, stored).value| <= 60
  {
    SelectedKeepLimits(transactions, stored, time);
    SelectedAreOffered(transactions, stored, time);
    var r := Selected(transactions, stored).value;
    forall i | 0 <= i < |r|
      ensures Claimed(r[i]) == 10000
    {
      assert r[i] in r;
      WrittenIsClaimed(r[i], AnchoredData(uri, 10000));
    }
    FullClaims(r);
  }

  // ------------------------------------------------------------ everything that is fetched at once

  predicate TimesAscend(transactions: seq<Transaction>) {
    forall i, j :: 0 <= i < j < |transactions| ==> transactions[i].transactionTime <= transactions[j].transactionTime
  }

  predicate GroupsAscend(groups: seq<seq<Transaction>>)
    requires NonEmpty(groups)
  {
    forall i, j :: 0 <= i < j < |groups| ==> TimeOf(groups[i]) < TimeOf(groups[j])
  }

  lemma GroupedAscends(groups: seq<seq<Transaction>>, t: Transaction)
    requires NonEmpty(groups) && GroupsAscend(groups)
    requires groups != [] ==> TimeOf(groups[|groups| - 1]) <= t.transactionTime
    ensures var r := Grouped(groups, t); GroupsAscend(r) && r != [] && TimeOf(r[|r| - 1]) == t.transactionTime
  {
    var r, n := Grouped(groups, t), |groups| - 1;
    if groups != [] && TimeOf(groups[n]) == t.transactionTime {
      assert forall i :: 0 <= i <= n ==> TimeOf(r[i]) == TimeOf(groups[i]);
    } else {
      assert forall i :: 0 <= i <= n ==> r[i] == groups[i];
      assert forall i :: 0 <= i < n ==> TimeOf(groups[i]) < TimeOf(groups[n]);
    }
  }

  lemma {:induction false} GroupsAscendInTime(transactions: seq<Transaction>)
    requires TimesAscend(transactions)
    ensures var groups := Groups(transactions);
            && GroupsAscend(groups)
            && (transactions != [] ==>
                  groups != [] && TimeOf(groups[|groups| - 1]) == transactions[|transactions| - 1].transactionTime)
  {
    if transactions != [] {
      var n := |transactions| - 1;
      GroupsAscendInTime(transactions[..n]);
      GroupedAscends(Groups(transactions[..n]), transactions[n]);
    }
  }

  lemma {:induction false} OfOwnTime(transactions: seq<Transaction>, own: nat, time: nat)
    requires AllOfTime(transactions, own)
    ensures OfTime(transactions, time) == if own == time then transactions else []
  {
    if transactions != [] {
      OfOwnTime(transactions[1..], own, time);
      assert transactions == [transactions[0]] + transactions[1..];
    }
  }

  lemma FewerGroups(groups: seq<seq<Transaction>>, fewer: seq<seq<Transaction>>)
    requires groups != [] && Stretches(groups) && fewer == groups[..|groups| - 1]
    ensures Stretches(fewer)
    ensures GroupsAscend(groups) ==>
              && GroupsAscend(fewer)
              && forall i :: 0 <= i < |fewer| ==> TimeOf(fewer[i]) < TimeOf(groups[|groups| - 1])
  {
    assert forall i :: 0 <= i < |fewer| ==> fewer[i] == groups[i];
  }

  /** What one group brings to what is selected of a time. */
  lemma OneMoreGroup(groups: seq<seq<Transaction>>, stored: seq<Transaction>, time: nat)
    requires groups != [] && Stretches(groups)
    ensures Qualified(groups, stored).Ok? && Qualified(groups[..|groups| - 1], stored).Ok?
    ensures var n := |groups| - 1;
            && Selected(groups[n], stored).Ok?
            && OfTime(Qualified(groups, stored).value, time)
               == OfTime(Qualified(groups[..n], stored).value, time)
                  + if TimeOf(groups[n]) == time then Selected(groups[n], stored).value else []
  {
    var n := |groups| - 1;
    SameTimeGroupsAreSelected(groups, stored);
    SameTimeGroupsAreSelected(groups[..n], stored);
    var selected := Selected(groups[n], stored).value;
    SelectedAreOffered(groups[n], stored, TimeOf(groups[n]));
    TimeInConcatenation(Qualified(groups[..n], stored).value, selected, time);
    OfOwnTime(selected, TimeOf(groups[n]), time);
  }

  lemma {:induction false} NoGroupOfTime(groups: seq<seq<Transaction>>, stored: seq<Transaction>, time: nat)
    requires Stretches(groups) && forall i :: 0 <= i < |groups| ==> TimeOf(groups[i]) != time
    ensures Qualified(groups, stored).Ok? && OfTime(Qualified(groups, stored).value, time) == []
  {
    if groups != [] {
      OneMoreGroup(groups, stored, time);
      FewerGroups(groups, groups[..|groups| - 1]);
      NoGroupOfTime(groups[..|groups| - 1], stored, time);
    }
  }

  lemma {:induction false} GroupsKeepLimits(groups: seq<seq<Transaction>>, stored: seq<Transaction>, time: nat)
    requires Stretches(groups) && GroupsAscend(groups)
    ensures Qualified(groups, stored).Ok?
    ensures var r := OfTime(Qualified(groups, stored).value, time); r != [] ==> KeepLimits(r, stored, time)
  {
    if groups != [] {
      var n := |groups| - 1;
      OneMoreGroup(groups, stored, time);
      FewerGroups(groups, groups[..|groups| - 1]);
      if TimeOf(groups[n]) == time {
        NoGroupOfTime(groups[..n], stored, time);
        SelectedKeepLimits(groups[n], stored, time);
        assert [] + Selected(groups[n], stored).value == Selected(groups[n], stored).value;
      } else {
        var before := OfTime(Qualified(groups[..n], stored).value, time);
        assert before + [] == before;
        GroupsKeepLimits(groups[..n], stored, time);
      }
    }
  }

  /** Of what qualifies of any ledger transactions read at once, in the order of their times, every time keeps the
      limits, together with what is stored of it. */
  lemma QualifiedKeepLimits(transactions: seq<Transaction>, stored: seq<Transaction>, time: nat)
    requires TimesAscend(transactions)
    ensures Qualified(Groups(transactions), stored).Ok?
    ensures var r := OfTime(Qualified(Groups(transactions), stored).value, time);
            r != [] ==> KeepLimits(r, stored, time)
  {
    GroupsAreStretches(transactions);
    GroupsAscendInTime(transactions);
    GroupsKeepLimits(Groups(transactions), stored, time);
  }

  // ------------------------------------------------------------ over time

  predicate WithinLimits(stored: seq<Transaction>, time: nat) {
    TotalClaimed(OfTime(stored, time)) <= 600000 && |OfTime(stored, time)| <= 300
  }

  function StoredAll(stored: seq<Transaction>, transactions: seq<Transaction>): seq<Transaction>
    decreases |transactions|
  {
    if transactions == [] then stored else StoredAll(Inserted(stored, transactions[0]), transactions[1..])
  }

  lemma TimeOfAppended(stored: seq<Transaction>, t: Transaction, time: nat)
    ensures var r := OfTime(stored + [t], time);
            && TotalClaimed(r)
               == TotalClaimed(OfTime(stored, time)) + (if t.transactionTime == time then Claimed(t) else 0)
            && |r| == |OfTime(stored, time)| + (if t.transactionTime == time then 1 else 0)
  {
    TimeInConcatenation(stored, [t], time);
    ClaimedInConcatenation(OfTime(stored, time), OfTime([t], time));
    assert [t][1..] == [];
  }

  /** Storing a transaction adds no more than the transaction to the totals of its time. */
  lemma {:induction false} InsertedAddsOne(stored: seq<Transaction>, t: Transaction, time: nat)
    ensures var before, after := OfTime(stored, time), OfTime(Inserted(stored, t), time);
            && TotalClaimed(after) <= TotalClaimed(before) + (if t.transactionTime == time then Claimed(t) else 0)
            && |after| <= |before| + (if t.transactionTime == time then 1 else 0)
  {
    if stored == [] || stored[|stored| - 1].transactionNumber < t.transactionNumber {
      TimeOfAppended(stored, t, time);
    } else if stored[|stored| - 1].transactionNumber > t.transactionNumber {
      var n := |stored| - 1;
      InsertedAddsOne(stored[..n], t, time);
      TimeOfAppended(stored[..n], stored[n], time);
      TimeOfAppended(Inserted(stored[..n], t), stored[n], time);
      assert stored == stored[..n] + [stored[n]];
    }
  }

  lemma {:induction false} StoredAllAddsAll(stored: seq<Transaction>, transactions: seq<Transaction>, time: nat)
    ensures var before, after := OfTime(stored, time), OfTime(StoredAll(stored, transactions), time);
            && TotalClaimed(after) <= TotalClaimed(before) + TotalClaimed(OfTime(transactions, time))
            && |after| <= |before| + |OfTime(transactions, time)|
    decreases |transactions|
  {
    if transactions != [] {
      InsertedAddsOne(stored, transactions[0], time);
      StoredAllAddsAll(Inserted(stored, transactions[0]), transactions[1..], time);
    }
  }

  lemma OneLess(a: seq<Transaction>, k: nat, time: nat)
    requires k < |a|
    ensures var t, rest := a[k], OfTime(Without(a, k), time);
            && TotalClaimed(OfTime(a, time))
               == TotalClaimed(rest) + (if t.transactionTime == time then Claimed(t) else 0)
            && |OfTime(a, time)| == |rest| + (if t.transactionTime == time then 1 else 0)
  {
    var before, after := a[..k], a[k + 1..];
    assert a == before + [a[k]] + after;
    TimeInConcatenation(before + [a[k]], after, time);
    TimeInConcatenation(before, after, time);
    TimeOfAppended(before, a[k], time);
    ClaimedInConcatenation(OfTime(before + [a[k]], time), OfTime(after, time));
    ClaimedInConcatenation(OfTime(before, time), OfTime(after, time));
  }

  lemma StillFewer(a: multiset<Transaction>, b: multiset<Transaction>, t: Transaction)
    requires a + multiset{t} <= b + multiset{t}
    ensures a <= b
  {
    forall x
      ensures a[x] <= b[x]
    {
      assert (a + multiset{t})[x] <= (b + multiset{t})[x];
    }
  }

  lemma SharedIsTaken(a: seq<Transaction>, b: seq<Transaction>, k: nat)
    requires a != [] && k < |b| && b[k] == a[0] && multiset(a) <= multiset(b)
    ensures multiset(Without(a, 0)) <= multiset(Without(b, k))
  {
    WithoutKeepsOthers(a, 0);
    WithoutKeepsOthers(b, k);
    StillFewer(multiset(Without(a, 0)), multiset(Without(b, k)), a[0]);
  }

  /** The totals of a time depend on which transactions there are, not on their order. */
  lemma {:induction false} FewerClaimLess(a: seq<Transaction>, b: seq<Transaction>, time: nat)
    requires multiset(a) <= multiset(b)
    ensures TotalClaimed(OfTime(a, time)) <= TotalClaimed(OfTime(b, time)) && |OfTime(a, time)| <= |OfTime(b, time)|
    decreases |a|
  {
    if a != [] {
      assert a[0] in multiset(a);
      var k :| 0 <= k < |b| && b[k] == a[0];
      var fewer, rest := Without(a, 0), Without(b, k);
      OneLess(a, 0, time);
      OneLess(b, k, time);
      SharedIsTaken(a, b, k);
      FewerClaimLess(fewer, rest, time);
    }
  }

  /** Reading and storing what qualifies, as often as it is done, in whatever order and however much of it, never takes
      a time over its limits. */
  lemma StoringKeepsLimits(
    transactions: seq<Transaction>, stored: seq<Transaction>, order: seq<Transaction>, time: nat)
    requires TimesAscend(transactions) && WithinLimits(stored, time)
    requires Qualified(Groups(transactions), stored).Ok?
    requires multiset(order) <= multiset(Qualified(Groups(transactions), stored).value)
    ensures WithinLimits(StoredAll(stored, order), time)
  {
    QualifiedKeepLimits(transactions, stored, time);
    FewerClaimLess(order, Qualified(Groups(transactions), stored).value, time);
    StoredAllAddsAll(stored, order, time);
  }

  // ------------------------------------------------------------ operations

  /** The operations that processing some transactions stores, each with downloads of its own. */
  function OperationsStored(ctx: Context, fetch: Transaction -> Downloads, transactions: seq<Transaction>): nat {
    if transactions == [] then 0
    else
      var stored := Processed(ctx, fetch(transactions[0]), transactions[0]).stored;
      (if stored.Some? then |stored.value| else 0) + OperationsStored(ctx, fetch, transactions[1..])
  }

  lemma {:induction false} StoredAreClaimed(
    ctx: Context, fetch: Transaction -> Downloads, transactions: seq<Transaction>)
    ensures OperationsStored(ctx, fetch, transactions) <= TotalClaimed(transactions)
  {
    if transactions != [] {
      StoredAreClaimed(ctx, fetch, transactions[1..]);
      if Processed(ctx, fetch(transactions[0]), transactions[0]).stored.Some? {
        AcceptedBatches.AcceptedBatchIsSound(ctx, fetch(transactions[0]), transactions[0]);
      }
    }
  }

  /** Whatever the files of the transactions hold, processing what is selected of a time and what was stored of it
      before stores at most 600000 operations, if anything is selected. */
  lemma OperationsOfOneTime(
    ctx: Context, fetch: Transaction -> Downloads, transactions: seq<Transaction>, stored: seq<Transaction>, time: nat)
    requires AllOfTime(transactions, time)
    ensures Selected(transactions, stored).Ok?
    ensures Selected(transactions, stored).value != [] ==>
              OperationsStored(ctx, fetch, Selected(transactions, stored).value)
              + OperationsStored(ctx, fetch, OfTime(stored, time)) <= 600000
  {
    SelectedKeepLimits(transactions, stored, time);
    StoredAreClaimed(ctx, fetch, Selected(transactions, stored).value);
    StoredAreClaimed(ctx, fetch, OfTime(stored, time));
  }
}
