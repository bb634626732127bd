/** What resolution may rely on about the operations stored for a DID, whatever was processed. */
module ProcessedOperations {
  import opened Wrappers
  import opened Models
  import opened ArrayMethods
  import opened OperationStore
  import opened TransactionProcessor
  import opened AcceptedBatches
  import OperationProcessor
  import Resolver
  import ResolutionGrowth
  import ResolutionHistory
  import ResolutionOrder

  /** One processing of a transaction, with whatever can be downloaded at the time. */
  datatype Attempt = Attempt(transaction: Transaction, fetch: Downloads)

  /** All attempts see parts of the same content store, and a transaction is known by its number. */
  ghost predicate Consistent(attempts: seq<Attempt>, full: Downloads) {
    && (forall a <- attempts :: PartlyAvailable(a.fetch, full))
    && forall a <- attempts, b <- attempts ::
         a.transaction.transactionNumber == b.transaction.transactionNumber ==> a.transaction == b.transaction
  }

  /** The operation store after a number of attempts. */
  function StoreAfter(ctx: Context, attempts: seq<Attempt>): Contents {
    if attempts == [] then map[]
    else
      var n := |attempts| - 1;
      var before := StoreAfter(ctx, attempts[..n]);
      match Processed(ctx, attempts[n].fetch, attempts[n].transaction).stored
      case None => before
      case Some(operations) => Inserted(before, operations)
  }

  // ------------------------------------------------------------ where keys come from

  ghost predicate HasNumber(attempts: seq<Attempt>, number: nat) {
    exists a <- attempts :: a.transaction.transactionNumber == number
  }

  /** A complete processing of the transaction would write the key. */
  predicate Writes(ctx: Context, full: Downloads, transaction: Transaction, k: OperationKey) {
    var stored := Processed(ctx, full, transaction).stored;
    stored.Some? && k in KeysOf(stored.value)
  }

  lemma {:induction false} InsertedHas(contents: Contents, operations: seq<AnchoredOperation>, k: OperationKey)
    ensures k in Inserted(contents, operations) <==> k in contents || k in KeysOf(operations)
    ensures k !in KeysOf(operations) && k in contents ==> Inserted(contents, operations)[k] == contents[k]
  {
    InsertedOverrides(contents, operations);
    InsertedKeys(operations);
  }

  lemma AttemptWrites(ctx: Context, full: Downloads, a: Attempt, k: OperationKey)
    requires PartlyAvailable(a.fetch, full) && Processed(ctx, a.fetch, a.transaction).stored.Some?
    requires k in KeysOf(Processed(ctx, a.fetch, a.transaction).stored.value)
    ensures Writes(ctx, full, a.transaction, k)
    ensures k.transactionNumber == a.transaction.transactionNumber
  {
    AttemptWithin(ctx, a.fetch, full, a.transaction);
    AcceptedBatchIsSound(ctx, a.fetch, a.transaction);
  }

  lemma {:induction false} StoredIsWritten(ctx: Context, full: Downloads, attempts: seq<Attempt>, k: OperationKey)
    requires Consistent(attempts, full) && k in StoreAfter(ctx, attempts)
    ensures exists a <- attempts :: a.transaction.transactionNumber == k.transactionNumber
                                    && Writes(ctx, full, a.transaction, k)
  {
    var n := |attempts| - 1;
    var stored := Processed(ctx, attempts[n].fetch, attempts[n].transaction).stored;
    if stored.Some? {
      InsertedHas(StoreAfter(ctx, attempts[..n]), stored.value, k);
    }
    if stored.Some? && k in KeysOf(stored.value) {
      assert attempts[n] in attempts;
      AttemptWrites(ctx, full, attempts[n], k);
    } else {
      StoredIsWritten(ctx, full, attempts[..n], k);
      var a :| a in attempts[..n] && a.transaction.transactionNumber == k.transactionNumber
               && Writes(ctx, full, a.transaction, k);
      assert a in attempts;
    }
  }

  lemma {:induction false} StoreIsWellKeyed(ctx: Context, attempts: seq<Attempt>)
    ensures WellKeyed(StoreAfter(ctx, attempts))
  {
    if attempts != [] {
      var n := |attempts| - 1;
      StoreIsWellKeyed(ctx, attempts[..n]);
      var stored := Processed(ctx, attempts[n].fetch, attempts[n].transaction).stored;
      if stored.Some? {
        InsertedIsWellKeyed(StoreAfter(ctx, attempts[..n]), stored.value);
      }
    }
  }

  // ------------------------------------------------------------ one operation per transaction

  /** A transaction writes one key for a DID. */
  lemma OneKeyPerDid(ctx: Context, full: Downloads, transaction: Transaction, k: OperationKey, l: OperationKey)
    requires Writes(ctx, full, transaction, k) && Writes(ctx, full, transaction, l)
    requires k.didUniqueSuffix == l.didUniqueSuffix
    ensures k == l
  {
    AcceptedBatchIsSound(ctx, full, transaction);
    var operations := Processed(ctx, full, transaction).stored.value;
    var o, p :| o in operations && KeyOf(o) == k && p in operations && KeyOf(p) == l;
    var i :| 0 <= i < |operations| && operations[i] == o;
    var j :| 0 <= j < |operations| && operations[j] == p;
    assert SuffixesOf(operations)[i] == SuffixesOf(operations)[j];
  }

  /** Whatever was processed, with whatever files available and however often, the store lists at most one operation of
      a DID for each transaction. */
  lemma ListedNumbersAreDistinct(
    ctx: Context, full: Downloads, attempts: seq<Attempt>, didUniqueSuffix: string, listed: seq<AnchoredOperation>)
    requires Consistent(attempts, full) && Lists(StoreAfter(ctx, attempts), didUniqueSuffix, listed)
    ensures ResolutionHistory.DistinctNumbers(listed)
  {
    forall o, p | o in listed && p in listed && o.transactionNumber == p.transactionNumber
      ensures o == p
    {
      StoredIsWritten(ctx, full, attempts, KeyOf(o));
      StoredIsWritten(ctx, full, attempts, KeyOf(p));
      var a :| a in attempts && a.transaction.transactionNumber == o.transactionNumber
               && Writes(ctx, full, a.transaction, KeyOf(o));
      var b :| b in attempts && b.transaction.transactionNumber == p.transactionNumber
               && Writes(ctx, full, b.transaction, KeyOf(p));
      OneKeyPerDid(ctx, full, a.transaction, KeyOf(o), KeyOf(p));
    }
  }

  // ------------------------------------------------------------ later transactions

  /** Every transaction of one list is later than every transaction of another. */
  ghost predicate LaterAttempts(earlier: seq<Attempt>, later: seq<Attempt>) {
    forall a <- earlier, b <- later :: a.transaction.transactionNumber < b.transaction.transactionNumber
  }

  /** An attempt leaves the keys of other transactions alone. */
  lemma OtherKeyStays(ctx: Context, full: Downloads, attempts: seq<Attempt>, k: OperationKey)
    requires attempts != [] && PartlyAvailable(attempts[|attempts| - 1].fetch, full)
    requires attempts[|attempts| - 1].transaction.transactionNumber != k.transactionNumber
    ensures var before, after := StoreAfter(ctx, attempts[..|attempts| - 1]), StoreAfter(ctx, attempts);
            (k in after <==> k in before) && (k in before ==> after[k] == before[k])
  {
    var n := |attempts| - 1;
    var stored := Processed(ctx, attempts[n].fetch, attempts[n].transaction).stored;
    if stored.Some? {
      InsertedHas(StoreAfter(ctx, attempts[..n]), stored.value, k);
      if k in KeysOf(stored.value) {
        AttemptWrites(ctx, full, attempts[n], k);
      }
    }
  }

  lemma {:induction false} OtherKeysStay(
    ctx: Context, full: Downloads, earlier: seq<Attempt>, later: seq<Attempt>, k: OperationKey)
    requires (forall a <- later :: PartlyAvailable(a.fetch, full)) && !HasNumber(later, k.transactionNumber)
    ensures var before, after := StoreAfter(ctx, earlier), StoreAfter(ctx, earlier + later);
            (k in after <==> k in before) && (k in before ==> after[k] == before[k])
  {
    if later == [] {
      assert earlier + later == earlier;
    } else {
      var n := |later| - 1;
      var all := earlier + later;
      assert all[..|all| - 1] == earlier + later[..n] && all[|all| - 1] == later[n];
      assert later[n] in later && forall a <- later[..n] :: a in later;
      OtherKeysStay(ctx, full, earlier, later[..n], k);
      OtherKeyStays(ctx, full, all, k);
    }
  }

  /** What was listed before is listed still, and whatever else is listed belongs to the later transactions. */
  lemma ListedBeforeAndAfter(
    ctx: Context, full: Downloads, earlier: seq<Attempt>, later: seq<Attempt>, didUniqueSuffix: string,
    before: seq<AnchoredOperation>, after: seq<AnchoredOperation>, o: AnchoredOperation)
    requires Consistent(earlier + later, full) && LaterAttempts(earlier, later)
    requires Lists(StoreAfter(ctx, earlier), didUniqueSuffix, before)
    requires Lists(StoreAfter(ctx, earlier + later), didUniqueSuffix, after)
    ensures o in before <==> o in after && HasNumber(earlier, o.transactionNumber)
    ensures o in after ==> HasNumber(earlier, o.transactionNumber) || HasNumber(later, o.transactionNumber)
  {
    var all := earlier + later;
    assert forall a <- earlier :: a in all;
    if o in before {
      StoredIsWritten(ctx, full, earlier, KeyOf(o));
    }
    if o in after {
      StoredIsWritten(ctx, full, all, KeyOf(o));
      var a :| a in all && a.transaction.transactionNumber == o.transactionNumber
               && Writes(ctx, full, a.transaction, KeyOf(o));
      assert a in earlier || a in later;
    }
    if HasNumber(earlier, o.transactionNumber) {
      assert forall a <- later :: a in all;
      OtherKeysStay(ctx, full, earlier, later, KeyOf(o));
    }
  }

  lemma {:induction false} DistinctCounts<T>(s: seq<T>, x: T)
    requires NoDuplicates(s)
    ensures multiset(s)[x] == if x in s then 1 else 0
  {
    if s != [] {
      var n := |s| - 1;
      DistinctCounts(s[..n], x);
      assert s == s[..n] + [s[n]];
    }
  }

  lemma ChronologicalIsAscending(operations: seq<AnchoredOperation>)
    requires Chronological(operations)
    ensures Resolver.Ascending(operations)
  {
  }

  /** There is only one way to list operations of different transactions. */
  lemma ListingIsUnique(a: seq<AnchoredOperation>, b: seq<AnchoredOperation>)
    requires Chronological(a) && Chronological(b) && NoDuplicates(a) && NoDuplicates(b)
    requires ResolutionHistory.DistinctNumbers(a) && forall o :: o in a <==> o in b
    ensures a == b
  {
    ChronologicalIsAscending(a);
    ChronologicalIsAscending(b);
    forall o
      ensures multiset(a)[o] == multiset(b)[o]
    {
      DistinctCounts(a, o);
      DistinctCounts(b, o);
    }
    ResolutionOrder.AscendingIsUnique(a, b);
  }

  /** Where the operations of later transactions begin. */
  function FirstLater(operations: seq<AnchoredOperation>, before: seq<AnchoredOperation>): (n: nat)
    ensures n <= |operations|
    ensures forall i :: 0 <= i < n ==> operations[i] in before
    ensures n < |operations| ==> operations[n] !in before
  {
    if operations == [] || operations[0] !in before then 0
    else
      var n := FirstLater(operations[1..], before);
      assert forall i :: 0 < i <= n ==> operations[i] == operations[1..][i - 1];
      1 + n
  }

  lemma LaterAreAfter(earlier: seq<Attempt>, later: seq<Attempt>, o: AnchoredOperation, u: AnchoredOperation)
    requires LaterAttempts(earlier, later)
    requires HasNumber(earlier, o.transactionNumber) && HasNumber(later, u.transactionNumber)
    ensures o.transactionNumber < u.transactionNumber
  {
  }

  /** What is listed newly belongs to later transactions than what was listed before. */
  lemma NewIsLater(
    ctx: Context, full: Downloads, earlier: seq<Attempt>, later: seq<Attempt>, didUniqueSuffix: string,
    before: seq<AnchoredOperation>, after: seq<AnchoredOperation>, o: AnchoredOperation, u: AnchoredOperation)
    requires Consistent(earlier + later, full) && LaterAttempts(earlier, later)
    requires Lists(StoreAfter(ctx, earlier), didUniqueSuffix, before)
    requires Lists(StoreAfter(ctx, earlier + later), didUniqueSuffix, after)
    requires o in before && u in after && u !in before
    ensures o.transactionNumber < u.transactionNumber
  {
    ListedBeforeAndAfter(ctx, full, earlier, later, didUniqueSuffix, before, after, o);
    ListedBeforeAndAfter(ctx, full, earlier, later, didUniqueSuffix, before, after, u);
    LaterAreAfter(earlier, later, o, u);
  }

  lemma EarlyByNumber(before: seq<AnchoredOperation>, after: seq<AnchoredOperation>, i: nat)
    requires Chronological(after) && i < |after|
    requires forall o, u :: o in before && u in after && u !in before ==> o.transactionNumber < u.transactionNumber
    ensures after[i] in before <==> i < FirstLater(after, before)
  {
    var n := FirstLater(after, before);
    if n < i {
      assert Before(after[n], after[i]) && after[n] in after;
    }
  }

  lemma ListedEarly(
    ctx: Context, full: Downloads, earlier: seq<Attempt>, later: seq<Attempt>, didUniqueSuffix: string,
    before: seq<AnchoredOperation>, after: seq<AnchoredOperation>, i: nat)
    requires Consistent(earlier + later, full) && LaterAttempts(earlier, later)
    requires Lists(StoreAfter(ctx, earlier), didUniqueSuffix, before)
    requires Lists(StoreAfter(ctx, earlier + later), didUniqueSuffix, after)
    requires i < |after|
    ensures after[i] in before <==> i < FirstLater(after, before)
  {
    forall o, u | o in before && u in after && u !in before
      ensures o.transactionNumber < u.transactionNumber
    {
      NewIsLater(ctx, full, earlier, later, didUniqueSuffix, before, after, o, u);
    }
    EarlyByNumber(before, after, i);
  }

  lemma BeforeIsBeginning(
    ctx: Context, full: Downloads, earlier: seq<Attempt>, later: seq<Attempt>, didUniqueSuffix: string,
    before: seq<AnchoredOperation>, after: seq<AnchoredOperation>)
    requires Consistent(earlier + later, full) && LaterAttempts(earlier, later)
    requires Lists(StoreAfter(ctx, earlier), didUniqueSuffix, before)
    requires Lists(StoreAfter(ctx, earlier + later), didUniqueSuffix, after)
    ensures forall o :: o in before <==> o in after[..FirstLater(after, before)]
  {
    var n := FirstLater(after, before);
    forall o | o in before
      ensures o in after[..n]
    {
      ListedBeforeAndAfter(ctx, full, earlier, later, didUniqueSuffix, before, after, o);
      var i :| 0 <= i < |after| && after[i] == o;
      ListedEarly(ctx, full, earlier, later, didUniqueSuffix, before, after, i);
      assert after[..n][i] == o;
    }
  }

  /** Whatever is listed after the beginning belongs to the later transactions. */
  lemma RestIsLater(
    ctx: Context, full: Downloads, earlier: seq<Attempt>, later: seq<Attempt>, didUniqueSuffix: string,
    before: seq<AnchoredOperation>, after: seq<AnchoredOperation>)
    requires Consistent(earlier + later, full) && LaterAttempts(earlier, later)
    requires Lists(StoreAfter(ctx, earlier), didUniqueSuffix, before)
    requires Lists(StoreAfter(ctx, earlier + later), didUniqueSuffix, after)
    ensures ResolutionHistory.Later(before, after[FirstLater(after, before)..])
  {
    var n := FirstLater(after, before);
    forall o, u | o in before && u in after[n..]
      ensures o.transactionNumber < u.transactionNumber
    {
      var j :| n <= j < |after| && after[j] == u;
      ListedEarly(ctx, full, earlier, later, didUniqueSuffix, before, after, j);
      NewIsLater(ctx, full, earlier, later, didUniqueSuffix, before, after, o, u);
    }
  }

  lemma BeginningIsListed(operations: seq<AnchoredOperation>, n: nat)
    requires Chronological(operations) && NoDuplicates(operations) && n <= |operations|
    ensures Chronological(operations[..n]) && NoDuplicates(operations[..n])
  {
  }

  /** Processing later transactions only adds to the end of what is listed of a DID, and adds only operations of later
      transactions: what resolution asks of the operations that are added holds of whatever is processed. */
  lemma ProcessingIsAppendOnly(
    ctx: Context, full: Downloads, earlier: seq<Attempt>, later: seq<Attempt>, didUniqueSuffix: string,
    before: seq<AnchoredOperation>, after: seq<AnchoredOperation>)
    requires Consistent(earlier + later, full) && LaterAttempts(earlier, later)
    requires Lists(StoreAfter(ctx, earlier), didUniqueSuffix, before)
    requires Lists(StoreAfter(ctx, earlier + later), didUniqueSuffix, after)
    ensures before <= after && ResolutionHistory.DistinctNumbers(after)
    ensures ResolutionHistory.Later(before, after[|before|..])
  {
    var n := FirstLater(after, before);
    ListedNumbersAreDistinct(ctx, full, earlier + later, didUniqueSuffix, after);
    BeforeIsBeginning(ctx, full, earlier, later, didUniqueSuffix, before, after);
    RestIsLater(ctx, full, earlier, later, didUniqueSuffix, before, after);
    BeginningIsListed(after, n);
    ListingIsUnique(before, after[..n]);
  }

  lemma DeactivatedStays(
    p: Primitives, before: seq<AnchoredOperation>, after: seq<AnchoredOperation>,
    didState: OperationProcessor.DidState)
    requires before <= after && ResolutionHistory.DistinctNumbers(after)
    requires ResolutionHistory.Later(before, after[|before|..])
    requires Resolver.Terminates(p, before) && Resolver.Resolve(p, before) == Resolver.Resolved(didState)
    requires didState.nextRecoveryCommitmentHash.None?
    ensures Resolver.Terminates(p, after)
    ensures Resolver.Resolve(p, after) == Resolver.Resolved(didState) || Resolver.Resolve(p, after) == Resolver.Thrown
  {
    var more := after[|before|..];
    assert after == before + more;
    ResolutionGrowth.DeactivatedForever(p, before, more, didState);
  }

  /** From ledger to document: once the operations of the transactions processed so far resolve to a deactivated DID,
      whatever later transactions hold, it resolves to that state or to an exception. */
  lemma DeactivationSurvivesProcessing(
    ctx: Context, full: Downloads, earlier: seq<Attempt>, later: seq<Attempt>, didUniqueSuffix: string,
    before: seq<AnchoredOperation>, after: seq<AnchoredOperation>, didState: OperationProcessor.DidState)
    requires Consistent(earlier + later, full) && LaterAttempts(earlier, later)
    requires Lists(StoreAfter(ctx, earlier), didUniqueSuffix, before)
    requires Lists(StoreAfter(ctx, earlier + later), didUniqueSuffix, after)
    requires Resolver.Terminates(ctx.primitives, before)
    requires Resolver.Resolve(ctx.primitives, before) == Resolver.Resolved(didState)
    requires didState.nextRecoveryCommitmentHash.None?
    ensures Resolver.Terminates(ctx.primitives, after)
    ensures Resolver.Resolve(ctx.primitives, after) == Resolver.Resolved(didState)
            || Resolver.Resolve(ctx.primitives, after) == Resolver.Thrown
  {
    ProcessingIsAppendOnly(ctx, full, earlier, later, didUniqueSuffix, before, after);
    DeactivatedStays(ctx.primitives, before, after, didState);
  }
}
