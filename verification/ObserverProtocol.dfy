/** All runs of the observer's live loop: transactions are fetched, processed out of order, and stored in order. */
module ObserverProtocol {
  import opened Wrappers
  import opened Models
  import opened TransactionStore
  import Reorganization

  datatype Entry = Entry(transaction: Transaction, processed: bool)

  /** `stored` and `ledger` are persistent. `read` is the ledger as it was when it was last read, `given` what was stored
      before the live loop started, whether it qualified or not. `storing` is the position the storing loop is at, when
      it runs; `completed` records whatever was processed so far. */
  datatype State = State(
    ledger: seq<Transaction>, read: seq<Transaction>, given: set<Transaction>, stored: seq<Transaction>,
    underProcessing: seq<Entry>, storing: Option<nat>, completed: set<Transaction>)

  /** What can happen next. Transactions are fetched and stored by one loop; they are completed, and the ledger changes,
      at any time. */
  datatype Step =
    | Change(ledger: seq<Transaction>)    // the ledger grows or is reorganised
    | Fetch(count: nat)                   // the ledger is read after the last stored transaction
    | Complete(i: nat)                    // a transaction under processing is done, successfully or not
    | BeginStoring
    | StoreNext                           // stores one transaction, or trims the list at the first unprocessed one
    | Fail                                // an exception leaves the storing loop
    | Restart                             // what is not persistent is lost
    | Revert                              // with nothing under processing, the store is cut back to the ledger

  // ------------------------------------------------------------ reading the ledger

  function NumberOf(transaction: Option<Transaction>): Option<nat> {
    if transaction.None? then None else Some(transaction.value.transactionNumber)
  }

  /** The transactions of the ledger after a transaction number. */
  function After(ledger: seq<Transaction>, since: Option<nat>): (r: seq<Transaction>)
    ensures Increasing(ledger) ==> Increasing(r)
    ensures Increasing(ledger) ==>
              forall t :: t in r <==> t in ledger && (since.Some? ==> since.value < t.transactionNumber)
  {
    if ledger == [] || since.None? || since.value < ledger[0].transactionNumber then ledger
    else After(ledger[1..], since)
  }

  function Selected(transactions: seq<Transaction>, qualifies: Transaction -> bool): (r: seq<Transaction>)
    ensures forall t :: t in r <==> t in transactions && qualifies(t)
    ensures Increasing(transactions) ==> Increasing(r)
  {
    if transactions == [] then []
    else
      var n := |transactions| - 1;
      assert transactions == transactions[..n] + [transactions[n]];
      var rest := Selected(transactions[..n], qualifies);
      assert Increasing(transactions) ==> forall t <- rest :: t.transactionNumber < transactions[n].transactionNumber;
      rest + if qualifies(transactions[n]) then [transactions[n]] else []
  }

  function Fetched(s: State, qualifies: Transaction -> bool, count: nat): seq<Transaction> {
    var after := After(s.ledger, NumberOf(Last(s.stored)));
    Selected(if count <= |after| then after[..count] else after, qualifies)
  }

  function Entries(transactions: seq<Transaction>): seq<Entry> {
    seq(|transactions|, i requires 0 <= i < |transactions| => Entry(transactions[i], false))
  }

  // ------------------------------------------------------------ reorganisation

  function SharedLength(a: seq<Transaction>, b: seq<Transaction>): (n: nat)
    ensures n <= |a| && n <= |b| && a[..n] == b[..n]
  {
    if a == [] || b == [] || a[0] != b[0] then 0
    else
      assert a == [a[0]] + a[1..] && b == [b[0]] + b[1..];
      1 + SharedLength(a[1..], b[1..])
  }

  /** One ledger keeps a beginning of another and nothing after it: transactions name their blocks, and a block fixes
      everything before it. */
  predicate Reorganises(ledger: seq<Transaction>, changed: seq<Transaction>) {
    && Increasing(changed)
    && forall i :: SharedLength(ledger, changed) <= i < |ledger| ==> ledger[i] !in changed
  }

  function Reverted(ledger: seq<Transaction>, stored: seq<Transaction>): seq<Transaction> {
    Kept(stored, Reorganization.CutPoint(stored, t => t in ledger))
  }

  // ------------------------------------------------------------ steps

  predicate CanStore(s: State) {
    s.storing.Some? && s.storing.value < |s.underProcessing| && s.underProcessing[s.storing.value].processed
  }

  /** The ledger refuses to be read after a transaction that it does not hold. */
  predicate CanRead(s: State) {
    s.storing.None? && (s.stored == [] || s.stored[|s.stored| - 1] in s.ledger)
  }

  /** A step that is not enabled changes nothing. */
  function Next(qualifies: Transaction -> bool, s: State, step: Step): State {
    match step
    case Change(changed) =>
      if Reorganises(s.read, changed) then s.(ledger := changed) else s
    case Fetch(count) =>
      if CanRead(s) then
        s.(read := s.ledger, underProcessing := s.underProcessing + Entries(Fetched(s, qualifies, count)))
      else s
    case Complete(i) =>
      if i < |s.underProcessing| then
        var t := s.underProcessing[i].transaction;
        s.(underProcessing := s.underProcessing[i := Entry(t, true)], completed := s.completed + {t})
      else s
    case BeginStoring =>
      if s.storing.None? then s.(storing := Some(0)) else s
    case StoreNext =>
      if CanStore(s) then
        s.(stored := Inserted(s.stored, s.underProcessing[s.storing.value].transaction),
           storing := Some(s.storing.value + 1))
      else if s.storing.Some? && s.storing.value <= |s.underProcessing| then
        s.(underProcessing := s.underProcessing[s.storing.value..], storing := None)
      else s
    case Fail =>
      s.(storing := None)
    case Restart =>
      s.(underProcessing := [], storing := None)
    case Revert =>
      if s.storing.None? && s.underProcessing == [] then
        s.(read := s.ledger, stored := Reverted(s.ledger, s.stored))
      else s
  }

  /** The store holds transactions of the ledger only, and no qualified one before a stored one is missing. */
  predicate Resting(qualifies: Transaction -> bool, ledger: seq<Transaction>, stored: seq<Transaction>) {
    Increasing(ledger) && Closed(Known(ledger), Required(qualifies, ledger), stored)
  }

  predicate Initial(qualifies: Transaction -> bool, s: State) {
    && Resting(qualifies, s.read, s.stored) && Reorganises(s.read, s.ledger)
    && s.underProcessing == [] && s.storing.None?
    && forall t <- s.stored :: t in s.given && t in s.completed
  }

  function Run(qualifies: Transaction -> bool, start: State, steps: seq<Step>): State {
    if steps == [] then start
    else Next(qualifies, Run(qualifies, start, steps[..|steps| - 1]), steps[|steps| - 1])
  }

  // ------------------------------------------------------------ the invariant

  function Known(ledger: seq<Transaction>): set<Transaction> {
    set t | t in ledger
  }

  /** The transactions the store should come to hold. */
  function Required(qualifies: Transaction -> bool, ledger: seq<Transaction>): set<Transaction> {
    set t | t in ledger && qualifies(t)
  }

  function Transactions(entries: seq<Entry>): seq<Transaction> {
    seq(|entries|, i requires 0 <= i < |entries| => entries[i].transaction)
  }

  /** Only known transactions are stored, and no required transaction before a stored one is missing. */
  predicate Closed(known: set<Transaction>, required: set<Transaction>, stored: seq<Transaction>) {
    && Increasing(stored)
    && (forall t <- stored :: t in known)
    && forall t <- stored, u <- required :: u.transactionNumber <= t.transactionNumber ==> u in stored
  }

  predicate Preceded(required: set<Transaction>, stored: seq<Transaction>, earlier: seq<Transaction>, t: Transaction) {
    forall u <- required :: u.transactionNumber < t.transactionNumber ==> u in stored || u in earlier
  }

  /** Whatever is required before a listed transaction is stored, or is listed before it. */
  predicate Covered(
    known: set<Transaction>, required: set<Transaction>, stored: seq<Transaction>, listed: seq<Transaction>)
  {
    forall j :: 0 <= j < |listed| ==> listed[j] in known && Preceded(required, stored, listed[..j], listed[j])
  }

  predicate DistinctNumbers(known: set<Transaction>) {
    forall t <- known, u <- known :: t.transactionNumber == u.transactionNumber ==> t == u
  }

  /** About the ledger as it was last read, with which the ledger as it is shares a beginning. */
  predicate Invariant(qualifies: Transaction -> bool, s: State) {
    && Resting(qualifies, s.read, s.stored) && Reorganises(s.read, s.ledger)
    && Covered(Known(s.read), Required(qualifies, s.read), s.stored, Transactions(s.underProcessing))
    && (forall t <- s.stored :: t in s.completed && (t in s.given || qualifies(t)))
    && (forall e <- s.underProcessing :: qualifies(e.transaction) && (e.processed ==> e.transaction in s.completed))
    && (s.storing.Some? ==>
          && s.storing.value <= |s.underProcessing|
          && forall i :: 0 <= i < s.storing.value ==> s.underProcessing[i].transaction in s.stored)
  }

  /** Nothing under processing has left the ledger. */
  predicate InFlightIsOnLedger(s: State) {
    forall e <- s.underProcessing :: e.transaction in s.ledger
  }

  // ------------------------------------------------------------ what each step keeps

  lemma CoveredAppends(
    known: set<Transaction>, required: set<Transaction>, stored: seq<Transaction>, listed: seq<Transaction>,
    fetched: seq<Transaction>)
    requires Covered(known, required, stored, listed) && Covered(known, required, stored, fetched)
    ensures Covered(known, required, stored, listed + fetched)
  {
    var all, n := listed + fetched, |listed|;
    forall j | 0 <= j < |all|
      ensures all[j] in known && Preceded(required, stored, all[..j], all[j])
    {
      if j < n {
        assert all[..j] == listed[..j] && Preceded(required, stored, listed[..j], listed[j]);
      } else {
        assert all[..j] == listed + fetched[..j - n] && Preceded(required, stored, fetched[..j - n], fetched[j - n]);
      }
    }
  }

  lemma ClosedInserts(known: set<Transaction>, required: set<Transaction>, stored: seq<Transaction>, t: Transaction)
    requires Closed(known, required, stored) && DistinctNumbers(known) && required <= known
    requires t in known && Preceded(required, stored, [], t)
    ensures Closed(known, required, Inserted(stored, t))
    ensures t in Inserted(stored, t) && forall u <- stored :: u in Inserted(stored, t)
  {
    InsertedInOrder(stored, t);
    if Stored(stored, t.transactionNumber) {
      var k :| 0 <= k < |stored| && stored[k].transactionNumber == t.transactionNumber;
      assert stored[k] in known;
    }
  }

  lemma CoveredByMore(
    known: set<Transaction>, required: set<Transaction>, stored: seq<Transaction>, more: seq<Transaction>,
    listed: seq<Transaction>)
    requires Covered(known, required, stored, listed) && forall u <- stored :: u in more
    ensures Covered(known, required, more, listed)
  {
    forall j | 0 <= j < |listed|
      ensures Preceded(required, more, listed[..j], listed[j])
    {
      assert Preceded(required, stored, listed[..j], listed[j]);
    }
  }

  lemma CoveredTrims(
    known: set<Transaction>, required: set<Transaction>, stored: seq<Transaction>, listed: seq<Transaction>, i: nat)
    requires Covered(known, required, stored, listed) && i <= |listed|
    requires forall u <- listed[..i] :: u in stored
    ensures Covered(known, required, stored, listed[i..])
  {
    var rest := listed[i..];
    forall j | 0 <= j < |rest|
      ensures rest[j] in known && Preceded(required, stored, rest[..j], rest[j])
    {
      assert Preceded(required, stored, listed[..i + j], listed[i + j]);
      assert listed[..i + j] == listed[..i] + rest[..j];
    }
  }

  // ------------------------------------------------------------ fetching

  /** A beginning of what follows a closed store is consecutive. */
  lemma ChunkIsConsecutive(
    after: seq<Transaction>, qualifies: Transaction -> bool, n: nat, t: Transaction, u: Transaction)
    requires Increasing(after) && n <= |after|
    requires t in after[..n] && u in after && qualifies(u) && u.transactionNumber < t.transactionNumber
    ensures u in Selected(after[..n], qualifies)
  {
    var k :| 0 <= k < n && after[..n][k] == t;
    var i :| 0 <= i < |after| && after[i] == u;
    assert i < k;
    assert after[..n][i] == u;
  }

  lemma InFrontOf(transactions: seq<Transaction>, j: nat, u: Transaction)
    requires Increasing(transactions) && j < |transactions| && u in transactions
    requires u.transactionNumber < transactions[j].transactionNumber
    ensures u in transactions[..j]
  {
    var m :| 0 <= m < |transactions| && transactions[m] == u;
    assert transactions[..j][m] == u;
  }

  /** What is read after the last stored transaction continues the store without a gap. */
  lemma FetchedIsCovered(qualifies: Transaction -> bool, s: State, count: nat)
    requires Resting(qualifies, s.ledger, s.stored)
    ensures Covered(Known(s.ledger), Required(qualifies, s.ledger), s.stored, Fetched(s, qualifies, count))
  {
    var last, required := NumberOf(Last(s.stored)), Required(qualifies, s.ledger);
    var after, fetched := After(s.ledger, last), Fetched(s, qualifies, count);
    var n := if count <= |after| then count else |after|;
    assert after[..n] == if count <= |after| then after[..count] else after;
    forall i, j | 0 <= i < j < n
      ensures after[..n][i].transactionNumber < after[..n][j].transactionNumber
    {
    }
    forall j | 0 <= j < |fetched|
      ensures fetched[j] in Known(s.ledger) && Preceded(required, s.stored, fetched[..j], fetched[j])
    {
      assert fetched[j] in fetched;
      forall u | u in required && u.transactionNumber < fetched[j].transactionNumber
        ensures u in s.stored || u in fetched[..j]
      {
        if u !in s.stored {
          NotStoredIsAfter(qualifies, s, u);
          ChunkIsConsecutive(after, qualifies, n, fetched[j], u);
          InFrontOf(fetched, j, u);
        }
      }
    }
  }

  lemma NotStoredIsAfter(qualifies: Transaction -> bool, s: State, u: Transaction)
    requires Resting(qualifies, s.ledger, s.stored)
    requires u in Required(qualifies, s.ledger) && u !in s.stored
    ensures u in After(s.ledger, NumberOf(Last(s.stored)))
  {
    if s.stored != [] {
      assert s.stored[|s.stored| - 1] in s.stored;
    }
  }

  // ------------------------------------------------------------ steps keep the invariant

  lemma LedgerIsDistinct(ledger: seq<Transaction>)
    requires Increasing(ledger)
    ensures DistinctNumbers(Known(ledger))
  {
  }

  lemma EntriesAreUnprocessed(entries: seq<Entry>, fetched: seq<Transaction>)
    ensures forall e <- entries + Entries(fetched) :: e in entries || (!e.processed && e.transaction in fetched)
  {
    assert forall e <- Entries(fetched) :: !e.processed && e.transaction in fetched;
  }

  lemma ListGrows(qualifies: Transaction -> bool, s: State, next: State, fetched: seq<Transaction>)
    requires Invariant(qualifies, s) && s.storing.None? && forall t <- fetched :: qualifies(t)
    requires Covered(Known(s.read), Required(qualifies, s.read), s.stored, fetched)
    requires next == s.(underProcessing := s.underProcessing + Entries(fetched))
    ensures Invariant(qualifies, next)
  {
    CoveredAppends(Known(s.read), Required(qualifies, s.read), s.stored, Transactions(s.underProcessing), fetched);
    assert Transactions(next.underProcessing) == Transactions(s.underProcessing) + fetched;
    EntriesAreUnprocessed(s.underProcessing, fetched);
  }

  lemma {:induction false} SharedWithItself(ledger: seq<Transaction>)
    ensures SharedLength(ledger, ledger) == |ledger|
  {
    if ledger != [] {
      SharedWithItself(ledger[1..]);
    }
  }

  /** If the last stored transaction is on the ledger, all of them are. */
  lemma StoredIsOnLedger(qualifies: Transaction -> bool, s: State)
    requires Invariant(qualifies, s) && CanRead(s)
    ensures forall t <- s.stored :: t in s.ledger
  {
    forall t | t in s.stored
      ensures t in s.ledger
    {
      var last := s.stored[|s.stored| - 1];
      assert last in s.stored && last in Known(s.read) && t in Known(s.read);
      var k :| 0 <= k < |s.stored| && s.stored[k] == t;
      SharedBefore(s.read, s.ledger, last, t);
    }
  }

  lemma SwitchKeepsResting(qualifies: Transaction -> bool, read: seq<Transaction>, ledger: seq<Transaction>,
                           stored: seq<Transaction>)
    requires Resting(qualifies, read, stored) && Reorganises(read, ledger)
    requires forall t <- stored :: t in ledger
    ensures Resting(qualifies, ledger, stored)
  {
    forall t, u | t in stored && u in Required(qualifies, ledger) && u.transactionNumber <= t.transactionNumber
      ensures u in stored
    {
      assert t in Known(read);
      SharedBefore(read, ledger, t, u);
      assert u in Required(qualifies, read);
    }
  }

  lemma SwitchKeepsCovered(qualifies: Transaction -> bool, read: seq<Transaction>, ledger: seq<Transaction>,
                           stored: seq<Transaction>, listed: seq<Transaction>)
    requires Increasing(read) && Reorganises(read, ledger)
    requires Covered(Known(read), Required(qualifies, read), stored, listed)
    requires forall t <- listed :: t in ledger
    ensures Covered(Known(ledger), Required(qualifies, ledger), stored, listed)
  {
    forall j | 0 <= j < |listed|
      ensures listed[j] in Known(ledger) && Preceded(Required(qualifies, ledger), stored, listed[..j], listed[j])
    {
      assert listed[j] in Known(read) && Preceded(Required(qualifies, read), stored, listed[..j], listed[j]);
      forall u | u in Required(qualifies, ledger) && u.transactionNumber < listed[j].transactionNumber
        ensures u in stored || u in listed[..j]
      {
        SharedBefore(read, ledger, listed[j], u);
        assert u in Required(qualifies, read);
      }
    }
  }

  /** The invariant carries over to the ledger as it is, if it still holds all that is stored and under processing. */
  lemma SwitchKeepsInvariant(qualifies: Transaction -> bool, s: State)
    requires Invariant(qualifies, s) && CanRead(s) && InFlightIsOnLedger(s)
    ensures Invariant(qualifies, s.(read := s.ledger))
  {
    StoredIsOnLedger(qualifies, s);
    SharedWithItself(s.ledger);
    SwitchKeepsResting(qualifies, s.read, s.ledger, s.stored);
    SwitchKeepsCovered(qualifies, s.read, s.ledger, s.stored, Transactions(s.underProcessing));
  }

  lemma SafeFetchKeepsInvariant(qualifies: Transaction -> bool, s: State, count: nat)
    requires Invariant(qualifies, s) && CanRead(s) && InFlightIsOnLedger(s)
    ensures Invariant(qualifies, Next(qualifies, s, Fetch(count)))
  {
    var switched := s.(read := s.ledger);
    SwitchKeepsInvariant(qualifies, s);
    FetchedIsCovered(qualifies, s, count);
    ListGrows(qualifies, switched, Next(qualifies, s, Fetch(count)), Fetched(s, qualifies, count));
  }

  lemma CompleteKeepsInvariant(qualifies: Transaction -> bool, s: State, i: nat)
    requires Invariant(qualifies, s) && i < |s.underProcessing|
    ensures Invariant(qualifies, Next(qualifies, s, Complete(i)))
  {
    var next := Next(qualifies, s, Complete(i));
    assert s.underProcessing[i] in s.underProcessing;
    assert Transactions(next.underProcessing) == Transactions(s.underProcessing);
  }

  /** Storing one more transaction: everything qualified before it is stored already. */
  lemma NextListedIsStored(qualifies: Transaction -> bool, s: State, i: nat)
    requires Invariant(qualifies, s) && s.storing == Some(i) && CanStore(s)
    ensures var t, known, required := s.underProcessing[i].transaction, Known(s.read), Required(qualifies, s.read);
            && Closed(known, required, Inserted(s.stored, t))
            && Covered(known, required, Inserted(s.stored, t), Transactions(s.underProcessing))
            && t in Inserted(s.stored, t)
            && forall u <- s.stored :: u in Inserted(s.stored, t)
  {
    var listed, known, required := Transactions(s.underProcessing), Known(s.read), Required(qualifies, s.read);
    LedgerIsDistinct(s.read);
    assert Preceded(required, s.stored, listed[..i], listed[i]);
    ClosedInserts(known, required, s.stored, listed[i]);
    CoveredByMore(known, required, s.stored, Inserted(s.stored, listed[i]), listed);
  }

  lemma MoreIsStored(entries: seq<Entry>, stored: seq<Transaction>, more: seq<Transaction>, i: nat)
    requires i < |entries| && entries[i].transaction in more && forall u <- stored :: u in more
    requires forall j :: 0 <= j < i ==> entries[j].transaction in stored
    ensures forall j :: 0 <= j < i + 1 ==> entries[j].transaction in more
  {
  }

  lemma MoreIsCompleted(
    qualifies: Transaction -> bool, stored: seq<Transaction>, t: Transaction, completed: set<Transaction>,
    given: set<Transaction>)
    requires Increasing(stored) && t in completed && qualifies(t)
    requires forall u <- stored :: u in completed && (u in given || qualifies(u))
    ensures forall u <- Inserted(stored, t) :: u in completed && (u in given || qualifies(u))
  {
    InsertedInOrder(stored, t);
  }

  lemma StoreOneKeepsInvariant(qualifies: Transaction -> bool, s: State)
    requires Invariant(qualifies, s) && CanStore(s)
    ensures Invariant(qualifies, Next(qualifies, s, StoreNext))
  {
    var i, next := s.storing.value, Next(qualifies, s, StoreNext);
    var t := s.underProcessing[i].transaction;
    NextListedIsStored(qualifies, s, i);
    assert next == s.(stored := Inserted(s.stored, t), storing := Some(i + 1));
    assert s.underProcessing[i] in s.underProcessing;
    MoreIsStored(s.underProcessing, s.stored, next.stored, i);
    MoreIsCompleted(qualifies, s.stored, t, s.completed, s.given);
  }

  lemma TrimKeepsInvariant(qualifies: Transaction -> bool, s: State)
    requires Invariant(qualifies, s) && s.storing.Some? && !CanStore(s)
    ensures Invariant(qualifies, Next(qualifies, s, StoreNext))
  {
    var i, next := s.storing.value, Next(qualifies, s, StoreNext);
    CoveredTrims(Known(s.read), Required(qualifies, s.read), s.stored, Transactions(s.underProcessing), i);
    assert Transactions(next.underProcessing) == Transactions(s.underProcessing)[i..];
  }

  // ------------------------------------------------------------ reverting

  /** A transaction of the old ledger is on the new one just if it is in the part they share. */
  lemma SharedTransactions(ledger: seq<Transaction>, changed: seq<Transaction>, t: Transaction)
    requires Increasing(ledger) && Reorganises(ledger, changed) && t in ledger
    ensures t in changed <==> t in ledger[..SharedLength(ledger, changed)]
  {
    var c := SharedLength(ledger, changed);
    var k :| 0 <= k < |ledger| && ledger[k] == t;
    if k < c {
      assert ledger[..c][k] == t && changed[..c][k] == t;
    }
  }

  /** Before a transaction they share, the two ledgers are the same. */
  lemma SharedBefore(ledger: seq<Transaction>, changed: seq<Transaction>, t: Transaction, u: Transaction)
    requires Increasing(ledger) && Reorganises(ledger, changed) && t in ledger && t in changed
    requires u.transactionNumber <= t.transactionNumber
    ensures u in ledger <==> u in changed
  {
    var c := SharedLength(ledger, changed);
    SharedTransactions(ledger, changed, t);
    var k :| 0 <= k < c && ledger[..c][k] == t;
    assert changed[..c][k] == t;
    if u in ledger {
      var j :| 0 <= j < |ledger| && ledger[j] == u;
      assert j <= k && ledger[..c][j] == changed[j];
    }
    if u in changed {
      var j :| 0 <= j < |changed| && changed[j] == u;
      assert j <= k && changed[..c][j] == ledger[j];
    }
  }

  /** A reorganisation invalidates the end of a closed store. */
  lemma {:induction false} StoredIsValidPrefix(
    ledger: seq<Transaction>, changed: seq<Transaction>, stored: seq<Transaction>) returns (v: nat)
    requires Increasing(ledger) && Reorganises(ledger, changed)
    requires Increasing(stored) && forall t <- stored :: t in ledger
    ensures Reorganization.ValidPrefix(stored, t => t in changed, v)
  {
    if stored == [] {
      v := 0;
    } else {
      var n := |stored| - 1;
      v := StoredIsValidPrefix(ledger, changed, stored[..n]);
      if stored[n] in changed {
        forall i | 0 <= i < n
          ensures stored[..n][i] in changed
        {
          SharedBefore(ledger, changed, stored[n], stored[i]);
        }
        v := n + 1;
      }
    }
  }

  lemma PrefixHolds(stored: seq<Transaction>, kept: seq<Transaction>, t: Transaction, u: Transaction)
    requires Increasing(stored) && kept <= stored
    requires t in kept && u in stored && u.transactionNumber <= t.transactionNumber
    ensures u in kept
  {
    var k :| 0 <= k < |kept| && kept[k] == t;
    var j :| 0 <= j < |stored| && stored[j] == u;
    assert stored[k] == t;
    assert j <= k && kept[j] == u;
  }

  /** What is kept of a store rests on the new ledger. */
  lemma KeptIsResting(
    qualifies: Transaction -> bool, ledger: seq<Transaction>, changed: seq<Transaction>, stored: seq<Transaction>,
    kept: seq<Transaction>)
    requires Resting(qualifies, ledger, stored) && Reorganises(ledger, changed)
    requires kept <= stored && forall t <- kept :: t in changed
    ensures Resting(qualifies, changed, kept)
  {
    forall i, j | 0 <= i < j < |kept|
      ensures kept[i].transactionNumber < kept[j].transactionNumber
    {
      assert kept[i] == stored[i] && kept[j] == stored[j];
    }
    forall t, u | t in kept && u in Required(qualifies, changed) && u.transactionNumber <= t.transactionNumber
      ensures u in kept
    {
      assert t in stored && t in Known(ledger);
      SharedBefore(ledger, changed, t, u);
      assert u in Required(qualifies, ledger) && u in stored;
      PrefixHolds(stored, kept, t, u);
    }
  }

  lemma RevertedStore(ledger: seq<Transaction>, changed: seq<Transaction>, stored: seq<Transaction>)
    requires Increasing(ledger) && Reorganises(ledger, changed)
    requires Increasing(stored) && forall t <- stored :: t in ledger
    ensures var kept := Reverted(changed, stored);
            kept <= stored && forall t <- kept :: t in changed
  {
    var valid, stores := (t: Transaction) => t in changed, Reorganization.Stores(map[], {}, stored);
    var v := StoredIsValidPrefix(ledger, changed, stored);
    Reorganization.RevertedIsValid(stores, valid, v);
    var kept := Reorganization.Reverted(stores, valid).transactions;
    forall t | t in kept
      ensures valid(t)
    {
      var k :| 0 <= k < |kept| && kept[k] == t;
    }
  }

  lemma StoredIsRead(qualifies: Transaction -> bool, s: State)
    requires Invariant(qualifies, s)
    ensures forall t <- s.stored :: t in s.read
  {
    forall t | t in s.stored
      ensures t in s.read
    {
      assert t in Known(s.read);
    }
  }

  lemma KeptIsOnLedger(qualifies: Transaction -> bool, s: State)
    requires Invariant(qualifies, s)
    ensures Reverted(s.ledger, s.stored) <= s.stored
    ensures forall t <- Reverted(s.ledger, s.stored) :: t in s.ledger
  {
    StoredIsRead(qualifies, s);
    RevertedStore(s.read, s.ledger, s.stored);
  }

  /** A revert re-establishes the invariant for the ledger as it is. */
  lemma RevertKeepsInvariant(qualifies: Transaction -> bool, s: State)
    requires Invariant(qualifies, s) && s.storing.None? && s.underProcessing == []
    ensures Invariant(qualifies, Next(qualifies, s, Revert)) && Next(qualifies, s, Revert).read == s.ledger
  {
    var kept := Reverted(s.ledger, s.stored);
    KeptIsOnLedger(qualifies, s);
    KeptKeepsInvariant(qualifies, s, kept);
    assert Next(qualifies, s, Revert) == s.(read := s.ledger, stored := kept);
  }

  lemma KeptKeepsInvariant(qualifies: Transaction -> bool, s: State, kept: seq<Transaction>)
    requires Invariant(qualifies, s) && s.storing.None? && s.underProcessing == []
    requires kept <= s.stored && forall t <- kept :: t in s.ledger
    ensures Invariant(qualifies, s.(read := s.ledger, stored := kept))
  {
    KeptIsResting(qualifies, s.read, s.ledger, s.stored, kept);
    SharedWithItself(s.ledger);
    assert forall t <- kept :: t in s.stored;
  }

  // ------------------------------------------------------------ all runs

  /** Along a run, the ledger is never read on while something under processing has left it. */
  predicate NothingReadOver(qualifies: Transaction -> bool, start: State, steps: seq<Step>) {
    steps != [] ==>
      var before, step := steps[..|steps| - 1], steps[|steps| - 1];
      var s := Run(qualifies, start, before);
      NothingReadOver(qualifies, start, before) && (step.Fetch? && CanRead(s) ==> InFlightIsOnLedger(s))
  }

  lemma InitialIsInvariant(qualifies: Transaction -> bool, s: State)
    requires Initial(qualifies, s)
    ensures Invariant(qualifies, s)
  {
  }

  lemma {:induction false} RunsKeepInvariant(qualifies: Transaction -> bool, start: State, steps: seq<Step>)
    requires Initial(qualifies, start) && NothingReadOver(qualifies, start, steps)
    ensures Invariant(qualifies, Run(qualifies, start, steps))
  {
    if steps != [] {
      var before, step := steps[..|steps| - 1], steps[|steps| - 1];
      RunsKeepInvariant(qualifies, start, before);
      StepKeepsInvariant(qualifies, Run(qualifies, start, before), step);
    }
  }

  lemma StepKeepsInvariant(qualifies: Transaction -> bool, s: State, step: Step)
    requires Invariant(qualifies, s) && (step.Fetch? && CanRead(s) ==> InFlightIsOnLedger(s))
    ensures Invariant(qualifies, Next(qualifies, s, step))
  {
    if Next(qualifies, s, step) != s {
      match step
      case Fetch(count) => SafeFetchKeepsInvariant(qualifies, s, count);
      case Complete(i) => CompleteKeepsInvariant(qualifies, s, i);
      case StoreNext =>
        if CanStore(s) {
          StoreOneKeepsInvariant(qualifies, s);
        } else {
          TrimKeepsInvariant(qualifies, s);
        }
      case Revert => RevertKeepsInvariant(qualifies, s);
      case _ =>
    }
  }

  lemma NextOfPrefix(stored: seq<Transaction>, all: seq<Transaction>, n: nat)
    requires Increasing(stored) && Increasing(all) && n < |stored| && n <= |all| && stored[..n] == all[..n]
    requires forall t <- stored :: t in all
    requires forall t <- stored, u <- all :: u.transactionNumber <= t.transactionNumber ==> u in stored
    ensures n < |all| && stored[n] == all[n]
  {
    var t := stored[n];
    assert t in stored && t in all;
    if n < |all| && t.transactionNumber < all[n].transactionNumber {
      InFrontOf(all, n, t);
    }
    if n < |all| && all[n].transactionNumber < t.transactionNumber {
      assert all[n] in all && all[n] in stored;
      InFrontOf(stored, n, all[n]);
    }
  }

  lemma {:induction false} ClosedIsPrefix(stored: seq<Transaction>, all: seq<Transaction>, n: nat)
    requires Increasing(stored) && Increasing(all) && n <= |stored|
    requires forall t <- stored :: t in all
    requires forall t <- stored, u <- all :: u.transactionNumber <= t.transactionNumber ==> u in stored
    ensures n <= |all| && stored[..n] == all[..n]
  {
    if n > 0 {
      ClosedIsPrefix(stored, all, n - 1);
      NextOfPrefix(stored, all, n - 1);
    }
  }

  /** The qualified part of a closed store is a beginning of the qualified ledger. */
  lemma RestingIsPrefix(qualifies: Transaction -> bool, ledger: seq<Transaction>, stored: seq<Transaction>)
    requires Resting(qualifies, ledger, stored)
    ensures Selected(stored, qualifies) <= Selected(ledger, qualifies)
  {
    var some, all := Selected(stored, qualifies), Selected(ledger, qualifies);
    forall t | t in some
      ensures t in all
    {
      assert t in stored && t in Known(ledger);
    }
    forall t, u | t in some && u in all && u.transactionNumber <= t.transactionNumber
      ensures u in some
    {
      assert t in stored && u in Required(qualifies, ledger);
    }
    ClosedIsPrefix(some, all, |some|);
    assert some[..|some|] == some;
  }

  /** After every such run, whatever was completed in whatever order, fetched twice, lost in a restart, reorganised away
      or reverted, what is stored was on the ledger when it was last read, was processed, and qualified or was there
      before; and the qualified part of it is a beginning of the qualified ledger without a gap. */
  lemma StoreHasNoGap(qualifies: Transaction -> bool, start: State, steps: seq<Step>)
    requires Initial(qualifies, start) && NothingReadOver(qualifies, start, steps)
    ensures var s := Run(qualifies, start, steps);
            && (forall t <- s.stored :: t in s.read && t in s.completed && (t in s.given || qualifies(t)))
            && Selected(s.stored, qualifies) <= Selected(s.read, qualifies)
            && Reorganises(s.read, s.ledger)
  {
    var s := Run(qualifies, start, steps);
    RunsKeepInvariant(qualifies, start, steps);
    RestingIsPrefix(qualifies, s.read, s.stored);
    forall t | t in s.stored
      ensures t in s.read
    {
      assert t in Known(s.read);
    }
  }

  /** As long as the last stored transaction is on the ledger, a revert removes nothing. */
  lemma RevertKeepsAll(s: State)
    requires Increasing(s.stored) && CanRead(s)
    ensures Reverted(s.ledger, s.stored) == s.stored
  {
    if s.stored != [] {
      Reorganization.ValidLastIsTheCut(s.stored, t => t in s.ledger);
    }
  }
}
