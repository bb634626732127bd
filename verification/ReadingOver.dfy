/** A ledger that is read on while a transaction under processing has left it: a run that loses a transaction. */
module ReadingOver {
  import opened Wrappers
  import opened Models
  import opened TransactionStore
  import opened ObserverProtocol

  function On(transactionNumber: nat, block: string): Transaction {
    Transaction(transactionNumber, transactionNumber, block, "", 0.0, 0.0, "writer")
  }

  const ONE := On(1, "a")
  const TWO := On(2, "b")
  const OTHER_TWO := On(2, "c")
  const THREE := On(3, "d")

  const BEFORE := [ONE, TWO]
  const AFTER := [ONE, OTHER_TWO, THREE]

  /** The second transaction is under processing when another takes its place on the ledger. */
  const STEPS := [
    Fetch(9), Change(AFTER), Fetch(9), Complete(0), Complete(1), Complete(2),
    BeginStoring, StoreNext, StoreNext, StoreNext, StoreNext]

  const START := State(BEFORE, BEFORE, {ONE}, [ONE], [], None, {ONE})

  const END := State(AFTER, AFTER, {ONE}, [ONE, TWO, THREE], [], None, {ONE, TWO, OTHER_TWO, THREE})

  predicate All(qualifies: Transaction -> bool) {
    qualifies(TWO) && qualifies(OTHER_TWO) && qualifies(THREE)
  }

  function Listed(a: bool, b: bool, c: bool): seq<Entry> {
    [Entry(TWO, a), Entry(OTHER_TWO, b), Entry(THREE, c)]
  }

  /** After both fetches. */
  function Fetching(a: bool, b: bool, c: bool, completed: set<Transaction>): State {
    State(AFTER, AFTER, {ONE}, [ONE], Listed(a, b, c), None, completed)
  }

  function Storing(stored: seq<Transaction>, i: nat): State {
    State(AFTER, AFTER, {ONE}, stored, Listed(true, true, true), Some(i), {ONE, TWO, OTHER_TWO, THREE})
  }

  /** The states of the run. */
  function At(k: nat): State
    requires k <= |STEPS|
  {
    if k == 0 then START
    else if k == 1 then START.(underProcessing := [Entry(TWO, false)])
    else if k == 2 then START.(underProcessing := [Entry(TWO, false)], ledger := AFTER)
    else if k == 3 then Fetching(false, false, false, {ONE})
    else if k == 4 then Fetching(true, false, false, {ONE, TWO})
    else if k == 5 then Fetching(true, true, false, {ONE, TWO, OTHER_TWO})
    else if k == 6 then Fetching(true, true, true, {ONE, TWO, OTHER_TWO, THREE})
    else if k == 7 then Storing([ONE], 0)
    else if k == 8 then Storing([ONE, TWO], 1)
    else if k == 9 then Storing([ONE, TWO], 2)
    else if k == 10 then Storing([ONE, TWO, THREE], 3)
    else END
  }

  lemma SelectsBoth(qualifies: Transaction -> bool)
    requires All(qualifies)
    ensures Selected([TWO], qualifies) == [TWO]
    ensures Selected([OTHER_TWO, THREE], qualifies) == [OTHER_TWO, THREE]
  {
    assert [TWO][..0] == [] && [OTHER_TWO, THREE][..1] == [OTHER_TWO] && [OTHER_TWO][..0] == [];
    assert Selected([], qualifies) == [];
    assert Selected([OTHER_TWO], qualifies) == [OTHER_TWO];
  }

  lemma AfterOne(rest: seq<Transaction>)
    requires rest != [] && rest[0].transactionNumber > 1
    ensures After([ONE] + rest, Some(1)) == rest
  {
    assert ([ONE] + rest)[1..] == rest;
  }

  lemma FetchedIs(qualifies: Transaction -> bool, s: State, rest: seq<Transaction>)
    requires s.stored == [ONE] && s.ledger == [ONE] + rest
    requires 0 < |rest| < 9 && rest[0].transactionNumber > 1 && Selected(rest, qualifies) == rest
    ensures Fetched(s, qualifies, 9) == rest && ONE in s.ledger
  {
    AfterOne(rest);
    assert s.ledger[0] == ONE;
  }

  lemma FetchAppends(qualifies: Transaction -> bool, s: State, rest: seq<Transaction>)
    requires CanRead(s) && Fetched(s, qualifies, 9) == rest
    ensures Next(qualifies, s, Fetch(9)) == s.(read := s.ledger, underProcessing := s.underProcessing + Entries(rest))
  {
  }

  lemma Fetches(qualifies: Transaction -> bool, s: State, rest: seq<Transaction>, entries: seq<Entry>)
    requires s.storing.None? && s.stored == [ONE] && s.ledger == [ONE] + rest
    requires 0 < |rest| < 9 && rest[0].transactionNumber > 1 && Selected(rest, qualifies) == rest
    requires entries == Entries(rest)
    ensures Next(qualifies, s, Fetch(9)) == s.(read := s.ledger, underProcessing := s.underProcessing + entries)
  {
    FetchedIs(qualifies, s, rest);
    FetchAppends(qualifies, s, rest);
  }

  lemma FirstFetch(qualifies: Transaction -> bool)
    requires All(qualifies)
    ensures Next(qualifies, At(0), STEPS[0]) == At(1)
  {
    SelectsBoth(qualifies);
    assert BEFORE == [ONE] + [TWO];
    Fetches(qualifies, START, [TWO], [Entry(TWO, false)]);
  }

  lemma LedgerChanges(qualifies: Transaction -> bool)
    ensures Next(qualifies, At(1), STEPS[1]) == At(2)
  {
    assert BEFORE[1..] == [TWO] && AFTER[1..] == [OTHER_TWO, THREE];
    assert SharedLength(BEFORE, AFTER) == 1 + SharedLength([TWO], [OTHER_TWO, THREE]);
  }

  lemma SecondFetch(qualifies: Transaction -> bool)
    requires All(qualifies)
    ensures Next(qualifies, At(2), Fetch(9)) == At(3)
  {
    var changed := At(2);
    var entries := [Entry(OTHER_TWO, false), Entry(THREE, false)];
    SelectsBoth(qualifies);
    SecondEntries(entries);
    Fetches(qualifies, changed, [OTHER_TWO, THREE], entries);
    SecondFetchIs(changed, entries);
  }

  lemma SecondFetchIs(s: State, entries: seq<Entry>)
    requires s == At(2) && s.underProcessing + entries == Listed(false, false, false)
    ensures s.(read := s.ledger, underProcessing := s.underProcessing + entries) == At(3)
  {
  }

  lemma SecondEntries(entries: seq<Entry>)
    requires entries == [Entry(OTHER_TWO, false), Entry(THREE, false)]
    ensures entries == Entries([OTHER_TWO, THREE]) && [Entry(TWO, false)] + entries == Listed(false, false, false)
    ensures AFTER == [ONE] + [OTHER_TWO, THREE]
  {
  }

  lemma Completes(qualifies: Transaction -> bool)
    ensures Next(qualifies, At(3), STEPS[3]) == At(4)
    ensures Next(qualifies, At(4), STEPS[4]) == At(5)
    ensures Next(qualifies, At(5), STEPS[5]) == At(6)
  {
  }

  lemma Stores(qualifies: Transaction -> bool)
    ensures Next(qualifies, At(7), STEPS[7]) == At(8)
    ensures Next(qualifies, At(8), STEPS[8]) == At(9)
    ensures Next(qualifies, At(9), STEPS[9]) == At(10)
  {
    InsertsInTurn();
  }

  lemma InsertsInTurn()
    ensures Inserted([ONE], TWO) == [ONE, TWO]
    ensures Inserted([ONE, TWO], OTHER_TWO) == [ONE, TWO]
    ensures Inserted([ONE, TWO], THREE) == [ONE, TWO, THREE]
  {
  }

  lemma BeginsAndTrims(qualifies: Transaction -> bool)
    ensures Next(qualifies, At(6), STEPS[6]) == At(7)
    ensures Next(qualifies, At(10), STEPS[10]) == At(11)
  {
  }

  lemma StepsLead(qualifies: Transaction -> bool, k: nat)
    requires All(qualifies) && k < |STEPS|
    ensures Next(qualifies, At(k), STEPS[k]) == At(k + 1)
  {
    if k == 0 {
      FirstFetch(qualifies);
    } else if k == 1 {
      LedgerChanges(qualifies);
    } else if k == 2 {
      assert STEPS[2] == Fetch(9);
      SecondFetch(qualifies);
    } else if k < 6 {
      Completes(qualifies);
    } else if 7 <= k < 10 {
      Stores(qualifies);
    } else {
      BeginsAndTrims(qualifies);
    }
  }

  lemma {:induction false} RunAlong(
    qualifies: Transaction -> bool, start: State, steps: seq<Step>, at: nat -> State, k: nat)
    requires k <= |steps| && at(0) == start
    requires forall i :: 0 <= i < |steps| ==> Next(qualifies, at(i), steps[i]) == at(i + 1)
    ensures Run(qualifies, start, steps[..k]) == at(k)
  {
    if k > 0 {
      RunAlong(qualifies, start, steps, at, k - 1);
      assert steps[..k][..k - 1] == steps[..k - 1];
    }
  }

  lemma RunIsAt(qualifies: Transaction -> bool)
    requires All(qualifies)
    ensures Run(qualifies, START, STEPS[..|STEPS|]) == At(|STEPS|)
  {
    var at := (k: nat) => if k <= |STEPS| then At(k) else END;
    forall i | 0 <= i < |STEPS|
      ensures Next(qualifies, at(i), STEPS[i]) == at(i + 1)
    {
      StepsLead(qualifies, i);
    }
    RunAlong(qualifies, START, STEPS, at, |STEPS|);
  }

  lemma StartIsInitial(qualifies: Transaction -> bool)
    ensures Initial(qualifies, START)
  {
    SharedWithItself(BEFORE);
  }

  /** The transaction that left the ledger is stored, and the one that took its number is not. */
  predicate Lost(s: State) {
    TWO in s.stored && TWO !in s.ledger && OTHER_TWO in s.ledger && OTHER_TWO !in s.stored
  }

  /** Nothing is under processing, the ledger can be read on, and a revert would remove nothing. */
  predicate Unnoticed(qualifies: Transaction -> bool, s: State) {
    && s.underProcessing == [] && CanRead(s)
    && Fetched(s, qualifies, 9) == [] && Reverted(s.ledger, s.stored) == s.stored
  }

  lemma NothingIsAfter()
    ensures After(AFTER, Some(3)) == []
  {
    assert AFTER[1..] == [OTHER_TWO, THREE] && [OTHER_TWO, THREE][1..] == [THREE] && [THREE][1..] == [];
    assert After(AFTER, Some(3)) == After([OTHER_TWO, THREE], Some(3)) == After([THREE], Some(3)) == [];
  }

  lemma EndIsUnnoticed(qualifies: Transaction -> bool)
    ensures Unnoticed(qualifies, END)
  {
    RevertKeepsAll(END);
    NothingIsAfter();
  }

  lemma EndHasLost()
    ensures Lost(END)
  {
    assert END.stored == [ONE, TWO, THREE] && END.ledger == [ONE, OTHER_TWO, THREE];
  }

  lemma RunEnds(qualifies: Transaction -> bool)
    requires All(qualifies)
    ensures Run(qualifies, START, STEPS) == END
  {
    RunIsAt(qualifies);
    assert STEPS[..|STEPS|] == STEPS;
  }

  lemma EndIsLost(qualifies: Transaction -> bool)
    requires All(qualifies)
    ensures Initial(qualifies, START)
    ensures Lost(END) && Unnoticed(qualifies, END)
  {
    StartIsInitial(qualifies);
    EndIsUnnoticed(qualifies);
    EndHasLost();
  }

  /** A run as the source can make it, from an initial state, that loses a transaction for good. */
  lemma ReadingOverLosesTransaction(qualifies: Transaction -> bool)
    requires All(qualifies)
    ensures Initial(qualifies, START)
    ensures Run(qualifies, START, STEPS) == END
    ensures Lost(END) && Unnoticed(qualifies, END)
  {
    RunEnds(qualifies);
    EndIsLost(qualifies);
  }
}
