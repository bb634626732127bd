/** All runs of historical sync over the transaction store, with crashes and resumptions anywhere. */
module SyncProtocol {
  import opened Wrappers
  import opened Models
  import opened TransactionStore
  import O = ObserverProtocol

  type BlockOf = Transaction -> nat

  /** A batch in progress: the transactions still to be processed, and the last block of the batch. */
  datatype Pending = Pending(transactions: seq<Transaction>, to: nat)

  /** `ledger` and `stored` are persistent. */
  datatype State = State(
    ledger: seq<Transaction>, stored: seq<Transaction>, target: nat, lastSynced: nat, pending: Option<Pending>)

  datatype Phase = Historical(from: nat) | Live

  /** How an observer starts: from nothing, from the block of the last stored transaction, or straight to live
      processing if the gap is no longer than a batch. */
  function StartingPhase(block: BlockOf, batchSize: nat, target: nat, stored: seq<Transaction>): Phase {
    if stored == [] then Historical(0)
    else
      var last := block(stored[|stored| - 1]);
      if target - last > batchSize then Historical(last) else Live
  }

  datatype Step =
    | Grow(transaction: Transaction)               // a new block after the target
    | BeginBatch(to: nat)                          // the blocks from `lastSynced` to `to` are read
    | ProcessNext                                  // one transaction of the batch is processed and stored
    | LoseNext                                     // processing or storing it throws, and the loop goes on after it
    | FinishBatch
    | Resume(batchSize: nat, target: nat)          // a crash, and a new start with a target that is not lower

  function InRange(block: BlockOf, from: nat, to: nat): Transaction -> bool {
    t => from <= block(t) <= to
  }

  predicate MayGrow(block: BlockOf, s: State, t: Transaction) {
    && s.target < block(t)
    && (s.ledger != [] ==>
          var last := s.ledger[|s.ledger| - 1];
          last.transactionNumber < t.transactionNumber && block(last) <= block(t))
  }

  /** A step that is not enabled changes nothing. */
  function Next(block: BlockOf, s: State, step: Step): State {
    match step
    case Grow(t) =>
      if MayGrow(block, s, t) then s.(ledger := s.ledger + [t]) else s
    case BeginBatch(to) =>
      if s.pending.None? && s.lastSynced <= to <= s.target then
        s.(pending := Some(Pending(O.Selected(s.ledger, InRange(block, s.lastSynced, to)), to)))
      else s
    case ProcessNext =>
      if s.pending.Some? && s.pending.value.transactions != [] then
        var p := s.pending.value;
        s.(stored := Inserted(s.stored, p.transactions[0]), pending := Some(Pending(p.transactions[1..], p.to)))
      else s
    case LoseNext =>
      if s.pending.Some? && s.pending.value.transactions != [] then
        s.(pending := Some(Pending(s.pending.value.transactions[1..], s.pending.value.to)))
      else s
    case FinishBatch =>
      if s.pending.Some? && s.pending.value.transactions == [] then
        s.(lastSynced := s.pending.value.to, pending := None)
      else s
    case Resume(batchSize, target) =>
      if target < s.target then s
      else
        match StartingPhase(block, batchSize, target, s.stored)
        case Historical(from) => s.(target := target, lastSynced := from, pending := None)
        case Live => s.(pending := None)
  }

  function Run(block: BlockOf, start: State, steps: seq<Step>): State {
    if steps == [] then start else Next(block, Run(block, start, steps[..|steps| - 1]), steps[|steps| - 1])
  }

  /** Blocks come in the order of transaction numbers. */
  predicate InBlockOrder(block: BlockOf, ledger: seq<Transaction>) {
    Increasing(ledger) && forall i, j :: 0 <= i < j < |ledger| ==> block(ledger[i]) <= block(ledger[j])
  }

  /** A start on a store that may hold transactions already: whatever is in it is on the ledger, and no qualified
      transaction before a stored one is missing. */
  predicate Initial(block: BlockOf, qualifies: Transaction -> bool, s: State) {
    && InBlockOrder(block, s.ledger) && O.Resting(qualifies, s.ledger, s.stored)
    && s.lastSynced == (if s.stored == [] then 0 else block(s.stored[|s.stored| - 1])) <= s.target
    && s.pending.None?
  }

  predicate SyncedBelow(block: BlockOf, qualifies: Transaction -> bool, s: State) {
    forall u <- O.Required(qualifies, s.ledger) :: block(u) < s.lastSynced ==> u in s.stored
  }

  predicate PendingIsCovered(block: BlockOf, qualifies: Transaction -> bool, s: State, p: Pending) {
    && O.Covered(O.Known(s.ledger), O.Required(qualifies, s.ledger), s.stored, p.transactions)
    && s.lastSynced <= p.to <= s.target
    && Increasing(p.transactions) && (forall t <- p.transactions :: block(t) <= p.to)
    && forall u <- O.Required(qualifies, s.ledger) :: block(u) <= p.to ==> u in s.stored || u in p.transactions
  }

  predicate Invariant(block: BlockOf, qualifies: Transaction -> bool, s: State) {
    && InBlockOrder(block, s.ledger) && O.Resting(qualifies, s.ledger, s.stored)
    && SyncedBelow(block, qualifies, s) && s.lastSynced <= s.target
    && (s.pending.Some? ==> PendingIsCovered(block, qualifies, s, s.pending.value))
  }

  lemma BlocksInOrder(block: BlockOf, ledger: seq<Transaction>, t: Transaction, u: Transaction)
    requires InBlockOrder(block, ledger) && t in ledger && u in ledger
    ensures u.transactionNumber <= t.transactionNumber ==> block(u) <= block(t)
    ensures block(u) < block(t) ==> u.transactionNumber < t.transactionNumber
  {
  }

  lemma BlockOrderGrows(block: BlockOf, s: State, t: Transaction)
    requires InBlockOrder(block, s.ledger) && MayGrow(block, s, t)
    ensures InBlockOrder(block, s.ledger + [t])
    ensures forall u <- s.ledger :: u.transactionNumber < t.transactionNumber
  {
    if s.ledger != [] {
      var last := s.ledger[|s.ledger| - 1];
      assert forall i :: 0 <= i < |s.ledger| - 1 ==> s.ledger[i].transactionNumber < last.transactionNumber;
    }
  }

  lemma RestingGrows(qualifies: Transaction -> bool, ledger: seq<Transaction>, stored: seq<Transaction>,
                     listed: seq<Transaction>, t: Transaction)
    requires O.Resting(qualifies, ledger, stored) && Increasing(ledger + [t])
    requires O.Covered(O.Known(ledger), O.Required(qualifies, ledger), stored, listed)
    requires forall u <- ledger :: u.transactionNumber < t.transactionNumber
    ensures O.Resting(qualifies, ledger + [t], stored)
    ensures O.Covered(O.Known(ledger + [t]), O.Required(qualifies, ledger + [t]), stored, listed)
  {
    var required := O.Required(qualifies, ledger + [t]);
    assert forall u <- required :: u in O.Required(qualifies, ledger) || u == t;
    forall j | 0 <= j < |listed|
      ensures listed[j] in O.Known(ledger + [t]) && O.Preceded(required, stored, listed[..j], listed[j])
    {
      assert listed[j] in O.Known(ledger);
      assert O.Preceded(O.Required(qualifies, ledger), stored, listed[..j], listed[j]);
    }
  }

  lemma GrowKeepsInvariant(block: BlockOf, qualifies: Transaction -> bool, s: State, t: Transaction)
    requires Invariant(block, qualifies, s) && MayGrow(block, s, t)
    ensures Invariant(block, qualifies, s.(ledger := s.ledger + [t]))
  {
    BlockOrderGrows(block, s, t);
    RestingGrows(qualifies, s.ledger, s.stored, if s.pending.Some? then s.pending.value.transactions else [], t);
    assert forall u <- O.Required(qualifies, s.ledger + [t]) :: u in O.Required(qualifies, s.ledger) || u == t;
  }

  lemma BeginKeepsInvariant(block: BlockOf, qualifies: Transaction -> bool, s: State, to: nat)
    requires Invariant(block, qualifies, s) && s.lastSynced <= to <= s.target
    ensures var p := O.Selected(s.ledger, InRange(block, s.lastSynced, to));
            Invariant(block, qualifies, s.(pending := Some(Pending(p, to))))
  {
    var p, required := O.Selected(s.ledger, InRange(block, s.lastSynced, to)), O.Required(qualifies, s.ledger);
    forall j | 0 <= j < |p|
      ensures p[j] in O.Known(s.ledger) && O.Preceded(required, s.stored, p[..j], p[j])
    {
      assert p[j] in p;
      forall u | u in required && u.transactionNumber < p[j].transactionNumber
        ensures u in s.stored || u in p[..j]
      {
        BlocksInOrder(block, s.ledger, p[j], u);
        if u !in s.stored {
          assert u in p;
          O.InFrontOf(p, j, u);
        }
      }
    }
  }

  lemma NextPendingIsStored(
    known: set<Transaction>, required: set<Transaction>, stored: seq<Transaction>, pending: seq<Transaction>)
    requires O.Closed(known, required, stored) && O.DistinctNumbers(known) && required <= known
    requires O.Covered(known, required, stored, pending) && pending != []
    ensures var more := Inserted(stored, pending[0]);
            && O.Closed(known, required, more)
            && O.Covered(known, required, more, pending[1..])
            && pending[0] in more && forall u <- stored :: u in more
  {
    assert pending[..0] == [];
    assert O.Preceded(required, stored, pending[..0], pending[0]);
    O.ClosedInserts(known, required, stored, pending[0]);
    O.CoveredByMore(known, required, stored, Inserted(stored, pending[0]), pending);
    O.CoveredTrims(known, required, Inserted(stored, pending[0]), pending, 1);
  }

  lemma ProcessKeepsInvariant(block: BlockOf, qualifies: Transaction -> bool, s: State, next: State)
    requires Invariant(block, qualifies, s) && s.pending.Some? && s.pending.value.transactions != []
    requires var p := s.pending.value;
             next == s.(stored := Inserted(s.stored, p.transactions[0]),
                        pending := Some(Pending(p.transactions[1..], p.to)))
    ensures Invariant(block, qualifies, next)
  {
    var p, to, more := s.pending.value.transactions, s.pending.value.to, next.stored;
    O.LedgerIsDistinct(s.ledger);
    NextPendingIsStored(O.Known(s.ledger), O.Required(qualifies, s.ledger), s.stored, p);
    forall u | u in O.Required(qualifies, s.ledger) && block(u) <= to
      ensures u in more || u in p[1..]
    {
      assert u in s.stored || u in p;
      assert p == [p[0]] + p[1..];
    }
    assert next.pending.value == Pending(p[1..], to);
  }

  lemma CoveredWithoutFirst(
    known: set<Transaction>, required: set<Transaction>, stored: seq<Transaction>, pending: seq<Transaction>)
    requires O.Covered(known, required, stored, pending) && pending != []
    requires pending[0] in required ==> pending[0] in stored
    ensures O.Covered(known, required, stored, pending[1..])
  {
    var rest := pending[1..];
    forall j | 0 <= j < |rest|
      ensures rest[j] in known && O.Preceded(required, stored, rest[..j], rest[j])
    {
      assert O.Preceded(required, stored, pending[..j + 1], pending[j + 1]);
      assert pending[..j + 1] == [pending[0]] + rest[..j];
    }
  }

  /** The next transaction of the batch does not qualify or is stored already. */
  predicate Harmless(qualifies: Transaction -> bool, s: State) {
    s.pending.Some? && s.pending.value.transactions != [] && qualifies(s.pending.value.transactions[0]) ==>
      s.pending.value.transactions[0] in s.stored
  }

  /** A harmless loss is not noticed. */
  lemma LosingKeepsInvariant(block: BlockOf, qualifies: Transaction -> bool, s: State)
    requires Invariant(block, qualifies, s) && Harmless(qualifies, s)
    ensures Invariant(block, qualifies, Next(block, s, LoseNext))
  {
    if s.pending.Some? && s.pending.value.transactions != [] {
      var p := s.pending.value.transactions;
      assert p == [p[0]] + p[1..];
      CoveredWithoutFirst(O.Known(s.ledger), O.Required(qualifies, s.ledger), s.stored, p);
    }
  }

  /** Along a run, no qualified transaction is lost. */
  predicate NothingLost(block: BlockOf, qualifies: Transaction -> bool, start: State, steps: seq<Step>) {
    steps != [] ==>
      var s := Run(block, start, steps[..|steps| - 1]);
      && NothingLost(block, qualifies, start, steps[..|steps| - 1])
      && (steps[|steps| - 1].LoseNext? ==> Harmless(qualifies, s))
  }

  /** Starting from the block of the last stored transaction: whatever qualifies in an earlier block is stored. */
  lemma StartKeepsInvariant(block: BlockOf, qualifies: Transaction -> bool, s: State)
    requires Initial(block, qualifies, s)
    ensures Invariant(block, qualifies, s)
  {
    if s.stored != [] {
      var last := s.stored[|s.stored| - 1];
      assert last in s.stored && last in O.Known(s.ledger);
      forall u | u in O.Required(qualifies, s.ledger) && block(u) < block(last)
        ensures u in s.stored
      {
        BlocksInOrder(block, s.ledger, last, u);
      }
    }
  }

  lemma StepKeepsInvariant(block: BlockOf, qualifies: Transaction -> bool, s: State, step: Step)
    requires Invariant(block, qualifies, s) && (step.LoseNext? ==> Harmless(qualifies, s))
    ensures Invariant(block, qualifies, Next(block, s, step))
  {
    var next := Next(block, s, step);
    if next != s {
      match step
      case Grow(t) => GrowKeepsInvariant(block, qualifies, s, t);
      case BeginBatch(to) => BeginKeepsInvariant(block, qualifies, s, to);
      case ProcessNext => ProcessKeepsInvariant(block, qualifies, s, next);
      case LoseNext => LosingKeepsInvariant(block, qualifies, s);
      case FinishBatch =>
      case Resume(batchSize, target) =>
        if StartingPhase(block, batchSize, target, s.stored).Historical? {
          StartKeepsInvariant(block, qualifies, next);
        }
    }
  }

  lemma {:induction false} RunsKeepInvariant(
    block: BlockOf, qualifies: Transaction -> bool, start: State, steps: seq<Step>)
    requires Initial(block, qualifies, start) && NothingLost(block, qualifies, start, steps)
    ensures Invariant(block, qualifies, Run(block, start, steps))
  {
    if steps == [] {
      StartKeepsInvariant(block, qualifies, start);
    } else {
      RunsKeepInvariant(block, qualifies, start, steps[..|steps| - 1]);
      StepKeepsInvariant(block, qualifies, Run(block, start, steps[..|steps| - 1]), steps[|steps| - 1]);
    }
  }

  /** After every such run, with crashes in the middle of batches and resumptions at the block of the last stored
      transaction, the qualified part of the store is a beginning of the qualified ledger without a gap. */
  lemma NothingIsSkipped(block: BlockOf, qualifies: Transaction -> bool, start: State, steps: seq<Step>)
    requires Initial(block, qualifies, start) && NothingLost(block, qualifies, start, steps)
    ensures var s := Run(block, start, steps);
            && (forall t <- s.stored :: t in s.ledger)
            && O.Selected(s.stored, qualifies) <= O.Selected(s.ledger, qualifies)
  {
    var s := Run(block, start, steps);
    RunsKeepInvariant(block, qualifies, start, steps);
    O.RestingIsPrefix(qualifies, s.ledger, s.stored);
    forall t | t in s.stored
      ensures t in s.ledger
    {
      assert t in O.Known(s.ledger);
    }
  }

  lemma {:induction false} SelectsAll(qualifies: Transaction -> bool, transactions: seq<Transaction>)
    requires forall t <- transactions :: qualifies(t)
    ensures O.Selected(transactions, qualifies) == transactions
  {
    if transactions != [] {
      var n := |transactions| - 1;
      assert transactions == transactions[..n] + [transactions[n]];
      SelectsAll(qualifies, transactions[..n]);
    }
  }

  /** Started on an empty store, historical sync stores a beginning of the ledger, qualified or not. */
  lemma StartedEmptyStoresPrefix(block: BlockOf, start: State, steps: seq<Step>)
    requires Initial(block, _ => true, start) && NothingLost(block, _ => true, start, steps)
    ensures Run(block, start, steps).stored <= Run(block, start, steps).ledger
  {
    NothingIsSkipped(block, _ => true, start, steps);
    SelectsAll(_ => true, Run(block, start, steps).stored);
    SelectsAll(_ => true, Run(block, start, steps).ledger);
  }

  /** When a batch is finished, everything qualified up to its last block is stored. */
  lemma FinishedBatchIsStored(block: BlockOf, qualifies: Transaction -> bool, start: State, steps: seq<Step>)
    requires Initial(block, qualifies, start) && NothingLost(block, qualifies, start, steps)
    requires Run(block, start, steps).pending.Some? && Run(block, start, steps).pending.value.transactions == []
    ensures var s := Run(block, start, steps + [FinishBatch]);
            && s.lastSynced == Run(block, start, steps).pending.value.to
            && forall t <- s.ledger :: qualifies(t) && block(t) <= s.lastSynced ==> t in s.stored
  {
    var s := Run(block, start, steps);
    RunsKeepInvariant(block, qualifies, start, steps);
    assert (steps + [FinishBatch])[..|steps|] == steps;
    forall t | t in s.ledger && qualifies(t) && block(t) <= s.pending.value.to
      ensures t in s.stored
    {
      assert t in O.Required(qualifies, s.ledger);
    }
  }
}
