/** The life of an observer: historical syncs and live processing in turn, each cut off anywhere by a restart. */
module ObserverLifetime {
  import opened Wrappers
  import opened Models
  import O = ObserverProtocol
  import S = SyncProtocol

  /** What outlives a restart, and the ledger as it was last read. */
  datatype Node = Node(ledger: seq<Transaction>, read: seq<Transaction>, stored: seq<Transaction>)

  datatype Phase =
    | Live(liveSteps: seq<O.Step>)
    | Historical(target: nat, syncSteps: seq<S.Step>)

  const NEW_NODE := Node([], [], [])

  function LiveStart(n: Node): O.State {
    var given := set t | t in n.stored;
    O.State(n.ledger, n.read, given, n.stored, [], None, given)
  }

  function SyncStart(block: S.BlockOf, n: Node, target: nat): S.State {
    S.State(n.ledger, n.stored, target, if n.stored == [] then 0 else block(n.stored[|n.stored| - 1]), None)
  }

  /** Historical sync asks the ledger for the block of the last stored transaction, which throws if it has none. */
  predicate CanSync(n: Node) {
    n.stored == [] || n.stored[|n.stored| - 1] in n.ledger
  }

  function After(block: S.BlockOf, qualifies: Transaction -> bool, n: Node, phase: Phase): Node {
    match phase
    case Live(steps) =>
      var s := O.Run(qualifies, LiveStart(n), steps);
      Node(s.ledger, s.read, s.stored)
    case Historical(target, steps) =>
      if CanSync(n) then
        var s := S.Run(block, SyncStart(block, n, target), steps);
        Node(s.ledger, s.ledger, s.stored)
      else n
  }

  function Life(block: S.BlockOf, qualifies: Transaction -> bool, phases: seq<Phase>): Node {
    if phases == [] then NEW_NODE
    else After(block, qualifies, Life(block, qualifies, phases[..|phases| - 1]), phases[|phases| - 1])
  }

  /** What the ledger owes a historical sync, that no qualified transaction is lost in it, and that nothing is read over
      in live processing. */
  predicate GoodPhase(block: S.BlockOf, qualifies: Transaction -> bool, n: Node, phase: Phase) {
    match phase
    case Live(steps) => O.NothingReadOver(qualifies, LiveStart(n), steps)
    case Historical(target, steps) =>
      && S.NothingLost(block, qualifies, SyncStart(block, n, target), steps)
      && S.InBlockOrder(block, n.ledger)
      && (n.stored != [] ==> block(n.stored[|n.stored| - 1]) <= target)
  }

  predicate GoodLife(block: S.BlockOf, qualifies: Transaction -> bool, phases: seq<Phase>) {
    phases != [] ==>
      var before := phases[..|phases| - 1];
      && GoodLife(block, qualifies, before)
      && GoodPhase(block, qualifies, Life(block, qualifies, before), phases[|phases| - 1])
  }

  predicate Sound(qualifies: Transaction -> bool, n: Node) {
    O.Resting(qualifies, n.read, n.stored) && O.Reorganises(n.read, n.ledger)
  }

  lemma LiveKeepsSound(qualifies: Transaction -> bool, n: Node, steps: seq<O.Step>)
    requires Sound(qualifies, n) && O.NothingReadOver(qualifies, LiveStart(n), steps)
    ensures var s := O.Run(qualifies, LiveStart(n), steps); Sound(qualifies, Node(s.ledger, s.read, s.stored))
  {
    O.RunsKeepInvariant(qualifies, LiveStart(n), steps);
  }

  lemma SyncKeepsSound(block: S.BlockOf, qualifies: Transaction -> bool, n: Node, target: nat, steps: seq<S.Step>)
    requires Sound(qualifies, n) && CanSync(n) && GoodPhase(block, qualifies, n, Historical(target, steps))
    ensures var s := S.Run(block, SyncStart(block, n, target), steps);
            Sound(qualifies, Node(s.ledger, s.ledger, s.stored))
  {
    StoredIsStillOn(qualifies, n);
    O.SwitchKeepsResting(qualifies, n.read, n.ledger, n.stored);
    S.RunsKeepInvariant(block, qualifies, SyncStart(block, n, target), steps);
    O.SharedWithItself(S.Run(block, SyncStart(block, n, target), steps).ledger);
  }

  lemma StoredIsStillOn(qualifies: Transaction -> bool, n: Node)
    requires Sound(qualifies, n) && CanSync(n)
    ensures forall t <- n.stored :: t in n.ledger
  {
    O.InitialIsInvariant(qualifies, LiveStart(n));
    O.StoredIsOnLedger(qualifies, LiveStart(n));
  }

  lemma {:induction false} LifeKeepsSound(block: S.BlockOf, qualifies: Transaction -> bool, phases: seq<Phase>)
    requires GoodLife(block, qualifies, phases)
    ensures Sound(qualifies, Life(block, qualifies, phases))
  {
    if phases == [] {
      O.SharedWithItself([]);
    } else {
      var before, phase := phases[..|phases| - 1], phases[|phases| - 1];
      LifeKeepsSound(block, qualifies, before);
      var n := Life(block, qualifies, before);
      match phase
      case Live(steps) => LiveKeepsSound(qualifies, n, steps);
      case Historical(target, steps) =>
        if CanSync(n) {
          SyncKeepsSound(block, qualifies, n, target, steps);
        }
    }
  }

  /** However an observer goes back and forth between historical sync, which stores what does not qualify too, and live
      processing, which skips it, and wherever it is restarted: what is stored was on the ledger when it was last read,
      and no qualified transaction before a stored one is missing. */
  lemma NothingIsEverSkipped(block: S.BlockOf, qualifies: Transaction -> bool, phases: seq<Phase>)
    requires GoodLife(block, qualifies, phases)
    ensures var n := Life(block, qualifies, phases);
            && (forall t <- n.stored :: t in n.read)
            && O.Selected(n.stored, qualifies) <= O.Selected(n.read, qualifies)
            && O.Reorganises(n.read, n.ledger)
  {
    var n := Life(block, qualifies, phases);
    LifeKeepsSound(block, qualifies, phases);
    O.RestingIsPrefix(qualifies, n.read, n.stored);
    forall t | t in n.stored
      ensures t in n.read
    {
      assert t in O.Known(n.read);
    }
  }
}
