/** Historical sync: catching up with the ledger in batches of blocks, with retries. */
module HistoricalSync {
  import opened Wrappers
  import opened Iteration

  datatype Config = Config(batchSize: nat, maxRetries: nat)

  /** The environment: whether the n-th attempt at a batch succeeds, and whether the observer has not been stopped after
      n attempts. */
  datatype World = World(succeeds: nat -> bool, running: nat -> bool)

  /** A batch that was processed, both ends inclusive. */
  datatype Range = Range(from: nat, to: nat)

  // ------------------------------------------------------------ one turn of the loop

  function BatchEnd(config: Config, last: nat, target: nat): nat {
    if last + config.batchSize <= target then last + config.batchSize else target
  }

  /** The first of a number of attempts that succeeds. */
  function FirstSuccess(world: World, attempt: nat, tries: nat): (r: Option<nat>)
    ensures r.None? ==> forall i :: attempt <= i < attempt + tries ==> !world.succeeds(i)
    ensures r.Some? ==> attempt <= r.value < attempt + tries && world.succeeds(r.value)
                        && forall i :: attempt <= i < r.value ==> !world.succeeds(i)
    decreases tries
  {
    if tries == 0 then None
    else if world.succeeds(attempt) then Some(attempt)
    else FirstSuccess(world, attempt + 1, tries - 1)
  }

  /** `lastSynced` and the attempts made so far. */
  datatype Sync = Sync(lastSynced: nat, attempts: nat)

  datatype Turn = Finished | Threw(attempts: nat) | Went(sync: Sync, covered: seq<Range>)

  /** Whether one of the attempts at a batch succeeds, and how many have been made by then. */
  function Attempted(config: Config, world: World, attempts: nat): (bool, nat) {
    var found := FirstSuccess(world, attempts, 1 + config.maxRetries);
    if found.Some? then (true, found.value + 1) else (false, attempts + 1 + config.maxRetries)
  }

  /** With no retries a failed batch is neither retried nor reported; the loop turns to it again. */
  function OneTurn(config: Config, world: World, target: nat, s: Sync): Turn {
    if s.lastSynced >= target || !world.running(s.attempts) then Finished
    else
      var (success, attempts) := Attempted(config, world, s.attempts);
      var end := BatchEnd(config, s.lastSynced, target);
      if success then Went(Sync(end, attempts), [Range(s.lastSynced, end)])
      else if config.maxRetries == 0 then Went(Sync(s.lastSynced, attempts), [])
      else Threw(attempts)
  }

  // ------------------------------------------------------------ the whole loop

  /** What the loop has come to, and whether it has been left. */
  datatype Outcome = Outcome(lastSynced: nat, attempts: nat, covered: seq<Range>, thrown: bool, ended: bool)

  /** The loop, followed for a number of turns. */
  function Synced(config: Config, world: World, target: nat, s: Sync, turns: nat): Outcome
    decreases turns
  {
    if turns == 0 then Outcome(s.lastSynced, s.attempts, [], false, false)
    else
      match OneTurn(config, world, target, s)
      case Finished => Outcome(s.lastSynced, s.attempts, [], false, true)
      case Threw(attempts) => Outcome(s.lastSynced, attempts, [], true, true)
      case Went(next, covered) => Preceded(covered, Synced(config, world, target, next, turns - 1))
  }

  function Preceded(covered: seq<Range>, rest: Outcome): Outcome {
    rest.(covered := covered + rest.covered)
  }

  /** What the loop comes to after what it has come to already, one turn on. */
  lemma OneTurnOn(config: Config, world: World, target: nat, s: Sync, turns: nat, covered: seq<Range>)
    requires turns > 0
    ensures var all := Preceded(covered, Synced(config, world, target, s, turns));
            match OneTurn(config, world, target, s)
            case Finished => all == Outcome(s.lastSynced, s.attempts, covered, false, true)
            case Threw(attempts) => all == Outcome(s.lastSynced, attempts, covered, true, true)
            case Went(next, more) => all == Preceded(covered + more, Synced(config, world, target, next, turns - 1))
  {
    assert covered + [] == covered;
    var turn := OneTurn(config, world, target, s);
    if turn.Went? {
      var rest := Synced(config, world, target, turn.sync, turns - 1);
      assert covered + (turn.covered + rest.covered) == covered + turn.covered + rest.covered;
    }
  }

  class HistoricalSync {
    var lastSyncedBlock: nat
    var targetBlock: nat
    var isComplete: bool
    const config: Config

    constructor (config: Config, lastSyncedBlock: nat, targetBlock: nat)
      ensures this.config == config && this.lastSyncedBlock == lastSyncedBlock && this.targetBlock == targetBlock
      ensures !isComplete
    {
      this.config := config;
      this.lastSyncedBlock := lastSyncedBlock;
      this.targetBlock := targetBlock;
      isComplete := false;
    }

    /** One batch with its retries. */
    method ProcessBatch(world: World, attemptsBefore: nat) returns (success: bool, attempts: nat)
      ensures (success, attempts) == Attempted(config, world, attemptsBefore)
    {
      success := world.succeeds(attemptsBefore);
      attempts := attemptsBefore + 1;
      var retryCount := 0;
      while !success && retryCount < config.maxRetries
        invariant retryCount <= config.maxRetries && attempts == attemptsBefore + 1 + retryCount
        invariant success <==> world.succeeds(attempts - 1)
        invariant forall i :: attemptsBefore <= i < attempts - 1 ==> !world.succeeds(i)
      {
        success := world.succeeds(attempts);
        attempts := attempts + 1;
        retryCount := retryCount + 1;
      }
    }

    /** Processes batches until the target is reached, the observer is stopped, or a batch fails too often. A stopped
        sync counts as complete too. As the loop need not end, it is followed for a number of turns. */
    method PerformHistoricalSync(world: World, turns: nat)
      returns (attempts: nat, covered: seq<Range>, thrown: bool, ended: bool)
      modifies this`lastSyncedBlock, this`isComplete
      ensures Outcome(lastSyncedBlock, attempts, covered, thrown, ended)
              == Synced(config, world, targetBlock, Sync(old(lastSyncedBlock), 0), turns)
      ensures isComplete == (old(isComplete) || (ended && !thrown))
    {
      attempts, covered, thrown, ended := 0, [], false, false;
      ghost var all := Synced(config, world, targetBlock, Sync(lastSyncedBlock, 0), turns);
      var turn := 0;
      while turn < turns && lastSyncedBlock < targetBlock && world.running(attempts)
        invariant turn <= turns && isComplete == old(isComplete) && !thrown && !ended
        invariant all == Preceded(covered, Synced(config, world, targetBlock, Sync(lastSyncedBlock, attempts),
                                                  turns - turn))
      {
        var batchStartBlock := lastSyncedBlock;
        var batchEndBlock := BatchEnd(config, batchStartBlock, targetBlock);
        ghost var before := Sync(batchStartBlock, attempts);
        var success;
        success, attempts := ProcessBatch(world, attempts);
        OneTurnOn(config, world, targetBlock, before, turns - turn, covered);
        if success {
          lastSyncedBlock := batchEndBlock;
          covered := covered + [Range(batchStartBlock, batchEndBlock)];
        } else if config.maxRetries > 0 {
          thrown, ended := true, true;
          return;
        } else {
          assert covered + [] == covered;
        }
        turn := turn + 1;
      }
      if turn < turns {
        OneTurnOn(config, world, targetBlock, Sync(lastSyncedBlock, attempts), turns - turn, covered);
        isComplete, ended := true, true;
      } else {
        assert covered + [] == covered;
      }
    }
  }

  /** One turn, as a step that ends with the loop. */
  function StepOf(config: Config, world: World, target: nat): Sync -> Option<Sync> {
    s => var turn := OneTurn(config, world, target, s); if turn.Went? then Some(turn.sync) else None
  }

  /** The loop has not been left after a number of turns if it can make all of them. */
  lemma {:induction false} SyncedFollowsSteps(config: Config, world: World, target: nat, s: Sync, turns: nat)
    ensures var r, step := Synced(config, world, target, s, turns), StepOf(config, world, target);
            && (r.ended <==> Turns(step, s, turns).None?)
            && (!r.ended ==> Turns(step, s, turns) == Some(Sync(r.lastSynced, r.attempts)))
    decreases turns
  {
    if turns > 0 {
      var turn := OneTurn(config, world, target, s);
      FirstTurn(StepOf(config, world, target), s, turns);
      if turn.Went? {
        SyncedFollowsSteps(config, world, target, turn.sync, turns - 1);
      }
    }
  }

  // ------------------------------------------------------------ how long it takes

  /** How many batches a gap is cut into. */
  function BatchCount(config: Config, gap: nat): nat
    requires config.batchSize >= 1
  {
    if gap == 0 then 0
    else if gap <= config.batchSize then 1
    else 1 + BatchCount(config, gap - config.batchSize)
  }

  /** It is the gap divided by the batch size, rounded up. */
  lemma {:induction false} BatchCountIsCeiling(config: Config, gap: nat)
    requires config.batchSize >= 1
    ensures gap <= BatchCount(config, gap) * config.batchSize
    ensures gap > 0 ==> (BatchCount(config, gap) - 1) * config.batchSize < gap
    decreases gap
  {
    if gap > config.batchSize {
      BatchCountIsCeiling(config, gap - config.batchSize);
      var rest := BatchCount(config, gap - config.batchSize);
      assert (1 + rest) * config.batchSize == config.batchSize + rest * config.batchSize;
      assert rest * config.batchSize == config.batchSize + (rest - 1) * config.batchSize;
    }
  }

  function Gap(target: nat, s: Sync): nat {
    if s.lastSynced <= target then target - s.lastSynced else 0
  }

  /** What is left of a gap after a batch. */
  function Less(config: Config, gap: nat): nat {
    if gap <= config.batchSize then 0 else gap - config.batchSize
  }

  lemma TurnAdvances(config: Config, world: World, target: nat, s: Sync)
    requires config.batchSize >= 1 && config.maxRetries >= 1
    ensures var turn := OneTurn(config, world, target, s);
            && (!turn.Finished? ==> Gap(target, s) > 0)
            && (turn.Threw? ==> turn.attempts - s.attempts == 1 + config.maxRetries)
            && (turn.Went? ==>
                  && Gap(target, turn.sync) == Less(config, Gap(target, s))
                  && turn.sync.attempts - s.attempts <= 1 + config.maxRetries)
  {
  }

  lemma OneMore(batches: nat, m: nat)
    ensures (1 + batches) * m == m + batches * m && 0 <= batches * m
  {
  }

  /** With retries and non-empty batches the sync is left one turn after the batches of the gap at the latest, and makes
      at most 1 + maxRetries attempts for every batch. */
  lemma {:induction false} AttemptsAreBounded(config: Config, world: World, target: nat, s: Sync, turns: nat)
    requires config.batchSize >= 1 && config.maxRetries >= 1
    ensures var r, batches := Synced(config, world, target, s, turns), BatchCount(config, Gap(target, s));
            && r.attempts - s.attempts <= batches * (1 + config.maxRetries)
            && (batches < turns ==> r.ended)
    decreases turns
  {
    var turn, gap := OneTurn(config, world, target, s), Gap(target, s);
    OneMore(BatchCount(config, gap), 1 + config.maxRetries);
    TurnAdvances(config, world, target, s);
    if turns > 0 && !turn.Finished? {
      assert BatchCount(config, gap) == 1 + BatchCount(config, Less(config, gap));
      OneMore(BatchCount(config, Less(config, gap)), 1 + config.maxRetries);
      if turn.Went? {
        AttemptsAreBounded(config, world, target, turn.sync, turns - 1);
      }
    }
  }

  // ------------------------------------------------------------ what is covered

  /** Ranges that follow each other from one block to another, none longer than a batch. */
  predicate Contiguous(config: Config, covered: seq<Range>, from: nat, to: nat) {
    if covered == [] then from == to
    else
      && covered[0].from == from <= covered[0].to <= from + config.batchSize
      && Contiguous(config, covered[1..], covered[0].to, to)
  }

  predicate Covers(covered: seq<Range>, block: nat) {
    exists i :: 0 <= i < |covered| && covered[i].from <= block <= covered[i].to
  }

  /** The last attempts made have all failed. */
  predicate LastFailed(world: World, attempts: nat, n: nat) {
    n <= attempts && forall i :: attempts - n <= i < attempts ==> !world.succeeds(i)
  }

  lemma {:induction false} ContiguousCovers(config: Config, covered: seq<Range>, from: nat, to: nat, block: nat)
    requires Contiguous(config, covered, from, to) && covered != [] && from <= block <= to
    ensures Covers(covered, block)
    decreases |covered|
  {
    if block > covered[0].to {
      assert covered[1..] != [];
      ContiguousCovers(config, covered[1..], covered[0].to, to, block);
      var i :| 0 <= i < |covered[1..]| && covered[1..][i].from <= block <= covered[1..][i].to;
      assert covered[i + 1] == covered[1..][i];
    }
  }

  lemma {:induction false} CoveredIsContiguous(config: Config, world: World, target: nat, s: Sync, turns: nat)
    ensures var r := Synced(config, world, target, s, turns);
            && Contiguous(config, r.covered, s.lastSynced, r.lastSynced)
            && (s.lastSynced <= target ==> r.lastSynced <= target)
            && (r.thrown ==> config.maxRetries >= 1 && LastFailed(world, r.attempts, 1 + config.maxRetries))
            && (r.ended && !r.thrown ==> r.lastSynced >= target || !world.running(r.attempts))
    decreases turns
  {
    if turns > 0 {
      var turn := OneTurn(config, world, target, s);
      if turn.Went? {
        CoveredIsContiguous(config, world, target, turn.sync, turns - 1);
        var rest := Synced(config, world, target, turn.sync, turns - 1);
        assert turn.covered == [] ==> turn.covered + rest.covered == rest.covered;
        assert turn.covered != [] ==> (turn.covered + rest.covered)[1..] == rest.covered;
      }
    }
  }

  /** An exit that is neither a stop nor an exception has processed every block from the start to the target; an
      exception comes after a batch has failed 1 + maxRetries times in a row. */
  lemma NormalExitCoversEverything(config: Config, world: World, target: nat, s: Sync, turns: nat)
    requires s.lastSynced < target && forall n :: world.running(n)
    ensures var r := Synced(config, world, target, s, turns);
            && (r.ended && !r.thrown ==> r.lastSynced == target
                                         && forall block :: s.lastSynced <= block <= target ==> Covers(r.covered, block))
            && (r.thrown ==> LastFailed(world, r.attempts, 1 + config.maxRetries))
  {
    var r := Synced(config, world, target, s, turns);
    CoveredIsContiguous(config, world, target, s, turns);
    if r.ended && !r.thrown {
      forall block | s.lastSynced <= block <= target
        ensures Covers(r.covered, block)
      {
        ContiguousCovers(config, r.covered, s.lastSynced, target, block);
      }
    }
  }

  // ------------------------------------------------------------ when the loop ends

  /** A batch that always fails is tried for ever if there are no retries. */
  lemma {:induction false} FailingBatchIsTriedForEver(config: Config, world: World, target: nat, s: Sync, n: nat)
    requires config.maxRetries == 0 && s.lastSynced < target
    requires (forall i :: !world.succeeds(i)) && forall i :: world.running(i)
    ensures Turns(StepOf(config, world, target), s, n) == Some(Sync(s.lastSynced, s.attempts + n))
  {
    if n > 0 {
      FailingBatchIsTriedForEver(config, world, target, s, n - 1);
      var before := Sync(s.lastSynced, s.attempts + n - 1);
      assert OneTurn(config, world, target, before) == Went(Sync(s.lastSynced, s.attempts + n), []);
    }
  }

  /** Empty batches never reach the target. */
  lemma {:induction false} EmptyBatchesNeverEnd(config: Config, world: World, target: nat, s: Sync, n: nat)
    requires config.batchSize == 0 && s.lastSynced < target
    requires (forall i :: world.succeeds(i)) && forall i :: world.running(i)
    ensures Turns(StepOf(config, world, target), s, n) == Some(Sync(s.lastSynced, s.attempts + n))
  {
    if n > 0 {
      EmptyBatchesNeverEnd(config, world, target, s, n - 1);
      var before := Sync(s.lastSynced, s.attempts + n - 1);
      assert FirstSuccess(world, before.attempts, 1 + config.maxRetries) == Some(before.attempts);
      assert OneTurn(config, world, target, before)
          == Went(Sync(s.lastSynced, s.attempts + n), [Range(s.lastSynced, s.lastSynced)]);
    }
  }

  ghost predicate Ends(config: Config, world: World, target: nat, s: Sync) {
    exists n: nat :: Turns(StepOf(config, world, target), s, n).None?
  }

  /** Below the target the sync ends whatever happens if and only if batches are not empty and failed ones are
      retried. */
  lemma SyncEndsExactly(config: Config, target: nat, s: Sync)
    requires s.lastSynced < target
    ensures (forall world :: Ends(config, world, target, s)) <==> config.batchSize >= 1 && config.maxRetries >= 1
  {
    if config.batchSize >= 1 && config.maxRetries >= 1 {
      forall world
        ensures Ends(config, world, target, s)
      {
        var turns := BatchCount(config, Gap(target, s)) + 1;
        AttemptsAreBounded(config, world, target, s, turns);
        SyncedFollowsSteps(config, world, target, s, turns);
      }
    } else {
      var world := World(_ => config.batchSize == 0, _ => true);
      forall n: nat
        ensures Turns(StepOf(config, world, target), s, n).Some?
      {
        if config.batchSize == 0 {
          EmptyBatchesNeverEnd(config, world, target, s, n);
        } else {
          FailingBatchIsTriedForEver(config, world, target, s, n);
        }
      }
      assert !Ends(config, world, target, s);
    }
  }
}
