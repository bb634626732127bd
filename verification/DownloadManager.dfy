/** Downloads from the content store, a limited number at a time. */
module DownloadManager {
  import opened Wrappers
  import opened Models
  import opened ArrayMethods

  type Handle = nat

  // ------------------------------------------------------------ the lists of a download manager

  /** A download that is active has a result once it is completed. */
  datatype Lists = Lists(
    pending: seq<Handle>, active: map<Handle, Option<FetchResult>>, completed: map<Handle, FetchResult>)

  function Running(active: map<Handle, Option<FetchResult>>): map<Handle, Option<FetchResult>> {
    map h | h in active && active[h].None? :: active[h]
  }

  function Results(active: map<Handle, Option<FetchResult>>): map<Handle, FetchResult> {
    map h | h in active && active[h].Some? :: active[h].value
  }

  function Starting(active: map<Handle, Option<FetchResult>>, handles: seq<Handle>): map<Handle, Option<FetchResult>> {
    if handles == [] then active
    else Starting(active, handles[..|handles| - 1])[handles[|handles| - 1] := None]
  }

  /** How many of a number of pending downloads the free lanes take. */
  function Taken(available: int, pending: nat): (k: nat)
    ensures k <= pending
  {
    if available <= 0 then 0 else if available <= pending then available else pending
  }

  /** The results of completed downloads are filed. */
  function Filed(lists: Lists): Lists {
    Lists(lists.pending, Running(lists.active), lists.completed + Results(lists.active))
  }

  /** The first pending downloads become active. */
  function Started(available: int, lists: Lists): Lists {
    var k := Taken(available, |lists.pending|);
    Lists(lists.pending[k..], Starting(lists.active, lists.pending[..k]), lists.completed)
  }

  function StartCount(lanes: int, lists: Lists): (k: nat)
    ensures k <= |lists.pending|
  {
    Taken(lanes - |Running(lists.active)|, |lists.pending|)
  }

  /** One turn of the monitoring loop. */
  function Turn(lanes: int, lists: Lists): Lists {
    Started(lanes - |Running(lists.active)|, Filed(lists))
  }

  lemma NothingStarts(available: int, lists: Lists)
    requires available <= 0 || lists.pending == []
    ensures Started(available, lists) == lists
  {
    assert lists.pending[..0] == [] && lists.pending[0..] == lists.pending;
  }

  // ------------------------------------------------------------ all runs

  /** `requested` and `started` are in order of time; `results` is what the store returned for each download, and
      `delivered` what each caller got. */
  datatype State = State(
    lists: Lists, requested: seq<Handle>, started: seq<Handle>, results: map<Handle, FetchResult>,
    delivered: map<Handle, FetchResult>)

  const INITIAL := State(Lists([], map[], map[]), [], [], map[], map[])

  datatype Step =
    | Download(handle: Handle)                       // a caller asks for a download, under a new handle
    | Monitor                                        // a turn of the monitoring loop
    | Complete(handle: Handle, result: FetchResult)  // the store answers, or fails
    | Deliver(handle: Handle)                        // a caller whose download was resolved takes its result

  /** A step that is not enabled changes nothing. */
  function Next(lanes: int, s: State, step: Step): State {
    match step
    case Download(h) =>
      if h in s.requested then s
      else s.(lists := s.lists.(pending := s.lists.pending + [h]), requested := s.requested + [h])
    case Monitor =>
      s.(lists := Turn(lanes, s.lists), started := s.started + s.lists.pending[..StartCount(lanes, s.lists)])
    case Complete(h, result) =>
      if h in s.lists.active && s.lists.active[h].None? then
        s.(lists := s.lists.(active := s.lists.active[h := Some(result)]), results := s.results[h := result])
      else s
    case Deliver(h) =>
      if h in s.lists.completed then
        s.(lists := s.lists.(completed := s.lists.completed - {h}), delivered := s.delivered[h := s.lists.completed[h]])
      else s
  }

  function Run(lanes: int, steps: seq<Step>): State {
    if steps == [] then INITIAL else Next(lanes, Run(lanes, steps[..|steps| - 1]), steps[|steps| - 1])
  }

  /** A started download is in one of three places, and whatever result there is, is its own. */
  predicate Placed(lists: Lists, delivered: map<Handle, FetchResult>, result: Option<FetchResult>, h: Handle) {
    if h in lists.active then h !in lists.completed && h !in delivered && lists.active[h] == result
    else if h in lists.completed then h !in delivered && result == Some(lists.completed[h])
    else h in delivered && result == Some(delivered[h])
  }

  predicate Absent(lists: Lists, delivered: map<Handle, FetchResult>, result: Option<FetchResult>, h: Handle) {
    h !in lists.active && h !in lists.completed && h !in delivered && result.None?
  }

  function ResultOf(results: map<Handle, FetchResult>, h: Handle): Option<FetchResult> {
    if h in results then Some(results[h]) else None
  }

  predicate InPlace(s: State, h: Handle) {
    if h in s.started then Placed(s.lists, s.delivered, ResultOf(s.results, h), h)
    else Absent(s.lists, s.delivered, ResultOf(s.results, h), h)
  }

  ghost predicate Invariant(lanes: int, s: State) {
    && NoDuplicates(s.requested)
    && s.requested == s.started + s.lists.pending
    && (forall h :: InPlace(s, h))
    && |s.lists.active| <= if lanes > 0 then lanes else 0
  }

  // ------------------------------------------------------------ what a turn does

  lemma {:induction false} SubsetIsNoLarger(a: set<Handle>, b: set<Handle>)
    requires a <= b
    ensures |a| <= |b|
  {
    if a != {} {
      var h :| h in a;
      SubsetIsNoLarger(a - {h}, b - {h});
    }
  }

  lemma {:induction false} StartingAdds(active: map<Handle, Option<FetchResult>>, handles: seq<Handle>)
    ensures var r := Starting(active, handles);
            && (forall h :: h in r <==> h in active || h in handles)
            && (forall h <- r :: r[h] == if h in handles then None else active[h])
            && |r| <= |active| + |handles|
  {
    if handles != [] {
      var n := |handles| - 1;
      StartingAdds(active, handles[..n]);
      assert handles == handles[..n] + [handles[n]];
    }
  }

  /** A turn never has more than the allowed number of downloads active. */
  lemma TurnKeepsLanes(lanes: int, lists: Lists)
    requires |lists.active| <= if lanes > 0 then lanes else 0
    ensures |Turn(lanes, lists).active| <= if lanes > 0 then lanes else 0
  {
    var running, k := Running(lists.active), StartCount(lanes, lists);
    assert running.Keys <= lists.active.Keys;
    SubsetIsNoLarger(running.Keys, lists.active.Keys);
    assert |running| == |running.Keys| && |lists.active| == |lists.active.Keys|;
    StartingAdds(running, lists.pending[..k]);
  }

  lemma PendingIsNotStarted(s: State, h: Handle)
    requires NoDuplicates(s.requested) && s.requested == s.started + s.lists.pending
    ensures h in s.lists.pending ==> h !in s.started
  {
    if h in s.lists.pending {
      var j :| 0 <= j < |s.lists.pending| && s.lists.pending[j] == h;
      assert s.requested[|s.started| + j] == h;
      forall i | 0 <= i < |s.started|
        ensures s.started[i] != h
      {
        assert s.requested[i] == s.started[i];
      }
    }
  }

  lemma MonitorKeepsPlace(lanes: int, s: State, h: Handle)
    requires Invariant(lanes, s)
    ensures InPlace(Next(lanes, s, Monitor), h)
  {
    var k := StartCount(lanes, s.lists);
    var starting := s.lists.pending[..k];
    assert Turn(lanes, s.lists) == Lists(s.lists.pending[k..], Starting(Running(s.lists.active), starting),
                                         s.lists.completed + Results(s.lists.active));
    StartingAdds(Running(s.lists.active), starting);
    PendingIsNotStarted(s, h);
    assert InPlace(s, h);
    assert h in starting ==> h in s.lists.pending;
  }

  lemma MonitorKeepsInvariant(lanes: int, s: State)
    requires Invariant(lanes, s)
    ensures Invariant(lanes, Next(lanes, s, Monitor))
  {
    var k := StartCount(lanes, s.lists);
    TurnKeepsLanes(lanes, s.lists);
    assert s.lists.pending == s.lists.pending[..k] + s.lists.pending[k..];
    assert s.started + (s.lists.pending[..k] + s.lists.pending[k..])
        == (s.started + s.lists.pending[..k]) + s.lists.pending[k..];
    forall h
      ensures InPlace(Next(lanes, s, Monitor), h)
    {
      MonitorKeepsPlace(lanes, s, h);
    }
  }

  lemma OtherStepsKeepInvariant(lanes: int, s: State, step: Step)
    requires Invariant(lanes, s) && step != Monitor
    ensures Invariant(lanes, Next(lanes, s, step))
  {
    var next := Next(lanes, s, step);
    if step.Download? && next != s {
      assert next.requested == s.started + next.lists.pending;
    }
    forall h
      ensures InPlace(next, h)
    {
      assert InPlace(s, h);
      if step.Complete? || step.Deliver? {
        assert InPlace(s, step.handle);
      }
    }
  }

  lemma {:induction false} RunsKeepInvariant(lanes: int, steps: seq<Step>)
    ensures Invariant(lanes, Run(lanes, steps))
  {
    if steps != [] {
      RunsKeepInvariant(lanes, steps[..|steps| - 1]);
      var s := Run(lanes, steps[..|steps| - 1]);
      match steps[|steps| - 1]
      case Monitor => MonitorKeepsInvariant(lanes, s);
      case step => OtherStepsKeepInvariant(lanes, s, step);
    }
  }

  /** In how many of the four places a download is. */
  function Places(s: State, h: Handle): nat {
    (if h in s.lists.pending then 1 else 0) + (if h in s.lists.active then 1 else 0)
    + (if h in s.lists.completed then 1 else 0) + (if h in s.delivered then 1 else 0)
  }

  /** After every run: every download asked for is in exactly one place, and no other is in any; downloads are started
      in the order they were asked for; no more are active than there are lanes; and a caller gets what the store
      returned for its own download. */
  lemma DownloadsAreConserved(lanes: int, steps: seq<Step>)
    ensures var s := Run(lanes, steps);
            && (forall h :: Places(s, h) == if h in s.requested then 1 else 0)
            && s.requested == s.started + s.lists.pending
            && |s.lists.active| <= (if lanes > 0 then lanes else 0)
            && (forall h <- s.delivered :: h in s.results && s.delivered[h] == s.results[h])
  {
    var s := Run(lanes, steps);
    RunsKeepInvariant(lanes, steps);
    forall h
      ensures Places(s, h) == if h in s.requested then 1 else 0
    {
      PendingIsNotStarted(s, h);
      assert InPlace(s, h);
    }
    forall h | h in s.delivered
      ensures h in s.results && s.delivered[h] == s.results[h]
    {
      assert InPlace(s, h);
    }
  }

  predicate Extends(a: map<Handle, FetchResult>, b: map<Handle, FetchResult>, h: Handle) {
    h in a ==> h in b && b[h] == a[h]
  }

  lemma StepIsFinal(lanes: int, s: State, step: Step, h: Handle)
    requires Invariant(lanes, s)
    ensures Extends(s.results, Next(lanes, s, step).results, h)
    ensures Extends(s.delivered, Next(lanes, s, step).delivered, h)
  {
    assert InPlace(s, h);
  }

  /** A result, once recorded, is never replaced, and a delivery never taken back. */
  lemma {:induction false} ResultsAreFinal(lanes: int, steps: seq<Step>, more: seq<Step>, h: Handle)
    ensures Extends(Run(lanes, steps).results, Run(lanes, steps + more).results, h)
    ensures Extends(Run(lanes, steps).delivered, Run(lanes, steps + more).delivered, h)
  {
    if more == [] {
      assert steps + more == steps;
    } else {
      var n := |more| - 1;
      ResultsAreFinal(lanes, steps, more[..n], h);
      assert (steps + more)[..|steps + more| - 1] == steps + more[..n];
      RunsKeepInvariant(lanes, steps + more[..n]);
      StepIsFinal(lanes, Run(lanes, steps + more[..n]), more[n], h);
    }
  }

  // ------------------------------------------------------------ nothing waits for a free lane

  lemma {:induction false} StartingAddsAll(active: map<Handle, Option<FetchResult>>, handles: seq<Handle>)
    requires NoDuplicates(handles) && forall h <- handles :: h !in active
    ensures |Starting(active, handles)| == |active| + |handles|
  {
    if handles != [] {
      var n := |handles| - 1;
      StartingAddsAll(active, handles[..n]);
      StartingAdds(active, handles[..n]);
      assert handles[n] !in handles[..n];
    }
  }

  lemma PendingIsDistinct(lanes: int, s: State)
    requires Invariant(lanes, s)
    ensures NoDuplicates(s.lists.pending) && forall h <- s.lists.pending :: h !in s.lists.active
  {
    var start := |s.started|;
    forall i, j | 0 <= i < j < |s.lists.pending|
      ensures s.lists.pending[i] != s.lists.pending[j]
    {
      assert s.requested[start + i] == s.lists.pending[i] && s.requested[start + j] == s.lists.pending[j];
    }
    forall h | h in s.lists.pending
      ensures h !in s.lists.active
    {
      PendingIsNotStarted(s, h);
      assert InPlace(s, h);
    }
  }

  lemma LanesAreTaken(lanes: int, lists: Lists)
    requires NoDuplicates(lists.pending) && forall h <- lists.pending :: h !in lists.active
    ensures var r := Turn(lanes, lists);
            (r.pending == [] || |r.active| >= lanes) && forall h <- r.active :: r.active[h].None?
  {
    var running, starting := Running(lists.active), lists.pending[..StartCount(lanes, lists)];
    assert forall h <- starting :: h in lists.pending;
    StartingAdds(running, starting);
    StartingAddsAll(running, starting);
  }

  lemma ResultsAreFiled(lanes: int, s: State, h: Handle)
    requires Invariant(lanes, s)
    ensures var r := Turn(lanes, s.lists).completed;
            && (h in s.lists.active && s.lists.active[h].Some? ==> h in r && r[h] == s.lists.active[h].value)
            && (h in s.lists.completed ==> h in r && r[h] == s.lists.completed[h])
  {
    assert InPlace(s, h);
  }

  /** After a turn in any run no download waits while a lane is free, whatever was completed is filed for its caller,
      and what was filed before is still there. */
  lemma TurnLeavesNothingIdle(lanes: int, s: State)
    requires Invariant(lanes, s)
    ensures var r := Next(lanes, s, Monitor).lists;
            && (r.pending == [] || |r.active| >= lanes)
            && (forall h <- r.active :: r.active[h].None?)
            && (forall h <- s.lists.active :: s.lists.active[h].Some? ==>
                  h in r.completed && r.completed[h] == s.lists.active[h].value)
            && (forall h <- s.lists.completed :: h in r.completed && r.completed[h] == s.lists.completed[h])
  {
    PendingIsDistinct(lanes, s);
    LanesAreTaken(lanes, s.lists);
    forall h {
      ResultsAreFiled(lanes, s, h);
    }
  }

  // ------------------------------------------------------------ the download manager

  class DownloadInfo {
    const handle: Handle
    const contentHash: string
    const maxSizeInBytes: nat
    var completed: bool
    var fetchResult: FetchResult

    constructor (handle: Handle, contentHash: string, maxSizeInBytes: nat)
      ensures this.handle == handle && this.contentHash == contentHash && this.maxSizeInBytes == maxSizeInBytes
      ensures !completed
    {
      this.handle := handle;
      this.contentHash := contentHash;
      this.maxSizeInBytes := maxSizeInBytes;
      completed := false;
      fetchResult := NotReachable;
    }

    /** An exception of the store counts as "not reachable"; the download is completed in any case. */
    method DownloadAsync(answer: Option<FetchResult>)
      modifies this
      ensures completed && fetchResult == if answer.Some? then answer.value else NotReachable
    {
      fetchResult := if answer.Some? then answer.value else NotReachable;
      completed := true;
    }
  }

  function HandlesOf(downloads: seq<DownloadInfo>): seq<Handle> {
    seq(|downloads|, i requires 0 <= i < |downloads| => downloads[i].handle)
  }

  /** Active downloads as values. */
  ghost function ActiveView(active: map<Handle, DownloadInfo>): map<Handle, Option<FetchResult>>
    reads active.Values
  {
    map h | h in active :: if active[h].completed then Some(active[h].fetchResult) else None
  }

  lemma ViewAdds(active: map<Handle, DownloadInfo>, h: Handle, d: DownloadInfo)
    requires !d.completed
    ensures ActiveView(active[h := d]) == ActiveView(active)[h := None]
  {
  }

  lemma ViewKeepsRunning(active: map<Handle, DownloadInfo>, done: set<Handle>)
    requires done == Results(ActiveView(active)).Keys
    ensures ActiveView(active - done) == Running(ActiveView(active))
    ensures |Running(ActiveView(active))| == |active - done|
  {
    assert ActiveView(active - done) == Running(ActiveView(active));
    assert ActiveView(active - done).Keys == (active - done).Keys;
  }

  class DownloadManager {
    const maxConcurrentDownloads: int
    var pendingDownloads: seq<DownloadInfo>
    var activeDownloads: map<Handle, DownloadInfo>
    var completedDownloads: map<Handle, FetchResult>

    /** What waits is not completed. */
    ghost predicate Valid()
      reads this, pendingDownloads
    {
      forall d <- pendingDownloads :: !d.completed
    }

    ghost function View(): Lists
      reads this, activeDownloads.Values
    {
      Lists(HandlesOf(pendingDownloads), ActiveView(activeDownloads), completedDownloads)
    }

    constructor (maxConcurrentDownloads: int)
      ensures Valid() && this.maxConcurrentDownloads == maxConcurrentDownloads
      ensures View() == Lists([], map[], map[])
    {
      this.maxConcurrentDownloads := maxConcurrentDownloads;
      pendingDownloads, activeDownloads, completedDownloads := [], map[], map[];
    }

    /** Files the results of completed downloads where their callers take them from. */
    method FileResults() returns (completedDownloadHandles: set<Handle>)
      modifies this`completedDownloads
      ensures completedDownloadHandles == Results(ActiveView(activeDownloads)).Keys
      ensures completedDownloads == old(completedDownloads) + Results(ActiveView(activeDownloads))
    {
      ghost var view, results := ActiveView(activeDownloads), completedDownloads;
      var handles := activeDownloads.Keys;
      completedDownloadHandles := {};
      while handles != {}
        invariant handles <= view.Keys && view == ActiveView(activeDownloads)
        invariant forall h :: h in completedDownloadHandles <==> h in view && h !in handles && view[h].Some?
        invariant completedDownloads.Keys == results.Keys + completedDownloadHandles
        invariant forall h <- completedDownloads :: completedDownloads[h] ==
                    if h in completedDownloadHandles then view[h].value else results[h]
        decreases handles
      {
        var downloadHandle :| downloadHandle in handles;
        handles := handles - {downloadHandle};
        if activeDownloads[downloadHandle].completed {
          completedDownloads := completedDownloads[downloadHandle := activeDownloads[downloadHandle].fetchResult];
          completedDownloadHandles := completedDownloadHandles + {downloadHandle};
        }
      }
      assert completedDownloads == results + Results(view);
    }

    /** Moves the completed downloads out of the active ones. */
    method FileCompleted()
      requires Valid()
      modifies this`activeDownloads, this`completedDownloads
      ensures Valid() && View() == Filed(old(View()))
      ensures |activeDownloads| == |Running(old(View()).active)|
    {
      var completedDownloadHandles := FileResults();
      ViewKeepsRunning(activeDownloads, completedDownloadHandles);
      ghost var running := Running(ActiveView(activeDownloads));
      activeDownloads := activeDownloads - completedDownloadHandles;
      assert ActiveView(activeDownloads) == running;
    }

    /** Starts the first pending downloads, as many as there are free lanes. */
    method StartPending(availableDownloadLanes: nat)
      requires Valid()
      modifies this`activeDownloads, this`pendingDownloads
      ensures Valid() && View() == Started(availableDownloadLanes, old(View()))
    {
      ghost var all, before := HandlesOf(pendingDownloads), ActiveView(activeDownloads);
      var i := 0;
      while i < |pendingDownloads| && i < availableDownloadLanes
        invariant i <= |pendingDownloads| && i <= availableDownloadLanes
        invariant pendingDownloads == old(pendingDownloads) && all == HandlesOf(pendingDownloads)
        invariant ActiveView(activeDownloads) == Starting(before, all[..i])
      {
        assert all[..i + 1][..i] == all[..i];
        var downloadInfo := pendingDownloads[i];
        assert downloadInfo in pendingDownloads;
        ghost var was := activeDownloads;
        activeDownloads := activeDownloads[downloadInfo.handle := downloadInfo];
        ViewAdds(was, downloadInfo.handle, downloadInfo);
        i := i + 1;
      }
      pendingDownloads := pendingDownloads[i..];
      assert HandlesOf(pendingDownloads) == all[i..];
      assert i == Taken(availableDownloadLanes, |all|);
    }

    /** Files the results of completed downloads, and starts pending ones in the free lanes. */
    method Start()
      requires Valid()
      modifies this
      ensures Valid() && View() == Turn(maxConcurrentDownloads, old(View()))
    {
      ghost var before := View();
      FileCompleted();
      ghost var filed := View();
      var availableDownloadLanes := maxConcurrentDownloads - |activeDownloads|;
      assert Turn(maxConcurrentDownloads, before) == Started(availableDownloadLanes, filed);
      if availableDownloadLanes <= 0 || |pendingDownloads| == 0 {
        NothingStarts(availableDownloadLanes, filed);
        return;
      }
      StartPending(availableDownloadLanes);
    }

    /** Queues a download; the caller waits until its handle is among the completed ones. */
    method Download(handle: Handle, contentHash: string, maxSizeInBytes: nat)
      requires Valid()
      modifies this`pendingDownloads
      ensures Valid()
      ensures View() == old(View()).(pending := old(View()).pending + [handle])
    {
      var downloadInfo := new DownloadInfo(handle, contentHash, maxSizeInBytes);
      ghost var before := HandlesOf(pendingDownloads);
      pendingDownloads := pendingDownloads + [downloadInfo];
      assert HandlesOf(pendingDownloads) == before + [handle];
    }

    /** What a caller takes once its download is resolved. */
    method TakeResult(handle: Handle) returns (fetchResult: FetchResult)
      requires Valid() && handle in completedDownloads
      modifies this`completedDownloads
      ensures Valid() && fetchResult == old(View()).completed[handle]
      ensures View() == old(View()).(completed := old(View()).completed - {handle})
    {
      fetchResult := completedDownloads[handle];
      completedDownloads := completedDownloads - {handle};
    }
  }
}
