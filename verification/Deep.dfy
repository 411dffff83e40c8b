/** The deep strategy (internal/modbus/scan_algo.go, 333-470): the smart strategy,
    then up to 500 small reads around those edges of readable intervals that a failed
    interval touches. */
module Deep {
  import opened ScanTypes
  import Smart

  const REFINEMENT_WINDOW := 8
  const REFINEMENT_CAP := 500
  const REFINEMENT_COUNTS: seq<U16> := [1, 2, 4, 8]

  // ----- which refinements are called for -----

  /** The tasks of the reads of h that succeeded (ok) or failed (!ok), in order. */
  function TasksOf(h: seq<Read>, ok: bool): seq<ScanTask> {
    if h == [] then []
    else
      TasksOf(h[..|h| - 1], ok) + (if h[|h| - 1].result.success == ok then [h[|h| - 1].task] else [])
  }

  /** A failed interval holds addr or its outer neighbour. */
  ghost predicate FailureAdjacent(failed: seq<ScanTask>, addr: int, leftBound: bool) {
    exists f :: f in failed && (f.Holds(addr) || f.Holds(if leftBound then addr - 1 else addr + 1))
  }

  /** e is an edge of the readable interval iv, inside the range and touched by a failure. */
  ghost predicate IsEdge(cfg: ScanConfig, failed: seq<ScanTask>, iv: ScanTask, e: int) {
    || (e == iv.start && e > cfg.startAddress && FailureAdjacent(failed, e, true))
    || (e == iv.start + iv.count - 1 && e < cfg.endAddress && FailureAdjacent(failed, e, false))
  }

  /** t is one of the small reads of the window around e, inside the range. */
  predicate InWindow(cfg: ScanConfig, from: int, to: int, t: ScanTask) {
    && t.count in REFINEMENT_COUNTS
    && cfg.startAddress <= t.start && t.start + t.count - 1 <= cfg.endAddress
    && from <= t.start <= to
  }

  ghost predicate CalledFor(cfg: ScanConfig, readable: seq<ScanTask>, failed: seq<ScanTask>, t: ScanTask) {
    exists iv, e :: iv in readable && IsEdge(cfg, failed, iv, e) && InWindow(cfg, e - REFINEMENT_WINDOW, e + REFINEMENT_WINDOW, t)
  }

  ghost predicate Distinct(q: seq<ScanTask>) {
    forall i, j :: 0 <= i < j < |q| ==> q[i] != q[j]
  }

  /** The second phase after the first one read h: at most 500 different reads, each
      called for, and every read called for unless the cap cuts the list. */
  ghost predicate Plan(cfg: ScanConfig, h: seq<Read>, plan: seq<ScanTask>) {
    && Distinct(plan) && |plan| <= REFINEMENT_CAP
    && (forall t :: t in plan ==> CalledFor(cfg, TasksOf(h, true), TasksOf(h, false), t))
    && (|plan| < REFINEMENT_CAP ==>
          forall t :: CalledFor(cfg, TasksOf(h, true), TasksOf(h, false), t) ==> t in plan)
  }

  /** A finished run: a finished smart run, then exactly its refinement plan. */
  ghost predicate Report(cfg: ScanConfig, h: seq<Read>) {
    exists k, plan :: 0 <= k <= |h| && Smart.Report(cfg, h[..k]) && Plan(cfg, h[..k], plan) && Asks(h[k..], plan)
  }

  function WorstCase(cfg: ScanConfig): nat {
    Smart.WorstCase(cfg) + REFINEMENT_CAP
  }

  lemma {:induction false} TasksOfAre(h: seq<Read>, ok: bool, t: ScanTask)
    ensures t in TasksOf(h, ok) <==> exists r :: r in h && r.task == t && r.result.success == ok
  {
    if h != [] {
      TasksOfAre(h[..|h| - 1], ok, t);
      assert h == h[..|h| - 1] + [h[|h| - 1]];
    }
  }

  lemma TasksOfOne(h: seq<Read>, r: Read, ok: bool)
    ensures TasksOf(h + [r], ok) == TasksOf(h, ok) + if r.result.success == ok then [r.task] else []
  {
    assert (h + [r])[..|h + [r]| - 1] == h;
  }

  /** Edges of intervals that were not split keep refinement away: without a failed
      read there is nothing to refine. */
  lemma NoFailureNoPlan(cfg: ScanConfig, h: seq<Read>, plan: seq<ScanTask>)
    requires Plan(cfg, h, plan) && forall r :: r in h ==> r.result.success
    ensures plan == []
  {
    if plan != [] {
      var t := plan[0];
      assert t in plan;
      var iv, e :| iv in TasksOf(h, true) && IsEdge(cfg, TasksOf(h, false), iv, e);
      var f :| f in TasksOf(h, false);
      TasksOfAre(h, false, f);
    }
  }

  class DeepStrategy {
    const cfg: ScanConfig
    const smart: Smart.SmartStrategy
    var phase: int
    var readableIntervals: seq<ScanTask>
    var failedIntervals: seq<ScanTask>
    var refinementQueue: seq<ScanTask>
    var refinementSeen: set<U32>

    ghost var trace: seq<Read>
    ghost var pending: Option<ScanTask>
    /** The refinement queue as it was built, once phase 2 has begun. */
    ghost var plan: seq<ScanTask>
    /** The reads of phase 2. */
    ghost var refined: seq<Read>

    ghost predicate SeenIsQueue()
      reads this
    {
      && refinementSeen == (set t | t in refinementQueue :: Smart.IntervalKey(t))
      && Distinct(refinementQueue)
      && |refinementQueue| <= REFINEMENT_CAP
    }

    ghost predicate Common()
      reads this, smart
    {
      && smart.cfg == cfg && smart.Valid()
      && readableIntervals == TasksOf(smart.trace, true) && failedIntervals == TasksOf(smart.trace, false)
    }

    ghost predicate InPhaseOne()
      reads this, smart
    {
      && Common() && trace == smart.trace && pending == smart.pending
      && refinementQueue == [] && refinementSeen == {} && refined == []
    }

    ghost predicate InPhaseTwo()
      reads this, smart
    {
      && Common() && smart.pending == None && Smart.Report(cfg, smart.trace)
      && Plan(cfg, smart.trace, plan)
      && trace == smart.trace + refined && |refined| <= |plan|
      && (forall i :: 0 <= i < |refined| ==> refined[i].task == plan[i])
      && match pending
         case None => refinementQueue == plan[|refined|..]
         case Some(t) => |refined| < |plan| && t == plan[|refined|] && refinementQueue == plan[|refined| + 1..]
    }

    ghost predicate Valid()
      reads this, smart
    {
      (phase == 1 && InPhaseOne()) || (phase == 2 && InPhaseTwo())
    }

    constructor (c: ScanConfig)
      ensures Valid() && cfg == c && trace == [] && pending == None && fresh(smart)
    {
      cfg := c;
      smart := new Smart.SmartStrategy(c);
      phase := 1;
      readableIntervals, failedIntervals := [], [];
      refinementQueue, refinementSeen := [], {};
      trace, pending, plan, refined := [], None, [], [];
    }

    predicate Finished()
      reads this
    {
      phase == 2 && |refinementQueue| == 0
    }

    method HasFailureAdjacent(addr: U16, leftBound: bool) returns (found: bool)
      requires forall f :: f in failedIntervals ==> f.count >= 1 && f.start + f.count <= 0x1_0000
      ensures found <==> FailureAdjacent(failedIntervals, addr, leftBound)
    {
      for i := 0 to |failedIntervals|
        invariant !FailureAdjacent(failedIntervals[..i], addr, leftBound)
      {
        var f := failedIntervals[i];
        var fEnd: U16 := f.start + f.count - 1;
        assert failedIntervals[..i + 1] == failedIntervals[..i] + [f];
        if leftBound {
          if (addr > 0 && f.start <= addr - 1 && fEnd >= addr - 1) || (f.start <= addr && fEnd >= addr) {
            assert f in failedIntervals;
            return true;
          }
        } else {
          if (f.start <= addr && fEnd >= addr) || (addr < 65535 && f.start <= addr + 1 && fEnd >= addr + 1) {
            assert f in failedIntervals;
            return true;
          }
        }
      }
      assert failedIntervals[..|failedIntervals|] == failedIntervals;
      return false;
    }

    /** Queues one task unless it is there already. */
    method QueueTask(task: ScanTask)
      requires SeenIsQueue() && |refinementQueue| < REFINEMENT_CAP
      modifies `refinementQueue, `refinementSeen
      ensures SeenIsQueue()
      ensures refinementQueue == old(refinementQueue) + if task in old(refinementQueue) then [] else [task]
    {
      var key := Smart.IntervalKey(task);
      forall t | t in refinementQueue ensures Smart.IntervalKey(t) == key <==> t == task {
        Smart.IntervalKeyIsInjective(t, task);
      }
      if key !in refinementSeen {
        refinementSeen := refinementSeen + {key};
        refinementQueue := refinementQueue + [task];
      }
    }

    /** Queues the small reads starting at from..to, clipped to the range and the cap. */
    method QueueRefinements(from: int, to: int)
      requires SeenIsQueue()
      modifies `refinementQueue, `refinementSeen
      ensures SeenIsQueue() && old(refinementQueue) <= refinementQueue
      ensures forall t :: t in refinementQueue ==> t in old(refinementQueue) || InWindow(cfg, from, to, t)
      ensures |refinementQueue| < REFINEMENT_CAP ==> forall t :: InWindow(cfg, from, to, t) ==> t in refinementQueue
    {
      var globalEnd: int := cfg.endAddress;
      var start := if from < cfg.startAddress then cfg.startAddress else from;
      var last := if to < globalEnd then to else globalEnd;
      ghost var first := start;
      while start <= last && |refinementQueue| < REFINEMENT_CAP
        invariant SeenIsQueue() && old(refinementQueue) <= refinementQueue && first <= start
        invariant forall t :: t in refinementQueue ==> t in old(refinementQueue) || InWindow(cfg, from, to, t)
        invariant |refinementQueue| < REFINEMENT_CAP ==>
                    forall t :: InWindow(cfg, from, to, t) && t.start < start ==> t in refinementQueue
        decreases last - start
      {
        QueueCounts(start, from, to);
        start := start + 1;
      }
    }

    /** Queues the reads of every refinement size at one start address. */
    method QueueCounts(start: U16, ghost from: int, ghost to: int)
      requires SeenIsQueue() && cfg.startAddress <= start && from <= start <= to
      modifies `refinementQueue, `refinementSeen
      ensures SeenIsQueue() && old(refinementQueue) <= refinementQueue
      ensures forall t :: t in refinementQueue ==> t in old(refinementQueue) || (t.start == start && InWindow(cfg, from, to, t))
      ensures |refinementQueue| < REFINEMENT_CAP ==> forall t :: InWindow(cfg, from, to, t) && t.start == start ==> t in refinementQueue
    {
      for i := 0 to |REFINEMENT_COUNTS|
        invariant SeenIsQueue() && old(refinementQueue) <= refinementQueue
        invariant forall t :: t in refinementQueue ==> t in old(refinementQueue) || (t.start == start && InWindow(cfg, from, to, t))
        invariant |refinementQueue| < REFINEMENT_CAP ==>
                    forall t :: InWindow(cfg, from, to, t) && t.start == start && t.count in REFINEMENT_COUNTS[..i] ==> t in refinementQueue
      {
        var count := REFINEMENT_COUNTS[i];
        if start + count - 1 <= cfg.endAddress && |refinementQueue| < REFINEMENT_CAP {
          QueueTask(ScanTask(start, count));
        }
      }
    }

    /** Queues the refinements of both edges of one readable interval. */
    method QueueEdges(iv: ScanTask)
      requires SeenIsQueue() && iv.count >= 1 && iv.start + iv.count <= 0x1_0000
      requires forall f :: f in failedIntervals ==> f.count >= 1 && f.start + f.count <= 0x1_0000
      modifies `refinementQueue, `refinementSeen
      ensures SeenIsQueue() && old(refinementQueue) <= refinementQueue
      ensures forall t :: t in refinementQueue ==> t in old(refinementQueue) || CalledFor(cfg, [iv], failedIntervals, t)
      ensures |refinementQueue| < REFINEMENT_CAP ==> forall t :: CalledFor(cfg, [iv], failedIntervals, t) ==> t in refinementQueue
    {
      var intervalStart: U16 := iv.start;
      var intervalEnd: U16 := iv.start + iv.count - 1;
      var leftEvidence := HasFailureAdjacent(intervalStart, true);
      var rightEvidence := HasFailureAdjacent(intervalEnd, false);
      if intervalStart > cfg.startAddress && leftEvidence {
        QueueRefinements(intervalStart - REFINEMENT_WINDOW, intervalStart + REFINEMENT_WINDOW);
        assert IsEdge(cfg, failedIntervals, iv, intervalStart);
      }
      ghost var half := refinementQueue;
      if intervalEnd < cfg.endAddress && rightEvidence {
        QueueRefinements(intervalEnd - REFINEMENT_WINDOW, intervalEnd + REFINEMENT_WINDOW);
        assert IsEdge(cfg, failedIntervals, iv, intervalEnd);
      }
      assert forall e :: IsEdge(cfg, failedIntervals, iv, e) ==> e == intervalStart || e == intervalEnd;
      assert |refinementQueue| < REFINEMENT_CAP ==> |half| < REFINEMENT_CAP;
    }

    lemma CalledForOneMore(ivs: seq<ScanTask>, iv: ScanTask, t: ScanTask)
      ensures CalledFor(cfg, ivs + [iv], failedIntervals, t)
              <==> CalledFor(cfg, ivs, failedIntervals, t) || CalledFor(cfg, [iv], failedIntervals, t)
    {
      assert iv in ivs + [iv] && forall v :: v in ivs ==> v in ivs + [iv];
      assert iv in [iv];
    }

    method BuildRefinementQueue()
      requires SeenIsQueue() && refinementQueue == []
      requires forall f :: f in failedIntervals || f in readableIntervals ==> f.count >= 1 && f.start + f.count <= 0x1_0000
      modifies `refinementQueue, `refinementSeen
      ensures SeenIsQueue()
      ensures forall t :: t in refinementQueue ==> CalledFor(cfg, readableIntervals, failedIntervals, t)
      ensures |refinementQueue| < REFINEMENT_CAP ==>
                forall t :: CalledFor(cfg, readableIntervals, failedIntervals, t) ==> t in refinementQueue
    {
      var i := 0;
      while i < |readableIntervals| && |refinementQueue| < REFINEMENT_CAP
        invariant SeenIsQueue() && i <= |readableIntervals|
        invariant forall t :: t in refinementQueue ==> CalledFor(cfg, readableIntervals[..i], failedIntervals, t)
        invariant |refinementQueue| < REFINEMENT_CAP ==>
                    forall t :: CalledFor(cfg, readableIntervals[..i], failedIntervals, t) ==> t in refinementQueue
      {
        assert readableIntervals[..i + 1] == readableIntervals[..i] + [readableIntervals[i]];
        forall t {
          CalledForOneMore(readableIntervals[..i], readableIntervals[i], t);
        }
        QueueEdges(readableIntervals[i]);
        i := i + 1;
      }
      assert forall t :: CalledFor(cfg, readableIntervals[..i], failedIntervals, t) ==> CalledFor(cfg, readableIntervals, failedIntervals, t) by {
        assert forall v :: v in readableIntervals[..i] ==> v in readableIntervals;
      }
      assert i == |readableIntervals| ==> readableIntervals[..i] == readableIntervals;
    }

    /** Intervals of the first phase stay inside the range. */
    lemma IntervalsAreInside(ok: bool, f: ScanTask)
      requires smart.cfg == cfg && smart.Valid() && f in TasksOf(smart.trace, ok)
      ensures f.Inside(cfg.startAddress, cfg.endAddress)
    {
      TasksOfAre(smart.trace, ok, f);
      var r :| r in smart.trace && r.task == f;
      Smart.ReadsAreInside(cfg, smart.trace, r);
    }

    /** Ends the first phase. */
    method BeginPhaseTwo()
      requires phase == 1 && InPhaseOne() && pending == None && Smart.Report(cfg, smart.trace)
      modifies `phase, `refinementQueue, `refinementSeen, `plan
      ensures phase == 2 && InPhaseTwo() && pending == None && trace == old(trace)
    {
      forall f | f in failedIntervals || f in readableIntervals ensures f.count >= 1 && f.start + f.count <= 0x1_0000 {
        IntervalsAreInside(f in readableIntervals, f);
      }
      phase := 2;
      BuildRefinementQueue();
      plan := refinementQueue;
      assert plan[0..] == plan && trace == smart.trace + [];
    }

    method Next() returns (task: Option<ScanTask>)
      requires Valid() && pending == None
      modifies this, smart
      ensures Valid() && pending == task && trace == old(trace)
      ensures task.Some? ==> task.value.Inside(cfg.startAddress, cfg.endAddress)
      ensures task == None ==> Report(cfg, trace)
    {
      if phase == 1 {
        task := smart.Next();
        if task.Some? {
          pending := task;
          return;
        }
        BeginPhaseTwo();
      }
      task := NextRefinement();
    }

    /** Serves the refinement queue. */
    method NextRefinement() returns (task: Option<ScanTask>)
      requires phase == 2 && InPhaseTwo() && pending == None
      modifies `refinementQueue, `pending
      ensures Valid() && pending == task
      ensures task.Some? ==> task.value.Inside(cfg.startAddress, cfg.endAddress)
      ensures task == None ==> Report(cfg, trace)
    {
      if |refinementQueue| > 0 {
        task := Some(refinementQueue[0]);
        assert plan[|refined|] in plan;
        assert plan[|refined|..][1..] == plan[|refined| + 1..];
        refinementQueue := refinementQueue[1..];
        pending := task;
      } else {
        FinishedReports();
        task := None;
      }
    }

    /** Never more reads than the bound, the pending one included. */
    lemma WithinWorstCase()
      requires Valid()
      ensures |trace| + (if pending.Some? then 1 else 0) <= WorstCase(cfg)
    {
      smart.WithinWorstCase();
    }

    lemma FinishedReports()
      requires Valid() && pending == None && Finished()
      ensures Report(cfg, trace)
    {
      var k := |smart.trace|;
      assert trace[..k] == smart.trace && trace[k..] == refined;
    }

    method OnSmartResult(task: ScanTask, result: ScanResult)
      requires phase == 1 && InPhaseOne() && pending == Some(task)
      modifies this, smart
      ensures phase == 1 && InPhaseOne() && pending == None && trace == old(trace) + [Read(task, result)]
    {
      TasksOfOne(smart.trace, Read(task, result), true);
      TasksOfOne(smart.trace, Read(task, result), false);
      smart.OnResult(task, result);
      if result.success {
        readableIntervals := readableIntervals + [task];
      } else {
        failedIntervals := failedIntervals + [task];
      }
      pending, trace := None, smart.trace;
    }

    method OnResult(task: ScanTask, result: ScanResult)
      requires Valid() && pending == Some(task)
      modifies this, smart
      ensures Valid() && pending == None && trace == old(trace) + [Read(task, result)]
    {
      if phase == 1 {
        OnSmartResult(task, result);
      } else {
        ghost var read := Read(task, result);
        assert (smart.trace + refined) + [read] == smart.trace + (refined + [read]);
        pending, trace, refined := None, trace + [read], refined + [read];
      }
    }
  }

  // ----- what a finished run guarantees -----

  /** For any answers: at most 500 reads more than smart makes. */
  lemma ReportCost(cfg: ScanConfig, h: seq<Read>)
    requires Report(cfg, h)
    ensures |h| <= WorstCase(cfg)
  {
    var k, plan :| 0 <= k <= |h| && Smart.Report(cfg, h[..k]) && Plan(cfg, h[..k], plan) && Asks(h[k..], plan);
    Smart.ReportCost(cfg, h[..k]);
  }

  /** On an interval-readable device the capture is exactly the readable part of the range. */
  lemma ReportIsComplete(cfg: ScanConfig, h: seq<Read>, R: set<int>, a: int)
    requires Report(cfg, h) && IntervalReadable(h, R)
    ensures Captured(h, a) <==> cfg.startAddress <= a <= cfg.endAddress && a in R
  {
    var k, plan :| 0 <= k <= |h| && Smart.Report(cfg, h[..k]) && Plan(cfg, h[..k], plan) && Asks(h[k..], plan);
    assert h == h[..k] + h[k..];
    Smart.ReportIsComplete(cfg, h[..k], R, a);
    if Captured(h, a) {
      CapturedIsReadable(h, R, a);
      var r :| r in h && r.result.success && r.task.Holds(a);
      if r in h[k..] {
        var i :| 0 <= i < |h[k..]| && h[k..][i] == r;
        assert plan[i] in plan;
      } else {
        Smart.ReadsAreInside(cfg, h[..k], r);
      }
    }
  }

  /** t is a refinement of the reads h: a window of eight addresses to each side of an edge of a
      successful read, inside the range, that a failed read holds or whose neighbour outside it
      holds; and 1, 2, 4 or 8 registers inside the range from there. */
  ghost predicate Refines(cfg: ScanConfig, h: seq<Read>, t: ScanTask) {
    exists ok, bad, e :: ok in h && ok.result.success && bad in h && !bad.result.success && Touches(cfg, ok.task, bad.task, e) && Around(cfg, e, t)
  }

  predicate Touches(cfg: ScanConfig, ok: ScanTask, bad: ScanTask, e: int) {
    || (e == ok.start > cfg.startAddress && (bad.Holds(e) || bad.Holds(e - 1)))
    || (e == ok.start + ok.count - 1 < cfg.endAddress && (bad.Holds(e) || bad.Holds(e + 1)))
  }

  predicate Around(cfg: ScanConfig, e: int, t: ScanTask) {
    && (t.count == 1 || t.count == 2 || t.count == 4 || t.count == 8)
    && e - 8 <= t.start <= e + 8 && cfg.startAddress <= t.start && t.start + t.count <= cfg.endAddress + 1
  }

  lemma RefinesIsCalledFor(cfg: ScanConfig, h: seq<Read>, t: ScanTask)
    ensures Refines(cfg, h, t) <==> CalledFor(cfg, TasksOf(h, true), TasksOf(h, false), t)
  {
    if Refines(cfg, h, t) {
      var ok, bad, e :| ok in h && ok.result.success && bad in h && !bad.result.success && Touches(cfg, ok.task, bad.task, e) && Around(cfg, e, t);
      TasksOfAre(h, true, ok.task);
      TasksOfAre(h, false, bad.task);
      assert IsEdge(cfg, TasksOf(h, false), ok.task, e);
    }
    if CalledFor(cfg, TasksOf(h, true), TasksOf(h, false), t) {
      var iv, e :| iv in TasksOf(h, true) && IsEdge(cfg, TasksOf(h, false), iv, e) && InWindow(cfg, e - REFINEMENT_WINDOW, e + REFINEMENT_WINDOW, t);
      TasksOfAre(h, true, iv);
      var ok :| ok in h && ok.task == iv && ok.result.success;
      var f :| f in TasksOf(h, false) && Touches(cfg, iv, f, e);
      TasksOfAre(h, false, f);
      var bad :| bad in h && bad.task == f && !bad.result.success;
      assert Around(cfg, e, t);
    }
  }

  /** For any answers: behind a finished smart run come at most 500 reads, all different, each
      of them a refinement of what smart read; fewer than 500 are all its refinements. */
  lemma RefinementsAreNearEdges(cfg: ScanConfig, h: seq<Read>) returns (k: nat)
    requires Report(cfg, h)
    ensures k <= |h| && Smart.Report(cfg, h[..k]) && |h| - k <= 500
    ensures forall i, j :: k <= i < j < |h| ==> h[i].task != h[j].task
    ensures forall i :: k <= i < |h| ==> Refines(cfg, h[..k], h[i].task)
    ensures |h| - k < 500 ==> forall t :: Refines(cfg, h[..k], t) ==> exists i :: k <= i < |h| && h[i].task == t
  {
    var n: int, plan :| 0 <= n <= |h| && Smart.Report(cfg, h[..n]) && Plan(cfg, h[..n], plan) && Asks(h[n..], plan);
    k := n;
    forall i | k <= i < |h| ensures h[i].task == plan[i - k] && plan[i - k] in plan && Refines(cfg, h[..k], h[i].task) {
      assert h[k..][i - k] == h[i];
      RefinesIsCalledFor(cfg, h[..k], plan[i - k]);
    }
    forall t | |h| - k < 500 && Refines(cfg, h[..k], t) ensures exists i :: k <= i < |h| && h[i].task == t {
      RefinesIsCalledFor(cfg, h[..k], t);
      var m :| 0 <= m < |plan| && plan[m] == t;
      assert h[k..][m] == h[k + m];
    }
  }
}
