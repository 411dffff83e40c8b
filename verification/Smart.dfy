/** The smart strategy (internal/modbus/scan_algo.go, 244-331): a priority queue of
    intervals, the smallest first; a failed interval is split in two.

    The queue turns out to be a stack in disguise: the two halves of a failed
    interval precede everything still queued, so smallest-first is depth-first.
    SmartStrategy is proved to follow that stack; everything else is a theorem
    about the stack. */
module Smart {
  import opened ScanTypes
  import opened Edges
  import opened SmartQueue

  // ----- the stack of open intervals -----

  predicate Splits(t: ScanTask) {
    t.count > 1 && t.start + t.count <= 0x1_0000
  }

  function Left(t: ScanTask): ScanTask
    requires Splits(t)
  {
    ScanTask(t.start, t.count / 2)
  }

  function Right(t: ScanTask): ScanTask
    requires Splits(t)
  {
    ScanTask(t.start + t.count / 2, t.count - t.count / 2)
  }

  /** The stack after its top was read. */
  function After(line: seq<ScanTask>, r: Read): seq<ScanTask> {
    if line == [] then []
    else if !r.result.success && Splits(line[0]) then [Left(line[0]), Right(line[0])] + line[1..]
    else line[1..]
  }

  /** The stack after the reads h. */
  function StackAfter(line: seq<ScanTask>, h: seq<Read>): seq<ScanTask> {
    if h == [] then line else After(StackAfter(line, h[..|h| - 1]), h[|h| - 1])
  }

  /** Every read of h was the top of the stack at its time. */
  ghost predicate Follows(line: seq<ScanTask>, h: seq<Read>) {
    h == [] ||
    (var front := h[..|h| - 1];
     Follows(line, front) && StackAfter(line, front) != [] && StackAfter(line, front)[0] == h[|h| - 1].task)
  }

  lemma FollowsOne(line: seq<ScanTask>, h: seq<Read>, r: Read)
    requires Follows(line, h) && StackAfter(line, h) != [] && StackAfter(line, h)[0] == r.task
    ensures Follows(line, h + [r]) && StackAfter(line, h + [r]) == After(StackAfter(line, h), r)
  {
    assert (h + [r])[..|h + [r]| - 1] == h;
  }

  // ----- the initial chunks -----

  /** The 125-register chunks of [from, end] in address order. */
  function ChunksFrom(from: nat, end: U16): (c: seq<ScanTask>)
    decreases end + 1 - from
  {
    if from > end then []
    else
      var count := if end - from + 1 < MAX_BLOCK_SIZE then end - from + 1 else MAX_BLOCK_SIZE;
      [ScanTask(from, count)] + ChunksFrom(from + count, end)
  }

  /** The chunks in the order the queue serves them: a short last chunk comes first. */
  function Order(cfg: ScanConfig): seq<ScanTask> {
    var c := ChunksFrom(cfg.startAddress, cfg.endAddress);
    if c != [] && c[|c| - 1].count < MAX_BLOCK_SIZE then [c[|c| - 1]] + c[..|c| - 1] else c
  }

  lemma {:induction false} ChunksAre(from: nat, end: U16)
    requires from <= end + 1
    ensures |ChunksFrom(from, end)| == Chunks(end + 1 - from)
    ensures forall i :: 0 <= i < |ChunksFrom(from, end)| ==>
              ChunksFrom(from, end)[i].start == from + 125 * i && ChunksFrom(from, end)[i].Inside(from, end)
    ensures forall i :: 0 <= i < |ChunksFrom(from, end)| - 1 ==> ChunksFrom(from, end)[i].count == 125
    ensures from <= end ==> var c := ChunksFrom(from, end); c[|c| - 1].start + c[|c| - 1].count == end + 1
    decreases end + 1 - from
  {
    if from + 125 <= end {
      ChunksAre(from + 125, end);
    }
  }

  ghost predicate Sorted(line: seq<ScanTask>) {
    forall i, j :: 0 <= i < j < |line| ==> Less(line[i], line[j])
  }

  lemma OrderIsSorted(cfg: ScanConfig)
    ensures Sorted(Order(cfg))
  {
    var c := ChunksFrom(cfg.startAddress, cfg.endAddress);
    if cfg.startAddress <= cfg.endAddress {
      ChunksAre(cfg.startAddress, cfg.endAddress);
      var n := |c| - 1;
      forall i, j | 0 <= i < j < |c| ensures Less(Order(cfg)[i], Order(cfg)[j]) {
        if c[n].count < MAX_BLOCK_SIZE {
          assert Order(cfg)[j] == c[j - 1] && c[j - 1].count == 125;
          assert i > 0 ==> Order(cfg)[i] == c[i - 1] && c[i - 1].start < c[j - 1].start;
        } else {
          assert c[i].count == 125 == c[j].count && c[i].start < c[j].start;
        }
      }
    }
  }

  lemma LastInFront(c: seq<ScanTask>)
    requires c != []
    ensures multiset([c[|c| - 1]] + c[..|c| - 1]) == multiset(c)
  {
    assert c == c[..|c| - 1] + [c[|c| - 1]];
  }

  /** The serving order is a rearrangement of the chunks. */
  lemma OrderIsChunks(cfg: ScanConfig)
    ensures multiset(Order(cfg)) == multiset(ChunksFrom(cfg.startAddress, cfg.endAddress))
    ensures |Order(cfg)| == Chunks(cfg.RangeLen())
  {
    var c := ChunksFrom(cfg.startAddress, cfg.endAddress);
    if c != [] {
      LastInFront(c);
    }
    assert |c| == Chunks(cfg.RangeLen()) by {
      if cfg.startAddress <= cfg.endAddress {
        ChunksAre(cfg.startAddress, cfg.endAddress);
      }
    }
  }

  lemma OrderIsInside(cfg: ScanConfig, t: ScanTask)
    requires t in Order(cfg)
    ensures t.Inside(cfg.startAddress, cfg.endAddress)
  {
    OrderIsChunks(cfg);
    var c := ChunksFrom(cfg.startAddress, cfg.endAddress);
    assert t in multiset(c);
    ChunksAre(cfg.startAddress, cfg.endAddress);
  }

  // ----- smallest first is depth first -----

  /** Splitting the least interval of a sorted line keeps the line sorted: both halves
      precede everything else, which is why the heap serves a stack. */
  lemma AfterIsSorted(line: seq<ScanTask>, r: Read)
    requires Sorted(line)
    ensures Sorted(After(line, r))
  {
    if line != [] && !r.result.success && Splits(line[0]) {
      var s := After(line, r);
      forall i, j | 0 <= i < j < |s| ensures Less(s[i], s[j]) {
        if j > 1 {
          assert Less(line[0], line[j - 1]);
          assert i > 1 ==> Less(line[i - 1], line[j - 1]);
        }
      }
    }
  }

  lemma {:induction false} LineIsSorted(cfg: ScanConfig, h: seq<Read>)
    ensures Sorted(StackAfter(Order(cfg), h))
  {
    if h == [] {
      OrderIsSorted(cfg);
    } else {
      LineIsSorted(cfg, h[..|h| - 1]);
      AfterIsSorted(StackAfter(Order(cfg), h[..|h| - 1]), h[|h| - 1]);
    }
  }

  /** Every open interval is a read a device can be asked for inside the range. */
  lemma {:induction false} LineIsInside(cfg: ScanConfig, h: seq<Read>)
    ensures forall t :: t in StackAfter(Order(cfg), h) ==> t.Inside(cfg.startAddress, cfg.endAddress)
  {
    if h == [] {
      forall t | t in Order(cfg) ensures t.Inside(cfg.startAddress, cfg.endAddress) {
        OrderIsInside(cfg, t);
      }
    } else {
      LineIsInside(cfg, h[..|h| - 1]);
      var s := StackAfter(Order(cfg), h[..|h| - 1]);
      assert s != [] ==> s[0] in s && forall t :: t in s[1..] ==> t in s;
    }
  }

  // ----- conservation of the range -----

  /** How many of the intervals ts hold address a. */
  function Hits(ts: seq<ScanTask>, a: int): nat {
    if ts == [] then 0 else (if ts[0].Holds(a) then 1 else 0) + Hits(ts[1..], a)
  }

  lemma {:induction false} HitsConcat(s: seq<ScanTask>, t: seq<ScanTask>, a: int)
    ensures Hits(s + t, a) == Hits(s, a) + Hits(t, a)
  {
    if s == [] {
      assert s + t == t;
    } else {
      HitsConcat(s[1..], t, a);
      assert (s + t)[1..] == s[1..] + t;
    }
  }

  lemma {:induction false} HitsMember(ts: seq<ScanTask>, a: int)
    ensures Hits(ts, a) > 0 <==> exists t :: t in ts && t.Holds(a)
  {
    if ts != [] {
      HitsMember(ts[1..], a);
      assert forall t :: t in ts <==> t == ts[0] || t in ts[1..];
    }
  }

  lemma {:induction false} HitsOfTwo(ts: seq<ScanTask>, i: nat, j: nat, a: int)
    requires i < j < |ts| && ts[i].Holds(a) && ts[j].Holds(a)
    ensures Hits(ts, a) >= 2
  {
    if i == 0 {
      HitsMember(ts[1..], a);
      assert ts[j] == ts[1..][j - 1];
    } else {
      HitsOfTwo(ts[1..], i - 1, j - 1, a);
    }
  }

  /** The intervals whose question is answered: read, or refused as a single register. */
  function SettledTasks(h: seq<Read>): seq<ScanTask> {
    if h == [] then []
    else
      var r := h[|h| - 1];
      SettledTasks(h[..|h| - 1]) + (if r.result.success || !Splits(r.task) then [r.task] else [])
  }

  lemma {:induction false} ChunksCoverOnce(from: nat, end: U16, a: int)
    requires from <= end + 1
    ensures Hits(ChunksFrom(from, end), a) == if from <= a <= end then 1 else 0
    decreases end + 1 - from
  {
    if from + 125 <= end {
      ChunksCoverOnce(from + 125, end, a);
    } else if from <= end {
      assert ChunksFrom(from, end)[1..] == [];
    }
  }

  lemma OrderCoversOnce(cfg: ScanConfig, a: int)
    ensures Hits(Order(cfg), a) == if cfg.startAddress <= a <= cfg.endAddress then 1 else 0
  {
    var c := ChunksFrom(cfg.startAddress, cfg.endAddress);
    if cfg.startAddress <= cfg.endAddress {
      ChunksCoverOnce(cfg.startAddress, cfg.endAddress, a);
      if c != [] {
        assert c == c[..|c| - 1] + [c[|c| - 1]];
        HitsConcat(c[..|c| - 1], [c[|c| - 1]], a);
        HitsConcat([c[|c| - 1]], c[..|c| - 1], a);
      }
    }
  }

  lemma HalvesHold(t: ScanTask, a: int)
    requires Splits(t)
    ensures Hits([Left(t), Right(t)], a) == if t.Holds(a) then 1 else 0
  {
    assert [Right(t)][1..] == [];
    assert Hits([Right(t)], a) == if Right(t).Holds(a) then 1 else 0;
    assert [Left(t), Right(t)][1..] == [Right(t)];
  }

  /** For any answers, after every read: the open intervals, the successful reads and
      the refused single registers together hold each address of the range exactly
      once, and no other address. */
  lemma {:induction false} RangeIsConserved(cfg: ScanConfig, h: seq<Read>, a: int)
    requires Follows(Order(cfg), h)
    ensures Hits(StackAfter(Order(cfg), h), a) + Hits(SettledTasks(h), a)
            == if cfg.startAddress <= a <= cfg.endAddress then 1 else 0
  {
    if h == [] {
      OrderCoversOnce(cfg, a);
    } else {
      var front, r := h[..|h| - 1], h[|h| - 1];
      RangeIsConserved(cfg, front, a);
      var s := StackAfter(Order(cfg), front);
      if r.result.success || !Splits(r.task) {
        HitsConcat(SettledTasks(front), [r.task], a);
      } else {
        HitsConcat([Left(s[0]), Right(s[0])], s[1..], a);
        HalvesHold(s[0], a);
        assert SettledTasks(h) == SettledTasks(front);
      }
    }
  }

  /** Open intervals are pairwise disjoint. */
  lemma LineIsDisjoint(cfg: ScanConfig, h: seq<Read>, i: nat, j: nat, a: int)
    requires Follows(Order(cfg), h) && i < j < |StackAfter(Order(cfg), h)|
    ensures !(StackAfter(Order(cfg), h)[i].Holds(a) && StackAfter(Order(cfg), h)[j].Holds(a))
  {
    RangeIsConserved(cfg, h, a);
    if StackAfter(Order(cfg), h)[i].Holds(a) && StackAfter(Order(cfg), h)[j].Holds(a) {
      HitsOfTwo(StackAfter(Order(cfg), h), i, j, a);
    }
  }

  // ----- the visited set never matters -----

  /** Reads so far and open intervals: disjoint, or the read was the larger. */
  ghost predicate Beyond(t: ScanTask, u: ScanTask) {
    t.count > u.count || (forall a :: !(t.Holds(a) && u.Holds(a)))
  }

  lemma {:induction false} ReadsAreBeyond(cfg: ScanConfig, h: seq<Read>, r: Read, t: ScanTask)
    requires Follows(Order(cfg), h) && r in h && t in StackAfter(Order(cfg), h)
    ensures Beyond(r.task, t)
  {
    var front, last := h[..|h| - 1], h[|h| - 1];
    var s := StackAfter(Order(cfg), front);
    assert h == front + [last];
    LineIsInside(cfg, front);
    assert s[0] in s;
    if t in s[1..] {
      assert t in s;
      if r in front {
        ReadsAreBeyond(cfg, front, r, t);
      } else {
        var j :| 1 <= j < |s| && s[j] == t;
        forall a ensures !(s[0].Holds(a) && t.Holds(a)) {
          LineIsDisjoint(cfg, front, 0, j, a);
        }
      }
    } else {
      assert t == Left(s[0]) || t == Right(s[0]);
      if r in front {
        ReadsAreBeyond(cfg, front, r, s[0]);
        assert forall a :: t.Holds(a) ==> s[0].Holds(a);
      }
    }
  }

  /** No open interval was ever read before. */
  lemma LineIsUnread(cfg: ScanConfig, h: seq<Read>, r: Read, t: ScanTask)
    requires Follows(Order(cfg), h) && r in h && t in StackAfter(Order(cfg), h)
    ensures r.task != t
  {
    ReadsAreBeyond(cfg, h, r, t);
    LineIsInside(cfg, h);
    assert t.Holds(t.start);
  }

  // ----- the exact cost -----

  /** Reads needed to settle the open intervals if every read fails. */
  function Cost(ts: seq<ScanTask>): int {
    if ts == [] then 0 else 2 * ts[0].count - 1 + Cost(ts[1..])
  }

  lemma {:induction false} CostConcat(s: seq<ScanTask>, t: seq<ScanTask>)
    ensures Cost(s + t) == Cost(s) + Cost(t)
  {
    if s == [] {
      assert s + t == t;
    } else {
      CostConcat(s[1..], t);
      assert (s + t)[1..] == s[1..] + t;
    }
  }

  /** Reads a success makes unnecessary: all but its own. */
  function Saved(h: seq<Read>): int {
    if h == [] then 0
    else
      Saved(h[..|h| - 1]) + (if h[|h| - 1].result.success then 2 * h[|h| - 1].task.count - 2 else 0)
  }

  function WorstCase(cfg: ScanConfig): nat {
    2 * cfg.RangeLen() - Chunks(cfg.RangeLen())
  }

  lemma {:induction false} ChunksCost(from: nat, end: U16)
    requires from <= end + 1
    ensures Cost(ChunksFrom(from, end)) == 2 * (end + 1 - from) - Chunks(end + 1 - from)
    decreases end + 1 - from
  {
    if from + 125 <= end {
      ChunksCost(from + 125, end);
    } else if from <= end {
      assert ChunksFrom(from, end)[1..] == [];
    }
  }

  lemma OrderCost(cfg: ScanConfig)
    ensures Cost(Order(cfg)) == WorstCase(cfg)
  {
    var c := ChunksFrom(cfg.startAddress, cfg.endAddress);
    if cfg.startAddress <= cfg.endAddress {
      ChunksCost(cfg.startAddress, cfg.endAddress);
      if c != [] {
        assert c == c[..|c| - 1] + [c[|c| - 1]];
        CostConcat(c[..|c| - 1], [c[|c| - 1]]);
        CostConcat([c[|c| - 1]], c[..|c| - 1]);
      }
    }
  }

  /** For any answers, after every read: reads made + reads still possible + reads saved by
      successes is always the worst case, 2N - ceil(N / 125) for N registers. */
  lemma {:induction false} CostIsConserved(cfg: ScanConfig, h: seq<Read>)
    requires Follows(Order(cfg), h)
    ensures |h| + Cost(StackAfter(Order(cfg), h)) + Saved(h) == WorstCase(cfg)
  {
    if h == [] {
      OrderCost(cfg);
    } else {
      var front, r := h[..|h| - 1], h[|h| - 1];
      CostIsConserved(cfg, front);
      LineIsInside(cfg, front);
      var s := StackAfter(Order(cfg), front);
      assert s[0] in s;
      if !r.result.success && Splits(s[0]) {
        CostConcat([Left(s[0]), Right(s[0])], s[1..]);
        assert [Left(s[0]), Right(s[0])][1..] == [Right(s[0])];
      }
    }
  }

  lemma {:induction false} CostIsPositive(ts: seq<ScanTask>)
    requires forall t :: t in ts ==> t.count >= 1
    ensures Cost(ts) >= |ts|
  {
    if ts != [] {
      assert ts[0] in ts && forall t :: t in ts[1..] ==> t in ts;
      CostIsPositive(ts[1..]);
    }
  }

  lemma {:induction false} SavedIsPositive(cfg: ScanConfig, h: seq<Read>)
    requires Follows(Order(cfg), h)
    ensures Saved(h) >= 0
    ensures (forall r :: r in h ==> !r.result.success) ==> Saved(h) == 0
  {
    if h != [] {
      var front, r := h[..|h| - 1], h[|h| - 1];
      SavedIsPositive(cfg, front);
      LineIsInside(cfg, front);
      assert StackAfter(Order(cfg), front)[0] in StackAfter(Order(cfg), front);
      assert h == front + [r];
    }
  }

  // ----- the size of the queue -----

  function Total(ts: seq<ScanTask>): nat {
    if ts == [] then 0 else Total(ts[..|ts| - 1]) + ts[|ts| - 1].count
  }

  /** Each interval is at least one less than everything in front of it together. */
  ghost predicate Steep(ts: seq<ScanTask>) {
    |ts| <= 1 || (Steep(ts[..|ts| - 1]) && Total(ts[..|ts| - 1]) <= ts[|ts| - 1].count + 1)
  }

  lemma {:induction false} SteepGrows(ts: seq<ScanTask>)
    requires Steep(ts) && |ts| >= 2 && forall t :: t in ts ==> t.count >= 1
    ensures Total(ts) >= Pow2(|ts| - 2) + 1
  {
    var front := ts[..|ts| - 1];
    assert forall t :: t in front ==> t in ts;
    assert ts[|ts| - 1] in ts;
    if |ts| == 2 {
      assert front[..0] == [] && front[0] in ts;
    } else {
      SteepGrows(front);
    }
  }

  /** The intervals open inside one chunk: at most eight. */
  lemma SteepIsShort(ts: seq<ScanTask>)
    requires Steep(ts) && Total(ts) <= 125 && forall t :: t in ts ==> t.count >= 1
    ensures |ts| <= 8
  {
    if |ts| >= 9 {
      var s := ts[..9];
      SteepPrefix(ts, 9);
      assert forall t :: t in s ==> t in ts;
      SteepGrows(s);
      WidthOfWindow();
    }
  }

  lemma {:induction false} SteepPrefix(ts: seq<ScanTask>, k: nat)
    requires Steep(ts) && k <= |ts|
    ensures Steep(ts[..k]) && Total(ts[..k]) <= Total(ts)
  {
    if k < |ts| {
      SteepPrefix(ts[..|ts| - 1], k);
      assert ts[..|ts| - 1][..k] == ts[..k];
    } else {
      assert ts[..k] == ts;
    }
  }

  /** Reading the top of a steep line leaves a steep line. */
  lemma {:induction false} SteepAfter(ts: seq<ScanTask>, r: Read)
    requires Steep(ts) && ts != []
    ensures Steep(After(ts, r)) && Total(After(ts, r)) <= Total(ts)
  {
    var s := After(ts, r);
    if |ts| == 1 {
      assert ts[..0] == [];
      if s != [] {
        assert s == [Left(ts[0]), Right(ts[0])];
        assert s[..1] == [Left(ts[0])];
        assert s[..1][..0] == [];
        assert Total(s[..1]) == Left(ts[0]).count;
        assert Total(s) == ts[0].count;
      }
    } else {
      var front := ts[..|ts| - 1];
      SteepAfter(front, r);
      assert s == After(front, r) + [ts[|ts| - 1]];
      assert s[..|s| - 1] == After(front, r);
    }
  }

  /** The line is the steep remains of the current chunk followed by the last k chunks
      of the serving order, untouched. */
  ghost predicate OneChunkAtATime(cfg: ScanConfig, line: seq<ScanTask>, open: seq<ScanTask>, k: nat) {
    && k <= |Order(cfg)|
    && line == open + Order(cfg)[|Order(cfg)| - k..]
    && Steep(open) && Total(open) <= 125
    && (open != [] ==> k < |Order(cfg)|)
  }

  lemma AfterOfConcat(open: seq<ScanTask>, rest: seq<ScanTask>, r: Read)
    requires open != []
    ensures After(open + rest, r) == After(open, r) + rest
  {
    assert (open + rest)[0] == open[0];
    assert (open + rest)[1..] == open[1..] + rest;
  }

  lemma NextChunk(cfg: ScanConfig, line: seq<ScanTask>, k: nat)
    requires line != [] && line[0].count <= 125 && OneChunkAtATime(cfg, line, [], k)
    ensures k > 0 && OneChunkAtATime(cfg, line, [line[0]], k - 1)
  {
    NextOfRest(Order(cfg), line, k);
    assert [line[0]][..0] == [];
    assert Total([line[0]]) == line[0].count;
  }

  lemma NextOfRest(order: seq<ScanTask>, line: seq<ScanTask>, k: nat)
    requires line != [] && k <= |order| && line == [] + order[|order| - k..]
    ensures k > 0 && line == [line[0]] + order[|order| - (k - 1)..]
  {
  }

  /** No chunk is opened before the previous one is settled. */
  lemma {:induction false} ChunksOneAtATime(cfg: ScanConfig, h: seq<Read>) returns (open: seq<ScanTask>, k: nat)
    requires Follows(Order(cfg), h)
    ensures OneChunkAtATime(cfg, StackAfter(Order(cfg), h), open, k)
  {
    if h == [] {
      open, k := [], |Order(cfg)|;
    } else {
      var front, r := h[..|h| - 1], h[|h| - 1];
      open, k := ChunksOneAtATime(cfg, front);
      LineIsInside(cfg, front);
      assert StackAfter(Order(cfg), front)[0] in StackAfter(Order(cfg), front);
      open, k := OneChunkStep(cfg, StackAfter(Order(cfg), front), open, k, r);
    }
  }

  lemma OneChunkStep(cfg: ScanConfig, line: seq<ScanTask>, open: seq<ScanTask>, k: nat, r: Read) returns (open': seq<ScanTask>, k': nat)
    requires line != [] && line[0].count <= 125 && r.task == line[0] && OneChunkAtATime(cfg, line, open, k)
    ensures OneChunkAtATime(cfg, After(line, r), open', k')
  {
    open', k' := open, k;
    if open == [] {
      NextChunk(cfg, line, k);
      open', k' := [line[0]], k - 1;
    }
    AfterOfConcat(open', Order(cfg)[|Order(cfg)| - k'..], r);
    SteepAfter(open', r);
    open' := After(open', r);
  }

  /** The queue never holds more than seven intervals beyond the number of chunks. */
  lemma QueueIsShort(cfg: ScanConfig, h: seq<Read>)
    requires Follows(Order(cfg), h)
    ensures |StackAfter(Order(cfg), h)| <= Chunks(cfg.RangeLen()) + 7
  {
    var open, k := ChunksOneAtATime(cfg, h);
    var line := StackAfter(Order(cfg), h);
    LineIsInside(cfg, h);
    forall t | t in open ensures t.count >= 1 {
      assert t in line;
    }
    SteepIsShort(open);
    OrderIsChunks(cfg);
  }

  // ----- depth first, as a recursion -----

  /** h is the complete exploration of t: read it; if that fails and t has more than one
      register, explore its left half, then its right half. */
  ghost predicate Explores(t: ScanTask, h: seq<Read>)
    decreases t.count
  {
    && |h| >= 1 && h[0].task == t
    && if h[0].result.success || !Splits(t) then |h| == 1
       else exists k :: 1 <= k <= |h| && Explores(Left(t), h[1..k]) && Explores(Right(t), h[k..])
  }

  /** The stack machine read from the front: h empties the stack. */
  ghost predicate Drains(line: seq<ScanTask>, h: seq<Read>)
    decreases |h|
  {
    if h == [] then line == []
    else line != [] && line[0] == h[0].task && Drains(After(line, h[0]), h[1..])
  }

  /** The explorations of the intervals ts, one after the other. */
  ghost predicate ExploresAll(ts: seq<ScanTask>, h: seq<Read>) {
    if ts == [] then h == []
    else exists k :: 0 <= k <= |h| && Explores(ts[0], h[..k]) && ExploresAll(ts[1..], h[k..])
  }

  lemma {:induction false} StackFromFront(line: seq<ScanTask>, h: seq<Read>)
    requires h != []
    ensures StackAfter(line, h) == StackAfter(After(line, h[0]), h[1..])
    ensures Follows(line, h) <==> line != [] && line[0] == h[0].task && Follows(After(line, h[0]), h[1..])
    decreases |h|
  {
    var front := h[..|h| - 1];
    if front == [] {
      assert h[1..] == [];
      assert StackAfter(line, front) == line;
    } else {
      StackFromFront(line, front);
      assert front[1..] == h[1..][..|h[1..]| - 1];
      assert front[0] == h[0];
    }
  }

  lemma {:induction false} FollowingDrains(line: seq<ScanTask>, h: seq<Read>)
    requires Follows(line, h) && StackAfter(line, h) == []
    ensures Drains(line, h)
    decreases |h|
  {
    if h != [] {
      StackFromFront(line, h);
      FollowingDrains(After(line, h[0]), h[1..]);
    }
  }

  /** What is on top of the stack is drained before anything below it is touched. */
  lemma {:induction false} DrainsTopFirst(top: seq<ScanTask>, rest: seq<ScanTask>, h: seq<Read>) returns (k: nat)
    requires Drains(top + rest, h)
    ensures k <= |h| && Drains(top, h[..k]) && Drains(rest, h[k..])
    decreases |h|
  {
    if top == [] {
      k := 0;
      assert top + rest == rest && h[0..] == h;
    } else {
      assert (top + rest)[1..] == top[1..] + rest;
      assert After(top + rest, h[0]) == After(top, h[0]) + rest;
      var j := DrainsTopFirst(After(top, h[0]), rest, h[1..]);
      k := j + 1;
      assert h[..k][1..] == h[1..][..j];
      assert h[k..] == h[1..][j..];
    }
  }

  lemma {:induction false} DrainsIsExplores(t: ScanTask, h: seq<Read>)
    requires Drains([t], h)
    ensures Explores(t, h)
    decreases t.count
  {
    var s := After([t], h[0]);
    assert [t][1..] == [];
    if !h[0].result.success && Splits(t) {
      assert s == [Left(t)] + [Right(t)];
      var j := DrainsTopFirst([Left(t)], [Right(t)], h[1..]);
      assert h[1..][..j] == h[1..j + 1] && h[1..][j..] == h[j + 1..];
      DrainsIsExplores(Left(t), h[1..j + 1]);
      DrainsIsExplores(Right(t), h[j + 1..]);
    } else {
      assert Drains([], h[1..]);
    }
  }

  lemma {:induction false} DrainsIsExploresAll(ts: seq<ScanTask>, h: seq<Read>)
    requires Drains(ts, h)
    ensures ExploresAll(ts, h)
    decreases |ts|
  {
    if ts != [] {
      assert ts == [ts[0]] + ts[1..];
      var k := DrainsTopFirst([ts[0]], ts[1..], h);
      DrainsIsExplores(ts[0], h[..k]);
      DrainsIsExploresAll(ts[1..], h[k..]);
    }
  }

  // ----- a finished run -----

  ghost predicate Report(cfg: ScanConfig, h: seq<Read>) {
    Follows(Order(cfg), h) && StackAfter(Order(cfg), h) == []
  }

  /** For any answers: the run explores the chunks one after the other, depth first. */
  lemma ReportIsDepthFirst(cfg: ScanConfig, h: seq<Read>)
    requires Report(cfg, h)
    ensures ExploresAll(Order(cfg), h)
  {
    FollowingDrains(Order(cfg), h);
    DrainsIsExploresAll(Order(cfg), h);
  }

  lemma {:induction false} SettledWas(h: seq<Read>, t: ScanTask)
    requires t in SettledTasks(h)
    ensures exists r :: r in h && r.task == t && (r.result.success || !Splits(t))
  {
    var front, r := h[..|h| - 1], h[|h| - 1];
    assert h == front + [r];
    if t in SettledTasks(front) {
      SettledWas(front, t);
      var q :| q in front && q.task == t && (q.result.success || !Splits(t));
      assert q in h;
    }
  }

  /** For any answers: each address of the range lies in exactly one settled interval,
      so it is captured or was refused on its own. */
  lemma ReportSettlesRange(cfg: ScanConfig, h: seq<Read>, a: int)
    requires Report(cfg, h) && cfg.startAddress <= a <= cfg.endAddress
    ensures Hits(SettledTasks(h), a) == 1
    ensures Settled(h, a)
  {
    RangeIsConserved(cfg, h, a);
    HitsMember(SettledTasks(h), a);
    var t :| t in SettledTasks(h) && t.Holds(a);
    SettledWas(h, t);
    var r :| r in h && r.task == t && (r.result.success || !Splits(t));
    if !r.result.success {
      ReadsAreInside(cfg, h, r);
      assert t == ScanTask(a, 1);
    }
  }

  lemma {:induction false} ReadsAreInside(cfg: ScanConfig, h: seq<Read>, r: Read)
    requires Follows(Order(cfg), h) && r in h
    ensures r.task.Inside(cfg.startAddress, cfg.endAddress)
  {
    var front, last := h[..|h| - 1], h[|h| - 1];
    assert h == front + [last];
    if r in front {
      ReadsAreInside(cfg, front, r);
    } else {
      LineIsInside(cfg, front);
      assert StackAfter(Order(cfg), front)[0] in StackAfter(Order(cfg), front);
    }
  }

  /** On an interval-readable device the capture is exactly the readable part of the range. */
  lemma ReportIsComplete(cfg: ScanConfig, h: seq<Read>, R: set<int>, a: int)
    requires Report(cfg, h) && IntervalReadable(h, R)
    ensures Captured(h, a) <==> cfg.startAddress <= a <= cfg.endAddress && a in R
  {
    if Captured(h, a) {
      CapturedIsReadable(h, R, a);
      var r :| r in h && r.result.success && r.task.Holds(a);
      ReadsAreInside(cfg, h, r);
    } else if cfg.startAddress <= a <= cfg.endAddress && a in R {
      ReportSettlesRange(cfg, h, a);
      var r :| r in h && !r.result.success && r.task == ScanTask(a, 1);
      assert forall b :: r.task.Holds(b) ==> b == a;
    }
  }

  /** For any answers: how many reads a run makes, exactly; at most the worst case, and the
      worst case when every read fails. */
  lemma ReportCost(cfg: ScanConfig, h: seq<Read>)
    requires Report(cfg, h)
    ensures |h| == WorstCase(cfg) - Saved(h) <= WorstCase(cfg)
    ensures (forall r :: r in h ==> !r.result.success) ==> |h| == WorstCase(cfg)
  {
    CostIsConserved(cfg, h);
    SavedIsPositive(cfg, h);
  }

  // ----- halving, on the reads themselves -----

  /** In a line that is drained, a failed read of more than one register is followed by the
      read of its first half, and the rest of it is read later. */
  lemma {:induction false} DrainsHalves(line: seq<ScanTask>, h: seq<Read>, i: nat) returns (j: nat)
    requires Drains(line, h) && i < |h| && !h[i].result.success
    requires h[i].task.count > 1 && h[i].task.start + h[i].task.count <= 0x1_0000
    ensures var t, n := h[i].task, h[i].task.count;
            && i + 1 < j < |h| && h[i + 1].task.start == t.start && h[i + 1].task.count == n / 2
            && h[j].task.start == t.start + n / 2 && h[j].task.count == n - n / 2
    decreases i
  {
    if i > 0 {
      j := DrainsHalves(After(line, h[0]), h[1..], i - 1);
      j := j + 1;
    } else {
      var t, rest := line[0], line[1..];
      assert After(line, h[0]) == [Left(t)] + ([Right(t)] + rest);
      var k := DrainsTopFirst([Left(t)], [Right(t)] + rest, h[1..]);
      assert h[1..][..k][0] == h[1] && h[1..][k..][0] == h[1 + k];
      j := 1 + k;
    }
  }

  /** For any answers: in a finished run a failed interval of n > 1 registers is followed by
      the read of its first n / 2, and its last n - n / 2 are read later. */
  lemma FailedIsHalved(cfg: ScanConfig, h: seq<Read>, i: nat) returns (j: nat)
    requires Report(cfg, h) && i < |h| && !h[i].result.success && h[i].task.count > 1
    ensures var t, n := h[i].task, h[i].task.count;
            && i + 1 < j < |h| && h[i + 1].task.start == t.start && h[i + 1].task.count == n / 2
            && h[j].task.start == t.start + n / 2 && h[j].task.count == n - n / 2
  {
    ReadsAreInside(cfg, h, h[i]);
    FollowingDrains(Order(cfg), h);
    j := DrainsHalves(Order(cfg), h, i);
  }

  /** How many of the n addresses from start are not readable. */
  function Unreadable(start: int, n: nat, R: set<int>): nat {
    if n == 0 then 0 else Unreadable(start, n - 1, R) + if start + n - 1 in R then 0 else 1
  }

  lemma {:induction false} UnreadableAdds(start: int, m: nat, n: nat, R: set<int>)
    ensures Unreadable(start, m + n, R) == Unreadable(start, m, R) + Unreadable(start + m, n, R)
  {
    if n > 0 {
      UnreadableAdds(start, m, n - 1, R);
    }
  }

  lemma {:induction false} NoneUnreadable(start: int, n: nat, R: set<int>)
    ensures Unreadable(start, n, R) == 0 <==> forall a :: start <= a < start + n ==> a in R
  {
    if n > 0 {
      NoneUnreadable(start, n - 1, R);
      assert Unreadable(start, n, R) == 0 ==> start + n - 1 in R;
    }
  }

  /** 2 k u + 1, one level of halving at a time. */
  function SearchBound(k: nat, u: nat): nat {
    if k == 0 then 1 else 2 * u + SearchBound(k - 1, u)
  }

  lemma {:induction false} SearchBoundIs(k: nat, u: nat)
    ensures SearchBound(k, u) == 2 * k * u + 1
  {
    if k > 0 {
      SearchBoundIs(k - 1, u);
      assert 2 * k * u == 2 * (k - 1) * u + 2 * u;
    }
  }

  lemma {:induction false} SearchBoundAdds(k: nat, v: nat, w: nat)
    ensures SearchBound(k, v) + SearchBound(k, w) == SearchBound(k, v + w) + 1
  {
    if k > 0 {
      SearchBoundAdds(k - 1, v, w);
    }
  }

  lemma HalvesFit(n: nat, k: nat)
    requires 1 < n <= Pow2(k)
    ensures k > 0 && 1 <= n / 2 <= n - n / 2 <= Pow2(k - 1)
  {
  }

  lemma BoundsAdd(k: nat, v: nat, w: nat, m: nat, n: nat)
    requires k > 0 && v + w > 0 && m <= SearchBound(k - 1, v) && n <= SearchBound(k - 1, w)
    ensures 1 + m + n <= SearchBound(k, v + w)
  {
    SearchBoundAdds(k - 1, v, w);
  }

  /** The halves share the unreadable addresses, and fit into half the room. */
  lemma HalvesShare(t: ScanTask, R: set<int>, k: nat)
    requires Splits(t) && t.count <= Pow2(k)
    ensures Unreadable(t.start, t.count, R) == Unreadable(Left(t).start, Left(t).count, R) + Unreadable(Right(t).start, Right(t).count, R)
    ensures k > 0 && 1 <= Left(t).count <= Right(t).count <= Pow2(k - 1)
  {
    UnreadableAdds(t.start, Left(t).count, Right(t).count, R);
    HalvesFit(t.count, k);
  }

  /** The reads it takes to search t on an interval-readable device. */
  function SearchCost(t: ScanTask, R: set<int>): nat
    decreases t.count
  {
    if Unreadable(t.start, t.count, R) == 0 || !Splits(t) then 1 else 1 + SearchCost(Left(t), R) + SearchCost(Right(t), R)
  }

  function SearchCosts(ts: seq<ScanTask>, R: set<int>): nat {
    if ts == [] then 0 else SearchCost(ts[0], R) + SearchCosts(ts[1..], R)
  }

  lemma SearchCostsOfTwo(a: ScanTask, b: ScanTask, rest: seq<ScanTask>, R: set<int>)
    ensures SearchCosts([a, b] + rest, R) == SearchCost(a, R) + SearchCost(b, R) + SearchCosts(rest, R)
  {
    assert ([a, b] + rest)[1..] == [b] + rest && ([b] + rest)[1..] == rest;
  }

  lemma AnswerCosts(line: seq<ScanTask>, r: Read, R: set<int>)
    requires line != [] && r.task == line[0] && (r.result.success <==> Unreadable(r.task.start, r.task.count, R) == 0)
    ensures 1 + SearchCosts(After(line, r), R) == SearchCosts(line, R)
  {
    if !r.result.success && Splits(line[0]) {
      SearchCostsOfTwo(Left(line[0]), Right(line[0]), line[1..], R);
    }
  }

  /** After every read: reads made and reads still to make are those of searching the chunks. */
  lemma {:induction false} SearchIsConserved(cfg: ScanConfig, h: seq<Read>, R: set<int>)
    requires Follows(Order(cfg), h) && IntervalReadable(h, R)
    ensures |h| + SearchCosts(StackAfter(Order(cfg), h), R) == SearchCosts(Order(cfg), R)
  {
    if h != [] {
      var front, r := h[..|h| - 1], h[|h| - 1];
      assert r in h && forall q :: q in front ==> q in h;
      SearchIsConserved(cfg, front, R);
      NoneUnreadable(r.task.start, r.task.count, R);
      AnswerCosts(StackAfter(Order(cfg), front), r, R);
    }
  }

  lemma {:induction false} SearchIsBounded(t: ScanTask, R: set<int>, k: nat)
    requires 1 <= t.count <= Pow2(k) && t.start + t.count <= 0x1_0000
    ensures SearchCost(t, R) <= SearchBound(k, Unreadable(t.start, t.count, R))
    decreases t.count
  {
    if Unreadable(t.start, t.count, R) > 0 && t.count > 1 {
      HalvesShare(t, R, k);
      SearchIsBounded(Left(t), R, k - 1);
      SearchIsBounded(Right(t), R, k - 1);
      BoundsAdd(k, Unreadable(Left(t).start, Left(t).count, R), Unreadable(Right(t).start, Right(t).count, R), SearchCost(Left(t), R), SearchCost(Right(t), R));
    } else {
      SearchBoundAdds(k, 0, Unreadable(t.start, t.count, R));
    }
  }

  /** The search of an interval of at most 2^k registers takes 2 k reads for each unreadable
      one, and one more. */
  lemma SearchIsShort(t: ScanTask, R: set<int>, k: nat)
    requires 1 <= t.count <= Pow2(k) && t.start + t.count <= 0x1_0000
    ensures SearchCost(t, R) <= 2 * k * Unreadable(t.start, t.count, R) + 1
  {
    SearchIsBounded(t, R, k);
    SearchBoundIs(k, Unreadable(t.start, t.count, R));
  }

  /** Unreadable addresses of the intervals ts. */
  function UnreadableIn(ts: seq<ScanTask>, R: set<int>): nat {
    if ts == [] then 0 else Unreadable(ts[0].start, ts[0].count, R) + UnreadableIn(ts[1..], R)
  }

  lemma {:induction false} SearchesAreShort(ts: seq<ScanTask>, R: set<int>)
    requires forall t :: t in ts ==> 1 <= t.count <= 125 && t.start + t.count <= 0x1_0000
    ensures SearchCosts(ts, R) <= |ts| + 14 * UnreadableIn(ts, R)
  {
    if ts != [] {
      assert ts[0] in ts && forall t :: t in ts[1..] ==> t in ts;
      WidthOfWindow();
      SearchIsShort(ts[0], R, 7);
      SearchesAreShort(ts[1..], R);
    }
  }

  lemma {:induction false} UnreadableInConcat(s: seq<ScanTask>, t: seq<ScanTask>, R: set<int>)
    ensures UnreadableIn(s + t, R) == UnreadableIn(s, R) + UnreadableIn(t, R)
  {
    if s == [] {
      assert s + t == t;
    } else {
      UnreadableInConcat(s[1..], t, R);
      assert (s + t)[1..] == s[1..] + t;
    }
  }

  lemma {:induction false} UnreadableInChunks(from: nat, end: U16, R: set<int>)
    requires from <= end + 1
    ensures UnreadableIn(ChunksFrom(from, end), R) == Unreadable(from, end + 1 - from, R)
    decreases end + 1 - from
  {
    if from + 125 <= end {
      UnreadableInChunks(from + 125, end, R);
      UnreadableAdds(from, 125, end + 1 - from - 125, R);
    } else if from <= end {
      assert ChunksFrom(from, end)[1..] == [];
    }
  }

  lemma UnreadableInOrder(cfg: ScanConfig, R: set<int>)
    ensures UnreadableIn(Order(cfg), R) == Unreadable(cfg.startAddress, cfg.RangeLen(), R)
  {
    var c := ChunksFrom(cfg.startAddress, cfg.endAddress);
    if cfg.startAddress <= cfg.endAddress {
      UnreadableInChunks(cfg.startAddress, cfg.endAddress, R);
      if c != [] {
        assert c == c[..|c| - 1] + [c[|c| - 1]];
        UnreadableInConcat(c[..|c| - 1], [c[|c| - 1]], R);
        UnreadableInConcat([c[|c| - 1]], c[..|c| - 1], R);
      }
    }
  }

  /** On an interval-readable device a run takes one read for each 125 registers and at most
      fourteen more for each unreadable register. */
  lemma ReportIsShort(cfg: ScanConfig, h: seq<Read>, R: set<int>)
    requires Report(cfg, h) && IntervalReadable(h, R)
    ensures |h| <= Chunks(cfg.RangeLen()) + 14 * Unreadable(cfg.startAddress, cfg.RangeLen(), R)
  {
    SearchIsConserved(cfg, h, R);
    forall t | t in Order(cfg) ensures 1 <= t.count <= 125 && t.start + t.count <= 0x1_0000 {
      OrderIsInside(cfg, t);
    }
    SearchesAreShort(Order(cfg), R);
    OrderIsChunks(cfg);
    UnreadableInOrder(cfg, R);
  }

  /** One unreadable register in a range of one full chunk: at most fifteen reads. */
  lemma OneUnreadableCosts(cfg: ScanConfig, h: seq<Read>, R: set<int>)
    requires Report(cfg, h) && IntervalReadable(h, R) && cfg.RangeLen() == 125 && Unreadable(cfg.startAddress, 125, R) == 1
    ensures |h| <= 15
  {
    ReportIsShort(cfg, h, R);
  }

  /** The bound the tool prints, in 32 bits; it counts at least one chunk. */
  function Printed(cfg: ScanConfig): U32 {
    var n := cfg.RangeLen();
    (2 * n - if Chunks(n) == 0 then 1 else Chunks(n)) % 0x1_0000_0000
  }

  /** That is the worst case exactly for a range of at least one register; for an empty one
      it wraps around. */
  lemma PrintedIsWorstCaseIff(cfg: ScanConfig)
    ensures Printed(cfg) == WorstCase(cfg) <==> cfg.startAddress <= cfg.endAddress
    ensures cfg.startAddress > cfg.endAddress ==> Printed(cfg) == 0xFFFF_FFFF && WorstCase(cfg) == 0
  {
    var n := cfg.RangeLen();
    assert n <= 0x1_0000;
  }

  // ----- the strategy -----

  /** start<<16 | count. */
  function IntervalKey(t: ScanTask): U32 {
    t.start * 0x1_0000 + t.count
  }

  lemma IntervalKeyIsInjective(t: ScanTask, u: ScanTask)
    ensures IntervalKey(t) == IntervalKey(u) <==> t == u
  {
    if IntervalKey(t) == IntervalKey(u) {
      assert (t.start - u.start) * 0x1_0000 == u.count - t.count;
    }
  }

  ghost function KeysOf(h: seq<Read>): set<U32> {
    set r | r in h :: IntervalKey(r.task)
  }

  lemma HeadAndTail(s: seq<ScanTask>)
    requires s != []
    ensures multiset(s) == multiset(s[1..]) + multiset{s[0]}
  {
    assert s == [s[0]] + s[1..];
  }

  lemma AfterAsMultiset(line: seq<ScanTask>, r: Read)
    requires line != []
    ensures !(!r.result.success && Splits(line[0])) ==> multiset(After(line, r)) == multiset(line[1..])
    ensures !r.result.success && Splits(line[0]) ==>
              multiset(After(line, r)) == multiset(line[1..]) + multiset{Left(line[0])} + multiset{Right(line[0])}
  {
    if !r.result.success && Splits(line[0]) {
      assert multiset([Left(line[0]), Right(line[0])]) == multiset{Left(line[0])} + multiset{Right(line[0])};
    }
  }

  lemma MultisetCancel<T>(s: multiset<T>, t: multiset<T>, x: T)
    requires s + multiset{x} == t + multiset{x}
    ensures s == t
  {
    assert s == (s + multiset{x}) - multiset{x};
  }

  lemma OneChunkLess(pushed: seq<ScanTask>, start: nat, end: U16)
    requires start <= end
    ensures var t := ScanTask(start, if end - start + 1 < MAX_BLOCK_SIZE then end - start + 1 else MAX_BLOCK_SIZE);
            pushed + ChunksFrom(start, end) == (pushed + [t]) + ChunksFrom(start + t.count, end)
  {
  }

  lemma NoChunkLeft(pushed: seq<ScanTask>, start: nat, end: U16)
    requires start > end
    ensures pushed + ChunksFrom(start, end) == pushed
  {
  }

  /** Pushes the initial chunks. */
  method InitialQueue(c: ScanConfig) returns (q: seq<ScanTask>)
    ensures IsHeap(q) && multiset(q) == multiset(ChunksFrom(c.startAddress, c.endAddress))
  {
    q := [];
    var start: U32 := c.startAddress;
    ghost var pushed: seq<ScanTask> := [];
    while start <= c.endAddress
      invariant IsHeap(q) && multiset(q) == multiset(pushed)
      invariant pushed + ChunksFrom(start, c.endAddress) == ChunksFrom(c.startAddress, c.endAddress)
      decreases c.endAddress + 1 - start
    {
      var count := if c.endAddress - start + 1 < MAX_BLOCK_SIZE then c.endAddress - start + 1 else MAX_BLOCK_SIZE;
      q := Push(q, ScanTask(start, count));
      OneChunkLess(pushed, start, c.endAddress);
      pushed := pushed + [ScanTask(start, count)];
      start := start + count;
    }
    NoChunkLeft(pushed, start, c.endAddress);
  }

  /** Pushes both halves of a failed interval. */
  method PushHalves(h: seq<ScanTask>, task: ScanTask) returns (q: seq<ScanTask>)
    requires IsHeap(h) && Splits(task)
    ensures IsHeap(q) && multiset(q) == multiset(h) + multiset{Left(task)} + multiset{Right(task)}
  {
    var leftCount := task.count / 2;
    var rightStart := task.start + leftCount;
    var rightCount := task.count - leftCount;
    q := Push(h, ScanTask(task.start, leftCount));
    q := Push(q, ScanTask(rightStart, rightCount));
  }

  /** Puts the halves of a failed interval back into the queue. */
  method Requeue(h: seq<ScanTask>, ghost line: seq<ScanTask>, r: Read) returns (q: seq<ScanTask>)
    requires IsHeap(h) && line != [] && line[0] == r.task && multiset(h) == multiset(line[1..]) && 1 <= r.task.count <= 125
    requires r.task.start + r.task.count <= 0x1_0000
    ensures IsHeap(q) && multiset(q) == multiset(After(line, r))
  {
    AfterAsMultiset(line, r);
    q := h;
    if !r.result.success && r.task.count > 1 {
      q := PushHalves(h, r.task);
      assert Splits(line[0]);
    }
  }

  /** After the reads h the queue holds the open intervals, the top of the stack apart while
      it is read, and the visited set the keys of all intervals that were taken. */
  ghost predicate Keeps(cfg: ScanConfig, h: seq<Read>, queue: seq<ScanTask>, visited: set<U32>, pending: Option<ScanTask>) {
    var line := StackAfter(Order(cfg), h);
    && Follows(Order(cfg), h)
    && IsHeap(queue)
    && match pending
       case None => multiset(queue) == multiset(line) && visited == KeysOf(h)
       case Some(t) => line != [] && line[0] == t && multiset(queue) == multiset(line[1..])
                       && visited == KeysOf(h) + {IntervalKey(t)}
  }

  lemma NothingRead(cfg: ScanConfig, q: seq<ScanTask>)
    requires IsHeap(q) && multiset(q) == multiset(ChunksFrom(cfg.startAddress, cfg.endAddress))
    ensures Keeps(cfg, [], q, {}, None)
  {
    OrderIsChunks(cfg);
  }

  lemma TopIsInside(cfg: ScanConfig, h: seq<Read>)
    requires Follows(Order(cfg), h) && StackAfter(Order(cfg), h) != []
    ensures StackAfter(Order(cfg), h)[0].Inside(cfg.startAddress, cfg.endAddress)
  {
    LineIsInside(cfg, h);
    assert StackAfter(Order(cfg), h)[0] in StackAfter(Order(cfg), h);
  }

  /** What a new read makes of the stack, the queue that holds it and the keys. */
  lemma AnswerIsLearned(cfg: ScanConfig, h: seq<Read>, r: Read, queue: seq<ScanTask>, visited: set<U32>, q: seq<ScanTask>)
    requires Keeps(cfg, h, queue, visited, Some(r.task))
    requires IsHeap(q) && multiset(q) == multiset(After(StackAfter(Order(cfg), h), r))
    ensures Keeps(cfg, h + [r], q, visited, None)
  {
    FollowsOne(Order(cfg), h, r);
    KeysOfOne(h, r);
  }

  lemma KeysOfOne(h: seq<Read>, r: Read)
    ensures KeysOf(h + [r]) == KeysOf(h) + {IntervalKey(r.task)}
  {
  }

  class SmartStrategy {
    const cfg: ScanConfig
    var queue: seq<ScanTask>
    var visited: set<U32>

    ghost var trace: seq<Read>
    ghost var pending: Option<ScanTask>

    /** The stack of open intervals; the interval being read is still on it. */
    ghost function Line(): seq<ScanTask>
      reads this
    {
      StackAfter(Order(cfg), trace)
    }

    ghost predicate Valid()
      reads this
    {
      Keeps(cfg, trace, queue, visited, pending)
    }

    constructor (c: ScanConfig)
      ensures Valid() && cfg == c && trace == [] && pending == None
    {
      cfg := c;
      visited := {};
      var q := InitialQueue(c);
      queue := q;
      trace, pending := [], None;
      NothingRead(c, q);
    }

    predicate Finished()
      reads this
    {
      |queue| == 0
    }

    /** Never more reads than the bound, the pending one included. */
    lemma WithinWorstCase()
      requires Valid()
      ensures |trace| + (if pending.Some? then 1 else 0) <= WorstCase(cfg)
    {
      CostIsConserved(cfg, trace);
      SavedIsPositive(cfg, trace);
      LineIsInside(cfg, trace);
      CostIsPositive(Line());
    }

    lemma FinishedReports()
      requires Valid() && pending == None && Finished()
      ensures Report(cfg, trace)
    {
      assert multiset(Line()) == multiset([]);
    }

    /** The least interval of the heap is the top of the stack. */
    lemma LeastIsTop(iv: ScanTask, rest: seq<ScanTask>)
      requires Valid() && pending == None && multiset(queue) == multiset(rest) + multiset{iv}
      requires forall t :: t in queue ==> !Less(t, iv)
      ensures Line() != [] && iv == Line()[0] && multiset(rest) == multiset(Line()[1..])
    {
      var line := Line();
      assert iv in multiset(queue) && iv in multiset(line);
      HeadAndTail(line);
      assert line[0] in multiset(queue);
      LineIsSorted(cfg, trace);
      var i :| 0 <= i < |line| && line[i] == iv;
      assert i > 0 ==> Less(line[0], line[i]);
      MultisetCancel(multiset(rest), multiset(line[1..]), iv);
    }

    /** The visited set never holds an open interval. */
    lemma KeyIsNew(iv: ScanTask)
      requires Follows(Order(cfg), trace) && iv in Line()
      ensures IntervalKey(iv) !in KeysOf(trace)
    {
      forall r | r in trace ensures IntervalKey(r.task) != IntervalKey(iv) {
        IntervalKeyIsInjective(r.task, iv);
        LineIsUnread(cfg, trace, r, iv);
      }
    }

    method Next() returns (task: Option<ScanTask>)
      requires Valid() && pending == None
      modifies this
      ensures Valid() && pending == task && trace == old(trace)
      ensures task.Some? ==> old(Line()) != [] && task.value == old(Line())[0]
      ensures task.Some? ==> task.value.Inside(cfg.startAddress, cfg.endAddress)
      ensures task == None ==> Report(cfg, trace)
    {
      // The source loops to skip intervals read before. None ever is: LineIsUnread.
      if |queue| > 0 {
        var iv, rest := Pop(queue);
        LeastIsTop(iv, rest);
        queue := rest;
        var key := IntervalKey(iv);
        KeyIsNew(iv);
        assert key !in visited;
        visited := visited + {key};
        LineIsInside(cfg, trace);
        pending := Some(iv);
        return Some(iv);
      }
      FinishedReports();
      return None;
    }

    method OnResult(task: ScanTask, result: ScanResult)
      requires Valid() && pending == Some(task)
      modifies this
      ensures Valid() && pending == None && trace == old(trace) + [Read(task, result)]
    {
      var read := Read(task, result);
      TopIsInside(cfg, trace);
      var q := Requeue(queue, Line(), read);
      AnswerIsLearned(cfg, trace, read, queue, visited, q);
      queue := q;
      pending, trace := None, trace + [read];
    }
  }
}
