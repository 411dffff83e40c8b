/** The stepped strategy (internal/modbus/scan_algo.go, 472-682): probe around every
    step position; after a hit, try growing reads from the hit address. */
module Stepped {
  import opened Seqs
  import opened ScanTypes

  // ----- step positions -----

  function Grid(cfg: ScanConfig, j: nat): int {
    cfg.startAddress + j * cfg.step
  }

  predicate Halves(cfg: ScanConfig) {
    cfg.stepHalfOffset && cfg.step >= 2
  }

  /** The half-step position behind a grid position; the source adds in 16 bits. */
  function HalfStep(cfg: ScanConfig, pos: int): int {
    (pos + cfg.step / 2) % 0x1_0000
  }

  /** p is a grid position of the range, or a half-step position that is not past its end. */
  ghost predicate IsPosition(cfg: ScanConfig, p: int) {
    cfg.step > 0 && p <= cfg.endAddress
    && exists j: nat :: Grid(cfg, j) <= cfg.endAddress && (p == Grid(cfg, j) || (Halves(cfg) && p == HalfStep(cfg, Grid(cfg, j))))
  }

  /** Grid positions in the range. */
  function Steps(cfg: ScanConfig): nat {
    if cfg.step == 0 || cfg.RangeLen() == 0 then 0 else (cfg.RangeLen() - 1) / cfg.step + 1
  }

  function WorstCase(cfg: ScanConfig): nat {
    12 * Steps(cfg) * if Halves(cfg) then 2 else 1
  }

  ghost predicate Ascending(s: seq<U16>) {
    forall i, j :: 0 <= i < j < |s| ==> s[i] < s[j]
  }

  /** The positions visited: exactly the step positions, in ascending order. */
  ghost predicate PositionsOf(cfg: ScanConfig, s: seq<U16>) {
    && Ascending(s)
    && (forall p :: p in s <==> IsPosition(cfg, p))
    && |s| <= Steps(cfg) * if Halves(cfg) then 2 else 1
  }

  lemma {:induction false} BeyondQuotient(k: nat, q: nat, step: nat)
    ensures k > q ==> k * step >= q * step + step
    decreases k
  {
    if k > q {
      assert k * step == (k - 1) * step + step;
      BeyondQuotient(k - 1, q, step);
    }
  }

  lemma QuotientBound(k: nat, step: nat, n: nat)
    requires step > 0 && k * step <= n
    ensures k <= n / step
  {
    BeyondQuotient(k, n / step, step);
    assert n == (n / step) * step + n % step;
  }

  lemma GridStep(cfg: ScanConfig, j: nat)
    ensures Grid(cfg, j + 1) == Grid(cfg, j) + cfg.step
  {
  }

  lemma {:induction false} GridGrows(cfg: ScanConfig, i: nat, j: nat)
    requires i <= j
    ensures Grid(cfg, i) <= Grid(cfg, j)
    decreases j - i
  {
    if i < j {
      GridGrows(cfg, i, j - 1);
      GridStep(cfg, j - 1);
    }
  }

  /** p in an ascending list, once. */
  function Insert(s: seq<U16>, p: U16): seq<U16> {
    if s == [] then [p]
    else if s[0] < p then [s[0]] + Insert(s[1..], p)
    else if s[0] == p then s
    else [p] + s
  }

  lemma {:induction false} InsertIs(s: seq<U16>, p: U16)
    requires Ascending(s)
    ensures Ascending(Insert(s, p)) && |Insert(s, p)| <= |s| + 1
    ensures forall q :: q in Insert(s, p) <==> q in s || q == p
  {
    if s != [] && s[0] < p {
      InsertIs(s[1..], p);
      var t := Insert(s[1..], p);
      forall i | 0 <= i < |t| ensures s[0] < t[i] {
        assert t[i] in t;
      }
      assert forall q :: q in s <==> q == s[0] || q in s[1..];
    }
  }

  /** slices.Sort on a list without repeats. */
  method Sort(s: seq<U16>) returns (t: seq<U16>)
    ensures Ascending(t) && |t| <= |s| && forall q :: q in t <==> q in s
  {
    t := [];
    for i := 0 to |s|
      invariant Ascending(t) && |t| <= i && forall q :: q in t <==> q in s[..i]
    {
      InsertIs(t, s[i]);
      t := Insert(t, s[i]);
    }
  }

  /** p belongs to one of the first k steps. */
  ghost predicate OfFirst(cfg: ScanConfig, k: nat, p: int) {
    p <= cfg.endAddress
    && exists j: nat :: j < k && (p == Grid(cfg, j) || (Halves(cfg) && p == HalfStep(cfg, Grid(cfg, j))))
  }

  lemma OfFirstStep(cfg: ScanConfig, k: nat, p: int)
    ensures OfFirst(cfg, k + 1, p)
            <==> OfFirst(cfg, k, p)
                 || (p <= cfg.endAddress && (p == Grid(cfg, k) || (Halves(cfg) && p == HalfStep(cfg, Grid(cfg, k)))))
  {
    if OfFirst(cfg, k, p) {
      var j: nat :| j < k && (p == Grid(cfg, j) || (Halves(cfg) && p == HalfStep(cfg, Grid(cfg, j))));
      assert j < k + 1;
    }
    assert k < k + 1;
  }

  /** Appends p unless it is past the end or there already. */
  method Add(s: seq<U16>, end: U16, p: U16) returns (t: seq<U16>)
    ensures |t| <= |s| + 1
    ensures forall q :: q in t <==> q in s || (q == p && p <= end)
  {
    if p <= end && p !in s {
      return s + [p];
    }
    return s;
  }

  /** The step positions: the loop of Init, then the sort. */
  method StepPositions(cfg: ScanConfig) returns (s: seq<U16>)
    ensures PositionsOf(cfg, s)
  {
    s := [];
    if cfg.step == 0 {
      return;
    }
    var start, end := cfg.startAddress, cfg.endAddress;
    var pos := start;
    ghost var k := 0;
    ghost var w := if Halves(cfg) then 2 else 1;
    var more := pos <= end;
    while more
      invariant |s| <= k * w && forall p :: p in s <==> OfFirst(cfg, k, p)
      invariant k > 0 ==> Grid(cfg, k - 1) <= end
      invariant if more then pos == Grid(cfg, k) <= end else Grid(cfg, k) > end
      decreases more, end - pos
    {
      s := AddStep(cfg, s, pos, k, w);
      k := k + 1;
      GridStep(cfg, k - 1);
      if pos >= end {
        break;
      }
      var prev := pos;
      pos := (pos + cfg.step) % 0x1_0000;
      if pos < prev {
        break;
      }
      more := pos <= end;
    }
    PositionsAreFirst(cfg, k);
    StepsBound(cfg, k);
    s := Sort(s);
    WMonotone(k, Steps(cfg), w);
  }

  /** The positions of grid step k: the step itself and, if asked for, half a step on. */
  method AddStep(cfg: ScanConfig, s: seq<U16>, pos: U16, ghost k: nat, ghost w: nat) returns (t: seq<U16>)
    requires cfg.step > 0 && pos == Grid(cfg, k) && w == if Halves(cfg) then 2 else 1
    requires |s| <= k * w && forall p :: p in s <==> OfFirst(cfg, k, p)
    ensures |t| <= (k + 1) * w && forall p :: p in t <==> OfFirst(cfg, k + 1, p)
  {
    forall p {
      OfFirstStep(cfg, k, p);
    }
    WStep(k + 1, w);
    t := Add(s, cfg.endAddress, pos);
    if cfg.stepHalfOffset && cfg.step >= 2 {
      var half := (pos + cfg.step / 2) % 0x1_0000;
      t := Add(t, cfg.endAddress, half);
    }
  }

  lemma WStep(k: nat, w: nat)
    requires k > 0
    ensures k * w == (k - 1) * w + w
  {
  }

  lemma WMonotone(k: nat, n: nat, w: nat)
    requires k <= n
    ensures k * w <= n * w
  {
  }

  /** When step k lies past the end, the first k steps give every position. */
  lemma PositionsAreFirst(cfg: ScanConfig, k: nat)
    requires cfg.step > 0 && Grid(cfg, k) > cfg.endAddress
    requires k > 0 ==> Grid(cfg, k - 1) <= cfg.endAddress
    ensures forall p :: OfFirst(cfg, k, p) <==> IsPosition(cfg, p)
  {
    forall p ensures OfFirst(cfg, k, p) <==> IsPosition(cfg, p) {
      if IsPosition(cfg, p) {
        var j: nat :| Grid(cfg, j) <= cfg.endAddress && (p == Grid(cfg, j) || (Halves(cfg) && p == HalfStep(cfg, Grid(cfg, j))));
        if k <= j {
          GridGrows(cfg, k, j);
        }
      }
      if OfFirst(cfg, k, p) {
        var j: nat :| j < k && (p == Grid(cfg, j) || (Halves(cfg) && p == HalfStep(cfg, Grid(cfg, j))));
        GridGrows(cfg, j, k - 1);
      }
    }
  }

  lemma StepsBound(cfg: ScanConfig, k: nat)
    requires cfg.step > 0 && (k > 0 ==> Grid(cfg, k - 1) <= cfg.endAddress)
    ensures k <= Steps(cfg)
  {
    if k > 0 {
      GridGrows(cfg, 0, k - 1);
      QuotientBound(k - 1, cfg.step, cfg.endAddress - cfg.startAddress);
    }
  }

  // ----- the reads at one position -----

  const EXPAND_SIZES := 6

  /** steppedExpandSizes. */
  function ExpandSize(i: nat): U16
    requires i < EXPAND_SIZES
  {
    match i case 0 => 125 case 1 => 64 case 2 => 32 case 3 => 16 case 4 => 8 case _ => 4
  }

  function MinAddr(cfg: ScanConfig): U16 {
    if cfg.startAddress > 0 then cfg.startAddress - 1 else 0
  }

  function MaxAddr(cfg: ScanConfig): U16 {
    if cfg.endAddress < 65535 then cfg.endAddress + 1 else 65535
  }

  function ClampAddr(addr: U16, lo: U16, hi: U16): U16 {
    if addr < lo then lo else if addr > hi then hi else addr
  }

  /** Reads of one and of two registers at addr, up to maxAddr. */
  function TasksAt(addr: U16, maxAddr: U16): seq<ScanTask> {
    (if addr <= maxAddr then [ScanTask(addr, 1)] else []) + (if addr + 1 <= maxAddr then [ScanTask(addr, 2)] else [])
  }

  /** The addresses probed around one position. */
  function ProbeCenters(cfg: ScanConfig, pos: U16): seq<U16> {
    (if pos > 0 then [ClampAddr(pos - 1, MinAddr(cfg), MaxAddr(cfg))] else [])
    + [ClampAddr(pos, MinAddr(cfg), MaxAddr(cfg))]
    + (if pos < 65535 then [ClampAddr(pos + 1, MinAddr(cfg), MaxAddr(cfg))] else [])
  }

  function AllTasks(centers: seq<U16>, maxAddr: U16): seq<ScanTask> {
    if centers == [] then []
    else AllTasks(centers[..|centers| - 1], maxAddr) + TasksAt(centers[|centers| - 1], maxAddr)
  }

  /** The micro-probes around one position. */
  function ProbeTasks(cfg: ScanConfig, pos: U16): seq<ScanTask> {
    AllTasks(ProbeCenters(cfg, pos), MaxAddr(cfg))
  }

  lemma {:induction false} AllTasksAre(centers: seq<U16>, lo: U16, hi: U16)
    requires forall i :: 0 <= i < |centers| ==> lo <= centers[i]
    ensures |AllTasks(centers, hi)| <= 2 * |centers|
    ensures forall t :: t in AllTasks(centers, hi) ==> t.count <= 2 && t.Inside(lo, hi)
  {
    if centers != [] {
      AllTasksAre(centers[..|centers| - 1], lo, hi);
    }
  }

  lemma ProbeTasksAre(cfg: ScanConfig, pos: U16)
    requires cfg.startAddress <= cfg.endAddress
    ensures |ProbeTasks(cfg, pos)| <= 6
    ensures forall t :: t in ProbeTasks(cfg, pos) ==> t.count <= 2 && t.Inside(MinAddr(cfg), MaxAddr(cfg))
  {
    AllTasksAre(ProbeCenters(cfg, pos), MinAddr(cfg), MaxAddr(cfg));
  }

  /** Read size i from the hit address ends inside the range. */
  predicate Fits(cfg: ScanConfig, hit: U16, i: nat)
    requires i < EXPAND_SIZES
  {
    hit + ExpandSize(i) - 1 <= cfg.endAddress
  }

  /** Those of the first i expansion reads that fit. */
  function FitTasks(cfg: ScanConfig, hit: U16, i: nat): (ts: seq<ScanTask>)
    requires i <= EXPAND_SIZES
    ensures |ts| <= i
  {
    if i == 0 then []
    else FitTasks(cfg, hit, i - 1) + if Fits(cfg, hit, i - 1) then [ScanTask(hit, ExpandSize(i - 1))] else []
  }

  /** Where the first successful probe started. */
  function FirstHit(h: seq<Read>): Option<U16> {
    if h == [] then None
    else
      var before := FirstHit(h[..|h| - 1]);
      if before.Some? then before
      else if h[|h| - 1].result.success then Some(h[|h| - 1].task.start) else None
  }

  /** The reads x after probes with the first hit at hit: growing reads from the hit
      address, largest first, until one succeeds or all that fit have failed. */
  ghost predicate Expansion(cfg: ScanConfig, hit: Option<U16>, x: seq<Read>) {
    match hit
    case None => x == []
    case Some(a) =>
      || (Asks(x, FitTasks(cfg, a, EXPAND_SIZES)) && NoHit(x))
      || (exists i: nat :: i < EXPAND_SIZES && Fits(cfg, a, i) && StopsAt(cfg, a, i, x))
  }

  /** Everything that fits before size i failed, and size i succeeded. */
  ghost predicate StopsAt(cfg: ScanConfig, hit: U16, i: nat, x: seq<Read>)
    requires i < EXPAND_SIZES
  {
    && |x| >= 1 && x[|x| - 1].result.success && x[|x| - 1].task == ScanTask(hit, ExpandSize(i))
    && Asks(x[..|x| - 1], FitTasks(cfg, hit, i)) && NoHit(x[..|x| - 1])
  }

  /** All reads at one position: its probes, then the expansion of the first hit. */
  ghost predicate Segment(cfg: ScanConfig, pos: U16, probes: seq<Read>, x: seq<Read>) {
    Asks(probes, ProbeTasks(cfg, pos)) && Expansion(cfg, FirstHit(probes), x)
  }

  datatype Visit = Visit(probes: seq<Read>, expansion: seq<Read>)

  /** The reads of the visits, one after the other. */
  function Flatten(vs: seq<Visit>): seq<Read> {
    if vs == [] then [] else Flatten(vs[..|vs| - 1]) + vs[|vs| - 1].probes + vs[|vs| - 1].expansion
  }

  /** vs visits the first positions in order. */
  ghost predicate Visits(cfg: ScanConfig, positions: seq<U16>, vs: seq<Visit>) {
    vs == [] ||
    (var v := vs[|vs| - 1];
     |vs| <= |positions| && Visits(cfg, positions, vs[..|vs| - 1]) && Segment(cfg, positions[|vs| - 1], v.probes, v.expansion))
  }

  /** A finished run visits every step position once, in ascending order. */
  ghost predicate Report(cfg: ScanConfig, h: seq<Read>) {
    exists positions, vs :: PositionsOf(cfg, positions) && |vs| == |positions| && Visits(cfg, positions, vs) && h == Flatten(vs)
  }

  lemma Appended(f: seq<Read>, p: seq<Read>, r: Read)
    ensures (f + p + []) + [r] == f + (p + [r]) + []
  {
  }

  lemma ProbeAsked(h: seq<Read>, tasks: seq<ScanTask>, i: nat, r: Read)
    requires 1 <= i <= |tasks| && Asks(h, tasks[..i - 1]) && r.task == tasks[i - 1]
    ensures Asks(h + [r], tasks[..i])
  {
    assert tasks[..i] == tasks[..i - 1] + [r.task];
  }

  lemma FirstHitStep(h: seq<Read>, r: Read)
    ensures FirstHit(h + [r]) == if FirstHit(h).Some? then FirstHit(h) else if r.result.success then Some(r.task.start) else None
  {
    assert (h + [r])[..|h + [r]| - 1] == h;
  }

  lemma {:induction false} FirstHitIndex(h: seq<Read>) returns (i: nat)
    requires FirstHit(h).Some?
    ensures i < |h| && h[i].result.success && h[i].task.start == FirstHit(h).value
    ensures NoHit(h[..i])
  {
    var front := h[..|h| - 1];
    if FirstHit(front).Some? {
      i := FirstHitIndex(front);
      assert front[..i] == h[..i];
    } else {
      i := |h| - 1;
      NoFirstHit(front);
    }
  }

  lemma {:induction false} NoFirstHit(h: seq<Read>)
    ensures FirstHit(h) == None <==> NoHit(h)
  {
    if h != [] {
      var front := h[..|h| - 1];
      NoFirstHit(front);
      assert NoHit(h) ==> NoHit(front);
      assert NoHit(front) && !h[|h| - 1].result.success ==> NoHit(h) by {
        assert forall i :: 0 <= i < |front| ==> front[i] == h[i];
      }
    }
  }

  lemma ExpansionGoesOn(cfg: ScanConfig, hit: U16, i: nat, x: seq<Read>, r: Read)
    requires i < EXPAND_SIZES && Fits(cfg, hit, i) && r.task == ScanTask(hit, ExpandSize(i)) && !r.result.success
    requires Asks(x, FitTasks(cfg, hit, i)) && NoHit(x)
    ensures Asks(x + [r], FitTasks(cfg, hit, i + 1)) && NoHit(x + [r])
  {
  }

  lemma ExpansionStops(cfg: ScanConfig, hit: U16, i: nat, x: seq<Read>, r: Read)
    requires i < EXPAND_SIZES && Fits(cfg, hit, i) && r.task == ScanTask(hit, ExpandSize(i)) && r.result.success
    requires Asks(x, FitTasks(cfg, hit, i)) && NoHit(x)
    ensures Expansion(cfg, Some(hit), x + [r])
  {
    assert (x + [r])[..|x + [r]| - 1] == x;
    assert StopsAt(cfg, hit, i, x + [r]);
  }

  lemma VisitsStep(cfg: ScanConfig, positions: seq<U16>, vs: seq<Visit>, v: Visit)
    requires |vs| < |positions| && Visits(cfg, positions, vs) && Segment(cfg, positions[|vs|], v.probes, v.expansion)
    ensures Visits(cfg, positions, vs + [v])
    ensures Flatten(vs + [v]) == Flatten(vs) + v.probes + v.expansion
  {
    assert (vs + [v])[..|vs + [v]| - 1] == vs;
  }

  /** An empty range has no positions. */
  lemma PositionsNeedARange(cfg: ScanConfig, positions: seq<U16>)
    requires PositionsOf(cfg, positions)
    ensures positions != [] ==> cfg.startAddress <= cfg.endAddress
  {
    if positions != [] {
      assert IsPosition(cfg, positions[0]);
      var j: nat :| Grid(cfg, j) <= cfg.endAddress;
      GridGrows(cfg, 0, j);
    }
  }

  lemma AllTasksStep(centers: seq<U16>, i: nat, maxAddr: U16)
    requires i < |centers|
    ensures AllTasks(centers[..i + 1], maxAddr) == AllTasks(centers[..i], maxAddr) + TasksAt(centers[i], maxAddr)
  {
    assert centers[..i + 1][..i] == centers[..i];
  }

  /** The inner loop of buildProbeTasks. */
  method TasksFor(addr: U16, maxAddr: U16) returns (tasks: seq<ScanTask>)
    ensures tasks == TasksAt(addr, maxAddr)
  {
    tasks := [];
    for count: int := 1 to 3
      invariant count == 1 ==> tasks == []
      invariant count == 2 ==> tasks == if addr <= maxAddr then [ScanTask(addr, 1)] else []
      invariant count == 3 ==> tasks == TasksAt(addr, maxAddr)
    {
      if addr + count - 1 > 65535 {
        continue;
      }
      var endAddr := addr + count - 1;
      if endAddr > maxAddr {
        continue;
      }
      tasks := tasks + [ScanTask(addr, count)];
    }
  }

  /** The probe addresses and, for each, its reads. */
  method TasksAround(cfg: ScanConfig, pos: U16) returns (tasks: seq<ScanTask>)
    ensures tasks == ProbeTasks(cfg, pos)
  {
    var minAddr, maxAddr := MinAddr(cfg), MaxAddr(cfg);
    var positions: seq<U16> := [];
    if pos > 0 {
      positions := positions + [ClampAddr(pos - 1, minAddr, maxAddr)];
    }
    positions := positions + [ClampAddr(pos, minAddr, maxAddr)];
    if pos < 65535 {
      positions := positions + [ClampAddr(pos + 1, minAddr, maxAddr)];
    }
    assert positions == ProbeCenters(cfg, pos);
    tasks := TasksForAll(positions, maxAddr);
  }

  /** The outer loop of buildProbeTasks. */
  method TasksForAll(positions: seq<U16>, maxAddr: U16) returns (tasks: seq<ScanTask>)
    ensures tasks == AllTasks(positions, maxAddr)
  {
    tasks := [];
    for i := 0 to |positions|
      invariant tasks == AllTasks(positions[..i], maxAddr)
    {
      AllTasksStep(positions, i, maxAddr);
      var more := TasksFor(positions[i], maxAddr);
      tasks := tasks + more;
    }
    assert positions[..|positions|] == positions;
  }

  class SteppedStrategy {
    const cfg: ScanConfig
    const stepPositions: seq<U16>
    var stepIndex: nat
    var probeTasks: seq<ScanTask>
    var probeIndex: nat
    var hasHit: bool
    var hitAddr: U16
    /** -1 when not expanding, else the size being tried. */
    var expandIndex: int

    ghost var trace: seq<Read>
    ghost var pending: Option<ScanTask>
    /** The visits of finished positions, and the probes and expansion reads of this one. */
    ghost var visits: seq<Visit>
    ghost var probes: seq<Read>
    ghost var expansion: seq<Read>

    ghost predicate Common()
      reads this
    {
      && stepIndex <= |stepPositions|
      && (stepPositions != [] ==> cfg.startAddress <= cfg.endAddress)
      && trace == Flatten(visits) + probes + expansion && |Flatten(visits)| <= 12 * stepIndex
      && |visits| == stepIndex && Visits(cfg, stepPositions, visits)
      && |probes| <= 6 && |expansion| <= 6
      && (pending.Some? ==> pending.value.Inside(MinAddr(cfg), MaxAddr(cfg)))
    }

    /** All positions are done. */
    ghost predicate AtEnd()
      reads this
    {
      Common() && stepIndex == |stepPositions| && pending == None && probes == [] && expansion == [] && expandIndex == -1
    }

    ghost predicate Probing()
      reads this
    {
      && Common() && stepIndex < |stepPositions| && expandIndex == -1 && expansion == []
      && probeTasks == ProbeTasks(cfg, stepPositions[stepIndex]) && probeIndex <= |probeTasks| <= 6
      && FirstHit(probes) == (if hasHit then Some(hitAddr) else None)
      && match pending
         case None => Asks(probes, probeTasks[..probeIndex])
         case Some(t) => probeIndex >= 1 && Asks(probes, probeTasks[..probeIndex - 1]) && t == probeTasks[probeIndex - 1]
    }

    ghost predicate Expanding()
      reads this
    {
      && Common() && stepIndex < |stepPositions| && 0 <= expandIndex < EXPAND_SIZES
      && Asks(probes, ProbeTasks(cfg, stepPositions[stepIndex]))
      && FirstHit(probes) == Some(hitAddr) && MinAddr(cfg) <= hitAddr
      && Asks(expansion, FitTasks(cfg, hitAddr, expandIndex)) && NoHit(expansion)
      && (pending.Some? ==> Fits(cfg, hitAddr, expandIndex) && pending.value == ScanTask(hitAddr, ExpandSize(expandIndex)))
    }

    ghost predicate Valid()
      reads this
    {
      PositionsOf(cfg, stepPositions) && (AtEnd() || Probing() || Expanding())
    }

    method BuildProbeTasks()
      requires stepIndex < |stepPositions| ==> cfg.startAddress <= cfg.endAddress
      modifies `probeTasks, `probeIndex
      ensures probeIndex == 0
      ensures stepIndex < |stepPositions| ==> probeTasks == ProbeTasks(cfg, stepPositions[stepIndex]) && |probeTasks| <= 6
    {
      probeTasks := [];
      probeIndex := 0;
      if stepIndex >= |stepPositions| {
        return;
      }
      ProbeTasksAre(cfg, stepPositions[stepIndex]);
      probeTasks := TasksAround(cfg, stepPositions[stepIndex]);
    }

    constructor (c: ScanConfig)
      ensures Valid() && cfg == c && trace == [] && pending == None
    {
      cfg := c;
      var positions := StepPositions(c);
      stepPositions := positions;
      stepIndex, probeIndex := 0, 0;
      probeTasks := [];
      hasHit, hitAddr, expandIndex := false, 0, -1;
      trace, pending, visits, probes, expansion := [], None, [], [], [];
      new;
      PositionsNeedARange(cfg, stepPositions);
      BuildProbeTasks();
    }

    predicate Finished()
      reads this
    {
      stepIndex >= |stepPositions|
    }

    method Advance()
      modifies `hasHit, `hitAddr, `expandIndex, `stepIndex, `visits, `probes, `expansion
      ensures !hasHit && hitAddr == 0 && expandIndex == -1 && stepIndex == old(stepIndex) + 1
      ensures visits == old(visits) + [Visit(old(probes), old(expansion))] && probes == [] && expansion == []
    {
      hasHit := false;
      hitAddr := 0;
      expandIndex := -1;
      stepIndex := stepIndex + 1;
      visits, probes, expansion := visits + [Visit(probes, expansion)], [], [];
    }

    /** Goes on with the next position. */
    method EndStep()
      requires Common() && stepIndex < |stepPositions| && pending == None
      requires Segment(cfg, stepPositions[stepIndex], probes, expansion)
      modifies this
      ensures (AtEnd() || Probing()) && pending == None && trace == old(trace) && stepIndex == old(stepIndex) + 1
    {
      VisitsStep(cfg, stepPositions, visits, Visit(probes, expansion));
      Advance();
      BuildProbeTasks();
      assert trace == trace + [] + [];
    }

    /** Moves to the first size from expandIndex on that fits, or past the last one. */
    method SkipToFit()
      requires 0 <= expandIndex < EXPAND_SIZES
      modifies `expandIndex
      ensures old(expandIndex) <= expandIndex <= EXPAND_SIZES
      ensures expandIndex < EXPAND_SIZES ==> Fits(cfg, hitAddr, expandIndex)
      ensures FitTasks(cfg, hitAddr, expandIndex) == FitTasks(cfg, hitAddr, old(expandIndex))
    {
      while expandIndex < EXPAND_SIZES
        invariant old(expandIndex) <= expandIndex <= EXPAND_SIZES
        invariant FitTasks(cfg, hitAddr, expandIndex) == FitTasks(cfg, hitAddr, old(expandIndex))
      {
        var size := ExpandSize(expandIndex);
        if hitAddr + size - 1 <= cfg.endAddress {
          return;
        }
        expandIndex := expandIndex + 1;
      }
    }

    /** The next expansion read; the expansion ends if nothing more fits. */
    method NextExpansion() returns (task: Option<ScanTask>)
      requires Expanding() && pending == None
      modifies this
      ensures pending == task && trace == old(trace)
      ensures task.Some? ==> Expanding() && task.value.Inside(MinAddr(cfg), cfg.endAddress) && task.value.start == hitAddr
      ensures task == None ==> (AtEnd() || Probing()) && stepIndex == old(stepIndex) + 1
    {
      SkipToFit();
      if expandIndex < EXPAND_SIZES {
        task := Some(ScanTask(hitAddr, ExpandSize(expandIndex)));
        pending := task;
        return;
      }
      EndStep();
      task := None;
    }

    method NextProbe() returns (task: Option<ScanTask>)
      requires Probing() && pending == None && probeIndex < |probeTasks|
      modifies `probeIndex, `pending
      ensures Probing() && pending == task && task.Some? && task.value == probeTasks[old(probeIndex)]
      ensures task.value.Inside(MinAddr(cfg), MaxAddr(cfg))
    {
      task := Some(probeTasks[probeIndex]);
      probeIndex := probeIndex + 1;
      pending := task;
      ProbeTasksAre(cfg, stepPositions[stepIndex]);
      assert task.value in probeTasks;
    }

    /** The probes of this position are done and one of them hit. */
    method BeginExpansion()
      requires Probing() && pending == None && probeIndex == |probeTasks| && hasHit
      modifies `expandIndex
      ensures Expanding() && pending == None && expandIndex == 0
    {
      expandIndex := 0;
      assert probeTasks[..probeIndex] == probeTasks;
      HitIsProbed(probes, stepPositions[stepIndex]);
    }

    /** A hit address is the start of a probe. */
    lemma HitIsProbed(h: seq<Read>, pos: U16)
      requires cfg.startAddress <= cfg.endAddress && Asks(h, ProbeTasks(cfg, pos)) && FirstHit(h).Some?
      ensures MinAddr(cfg) <= FirstHit(h).value
    {
      ProbeTasksAre(cfg, pos);
      var i := FirstHitIndex(h);
      assert ProbeTasks(cfg, pos)[i] in ProbeTasks(cfg, pos);
    }

    /** The next read at the current position, or none, when it moves to the next position. */
    method NextAtPosition() returns (task: Option<ScanTask>)
      requires (Probing() || Expanding()) && pending == None
      modifies this
      ensures pending == task && trace == old(trace)
      ensures task.Some? ==> (Probing() || Expanding()) && task.value.Inside(MinAddr(cfg), MaxAddr(cfg))
      ensures task == None ==> (AtEnd() || Probing()) && stepIndex == old(stepIndex) + 1
    {
      if expandIndex < 0 && probeIndex < |probeTasks| {
        task := NextProbe();
        return;
      }
      if expandIndex < 0 && !hasHit {
        assert probeTasks[..probeIndex] == probeTasks;
        EndStep();
        return None;
      }
      if expandIndex < 0 {
        BeginExpansion();
      }
      task := NextExpansion();
    }

    method Next() returns (task: Option<ScanTask>)
      requires Valid() && pending == None
      modifies this
      ensures Valid() && pending == task && trace == old(trace)
      ensures task.Some? ==> task.value.Inside(MinAddr(cfg), MaxAddr(cfg))
      ensures task == None ==> Report(cfg, trace)
    {
      while stepIndex < |stepPositions|
        invariant AtEnd() || Probing() || Expanding()
        invariant pending == None && trace == old(trace)
        decreases |stepPositions| - stepIndex
      {
        task := NextAtPosition();
        if task.Some? {
          return;
        }
      }
      FinishedReports();
      return None;
    }

    lemma FinishedReports()
      requires Valid() && pending == None && Finished()
      ensures Report(cfg, trace)
    {
      assert trace == Flatten(visits);
    }

    /** Never more reads than the bound, the pending one included. */
    lemma WithinWorstCase()
      requires Valid()
      ensures |trace| + (if pending.Some? then 1 else 0) <= WorstCase(cfg)
    {
    }

    ghost method NoteProbe(r: Read)
      modifies `trace, `pending, `probes
      ensures trace == old(trace) + [r] && pending == None && probes == old(probes) + [r]
    {
      trace, pending, probes := trace + [r], None, probes + [r];
    }

    ghost method NoteExpansion(r: Read)
      modifies `trace, `pending, `expansion
      ensures trace == old(trace) + [r] && pending == None && expansion == old(expansion) + [r]
    {
      trace, pending, expansion := trace + [r], None, expansion + [r];
    }

    method ProbeResult(task: ScanTask, result: ScanResult)
      requires Probing() && pending == Some(task)
      modifies this
      ensures Probing() && pending == None && trace == old(trace) + [Read(task, result)]
      ensures hasHit == (old(hasHit) || result.success) && stepIndex == old(stepIndex)
    {
      FirstHitStep(probes, Read(task, result));
      ProbeAsked(probes, probeTasks, probeIndex, Read(task, result));
      Appended(Flatten(visits), probes, Read(task, result));
      NoteProbe(Read(task, result));
      if result.success && !hasHit {
        SetHit(task.start);
      }
    }

    method SetHit(addr: U16)
      modifies `hasHit, `hitAddr
      ensures hasHit && hitAddr == addr
    {
      hasHit := true;
      hitAddr := addr;
    }

    method ExpansionHit(task: ScanTask, result: ScanResult)
      requires Expanding() && pending == Some(task) && result.success
      modifies this
      ensures AtEnd() || Probing()
      ensures pending == None && trace == old(trace) + [Read(task, result)] && stepIndex == old(stepIndex) + 1
    {
      ExpansionStops(cfg, hitAddr, expandIndex, expansion, Read(task, result));
      NoteExpansion(Read(task, result));
      EndStep();
    }

    method ExpansionMiss(task: ScanTask, result: ScanResult)
      requires Expanding() && pending == Some(task) && !result.success
      modifies this
      ensures pending == None && trace == old(trace) + [Read(task, result)]
      ensures if old(expandIndex) < EXPAND_SIZES - 1 then Expanding() && expandIndex == old(expandIndex) + 1
              else (AtEnd() || Probing()) && stepIndex == old(stepIndex) + 1
    {
      if expandIndex + 1 < EXPAND_SIZES {
        TryNextSize(Read(task, result));
        return;
      }
      ExpansionGoesOn(cfg, hitAddr, expandIndex, expansion, Read(task, result));
      NoteExpansion(Read(task, result));
      expandIndex := expandIndex + 1;
      EndStep();
    }

    /** A size failed; a smaller one is left. */
    method TryNextSize(ghost r: Read)
      requires Expanding() && pending == Some(r.task) && !r.result.success && expandIndex + 1 < EXPAND_SIZES
      modifies `expandIndex, `trace, `pending, `expansion
      ensures Expanding() && pending == None && trace == old(trace) + [r] && expandIndex == old(expandIndex) + 1
    {
      ExpansionGoesOn(cfg, hitAddr, expandIndex, expansion, r);
      assert (Flatten(visits) + probes + expansion) + [r] == Flatten(visits) + probes + (expansion + [r]);
      NoteExpansion(r);
      expandIndex := expandIndex + 1;
    }

    method OnResult(task: ScanTask, result: ScanResult)
      requires Valid() && pending == Some(task)
      modifies this
      ensures Valid() && pending == None && trace == old(trace) + [Read(task, result)]
    {
      if expandIndex >= 0 {
        if result.success { ExpansionHit(task, result); } else { ExpansionMiss(task, result); }
      } else {
        ProbeResult(task, result);
      }
    }
  }

  // ----- what a finished run guarantees -----

  lemma NoHitConcat(g: seq<Read>, h: seq<Read>)
    ensures NoHit(g + h) <==> NoHit(g) && NoHit(h)
  {
    assert forall i :: 0 <= i < |g| ==> (g + h)[i] == g[i];
    assert forall i :: 0 <= i < |h| ==> (g + h)[|g| + i] == h[i];
  }

  lemma SegmentCost(cfg: ScanConfig, pos: U16, probes: seq<Read>, x: seq<Read>)
    requires Segment(cfg, pos, probes, x) && cfg.startAddress <= cfg.endAddress
    ensures |probes| <= 6 && |x| <= 6
    ensures NoHit(probes) ==> x == []
  {
    ProbeTasksAre(cfg, pos);
    NoFirstHit(probes);
  }

  lemma {:induction false} VisitsCost(cfg: ScanConfig, positions: seq<U16>, vs: seq<Visit>)
    requires Visits(cfg, positions, vs) && cfg.startAddress <= cfg.endAddress
    ensures |Flatten(vs)| <= 12 * |vs|
    ensures NoHit(Flatten(vs)) ==> |Flatten(vs)| <= 6 * |vs|
  {
    if vs != [] {
      var front, v := vs[..|vs| - 1], vs[|vs| - 1];
      VisitsCost(cfg, positions, front);
      SegmentCost(cfg, positions[|vs| - 1], v.probes, v.expansion);
      NoHitConcat(Flatten(front) + v.probes, v.expansion);
      NoHitConcat(Flatten(front), v.probes);
    }
  }

  /** For any answers: at most twelve reads per position; six when nothing answers. */
  lemma ReportCost(cfg: ScanConfig, h: seq<Read>) returns (positions: seq<U16>)
    requires Report(cfg, h)
    ensures PositionsOf(cfg, positions)
    ensures |h| <= 12 * |positions|
    ensures NoHit(h) ==> |h| <= 6 * |positions|
  {
    var vs;
    positions, vs :| PositionsOf(cfg, positions) && |vs| == |positions| && Visits(cfg, positions, vs) && h == Flatten(vs);
    PositionsNeedARange(cfg, positions);
    if positions != [] {
      VisitsCost(cfg, positions, vs);
    }
  }

  // ----- do expansion reads stay inside the range? -----

  ghost predicate InsideRange(cfg: ScanConfig, x: seq<Read>) {
    forall i :: 0 <= i < |x| ==> x[i].task.Inside(cfg.startAddress, cfg.endAddress)
  }

  lemma {:induction false} FitTasksAre(cfg: ScanConfig, hit: U16, i: nat)
    requires i <= EXPAND_SIZES
    ensures forall t :: t in FitTasks(cfg, hit, i) ==> t.start == hit && 4 <= t.count <= 125 && hit + t.count - 1 <= cfg.endAddress
  {
    if i > 0 {
      FitTasksAre(cfg, hit, i - 1);
    }
  }

  /** Expansion reads start at the first hit and end inside the range. */
  lemma ExpansionStartsAtHit(cfg: ScanConfig, pos: U16, probes: seq<Read>, x: seq<Read>, i: nat)
    requires Segment(cfg, pos, probes, x) && i < |x|
    ensures FirstHit(probes) == Some(x[i].task.start)
    ensures 4 <= x[i].task.count <= 125 && x[i].task.start + x[i].task.count - 1 <= cfg.endAddress
  {
    var hit := FirstHit(probes).value;
    if Asks(x, FitTasks(cfg, hit, EXPAND_SIZES)) && NoHit(x) {
      FitTasksAre(cfg, hit, EXPAND_SIZES);
      assert x[i].task in FitTasks(cfg, hit, EXPAND_SIZES);
    } else {
      var k: nat :| k < EXPAND_SIZES && Fits(cfg, hit, k) && StopsAt(cfg, hit, k, x);
      StoppedIsFit(cfg, hit, k, x, i);
    }
  }

  lemma StoppedIsFit(cfg: ScanConfig, hit: U16, k: nat, x: seq<Read>, i: nat)
    requires k < EXPAND_SIZES && Fits(cfg, hit, k) && StopsAt(cfg, hit, k, x) && i < |x|
    ensures x[i].task.start == hit && 4 <= x[i].task.count <= 125 && x[i].task.start + x[i].task.count - 1 <= cfg.endAddress
  {
    FitTasksAre(cfg, hit, k);
    if i < |x| - 1 {
      assert x[..|x| - 1][i].task in FitTasks(cfg, hit, k);
    }
  }

  function AnswerAll(tasks: seq<ScanTask>): (h: seq<Read>)
    ensures |h| == |tasks| && forall i :: 0 <= i < |h| ==> h[i] == Read(tasks[i], ScanResult(true, []))
  {
    if tasks == [] then [] else [Read(tasks[0], ScanResult(true, []))] + AnswerAll(tasks[1..])
  }

  /** The first size that fits, when the smallest does. */
  function FirstFit(cfg: ScanConfig, hit: U16, i: nat): (k: nat)
    requires i < EXPAND_SIZES && Fits(cfg, hit, EXPAND_SIZES - 1) && FitTasks(cfg, hit, i) == []
    ensures k < EXPAND_SIZES && Fits(cfg, hit, k) && FitTasks(cfg, hit, k) == []
    decreases EXPAND_SIZES - i
  {
    if Fits(cfg, hit, i) then i else FirstFit(cfg, hit, i + 1)
  }

  /** On a device that answers everything, the first position's probes hit one register
      below the range, and the expansion reads from there. */
  lemma ExpansionBelowStart(cfg: ScanConfig) returns (probes: seq<Read>, x: seq<Read>)
    requires cfg.startAddress > 0 && cfg.startAddress + 2 <= cfg.endAddress
    ensures Segment(cfg, cfg.startAddress, probes, x) && x != [] && x[0].task.start == cfg.startAddress - 1
  {
    var pos, hit := cfg.startAddress, cfg.startAddress - 1;
    probes := AnswerAll(ProbeTasks(cfg, pos));
    FirstProbeIsBelow(cfg);
    FirstHitOfAnswers(ProbeTasks(cfg, pos));
    x := ExpansionAtOnce(cfg, hit);
  }

  /** The expansion from hit, when the device answers its first read. */
  lemma ExpansionAtOnce(cfg: ScanConfig, hit: U16) returns (x: seq<Read>)
    requires Fits(cfg, hit, EXPAND_SIZES - 1)
    ensures Expansion(cfg, Some(hit), x) && x != [] && x[0].task.start == hit
  {
    var k := FirstFit(cfg, hit, 0);
    x := [Read(ScanTask(hit, ExpandSize(k)), ScanResult(true, []))];
    assert x[..0] == [];
    assert StopsAt(cfg, hit, k, x);
  }

  lemma {:induction false} AllTasksHead(centers: seq<U16>, maxAddr: U16)
    requires centers != [] && centers[0] <= maxAddr
    ensures AllTasks(centers, maxAddr) != [] && AllTasks(centers, maxAddr)[0] == ScanTask(centers[0], 1)
  {
    if |centers| > 1 {
      AllTasksHead(centers[..|centers| - 1], maxAddr);
    }
  }

  lemma FirstProbeIsBelow(cfg: ScanConfig)
    requires 0 < cfg.startAddress <= cfg.endAddress
    ensures var ts := ProbeTasks(cfg, cfg.startAddress); ts != [] && ts[0] == ScanTask(cfg.startAddress - 1, 1)
  {
    AllTasksHead(ProbeCenters(cfg, cfg.startAddress), MaxAddr(cfg));
  }

  lemma {:induction false} FirstHitOfAnswers(tasks: seq<ScanTask>)
    requires tasks != []
    ensures FirstHit(AnswerAll(tasks)) == Some(tasks[0].start)
  {
    var h := AnswerAll(tasks);
    var front := tasks[..|tasks| - 1];
    assert h[..|h| - 1] == AnswerAll(front);
    if front != [] {
      FirstHitOfAnswers(front);
    }
  }

  ghost predicate ExpansionsStayInside(cfg: ScanConfig) {
    forall pos: U16, probes, x :: IsPosition(cfg, pos) && Segment(cfg, pos, probes, x) ==> InsideRange(cfg, x)
  }

  /** The documentation promises expansion reads strictly within the range. That holds for
      every device exactly when no probe can hit below the range, or no read from there fits. */
  lemma ExpansionsStayInsideIff(cfg: ScanConfig)
    requires cfg.step > 0 && cfg.startAddress <= cfg.endAddress
    ensures ExpansionsStayInside(cfg) <==> cfg.startAddress == 0 || cfg.startAddress + 2 > cfg.endAddress
  {
    if cfg.startAddress == 0 || cfg.startAddress + 2 > cfg.endAddress {
      forall pos: U16, probes: seq<Read>, x: seq<Read> | IsPosition(cfg, pos) && Segment(cfg, pos, probes, x) ensures InsideRange(cfg, x) {
        forall i | 0 <= i < |x| ensures x[i].task.Inside(cfg.startAddress, cfg.endAddress) {
          ExpansionStartsAtHit(cfg, pos, probes, x, i);
          ProbeTasksAre(cfg, pos);
          var k := FirstHitIndex(probes);
          assert ProbeTasks(cfg, pos)[k] in ProbeTasks(cfg, pos);
        }
      }
    } else {
      var probes, x := ExpansionBelowStart(cfg);
      assert Grid(cfg, 0) == cfg.startAddress;
      assert IsPosition(cfg, cfg.startAddress);
      assert !InsideRange(cfg, x);
    }
  }

  /** Away from the ends of the range a position is probed with one and with two registers at
      the address before it, at it, and behind it, in this order. */
  lemma ProbesAround(cfg: ScanConfig, pos: U16)
    requires 0 < pos < 65535 && MinAddr(cfg) < pos && pos + 2 <= MaxAddr(cfg)
    ensures ProbeTasks(cfg, pos) ==
            [ScanTask(pos - 1, 1), ScanTask(pos - 1, 2), ScanTask(pos, 1), ScanTask(pos, 2), ScanTask(pos + 1, 1), ScanTask(pos + 1, 2)]
  {
    var c := [pos - 1 as U16, pos, pos + 1 as U16];
    assert ProbeCenters(cfg, pos) == c;
    assert c[..2] == [pos - 1, pos] && c[..2][..1] == [pos - 1] && c[..2][..1][..0] == [];
    assert AllTasks(c[..2][..1], MaxAddr(cfg)) == TasksAt(pos - 1, MaxAddr(cfg));
    assert AllTasks(c[..2], MaxAddr(cfg)) == TasksAt(pos - 1, MaxAddr(cfg)) + TasksAt(pos, MaxAddr(cfg));
  }

  /** The hit of a position is where its first successful probe starts. */
  lemma {:induction false} FirstHitIs(h: seq<Read>) returns (i: nat)
    ensures FirstHit(h) == None <==> NoHit(h)
    ensures FirstHit(h).Some? ==>
              && i < |h| && h[i].result.success && FirstHit(h) == Some(h[i].task.start)
              && forall k :: 0 <= k < i ==> !h[k].result.success
  {
    i := 0;
    if h != [] {
      var front := h[..|h| - 1];
      i := FirstHitIs(front);
      assert h == front + [h[|h| - 1]];
      NoHitGrows(front, h[|h| - 1]);
      if FirstHit(front) == None {
        i := |front|;
        forall k | 0 <= k < i ensures !h[k].result.success {
          assert front[k] in front;
        }
      }
    }
  }

  /** The expansion of a hit is tried with 125, 64, 32, 16, 8 and 4 registers, from large to
      small, as far as they fit into the range. */
  lemma ExpansionSizes(cfg: ScanConfig, hit: U16, t: ScanTask)
    ensures var x := t.count;
            t in FitTasks(cfg, hit, EXPAND_SIZES) <==>
            t.start == hit && (x == 125 || x == 64 || x == 32 || x == 16 || x == 8 || x == 4) && hit + x <= cfg.endAddress + 1
    ensures forall i, j :: 0 <= i < j < |FitTasks(cfg, hit, EXPAND_SIZES)| ==>
              FitTasks(cfg, hit, EXPAND_SIZES)[i].count > FitTasks(cfg, hit, EXPAND_SIZES)[j].count
  {
    FitTasksHold(cfg, hit, EXPAND_SIZES, t);
    FitTasksFall(cfg, hit, EXPAND_SIZES);
    var x := t.count;
    var i := if x == 125 then 0 else if x == 64 then 1 else if x == 32 then 2 else if x == 16 then 3 else if x == 8 then 4 else 5;
    if x == ExpandSize(i) && hit + x <= cfg.endAddress + 1 {
      assert Fits(cfg, hit, i);
    }
  }

  lemma {:induction false} FitTasksHold(cfg: ScanConfig, hit: U16, n: nat, t: ScanTask)
    requires n <= EXPAND_SIZES
    ensures t in FitTasks(cfg, hit, n) <==> t.start == hit && exists i :: 0 <= i < n && t.count == ExpandSize(i) && Fits(cfg, hit, i)
  {
    if n > 0 {
      FitTasksHold(cfg, hit, n - 1, t);
    }
  }

  lemma {:induction false} FitTasksFall(cfg: ScanConfig, hit: U16, n: nat)
    requires n <= EXPAND_SIZES
    ensures forall i, j :: 0 <= i < j < |FitTasks(cfg, hit, n)| ==> FitTasks(cfg, hit, n)[i].count > FitTasks(cfg, hit, n)[j].count
    ensures n > 0 ==> forall i :: 0 <= i < |FitTasks(cfg, hit, n)| ==> FitTasks(cfg, hit, n)[i].count >= ExpandSize(n - 1)
  {
    if n > 0 {
      FitTasksFall(cfg, hit, n - 1);
      assert n > 1 ==> ExpandSize(n - 1) < ExpandSize(n - 2);
    }
  }

  // ----- the worst case the tool prints -----

  /** The tool prints six reads for each grid position as the worst case without a hit. */
  function PrintedWorstCase(cfg: ScanConfig): nat {
    6 * Steps(cfg)
  }

  /** Half steps add a position: one fits behind the first grid position, or the one behind
      the last wraps around. */
  predicate HalfStepCounts(cfg: ScanConfig)
    requires cfg.step > 0 && cfg.startAddress <= cfg.endAddress
  {
    Halves(cfg) && (cfg.startAddress + cfg.step / 2 <= cfg.endAddress || Grid(cfg, Steps(cfg) - 1) + cfg.step / 2 >= 0x1_0000)
  }

  ghost function SetOf(s: seq<U16>): set<int> {
    set p | p in s
  }

  function GridSet(cfg: ScanConfig, n: nat): set<int> {
    if n == 0 then {} else GridSet(cfg, n - 1) + {Grid(cfg, n - 1)}
  }

  lemma {:induction false} GridSetIs(cfg: ScanConfig, n: nat)
    requires cfg.step > 0
    ensures |GridSet(cfg, n)| == n
    ensures forall x :: x in GridSet(cfg, n) <==> exists j: nat :: j < n && x == Grid(cfg, j)
  {
    if n > 0 {
      GridSetIs(cfg, n - 1);
      forall j: nat | j < n - 1 ensures Grid(cfg, j) != Grid(cfg, n - 1) {
        GridGrows(cfg, j, n - 1);
        GridStep(cfg, n - 2);
      }
    }
  }

  lemma {:induction false} SizeOfSet(s: seq<U16>)
    requires Ascending(s)
    ensures |SetOf(s)| == |s|
  {
    if s != [] {
      var front := s[..|s| - 1];
      SizeOfSet(front);
      assert s[|s| - 1] !in front;
      assert SetOf(s) == SetOf(front) + {s[|s| - 1] as int};
    }
  }

  lemma GridInRange(cfg: ScanConfig, j: nat)
    requires cfg.step > 0 && cfg.startAddress <= cfg.endAddress
    ensures Grid(cfg, j) <= cfg.endAddress <==> j < Steps(cfg)
  {
    var n := cfg.endAddress - cfg.startAddress;
    if j * cfg.step <= n {
      QuotientBound(j, cfg.step, n);
    } else if j <= n / cfg.step {
      TimesQuotient(j, cfg.step, n);
    }
  }

  lemma TimesQuotient(j: nat, step: nat, n: nat)
    requires step > 0 && j <= n / step
    ensures j * step <= n
  {
    var q := n / step;
    assert q * step <= n;
    assert (q - j) * step >= 0;
    assert (q - j) * step == q * step - j * step;
  }

  /** Every grid position of the range is visited. */
  lemma GridIsVisited(cfg: ScanConfig, s: seq<U16>)
    requires PositionsOf(cfg, s) && cfg.step > 0 && cfg.startAddress <= cfg.endAddress
    ensures GridSet(cfg, Steps(cfg)) <= SetOf(s) && |GridSet(cfg, Steps(cfg))| == Steps(cfg)
    ensures forall x: int :: x in GridSet(cfg, Steps(cfg)) <==> exists j: nat :: x == Grid(cfg, j) <= cfg.endAddress
  {
    GridSetIs(cfg, Steps(cfg));
    forall j: nat ensures Grid(cfg, j) <= cfg.endAddress <==> j < Steps(cfg) {
      GridInRange(cfg, j);
    }
    forall x | x in GridSet(cfg, Steps(cfg)) ensures x in SetOf(s) {
      var j: nat :| j < Steps(cfg) && x == Grid(cfg, j);
      assert IsPosition(cfg, x);
    }
  }

  /** With positions off the grid there are more of them than steps. */
  lemma OffGrid(cfg: ScanConfig, s: seq<U16>, off: set<int>)
    requires PositionsOf(cfg, s) && cfg.step > 0 && cfg.startAddress <= cfg.endAddress
    requires off <= SetOf(s) && forall x :: x in off ==> x !in GridSet(cfg, Steps(cfg))
    ensures |s| >= Steps(cfg) + |off|
  {
    var grid := GridSet(cfg, Steps(cfg));
    GridIsVisited(cfg, s);
    SizeOfSet(s);
    assert grid * off == {};
    assert |grid + off| == |grid| + |off|;
    SmallerSubset(grid + off, SetOf(s));
  }

  /** There are more positions than steps exactly if half steps add one. */
  lemma MorePositionsIff(cfg: ScanConfig, s: seq<U16>)
    requires PositionsOf(cfg, s) && cfg.step > 0 && cfg.startAddress <= cfg.endAddress
    ensures |s| > Steps(cfg) <==> HalfStepCounts(cfg)
  {
    var grid := GridSet(cfg, Steps(cfg));
    GridIsVisited(cfg, s);
    SizeOfSet(s);
    if HalfStepCounts(cfg) {
      var x := HalfStepOffGrid(cfg);
      assert x in SetOf(s);
      OffGrid(cfg, s, {x});
    } else {
      forall x | x in SetOf(s) ensures x in grid {
        assert IsPosition(cfg, x);
        NoHalfStep(cfg, x);
      }
      SmallerSubset(SetOf(s), grid);
    }
  }

  lemma LastGrid(cfg: ScanConfig, j: nat)
    requires cfg.step > 0 && cfg.startAddress <= cfg.endAddress && Grid(cfg, j) <= cfg.endAddress
    ensures Steps(cfg) > 0
    ensures cfg.startAddress <= Grid(cfg, j) <= Grid(cfg, Steps(cfg) - 1) <= cfg.endAddress
  {
    GridInRange(cfg, j);
    GridInRange(cfg, Steps(cfg) - 1);
    GridGrows(cfg, j, Steps(cfg) - 1);
    GridGrows(cfg, 0, j);
  }

  /** If no half step counts, every position is on the grid. */
  lemma NoHalfStep(cfg: ScanConfig, x: int)
    requires cfg.step > 0 && cfg.startAddress <= cfg.endAddress && !HalfStepCounts(cfg) && IsPosition(cfg, x)
    ensures exists j: nat :: x == Grid(cfg, j) <= cfg.endAddress
  {
    var j: nat :| Grid(cfg, j) <= cfg.endAddress && (x == Grid(cfg, j) || (Halves(cfg) && x == HalfStep(cfg, Grid(cfg, j))));
    LastGrid(cfg, j);
    if Halves(cfg) {
      NoWrap(Grid(cfg, j), cfg.step / 2);
    }
  }

  /** A difference of grid positions is no part of a step. */
  lemma GridGap(cfg: ScanConfig, i: nat, j: nat)
    requires cfg.step > 0
    ensures Grid(cfg, i) == Grid(cfg, j) || Grid(cfg, i) >= Grid(cfg, j) + cfg.step || Grid(cfg, j) >= Grid(cfg, i) + cfg.step
  {
    if i < j {
      GridGrows(cfg, i, j - 1);
      GridStep(cfg, j - 1);
    } else if j < i {
      GridGrows(cfg, j, i - 1);
      GridStep(cfg, i - 1);
    }
  }

  /** If a half step counts, it is a position off the grid. */
  lemma HalfStepOffGrid(cfg: ScanConfig) returns (x: int)
    requires cfg.step > 0 && cfg.startAddress <= cfg.endAddress && HalfStepCounts(cfg)
    ensures IsPosition(cfg, x) && forall j: nat :: Grid(cfg, j) <= cfg.endAddress ==> x != Grid(cfg, j)
  {
    LastGrid(cfg, 0);
    if cfg.startAddress + cfg.step / 2 <= cfg.endAddress {
      x := cfg.startAddress + cfg.step / 2;
      FirstHalfOffGrid(cfg);
    } else {
      forall j: nat ensures Grid(cfg, j) <= cfg.endAddress ==> cfg.startAddress <= Grid(cfg, j) <= Grid(cfg, Steps(cfg) - 1) {
        if Grid(cfg, j) <= cfg.endAddress {
          LastGrid(cfg, j);
        }
      }
      x := WrappedOffGrid(cfg, Steps(cfg) - 1);
    }
  }

  lemma FirstHalfOffGrid(cfg: ScanConfig)
    requires Halves(cfg) && cfg.startAddress + cfg.step / 2 <= cfg.endAddress
    ensures var x := cfg.startAddress + cfg.step / 2; IsPosition(cfg, x) && forall j: nat :: x != Grid(cfg, j)
  {
    var x := cfg.startAddress + cfg.step / 2;
    assert Grid(cfg, 0) == cfg.startAddress;
    assert x == HalfStep(cfg, Grid(cfg, 0));
    forall j: nat ensures x != Grid(cfg, j) {
      GridGap(cfg, 0, j);
    }
  }

  lemma WrappedOffGrid(cfg: ScanConfig, n: nat) returns (x: int)
    requires Halves(cfg) && cfg.startAddress + cfg.step / 2 > cfg.endAddress
    requires Grid(cfg, n) <= cfg.endAddress && Grid(cfg, n) + cfg.step / 2 >= 0x1_0000
    requires forall j: nat :: Grid(cfg, j) <= cfg.endAddress ==> cfg.startAddress <= Grid(cfg, j) <= Grid(cfg, n)
    ensures IsPosition(cfg, x) && forall j: nat :: Grid(cfg, j) <= cfg.endAddress ==> x != Grid(cfg, j)
  {
    x := Grid(cfg, n) + cfg.step / 2 - 0x1_0000;
    Wrapped(Grid(cfg, n), cfg.step / 2);
    assert x == HalfStep(cfg, Grid(cfg, n));
    forall j: nat | Grid(cfg, j) <= cfg.endAddress ensures x != Grid(cfg, j) {
      WrapMisses(cfg, j, n);
    }
  }

  lemma Wrapped(g: int, half: int)
    requires 0 <= g <= 0xFFFF && 0 <= half <= 0xFFFF && g + half >= 0x1_0000
    ensures (g + half) % 0x1_0000 == g + half - 0x1_0000
  {
  }

  /** A half step that wraps past the last grid position misses the grid, if none fits
      behind the first. */
  lemma WrapMisses(cfg: ScanConfig, j: nat, n: nat)
    requires cfg.step > 0 && cfg.startAddress + cfg.step / 2 > cfg.endAddress
    requires cfg.startAddress <= Grid(cfg, j) <= Grid(cfg, n) <= cfg.endAddress
    ensures Grid(cfg, n) + cfg.step / 2 - 0x1_0000 != Grid(cfg, j)
  {
    GridGap(cfg, j, n);
    Misses(Grid(cfg, j), Grid(cfg, n), cfg.step, cfg.startAddress, cfg.endAddress);
  }

  lemma Misses(g: int, last: int, step: U16, start: int, end: int)
    requires start <= g <= last <= end < start + step / 2 && step > 0
    requires g == last || last >= g + step
    ensures last + step / 2 - 0x1_0000 != g
  {
  }

  /** The half step behind the last grid position wraps, to an address below the start. */
  predicate WrapsBelow(cfg: ScanConfig) {
    Steps(cfg) > 0 && Halves(cfg) && 0 <= Grid(cfg, Steps(cfg) - 1) + cfg.step / 2 - 0x1_0000 < cfg.startAddress
  }

  /** A half step of any grid position but the last does not wrap. */
  lemma OnlyLastWraps(cfg: ScanConfig, j: nat)
    requires cfg.step > 0 && cfg.startAddress <= cfg.endAddress && Grid(cfg, j) <= cfg.endAddress && j != Steps(cfg) - 1
    ensures cfg.startAddress <= HalfStep(cfg, Grid(cfg, j)) == Grid(cfg, j) + cfg.step / 2
  {
    LastGrid(cfg, j);
    GridInRange(cfg, j);
    GridGrows(cfg, j, Steps(cfg) - 2);
    GridStep(cfg, Steps(cfg) - 2);
    NoWrap(Grid(cfg, j), cfg.step / 2);
  }

  lemma NoWrap(g: int, half: int)
    requires 0 <= g && 0 <= half && g + half < 0x1_0000
    ensures (g + half) % 0x1_0000 == g + half
  {
  }

  /** Some position lies below the start of the range if and only if the half step behind the
      last grid position wraps to there. */
  lemma PositionBelowStartIff(cfg: ScanConfig)
    ensures (exists p :: IsPosition(cfg, p) && p < cfg.startAddress) <==> WrapsBelow(cfg)
  {
    if WrapsBelow(cfg) {
      var g := Grid(cfg, Steps(cfg) - 1);
      LastGrid(cfg, 0);
      Wrapped(g, cfg.step / 2);
      assert IsPosition(cfg, HalfStep(cfg, g));
    }
    if p :| IsPosition(cfg, p) && p < cfg.startAddress {
      BelowStartIsWrapped(cfg, p);
    }
  }

  lemma BelowStartIsWrapped(cfg: ScanConfig, p: int)
    requires IsPosition(cfg, p) && p < cfg.startAddress
    ensures WrapsBelow(cfg)
  {
    var j: nat :| Grid(cfg, j) <= cfg.endAddress && (p == Grid(cfg, j) || (Halves(cfg) && p == HalfStep(cfg, Grid(cfg, j))));
    GridGrows(cfg, 0, j);
    LastGrid(cfg, j);
    if j != Steps(cfg) - 1 {
      OnlyLastWraps(cfg, j);
    }
    if Grid(cfg, j) + cfg.step / 2 < 0x1_0000 {
      NoWrap(Grid(cfg, j), cfg.step / 2);
    } else {
      Wrapped(Grid(cfg, j), cfg.step / 2);
    }
  }

  /** From 60000 to 65535 in steps of 20000 with half steps, 4464 is a position. */
  lemma PositionBelowStart(cfg: ScanConfig)
    requires cfg.startAddress == 60000 && cfg.endAddress == 65535 && cfg.step == 20000 && cfg.stepHalfOffset
    ensures IsPosition(cfg, 4464) && 4464 < cfg.startAddress
  {
    assert Grid(cfg, 0) == 60000 && HalfStep(cfg, 60000) == 4464;
  }

  /** The probes missing from the six of a position: at address 0, and at the last ones. */
  function Missing(cfg: ScanConfig, pos: int): nat {
    (if pos == 0 then 2 else 0) + (if pos == MaxAddr(cfg) - 1 then 1 else if pos == MaxAddr(cfg) then 3 else 0)
  }

  lemma AllTasksOf(a: seq<U16>, x: U16, maxAddr: U16)
    ensures |AllTasks(a + [x], maxAddr)| == |AllTasks(a, maxAddr)| + |TasksAt(x, maxAddr)|
  {
    assert (a + [x])[..|a|] == a;
  }

  lemma ProbeCount(cfg: ScanConfig, pos: U16)
    requires cfg.startAddress <= cfg.endAddress && pos <= cfg.endAddress
    ensures |ProbeTasks(cfg, pos)| == 6 - Missing(cfg, pos)
  {
    var lo, hi := MinAddr(cfg), MaxAddr(cfg);
    var below: seq<U16> := if pos > 0 then [ClampAddr(pos - 1, lo, hi)] else [];
    var at: seq<U16> := below + [ClampAddr(pos, lo, hi)];
    assert AllTasks([], hi) == [];
    if pos > 0 {
      assert below == [] + [below[0]];
      AllTasksOf([], below[0], hi);
    }
    AllTasksOf(below, ClampAddr(pos, lo, hi), hi);
    if pos < 65535 {
      AllTasksOf(at, ClampAddr(pos + 1, lo, hi), hi);
      assert ProbeCenters(cfg, pos) == at + [ClampAddr(pos + 1, lo, hi)];
    } else {
      assert ProbeCenters(cfg, pos) == at;
    }
  }

  /** The probes of the first n positions. */
  function ProbesUpTo(cfg: ScanConfig, s: seq<U16>, n: nat): nat
    requires n <= |s|
  {
    if n == 0 then 0 else ProbesUpTo(cfg, s, n - 1) + |ProbeTasks(cfg, s[n - 1])|
  }

  /** A silent device gets each probe once, and nothing else. */
  lemma {:induction false} SilentCost(cfg: ScanConfig, positions: seq<U16>, vs: seq<Visit>)
    requires Visits(cfg, positions, vs) && NoHit(Flatten(vs))
    ensures |vs| <= |positions| && |Flatten(vs)| == ProbesUpTo(cfg, positions, |vs|)
  {
    if vs != [] {
      var front, v := vs[..|vs| - 1], vs[|vs| - 1];
      NoHitConcat(Flatten(front) + v.probes, v.expansion);
      NoHitConcat(Flatten(front), v.probes);
      SilentCost(cfg, positions, front);
      NoFirstHit(v.probes);
    }
  }

  function If(b: bool, n: nat): nat {
    if b then n else 0
  }

  lemma {:induction false} MissingSum(cfg: ScanConfig, s: seq<U16>, n: nat)
    requires Ascending(s) && n <= |s| && cfg.startAddress <= cfg.endAddress && forall p :: p in s ==> p <= cfg.endAddress
    ensures ProbesUpTo(cfg, s, n) + If(0 in s[..n], 2) + If(MaxAddr(cfg) - 1 in s[..n], 1) + If(MaxAddr(cfg) in s[..n], 3) == 6 * n
  {
    if n > 0 {
      MissingSum(cfg, s, n - 1);
      assert s[n - 1] in s;
      ProbeCount(cfg, s[n - 1]);
      InPrefix(s, n, 0);
      InPrefix(s, n, MaxAddr(cfg) - 1);
      InPrefix(s, n, MaxAddr(cfg));
    }
  }

  /** A position is new among the first n exactly if it is the n-th. */
  lemma InPrefix(s: seq<U16>, n: nat, x: int)
    requires Ascending(s) && 0 < n <= |s|
    ensures x in s[..n] <==> x in s[..n - 1] || x == s[n - 1]
    ensures x == s[n - 1] ==> x !in s[..n - 1]
  {
    assert s[..n] == s[..n - 1] + [s[n - 1]];
  }

  /** Positions at 0 and at both ends of the top leave two off the grid. */
  lemma TwoOffGrid(cfg: ScanConfig, s: seq<U16>)
    requires PositionsOf(cfg, s) && cfg.step > 0 && cfg.startAddress <= cfg.endAddress && Halves(cfg)
    requires 0 in s && 65534 in s && 65535 in s
    ensures |s| >= Steps(cfg) + 2
  {
    GridIsVisited(cfg, s);
    var grid := GridSet(cfg, Steps(cfg));
    var x := OffTop(cfg, s);
    if 0 !in grid {
      TwoMore(cfg, s, 0, x);
    } else if 65534 !in grid && 65535 !in grid {
      TwoMore(cfg, s, 65534, 65535);
    } else {
      if 65534 in grid {
        var j: nat :| 65534 == Grid(cfg, j);
        HalfStepIsOne(cfg, j, 65534, 65535);
      } else {
        var j: nat :| 65535 == Grid(cfg, j);
        HalfStepIsOne(cfg, j, 65535, 65534);
      }
      var i: nat :| 0 == Grid(cfg, i);
      OneIsOffGrid(cfg, s, i);
      TwoMore(cfg, s, 1, x);
    }
  }

  lemma TwoMore(cfg: ScanConfig, s: seq<U16>, x: int, y: int)
    requires PositionsOf(cfg, s) && cfg.step > 0 && cfg.startAddress <= cfg.endAddress && x != y
    requires {x, y} <= SetOf(s) && x !in GridSet(cfg, Steps(cfg)) && y !in GridSet(cfg, Steps(cfg))
    ensures |s| >= Steps(cfg) + 2
  {
    var two := {x, y};
    assert |two| == 2;
    OffGrid(cfg, s, two);
  }

  /** From 0 on in half steps of 1, address 1 is a position off the grid. */
  lemma OneIsOffGrid(cfg: ScanConfig, s: seq<U16>, i: nat)
    requires PositionsOf(cfg, s) && cfg.startAddress <= cfg.endAddress && cfg.endAddress >= 1
    requires Halves(cfg) && cfg.step / 2 == 1 && Grid(cfg, i) == 0
    ensures 1 in s && 1 !in GridSet(cfg, Steps(cfg))
  {
    GridGrows(cfg, 0, i);
    assert Grid(cfg, 0) == 0 && HalfStep(cfg, Grid(cfg, 0)) == 1;
    assert IsPosition(cfg, 1);
    GridIsVisited(cfg, s);
    forall j: nat ensures Grid(cfg, j) != 1 {
      GridGap(cfg, 0, j);
    }
  }

  /** One of two neighbours is off the grid. */
  lemma OffTop(cfg: ScanConfig, s: seq<U16>) returns (x: int)
    requires PositionsOf(cfg, s) && cfg.step > 0 && cfg.startAddress <= cfg.endAddress && Halves(cfg)
    requires 65534 in s && 65535 in s
    ensures (x == 65534 || x == 65535) && x !in GridSet(cfg, Steps(cfg))
  {
    GridIsVisited(cfg, s);
    x := 65534;
    if 65534 in GridSet(cfg, Steps(cfg)) {
      x := 65535;
      var i: nat :| 65534 == Grid(cfg, i);
      if 65535 in GridSet(cfg, Steps(cfg)) {
        var j: nat :| 65535 == Grid(cfg, j);
        GridGap(cfg, i, j);
      }
    }
  }

  /** Two neighbours at the top, one on the grid and the other a position too: the half step
      is 1. */
  lemma HalfStepIsOne(cfg: ScanConfig, j: nat, on: int, off: int)
    requires cfg.step > 0 && cfg.startAddress <= cfg.endAddress && Halves(cfg) && on == Grid(cfg, j) && IsPosition(cfg, off)
    requires (on == 65534 && off == 65535) || (on == 65535 && off == 65534)
    ensures cfg.step / 2 == 1
  {
    var i: nat :| Grid(cfg, i) <= cfg.endAddress && (off == Grid(cfg, i) || off == HalfStep(cfg, Grid(cfg, i)));
    TopOf(cfg, i, j, on, off);
  }

  lemma TopOf(cfg: ScanConfig, i: nat, j: nat, on: int, off: int)
    requires Halves(cfg) && Grid(cfg, i) <= cfg.endAddress && on == Grid(cfg, j)
    requires off == Grid(cfg, i) || off == HalfStep(cfg, Grid(cfg, i))
    requires (on == 65534 && off == 65535) || (on == 65535 && off == 65534)
    ensures cfg.step / 2 == 1
  {
    GridGap(cfg, i, j);
    GridIsNatural(cfg, i);
    TopNeighbour(Grid(cfg, i), cfg.step, on, off);
  }

  lemma GridIsNatural(cfg: ScanConfig, i: nat)
    ensures Grid(cfg, i) >= 0
  {
    assert i * cfg.step >= 0;
  }

  lemma TopNeighbour(g: int, step: U16, on: int, off: int)
    requires 0 <= g <= 65535 && step >= 2 && (off == g || off == (g + step / 2) % 0x1_0000)
    requires (on == 65534 && off == 65535) || (on == 65535 && off == 65534)
    requires g == on || g >= on + step || on >= g + step
    ensures step / 2 == 1
  {
    if g + step / 2 < 0x1_0000 {
      assert (g + step / 2) % 0x1_0000 == g + step / 2;
    }
  }

  /** What a silent run costs: six reads for each position but those missing at 0 and at
      the top. */
  lemma SilentRun(cfg: ScanConfig, h: seq<Read>) returns (s: seq<U16>)
    requires cfg.startAddress <= cfg.endAddress && Report(cfg, h) && NoHit(h)
    ensures PositionsOf(cfg, s)
    ensures |h| == 6 * |s| - If(0 in s, 2) - If(MaxAddr(cfg) - 1 in s, 1) - If(MaxAddr(cfg) in s, 3)
  {
    var vs;
    s, vs :| PositionsOf(cfg, s) && |vs| == |s| && Visits(cfg, s, vs) && h == Flatten(vs);
    SilentCost(cfg, s, vs);
    MissingSum(cfg, s, |s|);
    assert s[..|s|] == s;
  }

  /** The printed worst case without a hit is exceeded by every silent device exactly if
      half steps add a position. */
  lemma PrintedWorstCaseIff(cfg: ScanConfig, h: seq<Read>)
    requires cfg.step > 0 && cfg.startAddress <= cfg.endAddress && Report(cfg, h) && NoHit(h)
    ensures |h| > PrintedWorstCase(cfg) <==> HalfStepCounts(cfg)
  {
    var s := SilentRun(cfg, h);
    MorePositionsIff(cfg, s);
    if HalfStepCounts(cfg) && 0 in s && MaxAddr(cfg) - 1 in s && MaxAddr(cfg) in s {
      assert IsPosition(cfg, MaxAddr(cfg));
      TwoOffGrid(cfg, s);
    }
  }

  /** A range of eleven registers in steps of ten with half steps: fifteen reads, not the
      twelve that are printed. */
  lemma PrintedWorstCaseFails(cfg: ScanConfig, h: seq<Read>)
    requires cfg.startAddress == 0 && cfg.endAddress == 10 && cfg.step == 10 && cfg.stepHalfOffset
    requires Report(cfg, h) && NoHit(h)
    ensures PrintedWorstCase(cfg) == 12 && |h| == 15
  {
    var s := SilentRun(cfg, h);
    ElevenRegisters(cfg, s);
    ElevenInTwoSteps(cfg);
  }

  lemma ElevenInTwoSteps(cfg: ScanConfig)
    requires cfg.startAddress == 0 && cfg.endAddress == 10 && cfg.step == 10
    ensures Steps(cfg) == 2 && MaxAddr(cfg) == 11
  {
  }

  lemma ElevenRegisters(cfg: ScanConfig, s: seq<U16>)
    requires cfg.startAddress == 0 && cfg.endAddress == 10 && cfg.step == 10 && cfg.stepHalfOffset
    requires PositionsOf(cfg, s)
    ensures SetOf(s) == {0, 5, 10} && |s| == 3 && 0 in s && 10 in s && 11 !in s
  {
    assert Grid(cfg, 0) == 0 && Grid(cfg, 1) == 10;
    assert IsPosition(cfg, 0) && IsPosition(cfg, 10);
    assert HalfStep(cfg, Grid(cfg, 0)) == 5;
    assert IsPosition(cfg, 5);
    forall p | p in SetOf(s) ensures p in {0, 5, 10} {
      assert IsPosition(cfg, p);
      var j: nat :| Grid(cfg, j) <= cfg.endAddress && (p == Grid(cfg, j) || (Halves(cfg) && p == HalfStep(cfg, Grid(cfg, j))));
      assert j == 0 || j == 1;
    }
    assert SetOf(s) == {0, 5, 10};
    SizeOfSet(s);
    ghost var three: set<int> := {0, 5, 10};
    assert |three| == 3;
    assert 0 in SetOf(s) && 10 in SetOf(s) && 11 !in SetOf(s);
  }
}
