/** The safe strategy (internal/modbus/scan_algo.go, 123-240): at each address try
    the largest allowed read first, then smaller ones; step past what was read, or by
    one register when every size failed. */
module Safe {
  import opened ScanTypes

  const SIZES := 8

  /** safeCandidateSizes: 125, then the powers of two below it. */
  function CandidateSize(i: nat): U16
    requires i < SIZES
  {
    match i case 0 => 125 case 1 => 64 case 2 => 32 case 3 => 16 case 4 => 8 case 5 => 4 case 6 => 2 case _ => 1
  }

  /** How many of the sizes are too large for n registers. */
  function TooLarge(n: int): nat {
    if n >= 125 then 0 else if n >= 64 then 1 else if n >= 32 then 2 else if n >= 16 then 3
    else if n >= 8 then 4 else if n >= 4 then 5 else if n >= 2 then 6 else if n >= 1 then 7 else 8
  }

  lemma TooLargeIs(n: int, i: nat)
    requires i < SIZES
    ensures CandidateSize(i) <= n <==> TooLarge(n) <= i
  {
  }

  /** c is the ladder of sizes tried when n registers are left: those that fit, in order. */
  predicate IsLadder(c: seq<U16>, n: int) {
    && |c| + TooLarge(n) == SIZES
    && forall k :: 0 <= k < |c| ==> c[k] == CandidateSize(TooLarge(n) + k)
  }

  lemma LadderFits(c: seq<U16>, n: int, k: nat)
    requires IsLadder(c, n) && k < |c|
    ensures 1 <= c[k] <= 125 && c[k] <= n
    ensures k == |c| - 1 ==> c[k] == 1
  {
    TooLargeIs(n, TooLarge(n) + k);
  }

  /** The ladder holds 125 and the powers of two below it, as far as they are at most n, from
      large to small. */
  lemma LadderIs(c: seq<U16>, n: int, x: U16)
    requires IsLadder(c, n)
    ensures x in c <==> x <= n && (x == 125 || x == 64 || x == 32 || x == 16 || x == 8 || x == 4 || x == 2 || x == 1)
    ensures forall i, j :: 0 <= i < j < |c| ==> c[i] > c[j]
  {
    if x in c {
      var k :| 0 <= k < |c| && c[k] == x;
      TooLargeIs(n, TooLarge(n) + k);
    }
    if k: nat :| k < SIZES && CandidateSize(k) == x && x <= n {
      TooLargeIs(n, k);
      assert c[k - TooLarge(n)] == x;
    }
    assert forall i, j :: 0 <= i < j < SIZES ==> CandidateSize(i) > CandidateSize(j);
    assert CandidateSize(0) == 125 && CandidateSize(1) == 64 && CandidateSize(2) == 32 && CandidateSize(3) == 16;
    assert CandidateSize(4) == 8 && CandidateSize(5) == 4 && CandidateSize(6) == 2 && CandidateSize(7) == 1;
  }

  /** The range for which the 16-bit length of the source is 0: it scans nothing. */
  predicate LengthWraps(cfg: ScanConfig) {
    cfg.startAddress == 0 && cfg.endAddress == 0xFFFF
  }

  /** `end - start + 1` in 16 bits. */
  function Length16(start: U16, end: U16): U16 {
    (end - start + 1) % 0x1_0000
  }

  /** candidateCountsSafe. */
  method CandidateCounts(start: U16, end: U16) returns (out: seq<U16>)
    ensures IsLadder(out, if start > end then 0 else Length16(start, end))
  {
    if start > end {
      return [];
    }
    var remaining: U16 := (end - start + 1) % 0x1_0000;
    out := [];
    for i := 0 to SIZES
      invariant |out| == if i <= TooLarge(remaining) then 0 else i - TooLarge(remaining)
      invariant forall k :: 0 <= k < |out| ==> out[k] == CandidateSize(TooLarge(remaining) + k)
    {
      TooLargeIs(remaining, i);
      var size := CandidateSize(i);
      if size <= remaining {
        out := out + [size];
      }
    }
  }

  ghost predicate SettledUpTo(h: seq<Read>, lo: int, hi: int) {
    forall a :: lo <= a < hi ==> Settled(h, a)
  }

  /** Reads made at the addresses of [from, until) when every size fails. */
  function LadderReads(from: int, until: int, end: int): nat
    requires from <= until
    decreases until - from
  {
    if from == until then 0 else LadderReads(from, until - 1, end) + (SIZES - TooLarge(end - (until - 1) + 1))
  }

  lemma {:induction false} LadderReadsBound(from: int, until: int, end: int)
    requires from <= until
    ensures LadderReads(from, until, end) <= 8 * (until - from)
    decreases until - from
  {
    if from < until {
      LadderReadsBound(from, until - 1, end);
    }
  }

  function WorstCase(cfg: ScanConfig): nat {
    9 * cfg.RangeLen()
  }

  /** A finished run settles the whole range, unless its length wraps to 0; then it
      makes no read at all. Without a hit it makes every read of every ladder. */
  ghost predicate Report(cfg: ScanConfig, h: seq<Read>) {
    if LengthWraps(cfg) then
      h == []
    else
      && SettledUpTo(h, cfg.startAddress, cfg.endAddress + 1)
      && (NoHit(h) && cfg.startAddress <= cfg.endAddress ==> |h| == LadderReads(cfg.startAddress, cfg.endAddress + 1, cfg.endAddress))
  }

  lemma SettledGrows(h: seq<Read>, r: Read, lo: int, hi: int)
    requires SettledUpTo(h, lo, hi)
    ensures SettledUpTo(h + [r], lo, hi)
    ensures r.result.success && r.task.start == hi ==> SettledUpTo(h + [r], lo, hi + r.task.count)
    ensures !r.result.success && r.task.count == 1 && r.task.start == hi ==> SettledUpTo(h + [r], lo, hi + 1)
  {
    assert r in h + [r];
    forall a | lo <= a < hi ensures Settled(h + [r], a) {
      assert Settled(h, a);
      if Captured(h, a) {
        CapturedGrows(h, r, a);
      } else {
        var q :| q in h && !q.result.success && q.task.start == a && q.task.count == 1;
        assert q in h + [r];
      }
    }
    forall a | hi <= a < hi + r.task.count && r.result.success && r.task.start == hi ensures Settled(h + [r], a) {
      CapturedGrows(h, r, a);
    }
  }

  class SafeStrategy {
    const cfg: ScanConfig
    var current: U32
    var end: U16
    var done: bool
    var candidates: seq<U16>
    var candidateIndex: nat
    var hadFailureThisAddr: bool
    var leftBoundaryProbeAddr: U16
    var leftBoundaryProbePending: bool
    var leftBoundaryProbeInFlight: bool

    ghost var trace: seq<Read>
    ghost var pending: Option<ScanTask>

    /** The scan position and its ladder. */
    ghost predicate Position()
      reads this
    {
      && end == cfg.endAddress
      && (cfg.startAddress <= end ==> cfg.startAddress <= current <= end + 1)
      && (cfg.startAddress > end ==> current == cfg.startAddress)
      && candidateIndex <= |candidates|
      && (candidates != [] ==> current <= end && IsLadder(candidates, end - current + 1))
      && (LengthWraps(cfg) ==> current == 0 && candidates == [])
      && (done ==> LengthWraps(cfg))
    }

    ghost predicate ProbeFits()
      reads this
    {
      && (leftBoundaryProbePending ==>
            && !leftBoundaryProbeInFlight && pending == None && candidates == []
            && cfg.startAddress <= leftBoundaryProbeAddr <= end)
      && (leftBoundaryProbeInFlight ==> pending == Some(ScanTask(leftBoundaryProbeAddr, 1)) && candidates == [])
      && (pending.Some? && !leftBoundaryProbeInFlight ==>
            && 1 <= candidateIndex <= |candidates| && current <= end
            && pending == Some(ScanTask(current, candidates[candidateIndex - 1])))
      && (pending == None && candidates != [] ==> candidateIndex < |candidates|)
    }

    ghost function Waiting(): nat
      reads this
    {
      (if pending.Some? then 1 else 0) + (if leftBoundaryProbePending then 1 else 0)
    }

    /** What was read so far: everything before the scan position is settled, for at most
        nine reads per address passed. */
    ghost predicate Progress()
      reads this
    {
      && cfg.startAddress <= current
      && SettledUpTo(trace, cfg.startAddress, current)
      && |trace| + Waiting() <= 9 * (current - cfg.startAddress) + candidateIndex
      && (NoHit(trace) ==>
            && !leftBoundaryProbePending && !leftBoundaryProbeInFlight
            && |trace| + Waiting() == LadderReads(cfg.startAddress, current, end) + candidateIndex)
      && (LengthWraps(cfg) ==> trace == [])
    }

    ghost predicate Valid()
      reads this
    {
      Position() && ProbeFits() && Progress()
    }

    constructor (c: ScanConfig)
      ensures Valid() && cfg == c && trace == [] && pending == None
    {
      cfg := c;
      current := c.startAddress;
      end := c.endAddress;
      done := false;
      candidates, candidateIndex := [], 0;
      hadFailureThisAddr := false;
      leftBoundaryProbeAddr := 0;
      leftBoundaryProbePending, leftBoundaryProbeInFlight := false, false;
      trace, pending := [], None;
    }

    predicate Finished()
      reads this
    {
      !leftBoundaryProbePending && current > end
    }

    /** Starts a new ladder at the scan position. */
    method Refill()
      requires Position() && current <= end
      modifies `candidates, `candidateIndex
      ensures candidateIndex == 0
      ensures candidates == [] <==> LengthWraps(cfg)
      ensures candidates != [] ==> IsLadder(candidates, end - current + 1)
    {
      candidates := CandidateCounts(current, end);
      candidateIndex := 0;
    }

    method Next() returns (task: Option<ScanTask>)
      requires Valid() && pending == None
      modifies this
      ensures Valid() && pending == task && trace == old(trace) && current == old(current)
      ensures task.Some? ==> task.value.Inside(cfg.startAddress, cfg.endAddress)
      ensures task.Some? && old(leftBoundaryProbePending) ==> task.value == ScanTask(leftBoundaryProbeAddr, 1)
      ensures task.Some? && !old(leftBoundaryProbePending) ==>
                && task.value.start == current
                && candidateIndex == (if old(candidateIndex < |candidates|) then old(candidateIndex) + 1 else 1)
                && candidateIndex <= |candidates| && IsLadder(candidates, end - current + 1)
                && task.value.count == candidates[candidateIndex - 1]
      ensures task == None ==> Report(cfg, trace)
    {
      if leftBoundaryProbePending {
        task := NextProbe();
      } else {
        task := NextCandidate();
      }
    }

    /** The read just left of a hit. */
    method NextProbe() returns (task: Option<ScanTask>)
      requires Valid() && pending == None && leftBoundaryProbePending
      modifies `leftBoundaryProbePending, `leftBoundaryProbeInFlight, `pending
      ensures Valid() && pending == task && task == Some(ScanTask(leftBoundaryProbeAddr, 1))
      ensures task.value.Inside(cfg.startAddress, cfg.endAddress)
    {
      leftBoundaryProbePending := false;
      leftBoundaryProbeInFlight := true;
      task := Some(ScanTask(leftBoundaryProbeAddr, 1));
      pending := task;
    }

    /** The next size at the current address. */
    method NextCandidate() returns (task: Option<ScanTask>)
      requires Valid() && pending == None && !leftBoundaryProbePending
      modifies `candidates, `candidateIndex, `done, `pending
      ensures Valid() && pending == task
      ensures task.Some? ==>
                && task.value.Inside(cfg.startAddress, cfg.endAddress) && task.value.start == current
                && candidateIndex == (if old(candidateIndex < |candidates|) then old(candidateIndex) + 1 else 1)
                && candidateIndex <= |candidates| && IsLadder(candidates, end - current + 1)
                && task.value.count == candidates[candidateIndex - 1]
      ensures task == None ==> Report(cfg, trace)
    {
      if done || current > end {
        return None;
      }
      if candidateIndex >= |candidates| {
        Refill();
        if |candidates| == 0 {
          done := true;
          return None;
        }
      }
      task := TakeCandidate();
    }

    method TakeCandidate() returns (task: Option<ScanTask>)
      requires Valid() && pending == None && !leftBoundaryProbePending && !done && current <= end
      requires candidateIndex < |candidates| && IsLadder(candidates, end - current + 1)
      modifies `candidateIndex, `pending
      ensures Valid() && pending == task && task.Some? && candidateIndex == old(candidateIndex) + 1
      ensures task.value.Inside(cfg.startAddress, cfg.endAddress)
      ensures task.value == ScanTask(current, candidates[candidateIndex - 1])
    {
      LadderFits(candidates, end - current + 1, candidateIndex);
      var count := candidates[candidateIndex];
      candidateIndex := candidateIndex + 1;
      task := Some(ScanTask(current, count));
      pending := task;
    }

    method OnProbeResult(task: ScanTask, result: ScanResult)
      requires Valid() && pending == Some(task) && leftBoundaryProbeInFlight
      modifies `leftBoundaryProbeInFlight, `trace, `pending
      ensures Valid() && pending == None && trace == old(trace) + [Read(task, result)]
    {
      SettledGrows(trace, Read(task, result), cfg.startAddress, current);
      NoHitGrows(trace, Read(task, result));
      leftBoundaryProbeInFlight := false;
      trace, pending := trace + [Read(task, result)], None;
    }

    method OnHit(task: ScanTask, result: ScanResult)
      requires Valid() && pending == Some(task) && !leftBoundaryProbeInFlight && result.success
      modifies this
      ensures Valid() && pending == None && trace == old(trace) + [Read(task, result)]
      ensures current == old(current) + task.count && candidates == []
      ensures leftBoundaryProbePending <==> old(hadFailureThisAddr) && task.start > cfg.startAddress
      ensures leftBoundaryProbePending ==> leftBoundaryProbeAddr == task.start - 1
    {
      SettledGrows(trace, Read(task, result), cfg.startAddress, current);
      NoHitGrows(trace, Read(task, result));
      LadderFits(candidates, end - current + 1, candidateIndex - 1);
      trace, pending := trace + [Read(task, result)], None;
      if hadFailureThisAddr && task.start > cfg.startAddress {
        leftBoundaryProbeAddr := task.start - 1;
        leftBoundaryProbePending := true;
      }
      current := current + task.count;
      candidates := [];
      candidateIndex := 0;
      hadFailureThisAddr := false;
    }

    method OnMiss(task: ScanTask, result: ScanResult)
      requires Valid() && pending == Some(task) && !leftBoundaryProbeInFlight && !result.success
      modifies this
      ensures Valid() && pending == None && trace == old(trace) + [Read(task, result)]
      ensures current == old(current) + if old(candidateIndex) < |old(candidates)| then 0 else 1
      ensures hadFailureThisAddr
    {
      SettledGrows(trace, Read(task, result), cfg.startAddress, current);
      NoHitGrows(trace, Read(task, result));
      LadderFits(candidates, end - current + 1, candidateIndex - 1);
      trace, pending := trace + [Read(task, result)], None;
      hadFailureThisAddr := true;
      if candidateIndex >= |candidates| {
        current := current + 1;
        candidates := [];
        candidateIndex := 0;
      }
    }

    method OnResult(task: ScanTask, result: ScanResult)
      requires Valid() && pending == Some(task)
      modifies this
      ensures Valid() && pending == None && trace == old(trace) + [Read(task, result)]
      ensures old(leftBoundaryProbeInFlight) ==> current == old(current)
    {
      if leftBoundaryProbeInFlight {
        OnProbeResult(task, result);
      } else if result.success {
        OnHit(task, result);
      } else {
        OnMiss(task, result);
      }
    }

    /** Never more reads than the bound, the pending one included. */
    lemma WithinWorstCase()
      requires Valid()
      ensures |trace| + (if pending.Some? then 1 else 0) <= WorstCase(cfg)
    {
    }

    lemma FinishedReports()
      requires Valid() && pending == None && Finished()
      ensures Report(cfg, trace)
    {
    }
  }

  // ----- what a finished run guarantees -----

  /** Safe settles its range if and only if the 16-bit length does not wrap. */
  lemma SettlesUnlessWrapped(cfg: ScanConfig, h: seq<Read>)
    requires Report(cfg, h)
    ensures SettledUpTo(h, cfg.startAddress, cfg.endAddress + 1) <==> !LengthWraps(cfg)
  {
    if LengthWraps(cfg) {
      assert !Settled(h, 0);
    }
  }

  /** On an interval-readable device every readable address of the range is captured. */
  lemma ReportIsComplete(cfg: ScanConfig, h: seq<Read>, R: set<int>, a: int)
    requires Report(cfg, h) && !LengthWraps(cfg) && IntervalReadable(h, R)
    requires cfg.startAddress <= a <= cfg.endAddress
    ensures Captured(h, a) <==> a in R
  {
    assert Settled(h, a);
    if Captured(h, a) {
      CapturedIsReadable(h, R, a);
    } else {
      var r :| r in h && !r.result.success && r.task.start == a && r.task.count == 1;
      assert forall b :: r.task.Holds(b) ==> b == a;
    }
  }

  /** Without a hit, at most the eight reads per address that the tool prints. */
  lemma NoHitCost(cfg: ScanConfig, h: seq<Read>)
    requires Report(cfg, h) && NoHit(h) && cfg.startAddress <= cfg.endAddress
    ensures |h| <= 8 * cfg.RangeLen()
  {
    LadderReadsBound(cfg.startAddress, cfg.endAddress + 1, cfg.endAddress);
  }
}
