/** The boundary strategy (internal/modbus/scan_algo.go, 918-1163): grow a
    known-good seed read into the block around it, then binary-search both edges
    in windows of at most 125 registers. */
module Boundary {
  import opened ScanTypes
  import opened Edges

  const EXPAND_SIZES: seq<U32> := [1, 2, 4, 8, 16, 32, 64, 125]

  datatype Phase = Seed | LeftExpand | LeftBinary | RightExpand | RightBinary | Done

  /** The seed lies fully inside the range and is a read a device can be asked for. */
  predicate SeedFits(cfg: ScanConfig) {
    1 <= cfg.seedCount <= MAX_BLOCK_SIZE
    && cfg.startAddress <= cfg.seedStart
    && cfg.seedStart + cfg.seedCount - 1 <= cfg.endAddress
  }

  function SeedTask(cfg: ScanConfig): ScanTask {
    ScanTask(cfg.seedStart, cfg.seedCount)
  }

  /** 17 + 7 per started 125-register window on either side of the seed. */
  function WorstCase(cfg: ScanConfig): nat {
    if SeedFits(cfg) then
      17 + 7 * (Chunks(cfg.seedStart - cfg.startAddress)
                + Chunks(cfg.endAddress + 1 - cfg.seedStart - cfg.seedCount))
    else 0
  }

  // ----- what a finished run proves about the block [lo, hi) -----

  /** [lo, hi) is the capture, contains the seed and is certified on both sides. */
  ghost predicate ExactBlock(cfg: ScanConfig, h: seq<Read>, lo: int, hi: int) {
    && cfg.startAddress <= lo <= cfg.seedStart
    && cfg.seedStart + cfg.seedCount <= hi <= cfg.endAddress + 1
    && CapturedExactly(h, lo, hi)
    && LeftCertified(h, cfg.startAddress, lo, hi)
    && RightCertified(h, cfg.endAddress, lo, hi)
  }

  /** What a finished run guarantees, for any answers. */
  ghost predicate Report(cfg: ScanConfig, h: seq<Read>) {
    if !SeedFits(cfg) then
      h == []
    else
      && |h| >= 1 && h[0].task == SeedTask(cfg)
      && (if h[0].result.success then exists lo, hi :: ExactBlock(cfg, h, lo, hi) else |h| == 1)
  }

  /** The sizes double from 1 to 64; the last one is the most a device can be asked for. */
  lemma SizesDouble()
    ensures |EXPAND_SIZES| == 8 && forall i :: 0 <= i < 7 ==> EXPAND_SIZES[i] == Pow2(i)
    ensures EXPAND_SIZES[7] == 125
  {
    WidthOfWindow();
    assert Pow2(0) == 1 && Pow2(1) == 2 && Pow2(2) == 4 && Pow2(3) == 8;
    assert Pow2(4) == 16 && Pow2(5) == 32 && Pow2(6) == 64;
  }

  /** The first read is the seed, if it has 1 to 125 registers inside the range; otherwise
      nothing is read. */
  lemma SeedIsReadFirst(cfg: ScanConfig, h: seq<Read>)
    requires Report(cfg, h)
    ensures if 1 <= cfg.seedCount <= 125 && cfg.startAddress <= cfg.seedStart && cfg.seedStart + cfg.seedCount <= cfg.endAddress + 1
            then h != [] && h[0].task.start == cfg.seedStart && h[0].task.count == cfg.seedCount
            else h == []
  {
  }

  class BoundaryStrategy {
    const cfg: ScanConfig
    var start: U32
    var end: U32
    var blockStart: U32
    var blockEnd: U32
    var phase: Phase
    var seedEmitted: bool
    var leftExpandIdx: nat
    var rightExpandIdx: nat
    var leftLow: U32
    var leftHigh: U32
    var leftFloor: U32
    var rightLow: U32
    var rightHigh: U32
    var rightCeil: U32

    ghost var trace: seq<Read>
    /** Reads the current binary search may still make, and windows that may still be
        opened on either side. */
    ghost var halvings: nat
    ghost var leftWindows: nat
    ghost var rightWindows: nat
    ghost var pending: Option<ScanTask>

    ghost function InFlight(): nat
      reads this
    {
      if pending.Some? then 1 else 0
    }

    /** The block contains the seed, stays in the range and is captured. */
    ghost predicate Block()
      reads this
    {
      && start == cfg.startAddress && end == cfg.endAddress && SeedFits(cfg)
      && start <= blockStart <= cfg.seedStart
      && cfg.seedStart + cfg.seedCount <= blockEnd <= end + 1
      && |trace| >= 1 && trace[0].task == SeedTask(cfg) && trace[0].result.success
      && CapturedExactly(trace, blockStart, blockEnd)
      && (pending.Some? ==> pending.value.Inside(start, end))
    }

    ghost predicate BeforeRight()
      reads this
    {
      blockEnd == cfg.seedStart + cfg.seedCount && rightExpandIdx == 0
      && end + 1 - blockEnd <= 125 * rightWindows
    }

    ghost predicate InSeed()
      reads this
    {
      && start == cfg.startAddress && end == cfg.endAddress && SeedFits(cfg)
      && blockStart == cfg.seedStart && BeforeRight() && leftExpandIdx == 0
      && blockStart - start <= 125 * leftWindows && 17 + 7 * (leftWindows + rightWindows) <= WorstCase(cfg)
      && (pending.Some? ==> seedEmitted && pending.value == SeedTask(cfg))
      && if !seedEmitted || pending.Some? then trace == [] else Block() && |trace| == 1
    }

    ghost predicate InLeftExpand()
      reads this
    {
      && Block() && BeforeRight() && leftExpandIdx <= |EXPAND_SIZES|
      && (pending.Some? ==>
            && 1 <= leftExpandIdx
            && pending.value.start + pending.value.count == blockStart)
      && blockStart - start <= 125 * leftWindows
      && |trace| + InFlight() + 7 * (leftWindows + rightWindows) + 16 <= WorstCase(cfg) + leftExpandIdx
    }

    /** The left edge lies in [leftLow, leftHigh]; below leftLow a read failed, unless
        leftLow still is the floor of the window. */
    ghost predicate InLeftBinary()
      reads this
    {
      && Block() && BeforeRight()
      && start <= leftFloor <= leftLow <= leftHigh == blockStart && leftHigh - leftFloor <= 125
      && (leftLow == leftFloor || FailedFrom(trace, leftLow - 1, blockEnd))
      && (pending.Some? ==>
            && leftLow < leftHigh
            && pending.value.start + pending.value.count == blockStart
            && pending.value.start == (leftLow + leftHigh) / 2)
      && leftHigh - leftLow < Pow2(halvings)
      && (leftLow == leftFloor ==> leftFloor - start <= 125 * leftWindows)
      && |trace| + halvings + 7 * (leftWindows + rightWindows) + 8 <= WorstCase(cfg)
    }

    ghost predicate InRightExpand()
      reads this
    {
      && Block() && LeftCertified(trace, start, blockStart, blockEnd) && rightExpandIdx <= |EXPAND_SIZES|
      && (pending.Some? ==>
            && 1 <= rightExpandIdx
            && pending.value.start == blockEnd)
      && end + 1 - blockEnd <= 125 * rightWindows
      && |trace| + InFlight() + 7 * rightWindows + 8 <= WorstCase(cfg) + rightExpandIdx
    }

    /** The last readable address lies in [rightLow - 1, rightHigh]; a read up to
        rightHigh + 1 failed, unless rightHigh still is the ceiling of the window. */
    ghost predicate InRightBinary()
      reads this
    {
      && Block() && LeftCertified(trace, start, blockStart, blockEnd)
      && blockEnd == rightLow <= rightHigh + 1 && rightHigh <= rightCeil <= end && rightCeil - rightLow <= 124
      && (rightHigh == rightCeil || FailedUpTo(trace, blockStart, rightHigh + 2))
      && (pending.Some? ==>
            && rightLow <= rightHigh
            && pending.value.start == blockEnd
            && pending.value.start + pending.value.count - 1 == (rightLow + rightHigh) / 2)
      && rightHigh + 1 - rightLow < Pow2(halvings)
      && (rightHigh == rightCeil ==> end - rightCeil <= 125 * rightWindows)
      && |trace| + halvings + 7 * rightWindows <= WorstCase(cfg)
    }

    ghost predicate InDone()
      reads this
    {
      && pending == None && Report(cfg, trace) && |trace| <= WorstCase(cfg)
      && (trace != [] && trace[0].result.success ==> SeedFits(cfg) && ExactBlock(cfg, trace, blockStart, blockEnd))
    }

    ghost predicate Valid()
      reads this
    {
      match phase
      case Seed => InSeed()
      case LeftExpand => InLeftExpand()
      case LeftBinary => InLeftBinary()
      case RightExpand => InRightExpand()
      case RightBinary => InRightBinary()
      case Done => InDone()
    }

    static function Min(x: int, y: int): int {
      if x < y then x else y
    }

    static function Max(x: int, y: int): int {
      if x < y then y else x
    }

    constructor (c: ScanConfig)
      ensures Valid() && cfg == c && trace == [] && pending == None
    {
      cfg := c;
      start := c.startAddress;
      end := c.endAddress;
      blockStart := c.seedStart;
      blockEnd := c.seedStart + c.seedCount;
      seedEmitted := false;
      leftExpandIdx, rightExpandIdx := 0, 0;
      leftLow, leftHigh, leftFloor := 0, 0, 0;
      rightLow, rightHigh, rightCeil := 0, 0, 0;
      if c.seedCount == 0 || c.seedCount > MAX_BLOCK_SIZE || c.seedStart < c.startAddress || c.seedStart + c.seedCount - 1 > c.endAddress {
        phase := Done;
      } else {
        phase := Seed;
      }
      trace, pending := [], None;
      halvings := 0;
      leftWindows := Chunks(Max(0, c.seedStart - c.startAddress));
      rightWindows := Chunks(Max(0, c.endAddress + 1 - c.seedStart - c.seedCount));
    }

    /** Starts a binary search for the left edge in the window below blockStart. */
    method OpenLeftWindow()
      requires SeedFits(cfg) && start == cfg.startAddress <= blockStart
      modifies `phase, `leftFloor, `leftLow, `leftHigh
      ensures phase == LeftBinary
      ensures leftLow == leftFloor == Max(start, blockStart - 125) && leftHigh == blockStart
    {
      phase := LeftBinary;
      leftFloor := start;
      if blockStart - start > MAX_BLOCK_SIZE {
        leftFloor := blockStart - MAX_BLOCK_SIZE;
      }
      leftLow := leftFloor;
      leftHigh := blockStart;
    }

    /** Starts a binary search for the right edge in the window above blockEnd;
        false when the range holds nothing above it. */
    method OpenRightWindow() returns (more: bool)
      requires blockEnd <= 0x1_0000
      modifies `phase, `rightCeil, `rightLow, `rightHigh
      ensures more == (blockEnd <= end)
      ensures more ==> phase == RightBinary && rightLow == blockEnd
                         && rightCeil == rightHigh == Min(blockEnd + 124, end)
      ensures !more ==> phase == old(phase)
    {
      if blockEnd > end {
        return false;
      }
      phase := RightBinary;
      rightCeil := Min(blockEnd + MAX_BLOCK_SIZE - 1, end);
      rightLow := blockEnd;
      rightHigh := rightCeil;
      return true;
    }

    /** The window just opened gets its seven reads. */
    ghost method UseLeftWindow()
      modifies `halvings, `leftWindows
      ensures if old(leftWindows) > 0 then halvings == 7 && leftWindows == old(leftWindows) - 1
              else halvings == 0 && leftWindows == 0
      ensures Pow2(halvings) == if old(leftWindows) > 0 then 128 else 1
    {
      WidthOfWindow();
      if leftWindows > 0 {
        halvings, leftWindows := 7, leftWindows - 1;
      } else {
        halvings := 0;
      }
    }

    ghost method UseRightWindow()
      modifies `halvings, `rightWindows
      requires rightWindows > 0
      ensures halvings == 7 && rightWindows == old(rightWindows) - 1 && Pow2(halvings) == 128
    {
      WidthOfWindow();
      halvings, rightWindows := 7, rightWindows - 1;
    }

    predicate Finished()
      reads this
    {
      phase == Done
    }

    /** Position in the order of the phases; Next goes down it until it has a task. */
    ghost function Rank(): nat
      reads this
    {
      match phase
      case Seed => 7
      case LeftExpand => 6
      case LeftBinary => if leftLow >= leftHigh then 5 else 4
      case RightExpand => 3
      case RightBinary => if rightLow > rightHigh then 2 else 1
      case Done => 0
    }

    method NextSeed() returns (task: Option<ScanTask>)
      requires phase == Seed && InSeed() && pending == None
      modifies this
      ensures task.Some? ==> task.value.Inside(cfg.startAddress, cfg.endAddress)
      ensures Valid() && (task == None ==> Rank() < old(Rank()))
      ensures pending == task && trace == old(trace)
    {
      if !seedEmitted {
        seedEmitted := true;
        task := Some(SeedTask(cfg));
        pending := task;
        return;
      }
      phase := LeftExpand;
      return None;
    }

    method NextLeftExpand() returns (task: Option<ScanTask>)
      requires phase == LeftExpand && InLeftExpand() && pending == None
      modifies this
      ensures task.Some? ==> task.value.Inside(cfg.startAddress, cfg.endAddress)
      ensures task.Some? ==> old(leftExpandIdx) < |EXPAND_SIZES|
                             && task.value.count == Min(blockStart - start, EXPAND_SIZES[old(leftExpandIdx)])
      ensures Valid() && (task == None ==> Rank() < old(Rank()))
      ensures pending == task && trace == old(trace)
    {
      if leftExpandIdx >= |EXPAND_SIZES| || blockStart <= start {
        OpenLeftWindow();
        UseLeftWindow();
        return None;
      }
      var size := EXPAND_SIZES[leftExpandIdx];
      leftExpandIdx := leftExpandIdx + 1;
      var from := start;
      if blockStart - start > size {
        from := blockStart - size;
      }
      task := Some(ScanTask(from, blockStart - from));
      pending := task;
    }

    method NextLeftBinary() returns (task: Option<ScanTask>)
      requires phase == LeftBinary && InLeftBinary() && pending == None
      modifies this
      ensures task.Some? ==> task.value.Inside(cfg.startAddress, cfg.endAddress)
      ensures Valid() && (task == None ==> Rank() < old(Rank()))
      ensures pending == task && trace == old(trace)
    {
      if leftLow >= leftHigh {
        if blockStart == leftFloor && blockStart > start {
          OpenLeftWindow();
          UseLeftWindow();
          return None;
        }
        phase := RightExpand;
        return None;
      }
      var mid := (leftLow + leftHigh) / 2;
      task := Some(ScanTask(mid, blockStart - mid));
      pending := task;
    }

    method NextRightExpand() returns (task: Option<ScanTask>)
      requires phase == RightExpand && InRightExpand() && pending == None
      modifies this
      ensures task.Some? ==> task.value.Inside(cfg.startAddress, cfg.endAddress)
      ensures task.Some? ==> old(rightExpandIdx) < |EXPAND_SIZES|
                             && task.value.count == Min(end + 1 - blockEnd, EXPAND_SIZES[old(rightExpandIdx)])
      ensures Valid() && (task == None ==> Rank() < old(Rank()))
      ensures pending == task && trace == old(trace)
    {
      if rightExpandIdx >= |EXPAND_SIZES| || blockEnd > end {
        var more := OpenRightWindow();
        if more {
          UseRightWindow();
        } else {
          assert ExactBlock(cfg, trace, blockStart, blockEnd);
          phase := Done;
        }
        return None;
      }
      var size := EXPAND_SIZES[rightExpandIdx];
      rightExpandIdx := rightExpandIdx + 1;
      var to := end + 1;
      if to - blockEnd > size {
        to := blockEnd + size;
      }
      task := Some(ScanTask(blockEnd, to - blockEnd));
      pending := task;
    }

    method NextRightBinary() returns (task: Option<ScanTask>)
      requires phase == RightBinary && InRightBinary() && pending == None
      modifies this
      ensures task.Some? ==> task.value.Inside(cfg.startAddress, cfg.endAddress)
      ensures Valid() && (task == None ==> Rank() < old(Rank()))
      ensures pending == task && trace == old(trace)
    {
      if rightLow > rightHigh {
        if blockEnd == rightCeil + 1 {
          var more := OpenRightWindow();
          if more {
            UseRightWindow();
            return None;
          }
        }
        assert ExactBlock(cfg, trace, blockStart, blockEnd);
        phase := Done;
        return None;
      }
      var mid := (rightLow + rightHigh) / 2;
      task := Some(ScanTask(blockEnd, mid + 1 - blockEnd));
      pending := task;
    }

    method Next() returns (task: Option<ScanTask>)
      requires Valid() && pending == None
      modifies this
      ensures Valid() && pending == task && trace == old(trace)
      ensures task.Some? ==> task.value.Inside(cfg.startAddress, cfg.endAddress)
      ensures task == None <==> Finished()
    {
      while true
        invariant Valid() && pending == None && trace == old(trace)
        decreases Rank()
      {
        match phase {
          case Seed => task := NextSeed();
          case LeftExpand => task := NextLeftExpand();
          case LeftBinary => task := NextLeftBinary();
          case RightExpand => task := NextRightExpand();
          case RightBinary => task := NextRightBinary();
          case Done => return None;
        }
        if task.Some? {
          return;
        }
      }
    }

    method LeftExpandHit(task: ScanTask, result: ScanResult)
      requires phase == LeftExpand && InLeftExpand() && pending == Some(task) && result.success
      modifies this
      ensures phase == LeftExpand && InLeftExpand()
      ensures pending == None && trace == old(trace) + [Read(task, result)]
    {
      pending, trace := None, trace + [Read(task, result)];
      ExactlyExtends(old(trace), Read(task, result), blockStart, blockEnd, task.start, blockEnd);
      blockStart := task.start;
    }

    method LeftExpandMiss(task: ScanTask, result: ScanResult)
      requires phase == LeftExpand && InLeftExpand() && pending == Some(task) && !result.success
      modifies this
      ensures phase == LeftBinary && InLeftBinary()
      ensures pending == None && trace == old(trace) + [Read(task, result)]
    {
      pending, trace := None, trace + [Read(task, result)];
      ExactlyKept(old(trace), Read(task, result), blockStart, blockEnd);
      FailedLast(old(trace), Read(task, result), blockStart, blockEnd);
      phase := LeftBinary;
      leftFloor := task.start;
      leftLow := task.start + 1;
      leftHigh := blockStart;
      UseLeftWindow();
    }

    method LeftBinaryHit(task: ScanTask, result: ScanResult)
      requires phase == LeftBinary && InLeftBinary() && pending == Some(task) && result.success
      modifies this
      ensures phase == LeftBinary && InLeftBinary()
      ensures pending == None && trace == old(trace) + [Read(task, result)]
    {
      pending, trace, halvings := None, trace + [Read(task, result)], halvings - 1;
      ExactlyExtends(old(trace), Read(task, result), blockStart, blockEnd, task.start, blockEnd);
      if leftLow != leftFloor {
        FailedFromGrows(old(trace), Read(task, result), leftLow - 1, blockEnd, blockEnd);
      }
      blockStart := task.start;
      leftHigh := task.start;
    }

    method LeftBinaryMiss(task: ScanTask, result: ScanResult)
      requires phase == LeftBinary && InLeftBinary() && pending == Some(task) && !result.success
      modifies this
      ensures phase == LeftBinary && InLeftBinary()
      ensures pending == None && trace == old(trace) + [Read(task, result)]
    {
      pending, trace, halvings := None, trace + [Read(task, result)], halvings - 1;
      ExactlyKept(old(trace), Read(task, result), blockStart, blockEnd);
      FailedLast(old(trace), Read(task, result), blockStart, blockEnd);
      leftLow := task.start + 1;
    }

    method RightExpandHit(task: ScanTask, result: ScanResult)
      requires phase == RightExpand && InRightExpand() && pending == Some(task) && result.success
      modifies this
      ensures phase == RightExpand && InRightExpand()
      ensures pending == None && trace == old(trace) + [Read(task, result)]
    {
      pending, trace := None, trace + [Read(task, result)];
      ExactlyExtends(old(trace), Read(task, result), blockStart, blockEnd, blockStart, task.start + task.count);
      LeftCertificateGrows(old(trace), Read(task, result), start, blockStart, blockEnd, task.start + task.count);
      blockEnd := task.start + task.count;
    }

    method RightExpandMiss(task: ScanTask, result: ScanResult)
      requires phase == RightExpand && InRightExpand() && pending == Some(task) && !result.success
      modifies this
      ensures phase == RightBinary && InRightBinary()
      ensures pending == None && trace == old(trace) + [Read(task, result)]
    {
      pending, trace := None, trace + [Read(task, result)];
      ExactlyKept(old(trace), Read(task, result), blockStart, blockEnd);
      LeftCertificateGrows(old(trace), Read(task, result), start, blockStart, blockEnd, blockEnd);
      FailedLast(old(trace), Read(task, result), blockStart, blockEnd);
      phase := RightBinary;
      rightCeil := task.start + task.count - 1;
      rightLow := blockEnd;
      rightHigh := task.start + task.count - 2;
      UseRightWindow();
    }

    method RightBinaryHit(task: ScanTask, result: ScanResult)
      requires phase == RightBinary && InRightBinary() && pending == Some(task) && result.success
      modifies this
      ensures phase == RightBinary && InRightBinary()
      ensures pending == None && trace == old(trace) + [Read(task, result)]
    {
      pending, trace, halvings := None, trace + [Read(task, result)], halvings - 1;
      ExactlyExtends(old(trace), Read(task, result), blockStart, blockEnd, blockStart, task.start + task.count);
      LeftCertificateGrows(old(trace), Read(task, result), start, blockStart, blockEnd, task.start + task.count);
      if rightHigh != rightCeil {
        FailedUpToGrows(old(trace), Read(task, result), blockStart, rightHigh + 2);
      }
      blockEnd := task.start + task.count;
      rightLow := task.start + task.count;
    }

    method RightBinaryMiss(task: ScanTask, result: ScanResult)
      requires phase == RightBinary && InRightBinary() && pending == Some(task) && !result.success
      modifies this
      ensures phase == RightBinary && InRightBinary()
      ensures pending == None && trace == old(trace) + [Read(task, result)]
    {
      pending, trace, halvings := None, trace + [Read(task, result)], halvings - 1;
      ExactlyKept(old(trace), Read(task, result), blockStart, blockEnd);
      LeftCertificateGrows(old(trace), Read(task, result), start, blockStart, blockEnd, blockEnd);
      FailedLast(old(trace), Read(task, result), blockStart, blockEnd);
      rightHigh := task.start + task.count - 2;
    }

    /** Never more reads than the bound, the pending one included. */
    lemma WithinWorstCase()
      requires Valid()
      ensures |trace| + (if pending.Some? then 1 else 0) <= WorstCase(cfg)
    {
      if pending.Some? && (phase.LeftBinary? || phase.RightBinary?) {
        assert halvings > 0;
      }
    }

    lemma FinishedReports()
      requires Valid() && Finished()
      ensures Report(cfg, trace)
    {
    }

    method OnResult(task: ScanTask, result: ScanResult)
      requires Valid() && pending == Some(task)
      modifies this
      ensures Valid() && pending == None && trace == old(trace) + [Read(task, result)]
    {
      match phase {
        case Seed =>
          pending, trace := None, trace + [Read(task, result)];
          if !result.success {
            phase := Done;
          } else {
            assert Read(task, result) in trace;
          }
        case LeftExpand =>
          if result.success { LeftExpandHit(task, result); } else { LeftExpandMiss(task, result); }
        case LeftBinary =>
          if result.success { LeftBinaryHit(task, result); } else { LeftBinaryMiss(task, result); }
        case RightExpand =>
          if result.success { RightExpandHit(task, result); } else { RightExpandMiss(task, result); }
        case RightBinary =>
          if result.success { RightBinaryHit(task, result); } else { RightBinaryMiss(task, result); }
        case Done =>
      }
    }
  }

  // ----- what a finished run guarantees -----

  /** [lo, hi) is the readable block around the seed: readable throughout, and cut by
      the range or by an unreadable register on both sides. */
  ghost predicate ReadableBlock(cfg: ScanConfig, R: set<int>, lo: int, hi: int) {
    && cfg.startAddress <= lo <= cfg.seedStart && cfg.seedStart + cfg.seedCount <= hi <= cfg.endAddress + 1
    && (forall a :: lo <= a < hi ==> a in R)
    && (lo == cfg.startAddress || lo - 1 !in R)
    && (hi == cfg.endAddress + 1 || hi !in R)
  }

  /** It contains every readable interval of the range around the seed. */
  lemma ReadableBlockIsMaximal(cfg: ScanConfig, R: set<int>, lo: int, hi: int, p: int, q: int)
    requires ReadableBlock(cfg, R, lo, hi)
    requires cfg.startAddress <= p <= cfg.seedStart && cfg.seedStart + cfg.seedCount <= q <= cfg.endAddress + 1
    requires forall a :: p <= a < q ==> a in R
    requires cfg.seedCount >= 1
    ensures lo <= p && q <= hi
  {
    assert p <= lo - 1 < q ==> lo - 1 in R;
    assert p <= hi < q ==> hi in R;
  }

  /** On an interval-readable device a finished run with a readable seed has captured
      exactly the readable block around it, and has certified both edges. */
  lemma ReportIsExact(cfg: ScanConfig, h: seq<Read>, R: set<int>) returns (lo: int, hi: int)
    requires SeedFits(cfg) && Report(cfg, h) && IntervalReadable(h, R)
    requires forall a :: SeedTask(cfg).Holds(a) ==> a in R
    ensures ExactBlock(cfg, h, lo, hi) && ReadableBlock(cfg, R, lo, hi)
  {
    assert h[0] in h && h[0].result.success;
    lo, hi :| ExactBlock(cfg, h, lo, hi);
    forall a | lo <= a < hi ensures a in R {
      CapturedIsReadable(h, R, a);
    }
    assert CapturedAll(h, lo, hi);
    if lo != cfg.startAddress {
      LeftEdgeIsExact(h, R, cfg.startAddress, lo, hi);
    }
    if hi != cfg.endAddress + 1 {
      RightEdgeIsExact(h, R, cfg.endAddress, lo, hi);
    }
  }

  /** On an interval-readable device an unreadable seed ends the run after one read. */
  lemma UnreadableSeedStops(cfg: ScanConfig, h: seq<Read>, R: set<int>, a: int)
    requires SeedFits(cfg) && Report(cfg, h) && IntervalReadable(h, R)
    requires SeedTask(cfg).Holds(a) && a !in R
    ensures |h| == 1 && !h[0].result.success
  {
    assert h[0] in h;
  }
}
