/** The vocabulary shared by the scan strategies: the fixed-width numbers of the
    Go code, read tasks and their results, and what a list of performed reads
    says about addresses. */
module ScanTypes {

  /** Subset types stand for the fixed-width Go integers. Storing a value in one
      is a proof obligation, so no conversion (`conv.Addr16`, `conv.Uint16`) can
      panic and no 32-bit step can wrap. */
  type Byte = x: int | 0 <= x <= 0xFF
  type U16 = x: int | 0 <= x <= 0xFFFF
  type U32 = x: int | 0 <= x <= 0xFFFF_FFFF

  const MAX_BLOCK_SIZE: U32 := 125

  datatype Option<+T> = None | Some(value: T)

  datatype Algorithm = Safe | Smart | Deep | Stepped | Linear | Boundary | SunSpec

  datatype ScanConfig = ScanConfig(
    algo: Algorithm,
    startAddress: U16,
    endAddress: U16,
    step: U16,
    stepHalfOffset: bool,
    seedStart: U16,
    seedCount: U16,
    sunSpecBase: U16,
    sunSpecBases: seq<U16>,
    sunSpecMaxModels: int,
    sunSpecMaxSpan: U16,
    retryOnTimeoutTransport: nat,
    delay: nat)
  {
    /** Number of addresses in the configured range. */
    function RangeLen(): nat {
      if startAddress <= endAddress then endAddress - startAddress + 1 else 0
    }
  }

  datatype ScanTask = ScanTask(start: U16, count: U16) {
    predicate Holds(a: int) {
      start <= a < start + count
    }

    /** A read a device can be asked for that stays inside [lo, hi]. */
    predicate Inside(lo: int, hi: int) {
      1 <= count <= MAX_BLOCK_SIZE && lo <= start && start + count - 1 <= hi
    }
  }

  datatype ScanResult = ScanResult(success: bool, data: seq<Byte>)

  /** One performed read: what was asked and what came back. */
  datatype Read = Read(task: ScanTask, result: ScanResult)

  /** Address a lies inside a successful read, so it is in the capture. */
  ghost predicate Captured(h: seq<Read>, a: int) {
    exists r :: r in h && r.result.success && r.task.Holds(a)
  }

  /** Every address of [lo, hi) is in the capture. */
  ghost predicate CapturedAll(h: seq<Read>, lo: int, hi: int) {
    forall a :: lo <= a < hi ==> Captured(h, a)
  }

  /** The capture is exactly the block [lo, hi). */
  ghost predicate CapturedExactly(h: seq<Read>, lo: int, hi: int) {
    forall a :: Captured(h, a) <==> lo <= a < hi
  }

  /** A read of the register at a alone failed. */
  ghost predicate RefusedAlone(h: seq<Read>, a: int) {
    exists r :: r in h && !r.result.success && r.task.start == a && r.task.count == 1
  }

  /** Address a is captured, or a read of it alone was refused. */
  ghost predicate Settled(h: seq<Read>, a: int) {
    Captured(h, a) || RefusedAlone(h, a)
  }

  /** No read succeeded. */
  ghost predicate NoHit(h: seq<Read>) {
    forall r :: r in h ==> !r.result.success
  }

  /** The reads h ask for exactly these tasks, in order. */
  ghost predicate Asks(h: seq<Read>, tasks: seq<ScanTask>) {
    |h| == |tasks| && forall i :: 0 <= i < |h| ==> h[i].task == tasks[i]
  }

  /** The device is interval-readable with readable addresses R: a read succeeds
      exactly when every address it covers is readable. */
  ghost predicate IntervalReadable(h: seq<Read>, R: set<int>) {
    forall r :: r in h ==> (r.result.success <==> forall a :: r.task.Holds(a) ==> a in R)
  }

  lemma NoHitGrows(h: seq<Read>, r: Read)
    ensures NoHit(h + [r]) <==> NoHit(h) && !r.result.success
  {
    assert r in h + [r];
    assert forall q :: q in h ==> q in h + [r];
  }

  lemma CapturedGrows(h: seq<Read>, r: Read, a: int)
    ensures Captured(h + [r], a) <==> Captured(h, a) || (r.result.success && r.task.Holds(a))
  {
    if Captured(h, a) {
      var q :| q in h && q.result.success && q.task.Holds(a);
      assert q in h + [r];
    }
    if r.result.success && r.task.Holds(a) {
      assert r in h + [r];
    }
  }

  lemma CapturedAllGrows(h: seq<Read>, r: Read, lo: int, hi: int)
    requires CapturedAll(h, lo, hi)
    ensures CapturedAll(h + [r], lo, hi)
  {
    forall a | lo <= a < hi ensures Captured(h + [r], a) {
      CapturedGrows(h, r, a);
    }
  }

  /** A successful read that touches a captured block extends it to [lo', hi'). */
  lemma CapturedAllExtends(h: seq<Read>, r: Read, lo: int, hi: int, lo': int, hi': int)
    requires CapturedAll(h, lo, hi) && r.result.success
    requires forall a :: lo' <= a < hi' ==> lo <= a < hi || r.task.Holds(a)
    ensures CapturedAll(h + [r], lo', hi')
  {
    forall a | lo' <= a < hi' ensures Captured(h + [r], a) {
      CapturedGrows(h, r, a);
    }
  }

  lemma ExactlyKept(h: seq<Read>, r: Read, lo: int, hi: int)
    requires CapturedExactly(h, lo, hi) && !r.result.success
    ensures CapturedExactly(h + [r], lo, hi)
  {
    forall a ensures Captured(h + [r], a) <==> Captured(h, a) {
      CapturedGrows(h, r, a);
    }
  }

  /** A successful read that touches the captured block extends it to [lo', hi'). */
  lemma ExactlyExtends(h: seq<Read>, r: Read, lo: int, hi: int, lo': int, hi': int)
    requires CapturedExactly(h, lo, hi) && r.result.success
    requires forall a :: lo' <= a < hi' <==> lo <= a < hi || r.task.Holds(a)
    ensures CapturedExactly(h + [r], lo', hi')
  {
    forall a ensures Captured(h + [r], a) <==> lo' <= a < hi' {
      CapturedGrows(h, r, a);
      assert Captured(h, a) <==> lo <= a < hi;
      assert r.task.Holds(a) <==> r.task.start <= a < r.task.start + r.task.count;
    }
  }

  /** On an interval-readable device everything captured is readable. */
  lemma CapturedIsReadable(h: seq<Read>, R: set<int>, a: int)
    requires IntervalReadable(h, R) && Captured(h, a)
    ensures a in R
  {
    var r :| r in h && r.result.success && r.task.Holds(a);
  }

  /** Blocks of 125 registers needed for n registers. */
  function Chunks(n: nat): nat {
    (n + 124) / 125
  }

  function Pow2(k: nat): (p: nat)
    ensures p > 0
  {
    if k == 0 then 1 else 2 * Pow2(k - 1)
  }
}
