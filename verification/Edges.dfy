/** Certificates for the edges of a readable block: failed reads that stick out of a
    captured block by one register. They hold for any answers; on an interval-readable
    device they make the edge exact. */
module Edges {
  import opened ScanTypes

  /** A read starting at from and ending by limit failed. */
  ghost predicate FailedFrom(h: seq<Read>, from: int, limit: int) {
    exists r :: r in h && !r.result.success && r.task.start == from && r.task.start + r.task.count <= limit
  }

  /** A read ending just before until and starting at limit or above failed. */
  ghost predicate FailedUpTo(h: seq<Read>, limit: int, until: int) {
    exists r :: r in h && !r.result.success && r.task.start + r.task.count == until && limit <= r.task.start
  }

  /** Below lo nothing is readable: the range ends, or a read starting at lo - 1 and
      otherwise inside the block failed. */
  ghost predicate LeftCertified(h: seq<Read>, start: int, lo: int, hi: int) {
    lo == start || FailedFrom(h, lo - 1, hi)
  }

  /** At hi nothing is readable: the range ends, or a read ending at hi and otherwise
      inside the block failed. */
  ghost predicate RightCertified(h: seq<Read>, end: int, lo: int, hi: int) {
    hi == end + 1 || FailedUpTo(h, lo, hi + 1)
  }

  lemma FailedFromGrows(h: seq<Read>, r: Read, from: int, limit: int, limit': int)
    requires FailedFrom(h, from, limit) && limit <= limit'
    ensures FailedFrom(h + [r], from, limit')
  {
    var q :| q in h && !q.result.success && q.task.start == from && q.task.start + q.task.count <= limit;
    assert q in h + [r];
  }

  lemma FailedUpToGrows(h: seq<Read>, r: Read, limit: int, until: int)
    requires FailedUpTo(h, limit, until)
    ensures FailedUpTo(h + [r], limit, until)
  {
    var q :| q in h && !q.result.success && q.task.start + q.task.count == until && limit <= q.task.start;
    assert q in h + [r];
  }

  lemma LeftCertificateGrows(h: seq<Read>, r: Read, start: int, lo: int, hi: int, hi': int)
    requires LeftCertified(h, start, lo, hi) && hi <= hi'
    ensures LeftCertified(h + [r], start, lo, hi')
  {
    if lo != start {
      FailedFromGrows(h, r, lo - 1, hi, hi');
    }
  }

  lemma FailedLast(h: seq<Read>, r: Read, lo: int, hi: int)
    requires !r.result.success
    ensures r.task.start + r.task.count <= hi ==> FailedFrom(h + [r], r.task.start, hi)
    ensures lo <= r.task.start ==> FailedUpTo(h + [r], lo, r.task.start + r.task.count)
  {
    assert r in h + [r];
  }

  /** A certified left edge of a captured block is exact on an interval-readable device. */
  lemma LeftEdgeIsExact(h: seq<Read>, R: set<int>, start: int, lo: int, hi: int)
    requires IntervalReadable(h, R) && CapturedAll(h, lo, hi) && LeftCertified(h, start, lo, hi) && lo != start
    ensures lo - 1 !in R
  {
    var r :| r in h && !r.result.success && r.task.start == lo - 1 && r.task.start + r.task.count <= hi;
    forall a | r.task.Holds(a) && a != lo - 1 ensures a in R {
      CapturedIsReadable(h, R, a);
    }
  }

  /** A certified right edge of a captured block is exact on an interval-readable device. */
  lemma RightEdgeIsExact(h: seq<Read>, R: set<int>, end: int, lo: int, hi: int)
    requires IntervalReadable(h, R) && CapturedAll(h, lo, hi) && RightCertified(h, end, lo, hi) && hi != end + 1
    ensures hi !in R
  {
    var r :| r in h && !r.result.success && r.task.start + r.task.count == hi + 1 && lo <= r.task.start;
    forall a | r.task.Holds(a) && a != hi ensures a in R {
      CapturedIsReadable(h, R, a);
    }
  }

  /** Either half of an interval that is searched takes one read less. */
  lemma Halved(low: int, high: int, n: nat)
    requires low <= high && high + 1 - low < Pow2(n)
    ensures n > 0
    ensures var mid := (low + high) / 2; mid - low < Pow2(n - 1) && high - mid < Pow2(n - 1)
  {
  }

  /** A window of 125 registers is searched in seven reads. */
  lemma WidthOfWindow()
    ensures Pow2(7) == 128
  {
    assert Pow2(4) == 16 by { assert Pow2(2) == 4; }
    assert Pow2(6) == 64;
  }
}
