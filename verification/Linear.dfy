/** The linear strategy (internal/modbus/scan_algo.go, 684-927): probe 125-register
    blocks; extend a readable one forward, binary-search its tail and, after a failed
    probe, its true start. */
module Linear {
  import opened ScanTypes
  import opened Edges

  datatype Phase = Probe | Backward | Forward | Tail

  /** A block the strategy found: [lo, hi). */
  datatype Block = Block(lo: nat, hi: nat) {
    predicate Holds(a: int) {
      lo <= a < hi
    }
  }

  function WorstCase(cfg: ScanConfig): nat {
    17 * Chunks(cfg.RangeLen())
  }

  // ----- blocks found after a failed probe -----

  /** A read of the 125 registers in front of x failed. */
  predicate LeadsTo(r: Read, x: int) {
    !r.result.success && r.task.count == 125 && r.task.start + 125 == x
  }

  ghost predicate LastLeadsTo(h: seq<Read>, x: int) {
    h != [] && LeadsTo(h[|h| - 1], x)
  }

  /** Read i succeeded at x, directly after one of the 125 registers in front of x had failed. */
  predicate FoundBy(h: seq<Read>, i: int, x: int) {
    0 < i < |h| && h[i].result.success && h[i].task.start == x && LeadsTo(h[i - 1], x)
  }

  ghost predicate Found(h: seq<Read>, x: int) {
    exists i :: FoundBy(h, i, x)
  }

  /** The block was found in this way: its first probe came after a failed one. */
  ghost predicate AfterFailure(h: seq<Read>, b: Block) {
    exists x :: b.Holds(x) && Found(h, x)
  }

  ghost predicate FoundBelow(h: seq<Read>, limit: int) {
    forall x :: Found(h, x) ==> x < limit
  }

  /** One more read finds nothing after a failed probe. */
  ghost predicate Calm(h: seq<Read>, r: Read) {
    r.result.success ==> !LastLeadsTo(h, r.task.start)
  }

  lemma FoundGrows(h: seq<Read>, r: Read, x: int)
    ensures Found(h + [r], x) <==> Found(h, x) || (r.result.success && r.task.start == x && LastLeadsTo(h, x))
  {
    var h' := h + [r];
    if Found(h, x) {
      var i :| FoundBy(h, i, x);
      assert FoundBy(h', i, x);
    }
    if i :| FoundBy(h', i, x) {
      assert i < |h| ==> FoundBy(h, i, x);
    }
    if r.result.success && r.task.start == x && LastLeadsTo(h, x) {
      assert FoundBy(h', |h|, x);
    }
  }

  lemma CalmFindsNothing(h: seq<Read>, r: Read)
    requires Calm(h, r)
    ensures forall x :: Found(h + [r], x) <==> Found(h, x)
  {
    forall x ensures Found(h + [r], x) <==> Found(h, x) {
      FoundGrows(h, r, x);
    }
  }

  lemma FoundStays(h: seq<Read>, r: Read)
    ensures forall x :: Found(h, x) ==> Found(h + [r], x)
  {
    forall x ensures Found(h, x) ==> Found(h + [r], x) {
      FoundGrows(h, r, x);
    }
  }

  lemma AfterFailureStays(h: seq<Read>, r: Read, b: Block, b': Block)
    requires AfterFailure(h, b) && b'.lo == b.lo && b.hi <= b'.hi
    ensures AfterFailure(h + [r], b')
  {
    FoundStays(h, r);
    var x :| b.Holds(x) && Found(h, x);
    assert b'.Holds(x);
  }

  lemma AfterFailureWas(h: seq<Read>, r: Read, b: Block)
    requires Calm(h, r) || r.task.start >= b.hi
    requires AfterFailure(h + [r], b)
    ensures AfterFailure(h, b)
  {
    var x :| b.Holds(x) && Found(h + [r], x);
    FoundGrows(h, r, x);
  }

  // ----- what a finished run proves about its blocks -----

  /** A read inside [lo, hi) failed although the block was read: impossible on an
      interval-readable device. */
  ghost predicate Contradicted(h: seq<Read>, lo: int, hi: int) {
    exists r :: r in h && !r.result.success && lo <= r.task.start && r.task.start + r.task.count <= hi
  }

  ghost predicate LeftEdge(h: seq<Read>, start: int, lo: int, hi: int) {
    LeftCertified(h, start, lo, hi) || Contradicted(h, lo, hi)
  }

  ghost predicate RightEdge(h: seq<Read>, end: int, lo: int, hi: int) {
    RightCertified(h, end, lo, hi) || Contradicted(h, lo, hi)
  }

  /** A finished block: captured, with a certified right edge, and a certified left edge
      when it was found after a failed probe. */
  ghost predicate BlockProved(cfg: ScanConfig, h: seq<Read>, b: Block) {
    && cfg.startAddress <= b.lo < b.hi <= cfg.endAddress + 1
    && CapturedAll(h, b.lo, b.hi)
    && RightEdge(h, cfg.endAddress, b.lo, b.hi)
    && (AfterFailure(h, b) ==> LeftEdge(h, cfg.startAddress, b.lo, b.hi))
  }

  ghost predicate AllProved(cfg: ScanConfig, h: seq<Read>, blocks: seq<Block>) {
    forall b :: b in blocks ==> BlockProved(cfg, h, b)
  }

  /** The blocks lie in address order, below limit. */
  ghost predicate InOrder(blocks: seq<Block>, limit: int) {
    blocks == [] || (blocks[|blocks| - 1].hi <= limit && InOrder(blocks[..|blocks| - 1], blocks[|blocks| - 1].lo))
  }

  /** Where a block begins that was not found after a failed probe: at the start of the range,
      at the end of the block before, or 125 registers behind that. */
  predicate Succeeds(cfg: ScanConfig, before: Option<Block>, lo: int) {
    match before
    case None => lo == cfg.startAddress
    case Some(b) => lo == b.hi || lo == b.hi + 125
  }

  /** The block in front of block j. */
  function BlockBefore(blocks: seq<Block>, j: nat): Option<Block>
    requires j <= |blocks|
  {
    if j == 0 then None else Some(blocks[j - 1])
  }

  ghost predicate BeginsAt(cfg: ScanConfig, h: seq<Read>, blocks: seq<Block>, j: nat)
    requires j < |blocks|
  {
    AfterFailure(h, blocks[j]) || Succeeds(cfg, BlockBefore(blocks, j), blocks[j].lo)
  }

  ghost predicate Begins(cfg: ScanConfig, h: seq<Read>, blocks: seq<Block>) {
    forall j :: 0 <= j < |blocks| ==> BeginsAt(cfg, h, blocks, j)
  }

  /** Everything captured lies in a block or in [lo, hi); the exception is a register a
      gap probe read after it had been refused. */
  ghost predicate Accounted(h: seq<Read>, blocks: seq<Block>, lo: int, hi: int) {
    forall a :: Captured(h, a) ==> (exists b :: b in blocks && b.Holds(a)) || lo <= a < hi || RefusedAlone(h, a)
  }

  ghost predicate ReportFor(cfg: ScanConfig, h: seq<Read>, blocks: seq<Block>) {
    && AllProved(cfg, h, blocks) && InOrder(blocks, cfg.endAddress + 1) && Accounted(h, blocks, 0, 0)
    && Begins(cfg, h, blocks)
    && (NoHit(h) ==> |h| == Chunks(cfg.RangeLen()))
  }

  ghost predicate Report(cfg: ScanConfig, h: seq<Read>) {
    exists blocks :: ReportFor(cfg, h, blocks)
  }

  // ----- how one more read changes it -----

  lemma ContradictedGrows(h: seq<Read>, r: Read, lo: int, hi: int, lo': int, hi': int)
    requires Contradicted(h, lo, hi) && lo' <= lo && hi <= hi'
    ensures Contradicted(h + [r], lo', hi')
  {
    var q :| q in h && !q.result.success && lo <= q.task.start && q.task.start + q.task.count <= hi;
    assert q in h + [r];
  }

  lemma LeftEdgeGrows(h: seq<Read>, r: Read, start: int, lo: int, hi: int, hi': int)
    requires LeftEdge(h, start, lo, hi) && hi <= hi'
    ensures LeftEdge(h + [r], start, lo, hi')
  {
    if LeftCertified(h, start, lo, hi) {
      LeftCertificateGrows(h, r, start, lo, hi, hi');
    } else {
      ContradictedGrows(h, r, lo, hi, lo, hi');
    }
  }

  lemma BlockProvedGrows(cfg: ScanConfig, h: seq<Read>, b: Block, r: Read)
    requires BlockProved(cfg, h, b) && (Calm(h, r) || r.task.start >= b.hi)
    ensures BlockProved(cfg, h + [r], b)
  {
    CapturedAllGrows(h, r, b.lo, b.hi);
    if AfterFailure(h + [r], b) {
      AfterFailureWas(h, r, b);
      LeftEdgeGrows(h, r, cfg.startAddress, b.lo, b.hi, b.hi);
    }
    if Contradicted(h, b.lo, b.hi) {
      ContradictedGrows(h, r, b.lo, b.hi, b.lo, b.hi);
    } else if b.hi != cfg.endAddress + 1 {
      FailedUpToGrows(h, r, b.lo, b.hi + 1);
    }
  }

  lemma {:induction false} InOrderBelow(cfg: ScanConfig, h: seq<Read>, blocks: seq<Block>, limit: int)
    requires InOrder(blocks, limit) && AllProved(cfg, h, blocks)
    ensures forall b :: b in blocks ==> b.hi <= limit
  {
    if blocks != [] {
      var front, last := blocks[..|blocks| - 1], blocks[|blocks| - 1];
      InOrderBelow(cfg, h, front, last.lo);
      assert BlockProved(cfg, h, last);
    }
  }

  /** The blocks keep their proofs when a read finds nothing after a failed probe, or starts
      behind them. */
  lemma AllProvedGrows(cfg: ScanConfig, h: seq<Read>, blocks: seq<Block>, r: Read)
    requires AllProved(cfg, h, blocks) && Begins(cfg, h, blocks) && (Calm(h, r) || InOrder(blocks, r.task.start))
    ensures AllProved(cfg, h + [r], blocks) && Begins(cfg, h + [r], blocks)
  {
    if !Calm(h, r) {
      InOrderBelow(cfg, h, blocks, r.task.start);
    }
    forall b | b in blocks ensures BlockProved(cfg, h + [r], b) {
      BlockProvedGrows(cfg, h, b, r);
    }
    BeginsGrows(cfg, h, blocks, r);
  }

  lemma BeginsGrows(cfg: ScanConfig, h: seq<Read>, blocks: seq<Block>, r: Read)
    requires Begins(cfg, h, blocks)
    ensures Begins(cfg, h + [r], blocks)
  {
    forall j | 0 <= j < |blocks| ensures BeginsAt(cfg, h + [r], blocks, j) {
      assert BeginsAt(cfg, h, blocks, j);
      if AfterFailure(h, blocks[j]) {
        AfterFailureStays(h, r, blocks[j], blocks[j]);
      }
    }
  }

  lemma RefusedAloneGrows(h: seq<Read>, r: Read, a: int)
    requires RefusedAlone(h, a)
    ensures RefusedAlone(h + [r], a)
  {
    var q :| q in h && !q.result.success && q.task.start == a && q.task.count == 1;
    assert q in h + [r];
  }

  /** What was accounted for stays so when the current block covers the new read. */
  lemma AccountedGrows(h: seq<Read>, blocks: seq<Block>, r: Read, lo: int, hi: int, lo': int, hi': int)
    requires Accounted(h, blocks, lo, hi)
    requires lo >= hi || (lo' <= lo && hi <= hi')
    requires forall a :: r.result.success && r.task.Holds(a) ==> lo' <= a < hi' || RefusedAlone(h, a) || Captured(h, a)
    ensures Accounted(h + [r], blocks, lo', hi')
  {
    forall a | Captured(h + [r], a)
      ensures (exists b :: b in blocks && b.Holds(a)) || lo' <= a < hi' || RefusedAlone(h + [r], a)
    {
      CapturedGrows(h, r, a);
      assert r.task.Holds(a) || !r.task.Holds(a);
      if RefusedAlone(h, a) {
        RefusedAloneGrows(h, r, a);
      }
    }
  }

  /** A read of exactly [from, until) failed. */
  ghost predicate FailedExactly(h: seq<Read>, from: int, until: int) {
    exists r :: r in h && !r.result.success && r.task.start == from && r.task.start + r.task.count == until
  }

  lemma FailedExactlyGrows(h: seq<Read>, r: Read, from: int, until: int)
    requires FailedExactly(h, from, until)
    ensures FailedExactly(h + [r], from, until)
  {
    var q :| q in h && !q.result.success && q.task.start == from && q.task.start + q.task.count == until;
    assert q in h + [r];
  }

  // ----- what the reads prove in each phase -----

  /** Between blocks, at probe position p; had tells whether the last probe failed. */
  ghost predicate ProbeFacts(cfg: ScanConfig, h: seq<Read>, blocks: seq<Block>, p: int, had: bool) {
    && AllProved(cfg, h, blocks) && InOrder(blocks, p - if had then 125 else 0) && InOrder(blocks, cfg.endAddress + 1)
    && Accounted(h, blocks, 0, 0) && Begins(cfg, h, blocks) && FoundBelow(h, p)
    && (had && p <= cfg.endAddress ==> LastLeadsTo(h, p))
    && (!had ==> Succeeds(cfg, BlockBefore(blocks, |blocks|), p))
  }

  /** A read starting k registers before orig and ending by orig failed. */
  ghost predicate FailedBack(h: seq<Read>, orig: int, k: int) {
    FailedFrom(h, orig - k, orig)
  }

  /** Searching the true start of the block probed at orig: best registers before it are
      captured; one more than high failed, unless the search met no failure yet. */
  ghost predicate BackwardFacts(cfg: ScanConfig, h: seq<Read>, blocks: seq<Block>, orig: int, best: int, high: int, hi: int) {
    && AllProved(cfg, h, blocks) && InOrder(blocks, orig - 125) && !NoHit(h)
    && CapturedAll(h, orig - best, hi) && Accounted(h, blocks, orig - best, hi)
    && (forall k :: (k == 125 || k == high + 1) && k <= 125 ==> FailedBack(h, orig, k))
    && Begins(cfg, h, blocks) && Found(h, orig) && FoundBelow(h, orig + 1) && LastEndsAt(h, orig)
  }

  /** The last read succeeded, or it was one of the registers in front of orig. */
  ghost predicate LastEndsAt(h: seq<Read>, orig: int) {
    h != [] && (h[|h| - 1].result.success || h[|h| - 1].task.start + h[|h| - 1].task.count == orig)
  }

  /** The left edge of [lo, hi) is certified if anything was found in it after a failed probe. */
  ghost predicate LeftKnown(cfg: ScanConfig, h: seq<Read>, lo: int, hi: int) {
    forall x :: lo <= x < hi && Found(h, x) ==> LeftEdge(h, cfg.startAddress, lo, hi)
  }

  /** The block [lo, hi) is growing. */
  ghost predicate ForwardFacts(cfg: ScanConfig, h: seq<Read>, blocks: seq<Block>, lo: int, hi: int) {
    && AllProved(cfg, h, blocks) && InOrder(blocks, lo) && !NoHit(h) && 0 <= lo <= hi
    && CapturedAll(h, lo, hi) && Accounted(h, blocks, lo, hi)
    && Begins(cfg, h, blocks + [Block(lo, hi)]) && FoundBelow(h, hi) && LeftKnown(cfg, h, lo, hi)
  }

  /** Searching the tail of [lo, hi): best registers behind it are captured; one more
      than high failed, unless the search met no failure yet. limit is where it began. */
  ghost predicate TailFacts(cfg: ScanConfig, h: seq<Read>, blocks: seq<Block>, lo: int, hi: int, best: int, high: int, limit: int) {
    && ForwardFacts(cfg, h, blocks, lo, hi + best)
    && FailedExactly(h, hi, hi + limit)
    && (high < limit ==> FailedExactly(h, hi, hi + high + 1))
    && h != [] && h[|h| - 1].task.start == hi
  }

  lemma ProbeMissed(cfg: ScanConfig, h: seq<Read>, blocks: seq<Block>, p: int, had: bool, r: Read)
    requires ProbeFacts(cfg, h, blocks, p, had) && !r.result.success
    requires r.task.start == p && (p + 125 <= cfg.endAddress ==> r.task.count == 125)
    ensures ProbeFacts(cfg, h + [r], blocks, p + 125, true)
  {
    AllProvedGrows(cfg, h, blocks, r);
    AccountedGrows(h, blocks, r, 0, 0, 0, 0);
    CalmFindsNothing(h, r);
    assert (h + [r])[|h|] == r;
  }

  lemma GapProbed(cfg: ScanConfig, h: seq<Read>, blocks: seq<Block>, p: int, r: Read)
    requires ProbeFacts(cfg, h, blocks, p, false) && Settled(h, r.task.start) && r.task.count == 1 && !LastLeadsTo(h, r.task.start)
    ensures ProbeFacts(cfg, h + [r], blocks, p, false) && !LastLeadsTo(h + [r], p)
  {
    AllProvedGrows(cfg, h, blocks, r);
    AccountedGrows(h, blocks, r, 0, 0, 0, 0);
    CalmFindsNothing(h, r);
    assert (h + [r])[|h|] == r;
  }

  lemma ProbeHitAfterFailure(cfg: ScanConfig, h: seq<Read>, blocks: seq<Block>, p: int, r: Read)
    requires ProbeFacts(cfg, h, blocks, p, true) && r.result.success && r.task.start == p <= cfg.endAddress
    ensures BackwardFacts(cfg, h + [r], blocks, p, 0, 125, p + r.task.count)
  {
    BelowToo(blocks, p - 125, p);
    AllProvedGrows(cfg, h, blocks, r);
    AccountedGrows(h, blocks, r, 0, 0, p, p + r.task.count);
    CapturedAllExtends(h, r, 0, 0, p, p + r.task.count);
    assert h[|h| - 1] in h;
    FailedFromGrows(h, r, p - 125, p, p);
    assert FailedBack(h + [r], p, 125);
    NoHitGrows(h, r);
    forall x ensures Found(h + [r], x) <==> Found(h, x) || x == p {
      FoundGrows(h, r, x);
    }
    assert (h + [r])[|h|] == r;
  }

  lemma BelowToo(blocks: seq<Block>, limit: int, limit': int)
    requires InOrder(blocks, limit) && limit <= limit'
    ensures InOrder(blocks, limit')
  {
  }

  lemma ProbeHitAtOnce(cfg: ScanConfig, h: seq<Read>, blocks: seq<Block>, p: int, r: Read)
    requires ProbeFacts(cfg, h, blocks, p, false) && r.result.success && r.task.start == p && !LastLeadsTo(h, p)
    ensures ForwardFacts(cfg, h + [r], blocks, p, p + r.task.count)
  {
    AllProvedGrows(cfg, h, blocks, r);
    AccountedGrows(h, blocks, r, 0, 0, p, p + r.task.count);
    CapturedAllExtends(h, r, 0, 0, p, p + r.task.count);
    NoHitGrows(h, r);
    CalmFindsNothing(h, r);
    BeginsSnoc(cfg, h + [r], blocks, Block(p, p + r.task.count));
  }

  lemma BackwardHitFacts(cfg: ScanConfig, h: seq<Read>, blocks: seq<Block>, orig: int, best: int, high: int, hi: int, r: Read)
    requires BackwardFacts(cfg, h, blocks, orig, best, high, hi) && r.result.success
    requires 0 <= best < r.task.count && r.task.start + r.task.count == orig < hi
    ensures BackwardFacts(cfg, h + [r], blocks, orig, r.task.count, high, hi)
  {
    AllProvedGrows(cfg, h, blocks, r);
    AccountedGrows(h, blocks, r, orig - best, hi, orig - r.task.count, hi);
    CapturedAllExtends(h, r, orig - best, hi, orig - r.task.count, hi);
    NoHitGrows(h, r);
    forall k | (k == 125 || k == high + 1) && k <= 125 ensures FailedBack(h + [r], orig, k) {
      assert FailedBack(h, orig, k);
      FailedFromGrows(h, r, orig - k, orig, orig);
    }
    CalmFindsNothing(h, r);
    assert (h + [r])[|h|] == r;
  }

  lemma BackwardMissFacts(cfg: ScanConfig, h: seq<Read>, blocks: seq<Block>, orig: int, best: int, high: int, hi: int, r: Read)
    requires BackwardFacts(cfg, h, blocks, orig, best, high, hi) && !r.result.success
    requires r.task.start + r.task.count == orig
    ensures BackwardFacts(cfg, h + [r], blocks, orig, best, r.task.count - 1, hi)
  {
    AllProvedGrows(cfg, h, blocks, r);
    AccountedGrows(h, blocks, r, orig - best, hi, orig - best, hi);
    CapturedAllGrows(h, r, orig - best, hi);
    NoHitGrows(h, r);
    assert FailedBack(h, orig, 125);
    FailedFromGrows(h, r, orig - 125, orig, orig);
    FailedLast(h, r, 0, orig);
    CalmFindsNothing(h, r);
    assert (h + [r])[|h|] == r;
  }

  /** The search for the start ended: the block begins best registers before orig. */
  lemma BackwardEndFacts(cfg: ScanConfig, h: seq<Read>, blocks: seq<Block>, orig: int, best: int, hi: int)
    requires BackwardFacts(cfg, h, blocks, orig, best, best, hi) && 0 <= best <= 125 && best <= orig < hi
    ensures ForwardFacts(cfg, h, blocks, orig - best, hi) && !LastLeadsTo(h, hi)
  {
    var b := Block(orig - best, hi);
    assert b.Holds(orig);
    if best < 125 {
      assert FailedBack(h, orig, best + 1);
      var r :| r in h && !r.result.success && r.task.start == orig - best - 1 && r.task.start + r.task.count <= orig;
    } else {
      assert FailedBack(h, orig, 125);
      var r :| r in h && !r.result.success && r.task.start == orig - 125 && r.task.start + r.task.count <= orig;
      assert Contradicted(h, orig - best, hi);
    }
    BelowToo(blocks, orig - 125, orig - best);
    BeginsSnoc(cfg, h, blocks, b);
  }

  lemma ForwardHitFacts(cfg: ScanConfig, h: seq<Read>, blocks: seq<Block>, lo: int, hi: int, r: Read)
    requires ForwardFacts(cfg, h, blocks, lo, hi) && r.result.success && lo < hi && !LastLeadsTo(h, r.task.start)
    requires r.task.start <= hi <= r.task.start + r.task.count && lo <= r.task.start
    ensures ForwardFacts(cfg, h + [r], blocks, lo, r.task.start + r.task.count)
  {
    var hi' := r.task.start + r.task.count;
    BeginsSnoc(cfg, h, blocks, Block(lo, hi));
    AllProvedGrows(cfg, h, blocks, r);
    AccountedGrows(h, blocks, r, lo, hi, lo, hi');
    CapturedAllExtends(h, r, lo, hi, lo, hi');
    NoHitGrows(h, r);
    CalmFindsNothing(h, r);
    BlockGrows(cfg, h, blocks, r, lo, hi, hi');
  }

  lemma BeginsSnoc(cfg: ScanConfig, h: seq<Read>, blocks: seq<Block>, b: Block)
    ensures Begins(cfg, h, blocks + [b]) <==>
            Begins(cfg, h, blocks) && (AfterFailure(h, b) || Succeeds(cfg, BlockBefore(blocks, |blocks|), b.lo))
  {
    var all := blocks + [b];
    forall j | 0 <= j < |blocks| ensures BeginsAt(cfg, h, all, j) <==> BeginsAt(cfg, h, blocks, j) {
    }
    assert BeginsAt(cfg, h, all, |blocks|) <==> AfterFailure(h, b) || Succeeds(cfg, BlockBefore(blocks, |blocks|), b.lo);
    if Begins(cfg, h, blocks) && BeginsAt(cfg, h, all, |blocks|) {
      forall j | 0 <= j < |all| ensures BeginsAt(cfg, h, all, j) {
        assert j < |blocks| ==> BeginsAt(cfg, h, blocks, j);
      }
    }
    if Begins(cfg, h, all) {
      forall j | 0 <= j < |blocks| ensures BeginsAt(cfg, h, blocks, j) {
        assert BeginsAt(cfg, h, all, j);
      }
      assert BeginsAt(cfg, h, all, |blocks|);
    }
  }

  /** The growing block was found as it was, and keeps its left edge. */
  lemma BlockGrows(cfg: ScanConfig, h: seq<Read>, blocks: seq<Block>, r: Read, lo: nat, hi: nat, hi': nat)
    requires Calm(h, r) && FoundBelow(h, hi) && hi <= hi' && LeftKnown(cfg, h, lo, hi) && Begins(cfg, h, blocks + [Block(lo, hi)])
    ensures Begins(cfg, h + [r], blocks + [Block(lo, hi')]) && LeftKnown(cfg, h + [r], lo, hi')
  {
    CalmFindsNothing(h, r);
    BeginsSnoc(cfg, h, blocks, Block(lo, hi));
    BeginsSnoc(cfg, h + [r], blocks, Block(lo, hi'));
    BeginsGrows(cfg, h, blocks, r);
    if AfterFailure(h, Block(lo, hi)) {
      AfterFailureStays(h, r, Block(lo, hi), Block(lo, hi'));
    }
    forall x | lo <= x < hi' && Found(h + [r], x) ensures LeftEdge(h + [r], cfg.startAddress, lo, hi') {
      LeftEdgeGrows(h, r, cfg.startAddress, lo, hi, hi');
    }
  }

  lemma ForwardMissFacts(cfg: ScanConfig, h: seq<Read>, blocks: seq<Block>, lo: int, hi: int, r: Read)
    requires ForwardFacts(cfg, h, blocks, lo, hi) && !r.result.success
    ensures ForwardFacts(cfg, h + [r], blocks, lo, hi)
    ensures FailedExactly(h + [r], r.task.start, r.task.start + r.task.count) && (h + [r])[|h|] == r
  {
    BeginsSnoc(cfg, h, blocks, Block(lo, hi));
    AllProvedGrows(cfg, h, blocks, r);
    AccountedGrows(h, blocks, r, lo, hi, lo, hi);
    CapturedAllGrows(h, r, lo, hi);
    NoHitGrows(h, r);
    CalmFindsNothing(h, r);
    BlockGrows(cfg, h, blocks, r, lo, hi, hi);
    assert r in h + [r];
  }

  lemma TailHitFacts(cfg: ScanConfig, h: seq<Read>, blocks: seq<Block>, lo: int, hi: int, best: int, high: int, limit: int, r: Read)
    requires TailFacts(cfg, h, blocks, lo, hi, best, high, limit) && r.result.success
    requires lo < hi == r.task.start && 0 <= best < r.task.count
    ensures TailFacts(cfg, h + [r], blocks, lo, hi, r.task.count, high, limit)
  {
    ForwardHitFacts(cfg, h, blocks, lo, hi + best, r);
    FailedExactlyGrows(h, r, hi, hi + limit);
    if high < limit {
      FailedExactlyGrows(h, r, hi, hi + high + 1);
    }
    assert (h + [r])[|h|] == r;
  }

  lemma TailMissFacts(cfg: ScanConfig, h: seq<Read>, blocks: seq<Block>, lo: int, hi: int, best: int, high: int, limit: int, r: Read)
    requires TailFacts(cfg, h, blocks, lo, hi, best, high, limit) && !r.result.success && r.task.start == hi
    ensures TailFacts(cfg, h + [r], blocks, lo, hi, best, r.task.count - 1, limit)
  {
    ForwardMissFacts(cfg, h, blocks, lo, hi + best, r);
    FailedExactlyGrows(h, r, hi, hi + limit);
  }

  lemma ExactlyContradicts(h: seq<Read>, from: int, until: int, lo: int, hi: int)
    requires FailedExactly(h, from, until) && lo <= from && until <= hi
    ensures Contradicted(h, lo, hi)
  {
    var r :| r in h && !r.result.success && r.task.start == from && r.task.start + r.task.count == until;
  }

  /** The search of the tail ended: the block ends best registers behind hi. */
  lemma TailEndFacts(cfg: ScanConfig, h: seq<Read>, blocks: seq<Block>, lo: int, hi: int, best: int, limit: int)
    requires TailFacts(cfg, h, blocks, lo, hi, best, best, limit) && lo < hi && 0 <= best <= limit && limit >= 1
    ensures RightEdge(h, cfg.endAddress, lo, hi + best)
    ensures Settled(h, hi)
  {
    if best < limit {
      var r :| r in h && !r.result.success && r.task.start == hi && r.task.start + r.task.count == hi + best + 1;
    } else {
      ExactlyContradicts(h, hi, hi + limit, lo, hi + best);
    }
    if best > 0 {
      assert Captured(h, hi);
    }
  }

  /** Filing the finished block [lo, hi); probing goes on at p. */
  lemma BlockFiled(cfg: ScanConfig, h: seq<Read>, blocks: seq<Block>, lo: int, hi: int, p: int) returns (all: seq<Block>)
    requires ForwardFacts(cfg, h, blocks, lo, hi) && RightEdge(h, cfg.endAddress, lo, hi)
    requires cfg.startAddress <= lo < hi <= cfg.endAddress + 1 && (p == hi || p == hi + 125)
    ensures all == blocks + [Block(lo, hi)] && ProbeFacts(cfg, h, all, p, false)
  {
    var b := Block(lo, hi);
    all := blocks + [b];
    assert b in all && forall c :: c in all <==> c in blocks || c == b;
    assert all[..|all| - 1] == blocks;
    forall a | Captured(h, a) ensures (exists c :: c in all && c.Holds(a)) || RefusedAlone(h, a) {
      if exists c :: c in blocks && c.Holds(a) {
        var c :| c in blocks && c.Holds(a);
        assert c in all;
      } else if lo <= a < hi {
        assert b.Holds(a);
      }
    }
  }

  /** The block [lo, hi + best) is filed when its tail is measured. */
  lemma TailFiled(cfg: ScanConfig, h: seq<Read>, blocks: seq<Block>, lo: int, hi: int, best: int, limit: int, p: int) returns (all: seq<Block>)
    requires TailFacts(cfg, h, blocks, lo, hi, best, best, limit) && 0 <= best <= limit && limit >= 1
    requires cfg.startAddress <= lo < hi && hi + best <= cfg.endAddress + 1
    requires p == hi + best || p == hi + best + 125
    ensures all == blocks + [Block(lo, hi + best)] && ProbeFacts(cfg, h, all, p, false)
  {
    TailEndFacts(cfg, h, blocks, lo, hi, best, limit);
    all := BlockFiled(cfg, h, blocks, lo, hi + best, p);
  }

  /** A gap probe at hi, or a probe at hi + 1, then follows no failed read that leads to it. */
  lemma TailLeadsNowhere(cfg: ScanConfig, h: seq<Read>, blocks: seq<Block>, lo: int, hi: int, best: int, limit: int)
    requires TailFacts(cfg, h, blocks, lo, hi, best, best, limit) && 0 <= best <= limit && limit >= 1 && lo < hi
    ensures Settled(h, hi) && !NoHit(h) && !LastLeadsTo(h, hi) && !LastLeadsTo(h, hi + 1)
  {
    TailEndFacts(cfg, h, blocks, lo, hi, best, limit);
  }

  class LinearStrategy {
    const cfg: ScanConfig
    var start: U32
    var end: U32
    var phase: Phase
    var probeStart: U32
    var hadProbeFailure: bool
    var originalBlockStart: U32
    var blockStart: U32
    var blockEnd: U32
    var backwardLow: U32
    var backwardHigh: U32
    var backwardBest: U32
    var tailLow: U32
    var tailHigh: U32
    var tailBest: U32
    var done: bool
    var hasGapProbe: bool
    var gapProbeAddr: U32
    var lastTaskWasGapProbe: bool

    ghost var trace: seq<Read>
    ghost var pending: Option<ScanTask>
    ghost var blocks: seq<Block>
    /** Reads the current binary search may still make; 125-register windows not begun. */
    ghost var halvings: nat
    ghost var windows: nat

    ghost predicate Common()
      reads this
    {
      && start == cfg.startAddress && end == cfg.endAddress && start <= probeStart <= 0x2_0000
      && (pending.Some? ==> pending.value.Inside(start, end) && !done)
      && (hasGapProbe ==> phase.Probe? && !lastTaskWasGapProbe && pending == None)
      && (lastTaskWasGapProbe ==> phase.Probe? && pending.Some?)
    }

    /** The size of a full read at p, cut at the end of the range. */
    ghost function FullCount(p: int): int
      reads this
    {
      if end - p + 1 < 125 then end - p + 1 else 125
    }

    /** Where the next read starts between blocks. */
    ghost function NextStart(): int
      reads this
    {
      if hasGapProbe then gapProbeAddr else if lastTaskWasGapProbe && pending.Some? then pending.value.start else probeStart
    }

    ghost predicate InProbe()
      reads this
    {
      && Common() && ProbeFacts(cfg, trace, blocks, probeStart, hadProbeFailure)
      && (hadProbeFailure ==> probeStart >= start + 125)
      && (hasGapProbe ==> !hadProbeFailure && start <= gapProbeAddr <= end && Settled(trace, gapProbeAddr))
      && (lastTaskWasGapProbe ==> pending.value.count == 1 && Settled(trace, pending.value.start) && !hadProbeFailure)
      && (!hadProbeFailure ==> !LastLeadsTo(trace, NextStart()))
      && (pending.Some? && !lastTaskWasGapProbe ==>
            probeStart <= end && pending.value.start == probeStart && pending.value.count == FullCount(probeStart))
      && (done ==> probeStart > end && !hasGapProbe)
      && end + 1 - probeStart <= 125 * windows
      && |trace| + (if hasGapProbe || lastTaskWasGapProbe then 1 else 0) + 17 * windows <= WorstCase(cfg)
      && (NoHit(trace) ==>
            && !hasGapProbe && !lastTaskWasGapProbe
            && probeStart == start + 125 * |trace| && (start <= end ==> probeStart <= end + 125))
    }

    ghost predicate InBackward()
      reads this
    {
      && Common() && !done
      && start + 125 <= originalBlockStart < blockEnd <= end + 1
      && backwardLow == backwardBest + 1 && backwardLow <= backwardHigh + 1 && backwardHigh <= 125
      && BackwardFacts(cfg, trace, blocks, originalBlockStart, backwardBest, backwardHigh, blockEnd)
      && (pending.Some? ==>
            && backwardLow <= backwardHigh && pending.value.count == (backwardLow + backwardHigh) / 2
            && pending.value.start + pending.value.count == originalBlockStart)
      && end + 1 - blockEnd <= 125 * windows
      && backwardHigh + 1 - backwardLow < Pow2(halvings)
      && |trace| + halvings + 9 + 17 * windows <= WorstCase(cfg)
    }

    ghost predicate InForward()
      reads this
    {
      && Common() && !done && start <= blockStart < blockEnd <= end + 1
      && ForwardFacts(cfg, trace, blocks, blockStart, blockEnd) && !LastLeadsTo(trace, blockEnd)
      && (pending.Some? ==>
            blockEnd <= end && pending.value.start == blockEnd && pending.value.count == FullCount(blockEnd))
      && end + 1 - blockEnd <= 125 * windows
      && |trace| + 9 + 17 * windows <= WorstCase(cfg)
    }

    ghost predicate InTail()
      reads this
    {
      && Common() && !done && start <= blockStart < blockEnd <= end
      && tailLow == tailBest + 1 && tailLow <= tailHigh + 1 && tailHigh <= FullCount(blockEnd)
      && TailFacts(cfg, trace, blocks, blockStart, blockEnd, tailBest, tailHigh, FullCount(blockEnd))
      && (pending.Some? ==>
            && tailLow <= tailHigh && pending.value.count == (tailLow + tailHigh) / 2 && pending.value.start == blockEnd)
      && end + 1 - blockEnd <= 125 * windows
      && tailHigh + 1 - tailLow < Pow2(halvings)
      && |trace| + halvings + 1 + 17 * windows <= WorstCase(cfg)
    }

    ghost predicate Valid()
      reads this
    {
      match phase
      case Probe => InProbe()
      case Backward => InBackward()
      case Forward => InForward()
      case Tail => InTail()
    }

    constructor (c: ScanConfig)
      ensures Valid() && cfg == c && trace == [] && pending == None
    {
      cfg := c;
      start, end := c.startAddress, c.endAddress;
      phase := Probe;
      probeStart := c.startAddress;
      hadProbeFailure, done := false, false;
      originalBlockStart, blockStart, blockEnd := 0, 0, 0;
      backwardLow, backwardHigh, backwardBest := 0, 0, 0;
      tailLow, tailHigh, tailBest := 0, 0, 0;
      hasGapProbe, gapProbeAddr, lastTaskWasGapProbe := false, 0, false;
      trace, pending, blocks := [], None, [];
      halvings, windows := 0, Chunks(c.RangeLen());
    }

    predicate Finished()
      reads this
    {
      done
    }

    ghost function Rank(): nat
      reads this
    {
      match phase case Backward => 3 case Forward => 2 case Tail => 1 case Probe => 0
    }

    method NextProbe() returns (task: Option<ScanTask>)
      requires phase == Probe && InProbe() && pending == None
      modifies this
      ensures phase == Probe && InProbe() && pending == task && trace == old(trace)
      ensures task.Some? ==> task.value.Inside(cfg.startAddress, cfg.endAddress)
      ensures task.Some? && lastTaskWasGapProbe ==> Settled(trace, task.value.start)
      ensures task == None ==> done
    {
      if hasGapProbe {
        hasGapProbe := false;
        lastTaskWasGapProbe := true;
        task := Some(ScanTask(gapProbeAddr, 1));
        pending := task;
        return;
      }
      if probeStart > end {
        done := true;
        return None;
      }
      var count := if end - probeStart + 1 < MAX_BLOCK_SIZE then end - probeStart + 1 else MAX_BLOCK_SIZE;
      task := Some(ScanTask(probeStart, count));
      pending := task;
    }

    /** The true start is found: the block continues forward from there. */
    method EndBackward()
      requires phase == Backward && InBackward() && pending == None && backwardLow > backwardHigh
      modifies this
      ensures phase == Forward && InForward() && pending == None && trace == old(trace)
      ensures blockStart == originalBlockStart - backwardBest && blockEnd == old(blockEnd)
    {
      BackwardEndFacts(cfg, trace, blocks, originalBlockStart, backwardBest, blockEnd);
      blockStart := originalBlockStart - backwardBest;
      phase := Forward;
    }

    method NextBackward() returns (task: Option<ScanTask>)
      requires phase == Backward && InBackward() && pending == None
      modifies this
      ensures Valid() && pending == task && trace == old(trace)
      ensures task.Some? ==> task.value.Inside(cfg.startAddress, cfg.endAddress)
      ensures task.Some? ==> phase == old(phase)
      ensures task == None ==> Rank() < old(Rank())
    {
      if backwardLow > backwardHigh {
        EndBackward();
        return None;
      }
      var mid := (backwardLow + backwardHigh) / 2;
      var chunkStart: U32 := originalBlockStart - mid;
      // chunkStart >= start always holds here: the guard of the source never fires.
      task := Some(ScanTask(chunkStart, mid));
      pending := task;
    }

    /** The block reaches the end of the range: it is finished, and probing goes on behind it. */
    method EndForward()
      requires phase == Forward && InForward() && pending == None && blockEnd > end
      modifies this
      ensures phase == Probe && InProbe() && pending == None && trace == old(trace)
      ensures probeStart == blockEnd && blocks == old(blocks) + [Block(blockStart, blockEnd)]
    {
      blocks := BlockFiled(cfg, trace, blocks, blockStart, blockEnd, blockEnd);
      probeStart := blockEnd;
      phase := Probe;
      hadProbeFailure := false;
    }

    method NextForward() returns (task: Option<ScanTask>)
      requires phase == Forward && InForward() && pending == None
      modifies this
      ensures Valid() && pending == task && trace == old(trace)
      ensures task.Some? ==> task.value.Inside(cfg.startAddress, cfg.endAddress)
      ensures task.Some? ==> phase == old(phase)
      ensures task == None ==> Rank() < old(Rank())
    {
      if blockEnd > end {
        EndForward();
        return None;
      }
      var count := if end - blockEnd + 1 < MAX_BLOCK_SIZE then end - blockEnd + 1 else MAX_BLOCK_SIZE;
      task := Some(ScanTask(blockEnd, count));
      pending := task;
    }

    /** Files the block, once its tail is measured. */
    ghost method FileBlock(next: int)
      requires InTail() && tailLow > tailHigh && next == blockEnd + if tailBest > 0 then tailBest else 125
      modifies `blocks
      ensures blocks == old(blocks) + [Block(blockStart, blockEnd + tailBest)]
      ensures ProbeFacts(cfg, trace, blocks, next, false) && Settled(trace, blockEnd) && !NoHit(trace)
      ensures !LastLeadsTo(trace, blockEnd) && !LastLeadsTo(trace, blockEnd + 1)
    {
      TailLeadsNowhere(cfg, trace, blocks, blockStart, blockEnd, tailBest, FullCount(blockEnd));
      blocks := TailFiled(cfg, trace, blocks, blockStart, blockEnd, tailBest, FullCount(blockEnd), next);
    }

    /** Goes on probing at next, with a gap probe at blockEnd when next lies beyond it. */
    method BeginProbe(next: U32)
      requires blockEnd < next
      modifies `probeStart, `gapProbeAddr, `hasGapProbe, `phase, `hadProbeFailure
      ensures phase == Probe && probeStart == next && !hadProbeFailure
      ensures hasGapProbe == (next > blockEnd + 1 || old(hasGapProbe))
      ensures next > blockEnd + 1 ==> gapProbeAddr == blockEnd
    {
      probeStart := next;
      if probeStart > blockEnd + 1 {
        gapProbeAddr := blockEnd;
        hasGapProbe := true;
      }
      phase := Probe;
      hadProbeFailure := false;
    }

    /** The tail is measured: the block is finished and probing goes on behind it. */
    method EndTail()
      requires phase == Tail && InTail() && pending == None && tailLow > tailHigh
      modifies this
      ensures phase == Probe && InProbe() && pending == None && trace == old(trace)
      ensures probeStart == blockEnd + if tailBest > 0 then tailBest else 125
      ensures hasGapProbe <==> probeStart > blockEnd + 1
      ensures hasGapProbe ==> gapProbeAddr == blockEnd
      ensures blocks == old(blocks) + [Block(blockStart, blockEnd + tailBest)]
    {
      var next: U32 := if tailBest > 0 then blockEnd + tailBest else blockEnd + 125;
      FileBlock(next);
      BeginProbe(next);
    }

    method NextTail() returns (task: Option<ScanTask>)
      requires phase == Tail && InTail() && pending == None
      modifies this
      ensures Valid() && pending == task && trace == old(trace)
      ensures task.Some? ==> task.value.Inside(cfg.startAddress, cfg.endAddress)
      ensures task.Some? ==> phase == old(phase)
      ensures task == None ==> Rank() < old(Rank())
    {
      if tailLow > tailHigh {
        EndTail();
        return None;
      }
      var mid := (tailLow + tailHigh) / 2;
      // 1 <= mid <= end - blockEnd + 1 always holds here: the guards of the source never fire.
      task := Some(ScanTask(blockEnd, mid));
      pending := task;
    }

    method Next() returns (task: Option<ScanTask>)
      requires Valid() && pending == None
      modifies this
      ensures Valid() && pending == task && trace == old(trace)
      ensures task.Some? ==> task.value.Inside(cfg.startAddress, cfg.endAddress)
      ensures task.Some? && lastTaskWasGapProbe ==> Settled(trace, task.value.start)
      ensures task == None ==> Report(cfg, trace)
      decreases Rank()
    {
      if done {
        FinishedReports();
        return None;
      }
      if phase == Probe {
        task := NextProbe();
        if task == None {
          FinishedReports();
        }
        return;
      }
      task := NextInBlock();
      if task == None {
        task := Next();
      } else {
        NoGapProbeInBlock();
      }
    }

    /** The next read of the block at hand, if its phase asks for one. */
    method NextInBlock() returns (task: Option<ScanTask>)
      requires Valid() && pending == None && phase != Probe
      modifies this
      ensures Valid() && pending == task && trace == old(trace)
      ensures task.Some? ==> task.value.Inside(cfg.startAddress, cfg.endAddress) && phase == old(phase)
      ensures task == None ==> Rank() < old(Rank())
    {
      match phase {
        case Backward => task := NextBackward();
        case Forward => task := NextForward();
        case Tail => task := NextTail();
      }
    }

    lemma NoGapProbeInBlock()
      requires Valid() && phase != Probe && pending.Some?
      ensures !lastTaskWasGapProbe
    {
    }

    lemma FinishedReports()
      requires Valid() && pending == None && Finished()
      ensures Report(cfg, trace)
    {
      assert ReportFor(cfg, trace, blocks);
    }

    /** Never more reads than the bound, the pending one included. */
    lemma WithinWorstCase()
      requires Valid()
      ensures |trace| + (if pending.Some? then 1 else 0) <= WorstCase(cfg)
    {
      if pending.Some? && (phase == Backward || phase == Tail) {
        assert halvings > 0;
      }
    }

    /** Notes the answer to the pending read. */
    ghost method Note(r: Read, halvingsLeft: nat, windowsLeft: nat)
      modifies `trace, `pending, `halvings, `windows
      ensures trace == old(trace) + [r] && pending == None && halvings == halvingsLeft && windows == windowsLeft
    {
      trace, pending, halvings, windows := trace + [r], None, halvingsLeft, windowsLeft;
    }

    method GapProbeResult(task: ScanTask, result: ScanResult)
      requires phase == Probe && InProbe() && pending == Some(task) && lastTaskWasGapProbe
      modifies this
      ensures phase == Probe && InProbe() && pending == None && trace == old(trace) + [Read(task, result)]
    {
      GapProbed(cfg, trace, blocks, probeStart, Read(task, result));
      NoHitGrows(trace, Read(task, result));
      lastTaskWasGapProbe := false;
      Note(Read(task, result), halvings, windows);
    }

    method ProbeHitFirst(task: ScanTask, result: ScanResult)
      requires phase == Probe && InProbe() && pending == Some(task) && !lastTaskWasGapProbe && result.success && !hadProbeFailure
      modifies this
      ensures phase == Forward && InForward() && pending == None && trace == old(trace) + [Read(task, result)]
      ensures blockStart == task.start && blockEnd == task.start + task.count
    {
      ProbeHitAtOnce(cfg, trace, blocks, probeStart, Read(task, result));
      Note(Read(task, result), halvings, windows - 1);
      phase := Forward;
      blockStart := probeStart;
      blockEnd := probeStart + task.count;
    }

    /** Starts the search for the true start of the block just probed. */
    method BeginBackward(newEnd: U32)
      requires start + 125 <= probeStart
      modifies `phase, `originalBlockStart, `blockEnd, `backwardLow, `backwardHigh, `backwardBest, `halvings
      ensures phase == Backward && originalBlockStart == probeStart && blockEnd == newEnd
      ensures backwardLow == 1 && backwardHigh == 125 && backwardBest == 0
      ensures halvings == 7 && Pow2(halvings) == 128
    {
      WidthOfWindow();
      phase := Backward;
      originalBlockStart := probeStart;
      blockEnd := newEnd;
      var maxBack := if originalBlockStart - start < 125 then originalBlockStart - start else 125;
      backwardLow := 1;
      backwardHigh := maxBack;
      backwardBest := 0;
      halvings := 7;
    }

    method ProbeHitAfterMiss(task: ScanTask, result: ScanResult)
      requires phase == Probe && InProbe() && pending == Some(task) && !lastTaskWasGapProbe && result.success && hadProbeFailure
      modifies this
      ensures phase == Backward && InBackward() && pending == None && trace == old(trace) + [Read(task, result)]
      ensures originalBlockStart == task.start && blockEnd == task.start + task.count
    {
      ProbeHitAfterFailure(cfg, trace, blocks, probeStart, Read(task, result));
      Note(Read(task, result), halvings, windows - 1);
      BeginBackward(probeStart + task.count);
    }

    method ProbeMiss(task: ScanTask, result: ScanResult)
      requires phase == Probe && InProbe() && pending == Some(task) && !lastTaskWasGapProbe && !result.success
      modifies this
      ensures phase == Probe && InProbe() && pending == None && trace == old(trace) + [Read(task, result)]
      ensures probeStart == old(probeStart) + 125 && hadProbeFailure
    {
      ProbeMissed(cfg, trace, blocks, probeStart, hadProbeFailure, Read(task, result));
      NoHitGrows(trace, Read(task, result));
      Note(Read(task, result), halvings, windows - 1);
      hadProbeFailure := true;
      probeStart := probeStart + 125;
    }

    method BackwardHit(task: ScanTask, result: ScanResult)
      requires phase == Backward && InBackward() && pending == Some(task) && result.success
      modifies this
      ensures phase == Backward && InBackward() && pending == None && trace == old(trace) + [Read(task, result)]
    {
      var mid: U32 := task.count;
      Halved(backwardLow, backwardHigh, halvings);
      BackwardHitFacts(cfg, trace, blocks, originalBlockStart, backwardBest, backwardHigh, blockEnd, Read(task, result));
      Note(Read(task, result), halvings - 1, windows);
      backwardBest := mid;
      backwardLow := mid + 1;
    }

    method BackwardMiss(task: ScanTask, result: ScanResult)
      requires phase == Backward && InBackward() && pending == Some(task) && !result.success
      modifies this
      ensures phase == Backward && InBackward() && pending == None && trace == old(trace) + [Read(task, result)]
    {
      var mid: U32 := task.count;
      Halved(backwardLow, backwardHigh, halvings);
      BackwardMissFacts(cfg, trace, blocks, originalBlockStart, backwardBest, backwardHigh, blockEnd, Read(task, result));
      Note(Read(task, result), halvings - 1, windows);
      backwardHigh := if mid > 1 then mid - 1 else 0;
    }

    method ForwardHit(task: ScanTask, result: ScanResult)
      requires phase == Forward && InForward() && pending == Some(task) && result.success
      modifies this
      ensures phase == Forward && InForward() && pending == None && trace == old(trace) + [Read(task, result)]
      ensures blockEnd == old(blockEnd) + task.count
    {
      ForwardHitFacts(cfg, trace, blocks, blockStart, blockEnd, Read(task, result));
      Note(Read(task, result), halvings, windows - 1);
      blockEnd := blockEnd + task.count;
    }

    method ForwardMiss(task: ScanTask, result: ScanResult)
      requires phase == Forward && InForward() && pending == Some(task) && !result.success
      modifies this
      ensures phase == Tail && InTail() && pending == None && trace == old(trace) + [Read(task, result)]
    {
      ForwardMissFacts(cfg, trace, blocks, blockStart, blockEnd, Read(task, result));
      WidthOfWindow();
      Note(Read(task, result), 7, windows);
      BeginTail();
    }

    /** Starts the search for the end of the tail. */
    method BeginTail()
      requires blockEnd <= end
      modifies `phase, `tailLow, `tailHigh, `tailBest
      ensures phase == Tail && tailLow == 1 && tailHigh == FullCount(blockEnd) && tailBest == 0
    {
      phase := Tail;
      tailLow := 1;
      tailHigh := if end - blockEnd + 1 < 125 then end - blockEnd + 1 else 125;
      tailBest := 0;
    }

    method TailHit(task: ScanTask, result: ScanResult)
      requires phase == Tail && InTail() && pending == Some(task) && result.success
      modifies this
      ensures phase == Tail && InTail() && pending == None && trace == old(trace) + [Read(task, result)]
    {
      var mid: U32 := task.count;
      Halved(tailLow, tailHigh, halvings);
      TailHitFacts(cfg, trace, blocks, blockStart, blockEnd, tailBest, tailHigh, FullCount(blockEnd), Read(task, result));
      Note(Read(task, result), halvings - 1, windows);
      tailBest := mid;
      tailLow := mid + 1;
    }

    method TailMiss(task: ScanTask, result: ScanResult)
      requires phase == Tail && InTail() && pending == Some(task) && !result.success
      modifies this
      ensures phase == Tail && InTail() && pending == None && trace == old(trace) + [Read(task, result)]
    {
      var mid: U32 := task.count;
      Halved(tailLow, tailHigh, halvings);
      TailMissFacts(cfg, trace, blocks, blockStart, blockEnd, tailBest, tailHigh, FullCount(blockEnd), Read(task, result));
      Note(Read(task, result), halvings - 1, windows);
      tailHigh := if mid > 1 then mid - 1 else 0;
    }

    method OnResult(task: ScanTask, result: ScanResult)
      requires Valid() && pending == Some(task)
      modifies this
      ensures Valid() && pending == None && trace == old(trace) + [Read(task, result)]
    {
      match phase {
        case Probe =>
          if lastTaskWasGapProbe {
            GapProbeResult(task, result);
          } else if result.success {
            if hadProbeFailure { ProbeHitAfterMiss(task, result); } else { ProbeHitFirst(task, result); }
          } else {
            ProbeMiss(task, result);
          }
        case Backward =>
          if result.success { BackwardHit(task, result); } else { BackwardMiss(task, result); }
        case Forward =>
          if result.success { ForwardHit(task, result); } else { ForwardMiss(task, result); }
        case Tail =>
          if result.success { TailHit(task, result); } else { TailMiss(task, result); }
      }
    }
  }

  // ----- what a finished run guarantees -----

  /** No register in front of the block is readable. */
  ghost predicate LeftExact(cfg: ScanConfig, R: set<int>, b: Block) {
    b.lo == cfg.startAddress || b.lo - 1 !in R
  }

  /** The right edge is exact; after a failed probe so is the left edge. */
  ghost predicate EdgesExact(cfg: ScanConfig, h: seq<Read>, R: set<int>, b: Block) {
    && cfg.startAddress <= b.lo < b.hi <= cfg.endAddress + 1
    && (forall a :: b.Holds(a) ==> a in R)
    && (b.hi == cfg.endAddress + 1 || b.hi !in R)
    && (AfterFailure(h, b) ==> LeftExact(cfg, R, b))
  }

  lemma NeverContradicted(h: seq<Read>, R: set<int>, lo: int, hi: int)
    requires IntervalReadable(h, R) && CapturedAll(h, lo, hi)
    ensures !Contradicted(h, lo, hi)
  {
    forall r | r in h && lo <= r.task.start && r.task.start + r.task.count <= hi ensures r.result.success {
      forall a | r.task.Holds(a) ensures a in R {
        CapturedIsReadable(h, R, a);
      }
    }
  }

  lemma BlockIsExact(cfg: ScanConfig, h: seq<Read>, R: set<int>, b: Block)
    requires IntervalReadable(h, R) && BlockProved(cfg, h, b)
    ensures EdgesExact(cfg, h, R, b)
  {
    NeverContradicted(h, R, b.lo, b.hi);
    forall a | b.Holds(a) ensures a in R {
      CapturedIsReadable(h, R, a);
    }
    if b.hi != cfg.endAddress + 1 {
      RightEdgeIsExact(h, R, cfg.endAddress, b.lo, b.hi);
    }
    if AfterFailure(h, b) && b.lo != cfg.startAddress {
      LeftEdgeIsExact(h, R, cfg.startAddress, b.lo, b.hi);
    }
  }

  lemma ReadableIsNotRefused(h: seq<Read>, R: set<int>, a: int)
    requires IntervalReadable(h, R) && a in R
    ensures !RefusedAlone(h, a)
  {
    forall r | r in h && r.task.start == a && r.task.count == 1 ensures r.result.success {
      assert forall c :: r.task.Holds(c) ==> c == a;
    }
  }

  /** A block whose left edge is not exact begins 125 registers behind the block before. */
  lemma LeftUnlessJumped(cfg: ScanConfig, h: seq<Read>, R: set<int>, blocks: seq<Block>, j: nat)
    requires ReportFor(cfg, h, blocks) && IntervalReadable(h, R) && j < |blocks|
    ensures LeftExact(cfg, R, blocks[j]) || (j > 0 && blocks[j].lo == blocks[j - 1].hi + 125)
  {
    var b := blocks[j];
    assert b in blocks && BeginsAt(cfg, h, blocks, j);
    BlockIsExact(cfg, h, R, b);
    if j > 0 {
      var before := blocks[j - 1];
      assert before in blocks;
      BlockIsExact(cfg, h, R, before);
      assert b.Holds(b.lo);
    }
  }

  /** On an interval-readable device the capture is a union of disjoint blocks in address
      order, each with an exact right edge. The left edge is exact as well if the block was
      found after a failed probe, and otherwise unless the block begins just 125 registers
      behind the one before. */
  lemma ReportIsExact(cfg: ScanConfig, h: seq<Read>, R: set<int>) returns (blocks: seq<Block>)
    requires Report(cfg, h) && IntervalReadable(h, R)
    ensures InOrder(blocks, cfg.endAddress + 1)
    ensures forall b :: b in blocks ==> EdgesExact(cfg, h, R, b)
    ensures forall j :: 0 <= j < |blocks| ==> LeftExact(cfg, R, blocks[j]) || (j > 0 && blocks[j].lo == blocks[j - 1].hi + 125)
    ensures forall a :: Captured(h, a) <==> exists b :: b in blocks && b.Holds(a)
  {
    blocks :| ReportFor(cfg, h, blocks);
    forall j | 0 <= j < |blocks| ensures LeftExact(cfg, R, blocks[j]) || (j > 0 && blocks[j].lo == blocks[j - 1].hi + 125) {
      LeftUnlessJumped(cfg, h, R, blocks, j);
    }
    forall b | b in blocks ensures EdgesExact(cfg, h, R, b) {
      BlockIsExact(cfg, h, R, b);
    }
    forall a ensures Captured(h, a) <==> exists b :: b in blocks && b.Holds(a) {
      if Captured(h, a) {
        CapturedIsReadable(h, R, a);
        ReadableIsNotRefused(h, R, a);
      }
      forall b | b in blocks && b.Holds(a) ensures Captured(h, a) {
        assert BlockProved(cfg, h, b);
      }
    }
  }

  /** On an interval-readable device a gap probe captures nothing that was not captured
      before: its question is always answered already. */
  lemma GapProbesAddNothing(h: seq<Read>, r: Read, R: set<int>, a: int)
    requires Settled(h, r.task.start) && r.task.count == 1 && IntervalReadable(h + [r], R)
    ensures Captured(h + [r], a) <==> Captured(h, a)
  {
    CapturedGrows(h, r, a);
    assert r in h + [r] && forall q :: q in h ==> q in h + [r];
    if r.result.success && r.task.Holds(a) {
      ReadableIsNotRefused(h, R, a);
    }
  }
}
