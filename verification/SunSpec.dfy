/** The sunspec strategy (internal/modbus/scan_algo_sunspec.go): find the marker at one
    of the base addresses, then walk the model chain header by header, reading every
    body in chunks of at most 125 registers. */
module SunSpec {
  import opened ScanTypes
  import opened Pdu

  const MARKER_REG0: U16 := 0x5375
  const MARKER_REG1: U16 := 0x6E53
  const END_MODEL_ID: U16 := 0xFFFF
  const DEFAULT_MAX_MODELS := 256
  const DEFAULT_BASES: seq<U16> := [0, 40000, 50000, 1, 39999, 40001, 49999, 50001]

  datatype Phase = DetectBase | WalkModels | Done

  datatype Model = Model(addr: U16, id: U16, length: U16)

  function Be16(data: seq<Byte>, i: nat): U16
    requires i + 2 <= |data|
  {
    Word(data[i], data[i + 1])
  }

  function Bases(cfg: ScanConfig): seq<U16> {
    if cfg.sunSpecBases == [] then DEFAULT_BASES else cfg.sunSpecBases
  }

  function MaxModels(cfg: ScanConfig): nat {
    if cfg.sunSpecMaxModels <= 0 then DEFAULT_MAX_MODELS else cfg.sunSpecMaxModels
  }

  /** The first header address: base + 2 in 16 bits. */
  function FirstHeader(base: U16): U16 {
    (base + 2) % 0x1_0000
  }

  /** Base probes, headers, and at most one body chunk per 125 registers and model. */
  function WorstCase(cfg: ScanConfig): nat {
    |Bases(cfg)| + MaxModels(cfg) + 1 + (0xFFFF + 124 * MaxModels(cfg)) / 125
  }

  // ----- the shape of a walk -----

  predicate IsMarker(r: ScanResult) {
    r.success && |r.data| >= 4 && Be16(r.data, 0) == MARKER_REG0 && Be16(r.data, 2) == MARKER_REG1
  }

  /** The header read at addr makes the walk go on: it names a model with a body that
      ends inside the address space. */
  predicate Continues(r: ScanResult, addr: U16) {
    && r.success && |r.data| >= 4
    && Be16(r.data, 2) != 0
    && addr + 2 + Be16(r.data, 2) <= 0xFFFF
  }

  /** The model that the header at addr names, if the walk goes on from it. */
  function ParseHeader(r: ScanResult, addr: U16): (model: Option<Model>)
    ensures model.Some? <==> Continues(r, addr)
    ensures model.Some? ==> model.value == Model(addr, Be16(r.data, 0), Be16(r.data, 2))
  {
    if !r.success || |r.data| < 4 then None
    else
      var id, length := Be16(r.data, 0), Be16(r.data, 2);
      if id == END_MODEL_ID && length == 0 then None
      else if length == 0 then None
      else if addr + 2 + length > 65535 then None
      else Some(Model(addr, id, length))
  }

  /** The body [addr, addr + length) in chunks of 125 registers, the last one shorter. */
  function BodyTasks(addr: nat, length: nat): seq<ScanTask>
    decreases length
  {
    if length == 0 || addr + length > 0xFFFF then []
    else
      var count := if length < 125 then length else 125;
      [ScanTask(addr, count)] + BodyTasks(addr + count, length - count)
  }

  /** Headers and bodies of the models, in order. */
  function WalkTasks(models: seq<Model>): seq<ScanTask> {
    if models == [] then []
    else
      var m := models[|models| - 1];
      WalkTasks(models[..|models| - 1]) + [ScanTask(m.addr, 2)] + BodyTasks(m.addr + 2, m.length)
  }

  /** Each model begins where the one before ends; every body has a register at least. */
  ghost predicate Chain(models: seq<Model>, from: int, until: int) {
    if models == [] then from == until
    else
      var m := models[|models| - 1];
      m.length >= 1 && m.addr + 2 + m.length == until <= 0xFFFF && Chain(models[..|models| - 1], from, m.addr)
  }

  /** The reads h all succeeded and cover [from, until) without gap or overlap. */
  ghost predicate Tiles(h: seq<Read>, from: int, until: int) {
    if h == [] then from == until
    else
      var r := h[|h| - 1];
      r.result.success && r.task.start + r.task.count == until && Tiles(h[..|h| - 1], from, r.task.start)
  }

  function TasksOf(h: seq<Read>): seq<ScanTask> {
    if h == [] then [] else TasksOf(h[..|h| - 1]) + [h[|h| - 1].task]
  }

  /** The device reported model m in a header read of h. */
  ghost predicate Reported(h: seq<Read>, m: Model) {
    exists r :: r in h && r.task == ScanTask(m.addr, 2) && Continues(r.result, m.addr)
                && Be16(r.result.data, 0) == m.id && Be16(r.result.data, 2) == m.length
  }

  /** h probes the first bases in order; none before the last has the marker. */
  ghost predicate Probed(cfg: ScanConfig, h: seq<Read>) {
    h == [] ||
    (var front := h[..|h| - 1];
     && Probed(cfg, front) && (front != [] ==> !IsMarker(front[|front| - 1].result))
     && |h| <= |Bases(cfg)| && h[|h| - 1].task == ScanTask(Bases(cfg)[|h| - 1], 2))
  }

  lemma ProbedOne(cfg: ScanConfig, h: seq<Read>, r: Read)
    requires Detection(cfg, h, None) && cfg.sunSpecBase == 0 && |h| < |Bases(cfg)| && r.task == ScanTask(Bases(cfg)[|h|], 2)
    ensures Detection(cfg, h + [r], if IsMarker(r.result) then Some(r.task.start) else None)
  {
    ProbedSnoc(cfg, h, r);
    var h' := h + [r];
    assert h'[|h'| - 1] == r;
  }

  lemma ProbedSnoc(cfg: ScanConfig, h: seq<Read>, r: Read)
    requires Probed(cfg, h) && (h != [] ==> !IsMarker(h[|h| - 1].result))
    requires |h| < |Bases(cfg)| && r.task == ScanTask(Bases(cfg)[|h|], 2)
    ensures Probed(cfg, h + [r])
  {
    var h' := h + [r];
    assert h'[..|h|] == h && h'[|h|] == r;
  }

  /** Base detection: the bases probed in order, and the base with the marker, if any. */
  ghost predicate Detection(cfg: ScanConfig, h: seq<Read>, base: Option<U16>) {
    if cfg.sunSpecBase > 0 then
      h == [] && base == Some(cfg.sunSpecBase)
    else
      && Probed(cfg, h)
      && match base
         case Some(b) => h != [] && IsMarker(h[|h| - 1].result) && b == h[|h| - 1].task.start
         case None => h != [] ==> !IsMarker(h[|h| - 1].result)
  }

  /** The walk so far: its successful reads tile [first header, cursor); they are the
      headers and bodies of the models, but for the last rest registers of the last body. */
  ghost predicate Walked(walk: seq<Read>, models: seq<Model>, first: int, cursor: int, rest: nat) {
    && Tiles(walk, first, cursor)
    && Chain(models, first, cursor + rest)
    && 0 <= cursor && cursor + rest <= 0xFFFF
    && TasksOf(walk) + BodyTasks(cursor, rest) == WalkTasks(models)
    && AllReported(walk, models)
  }

  ghost predicate AllReported(walk: seq<Read>, models: seq<Model>) {
    models == [] || (Reported(walk, models[|models| - 1]) && AllReported(walk, models[..|models| - 1]))
  }

  lemma {:induction false} AllReportedGrows(walk: seq<Read>, r: Read, models: seq<Model>)
    requires AllReported(walk, models)
    ensures AllReported(walk + [r], models)
  {
    if models != [] {
      ReportedGrows(walk, r, models[|models| - 1]);
      AllReportedGrows(walk, r, models[..|models| - 1]);
    }
  }

  /** A header at addr is not too far from the base, counted in 16 bits. */
  predicate InSpan(cfg: ScanConfig, base: U16, addr: int) {
    cfg.sunSpecMaxSpan > 0 ==> (addr - base) % 0x1_0000 <= cfg.sunSpecMaxSpan
  }

  ghost predicate HeadersInSpan(cfg: ScanConfig, base: U16, models: seq<Model>) {
    forall m :: m in models ==> InSpan(cfg, base, m.addr)
  }

  /** What ended the walk at cursor: a limit, an unusable header, or a failed body chunk. */
  ghost predicate Ended(cfg: ScanConfig, base: U16, models: seq<Model>, cursor: U16, rest: nat, last: seq<Read>) {
    if last == [] then
      rest == 0 && (|models| >= MaxModels(cfg) || !InSpan(cfg, base, cursor))
    else
      && |last| == 1
      && if rest == 0 then
           && last[0].task == ScanTask(cursor, 2) && !Continues(last[0].result, cursor)
           && |models| < MaxModels(cfg) && InSpan(cfg, base, cursor)
         else last[0].task == ScanTask(cursor, if rest < 125 then rest else 125) && !last[0].result.success
  }

  ghost predicate WalkReport(cfg: ScanConfig, base: U16, walk: seq<Read>, last: seq<Read>, models: seq<Model>) {
    && |models| <= MaxModels(cfg) && HeadersInSpan(cfg, base, models)
    && exists cursor: U16, rest: nat ::
         Walked(walk, models, FirstHeader(base), cursor, rest) && Ended(cfg, base, models, cursor, rest, last)
  }

  /** A finished run: detection, then, if a base was found, its walk. */
  ghost predicate Report(cfg: ScanConfig, h: seq<Read>) {
    exists detect, base, walk, last, models ::
      RunOf(cfg, h, detect, base, walk, last, models)
  }

  ghost predicate RunOf(cfg: ScanConfig, h: seq<Read>, detect: seq<Read>, base: Option<U16>, walk: seq<Read>, last: seq<Read>, models: seq<Model>) {
    && h == detect + walk + last && Detection(cfg, detect, base)
    && match base
       case None => walk == last == [] && |detect| == |Bases(cfg)|
       case Some(b) => WalkReport(cfg, b, walk, last, models)
  }

  // ----- steps of a walk -----

  lemma {:induction false} ChainEnds(models: seq<Model>, from: int, until: int)
    requires Chain(models, from, until)
    ensures from <= until && forall m :: m in models ==> from <= m.addr && m.addr + 2 + m.length <= until
  {
    if models != [] {
      ChainEnds(models[..|models| - 1], from, models[|models| - 1].addr);
    }
  }

  /** A body is read in as many chunks as it needs. */
  lemma {:induction false} BodyTasksAre(addr: nat, length: nat)
    requires addr + length <= 0xFFFF
    ensures |BodyTasks(addr, length)| == Chunks(length)
    ensures forall i :: 0 <= i < |BodyTasks(addr, length)| ==>
              && BodyTasks(addr, length)[i].start == addr + 125 * i
              && BodyTasks(addr, length)[i].count == if i < Chunks(length) - 1 then 125 else length - 125 * (Chunks(length) - 1)
    decreases length
  {
    if length > 125 {
      BodyTasksAre(addr + 125, length - 125);
      assert BodyTasks(addr, length) == [ScanTask(addr, 125)] + BodyTasks(addr + 125, length - 125);
    } else if length > 0 {
      assert BodyTasks(addr, length) == [ScanTask(addr, length)];
    }
  }

  lemma TasksOfOne(h: seq<Read>, r: Read)
    ensures TasksOf(h + [r]) == TasksOf(h) + [r.task]
  {
    assert (h + [r])[..|h + [r]| - 1] == h;
  }

  lemma ReportedGrows(h: seq<Read>, r: Read, m: Model)
    requires Reported(h, m)
    ensures Reported(h + [r], m)
  {
    var q :| q in h && q.task == ScanTask(m.addr, 2) && Continues(q.result, m.addr)
             && Be16(q.result.data, 0) == m.id && Be16(q.result.data, 2) == m.length;
    assert q in h + [r];
  }

  lemma TilesOne(walk: seq<Read>, from: int, until: int, r: Read)
    requires Tiles(walk, from, until) && r.result.success && r.task.start == until
    ensures Tiles(walk + [r], from, until + r.task.count)
  {
    assert (walk + [r])[..|walk|] == walk;
  }

  lemma ChainOne(models: seq<Model>, from: int, m: Model)
    requires Chain(models, from, m.addr) && m.length >= 1 && m.addr + 2 + m.length <= 0xFFFF
    ensures Chain(models + [m], from, m.addr + 2 + m.length)
    ensures WalkTasks(models + [m]) == WalkTasks(models) + [ScanTask(m.addr, 2)] + BodyTasks(m.addr + 2, m.length)
  {
    assert (models + [m])[..|models|] == models;
  }

  lemma ReportedOne(walk: seq<Read>, models: seq<Model>, r: Read, m: Model)
    requires AllReported(walk, models)
    requires r.task == ScanTask(m.addr, 2) && Continues(r.result, m.addr)
    requires Be16(r.result.data, 0) == m.id && Be16(r.result.data, 2) == m.length
    ensures AllReported(walk + [r], models + [m])
  {
    assert (models + [m])[..|models|] == models;
    assert r in walk + [r];
    AllReportedGrows(walk, r, models);
  }

  lemma HeaderTasks(walk: seq<Read>, cursor: int, r: Read, body: seq<ScanTask>)
    requires cursor >= 0
    ensures BodyTasks(cursor, 0) == [] && TasksOf(walk) + [] == TasksOf(walk)
    ensures TasksOf(walk + [r]) + body == TasksOf(walk) + [r.task] + body
  {
    TasksOfOne(walk, r);
  }

  /** A header that names a model adds it to the walk, its whole body still to read. */
  lemma WalkHeader(walk: seq<Read>, models: seq<Model>, first: int, cursor: U16, r: Read)
    requires Walked(walk, models, first, cursor, 0)
    requires r.task == ScanTask(cursor, 2) && Continues(r.result, cursor)
    ensures var m := Model(cursor, Be16(r.result.data, 0), Be16(r.result.data, 2));
            Walked(walk + [r], models + [m], first, cursor + 2, m.length)
  {
    var m := Model(cursor, Be16(r.result.data, 0), Be16(r.result.data, 2));
    var body := BodyTasks(cursor + 2, m.length);
    TilesOne(walk, first, cursor, r);
    HeaderTasks(walk, cursor, r, body);
    assert TasksOf(walk) == WalkTasks(models);
    ChainOne(models, first, m);
    assert TasksOf(walk + [r]) + body == WalkTasks(models + [m]);
    ReportedOne(walk, models, r, m);
  }

  /** A body chunk that was read. */
  lemma WalkBody(walk: seq<Read>, models: seq<Model>, first: int, cursor: U16, rest: nat, r: Read)
    requires Walked(walk, models, first, cursor, rest) && rest > 0
    requires r.task == ScanTask(cursor, if rest < 125 then rest else 125) && r.result.success
    ensures Walked(walk + [r], models, first, cursor + r.task.count, rest - r.task.count)
  {
    var walk' := walk + [r];
    assert walk'[..|walk'| - 1] == walk;
    TasksOfOne(walk, r);
    assert BodyTasks(cursor, rest) == [r.task] + BodyTasks(cursor + r.task.count, rest - r.task.count);
    AllReportedGrows(walk, r, models);
  }

  lemma ChunksNeeded(length: nat) returns (n: nat)
    ensures length <= 125 * n <= length + 124
  {
    n := Chunks(length);
  }

  /** A chunk is read: one less is needed for the rest. */
  lemma ChunkRead(rest: nat, chunks: nat)
    requires 0 < rest <= 125 * chunks
    ensures chunks > 0 && rest - (if rest < 125 then rest else 125) <= 125 * (chunks - 1)
  {
  }

  class SunSpecStrategy {
    const cfg: ScanConfig
    var phase: Phase
    var bases: seq<U16>
    var baseIndex: nat
    var baseAddr: U16
    var currentAddr: U16
    var modelCount: nat
    var maxModels: nat
    var maxSpan: U16
    var readingBody: bool
    var bodyAddr: U16
    var bodyRemaining: U16

    ghost var trace: seq<Read>
    ghost var pending: Option<ScanTask>
    ghost var detect: seq<Read>
    ghost var walk: seq<Read>
    ghost var models: seq<Model>
    /** Body reads this model may still need. */
    ghost var chunks: nat

    ghost predicate Settings()
      reads this
    {
      bases == Bases(cfg) && maxModels == MaxModels(cfg) && maxSpan == cfg.sunSpecMaxSpan
    }

    ghost predicate Detecting()
      reads this
    {
      && Settings() && cfg.sunSpecBase == 0
      && Detection(cfg, detect, None) && trace == detect && walk == [] && models == []
      && baseIndex == |detect| && baseIndex < |bases|
      && modelCount == 0 && !readingBody && bodyRemaining == 0 && chunks == 0
      && (pending.Some? ==> pending.value == ScanTask(bases[baseIndex], 2))
    }

    ghost predicate Walking()
      reads this
    {
      && Settings() && Detection(cfg, detect, Some(baseAddr)) && trace == detect + walk
      && |models| == modelCount <= maxModels && HeadersInSpan(cfg, baseAddr, models)
      && (readingBody <==> bodyRemaining > 0)
      && (if readingBody then bodyAddr + bodyRemaining == currentAddr else bodyRemaining == 0)
      && Walked(walk, models, FirstHeader(baseAddr), currentAddr - bodyRemaining, bodyRemaining)
      && bodyRemaining <= 125 * chunks
      && 125 * (|walk| - modelCount + chunks) <= currentAddr + 124 * modelCount
      && (pending.Some? ==>
            if readingBody then pending.value == ScanTask(bodyAddr, if bodyRemaining < 125 then bodyRemaining else 125)
            else pending.value == ScanTask(currentAddr, 2) && modelCount < maxModels && InSpan(cfg, baseAddr, currentAddr))
    }

    ghost predicate IsDone()
      reads this
    {
      pending == None && Report(cfg, trace) && |trace| <= WorstCase(cfg)
    }

    ghost predicate Valid()
      reads this
    {
      match phase
      case DetectBase => Detecting()
      case WalkModels => Walking()
      case Done => IsDone()
    }

    constructor (c: ScanConfig)
      ensures Valid() && cfg == c && trace == [] && pending == None
    {
      cfg := c;
      bases := Bases(c);
      maxModels := MaxModels(c);
      maxSpan := c.sunSpecMaxSpan;
      baseIndex, modelCount := 0, 0;
      readingBody, bodyAddr, bodyRemaining := false, 0, 0;
      trace, pending, detect, walk, models, chunks := [], None, [], [], [], 0;
      baseAddr := c.sunSpecBase;
      currentAddr := FirstHeader(c.sunSpecBase);
      phase := if c.sunSpecBase > 0 then WalkModels else DetectBase;
    }

    predicate Finished()
      reads this
    {
      phase == Done
    }

    /** A read a device can be asked for, but for a header at the last address. */
    static predicate Askable(t: ScanTask) {
      1 <= t.count <= 125 && (t.start + t.count <= 0x1_0000 || t.count == 2)
    }

    lemma WalkCost()
      requires Walking()
      ensures |trace| + (if pending.Some? then 1 else 0) <= WorstCase(cfg)
      ensures pending == None ==> |trace| + 1 <= WorstCase(cfg)
    {
    }

    /** The walk stops here: at a limit (last is empty) or after the read last. */
    lemma WalkEnds(last: seq<Read>)
      requires Walking()
      requires Ended(cfg, baseAddr, models, currentAddr - bodyRemaining, bodyRemaining, last)
      ensures Report(cfg, trace + last)
    {
      assert trace + last == detect + walk + last;
      assert WalkReport(cfg, baseAddr, walk, last, models);
      assert RunOf(cfg, trace + last, detect, Some(baseAddr), walk, last, models);
    }

    method NextChunk() returns (task: Option<ScanTask>)
      requires phase == WalkModels && Walking() && pending == None && readingBody
      modifies `pending
      ensures pending == task && task.Some? && Walking() && Askable(task.value) && task.value.start == bodyAddr
    {
      var count := if bodyRemaining < 125 then bodyRemaining else 125;
      task := Some(ScanTask(bodyAddr, count));
      pending := task;
    }

    method NextRead() returns (task: Option<ScanTask>)
      requires phase == WalkModels && Walking() && pending == None
      modifies `pending, `phase
      ensures pending == task && trace == old(trace)
      ensures if task.Some? then phase == WalkModels && Walking() && Askable(task.value) else phase == Done && IsDone()
      ensures task.Some? ==> task.value.start == if readingBody then bodyAddr else currentAddr
    {
      if readingBody {
        task := NextChunk();
        return;
      }
      if modelCount >= maxModels || (maxSpan > 0 && (currentAddr - baseAddr) % 0x1_0000 > maxSpan) {
        StopAtLimit();
        return None;
      }
      task := Some(ScanTask(currentAddr, 2));
      pending := task;
    }

    /** No further header is read: there are enough models, or it lies beyond the span. */
    method StopAtLimit()
      requires phase == WalkModels && Walking() && pending == None && !readingBody
      requires modelCount >= maxModels || !InSpan(cfg, baseAddr, currentAddr)
      modifies `phase
      ensures phase == Done && IsDone()
    {
      WalkCost();
      WalkEnds([]);
      assert trace + [] == trace;
      phase := Done;
    }

    method Next() returns (task: Option<ScanTask>)
      requires Valid() && pending == None
      modifies this
      ensures Valid() && pending == task && trace == old(trace)
      ensures task.Some? ==> Askable(task.value)
      ensures task == None ==> Finished()
    {
      match phase {
        case DetectBase =>
          task := Some(ScanTask(bases[baseIndex], 2));
          pending := task;
        case WalkModels =>
          task := NextRead();
        case Done =>
          return None;
      }
    }

    /** Notes the answer to the pending read. */
    ghost method Note(r: Read, walked: seq<Read>, found: seq<Model>, left: nat)
      modifies `trace, `pending, `walk, `models, `chunks
      ensures trace == old(trace) + [r] && pending == None && walk == walked && models == found && chunks == left
    {
      trace, pending, walk, models, chunks := trace + [r], None, walked, found, left;
    }

    method BaseResult(task: ScanTask, result: ScanResult)
      requires phase == DetectBase && Detecting() && pending == Some(task)
      modifies this
      ensures pending == None && trace == old(trace) + [Read(task, result)]
      ensures if IsMarker(result) then phase == WalkModels && Walking() && baseAddr == task.start
              else if baseIndex < |bases| then phase == DetectBase && Detecting()
              else phase == Done && IsDone()
    {
      ProbedOne(cfg, detect, Read(task, result));
      Note(Read(task, result), walk, models, chunks);
      detect := trace;
      if IsMarker(result) {
        baseAddr := task.start;
        currentAddr := FirstHeader(task.start);
        phase := WalkModels;
        return;
      }
      baseIndex := baseIndex + 1;
      if baseIndex >= |bases| {
        phase := Done;
        assert RunOf(cfg, trace, detect, None, [], [], []);
      }
    }

    /** A failed body chunk ends the walk. */
    method BodyMiss(task: ScanTask, result: ScanResult)
      requires phase == WalkModels && Walking() && readingBody && pending == Some(task) && !result.success
      modifies this
      ensures phase == Done && IsDone() && trace == old(trace) + [Read(task, result)]
    {
      WalkCost();
      WalkEnds([Read(task, result)]);
      Note(Read(task, result), walk, models, chunks);
      phase := Done;
    }

    method BodyHit(task: ScanTask, result: ScanResult)
      requires phase == WalkModels && Walking() && readingBody && pending == Some(task) && result.success
      modifies this
      ensures phase == WalkModels && Walking() && pending == None && trace == old(trace) + [Read(task, result)]
      ensures currentAddr == old(currentAddr) && modelCount == old(modelCount)
    {
      WalkBody(walk, models, FirstHeader(baseAddr), bodyAddr, bodyRemaining, Read(task, result));
      ChunkRead(bodyRemaining, chunks);
      Note(Read(task, result), walk + [Read(task, result)], models, chunks - 1);
      assert trace == detect + walk;
      Consume(task.count);
    }

    method Consume(count: U16)
      requires count <= bodyRemaining && bodyAddr + count <= 0xFFFF
      modifies `bodyAddr, `bodyRemaining, `readingBody
      ensures bodyAddr == old(bodyAddr) + count && bodyRemaining == old(bodyRemaining) - count
      ensures readingBody == (old(readingBody) && bodyRemaining > 0)
    {
      bodyAddr := bodyAddr + count;
      bodyRemaining := bodyRemaining - count;
      if bodyRemaining == 0 {
        readingBody := false;
      }
    }

    method HeaderResult(task: ScanTask, result: ScanResult)
      requires phase == WalkModels && Walking() && !readingBody && pending == Some(task)
      modifies this
      ensures pending == None && trace == old(trace) + [Read(task, result)]
      ensures if Continues(result, task.start) then
                && phase == WalkModels && Walking() && modelCount == old(modelCount) + 1
                && currentAddr == task.start + 2 + Be16(result.data, 2)
              else phase == Done && IsDone()
    {
      var header := ParseHeader(result, currentAddr);
      if header == None {
        StopAt(Read(task, result));
        return;
      }
      WalkHeader(walk, models, FirstHeader(baseAddr), currentAddr, Read(task, result));
      TakeHeader(header.value, currentAddr + 2 + header.value.length, Read(task, result));
    }

    /** A usable header: its body comes next. */
    method TakeHeader(model: Model, next: U16, ghost read: Read)
      requires phase == WalkModels && Walking() && !readingBody && pending == Some(read.task)
      requires model.addr == currentAddr && model.length >= 1 && next == currentAddr + 2 + model.length
      requires Walked(walk + [read], models + [model], FirstHeader(baseAddr), currentAddr + 2, model.length)
      modifies this
      ensures phase == WalkModels && Walking() && pending == None && trace == old(trace) + [read]
      ensures modelCount == old(modelCount) + 1 && currentAddr == next
    {
      assert (detect + walk) + [read] == detect + (walk + [read]);
      ghost var left := ChunksNeeded(model.length);
      BeginBody(model.length, next, read, model, left);
    }

    method BeginBody(length: U16, next: U16, ghost read: Read, ghost model: Model, ghost left: nat)
      requires currentAddr + 2 <= 0xFFFF
      modifies `readingBody, `bodyAddr, `bodyRemaining, `currentAddr, `modelCount, `trace, `pending, `walk, `models, `chunks
      ensures readingBody && bodyAddr == old(currentAddr) + 2 && bodyRemaining == length
      ensures currentAddr == next && modelCount == old(modelCount) + 1
      ensures trace == old(trace) + [read] && pending == None && walk == old(walk) + [read]
      ensures models == old(models) + [model] && chunks == left
    {
      readingBody := true;
      bodyAddr := currentAddr + 2;
      bodyRemaining := length;
      currentAddr := next;
      modelCount := modelCount + 1;
      Note(read, walk + [read], models + [model], left);
    }

    method StopAt(ghost read: Read)
      requires phase == WalkModels && Walking() && !readingBody && pending == Some(read.task)
      requires !Continues(read.result, currentAddr)
      modifies this
      ensures phase == Done && IsDone() && trace == old(trace) + [read]
    {
      WalkCost();
      WalkEnds([read]);
      Note(read, walk, models, chunks);
      phase := Done;
    }

    method OnResult(task: ScanTask, result: ScanResult)
      requires Valid() && pending == Some(task)
      modifies this
      ensures Valid() && pending == None && trace == old(trace) + [Read(task, result)]
    {
      match phase {
        case DetectBase => BaseResult(task, result);
        case WalkModels =>
          if !readingBody {
            HeaderResult(task, result);
          } else if result.success {
            BodyHit(task, result);
          } else {
            BodyMiss(task, result);
          }
        case Done =>
      }
    }

    /** Never more reads than the bound, the pending one included. */
    lemma WithinWorstCase()
      requires Valid()
      ensures |trace| + (if pending.Some? then 1 else 0) <= WorstCase(cfg)
    {
      if phase == WalkModels {
        WalkCost();
      }
    }

    lemma FinishedReports()
      requires Valid() && Finished()
      ensures Report(cfg, trace)
    {
    }
  }

  // ----- what a finished run guarantees -----

  lemma {:induction false} TilesAreConsecutive(h: seq<Read>, from: int, until: int)
    requires Tiles(h, from, until)
    ensures forall i :: 0 <= i < |h| ==> h[i].result.success
    ensures h != [] ==> h[0].task.start == from && h[|h| - 1].task.start + h[|h| - 1].task.count == until
    ensures forall i :: 0 < i < |h| ==> h[i].task.start == h[i - 1].task.start + h[i - 1].task.count
  {
    if h != [] {
      var front := h[..|h| - 1];
      TilesAreConsecutive(front, from, h[|h| - 1].task.start);
      assert forall i :: 0 <= i < |front| ==> front[i] == h[i];
    }
  }

  lemma {:induction false} ChainAscends(models: seq<Model>, from: int, until: int, i: nat, j: nat)
    requires Chain(models, from, until) && i < j < |models|
    ensures models[i].addr + 2 + models[i].length <= models[j].addr
  {
    var front := models[..|models| - 1];
    if j < |models| - 1 {
      ChainAscends(front, from, models[|models| - 1].addr, i, j);
    } else {
      ChainEnds(front, from, models[|models| - 1].addr);
      assert front[i] in front;
    }
  }

  lemma {:induction false} ModelsAreReported(walk: seq<Read>, models: seq<Model>, m: Model)
    requires AllReported(walk, models) && m in models
    ensures Reported(walk, m)
  {
    if m != models[|models| - 1] {
      ModelsAreReported(walk, models[..|models| - 1], m);
    }
  }

  /** Where the reads of model i begin among those of the models: its header, and then its
      body in exactly as many chunks as it needs. */
  lemma {:induction false} ReadsOfModel(models: seq<Model>, from: int, until: int, i: nat) returns (k: nat)
    requires Chain(models, from, until) && i < |models|
    ensures k + Chunks(models[i].length) < |WalkTasks(models)| && WalkTasks(models)[k] == ScanTask(models[i].addr, 2)
    ensures WalkTasks(models)[k + 1..k + 1 + Chunks(models[i].length)] == BodyTasks(models[i].addr + 2, models[i].length)
    ensures i == 0 ==> k == 0
    ensures i == |models| - 1 ==> k + 1 + Chunks(models[i].length) == |WalkTasks(models)|
  {
    var front, m := models[..|models| - 1], models[|models| - 1];
    BodyTasksAre(m.addr + 2, m.length);
    LastModelReads(models);
    if i < |models| - 1 {
      k := ReadsOfModel(front, from, m.addr, i);
      InFront(WalkTasks(front), [ScanTask(m.addr, 2)] + BodyTasks(m.addr + 2, m.length), k, Chunks(models[i].length));
    } else {
      k := |WalkTasks(front)|;
      AtEnd(WalkTasks(front), ScanTask(m.addr, 2), BodyTasks(m.addr + 2, m.length));
    }
  }

  lemma LastModelReads(models: seq<Model>)
    requires models != []
    ensures var m := models[|models| - 1];
            WalkTasks(models) == WalkTasks(models[..|models| - 1]) + ([ScanTask(m.addr, 2)] + BodyTasks(m.addr + 2, m.length))
  {
  }

  lemma InFront<T>(s: seq<T>, t: seq<T>, k: nat, n: nat)
    requires k + n < |s|
    ensures (s + t)[k] == s[k] && (s + t)[k + 1..k + 1 + n] == s[k + 1..k + 1 + n]
  {
  }

  lemma AtEnd<T>(s: seq<T>, x: T, t: seq<T>)
    ensures (s + ([x] + t))[|s|] == x && (s + ([x] + t))[|s| + 1..|s| + 1 + |t|] == t
  {
  }

  /** What a walk read: headers and bodies of the models, but for the rest of the last body,
      of which only a failed chunk leaves something. */
  ghost predicate ReadsModels(walk: seq<Read>, last: seq<Read>, models: seq<Model>) {
    exists cursor: U16, rest: nat ::
      && TasksOf(walk) + BodyTasks(cursor, rest) == WalkTasks(models)
      && (rest > 0 ==> |last| == 1 && last[0].task.start == cursor && !last[0].result.success)
  }

  /** For any answers: the reads of a walk, but for the one that ended it, all succeeded
      and tile memory from the first header on. The first header is at base + 2 exactly
      when that address does not wrap. */
  lemma WalkTilesMemory(cfg: ScanConfig, base: U16, walk: seq<Read>, last: seq<Read>, models: seq<Model>)
    requires WalkReport(cfg, base, walk, last, models)
    ensures |models| <= MaxModels(cfg) && |last| <= 1 && HeadersInSpan(cfg, base, models)
    ensures forall i :: 0 <= i < |walk| ==> walk[i].result.success
    ensures forall i :: 0 < i < |walk| ==> walk[i].task.start == walk[i - 1].task.start + walk[i - 1].task.count
    ensures walk != [] && last != [] ==> last[0].task.start == walk[|walk| - 1].task.start + walk[|walk| - 1].task.count
    ensures walk != [] ==> (walk[0].task.start == base + 2 <==> base <= 0xFFFD)
  {
    var cursor: U16, rest: nat :|
      Walked(walk, models, FirstHeader(base), cursor, rest) && Ended(cfg, base, models, cursor, rest, last);
    TilesAreConsecutive(walk, FirstHeader(base), cursor);
  }

  /** They are the headers and bodies of the models, each of which the device reported, in
      ascending order. */
  lemma WalkReadsModels(cfg: ScanConfig, base: U16, walk: seq<Read>, last: seq<Read>, models: seq<Model>)
    requires WalkReport(cfg, base, walk, last, models)
    ensures ReadsModels(walk, last, models) && forall m :: m in models ==> Reported(walk, m)
    ensures forall i, j :: 0 <= i < j < |models| ==> models[i].addr + 2 + models[i].length <= models[j].addr
    ensures exists until :: Chain(models, FirstHeader(base), until)
  {
    var cursor: U16, rest: nat :|
      Walked(walk, models, FirstHeader(base), cursor, rest) && Ended(cfg, base, models, cursor, rest, last);
    forall i, j | 0 <= i < j < |models| ensures models[i].addr + 2 + models[i].length <= models[j].addr {
      ChainAscends(models, FirstHeader(base), cursor + rest, i, j);
    }
    forall m | m in models ensures Reported(walk, m) {
      ModelsAreReported(walk, models, m);
    }
    assert TasksOf(walk) + BodyTasks(cursor, rest) == WalkTasks(models);
  }

  /** Without the marker at any base, each base is probed once and nothing else is read. */
  lemma NoMarkerNoWalk(cfg: ScanConfig, h: seq<Read>)
    requires Report(cfg, h) && cfg.sunSpecBase == 0 && forall r :: r in h ==> !IsMarker(r.result)
    ensures |h| == |Bases(cfg)|
  {
    var detect, base, walk, last, models :| RunOf(cfg, h, detect, base, walk, last, models);
    if detect != [] {
      assert detect[|detect| - 1] in h;
    }
  }

  /** Without settings of its own a scan probes these bases and walks at most 256 models. */
  lemma DefaultsAre(cfg: ScanConfig)
    ensures cfg.sunSpecBases == [] ==> Bases(cfg) == [0, 40000, 50000, 1, 39999, 40001, 49999, 50001]
    ensures cfg.sunSpecBases != [] ==> Bases(cfg) == cfg.sunSpecBases
    ensures MaxModels(cfg) == if cfg.sunSpecMaxModels > 0 then cfg.sunSpecMaxModels else 256
  {
  }

  /** The marker is the text "SunS" in the first two registers of a successful read. */
  lemma MarkerIff(r: ScanResult)
    ensures IsMarker(r) <==> r.success && |r.data| >= 4 && r.data[..4] == [0x53, 0x75, 0x6E, 0x53]
  {
    if r.success && |r.data| >= 4 {
      TwoBytes(r.data[0], r.data[1], 0x53, 0x75);
      TwoBytes(r.data[2], r.data[3], 0x6E, 0x53);
      assert r.data[..4] == [r.data[0], r.data[1], r.data[2], r.data[3]];
    }
  }

  lemma TwoBytes(a: Byte, b: Byte, c: Byte, d: Byte)
    ensures Word(a, b) == Word(c, d) <==> a == c && b == d
  {
  }

  // ----- reads beyond the address space -----

  /** A read of registers that exist. */
  predicate Exists(t: ScanTask) {
    t.start + t.count <= 0x1_0000
  }

  /** A walk from base can come to a header at 65535: it begins there, or one model leads there. */
  predicate SpillsFrom(cfg: ScanConfig, base: U16) {
    && InSpan(cfg, base, FirstHeader(base)) && InSpan(cfg, base, 0xFFFF)
    && (FirstHeader(base) == 0xFFFF || (FirstHeader(base) <= 0xFFFC && MaxModels(cfg) >= 2))
  }

  /** Some device makes the scan ask for a register beyond 65535. */
  predicate Spills(cfg: ScanConfig) {
    if cfg.sunSpecBase > 0 then SpillsFrom(cfg, cfg.sunSpecBase)
    else exists b :: b in Bases(cfg) && (b == 0xFFFF || SpillsFrom(cfg, b))
  }

  lemma {:induction false} ProbesBases(cfg: ScanConfig, h: seq<Read>, r: Read)
    requires Probed(cfg, h) && r in h
    ensures r.task.start in Bases(cfg) && r.task.count == 2
  {
    if r != h[|h| - 1] {
      ProbesBases(cfg, h[..|h| - 1], r);
    }
  }

  lemma {:induction false} TilesEnd(h: seq<Read>, from: int, until: int, r: Read)
    requires Tiles(h, from, until) && r in h
    ensures r.task.start + r.task.count <= until
  {
    if r != h[|h| - 1] {
      TilesEnd(h[..|h| - 1], from, h[|h| - 1].task.start, r);
    }
  }

  /** A walk leaves the address space only by a header at 65535, and only if it can come there. */
  lemma WalkSpills(cfg: ScanConfig, base: U16, walk: seq<Read>, last: seq<Read>, models: seq<Model>, r: Read)
    requires WalkReport(cfg, base, walk, last, models) && (r in walk || r in last) && !Exists(r.task)
    ensures SpillsFrom(cfg, base)
  {
    var cursor: U16, rest: nat :|
      Walked(walk, models, FirstHeader(base), cursor, rest) && Ended(cfg, base, models, cursor, rest, last);
    if r in walk {
      TilesEnd(walk, FirstHeader(base), cursor, r);
      assert false;
    }
    if models != [] {
      FirstOfChain(models, FirstHeader(base), cursor);
      assert models[0] in models;
    }
  }

  lemma {:induction false} FirstOfChain(models: seq<Model>, from: int, until: int)
    requires Chain(models, from, until) && models != []
    ensures models[0].addr == from && from + 3 <= until
  {
    if |models| > 1 {
      FirstOfChain(models[..|models| - 1], from, models[|models| - 1].addr);
    }
  }

  lemma RunSpills(cfg: ScanConfig, h: seq<Read>, r: Read)
    requires Report(cfg, h) && r in h && !Exists(r.task)
    ensures Spills(cfg)
  {
    var detect, base, walk, last, models :| RunOf(cfg, h, detect, base, walk, last, models);
    if detect != [] {
      ProbesBases(cfg, detect, detect[|detect| - 1]);
    }
    if r in detect {
      ProbesBases(cfg, detect, r);
    } else {
      WalkSpills(cfg, base.value, walk, last, models, r);
    }
  }

  // Devices that make it do so.

  const REFUSED := ScanResult(false, [])

  /** The first n bases probed in vain. */
  function Refusals(cfg: ScanConfig, n: nat): seq<Read>
    requires n <= |Bases(cfg)|
  {
    if n == 0 then [] else Refusals(cfg, n - 1) + [Read(ScanTask(Bases(cfg)[n - 1], 2), REFUSED)]
  }

  lemma {:induction false} RefusalsProbe(cfg: ScanConfig, n: nat)
    requires n <= |Bases(cfg)| && cfg.sunSpecBase == 0
    ensures |Refusals(cfg, n)| == n && Detection(cfg, Refusals(cfg, n), None)
  {
    if n > 0 {
      RefusalsProbe(cfg, n - 1);
      ProbedOne(cfg, Refusals(cfg, n - 1), Read(ScanTask(Bases(cfg)[n - 1], 2), REFUSED));
    }
  }

  lemma {:induction false} RefusalIsIn(cfg: ScanConfig, n: nat, i: nat)
    requires i < n <= |Bases(cfg)|
    ensures Read(ScanTask(Bases(cfg)[i], 2), REFUSED) in Refusals(cfg, n)
  {
    if i < n - 1 {
      RefusalIsIn(cfg, n - 1, i);
    }
  }

  const MARKED := ScanResult(true, [0x53, 0x75, 0x6E, 0x53])

  lemma MarkedIsMarker()
    ensures IsMarker(MARKED)
  {
  }

  /** A device that has the marker at the i-th base and nowhere before. */
  lemma MarkedAt(cfg: ScanConfig, i: nat) returns (detect: seq<Read>)
    requires cfg.sunSpecBase == 0 && i < |Bases(cfg)|
    ensures Detection(cfg, detect, Some(Bases(cfg)[i]))
  {
    var marked := Read(ScanTask(Bases(cfg)[i], 2), MARKED);
    RefusalsProbe(cfg, i);
    MarkedIsMarker();
    ProbedOne(cfg, Refusals(cfg, i), marked);
    detect := Refusals(cfg, i) + [marked];
  }

  /** The body of a model, every chunk of it answered. */
  lemma {:induction false} BodyAnswered(walk: seq<Read>, models: seq<Model>, first: int, cursor: U16, rest: nat) returns (walk': seq<Read>)
    requires Walked(walk, models, first, cursor, rest)
    ensures Walked(walk', models, first, cursor + rest, 0)
    decreases rest
  {
    walk' := walk;
    if rest > 0 {
      var r := Read(ScanTask(cursor, if rest < 125 then rest else 125), ScanResult(true, []));
      WalkBody(walk, models, first, cursor, rest, r);
      walk' := BodyAnswered(walk + [r], models, first, cursor + r.task.count, rest - r.task.count);
    }
  }

  /** A walk to a header at 65535, which is refused. */
  lemma WalkToTheEnd(cfg: ScanConfig, base: U16) returns (walk: seq<Read>, models: seq<Model>)
    requires SpillsFrom(cfg, base)
    ensures WalkReport(cfg, base, walk, [Read(ScanTask(0xFFFF, 2), REFUSED)], models)
  {
    var first, last := FirstHeader(base), [Read(ScanTask(0xFFFF, 2), REFUSED)];
    walk, models := [], [];
    assert BodyTasks(first, 0) == [];
    assert Walked(walk, models, first, first, 0);
    if first < 0xFFFF {
      var length := 0xFFFD - first;
      var r := Read(ScanTask(first, 2), ScanResult(true, [0, 1, length / 256, length % 256]));
      assert Be16(r.result.data, 2) == length;
      WalkHeader(walk, models, first, first, r);
      models := [Model(first, Be16(r.result.data, 0), length)];
      assert [] + models == models;
      walk := BodyAnswered(walk + [r], models, first, first + 2, length);
    }
    assert Walked(walk, models, first, 0xFFFF, 0) && Ended(cfg, base, models, 0xFFFF, 0, last);
  }

  lemma SpillHappens(cfg: ScanConfig) returns (h: seq<Read>, r: Read)
    requires Spills(cfg)
    ensures Report(cfg, h) && r in h && !Exists(r.task)
  {
    r := Read(ScanTask(0xFFFF, 2), REFUSED);
    var detect: seq<Read>, base := [], cfg.sunSpecBase;
    if cfg.sunSpecBase == 0 {
      var b :| b in Bases(cfg) && (b == 0xFFFF || SpillsFrom(cfg, b));
      var i :| 0 <= i < |Bases(cfg)| && Bases(cfg)[i] == b;
      if b == 0xFFFF {
        h := Refusals(cfg, |Bases(cfg)|);
        RefusalsProbe(cfg, |Bases(cfg)|);
        RefusalIsIn(cfg, |Bases(cfg)|, i);
        assert RunOf(cfg, h, h, None, [], [], []);
        return;
      }
      detect := MarkedAt(cfg, i);
      base := b;
    }
    var walk, models := WalkToTheEnd(cfg, base);
    h := detect + walk + [r];
    assert RunOf(cfg, h, detect, Some(base), walk, [r], models);
  }

  /** For every device all reads stay below 65536, if and only if 65535 is no base that is
      probed, and no base leads to a header there within the limits. */
  lemma ReadsExistIff(cfg: ScanConfig)
    ensures (forall h: seq<Read>, r: Read :: Report(cfg, h) && r in h ==> Exists(r.task)) <==> !Spills(cfg)
  {
    if Spills(cfg) {
      var h, r := SpillHappens(cfg);
    } else {
      forall h: seq<Read>, r: Read | Report(cfg, h) && r in h ensures Exists(r.task) {
        if !Exists(r.task) {
          RunSpills(cfg, h, r);
        }
      }
    }
  }

  /** With 65535 as the only base, a silent device is asked for a register that does not exist. */
  lemma SpillsAtOnce(cfg: ScanConfig)
    requires cfg.sunSpecBase == 0 && cfg.sunSpecBases == [0xFFFF]
    ensures Report(cfg, [Read(ScanTask(0xFFFF, 2), REFUSED)]) && !Exists(ScanTask(0xFFFF, 2))
  {
    var r := Read(ScanTask(0xFFFF, 2), REFUSED);
    RefusalsProbe(cfg, 1);
    assert Refusals(cfg, 1) == [r];
    assert RunOf(cfg, [r], [r], None, [], [], []);
  }

  /** Nothing at all is read exactly if the first header lies beyond the span already. */
  lemma ReadsNothingIff(cfg: ScanConfig, h: seq<Read>)
    requires Report(cfg, h)
    ensures h == [] <==> cfg.sunSpecBase > 0 && cfg.sunSpecMaxSpan == 1
  {
    var detect, base, walk, last, models :| RunOf(cfg, h, detect, base, walk, last, models);
    if cfg.sunSpecBase > 0 {
      WalkIsEmptyIff(cfg, base.value, walk, last, models);
    }
  }

  lemma WalkIsEmptyIff(cfg: ScanConfig, base: U16, walk: seq<Read>, last: seq<Read>, models: seq<Model>)
    requires WalkReport(cfg, base, walk, last, models)
    ensures walk == last == [] <==> cfg.sunSpecMaxSpan == 1
  {
    var cursor: U16, rest: nat :|
      Walked(walk, models, FirstHeader(base), cursor, rest) && Ended(cfg, base, models, cursor, rest, last);
    if models == [] {
      assert walk == [];
    } else {
      FirstOfChain(models, FirstHeader(base), cursor + rest);
      assert models[0] in models;
      assert Reported(walk, models[|models| - 1]);
    }
  }
}
