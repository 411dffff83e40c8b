/** What a scan is (internal/modbus/client.go:479-690): the reads it performed, each with the
    uses of the outside world it took, in order and without a gap; how it was cut short, if
    it was; and the sums of all that. */
module Runs {
  import opened Seqs
  import opened ScanTypes
  import opened Capfile
  import opened Calls
  import opened Strategies

  datatype TaskResult = TaskResult(err: Option<Error>, data: seq<Byte>, outcome: OutcomeType) {
    function ToScan(): ScanResult {
      ScanResult(err == None, if err == None then data else [])
    }
  }

  datatype ScanStats = ScanStats(
    totalRequests: nat, successCount: nat, failCount: nat,
    exceptionCount: nat, timeoutCount: nat, transportErrorCount: nat,
    blocksCaptured: nat, registersCaptured: nat)

  /** One performance of a read: its result, and the uses of the call that gave it. */
  datatype Try = Try(result: TaskResult, uses: seq<Use>)

  /** A read of the scan: performed once, or a second time, with a wait before that or after
      all. */
  datatype Step = Step(task: ScanTask, first: Try, wait: seq<Use>, second: Option<Try>, pause: seq<Use>)
  {
    function Result(): TaskResult {
      if second.Some? then second.value.result else first.result
    }

    function AsRead(): Read {
      Read(task, Result().ToScan())
    }

    function Attempts(): seq<Made> {
      MadesOf(first.uses) + if second.Some? then MadesOf(second.value.uses) else []
    }
  }

  /** A step in which the scan gave up, and the error it gave up with. */
  datatype Cut = Cut(step: Step, err: Error)

  /** A scan as it happened: its steps, the one that was cut short, and what these add up to:
      the reads with their final outcomes, and all attempts. */
  datatype Run = Run(steps: seq<Step>, cut: Option<Cut>, performed: seq<Read>, made: seq<Made>)

  // ----- what one step is -----

  function Caller(w: World, task: ScanTask): nat -> Answer {
    (n: nat) => w.read(n, task)
  }

  function SettingOf(cfg: ScanConfig, w: World, exceptions: bool, task: ScanTask, from: Moment): Setting {
    Setting(Caller(w, task), Some(exceptions), cfg.delay, from)
  }

  /** One performance of task from this moment on: a call with a single attempt. */
  ghost predicate Performed(cfg: ScanConfig, w: World, exceptions: bool, task: ScanTask, t: Try, from: Moment) {
    var c := SettingOf(cfg, w, exceptions, task, from);
    && Course(w, c, t.uses) && Over(c, 1, t.uses) && Returns(c, t.uses, t.result.err)
    && (t.result.err == None ==> AnsweredWith(t.uses, t.result.data))
    && t.result.outcome == ClassifyOutcome(if t.result.err == None then None else Some(t.result.err.value.fault))
  }

  /** A failure worth one more performance. */
  predicate WorthRetry(cfg: ScanConfig, result: TaskResult) {
    result.err.Some? && cfg.retryOnTimeoutTransport > 0 && (result.outcome == Timeout || result.outcome == Transport)
  }

  /** The capture could not be written. */
  predicate NotWritten(result: TaskResult) {
    result.err.Some? && result.err.value.CaptureFailed?
  }

  /** Waits the full time, if at all. */
  predicate Rested(w: World, at: nat, us: seq<Use>, due: bool) {
    if due then us == [Slept(None)] && w.sleep(at) == None else us == []
  }

  /** Waits, and is interrupted. */
  predicate Interrupts(w: World, at: nat, us: seq<Use>, err: Error) {
    w.sleep(at).Some? && us == [Slept(w.sleep(at))] && err == Interrupted(w.sleep(at).value)
  }

  function SecondUses(s: Step): seq<Use> {
    if s.second.Some? then s.second.value.uses else []
  }

  /** The moments after the first performance, the wait behind it, both performances, and all
      of the step. */
  function AfterFirst(s: Step, from: Moment): Moment {
    AfterAll(from, s.first.uses)
  }

  function AfterWait(s: Step, from: Moment): Moment {
    AfterAll(AfterFirst(s, from), s.wait)
  }

  function AfterBoth(s: Step, from: Moment): Moment {
    AfterAll(AfterWait(s, from), SecondUses(s))
  }

  function AfterStep(s: Step, from: Moment): Moment {
    AfterAll(AfterBoth(s, from), s.pause)
  }

  /** A step up to its pause: a read the algorithm may ask for, whose capture could be written
      the first time, performed a second time exactly if that is worth it. */
  ghost predicate StepRuns(cfg: ScanConfig, w: World, exceptions: bool, s: Step, from: Moment) {
    && InBounds(cfg, s.task) && Performed(cfg, w, exceptions, s.task, s.first, from) && !NotWritten(s.first.result)
    && (s.second.Some? <==> WorthRetry(cfg, s.first.result))
    && Rested(w, AfterFirst(s, from).at, s.wait, s.second.Some? && cfg.delay > 0)
    && (forall t :: s.second == Some(t) ==> Performed(cfg, w, exceptions, s.task, t, AfterWait(s, from)))
  }

  /** A step of the scan; it pauses unless it has waited already. */
  ghost predicate StepIs(cfg: ScanConfig, w: World, exceptions: bool, s: Step, from: Moment) {
    && StepRuns(cfg, w, exceptions, s, from)
    && Rested(w, AfterBoth(s, from).at, s.pause, s.second == None && cfg.delay > 0)
  }

  /** The scan gives up: the capture cannot be written in the first performance, or one of its
      own waits is interrupted. */
  ghost predicate CutIs(cfg: ScanConfig, w: World, exceptions: bool, c: Cut, from: Moment) {
    var s := c.step;
    && InBounds(cfg, s.task) && Performed(cfg, w, exceptions, s.task, s.first, from)
    && if NotWritten(s.first.result) then
         s.wait == s.pause == [] && s.second == None && s.first.result.err == Some(c.err)
       else if WorthRetry(cfg, s.first.result) && s.second == None then
         cfg.delay > 0 && Interrupts(w, AfterFirst(s, from).at, s.wait, c.err) && s.pause == []
       else
         StepRuns(cfg, w, exceptions, s, from) && s.second == None && cfg.delay > 0 && Interrupts(w, AfterBoth(s, from).at, s.pause, c.err)
  }

  /** The link is dialled at moment 0; the steps follow each other from then on. */
  function Start(): Moment {
    Moment(1, true)
  }

  function EndOf(steps: seq<Step>): Moment {
    if steps == [] then Start() else AfterStep(steps[|steps| - 1], EndOf(steps[..|steps| - 1]))
  }

  /** Step i begins at the moment at which the one before ended. */
  ghost predicate StepAt(cfg: ScanConfig, w: World, exceptions: bool, steps: seq<Step>, i: nat)
    requires i < |steps|
  {
    StepIs(cfg, w, exceptions, steps[i], EndOf(steps[..i]))
  }

  ghost predicate StepsAre(cfg: ScanConfig, w: World, exceptions: bool, steps: seq<Step>) {
    forall i :: 0 <= i < |steps| ==> StepAt(cfg, w, exceptions, steps, i)
  }

  lemma FrontIsSteps(cfg: ScanConfig, w: World, exceptions: bool, steps: seq<Step>, n: nat)
    requires StepsAre(cfg, w, exceptions, steps) && n <= |steps|
    ensures StepsAre(cfg, w, exceptions, steps[..n])
  {
    forall i | 0 <= i < n ensures StepAt(cfg, w, exceptions, steps[..n], i) {
      FrontOfFront(steps, n, i);
      assert StepAt(cfg, w, exceptions, steps, i);
    }
  }

  lemma OneStepMore(cfg: ScanConfig, w: World, exceptions: bool, steps: seq<Step>, s: Step)
    requires StepsAre(cfg, w, exceptions, steps) && StepIs(cfg, w, exceptions, s, EndOf(steps))
    ensures StepsAre(cfg, w, exceptions, steps + [s])
  {
    var all := steps + [s];
    FrontOfSnoc(steps, s);
    forall i | 0 <= i < |all| ensures StepAt(cfg, w, exceptions, all, i) {
      FrontOfFront(all, |steps|, i);
      assert i < |steps| ==> StepAt(cfg, w, exceptions, steps, i);
    }
  }

  // ----- what a run adds up to -----

  function PerformedOf(steps: seq<Step>): seq<Read> {
    if steps == [] then [] else PerformedOf(steps[..|steps| - 1]) + [steps[|steps| - 1].AsRead()]
  }

  function MadeOf(steps: seq<Step>): seq<Made> {
    if steps == [] then [] else MadeOf(steps[..|steps| - 1]) + steps[|steps| - 1].Attempts()
  }

  function CountOf(steps: seq<Step>, o: OutcomeType): nat {
    if steps == [] then 0
    else CountOf(steps[..|steps| - 1], o) + if steps[|steps| - 1].Result().outcome == o then 1 else 0
  }

  function Retries(steps: seq<Step>): nat {
    if steps == [] then 0 else Retries(steps[..|steps| - 1]) + if steps[|steps| - 1].second.Some? then 1 else 0
  }

  function Successes(h: seq<Read>): seq<Read> {
    if h == [] then []
    else
      var r := h[|h| - 1];
      Successes(h[..|h| - 1]) + if r.result.success then [r] else []
  }

  function Registers(h: seq<Read>): nat {
    if h == [] then 0
    else
      var r := h[|h| - 1];
      Registers(h[..|h| - 1]) + if r.result.success then r.task.count else 0
  }

  lemma SuccessesOne(h: seq<Read>, r: Read)
    ensures Successes(h + [r]) == Successes(h) + if r.result.success then [r] else []
    ensures Registers(h + [r]) == Registers(h) + if r.result.success then r.task.count else 0
  {
    FrontOfSnoc(h, r);
  }

  /** What one more step adds. */
  lemma OneStep(cfg: ScanConfig, w: World, exceptions: bool, steps: seq<Step>, s: Step)
    requires StepsAre(cfg, w, exceptions, steps) && StepIs(cfg, w, exceptions, s, EndOf(steps))
    ensures StepsAre(cfg, w, exceptions, steps + [s]) && EndOf(steps + [s]) == AfterStep(s, EndOf(steps))
    ensures PerformedOf(steps + [s]) == PerformedOf(steps) + [s.AsRead()]
    ensures MadeOf(steps + [s]) == MadeOf(steps) + s.Attempts()
  {
    OneStepMore(cfg, w, exceptions, steps, s);
    FrontOfSnoc(steps, s);
  }

  /** The counters after one more step. */
  function Tallied(stats: ScanStats, s: Step): ScanStats {
    var r, hit := s.Result(), s.Result().err == None;
    ScanStats(
      stats.totalRequests + 1 + (if s.second.Some? then 1 else 0),
      stats.successCount + (if hit then 1 else 0),
      stats.failCount + (if hit then 0 else 1),
      stats.exceptionCount + (if !hit && r.outcome == Exception then 1 else 0),
      stats.timeoutCount + (if !hit && r.outcome == Timeout then 1 else 0),
      stats.transportErrorCount + (if !hit && r.outcome == Transport then 1 else 0),
      stats.blocksCaptured + (if hit then 1 else 0),
      stats.registersCaptured + (if hit then s.task.count else 0))
  }

  function StatsOf(steps: seq<Step>): ScanStats {
    if steps == [] then ScanStats(0, 0, 0, 0, 0, 0, 0, 0)
    else Tallied(StatsOf(steps[..|steps| - 1]), steps[|steps| - 1])
  }

  lemma OutcomeTells(cfg: ScanConfig, w: World, exceptions: bool, s: Step, from: Moment)
    requires StepIs(cfg, w, exceptions, s, from)
    ensures s.Result().outcome == Success <==> s.Result().err == None
  {
  }

  /** The outcome of each step tells whether it succeeded. */
  ghost predicate Told(steps: seq<Step>) {
    forall s :: s in steps ==> (s.Result().outcome == Success <==> s.Result().err == None)
  }

  lemma StepsAreTold(cfg: ScanConfig, w: World, exceptions: bool, steps: seq<Step>)
    requires StepsAre(cfg, w, exceptions, steps)
    ensures Told(steps)
  {
    forall s | s in steps ensures s.Result().outcome == Success <==> s.Result().err == None {
      var i :| 0 <= i < |steps| && steps[i] == s;
      assert StepAt(cfg, w, exceptions, steps, i);
      OutcomeTells(cfg, w, exceptions, s, EndOf(steps[..i]));
    }
  }

  /** The summary adds up: each step counts once, each retry once more. */
  ghost predicate AddsUp(steps: seq<Step>, stats: ScanStats, h: seq<Read>) {
    && |h| == |steps| && stats.totalRequests == |steps| + Retries(steps)
    && stats.successCount == |Successes(h)| == stats.blocksCaptured
    && stats.successCount + stats.failCount == |steps|
    && stats.registersCaptured == Registers(h)
    && stats.exceptionCount == CountOf(steps, Exception)
    && stats.timeoutCount == CountOf(steps, Timeout)
    && stats.transportErrorCount == CountOf(steps, Transport)
    && stats.exceptionCount + stats.timeoutCount + stats.transportErrorCount <= stats.failCount
  }

  lemma {:induction false} ToldAddsUp(steps: seq<Step>)
    requires Told(steps)
    ensures AddsUp(steps, StatsOf(steps), PerformedOf(steps))
  {
    if steps != [] {
      var front, s := steps[..|steps| - 1], steps[|steps| - 1];
      ToldAddsUp(front);
      SuccessesOne(PerformedOf(front), s.AsRead());
    }
  }

  lemma StatsAddUp(cfg: ScanConfig, w: World, exceptions: bool, steps: seq<Step>)
    requires StepsAre(cfg, w, exceptions, steps)
    ensures AddsUp(steps, StatsOf(steps), PerformedOf(steps))
  {
    StepsAreTold(cfg, w, exceptions, steps);
    ToldAddsUp(steps);
  }

  /** A read is performed a second time exactly if retries are configured and the first time
      failed, other than in writing the capture, with a timeout, or with a lost connection that
      is no protocol error; an exception is never performed again. */
  lemma SecondIff(cfg: ScanConfig, w: World, exceptions: bool, s: Step, from: Moment)
    requires StepIs(cfg, w, exceptions, s, from)
    ensures s.second.Some? <==>
            && cfg.retryOnTimeoutTransport > 0
            && s.first.result.err.Some? && !s.first.result.err.value.CaptureFailed?
            && var f := s.first.result.err.value.fault;
               f.exception == None && (f.timedOut || (f.connectionLost && !f.protocol))
  {
  }

  /** What the strategy learns of a step: that it succeeded exactly if its last performance was
      answered, and then the data of that answer; nothing of a failed one. */
  lemma StepTellsAnswer(cfg: ScanConfig, w: World, exceptions: bool, s: Step, from: Moment)
    requires StepIs(cfg, w, exceptions, s, from)
    ensures var us, r := (if s.second.Some? then s.second.value.uses else s.first.uses), s.AsRead().result;
            if s.Result().err == None then
              && us != [] && us[|us| - 1].Asked? && us[|us| - 1].made.answer.err == None
              && r.success && r.data == us[|us| - 1].made.answer.data
            else !r.success && r.data == []
  {
    var second := s.second.Some?;
    var t, at := (if second then s.second.value else s.first), (if second then AfterWait(s, from) else from);
    if t.result.err == None {
      SuccessIsAnswered(w, SettingOf(cfg, w, exceptions, s.task, at), t.uses);
    }
  }

  /** A failed read is counted by what failed it: exceptions first, then timeouts, then lost
      connections that are no protocol errors. */
  lemma FailureIsCounted(cfg: ScanConfig, w: World, exceptions: bool, s: Step, from: Moment, stats: ScanStats)
    requires StepIs(cfg, w, exceptions, s, from) && s.Result().err.Some?
    ensures var f, after := s.Result().err.value.fault, Tallied(stats, s);
            && after.exceptionCount == stats.exceptionCount + (if f.exception.Some? then 1 else 0)
            && after.timeoutCount == stats.timeoutCount + (if f.exception == None && f.timedOut then 1 else 0)
            && after.transportErrorCount == stats.transportErrorCount +
                 (if f.exception == None && !f.timedOut && !f.protocol && f.connectionLost then 1 else 0)
  {
  }

  // ----- the scan -----

  function CutMade(run: Run): seq<Made> {
    if run.cut.Some? then run.cut.value.step.Attempts() else []
  }

  /** What a scan satisfies at any time: its steps, and how it was cut short; no more reads than
      the worst case; and the sums. */
  ghost predicate Lawful(cfg: ScanConfig, w: World, exceptions: bool, run: Run) {
    && |run.steps| + (if run.cut.Some? then 1 else 0) <= WorstCase(cfg)
    && StepsAre(cfg, w, exceptions, run.steps)
    && (forall c :: run.cut == Some(c) ==> CutIs(cfg, w, exceptions, c, EndOf(run.steps)))
    && run.performed == PerformedOf(run.steps) && run.made == MadeOf(run.steps) + CutMade(run)
  }

  /** A scan: it was cut short, or it came to its end with the algorithm's report. */
  ghost predicate Scans(cfg: ScanConfig, w: World, exceptions: bool, run: Run) {
    Lawful(cfg, w, exceptions, run) && (run.cut == None ==> Report(cfg, run.performed))
  }

  /** The run with one more step, and with one that was cut short. */
  function WithStep(run: Run, s: Step): Run {
    Run(run.steps + [s], None, run.performed + [s.AsRead()], run.made + s.Attempts())
  }

  function WithCut(run: Run, c: Cut): Run {
    Run(run.steps, Some(c), run.performed, run.made + c.step.Attempts())
  }

  lemma StepIsLawful(cfg: ScanConfig, w: World, exceptions: bool, run: Run, s: Step)
    requires Lawful(cfg, w, exceptions, run) && run.cut == None && |run.steps| < WorstCase(cfg)
    requires StepIs(cfg, w, exceptions, s, EndOf(run.steps))
    ensures Lawful(cfg, w, exceptions, WithStep(run, s)) && EndOf(run.steps + [s]) == AfterStep(s, EndOf(run.steps))
    ensures StatsOf(run.steps + [s]) == Tallied(StatsOf(run.steps), s)
  {
    OneStep(cfg, w, exceptions, run.steps, s);
    NothingJoined(MadeOf(run.steps));
    NothingJoined(MadeOf(run.steps + [s]));
    FrontOfSnoc(run.steps, s);
  }

  lemma CutIsLawful(cfg: ScanConfig, w: World, exceptions: bool, run: Run, c: Cut)
    requires Lawful(cfg, w, exceptions, run) && run.cut == None && |run.steps| < WorstCase(cfg)
    requires CutIs(cfg, w, exceptions, c, EndOf(run.steps))
    ensures Lawful(cfg, w, exceptions, WithCut(run, c))
  {
    NothingJoined(MadeOf(run.steps));
  }

  lemma {:induction false} StepCount(steps: seq<Step>)
    ensures |PerformedOf(steps)| == |steps|
  {
    if steps != [] {
      StepCount(steps[..|steps| - 1]);
    }
  }

  lemma NothingYet(cfg: ScanConfig, w: World, exceptions: bool, run: Run)
    requires run == Run([], None, [], [])
    ensures Lawful(cfg, w, exceptions, run) && StatsOf(run.steps) == ScanStats(0, 0, 0, 0, 0, 0, 0, 0)
  {
  }
}
