/** The scan loop (internal/modbus/client.go:479-672): a strategy names the next read, the
    link performs it, the strategy learns the outcome, until the strategy is done. */
module Scan {
  import opened Seqs
  import opened ScanTypes
  import opened Capfile
  import opened Calls
  import opened Exchange
  import opened Strategies
  import opened Runs
  import Safe
  import Smart
  import Deep

  /** The recorder of the link is open and has seen exactly these attempts. */
  ghost predicate Logged(link: DeviceLink, exceptions: bool, made: seq<Made>)
    reads link`rec, link.rec
  {
    && link.rec != null && link.rec.Valid() && link.rec.exceptions == exceptions && !link.rec.closed
    && Records([], link.rec.log, 0, link.stream, made) && link.rec.nextTok == |made|
  }

  lemma RecordsJoin(mid: seq<Op>, after: seq<Op>, stream: U32, made: seq<Made>, more: seq<Made>)
    requires Records([], mid, 0, stream, made) && Records(mid, after, |made|, stream, more) && |more| <= 1
    ensures Records([], after, 0, stream, made + more)
  {
    if more == [] {
      RecordsNone(mid, after, |made|, stream);
      NothingJoined(made);
    } else {
      OneElement(more);
      RecordsSingle(mid, after, |made|, stream, more[0]);
      RecordsOne([], mid, 0, stream, made, more[0]);
    }
  }

  // ----- one step -----

  /** Performs one read with a single attempt. */
  method ExecuteReadTask(link: DeviceLink, cfg: ScanConfig, ghost exceptions: bool, task: ScanTask, ghost made: seq<Made>)
    returns (result: TaskResult, ghost t: Try)
    requires Logged(link, exceptions, made)
    modifies link`clock, link`open, link.rec
    ensures t.result == result && Performed(cfg, link.world, exceptions, task, t, old(link.Now()))
    ensures Logged(link, exceptions, made + MadesOf(t.uses)) && link.Now() == AfterAll(old(link.Now()), t.uses)
  {
    var err, data;
    ghost var us;
    ghost var log, from := link.Log(), link.Now();
    err, data, us := link.Exchange(1, cfg.delay, Caller(link.world, task));
    result := TaskResult(err, data, ClassifyOutcome(if err == None then None else Some(err.value.fault)));
    t := Try(result, us);
    CallIsTry(link, cfg, exceptions, task, t, from, log, made);
  }

  /** What a call with a single attempt leaves is one performance of a read. */
  lemma CallIsTry(link: DeviceLink, cfg: ScanConfig, exceptions: bool, task: ScanTask, t: Try, from: Moment, log: seq<Op>, made: seq<Made>)
    requires link.rec != null && link.rec.exceptions == exceptions && Records([], log, 0, link.stream, made)
    requires link.Has(Context(SettingOf(cfg, link.world, exceptions, task, from), log, |made|, false), t.uses)
    requires Over(SettingOf(cfg, link.world, exceptions, task, from), 1, t.uses)
    requires Returns(SettingOf(cfg, link.world, exceptions, task, from), t.uses, t.result.err)
    requires t.result.err == None ==> AnsweredWith(t.uses, t.result.data)
    requires t.result.outcome == ClassifyOutcome(if t.result.err == None then None else Some(t.result.err.value.fault))
    ensures Performed(cfg, link.world, exceptions, task, t, from)
    ensures Logged(link, exceptions, made + MadesOf(t.uses)) && link.Now() == AfterAll(from, t.uses)
  {
    RecordsJoin(log, link.rec.log, link.stream, made, MadesOf(t.uses));
  }

  /** A wait of the scan's own. */
  method Wait(link: DeviceLink, ghost exceptions: bool, ghost made: seq<Made>) returns (err: Option<Error>, ghost us: seq<Use>)
    requires Logged(link, exceptions, made)
    modifies link`clock
    ensures Logged(link, exceptions, made) && link.Now() == AfterAll(old(link.Now()), us)
    ensures if err == None then Rested(link.world, old(link.clock), us, true) else Interrupts(link.world, old(link.clock), us, err.value)
  {
    err := link.Sleep();
    us := [Slept(link.world.sleep(old(link.clock)))];
    assert us[..0] == [];
  }

  /** Performs one read, and once more after a timeout or a transport error if configured.
      Fails if the capture cannot be written the first time, or the wait is cut short. */
  method Perform(link: DeviceLink, cfg: ScanConfig, ghost exceptions: bool, task: ScanTask, ghost made: seq<Made>)
    returns (err: Option<Error>, result: TaskResult, retried: bool, ghost s: Step)
    requires Logged(link, exceptions, made) && InBounds(cfg, task)
    modifies link`clock, link`open, link.rec
    ensures Logged(link, exceptions, made + s.Attempts()) && s.task == task && s.pause == []
    ensures err == None ==> StepRuns(cfg, link.world, exceptions, s, old(link.Now())) && link.Now() == AfterBoth(s, old(link.Now()))
    ensures err == None ==> s.Result() == result && retried == s.second.Some?
    ensures forall e :: err == Some(e) ==> CutIs(cfg, link.world, exceptions, Cut(s, e), old(link.Now()))
  {
    retried := false;
    ghost var first;
    result, first := ExecuteReadTask(link, cfg, exceptions, task, made);
    s := Step(task, first, [], None, []);
    NothingJoined(MadesOf(first.uses));
    if result.err.Some? && result.err.value.CaptureFailed? {
      return result.err, result, retried, s;
    }
    err := None;
    if WorthRetry(cfg, result) {
      retried := true;
      ghost var wait: seq<Use> := [];
      if cfg.delay > 0 {
        var serr;
        serr, wait := Wait(link, exceptions, made + MadesOf(first.uses));
        if serr.Some? {
          return serr, result, retried, s.(wait := wait);
        }
      }
      ghost var second;
      result, second := ExecuteReadTask(link, cfg, exceptions, task, made + MadesOf(first.uses));
      Regroup(made, MadesOf(first.uses), MadesOf(second.uses));
      s := Step(task, first, wait, Some(second), []);
    }
  }

  /** The counters after one more result. */
  method Count(stats: ScanStats, task: ScanTask, result: TaskResult, retried: bool, ghost s: Step) returns (stats': ScanStats)
    requires s.task == task && s.Result() == result && retried == s.second.Some?
    requires result.outcome == Success <==> result.err == None
    ensures stats' == Tallied(stats, s)
  {
    stats' := stats.(totalRequests := stats.totalRequests + (if retried then 1 else 0) + 1);
    if result.err == None {
      stats' := stats'.(
        successCount := stats'.successCount + 1,
        blocksCaptured := stats'.blocksCaptured + 1,
        registersCaptured := stats'.registersCaptured + task.count);
    } else {
      stats' := stats'.(failCount := stats'.failCount + 1);
      match result.outcome {
        case Exception => stats' := stats'.(exceptionCount := stats'.exceptionCount + 1);
        case Timeout => stats' := stats'.(timeoutCount := stats'.timeoutCount + 1);
        case Transport => stats' := stats'.(transportErrorCount := stats'.transportErrorCount + 1);
        case _ =>
      }
    }
  }

  /** Where the scan stands: it gave up with an error, or the link has come to the end of its
      steps. */
  ghost predicate Stands(link: DeviceLink, run: Run, err: Option<Error>)
    reads link
  {
    match err
    case Some(e) => run.cut.Some? && run.cut.value.err == e
    case None => run.cut == None && link.Now() == EndOf(run.steps)
  }

  // ----- the scan -----

  /** Asks the strategy; the link does not notice. */
  method NextFor(strategy: Strategy, link: DeviceLink, cfg: ScanConfig, ghost exceptions: bool, ghost performed: seq<Read>, ghost made: seq<Made>)
    returns (task: Option<ScanTask>)
    requires strategy.Idle(cfg, performed) && Logged(link, exceptions, made)
    requires link !in strategy.Repr() && link.rec !in strategy.Repr()
    modifies strategy.Repr()
    ensures task.Some? ==> strategy.Waiting(cfg, performed, task.value) && InBounds(cfg, task.value) && |performed| < WorstCase(cfg)
    ensures task == None ==> Report(cfg, performed)
    ensures Logged(link, exceptions, made) && link.Now() == old(link.Now())
  {
    task := strategy.Next(cfg, performed);
  }

  /** Performs a read and counts its outcome. */
  method Act(link: DeviceLink, cfg: ScanConfig, ghost exceptions: bool, task: ScanTask, stats: ScanStats, ghost made: seq<Made>)
    returns (err: Option<Error>, result: TaskResult, waited: bool, stats': ScanStats, ghost s: Step)
    requires Logged(link, exceptions, made) && InBounds(cfg, task)
    modifies link`clock, link`open, link.rec
    ensures Logged(link, exceptions, made + s.Attempts()) && s.task == task && s.pause == []
    ensures err == None ==> StepRuns(cfg, link.world, exceptions, s, old(link.Now())) && link.Now() == AfterBoth(s, old(link.Now()))
    ensures err == None ==> s.Result() == result && waited == (s.second.Some? && cfg.delay > 0) && stats' == Tallied(stats, s)
    ensures forall e :: err == Some(e) ==> CutIs(cfg, link.world, exceptions, Cut(s, e), old(link.Now()))
  {
    ghost var from := link.Now();
    var retried;
    err, result, retried, s := Perform(link, cfg, exceptions, task, made);
    waited, stats' := retried && cfg.delay > 0, stats;
    if err == None {
      StepTells(cfg, link.world, exceptions, s, from);
      stats' := Count(stats, task, result, retried, s);
    }
  }

  /** Act; the strategy does not notice. */
  method ActFor(ghost strategy: Strategy, link: DeviceLink, cfg: ScanConfig, ghost exceptions: bool, task: ScanTask,
                stats: ScanStats, ghost made: seq<Made>)
    returns (err: Option<Error>, result: TaskResult, waited: bool, stats': ScanStats, ghost s: Step)
    requires link !in strategy.Repr() && link.rec !in strategy.Repr()
    requires Logged(link, exceptions, made) && InBounds(cfg, task)
    modifies link`clock, link`open, link.rec
    ensures strategy.Now() == old(strategy.Now())
    ensures Logged(link, exceptions, made + s.Attempts()) && s.task == task && s.pause == []
    ensures err == None ==> StepRuns(cfg, link.world, exceptions, s, old(link.Now())) && link.Now() == AfterBoth(s, old(link.Now()))
    ensures err == None ==> s.Result() == result && waited == (s.second.Some? && cfg.delay > 0) && stats' == Tallied(stats, s)
    ensures forall e :: err == Some(e) ==> CutIs(cfg, link.world, exceptions, Cut(s, e), old(link.Now()))
  {
    ghost var repr := strategy.Repr();
    err, result, waited, stats', s := Act(link, cfg, exceptions, task, stats, made);
    strategy.Unmoved(repr);
  }

  lemma StepTells(cfg: ScanConfig, w: World, exceptions: bool, s: Step, from: Moment)
    requires StepRuns(cfg, w, exceptions, s, from)
    ensures s.Result().outcome == Success <==> s.Result().err == None
  {
  }

  /** Hands a result to the strategy; the link does not notice. */
  method LearnFor(strategy: Strategy, link: DeviceLink, cfg: ScanConfig, ghost exceptions: bool, task: ScanTask, result: TaskResult,
                  ghost performed: seq<Read>, ghost made: seq<Made>)
    requires strategy.Waiting(cfg, performed, task) && Logged(link, exceptions, made)
    requires link !in strategy.Repr() && link.rec !in strategy.Repr()
    modifies strategy.Repr()
    ensures strategy.Idle(cfg, performed + [Read(task, result.ToScan())]) && Logged(link, exceptions, made) && link.Now() == old(link.Now())
  {
    strategy.OnResult(cfg, performed, task, result.ToScan());
  }

  /** The wait between reads, unless a retry has waited already; the strategy does not notice. */
  method Pause(ghost strategy: Strategy, link: DeviceLink, cfg: ScanConfig, ghost exceptions: bool, waited: bool, ghost made: seq<Made>)
    returns (err: Option<Error>, ghost us: seq<Use>)
    requires link !in strategy.Repr() && Logged(link, exceptions, made)
    modifies link`clock
    ensures strategy.Now() == old(strategy.Now()) && Logged(link, exceptions, made) && link.Now() == AfterAll(old(link.Now()), us)
    ensures err == None ==> Rested(link.world, old(link.clock), us, !waited && cfg.delay > 0)
    ensures err.Some? ==> !waited && cfg.delay > 0 && Interrupts(link.world, old(link.clock), us, err.value)
  {
    ghost var repr := strategy.Repr();
    err, us := None, [];
    if !waited && cfg.delay > 0 {
      err, us := Wait(link, exceptions, made);
    }
    strategy.Unmoved(repr);
  }

  /** The step is cut short in its pause. */
  lemma PauseCuts(cfg: ScanConfig, w: World, exceptions: bool, s: Step, from: Moment, us: seq<Use>, err: Error)
    requires StepRuns(cfg, w, exceptions, s, from) && s.pause == [] && s.second == None && cfg.delay > 0
    requires Interrupts(w, AfterBoth(s, from).at, us, err)
    ensures CutIs(cfg, w, exceptions, Cut(s.(pause := us), err), from)
  {
    assert StepRuns(cfg, w, exceptions, s.(pause := us), from);
  }

  lemma PauseCompletes(cfg: ScanConfig, w: World, exceptions: bool, s: Step, from: Moment, us: seq<Use>)
    requires StepRuns(cfg, w, exceptions, s, from) && s.pause == []
    requires Rested(w, AfterBoth(s, from).at, us, s.second == None && cfg.delay > 0)
    ensures StepIs(cfg, w, exceptions, s.(pause := us), from)
  {
    assert StepRuns(cfg, w, exceptions, s.(pause := us), from);
  }

  /** The pause changes nothing else of a step. */
  lemma OnlyPause(s: Step, us: seq<Use>, from: Moment, stats: ScanStats)
    ensures var p := s.(pause := us);
            && p.Attempts() == s.Attempts() && p.AsRead() == s.AsRead() && Tallied(stats, p) == Tallied(stats, s)
            && AfterStep(p, from) == AfterAll(AfterBoth(s, from), us)
  {
  }

  lemma StepAndPause(cfg: ScanConfig, w: World, exceptions: bool, run: Run, s: Step, us: seq<Use>) returns (run': Run)
    requires Lawful(cfg, w, exceptions, run) && run.cut == None && |run.steps| < WorstCase(cfg)
    requires StepRuns(cfg, w, exceptions, s, EndOf(run.steps)) && s.pause == []
    requires Rested(w, AfterBoth(s, EndOf(run.steps)).at, us, s.second == None && cfg.delay > 0)
    ensures Lawful(cfg, w, exceptions, run') && run'.cut == None && |run'.steps| == |run.steps| + 1
    ensures run'.made == run.made + s.Attempts() && run'.performed == run.performed + [s.AsRead()]
    ensures StatsOf(run'.steps) == Tallied(StatsOf(run.steps), s) && EndOf(run'.steps) == AfterAll(AfterBoth(s, EndOf(run.steps)), us)
  {
    var p := s.(pause := us);
    PauseCompletes(cfg, w, exceptions, s, EndOf(run.steps), us);
    StepIsLawful(cfg, w, exceptions, run, p);
    OnlyPause(s, us, EndOf(run.steps), StatsOf(run.steps));
    run' := WithStep(run, p);
  }

  lemma StepAndCut(cfg: ScanConfig, w: World, exceptions: bool, run: Run, s: Step, us: seq<Use>, err: Error) returns (run': Run)
    requires Lawful(cfg, w, exceptions, run) && run.cut == None && |run.steps| < WorstCase(cfg)
    requires StepRuns(cfg, w, exceptions, s, EndOf(run.steps)) && s.pause == []
    requires s.second == None && cfg.delay > 0 && Interrupts(w, AfterBoth(s, EndOf(run.steps)).at, us, err)
    ensures Lawful(cfg, w, exceptions, run') && run'.made == run.made + s.Attempts()
    ensures run'.cut.Some? && run'.cut.value.err == err
  {
    var p := s.(pause := us);
    PauseCuts(cfg, w, exceptions, s, EndOf(run.steps), us, err);
    CutIsLawful(cfg, w, exceptions, run, Cut(p, err));
    OnlyPause(s, us, EndOf(run.steps), StatsOf(run.steps));
    run' := WithCut(run, Cut(p, err));
  }

  lemma StepAndWait(cfg: ScanConfig, w: World, exceptions: bool, run: Run, s: Step, us: seq<Use>, err: Option<Error>) returns (run': Run)
    requires Lawful(cfg, w, exceptions, run) && run.cut == None && |run.steps| < WorstCase(cfg)
    requires StepRuns(cfg, w, exceptions, s, EndOf(run.steps)) && s.pause == []
    requires err == None ==> Rested(w, AfterBoth(s, EndOf(run.steps)).at, us, s.second == None && cfg.delay > 0)
    requires err.Some? ==> s.second == None && cfg.delay > 0 && Interrupts(w, AfterBoth(s, EndOf(run.steps)).at, us, err.value)
    ensures Lawful(cfg, w, exceptions, run') && run'.made == run.made + s.Attempts()
    ensures match err
            case Some(e) => run'.cut.Some? && run'.cut.value.err == e
            case None =>
              && run'.cut == None && |run'.steps| == |run.steps| + 1 && run'.performed == run.performed + [s.AsRead()]
              && StatsOf(run'.steps) == Tallied(StatsOf(run.steps), s) && EndOf(run'.steps) == AfterAll(AfterBoth(s, EndOf(run.steps)), us)
  {
    if err.Some? {
      run' := StepAndCut(cfg, w, exceptions, run, s, us, err.value);
    } else {
      run' := StepAndPause(cfg, w, exceptions, run, s, us);
    }
  }

  /** One iteration of the loop, and its test for the next one. */
  method Round(strategy: Strategy, link: DeviceLink, cfg: ScanConfig, ghost exceptions: bool, stats: ScanStats, ghost run: Run)
    returns (err: Option<Error>, done: bool, stats': ScanStats, ghost run': Run)
    requires strategy.Idle(cfg, run.performed)
    requires Lawful(cfg, link.world, exceptions, run) && Logged(link, exceptions, run.made)
    requires Stands(link, run, None) && stats == StatsOf(run.steps)
    requires link !in strategy.Repr() && link.rec !in strategy.Repr()
    modifies strategy.Repr(), link`clock, link`open, link.rec
    ensures Lawful(cfg, link.world, exceptions, run') && Logged(link, exceptions, run'.made)
    ensures Stands(link, run', err) && (err.Some? ==> done) && (err == None ==> stats' == StatsOf(run'.steps))
    ensures err == None && done ==> Report(cfg, run'.performed)
    ensures !done ==> strategy.Idle(cfg, run'.performed) && |run'.steps| == |run.steps| + 1
  {
    StepCount(run.steps);
    var task := NextFor(strategy, link, cfg, exceptions, run.performed, run.made);
    if task == None {
      err, done, stats', run' := None, true, stats, run;
    } else {
      err, stats', run' := Turn(strategy, link, cfg, exceptions, task.value, stats, run);
      done := err.Some? || strategy.Finished();
      if err == None && done {
        strategy.FinishedReports(cfg, run'.performed);
      }
    }
  }

  /** The turn of one read: it is performed, the strategy learns its outcome, the loop waits. */
  method Turn(strategy: Strategy, link: DeviceLink, cfg: ScanConfig, ghost exceptions: bool, task: ScanTask, stats: ScanStats, ghost run: Run)
    returns (err: Option<Error>, stats': ScanStats, ghost run': Run)
    requires strategy.Waiting(cfg, run.performed, task) && InBounds(cfg, task) && |run.steps| < WorstCase(cfg)
    requires Lawful(cfg, link.world, exceptions, run) && Logged(link, exceptions, run.made)
    requires Stands(link, run, None) && stats == StatsOf(run.steps)
    requires link !in strategy.Repr() && link.rec !in strategy.Repr()
    modifies strategy.Repr(), link`clock, link`open, link.rec
    ensures Lawful(cfg, link.world, exceptions, run') && Logged(link, exceptions, run'.made)
    ensures Stands(link, run', err) && (err == None ==> stats' == StatsOf(run'.steps))
    ensures err == None ==> strategy.Idle(cfg, run'.performed) && |run'.steps| == |run.steps| + 1
  {
    var result, waited;
    ghost var s, us;
    err, result, waited, stats', s := ActFor(strategy, link, cfg, exceptions, task, stats, run.made);
    if err.Some? {
      CutIsLawful(cfg, link.world, exceptions, run, Cut(s, err.value));
      run' := WithCut(run, Cut(s, err.value));
    } else {
      err, us := Finish(strategy, link, cfg, exceptions, task, result, waited, run.performed, run.made + s.Attempts());
      run' := StepAndWait(cfg, link.world, exceptions, run, s, us, err);
    }
  }

  /** The rest of an iteration: the strategy learns the result, the loop waits. */
  method Finish(strategy: Strategy, link: DeviceLink, cfg: ScanConfig, ghost exceptions: bool, task: ScanTask, result: TaskResult, waited: bool,
                ghost performed: seq<Read>, ghost made: seq<Made>)
    returns (err: Option<Error>, ghost us: seq<Use>)
    requires strategy.Waiting(cfg, performed, task) && Logged(link, exceptions, made)
    requires link !in strategy.Repr() && link.rec !in strategy.Repr()
    modifies strategy.Repr(), link`clock
    ensures Logged(link, exceptions, made) && link.Now() == AfterAll(old(link.Now()), us)
    ensures strategy.Idle(cfg, performed + [Read(task, result.ToScan())])
    ensures err == None ==> Rested(link.world, old(link.clock), us, !waited && cfg.delay > 0)
    ensures err.Some? ==> !waited && cfg.delay > 0 && Interrupts(link.world, old(link.clock), us, err.value)
  {
    LearnFor(strategy, link, cfg, exceptions, task, result, performed, made);
    err, us := Pause(strategy, link, cfg, exceptions, waited, made);
  }

  /** The loop, from a fresh strategy and recorder and a link just opened. */
  method Loop(strategy: Strategy, link: DeviceLink, cfg: ScanConfig, ghost exceptions: bool)
    returns (err: Option<Error>, stats: ScanStats, ghost run: Run)
    requires strategy.Idle(cfg, []) && Logged(link, exceptions, []) && link.Now() == Start()
    requires link !in strategy.Repr() && link.rec !in strategy.Repr()
    modifies strategy.Repr(), link`clock, link`open, link.rec
    ensures Lawful(cfg, link.world, exceptions, run) && Logged(link, exceptions, run.made) && Stands(link, run, err)
    ensures err == None ==> Report(cfg, run.performed) && stats == StatsOf(run.steps)
  {
    err, stats, run := None, ScanStats(0, 0, 0, 0, 0, 0, 0, 0), Run([], None, [], []);
    NothingYet(cfg, link.world, exceptions, run);
    var done := strategy.Finished();
    if done {
      strategy.FinishedReports(cfg, []);
    }
    ghost var worst := WorstCase(cfg);
    while !done
      invariant link.rec == old(link.rec) && |run.steps| <= worst
      invariant Lawful(cfg, link.world, exceptions, run) && Logged(link, exceptions, run.made)
      invariant Stands(link, run, err) && (err.Some? ==> done) && (err == None ==> stats == StatsOf(run.steps))
      invariant err == None && done ==> Report(cfg, run.performed)
      invariant !done ==> strategy.Idle(cfg, run.performed)
      decreases if done then 0 else 1 + worst - |run.steps|
    {
      err, done, stats, run := Round(strategy, link, cfg, exceptions, stats, run);
    }
  }

  /** Runs the loop on a link just opened, recording. */
  method Record(link: DeviceLink, rec: Recorder, cfg: ScanConfig) returns (err: Option<Error>, stats: ScanStats, ghost run: Run)
    requires rec.Valid() && rec.log == [] && rec.nextTok == 0 && !rec.closed && link.stream == 1 && link.Now() == Start()
    modifies link, rec
    ensures rec.Valid() && rec.file == FileOf(rec.exceptions, run) && Scans(cfg, link.world, rec.exceptions, run)
    ensures err == if run.cut.Some? then Some(run.cut.value.err) else None
    ensures err == None ==> stats == StatsOf(run.steps)
  {
    link.Record(rec);
    assert Records([], rec.log, 0, 1, []);
    var strategy := NewScanStrategy(cfg);
    err, stats, run := Loop(strategy, link, cfg, rec.exceptions);
    FileOfRun(rec.log, run.made);
  }

  /** What a run leaves in the capture file. */
  function FileOf(exceptions: bool, run: Run): seq<Sample> {
    FileAfter(exceptions, AttemptsOf(1, run.made))
  }

  lemma FileOfRun(log: seq<Op>, made: seq<Made>)
    requires Records([], log, 0, 1, made)
    ensures Attempts(log) == AttemptsOf(1, made)
  {
    EachIsCommittedOnce([], log, 0, 1, made);
    assert Attempts([]) + AttemptsOf(1, made) == AttemptsOf(1, made);
  }

  /** The error of a scan that began: that of the step that was cut short, or else that of
      closing the capture. */
  function ScanError(w: World, run: Run): Option<Error> {
    if run.cut.Some? then Some(run.cut.value.err)
    else match w.close case Some(f) => Some(CloseFailed(f)) case None => None
  }

  /** Scans the configured range and records the answers. For any world: the scan ends; it
      returns exactly the errors of the first dial, of creating the capture, of the step that
      was cut short, and of closing the capture; without a step cut short the summary adds up
      and the algorithm's report holds; the file holds exactly what the attempts that were
      made put there. */
  method ScanAndRecord(cfg: ScanConfig, exceptions: bool, world: World)
    returns (err: Option<Error>, summary: Option<ScanStats>, rec: Recorder?, ghost run: Run)
    ensures world.dial(0).Some? ==> err == Some(DialFailed(world.dial(0).value)) && rec == null
    ensures world.dial(0) == None && world.create.Some? ==> err == Some(CreateFailed(world.create.value)) && rec == null
    ensures world.dial(0) == None && world.create == None ==>
              && rec != null && fresh(rec) && rec.Valid() && rec.closed && rec.exceptions == exceptions
              && Scans(cfg, world, exceptions, run) && rec.file == FileOf(exceptions, run) && err == ScanError(world, run)
    ensures err == None ==> summary == Some(StatsOf(run.steps))
  {
    summary, rec, run := None, null, Run([], None, [], []);
    var link := new DeviceLink(world, 1);
    err := link.Reconnect();
    if err.Some? {
      return;
    }
    if world.create.Some? {
      link.Close();
      return Some(CreateFailed(world.create.value)), None, null, run;
    }
    rec := new Recorder(exceptions);
    var stats;
    err, stats, run := Record(link, rec, cfg);
    if err == None {
      summary := Some(stats);
    }
    rec.Close();
    if world.close.Some? && err == None {
      err := Some(CloseFailed(world.close.value));
    }
    link.Close();
  }

  // ----- what a scan guarantees -----

  /** Each step begins at the moment at which the one before ended. It makes at most two
      attempts, and a second one only after a timeout or a transport error, if configured. */
  lemma StepInTurn(cfg: ScanConfig, w: World, exceptions: bool, steps: seq<Step>, i: nat)
    requires StepsAre(cfg, w, exceptions, steps) && i < |steps|
    ensures StepIs(cfg, w, exceptions, steps[i], EndOf(steps[..i])) && EndOf(steps[..i + 1]) == AfterStep(steps[i], EndOf(steps[..i]))
    ensures |steps[i].Attempts()| <= (if steps[i].second.Some? then 2 else 1)
    ensures steps[i].second.Some? ==> cfg.retryOnTimeoutTransport > 0 && steps[i].first.result.outcome in {Timeout, Transport}
  {
    FrontOfFront(steps, i + 1, i);
    assert StepAt(cfg, w, exceptions, steps, i);
    AttemptsOfStep(cfg, w, exceptions, steps[i], EndOf(steps[..i]));
  }

  lemma AttemptsOfStep(cfg: ScanConfig, w: World, exceptions: bool, s: Step, from: Moment)
    requires StepIs(cfg, w, exceptions, s, from)
    ensures |s.Attempts()| <= (if s.second.Some? then 2 else 1)
    ensures s.second.Some? ==> cfg.retryOnTimeoutTransport > 0 && s.first.result.outcome in {Timeout, Transport}
  {
  }

  /** No more attempts reach the device than the summary counts requests. */
  lemma {:induction false} AttemptsAreCounted(cfg: ScanConfig, w: World, exceptions: bool, steps: seq<Step>)
    requires StepsAre(cfg, w, exceptions, steps)
    ensures |MadeOf(steps)| <= |steps| + Retries(steps) <= 2 * |steps|
    ensures cfg.retryOnTimeoutTransport == 0 ==> Retries(steps) == 0
  {
    if steps != [] {
      FrontIsSteps(cfg, w, exceptions, steps, |steps| - 1);
      AttemptsAreCounted(cfg, w, exceptions, steps[..|steps| - 1]);
      assert StepAt(cfg, w, exceptions, steps, |steps| - 1);
      AttemptsOfStep(cfg, w, exceptions, steps[|steps| - 1], EndOf(steps[..|steps| - 1]));
    }
  }

  lemma {:induction false} ReadHasStep(steps: seq<Step>, r: Read) returns (i: nat)
    requires r in PerformedOf(steps)
    ensures i < |steps| && steps[i].AsRead() == r
  {
    i := |steps| - 1;
    if steps[i].AsRead() != r {
      i := ReadHasStep(steps[..i], r);
    }
  }

  /** Every read was one the algorithm may ask for. */
  lemma ReadsAreInBounds(cfg: ScanConfig, w: World, exceptions: bool, steps: seq<Step>, r: Read)
    requires StepsAre(cfg, w, exceptions, steps) && r in PerformedOf(steps)
    ensures InBounds(cfg, r.task)
  {
    var i := ReadHasStep(steps, r);
    StepInTurn(cfg, w, exceptions, steps, i);
  }

  // ----- worlds in which only the device fails -----

  /** A number of registers a device can be asked for. */
  predicate FitsRequest(t: ScanTask) {
    1 <= t.count <= MAX_BLOCK_SIZE
  }

  /** Nothing but the device's answers can fail. */
  ghost predicate Sound(w: World) {
    && w.create == None && w.close == None
    && (forall n :: w.sleep(n) == None) && (forall n :: w.dial(n) == None)
    && (forall n :: w.flush(n) != FlushFailed)
    && (forall n, t :: FitsRequest(t) ==> Savable(w.read(n, t).exchanges, w.room(n)))
  }

  ghost predicate Readable(t: ScanTask, R: set<int>) {
    forall a :: t.Holds(a) ==> a in R
  }

  /** The device answers a read at any time exactly when all its addresses are readable;
      nothing is said of reads of no register or of more than 125. */
  ghost predicate Honest(w: World, R: set<int>) {
    Sound(w) && forall n, t :: FitsRequest(t) ==> (w.read(n, t).err == None <==> Readable(t, R))
  }

  lemma InBoundsFits(cfg: ScanConfig, t: ScanTask)
    requires InBounds(cfg, t)
    ensures FitsRequest(t)
  {
  }

  /** In such a world a performance is one attempt at one moment, which decides its result. */
  lemma SoundTry(cfg: ScanConfig, w: World, exceptions: bool, task: ScanTask, t: Try, from: Moment) returns (n: nat)
    requires Performed(cfg, w, exceptions, task, t, from) && Sound(w) && FitsRequest(task)
    ensures MadesOf(t.uses) == [MadeAt(w, Caller(w, task), n)]
    ensures t.result.err == match w.read(n, task).err case None => None case Some(f) => Some(ReadFailed(f))
    ensures !Lost(Some(exceptions), MadesOf(t.uses)[0])
  {
    var c := SettingOf(cfg, w, exceptions, task, from);
    forall u | u in t.uses && !u.Asked? ensures u.fault == None {
      var i :| 0 <= i < |t.uses| && t.uses[i] == u;
      UsesTurnOut(w, c, t.uses, i);
    }
    AttemptDecides(w, c, t.uses, t.result.err);
    var m := MadesOf(t.uses)[0];
    AttemptHasMoment(w, c, t.uses, m);
    n :| c.from.at <= n < c.from.at + |t.uses| && m == MadeAt(w, c.call, n);
    assert Savable(w.read(n, task).exchanges, w.room(n));
  }

  /** Then the scan returns no error. */
  lemma SoundScansConclude(cfg: ScanConfig, w: World, exceptions: bool, run: Run)
    requires Lawful(cfg, w, exceptions, run) && Sound(w)
    ensures run.cut == None && ScanError(w, run) == None
  {
    if run.cut.Some? {
      SoundIsNotCut(cfg, w, exceptions, run.cut.value, EndOf(run.steps));
    }
  }

  lemma SoundIsNotCut(cfg: ScanConfig, w: World, exceptions: bool, c: Cut, from: Moment)
    requires Sound(w)
    ensures !CutIs(cfg, w, exceptions, c, from)
  {
    var s := c.step;
    if CutIs(cfg, w, exceptions, c, from) {
      SoundIsWritten(cfg, w, exceptions, s.task, s.first, from);
    }
  }

  lemma SoundIsWritten(cfg: ScanConfig, w: World, exceptions: bool, task: ScanTask, t: Try, from: Moment)
    requires Performed(cfg, w, exceptions, task, t, from) && Sound(w) && InBounds(cfg, task)
    ensures !NotWritten(t.result)
  {
    InBoundsFits(cfg, task);
    var n := SoundTry(cfg, w, exceptions, task, t, from);
  }

  /** A step against an honest device succeeds exactly if the read is readable. */
  lemma StepIsHonest(cfg: ScanConfig, w: World, exceptions: bool, R: set<int>, s: Step, from: Moment)
    requires StepIs(cfg, w, exceptions, s, from) && Honest(w, R)
    ensures s.AsRead().result.success <==> Readable(s.task, R)
  {
    InBoundsFits(cfg, s.task);
    if s.second.Some? {
      var n := SoundTry(cfg, w, exceptions, s.task, s.second.value, AfterWait(s, from));
    } else {
      var n := SoundTry(cfg, w, exceptions, s.task, s.first, from);
    }
  }

  /** So the scan of an honest device is one of an interval-readable one. */
  lemma HonestIsIntervalReadable(cfg: ScanConfig, w: World, exceptions: bool, R: set<int>, steps: seq<Step>)
    requires StepsAre(cfg, w, exceptions, steps) && Honest(w, R)
    ensures IntervalReadable(PerformedOf(steps), R)
  {
    forall r | r in PerformedOf(steps) ensures r.result.success <==> Readable(r.task, R) {
      var i := ReadHasStep(steps, r);
      assert StepAt(cfg, w, exceptions, steps, i);
      StepIsHonest(cfg, w, exceptions, R, steps[i], EndOf(steps[..i]));
    }
  }

  /** Safe (unless its length wraps), smart and deep miss nothing: on an interval-readable
      device the capture is exactly the readable part of the range. */
  lemma ScanMissesNothing(cfg: ScanConfig, h: seq<Read>, R: set<int>, a: int)
    requires Report(cfg, h) && IntervalReadable(h, R) && cfg.startAddress <= a <= cfg.endAddress
    requires cfg.algo in {Algorithm.Safe, Algorithm.Smart, Algorithm.Deep} && !(cfg.algo == Algorithm.Safe && Safe.LengthWraps(cfg))
    ensures Captured(h, a) <==> a in R
  {
    match cfg.algo
    case Safe => Safe.ReportIsComplete(cfg, h, R, a);
    case Smart => Smart.ReportIsComplete(cfg, h, R, a);
    case Deep => Deep.ReportIsComplete(cfg, h, R, a);
  }

}
