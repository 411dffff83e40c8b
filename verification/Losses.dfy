/** When an error-free scan has recorded all it read (internal/modbus/client.go:612-632): the
    loop gives up when the capture cannot be written, but asks only about the first
    performance of a read. */
module Losses {
  import opened Seqs
  import opened ScanTypes
  import opened Capfile
  import opened Calls
  import opened Exchange
  import opened Strategies
  import opened Runs
  import opened Scan
  import Safe
  import Smart
  import Deep
  import Linear
  import Stepped
  import Boundary
  import SunSpec

  /** The file holds all reads of all kept attempts, and nothing else. */
  ghost predicate Complete(exceptions: bool, run: Run) {
    FileOf(exceptions, run) == KeptReads(exceptions, AttemptsOf(1, run.made))
  }

  /** An attempt that is kept is saved whole. */
  ghost predicate IsSaved(exceptions: bool, m: Made) {
    Keeps(exceptions, OutcomeOf(m.answer.err)) ==> Savable(m.answer.exchanges, m.room)
  }

  /** All attempts of second performances are saved. */
  ghost predicate RetriesAreSaved(exceptions: bool, steps: seq<Step>) {
    forall i, m :: 0 <= i < |steps| && steps[i].second.Some? && m in MadesOf(steps[i].second.value.uses) ==> IsSaved(exceptions, m)
  }

  // ----- an error-free scan loses only what a second performance read -----

  ghost predicate AllSaved(exceptions: bool, made: seq<Made>) {
    forall m :: m in made ==> IsSaved(exceptions, m)
  }

  ghost predicate AllSavable(exceptions: bool, attempts: seq<Attempt>) {
    forall a :: a in attempts && Keeps(exceptions, a.outcome) ==> Savable(a.exchanges, a.room)
  }

  lemma {:induction false} AttemptsAreOf(stream: U32, made: seq<Made>, exceptions: bool)
    ensures AllSaved(exceptions, made) <==> AllSavable(exceptions, AttemptsOf(stream, made))
  {
    if made != [] {
      var front, m := made[..|made| - 1], made[|made| - 1];
      AttemptsAreOf(stream, front, exceptions);
      Snoc(made);
      OneMoreSaved(exceptions, front, m, AttemptsOf(stream, front), Exchange.AttemptOf(stream, m));
    }
  }

  lemma OneMoreSaved(exceptions: bool, made: seq<Made>, m: Made, attempts: seq<Attempt>, a: Attempt)
    ensures AllSaved(exceptions, made + [m]) <==> AllSaved(exceptions, made) && IsSaved(exceptions, m)
    ensures AllSavable(exceptions, attempts + [a]) <==>
            AllSavable(exceptions, attempts) && (Keeps(exceptions, a.outcome) ==> Savable(a.exchanges, a.room))
  {
    forall x ensures x in made + [m] <==> x in made || x == m {
    }
    forall x ensures x in attempts + [a] <==> x in attempts || x == a {
    }
  }

  lemma {:induction false} MadeHasStep(steps: seq<Step>, m: Made) returns (i: nat)
    requires m in MadeOf(steps)
    ensures i < |steps| && m in steps[i].Attempts()
  {
    i := |steps| - 1;
    if m !in steps[i].Attempts() {
      i := MadeHasStep(steps[..i], m);
    }
  }

  lemma {:induction false} StepHasMade(steps: seq<Step>, i: nat, m: Made)
    requires i < |steps| && m in steps[i].Attempts()
    ensures m in MadeOf(steps)
  {
    if i < |steps| - 1 {
      StepHasMade(steps[..|steps| - 1], i, m);
    }
  }

  /** The scan goes on only if the first performance of a read was saved. */
  lemma FirstIsSaved(cfg: ScanConfig, w: World, exceptions: bool, s: Step, from: Moment, m: Made)
    requires StepIs(cfg, w, exceptions, s, from) && m in MadesOf(s.first.uses)
    ensures IsSaved(exceptions, m)
  {
    var c := SettingOf(cfg, w, exceptions, s.task, from);
    if Lost(c.keeping, m) {
      LostIsReported(w, c, s.first.uses, m, s.first.result.err);
    }
  }

  /** The file of a scan that was not cut short is complete exactly if everything a second
      performance of a read brought in could be saved. */
  lemma CompleteIff(cfg: ScanConfig, w: World, exceptions: bool, run: Run)
    requires Lawful(cfg, w, exceptions, run) && run.cut == None
    ensures Complete(exceptions, run) <==> RetriesAreSaved(exceptions, run.steps)
  {
    NothingJoined(MadeOf(run.steps));
    AllOrNothing(exceptions, AttemptsOf(1, run.made));
    AttemptsAreOf(1, run.made, exceptions);
    if RetriesAreSaved(exceptions, run.steps) {
      forall m | m in run.made ensures IsSaved(exceptions, m) {
        var i := MadeHasStep(run.steps, m);
        if m in MadesOf(run.steps[i].first.uses) {
          assert StepAt(cfg, w, exceptions, run.steps, i);
          FirstIsSaved(cfg, w, exceptions, run.steps[i], EndOf(run.steps[..i]), m);
        }
      }
    }
    if AllSaved(exceptions, run.made) {
      forall i, m | 0 <= i < |run.steps| && run.steps[i].second.Some? && m in MadesOf(run.steps[i].second.value.uses)
        ensures IsSaved(exceptions, m)
      {
        StepHasMade(run.steps, i, m);
      }
    }
  }

  /** Without retries an error-free scan has recorded everything, whatever else fails. */
  lemma CompleteWithoutRetries(cfg: ScanConfig, w: World, exceptions: bool, run: Run)
    requires Lawful(cfg, w, exceptions, run) && run.cut == None && cfg.retryOnTimeoutTransport == 0
    ensures Complete(exceptions, run)
  {
    forall i | 0 <= i < |run.steps| ensures run.steps[i].second == None {
      StepInTurn(cfg, w, exceptions, run.steps, i);
    }
    CompleteIff(cfg, w, exceptions, run);
  }

  // ----- a world in which every retry is lost -----

  const TIMED_OUT := Fault(None, false, true, false, false)
  const DISK_FULL := Fault(None, false, false, false, false)

  /** The moments at which first performances ask: steps take two moments, or five with their
      waits. */
  predicate AsksFirst(cfg: ScanConfig, n: nat) {
    if cfg.delay > 0 then n % 5 == 2 else n % 2 == 1
  }

  /** The moment after k steps. */
  function AfterSteps(cfg: ScanConfig, k: nat): Moment {
    Moment(1 + if cfg.delay > 0 then 5 * k else 2 * k, true)
  }

  lemma LossyMoments(cfg: ScanConfig, k: nat)
    ensures var at := AfterSteps(cfg, k).at;
            if cfg.delay > 0 then AsksFirst(cfg, at + 1) && !AsksFirst(cfg, at + 4) else AsksFirst(cfg, at) && !AsksFirst(cfg, at + 1)
  {
  }

  /** Every first performance times out; every second one is answered, when the disk is full. */
  function Lossy(cfg: ScanConfig): World {
    World(
      None, None, _ => None, _ => None,
      (n: nat, t: ScanTask) => if AsksFirst(cfg, n) then Answer(Some(TIMED_OUT), [], []) else Answer(None, [0, 0], [ReadOfOne(0)]),
      _ => 0, _ => NotDue, _ => DISK_FULL)
  }

  lemma NotSavable()
    ensures !Savable([ReadOfOne(0)], 0)
  {
    assert SamplesFrom([ReadOfOne(0)], 0, 0) == [SampleOf(ReadOfOne(0), 0)] + SamplesFrom([ReadOfOne(0)], 0, 1);
  }

  lemma LossyGoesOn(cfg: ScanConfig, exceptions: bool, task: ScanTask, t: Try, from: Moment)
    requires Performed(cfg, Lossy(cfg), exceptions, task, t, from) && cfg.delay > 0 && t.uses != [] && t.uses[0] == Slept(None)
    ensures |t.uses| > 1
  {
    assert t.uses[..0] == [];
  }

  /** A performance that begins with an open link is a wait, if any, and one attempt. */
  lemma LossyUses(cfg: ScanConfig, exceptions: bool, task: ScanTask, t: Try, from: Moment)
    requires Performed(cfg, Lossy(cfg), exceptions, task, t, from) && from.open
    ensures var at := from.at + if cfg.delay > 0 then 1 else 0;
            t.uses == (if cfg.delay > 0 then [Slept(None)] else []) + [Asked(MadeAt(Lossy(cfg), Caller(Lossy(cfg), task), at))]
  {
    var w := Lossy(cfg);
    var c, us := SettingOf(cfg, w, exceptions, task, from), t.uses;
    assert us != [];
    UsesAreAllowed(w, c, us, 0);
    UsesTurnOut(w, c, us, 0);
    assert us[..0] == [];
    if cfg.delay == 0 {
      if |us| > 1 {
        CoursePersists(w, c, us, 0);
      }
    } else {
      LossyGoesOn(cfg, exceptions, task, t, from);
      assert us[..1] == [us[0]];
      UsesAreAllowed(w, c, us, 1);
      UsesTurnOut(w, c, us, 1);
      if |us| > 2 {
        CoursePersists(w, c, us, 1);
      }
    }
  }

  /** It times out when it is a first one; otherwise its answer is lost, though kept. */
  lemma LossyTry(cfg: ScanConfig, exceptions: bool, task: ScanTask, t: Try, from: Moment)
    requires Performed(cfg, Lossy(cfg), exceptions, task, t, from) && from.open
    ensures var at := from.at + if cfg.delay > 0 then 1 else 0;
            && AfterAll(from, t.uses) == Moment(at + 1, true)
            && (if AsksFirst(cfg, at) then t.result.err == Some(ReadFailed(TIMED_OUT)) && t.result.outcome == Timeout
                else exists m :: MadesOf(t.uses) == [m] && !IsSaved(exceptions, m))
  {
    var w := Lossy(cfg);
    var at := from.at + if cfg.delay > 0 then 1 else 0;
    var c, m := SettingOf(cfg, w, exceptions, task, from), MadeAt(w, Caller(w, task), at);
    LossyUses(cfg, exceptions, task, t, from);
    if cfg.delay > 0 {
      OneUse(w, c, [], Slept(None));
      OneUseReturns(c, [Slept(None)], Asked(m), t.result.err);
      assert [Slept(None)] + [Asked(m)] == t.uses;
    } else {
      OneUseReturns(c, [], Asked(m), t.result.err);
    }
    NotSavable();
  }

  lemma AfterRest(w: World, m: Moment, us: seq<Use>, due: bool)
    requires Rested(w, m.at, us, due)
    ensures AfterAll(m, us) == Moment(m.at + if due then 1 else 0, m.open)
  {
    if due {
      assert us[..0] == [];
    }
  }

  /** Each step is made of a first performance that times out and a second one that is lost. */
  lemma LossyStep(cfg: ScanConfig, exceptions: bool, s: Step, from: Moment, k: nat)
    requires StepRuns(cfg, Lossy(cfg), exceptions, s, from) && from == AfterSteps(cfg, k)
    requires cfg.retryOnTimeoutTransport > 0
    ensures AfterBoth(s, from) == AfterSteps(cfg, k + 1) && s.second.Some?
    ensures exists m :: MadesOf(s.second.value.uses) == [m] && !IsSaved(exceptions, m)
  {
    LossyMoments(cfg, k);
    LossyTry(cfg, exceptions, s.task, s.first, from);
    AfterRest(Lossy(cfg), AfterFirst(s, from), s.wait, cfg.delay > 0);
    LossyTry(cfg, exceptions, s.task, s.second.value, AfterWait(s, from));
  }

  /** The scan is never cut short. */
  lemma LossyIsNotCut(cfg: ScanConfig, exceptions: bool, c: Cut, from: Moment, k: nat)
    requires from == AfterSteps(cfg, k)
    ensures !CutIs(cfg, Lossy(cfg), exceptions, c, from)
  {
    if CutIs(cfg, Lossy(cfg), exceptions, c, from) {
      FirstTimesOut(cfg, exceptions, c.step.task, c.step.first, from, k);
    }
  }

  lemma FirstTimesOut(cfg: ScanConfig, exceptions: bool, task: ScanTask, t: Try, from: Moment, k: nat)
    requires Performed(cfg, Lossy(cfg), exceptions, task, t, from) && from == AfterSteps(cfg, k)
    ensures !NotWritten(t.result)
  {
    LossyMoments(cfg, k);
    LossyTry(cfg, exceptions, task, t, from);
  }

  lemma {:induction false} LossySteps(cfg: ScanConfig, w: World, exceptions: bool, steps: seq<Step>)
    requires w == Lossy(cfg) && StepsAre(cfg, w, exceptions, steps) && cfg.retryOnTimeoutTransport > 0
    ensures EndOf(steps) == AfterSteps(cfg, |steps|)
  {
    if steps != [] {
      var front, s := steps[..|steps| - 1], steps[|steps| - 1];
      FrontIsSteps(cfg, w, exceptions, steps, |front|);
      LossySteps(cfg, w, exceptions, front);
      assert StepAt(cfg, w, exceptions, steps, |front|);
      LossyStep(cfg, exceptions, s, EndOf(front), |front|);
      AfterRest(w, AfterBoth(s, EndOf(front)), s.pause, false);
    }
  }

  /** A scan of this world returns no error, and its file lacks what it read, if it read
      anything. */
  lemma LossyLoses(cfg: ScanConfig, exceptions: bool, run: Run)
    requires Lawful(cfg, Lossy(cfg), exceptions, run) && cfg.retryOnTimeoutTransport > 0
    ensures run.cut == None && ScanError(Lossy(cfg), run) == None
    ensures run.steps != [] ==> !Complete(exceptions, run)
  {
    var w, steps := Lossy(cfg), run.steps;
    LossySteps(cfg, w, exceptions, steps);
    if run.cut.Some? {
      LossyIsNotCut(cfg, exceptions, run.cut.value, EndOf(steps), |steps|);
    }
    if steps != [] {
      StepInTurn(cfg, w, exceptions, steps, 0);
      assert steps[..0] == [];
      LossyStep(cfg, exceptions, steps[0], Start(), 0);
      var m :| MadesOf(steps[0].second.value.uses) == [m] && !IsSaved(exceptions, m);
      assert m in MadesOf(steps[0].second.value.uses);
      CompleteIff(cfg, w, exceptions, run);
    }
  }

  // ----- the exact condition -----

  /** The algorithm reads nothing at all with this configuration. */
  predicate AsksNothing(cfg: ScanConfig) {
    match cfg.algo
    case Safe => cfg.startAddress > cfg.endAddress || Safe.LengthWraps(cfg)
    case Smart => cfg.startAddress > cfg.endAddress
    case Deep => cfg.startAddress > cfg.endAddress
    case Linear => cfg.startAddress > cfg.endAddress
    case Stepped => Stepped.Steps(cfg) == 0
    case Boundary => !Boundary.SeedFits(cfg)
    case SunSpec => cfg.sunSpecBase > 0 && cfg.sunSpecMaxSpan == 1
  }

  lemma SmartAsks(cfg: ScanConfig, h: seq<Read>)
    requires Smart.Report(cfg, h) && cfg.startAddress <= cfg.endAddress
    ensures h != []
  {
    Smart.ReportSettlesRange(cfg, h, cfg.startAddress);
  }

  lemma DeepAsks(cfg: ScanConfig, h: seq<Read>)
    requires Deep.Report(cfg, h)
    ensures h == [] <==> cfg.startAddress > cfg.endAddress
  {
    var k, plan :| 0 <= k <= |h| && Smart.Report(cfg, h[..k]) && Deep.Plan(cfg, h[..k], plan) && Asks(h[k..], plan);
    if cfg.startAddress <= cfg.endAddress {
      SmartAsks(cfg, h[..k]);
    } else {
      Smart.ReportCost(cfg, h[..k]);
      assert h[..k] == [];
      Deep.NoFailureNoPlan(cfg, h[..k], plan);
      assert h == h[..k] + h[k..];
    }
  }

  lemma SteppedAsks(cfg: ScanConfig, h: seq<Read>)
    requires Stepped.Report(cfg, h) && Stepped.Steps(cfg) > 0
    ensures h != []
  {
    var positions: seq<U16>, vs: seq<Stepped.Visit> :| Stepped.PositionsOf(cfg, positions) && |vs| == |positions| && Stepped.Visits(cfg, positions, vs) && h == Stepped.Flatten(vs);
    assert Stepped.Grid(cfg, 0) == cfg.startAddress;
    assert Stepped.IsPosition(cfg, cfg.startAddress);
    assert cfg.startAddress in positions;
    VisitsAsk(cfg, positions, vs);
  }

  lemma VisitsAsk(cfg: ScanConfig, positions: seq<U16>, vs: seq<Stepped.Visit>)
    requires Stepped.Visits(cfg, positions, vs) && vs != [] && cfg.startAddress <= cfg.endAddress
    ensures Stepped.Flatten(vs) != []
  {
    var v := vs[|vs| - 1];
    assert Stepped.Segment(cfg, positions[|vs| - 1], v.probes, v.expansion);
    SomeProbe(cfg, positions[|vs| - 1]);
  }

  lemma SomeProbe(cfg: ScanConfig, pos: U16)
    requires cfg.startAddress <= cfg.endAddress
    ensures Stepped.ProbeTasks(cfg, pos) != []
  {
    var centers := Stepped.ProbeCenters(cfg, pos);
    var last := centers[|centers| - 1];
    assert last <= Stepped.MaxAddr(cfg);
    assert ScanTask(last, 1) in Stepped.TasksAt(last, Stepped.MaxAddr(cfg));
  }

  /** A scan is empty exactly with such a configuration. */
  lemma AsksNothingIff(cfg: ScanConfig, h: seq<Read>)
    requires Report(cfg, h) && |h| <= WorstCase(cfg)
    ensures h == [] <==> AsksNothing(cfg)
  {
    match cfg.algo
    case Safe =>
      if !AsksNothing(cfg) {
        assert Settled(h, cfg.startAddress);
      }
    case Smart =>
      if !AsksNothing(cfg) {
        SmartAsks(cfg, h);
      }
    case Deep => DeepAsks(cfg, h);
    case Linear =>
    case Stepped =>
      if !AsksNothing(cfg) {
        SteppedAsks(cfg, h);
      }
    case Boundary =>
    case SunSpec => SunSpec.ReadsNothingIff(cfg, h);
  }

  /** All error-free scans of cfg are complete, in every world. */
  ghost predicate NeverLoses(cfg: ScanConfig, exceptions: bool) {
    forall w: World, run: Run :: Scans(cfg, w, exceptions, run) && ScanError(w, run) == None ==> Complete(exceptions, run)
  }

  /** That holds exactly without retries, or if the scan reads nothing. To see the other
      direction, scan the lossy world. */
  method NeverLosesIff(cfg: ScanConfig, exceptions: bool)
    ensures NeverLoses(cfg, exceptions) <==> cfg.retryOnTimeoutTransport == 0 || AsksNothing(cfg)
  {
    forall w: World, run: Run | Scans(cfg, w, exceptions, run) && ScanError(w, run) == None && (cfg.retryOnTimeoutTransport == 0 || AsksNothing(cfg))
      ensures Complete(exceptions, run)
    {
      if cfg.retryOnTimeoutTransport == 0 {
        CompleteWithoutRetries(cfg, w, exceptions, run);
      } else {
        StepCount(run.steps);
        AsksNothingIff(cfg, run.performed);
        CompleteIff(cfg, w, exceptions, run);
      }
    }
    if cfg.retryOnTimeoutTransport > 0 && !AsksNothing(cfg) {
      var err, summary, rec;
      ghost var run;
      err, summary, rec, run := ScanAndRecord(cfg, exceptions, Lossy(cfg));
      LossyLoses(cfg, exceptions, run);
      StepCount(run.steps);
      AsksNothingIff(cfg, run.performed);
      assert !Complete(exceptions, run);
    }
  }
}
