/** The seven scan strategies behind the interface the scan loop drives
    (internal/modbus/scan_algo.go:90-119). */
module Strategies {
  import opened ScanTypes
  import Safe
  import Smart
  import Deep
  import Stepped
  import Linear
  import Boundary
  import SunSpec

  /** What a finished run of the configured algorithm guarantees about its reads. */
  ghost predicate Report(cfg: ScanConfig, h: seq<Read>) {
    match cfg.algo
    case Safe => Safe.Report(cfg, h)
    case Smart => Smart.Report(cfg, h)
    case Deep => Deep.Report(cfg, h)
    case Stepped => Stepped.Report(cfg, h)
    case Linear => Linear.Report(cfg, h)
    case Boundary => Boundary.Report(cfg, h)
    case SunSpec => SunSpec.Report(cfg, h)
  }

  /** The most reads a run makes, whatever the device answers. */
  function WorstCase(cfg: ScanConfig): nat {
    match cfg.algo
    case Safe => Safe.WorstCase(cfg)
    case Smart => Smart.WorstCase(cfg)
    case Deep => Deep.WorstCase(cfg)
    case Stepped => Stepped.WorstCase(cfg)
    case Linear => Linear.WorstCase(cfg)
    case Boundary => Boundary.WorstCase(cfg)
    case SunSpec => SunSpec.WorstCase(cfg)
  }

  /** The reads the algorithm may ask for. */
  predicate InBounds(cfg: ScanConfig, t: ScanTask) {
    match cfg.algo
    case Stepped => t.Inside(Stepped.MinAddr(cfg), Stepped.MaxAddr(cfg))
    case SunSpec => SunSpec.SunSpecStrategy.Askable(t)
    case _ => t.Inside(cfg.startAddress, cfg.endAddress)
  }

  /** A strategy as its driver sees it: in order, for which run, with these reads performed
      and this one awaited. */
  datatype Session = Session(valid: bool, cfg: ScanConfig, trace: seq<Read>, pending: Option<ScanTask>)

  datatype Strategy =
    | SafeRun(safe: Safe.SafeStrategy)
    | SmartRun(smart: Smart.SmartStrategy)
    | DeepRun(deep: Deep.DeepStrategy)
    | SteppedRun(stepped: Stepped.SteppedStrategy)
    | LinearRun(linear: Linear.LinearStrategy)
    | BoundaryRun(boundary: Boundary.BoundaryStrategy)
    | SunSpecRun(sunspec: SunSpec.SunSpecStrategy)
  {
    function Repr(): set<object> {
      match this
      case SafeRun(s) => {s}
      case SmartRun(s) => {s}
      case DeepRun(s) => {s, s.smart}
      case SteppedRun(s) => {s}
      case LinearRun(s) => {s}
      case BoundaryRun(s) => {s}
      case SunSpecRun(s) => {s}
    }

    function Cfg(): ScanConfig {
      match this
      case SafeRun(s) => s.cfg
      case SmartRun(s) => s.cfg
      case DeepRun(s) => s.cfg
      case SteppedRun(s) => s.cfg
      case LinearRun(s) => s.cfg
      case BoundaryRun(s) => s.cfg
      case SunSpecRun(s) => s.cfg
    }

    predicate RightKind() {
      match this
      case SafeRun(_) => Cfg().algo == Algorithm.Safe
      case SmartRun(_) => Cfg().algo == Algorithm.Smart
      case DeepRun(_) => Cfg().algo == Algorithm.Deep
      case SteppedRun(_) => Cfg().algo == Algorithm.Stepped
      case LinearRun(_) => Cfg().algo == Algorithm.Linear
      case BoundaryRun(_) => Cfg().algo == Algorithm.Boundary
      case SunSpecRun(_) => Cfg().algo == Algorithm.SunSpec
    }

    ghost predicate Valid()
      reads Repr()
    {
      match this
      case SafeRun(s) => s.Valid()
      case SmartRun(s) => s.Valid()
      case DeepRun(s) => s.Valid()
      case SteppedRun(s) => s.Valid()
      case LinearRun(s) => s.Valid()
      case BoundaryRun(s) => s.Valid()
      case SunSpecRun(s) => s.Valid()
    }

    /** The reads performed so far. */
    ghost function Trace(): seq<Read>
      reads Repr()
    {
      match this
      case SafeRun(s) => s.trace
      case SmartRun(s) => s.trace
      case DeepRun(s) => s.trace
      case SteppedRun(s) => s.trace
      case LinearRun(s) => s.trace
      case BoundaryRun(s) => s.trace
      case SunSpecRun(s) => s.trace
    }

    /** The read the strategy is waiting for. */
    ghost function Pending(): Option<ScanTask>
      reads Repr()
    {
      match this
      case SafeRun(s) => s.pending
      case SmartRun(s) => s.pending
      case DeepRun(s) => s.pending
      case SteppedRun(s) => s.pending
      case LinearRun(s) => s.pending
      case BoundaryRun(s) => s.pending
      case SunSpecRun(s) => s.pending
    }

    /** What a caller knows of the strategy. */
    ghost function Now(): Session
      reads Repr()
    {
      Session(Valid() && RightKind(), Cfg(), Trace(), Pending())
    }

    /** The strategy waits for nothing, having performed these reads of a run of cfg. */
    ghost predicate Idle(cfg: ScanConfig, performed: seq<Read>)
      reads Repr()
    {
      Now() == Session(true, cfg, performed, None)
    }

    /** The strategy waits for the answer to task. */
    ghost predicate Waiting(cfg: ScanConfig, performed: seq<Read>, task: ScanTask)
      reads Repr()
    {
      Now() == Session(true, cfg, performed, Some(task)) && |performed| < WorstCase(cfg)
    }

    /** Only its own objects matter to a strategy. */
    twostate lemma Unmoved(repr: set<object>)
      requires repr == Repr() && unchanged(repr)
      ensures Now() == old(Now())
    {
    }

    predicate Finished()
      reads Repr()
    {
      match this
      case SafeRun(s) => s.Finished()
      case SmartRun(s) => s.Finished()
      case DeepRun(s) => s.Finished()
      case SteppedRun(s) => s.Finished()
      case LinearRun(s) => s.Finished()
      case BoundaryRun(s) => s.Finished()
      case SunSpecRun(s) => s.Finished()
    }

    lemma FinishedReports(cfg: ScanConfig, performed: seq<Read>)
      requires Idle(cfg, performed) && Finished()
      ensures Report(cfg, performed)
    {
      match this
      case SafeRun(s) => s.FinishedReports();
      case SmartRun(s) => s.FinishedReports();
      case DeepRun(s) => s.FinishedReports();
      case SteppedRun(s) => s.FinishedReports();
      case LinearRun(s) => s.FinishedReports();
      case BoundaryRun(s) => s.FinishedReports();
      case SunSpecRun(s) => s.FinishedReports();
    }

    method Next(ghost cfg: ScanConfig, ghost performed: seq<Read>) returns (task: Option<ScanTask>)
      requires Idle(cfg, performed)
      modifies Repr()
      ensures task.Some? ==> Waiting(cfg, performed, task.value) && InBounds(cfg, task.value)
      ensures task == None ==> Report(cfg, performed)
    {
      match this {
        case SafeRun(_) => task := NextSafe(cfg, performed);
        case SmartRun(_) => task := NextSmart(cfg, performed);
        case DeepRun(_) => task := NextDeep(cfg, performed);
        case SteppedRun(_) => task := NextStepped(cfg, performed);
        case LinearRun(_) => task := NextLinear(cfg, performed);
        case BoundaryRun(_) => task := NextBoundary(cfg, performed);
        case SunSpecRun(_) => task := NextSunSpec(cfg, performed);
      }
    }

    method OnResult(ghost cfg: ScanConfig, ghost performed: seq<Read>, task: ScanTask, result: ScanResult)
      requires Waiting(cfg, performed, task)
      modifies Repr()
      ensures Idle(cfg, performed + [Read(task, result)])
    {
      match this {
        case SafeRun(_) => OnResultSafe(cfg, performed, task, result);
        case SmartRun(_) => OnResultSmart(cfg, performed, task, result);
        case DeepRun(_) => OnResultDeep(cfg, performed, task, result);
        case SteppedRun(_) => OnResultStepped(cfg, performed, task, result);
        case LinearRun(_) => OnResultLinear(cfg, performed, task, result);
        case BoundaryRun(_) => OnResultBoundary(cfg, performed, task, result);
        case SunSpecRun(_) => OnResultSunSpec(cfg, performed, task, result);
      }
    }

    method NextSafe(ghost cfg: ScanConfig, ghost performed: seq<Read>) returns (task: Option<ScanTask>)
      requires Idle(cfg, performed) && SafeRun?
      modifies Repr()
      ensures task.Some? ==> Waiting(cfg, performed, task.value) && InBounds(cfg, task.value)
      ensures task == None ==> Report(cfg, performed)
    {
      task := safe.Next();
      safe.WithinWorstCase();
    }

    method OnResultSafe(ghost cfg: ScanConfig, ghost performed: seq<Read>, task: ScanTask, result: ScanResult)
      requires Waiting(cfg, performed, task) && SafeRun?
      modifies Repr()
      ensures Idle(cfg, performed + [Read(task, result)])
    {
      safe.OnResult(task, result);
    }

    method NextSmart(ghost cfg: ScanConfig, ghost performed: seq<Read>) returns (task: Option<ScanTask>)
      requires Idle(cfg, performed) && SmartRun?
      modifies Repr()
      ensures task.Some? ==> Waiting(cfg, performed, task.value) && InBounds(cfg, task.value)
      ensures task == None ==> Report(cfg, performed)
    {
      task := smart.Next();
      smart.WithinWorstCase();
    }

    method OnResultSmart(ghost cfg: ScanConfig, ghost performed: seq<Read>, task: ScanTask, result: ScanResult)
      requires Waiting(cfg, performed, task) && SmartRun?
      modifies Repr()
      ensures Idle(cfg, performed + [Read(task, result)])
    {
      smart.OnResult(task, result);
    }

    method NextDeep(ghost cfg: ScanConfig, ghost performed: seq<Read>) returns (task: Option<ScanTask>)
      requires Idle(cfg, performed) && DeepRun?
      modifies Repr()
      ensures task.Some? ==> Waiting(cfg, performed, task.value) && InBounds(cfg, task.value)
      ensures task == None ==> Report(cfg, performed)
    {
      task := deep.Next();
      deep.WithinWorstCase();
    }

    method OnResultDeep(ghost cfg: ScanConfig, ghost performed: seq<Read>, task: ScanTask, result: ScanResult)
      requires Waiting(cfg, performed, task) && DeepRun?
      modifies Repr()
      ensures Idle(cfg, performed + [Read(task, result)])
    {
      deep.OnResult(task, result);
    }

    method NextStepped(ghost cfg: ScanConfig, ghost performed: seq<Read>) returns (task: Option<ScanTask>)
      requires Idle(cfg, performed) && SteppedRun?
      modifies Repr()
      ensures task.Some? ==> Waiting(cfg, performed, task.value) && InBounds(cfg, task.value)
      ensures task == None ==> Report(cfg, performed)
    {
      task := stepped.Next();
      stepped.WithinWorstCase();
    }

    method OnResultStepped(ghost cfg: ScanConfig, ghost performed: seq<Read>, task: ScanTask, result: ScanResult)
      requires Waiting(cfg, performed, task) && SteppedRun?
      modifies Repr()
      ensures Idle(cfg, performed + [Read(task, result)])
    {
      stepped.OnResult(task, result);
    }

    method NextLinear(ghost cfg: ScanConfig, ghost performed: seq<Read>) returns (task: Option<ScanTask>)
      requires Idle(cfg, performed) && LinearRun?
      modifies Repr()
      ensures task.Some? ==> Waiting(cfg, performed, task.value) && InBounds(cfg, task.value)
      ensures task == None ==> Report(cfg, performed)
    {
      task := linear.Next();
      linear.WithinWorstCase();
    }

    method OnResultLinear(ghost cfg: ScanConfig, ghost performed: seq<Read>, task: ScanTask, result: ScanResult)
      requires Waiting(cfg, performed, task) && LinearRun?
      modifies Repr()
      ensures Idle(cfg, performed + [Read(task, result)])
    {
      linear.OnResult(task, result);
    }

    method NextBoundary(ghost cfg: ScanConfig, ghost performed: seq<Read>) returns (task: Option<ScanTask>)
      requires Idle(cfg, performed) && BoundaryRun?
      modifies Repr()
      ensures task.Some? ==> Waiting(cfg, performed, task.value) && InBounds(cfg, task.value)
      ensures task == None ==> Report(cfg, performed)
    {
      task := boundary.Next();
      boundary.WithinWorstCase();
      if task == None {
        boundary.FinishedReports();
      }
    }

    method OnResultBoundary(ghost cfg: ScanConfig, ghost performed: seq<Read>, task: ScanTask, result: ScanResult)
      requires Waiting(cfg, performed, task) && BoundaryRun?
      modifies Repr()
      ensures Idle(cfg, performed + [Read(task, result)])
    {
      boundary.OnResult(task, result);
    }

    method NextSunSpec(ghost cfg: ScanConfig, ghost performed: seq<Read>) returns (task: Option<ScanTask>)
      requires Idle(cfg, performed) && SunSpecRun?
      modifies Repr()
      ensures task.Some? ==> Waiting(cfg, performed, task.value) && InBounds(cfg, task.value)
      ensures task == None ==> Report(cfg, performed)
    {
      task := sunspec.Next();
      sunspec.WithinWorstCase();
      if task == None {
        sunspec.FinishedReports();
      }
    }

    method OnResultSunSpec(ghost cfg: ScanConfig, ghost performed: seq<Read>, task: ScanTask, result: ScanResult)
      requires Waiting(cfg, performed, task) && SunSpecRun?
      modifies Repr()
      ensures Idle(cfg, performed + [Read(task, result)])
    {
      sunspec.OnResult(task, result);
    }
  }

  method NewScanStrategy(cfg: ScanConfig) returns (strategy: Strategy)
    ensures strategy.Idle(cfg, []) && fresh(strategy.Repr())
  {
    match cfg.algo {
      case Safe => strategy := NewSafe(cfg);
      case Smart => strategy := NewSmart(cfg);
      case Deep => strategy := NewDeep(cfg);
      case Stepped => strategy := NewStepped(cfg);
      case Linear => strategy := NewLinear(cfg);
      case Boundary => strategy := NewBoundary(cfg);
      case SunSpec => strategy := NewSunSpec(cfg);
    }
  }

  method NewSafe(cfg: ScanConfig) returns (strategy: Strategy)
    requires cfg.algo == Algorithm.Safe
    ensures strategy.Idle(cfg, []) && fresh(strategy.Repr())
  {
    var s := new Safe.SafeStrategy(cfg);
    strategy := SafeRun(s);
  }

  method NewSmart(cfg: ScanConfig) returns (strategy: Strategy)
    requires cfg.algo == Algorithm.Smart
    ensures strategy.Idle(cfg, []) && fresh(strategy.Repr())
  {
    var s := new Smart.SmartStrategy(cfg);
    strategy := SmartRun(s);
  }

  method NewDeep(cfg: ScanConfig) returns (strategy: Strategy)
    requires cfg.algo == Algorithm.Deep
    ensures strategy.Idle(cfg, []) && fresh(strategy.Repr())
  {
    var s := new Deep.DeepStrategy(cfg);
    strategy := DeepRun(s);
  }

  method NewStepped(cfg: ScanConfig) returns (strategy: Strategy)
    requires cfg.algo == Algorithm.Stepped
    ensures strategy.Idle(cfg, []) && fresh(strategy.Repr())
  {
    var s := new Stepped.SteppedStrategy(cfg);
    strategy := SteppedRun(s);
    assert strategy.Valid();
  }

  method NewLinear(cfg: ScanConfig) returns (strategy: Strategy)
    requires cfg.algo == Algorithm.Linear
    ensures strategy.Idle(cfg, []) && fresh(strategy.Repr())
  {
    var s := new Linear.LinearStrategy(cfg);
    strategy := LinearRun(s);
  }

  method NewBoundary(cfg: ScanConfig) returns (strategy: Strategy)
    requires cfg.algo == Algorithm.Boundary
    ensures strategy.Idle(cfg, []) && fresh(strategy.Repr())
  {
    var s := new Boundary.BoundaryStrategy(cfg);
    strategy := BoundaryRun(s);
  }

  method NewSunSpec(cfg: ScanConfig) returns (strategy: Strategy)
    requires cfg.algo == Algorithm.SunSpec
    ensures strategy.Idle(cfg, []) && fresh(strategy.Repr())
  {
    var s := new SunSpec.SunSpecStrategy(cfg);
    strategy := SunSpecRun(s);
  }
}
