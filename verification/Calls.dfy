/** What one call over a device link is (internal/modbus/client.go:369-429): the uses it makes
    of the outside world, one a moment, in the order the retry loop makes them, and the error
    it returns for them. */
module Calls {
  import opened ScanTypes
  import opened Capfile
  import opened Seqs

  /** What the code asks of an error: the exception it wraps, if any, and which kinds of
      failure it is recognised as. An error may be of several kinds. */
  datatype Fault = Fault(exception: Option<Byte>, busy: bool, timedOut: bool, protocol: bool, connectionLost: bool)

  /** Where an error returned to the caller comes from. */
  datatype Error =
    | ReadFailed(fault: Fault)
    | DialFailed(fault: Fault)
    | Interrupted(fault: Fault)
    | CaptureFailed(cause: CommitError, fault: Fault)
    | CreateFailed(fault: Fault)
    | CloseFailed(fault: Fault)

  datatype OutcomeType = Success | Exception | Timeout | Protocol | Transport | Unknown

  function ClassifyOutcome(err: Option<Fault>): OutcomeType {
    match err
    case None => Success
    case Some(f) =>
      if f.exception.Some? then Exception
      else if f.timedOut then Timeout
      else if f.protocol then Protocol
      else if f.connectionLost then Transport
      else Unknown
  }

  predicate ShouldRetry(err: Option<Fault>) {
    err.Some? && err.value.busy
  }

  predicate ShouldReconnect(err: Option<Fault>) {
    err.Some? && err.value.connectionLost
  }

  /** What one call on the client came back with, and the exchanges its tap reported. */
  datatype Answer = Answer(err: Option<Fault>, data: seq<Byte>, exchanges: seq<PduExchange>)

  /** Everything outside the program: how its n-th use of a timer, a dial, a device or the
      capture file turns out. */
  datatype World = World(
    create: Option<Fault>,
    close: Option<Fault>,
    sleep: nat -> Option<Fault>,
    dial: nat -> Option<Fault>,
    read: (nat, ScanTask) -> Answer,
    room: nat -> nat,
    flush: nat -> Flush,
    diskFault: nat -> Fault)

  /** An attempt that was made: the device's answer, the state of the capture file, and the
      error of a write that fails. */
  datatype Made = Made(answer: Answer, room: nat, flush: Flush, disk: Fault)

  /** The attempt made at moment n. */
  function MadeAt(world: World, call: nat -> Answer, n: nat): Made {
    Made(call(n), world.room(n), world.flush(n), world.diskFault(n))
  }

  function OutcomeOf(err: Option<Fault>): Outcome {
    if err == None then Succeeded
    else if err.value.exception.Some? then EndedInException
    else Capfile.Failed
  }

  /** An attempt is made again after a busy or gateway exception or a lost connection. */
  predicate Again(err: Option<Fault>) {
    ShouldRetry(err) || ShouldReconnect(err)
  }

  /** One use of the outside world: a wait, a dial, or an attempt. */
  datatype Use =
    | Slept(fault: Option<Fault>)
    | Dialled(fault: Option<Fault>)
    | Asked(made: Made)

  /** How many uses were made before, and whether the link is open. */
  datatype Moment = Moment(at: nat, open: bool)

  function After(m: Moment, u: Use): Moment {
    Moment(m.at + 1, match u case Dialled(f) => f == None case _ => m.open)
  }

  function AfterAll(m: Moment, us: seq<Use>): Moment {
    if us == [] then m else After(AfterAll(m, us[..|us| - 1]), us[|us| - 1])
  }

  /** The attempts among the uses. */
  function MadesOf(us: seq<Use>): seq<Made> {
    if us == [] then []
    else MadesOf(us[..|us| - 1]) + match us[|us| - 1] case Asked(m) => [m] case _ => []
  }

  /** This is how the use at moment n turns out in the world. */
  predicate TurnsOut(w: World, call: nat -> Answer, n: nat, u: Use) {
    match u
    case Slept(f) => f == w.sleep(n)
    case Dialled(f) => f == w.dial(n)
    case Asked(m) => m == MadeAt(w, call, n)
  }

  /** A recorder that keeps exceptions or not (None: no open recorder) could not save the
      attempt whole. */
  ghost predicate Lost(keeping: Option<bool>, m: Made) {
    && keeping.Some? && Keeps(keeping.value, OutcomeOf(m.answer.err))
    && (!Savable(m.answer.exchanges, m.room) || (m.answer.exchanges != [] && m.flush == FlushFailed))
  }

  /** The call goes on after this use: nothing failed, or only an attempt, in a way that
      allows another one. */
  ghost predicate GoesOn(keeping: Option<bool>, u: Use) {
    match u
    case Slept(f) => f == None
    case Dialled(f) => f == None
    case Asked(m) => !Lost(keeping, m) && Again(m.answer.err)
  }

  /** What comes next in a round of the loop: the wait before an attempt; the attempt, or a
      dial if the link is closed; what a failed attempt makes necessary. */
  datatype Stage = ToSleep | ToCall | ToRecover(made: Made)

  function Begin(delay: nat): Stage {
    if delay > 0 then ToSleep else ToCall
  }

  function StageAfter(delay: nat, stage: Stage, u: Use): Stage {
    match u
    case Slept(_) => ToCall
    case Dialled(_) => if stage.ToRecover? then Begin(delay) else ToCall
    case Asked(m) => if ShouldRetry(m.answer.err) && delay > 0 then ToSleep else ToRecover(m)
  }

  function StageOf(delay: nat, us: seq<Use>): Stage {
    if us == [] then Begin(delay) else StageAfter(delay, StageOf(delay, us[..|us| - 1]), us[|us| - 1])
  }

  predicate Allowed(stage: Stage, open: bool, u: Use) {
    match stage
    case ToSleep => u.Slept?
    case ToCall => if open then u.Asked? else u.Dialled?
    case ToRecover(m) => if ShouldRetry(m.answer.err) then u.Slept? else u.Dialled?
  }

  /** A call's settings: what it asks, the wait before each attempt, and when it began. */
  datatype Setting = Setting(call: nat -> Answer, keeping: Option<bool>, delay: nat, from: Moment)

  /** The uses of a call so far: each turned out as the world has it at its moment, was the
      next one of the loop, and all but the last let the call go on. */
  ghost predicate Course(w: World, c: Setting, us: seq<Use>)
    decreases |us|
  {
    us == [] ||
    (var k := |us| - 1; var front, now := us[..k], AfterAll(c.from, us[..k]);
     && Course(w, c, front) && !Stopped(c, front)
     && TurnsOut(w, c.call, now.at, us[k]) && Allowed(StageOf(c.delay, front), now.open, us[k]))
  }

  /** The last use ends the call. */
  ghost predicate Stopped(c: Setting, us: seq<Use>) {
    us != [] && !GoesOn(c.keeping, us[|us| - 1])
  }

  /** The call is over: a use ended it, or all its attempts were made. */
  ghost predicate Over(c: Setting, retries: nat, us: seq<Use>) {
    && |MadesOf(us)| <= retries
    && (Stopped(c, us) || (StageOf(c.delay, us) == Begin(c.delay) && |MadesOf(us)| == retries))
  }

  /** The error of a call with these uses: a wait or a dial that failed, a failed commit, or
      the read error of the last attempt. */
  ghost predicate Returns(c: Setting, us: seq<Use>, err: Option<Error>)
    decreases |us|
  {
    if us == [] then err == None
    else
      match us[|us| - 1]
      case Slept(Some(f)) => err == Some(Interrupted(f))
      case Dialled(Some(f)) => err == Some(DialFailed(f))
      case Asked(m) => if Lost(c.keeping, m) then NotSaved(m, err) else err == ReadError(m)
      case _ => Returns(c, us[..|us| - 1], err)
  }

  function ReadError(m: Made): Option<Error> {
    match m.answer.err case None => None case Some(f) => Some(ReadFailed(f))
  }

  ghost predicate NotSaved(m: Made, err: Option<Error>) {
    && err.Some? && err.value.CaptureFailed? && err.value.fault == m.disk
    && (err.value.cause == FlushError <==> Savable(m.answer.exchanges, m.room))
  }

  /** The last use was answered with this data. */
  predicate AnsweredWith(us: seq<Use>, data: seq<Byte>) {
    us != [] && us[|us| - 1].Asked? && us[|us| - 1].made.answer.data == data
  }

  // ----- one more use -----

  lemma OneUse(w: World, c: Setting, us: seq<Use>, u: Use)
    requires Course(w, c, us) && !Stopped(c, us)
    requires TurnsOut(w, c.call, AfterAll(c.from, us).at, u)
    requires Allowed(StageOf(c.delay, us), AfterAll(c.from, us).open, u)
    ensures Course(w, c, us + [u])
    ensures AfterAll(c.from, us + [u]) == After(AfterAll(c.from, us), u)
    ensures StageOf(c.delay, us + [u]) == StageAfter(c.delay, StageOf(c.delay, us), u)
    ensures MadesOf(us + [u]) == MadesOf(us) + match u case Asked(m) => [m] case _ => []
  {
    FrontOfSnoc(us, u);
    var all := us + [u];
    assert all[|all| - 1] == u;
  }

  lemma OneUseReturns(c: Setting, us: seq<Use>, u: Use, err: Option<Error>)
    ensures Stopped(c, us + [u]) <==> !GoesOn(c.keeping, u)
    ensures u.Slept? || u.Dialled? ==> MadesOf(us + [u]) == MadesOf(us)
    ensures (u.Slept? || u.Dialled?) && GoesOn(c.keeping, u) ==> (Returns(c, us + [u], err) <==> Returns(c, us, err))
    ensures u.Slept? && u.fault.Some? ==> Returns(c, us + [u], Some(Interrupted(u.fault.value)))
    ensures u.Dialled? && u.fault.Some? ==> Returns(c, us + [u], Some(DialFailed(u.fault.value)))
    ensures u.Asked? ==> (Returns(c, us + [u], err) <==> if Lost(c.keeping, u.made) then NotSaved(u.made, err) else err == ReadError(u.made))
  {
    FrontOfSnoc(us, u);
    NothingJoined(MadesOf(us));
  }

  // ----- what a call is for its caller -----

  /** Recorded are the attempts that were answered, and those refused by an exception if
      exceptions are recorded. */
  lemma KeptIff(exceptions: bool, err: Option<Fault>)
    ensures Keeps(exceptions, OutcomeOf(err)) <==> err == None || (exceptions && err.value.exception.Some?)
  {
  }

  /** Every use but the last let the call go on: no failed wait, dial or commit is passed
      over, and an attempt is followed by anything only after a busy or gateway exception or
      a lost connection. */
  lemma {:induction false} CoursePersists(w: World, c: Setting, us: seq<Use>, i: nat)
    requires Course(w, c, us) && i + 1 < |us|
    ensures match us[i]
            case Slept(f) => f == None
            case Dialled(f) => f == None
            case Asked(m) =>
              && !Lost(c.keeping, m)
              && m.answer.err.Some? && (m.answer.err.value.busy || m.answer.err.value.connectionLost)
    decreases |us|
  {
    var front := us[..|us| - 1];
    if i + 1 < |front| {
      CoursePersists(w, c, front, i);
    }
  }

  /** What comes before an attempt: the link is open, and if waits are configured there was one,
      directly or before the dial that opened the link. */
  lemma AttemptIsPreceded(w: World, c: Setting, us: seq<Use>, i: nat)
    requires Course(w, c, us) && i < |us| && us[i].Asked?
    ensures AfterAll(c.from, us[..i]).open
    ensures c.delay > 0 ==> i > 0 && (us[i - 1].Slept? || (us[i - 1].Dialled? && i > 1 && us[i - 2].Slept?))
  {
    UsesAreAllowed(w, c, us, i);
    if c.delay > 0 {
      LastIs(us, i);
      UsesAreAllowed(w, c, us, i - 1);
      if us[i - 1].Dialled? {
        LastIs(us, i - 1);
        CoursePersists(w, c, us, i - 2);
      }
    }
  }

  lemma LastIs(us: seq<Use>, i: nat)
    requires 0 < i <= |us|
    ensures us[..i][..|us[..i]| - 1] == us[..i - 1] && us[..i][|us[..i]| - 1] == us[i - 1]
  {
  }

  /** What follows an attempt whose exchanges were saved, or not to be saved: after a busy or
      gateway exception a wait, unless it was the last attempt and a wait is made before each
      anyway; after a lost connection a dial; otherwise nothing. */
  lemma AttemptIsFollowed(w: World, c: Setting, us: seq<Use>, retries: nat, i: nat)
    requires Course(w, c, us) && Over(c, retries, us) && i < |us| && us[i].Asked? && !Lost(c.keeping, us[i].made)
    ensures var err := us[i].made.answer.err;
            && (err == None ==> i + 1 == |us|)
            && (err.Some? && !err.value.busy && !err.value.connectionLost ==> i + 1 == |us|)
            && (err.Some? && err.value.busy ==>
                  if i + 1 < |us| then us[i + 1].Slept? else c.delay > 0 && |MadesOf(us)| == retries)
            && (err.Some? && !err.value.busy && err.value.connectionLost ==> i + 1 < |us| && us[i + 1].Dialled?)
  {
    if i + 1 < |us| {
      CoursePersists(w, c, us, i);
      UsesAreAllowed(w, c, us, i + 1);
      assert us[..i + 1][..i] == us[..i];
      assert StageOf(c.delay, us[..i + 1]) == StageAfter(c.delay, StageOf(c.delay, us[..i]), us[i]);
    } else {
      assert us[..i] == us[..|us| - 1];
    }
  }

  /** A use is what the world has at its moment. */
  lemma {:induction false} UsesTurnOut(w: World, c: Setting, us: seq<Use>, i: nat)
    requires Course(w, c, us) && i < |us|
    ensures TurnsOut(w, c.call, c.from.at + i, us[i]) && AfterAll(c.from, us).at == c.from.at + |us|
    decreases |us|
  {
    var k := |us| - 1;
    if k > 0 {
      UsesTurnOut(w, c, us[..k], if i < k then i else 0);
    }
  }

  /** A use is one the loop makes after those before it. */
  lemma {:induction false} UsesAreAllowed(w: World, c: Setting, us: seq<Use>, i: nat)
    requires Course(w, c, us) && i < |us|
    ensures Allowed(StageOf(c.delay, us[..i]), AfterAll(c.from, us[..i]).open, us[i])
    decreases |us|
  {
    var k := |us| - 1;
    if i < k {
      UsesAreAllowed(w, c, us[..k], i);
      FrontOfFront(us, k, i);
    }
  }

  /** Each attempt is made at a moment of the call. */
  lemma {:induction false} AttemptHasMoment(w: World, c: Setting, us: seq<Use>, m: Made)
    requires Course(w, c, us) && m in MadesOf(us)
    ensures exists n :: c.from.at <= n < c.from.at + |us| && m == MadeAt(w, c.call, n)
    decreases |us|
  {
    var k := |us| - 1;
    UsesTurnOut(w, c, us, k);
    if us[k] != Asked(m) {
      AttemptHasMoment(w, c, us[..k], m);
    }
  }

  lemma {:induction false} LostIsLast(w: World, c: Setting, us: seq<Use>, m: Made)
    requires Course(w, c, us) && m in MadesOf(us) && Lost(c.keeping, m)
    ensures us[|us| - 1] == Asked(m)
    decreases |us|
  {
    var front := us[..|us| - 1];
    if m in MadesOf(front) {
      LostIsLast(w, c, front, m);
    }
  }

  /** An attempt that could not be saved is the last use, and its error is returned. */
  lemma LostIsReported(w: World, c: Setting, us: seq<Use>, m: Made, err: Option<Error>)
    requires Course(w, c, us) && m in MadesOf(us) && Lost(c.keeping, m) && Returns(c, us, err)
    ensures us[|us| - 1] == Asked(m) && NotSaved(m, err)
  {
    LostIsLast(w, c, us, m);
  }

  /** A call that was not ended by a use has the read error of its last attempt, which allows
      another one. */
  lemma {:induction false} UnendedReturns(w: World, c: Setting, us: seq<Use>, err: Option<Error>)
    requires Course(w, c, us) && Returns(c, us, err) && !Stopped(c, us)
    ensures MadesOf(us) == [] ==> err == None
    ensures MadesOf(us) != [] ==> var m := MadesOf(us)[|MadesOf(us)| - 1]; err == ReadError(m) && Again(m.answer.err) && !Lost(c.keeping, m)
    decreases |us|
  {
    if us != [] && !us[|us| - 1].Asked? {
      UnendedReturns(w, c, us[..|us| - 1], err);
    }
  }

  lemma OnlyOne<T>(s: seq<T>, x: T)
    requires |s + [x]| <= 1
    ensures s + [x] == [x]
  {
  }

  /** A call with a single attempt that returns no error had it answered and saved. */
  lemma SuccessIsAnswered(w: World, c: Setting, us: seq<Use>)
    requires Course(w, c, us) && Over(c, 1, us) && Returns(c, us, None)
    ensures us != [] && us[|us| - 1].Asked?
    ensures var m := us[|us| - 1].made; MadesOf(us) == [m] && m.answer.err == None && !Lost(c.keeping, m)
  {
    if !Stopped(c, us) {
      UnendedReturns(w, c, us, None);
      assert false;
    }
    OnlyOne(MadesOf(us[..|us| - 1]), us[|us| - 1].made);
  }

  /** No wait and no dial failed. */
  ghost predicate AllWell(us: seq<Use>) {
    forall u :: u in us && !u.Asked? ==> u.fault == None
  }

  /** A call with a single attempt in which no wait and no dial fails returns what became of
      that attempt. */
  lemma AttemptDecides(w: World, c: Setting, us: seq<Use>, err: Option<Error>)
    requires Course(w, c, us) && Over(c, 1, us) && Returns(c, us, err) && AllWell(us)
    ensures |MadesOf(us)| == 1
    ensures var m := MadesOf(us)[0]; if Lost(c.keeping, m) then NotSaved(m, err) else err == ReadError(m)
  {
    if Stopped(c, us) {
      assert us[|us| - 1] in us;
      OnlyOne(MadesOf(us[..|us| - 1]), us[|us| - 1].made);
    } else {
      UnendedReturns(w, c, us, err);
    }
  }
}
