/** Requests over one device link (internal/modbus/client.go:151-287 and 369-429): dialling,
    and the retry loop in which every attempt is one transaction of the recorder. */
module Exchange {
  import opened ScanTypes
  import opened Seqs
  import opened Capfile
  import opened Calls

  /** The recorder calls of one attempt. */
  function OpsOf(tok: nat, stream: U32, m: Made): seq<Op> {
    [Begun(tok)] + Taps(tok, m.answer.exchanges) + [Committed(tok, stream, OutcomeOf(m.answer.err), m.room)]
  }

  /** Between the two logs lie the recorder calls of these attempts, made one after the
      other with the tokens after tok, and nothing else. */
  ghost predicate Records(before: seq<Op>, after: seq<Op>, tok: nat, stream: U32, made: seq<Made>)
    decreases |made|
  {
    if made == [] then after == before
    else
      var k := |made| - 1;
      exists mid :: Records(before, mid, tok, stream, made[..k]) && after == mid + OpsOf(tok + |made|, stream, made[k])
  }

  function AttemptOf(stream: U32, m: Made): Attempt {
    Attempt(stream, OutcomeOf(m.answer.err), m.answer.exchanges, m.room)
  }

  function AttemptsOf(stream: U32, made: seq<Made>): seq<Attempt> {
    if made == [] then [] else AttemptsOf(stream, made[..|made| - 1]) + [AttemptOf(stream, made[|made| - 1])]
  }

  lemma RecordsOne(before: seq<Op>, mid: seq<Op>, tok: nat, stream: U32, made: seq<Made>, m: Made)
    requires Records(before, mid, tok, stream, made)
    ensures Records(before, mid + OpsOf(tok + |made| + 1, stream, m), tok, stream, made + [m])
  {
    var made' := made + [m];
    assert made'[..|made|] == made && made'[|made|] == m;
  }

  lemma RecordsNone(before: seq<Op>, after: seq<Op>, tok: nat, stream: U32)
    requires Records(before, after, tok, stream, [])
    ensures before == after
  {
  }

  lemma RecordsSingle(before: seq<Op>, after: seq<Op>, tok: nat, stream: U32, m: Made)
    requires Records(before, after, tok, stream, [m])
    ensures after == before + OpsOf(tok + 1, stream, m)
  {
    assert [m][..0] == [];
    var mid :| Records(before, mid, tok, stream, []) && after == mid + OpsOf(tok + 1, stream, m);
    RecordsNone(before, mid, tok, stream);
  }

  lemma TapsInTurn(log: seq<Op>, tok: nat, exs: seq<PduExchange>, i: nat)
    requires i < |exs|
    ensures log + Taps(tok, exs[..i + 1]) == (log + Taps(tok, exs[..i])) + [Tapped(tok, exs[i])]
  {
    assert exs[..i + 1][..i] == exs[..i];
  }

  lemma OpsInTurn(log: seq<Op>, tok: nat, stream: U32, m: Made)
    ensures log + OpsOf(tok, stream, m) ==
            ((log + [Begun(tok)]) + Taps(tok, m.answer.exchanges)) + [Committed(tok, stream, OutcomeOf(m.answer.err), m.room)]
  {
  }

  lemma AttemptsInTurn(before: seq<Attempt>, stream: U32, made: seq<Made>)
    requires made != []
    ensures before + AttemptsOf(stream, made) ==
            (before + AttemptsOf(stream, made[..|made| - 1])) + [AttemptOf(stream, made[|made| - 1])]
  {
  }

  lemma {:induction false} TapsOfOther(log: seq<Op>, tok: nat, exs: seq<PduExchange>, other: nat)
    requires tok != other
    ensures PendingOf(log + Taps(tok, exs), other) == PendingOf(log, other)
  {
    if exs == [] {
      assert log + Taps(tok, exs) == log;
    } else {
      var front, op := exs[..|exs| - 1], Tapped(tok, exs[|exs| - 1]);
      TapsOfOther(log, tok, front, other);
      assert log + Taps(tok, exs) == (log + Taps(tok, front)) + [op];
      OneMore(log + Taps(tok, front), op);
    }
  }

  lemma OpsLeaveOthers(log: seq<Op>, tok: nat, stream: U32, m: Made, other: nat)
    requires tok != other
    ensures PendingOf(log + OpsOf(tok, stream, m), other) == PendingOf(log, other)
  {
    var begun, exs := log + [Begun(tok)], m.answer.exchanges;
    var commit := Committed(tok, stream, OutcomeOf(m.answer.err), m.room);
    OneMore(log, Begun(tok));
    TapsOfOther(begun, tok, exs, other);
    OneMore(begun + Taps(tok, exs), commit);
    OpsInTurn(log, tok, stream, m);
  }

  lemma {:induction false} RecordsLeaveOthers(before: seq<Op>, after: seq<Op>, tok: nat, stream: U32, made: seq<Made>, other: nat)
    requires Records(before, after, tok, stream, made) && other > tok + |made|
    ensures PendingOf(after, other) == PendingOf(before, other)
    decreases |made|
  {
    if made != [] {
      var k := |made| - 1;
      var mid :| Records(before, mid, tok, stream, made[..k]) && after == mid + OpsOf(tok + |made|, stream, made[k]);
      RecordsLeaveOthers(before, mid, tok, stream, made[..k], other);
      OpsLeaveOthers(mid, tok + |made|, stream, made[k], other);
    }
  }

  /** One attempt under a fresh token commits exactly its own exchanges. */
  lemma OneAttempt(log: seq<Op>, tok: nat, stream: U32, m: Made)
    requires PendingOf(log, tok) == [] && Closed !in log
    ensures Attempts(log + OpsOf(tok, stream, m)) == Attempts(log) + [AttemptOf(stream, m)]
    ensures Closed !in log + OpsOf(tok, stream, m)
  {
    var begun, exs := log + [Begun(tok)], m.answer.exchanges;
    var commit := Committed(tok, stream, OutcomeOf(m.answer.err), m.room);
    OneMore(log, Begun(tok));
    TapsCollect(begun, tok, exs);
    OneMore(begun + Taps(tok, exs), commit);
    OpsInTurn(log, tok, stream, m);
  }

  /** Each attempt that was made is committed once, in order. */
  lemma {:induction false} EachIsCommittedOnce(before: seq<Op>, after: seq<Op>, tok: nat, stream: U32, made: seq<Made>)
    requires Records(before, after, tok, stream, made)
    requires Closed !in before && forall t :: t > tok ==> PendingOf(before, t) == []
    ensures Attempts(after) == Attempts(before) + AttemptsOf(stream, made) && Closed !in after
    decreases |made|
  {
    if made != [] {
      var k := |made| - 1;
      var mid :| Records(before, mid, tok, stream, made[..k]) && after == mid + OpsOf(tok + |made|, stream, made[k]);
      EachIsCommittedOnce(before, mid, tok, stream, made[..k]);
      RecordsLeaveOthers(before, mid, tok, stream, made[..k], tok + |made|);
      OneAttempt(mid, tok + |made|, stream, made[k]);
      AttemptsInTurn(Attempts(before), stream, made);
    }
  }

  /** A call as its caller set it up, and the recorder's log, last token and state before. */
  datatype Context = Context(setting: Setting, log: seq<Op>, tok: nat, closed: bool)

  class DeviceLink {
    const world: World
    const stream: U32
    /** The client is open. */
    var open: bool
    var rec: Recorder?
    /** Uses of the outside world so far. */
    var clock: nat

    constructor (world: World, stream: U32)
      ensures this.world == world && this.stream == stream && !open && rec == null && clock == 0
    {
      this.world, this.stream := world, stream;
      open, rec, clock := false, null, 0;
    }

    ghost predicate Valid()
      reads `rec, rec
    {
      rec != null ==> rec.Valid()
    }

    /** The recorder's part of the state. */
    ghost function Log(): seq<Op>
      reads `rec, rec
    {
      if rec == null then [] else rec.log
    }

    ghost function Tokens(): nat
      reads `rec, rec
    {
      if rec == null then 0 else rec.nextTok
    }

    /** Attaches the recorder of the link's reads. */
    method Record(r: Recorder)
      modifies `rec
      ensures rec == r
    {
      rec := r;
    }

    method Close()
      modifies `open
      ensures !open
    {
      open := false;
    }

    method Sleep() returns (err: Option<Error>)
      modifies `clock
      ensures clock == old(clock) + 1
      ensures err == match world.sleep(old(clock)) case Some(f) => Some(Interrupted(f)) case None => None
    {
      err := match world.sleep(clock) case Some(f) => Some(Interrupted(f)) case None => None;
      clock := clock + 1;
    }

    /** Closes the client, if any, and dials a new one; if that fails the link stays closed. */
    method Reconnect() returns (err: Option<Error>)
      modifies `open, `clock
      ensures clock == old(clock) + 1 && open == (err == None)
      ensures err == match world.dial(old(clock)) case Some(f) => Some(DialFailed(f)) case None => None
    {
      Close();
      var failure := world.dial(clock);
      clock := clock + 1;
      if failure.Some? {
        return Some(DialFailed(failure.value));
      }
      open := true;
      return None;
    }

    /** Reports the exchanges of a call to the recorder under tok. */
    method Tap(r: Recorder, tok: nat, exs: seq<PduExchange>)
      requires r.Valid() && tok <= r.nextTok
      modifies r
      ensures r.Valid() && r.log == old(r.log) + Taps(tok, exs) && r.nextTok == old(r.nextTok) && r.closed == old(r.closed)
    {
      assert r.log == old(r.log) + Taps(tok, exs[..0]);
      for i := 0 to |exs|
        invariant r.Valid() && r.log == old(r.log) + Taps(tok, exs[..i])
        invariant r.nextTok == old(r.nextTok) && r.closed == old(r.closed)
      {
        TapsInTurn(old(r.log), tok, exs, i);
        r.OnPDU(Some(tok), exs[i]);
      }
      assert exs[..|exs|] == exs;
    }

    /** What the recorder keeps, if there is one and it is open. */
    ghost function Keeping(): Option<bool>
      reads `rec, rec
    {
      if rec == null || rec.closed then None else Some(rec.exceptions)
    }

    ghost function Now(): Moment
      reads `clock, `open
    {
      Moment(clock, open)
    }

    /** One attempt: begin, call, commit. */
    method Attempt(call: nat -> Answer) returns (err: Option<Error>, m: Made)
      requires Valid() && open
      modifies this`clock, rec
      ensures Valid() && clock == old(clock) + 1 && Keeping() == old(Keeping())
      ensures m == MadeAt(world, call, old(clock))
      ensures rec != null ==>
                && rec.log == old(rec.log) + OpsOf(old(rec.nextTok) + 1, stream, m)
                && rec.nextTok == old(rec.nextTok) + 1 && rec.closed == old(rec.closed)
      ensures if Lost(Keeping(), m) then NotSaved(m, err) else err == None
    {
      m := MadeAt(world, call, clock);
      clock := clock + 1;
      if rec == null {
        return None, m;
      }
      var cerr := Transact(rec, m);
      err := if cerr.Some? then Some(CaptureFailed(cerr.value, m.disk)) else None;
    }

    method Transact(r: Recorder, m: Made) returns (err: Option<CommitError>)
      requires r.Valid()
      modifies r
      ensures r.Valid() && r.log == old(r.log) + OpsOf(old(r.nextTok) + 1, stream, m)
      ensures r.nextTok == old(r.nextTok) + 1 && r.closed == old(r.closed)
      ensures err.Some? <==> !r.closed && Lost(Some(r.exceptions), m)
      ensures err.Some? ==> (err.value == FlushError <==> Savable(m.answer.exchanges, m.room))
    {
      ghost var log := r.log;
      var tok := r.Begin();
      Tap(r, tok, m.answer.exchanges);
      TapsCollect(log + [Begun(tok)], tok, m.answer.exchanges);
      err := r.Commit(tok, stream, OutcomeOf(m.answer.err), m.room, m.flush);
      OpsInTurn(log, tok, stream, m);
    }

    /** Since the recorder had log and tok, it has seen these attempts and nothing else. */
    ghost predicate Recorded(c: Context, made: seq<Made>)
      reads `rec, rec
    {
      rec != null ==>
        Records(c.log, rec.log, c.tok, stream, made) && rec.nextTok == c.tok + |made| && rec.closed == c.closed
    }

    /** The call has made these uses so far. */
    ghost predicate Has(c: Context, us: seq<Use>)
      reads this, rec
    {
      && Valid() && c.setting.keeping == Keeping() && Now() == AfterAll(c.setting.from, us)
      && Course(world, c.setting, us) && Recorded(c, MadesOf(us))
    }

    /** The call has made these uses, and this is the next stage of its loop. */
    ghost predicate Reaches(c: Context, us: seq<Use>, stage: Stage)
      reads this, rec
    {
      Has(c, us) && !Stopped(c.setting, us) && StageOf(c.setting.delay, us) == stage
    }

    /** The call has made these uses, which end it with this error. */
    ghost predicate Ends(c: Context, us: seq<Use>, err: Option<Error>)
      reads this, rec
    {
      Has(c, us) && Stopped(c.setting, us) && Returns(c.setting, us, err) && (err.Some? && err.value.ReadFailed? ==> open)
    }

    /** A use that is not an attempt adds nothing to the recorder. */
    lemma UseIsHad(c: Context, us: seq<Use>, u: Use, before: Moment, err: Option<Error>)
      requires Valid() && c.setting.keeping == Keeping() && before == AfterAll(c.setting.from, us) && Now() == After(before, u)
      requires Course(world, c.setting, us) && !Stopped(c.setting, us) && Recorded(c, MadesOf(us)) && !u.Asked?
      requires TurnsOut(world, c.setting.call, before.at, u) && Allowed(StageOf(c.setting.delay, us), before.open, u)
      ensures Has(c, us + [u])
      ensures StageOf(c.setting.delay, us + [u]) == StageAfter(c.setting.delay, StageOf(c.setting.delay, us), u)
      ensures MadesOf(us + [u]) == MadesOf(us)
    {
      OneUse(world, c.setting, us, u);
      OneUseReturns(c.setting, us, u, err);
    }

    /** The recorder has seen one attempt more. */
    lemma OneMoreRecorded(c: Context, made: seq<Made>, m: Made, mid: seq<Op>)
      requires rec != null ==>
                 && Records(c.log, mid, c.tok, stream, made) && rec.log == mid + OpsOf(c.tok + |made| + 1, stream, m)
                 && rec.nextTok == c.tok + |made| + 1 && rec.closed == c.closed
      ensures Recorded(c, made + [m])
    {
      if rec != null {
        RecordsOne(c.log, mid, c.tok, stream, made, m);
      }
    }

    /** An attempt is what the recorder saw last. */
    lemma AttemptIsHad(c: Context, us: seq<Use>, before: Moment, m: Made)
      requires Valid() && c.setting.keeping == Keeping() && before == AfterAll(c.setting.from, us) && Now() == After(before, Asked(m))
      requires Course(world, c.setting, us) && !Stopped(c.setting, us) && Recorded(c, MadesOf(us) + [m])
      requires TurnsOut(world, c.setting.call, before.at, Asked(m)) && StageOf(c.setting.delay, us) == ToCall && before.open
      ensures Has(c, us + [Asked(m)]) && MadesOf(us + [Asked(m)]) == MadesOf(us) + [m]
      ensures StageOf(c.setting.delay, us + [Asked(m)]) == StageAfter(c.setting.delay, ToCall, Asked(m))
    {
      OneUse(world, c.setting, us, Asked(m));
    }

    /** Waits and dials a call makes; the recorder does not notice. */
    method SleepIn(ghost c: Context, ghost us: seq<Use>) returns (err: Option<Error>, ghost us': seq<Use>)
      requires Has(c, us) && !Stopped(c.setting, us) && Allowed(StageOf(c.setting.delay, us), open, Slept(None))
      modifies `clock
      ensures MadesOf(us') == MadesOf(us) && open == old(open)
      ensures if err.Some? then Ends(c, us', err) && !err.value.ReadFailed? else Reaches(c, us', ToCall)
      ensures err == None ==> forall e :: Returns(c.setting, us', e) <==> Returns(c.setting, us, e)
    {
      err := Sleep();
      ghost var u := Slept(world.sleep(old(clock)));
      us' := us + [u];
      UseIsHad(c, us, u, old(Now()), err);
      forall e ensures (GoesOn(c.setting.keeping, u) ==> (Returns(c.setting, us', e) <==> Returns(c.setting, us, e))) {
        OneUseReturns(c.setting, us, u, e);
      }
      OneUseReturns(c.setting, us, u, err);
    }

    method DialIn(ghost c: Context, ghost us: seq<Use>) returns (err: Option<Error>, ghost us': seq<Use>)
      requires Has(c, us) && !Stopped(c.setting, us) && Allowed(StageOf(c.setting.delay, us), open, Dialled(None))
      modifies `clock, `open
      ensures MadesOf(us') == MadesOf(us) && open == (err == None)
      ensures if err.Some? then Ends(c, us', err) && !err.value.ReadFailed?
              else Reaches(c, us', if StageOf(c.setting.delay, us).ToRecover? then Begin(c.setting.delay) else ToCall)
      ensures err == None ==> forall e :: Returns(c.setting, us', e) <==> Returns(c.setting, us, e)
    {
      err := Reconnect();
      ghost var u := Dialled(world.dial(old(clock)));
      us' := us + [u];
      UseIsHad(c, us, u, old(Now()), err);
      forall e ensures (GoesOn(c.setting.keeping, u) ==> (Returns(c.setting, us', e) <==> Returns(c.setting, us, e))) {
        OneUseReturns(c.setting, us, u, e);
      }
      OneUseReturns(c.setting, us, u, err);
    }

    /** Waits, and dials if an earlier re-dial left the link closed. */
    method Prepare(delay: nat, ghost c: Context, ghost us: seq<Use>) returns (err: Option<Error>, ghost us': seq<Use>)
      requires delay == c.setting.delay && Reaches(c, us, Begin(delay))
      modifies `clock, `open
      ensures MadesOf(us') == MadesOf(us)
      ensures if err.Some? then Ends(c, us', err) && !err.value.ReadFailed? else Reaches(c, us', ToCall) && open
    {
      err, us' := None, us;
      if delay > 0 {
        err, us' := SleepIn(c, us');
        if err.Some? {
          return;
        }
      }
      if !open {
        err, us' := DialIn(c, us');
      }
    }

    /** The attempt of a round. */
    method Ask(call: nat -> Answer, ghost c: Context, ghost us: seq<Use>) returns (err: Option<Error>, m: Made, ghost us': seq<Use>)
      requires call == c.setting.call && Reaches(c, us, ToCall) && open
      modifies `clock, rec
      ensures Has(c, us') && us' == us + [Asked(m)] && MadesOf(us') == MadesOf(us) + [m] && open
      ensures StageOf(c.setting.delay, us') == StageAfter(c.setting.delay, ToCall, Asked(m))
      ensures if Lost(c.setting.keeping, m) then NotSaved(m, err) else err == None
    {
      ghost var mid := Log();
      err, m := Attempt(call);
      us' := us + [Asked(m)];
      OneMoreRecorded(c, MadesOf(us), m, mid);
      AttemptIsHad(c, us, old(Now()), m);
    }

    /** Prepares for another attempt after a failed one, if its error allows one: a pause
        after a busy exception, a new connection after a lost one. If that fails too, or
        the error is final, the loop stops. */
    method Recover(m: Made, delay: nat, ghost c: Context, ghost us: seq<Use>)
      returns (stop: bool, err: Option<Error>, ghost us': seq<Use>)
      requires delay == c.setting.delay && Has(c, us) && us != [] && us[|us| - 1] == Asked(m) && open
      requires StageOf(delay, us) == StageAfter(delay, ToCall, Asked(m)) && !Lost(c.setting.keeping, m) && m.answer.err.Some?
      modifies `clock, `open
      ensures MadesOf(us') == MadesOf(us) && err.Some?
      ensures if stop then Ends(c, us', err)
              else Reaches(c, us', Begin(delay)) && Returns(c.setting, us', err) && err == ReadError(m) && open
    {
      var failure := m.answer.err;
      err, us' := Some(ReadFailed(failure.value)), us;
      if ShouldRetry(failure) {
        if delay == 0 {
          var serr;
          serr, us' := SleepIn(c, us');
          if serr.Some? {
            return true, serr, us';
          }
        }
        return false, err, us';
      }
      if ShouldReconnect(failure) {
        var rerr;
        rerr, us' := DialIn(c, us');
        if rerr.Some? {
          return true, rerr, us';
        }
        return false, err, us';
      }
      return true, err, us';
    }

    /** One round of the retry loop: an attempt, unless a wait or a dial fails before it. */
    method Round(delay: nat, call: nat -> Answer, ghost c: Context, ghost us: seq<Use>)
      returns (stop: bool, err: Option<Error>, data: seq<Byte>, ghost us': seq<Use>)
      requires delay == c.setting.delay && call == c.setting.call && Reaches(c, us, Begin(delay))
      modifies this`clock, this`open, rec
      ensures |MadesOf(us)| <= |MadesOf(us')| <= |MadesOf(us)| + 1
      ensures if stop then Ends(c, us', err)
              else Reaches(c, us', Begin(delay)) && Returns(c.setting, us', err) && err.Some? && |MadesOf(us')| == |MadesOf(us)| + 1
      ensures err == None ==> open && AnsweredWith(us', data)
      ensures !stop ==> open
    {
      data := [];
      err, us' := Prepare(delay, c, us);
      if err.Some? {
        return true, err, data, us';
      }
      var made;
      err, made, us' := Ask(call, c, us');
      if err.Some? || made.answer.err == None {
        return true, err, made.answer.data, us';
      }
      stop, err, us' := Recover(made, delay, c, us');
    }

    /** Up to retries attempts of call; every one that is begun is committed once. */
    method Exchange(retries: Byte, delay: nat, call: nat -> Answer)
      returns (err: Option<Error>, data: seq<Byte>, ghost us: seq<Use>)
      requires Valid()
      modifies this`clock, this`open, rec
      ensures var c := Context(Setting(call, old(Keeping()), delay, old(Now())), old(Log()), old(Tokens()), rec != null && old(rec.closed));
              && Has(c, us) && Over(c.setting, retries, us) && Returns(c.setting, us, err)
      ensures retries == 0 ==> us == [] && err == None && data == []
      ensures err == None && retries > 0 ==> open && AnsweredWith(us, data)
    {
      err, data, us := None, [], [];
      ghost var c := Context(Setting(call, Keeping(), delay, Now()), Log(), Tokens(), rec != null && rec.closed);
      for attempt := 0 to retries
        invariant Reaches(c, us, Begin(delay)) && |MadesOf(us)| == attempt && Returns(c.setting, us, err)
        invariant attempt > 0 ==> err.Some?
        invariant attempt == 0 ==> us == [] && err == None && data == []
      {
        var stop, answer;
        stop, err, answer, us := Round(delay, call, c, us);
        if stop {
          if err == None {
            data := answer;
          }
          return;
        }
      }
    }
  }
}
