/** From the scan to the server: a capture recorded by a scan, replayed, answers with the
    registers of the scanned device (internal/modbus/client.go:554-690,
    internal/replay/replay.go:98-281). */
module ScanReplay {
  import opened Seqs
  import opened ScanTypes
  import opened Capfile
  import opened Calls
  import opened Exchange
  import opened Strategies
  import opened Runs
  import opened Scan
  import opened Losses
  import opened History
  import opened Replay
  import Safe

  /** The words of a device with this memory at the addresses of a read. */
  function WordsOf(memory: U16 -> U16, t: ScanTask): seq<U16>
    requires t.start + t.count <= 0x1_0000
  {
    seq(t.count, i requires 0 <= i < t.count => memory(t.start + i))
  }

  /** A sample of fc that shows the memory at the addresses of t. */
  ghost predicate ShowsMemory(split: Sample -> Option<AddressValues>, fc: Byte, memory: U16 -> U16, t: ScanTask, s: Sample) {
    && t.start + t.count <= 0x1_0000
    && s.stream == 1 && FunctionOf(s.request) == fc && !IsException(s)
    && split(s) == Some(AddressValues(t.start, WordsOf(memory, t)))
  }

  /** What a device with this memory does with a read: it answers with the registers, in one
      exchange, or refuses, with nothing but exceptions on the wire. */
  ghost predicate AnswersFrom(split: Sample -> Option<AddressValues>, fc: Byte, memory: U16 -> U16, t: ScanTask, a: Calls.Answer) {
    if a.err == None then
      && |a.exchanges| == 1 && !IsWrite(a.exchanges[0])
      && var ex := a.exchanges[0]; ShowsMemory(split, fc, memory, t, Sample(1, ex.received, ex.request, ex.response))
    else
      forall ex :: ex in a.exchanges ==> ex.response != [] && ex.response[0] >= 0x80
  }

  /** A world with a device of this memory, of which the addresses R are readable. */
  ghost predicate Remembers(w: World, R: set<int>, split: Sample -> Option<AddressValues>, fc: Byte, memory: U16 -> U16) {
    Honest(w, R) && forall n, t :: FitsRequest(t) ==> AnswersFrom(split, fc, memory, t, w.read(n, t))
  }

  // ----- what of the capture a replay hosts -----

  lemma {:induction false} HostedJoins(a: seq<Sample>, b: seq<Sample>, streams: set<U32>)
    ensures Hosted(a + b, streams) == Hosted(a, streams) + Hosted(b, streams)
  {
    if b == [] {
      NothingJoined(a);
      NothingJoined(Hosted(a, streams));
    } else {
      var front, s := b[..|b| - 1], b[|b| - 1];
      HostedJoins(a, front, streams);
      LastJoined(a, b);
      HostedOne(a + front, s, streams);
      Regroup(Hosted(a, streams), Hosted(front, streams), if s.stream in streams && !IsException(s) then [s] else []);
    }
  }

  lemma HostedOne(a: seq<Sample>, s: Sample, streams: set<U32>)
    ensures Hosted(a + [s], streams) == Hosted(a, streams) + if s.stream in streams && !IsException(s) then [s] else []
  {
    FrontOfSnoc(a, s);
  }

  lemma {:induction false} NothingHosted(exs: seq<PduExchange>, i: nat)
    requires forall ex :: ex in exs ==> IsException(SampleOf(ex, 1))
    ensures Hosted(SamplesFrom(exs, 1, i), {1}) == []
    decreases |exs| - i
  {
    if i < |exs| {
      NothingHosted(exs, i + 1);
      if !IsWrite(exs[i]) {
        HostedJoins([SampleOf(exs[i], 1)], SamplesFrom(exs, 1, i + 1), {1});
        HostedOne([], SampleOf(exs[i], 1), {1});
        assert [] + [SampleOf(exs[i], 1)] == [SampleOf(exs[i], 1)];
      }
    }
  }

  /** The hosted samples of the attempts made. */
  ghost function HostedOf(exceptions: bool, made: seq<Made>): seq<Sample> {
    Hosted(KeptReads(exceptions, AttemptsOf(1, made)), {1})
  }

  /** The sample an answer leaves. */
  function SampleLeft(m: Made): seq<Sample> {
    if m.answer.err == None && m.answer.exchanges != [] then [SampleOf(m.answer.exchanges[0], 1)] else []
  }

  lemma KeptOne(exceptions: bool, made: seq<Made>, m: Made)
    ensures KeptReads(exceptions, AttemptsOf(1, made + [m])) ==
            KeptReads(exceptions, AttemptsOf(1, made)) +
            if Keeps(exceptions, OutcomeOf(m.answer.err)) then Samples(m.answer.exchanges, 1) else []
  {
    FrontOfSnoc(made, m);
    FrontOfSnoc(AttemptsOf(1, made), Exchange.AttemptOf(1, m));
  }

  /** The hosted samples with those of one more attempt. */
  lemma HostedOfMore(exceptions: bool, made: seq<Made>, m: Made)
    ensures HostedOf(exceptions, made + [m]) ==
            HostedOf(exceptions, made) + if Keeps(exceptions, OutcomeOf(m.answer.err)) then Hosted(Samples(m.answer.exchanges, 1), {1}) else []
  {
    KeptOne(exceptions, made, m);
    HostedJoins(KeptReads(exceptions, AttemptsOf(1, made)),
                if Keeps(exceptions, OutcomeOf(m.answer.err)) then Samples(m.answer.exchanges, 1) else [], {1});
  }

  /** Each answer adds its sample, a refusal adds nothing. */
  lemma HostedOfOne(exceptions: bool, made: seq<Made>, m: Made, split: Sample -> Option<AddressValues>, fc: Byte, memory: U16 -> U16, t: ScanTask)
    requires AnswersFrom(split, fc, memory, t, m.answer)
    ensures HostedOf(exceptions, made + [m]) == HostedOf(exceptions, made) + SampleLeft(m)
  {
    HostedOfMore(exceptions, made, m);
    if m.answer.err == None {
      AnswerIsHosted(split, fc, memory, t, m.answer);
    } else {
      NothingHosted(m.answer.exchanges, 0);
      assert Samples(m.answer.exchanges, 1) == SamplesFrom(m.answer.exchanges, 1, 0);
    }
  }

  lemma AnswerIsHosted(split: Sample -> Option<AddressValues>, fc: Byte, memory: U16 -> U16, t: ScanTask, a: Answer)
    requires AnswersFrom(split, fc, memory, t, a) && a.err == None
    ensures Hosted(Samples(a.exchanges, 1), {1}) == [SampleOf(a.exchanges[0], 1)]
  {
    var s := SampleOf(a.exchanges[0], 1);
    SingleExchange(a.exchanges);
    HostedOne([], s, {1});
    assert [] + [s] == [s];
  }

  lemma SingleExchange(exs: seq<PduExchange>)
    requires |exs| == 1 && !IsWrite(exs[0])
    ensures Samples(exs, 1) == [SampleOf(exs[0], 1)]
  {
    assert SamplesFrom(exs, 1, 1) == [];
  }

  // ----- hosted samples and successful reads -----

  /** The samples show the memory at the addresses of the reads, one each, in order. */
  ghost predicate ShowReads(split: Sample -> Option<AddressValues>, fc: Byte, memory: U16 -> U16, samples: seq<Sample>, h: seq<Read>) {
    |samples| == |h| && forall i :: 0 <= i < |h| ==> ShowsMemory(split, fc, memory, h[i].task, samples[i])
  }

  /** What the attempt of one performance leaves, and when. */
  lemma TryLeaves(cfg: ScanConfig, w: World, exceptions: bool, R: set<int>, split: Sample -> Option<AddressValues>, fc: Byte, memory: U16 -> U16,
                  t: ScanTask, tr: Try, from: Moment) returns (m: Made)
    requires Remembers(w, R, split, fc, memory) && Performed(cfg, w, exceptions, t, tr, from) && InBounds(cfg, t)
    ensures MadesOf(tr.uses) == [m] && AnswersFrom(split, fc, memory, t, m.answer)
    ensures tr.result.err == None <==> m.answer.err == None
  {
    InBoundsFits(cfg, t);
    var n := SoundTry(cfg, w, exceptions, t, tr, from);
    m := MadeAt(w, Caller(w, t), n);
    assert m.answer == w.read(n, t);
  }

  /** The attempts of a step are answered from the memory; only the last one can succeed, and
      it decides the read. */
  ghost predicate StepAnswered(split: Sample -> Option<AddressValues>, fc: Byte, memory: U16 -> U16, s: Step) {
    var made := s.Attempts();
    && 1 <= |made| <= 2 && (|made| == 2 ==> made[0].answer.err.Some?)
    && (forall m :: m in made ==> AnswersFrom(split, fc, memory, s.task, m.answer))
    && (s.AsRead().result.success <==> made[|made| - 1].answer.err == None)
  }

  lemma StepIsAnswered(cfg: ScanConfig, w: World, exceptions: bool, R: set<int>, split: Sample -> Option<AddressValues>, fc: Byte,
                       memory: U16 -> U16, s: Step, from: Moment)
    requires Remembers(w, R, split, fc, memory) && StepIs(cfg, w, exceptions, s, from)
    ensures StepAnswered(split, fc, memory, s)
  {
    var first := TryLeaves(cfg, w, exceptions, R, split, fc, memory, s.task, s.first, from);
    if s.second.Some? {
      var second := TryLeaves(cfg, w, exceptions, R, split, fc, memory, s.task, s.second.value, AfterWait(s, from));
      assert s.Attempts() == [first, second];
    } else {
      NothingJoined([first]);
      assert s.Attempts() == [first];
    }
  }

  lemma StepsAreAnswered(cfg: ScanConfig, w: World, exceptions: bool, R: set<int>, split: Sample -> Option<AddressValues>, fc: Byte,
                         memory: U16 -> U16, steps: seq<Step>)
    requires Remembers(w, R, split, fc, memory) && StepsAre(cfg, w, exceptions, steps)
    ensures forall s :: s in steps ==> StepAnswered(split, fc, memory, s)
  {
    forall s | s in steps ensures StepAnswered(split, fc, memory, s) {
      var i :| 0 <= i < |steps| && steps[i] == s;
      assert StepAt(cfg, w, exceptions, steps, i);
      StepIsAnswered(cfg, w, exceptions, R, split, fc, memory, s, EndOf(steps[..i]));
    }
  }

  /** The sample a step leaves: one exactly if the step succeeds. */
  function StepLeft(s: Step): seq<Sample> {
    var made := s.Attempts();
    if made != [] then SampleLeft(made[|made| - 1]) else []
  }

  lemma HostedOfStep(exceptions: bool, split: Sample -> Option<AddressValues>, fc: Byte, memory: U16 -> U16, made: seq<Made>, s: Step)
    requires StepAnswered(split, fc, memory, s)
    ensures HostedOf(exceptions, made + s.Attempts()) == HostedOf(exceptions, made) + StepLeft(s)
    ensures if s.AsRead().result.success then |StepLeft(s)| == 1 && ShowsMemory(split, fc, memory, s.task, StepLeft(s)[0]) else StepLeft(s) == []
  {
    var more := s.Attempts();
    if |more| == 2 {
      assert more == [more[0]] + [more[1]];
      HostedOfBoth(exceptions, split, fc, memory, made, more[0], more[1], s.task);
    } else {
      OneElement(more);
      HostedOfOne(exceptions, made, more[0], split, fc, memory, s.task);
    }
  }

  lemma HostedOfBoth(exceptions: bool, split: Sample -> Option<AddressValues>, fc: Byte, memory: U16 -> U16, made: seq<Made>, first: Made, second: Made, t: ScanTask)
    requires AnswersFrom(split, fc, memory, t, first.answer) && AnswersFrom(split, fc, memory, t, second.answer) && first.answer.err.Some?
    ensures HostedOf(exceptions, made + ([first] + [second])) == HostedOf(exceptions, made) + SampleLeft(second)
  {
    HostedOfOne(exceptions, made, first, split, fc, memory, t);
    HostedOfOne(exceptions, made + [first], second, split, fc, memory, t);
    Regroup(made, [first], [second]);
    NothingJoined(HostedOf(exceptions, made));
  }

  /** One more read: its sample is shown too, if it succeeds. */
  lemma ReadShown(split: Sample -> Option<AddressValues>, fc: Byte, memory: U16 -> U16, samples: seq<Sample>, h: seq<Read>, left: seq<Sample>, r: Read)
    requires ShowReads(split, fc, memory, samples, h)
    requires if r.result.success then |left| == 1 && ShowsMemory(split, fc, memory, r.task, left[0]) else left == []
    ensures ShowReads(split, fc, memory, samples + left, h + if r.result.success then [r] else [])
  {
    if r.result.success {
      OneElement(left);
    } else {
      NothingJoined(samples);
      NothingJoined(h);
    }
  }

  /** The hosted samples are those of the successful reads. */
  lemma {:induction false} HostedShowsReads(exceptions: bool, split: Sample -> Option<AddressValues>, fc: Byte, memory: U16 -> U16, steps: seq<Step>)
    requires forall s :: s in steps ==> StepAnswered(split, fc, memory, s)
    ensures ShowReads(split, fc, memory, HostedOf(exceptions, MadeOf(steps)), Successes(PerformedOf(steps)))
  {
    if steps != [] {
      var front, s := steps[..|steps| - 1], steps[|steps| - 1];
      HostedShowsReads(exceptions, split, fc, memory, front);
      HostedOfStep(exceptions, split, fc, memory, MadeOf(front), s);
      SuccessesOne(PerformedOf(front), s.AsRead());
      ReadShown(split, fc, memory, HostedOf(exceptions, MadeOf(front)), Successes(PerformedOf(front)), StepLeft(s), s.AsRead());
    }
  }

  // ----- replaying a constant -----

  lemma {:induction false} ValuesOfTask(memory: U16 -> U16, t: ScanTask, n: nat, a: U16)
    requires t.start + t.count <= 0x1_0000 && n <= t.count
    ensures var vs := ValuesAt(AddressValues(t.start, WordsOf(memory, t)), n, a);
            && (forall v :: v in vs ==> v == memory(a))
            && (vs != [] <==> t.start <= a < t.start + n)
  {
    if n > 0 {
      ValuesOfTask(memory, t, n - 1, a);
    }
  }

  lemma {:induction false} HistoryOfConstant<V>(samples: seq<Sample>, obs: Sample -> seq<V>, v: V)
    requires forall s :: s in samples ==> forall x :: x in obs(s) ==> x == v
    ensures forall p :: p in HistoryOf(samples, obs) ==> p.v == v
  {
    if samples != [] {
      HistoryOfConstant(samples[..|samples| - 1], obs, v);
      var s := samples[|samples| - 1];
      assert s in samples;
      forall p | p in PointsAt(s.at, obs(s)) ensures p.v == v {
        var i :| 0 <= i < |obs(s)| && p == Point(s.at, obs(s)[i]);
        assert obs(s)[i] in obs(s);
      }
    }
  }

  /** Some sample shows something. */
  ghost predicate Shown<V>(samples: seq<Sample>, obs: Sample -> seq<V>) {
    exists s :: s in samples && obs(s) != []
  }

  /** Samples that show nothing but one value hold it at all times, if there are any. */
  lemma ConstantIsHeld<V>(samples: seq<Sample>, obs: Sample -> seq<V>, v: V, t: int)
    requires forall s :: s in samples ==> forall x :: x in obs(s) ==> x == v
    ensures Held(HistoryOf(samples, obs), t, HoldFirst) ==
            if Shown(samples, obs) then Some(v) else None
  {
    var h := HistoryOf(samples, obs);
    HistoryOfConstant(samples, obs, v);
    SeenIffShown(samples, obs);
    LatestIsIn(h, t);
    assert h == [] <==> Compress(h) == [];
  }

  /** One of the reads holds address a. */
  ghost predicate Hit(hits: seq<Read>, a: int) {
    exists i :: 0 <= i < |hits| && hits[i].task.Holds(a)
  }

  lemma {:induction false} CapturedIffSuccess(h: seq<Read>, a: int)
    ensures Captured(h, a) <==> Hit(Successes(h), a)
  {
    if h != [] {
      var front, r := h[..|h| - 1], h[|h| - 1];
      CapturedIffSuccess(front, a);
      CapturedGrows(front, r, a);
      assert h == front + [r];
      var s, s' := Successes(front), Successes(h);
      SuccessesOne(front, r);
      if Captured(front, a) {
        var i :| 0 <= i < |s| && s[i].task.Holds(a);
        assert s'[i] == s[i];
      }
      if r.result.success && r.task.Holds(a) {
        assert s'[|s|] == r;
      }
      if i :| 0 <= i < |s'| && s'[i].task.Holds(a) {
        assert i < |s| ==> s'[i] == s[i];
      }
    }
  }

  lemma ShownAt(split: Sample -> Option<AddressValues>, fc: Byte, memory: U16 -> U16, t: ScanTask, s: Sample, a: U16)
    requires ShowsMemory(split, fc, memory, t, s)
    ensures (forall x :: x in AddrObs(split, fc, a)(s) ==> x == memory(a)) && (AddrObs(split, fc, a)(s) != [] <==> t.Holds(a))
  {
    ValuesOfTask(memory, t, t.count, a);
  }

  /** Samples that show reads of a memory show an address exactly if a read holds it. */
  lemma ShownIffHit(split: Sample -> Option<AddressValues>, fc: Byte, memory: U16 -> U16, samples: seq<Sample>, hits: seq<Read>, a: U16)
    requires ShowReads(split, fc, memory, samples, hits)
    ensures forall s :: s in samples ==> forall x :: x in AddrObs(split, fc, a)(s) ==> x == memory(a)
    ensures Shown(samples, AddrObs(split, fc, a)) <==> Hit(hits, a)
  {
    var obs := AddrObs(split, fc, a);
    forall i | 0 <= i < |hits|
      ensures (forall x :: x in obs(samples[i]) ==> x == memory(a)) && (obs(samples[i]) != [] <==> hits[i].task.Holds(a))
    {
      ShownAt(split, fc, memory, hits[i].task, samples[i], a);
    }
    if s :| s in samples && obs(s) != [] {
      var i :| 0 <= i < |samples| && samples[i] == s;
      assert hits[i].task.Holds(a);
    }
    if i :| 0 <= i < |hits| && hits[i].task.Holds(a) {
      assert samples[i] in samples;
    }
  }

  /** So they hold exactly the addresses that were read. */
  lemma ShownIsHeld(split: Sample -> Option<AddressValues>, fc: Byte, memory: U16 -> U16, samples: seq<Sample>, h: seq<Read>, a: U16, t: int)
    requires ShowReads(split, fc, memory, samples, Successes(h))
    ensures Held(HistoryOf(samples, AddrObs(split, fc, a)), t, HoldFirst) == if Captured(h, a) then Some(memory(a)) else None
  {
    ShownIffHit(split, fc, memory, samples, Successes(h), a);
    ConstantIsHeld(samples, AddrObs(split, fc, a), memory(a), t);
    CapturedIffSuccess(h, a);
  }

  /** In a world where only the device fails the capture is complete. */
  lemma SoundIsComplete(cfg: ScanConfig, w: World, exceptions: bool, run: Run)
    requires Lawful(cfg, w, exceptions, run) && Sound(w)
    ensures run.cut == None && Complete(exceptions, run)
  {
    SoundScansConclude(cfg, w, exceptions, run);
    forall i, m | 0 <= i < |run.steps| && run.steps[i].second.Some? && m in MadesOf(run.steps[i].second.value.uses)
      ensures IsSaved(exceptions, m)
    {
      var s, from := run.steps[i], EndOf(run.steps[..i]);
      assert StepAt(cfg, w, exceptions, run.steps, i);
      SecondIsSaved(cfg, w, exceptions, s, from, m);
    }
    CompleteIff(cfg, w, exceptions, run);
  }

  lemma SecondIsSaved(cfg: ScanConfig, w: World, exceptions: bool, s: Step, from: Moment, m: Made)
    requires StepIs(cfg, w, exceptions, s, from) && Sound(w) && s.second.Some? && m in MadesOf(s.second.value.uses)
    ensures IsSaved(exceptions, m)
  {
    InBoundsFits(cfg, s.task);
    var n := SoundTry(cfg, w, exceptions, s.task, s.second.value, AfterWait(s, from));
  }

  /** The capture of a scan, replayed: an address that the scan captured answers with the
      register of the scanned device at any time, and no other address answers. */
  lemma ScannedIsReplayed(cfg: ScanConfig, w: World, R: set<int>, run: Run, exceptions: bool, split: Sample -> Option<AddressValues>,
                          fc: Byte, memory: U16 -> U16, a: U16, t: int)
    requires Remembers(w, R, split, fc, memory) && Lawful(cfg, w, exceptions, run)
    ensures Held(HistoryOf(Hosted(FileOf(exceptions, run), {1}), AddrObs(split, fc, a)), t, HoldFirst) ==
            if Captured(run.performed, a) then Some(memory(a)) else None
  {
    SoundIsComplete(cfg, w, exceptions, run);
    NothingJoined(MadeOf(run.steps));
    StepsAreAnswered(cfg, w, exceptions, R, split, fc, memory, run.steps);
    HostedShowsReads(exceptions, split, fc, memory, run.steps);
    ShownIsHeld(split, fc, memory, HostedOf(exceptions, run.made), run.performed, a, t);
  }

  /** After a scan that misses nothing, a device replayed from its capture reads like the
      scanned one: each readable register of the range has its value, every other address is
      unknown. */
  lemma ReplayIsTheDevice(cfg: ScanConfig, w: World, R: set<int>, run: Run, exceptions: bool, d: Device, fc: Byte,
                          memory: U16 -> U16, a: U16, t: int)
    requires Remembers(w, R, d.split, fc, memory) && Scans(cfg, w, exceptions, run)
    requires cfg.algo in {Algorithm.Safe, Algorithm.Smart, Algorithm.Deep} && !(cfg.algo == Algorithm.Safe && Safe.LengthWraps(cfg))
    requires d.source == Hosted(FileOf(exceptions, run), {1}) && d.opts.before == HoldFirst
    requires cfg.startAddress <= a <= cfg.endAddress
    ensures d.PlainAt(t, fc, a, 0) == if a in R then Some(memory(a)) else None
  {
    ScannedIsReplayed(cfg, w, R, run, exceptions, d.split, fc, memory, a, t);
    SoundScansConclude(cfg, w, exceptions, run);
    HonestIsIntervalReadable(cfg, w, exceptions, R, run.steps);
    ScanMissesNothing(cfg, run.performed, R, a);
  }
}
