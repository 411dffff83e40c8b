/** The capture recorder (internal/capfile/recorder.go): attempts are opened with Begin,
    collect the exchanges the client reports, and are written or dropped by Commit.
    Any number of attempts may be open at once. */
module Capfile {
  import opened Seqs
  import opened ScanTypes

  datatype PduExchange = PduExchange(request: seq<Byte>, response: seq<Byte>, received: int)

  datatype Sample = Sample(stream: U32, at: int, request: seq<Byte>, response: seq<Byte>)

  datatype Outcome = Succeeded | EndedInException | Failed

  datatype Flush = NotDue | Flushed | FlushFailed

  datatype CommitError = UnsupportedFunction | WriteFailed | FlushError

  /** One call of a recorder method, in the order in which its mutex admits them. */
  datatype Op =
    | Begun(tok: nat)
    | Tapped(tok: nat, ex: PduExchange)
    | Committed(tok: nat, stream: U32, outcome: Outcome, room: nat)
    | Closed

  /** An attempt as it was committed: its exchanges, and how many samples the file took
      before a write failed. */
  datatype Attempt = Attempt(stream: U32, outcome: Outcome, exchanges: seq<PduExchange>, room: nat)

  // ----- which exchanges a capture holds -----

  /** The read and write functions of the capture format library; the write functions are
      those of the MODBUS Application Protocol Specification. */
  predicate IsReadFunction(fc: Byte) {
    1 <= fc <= 4 || fc == 7 || fc == 8 || fc == 11 || fc == 12 || fc == 17 || fc == 20 || fc == 24 || fc == 43
  }

  predicate IsWriteFunction(fc: Byte) {
    fc == 5 || fc == 6 || fc == 15 || fc == 16 || 21 <= fc <= 23
  }

  function FunctionOf(request: seq<Byte>): Byte {
    if request == [] then 0 else request[0]
  }

  predicate IsDataDiagnostic(sub: Byte) {
    sub == 0 || sub == 2 || 0x0B <= sub <= 0x12
  }

  predicate IsSpecRead(request: seq<Byte>) {
    && request != [] && IsReadFunction(request[0])
    && (request[0] == 0x08 ==> |request| >= 3 && request[1] == 0 && IsDataDiagnostic(request[2]))
    && (request[0] == 0x2B ==> |request| >= 2 && request[1] == 0x0E)
  }

  predicate IsWrite(ex: PduExchange) {
    IsWriteFunction(FunctionOf(ex.request))
  }

  function SampleOf(ex: PduExchange, stream: U32): Sample {
    Sample(stream, ex.received, ex.request, ex.response)
  }

  /** All exchanges from i on but the writes, as samples in order. */
  function SamplesFrom(exs: seq<PduExchange>, stream: U32, i: nat): seq<Sample>
    decreases |exs| - i
  {
    if i >= |exs| then []
    else if IsWrite(exs[i]) then SamplesFrom(exs, stream, i + 1)
    else [SampleOf(exs[i], stream)] + SamplesFrom(exs, stream, i + 1)
  }

  function Samples(exs: seq<PduExchange>, stream: U32): seq<Sample> {
    SamplesFrom(exs, stream, 0)
  }

  /** The samples from i on that reach the file: up to the first request outside the
      supported reads, and up to the first write that fails. */
  function SavedFrom(exs: seq<PduExchange>, stream: U32, room: nat, i: nat): seq<Sample>
    decreases |exs| - i
  {
    if i >= |exs| then []
    else if IsWrite(exs[i]) then SavedFrom(exs, stream, room, i + 1)
    else if !IsSpecRead(exs[i].request) || room == 0 then []
    else [SampleOf(exs[i], stream)] + SavedFrom(exs, stream, room - 1, i + 1)
  }

  function Saved(exs: seq<PduExchange>, stream: U32, room: nat): seq<Sample> {
    SavedFrom(exs, stream, room, 0)
  }

  /** Nothing keeps the attempt from being saved whole. */
  ghost predicate Savable(exs: seq<PduExchange>, room: nat) {
    && (forall ex :: ex in exs ==> IsWrite(ex) || IsSpecRead(ex.request))
    && |Samples(exs, 0)| <= room
  }

  lemma {:induction false} SamplesCount(exs: seq<PduExchange>, s: U32, t: U32, i: nat)
    ensures |SamplesFrom(exs, s, i)| == |SamplesFrom(exs, t, i)|
    decreases |exs| - i
  {
    if i < |exs| {
      SamplesCount(exs, s, t, i + 1);
    }
  }

  lemma {:induction false} SavedFromIsPrefix(exs: seq<PduExchange>, stream: U32, room: nat, i: nat)
    ensures SavedFrom(exs, stream, room, i) <= SamplesFrom(exs, stream, i)
    decreases |exs| - i
  {
    if i < |exs| {
      if IsWrite(exs[i]) {
        SavedFromIsPrefix(exs, stream, room, i + 1);
      } else if room > 0 {
        SavedFromIsPrefix(exs, stream, room - 1, i + 1);
      }
    }
  }

  lemma {:induction false} SavedFromIsAll(exs: seq<PduExchange>, stream: U32, room: nat, i: nat)
    ensures SavedFrom(exs, stream, room, i) == SamplesFrom(exs, stream, i) <==>
            (forall k :: i <= k < |exs| ==> IsWrite(exs[k]) || IsSpecRead(exs[k].request)) && |SamplesFrom(exs, stream, i)| <= room
    decreases |exs| - i
  {
    if i < |exs| {
      if IsWrite(exs[i]) {
        SavedFromIsAll(exs, stream, room, i + 1);
      } else if room > 0 {
        SavedFromIsAll(exs, stream, room - 1, i + 1);
        SameHead(SampleOf(exs[i], stream), SavedFrom(exs, stream, room - 1, i + 1), SamplesFrom(exs, stream, i + 1));
      }
    }
  }

  /** What is saved is a prefix of the attempt, and all of it exactly if it is savable. */
  lemma SavedIsPrefix(exs: seq<PduExchange>, stream: U32, room: nat)
    ensures Saved(exs, stream, room) <= Samples(exs, stream)
    ensures Saved(exs, stream, room) == Samples(exs, stream) <==> Savable(exs, room)
  {
    SavedFromIsPrefix(exs, stream, room, 0);
    SavedFromIsAll(exs, stream, room, 0);
    SamplesCount(exs, stream, 0, 0);
  }

  /** What becomes of the exchange at i when these samples are written before it. */
  lemma SaveOne(written: seq<Sample>, exs: seq<PduExchange>, stream: U32, left: nat, i: nat)
    requires i < |exs|
    ensures IsWrite(exs[i]) ==>
              && written + SavedFrom(exs, stream, left, i) == written + SavedFrom(exs, stream, left, i + 1)
              && written + SamplesFrom(exs, stream, i) == written + SamplesFrom(exs, stream, i + 1)
    ensures !IsWrite(exs[i]) && (!IsSpecRead(exs[i].request) || left == 0) ==>
              written + SavedFrom(exs, stream, left, i) == written && |written + SamplesFrom(exs, stream, i)| > |written|
    ensures !IsWrite(exs[i]) && IsSpecRead(exs[i].request) && left > 0 ==>
              && written + SavedFrom(exs, stream, left, i) == (written + [SampleOf(exs[i], stream)]) + SavedFrom(exs, stream, left - 1, i + 1)
              && written + SamplesFrom(exs, stream, i) == (written + [SampleOf(exs[i], stream)]) + SamplesFrom(exs, stream, i + 1)
  {
    if !IsWrite(exs[i]) {
      Regroup(written, [SampleOf(exs[i], stream)], SamplesFrom(exs, stream, i + 1));
      if left > 0 {
        Regroup(written, [SampleOf(exs[i], stream)], SavedFrom(exs, stream, left - 1, i + 1));
      }
    }
  }

  // ----- what a history of calls leaves in the file -----

  /** What attempt tok has collected after op, if it had collected before. */
  function Collect(before: seq<PduExchange>, op: Op, tok: nat): seq<PduExchange> {
    match op
    case Tapped(t, ex) => if t == tok then before + [ex] else before
    case Committed(t, _, _, _) => if t == tok then [] else before
    case _ => before
  }

  /** The exchanges attempt tok has collected and not yet committed. */
  function PendingOf(log: seq<Op>, tok: nat): seq<PduExchange> {
    if log == [] then [] else Collect(PendingOf(log[..|log| - 1], tok), log[|log| - 1], tok)
  }

  /** The attempts committed before the recorder was closed, in the order of their commits. */
  function Attempts(log: seq<Op>): seq<Attempt> {
    if log == [] then []
    else
      var before, op := log[..|log| - 1], log[|log| - 1];
      if op.Committed? && Closed !in before then
        Attempts(before) + [Attempt(op.stream, op.outcome, PendingOf(before, op.tok), op.room)]
      else
        Attempts(before)
  }

  /** Only a successful attempt is kept, or an exception if those are recorded. */
  predicate Keeps(exceptions: bool, outcome: Outcome) {
    outcome == Succeeded || (exceptions && outcome == EndedInException)
  }

  function SavedOf(exceptions: bool, a: Attempt): seq<Sample> {
    if Keeps(exceptions, a.outcome) then Saved(a.exchanges, a.stream, a.room) else []
  }

  /** The file after these attempts. */
  function FileAfter(exceptions: bool, attempts: seq<Attempt>): seq<Sample> {
    if attempts == [] then []
    else FileAfter(exceptions, attempts[..|attempts| - 1]) + SavedOf(exceptions, attempts[|attempts| - 1])
  }

  lemma FileAfterOne(exceptions: bool, attempts: seq<Attempt>, a: Attempt)
    ensures FileAfter(exceptions, attempts + [a]) == FileAfter(exceptions, attempts) + SavedOf(exceptions, a)
  {
    assert (attempts + [a])[..|attempts + [a]| - 1] == attempts;
  }

  lemma OneMore(log: seq<Op>, op: Op)
    ensures forall tok :: PendingOf(log + [op], tok) == Collect(PendingOf(log, tok), op, tok)
    ensures if op.Committed? && Closed !in log then
              Attempts(log + [op]) == Attempts(log) + [Attempt(op.stream, op.outcome, PendingOf(log, op.tok), op.room)]
            else Attempts(log + [op]) == Attempts(log)
  {
    assert (log + [op])[..|log + [op]| - 1] == log;
  }

  // ----- the recorder -----

  /** The exchanges of tok in the map, none if it is not a key. */
  function Collected(pending: map<nat, seq<PduExchange>>, tok: nat): seq<PduExchange> {
    if tok in pending then pending[tok] else []
  }

  ghost predicate HoldsPending(pending: map<nat, seq<PduExchange>>, log: seq<Op>) {
    forall tok :: Collected(pending, tok) == PendingOf(log, tok)
  }

  lemma TapIsHeld(pending: map<nat, seq<PduExchange>>, log: seq<Op>, tok: nat, ex: PduExchange)
    requires HoldsPending(pending, log)
    ensures HoldsPending(pending[tok := Collected(pending, tok) + [ex]], log + [Tapped(tok, ex)])
  {
    OneMore(log, Tapped(tok, ex));
  }

  lemma CommitIsHeld(pending: map<nat, seq<PduExchange>>, log: seq<Op>, op: Op)
    requires HoldsPending(pending, log) && op.Committed?
    ensures HoldsPending(pending - {op.tok}, log + [op])
  {
    OneMore(log, op);
  }

  class Recorder {
    const exceptions: bool
    var pending: map<nat, seq<PduExchange>>
    var nextTok: nat
    var file: seq<Sample>
    var samples: nat
    var closed: bool

    ghost var log: seq<Op>

    ghost predicate Valid()
      reads this
    {
      && HoldsPending(pending, log)
      && (forall tok :: tok in pending ==> tok <= nextTok)
      && file == FileAfter(exceptions, Attempts(log)) && samples == |file|
      && (closed <==> Closed in log)
    }

    constructor (exceptions: bool)
      ensures Valid() && log == [] && this.exceptions == exceptions && !closed && file == [] && nextTok == 0
    {
      this.exceptions := exceptions;
      pending, nextTok, file, samples, closed := map[], 0, [], 0, false;
      log := [];
    }

    /** A token no other attempt has, with nothing collected for it. */
    method Begin() returns (tok: nat)
      requires Valid()
      modifies this
      ensures Valid() && tok == nextTok == old(nextTok) + 1
      ensures PendingOf(log, tok) == [] && log == old(log) + [Begun(tok)]
      ensures file == old(file) && closed == old(closed)
    {
      OneMore(log, Begun(nextTok + 1));
      nextTok := nextTok + 1;
      tok := nextTok;
      log := log + [Begun(tok)];
    }

    /** An exchange of a call made under a token; calls without one are not recorded. */
    method OnPDU(tok: Option<nat>, ex: PduExchange)
      requires Valid() && (tok.Some? ==> tok.value <= nextTok)
      modifies this
      ensures Valid() && file == old(file) && closed == old(closed) && nextTok == old(nextTok)
      ensures log == if tok.Some? then old(log) + [Tapped(tok.value, ex)] else old(log)
    {
      if tok == None {
        return;
      }
      OneMore(log, Tapped(tok.value, ex));
      TapIsHeld(pending, log, tok.value, ex);
      pending := pending[tok.value := Collected(pending, tok.value) + [ex]];
      log := log + [Tapped(tok.value, ex)];
    }

    /** room is the number of samples the file takes before a write fails; flush says
        whether a flush is due after the samples, and how it ends. */
    method Commit(tok: nat, stream: U32, outcome: Outcome, room: nat, flush: Flush) returns (err: Option<CommitError>)
      requires Valid()
      modifies this
      ensures Valid() && closed == old(closed) && nextTok == old(nextTok)
      ensures log == old(log) + [Committed(tok, stream, outcome, room)]
      ensures var exs := PendingOf(old(log), tok);
              if old(closed) || !Keeps(exceptions, outcome) then err == None && file == old(file)
              else
                && file == old(file) + Saved(exs, stream, room)
                && (Savable(exs, room) ==> err == if exs != [] && flush == FlushFailed then Some(FlushError) else None)
                && (!Savable(exs, room) ==> err == Some(UnsupportedFunction) || err == Some(WriteFailed))
    {
      ghost var before := Attempts(log);
      var exs := Collected(pending, tok);
      OneMore(log, Committed(tok, stream, outcome, room));
      CommitIsHeld(pending, log, Committed(tok, stream, outcome, room));
      FileAfterOne(exceptions, before, Attempt(stream, outcome, exs, room));
      pending := pending - {tok};
      log := log + [Committed(tok, stream, outcome, room)];
      SavedIsPrefix(exs, stream, room);
      if closed || |exs| == 0 {
        return None;
      }
      if !Keeps(exceptions, outcome) {
        return None;
      }
      var stopped := Save(exs, stream, room);
      if stopped.Some? {
        return stopped;
      }
      return if flush == FlushFailed then Some(FlushError) else None;
    }

    /** The writing loop of Commit. */
    method Save(exs: seq<PduExchange>, stream: U32, room: nat) returns (err: Option<CommitError>)
      requires samples == |file|
      modifies `file, `samples
      ensures samples == |file| && file == old(file) + Saved(exs, stream, room)
      ensures err == None <==> Saved(exs, stream, room) == Samples(exs, stream)
      ensures err.Some? ==> err.value != FlushError
    {
      ghost var written: seq<Sample> := [];
      var taken := 0;
      err := None;
      for i := 0 to |exs|
        invariant err == None
        invariant samples == |file| && file == old(file) + written && |written| == taken <= room
        invariant Saved(exs, stream, room) == written + SavedFrom(exs, stream, room - taken, i)
        invariant Samples(exs, stream) == written + SamplesFrom(exs, stream, i)
      {
        var s := SampleOf(exs[i], stream);
        SaveOne(written, exs, stream, room - taken, i);
        if IsWrite(exs[i]) {
          continue;
        }
        if !IsSpecRead(s.request) {
          return Some(UnsupportedFunction);
        }
        if taken == room {
          return Some(WriteFailed);
        }
        file := file + [s];
        samples := samples + 1;
        taken := taken + 1;
        written := written + [s];
      }
    }

    method Close()
      requires Valid()
      modifies this
      ensures Valid() && closed && file == old(file) && nextTok == old(nextTok)
      ensures log == if old(closed) then old(log) else old(log) + [Closed]
    {
      if closed {
        return;
      }
      OneMore(log, Closed);
      closed := true;
      log := log + [Closed];
    }
  }

  // ----- attempts do not disturb one another -----

  function Taps(tok: nat, exs: seq<PduExchange>): seq<Op> {
    if exs == [] then [] else Taps(tok, exs[..|exs| - 1]) + [Tapped(tok, exs[|exs| - 1])]
  }

  /** An attempt on its own: its exchanges, then its commit. */
  function Alone(a: Attempt): seq<Op> {
    Taps(0, a.exchanges) + [Committed(0, a.stream, a.outcome, a.room)]
  }

  /** The attempts one after the other. */
  function Serial(attempts: seq<Attempt>): seq<Op> {
    if attempts == [] then [] else Serial(attempts[..|attempts| - 1]) + Alone(attempts[|attempts| - 1])
  }

  lemma {:induction false} TapsCollect(log: seq<Op>, tok: nat, exs: seq<PduExchange>)
    requires PendingOf(log, tok) == []
    ensures PendingOf(log + Taps(tok, exs), tok) == exs
    ensures Attempts(log + Taps(tok, exs)) == Attempts(log)
    ensures Closed in log + Taps(tok, exs) <==> Closed in log
  {
    if exs == [] {
      NothingJoined(log);
    } else {
      var front, op := exs[..|exs| - 1], Tapped(tok, exs[|exs| - 1]);
      TapsCollect(log, tok, front);
      Regroup(log, Taps(tok, front), [op]);
      OneMore(log + Taps(tok, front), op);
      Snoc(exs);
    }
  }

  lemma AloneCommits(log: seq<Op>, a: Attempt)
    requires PendingOf(log, 0) == [] && Closed !in log
    ensures Attempts(log + Alone(a)) == Attempts(log) + [a]
    ensures PendingOf(log + Alone(a), 0) == [] && Closed !in log + Alone(a)
  {
    TapsCollect(log, 0, a.exchanges);
    var tapped := log + Taps(0, a.exchanges);
    var commit := Committed(0, a.stream, a.outcome, a.room);
    OneMore(tapped, commit);
    assert log + Alone(a) == tapped + [commit];
  }

  lemma {:induction false} SerialAttempts(attempts: seq<Attempt>)
    ensures Attempts(Serial(attempts)) == attempts
    ensures PendingOf(Serial(attempts), 0) == [] && Closed !in Serial(attempts)
  {
    if attempts != [] {
      var front, a := attempts[..|attempts| - 1], attempts[|attempts| - 1];
      SerialAttempts(front);
      AloneCommits(Serial(front), a);
      assert Serial(attempts) == Serial(front) + Alone(a);
      assert attempts == front + [a];
    }
  }

  /** Any interleaving leaves the file that running the attempts one after the other, in
      the order of their commits and under a single token, would leave. */
  lemma InterleavingIsSerial(exceptions: bool, log: seq<Op>)
    ensures FileAfter(exceptions, Attempts(log)) == FileAfter(exceptions, Attempts(Serial(Attempts(log))))
  {
    SerialAttempts(Attempts(log));
  }

  predicate Concerns(op: Op, toks: set<nat>) {
    !op.Closed? && op.tok in toks
  }

  /** The history without the calls made for toks. */
  function Without(log: seq<Op>, toks: set<nat>): seq<Op> {
    if log == [] then []
    else
      var before := Without(log[..|log| - 1], toks);
      if Concerns(log[|log| - 1], toks) then before else before + [log[|log| - 1]]
  }

  lemma {:induction false} WithoutKeepsTheRest(exceptions: bool, log: seq<Op>, toks: set<nat>)
    requires forall op :: op in log && Concerns(op, toks) && op.Committed? ==> !Keeps(exceptions, op.outcome)
    ensures Closed in Without(log, toks) <==> Closed in log
    ensures forall tok :: tok !in toks ==> PendingOf(Without(log, toks), tok) == PendingOf(log, tok)
    ensures FileAfter(exceptions, Attempts(Without(log, toks))) == FileAfter(exceptions, Attempts(log))
  {
    if log != [] {
      var front, op := log[..|log| - 1], log[|log| - 1];
      assert log == front + [op];
      WithoutKeepsTheRest(exceptions, front, toks);
      OneMore(front, op);
      if op.Committed? {
        FileAfterOne(exceptions, Attempts(front), Attempt(op.stream, op.outcome, PendingOf(front, op.tok), op.room));
      }
      if !Concerns(op, toks) {
        OneMore(Without(front, toks), op);
        if op.Committed? {
          FileAfterOne(exceptions, Attempts(Without(front, toks)), Attempt(op.stream, op.outcome, PendingOf(front, op.tok), op.room));
        }
      }
    }
  }

  /** Failed attempts leave nothing behind: the file is the one a history in which they
      never happened leaves, however their calls were interleaved with others. */
  lemma FailedAttemptsLeaveNothing(exceptions: bool, log: seq<Op>, toks: set<nat>)
    requires forall op :: op in log && Concerns(op, toks) && op.Committed? ==> !Keeps(exceptions, op.outcome)
    ensures FileAfter(exceptions, Attempts(Without(log, toks))) == FileAfter(exceptions, Attempts(log))
  {
    WithoutKeepsTheRest(exceptions, log, toks);
  }

  /** The reads of the kept attempts, each attempt contiguous, in commit order. */
  function KeptReads(exceptions: bool, attempts: seq<Attempt>): seq<Sample> {
    if attempts == [] then []
    else
      var a := attempts[|attempts| - 1];
      KeptReads(exceptions, attempts[..|attempts| - 1]) + if Keeps(exceptions, a.outcome) then Samples(a.exchanges, a.stream) else []
  }

  /** Recording is all-or-nothing exactly while kept attempts are savable: the file then
      holds all reads of the kept attempts and nothing else. */
  lemma {:induction false} AllOrNothing(exceptions: bool, attempts: seq<Attempt>)
    ensures FileAfter(exceptions, attempts) == KeptReads(exceptions, attempts) <==>
            forall a :: a in attempts && Keeps(exceptions, a.outcome) ==> Savable(a.exchanges, a.room)
    ensures |FileAfter(exceptions, attempts)| <= |KeptReads(exceptions, attempts)|
  {
    if attempts != [] {
      var front, a := attempts[..|attempts| - 1], attempts[|attempts| - 1];
      assert attempts == front + [a];
      AllOrNothing(exceptions, front);
      SavedIsPrefix(a.exchanges, a.stream, a.room);
      var f, k := FileAfter(exceptions, front), KeptReads(exceptions, front);
      var s := SavedOf(exceptions, a);
      var w := if Keeps(exceptions, a.outcome) then Samples(a.exchanges, a.stream) else [];
      assert |s| <= |w|;
      if f + s == k + w {
        assert |f| == |k|;
        assert f == (f + s)[..|f|] == (k + w)[..|k|] == k;
        assert s == (f + s)[|f|..] == (k + w)[|k|..] == w;
      }
    }
  }

  // ----- what of an exchange reaches the file -----

  /** The exchanges that are no writes, in order. */
  function ReadsAmong(exs: seq<PduExchange>): seq<PduExchange> {
    if exs == [] then []
    else ReadsAmong(exs[..|exs| - 1]) + if IsWrite(exs[|exs| - 1]) then [] else [exs[|exs| - 1]]
  }

  /** A sample that tells all of an exchange. */
  predicate Tells(s: Sample, stream: U32, ex: PduExchange) {
    s.stream == stream && s.at == ex.received && s.request == ex.request && s.response == ex.response
  }

  ghost predicate TellAll(samples: seq<Sample>, stream: U32, exs: seq<PduExchange>) {
    |samples| == |exs| && forall i :: 0 <= i < |exs| ==> Tells(samples[i], stream, exs[i])
  }

  lemma {:induction false} ReadsFrom(exs: seq<PduExchange>, stream: U32, i: nat)
    requires i <= |exs|
    ensures |ReadsAmong(exs[..i])| + |SamplesFrom(exs, stream, i)| == |ReadsAmong(exs)|
    ensures TellAll(SamplesFrom(exs, stream, i), stream, ReadsAmong(exs)[|ReadsAmong(exs)| - |SamplesFrom(exs, stream, i)|..])
    decreases |exs| - i
  {
    if i == |exs| {
      assert exs[..i] == exs;
    } else {
      ReadsFrom(exs, stream, i + 1);
      FrontOfFront(exs, i + 1, i);
      ReadsAmongIsPrefix(exs, i + 1);
      var all, rest := ReadsAmong(exs), SamplesFrom(exs, stream, i + 1);
      if !IsWrite(exs[i]) {
        assert ReadsAmong(exs[..i + 1]) == ReadsAmong(exs[..i]) + [exs[i]];
        assert all[|all| - |rest| - 1] == exs[i];
      }
    }
  }

  lemma {:induction false} ReadsAmongIsPrefix(exs: seq<PduExchange>, i: nat)
    requires i <= |exs|
    ensures ReadsAmong(exs[..i]) <= ReadsAmong(exs)
  {
    if i < |exs| {
      ReadsAmongIsPrefix(exs[..|exs| - 1], i);
      FrontOfFront(exs, |exs| - 1, i);
    } else {
      assert exs[..i] == exs;
    }
  }

  /** The samples of an attempt tell, in order, its exchanges that are no writes: the request,
      the response, the time it was received, and the stream. */
  lemma SamplesTellReads(exs: seq<PduExchange>, stream: U32)
    ensures TellAll(Samples(exs, stream), stream, ReadsAmong(exs))
  {
    ReadsFrom(exs, stream, 0);
    assert exs[..0] == [];
  }

  /** What an attempt leaves in the file tells the first of these. */
  lemma SavedTellsReads(exs: seq<PduExchange>, stream: U32, room: nat)
    ensures var saved := Saved(exs, stream, room);
            |saved| <= |ReadsAmong(exs)| && TellAll(saved, stream, ReadsAmong(exs)[..|saved|])
    ensures Savable(exs, room) ==> |Saved(exs, stream, room)| == |ReadsAmong(exs)|
  {
    SamplesTellReads(exs, stream);
    SavedIsPrefix(exs, stream, room);
  }

  /** Every sample in the file tells an exchange of a kept attempt that is no write. */
  lemma {:induction false} FileTellsExchanges(exceptions: bool, attempts: seq<Attempt>, s: Sample)
    requires s in FileAfter(exceptions, attempts)
    ensures exists a, ex :: a in attempts && Keeps(exceptions, a.outcome) && ex in a.exchanges && !IsWrite(ex) && Tells(s, a.stream, ex)
  {
    var front, a := attempts[..|attempts| - 1], attempts[|attempts| - 1];
    if s in FileAfter(exceptions, front) {
      FileTellsExchanges(exceptions, front, s);
      var b, ex :| b in front && Keeps(exceptions, b.outcome) && ex in b.exchanges && !IsWrite(ex) && Tells(s, b.stream, ex);
      assert b in attempts;
    } else {
      var saved, told := Saved(a.exchanges, a.stream, a.room), ReadsAmong(a.exchanges);
      SavedTellsReads(a.exchanges, a.stream, a.room);
      var i :| 0 <= i < |saved| && saved[i] == s;
      assert Tells(saved[i], a.stream, told[..|saved|][i]);
      ReadsAreExchanges(a.exchanges, told[i]);
    }
  }

  lemma {:induction false} ReadsAreExchanges(exs: seq<PduExchange>, ex: PduExchange)
    ensures ex in ReadsAmong(exs) <==> ex in exs && !IsWrite(ex)
  {
    if exs != [] {
      ReadsAreExchanges(exs[..|exs| - 1], ex);
      assert exs == exs[..|exs| - 1] + [exs[|exs| - 1]];
    }
  }

  /** Which requests a capture may hold: the data reads; of the diagnostics, those that return
      data and change nothing; of the encapsulated transports, device identification. */
  lemma RecordedRequests(request: seq<Byte>)
    ensures request == [] ==> !IsSpecRead(request)
    ensures request != [] && request[0] !in {8, 43} ==>
              (IsSpecRead(request) <==> request[0] in {1, 2, 3, 4, 7, 11, 12, 17, 20, 24})
    ensures request != [] && request[0] == 8 ==>
              (IsSpecRead(request) <==> |request| >= 3 && request[1] == 0 && request[2] in {0, 2, 11, 12, 13, 14, 15, 16, 17, 18})
    ensures request != [] && request[0] == 43 ==> (IsSpecRead(request) <==> |request| >= 2 && request[1] == 14)
  {
  }

  /** A write is never saved, and never an error: it is one of these functions, none of which a
      capture may hold. */
  lemma WritesAreSkipped(ex: PduExchange)
    ensures IsWrite(ex) <==> ex.request != [] && ex.request[0] in {5, 6, 15, 16, 21, 22, 23}
    ensures IsWrite(ex) ==> !IsSpecRead(ex.request)
  {
  }

  /** One attempt with two register reads, for the second of which the file has no room. */
  function CutShort(): Attempt {
    Attempt(1, Succeeded, [ReadOfOne(0), ReadOfOne(1)], 1)
  }

  /** An FC03 read of one register. */
  function ReadOfOne(addr: Byte): PduExchange {
    PduExchange([3, 0, addr, 0, 1], [3, 2, 0, 0], 0)
  }

  /** A write that fails in the middle of an attempt leaves part of it in the file. */
  lemma PartOfAnAttempt()
    ensures FileAfter(false, [CutShort()]) == [SampleOf(ReadOfOne(0), 1)]
    ensures KeptReads(false, [CutShort()]) == [SampleOf(ReadOfOne(0), 1), SampleOf(ReadOfOne(1), 1)]
  {
    var a, exs := CutShort(), [ReadOfOne(0), ReadOfOne(1)];
    assert [a][..0] == [];
    assert SavedFrom(exs, 1, 0, 1) == [];
    assert SavedFrom(exs, 1, 1, 0) == [SampleOf(ReadOfOne(0), 1)];
    assert SamplesFrom(exs, 1, 2) == [];
    assert SamplesFrom(exs, 1, 1) == [SampleOf(ReadOfOne(1), 1)];
    assert FileAfter(false, []) == [] && KeptReads(false, []) == [];
  }
}
