/** Serving a capture (internal/modbus/server.go:95-253): how a lookup becomes an answer,
    zeros, silence or an exception. */
module Serve {
  import opened ScanTypes
  import opened Capfile
  import opened History
  import opened Pdu
  import opened Replay

  /** What to answer for data the capture does not hold. */
  datatype Missing = MissingException | MissingZero | MissingSilence

  datatype Refusal = ErrBadUnitID | ErrNoResponse | ErrIllegalFunction | ErrIllegalDataAddress

  datatype Answer<+T> = Served(value: T) | Refused(why: Refusal)

  /** A history without points holds nothing. */
  lemma NothingShownNothingHeld<V>(samples: seq<Sample>, obs: Sample -> seq<V>, t: int, before: BeforeFirst)
    requires forall s :: s in samples ==> obs(s) == []
    ensures Held(HistoryOf(samples, obs), t, before) == None
  {
    SeenIffShown(samples, obs);
    var h := HistoryOf(samples, obs);
    assert h != [] ==> Compress(h) != [];
  }

  /** The captures served, one device for each unit id. */
  class CaptureHandler {
    const devices: map<Byte, Device>
    const missing: Missing
    /** Requests for data the capture does not hold. */
    var unrecorded: nat

    constructor (devices: map<Byte, Device>, missing: Missing)
      ensures this.devices == devices && this.missing == missing && unrecorded == 0
    {
      this.devices, this.missing, unrecorded := devices, missing, 0;
    }

    ghost predicate Ready()
      reads devices.Values
    {
      forall unit :: unit in devices ==> devices[unit].Built() && forall s :: s in devices[unit].source ==> s.request != []
    }

    /** What is answered for fc when the capture holds nothing. */
    ghost function AbsentAnswer(d: Device, fc: Byte, qty: U16): Answer<seq<U16>>
      reads d
    {
      if missing == MissingSilence then Refused(ErrNoResponse)
      else if missing == MissingZero && 1 <= fc <= 4 then Served(seq(qty, _ => 0))
      else if d.ShownInSource(fc) then Refused(ErrIllegalDataAddress)
      else Refused(ErrIllegalFunction)
    }

    /** Of the two exceptions, that for the function says that no hosted sample of the device is
        of it; that for the address, that some sample is. Neither is answered under
        MissingSilence, nor to FC01-04 under MissingZero. */
    lemma ExceptionTells(d: Device, fc: Byte, qty: U16)
      ensures !(1 <= fc <= 4) && fc != 0 && fc != 43 ==>
                && (AbsentAnswer(d, fc, qty) == Refused(ErrIllegalFunction) ==> forall s :: s in d.source && s.request != [] ==> s.request[0] != fc)
                && (AbsentAnswer(d, fc, qty) == Refused(ErrIllegalDataAddress) ==> exists s :: s in d.source && s.request != [] && s.request[0] == fc)
      ensures 1 <= fc <= 4 ==>
                && (AbsentAnswer(d, fc, qty) == Refused(ErrIllegalFunction) ==> forall t, addr, i :: d.PlainAt(t, fc, addr, i) == None)
                && (AbsentAnswer(d, fc, qty) == Refused(ErrIllegalDataAddress) ==> exists s :: s in d.source && s.request != [] && s.request[0] == fc)
      ensures missing == MissingSilence <==> AbsentAnswer(d, fc, qty) == Refused(ErrNoResponse)
      ensures missing == MissingZero && 1 <= fc <= 4 <==> AbsentAnswer(d, fc, qty).Served?
    {
      forall s | s in d.source && s.request != [] && s.request[0] == fc && !(1 <= fc <= 4) && fc != 43 ensures d.Shows(fc, s) {
      }
      if 1 <= fc <= 4 && !d.ShownInSource(fc) {
        forall t: int, addr: U16, i: nat ensures d.PlainAt(t, fc, addr, i) == None {
          UnshownIsUnknown(d, t, fc, addr, i);
        }
      }
    }

    method Absent(d: Device, fc: Byte, qty: U16) returns (r: Answer<seq<U16>>)
      requires d.Built() && forall s :: s in d.source ==> s.request != []
      ensures r == AbsentAnswer(d, fc, qty)
    {
      match missing {
        case MissingZero =>
          if 1 <= fc <= 4 {
            return Served(seq(qty, _ => 0));
          }
        case MissingSilence =>
          return Refused(ErrNoResponse);
        case MissingException =>
      }
      var has := d.HasFunction(fc);
      r := if has then Refused(ErrIllegalDataAddress) else Refused(ErrIllegalFunction);
    }

    /** All addresses of the request are known at t. */
    ghost predicate Known(d: Device, t: int, fc: Byte, addr: U16, qty: U16)
      reads d
    {
      Device.InSpan(fc, addr, qty) && forall i :: 0 <= i < qty ==> d.PlainAt(t, fc, addr, i).Some?
    }

    /** Known addresses with their values, all others zero. */
    ghost predicate ZeroFilled(d: Device, t: int, fc: Byte, addr: U16, qty: U16, vals: seq<U16>)
      reads d
    {
      && |vals| == qty
      && forall i :: 0 <= i < |vals| ==>
           vals[i] == match d.PlainAt(t, fc, addr, i) case Some(v) => v case None => 0
    }

    lemma UnshownIsUnknown(d: Device, t: int, fc: Byte, addr: U16, i: nat)
      requires 1 <= fc <= 4 && !d.ShownInSource(fc)
      ensures d.PlainAt(t, fc, addr, i) == None
    {
      if addr + i <= 0xFFFF {
        var obs := AddrObs(d.split, fc, addr + i);
        forall s | s in d.source ensures obs(s) == [] {
          assert !d.Shows(fc, s);
        }
        NothingShownNothingHeld(d.source, obs, t, d.opts.before);
      }
    }

    /** The answer to a read of qty addresses from addr with fc (1-4) at t, and whether the
        capture holds all of them. */
    method ValuesOf(d: Device, t: int, fc: Byte, addr: U16, qty: U16) returns (r: Answer<seq<U16>>, known: bool)
      requires d.Built() && (forall s :: s in d.source ==> s.request != []) && 1 <= fc <= 4
      ensures known <==> Known(d, t, fc, addr, qty)
      ensures known ==> r.Served? && |r.value| == qty && d.AllKnown(t, fc, addr, r.value)
      ensures !known && missing != MissingZero ==> r == AbsentAnswer(d, fc, qty)
      ensures !known && missing == MissingZero ==>
                && r.Served?
                && if Device.InSpan(fc, addr, qty) then ZeroFilled(d, t, fc, addr, qty, r.value) else r.value == seq(qty, _ => 0)
    {
      var vals, ok := d.Values(t, fc, addr, qty);
      if ok {
        return Served(vals), true;
      }
      known := false;
      if missing == MissingZero {
        r := ZeroFill(d, t, fc, addr, qty);
      } else {
        r := Absent(d, fc, qty);
      }
    }

    /** The answer to a read: of an unknown unit, of data the capture holds, and of other data. */
    ghost predicate Answers(t: int, unit: Byte, fc: Byte, addr: U16, qty: U16, r: Answer<seq<U16>>)
      reads devices.Values
    {
      if unit !in devices then r == Refused(ErrBadUnitID)
      else
        var d := devices[unit];
        if Known(d, t, fc, addr, qty) then r.Served? && |r.value| == qty && d.AllKnown(t, fc, addr, r.value)
        else if missing != MissingZero then r == AbsentAnswer(d, fc, qty)
        else r.Served? && if Device.InSpan(fc, addr, qty) then ZeroFilled(d, t, fc, addr, qty, r.value) else r.value == seq(qty, _ => 0)
    }

    /** How many requests for data the capture does not hold this one adds. */
    ghost function Misses(t: int, unit: Byte, fc: Byte, addr: U16, qty: U16): nat
      reads devices.Values
    {
      if unit in devices && !Known(devices[unit], t, fc, addr, qty) then 1 else 0
    }

    /** Answers a read and counts what the capture does not hold. */
    method Values(t: int, unit: Byte, fc: Byte, addr: U16, qty: U16) returns (r: Answer<seq<U16>>)
      requires Ready() && 1 <= fc <= 4
      modifies `unrecorded
      ensures Answers(t, unit, fc, addr, qty, r) && unrecorded == old(unrecorded) + Misses(t, unit, fc, addr, qty)
    {
      if unit !in devices {
        return Refused(ErrBadUnitID);
      }
      var known;
      r, known := ValuesOf(devices[unit], t, fc, addr, qty);
      if !known {
        unrecorded := unrecorded + 1;
      }
    }

    /** The answer under MissingZero to a request for data the capture does not hold. */
    method ZeroFill(d: Device, t: int, fc: Byte, addr: U16, qty: U16) returns (r: Answer<seq<U16>>)
      requires missing == MissingZero && 1 <= fc <= 4 && d.Built() && forall s :: s in d.source ==> s.request != []
      ensures r.Served?
      ensures if Device.InSpan(fc, addr, qty) then ZeroFilled(d, t, fc, addr, qty, r.value) else r == Served(seq(qty, _ => 0))
    {
      var has := d.HasFunction(fc);
      if has {
        var vals, have := d.Lookup(t, fc, addr, qty);
        if vals != [] {
          return Served(vals);
        }
      } else {
        forall i: nat ensures d.PlainAt(t, fc, addr, i) == None {
          UnshownIsUnknown(d, t, fc, addr, i);
        }
      }
      r := Absent(d, fc, qty);
    }

    /** The recorded response to exactly req, if it is one to req's function with at least n
        bytes of data; otherwise the answer for data the capture does not hold. */
    method ResponseOf(d: Device, t: int, req: seq<Byte>, n: nat) returns (r: Answer<seq<Byte>>, known: bool)
      requires d.Built() && (forall s :: s in d.source ==> s.request != []) && req != [] && !(1 <= req[0] <= 4)
      ensures var resp := d.Plain(ReqObs(req), t);
              known <==> resp.Some? && |resp.value| >= 1 + n && resp.value[0] == req[0]
      ensures known ==> r == Served(d.Plain(ReqObs(req), t).value)
      ensures !known ==> r.Refused? && AbsentAnswer(d, req[0], 0) == Refused(r.why)
    {
      var resp := d.Response(t, req);
      if resp.Some? && |resp.value| >= 1 + n && resp.value[0] == req[0] {
        return Served(resp.value), true;
      }
      var absent := Absent(d, req[0], 0);
      return Refused(absent.why), false;
    }

    /** Answers a request kept per request and counts what the capture does not hold. */
    method Response(t: int, unit: Byte, req: seq<Byte>, n: nat) returns (r: Answer<seq<Byte>>)
      requires Ready() && req != [] && !(1 <= req[0] <= 4)
      modifies `unrecorded
      ensures unit !in devices ==> r == Refused(ErrBadUnitID) && unrecorded == old(unrecorded)
      ensures unit in devices && r.Served? ==>
                && devices[unit].Plain(ReqObs(req), t) == Some(r.value) && |r.value| >= 1 + n && r.value[0] == req[0]
                && unrecorded == old(unrecorded)
      ensures unit in devices && r.Refused? ==>
                && AbsentAnswer(devices[unit], req[0], 0) == Refused(r.why) && unrecorded == old(unrecorded) + 1
                && var resp := devices[unit].Plain(ReqObs(req), t);
                   resp == None || |resp.value| < 1 + n || resp.value[0] != req[0]
    {
      if unit !in devices {
        return Refused(ErrBadUnitID);
      }
      var known;
      r, known := ResponseOf(devices[unit], t, req, n);
      if !known {
        unrecorded := unrecorded + 1;
      }
    }

    /** A coil read: the answer that Values gives, its words as booleans. Writes are refused. */
    method Coils(t: int, unit: Byte, isWrite: bool, addr: U16, qty: U16) returns (r: Answer<seq<bool>>, ghost words: Answer<seq<U16>>)
      requires Ready()
      modifies `unrecorded
      ensures isWrite ==> r == Refused(ErrIllegalFunction) && unrecorded == old(unrecorded)
      ensures !isWrite ==> Answers(t, unit, 1, addr, qty, words) && unrecorded == old(unrecorded) + Misses(t, unit, 1, addr, qty)
      ensures !isWrite && words.Refused? ==> r == Refused(words.why)
      ensures !isWrite && words.Served? ==>
                r.Served? && |r.value| == |words.value| && forall i :: 0 <= i < |words.value| ==> r.value[i] == (words.value[i] != 0)
    {
      if isWrite {
        return Refused(ErrIllegalFunction), Refused(ErrIllegalFunction);
      }
      var vals := Values(t, unit, 1, addr, qty);
      words := vals;
      if vals.Refused? {
        return Refused(vals.why), words;
      }
      r := Served(Bools(vals.value));
    }
  }
}
