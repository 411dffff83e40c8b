/** The replay clock (internal/replay/clock.go), over the reals: elapsed wall-clock time in
    nanoseconds to capture time in ticks. */
module Clock {

  /** The capture plays from start to end, loops times, or forever if loops is not positive. */
  datatype Clock = Clock(tickNS: nat, speed: real, start: nat, end: nat, loops: int)
  {
    /** Time moves. */
    predicate Runs(elapsed: int) {
      speed > 0.0 && elapsed > 0 && tickNS > 0 && start < end
    }

    function Span(): real {
      end as real - start as real
    }

    /** Ticks played. */
    function Played(elapsed: int): real
      requires tickNS > 0
    {
      elapsed as real * speed / tickNS as real
    }

    /** All loops are played. */
    predicate Over(elapsed: int) {
      Runs(elapsed) && loops > 0 && Played(elapsed) / Span() >= loops as real
    }

    function At(elapsed: int): int {
      if speed <= 0.0 || elapsed <= 0 || tickNS == 0 then start
      else if end <= start then end
      else
        var span, pos := Span(), Played(elapsed);
        if loops > 0 && pos / span >= loops as real then end
        else
          var into := Mod(pos, span);
          var clamped := if into >= span then span - 1.0 else into;
          start + clamped.Floor
    }
  }

  function Mod(x: real, y: real): real
    requires y > 0.0
  {
    x - (x / y).Floor as real * y
  }

  lemma DivTimes(x: real, y: real)
    requires y > 0.0
    ensures x / y * y == x
  {
  }

  lemma TimesLess(a: real, b: real, y: real)
    requires a <= b && y > 0.0
    ensures a * y <= b * y
    ensures a < b ==> a * y < b * y
  {
    assert (b - a) * y >= 0.0;
    assert a < b ==> (b - a) * y > 0.0;
  }

  lemma OneMoreTimes(q: real, y: real)
    ensures (q + 1.0) * y == q * y + y
  {
  }

  lemma Difference(d: real, q: real, y: real)
    ensures (d - q) * y == d * y - q * y
  {
  }

  /** The part e of y is m. */
  lemma PartOf(e: real, y: real, m: real)
    requires y > 0.0 && e * y == m
    ensures 0.0 <= e < 1.0 <==> 0.0 <= m < y
  {
    if e >= 1.0 {
      TimesLess(1.0, e, y);
    } else {
      TimesLess(e, 1.0, y);
    }
    if e >= 0.0 {
      TimesLess(0.0, e, y);
    } else {
      TimesLess(e, 0.0, y);
    }
  }

  /** Writing x as q times y and a rest m less than y. */
  lemma ModIs(x: real, y: real, q: int, m: real)
    requires y > 0.0 && x == q as real * y + m && 0.0 <= m < y
    ensures (x / y).Floor == q && Mod(x, y) == m
  {
    var d := x / y;
    DivTimes(x, y);
    Difference(d, q as real, y);
    PartOf(d - q as real, y, m);
  }

  lemma ModInRange(x: real, y: real)
    requires y > 0.0
    ensures 0.0 <= Mod(x, y) < y && x == (x / y).Floor as real * y + Mod(x, y)
  {
    var d, q := x / y, (x / y).Floor as real;
    DivTimes(x, y);
    Difference(d, q, y);
    PartOf(d - q, y, Mod(x, y));
  }

  lemma PlayedGrows(c: Clock, a: int, b: int)
    requires c.speed > 0.0 && c.tickNS > 0 && a <= b
    ensures c.Played(a) <= c.Played(b)
  {
    TimesLess(a as real, b as real, c.speed);
    QuotientGrows(a as real * c.speed, b as real * c.speed, c.tickNS as real);
  }

  lemma QuotientGrows(x: real, y: real, span: real)
    requires x <= y && span > 0.0
    ensures x / span <= y / span
  {
    var p, q := x / span, y / span;
    DivTimes(x, span);
    DivTimes(y, span);
    if p > q {
      TimesLess(q, p, span);
    }
  }

  /** While loops are left, the clock is as far into the window as the ticks played are
      into their loop. */
  lemma AtIsInto(c: Clock, elapsed: int)
    requires c.Runs(elapsed) && !c.Over(elapsed)
    ensures c.At(elapsed) == c.start + Mod(c.Played(elapsed), c.Span()).Floor
    ensures c.start <= c.At(elapsed) < c.end
  {
    ModInRange(c.Played(elapsed), c.Span());
  }

  /** The clock stays in the window; it shows the end exactly once all loops are played. */
  lemma AtStaysInWindow(c: Clock, elapsed: int)
    requires c.start < c.end
    ensures c.start <= c.At(elapsed) <= c.end
    ensures c.At(elapsed) == c.end <==> c.Over(elapsed)
  {
    if c.Runs(elapsed) && !c.Over(elapsed) {
      AtIsInto(c, elapsed);
    }
  }

  /** All loops are played exactly when loops times the span is. */
  lemma OverIsAllPlayed(c: Clock, elapsed: int)
    requires c.Runs(elapsed)
    ensures c.Over(elapsed) <==> c.loops > 0 && c.Played(elapsed) >= c.loops as real * c.Span()
  {
    var p, s, l := c.Played(elapsed), c.Span(), c.loops as real;
    DivTimes(p, s);
    if p / s >= l {
      TimesLess(l, p / s, s);
    } else {
      TimesLess(p / s, l, s);
    }
  }

  /** Once at the end, the clock never leaves it. */
  lemma NeverLeavesEnd(c: Clock, a: int, b: int)
    requires c.start < c.end && a <= b && c.At(a) == c.end
    ensures c.At(b) == c.end
  {
    AtStaysInWindow(c, a);
    PlayedGrows(c, a, b);
    QuotientGrows(c.Played(a), c.Played(b), c.Span());
  }

  /** The loop being played. */
  function LoopOf(c: Clock, elapsed: int): int
    requires c.Runs(elapsed)
  {
    (c.Played(elapsed) / c.Span()).Floor
  }

  /** Inside one loop the clock does not go back. */
  lemma MonotoneInLoop(c: Clock, a: int, b: int)
    requires c.Runs(a) && a <= b && !c.Over(b) && LoopOf(c, a) == LoopOf(c, b)
    ensures c.At(a) <= c.At(b)
  {
    PlayedGrows(c, a, b);
    QuotientGrows(c.Played(a), c.Played(b), c.Span());
    AtIsInto(c, a);
    AtIsInto(c, b);
  }

  /** Played once, the clock does not go back at all. */
  lemma MonotoneOnce(c: Clock, a: int, b: int)
    requires c.start < c.end && c.loops == 1 && a <= b
    ensures c.At(a) <= c.At(b)
  {
    AtStaysInWindow(c, a);
    AtStaysInWindow(c, b);
    if c.Runs(a) && !c.Over(b) {
      PlayedGrows(c, a, b);
      QuotientGrows(c.Played(a), c.Played(b), c.Span());
      FirstLoop(c, a);
      FirstLoop(c, b);
      MonotoneInLoop(c, a, b);
    }
  }

  lemma FirstLoop(c: Clock, a: int)
    requires c.Runs(a) && c.Played(a) / c.Span() < 1.0
    ensures LoopOf(c, a) == 0
  {
    var zero, p := c.Played(0), c.Played(a);
    PlayedGrows(c, 0, a);
    assert zero == 0.0;
    QuotientGrows(zero, p, c.Span());
    assert zero / c.Span() == 0.0;
  }

  /** Looping, the clock repeats after each span. */
  lemma Periodic(c: Clock, a: int, b: int)
    requires c.Runs(a) && c.Runs(b) && !c.Over(a) && !c.Over(b)
    requires c.Played(b) == c.Played(a) + c.Span()
    ensures c.At(b) == c.At(a)
  {
    var s, x := c.Span(), c.Played(a);
    var q, m := (x / s).Floor, Mod(x, s);
    ModInRange(x, s);
    OneMoreTimes(q as real, s);
    ModIs(x + s, s, q + 1, m);
    AtIsInto(c, a);
    AtIsInto(c, b);
  }

  /** The ticks played take the elapsed time, at the given speed. */
  lemma TicksTakeTime(c: Clock, elapsed: int)
    requires c.tickNS > 0
    ensures c.Played(elapsed) * c.tickNS as real == elapsed as real * c.speed
  {
    DivTimes(elapsed as real * c.speed, c.tickNS as real);
  }

  /** What the clock shows: behind the loops already played, tick k of the window is shown from
      the moment it has come until the next one comes. */
  lemma AtShowsTick(c: Clock, elapsed: int, k: int)
    requires c.Runs(elapsed) && !c.Over(elapsed) && c.start <= k < c.end
    ensures var from := LoopOf(c, elapsed) as real * (c.end - c.start) as real + (k - c.start) as real;
            c.At(elapsed) == k <==> from <= c.Played(elapsed) < from + 1.0
  {
    AtIsInto(c, elapsed);
    assert (c.end - c.start) as real == c.Span();
    assert Mod(c.Played(elapsed), c.Span()) == c.Played(elapsed) - LoopOf(c, elapsed) as real * c.Span();
  }

  /** Before time moves the clock shows the start; without a window it shows its end. */
  lemma AtRest(c: Clock, elapsed: int)
    ensures c.speed <= 0.0 || elapsed <= 0 || c.tickNS == 0 ==> c.At(elapsed) == c.start
    ensures c.speed > 0.0 && elapsed > 0 && c.tickNS > 0 && c.end <= c.start ==> c.At(elapsed) == c.end
  {
  }
}
