/** Sample and hold (internal/replay/replay.go:46-101, 168-173, 236-260): change lists, the
    lookup that searches them, and the plain reading of a capture they must agree with. */
module History {
  import opened Seqs
  import opened ScanTypes
  import opened Capfile

  /** A value seen at a time. */
  datatype Point<+V> = Point(at: int, v: V)

  /** What a value is before its first sample. */
  datatype BeforeFirst = HoldFirst | AbsentUntilSampled

  // ----- the plain reading: a linear scan over everything seen -----

  function Later<V>(best: Option<Point<V>>, p: Point<V>, t: int): Option<Point<V>> {
    if p.at <= t && (best == None || best.value.at <= p.at) then Some(p) else best
  }

  function Sooner<V>(best: Option<Point<V>>, p: Point<V>): Option<Point<V>> {
    if best == None || p.at < best.value.at then Some(p) else best
  }

  /** The last point at or before t; among several of one time the one seen last. */
  function Latest<V>(h: seq<Point<V>>, t: int): Option<Point<V>> {
    if h == [] then None else Later(Latest(h[..|h| - 1], t), h[|h| - 1], t)
  }

  /** The first point; among several of one time the one seen first. */
  function Earliest<V>(h: seq<Point<V>>): Option<Point<V>> {
    if h == [] then None else Sooner(Earliest(h[..|h| - 1]), h[|h| - 1])
  }

  /** The value that holds at t: the latest one, or before any the first one, if it is
      held from the start. */
  function Held<V>(h: seq<Point<V>>, t: int, before: BeforeFirst): Option<V> {
    match Latest(h, t)
    case Some(p) => Some(p.v)
    case None =>
      if before == HoldFirst && Earliest(h).Some? then Some(Earliest(h).value.v) else None
  }

  /** The times never decrease. */
  ghost predicate Ordered<V>(h: seq<Point<V>>) {
    |h| <= 1 || (Ordered(h[..|h| - 1]) && h[|h| - 2].at <= h[|h| - 1].at)
  }

  lemma {:induction false} OrderedPairs<V>(h: seq<Point<V>>)
    requires Ordered(h)
    ensures forall i, j :: 0 <= i <= j < |h| ==> h[i].at <= h[j].at
  {
    if |h| > 1 {
      OrderedPairs(h[..|h| - 1]);
    }
  }

  lemma OrderedOne<V>(h: seq<Point<V>>, p: Point<V>)
    ensures Ordered(h + [p]) <==> Ordered(h) && (h != [] ==> h[|h| - 1].at <= p.at)
  {
    assert (h + [p])[..|h + [p]| - 1] == h;
  }

  lemma {:induction false} LatestIsIn<V>(h: seq<Point<V>>, t: int)
    ensures Latest(h, t).Some? ==> Latest(h, t).value in h && Latest(h, t).value.at <= t
    ensures Latest(h, t) == None ==> forall p :: p in h ==> p.at > t
    ensures Earliest(h).Some? <==> h != []
    ensures Earliest(h).Some? ==> Earliest(h).value in h
  {
    if h != [] {
      LatestIsIn(h[..|h| - 1], t);
      assert h == h[..|h| - 1] + [h[|h| - 1]];
    }
  }

  lemma LatestOne<V>(h: seq<Point<V>>, p: Point<V>, t: int)
    ensures Latest(h + [p], t) == Later(Latest(h, t), p, t) && Earliest(h + [p]) == Sooner(Earliest(h), p)
  {
    assert (h + [p])[..|h + [p]| - 1] == h;
  }

  /** In an ordered history the first i points being those at or before t, the i-th is the latest. */
  lemma {:induction false} LatestIsCut<V>(h: seq<Point<V>>, t: int, i: nat)
    requires Ordered(h) && i <= |h|
    requires (forall k :: 0 <= k < i ==> h[k].at <= t) && forall k :: i <= k < |h| ==> h[k].at > t
    ensures Latest(h, t) == if i == 0 then None else Some(h[i - 1])
    ensures Earliest(h) == if h == [] then None else Some(h[0])
  {
    if h != [] {
      var front := h[..|h| - 1];
      LatestIsCut(front, t, if i < |h| then i else i - 1);
    }
  }

  /** Point i is the one that holds at t: no other one at or before t is later, or as late and
      seen after it. */
  ghost predicate LatestAt<V>(h: seq<Point<V>>, t: int, i: nat)
    requires i < |h|
  {
    h[i].at <= t && forall k :: 0 <= k < |h| && h[k].at <= t ==> h[k].at < h[i].at || (h[k].at == h[i].at && k <= i)
  }

  /** Point i is the first one: no other one is sooner, or as soon and seen before it. */
  ghost predicate FirstAt<V>(h: seq<Point<V>>, i: nat)
    requires i < |h|
  {
    forall k :: 0 <= k < |h| ==> h[i].at < h[k].at || (h[i].at == h[k].at && i <= k)
  }

  lemma {:induction false} LatestIs<V>(h: seq<Point<V>>, t: int) returns (i: nat)
    requires Latest(h, t).Some?
    ensures i < |h| && Latest(h, t) == Some(h[i]) && LatestAt(h, t, i)
  {
    var front := h[..|h| - 1];
    if Latest(front, t).Some? {
      i := LatestIs(front, t);
      if Latest(h, t) != Latest(front, t) {
        i := |h| - 1;
      } else if h[|h| - 1].at == h[i].at {
        i := |h| - 1;
      }
    } else {
      LatestIsIn(front, t);
      i := |h| - 1;
      assert forall k :: 0 <= k < |front| ==> front[k] in front && h[k] == front[k];
    }
  }

  lemma {:induction false} EarliestIs<V>(h: seq<Point<V>>) returns (i: nat)
    requires h != []
    ensures i < |h| && Earliest(h) == Some(h[i]) && FirstAt(h, i)
  {
    var front := h[..|h| - 1];
    if front != [] {
      i := EarliestIs(front);
      if h[|h| - 1].at < h[i].at {
        i := |h| - 1;
      }
    } else {
      i := 0;
    }
  }

  /** What holds at t: the value of the latest point at or before t; without one, the value of
      the first point if the first value is held from the start, and nothing if values are
      absent until they are sampled. */
  lemma HeldIs<V>(h: seq<Point<V>>, t: int, before: BeforeFirst)
    ensures (forall p :: p in h ==> p.at > t) && (before == AbsentUntilSampled || h == []) ==> Held(h, t, before) == None
    ensures (exists p :: p in h && p.at <= t) ==> exists i: nat :: i < |h| && LatestAt(h, t, i) && Held(h, t, before) == Some(h[i].v)
    ensures (forall p :: p in h ==> p.at > t) && before == HoldFirst && h != [] ==>
              exists i: nat :: i < |h| && FirstAt(h, i) && Held(h, t, before) == Some(h[i].v)
  {
    LatestIsIn(h, t);
    if Latest(h, t).Some? {
      var i := LatestIs(h, t);
    } else if h != [] {
      var i := EarliestIs(h);
    }
  }

  // ----- change lists -----

  /** A point that repeats the last value adds nothing. */
  function AppendPoint<V(==)>(pts: seq<Point<V>>, p: Point<V>): seq<Point<V>> {
    if pts != [] && pts[|pts| - 1].v == p.v then pts else pts + [p]
  }

  /** The change list of a history. */
  function Compress<V(==)>(h: seq<Point<V>>): seq<Point<V>> {
    if h == [] then [] else AppendPoint(Compress(h[..|h| - 1]), h[|h| - 1])
  }

  lemma CompressOne<V>(h: seq<Point<V>>, p: Point<V>)
    ensures Compress(h + [p]) == AppendPoint(Compress(h), p)
  {
    assert (h + [p])[..|h + [p]| - 1] == h;
  }

  lemma {:induction false} CompressIsOrdered<V>(h: seq<Point<V>>)
    requires Ordered(h)
    ensures Ordered(Compress(h)) && (Compress(h) == [] <==> h == [])
    ensures h != [] ==>
              && Compress(h)[|Compress(h)| - 1].v == h[|h| - 1].v
              && Compress(h)[|Compress(h)| - 1].at <= h[|h| - 1].at
  {
    if h != [] {
      CompressIsOrdered(h[..|h| - 1]);
      OrderedOne(Compress(h[..|h| - 1]), h[|h| - 1]);
    }
  }

  lemma LastIsLatest<V>(h: seq<Point<V>>, t: int)
    requires Ordered(h) && h != [] && h[|h| - 1].at <= t
    ensures Latest(h, t) == Some(h[|h| - 1])
  {
    OrderedPairs(h);
    LatestIsCut(h, t, |h|);
  }

  /** The values that latest and first point hold are those of the history. */
  ghost predicate HoldsSame<V>(c: seq<Point<V>>, h: seq<Point<V>>, t: int) {
    && (Latest(c, t).Some? <==> Latest(h, t).Some?) && (Earliest(c).Some? <==> Earliest(h).Some?)
    && (Latest(h, t).Some? ==> Latest(c, t).value.v == Latest(h, t).value.v)
    && (Earliest(h).Some? ==> Earliest(c).value.v == Earliest(h).value.v)
  }

  /** Adding p to a history whose last value it repeats. */
  lemma RepeatHolds<V>(c: seq<Point<V>>, h: seq<Point<V>>, p: Point<V>, t: int)
    requires Ordered(h + [p]) && Ordered(c) && c != [] && h != [] && HoldsSame(c, h, t)
    requires c[|c| - 1].v == p.v && c[|c| - 1].at <= p.at
    ensures HoldsSame(c, h + [p], t)
  {
    FirstIsKept(h, p);
    LatestOne(h, p, t);
    OrderedOne(h, p);
    if p.at <= t {
      LastIsLatest(h + [p], t);
      LastIsLatest(c, t);
    }
  }

  /** Adding p to both. */
  lemma AppendHolds<V>(c: seq<Point<V>>, h: seq<Point<V>>, p: Point<V>, t: int)
    requires Ordered(h + [p]) && Ordered(c + [p]) && (c == [] <==> h == []) && HoldsSame(c, h, t)
    ensures HoldsSame(c + [p], h + [p], t)
  {
    LatestOne(h, p, t);
    LatestOne(c, p, t);
    OrderedOne(h, p);
    OrderedOne(c, p);
    if p.at <= t {
      LastIsLatest(h + [p], t);
      LastIsLatest(c + [p], t);
    }
    if h != [] {
      FirstIsKept(h, p);
      FirstIsKept(c, p);
    }
  }

  lemma AppendPointHolds<V>(c: seq<Point<V>>, h: seq<Point<V>>, p: Point<V>, t: int)
    requires Ordered(h + [p]) && Ordered(c) && (c == [] <==> h == []) && HoldsSame(c, h, t)
    requires c != [] ==> c[|c| - 1].at <= p.at
    ensures HoldsSame(AppendPoint(c, p), h + [p], t)
  {
    if c != [] && c[|c| - 1].v == p.v {
      RepeatHolds(c, h, p, t);
    } else {
      OrderedOne(c, p);
      AppendHolds(c, h, p, t);
    }
  }

  lemma {:induction false} CompressHoldsSame<V>(h: seq<Point<V>>, t: int)
    requires Ordered(h)
    ensures HoldsSame(Compress(h), h, t)
  {
    if h != [] {
      var front, p := h[..|h| - 1], h[|h| - 1];
      CompressHoldsSame(front, t);
      CompressIsOrdered(front);
      Snoc(h);
      OrderedOne(front, p);
      AppendPointHolds(Compress(front), front, p, t);
    }
  }

  /** A change list holds what its history holds, at every time. */
  lemma CompressHolds<V>(h: seq<Point<V>>, t: int, before: BeforeFirst)
    requires Ordered(h)
    ensures Held(Compress(h), t, before) == Held(h, t, before)
  {
    CompressHoldsSame(h, t);
  }

  /** A later point does not replace the first one. */
  lemma FirstIsKept<V>(h: seq<Point<V>>, p: Point<V>)
    requires h != [] && Ordered(h + [p])
    ensures Earliest(h + [p]) == Earliest(h)
  {
    LatestIsIn(h, p.at);
    LatestOne(h, p, p.at);
    OrderedPairs(h + [p]);
    var i :| 0 <= i < |h| && h[i] == Earliest(h).value;
    assert (h + [p])[i] == h[i] && (h + [p])[|h|] == p;
  }

  // ----- the search -----

  /** The first of n points later than t (sort.Search). */
  method Search<V>(pts: seq<Point<V>>, t: int) returns (cut: int)
    requires Ordered(pts)
    ensures 0 <= cut <= |pts|
    ensures forall k :: 0 <= k < cut ==> pts[k].at <= t
    ensures forall k :: cut <= k < |pts| ==> pts[k].at > t
  {
    OrderedPairs(pts);
    var i, j := 0, |pts|;
    while i < j
      invariant 0 <= i <= j <= |pts|
      invariant forall k :: 0 <= k < i ==> pts[k].at <= t
      invariant forall k :: j <= k < |pts| ==> pts[k].at > t
    {
      var h := (i + j) / 2;
      if pts[h].at > t {
        j := h;
      } else {
        i := h + 1;
      }
    }
    cut := i;
  }

  /** The position of the point that holds at t, negative if none does. */
  method Index<V>(pts: seq<Point<V>>, t: int, before: BeforeFirst) returns (i: int)
    requires Ordered(pts)
    ensures i < |pts|
    ensures Held(pts, t, before) == if i < 0 then None else Some(pts[i].v)
  {
    if |pts| == 0 {
      return -1;
    }
    var cut := Search(pts, t);
    LatestIsCut(pts, t, cut);
    i := cut - 1;
    if i < 0 && before == HoldFirst {
      return 0;
    }
  }

  // ----- what samples show, in file order and in time order -----

  /** One point for each value. */
  function PointsAt<V>(at: int, values: seq<V>): seq<Point<V>> {
    seq(|values|, i requires 0 <= i < |values| => Point(at, values[i]))
  }

  /** Everything obs sees in the samples, in their order. */
  function HistoryOf<V>(samples: seq<Sample>, obs: Sample -> seq<V>): seq<Point<V>> {
    if samples == [] then []
    else
      var s := samples[|samples| - 1];
      HistoryOf(samples[..|samples| - 1], obs) + PointsAt(s.at, obs(s))
  }

  /** Sample i is the one that shows last, at t: of those that show anything, no other one at or
      before t is later, or as late and behind it in the file. */
  ghost predicate ShowsLast<V>(samples: seq<Sample>, obs: Sample -> seq<V>, t: int, i: nat)
    requires i < |samples|
  {
    && samples[i].at <= t && obs(samples[i]) != []
    && forall k :: 0 <= k < |samples| && samples[k].at <= t && obs(samples[k]) != [] ==>
         samples[k].at < samples[i].at || (samples[k].at == samples[i].at && k <= i)
  }

  lemma {:induction false} LatestOfPoints<V>(h: seq<Point<V>>, at: int, values: seq<V>, t: int)
    ensures Latest(h + PointsAt(at, values), t) ==
            if values == [] then Latest(h, t) else Later(Latest(h, t), Point(at, values[|values| - 1]), t)
  {
    if values == [] {
      assert h + PointsAt(at, values) == h;
    } else {
      var front, p := values[..|values| - 1], Point(at, values[|values| - 1]);
      LatestOfPoints(h, at, front, t);
      assert h + PointsAt(at, values) == (h + PointsAt(at, front)) + [p];
      LatestOne(h + PointsAt(at, front), p, t);
    }
  }

  lemma StillShowsLast<V>(front: seq<Sample>, s: Sample, obs: Sample -> seq<V>, t: int, i: nat)
    requires i < |front| && ShowsLast(front, obs, t, i) && (obs(s) == [] || s.at > t || s.at < front[i].at)
    ensures ShowsLast(front + [s], obs, t, i)
  {
    var all := front + [s];
    forall k | 0 <= k < |all| && all[k].at <= t && obs(all[k]) != [] ensures all[k].at < all[i].at || (all[k].at == all[i].at && k <= i) {
      assert k < |front| ==> all[k] == front[k];
    }
  }

  lemma NowShowsLast<V>(front: seq<Sample>, s: Sample, obs: Sample -> seq<V>, t: int)
    requires obs(s) != [] && s.at <= t
    requires forall k :: 0 <= k < |front| && front[k].at <= t && obs(front[k]) != [] ==> front[k].at <= s.at
    ensures ShowsLast(front + [s], obs, t, |front|)
  {
    var all := front + [s];
    forall k | 0 <= k < |all| && all[k].at <= t && obs(all[k]) != []
      ensures all[k].at < all[|front|].at || (all[k].at == all[|front|].at && k <= |front|)
    {
      assert k < |front| ==> all[k] == front[k];
    }
  }

  /** No sample shows anything at t. */
  ghost predicate NoneShows<V>(samples: seq<Sample>, obs: Sample -> seq<V>, t: int) {
    forall k :: 0 <= k < |samples| && samples[k].at <= t ==> obs(samples[k]) == []
  }

  lemma {:induction false} LatestIsShown<V>(samples: seq<Sample>, obs: Sample -> seq<V>, t: int) returns (i: nat)
    ensures Latest(HistoryOf(samples, obs), t) == None ==> NoneShows(samples, obs, t)
    ensures Latest(HistoryOf(samples, obs), t).Some? ==>
              && i < |samples| && ShowsLast(samples, obs, t, i)
              && Latest(HistoryOf(samples, obs), t) == Some(Point(samples[i].at, obs(samples[i])[|obs(samples[i])| - 1]))
  {
    i := 0;
    if samples != [] {
      var front, s := samples[..|samples| - 1], samples[|samples| - 1];
      i := LatestIsShown(front, obs, t);
      Snoc(samples);
      LatestOfPoints(HistoryOf(front, obs), s.at, obs(s), t);
      var best := Latest(HistoryOf(front, obs), t);
      if obs(s) != [] && s.at <= t && (best == None || best.value.at <= s.at) {
        NowShowsLast(front, s, obs, t);
        i := |front|;
      } else if best.Some? {
        StillShowsLast(front, s, obs, t, i);
      }
    }
  }

  /** What holds at t, from the samples themselves: the last value that the sample which shows
      last at t shows. */
  lemma HeldIsShownLast<V>(samples: seq<Sample>, obs: Sample -> seq<V>, t: int, before: BeforeFirst, s: Sample)
    requires s in samples && s.at <= t && obs(s) != []
    ensures exists i: nat :: i < |samples| && ShowsLast(samples, obs, t, i)
                             && Held(HistoryOf(samples, obs), t, before) == Some(obs(samples[i])[|obs(samples[i])| - 1])
  {
    var i := LatestIsShown(samples, obs, t);
    var k :| 0 <= k < |samples| && samples[k] == s;
  }

  lemma {:induction false} PointsAreShown<V>(samples: seq<Sample>, obs: Sample -> seq<V>, p: Point<V>) returns (s: Sample)
    requires p in HistoryOf(samples, obs)
    ensures s in samples && s.at == p.at && p.v in obs(s)
  {
    s := samples[|samples| - 1];
    if p in HistoryOf(samples[..|samples| - 1], obs) {
      s := PointsAreShown(samples[..|samples| - 1], obs, p);
    }
  }

  /** Nothing is held that no sample shows. */
  lemma HeldIsShown<V>(samples: seq<Sample>, obs: Sample -> seq<V>, t: int, before: BeforeFirst) returns (s: Sample)
    requires Held(HistoryOf(samples, obs), t, before).Some?
    ensures s in samples && Held(HistoryOf(samples, obs), t, before).value in obs(s) && (before == AbsentUntilSampled ==> s.at <= t)
  {
    var h := HistoryOf(samples, obs);
    LatestIsIn(h, t);
    s := PointsAreShown(samples, obs, if Latest(h, t).Some? then Latest(h, t).value else Earliest(h).value);
  }

  ghost predicate InTimeOrder(samples: seq<Sample>) {
    |samples| <= 1 || (InTimeOrder(samples[..|samples| - 1]) && samples[|samples| - 2].at <= samples[|samples| - 1].at)
  }

  /** The samples of one time, in order. */
  function AtTime(samples: seq<Sample>, x: int): seq<Sample> {
    if samples == [] then []
    else
      var s := samples[|samples| - 1];
      AtTime(samples[..|samples| - 1], x) + if s.at == x then [s] else []
  }

  /** Puts s behind all samples that are not later. */
  function InsertByTime(sorted: seq<Sample>, s: Sample): seq<Sample> {
    if sorted == [] || sorted[|sorted| - 1].at <= s.at then sorted + [s]
    else InsertByTime(sorted[..|sorted| - 1], s) + [sorted[|sorted| - 1]]
  }

  /** The stable sort by time. */
  function SortByTime(samples: seq<Sample>): seq<Sample> {
    if samples == [] then [] else InsertByTime(SortByTime(samples[..|samples| - 1]), samples[|samples| - 1])
  }

  lemma AtTimeOne(samples: seq<Sample>, s: Sample, x: int)
    ensures AtTime(samples + [s], x) == AtTime(samples, x) + if s.at == x then [s] else []
  {
    assert (samples + [s])[..|samples + [s]| - 1] == samples;
  }

  lemma InTimeOrderOne(samples: seq<Sample>, s: Sample)
    ensures InTimeOrder(samples + [s]) <==> InTimeOrder(samples) && (samples != [] ==> samples[|samples| - 1].at <= s.at)
  {
    assert (samples + [s])[..|samples + [s]| - 1] == samples;
  }

  lemma {:induction false} InsertIsOrdered(sorted: seq<Sample>, s: Sample)
    requires InTimeOrder(sorted)
    ensures InTimeOrder(InsertByTime(sorted, s))
    ensures var r := InsertByTime(sorted, s);
            r != [] && (r[|r| - 1] == s || (sorted != [] && r[|r| - 1] == sorted[|sorted| - 1]))
  {
    if sorted == [] || sorted[|sorted| - 1].at <= s.at {
      InTimeOrderOne(sorted, s);
    } else {
      InsertIsOrdered(sorted[..|sorted| - 1], s);
      InTimeOrderOne(InsertByTime(sorted[..|sorted| - 1], s), sorted[|sorted| - 1]);
    }
  }

  lemma {:induction false} InsertIsPermutation(sorted: seq<Sample>, s: Sample)
    ensures multiset(InsertByTime(sorted, s)) == multiset(sorted) + multiset{s}
  {
    if sorted != [] && sorted[|sorted| - 1].at > s.at {
      InsertIsPermutation(sorted[..|sorted| - 1], s);
      Snoc(sorted);
    }
  }

  lemma {:induction false} InsertIsStable(sorted: seq<Sample>, s: Sample, x: int)
    ensures AtTime(InsertByTime(sorted, s), x) == AtTime(sorted + [s], x)
  {
    if sorted != [] && sorted[|sorted| - 1].at > s.at {
      var front, last := sorted[..|sorted| - 1], sorted[|sorted| - 1];
      InsertIsStable(front, s, x);
      AtTimeOne(InsertByTime(front, s), last, x);
      AtTimeOne(front, s, x);
      AtTimeOne(front, last, x);
      Snoc(sorted);
      AtTimeOne(sorted, s, x);
    }
  }

  /** It orders the samples by time and loses none. */
  lemma {:induction false} SortIsOrdered(samples: seq<Sample>)
    ensures InTimeOrder(SortByTime(samples)) && multiset(SortByTime(samples)) == multiset(samples)
  {
    if samples != [] {
      SortIsOrdered(samples[..|samples| - 1]);
      InsertIsOrdered(SortByTime(samples[..|samples| - 1]), samples[|samples| - 1]);
      InsertIsPermutation(SortByTime(samples[..|samples| - 1]), samples[|samples| - 1]);
      Snoc(samples);
    }
  }

  /** It keeps the order of samples of one time. */
  lemma {:induction false} SortIsStable(samples: seq<Sample>, x: int)
    ensures AtTime(SortByTime(samples), x) == AtTime(samples, x)
  {
    if samples != [] {
      var front, s := samples[..|samples| - 1], samples[|samples| - 1];
      SortIsStable(front, x);
      InsertIsStable(SortByTime(front), s, x);
      AtTimeOne(SortByTime(front), s, x);
    }
  }

  /** The same scan from a best so far. */
  function LatestFrom<V>(best: Option<Point<V>>, h: seq<Point<V>>, t: int): Option<Point<V>> {
    if h == [] then best else Later(LatestFrom(best, h[..|h| - 1], t), h[|h| - 1], t)
  }

  function EarliestFrom<V>(best: Option<Point<V>>, h: seq<Point<V>>): Option<Point<V>> {
    if h == [] then best else Sooner(EarliestFrom(best, h[..|h| - 1]), h[|h| - 1])
  }

  lemma {:induction false} ScanAppends<V>(h: seq<Point<V>>, g: seq<Point<V>>, t: int)
    ensures Latest(h + g, t) == LatestFrom(Latest(h, t), g, t) && Earliest(h + g) == EarliestFrom(Earliest(h), g)
  {
    if g == [] {
      assert h + g == h;
    } else {
      var front, p := g[..|g| - 1], g[|g| - 1];
      ScanAppends(h, front, t);
      assert h + g == (h + front) + [p];
      LatestOne(h + front, p, t);
    }
  }

  /** What one more sample, with these values, does to the best so far. */
  function AfterBlock<V>(best: Option<Point<V>>, at: int, values: seq<V>, t: int): Option<Point<V>> {
    if values == [] then best else Later(best, Point(at, values[|values| - 1]), t)
  }

  function BeforeBlock<V>(best: Option<Point<V>>, at: int, values: seq<V>): Option<Point<V>> {
    if values == [] then best else Sooner(best, Point(at, values[0]))
  }

  /** Points of one time count as their last, or first, one. */
  lemma {:induction false} BlockScan<V>(best: Option<Point<V>>, at: int, values: seq<V>, t: int)
    ensures LatestFrom(best, PointsAt(at, values), t) == AfterBlock(best, at, values, t)
    ensures EarliestFrom(best, PointsAt(at, values)) == BeforeBlock(best, at, values)
  {
    if values != [] {
      var front := values[..|values| - 1];
      BlockScan(best, at, front, t);
      assert PointsAt(at, values)[..|values| - 1] == PointsAt(at, front);
    }
  }

  lemma HistoryOfOne<V>(samples: seq<Sample>, s: Sample, obs: Sample -> seq<V>)
    ensures HistoryOf(samples + [s], obs) == HistoryOf(samples, obs) + PointsAt(s.at, obs(s))
  {
    assert (samples + [s])[..|samples + [s]| - 1] == samples;
  }

  /** What one more sample does to a scan. */
  lemma ScanOneMore<V>(samples: seq<Sample>, s: Sample, obs: Sample -> seq<V>, t: int)
    ensures var (h, h') := (HistoryOf(samples, obs), HistoryOf(samples + [s], obs));
            && Latest(h', t) == AfterBlock(Latest(h, t), s.at, obs(s), t)
            && Earliest(h') == BeforeBlock(Earliest(h), s.at, obs(s))
  {
    HistoryOfOne(samples, s, obs);
    ScanAppends(HistoryOf(samples, obs), PointsAt(s.at, obs(s)), t);
    BlockScan(Latest(HistoryOf(samples, obs), t), s.at, obs(s), t);
    BlockScan(Earliest(HistoryOf(samples, obs)), s.at, obs(s), t);
  }

  ghost predicate SameScan<V>(h: seq<Point<V>>, g: seq<Point<V>>, t: int) {
    Latest(h, t) == Latest(g, t) && Earliest(h) == Earliest(g)
  }

  lemma ScanSwaps<V>(best: Option<Point<V>>, first: Option<Point<V>>, at: int, x: seq<V>, at': int, y: seq<V>, t: int)
    requires at != at'
    ensures AfterBlock(AfterBlock(best, at, x, t), at', y, t) == AfterBlock(AfterBlock(best, at', y, t), at, x, t)
    ensures BeforeBlock(BeforeBlock(first, at, x), at', y) == BeforeBlock(BeforeBlock(first, at', y), at, x)
  {
  }

  /** Samples of different times may change places. */
  lemma SwapKeepsScan<V>(samples: seq<Sample>, a: Sample, b: Sample, obs: Sample -> seq<V>, t: int)
    requires a.at != b.at
    ensures SameScan(HistoryOf((samples + [a]) + [b], obs), HistoryOf((samples + [b]) + [a], obs), t)
  {
    ScanOneMore(samples, a, obs, t);
    ScanOneMore(samples + [a], b, obs, t);
    ScanOneMore(samples, b, obs, t);
    ScanOneMore(samples + [b], a, obs, t);
    var h := HistoryOf(samples, obs);
    ScanSwaps(Latest(h, t), Earliest(h), a.at, obs(a), b.at, obs(b), t);
  }

  /** What comes after samples that scan alike scans alike. */
  lemma ScanAlikeGrows<V>(a: seq<Sample>, b: seq<Sample>, s: Sample, obs: Sample -> seq<V>, t: int)
    requires SameScan(HistoryOf(a, obs), HistoryOf(b, obs), t)
    ensures SameScan(HistoryOf(a + [s], obs), HistoryOf(b + [s], obs), t)
  {
    ScanOneMore(a, s, obs, t);
    ScanOneMore(b, s, obs, t);
  }

  lemma {:induction false} InsertKeepsScan<V>(sorted: seq<Sample>, s: Sample, obs: Sample -> seq<V>, t: int)
    ensures SameScan(HistoryOf(InsertByTime(sorted, s), obs), HistoryOf(sorted + [s], obs), t)
  {
    if sorted != [] && sorted[|sorted| - 1].at > s.at {
      var front, last := sorted[..|sorted| - 1], sorted[|sorted| - 1];
      InsertKeepsScan(front, s, obs, t);
      ScanAlikeGrows(InsertByTime(front, s), front + [s], last, obs, t);
      SwapKeepsScan(front, s, last, obs, t);
      Snoc(sorted);
    }
  }

  /** Sorting by time changes no scan: the plain reading does not depend on the order of
      samples of different times. */
  lemma {:induction false} SortKeepsScan<V>(samples: seq<Sample>, obs: Sample -> seq<V>, t: int)
    ensures SameScan(HistoryOf(SortByTime(samples), obs), HistoryOf(samples, obs), t)
  {
    if samples != [] {
      var front, s := samples[..|samples| - 1], samples[|samples| - 1];
      SortKeepsScan(front, obs, t);
      InsertKeepsScan(SortByTime(front), s, obs, t);
      ScanAlikeGrows(SortByTime(front), front, s, obs, t);
      Snoc(samples);
    }
  }

  lemma {:induction false} BlockIsOrdered<V>(h: seq<Point<V>>, at: int, values: seq<V>)
    requires Ordered(h) && (h != [] ==> h[|h| - 1].at <= at)
    ensures Ordered(h + PointsAt(at, values))
  {
    if values == [] {
      assert h + PointsAt(at, values) == h;
    } else {
      var front := values[..|values| - 1];
      BlockIsOrdered(h, at, front);
      assert h + PointsAt(at, values) == (h + PointsAt(at, front)) + [Point(at, values[|values| - 1])];
      OrderedOne(h + PointsAt(at, front), Point(at, values[|values| - 1]));
    }
  }

  lemma {:induction false} HistoryIsOrdered<V>(samples: seq<Sample>, obs: Sample -> seq<V>)
    requires InTimeOrder(samples)
    ensures Ordered(HistoryOf(samples, obs))
    ensures var h := HistoryOf(samples, obs);
            h != [] ==> samples != [] && h[|h| - 1].at <= samples[|samples| - 1].at
  {
    if samples != [] {
      var front, s := samples[..|samples| - 1], samples[|samples| - 1];
      HistoryIsOrdered(front, obs);
      BlockIsOrdered(HistoryOf(front, obs), s.at, obs(s));
    }
  }

  lemma ChangeListHolds<V>(h: seq<Point<V>>, g: seq<Point<V>>, t: int, before: BeforeFirst)
    requires Ordered(h) && SameScan(h, g, t)
    ensures Ordered(Compress(h)) && Held(Compress(h), t, before) == Held(g, t, before)
  {
    CompressIsOrdered(h);
    CompressHolds(h, t, before);
    SameScanHolds(h, g, t, before);
  }

  lemma SameScanHolds<V>(h: seq<Point<V>>, g: seq<Point<V>>, t: int, before: BeforeFirst)
    requires SameScan(h, g, t)
    ensures Held(h, t, before) == Held(g, t, before)
  {
  }

  /** The search on the change list of the sorted samples finds what a linear scan over
      all samples in file order finds. */
  lemma ReplayIsPlainReading<V>(samples: seq<Sample>, obs: Sample -> seq<V>, t: int, before: BeforeFirst)
    ensures var pts := Compress(HistoryOf(SortByTime(samples), obs));
            Ordered(pts) && Held(pts, t, before) == Held(HistoryOf(samples, obs), t, before)
  {
    SortIsOrdered(samples);
    HistoryIsOrdered(SortByTime(samples), obs);
    SortKeepsScan(samples, obs, t);
    ChangeListHolds(HistoryOf(SortByTime(samples), obs), HistoryOf(samples, obs), t, before);
  }
}
