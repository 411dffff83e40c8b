/** The replay device (internal/replay/replay.go): change lists per address, per request and
    per identification object, built from the samples of a capture and searched by time. */
module Replay {
  import opened Seqs
  import opened ScanTypes
  import opened Capfile
  import opened History
  import opened Pdu

  datatype Target = Target(id: U32, name: string)

  datatype Stream = Stream(id: U32, target: U32)

  datatype Capture = Capture(targets: seq<Target>, streams: seq<Stream>, samples: seq<Sample>)

  datatype Options = Options(before: BeforeFirst, streams: seq<U32>)

  /** The values of a sample of FC01-04, one for each address from start. */
  datatype AddressValues = AddressValues(start: U16, values: seq<U16>)

  datatype Object = Object(id: Byte, value: seq<Byte>)

  datatype Result<+T> = Ok(value: T) | ErrUnknownTarget

  // ----- what one sample shows -----

  predicate IsException(s: Sample) {
    s.response != [] && s.response[0] >= 0x80
  }

  predicate IsIdentity(s: Sample) {
    FunctionOf(s.request) == 0x2B && |s.request| >= 2 && s.request[1] == 0x0E
  }

  /** Kept per request: everything but FC01-04 and device identification. */
  predicate IsKeyed(s: Sample) {
    !(1 <= FunctionOf(s.request) <= 4) && !IsIdentity(s)
  }

  /** The address of value i: it counts in 16 bits. */
  function AddrAt(av: AddressValues, i: nat): U16 {
    (av.start + i) % 0x1_0000
  }

  /** The values for address a among the first n values. */
  function ValuesAt(av: AddressValues, n: nat, a: U16): seq<U16>
    requires n <= |av.values|
  {
    if n == 0 then []
    else ValuesAt(av, n - 1, a) + if AddrAt(av, n - 1) == a then [av.values[n - 1]] else []
  }

  function AddrValues(split: Sample -> Option<AddressValues>, fc: Byte, a: U16, s: Sample): seq<U16> {
    if FunctionOf(s.request) == fc && split(s).Some? then ValuesAt(split(s).value, |split(s).value.values|, a) else []
  }

  /** What a sample shows of address a of function fc. split is the capture library's
      decoder of FC01-04 samples. */
  function AddrObs(split: Sample -> Option<AddressValues>, fc: Byte, a: U16): Sample -> seq<U16> {
    (s: Sample) => AddrValues(split, fc, a, s)
  }

  /** The value of a split sample for an address: value i for the i-th address from its start,
      counted in 16 bits. */
  lemma {:induction false} ValuesAtIs(av: AddressValues, n: nat, a: U16)
    requires n <= |av.values| <= 0x1_0000
    ensures var i := (a - av.start) % 0x1_0000; ValuesAt(av, n, a) == if i < n then [av.values[i]] else []
  {
    if n > 0 {
      ValuesAtIs(av, n - 1, a);
      OneAddress(av.start, n - 1, a);
    }
  }

  lemma OneAddress(start: U16, i: nat, a: U16)
    requires i < 0x1_0000
    ensures (start + i) % 0x1_0000 == a <==> i == (a - start) % 0x1_0000
  {
  }

  lemma {:induction false} ValueIsAt(av: AddressValues, n: nat, a: U16, v: U16) returns (i: nat)
    requires n <= |av.values| && v in ValuesAt(av, n, a)
    ensures i < n && (av.start + i) % 0x1_0000 == a && av.values[i] == v
  {
    i := n - 1;
    if v in ValuesAt(av, n - 1, a) {
      i := ValueIsAt(av, n - 1, a, v);
    }
  }

  function ReqObs(request: seq<Byte>): Sample -> seq<seq<Byte>> {
    (s: Sample) => if IsKeyed(s) && s.request == request then [s.response] else []
  }

  /** A device identification page: 2B 0E code conformity more next count (id len value)*. */
  predicate IsPage(r: seq<Byte>) {
    |r| >= 7 && r[0] == 0x2B && r[1] == 0x0E
  }

  /** Up to count objects from position p, as far as they are whole. */
  function Objects(r: seq<Byte>, count: nat, p: nat): seq<Object>
    decreases count
  {
    if count == 0 || p + 2 > |r| || p + 2 + r[p + 1] > |r| then []
    else [Object(r[p], r[p + 2..p + 2 + r[p + 1]])] + Objects(r, count - 1, p + 2 + r[p + 1])
  }

  function PageObjects(r: seq<Byte>): seq<Object> {
    if IsPage(r) then Objects(r, r[6], 7) else []
  }

  function ValuesOf(objects: seq<Object>, id: Byte): seq<seq<Byte>> {
    if objects == [] then []
    else
      var o := objects[|objects| - 1];
      ValuesOf(objects[..|objects| - 1], id) + if o.id == id then [o.value] else []
  }

  lemma {:induction false} ValuesAreOf(objects: seq<Object>, id: Byte, v: seq<Byte>)
    ensures v in ValuesOf(objects, id) <==> Object(id, v) in objects
  {
    if objects != [] {
      ValuesAreOf(objects[..|objects| - 1], id, v);
      assert objects == objects[..|objects| - 1] + [objects[|objects| - 1]];
    }
  }

  function ObjObs(id: Byte): Sample -> seq<seq<Byte>> {
    (s: Sample) => if IsIdentity(s) then ValuesOf(PageObjects(s.response), id) else []
  }

  function ConfObs(): Sample -> seq<Byte> {
    (s: Sample) => if IsIdentity(s) && IsPage(s.response) then [s.response[3]] else []
  }

  // ----- change lists kept in maps -----

  function List<K, V>(m: map<K, seq<Point<V>>>, k: K): seq<Point<V>> {
    if k in m then m[k] else []
  }

  /** Appends values of one time to a change list. */
  function Feed<V(==)>(pts: seq<Point<V>>, at: int, values: seq<V>): seq<Point<V>> {
    if values == [] then pts
    else AppendPoint(Feed(pts, at, values[..|values| - 1]), Point(at, values[|values| - 1]))
  }

  lemma {:induction false} CompressFeeds<V>(h: seq<Point<V>>, at: int, values: seq<V>)
    ensures Compress(h + PointsAt(at, values)) == Feed(Compress(h), at, values)
  {
    if values == [] {
      assert h + PointsAt(at, values) == h;
    } else {
      var front, p := values[..|values| - 1], Point(at, values[|values| - 1]);
      CompressFeeds(h, at, front);
      assert h + PointsAt(at, values) == (h + PointsAt(at, front)) + [p];
      CompressOne(h + PointsAt(at, front), p);
    }
  }

  /** The change list of everything obs sees in the samples. */
  function Changes<V(==)>(samples: seq<Sample>, obs: Sample -> seq<V>): seq<Point<V>> {
    Compress(HistoryOf(samples, obs))
  }

  lemma ChangesOne<V>(samples: seq<Sample>, s: Sample, obs: Sample -> seq<V>)
    ensures Changes(samples + [s], obs) == Feed(Changes(samples, obs), s.at, obs(s))
  {
    HistoryOfOne(samples, s, obs);
    CompressFeeds(HistoryOf(samples, obs), s.at, obs(s));
  }

  lemma FeedOne<V>(pts: seq<Point<V>>, at: int, v: V)
    ensures Feed(pts, at, [v]) == AppendPoint(pts, Point(at, v))
  {
    assert [v][..0] == [];
    assert Feed(pts, at, [v][..0]) == pts;
  }

  // ----- the device's maps agree with its samples -----

  /** The addresses of one function. */
  ghost predicate FunctionAgrees(m: map<U16, seq<Point<U16>>>, split: Sample -> Option<AddressValues>, fc: Byte, samples: seq<Sample>) {
    forall a: U16 :: List(m, a) == Changes(samples, AddrObs(split, fc, a))
  }

  ghost predicate AddrsAgree(addrs: map<Byte, map<U16, seq<Point<U16>>>>, split: Sample -> Option<AddressValues>, samples: seq<Sample>) {
    addrs.Keys == {1, 2, 3, 4} && forall fc :: fc in addrs ==> FunctionAgrees(addrs[fc], split, fc, samples)
  }

  ghost predicate ReqsAgree(reqs: map<seq<Byte>, seq<Point<seq<Byte>>>>, samples: seq<Sample>) {
    forall request :: List(reqs, request) == Changes(samples, ReqObs(request))
  }

  ghost predicate ObjsAgree(objs: map<Byte, seq<Point<seq<Byte>>>>, samples: seq<Sample>) {
    forall id :: List(objs, id) == Changes(samples, ObjObs(id))
  }

  ghost predicate NoneEmpty<K, V>(m: map<K, seq<Point<V>>>) {
    forall k :: k in m ==> m[k] != []
  }

  /** Only a sample of its own function, if it can be split, changes an address. */
  lemma AddrChanges(split: Sample -> Option<AddressValues>, samples: seq<Sample>, s: Sample, fc: Byte, a: U16)
    ensures Changes(samples + [s], AddrObs(split, fc, a)) ==
            Feed(Changes(samples, AddrObs(split, fc, a)), s.at, AddrValues(split, fc, a, s))
  {
    ChangesOne(samples, s, AddrObs(split, fc, a));
    assert AddrObs(split, fc, a)(s) == AddrValues(split, fc, a, s);
  }

  lemma FunctionTouched(m: map<U16, seq<Point<U16>>>, m': map<U16, seq<Point<U16>>>, split: Sample -> Option<AddressValues>,
                        fc: Byte, samples: seq<Sample>, s: Sample)
    requires FunctionAgrees(m, split, fc, samples)
    requires forall a: U16 :: List(m', a) == Feed(List(m, a), s.at, AddrValues(split, fc, a, s))
    ensures FunctionAgrees(m', split, fc, samples + [s])
  {
    forall a: U16 ensures List(m', a) == Changes(samples + [s], AddrObs(split, fc, a)) {
      AddrChanges(split, samples, s, fc, a);
    }
  }

  lemma FunctionUntouched(m: map<U16, seq<Point<U16>>>, split: Sample -> Option<AddressValues>, fc: Byte, samples: seq<Sample>, s: Sample)
    requires FunctionAgrees(m, split, fc, samples) && (FunctionOf(s.request) != fc || split(s) == None)
    ensures FunctionAgrees(m, split, fc, samples + [s])
  {
    FunctionTouched(m, m, split, fc, samples, s);
  }

  lemma AddrsUntouched(addrs: map<Byte, map<U16, seq<Point<U16>>>>, split: Sample -> Option<AddressValues>, samples: seq<Sample>, s: Sample)
    requires AddrsAgree(addrs, split, samples) && (!(1 <= FunctionOf(s.request) <= 4) || split(s) == None)
    ensures AddrsAgree(addrs, split, samples + [s])
  {
    forall fc | fc in addrs ensures FunctionAgrees(addrs[fc], split, fc, samples + [s]) {
      FunctionUntouched(addrs[fc], split, fc, samples, s);
    }
  }

  lemma AddrsTouched(addrs: map<Byte, map<U16, seq<Point<U16>>>>, m': map<U16, seq<Point<U16>>>,
                     split: Sample -> Option<AddressValues>, samples: seq<Sample>, s: Sample)
    requires AddrsAgree(addrs, split, samples) && FunctionOf(s.request) in addrs && FunctionAgrees(m', split, FunctionOf(s.request), samples + [s])
    ensures AddrsAgree(addrs[FunctionOf(s.request) := m'], split, samples + [s])
  {
    var addrs' := addrs[FunctionOf(s.request) := m'];
    forall fc | fc in addrs' ensures FunctionAgrees(addrs'[fc], split, fc, samples + [s]) {
      if fc != FunctionOf(s.request) {
        FunctionUntouched(addrs[fc], split, fc, samples, s);
      }
    }
  }

  lemma ReqsUntouched(reqs: map<seq<Byte>, seq<Point<seq<Byte>>>>, samples: seq<Sample>, s: Sample)
    requires ReqsAgree(reqs, samples) && !IsKeyed(s)
    ensures ReqsAgree(reqs, samples + [s])
  {
    forall request ensures List(reqs, request) == Changes(samples + [s], ReqObs(request)) {
      ChangesOne(samples, s, ReqObs(request));
    }
  }

  lemma ReqsTouched(reqs: map<seq<Byte>, seq<Point<seq<Byte>>>>, samples: seq<Sample>, s: Sample)
    requires ReqsAgree(reqs, samples) && IsKeyed(s)
    ensures ReqsAgree(reqs[s.request := AppendPoint(List(reqs, s.request), Point(s.at, s.response))], samples + [s])
  {
    var reqs' := reqs[s.request := AppendPoint(List(reqs, s.request), Point(s.at, s.response))];
    forall request ensures List(reqs', request) == Changes(samples + [s], ReqObs(request)) {
      ChangesOne(samples, s, ReqObs(request));
      FeedOne(List(reqs, request), s.at, s.response);
    }
  }

  lemma ObjsUntouched(objs: map<Byte, seq<Point<seq<Byte>>>>, samples: seq<Sample>, s: Sample)
    requires ObjsAgree(objs, samples) && !IsIdentity(s)
    ensures ObjsAgree(objs, samples + [s])
  {
    forall id ensures List(objs, id) == Changes(samples + [s], ObjObs(id)) {
      ChangesOne(samples, s, ObjObs(id));
    }
  }

  lemma ObjsTouched(objs: map<Byte, seq<Point<seq<Byte>>>>, objs': map<Byte, seq<Point<seq<Byte>>>>, samples: seq<Sample>, s: Sample)
    requires ObjsAgree(objs, samples) && IsIdentity(s)
    requires forall id :: List(objs', id) == Feed(List(objs, id), s.at, ValuesOf(PageObjects(s.response), id))
    ensures ObjsAgree(objs', samples + [s])
  {
    forall id ensures List(objs', id) == Changes(samples + [s], ObjObs(id)) {
      ChangesOne(samples, s, ObjObs(id));
    }
  }

  lemma ConfGrows(samples: seq<Sample>, s: Sample)
    ensures Changes(samples + [s], ConfObs()) ==
            if IsIdentity(s) && IsPage(s.response) then AppendPoint(Changes(samples, ConfObs()), Point(s.at, s.response[3]))
            else Changes(samples, ConfObs())
  {
    ChangesOne(samples, s, ConfObs());
    if IsIdentity(s) && IsPage(s.response) {
      FeedOne(Changes(samples, ConfObs()), s.at, s.response[3]);
    }
  }

  lemma FeedMore<V>(pts: seq<Point<V>>, at: int, values: seq<V>, v: V, values': seq<V>)
    requires values' == values + [v]
    ensures Feed(pts, at, values') == AppendPoint(Feed(pts, at, values), Point(at, v))
  {
    assert values'[..|values'| - 1] == values;
  }

  lemma ListUpdated<K, V>(m: map<K, seq<Point<V>>>, k: K, pts: seq<Point<V>>, j: K)
    ensures List(m[k := pts], j) == if j == k then pts else List(m, j)
  {
  }

  lemma NoneEmptyKept<K, V>(m: map<K, seq<Point<V>>>, k: K, p: Point<V>)
    requires NoneEmpty(m)
    ensures NoneEmpty(m[k := AppendPoint(List(m, k), p)])
  {
    var pts := AppendPoint(List(m, k), p);
    assert pts != [];
  }

  /** The map after merging the values, one address after the other. */
  function MergedValues(m: map<U16, seq<Point<U16>>>, av: AddressValues, n: nat, at: int): map<U16, seq<Point<U16>>>
    requires n <= |av.values|
  {
    if n == 0 then m
    else
      var before, a := MergedValues(m, av, n - 1, at), AddrAt(av, n - 1);
      before[a := AppendPoint(List(before, a), Point(at, av.values[n - 1]))]
  }

  /** The map after merging the objects, one after the other. */
  function MergedObjects(m: map<Byte, seq<Point<seq<Byte>>>>, objects: seq<Object>, at: int): map<Byte, seq<Point<seq<Byte>>>> {
    if objects == [] then m
    else
      var before, o := MergedObjects(m, objects[..|objects| - 1], at), objects[|objects| - 1];
      before[o.id := AppendPoint(List(before, o.id), Point(at, o.value))]
  }

  /** Merging feeds the list of each address with its own values. */
  lemma {:induction false} ValuesAreFed(m: map<U16, seq<Point<U16>>>, av: AddressValues, n: nat, at: int, a: U16)
    requires n <= |av.values|
    ensures List(MergedValues(m, av, n, at), a) == Feed(List(m, a), at, ValuesAt(av, n, a))
  {
    if n > 0 {
      ValuesAreFed(m, av, n - 1, at, a);
      var before, b := MergedValues(m, av, n - 1, at), AddrAt(av, n - 1);
      ListUpdated(before, b, AppendPoint(List(before, b), Point(at, av.values[n - 1])), a);
      if b == a {
        FeedMore(List(m, a), at, ValuesAt(av, n - 1, a), av.values[n - 1], ValuesAt(av, n, a));
      } else {
        assert ValuesAt(av, n, a) == ValuesAt(av, n - 1, a);
      }
    }
  }

  lemma {:induction false} ValuesFillLists(m: map<U16, seq<Point<U16>>>, av: AddressValues, n: nat, at: int)
    requires n <= |av.values| && NoneEmpty(m)
    ensures NoneEmpty(MergedValues(m, av, n, at))
  {
    if n > 0 {
      ValuesFillLists(m, av, n - 1, at);
      NoneEmptyKept(MergedValues(m, av, n - 1, at), AddrAt(av, n - 1), Point(at, av.values[n - 1]));
    }
  }

  lemma {:induction false} ObjectsAreFed(m: map<Byte, seq<Point<seq<Byte>>>>, objects: seq<Object>, at: int, id: Byte)
    ensures List(MergedObjects(m, objects, at), id) == Feed(List(m, id), at, ValuesOf(objects, id))
  {
    if objects != [] {
      var front, o := objects[..|objects| - 1], objects[|objects| - 1];
      ObjectsAreFed(m, front, at, id);
      var before := MergedObjects(m, front, at);
      ListUpdated(before, o.id, AppendPoint(List(before, o.id), Point(at, o.value)), id);
      if o.id == id {
        FeedMore(List(m, id), at, ValuesOf(front, id), o.value, ValuesOf(objects, id));
      } else {
        assert ValuesOf(objects, id) == ValuesOf(front, id);
      }
    }
  }

  lemma {:induction false} ObjectsFillLists(m: map<Byte, seq<Point<seq<Byte>>>>, objects: seq<Object>, at: int)
    requires NoneEmpty(m)
    ensures NoneEmpty(MergedObjects(m, objects, at))
  {
    if objects != [] {
      var front, o := objects[..|objects| - 1], objects[|objects| - 1];
      ObjectsFillLists(m, front, at);
      NoneEmptyKept(MergedObjects(m, front, at), o.id, Point(at, o.value));
    }
  }

  lemma MergedObjectsOne(m: map<Byte, seq<Point<seq<Byte>>>>, objects: seq<Object>, o: Object, at: int)
    ensures var before := MergedObjects(m, objects, at);
            MergedObjects(m, objects + [o], at) == before[o.id := AppendPoint(List(before, o.id), Point(at, o.value))]
  {
    assert (objects + [o])[..|objects + [o]| - 1] == objects;
  }

  /** Of the objects of page r these are merged, and up to count from p on are left. */
  ghost predicate MergedSoFar(r: seq<Byte>, merged: seq<Object>, count: nat, p: nat) {
    PageObjects(r) == merged + Objects(r, count, p)
  }

  lemma ObjectsNext(merged: seq<Object>, r: seq<Byte>, count: nat, p: nat, o: Object)
    requires MergedSoFar(r, merged, count, p) && count > 0 && p + 2 <= |r| && p + 2 + r[p + 1] <= |r|
    requires o == Object(r[p], r[p + 2..p + 2 + r[p + 1]])
    ensures MergedSoFar(r, merged + [o], count - 1, p + 2 + r[p + 1])
  {
  }

  lemma NoneLeft(merged: seq<Object>, r: seq<Byte>, count: nat, p: nat)
    requires MergedSoFar(r, merged, count, p) && (count == 0 || p + 2 > |r| || p + 2 + r[p + 1] > |r|)
    ensures PageObjects(r) == merged
  {
  }

  /** The loop that merges the values of an FC01-04 sample. */
  method MergeAddresses(m: map<U16, seq<Point<U16>>>, av: AddressValues, at: int) returns (m': map<U16, seq<Point<U16>>>)
    ensures m' == MergedValues(m, av, |av.values|, at)
  {
    m' := m;
    for i := 0 to |av.values|
      invariant m' == MergedValues(m, av, i, at)
    {
      var a := AddrAt(av, i);
      m' := m'[a := AppendPoint(List(m', a), Point(at, av.values[i]))];
    }
  }

  /** The loop that merges the objects of an identification page; a truncated object ends it. */
  method MergeObjects(m: map<Byte, seq<Point<seq<Byte>>>>, r: seq<Byte>, at: int) returns (m': map<Byte, seq<Point<seq<Byte>>>>)
    requires IsPage(r)
    ensures m' == MergedObjects(m, PageObjects(r), at)
  {
    m' := m;
    var count: nat, p: nat, i: nat := r[6], 7, 0;
    ghost var merged: seq<Object> := [];
    while i < count && p + 2 <= |r|
      invariant i <= count
      invariant MergedSoFar(r, merged, count - i, p)
      invariant m' == MergedObjects(m, merged, at)
      decreases count - i
    {
      var id, n := r[p], r[p + 1];
      if p + 2 + n > |r| {
        NoneLeft(merged, r, count - i, p);
        return;
      }
      var o := Object(id, r[p + 2..p + 2 + n]);
      MergedObjectsOne(m, merged, o, at);
      ObjectsNext(merged, r, count - i, p, o);
      m' := m'[id := AppendPoint(List(m', id), Point(at, o.value))];
      merged := merged + [o];
      p := p + 2 + n;
      i := i + 1;
    }
    NoneLeft(merged, r, count - i, p);
  }

  // ----- the device -----

  class Device {
    const split: Sample -> Option<AddressValues>
    const target: Target
    const opts: Options
    var addrs: map<Byte, map<U16, seq<Point<U16>>>>
    var reqs: map<seq<Byte>, seq<Point<seq<Byte>>>>
    var objs: map<Byte, seq<Point<seq<Byte>>>>
    var conf: seq<Point<Byte>>
    var first: int
    const end: int
    var n: nat

    /** The samples added so far. */
    ghost var samples: seq<Sample>
    /** The samples the device is built from, in the order of the file. */
    ghost var source: seq<Sample>

    ghost predicate AddrsValid()
      reads `addrs, `samples
    {
      AddrsAgree(addrs, split, samples) && forall fc :: fc in addrs ==> NoneEmpty(addrs[fc])
    }

    ghost predicate ReqsValid()
      reads `reqs, `samples
    {
      ReqsAgree(reqs, samples) && NoneEmpty(reqs)
    }

    ghost predicate ObjsValid()
      reads `objs, `conf, `samples
    {
      ObjsAgree(objs, samples) && NoneEmpty(objs) && conf == Changes(samples, ConfObs())
    }

    ghost predicate Valid()
      reads this
    {
      AddrsValid() && ReqsValid() && ObjsValid()
    }

    /** All samples of the source are added, in time order. */
    ghost predicate Built()
      reads this
    {
      Valid() && samples == SortByTime(source)
    }

    /** The plain reading of the source at t: a linear scan in file order. */
    ghost function Plain<V>(obs: Sample -> seq<V>, t: int): Option<V>
      reads `source
    {
      Held(HistoryOf(source, obs), t, opts.before)
    }

    lemma PlainIsHeld<V>(obs: Sample -> seq<V>, t: int)
      requires Built()
      ensures Ordered(Changes(samples, obs)) && Held(Changes(samples, obs), t, opts.before) == Plain(obs, t)
    {
      ReplayIsPlainReading(source, obs, t, opts.before);
    }

    constructor (split: Sample -> Option<AddressValues>, target: Target, end: int, opts: Options)
      ensures Valid() && samples == [] && n == 0 && first == end
      ensures this.split == split && this.target == target && this.end == end && this.opts == opts
    {
      this.split, this.target, this.end, this.opts := split, target, end, opts;
      addrs := map[1 := map[], 2 := map[], 3 := map[], 4 := map[]];
      reqs, objs, conf, first, n, samples := map[], map[], [], end, 0, [];
    }

    method AddAddresses(s: Sample)
      requires AddrsValid() && 1 <= FunctionOf(s.request) <= 4
      modifies `addrs
      ensures AddrsAgree(addrs, split, samples + [s]) && forall fc :: fc in addrs ==> NoneEmpty(addrs[fc])
    {
      var fc := FunctionOf(s.request);
      var av := split(s);
      if av == None {
        AddrsUntouched(addrs, split, samples, s);
        return;
      }
      assert fc in addrs;
      var m := MergeAddresses(addrs[fc], av.value, s.at);
      forall a: U16 ensures List(m, a) == Feed(List(addrs[fc], a), s.at, AddrValues(split, fc, a, s)) {
        ValuesAreFed(addrs[fc], av.value, |av.value.values|, s.at, a);
      }
      ValuesFillLists(addrs[fc], av.value, |av.value.values|, s.at);
      FunctionTouched(addrs[fc], m, split, fc, samples, s);
      AddrsTouched(addrs, m, split, samples, s);
      addrs := addrs[fc := m];
    }

    method AddIdentity(s: Sample)
      requires ObjsValid() && IsIdentity(s)
      modifies `objs, `conf
      ensures ObjsAgree(objs, samples + [s]) && NoneEmpty(objs) && conf == Changes(samples + [s], ConfObs())
    {
      ConfGrows(samples, s);
      var r := s.response;
      if !IsPage(r) {
        ObjsTouched(objs, objs, samples, s);
        return;
      }
      conf := AppendPoint(conf, Point(s.at, r[3]));
      var m := MergeObjects(objs, r, s.at);
      forall id: Byte ensures List(m, id) == Feed(List(objs, id), s.at, ValuesOf(PageObjects(r), id)) {
        ObjectsAreFed(objs, PageObjects(r), s.at, id);
      }
      ObjectsFillLists(objs, PageObjects(r), s.at);
      ObjsTouched(objs, m, samples, s);
      objs := m;
    }

    method AddRequest(s: Sample)
      requires ReqsValid() && IsKeyed(s)
      modifies `reqs
      ensures ReqsAgree(reqs, samples + [s]) && NoneEmpty(reqs)
    {
      var pts := List(reqs, s.request);
      ReqsTouched(reqs, samples, s);
      assert reqs[s.request := pts] == reqs || s.request !in reqs;
      reqs := reqs[s.request := AppendPoint(pts, Point(s.at, s.response))];
    }

    method Add(s: Sample)
      requires Valid()
      modifies `addrs, `reqs, `objs, `conf, `samples
      ensures Valid() && samples == old(samples) + [s]
    {
      var fc := FunctionOf(s.request);
      if 1 <= fc <= 4 {
        AddAddresses(s);
        ReqsUntouched(reqs, samples, s);
        ObjsUntouched(objs, samples, s);
        ConfGrows(samples, s);
      } else if IsIdentity(s) {
        AddIdentity(s);
        ReqsUntouched(reqs, samples, s);
        AddrsUntouched(addrs, split, samples, s);
      } else {
        AddRequest(s);
        AddrsUntouched(addrs, split, samples, s);
        ObjsUntouched(objs, samples, s);
        ConfGrows(samples, s);
      }
      samples := samples + [s];
    }

    /** Counts a sample added at a time. */
    method Note(at: int)
      requires Valid()
      modifies `first, `n
      ensures Valid() && n == old(n) + 1 && first == if at < old(first) then at else old(first)
    {
      first := if at < first then at else first;
      n := n + 1;
    }

    /** All samples are added. */
    method Finish(ghost hosted: seq<Sample>)
      requires Valid() && samples == SortByTime(hosted)
      modifies `first, `source
      ensures Built() && source == hosted && first == if n == 0 then 0 else old(first)
    {
      if n == 0 {
        first := 0;
      }
      source := hosted;
    }

    /** Position of the last point at or before t (or the first, held from the start). */
    method IndexIn<V>(pts: seq<Point<V>>, t: int) returns (i: int)
      requires Ordered(pts)
      ensures i < |pts| && Held(pts, t, opts.before) == if i < 0 then None else Some(pts[i].v)
    {
      i := Index(pts, t, opts.before);
    }

    method Value(pts: seq<Point<U16>>, t: int) returns (v: U16, ok: bool)
      requires Ordered(pts)
      ensures Held(pts, t, opts.before) == if ok then Some(v) else None
      ensures !ok ==> v == 0
    {
      var i := IndexIn(pts, t);
      if i < 0 {
        return 0, false;
      }
      return pts[i].v, true;
    }

    /** The plain reading of address start + i of function fc at t. */
    ghost function PlainAt(t: int, fc: Byte, start: U16, i: nat): Option<U16>
      reads `source
    {
      if start + i <= 0xFFFF then Plain(AddrObs(split, fc, start + i), t) else None
    }

    /** The value of address start + i, looked up in its change list. */
    method ValueAt(t: int, fc: Byte, start: U16, i: nat) returns (v: U16, ok: bool)
      requires Built() && 1 <= fc <= 4 && start + i <= 0xFFFF
      ensures PlainAt(t, fc, start, i) == if ok then Some(v) else None
      ensures !ok ==> v == 0
    {
      PlainIsHeld(AddrObs(split, fc, start + i), t);
      ListIsChanges(fc, start + i);
      v, ok := Value(List(addrs[fc], start + i), t);
    }

    /** Whether qty addresses from start can be read with fc at all. */
    static predicate InSpan(fc: Byte, start: U16, qty: U16) {
      1 <= fc <= 4 && qty != 0 && start + qty <= 0x1_0000
    }

    /** vals is the plain reading of the addresses from start on, all of them known. */
    ghost predicate AllKnown(t: int, fc: Byte, start: U16, vals: seq<U16>)
      reads `source
    {
      forall i :: 0 <= i < |vals| ==> PlainAt(t, fc, start, i) == Some(vals[i])
    }

    lemma AllKnownOne(t: int, fc: Byte, start: U16, vals: seq<U16>, v: U16)
      requires AllKnown(t, fc, start, vals) && PlainAt(t, fc, start, |vals|) == Some(v)
      ensures AllKnown(t, fc, start, vals + [v])
    {
      forall i | 0 <= i < |vals + [v]| ensures PlainAt(t, fc, start, i) == Some((vals + [v])[i]) {
        if i < |vals| {
          assert (vals + [v])[i] == vals[i];
        }
      }
    }

    /** The reading of a whole range: ok exactly if all its addresses are known, and then vals. */
    ghost predicate ReadAll(t: int, fc: Byte, start: U16, qty: U16, vals: seq<U16>, ok: bool)
      reads `source
    {
      && (ok <==> InSpan(fc, start, qty) && forall i :: 0 <= i < qty ==> PlainAt(t, fc, start, i).Some?)
      && (ok ==> |vals| == qty && AllKnown(t, fc, start, vals))
    }

    method Values(t: int, fc: Byte, start: U16, qty: U16) returns (vals: seq<U16>, ok: bool)
      requires Built()
      ensures ReadAll(t, fc, start, qty, vals, ok)
    {
      if !InSpan(fc, start, qty) {
        return [], false;
      }
      vals := [];
      for i := 0 to qty
        invariant |vals| == i && AllKnown(t, fc, start, vals)
      {
        var v, have := ValueAt(t, fc, start, i);
        if !have {
          return [], false;
        }
        AllKnownOne(t, fc, start, vals, v);
        vals := vals + [v];
      }
      ok := true;
    }

    /** vals and have are the plain reading, address by address. */
    ghost predicate LookedUp(t: int, fc: Byte, start: U16, vals: seq<U16>, have: seq<bool>)
      reads `source
    {
      && |vals| == |have|
      && forall i :: 0 <= i < |vals| ==> PlainAt(t, fc, start, i) == (if have[i] then Some(vals[i]) else None) && (have[i] || vals[i] == 0)
    }

    lemma LookedUpOne(t: int, fc: Byte, start: U16, vals: seq<U16>, have: seq<bool>, v: U16, known: bool)
      requires LookedUp(t, fc, start, vals, have) && (known || v == 0)
      requires PlainAt(t, fc, start, |vals|) == if known then Some(v) else None
      ensures LookedUp(t, fc, start, vals + [v], have + [known])
    {
      var vals', have' := vals + [v], have + [known];
      forall i | 0 <= i < |vals'|
        ensures PlainAt(t, fc, start, i) == (if have'[i] then Some(vals'[i]) else None) && (have'[i] || vals'[i] == 0)
      {
        if i < |vals| {
          assert vals'[i] == vals[i] && have'[i] == have[i];
        }
      }
    }

    /** Values for each address on its own. */
    method Lookup(t: int, fc: Byte, start: U16, qty: U16) returns (vals: seq<U16>, have: seq<bool>)
      requires Built()
      ensures LookedUp(t, fc, start, vals, have) && |vals| == if InSpan(fc, start, qty) then qty else 0
    {
      vals, have := [], [];
      if !InSpan(fc, start, qty) {
        return;
      }
      for i := 0 to qty
        invariant LookedUp(t, fc, start, vals, have) && |vals| == i
      {
        var v, known := ValueAt(t, fc, start, i);
        LookedUpOne(t, fc, start, vals, have, v, known);
        vals, have := vals + [v], have + [known];
      }
    }

    /** Values succeeds exactly if the range is valid and Lookup has every address of it, and
        then with the values of Lookup. */
    lemma ValuesIffLookupHasAll(t: int, fc: Byte, start: U16, qty: U16, vals: seq<U16>, ok: bool, each: seq<U16>, have: seq<bool>)
      requires ReadAll(t, fc, start, qty, vals, ok)
      requires LookedUp(t, fc, start, each, have) && |each| == if InSpan(fc, start, qty) then qty else 0
      ensures ok <==> InSpan(fc, start, qty) && forall i :: 0 <= i < |have| ==> have[i]
      ensures ok ==> vals == each
    {
      if InSpan(fc, start, qty) {
        forall i | 0 <= i < qty ensures PlainAt(t, fc, start, i).Some? <==> have[i] {
        }
      }
      if ok {
        forall i | 0 <= i < qty ensures vals[i] == each[i] {
          assert PlainAt(t, fc, start, i) == Some(vals[i]);
        }
      }
    }

    /** Reading a range reads its two parts. */
    lemma RangeSplits(t: int, fc: Byte, start: U16, left: seq<U16>, right: seq<U16>)
      requires start + |left| + |right| <= 0x1_0000 && right != []
      ensures AllKnown(t, fc, start, left + right) <==>
              AllKnown(t, fc, start, left) && AllKnown(t, fc, start + |left|, right)
    {
      forall i | 0 <= i < |right|
        ensures PlainAt(t, fc, start + |left|, i) == PlainAt(t, fc, start, |left| + i) && (left + right)[|left| + i] == right[i]
      {
      }
      forall i | 0 <= i < |left| ensures (left + right)[i] == left[i] {
      }
      if AllKnown(t, fc, start, left + right) {
        forall i | 0 <= i < |left| ensures PlainAt(t, fc, start, i) == Some(left[i]) {
          assert (left + right)[i] == left[i];
        }
        forall i | 0 <= i < |right| ensures PlainAt(t, fc, start + |left|, i) == Some(right[i]) {
          assert PlainAt(t, fc, start, |left| + i) == Some((left + right)[|left| + i]);
        }
      }
      if AllKnown(t, fc, start, left) && AllKnown(t, fc, start + |left|, right) {
        forall k | 0 <= k < |left + right| ensures PlainAt(t, fc, start, k) == Some((left + right)[k]) {
          if k >= |left| {
            assert PlainAt(t, fc, start + |left|, k - |left|) == Some(right[k - |left|]);
          }
        }
      }
    }

    /** The response recorded for exactly this request. */
    method Response(t: int, request: seq<Byte>) returns (resp: Option<seq<Byte>>)
      requires Built()
      ensures resp == Plain(ReqObs(request), t)
    {
      PlainIsHeld(ReqObs(request), t);
      var pts := List(reqs, request);
      var i := IndexIn(pts, t);
      if i < 0 {
        return None;
      }
      return Some(pts[i].v);
    }

    /** The objects with ids below bound known at t, in id order. */
    ghost function PlainObjects(t: int, bound: nat): seq<Object>
      requires bound <= 256
      reads `source
    {
      if bound == 0 then []
      else
        var v := Plain(ObjObs(bound - 1), t);
        PlainObjects(t, bound - 1) + if v.Some? then [Object(bound - 1, v.value)] else []
    }

    /** The value of object id, looked up in its change list. */
    method ObjectAt(t: int, id: Byte) returns (v: Option<seq<Byte>>)
      requires Built()
      ensures v == Plain(ObjObs(id), t)
    {
      PlainIsHeld(ObjObs(id), t);
      var pts := List(objs, id);
      var i := IndexIn(pts, t);
      v := if i >= 0 then Some(pts[i].v) else None;
    }

    /** The latest conformity level, 0 if none is known. */
    method ConformityAt(t: int) returns (conformity: Byte)
      requires Built()
      ensures conformity == match Plain(ConfObs(), t) case Some(c) => c case None => 0
    {
      PlainIsHeld(ConfObs(), t);
      var i := IndexIn(conf, t);
      conformity := if i >= 0 then conf[i].v else 0;
    }

    lemma PlainObjectsOne(t: int, id: Byte, v: Option<seq<Byte>>)
      requires v == Plain(ObjObs(id), t)
      ensures PlainObjects(t, id + 1) == PlainObjects(t, id) + if v.Some? then [Object(id, v.value)] else []
    {
    }

    method KnownObjects(t: int) returns (objects: seq<Object>)
      requires Built()
      ensures objects == PlainObjects(t, 256)
    {
      objects := [];
      for id := 0 to 256
        invariant objects == PlainObjects(t, id)
      {
        objects := AddObject(t, id, objects);
      }
    }

    /** Appends object id, if it is known. */
    method AddObject(t: int, id: Byte, before: seq<Object>) returns (objects: seq<Object>)
      requires Built() && before == PlainObjects(t, id)
      ensures objects == PlainObjects(t, id + 1)
    {
      var v := ObjectAt(t, id);
      PlainObjectsOne(t, id, v);
      objects := before + if v.Some? then [Object(id, v.value)] else [];
    }

    /** The identification objects known at t in id order, and the latest conformity level. */
    method Identification(t: int) returns (conformity: Byte, objects: seq<Object>, ok: bool)
      requires Built()
      ensures objects == PlainObjects(t, 256) && (ok <==> objects != [])
      ensures ok ==> conformity == match Plain(ConfObs(), t) case Some(c) => c case None => 0
      ensures !ok ==> conformity == 0
    {
      objects := KnownObjects(t);
      if objects == [] {
        return 0, [], false;
      }
      conformity := ConformityAt(t);
      ok := true;
    }

    /** Sample s shows something of function fc. */
    ghost predicate Shows(fc: Byte, s: Sample) {
      if 1 <= fc <= 4 then FunctionOf(s.request) == fc && split(s).Some? && split(s).value.values != []
      else if fc == 0x2B then IsIdentity(s) && PageObjects(s.response) != []
      else IsKeyed(s) && FunctionOf(s.request) == fc
    }

    ghost predicate ShownInSource(fc: Byte)
      reads `source
    {
      exists s :: s in source && Shows(fc, s)
    }

    lemma ListIsChanges(fc: Byte, a: U16)
      requires Built() && 1 <= fc <= 4
      ensures fc in addrs && NoneEmpty(addrs[fc]) && List(addrs[fc], a) == Changes(samples, AddrObs(split, fc, a))
    {
      assert fc in addrs;
      assert FunctionAgrees(addrs[fc], split, fc, samples);
    }

    lemma ShownIsKept(fc: Byte, s: Sample)
      requires Built() && 1 <= fc <= 4 && s in source && Shows(fc, s)
      ensures addrs[fc] != map[]
    {
      SortKeepsSample(source, s);
      var a := SomeAddress(split(s).value);
      AddrObsSees(split, fc, a, s);
      SeenIffShown(samples, AddrObs(split, fc, a));
      ListIsChanges(fc, a);
      assert List(addrs[fc], a) != [];
    }

    lemma KeptIsShown(fc: Byte, a: U16)
      requires Built() && 1 <= fc <= 4 && a in addrs[fc]
      ensures ShownInSource(fc)
    {
      ListIsChanges(fc, a);
      assert List(addrs[fc], a) == addrs[fc][a] != [];
      SeenIffShown(samples, AddrObs(split, fc, a));
      var s :| s in samples && AddrObs(split, fc, a)(s) != [];
      SortKeepsSample(source, s);
      assert Shows(fc, s);
    }

    lemma AddressesAreShown(fc: Byte)
      requires Built() && 1 <= fc <= 4
      ensures ShownInSource(fc) <==> addrs[fc] != map[]
    {
      if s :| s in source && Shows(fc, s) {
        ShownIsKept(fc, s);
      }
      if a: U16 :| a in addrs[fc] {
        KeptIsShown(fc, a);
      }
    }

    lemma ObjectIsKept(s: Sample)
      requires Built() && s in source && Shows(0x2B, s)
      ensures objs != map[]
    {
      SortKeepsSample(source, s);
      var objects := PageObjects(s.response);
      var id := objects[|objects| - 1].id;
      assert ValuesOf(objects, id) != [];
      SeenIffShown(samples, ObjObs(id));
      assert List(objs, id) != [];
    }

    lemma ObjectsAreShown()
      requires Built()
      ensures ShownInSource(0x2B) <==> objs != map[]
    {
      if s :| s in source && Shows(0x2B, s) {
        ObjectIsKept(s);
      }
      if id: Byte :| id in objs {
        assert List(objs, id) == objs[id] != [];
        SeenIffShown(samples, ObjObs(id));
        var s :| s in samples && ObjObs(id)(s) != [];
        SortKeepsSample(source, s);
        assert Shows(0x2B, s);
      }
    }

    lemma RequestIsShown(request: seq<Byte>)
      requires Built()
      ensures request in reqs <==> exists s :: s in source && IsKeyed(s) && s.request == request
    {
      assert List(reqs, request) == Changes(samples, ReqObs(request));
      SeenIffShown(samples, ReqObs(request));
      if s :| s in source && IsKeyed(s) && s.request == request {
        SortKeepsSample(source, s);
        assert ReqObs(request)(s) != [];
      }
      if request in reqs {
        var s :| s in samples && ReqObs(request)(s) != [];
        SortKeepsSample(source, s);
        assert s in source && IsKeyed(s) && s.request == request;
      }
    }

    lemma RequestsOf(fc: Byte)
      requires Built() && !(1 <= fc <= 4) && fc != 0x2B
      ensures ShownInSource(fc) <==> exists k :: k in reqs && FunctionOf(k) == fc
    {
      if s :| s in source && Shows(fc, s) {
        RequestIsShown(s.request);
        assert s.request in reqs;
      }
      if k :| k in reqs && FunctionOf(k) == fc {
        RequestIsShown(k);
        var s :| s in source && IsKeyed(s) && s.request == k;
        assert Shows(fc, s);
      }
    }

    /** The loop over the recorded requests. */
    method HasRequest(fc: Byte) returns (has: bool)
      requires forall k :: k in reqs ==> k != []
      ensures has <==> exists k :: k in reqs && FunctionOf(k) == fc
    {
      var keys := reqs.Keys;
      while keys != {}
        invariant keys <= reqs.Keys
        invariant forall k :: k in reqs.Keys - keys ==> FunctionOf(k) != fc
        decreases |keys|
      {
        var k :| k in keys;
        if k[0] == fc {
          return true;
        }
        keys := keys - {k};
      }
      has := false;
    }

    /** Whether the source shows anything of fc. A capture holds no empty request. */
    method HasFunction(fc: Byte) returns (has: bool)
      requires Built() && forall s :: s in source ==> s.request != []
      ensures has <==> ShownInSource(fc)
    {
      if 1 <= fc <= 4 {
        AddressesAreShown(fc);
        return addrs[fc] != map[];
      }
      if fc == 0x2B {
        ObjectsAreShown();
        return objs != map[];
      }
      forall k | k in reqs ensures k != [] {
        RequestIsShown(k);
      }
      RequestsOf(fc);
      has := HasRequest(fc);
    }

    /** A request of FC01-04: function, start and quantity. */
    static function StartOf(req: seq<Byte>): U16
      requires |req| == 5
    {
      Word(req[1], req[2])
    }

    static function QtyOf(req: seq<Byte>): U16
      requires |req| == 5
    {
      Word(req[3], req[4])
    }

    /** The device can answer the FC01-04 request req at t. */
    ghost predicate Answerable(t: int, req: seq<Byte>)
      requires req != []
      reads `source
    {
      && |req| == 5 && QtyOf(req) <= (if req[0] <= 2 then MAX_READ_BITS else MAX_READ_REGISTERS)
      && InSpan(req[0], StartOf(req), QtyOf(req))
      && forall i :: 0 <= i < QtyOf(req) ==> PlainAt(t, req[0], StartOf(req), i).Some?
    }

    /** A read is answered if it has five bytes - the function, the start and the quantity, high
        byte first -, asks for 1 to 2000 bits or 1 to 125 registers that end by 65535, and all of
        them are known. */
    lemma AnswerableIff(t: int, req: seq<Byte>)
      requires req != [] && 1 <= req[0] <= 4
      ensures Answerable(t, req) <==>
              && |req| == 5
              && var start, qty := req[1] as int * 256 + req[2] as int, req[3] as int * 256 + req[4] as int;
                 && 1 <= qty <= (if req[0] == 1 || req[0] == 2 then 2000 else 125) && start + qty <= 65536
                 && forall i :: 0 <= i < qty ==> PlainAt(t, req[0], start, i).Some?
    {
      if |req| == 5 {
        var start, qty := req[1] as int * 256 + req[2] as int, req[3] as int * 256 + req[4] as int;
        assert StartOf(req) == start && QtyOf(req) == qty;
        if Answerable(t, req) {
          forall i | 0 <= i < qty ensures PlainAt(t, req[0], start, i).Some? {
            assert PlainAt(t, req[0], StartOf(req), i).Some?;
          }
        } else if 1 <= qty && start + qty <= 65536 && qty <= if req[0] <= 2 then 2000 else 125 {
          var i :| 0 <= i < QtyOf(req) && PlainAt(t, req[0], StartOf(req), i) == None;
          assert PlainAt(t, req[0], start, i) == None;
        }
      }
    }

    /** A register or bit that is read was recorded: some hosted sample of the function has the
        value at the address. */
    lemma ReadIsRecorded(t: int, fc: Byte, a: U16) returns (s: Sample, i: nat)
      requires 1 <= fc <= 4 && PlainAt(t, fc, a, 0).Some?
      ensures s in source && s.request != [] && s.request[0] == fc
      ensures split(s).Some? && i < |split(s).value.values|
      ensures (split(s).value.start + i) % 0x1_0000 == a && PlainAt(t, fc, a, 0) == Some(split(s).value.values[i])
    {
      s := HeldIsShown(source, AddrObs(split, fc, a), t, opts.before);
      i := ValueIsAt(split(s).value, |split(s).value.values|, a, PlainAt(t, fc, a, 0).value);
    }

    /** A response that is given was recorded, to the same request. */
    lemma ResponseIsRecorded(t: int, req: seq<Byte>) returns (s: Sample)
      requires Plain(ReqObs(req), t).Some?
      ensures s in source && s.request == req && Plain(ReqObs(req), t) == Some(s.response)
    {
      s := HeldIsShown(source, ReqObs(req), t, opts.before);
    }

    /** So was the conformity level, in the fourth byte of an identification page. */
    lemma ConformityIsRecorded(t: int) returns (s: Sample)
      requires Plain(ConfObs(), t).Some?
      ensures s in source && |s.response| >= 7 && s.response[..2] == [43, 14] && Plain(ConfObs(), t) == Some(s.response[3])
    {
      s := HeldIsShown(source, ConfObs(), t, opts.before);
      assert s.response[..2] == [s.response[0], s.response[1]];
    }

    /** And an object, in a page of the device. */
    lemma ObjectIsRecorded(t: int, id: Byte) returns (s: Sample)
      requires Plain(ObjObs(id), t).Some?
      ensures s in source && Object(id, Plain(ObjObs(id), t).value) in PageObjects(s.response)
    {
      s := HeldIsShown(source, ObjObs(id), t, opts.before);
      ValuesAreOf(PageObjects(s.response), id, Plain(ObjObs(id), t).value);
    }

    /** The bytes of an answer to FC01-04 are those of the plain reading of the addresses. */
    ghost predicate CarriesReading(t: int, req: seq<Byte>, resp: seq<Byte>)
      requires |req| == 5
      reads `source
    {
      exists vals: seq<U16> :: |vals| == QtyOf(req) && AllKnown(t, req[0], StartOf(req), vals) && Carries(req[0], vals, resp)
    }

    /** Answers a request PDU: FC01-04 address by address, others as recorded. The answer to
        FC01-04 carries the plain reading, and decoding it gives back the values (for bits,
        whether they are zero). */
    method Read(t: int, req: seq<Byte>) returns (resp: Option<seq<Byte>>)
      requires Built()
      ensures req == [] || req[0] == 0x2B ==> resp == None
      ensures req != [] && req[0] != 0x2B && !(1 <= req[0] <= 4) ==> resp == Plain(ReqObs(req), t)
      ensures req != [] && 1 <= req[0] <= 4 ==> (resp.Some? <==> Answerable(t, req))
      ensures req != [] && 1 <= req[0] <= 4 && resp.Some? ==> CarriesReading(t, req, resp.value)
      ensures req != [] && 1 <= req[0] <= 4 && resp.Some? ==> Decode(req[0], QtyOf(req), resp.value).Some?
      ensures req != [] && 1 <= req[0] <= 4 && resp.Some? ==>
                var words := Decode(req[0], QtyOf(req), resp.value).value;
                && |words| == QtyOf(req)
                && forall i :: 0 <= i < |words| ==>
                     var v := PlainAt(t, req[0], StartOf(req), i);
                     v.Some? && words[i] == if req[0] > 2 then v.value else if v.value != 0 then 1 else 0
    {
      if |req| == 0 {
        return None;
      }
      var fc := req[0];
      if fc < 1 || fc > 4 {
        if fc == 0x2B {
          return None;
        }
        resp := Response(t, req);
        return;
      }
      if |req| != 5 {
        return None;
      }
      var start, qty := StartOf(req), QtyOf(req);
      if (fc <= 2 && qty > MAX_READ_BITS) || (fc > 2 && qty > MAX_READ_REGISTERS) {
        return None;
      }
      var vals, ok := Values(t, fc, start, qty);
      if !ok {
        return None;
      }
      var pdu := Encode(fc, vals);
      resp := Some(pdu);
    }
  }

  // ----- building a device from a capture -----

  /** The target defined last under an id. */
  function TargetOf(targets: seq<Target>, id: U32): Option<Target> {
    if targets == [] then None
    else if targets[|targets| - 1].id == id then Some(targets[|targets| - 1])
    else TargetOf(targets[..|targets| - 1], id)
  }

  /** The streams of the target that are wanted; naming none wants all. */
  predicate Wanted(s: Stream, target: U32, only: seq<U32>) {
    s.target == target && (only == [] || s.id in only)
  }

  /** A capture plays all streams of its target, or those of them that are named. */
  lemma WantedStreamsAre(streams: seq<Stream>, target: U32, only: seq<U32>, id: U32)
    ensures id in WantedIds(streams, target, only) <==>
            && (exists s :: s in streams && s.id == id && s.target == target)
            && (only != [] ==> id in only)
  {
    if id in WantedIds(streams, target, only) {
      var s :| s in streams && Wanted(s, target, only) && s.id == id;
    }
    if s :| s in streams && s.id == id && s.target == target && (only != [] ==> id in only) {
      assert Wanted(s, target, only);
    }
  }

  /** A sample is hosted if its stream is and its response is no exception, that is, does not
      begin with a byte from 0x80 on. */
  lemma {:induction false} HostedAre(samples: seq<Sample>, streams: set<U32>, s: Sample)
    ensures s in Hosted(samples, streams) <==> s in samples && s.stream in streams && (s.response == [] || s.response[0] < 0x80)
  {
    if samples != [] {
      HostedAre(samples[..|samples| - 1], streams, s);
      assert samples == samples[..|samples| - 1] + [samples[|samples| - 1]];
    }
  }

  /** Where a sample is kept: FC01-04 by address, FC43 with MEI type 14 by object, all others by
      request. */
  lemma KeptWhere(s: Sample)
    ensures IsIdentity(s) <==> |s.request| >= 2 && s.request[0] == 43 && s.request[1] == 14
    ensures IsKeyed(s) <==> (s.request == [] || !(1 <= s.request[0] <= 4)) && !(|s.request| >= 2 && s.request[..2] == [43, 14])
  {
    if |s.request| >= 2 {
      assert s.request[..2] == [s.request[0], s.request[1]];
    }
  }

  /** The samples the device hosts, in file order: those of wanted streams that are not
      exceptions. */
  function Hosted(samples: seq<Sample>, streams: set<U32>): seq<Sample> {
    if samples == [] then []
    else
      var s := samples[|samples| - 1];
      Hosted(samples[..|samples| - 1], streams) + if s.stream in streams && !IsException(s) then [s] else []
  }

  method FindTarget(targets: seq<Target>, id: U32) returns (found: Option<Target>)
    ensures found == TargetOf(targets, id)
  {
    found := None;
    for i := 0 to |targets|
      invariant found == TargetOf(targets[..i], id)
    {
      assert targets[..i + 1][..i] == targets[..i];
      if targets[i].id == id {
        found := Some(targets[i]);
      }
    }
    assert targets[..|targets|] == targets;
  }

  ghost function WantedIds(streams: seq<Stream>, target: U32, only: seq<U32>): set<U32> {
    set s | s in streams && Wanted(s, target, only) :: s.id
  }

  method WantedStreams(streams: seq<Stream>, target: U32, only: seq<U32>) returns (ids: set<U32>)
    ensures ids == WantedIds(streams, target, only)
  {
    ids := {};
    for i := 0 to |streams|
      invariant ids == WantedIds(streams[..i], target, only)
    {
      assert streams[..i + 1] == streams[..i] + [streams[i]];
      if Wanted(streams[i], target, only) {
        ids := ids + {streams[i].id};
      }
    }
    assert streams[..|streams|] == streams;
  }

  method HostedSamples(samples: seq<Sample>, streams: set<U32>) returns (hosted: seq<Sample>)
    ensures hosted == Hosted(samples, streams)
  {
    hosted := [];
    for i := 0 to |samples|
      invariant hosted == Hosted(samples[..i], streams)
    {
      assert samples[..i + 1][..i] == samples[..i];
      if samples[i].stream in streams && !IsException(samples[i]) {
        hosted := hosted + [samples[i]];
      }
    }
    assert samples[..|samples|] == samples;
  }

  lemma SortKeepsLength(samples: seq<Sample>)
    ensures |SortByTime(samples)| == |samples|
  {
    SortIsOrdered(samples);
    assert |SortByTime(samples)| == |multiset(SortByTime(samples))| && |samples| == |multiset(samples)|;
  }

  /** The time of the first sample, at most end; 0 without samples. */
  function FirstOf(samples: seq<Sample>, end: int): int {
    if samples == [] then end
    else
      var before, at := FirstOf(samples[..|samples| - 1], end), samples[|samples| - 1].at;
      if at < before then at else before
  }

  lemma FirstOfOne(samples: seq<Sample>, i: nat, end: int)
    requires i < |samples|
    ensures samples[..i + 1] == samples[..i] + [samples[i]]
    ensures var before, at := FirstOf(samples[..i], end), samples[i].at;
            FirstOf(samples[..i + 1], end) == if at < before then at else before
  {
    assert samples[..i + 1][..i] == samples[..i];
  }

  /** Adds samples that are in time order to a new device. */
  method Fill(d: Device, sorted: seq<Sample>)
    requires d.Valid() && d.samples == [] && d.n == 0 && d.first == d.end
    modifies d
    ensures d.Valid() && d.samples == sorted && d.n == |sorted| && d.first == FirstOf(sorted, d.end) && d.source == old(d.source)
  {
    for i := 0 to |sorted|
      invariant d.Valid() && d.samples == sorted[..i] && d.n == i && d.first == FirstOf(sorted[..i], d.end) && d.source == old(d.source)
    {
      FirstOfOne(sorted, i, d.end);
      d.Add(sorted[i]);
      d.Note(sorted[i].at);
    }
    assert sorted[..|sorted|] == sorted;
  }

  /** Collects the samples of a target. The device's plain reading is that of the hosted
      samples in file order. */
  method Build(c: Capture, target: U32, end: int, opts: Options, split: Sample -> Option<AddressValues>) returns (r: Result<Device>)
    ensures r == ErrUnknownTarget <==> TargetOf(c.targets, target) == None
    ensures r.Ok? ==>
              && fresh(r.value) && r.value.Built() && r.value.split == split && r.value.opts == opts && r.value.end == end
              && Some(r.value.target) == TargetOf(c.targets, target)
              && r.value.source == Hosted(c.samples, WantedIds(c.streams, target, opts.streams)) && r.value.n == |r.value.source|
              && r.value.first == if r.value.source == [] then 0 else FirstOf(SortByTime(r.value.source), end)
  {
    var found := FindTarget(c.targets, target);
    if found == None {
      return ErrUnknownTarget;
    }
    var d := new Device(split, found.value, end, opts);
    var ids := WantedStreams(c.streams, target, opts.streams);
    var hosted := HostedSamples(c.samples, ids);
    SortKeepsLength(hosted);
    Fill(d, SortByTime(hosted));
    d.Finish(hosted);
    r := Ok(d);
  }

  // ----- which samples are seen -----

  lemma SomeAddress(av: AddressValues) returns (a: U16)
    requires av.values != []
    ensures ValuesAt(av, |av.values|, a) != []
  {
    a := AddrAt(av, |av.values| - 1);
  }

  lemma AddrObsSees(split: Sample -> Option<AddressValues>, fc: Byte, a: U16, s: Sample)
    requires FunctionOf(s.request) == fc && split(s).Some? && ValuesAt(split(s).value, |split(s).value.values|, a) != []
    ensures AddrObs(split, fc, a)(s) != []
  {
  }

  lemma SortKeepsSample(samples: seq<Sample>, s: Sample)
    ensures s in samples <==> s in SortByTime(samples)
  {
    SortIsOrdered(samples);
    assert s in samples <==> s in multiset(samples);
    assert s in SortByTime(samples) <==> s in multiset(SortByTime(samples));
  }

  lemma {:induction false} SeenIffShown<V>(samples: seq<Sample>, obs: Sample -> seq<V>)
    ensures Changes(samples, obs) != [] <==> exists s :: s in samples && obs(s) != []
  {
    if samples == [] {
      assert HistoryOf(samples, obs) == [];
    } else {
      var front, s := samples[..|samples| - 1], samples[|samples| - 1];
      SeenIffShown(front, obs);
      Snoc(samples);
      ChangesOne(front, s, obs);
      FeedGrows(Changes(front, obs), s.at, obs(s));
    }
  }

  lemma {:induction false} FeedGrows<V>(pts: seq<Point<V>>, at: int, values: seq<V>)
    ensures Feed(pts, at, values) != [] <==> pts != [] || values != []
  {
    if values != [] {
      FeedGrows(pts, at, values[..|values| - 1]);
    }
  }

  // ----- device identification pages -----

  function ObjectBytes(objects: seq<Object>): seq<Byte>
    requires forall o :: o in objects ==> |o.value| <= 255
  {
    if objects == [] then []
    else [objects[0].id, |objects[0].value|] + objects[0].value + ObjectBytes(objects[1..])
  }

  /** The bytes of an object: its id, its length, its value. */
  lemma ObjectBytesAre(o: Object, rest: seq<Object>)
    requires |o.value| <= 255 && forall p :: p in rest ==> |p.value| <= 255
    ensures ObjectBytes([o] + rest) == [o.id, |o.value|] + o.value + ObjectBytes(rest)
  {
    assert ([o] + rest)[1..] == rest;
  }

  /** A device identification page carrying these objects. */
  function PageOf(code: Byte, conformity: Byte, more: Byte, next: Byte, objects: seq<Object>): seq<Byte>
    requires |objects| <= 255 && forall o :: o in objects ==> |o.value| <= 255
  {
    [0x2B, 0x0E, code, conformity, more, next, |objects|] + ObjectBytes(objects)
  }

  lemma Parts(r: seq<Byte>, p: nat, id: Byte, value: seq<Byte>, rest: seq<Byte>)
    requires p <= |r| && |value| <= 255 && r[p..] == [id, |value|] + value + rest
    ensures p + 2 + |value| <= |r| && r[p] == id && r[p + 1] == |value|
    ensures r[p + 2..p + 2 + |value|] == value && r[p + 2 + |value|..] == rest
  {
    var tail, n := r[p..], |value|;
    assert |tail| == 2 + n + |rest|;
    assert r[p] == tail[0] && r[p + 1] == tail[1];
    assert r[p + 2..p + 2 + n] == tail[2..2 + n] && r[p + 2 + n..] == tail[2 + n..];
    assert tail[2..2 + n] == value && tail[2 + n..] == rest;
  }

  lemma {:induction false} ObjectsOfBytes(r: seq<Byte>, p: nat, objects: seq<Object>)
    requires forall o :: o in objects ==> |o.value| <= 255
    requires p <= |r| && r[p..] == ObjectBytes(objects)
    ensures Objects(r, |objects|, p) == objects
    decreases |objects|
  {
    if objects != [] {
      var o, n := objects[0], |objects[0].value|;
      Parts(r, p, o.id, o.value, ObjectBytes(objects[1..]));
      ObjectsOfBytes(r, p + 2 + n, objects[1..]);
      assert o == Object(r[p], r[p + 2..p + 2 + r[p + 1]]);
      assert objects == [o] + objects[1..];
    }
  }

  /** A page gives back the objects it was made of. */
  lemma PageRoundTrip(code: Byte, conformity: Byte, more: Byte, next: Byte, objects: seq<Object>)
    requires |objects| <= 255 && forall o :: o in objects ==> |o.value| <= 255
    ensures PageObjects(PageOf(code, conformity, more, next, objects)) == objects
    ensures IsPage(PageOf(code, conformity, more, next, objects)) && PageOf(code, conformity, more, next, objects)[3] == conformity
  {
    var r := PageOf(code, conformity, more, next, objects);
    assert r[7..] == ObjectBytes(objects);
    ObjectsOfBytes(r, 7, objects);
  }

  /** A page cut short gives a prefix of its objects, none of them mangled. */
  lemma {:induction false} CutPage(r: seq<Byte>, cut: nat, count: nat, p: nat)
    requires cut <= |r|
    ensures Objects(r[..cut], count, p) <= Objects(r, count, p)
    decreases count
  {
    if count > 0 && p + 2 <= cut && p + 2 + r[p + 1] <= cut {
      CutPage(r, cut, count - 1, p + 2 + r[p + 1]);
      assert r[..cut][p + 2..p + 2 + r[p + 1]] == r[p + 2..p + 2 + r[p + 1]];
    }
  }
}
