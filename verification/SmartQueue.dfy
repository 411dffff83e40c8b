/** The priority queue of the smart strategy (internal/modbus/scan_algo.go, 244-262):
    a binary heap kept in a slice, smaller intervals first, ties by start address.
    Push and Pop sift as Go's container/heap does. */
module SmartQueue {
  import opened ScanTypes

  predicate Less(a: ScanTask, b: ScanTask) {
    if a.count != b.count then a.count < b.count else a.start < b.start
  }

  function Parent(k: nat): nat
    requires k > 0
  {
    (k - 1) / 2
  }

  /** Element k does not precede its parent. */
  ghost predicate InOrder(q: seq<ScanTask>, k: nat)
    requires k < |q|
  {
    k > 0 ==> !Less(q[k], q[Parent(k)])
  }

  ghost predicate IsHeap(q: seq<ScanTask>) {
    forall k :: 0 <= k < |q| ==> InOrder(q, k)
  }

  /** A heap but for element hole, whose children do not precede hole's parent. */
  ghost predicate HeapAbove(q: seq<ScanTask>, hole: nat) {
    && (forall k :: 0 <= k < |q| && k != hole ==> InOrder(q, k))
    && (forall k :: 0 < k < |q| && 0 < hole < |q| && Parent(k) == hole ==> !Less(q[k], q[Parent(hole)]))
  }

  /** A heap but for the children of element hole, which do not precede hole's parent. */
  ghost predicate HeapBelow(q: seq<ScanTask>, hole: nat) {
    && (forall k :: 0 < k < |q| && Parent(k) != hole ==> InOrder(q, k))
    && (forall k :: 0 < k < |q| && 0 < hole < |q| && Parent(k) == hole ==> !Less(q[k], q[Parent(hole)]))
  }

  /** The root of a heap precedes or equals every element. */
  lemma {:induction false} RootIsLeast(q: seq<ScanTask>, k: nat)
    requires IsHeap(q) && k < |q|
    ensures !Less(q[k], q[0])
  {
    assert InOrder(q, k);
    if k > 0 {
      RootIsLeast(q, Parent(k));
    }
  }

  function Swap(q: seq<ScanTask>, i: nat, j: nat): (s: seq<ScanTask>)
    requires i < |q| && j < |q|
    ensures |s| == |q| && s[i] == q[j] && s[j] == q[i] && multiset(s) == multiset(q)
    ensures forall k :: 0 <= k < |q| && k != i && k != j ==> s[k] == q[k]
  {
    q[i := q[j]][j := q[i]]
  }

  lemma UpStep(q: seq<ScanTask>, j: nat)
    requires 0 < j < |q| && HeapAbove(q, j) && Less(q[j], q[Parent(j)])
    ensures HeapAbove(Swap(q, Parent(j), j), Parent(j))
  {
    var i := Parent(j);
    var s := Swap(q, i, j);
    forall k | 0 <= k < |s| && k != i ensures InOrder(s, k) {
      assert k != j ==> InOrder(q, k);
    }
    forall k | 0 < k < |s| && 0 < i && Parent(k) == i ensures !Less(s[k], s[Parent(i)]) {
      assert InOrder(q, i);
      assert k != j ==> InOrder(q, k);
    }
  }

  lemma DownStep(q: seq<ScanTask>, i: nat, j: nat)
    requires HeapBelow(q, i) && 0 < j < |q| && Parent(j) == i && Less(q[j], q[i])
    requires forall k :: 0 < k < |q| && Parent(k) == i ==> !Less(q[k], q[j])
    ensures HeapBelow(Swap(q, i, j), j)
  {
    var s := Swap(q, i, j);
    forall k | 0 < k < |s| && Parent(k) != j ensures InOrder(s, k) {
      if Parent(k) != i {
        assert InOrder(q, k);
      }
    }
    forall k | 0 < k < |s| && Parent(k) == j ensures !Less(s[k], s[Parent(j)]) {
      assert InOrder(q, k);
    }
  }

  /** Sifts the last element up. */
  method Up(h: seq<ScanTask>) returns (q: seq<ScanTask>)
    requires |h| > 0 && HeapAbove(h, |h| - 1)
    ensures IsHeap(q) && multiset(q) == multiset(h)
  {
    q := h;
    var j := |q| - 1;
    while j > 0
      invariant 0 <= j < |q| && multiset(q) == multiset(h) && HeapAbove(q, j)
    {
      var i := Parent(j);
      if !Less(q[j], q[i]) {
        break;
      }
      UpStep(q, j);
      q := Swap(q, i, j);
      j := i;
    }
    assert InOrder(q, j);
  }

  /** The child of i that precedes the other. */
  function LesserChild(q: seq<ScanTask>, i: nat): (j: nat)
    requires 2 * i + 1 < |q|
    ensures 0 < j < |q| && Parent(j) == i
    ensures forall k :: 0 < k < |q| && Parent(k) == i ==> !Less(q[k], q[j])
  {
    var j := 2 * i + 1;
    if j + 1 < |q| && Less(q[j + 1], q[j]) then j + 1 else j
  }

  /** A hole whose children are in order, or that has none, is no hole. */
  lemma DownStops(q: seq<ScanTask>, i: nat)
    requires HeapBelow(q, i)
    requires 2 * i + 1 < |q| ==> !Less(q[LesserChild(q, i)], q[i])
    ensures IsHeap(q)
  {
    forall k | 0 <= k < |q| ensures InOrder(q, k) {
      if k > 0 && Parent(k) == i {
        assert !Less(q[k], q[LesserChild(q, i)]);
      }
    }
  }

  /** Sifts the root down. */
  method Down(h: seq<ScanTask>) returns (q: seq<ScanTask>)
    requires HeapBelow(h, 0)
    ensures IsHeap(q) && multiset(q) == multiset(h)
  {
    q := h;
    var i := 0;
    while 2 * i + 1 < |q|
      invariant 0 <= i && multiset(q) == multiset(h) && HeapBelow(q, i)
      decreases |q| - i
    {
      var j := LesserChild(q, i);
      if !Less(q[j], q[i]) {
        break;
      }
      DownStep(q, i, j);
      q := Swap(q, i, j);
      i := j;
    }
    DownStops(q, i);
  }

  method Push(h: seq<ScanTask>, x: ScanTask) returns (q: seq<ScanTask>)
    requires IsHeap(h)
    ensures IsHeap(q) && multiset(q) == multiset(h) + multiset{x}
  {
    forall k | 0 <= k < |h| ensures InOrder(h + [x], k) {
      assert InOrder(h, k);
    }
    q := Up(h + [x]);
  }

  /** Removes the least element. */
  method Pop(h: seq<ScanTask>) returns (x: ScanTask, q: seq<ScanTask>)
    requires IsHeap(h) && |h| > 0
    ensures IsHeap(q) && multiset(h) == multiset(q) + multiset{x}
    ensures forall y :: y in h ==> !Less(y, x)
  {
    forall y | y in h ensures !Less(y, h[0]) {
      var k :| 0 <= k < |h| && h[k] == y;
      RootIsLeast(h, k);
    }
    var n := |h| - 1;
    var s := Swap(h, 0, n);
    assert s == s[..n] + [s[n]];
    x := s[n];
    forall k | 0 < k < n && Parent(k) != 0 ensures InOrder(s[..n], k) {
      assert InOrder(h, k);
    }
    q := Down(s[..n]);
  }
}
