/** The visibility order handed to the compositing engine: process ids
    `0 .. n-1` sorted by ascending distance from the camera to each id's
    anchor. Distances are compared squared, over reals: the square root is
    monotone, so it selects the same orders. */
module VisibilityOrder {
  import opened CentroidRegistry

  /** Squared distance from the camera to an anchor; only the first three
      coordinates of each are read. */
  function SquaredDistance(anchor: Position, camPos: seq<real>): (d: real)
    requires |anchor| >= 3 && |camPos| >= 3
    ensures d >= 0.0
  {
    var dx := anchor[0] - camPos[0];
    var dy := anchor[1] - camPos[1];
    var dz := anchor[2] - camPos[2];
    dx * dx + dy * dy + dz * dz
  }

  /** The `distances` table, indexed by process id. */
  function Distances(reg: Registry, camPos: seq<real>, n: nat): seq<real>
    requires CoversRange(reg, n)
    requires n > 0 ==> |camPos| >= 3
  {
    seq(n, id requires 0 <= id < n => SquaredDistance(reg[id], camPos))
  }

  /** The initial `procs` table: id `i` at position `i`. */
  function Identity(n: nat): seq<nat>
  {
    seq(n, i requires 0 <= i < n => i)
  }

  predicate InRange(ids: seq<nat>, n: nat)
  {
    forall k :: 0 <= k < |ids| ==> ids[k] < n
  }

  /** Non-decreasing in distance, compared pairwise. */
  predicate SortedBy(ids: seq<nat>, d: seq<real>)
    requires InRange(ids, |d|)
  {
    forall i, j :: 0 <= i < j < |ids| ==> d[ids[i]] <= d[ids[j]]
  }

  /** Each id of `[0, n)` exactly once. */
  predicate IsPermutationOfRange(ids: seq<nat>, n: nat)
  {
    multiset(ids) == multiset(Identity(n))
  }

  /** Every element of `s[1..]` lies at least as far as `s[0]`; exposes the
      multiset membership of a sorted tail as an index. */
  lemma HeadBoundsTail(head: nat, x: nat, rest: seq<nat>, tail: seq<nat>, d: seq<real>)
    requires head < |d| && x < |d| && InRange(tail, |d|) && InRange(rest, |d|)
    requires d[head] <= d[x]
    requires forall k :: 0 <= k < |tail| ==> d[head] <= d[tail[k]]
    requires multiset(rest) == multiset(tail) + multiset{x}
    ensures forall k :: 0 <= k < |rest| ==> d[head] <= d[rest[k]]
  {
    forall k | 0 <= k < |rest|
      ensures d[head] <= d[rest[k]]
    {
      assert rest[k] in multiset(rest);
      if rest[k] != x {
        assert rest[k] in multiset(tail);
        var m :| 0 <= m < |tail| && tail[m] == rest[k];
      }
    }
  }

  /** Inserts `x` in front of the first id that is not strictly nearer. */
  function Insert(x: nat, s: seq<nat>, d: seq<real>): (r: seq<nat>)
    requires x < |d| && InRange(s, |d|) && SortedBy(s, d)
    ensures multiset(r) == multiset(s) + multiset{x}
    ensures InRange(r, |d|) && SortedBy(r, d)
    decreases |s|
  {
    if |s| == 0 then [x]
    else if !(d[s[0]] < d[x]) then [x] + s
    else
      var rest := Insert(x, s[1..], d);
      assert s == [s[0]] + s[1..];
      HeadBoundsTail(s[0], x, rest, s[1..], d);
      [s[0]] + rest
  }

  /** Insertion sort of `ids` by ascending `d`. */
  function SortByDistance(ids: seq<nat>, d: seq<real>): (r: seq<nat>)
    requires InRange(ids, |d|)
    ensures multiset(r) == multiset(ids)
    ensures InRange(r, |d|) && SortedBy(r, d)
    decreases |ids|
  {
    if |ids| == 0 then []
    else
      assert ids == [ids[0]] + ids[1..];
      Insert(ids[0], SortByDistance(ids[1..], d), d)
  }

  /** The order `compositeFrame` passes to the engine for a group of `n`
      processes seen from `camPos`. */
  function ComputeOrder(reg: Registry, camPos: seq<real>, n: nat): (order: seq<nat>)
    requires CoversRange(reg, n)
    requires n > 0 ==> |camPos| >= 3
    ensures |order| == n
    ensures IsPermutationOfRange(order, n)
    ensures InRange(order, n)
    ensures forall i, j :: 0 <= i < j < n ==>
      SquaredDistance(reg[order[i]], camPos) <= SquaredDistance(reg[order[j]], camPos)
  {
    var d := Distances(reg, camPos, n);
    var order := SortByDistance(Identity(n), d);
    assert |order| == |multiset(order)| == |multiset(Identity(n))| == n;
    order
  }

  /** Removing one id from a sorted arrangement keeps it sorted. */
  lemma RemoveAtKeepsSorted(b: seq<nat>, k: nat, d: seq<real>)
    requires InRange(b, |d|) && SortedBy(b, d) && k < |b|
    ensures InRange(b[..k] + b[k+1..], |d|)
    ensures SortedBy(b[..k] + b[k+1..], d)
    ensures multiset(b[..k] + b[k+1..]) == multiset(b) - multiset{b[k]}
  {
    var b' := b[..k] + b[k+1..];
    assert b == b[..k] + [b[k]] + b[k+1..];
    forall i, j | 0 <= i < j < |b'|
      ensures d[b'[i]] <= d[b'[j]]
    {
      var i' := if i < k then i else i + 1;
      var j' := if j < k then j else j + 1;
      assert b'[i] == b[i'] && b'[j] == b[j'] && i' < j';
    }
  }

  /** Two sorted arrangements of the same ids start at the same distance. */
  lemma FrontDistancesEqual(a: seq<nat>, b: seq<nat>, d: seq<real>)
    requires InRange(a, |d|) && InRange(b, |d|)
    requires |a| > 0 && multiset(a) == multiset(b)
    requires SortedBy(a, d) && SortedBy(b, d)
    ensures |b| > 0 && d[a[0]] == d[b[0]]
  {
    assert a[0] in multiset(b);
    var k :| 0 <= k < |b| && b[k] == a[0];
    assert d[b[0]] <= d[b[k]];
    assert b[0] in multiset(a);
    var m :| 0 <= m < |a| && a[m] == b[0];
    assert d[a[0]] <= d[a[m]];
  }

  /** Re-inserting the removed front id at index `k` of `b` shifts the
      agreement of the tails onto the whole arrangements. */
  lemma ShiftAgreement(a: seq<nat>, b: seq<nat>, k: nat, b': seq<nat>, d: seq<real>)
    requires InRange(a, |d|) && InRange(b, |d|) && SortedBy(b, d)
    requires 0 < |a| == |b| && k < |b|
    requires b' == b[..k] + b[k+1..]
    requires d[a[0]] == d[b[0]] == d[b[k]]
    requires forall i :: 0 <= i < |b'| ==> d[a[i + 1]] == d[b'[i]]
    ensures forall i :: 0 <= i < |a| ==> d[a[i]] == d[b[i]]
  {
    forall i | 0 < i < |a|
      ensures d[a[i]] == d[b[i]]
    {
      assert d[a[i]] == d[b'[i - 1]];
      if i - 1 < k {
        assert b'[i - 1] == b[i - 1];
        assert d[b[0]] <= d[b[i - 1]] <= d[b[i]] <= d[b[k]];
      } else {
        assert b'[i - 1] == b[i];
      }
    }
  }

  /** Two sorted arrangements of the same ids see the same distance at every
      position: which of the equally distant ids comes first is the only
      freedom a sort has. */
  lemma {:induction false} SortedPermutationsAgree(a: seq<nat>, b: seq<nat>, d: seq<real>)
    requires InRange(a, |d|) && InRange(b, |d|)
    requires multiset(a) == multiset(b)
    requires SortedBy(a, d) && SortedBy(b, d)
    ensures |a| == |b|
    ensures forall i :: 0 <= i < |a| ==> d[a[i]] == d[b[i]]
    decreases |a|
  {
    assert |a| == |multiset(a)| == |multiset(b)| == |b|;
    if |a| == 0 {
      return;
    }
    var x := a[0];
    FrontDistancesEqual(a, b, d);
    assert x in multiset(b);
    var k :| 0 <= k < |b| && b[k] == x;
    RemoveAtKeepsSorted(b, k, d);
    var b' := b[..k] + b[k+1..];
    assert a == [x] + a[1..];
    assert multiset(a[1..]) == multiset(a) - multiset{x};
    SortedPermutationsAgree(a[1..], b', d);
    ShiftAgreement(a, b, k, b', d);
  }

  /** Whatever sorted permutation an implementation of the sort picks (the
      library sort is not stable), it sees the same distances in the same
      positions as `ComputeOrder`. */
  lemma {:induction false} ComputeOrderAgreesWithAnySort(reg: Registry, camPos: seq<real>, n: nat, other: seq<nat>)
    requires CoversRange(reg, n)
    requires n > 0 ==> |camPos| >= 3
    requires InRange(other, n) && IsPermutationOfRange(other, n)
    requires forall i, j :: 0 <= i < j < |other| ==>
      SquaredDistance(reg[other[i]], camPos) <= SquaredDistance(reg[other[j]], camPos)
    ensures |other| == n
    ensures forall i :: 0 <= i < n ==>
      SquaredDistance(reg[other[i]], camPos) == SquaredDistance(reg[ComputeOrder(reg, camPos, n)[i]], camPos)
  {
    var d := Distances(reg, camPos, n);
    var order := ComputeOrder(reg, camPos, n);
    assert |other| == |multiset(other)| == |multiset(Identity(n))| == n;
    assert SortedBy(other, d);
    assert SortedBy(order, d);
    SortedPermutationsAgree(other, order, d);
  }

  /** Anchors registered for ids outside `[0, n)` do not influence the order. */
  lemma {:induction false} ComputeOrderIgnoresOtherIds(reg: Registry, camPos: seq<real>, n: nat, id: ProcessId, position: Position)
    requires CoversRange(reg, n)
    requires n > 0 ==> |camPos| >= 3
    requires id < 0 || id >= n
    ensures CoversRange(SetProcessorCentroid(reg, id, position), n)
    ensures ComputeOrder(SetProcessorCentroid(reg, id, position), camPos, n) == ComputeOrder(reg, camPos, n)
  {
    var reg' := SetProcessorCentroid(reg, id, position);
    assert Distances(reg', camPos, n) == Distances(reg, camPos, n);
  }

  /** Three processes anchored at (0,0,0), (10,0,0) and (5,5,0), seen from
      the origin, composite as 0, 2, 1. */
  lemma ThreeProcessScenario()
    ensures ComputeOrder(map[0 := [0.0, 0.0, 0.0], 1 := [10.0, 0.0, 0.0], 2 := [5.0, 5.0, 0.0]],
                         [0.0, 0.0, 0.0], 3) == [0, 2, 1]
  {
    var reg: Registry := map[0 := [0.0, 0.0, 0.0], 1 := [10.0, 0.0, 0.0], 2 := [5.0, 5.0, 0.0]];
    var cam := [0.0, 0.0, 0.0];
    var d := Distances(reg, cam, 3);
    assert d == [0.0, 100.0, 50.0] by {
      assert SquaredDistance(reg[0], cam) == 0.0;
      assert SquaredDistance(reg[1], cam) == 100.0;
      assert SquaredDistance(reg[2], cam) == 50.0;
    }
    assert Identity(3) == [0, 1, 2];
    ScenarioSort(d);
  }

  lemma ScenarioSort(d: seq<real>)
    requires d == [0.0, 100.0, 50.0]
    ensures SortByDistance([0, 1, 2], d) == [0, 2, 1]
  {
    assert [0, 1, 2][1..] == [1, 2];
    assert [1, 2][1..] == [2];
    assert [2][1..] == [];
    assert SortByDistance([2], d) == [2];
    assert Insert(1, [2], d) == [2, 1];
    assert SortByDistance([1, 2], d) == [2, 1];
    assert Insert(0, [2, 1], d) == [0, 2, 1];
  }
}
