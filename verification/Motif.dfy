// Which walks and orderings the list predicates of the motif queries keep.
module Motif {

  // Element ids are compared by a total order.
  ghost predicate TotalOrder<N(!new)>(le: (N, N) -> bool) {
    && (forall x, y :: le(x, y) || le(y, x))
    && (forall x, y :: le(x, y) && le(y, x) ==> x == y)
    && (forall x, y, z :: le(x, y) && le(y, z) ==> le(x, z))
  }

  // ---------------------------------------------------------------- cycles

  // No node between the two ends of a closed walk occurs before itself.
  predicate DistinctMembers<N(==)>(ns: seq<N>) {
    forall i, j :: 1 <= i <= |ns| - 2 && 0 <= j <= i - 1 ==> ns[i] != ns[j]
  }

  // No node of the walk has a smaller id than the first.
  predicate StartsSmallest<N>(le: (N, N) -> bool, ns: seq<N>)
    requires ns != []
  {
    forall i :: 0 <= i < |ns| ==> le(ns[0], ns[i])
  }

  // The closed walk that goes once around `cycle`.
  function Walk<N>(cycle: seq<N>): (ns: seq<N>)
    requires cycle != []
    ensures |ns| == |cycle| + 1 && ns[0] == ns[|cycle|]
  {
    cycle + [cycle[0]]
  }

  function Rotate<N>(cycle: seq<N>, k: nat): (r: seq<N>)
    requires k < |cycle|
    ensures |r| == |cycle| && r[0] == cycle[k]
  {
    cycle[k..] + cycle[..k]
  }

  // What a query without a start node keeps.
  predicate Accepts<N(==)>(le: (N, N) -> bool, ns: seq<N>)
    requires ns != []
  {
    DistinctMembers(ns) && StartsSmallest(le, ns)
  }

  // What a query with one keeps: the start node is where the walk begins.
  predicate AcceptsAnchored<N(==)>(isStart: N -> bool, ns: seq<N>)
    requires ns != []
  {
    isStart(ns[0]) && DistinctMembers(ns)
  }

  ghost predicate NoRepeats<N>(cycle: seq<N>) {
    forall i, j :: 0 <= i < j < |cycle| ==> cycle[i] != cycle[j]
  }

  // No node of the cycle comes before the one at k.
  ghost predicate IsSmallest<N>(le: (N, N) -> bool, cycle: seq<N>, k: nat)
    requires k < |cycle|
  {
    forall i :: 0 <= i < |cycle| ==> le(cycle[k], cycle[i])
  }

  lemma RotationAt<N>(cycle: seq<N>, k: nat, i: nat)
    requires k < |cycle| && i < |cycle|
    ensures Rotate(cycle, k)[i] == cycle[if k + i < |cycle| then k + i else k + i - |cycle|]
  {
  }

  lemma RotationKeepsRepeats<N>(cycle: seq<N>, k: nat)
    requires k < |cycle|
    ensures NoRepeats(Rotate(cycle, k)) <==> NoRepeats(cycle)
  {
    var r, n := Rotate(cycle, k), |cycle|;
    if NoRepeats(cycle) {
      forall i, j | 0 <= i < j < n ensures r[i] != r[j] {
        RotationAt(cycle, k, i);
        RotationAt(cycle, k, j);
      }
    }
    if NoRepeats(r) {
      forall i, j | 0 <= i < j < n ensures cycle[i] != cycle[j] {
        var x, y := if i >= k then i - k else i - k + n, if j >= k then j - k else j - k + n;
        RotationAt(cycle, k, x);
        RotationAt(cycle, k, y);
        assert r[x] != r[y];
      }
    }
  }

  // The members test holds exactly of walks around a cycle without repeats.
  lemma DistinctMembersIff<N>(cycle: seq<N>)
    requires cycle != []
    ensures DistinctMembers(Walk(cycle)) <==> NoRepeats(cycle)
  {
    var ns := Walk(cycle);
    if DistinctMembers(ns) {
      forall i, j | 0 <= i < j < |cycle| ensures cycle[i] != cycle[j] {
        assert ns[j] != ns[i];
      }
    }
  }

  lemma StartsSmallestIff<N>(le: (N, N) -> bool, cycle: seq<N>, k: nat)
    requires k < |cycle|
    ensures StartsSmallest(le, Walk(Rotate(cycle, k))) <==> IsSmallest(le, cycle, k)
  {
    var r, n := Rotate(cycle, k), |cycle|;
    var ns := Walk(r);
    if StartsSmallest(le, ns) {
      forall i | 0 <= i < n ensures le(cycle[k], cycle[i]) {
        var x := if i >= k then i - k else i - k + n;
        RotationAt(cycle, k, x);
        assert le(ns[0], ns[x]);
      }
    } else {
      var x :| 0 <= x < |ns| && !le(ns[0], ns[x]);
      var y := if x == n then 0 else x;
      RotationAt(cycle, k, y);
      assert ns[x] == r[y];
    }
  }

  lemma {:induction false} SmallestExists<N(!new)>(le: (N, N) -> bool, cycle: seq<N>) returns (k: nat)
    requires TotalOrder(le) && cycle != []
    ensures k < |cycle| && IsSmallest(le, cycle, k)
  {
    var last := |cycle| - 1;
    if last == 0 {
      k := 0;
    } else {
      k := SmallestExists(le, cycle[..last]);
      assert forall i :: 0 <= i < last ==> cycle[..last][i] == cycle[i];
      if le(cycle[last], cycle[k]) {
        k := last;
      }
    }
  }

  // The rotations of a cycle that a query without a start node keeps.
  ghost function Kept<N(!new)>(le: (N, N) -> bool, cycle: seq<N>): set<nat> {
    set k: nat | k < |cycle| && Accepts(le, Walk(Rotate(cycle, k)))
  }

  lemma KeptIff<N(!new)>(le: (N, N) -> bool, cycle: seq<N>, k: nat)
    requires k < |cycle| && NoRepeats(cycle)
    ensures Accepts(le, Walk(Rotate(cycle, k))) <==> IsSmallest(le, cycle, k)
  {
    RotationKeepsRepeats(cycle, k);
    DistinctMembersIff(Rotate(cycle, k));
    StartsSmallestIff(le, cycle, k);
  }

  lemma OneSmallest<N(!new)>(le: (N, N) -> bool, cycle: seq<N>, j: nat, k: nat)
    requires TotalOrder(le) && NoRepeats(cycle) && j < |cycle| && k < |cycle|
    requires IsSmallest(le, cycle, j) && IsSmallest(le, cycle, k)
    ensures j == k
  {
    assert le(cycle[j], cycle[k]) && le(cycle[k], cycle[j]);
    assert cycle[j] == cycle[k];
  }

  // Each cycle is reported exactly once: from its smallest node.
  lemma CycleReportedOnce<N(!new)>(le: (N, N) -> bool, cycle: seq<N>)
    requires TotalOrder(le) && cycle != [] && NoRepeats(cycle)
    ensures |Kept(le, cycle)| == 1
    ensures forall k :: k in Kept(le, cycle) ==> k < |cycle| && IsSmallest(le, cycle, k)
  {
    hide Accepts, Walk, Rotate, IsSmallest, TotalOrder, NoRepeats;
    var smallest := SmallestExists(le, cycle);
    forall k: nat | k < |cycle| ensures Accepts(le, Walk(Rotate(cycle, k))) <==> k == smallest {
      KeptIff(le, cycle, k);
      if IsSmallest(le, cycle, k) {
        OneSmallest(le, cycle, k, smallest);
      }
    }
    assert Kept(le, cycle) == {smallest};
  }

  // A closed walk that meets a node twice is never reported, from any start.
  lemma RepeatsNeverReported<N(!new)>(le: (N, N) -> bool, isStart: N -> bool, cycle: seq<N>, k: nat)
    requires k < |cycle| && !NoRepeats(cycle)
    ensures !Accepts(le, Walk(Rotate(cycle, k))) && !AcceptsAnchored(isStart, Walk(Rotate(cycle, k)))
  {
    RotationKeepsRepeats(cycle, k);
    DistinctMembersIff(Rotate(cycle, k));
  }

  function Starts<N>(isStart: N -> bool, cycle: seq<N>): set<nat> {
    set k: nat | k < |cycle| && isStart(cycle[k])
  }

  // With a start node, a cycle is reported once from each of its nodes that the
  // start matches: once exactly when it matches one of them.
  lemma AnchoredReportedPerStart<N(!new)>(isStart: N -> bool, cycle: seq<N>)
    requires cycle != [] && NoRepeats(cycle)
    ensures (set k: nat | k < |cycle| && AcceptsAnchored(isStart, Walk(Rotate(cycle, k)))) == Starts(isStart, cycle)
  {
    forall k: nat | k < |cycle| ensures AcceptsAnchored(isStart, Walk(Rotate(cycle, k))) <==> isStart(cycle[k]) {
      RotationKeepsRepeats(cycle, k);
      DistinctMembersIff(Rotate(cycle, k));
    }
  }

  // Two reported walks that go around the same cycle are the same walk.
  lemma OneWalkPerCycle<N(!new)>(le: (N, N) -> bool, cycle: seq<N>, k: nat)
    requires TotalOrder(le) && k < |cycle| && Accepts(le, Walk(cycle)) && Accepts(le, Walk(Rotate(cycle, k)))
    ensures k == 0
  {
    DistinctMembersIff(cycle);
    KeptIff(le, cycle, k);
    KeptIff(le, cycle, 0);
    assert Rotate(cycle, 0) == cycle;
    OneSmallest(le, cycle, 0, k);
  }

  // ---------------------------------------------------------------- triangles

  predicate Less<N(==)>(le: (N, N) -> bool, x: N, y: N) {
    x != y && le(x, y)
  }

  predicate AcceptsTriangle<N(==)>(le: (N, N) -> bool, a: N, b: N, c: N) {
    a != b && b != c && a != c && Less(le, a, b) && Less(le, b, c)
  }

  predicate AcceptsTriangleAt<N(==)>(le: (N, N) -> bool, isStart: N -> bool, a: N, b: N, c: N) {
    isStart(a) && a != b && b != c && a != c && Less(le, b, c)
  }

  // The ways to read off the nodes x, y and z as a, b and c.
  function Orderings<N(==)>(x: N, y: N, z: N): set<(N, N, N)> {
    {(x, y, z), (x, z, y), (y, x, z), (y, z, x), (z, x, y), (z, y, x)}
  }

  // Of the six orderings, t and no other is accepted.
  predicate OnlyOrdering<N(==)>(le: (N, N) -> bool, x: N, y: N, z: N, t: (N, N, N)) {
    t in Orderings(x, y, z) && forall u :: u in Orderings(x, y, z) ==> (AcceptsTriangle(le, u.0, u.1, u.2) <==> u == t)
  }

  // Each triangle is reported exactly once of six.
  lemma TriangleReportedOnce<N(!new)>(le: (N, N) -> bool, x: N, y: N, z: N)
    requires TotalOrder(le) && x != y && y != z && x != z
    ensures exists t :: OnlyOrdering(le, x, y, z, t)
  {
    hide OnlyOrdering;
    assert (le(x, y) <==> !le(y, x)) && (le(y, z) <==> !le(z, y)) && (le(x, z) <==> !le(z, x));
    assert (le(x, y) && le(y, z) ==> le(x, z)) && (le(z, y) && le(y, x) ==> le(z, x));
    var t := if le(x, y) then (if le(y, z) then (x, y, z) else if le(x, z) then (x, z, y) else (z, x, y))
             else if le(x, z) then (y, x, z) else if le(y, z) then (y, z, x) else (z, y, x);
    SixOrderings(le, x, y, z, t);
  }

  // The comparisons of three distinct nodes settle all six.
  lemma SixOrderings<N(!new)>(le: (N, N) -> bool, x: N, y: N, z: N, t: (N, N, N))
    requires x != y && y != z && x != z
    requires (le(x, y) <==> !le(y, x)) && (le(y, z) <==> !le(z, y)) && (le(x, z) <==> !le(z, x))
    requires (le(x, y) && le(y, z) ==> le(x, z)) && (le(z, y) && le(y, x) ==> le(z, x))
    requires t == if le(x, y) then (if le(y, z) then (x, y, z) else if le(x, z) then (x, z, y) else (z, x, y))
                  else if le(x, z) then (y, x, z) else if le(y, z) then (y, z, x) else (z, y, x)
    ensures OnlyOrdering(le, x, y, z, t)
  {
  }

  // With a start node, of the two orderings that begin at a node exactly one is
  // reported if the start matches that node, and neither otherwise.
  lemma TriangleReportedPerStart<N(!new)>(le: (N, N) -> bool, isStart: N -> bool, x: N, y: N, z: N)
    requires TotalOrder(le) && x != y && y != z && x != z
    ensures isStart(x) ==> (AcceptsTriangleAt(le, isStart, x, y, z) <==> !AcceptsTriangleAt(le, isStart, x, z, y))
    ensures !isStart(x) ==> !AcceptsTriangleAt(le, isStart, x, y, z) && !AcceptsTriangleAt(le, isStart, x, z, y)
  {
    assert le(y, z) || le(z, y);
  }
}
