// The connectivity check of the match-pattern tool: a union-find in one array.
module PatternConnectivity {

  // A relationship of the pattern names its two end nodes by alias.
  datatype Rel = Rel(from: string, to: string)

  datatype AliasError = NoAliasError | BlankAlias(node: nat) | DuplicateAlias(node: nat)

  datatype CheckError =
    | Connects
    | UndefinedAlias(rel: nat, alias: string)
    | Disconnected(node: nat)

  type Edge = (nat, nat)

  // ---------------------------------------------------------------- graph

  // Two nodes joined by some relationship, in either direction.
  ghost predicate Adjacent(edges: seq<Edge>, a: nat, b: nat) {
    exists e :: e in edges && (e == (a, b) || e == (b, a))
  }

  ghost predicate IsPath(edges: seq<Edge>, p: seq<nat>, a: nat, b: nat) {
    && p != []
    && p[0] == a
    && p[|p| - 1] == b
    && forall i :: 0 <= i < |p| - 1 ==> Adjacent(edges, p[i], p[i + 1])
  }

  // Reachability in the undirected relationship graph.
  ghost predicate Joined(edges: seq<Edge>, a: nat, b: nat) {
    exists p :: IsPath(edges, p, a, b)
  }

  lemma JoinedReflexive(edges: seq<Edge>, a: nat)
    ensures Joined(edges, a, a)
  {
    assert IsPath(edges, [a], a, a);
  }

  lemma JoinedSymmetric(edges: seq<Edge>, a: nat, b: nat)
    requires Joined(edges, a, b)
    ensures Joined(edges, b, a)
  {
    var p :| IsPath(edges, p, a, b);
    var q := seq(|p|, i requires 0 <= i < |p| => p[|p| - 1 - i]);
    forall i | 0 <= i < |q| - 1 ensures Adjacent(edges, q[i], q[i + 1]) {
      assert Adjacent(edges, p[|p| - 2 - i], p[|p| - 2 - i + 1]);
    }
    assert IsPath(edges, q, b, a);
  }

  lemma JoinedTransitive(edges: seq<Edge>, a: nat, b: nat, c: nat)
    requires Joined(edges, a, b) && Joined(edges, b, c)
    ensures Joined(edges, a, c)
  {
    var p :| IsPath(edges, p, a, b);
    var q :| IsPath(edges, q, b, c);
    var r := p + q[1..];
    forall i | 0 <= i < |r| - 1 ensures Adjacent(edges, r[i], r[i + 1]) {
      if i < |p| - 1 {
        assert Adjacent(edges, p[i], p[i + 1]);
      } else {
        var j := i - (|p| - 1);
        assert Adjacent(edges, q[j], q[j + 1]);
        assert r[i] == q[j] && r[i + 1] == q[j + 1];
      }
    }
    assert IsPath(edges, r, a, c);
  }

  lemma JoinedByEdge(edges: seq<Edge>, a: nat, b: nat)
    requires (a, b) in edges
    ensures Joined(edges, a, b)
  {
    assert Adjacent(edges, a, b);
    assert IsPath(edges, [a, b], a, b);
  }

  lemma JoinedMonotone(edges: seq<Edge>, more: seq<Edge>, a: nat, b: nat)
    requires Joined(edges, a, b)
    requires forall e :: e in edges ==> e in more
    ensures Joined(more, a, b)
  {
    var p :| IsPath(edges, p, a, b);
    forall i | 0 <= i < |p| - 1 ensures Adjacent(more, p[i], p[i + 1]) {
      assert Adjacent(edges, p[i], p[i + 1]);
    }
    assert IsPath(more, p, a, b);
  }

  // ---------------------------------------------------------------- forest

  // The parent array is a forest: every step up strictly lowers the rank, so
  // following parents ends at a node that is its own parent.
  ghost predicate Forest(parent: seq<nat>, rank: seq<nat>) {
    && |rank| == |parent|
    && forall x :: 0 <= x < |parent| ==>
         && parent[x] < |parent|
         && (parent[x] != x ==> rank[parent[x]] < rank[x])
  }

  ghost function Root(parent: seq<nat>, rank: seq<nat>, x: nat): (r: nat)
    requires Forest(parent, rank) && x < |parent|
    ensures r < |parent| && parent[r] == r
    decreases rank[x]
  {
    if parent[x] == x then x else Root(parent, rank, parent[x])
  }

  // The ranks are only a termination measure: any two of them give one root.
  lemma {:induction false} RootIgnoresRank(parent: seq<nat>, rank: seq<nat>, other: seq<nat>, x: nat)
    requires Forest(parent, rank) && Forest(parent, other) && x < |parent|
    ensures Root(parent, rank, x) == Root(parent, other, x)
    decreases rank[x]
  {
    if parent[x] != x {
      RootIgnoresRank(parent, rank, other, parent[x]);
    }
  }

  // Path halving: pointing a node at its grandparent keeps the forest, its
  // ranks and every node's root.
  lemma {:induction false} HalvingKeepsRoots(parent: seq<nat>, rank: seq<nat>, x: nat, y: nat)
    requires Forest(parent, rank) && x < |parent| && y < |parent|
    ensures Forest(parent[x := parent[parent[x]]], rank)
    ensures Root(parent[x := parent[parent[x]]], rank, y) == Root(parent, rank, y)
    decreases rank[y]
  {
    var halved := parent[x := parent[parent[x]]];
    assert Forest(halved, rank);
    if halved[y] == y {
    } else {
      HalvingKeepsRoots(parent, rank, x, halved[y]);
    }
  }

  // The ranks after hanging root `a` under root `b`: the whole tree of `a` is
  // lifted above `b`.
  ghost function LiftedRanks(parent: seq<nat>, rank: seq<nat>, a: nat, b: nat): (r: seq<nat>)
    requires Forest(parent, rank) && a < |parent| && b < |parent|
    ensures |r| == |parent|
    ensures forall y :: 0 <= y < |parent| ==>
      r[y] == if Root(parent, rank, y) == a then rank[y] + rank[b] + 1 else rank[y]
  {
    seq(|parent|, y requires 0 <= y < |parent| =>
      if Root(parent, rank, y) == a then rank[y] + rank[b] + 1 else rank[y])
  }

  // Linking root a under root b merges exactly their two trees.
  lemma {:induction false} LinkMergesRoots(parent: seq<nat>, rank: seq<nat>, a: nat, b: nat, y: nat)
    requires Forest(parent, rank) && a < |parent| && b < |parent| && y < |parent|
    requires parent[a] == a && parent[b] == b && a != b
    ensures Forest(parent[a := b], LiftedRanks(parent, rank, a, b))
    ensures Root(parent[a := b], LiftedRanks(parent, rank, a, b), y)
         == if Root(parent, rank, y) == a then b else Root(parent, rank, y)
    decreases rank[y]
  {
    if y == a {
      assert Root(parent[a := b], LiftedRanks(parent, rank, a, b), b) == b;
    } else if parent[y] != y {
      LinkMergesRoots(parent, rank, a, b, parent[y]);
    }
  }

  // Finds the root of x, halving the path it walks.
  method Find(parent: array<nat>, ghost rank: seq<nat>, x: nat) returns (r: nat)
    requires Forest(parent[..], rank) && x < parent.Length
    modifies parent
    ensures Forest(parent[..], rank)
    ensures r == Root(old(parent[..]), rank, x)
    ensures forall y :: 0 <= y < parent.Length ==>
      Root(parent[..], rank, y) == Root(old(parent[..]), rank, y)
  {
    var cur: nat := x;
    while parent[cur] != cur
      invariant cur < parent.Length
      invariant Forest(parent[..], rank)
      invariant Root(parent[..], rank, cur) == Root(old(parent[..]), rank, x)
      invariant forall y :: 0 <= y < parent.Length ==>
        Root(parent[..], rank, y) == Root(old(parent[..]), rank, y)
      decreases rank[cur]
    {
      ghost var before: seq<nat> := parent[..];
      forall y | 0 <= y < |before|
        ensures Forest(before[cur := before[before[cur]]], rank)
        ensures Root(before[cur := before[before[cur]]], rank, y) == Root(before, rank, y)
      {
        HalvingKeepsRoots(before, rank, cur, y);
      }
      parent[cur] := parent[parent[cur]];
      assert parent[..] == before[cur := before[before[cur]]];
      cur := parent[cur];
    }
    r := cur;
  }

  // ---------------------------------------------------------------- partition

  // Trees are exactly the connected components of the relationships so far.
  ghost predicate Partition(parent: seq<nat>, rank: seq<nat>, edges: seq<Edge>) {
    && Forest(parent, rank)
    && (forall a, b | 0 <= a < |parent| && 0 <= b < |parent| ::
         Root(parent, rank, a) == Root(parent, rank, b) <==> Joined(edges, a, b))
  }

  ghost predicate InRange(edges: seq<Edge>, n: nat) {
    forall e :: e in edges ==> e.0 < n && e.1 < n
  }

  // A path never leaves a set of trees that every edge stays inside.
  lemma {:induction false} PathKeepsRoot(parent: seq<nat>, rank: seq<nat>, edges: seq<Edge>, p: seq<nat>, a: nat, b: nat)
    requires Forest(parent, rank) && InRange(edges, |parent|) && a < |parent|
    requires forall e :: e in edges ==> Root(parent, rank, e.0) == Root(parent, rank, e.1)
    requires IsPath(edges, p, a, b)
    ensures b < |parent| && Root(parent, rank, a) == Root(parent, rank, b)
    decreases |p|
  {
    if |p| > 1 {
      assert Adjacent(edges, p[0], p[0 + 1]);
      forall i | 0 <= i < |p[1..]| - 1 ensures Adjacent(edges, p[1..][i], p[1..][i + 1]) {
        assert Adjacent(edges, p[i + 1], p[i + 1 + 1]);
      }
      PathKeepsRoot(parent, rank, edges, p[1..], p[1], b);
    }
  }

  lemma SingletonsPartition(n: nat)
    ensures Partition(seq(n, i => i), seq(n, i => 0), [])
  {
    var parent, rank := seq(n, i => i), seq(n, i => 0);
    forall a, b | 0 <= a < n && 0 <= b < n
      ensures Root(parent, rank, a) == Root(parent, rank, b) <==> Joined([], a, b)
    {
      if a == b {
        JoinedReflexive([], a);
      } else if Joined([], a, b) {
        var p :| IsPath([], p, a, b);
        PathKeepsRoot(parent, rank, [], p, a, b);
      }
    }
  }

  // Old components stay together, and the new edge joins its two ends.
  lemma MergeIsSound(edges: seq<Edge>, from: nat, to: nat, a: nat, b: nat)
    requires
      || Joined(edges, a, b)
      || (Joined(edges, a, from) && Joined(edges, b, to))
      || (Joined(edges, a, to) && Joined(edges, b, from))
      || (Joined(edges, a, from) && Joined(edges, b, from))
    ensures Joined(edges + [(from, to)], a, b)
  {
    var more := edges + [(from, to)];
    JoinedByEdge(more, from, to);
    JoinedSymmetric(more, from, to);
    if Joined(edges, a, b) {
      JoinedMonotone(edges, more, a, b);
    } else {
      var x := if Joined(edges, a, from) then from else to;
      var y := if Joined(edges, b, to) && x == from then to else from;
      JoinedMonotone(edges, more, a, x);
      JoinedMonotone(edges, more, b, y);
      JoinedSymmetric(more, b, y);
      if x != y {
        JoinedTransitive(more, a, x, y);
      }
      JoinedTransitive(more, a, y, b);
    }
  }

  // The union step: with `after` merging exactly the trees of the edge's two
  // ends, the partition follows the edge list.
  lemma UnionStep(parent: seq<nat>, rank: seq<nat>, after: seq<nat>, ranks: seq<nat>,
                  edges: seq<Edge>, from: nat, to: nat)
    requires Partition(parent, rank, edges) && InRange(edges, |parent|)
    requires Forest(after, ranks) && |after| == |parent|
    requires from < |parent| && to < |parent|
    requires forall y | 0 <= y < |parent| ::
      Root(after, ranks, y) == if Root(parent, rank, y) == Root(parent, rank, from)
                               then Root(parent, rank, to) else Root(parent, rank, y)
    ensures Partition(after, ranks, edges + [(from, to)])
  {
    var more := edges + [(from, to)];
    forall e | e in more ensures Root(after, ranks, e.0) == Root(after, ranks, e.1) {
      if e in edges {
        JoinedByEdge(edges, e.0, e.1);
      }
    }
    forall a, b | 0 <= a < |parent| && 0 <= b < |parent|
      ensures Root(after, ranks, a) == Root(after, ranks, b) <==> Joined(more, a, b)
    {
      if Root(after, ranks, a) == Root(after, ranks, b) {
        MergeIsSound(edges, from, to, a, b);
      }
      if Joined(more, a, b) {
        var p :| IsPath(more, p, a, b);
        PathKeepsRoot(after, ranks, more, p, a, b);
      }
    }
  }

  // Hangs the root of one end under the root of the other.
  method Union(parent: array<nat>, ghost rank: seq<nat>, from: nat, to: nat, ghost edges: seq<Edge>)
    returns (ghost ranks: seq<nat>)
    requires Partition(parent[..], rank, edges) && InRange(edges, parent.Length)
    requires from < parent.Length && to < parent.Length
    modifies parent
    ensures Partition(parent[..], ranks, edges + [(from, to)])
  {
    ghost var start := parent[..];
    var a := Find(parent, rank, from);
    var b := Find(parent, rank, to);
    ghost var before: seq<nat> := parent[..];
    ranks := rank;
    if a != b {
      forall y | 0 <= y < |before|
        ensures Forest(before[a := b], LiftedRanks(before, rank, a, b))
        ensures Root(before[a := b], LiftedRanks(before, rank, a, b), y)
             == if Root(before, rank, y) == a then b else Root(before, rank, y)
      {
        LinkMergesRoots(before, rank, a, b, y);
      }
      ranks := LiftedRanks(before, rank, a, b);
    }
    parent[a] := b;
    assert parent[..] == before[a := b];
    assert a == b ==> before[a := b] == before;
    UnionStep(start, rank, parent[..], ranks, edges, from, to);
  }

  // ---------------------------------------------------------------- the check

  // The alias table maps every node's alias to that node's index, and nothing else.
  ghost predicate TableFor(aliases: map<string, nat>, nodes: seq<string>) {
    && (forall i :: 0 <= i < |nodes| ==> nodes[i] in aliases && aliases[nodes[i]] == i)
    && (forall a :: a in aliases ==> aliases[a] < |nodes| && nodes[aliases[a]] == a)
  }

  ghost predicate Defined(r: Rel, aliases: map<string, nat>) {
    r.from in aliases && r.to in aliases
  }

  ghost predicate AllDefined(rels: seq<Rel>, aliases: map<string, nat>) {
    forall i :: 0 <= i < |rels| ==> Defined(rels[i], aliases)
  }

  ghost function EdgeOf(r: Rel, aliases: map<string, nat>): Edge
    requires Defined(r, aliases)
  {
    (aliases[r.from], aliases[r.to])
  }

  ghost function Edges(rels: seq<Rel>, aliases: map<string, nat>): (edges: seq<Edge>)
    requires AllDefined(rels, aliases)
  {
    seq(|rels|, i requires 0 <= i < |rels| => EdgeOf(rels[i], aliases))
  }

  // What the check promises: no error exactly for a connected pattern, and
  // otherwise the first offending relationship or node.
  ghost predicate CheckSpec(nodes: seq<string>, rels: seq<Rel>, aliases: map<string, nat>, e: CheckError) {
    match e
    case UndefinedAlias(i, alias) =>
      && i < |rels| && !Defined(rels[i], aliases)
      && (forall j :: 0 <= j < i ==> Defined(rels[j], aliases))
      && alias !in aliases
      && alias == (if rels[i].from in aliases then rels[i].to else rels[i].from)
    case Disconnected(n) =>
      && AllDefined(rels, aliases)
      && n < |nodes| && !Joined(Edges(rels, aliases), 0, n)
      && (forall m :: 0 <= m < n ==> Joined(Edges(rels, aliases), 0, m))
    case Connects =>
      && AllDefined(rels, aliases)
      && (forall m :: 0 <= m < |nodes| ==> Joined(Edges(rels, aliases), 0, m))
  }

  // CheckSpec leaves no choice: it determines the answer.
  lemma CheckSpecIsFunctional(nodes: seq<string>, rels: seq<Rel>, aliases: map<string, nat>, e: CheckError, f: CheckError)
    requires CheckSpec(nodes, rels, aliases, e) && CheckSpec(nodes, rels, aliases, f)
    ensures e == f
  {
  }

  // A joined pair of different nodes: some relationship ends at the second.
  lemma JoinedEndsInEdge(edges: seq<Edge>, a: nat, b: nat)
    requires Joined(edges, a, b) && a != b
    ensures exists e :: e in edges && (e.0 == b || e.1 == b)
  {
    var p :| IsPath(edges, p, a, b);
    assert Adjacent(edges, p[|p| - 2], p[|p| - 2 + 1]);
    var e :| e in edges && (e == (p[|p| - 2], b) || e == (b, p[|p| - 2]));
  }

  // In a connected pattern with a relationship, every node is at the end of one.
  lemma EveryNodeHasRel(nodes: seq<string>, rels: seq<Rel>, aliases: map<string, nat>, m: nat)
    requires TableFor(aliases, nodes) && CheckSpec(nodes, rels, aliases, Connects) && rels != [] && m < |nodes|
    ensures exists r :: r in rels && (r.from == nodes[m] || r.to == nodes[m])
  {
    var edges := Edges(rels, aliases);
    if |nodes| == 1 {
      assert Defined(rels[0], aliases) && nodes[aliases[rels[0].from]] == rels[0].from;
      assert rels[0] in rels;
    } else {
      var other := if m == 0 then 1 else 0;
      assert Joined(edges, 0, if m == 0 then 1 else m);
      if m == 0 {
        JoinedSymmetric(edges, 0, 1);
      }
      JoinedEndsInEdge(edges, other, m);
      var e :| e in edges && (e.0 == m || e.1 == m);
      var i :| 0 <= i < |edges| && edges[i] == e;
      assert rels[i] in rels && Defined(rels[i], aliases);
      assert nodes[aliases[rels[i].from]] == rels[i].from && nodes[aliases[rels[i].to]] == rels[i].to;
    }
  }

  method CheckConnected(nodes: seq<string>, rels: seq<Rel>, aliases: map<string, nat>) returns (e: CheckError)
    requires nodes != [] && TableFor(aliases, nodes)
    ensures CheckSpec(nodes, rels, aliases, e)
    ensures e == Connects <==>
      && AllDefined(rels, aliases)
      && (forall m :: 0 <= m < |nodes| ==> Joined(Edges(rels, aliases), 0, m))
  {
    var n := |nodes|;
    var parent := new nat[n](i => i);
    ghost var rank: seq<nat> := seq(n, i => 0);
    assert parent[..] == seq(n, i => i);
    SingletonsPartition(n);
    ghost var edges: seq<Edge> := [];

    for i := 0 to |rels|
      invariant AllDefined(rels[..i], aliases)
      invariant edges == Edges(rels[..i], aliases)
      invariant InRange(edges, n)
      invariant Partition(parent[..], rank, edges)
    {
      var r := rels[i];
      if r.from !in aliases || r.to !in aliases {
        e := UndefinedAlias(i, if r.from in aliases then r.to else r.from);
        assert forall j | 0 <= j < i :: rels[..i][j] == rels[j];
        return;
      }
      rank := Union(parent, rank, aliases[r.from], aliases[r.to], edges);
      edges := edges + [EdgeOf(r, aliases)];
    }
    assert rels[..|rels|] == rels;
    e := FirstDisconnected(parent, rank, edges);
  }

  // The scan after the unions: the first node outside the tree of node 0.
  method FirstDisconnected(parent: array<nat>, ghost rank: seq<nat>, ghost edges: seq<Edge>) returns (e: CheckError)
    requires parent.Length > 0 && Partition(parent[..], rank, edges)
    modifies parent
    ensures e == Connects || e.Disconnected?
    ensures e.Disconnected? ==> e.node < parent.Length && !Joined(edges, 0, e.node)
    ensures forall m :: 0 <= m < (if e.Disconnected? then e.node else parent.Length) ==> Joined(edges, 0, m)
  {
    ghost var settled := parent[..];
    var root := Find(parent, rank, 0);
    for i := 0 to parent.Length
      invariant Forest(parent[..], rank)
      invariant forall y :: 0 <= y < parent.Length ==> Root(parent[..], rank, y) == Root(settled, rank, y)
      invariant forall m :: 0 <= m < i ==> Joined(edges, 0, m)
    {
      var ri := Find(parent, rank, i);
      if ri != root {
        e := Disconnected(i);
        return;
      }
    }
    e := Connects;
  }

  // The table built before the check: fails on the first blank or repeated
  // alias, and otherwise maps each alias to its own index.
  method BuildAliases(nodes: seq<string>, isBlank: string -> bool) returns (e: AliasError, aliases: map<string, nat>)
    ensures e == NoAliasError <==>
      && (forall i :: 0 <= i < |nodes| ==> !isBlank(nodes[i]))
      && (forall i, j :: 0 <= i < j < |nodes| ==> nodes[i] != nodes[j])
    ensures e == NoAliasError ==> TableFor(aliases, nodes)
    ensures e.BlankAlias? ==> e.node < |nodes| && isBlank(nodes[e.node])
    ensures e.DuplicateAlias? ==> e.node < |nodes| && nodes[e.node] in nodes[..e.node]
  {
    aliases := map[];
    for i := 0 to |nodes|
      invariant TableFor(aliases, nodes[..i])
      invariant forall j :: 0 <= j < i ==> !isBlank(nodes[j])
      invariant forall j, k :: 0 <= j < k < i ==> nodes[j] != nodes[k]
    {
      if isBlank(nodes[i]) {
        e := BlankAlias(i);
        return;
      }
      if nodes[i] in aliases {
        e := DuplicateAlias(i);
        assert nodes[..i][aliases[nodes[i]]] == nodes[i];
        return;
      }
      aliases := aliases[nodes[i] := i];
    }
    assert nodes[..|nodes|] == nodes;
    e := NoAliasError;
  }
}
