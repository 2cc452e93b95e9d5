// The in-place walk over live schema objects that splits every nullable type.
module SchemaWalk {
  import opened JsonSchema

  const ANY_INSTANCE: Json -> bool := _ => true

  // A schema object. The walk writes only `types` and `anyOf`.
  class Schema {
    var typ: string
    var types: seq<string>
    var anyOf: seq<Schema>
    const refs: seq<Schema>
    const subs: seq<Sub<Schema>>
    const assertions: Json -> bool

    constructor Leaf(t: string)
      ensures IsTypeLeaf(NodeOf(this), t)
    {
      typ, types, anyOf, refs, subs, assertions := t, [], [], [], [], ANY_INSTANCE;
    }
  }

  ghost function NodeOf(s: Schema): Node<Schema>
    reads s
  {
    Node(s.typ, s.types, s.anyOf, s.refs, s.subs, s.assertions)
  }

  // ---------------------------------------------------------------- reachability

  // The schemas a node holds, in the order they are visited. A $ref holds a name, so
  // the walk does not follow it.
  function Kids<R>(node: Node<R>): (kids: seq<R>) {
    node.anyOf + seq(|node.subs|, i requires 0 <= i < |node.subs| => node.subs[i].target)
  }

  lemma KidsAreTargets<R>(node: Node<R>)
    ensures forall a :: a in node.anyOf ==> a in Kids(node)
    ensures forall e :: e in node.subs ==> e.target in Kids(node)
    ensures forall k :: k in Kids(node) ==> k in node.anyOf || exists e :: e in node.subs && e.target == k
  {
    forall e | e in node.subs ensures e.target in Kids(node) {
      var i :| 0 <= i < |node.subs| && node.subs[i] == e;
      assert Kids(node)[|node.anyOf| + i] == e.target;
    }
    forall a | a in node.anyOf ensures a in Kids(node) {
      var i :| 0 <= i < |node.anyOf| && node.anyOf[i] == a;
      assert Kids(node)[i] == a;
    }
    forall k | k in Kids(node) ensures k in node.anyOf || exists e :: e in node.subs && e.target == k {
      var i :| 0 <= i < |Kids(node)| && Kids(node)[i] == k;
      if i >= |node.anyOf| {
        assert node.subs[i - |node.anyOf|] in node.subs;
      }
    }
  }

  ghost predicate Steps<R>(g: Graph<R>, a: R, b: R, n: nat)
    decreases n
  {
    if n == 0 then a == b else a in g && exists c :: c in Kids(g[a]) && Steps(g, c, b, n - 1)
  }

  ghost predicate Reaches<R>(g: Graph<R>, a: R, b: R) {
    exists n: nat :: Steps(g, a, b, n)
  }

  lemma ReachesKid<R>(g: Graph<R>, a: R, c: R, b: R)
    requires a in g && c in Kids(g[a]) && Reaches(g, c, b)
    ensures Reaches(g, a, b)
  {
    var n: nat :| Steps(g, c, b, n);
    assert Steps(g, a, b, n + 1);
  }

  lemma ReachesItself<R>(g: Graph<R>, a: R)
    ensures Reaches(g, a, a)
  {
    assert Steps(g, a, a, 0);
  }

  // A larger graph with at least the same edges reaches at least as far, and one
  // more edge may be taken at the end.
  lemma {:induction false} StepsExtend<R>(g: Graph<R>, more: Graph<R>, a: R, b: R, c: R, n: nat)
    requires forall x, k :: x in g && k in Kids(g[x]) ==> x in more && k in Kids(more[x])
    requires Steps(g, a, b, n)
    ensures Steps(more, a, b, n)
    ensures b in more && c in Kids(more[b]) ==> Steps(more, a, c, n + 1)
    decreases n
  {
    if n == 0 {
      assert b in more && c in Kids(more[b]) ==> Steps(more, c, c, 0);
    } else {
      var k :| k in Kids(g[a]) && Steps(g, k, b, n - 1);
      StepsExtend(g, more, k, b, c, n - 1);
    }
  }

  lemma {:induction false} StepsStayInside<R>(g: Graph<R>, inside: set<R>, a: R, b: R, n: nat)
    requires a in inside && Steps(g, a, b, n)
    requires forall x, k :: x in inside && x in g && k in Kids(g[x]) ==> k in inside
    ensures b in inside
    decreases n
  {
    if n > 0 {
      var k :| k in Kids(g[a]) && Steps(g, k, b, n - 1);
      StepsStayInside(g, inside, k, b, n - 1);
    }
  }

  // ---------------------------------------------------------------- splitting one node

  // Splits one schema in place, as fresh single-type leaves under anyOf.
  method SplitNullableTypes(s: Schema)
    modifies s
    ensures s.typ == old(s.typ)
    ensures !NeedsSplit(old(s.types)) ==> s.types == old(s.types) && s.anyOf == old(s.anyOf)
    ensures NeedsSplit(old(s.types)) ==>
      && s.types == []
      && |s.anyOf| == |Branches(old(s.types))|
      && forall i :: 0 <= i < |s.anyOf| ==>
           fresh(s.anyOf[i]) && IsTypeLeaf(NodeOf(s.anyOf[i]), Branches(old(s.types))[i])
  {
    if |s.types| < 2 {
      return;
    }
    var types := s.types;
    var hasNull := false;
    var others := [];
    for i := 0 to |types|
      invariant NodeOf(s) == old(NodeOf(s))
      invariant hasNull <==> "null" in types[..i]
      invariant others == Others(types[..i])
    {
      assert types[..i + 1] == types[..i] + [types[i]];
      OthersAppend(types[..i], types[i]);
      if types[i] == "null" {
        hasNull := true;
      } else {
        others := others + [types[i]];
      }
    }
    assert types[..|types|] == types;
    OthersKeepsTheRest(types);
    if !hasNull || |others| == 0 {
      assert |others| == 0 ==> forall t :: t in types ==> t == "null";
      return;
    }
    assert others[0] in others;
    var leaf := new Schema.Leaf("null");
    var anyOf := [leaf];
    for i := 0 to |others|
      invariant NodeOf(s) == old(NodeOf(s))
      invariant |anyOf| == i + 1
      invariant forall k :: 0 <= k < |anyOf| ==> fresh(anyOf[k]) && IsTypeLeaf(NodeOf(anyOf[k]), (["null"] + others)[k])
    {
      leaf := new Schema.Leaf(others[i]);
      anyOf := anyOf + [leaf];
    }
    s.types := [];
    s.anyOf := anyOf;
  }

  // ---------------------------------------------------------------- the walk

  // `now` holds the present state of every schema object, the new leaves included.
  ghost predicate Mirrors(now: Graph<Schema>)
    reads now.Keys
  {
    forall x :: x in now ==> now[x] == NodeOf(x)
  }

  // The state between calls: seen nodes are split where they need it, unseen ones
  // are untouched, and every object beyond the original graph is a type leaf.
  ghost predicate WalkState(before: Graph<Schema>, now: Graph<Schema>, seen: set<Schema>) {
    && Closed(before)
    && seen <= now.Keys
    && IsRewrite(before, now, seen)
    && (forall x :: x in now && x !in before ==> IsTypeLeaf(now[x], now[x].typ))
    && (forall x {:trigger NewBranches(before, now, seen, x)} :: x in before && x in now ==> NewBranches(before, now, seen, x))
  }

  // The branches of a split node are objects the original graph did not have.
  ghost predicate NewBranches(before: Graph<Schema>, now: Graph<Schema>, seen: set<Schema>, x: Schema)
    requires x in before && x in now
  {
    x in seen && NeedsSplit(before[x].types) ==> forall a :: a in now[x].anyOf ==> a !in before
  }

  ghost predicate VisitsOnce(visits: seq<Schema>, visited: set<Schema>) {
    && (forall i, j :: 0 <= i < j < |visits| ==> visits[i] != visits[j])
    && (forall x :: x in visits ==> x in visited)
    && (forall x :: x in visited ==> x in visits)
  }

  ghost predicate AllSeen(kids: seq<Schema>, n: nat, seen: set<Schema>)
    requires n <= |kids|
  {
    forall i :: 0 <= i < n ==> kids[i] in seen
  }

  lemma AllSeenGrows(kids: seq<Schema>, n: nat, seen: set<Schema>, more: set<Schema>)
    requires n < |kids| && AllSeen(kids, n, seen) && seen <= more && kids[n] in more
    ensures AllSeen(kids, n + 1, more)
  {
  }

  ghost predicate KidsSeen(now: Graph<Schema>, start: set<Schema>, seen: set<Schema>)
    requires seen <= now.Keys
  {
    forall x :: x in seen && x !in start ==> AllSeen(Kids(now[x]), |Kids(now[x])|, seen)
  }

  // A node is seen for a reason: an original node is reached from `from` once
  // overwritten anyOf lists are dropped, and a leaf hangs under such a node.
  ghost predicate HasReason(before: Graph<Schema>, from: seq<Schema>, now: Graph<Schema>,
                            start: set<Schema>, seen: set<Schema>, x: Schema)
    requires seen <= now.Keys
  {
    if x in before then exists k :: k in from && Reaches(Erased(before, before.Keys), k, x)
    else x in from || exists o :: o in seen && o !in start && o in before && x in Kids(now[o])
  }

  // What a walk from the schemas `from` did, having started with `start` seen:
  // one visit for each new node, everything they point to seen, nothing more.
  ghost predicate Walked(before: Graph<Schema>, from: seq<Schema>, now: Graph<Schema>,
                         start: set<Schema>, seen: set<Schema>, visits: seq<Schema>)
  {
    && start <= seen <= now.Keys
    && VisitsOnce(visits, seen - start)
    && KidsSeen(now, start, seen)
    && forall x :: x in seen && x !in start ==> HasReason(before, from, now, start, seen, x)
  }

  // Later steps leave what was seen as it is.
  ghost predicate Keeps(now: Graph<Schema>, seen: set<Schema>, later: Graph<Schema>) {
    && now.Keys <= later.Keys
    && forall x :: x in seen && x in now ==> later[x] == now[x]
  }

  lemma VisitsCompose(visits: seq<Schema>, more: seq<Schema>, a: set<Schema>, b: set<Schema>)
    requires VisitsOnce(visits, a) && VisitsOnce(more, b) && a !! b
    ensures VisitsOnce(visits + more, a + b)
  {
    forall i, j | 0 <= i < j < |visits + more| ensures (visits + more)[i] != (visits + more)[j] {
      if i < |visits| <= j {
        assert visits[i] in a && more[j - |visits|] in b;
      }
    }
  }

  // Walking one more of the schemas `from`.
  lemma WalksCompose(before: Graph<Schema>, from: seq<Schema>, kid: Schema,
                     start: set<Schema>, now: Graph<Schema>, seen: set<Schema>, visits: seq<Schema>,
                     now': Graph<Schema>, seen': set<Schema>, more: seq<Schema>)
    requires kid in from && Keeps(now, seen, now')
    requires Walked(before, from, now, start, seen, visits)
    requires Walked(before, [kid], now', seen, seen', more)
    ensures Walked(before, from, now', start, seen', visits + more)
  {
    VisitsCompose(visits, more, seen - start, seen' - seen);
    assert seen' - start == (seen - start) + (seen' - seen);
    forall x | x in seen' && x !in start ensures HasReason(before, from, now', start, seen', x) {
      if x in seen {
        assert HasReason(before, from, now, start, seen, x);
        if x !in before && x !in from {
          var o :| o in seen && o !in start && o in before && x in Kids(now[o]);
          assert x in Kids(now'[o]);
        }
      } else {
        assert HasReason(before, [kid], now', seen, seen', x);
      }
    }
  }

  // Visiting s, then walking everything s points to, is a walk from s.
  lemma WalkThroughParent(before: Graph<Schema>, s: Schema, start: set<Schema>, now: Graph<Schema>,
                          now': Graph<Schema>, seen': set<Schema>, more: seq<Schema>)
    requires s !in start && WalkState(before, now, start + {s}) && Keeps(now, start + {s}, now')
    requires Walked(before, Kids(now[s]), now', start + {s}, seen', more)
    requires AllSeen(Kids(now[s]), |Kids(now[s])|, seen')
    ensures Walked(before, [s], now', start, seen', [s] + more)
  {
    var erased := Erased(before, before.Keys);
    KidsOfSeen(before, now, start + {s}, s);
    assert VisitsOnce([s], {s});
    VisitsCompose([s], more, {s}, seen' - (start + {s}));
    assert seen' - start == {s} + (seen' - (start + {s}));
    forall x | x in seen' && x !in start ensures HasReason(before, [s], now', start, seen', x) {
      if x == s {
        ReachesItself(erased, s);
      } else {
        assert HasReason(before, Kids(now[s]), now', start + {s}, seen', x);
        if x in before {
          var k :| k in Kids(now[s]) && Reaches(erased, k, x);
          if k in before {
            ReachesKid(erased, s, k, x);
          }
        } else if x in Kids(now[s]) {
          assert x in Kids(now'[s]);
        }
      }
    }
  }

  lemma KidsOfSeen(before: Graph<Schema>, now: Graph<Schema>, seen: set<Schema>, s: Schema)
    requires WalkState(before, now, seen) && s in seen
    ensures forall k :: k in Kids(now[s]) ==>
      && k in now
      && (k in before ==> s in before && k in Kids(Erased(before, before.Keys)[s]))
    ensures s !in before ==> Kids(now[s]) == []
  {
    KidsAreTargets(now[s]);
    if s in before {
      assert RewrittenNode(before, now, seen, s) && NewBranches(before, now, seen, s) && PointsInside(before[s], before);
      forall k | k in before[s].anyOf || k in Kids(before[s]) ensures k in now {
        KidsAreTargets(before[s]);
        assert RewrittenNode(before, now, seen, k);
      }
      KidsAreTargets(Erased(before, before.Keys)[s]);
    }
  }

  // Splitting one unseen node, with fresh leaves, carries the state over.
  lemma SplitStep(before: Graph<Schema>, now: Graph<Schema>, seen: set<Schema>, s: Schema,
                  node: Node<Schema>, leaves: Graph<Schema>)
    requires WalkState(before, now, seen) && s in now && s !in seen
    requires leaves.Keys !! now.Keys
    requires forall x :: x in leaves ==> IsTypeLeaf(leaves[x], leaves[x].typ)
    requires if NeedsSplit(now[s].types) then SplitInto(now[s], node, leaves) else node == now[s]
    ensures WalkState(before, now[s := node] + leaves, seen + {s})
    ensures Keeps(now, seen, now[s := node] + leaves)
  {
    var now', seen' := now[s := node] + leaves, seen + {s};
    forall r | r in before
      ensures RewrittenNode(before, now', seen', r) && NewBranches(before, now', seen', r)
    {
      assert RewrittenNode(before, now, seen, r) && NewBranches(before, now, seen, r);
      if r == s {
        SplitIntoGrows(now[s], node, leaves, now');
        forall a | a in leaves ensures a !in before {
          assert a in before ==> RewrittenNode(before, now, seen, a);
        }
      } else if r in seen && NeedsSplit(before[r].types) {
        assert s !in before ==> node == now[s];
      }
    }
  }

  lemma SplitIntoGrows(old_: Node<Schema>, new_: Node<Schema>, g: Graph<Schema>, more: Graph<Schema>)
    requires forall x :: x in g ==> x in more && more[x] == g[x]
    ensures SplitInto(old_, new_, g) ==> SplitInto(old_, new_, more)
  {
  }

  // fn(s) at a node not seen before.
  method Visit(s: Schema, seen: set<Schema>, ghost before: Graph<Schema>, ghost now: Graph<Schema>)
    returns (ghost now': Graph<Schema>)
    requires Mirrors(now) && WalkState(before, now, seen)
    requires s in now && s !in seen
    modifies s
    ensures Mirrors(now') && WalkState(before, now', seen + {s}) && Keeps(now, seen, now')
    ensures fresh(now'.Keys - now.Keys)
  {
    hide WalkState, Keeps, NeedsSplit, Branches;
    SplitNullableTypes(s);
    ghost var leaves := Leaves(s);
    assert forall x :: x in now && x != s ==> now[x] == NodeOf(x);
    if NeedsSplit(now[s].types) {
      assert SplitInto(now[s], NodeOf(s), leaves);
    } else {
      leaves := map[];
    }
    SplitStep(before, now, seen, s, NodeOf(s), leaves);
    now' := now[s := NodeOf(s)] + leaves;
  }

  ghost function Leaves(s: Schema): (g: Graph<Schema>)
    reads s, s.anyOf
    ensures g.Keys == set a | a in s.anyOf
    ensures forall a :: a in g ==> g[a] == NodeOf(a)
  {
    map a | a in s.anyOf :: NodeOf(a)
  }

  method Walk(s: Schema?, seen: set<Schema>, ghost before: Graph<Schema>, ghost now: Graph<Schema>)
    returns (seen': set<Schema>, ghost now': Graph<Schema>, ghost visits: seq<Schema>)
    requires Mirrors(now) && WalkState(before, now, seen)
    requires s == null || s in now
    modifies now.Keys
    ensures Mirrors(now') && WalkState(before, now', seen') && Keeps(now, seen, now')
    ensures fresh(now'.Keys - now.Keys)
    ensures if s == null then seen' == seen && now' == now else s in seen'
    ensures s != null ==> Walked(before, [s], now', seen, seen', visits)
    decreases before.Keys - seen, 2
  {
    seen', now', visits := seen, now, [];
    if s == null || s in seen {
      return;
    }
    var node: Schema := s;
    seen' := seen' + {node};
    ghost var here := Visit(node, seen, before, now);
    seen', now', visits := WalkAll(node, seen', before, here);
    WalkThroughParent(before, node, seen, here, now', seen', visits);
    visits := [node] + visits;
  }

  // The loops over everything `s` points to.
  method WalkAll(s: Schema, seen: set<Schema>, ghost before: Graph<Schema>, ghost now: Graph<Schema>)
    returns (seen': set<Schema>, ghost now': Graph<Schema>, ghost visits: seq<Schema>)
    requires Mirrors(now) && WalkState(before, now, seen) && s in seen
    modifies now.Keys
    ensures Mirrors(now') && WalkState(before, now', seen') && Keeps(now, seen, now')
    ensures fresh(now'.Keys - now.Keys)
    ensures AllSeen(Kids(now[s]), |Kids(now[s])|, seen')
    ensures Walked(before, Kids(now[s]), now', seen, seen', visits)
    decreases before.Keys - seen, if s in before then 3 else 1
  {
    KidsOfSeen(before, now, seen, s);
    seen', now', visits := seen, now, [];
    var kids := Kids(Node(s.typ, s.types, s.anyOf, s.refs, s.subs, s.assertions));
    for i := 0 to |kids|
      invariant Mirrors(now') && WalkState(before, now', seen') && Keeps(now, seen, now')
      invariant fresh(now'.Keys - now.Keys)
      invariant AllSeen(kids, i, seen')
      invariant Walked(before, kids, now', seen, seen', visits)
    {
      ghost var nowBefore, seenBefore, more := now', seen', [];
      assert kids[i] in kids;
      seen', now', more := Walk(kids[i], seen', before, now');
      WalksCompose(before, kids, kids[i], seen, nowBefore, seenBefore, visits, now', seen', more);
      AllSeenGrows(kids, i, seenBefore, seen');
      visits := visits + more;
    }
  }

  // Dropping an overwritten anyOf leaves no edge that the rewritten graph lacks.
  lemma ErasedEdgesRemain(before: Graph<Schema>, now: Graph<Schema>, seen: set<Schema>, x: Schema, k: Schema)
    requires IsRewrite(before, now, seen) && x in before
    requires k in Kids(Erased(before, before.Keys)[x])
    ensures x in now && k in Kids(now[x])
  {
    assert RewrittenNode(before, now, seen, x);
    KidsAreTargets(Erased(before, before.Keys)[x]);
    KidsAreTargets(now[x]);
  }

  // A finished walk has seen exactly what the rewritten graph reaches, and left
  // no nullable multi-valued type there.
  lemma WalkIsExact(before: Graph<Schema>, root: Schema, now: Graph<Schema>, seen: set<Schema>, visits: seq<Schema>)
    requires WalkState(before, now, seen) && Walked(before, [root], now, {}, seen, visits)
    requires root in before && root in seen
    ensures forall x :: x in seen <==> Reaches(now, root, x)
    ensures forall x :: x in seen ==> !NeedsSplit(now[x].types)
  {
    var erased := Erased(before, before.Keys);
    forall x, k | x in erased && k in Kids(erased[x]) ensures x in now && k in Kids(now[x]) {
      ErasedEdgesRemain(before, now, seen, x, k);
    }
    forall x | x in seen ensures Reaches(now, root, x) {
      assert HasReason(before, [root], now, {}, seen, x);
      if x in before {
        var n: nat :| Steps(erased, root, x, n);
        StepsExtend(erased, now, root, x, x, n);
      } else {
        var o :| o in seen && o in before && x in Kids(now[o]);
        assert HasReason(before, [root], now, {}, seen, o);
        var n: nat :| Steps(erased, root, o, n);
        StepsExtend(erased, now, root, o, x, n);
      }
    }
    forall x | Reaches(now, root, x) ensures x in seen {
      var n: nat :| Steps(now, root, x, n);
      forall y, k | y in seen && k in Kids(now[y]) ensures k in seen {
        assert AllSeen(Kids(now[y]), |Kids(now[y])|, seen);
      }
      StepsStayInside(now, seen, root, x, n);
    }
    forall x | x in seen ensures !NeedsSplit(now[x].types) {
      assert x in before ==> RewrittenNode(before, now, seen, x);
    }
  }

  // The whole rewrite of a tool's schema: every schema the result reaches was
  // visited exactly once, none is left with a nullable multi-valued type, and
  // every original schema means what it meant with overwritten anyOf erased.
  method SplitNullableTypesEverywhere(root: Schema, ghost before: Graph<Schema>)
    returns (ghost now: Graph<Schema>, ghost seen: set<Schema>, ghost visits: seq<Schema>)
    requires Mirrors(before) && Closed(before) && root in before
    modifies before.Keys
    ensures Mirrors(now) && IsRewrite(before, now, seen) && fresh(now.Keys - before.Keys)
    ensures VisitsOnce(visits, seen) && seen <= now.Keys
    ensures forall x :: x in seen <==> Reaches(now, root, x)
    ensures forall x :: x in seen ==> !NeedsSplit(now[x].types)
    ensures forall x, inst :: x in before ==> Meaning(now, x, inst) == Meaning(Erased(before, seen), x, inst)
    ensures NothingOverwritten(before, seen) && NoEmptyName(before, seen) ==> forall x, inst :: x in before ==>
      Meaning(now, x, inst) == Meaning(before, x, inst)
  {
    var all;
    all, now, visits := Walk(root, {}, before, before);
    seen := all;
    assert VisitsOnce(visits, seen - {}) && seen - {} == seen;
    WalkIsExact(before, root, now, seen, visits);
    forall x, inst | x in before ensures Meaning(now, x, inst) == Meaning(Erased(before, seen), x, inst) {
      RewriteMeansErased(before, now, seen, x, inst);
    }
    assert NothingOverwritten(before, seen) && NoEmptyName(before, seen) ==> Erased(before, seen) == before;
  }
}
