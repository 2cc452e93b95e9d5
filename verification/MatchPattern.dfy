// The match-pattern builder: alias checks, then loops that thread one builder.
module MatchPattern {
  import opened Quoting
  import opened QueryReading
  import opened QueryText
  import opened ResultReading
  import opened Values
  import opened GraphConditions
  import opened GraphTools
  import opened PatternTools
  import opened Wrappers
  import C = PatternConnectivity
  import D = Decimal

  datatype PatternNode = PatternNode(alias: string, ref: NodeRef)

  datatype PatternRel = PatternRel(
    from: string, to: string, types: seq<string>, undirected: bool, entries: seq<Entry>, filters: seq<Filter>)

  datatype Mode = Rows | Count | Exists | UnknownMode

  function ModeOf(mode: string): Mode {
    if mode == "" || mode == "rows" then Rows else if mode == "count" then Count else if mode == "exists" then Exists else UnknownMode
  }

  datatype Input = Input(
    nodes: seq<PatternNode>, rels: seq<PatternRel>, mode: string, returnProperties: seq<string>, allowSameNode: bool, limit: int)

  const MAX_NODES := 6
  const MAX_RELS := 6

  // ---------------------------------------------------------------- what a pattern must be

  function Aliases(nodes: seq<PatternNode>): (r: seq<string>)
    ensures |r| == |nodes|
  {
    seq(|nodes|, i requires 0 <= i < |nodes| => nodes[i].alias)
  }

  function Links(rels: seq<PatternRel>): (r: seq<C.Rel>)
    ensures |r| == |rels|
  {
    seq(|rels|, i requires 0 <= i < |rels| => C.Rel(rels[i].from, rels[i].to))
  }

  ghost predicate DistinctAliases(aliases: seq<string>) {
    && (forall i :: 0 <= i < |aliases| ==> !IsBlank(aliases[i]))
    && (forall i, j :: 0 <= i < j < |aliases| ==> aliases[i] != aliases[j])
  }

  // Every end is a defined alias and every node is linked to the first.
  ghost predicate Connected(aliases: seq<string>, links: seq<C.Rel>) {
    exists table :: C.TableFor(table, aliases) && C.CheckSpec(aliases, links, table, C.Connects)
  }

  lemma TableIsUnique(s: map<string, nat>, t: map<string, nat>, aliases: seq<string>)
    requires C.TableFor(s, aliases) && C.TableFor(t, aliases)
    ensures s == t
  {
    forall a | a in s ensures a in t && s[a] == t[a] {
      assert aliases[s[a]] == a;
    }
    forall a | a in t ensures a in s {
      assert aliases[t[a]] == a;
    }
  }

  predicate PatternNodeOk(n: PatternNode) {
    RefOk(n.ref)
  }

  predicate PatternRelOk(r: PatternRel) {
    !AnyBlank(r.types) && EntriesOk(r.entries) && FiltersOk(r.filters)
  }

  ghost predicate InputOk(in_: Input) {
    && 1 <= |in_.nodes| <= 6 && |in_.rels| <= 6
    && DistinctAliases(Aliases(in_.nodes))
    && Connected(Aliases(in_.nodes), Links(in_.rels))
    && ChainLimit(in_.limit).Done?
    && (forall i :: 0 <= i < |in_.nodes| ==> PatternNodeOk(in_.nodes[i]))
    && (forall i :: 0 <= i < |in_.rels| ==> PatternRelOk(in_.rels[i]))
    && ModeOf(in_.mode) != UnknownMode
  }

  // ---------------------------------------------------------------- what a pattern binds and quotes

  function NodesValues(nodes: seq<PatternNode>): seq<Value> {
    if nodes == [] then []
    else NodesValues(nodes[..|nodes| - 1]) + CriteriaValues(nodes[|nodes| - 1].ref.criteria)
  }

  function NodesNames(nodes: seq<PatternNode>): set<string> {
    if nodes == [] then {}
    else NodesNames(nodes[..|nodes| - 1]) + RefNames(nodes[|nodes| - 1].ref) + {nodes[|nodes| - 1].alias}
  }

  function RelValuesOf(r: PatternRel): seq<Value> {
    EntryValues(r.entries) + FilterValues(r.filters)
  }

  function RelNamesOf(r: PatternRel): set<string> {
    {r.from, r.to} + (set t | t in r.types) + EntryNames(r.entries) + FilterNames(r.filters)
  }

  function RelsValues(rels: seq<PatternRel>): seq<Value> {
    if rels == [] then [] else RelsValues(rels[..|rels| - 1]) + RelValuesOf(rels[|rels| - 1])
  }

  function RelsNames(rels: seq<PatternRel>): set<string> {
    if rels == [] then {} else RelsNames(rels[..|rels| - 1]) + RelNamesOf(rels[|rels| - 1])
  }

  function PatternValues(in_: Input): seq<Value> {
    NodesValues(in_.nodes) + RelsValues(in_.rels)
      + if ModeOf(in_.mode) == Rows && ChainLimit(in_.limit).Done? then [Int(ChainLimit(in_.limit).value)] else []
  }

  // What the match quotes, and what rows mode quotes besides.
  function MatchNames(in_: Input): set<string> {
    NodesNames(in_.nodes) + RelsNames(in_.rels)
  }

  function PatternNames(in_: Input): set<string> {
    MatchNames(in_) + set p | p in in_.returnProperties
  }

  lemma {:induction false} NodesNamesHolds(nodes: seq<PatternNode>, i: nat)
    requires i < |nodes|
    ensures nodes[i].alias in NodesNames(nodes)
  {
    if i < |nodes| - 1 {
      NodesNamesHolds(nodes[..|nodes| - 1], i);
    }
  }

  // A partly built clause: it binds from..to-1 and quotes nothing but `names`.
  ghost predicate Within(ts: seq<Token>, from: nat, to: nat, names: set<string>) {
    from <= to && WellFormed(ts) && Params(ts) == Range(from, to) && Names(ts) <= names
  }

  lemma WithinThen(a: seq<Token>, sep: Gap, b: seq<Token>, from: nat, mid: nat, to: nat, x: set<string>, y: set<string>)
    requires Within(a, from, mid, x) && Within(b, mid, to, y)
    ensures Within(Then(a, sep, b), from, to, x + y)
  {
    ThenEmits(a, sep, b);
    assert Range(from, to) == Range(from, mid) + Range(mid, to);
  }

  lemma CondsWithin(conds: seq<Token>, from: nat, to: nat, names: set<string>, of: set<string>)
    requires CondsEmit(conds, from, to, names, of)
    ensures Within(conds, from, to, names + of)
  {
    assert forall n :: n in Names(conds) ==> n in Names(conds) + of;
  }

  // ---------------------------------------------------------------- conjuncts

  // `cond` is one of the conditions joined into `conds`.
  ghost predicate IsConjunct(cond: seq<Token>, conds: seq<Token>) {
    exists a, b :: conds == Then(a, AND, Then(cond, AND, b))
  }

  lemma ThenAssociates(a: seq<Token>, b: seq<Token>, c: seq<Token>)
    ensures Then(Then(a, AND, b), AND, c) == Then(a, AND, Then(b, AND, c))
  {
  }

  lemma ThenNothing(a: seq<Token>)
    ensures Then(a, AND, []) == a == Then([], AND, a)
  {
  }

  lemma StaysConjunct(cond: seq<Token>, a: seq<Token>, b: seq<Token>)
    requires IsConjunct(cond, a) || IsConjunct(cond, b)
    ensures IsConjunct(cond, Then(a, AND, b))
  {
    hide Then;
    if IsConjunct(cond, a) {
      var x, y :| a == Then(x, AND, Then(cond, AND, y));
      ThenAssociates(x, Then(cond, AND, y), b);
      ThenAssociates(cond, y, b);
    } else {
      var x, y :| b == Then(x, AND, Then(cond, AND, y));
      ThenAssociates(a, x, Then(cond, AND, y));
    }
  }

  lemma IsOwnConjunct(cond: seq<Token>)
    ensures IsConjunct(cond, cond)
  {
    assert cond == Then([], AND, Then(cond, AND, []));
  }

  // ---------------------------------------------------------------- nodes

  // A node's label and property conditions, its values bound from parameter k on.
  function NodeCondsOf(n: PatternNode, k: nat): seq<Token> {
    Then(if n.ref.labels == [] then [] else [Name(n.alias)] + LabelTokens(n.ref.labels, AMP), AND,
         CriteriaConds(n.ref.criteria, [Name(n.alias)], k))
  }

  function NodesConds(nodes: seq<PatternNode>): seq<Token> {
    if nodes == [] then []
    else
      var before := nodes[..|nodes| - 1];
      Then(NodesConds(before), AND, NodeCondsOf(nodes[|nodes| - 1], |NodesValues(before)|))
  }

  lemma LabelCondWithin(n: PatternNode, k: nat)
    ensures Within(if n.ref.labels == [] then [] else [Name(n.alias)] + LabelTokens(n.ref.labels, AMP), k, k, RefNames(n.ref) + {n.alias})
  {
    var v := [Name(n.alias)];
    assert v[0] == Name(n.alias);
    assert Emits(v, {}, {n.alias});
    LabelTokensEmit(n.ref.labels, AMP);
    EmitsConcat(v, LabelTokens(n.ref.labels, AMP));
  }

  lemma AliasConds(n: PatternNode, k: nat)
    requires CriteriaOk(n.ref.criteria)
    ensures Within(CriteriaConds(n.ref.criteria, [Name(n.alias)], k), k, k + |CriteriaValues(n.ref.criteria)|, RefNames(n.ref) + {n.alias})
  {
    hide CriteriaConds, CriteriaValues, CriteriaNames, CondsEmit;
    var v := [Name(n.alias)];
    assert v[0] == Name(n.alias) && Names(v) == {n.alias};
    CriteriaEmit(n.ref.criteria, v, k);
    CondsWithin(CriteriaConds(n.ref.criteria, v, k), k, k + |CriteriaValues(n.ref.criteria)|, CriteriaNames(n.ref.criteria), {n.alias});
  }

  lemma NodeCondsWithin(n: PatternNode, k: nat)
    requires PatternNodeOk(n)
    ensures Within(NodeCondsOf(n, k), k, k + |CriteriaValues(n.ref.criteria)|, RefNames(n.ref) + {n.alias})
  {
    hide CriteriaValues, CriteriaOk, CriteriaConds, AnyBlank, LabelTokens, Then, Within, RefNames;
    var names := RefNames(n.ref) + {n.alias};
    LabelCondWithin(n, k);
    AliasConds(n, k);
    WithinThen(if n.ref.labels == [] then [] else [Name(n.alias)] + LabelTokens(n.ref.labels, AMP), AND,
               CriteriaConds(n.ref.criteria, [Name(n.alias)], k), k, k, k + |CriteriaValues(n.ref.criteria)|, names, names);
    assert names + names == names;
  }

  lemma {:induction false} NodesCondsWithin(nodes: seq<PatternNode>)
    requires forall i :: 0 <= i < |nodes| ==> PatternNodeOk(nodes[i])
    ensures Within(NodesConds(nodes), 0, |NodesValues(nodes)|, NodesNames(nodes))
  {
    hide PatternNodeOk, RefNames, CriteriaValues, Then, Within, NodeCondsOf;
    if nodes == [] {
      NothingWithin(0);
    } else {
      var before, n := nodes[..|nodes| - 1], nodes[|nodes| - 1];
      var k := |NodesValues(before)|;
      NodesCondsWithin(before);
      NodeCondsWithin(n, k);
      WithinThen(NodesConds(before), AND, NodeCondsOf(n, k), 0, k, |NodesValues(nodes)|, NodesNames(before), RefNames(n.ref) + {n.alias});
      assert NodesNames(nodes) == NodesNames(before) + (RefNames(n.ref) + {n.alias});
    }
  }

  lemma NothingWithin(n: nat)
    ensures Within([], n, n, {})
  {
  }

  method NodeConds(n: PatternNode, b: Builder) returns (r: Built<seq<Token>>)
    requires b.Valid()
    modifies b
    ensures b.Valid()
    ensures r.Done? <==> PatternNodeOk(n)
    ensures r.Done? ==> r.value == NodeCondsOf(n, |old(b.vals)|) && b.vals == old(b.vals) + CriteriaValues(n.ref.criteria)
  {
    hide CriteriaValues, CriteriaOk, CriteriaConds, AnyBlank, LabelTokens, Then;
    var v := [Name(n.alias)];
    if AnyBlank(n.ref.labels) {
      return Fail(BlankLabel);
    }
    var labels: seq<Token> := if n.ref.labels == [] then [] else v + LabelTokens(n.ref.labels, AMP);
    var c := Conditions(n.ref.criteria, v, b);
    if c.Fail? {
      return c;
    }
    r := Done(Then(labels, AND, c.value));
  }

  method AllNodeConds(nodes: seq<PatternNode>, b: Builder) returns (r: Built<seq<Token>>)
    requires b.Valid() && b.vals == []
    modifies b
    ensures b.Valid()
    ensures r.Done? <==> forall i :: 0 <= i < |nodes| ==> PatternNodeOk(nodes[i])
    ensures r.Done? ==> r.value == NodesConds(nodes) && b.vals == NodesValues(nodes)
  {
    hide PatternNodeOk, CriteriaValues, Then, NodeCondsOf;
    var conds: seq<Token> := [];
    for i := 0 to |nodes|
      invariant b.Valid()
      invariant forall j :: 0 <= j < i ==> PatternNodeOk(nodes[j])
      invariant b.vals == NodesValues(nodes[..i])
      invariant conds == NodesConds(nodes[..i])
    {
      assert nodes[..i + 1][..i] == nodes[..i];
      var c := NodeConds(nodes[i], b);
      if c.Fail? {
        return c;
      }
      conds := Then(conds, AND, c.value);
    }
    assert nodes[..|nodes|] == nodes;
    r := Done(conds);
  }

  // ---------------------------------------------------------------- different aliases, different nodes

  function Different(m: PatternNode, n: PatternNode): seq<Token> {
    [Name(m.alias), Text(DIFFERENT), Name(n.alias)]
  }

  // Node i against each of i+1..j-1.
  function DifferentFrom(nodes: seq<PatternNode>, i: nat, j: nat): seq<Token>
    requires i < |nodes| && j <= |nodes|
  {
    if j <= i + 1 then [] else Then(DifferentFrom(nodes, i, j - 1), AND, Different(nodes[i], nodes[j - 1]))
  }

  // Each of the first i nodes against every later one.
  function AllDifferent(nodes: seq<PatternNode>, i: nat): seq<Token>
    requires i <= |nodes|
  {
    if i == 0 then [] else Then(AllDifferent(nodes, i - 1), AND, DifferentFrom(nodes, i - 1, |nodes|))
  }

  // No pair of nodes is left out.
  lemma {:induction false} EveryPairDiffers(nodes: seq<PatternNode>, i: nat, j: nat, upTo: nat)
    requires i < j < |nodes| && i < upTo <= |nodes|
    ensures IsConjunct(Different(nodes[i], nodes[j]), AllDifferent(nodes, upTo))
  {
    hide IsConjunct, Then, Different;
    if i == upTo - 1 {
      PairInRow(nodes, i, j, |nodes|);
    } else {
      EveryPairDiffers(nodes, i, j, upTo - 1);
    }
    StaysConjunct(Different(nodes[i], nodes[j]), AllDifferent(nodes, upTo - 1), DifferentFrom(nodes, upTo - 1, |nodes|));
  }

  lemma {:induction false} PairInRow(nodes: seq<PatternNode>, i: nat, j: nat, upTo: nat)
    requires i < j < upTo <= |nodes|
    ensures IsConjunct(Different(nodes[i], nodes[j]), DifferentFrom(nodes, i, upTo))
  {
    hide IsConjunct, Then, Different;
    if j == upTo - 1 {
      IsOwnConjunct(Different(nodes[i], nodes[j]));
    } else {
      PairInRow(nodes, i, j, upTo - 1);
    }
    StaysConjunct(Different(nodes[i], nodes[j]), DifferentFrom(nodes, i, upTo - 1), Different(nodes[i], nodes[upTo - 1]));
  }

  lemma DifferentWithin(nodes: seq<PatternNode>, i: nat, j: nat, k: nat)
    requires i < |nodes| && j < |nodes|
    ensures Within(Different(nodes[i], nodes[j]), k, k, NodesNames(nodes))
  {
    var cond := Different(nodes[i], nodes[j]);
    NodesNamesHolds(nodes, i);
    NodesNamesHolds(nodes, j);
    assert Params(cond) == {} == Range(k, k);
    assert Names(cond) <= NodesNames(nodes);
  }

  lemma {:induction false} RowWithin(nodes: seq<PatternNode>, i: nat, j: nat, k: nat)
    requires i < |nodes| && j <= |nodes|
    ensures Within(DifferentFrom(nodes, i, j), k, k, NodesNames(nodes))
  {
    hide Then, NodesNames, Different, Within;
    if j <= i + 1 {
      NothingWithin(k);
      WithinMore([], k, k, {}, NodesNames(nodes));
    } else {
      RowWithin(nodes, i, j - 1, k);
      DifferentWithin(nodes, i, j - 1, k);
      WithinThen(DifferentFrom(nodes, i, j - 1), AND, Different(nodes[i], nodes[j - 1]), k, k, k, NodesNames(nodes), NodesNames(nodes));
      assert NodesNames(nodes) + NodesNames(nodes) == NodesNames(nodes);
    }
  }

  lemma {:induction false} AllDifferentWithin(nodes: seq<PatternNode>, i: nat, k: nat)
    requires i <= |nodes|
    ensures Within(AllDifferent(nodes, i), k, k, NodesNames(nodes))
  {
    hide Then, NodesNames, DifferentFrom, Within;
    if i == 0 {
      NothingWithin(k);
      WithinMore([], k, k, {}, NodesNames(nodes));
    } else {
      AllDifferentWithin(nodes, i - 1, k);
      RowWithin(nodes, i - 1, |nodes|, k);
      WithinThen(AllDifferent(nodes, i - 1), AND, DifferentFrom(nodes, i - 1, |nodes|), k, k, k, NodesNames(nodes), NodesNames(nodes));
      assert NodesNames(nodes) + NodesNames(nodes) == NodesNames(nodes);
    }
  }

  method DistinctConds(nodes: seq<PatternNode>) returns (conds: seq<Token>)
    ensures conds == AllDifferent(nodes, |nodes|)
  {
    hide Then;
    conds := [];
    for i := 0 to |nodes|
      invariant conds == AllDifferent(nodes, i)
    {
      ThenNothing(conds);
      for j := i + 1 to |nodes|
        invariant conds == Then(AllDifferent(nodes, i), AND, DifferentFrom(nodes, i, j))
      {
        ThenAssociates(AllDifferent(nodes, i), DifferentFrom(nodes, i, j), Different(nodes[i], nodes[j]));
        conds := Then(conds, AND, [Name(nodes[i].alias), Text(DIFFERENT), Name(nodes[j].alias)]);
      }
    }
  }

  // ---------------------------------------------------------------- relationships

  // (`from`)-[r0:`T`]->(`to`)
  function Arrow(r: PatternRel, i: nat): seq<Token> {
    [Text(OPEN), Name(r.from), Text(CLOSE)]
      + SingleRel(if r.undirected then Both else Outgoing, Indexed(R, i), LabelTokens(r.types, PIPE)).value
      + [Text(OPEN), Name(r.to), Text(CLOSE)]
  }

  function Arrows(rels: seq<PatternRel>): seq<Token> {
    if rels == [] then [] else Then(Arrows(rels[..|rels| - 1]), COMMA, Arrow(rels[|rels| - 1], |rels| - 1))
  }

  function RelCondsOf(r: PatternRel, i: nat, k: nat): seq<Token> {
    Then(MatchConds([Text(Indexed(R, i))], r.entries, k), AND, FilterConds([Text(Indexed(R, i))], r.filters, k + |EntryValues(r.entries)|))
  }

  // The values of the relationships are bound from parameter k on.
  function RelsConds(rels: seq<PatternRel>, k: nat): seq<Token> {
    if rels == [] then []
    else
      var before := rels[..|rels| - 1];
      Then(RelsConds(before, k), AND, RelCondsOf(rels[|rels| - 1], |rels| - 1, k + |RelsValues(before)|))
  }

  lemma EndEmits(alias: string)
    ensures Emits([Text(OPEN), Name(alias), Text(CLOSE)], {}, {alias}) && !OpenEnd([Text(OPEN), Name(alias), Text(CLOSE)])
  {
    assert [Text(OPEN), Name(alias), Text(CLOSE)][1] == Name(alias);
  }

  lemma ArrowEmits(r: PatternRel, i: nat)
    ensures Emits(Arrow(r, i), {}, {r.from, r.to} + set t | t in r.types) && Arrow(r, i) != []
  {
    hide WellFormed, Params, Names, OpenEnd, LabelTokens, Indexed;
    var direction := if r.undirected then Both else Outgoing;
    var typ := LabelTokens(r.types, PIPE);
    var rel := SingleRel(direction, Indexed(R, i), typ).value;
    LabelTokensEmit(r.types, PIPE);
    SingleRelEmits(direction, Indexed(R, i), typ);
    EndEmits(r.from);
    EndEmits(r.to);
    EmitsConcat([Text(OPEN), Name(r.from), Text(CLOSE)], rel);
    EmitsConcat([Text(OPEN), Name(r.from), Text(CLOSE)] + rel, [Text(OPEN), Name(r.to), Text(CLOSE)]);
  }

  lemma ArrowWithin(rel: PatternRel, i: nat)
    ensures Within(Arrow(rel, i), 0, 0, RelNamesOf(rel)) && Arrow(rel, i) != []
  {
    hide Arrow, WellFormed;
    ArrowEmits(rel, i);
  }

  lemma {:induction false} ArrowsWithin(rels: seq<PatternRel>)
    ensures Within(Arrows(rels), 0, 0, RelsNames(rels)) && (rels != [] ==> Arrows(rels) != [])
  {
    hide Arrow, Within, RelNamesOf;
    if rels == [] {
      NothingWithin(0);
    } else {
      var before, r := rels[..|rels| - 1], rels[|rels| - 1];
      ArrowsWithin(before);
      ArrowWithin(r, |rels| - 1);
      WithinThen(Arrows(before), COMMA, Arrow(r, |rels| - 1), 0, 0, 0, RelsNames(before), RelNamesOf(r));
    }
  }

  lemma OnPlainText(v: seq<Token>)
    requires |v| == 1 && v[0].Text?
    ensures IsVar(v) && Names(v) == {}
  {
  }

  lemma WithinMore(ts: seq<Token>, from: nat, to: nat, names: set<string>, more: set<string>)
    requires Within(ts, from, to, names) && names <= more
    ensures Within(ts, from, to, more)
  {
  }

  lemma RelCondsWithin(r: PatternRel, i: nat, n: nat)
    requires PatternRelOk(r)
    ensures Within(RelCondsOf(r, i, n), n, n + |RelValuesOf(r)|, RelNamesOf(r))
  {
    hide EntriesOk, FiltersOk, EntryValues, FilterValues, MatchConds, FilterConds, Within, CondsEmit, Then, EntryNames,
      FilterNames, Indexed, AnyBlank;
    var v: seq<Token> := [Text(Indexed(R, i))];
    OnPlainText(v);
    var k := n + |EntryValues(r.entries)|;
    var to := k + |FilterValues(r.filters)|;
    var m, f := MatchConds(v, r.entries, n), FilterConds(v, r.filters, k);
    MatchCondsEmit(v, r.entries, n);
    FilterCondsEmit(v, r.filters, k);
    CondsEmitConcat(m, f, n, k, to, EntryNames(r.entries), FilterNames(r.filters), {});
    CondsWithin(AndThen(m, f), n, to, EntryNames(r.entries) + FilterNames(r.filters), {});
    WithinMore(AndThen(m, f), n, to, EntryNames(r.entries) + FilterNames(r.filters) + {}, RelNamesOf(r));
  }

  lemma {:induction false} RelsCondsWithin(rels: seq<PatternRel>, n: nat)
    requires forall i :: 0 <= i < |rels| ==> PatternRelOk(rels[i])
    ensures Within(RelsConds(rels, n), n, n + |RelsValues(rels)|, RelsNames(rels))
  {
    hide PatternRelOk, RelNamesOf, RelValuesOf, Then, Within, RelCondsOf;
    if rels == [] {
      NothingWithin(n);
    } else {
      var before, r := rels[..|rels| - 1], rels[|rels| - 1];
      var k := n + |RelsValues(before)|;
      RelsCondsWithin(before, n);
      RelCondsWithin(r, |rels| - 1, k);
      WithinThen(RelsConds(before, n), AND, RelCondsOf(r, |rels| - 1, k), n, k, n + |RelsValues(rels)|, RelsNames(before), RelNamesOf(r));
    }
  }

  // One relationship's arrow and conditions.
  method OneRel(rel: PatternRel, i: nat, b: Builder) returns (r: Built<(seq<Token>, seq<Token>)>)
    requires b.Valid()
    modifies b
    ensures b.Valid()
    ensures r.Done? <==> PatternRelOk(rel)
    ensures r.Done? ==>
      && b.vals == old(b.vals) + RelValuesOf(rel)
      && r.value == (Arrow(rel, i), RelCondsOf(rel, i, |old(b.vals)|))
  {
    hide EntriesOk, FiltersOk, AnyBlank, EntryValues, FilterValues, MatchConds, FilterConds, LabelTokens, Indexed, Then;
    if AnyBlank(rel.types) {
      return Fail(BlankLabel);
    }
    var v: seq<Token> := [Text(Indexed(R, i))];
    var direction := if rel.undirected then Both else Outgoing;
    var arrow := [Text(OPEN), Name(rel.from), Text(CLOSE)] + SingleRel(direction, Indexed(R, i), LabelTokens(rel.types, PIPE)).value
      + [Text(OPEN), Name(rel.to), Text(CLOSE)];
    var m := MatchConditions(v, rel.entries, b);
    if m.Fail? {
      return Fail(m.error);
    }
    var f := FilterConditions(v, rel.filters, b);
    if f.Fail? {
      return Fail(f.error);
    }
    r := Done((arrow, Then(m.value, AND, f.value)));
  }

  // The arrows, and the conditions after those on the nodes.
  method AllRels(rels: seq<PatternRel>, nodeConds: seq<Token>, b: Builder) returns (r: Built<(seq<Token>, seq<Token>)>)
    requires b.Valid()
    modifies b
    ensures b.Valid()
    ensures r.Done? <==> forall i :: 0 <= i < |rels| ==> PatternRelOk(rels[i])
    ensures r.Done? ==>
      && b.vals == old(b.vals) + RelsValues(rels)
      && r.value == (Arrows(rels), Then(nodeConds, AND, RelsConds(rels, |old(b.vals)|)))
  {
    hide PatternRelOk, RelValuesOf, RelCondsOf, Arrow, Then;
    var patterns: seq<Token>, conds := [], nodeConds;
    ghost var n := |b.vals|;
    ThenNothing(conds);
    for i := 0 to |rels|
      invariant b.Valid()
      invariant forall j :: 0 <= j < i ==> PatternRelOk(rels[j])
      invariant b.vals == old(b.vals) + RelsValues(rels[..i])
      invariant patterns == Arrows(rels[..i])
      invariant conds == Then(nodeConds, AND, RelsConds(rels[..i], n))
    {
      assert rels[..i + 1][..i] == rels[..i];
      var c := OneRel(rels[i], i, b);
      if c.Fail? {
        return Fail(c.error);
      }
      ThenAssociates(nodeConds, RelsConds(rels[..i], n), c.value.1);
      patterns := Then(patterns, COMMA, c.value.0);
      conds := Then(conds, AND, c.value.1);
    }
    assert rels[..|rels|] == rels;
    r := Done((patterns, conds));
  }

  // ---------------------------------------------------------------- exists mode re-indents the match

  // What strings.ReplaceAll(match, "\n", "\n  ") does to a token, quoted names included.
  function Indent(s: string): string {
    ReplaceAll(s, '\n', "\n  ")
  }

  lemma {:induction false} IndentKeepsPlain(s: string)
    requires IsPlain(s)
    ensures IsPlain(Indent(s))
  {
    if s != [] {
      assert IsPlainChar(s[0]) && forall i :: 0 <= i < |s[1..]| ==> s[1..][i] == s[i + 1];
      IndentKeepsPlain(s[1..]);
    }
  }

  function IndentToken(t: Token): Token {
    match t
    case Text(text) => IndentKeepsPlain(text); Text(Indent(text))
    case Between(gap) => IndentKeepsPlain(gap); Between(Indent(gap))
    case Name(name) => Name(Indent(name))
    case Literal(text) => Literal(Indent(text))
    case Param(k) => Param(k)
  }

  function IndentTokens(ts: seq<Token>): (r: seq<Token>)
    ensures |r| == |ts|
  {
    seq(|ts|, i requires 0 <= i < |ts| => IndentToken(ts[i]))
  }

  lemma IndentEmits(ts: seq<Token>)
    requires WellFormed(ts)
    ensures WellFormed(IndentTokens(ts)) && Params(IndentTokens(ts)) == Params(ts)
    ensures Names(IndentTokens(ts)) == set n | n in Names(ts) :: Indent(n)
  {
    var r := IndentTokens(ts);
    forall k | k in Params(ts) ensures k in Params(r) {
      var i :| 0 <= i < |ts| && ts[i] == Param(k);
      assert r[i] == Param(k);
    }
    forall n | n in Names(r) ensures n in set m | m in Names(ts) :: Indent(m) {
      var i :| 0 <= i < |r| && r[i] == Name(n);
      assert ts[i] in ts && ts[i].Name? && ts[i].name in Names(ts);
    }
    forall n | n in Names(ts) ensures Indent(n) in Names(r) {
      var i :| 0 <= i < |ts| && ts[i] == Name(n);
      assert r[i] == Name(Indent(n)) && r[i] in r;
    }
  }

  lemma {:induction false} NothingToReplace(s: string, c: char, with: string)
    requires c !in s
    ensures ReplaceAll(s, c, with) == s
  {
    if s != [] {
      NothingToReplace(s[1..], c, with);
    }
  }

  // Two replacements that do not touch each other's text commute.
  lemma {:induction false} ReplacementsCommute(s: string, c: char, x: string, d: char, y: string)
    requires c != d && d !in x && c !in y
    ensures ReplaceAll(ReplaceAll(s, c, x), d, y) == ReplaceAll(ReplaceAll(s, d, y), c, x)
  {
    if s != [] {
      var byC, byD := if s[0] == c then x else [s[0]], if s[0] == d then y else [s[0]];
      ReplacementsCommute(s[1..], c, x, d, y);
      ReplaceAllConcat(byC, ReplaceAll(s[1..], c, x), d, y);
      ReplaceAllConcat(byD, ReplaceAll(s[1..], d, y), c, x);
      NothingToReplace(x, d, y);
      NothingToReplace(y, c, x);
      assert s[0] == d ==> ReplaceAll(byC, d, y) == y + ReplaceAll([], d, y);
      assert s[0] == c ==> ReplaceAll(byD, c, x) == x + ReplaceAll([], c, x);
    }
  }

  lemma IndentConcat(a: string, b: string)
    ensures Indent(a + b) == Indent(a) + Indent(b) && Indent("") == ""
  {
    ReplaceAllConcat(a, b, '\n', "\n  ");
  }

  lemma IndentQuoted(quote: string, body: string)
    requires '\n' !in quote
    ensures Indent(quote + body + quote) == quote + Indent(body) + quote
  {
    hide Indent, ReplaceAll;
    IndentConcat(quote + body, quote);
    IndentConcat(quote, body);
    IndentsNothing(quote);
  }

  lemma IndentsNothing(s: string)
    requires '\n' !in s
    ensures Indent(s) == s
  {
    NothingToReplace(s, '\n', "\n  ");
  }

  lemma IndentRenders(t: Token)
    ensures RenderToken(IndentToken(t)) == Indent(RenderToken(t))
  {
    hide ReplaceAll;
    match t
    case Name(name) =>
      ReplacementsCommute(name, '`', "``", '\n', "\n  ");
      IndentQuoted("`", ReplaceAll(name, '`', "``"));
    case Literal(text) =>
      var once := ReplaceAll(text, '\\', "\\\\");
      ReplacementsCommute(text, '\\', "\\\\", '\n', "\n  ");
      ReplacementsCommute(once, '\'', "\\'", '\n', "\n  ");
      IndentQuoted("'", ReplaceAll(once, '\'', "\\'"));
    case Param(k) =>
      IndentsNothing("$" + ParamName(k));
    case _ =>
  }

  // Re-indenting the tokens is re-indenting the text.
  lemma {:induction false} IndentTokensRender(ts: seq<Token>)
    ensures Render(IndentTokens(ts)) == Indent(Render(ts))
  {
    hide ReplaceAll, RenderToken, IndentToken, Indent;
    if ts == [] {
      IndentConcat("", "");
    } else {
      IndentTokensRender(ts[1..]);
      IndentRenders(ts[0]);
      IndentConcat(RenderToken(ts[0]), Render(ts[1..]));
      assert IndentTokens(ts)[1..] == IndentTokens(ts[1..]);
    }
  }

  // A name is indented into itself exactly when it has no newline.
  lemma {:induction false} IndentKeepsNameIff(name: string)
    ensures Indent(name) == name <==> '\n' !in name
    ensures |Indent(name)| >= |name| && ('\n' in name ==> |Indent(name)| > |name|)
  {
    if name != [] {
      IndentKeepsNameIff(name[1..]);
      assert name == [name[0]] + name[1..];
    }
  }

  // ---------------------------------------------------------------- the whole query

  function NodeEntry(n: PatternNode, props: seq<string>): seq<Token> {
    [Name(n.alias), Text(ENTRY)] + NodeMap(Name(n.alias), props)
  }

  function NodeEntries(nodes: seq<PatternNode>, props: seq<string>): seq<Token> {
    if nodes == [] then [] else Then(NodeEntries(nodes[..|nodes| - 1], props), COMMA, NodeEntry(nodes[|nodes| - 1], props))
  }

  function RelEntries(k: nat): seq<Token> {
    if k == 0 then [] else Then(RelEntries(k - 1), COMMA, RelSummary(Indexed(R, k - 1)))
  }

  function PatternConds(in_: Input): seq<Token> {
    Then(Then(NodesConds(in_.nodes), AND, if in_.allowSameNode then [] else AllDifferent(in_.nodes, |in_.nodes|)), AND,
         RelsConds(in_.rels, |NodesValues(in_.nodes)|))
  }

  // The relationships, or the one node of a pattern without any.
  function EndsAndArrows(in_: Input): seq<Token>
    requires in_.nodes != []
  {
    if in_.rels == [] then [Text(OPEN), Name(in_.nodes[0].alias), Text(CLOSE)] else Arrows(in_.rels)
  }

  function MatchTokens(in_: Input): seq<Token>
    requires in_.nodes != []
  {
    [Text(MATCH)] + EndsAndArrows(in_) + Where(PatternConds(in_))
  }

  function RowsTokens(in_: Input, match_: seq<Token>, limit: Token): seq<Token> {
    match_ + [Between(RETURN_NODES)] + NodeEntries(in_.nodes, in_.returnProperties) + [Text(AS_NODES)] + RelEntries(|in_.rels|)
      + [Text(AS_RELS), limit]
  }

  function ExistsTokens(match_: seq<Token>): seq<Token> {
    [Text(EXISTS)] + IndentTokens(match_) + [Between(AS_EXISTS)]
  }

  function PatternText(in_: Input): seq<Token>
    requires in_.nodes != []
  {
    match ModeOf(in_.mode)
    case Rows => RowsTokens(in_, MatchTokens(in_), Param(|NodesValues(in_.nodes) + RelsValues(in_.rels)|))
    case Count => MatchTokens(in_) + [Between(RETURN_COUNT)]
    case Exists => ExistsTokens(MatchTokens(in_))
    case UnknownMode => []
  }

  // The names as the query quotes them: exists mode indents those with newlines.
  function QuotedNames(in_: Input): set<string> {
    match ModeOf(in_.mode)
    case Rows => PatternNames(in_)
    case Count => MatchNames(in_)
    case Exists => set n | n in MatchNames(in_) :: Indent(n)
    case UnknownMode => {}
  }

  lemma WithinConcat(a: seq<Token>, b: seq<Token>, from: nat, mid: nat, to: nat, names: set<string>)
    requires Within(a, from, mid, names) && Within(b, mid, to, names)
    requires OpenEnd(a) && b != [] ==> !b[0].Text?
    ensures Within(a + b, from, to, names)
    ensures OpenEnd(a + b) <==> OpenEnd(if b == [] then a else b)
  {
    EmitsConcat(a, b);
    assert Range(from, to) == Range(from, mid) + Range(mid, to);
  }

  lemma TextsWithin(ts: seq<Token>, k: nat, names: set<string>)
    requires forall i :: 0 <= i < |ts| ==> ts[i].Text?
    ensures Within(ts, k, k, names) && !OpenEnd(ts)
  {
    PlainEmits(ts);
  }

  lemma GapWithin(gap: Gap, k: nat, names: set<string>)
    ensures Within([Between(gap)], k, k, names) && !OpenEnd([Between(gap)])
  {
    GapEmits(gap);
  }

  lemma {:induction false} NodeEntriesWithin(nodes: seq<PatternNode>, props: seq<string>, k: nat)
    ensures Within(NodeEntries(nodes, props), k, k, NodesNames(nodes) + set p | p in props)
    ensures !OpenEnd(NodeEntries(nodes, props))
  {
    hide NodeMap, WellFormed, Params, Names, RefNames;
    var names := NodesNames(nodes) + set p | p in props;
    if nodes != [] {
      var before, n := nodes[..|nodes| - 1], nodes[|nodes| - 1];
      NodeEntriesWithin(before, props, k);
      NodeEntryWithin(n, props, k, names);
      var entries, entry := NodeEntries(before, props), NodeEntry(n, props);
      GapWithin(COMMA, k, names);
      WithinConcat(entries, [Between(COMMA)], k, k, k, names);
      WithinConcat(entries + [Between(COMMA)], entry, k, k, k, names);
    } else {
      TextsWithin([], k, names);
    }
  }

  lemma NodeEntryWithin(n: PatternNode, props: seq<string>, k: nat, names: set<string>)
    requires n.alias in names && forall p :: p in props ==> p in names
    ensures Within(NodeEntry(n, props), k, k, names) && !OpenEnd(NodeEntry(n, props)) && NodeEntry(n, props) != []
  {
    hide NodeMap;
    var head: seq<Token> := [Name(n.alias), Text(ENTRY)];
    NodeMapEmits(Name(n.alias), props);
    assert head[0] == Name(n.alias);
    assert Within(head, k, k, names);
    assert Within(NodeMap(Name(n.alias), props), k, k, names);
    WithinConcat(head, NodeMap(Name(n.alias), props), k, k, k, names);
  }

  lemma {:induction false} RelEntriesWithin(n: nat, k: nat, names: set<string>)
    ensures Within(RelEntries(n), k, k, names) && !OpenEnd(RelEntries(n))
  {
    hide Within, OpenEnd, Indexed, RelSummary;
    if n == 0 {
      TextsWithin([], k, names);
    } else {
      var entry := RelSummary(Indexed(R, n - 1));
      RelEntriesWithin(n - 1, k, names);
      RelSummaryWithin(Indexed(R, n - 1), k, names);
      GapWithin(COMMA, k, names);
      WithinConcat(RelEntries(n - 1), [Between(COMMA)], k, k, k, names);
      WithinConcat(RelEntries(n - 1) + [Between(COMMA)], entry, k, k, k, names);
    }
  }

  lemma RelSummaryWithin(v: Plain, k: nat, names: set<string>)
    ensures Within(RelSummary(v), k, k, names) && !OpenEnd(RelSummary(v)) && RelSummary(v) != []
  {
    TextsWithin(RelSummary(v), k, names);
  }

  lemma PatternCondsWithin(in_: Input)
    requires InputOk(in_)
    ensures Within(PatternConds(in_), 0, |NodesValues(in_.nodes)| + |RelsValues(in_.rels)|, MatchNames(in_))
  {
    hide NodesConds, AllDifferent, RelsConds, Then, Within, PatternNodeOk, PatternRelOk, NodesNames, RelsNames, NodesValues,
      RelsValues, DistinctAliases, Connected;
    var k := |NodesValues(in_.nodes)|;
    var names, more := NodesNames(in_.nodes), RelsNames(in_.rels);
    var same := if in_.allowSameNode then [] else AllDifferent(in_.nodes, |in_.nodes|);
    NodesCondsWithin(in_.nodes);
    AllDifferentWithin(in_.nodes, |in_.nodes|, k);
    TextsWithin([], k, names);
    WithinThen(NodesConds(in_.nodes), AND, same, 0, k, k, names, names);
    RelsCondsWithin(in_.rels, k);
    WithinThen(Then(NodesConds(in_.nodes), AND, same), AND, RelsConds(in_.rels, k), 0, k, k + |RelsValues(in_.rels)|, names + names, more);
    WithinMore(PatternConds(in_), 0, k + |RelsValues(in_.rels)|, names + names + more, MatchNames(in_));
  }

  lemma MatchWithin(in_: Input)
    requires InputOk(in_)
    ensures Within(MatchTokens(in_), 0, |NodesValues(in_.nodes)| + |RelsValues(in_.rels)|, MatchNames(in_))
  {
    hide PatternConds, Within, OpenEnd, Arrows, Where, NodesValues, RelsValues, DistinctAliases, Connected, PatternNodeOk,
      PatternRelOk;
    var names, k := MatchNames(in_), |NodesValues(in_.nodes)| + |RelsValues(in_.rels)|;
    var patterns := if in_.rels == [] then [Text(OPEN), Name(in_.nodes[0].alias), Text(CLOSE)] else Arrows(in_.rels);
    TextsWithin([Text(MATCH)], 0, names);
    PatternsWithin(in_);
    PatternCondsWithin(in_);
    WithinConcat([Text(MATCH)], patterns, 0, 0, 0, names);
    WhereWithin(PatternConds(in_), k, names);
    WithinConcat([Text(MATCH)] + patterns, Where(PatternConds(in_)), 0, 0, k, names);
  }

  lemma WhereWithin(conds: seq<Token>, k: nat, names: set<string>)
    requires Within(conds, 0, k, names)
    ensures Within(Where(conds), 0, k, names) && (Where(conds) != [] ==> !Where(conds)[0].Text?)
  {
    WhereEmits(conds);
  }

  lemma PatternsWithin(in_: Input)
    requires in_.nodes != []
    ensures Within(if in_.rels == [] then [Text(OPEN), Name(in_.nodes[0].alias), Text(CLOSE)] else Arrows(in_.rels), 0, 0, MatchNames(in_))
  {
    hide Arrows, WellFormed, NodesNames, RelsNames;
    ArrowsWithin(in_.rels);
    NodesNamesHolds(in_.nodes, 0);
    EndEmits(in_.nodes[0].alias);
  }

  lemma RowsWithin(in_: Input, match_: seq<Token>, k: nat)
    requires Within(match_, 0, k, PatternNames(in_))
    ensures Within(RowsTokens(in_, match_, Param(k)), 0, k + 1, PatternNames(in_))
  {
    hide Within, OpenEnd, NodeEntries, RelEntries, NodesNames, RelsNames;
    var names := PatternNames(in_);
    var entries, rels := NodeEntries(in_.nodes, in_.returnProperties), RelEntries(|in_.rels|);
    GapWithin(RETURN_NODES, k, names);
    NodeEntriesWithin(in_.nodes, in_.returnProperties, k);
    WithinMore(entries, k, k, NodesNames(in_.nodes) + (set p | p in in_.returnProperties), names);
    TextsWithin([Text(AS_NODES)], k, names);
    RelEntriesWithin(|in_.rels|, k, names);
    RowsEndWithin(k, names);
    WithinConcat(match_, [Between(RETURN_NODES)], 0, k, k, names);
    WithinConcat(match_ + [Between(RETURN_NODES)], entries, 0, k, k, names);
    WithinConcat(match_ + [Between(RETURN_NODES)] + entries, [Text(AS_NODES)], 0, k, k, names);
    WithinConcat(match_ + [Between(RETURN_NODES)] + entries + [Text(AS_NODES)], rels, 0, k, k, names);
    WithinConcat(match_ + [Between(RETURN_NODES)] + entries + [Text(AS_NODES)] + rels, [Text(AS_RELS), Param(k)], 0, k, k + 1, names);
  }

  lemma RowsEndWithin(k: nat, names: set<string>)
    ensures Within([Text(AS_RELS), Param(k)], k, k + 1, names)
  {
    var end := [Text(AS_RELS), Param(k)];
    assert end[1] == Param(k);
    assert Params(end) == {k} == Range(k, k + 1);
  }

  lemma NamesIn(ts: seq<Token>, k: nat, names: set<string>)
    requires Within(ts, 0, k, names)
    ensures forall n :: n in Names(ts) ==> n in names
  {
  }

  lemma ExistsWithin(match_: seq<Token>, k: nat, names: set<string>)
    requires Within(match_, 0, k, names)
    ensures Within(ExistsTokens(match_), 0, k, set n | n in names :: Indent(n))
  {
    hide IndentTokens, Indent, WellFormed, Params, Names, OpenEnd;
    var indented := set n | n in names :: Indent(n);
    IndentEmits(match_);
    assert forall n :: n in Names(match_) ==> n in names by { NamesIn(match_, k, names); }
    TextsWithin([Text(EXISTS)], 0, indented);
    GapWithin(AS_EXISTS, k, indented);
    WithinConcat([Text(EXISTS)], IndentTokens(match_), 0, 0, k, indented);
    WithinConcat([Text(EXISTS)] + IndentTokens(match_), [Between(AS_EXISTS)], 0, k, k, indented);
  }

  // The exists query is the re-indented match between its two fixed ends.
  lemma ExistsRenders(match_: seq<Token>)
    ensures Render(ExistsTokens(match_)) == EXISTS + Indent(Render(match_)) + AS_EXISTS
  {
    hide Indent, IndentTokens;
    IndentTokensRender(match_);
    RenderConcat([Text(EXISTS)] + IndentTokens(match_), [Between(AS_EXISTS)]);
    RenderConcat([Text(EXISTS)], IndentTokens(match_));
    assert [Text(EXISTS)][1..] == [] && [Between(AS_EXISTS)][1..] == [];
    assert Render([Text(EXISTS)]) == EXISTS + Render([]) && Render([Between(AS_EXISTS)]) == AS_EXISTS + Render([]);
  }

  lemma PatternTextWithin(in_: Input)
    requires InputOk(in_)
    ensures Within(PatternText(in_), 0, |PatternValues(in_)|, QuotedNames(in_))
  {
    hide MatchTokens, Within, RowsTokens, ExistsTokens, NodesValues, RelsValues, NodesNames, RelsNames, DistinctAliases,
      Connected, PatternNodeOk, PatternRelOk, Indent, MatchNames;
    var k := |NodesValues(in_.nodes)| + |RelsValues(in_.rels)|;
    MatchWithin(in_);
    match ModeOf(in_.mode)
    case Rows =>
      WithinMore(MatchTokens(in_), 0, k, MatchNames(in_), PatternNames(in_));
      RowsWithin(in_, MatchTokens(in_), k);
    case Count => CountWithin(MatchTokens(in_), k, MatchNames(in_));
    case Exists => ExistsWithin(MatchTokens(in_), k, MatchNames(in_));
  }

  lemma CountWithin(match_: seq<Token>, k: nat, names: set<string>)
    requires Within(match_, 0, k, names)
    ensures Within(match_ + [Between(RETURN_COUNT)], 0, k, names)
  {
    GapWithin(RETURN_COUNT, k, names);
    WithinConcat(match_, [Between(RETURN_COUNT)], 0, k, k, names);
  }

  // ---------------------------------------------------------------- nothing is left out

  lemma NamesConcat(a: seq<Token>, b: seq<Token>)
    ensures Names(a + b) == Names(a) + Names(b)
  {
  }

  lemma ThenNames(a: seq<Token>, sep: Gap, b: seq<Token>)
    ensures Names(Then(a, sep, b)) == Names(a) + Names(b)
  {
    var link: seq<Token> := [Between(sep)];
    assert Names(link) == {};
    NamesConcat(a, link);
    NamesConcat(a + link, b);
  }

  function AliasSet(nodes: seq<PatternNode>): set<string> {
    set n | n in nodes :: n.alias
  }

  lemma NodeCondsCover(n: PatternNode, k: nat)
    requires PatternNodeOk(n)
    ensures RefNames(n.ref) <= Names(NodeCondsOf(n, k)) + {n.alias}
  {
    hide CriteriaConds, CriteriaValues, CriteriaNames, LabelTokens, AnyBlank, Then;
    var v := [Name(n.alias)];
    var labels: seq<Token> := if n.ref.labels == [] then [] else v + LabelTokens(n.ref.labels, AMP);
    assert v[0] == Name(n.alias) && Names(v) == {n.alias};
    LabelTokensEmit(n.ref.labels, AMP);
    NamesConcat(v, LabelTokens(n.ref.labels, AMP));
    CriteriaEmit(n.ref.criteria, v, k);
    ThenNames(labels, AND, CriteriaConds(n.ref.criteria, v, k));
  }

  lemma {:induction false} NodesCondsCover(nodes: seq<PatternNode>)
    requires forall i :: 0 <= i < |nodes| ==> PatternNodeOk(nodes[i])
    ensures NodesNames(nodes) <= Names(NodesConds(nodes)) + AliasSet(nodes)
  {
    hide PatternNodeOk, RefNames, CriteriaValues, Then, NodeCondsOf, Names;
    if nodes != [] {
      var before, n := nodes[..|nodes| - 1], nodes[|nodes| - 1];
      NodesCondsCover(before);
      NodeCondsCover(n, |NodesValues(before)|);
      ThenNames(NodesConds(before), AND, NodeCondsOf(n, |NodesValues(before)|));
      assert forall x :: x in nodes <==> x in before || x == n;
    }
  }

  lemma RelCondsCover(r: PatternRel, i: nat, k: nat)
    requires PatternRelOk(r)
    ensures RelNamesOf(r) <= {r.from, r.to} + (set t | t in r.types) + Names(RelCondsOf(r, i, k))
  {
    hide MatchConds, FilterConds, EntryNames, FilterNames, EntryValues, FilterValues, Then, Indexed, EntriesOk, FiltersOk,
      AnyBlank;
    var v: seq<Token> := [Text(Indexed(R, i))];
    OnPlainText(v);
    MatchCondsEmit(v, r.entries, k);
    FilterCondsEmit(v, r.filters, k + |EntryValues(r.entries)|);
    ThenNames(MatchConds(v, r.entries, k), AND, FilterConds(v, r.filters, k + |EntryValues(r.entries)|));
  }

  lemma {:induction false} RelsCover(rels: seq<PatternRel>, k: nat)
    requires forall i :: 0 <= i < |rels| ==> PatternRelOk(rels[i])
    ensures RelsNames(rels) <= Names(Arrows(rels)) + Names(RelsConds(rels, k))
    ensures forall r :: r in rels ==> r.from in Names(Arrows(rels)) && r.to in Names(Arrows(rels))
  {
    hide PatternRelOk, RelNamesOf, RelValuesOf, Then, RelCondsOf, Arrow, Names, WellFormed, Params;
    if rels != [] {
      var before, r, last := rels[..|rels| - 1], rels[|rels| - 1], |rels| - 1;
      RelsCover(before, k);
      RelCondsCover(r, last, k + |RelsValues(before)|);
      ArrowEmits(r, last);
      ThenNames(Arrows(before), COMMA, Arrow(r, last));
      ThenNames(RelsConds(before, k), AND, RelCondsOf(r, last, k + |RelsValues(before)|));
      assert forall x :: x in rels <==> x in before || x == r;
    }
  }

  // A node either stands alone or, the pattern being connected, is the end of some
  // relationship: its alias is in the pattern.
  lemma AliasInArrows(in_: Input, m: nat)
    requires InputOk(in_) && in_.rels != [] && m < |in_.nodes|
    ensures in_.nodes[m].alias in Names(Arrows(in_.rels))
  {
    hide C.CheckSpec, C.TableFor, Names, Arrows, DistinctAliases, PatternNodeOk, RelsNames, RelsConds;
    var aliases, links := Aliases(in_.nodes), Links(in_.rels);
    var table :| C.TableFor(table, aliases) && C.CheckSpec(aliases, links, table, C.Connects);
    C.EveryNodeHasRel(aliases, links, table, m);
    var link :| link in links && (link.from == aliases[m] || link.to == aliases[m]);
    var i :| 0 <= i < |links| && links[i] == link;
    assert in_.rels[i] in in_.rels;
    RelsCover(in_.rels, 0);
  }

  lemma AliasesInPattern(in_: Input)
    requires InputOk(in_)
    ensures AliasSet(in_.nodes) <= Names(EndsAndArrows(in_))
  {
    hide Names, Arrows, Connected, DistinctAliases, PatternNodeOk, PatternRelOk;
    forall n | n in in_.nodes ensures n.alias in Names(EndsAndArrows(in_)) {
      var m :| 0 <= m < |in_.nodes| && in_.nodes[m] == n;
      if in_.rels == [] {
        AloneWithoutRels(in_);
        EndEmits(in_.nodes[0].alias);
      } else {
        AliasInArrows(in_, m);
      }
    }
  }

  lemma AloneWithoutRels(in_: Input)
    requires InputOk(in_) && in_.rels == []
    ensures |in_.nodes| == 1
  {
    hide DistinctAliases, PatternNodeOk;
    var aliases, links := Aliases(in_.nodes), Links(in_.rels);
    var table :| C.TableFor(table, aliases) && C.CheckSpec(aliases, links, table, C.Connects);
    if |in_.nodes| > 1 {
      assert C.Joined(C.Edges(links, table), 0, 1);
      C.JoinedEndsInEdge(C.Edges(links, table), 0, 1);
    }
  }

  // The match quotes every alias, label, type and property the caller named.
  lemma MatchCovers(in_: Input)
    requires InputOk(in_)
    ensures Names(MatchTokens(in_)) == MatchNames(in_)
  {
    hide Connected, DistinctAliases, PatternNodeOk, PatternRelOk, NodesConds, RelsConds, Arrows, AllDifferent, Then, Where,
      NodesNames, RelsNames, Names, NodesValues, RelsValues;
    var k := |NodesValues(in_.nodes)|;
    var same := if in_.allowSameNode then [] else AllDifferent(in_.nodes, |in_.nodes|);
    NodesCondsCover(in_.nodes);
    RelsCover(in_.rels, k);
    AliasesInPattern(in_);
    ThenNames(NodesConds(in_.nodes), AND, same);
    ThenNames(Then(NodesConds(in_.nodes), AND, same), AND, RelsConds(in_.rels, k));
    WhereNames(PatternConds(in_));
    NamesConcat([Text(MATCH)], EndsAndArrows(in_));
    NamesConcat([Text(MATCH)] + EndsAndArrows(in_), Where(PatternConds(in_)));
    assert NodesNames(in_.nodes) + RelsNames(in_.rels) <= Names(MatchTokens(in_)) by { NoRelsNoNames(in_.rels); }
    MatchWithin(in_);
    NamesIn(MatchTokens(in_), |NodesValues(in_.nodes)| + |RelsValues(in_.rels)|, MatchNames(in_));
  }

  lemma NoRelsNoNames(rels: seq<PatternRel>)
    ensures rels == [] ==> RelsNames(rels) == {}
  {
  }

  lemma WhereNames(conds: seq<Token>)
    ensures Names(Where(conds)) == Names(conds)
  {
    var head: seq<Token> := [Between(WHERE)];
    assert Names(head) == {};
    NamesConcat(head, conds);
  }

  lemma PropsInEntries(nodes: seq<PatternNode>, props: seq<string>)
    requires nodes != []
    ensures (set p | p in props) <= Names(NodeEntries(nodes, props))
  {
    hide NodeMap, Then;
    var n := nodes[|nodes| - 1];
    var head: seq<Token> := [Name(n.alias), Text(ENTRY)];
    NodeMapEmits(Name(n.alias), props);
    NamesConcat(head, NodeMap(Name(n.alias), props));
    ThenNames(NodeEntries(nodes[..|nodes| - 1], props), COMMA, NodeEntry(n, props));
  }

  lemma RowsCover(in_: Input, match_: seq<Token>, limit: Token)
    requires in_.nodes != []
    ensures Names(match_) + (set p | p in in_.returnProperties) <= Names(RowsTokens(in_, match_, limit))
  {
    hide NodeEntries, RelEntries;
    var entries, rels := NodeEntries(in_.nodes, in_.returnProperties), RelEntries(|in_.rels|);
    PropsInEntries(in_.nodes, in_.returnProperties);
    NamesConcat(match_ + [Between(RETURN_NODES)], entries);
    NamesConcat(match_ + [Between(RETURN_NODES)] + entries, [Text(AS_NODES)] + rels + [Text(AS_RELS), limit]);
    NamesConcat(match_, [Between(RETURN_NODES)]);
    var ends := [Text(AS_NODES)] + rels + [Text(AS_RELS), limit];
    assert RowsTokens(in_, match_, limit) == match_ + [Between(RETURN_NODES)] + entries + ends;
  }

  // Every query quotes exactly the names of its mode.
  lemma PatternTextNames(in_: Input)
    requires InputOk(in_)
    ensures Names(PatternText(in_)) == QuotedNames(in_)
  {
    hide MatchTokens, RowsTokens, IndentTokens, Within, NodesValues, RelsValues, DistinctAliases, Connected, PatternNodeOk,
      PatternRelOk, Indent, MatchNames, Names;
    MatchCovers(in_);
    PatternTextWithin(in_);
    NamesIn(PatternText(in_), |PatternValues(in_)|, QuotedNames(in_));
    match ModeOf(in_.mode)
    case Rows =>
      RowsCover(in_, MatchTokens(in_), Param(|NodesValues(in_.nodes) + RelsValues(in_.rels)|));
      assert QuotedNames(in_) <= Names(PatternText(in_));
    case Count => NamesConcat(MatchTokens(in_), [Between(RETURN_COUNT)]);
    case Exists => ExistsNames(in_);
  }

  lemma ExistsNames(in_: Input)
    requires InputOk(in_)
    ensures Names(ExistsTokens(MatchTokens(in_))) == set n | n in MatchNames(in_) :: Indent(n)
  {
    hide MatchTokens, NodesValues, RelsValues, DistinctAliases, Connected, PatternNodeOk, PatternRelOk, Indent, MatchNames,
      Names, IndentTokens;
    var ts := MatchTokens(in_);
    MatchCovers(in_);
    MatchWithin(in_);
    IndentEmits(ts);
    NamesConcat([Text(EXISTS)], IndentTokens(ts));
    NamesConcat([Text(EXISTS)] + IndentTokens(ts), [Between(AS_EXISTS)]);
    FixedNames();
  }

  lemma FixedNames()
    ensures Names([Text(EXISTS)]) == {} && Names([Between(AS_EXISTS)]) == {}
  {
  }

  // ---------------------------------------------------------------- the match read back

  // What is asked of a node: its labels and its criteria.
  function NodeAsked(n: PatternNode): seq<Cond> {
    (if n.ref.labels == [] then [] else [HasLabels(Name(n.alias), n.ref.labels)]) + Wanted(n.ref.criteria, Name(n.alias))
  }

  function NodesAsked(nodes: seq<PatternNode>): seq<Cond> {
    if nodes == [] then [] else NodesAsked(nodes[..|nodes| - 1]) + NodeAsked(nodes[|nodes| - 1])
  }

  // Each of the first i nodes is another than every later one before node j.
  function PairsAsked(nodes: seq<PatternNode>, i: nat): seq<Cond>
    requires i <= |nodes|
  {
    if i == 0 then [] else PairsAsked(nodes, i - 1) + RowAsked(nodes, i - 1, |nodes|)
  }

  function RowAsked(nodes: seq<PatternNode>, i: nat, j: nat): seq<Cond>
    requires i < |nodes| && j <= |nodes|
  {
    if j <= i + 1 then [] else RowAsked(nodes, i, j - 1) + [Differ(Name(nodes[i].alias), Name(nodes[j - 1].alias))]
  }

  function RelAsked(r: PatternRel, i: nat): seq<Cond> {
    WantedMatches(r.entries, Text(Indexed("r", i))) + WantedFilters(r.filters, Text(Indexed("r", i)))
  }

  function RelsAsked(rels: seq<PatternRel>): seq<Cond> {
    if rels == [] then [] else RelsAsked(rels[..|rels| - 1]) + RelAsked(rels[|rels| - 1], |rels| - 1)
  }

  function Asked(in_: Input): seq<Cond> {
    NodesAsked(in_.nodes) + (if in_.allowSameNode then [] else PairsAsked(in_.nodes, |in_.nodes|)) + RelsAsked(in_.rels)
  }

  // Each relationship stands between its two ends, with an arrow head at `to` unless
  // it is undirected.
  function RelParts(r: PatternRel, i: nat): seq<Part> {
    [NodePart(Name(r.from), Some([]), []), LinkPart(Text(Indexed("r", i)), Some(r.types), false, !r.undirected),
     NodePart(Name(r.to), Some([]), [])]
  }

  function RelsParts(rels: seq<PatternRel>): seq<Part> {
    if rels == [] then [] else RelsParts(rels[..|rels| - 1]) + RelParts(rels[|rels| - 1], |rels| - 1)
  }

  function PartsAsked(in_: Input): seq<Part>
    requires in_.nodes != []
  {
    if in_.rels == [] then [NodePart(Name(in_.nodes[0].alias), Some([]), [])] else RelsParts(in_.rels)
  }

  // The query's match clause says that, in exists mode once the indentation is undone.
  ghost predicate Asks(q: Query, in_: Input)
    requires in_.nodes != []
  {
    if in_.mode == "exists" then
      && |q.text| >= 2 && WordOf(q.text[0]) == "RETURN EXISTS " + "{\n  " && WordOf(q.text[|q.text| - 1]) == "\n} AS exists"
      && exists m :: q.text[1..|q.text| - 1] == IndentTokens(m) && ReadMatch(m, q.params) == Clause(PartsAsked(in_), Asked(in_))
    else ReadMatch(q.text, q.params) == Clause(PartsAsked(in_), Asked(in_))
  }

  // Each node under its alias.
  function NodesShown(nodes: seq<PatternNode>, props: seq<string>): (r: seq<Keyed>)
    ensures |r| == |nodes|
  {
    seq(|nodes|, i requires 0 <= i < |nodes| =>
      Keyed(nodes[i].alias, NodeShown(Name(nodes[i].alias), if props == [] then All else Only(props))))
  }

  function RelsShown(k: nat): (r: seq<Shown>)
    ensures |r| == k
  {
    seq(k, i requires 0 <= i < k => RelShown(Text(Indexed("r", i)), Hidden))
  }

  // The line behind the match returns the nodes, up to its token i, and the relationships.
  ghost predicate ReturnsAt(rest: seq<Token>, i: nat, in_: Input) {
    && 1 <= i < |rest| - 2
    && WordOf(rest[0]) == "\nRETURN {" && WordOf(rest[i]) == "} AS nodes, ["
    && WordOf(rest[|rest| - 2]) == "] AS " + ("relationships\n" + "LIMIT ")
    && ReadEntries(rest[1..i]) == NodesShown(in_.nodes, in_.returnProperties)
    && ReadMaps(rest[i + 1..|rest| - 2]) == RelsShown(|in_.rels|)
  }

  // What is returned: the rows up to the limit, or their number.
  ghost predicate Returns(q: Query, in_: Input) {
    && (in_.mode == "" || in_.mode == "rows" ==>
          (exists i: nat :: ReturnsAt(Behind(q.text), i, in_)) && Limited(q, if in_.limit == 0 then 25 else in_.limit))
    && (in_.mode == "count" ==>
          |Behind(q.text)| == 1 && WordOf(Behind(q.text)[0]) == "\nRETURN " + ("count(*) AS " + "count"))
  }

  lemma EntryRead(n: PatternNode, props: seq<string>)
    ensures OneMap(NodeEntry(n, props))
    ensures ReadEntry(NodeEntry(n, props)) == Keyed(n.alias, NodeShown(Name(n.alias), if props == [] then All else Only(props)))
  {
    hide NodeMap, ReadShown, OneMap;
    var head: seq<Token>, m := [Name(n.alias), Text(ENTRY)], NodeMap(Name(n.alias), props);
    NodeMapRead(Name(n.alias), props);
    KeyedMap(head, m);
    MapsAreLong(m);
    assert (head + m)[2..] == m;
  }

  lemma MapsAreLong(m: seq<Token>)
    requires OneMap(m)
    ensures m != []
  {
  }

  lemma {:induction false} NodeEntriesRead(nodes: seq<PatternNode>, props: seq<string>) returns (maps: seq<seq<Token>>)
    ensures Cut(Maps([], []), NodeEntries(nodes, props)) == Maps(maps, []) && |maps| == |nodes|
    ensures forall i :: 0 <= i < |nodes| ==> ReadEntry(maps[i]) == NodesShown(nodes, props)[i]
    ensures (NodeEntries(nodes, props) == []) == (nodes == [])
  {
    hide NodeEntry, OneMap, ReadEntry, Cut;
    if nodes == [] {
      maps := [];
      NothingCut();
    } else {
      var before, last := nodes[..|nodes| - 1], nodes[|nodes| - 1];
      var most := NodeEntriesRead(before, props);
      EntryRead(last, props);
      MapsAreLong(NodeEntry(last, props));
      maps := most + [NodeEntry(last, props)];
      if before == [] {
        CutMap([], NodeEntry(last, props));
      } else {
        CutMore(NodeEntries(before, props), most, NodeEntry(last, props));
      }
    }
  }

  lemma NothingCut()
    ensures Cut(Maps([], []), []) == Maps([], [])
  {
  }

  lemma {:induction false} RelEntriesRead(k: nat) returns (maps: seq<seq<Token>>)
    ensures Cut(Maps([], []), RelEntries(k)) == Maps(maps, []) && |maps| == k
    ensures forall i :: 0 <= i < k ==> ReadShown(maps[i]) == RelsShown(k)[i]
    ensures (RelEntries(k) == []) == (k == 0)
  {
    hide RelSummary, OneMap, ReadShown, Cut, Indexed;
    if k == 0 {
      maps := [];
      NothingCut();
    } else {
      var most := RelEntriesRead(k - 1);
      var v := Indexed(R, k - 1);
      IndexedIsPlain(k - 1);
      RelSummaryRead(v);
      MapsAreLong(RelSummary(v));
      maps := most + [RelSummary(v)];
      if k == 1 {
        CutMap([], RelSummary(v));
      } else {
        CutMore(RelEntries(k - 1), most, RelSummary(v));
      }
    }
  }

  lemma IndexedIsPlain(i: nat)
    ensures PlainVariable(Text(Indexed(R, i)))
  {
    assert Indexed(R, i)[0] == 'r';
  }

  lemma RowsReturned(in_: Input, rest: seq<Token>, limit: Token)
    requires rest == RowsTail(in_, limit)
    ensures exists i: nat :: ReturnsAt(rest, i, in_)
  {
    hide NodeEntries, RelEntries, Cut, ReadEntry, ReadShown;
    var a, b := NodeEntries(in_.nodes, in_.returnProperties), RelEntries(|in_.rels|);
    var nodes := NodeEntriesRead(in_.nodes, in_.returnProperties);
    var rels := RelEntriesRead(|in_.rels|);
    var i := 1 + |a|;
    assert rest[1..i] == a && rest[i] == Text(AS_NODES) && rest[i + 1..|rest| - 2] == b && rest[|rest| - 2] == Text(AS_RELS);
    assert ReadEntries(a) == NodesShown(in_.nodes, in_.returnProperties);
    assert ReadMaps(b) == RelsShown(|in_.rels|);
    RowsTexts();
    assert ReturnsAt(rest, i, in_);
  }

  lemma RowsTexts()
    ensures RETURN_NODES == "\nRETURN {" && AS_NODES == "} AS nodes, [" && AS_RELS == "] AS " + ("relationships\n" + "LIMIT ")
    ensures |AS_RELS| >= 6 && AS_RELS[|AS_RELS| - 6..] == "LIMIT "
  {
    assert AS_RELS == "] AS " + "relationships\n" + "LIMIT ";
  }

  // Relationship i with its ends is at this place of the pattern.
  lemma {:induction false} RelPartsAt(rels: seq<PatternRel>, i: nat)
    requires i < |rels|
    ensures |RelsParts(rels)| == 3 * |rels| && RelsParts(rels)[3 * i..3 * i + 3] == RelParts(rels[i], i)
  {
    var before, last := rels[..|rels| - 1], |rels| - 1;
    if i < last {
      RelPartsAt(before, i);
      assert RelsParts(rels)[3 * i..3 * i + 3] == RelsParts(before)[3 * i..3 * i + 3];
    } else {
      RelsPartsLength(before);
    }
  }

  lemma {:induction false} RelsPartsLength(rels: seq<PatternRel>)
    ensures |RelsParts(rels)| == 3 * |rels|
  {
    if rels != [] {
      RelsPartsLength(rels[..|rels| - 1]);
    }
  }

  ghost predicate NoneDiffer(conds: seq<Cond>) {
    forall c :: c in conds ==> !c.Differ?
  }

  lemma {:induction false} NodesNoneDiffer(nodes: seq<PatternNode>)
    ensures NoneDiffer(NodesAsked(nodes))
  {
    if nodes != [] {
      NodesNoneDiffer(nodes[..|nodes| - 1]);
    }
  }

  lemma {:induction false} RelsNoneDiffer(rels: seq<PatternRel>)
    ensures NoneDiffer(RelsAsked(rels))
  {
    hide Indexed;
    if rels != [] {
      RelsNoneDiffer(rels[..|rels| - 1]);
    }
  }

  // `c` says that node i is another than node j.
  ghost predicate SetsApart(c: Cond, nodes: seq<PatternNode>, i: nat, j: nat)
    requires i < |nodes| && j < |nodes|
  {
    c == Differ(Name(nodes[i].alias), Name(nodes[j].alias))
  }

  lemma {:induction false} RowAskedIff(nodes: seq<PatternNode>, i: nat, j: nat, c: Cond)
    requires i < |nodes| && j <= |nodes|
    ensures c in RowAsked(nodes, i, j) <==> exists k :: i < k < j && SetsApart(c, nodes, i, k)
  {
    if j > i + 1 {
      RowAskedIff(nodes, i, j - 1, c);
      assert SetsApart(c, nodes, i, j - 1) ==> i < j - 1 < j;
    }
  }

  lemma {:induction false} PairsAskedIff(nodes: seq<PatternNode>, upTo: nat, c: Cond)
    requires upTo <= |nodes|
    ensures c in PairsAsked(nodes, upTo) <==> exists i, j :: 0 <= i < upTo && i < j < |nodes| && SetsApart(c, nodes, i, j)
  {
    hide SetsApart, RowAsked;
    if upTo > 0 {
      PairsAskedIff(nodes, upTo - 1, c);
      RowAskedIff(nodes, upTo - 1, |nodes|, c);
      var i := upTo - 1;
      if k :| i < k < |nodes| && SetsApart(c, nodes, i, k) {
        assert 0 <= i < upTo;
      }
    }
  }

  // Two nodes are asked to differ exactly when the caller does not allow them to be
  // one node: each pair, and nothing else.
  lemma DifferAskedIff(in_: Input, c: Cond)
    requires c.Differ?
    ensures c in Asked(in_) <==>
      (!in_.allowSameNode && exists i, j :: 0 <= i < j < |in_.nodes| && SetsApart(c, in_.nodes, i, j))
  {
    NodesNoneDiffer(in_.nodes);
    RelsNoneDiffer(in_.rels);
    PairsAskedIff(in_.nodes, |in_.nodes|, c);
  }

  lemma LabelCondRead(n: PatternNode, params: map<string, Value>)
    ensures var cond := if n.ref.labels == [] then [] else [Name(n.alias)] + LabelTokens(n.ref.labels, AMP);
      && ReadConds(cond, params) == (if n.ref.labels == [] then [] else [HasLabels(Name(n.alias), n.ref.labels)])
      && Inner(cond)
  {
    hide ReadConds, NameList, Listed;
    if n.ref.labels == [] {
      NoConds(params);
    } else {
      var labels := LabelTokens(n.ref.labels, AMP);
      var cond := [Name(n.alias)] + labels;
      LabelTokensPlain(n.ref.labels, AMP);
      LabelsRead(n.ref.labels, AMP);
      NameListRead(n.ref.labels, AMP);
      OneCond(cond, params);
      assert cond[1..] == labels && cond[1] == Text(":");
      assert labels == [Text(":")] + NameList(n.ref.labels, AMP);
      assert NameList(n.ref.labels, AMP) != [] by { NamesListed(n.ref.labels); }
    }
  }

  lemma NamesListed(names: seq<string>)
    requires names != []
    ensures NameList(names, AMP) != []
  {
  }

  lemma NodeCondsRead(n: PatternNode, k: nat, params: map<string, Value>)
    requires PatternNodeOk(n) && Gives(params, k, CriteriaValues(n.ref.criteria))
    ensures ReadConds(NodeCondsOf(n, k), params) == NodeAsked(n) && Inner(NodeCondsOf(n, k))
  {
    hide ReadConds, CriteriaConds, CriteriaValues, CriteriaOk, LabelTokens, Inner, Gives, Wanted, AnyBlank;
    var labels := if n.ref.labels == [] then [] else [Name(n.alias)] + LabelTokens(n.ref.labels, AMP);
    LabelCondRead(n, params);
    CriteriaRead(n.ref.criteria, Name(n.alias), k, params);
    ReadAndThen(labels, CriteriaConds(n.ref.criteria, [Name(n.alias)], k), params);
    AndInner(labels, CriteriaConds(n.ref.criteria, [Name(n.alias)], k));
  }

  lemma {:induction false} NodesCondsRead(nodes: seq<PatternNode>, params: map<string, Value>)
    requires (forall i :: 0 <= i < |nodes| ==> PatternNodeOk(nodes[i])) && Gives(params, 0, NodesValues(nodes))
    ensures ReadConds(NodesConds(nodes), params) == NodesAsked(nodes) && Inner(NodesConds(nodes))
  {
    hide ReadConds, PatternNodeOk, CriteriaValues, NodeCondsOf, NodeAsked, Inner, Gives, Then;
    if nodes == [] {
      NoConds(params);
      NothingInner();
    } else {
      var before, n := nodes[..|nodes| - 1], nodes[|nodes| - 1];
      var k := |NodesValues(before)|;
      GivesJoin(params, 0, NodesValues(before), CriteriaValues(n.ref.criteria));
      NodesCondsRead(before, params);
      NodeCondsRead(n, k, params);
      ReadAndThen(NodesConds(before), NodeCondsOf(n, k), params);
      AndInner(NodesConds(before), NodeCondsOf(n, k));
    }
  }

  lemma DifferentRead(m: PatternNode, n: PatternNode, params: map<string, Value>)
    ensures ReadConds(Different(m, n), params) == [Differ(Name(m.alias), Name(n.alias))] && Inner(Different(m, n))
  {
    hide ReadConds;
    OneCond(Different(m, n), params);
  }

  lemma {:induction false} RowRead(nodes: seq<PatternNode>, i: nat, j: nat, params: map<string, Value>)
    requires i < |nodes| && j <= |nodes|
    ensures ReadConds(DifferentFrom(nodes, i, j), params) == RowAsked(nodes, i, j) && Inner(DifferentFrom(nodes, i, j))
  {
    hide ReadConds, Different, Inner, Then;
    if j <= i + 1 {
      NoConds(params);
      NothingInner();
    } else {
      RowRead(nodes, i, j - 1, params);
      DifferentRead(nodes[i], nodes[j - 1], params);
      ReadAndThen(DifferentFrom(nodes, i, j - 1), Different(nodes[i], nodes[j - 1]), params);
      AndInner(DifferentFrom(nodes, i, j - 1), Different(nodes[i], nodes[j - 1]));
    }
  }

  lemma {:induction false} PairsRead(nodes: seq<PatternNode>, i: nat, params: map<string, Value>)
    requires i <= |nodes|
    ensures ReadConds(AllDifferent(nodes, i), params) == PairsAsked(nodes, i) && Inner(AllDifferent(nodes, i))
  {
    hide ReadConds, DifferentFrom, RowAsked, Inner, Then;
    if i == 0 {
      NoConds(params);
      NothingInner();
    } else {
      PairsRead(nodes, i - 1, params);
      RowRead(nodes, i - 1, |nodes|, params);
      ReadAndThen(AllDifferent(nodes, i - 1), DifferentFrom(nodes, i - 1, |nodes|), params);
      AndInner(AllDifferent(nodes, i - 1), DifferentFrom(nodes, i - 1, |nodes|));
    }
  }

  lemma RelVariable(i: nat)
    ensures IsVariable(Text(Indexed(R, i)))
  {
    assert Indexed(R, i)[0] == 'r';
  }

  lemma RelCondsOfRead(r: PatternRel, i: nat, k: nat, params: map<string, Value>)
    requires PatternRelOk(r) && Gives(params, k, RelValuesOf(r))
    ensures ReadConds(RelCondsOf(r, i, k), params) == RelAsked(r, i) && Inner(RelCondsOf(r, i, k))
  {
    hide ReadConds, MatchConds, FilterConds, EntryValues, FilterValues, EntriesOk, FiltersOk, WantedMatches, WantedFilters,
      Inner, Gives, Then, AnyBlank, Indexed;
    var v := Text(Indexed(R, i));
    var n := k + |EntryValues(r.entries)|;
    RelVariable(i);
    GivesJoin(params, k, EntryValues(r.entries), FilterValues(r.filters));
    MatchCondsRead(r.entries, v, k, params);
    FilterCondsRead(r.filters, v, n, params);
    ReadAndThen(MatchConds([v], r.entries, k), FilterConds([v], r.filters, n), params);
    AndInner(MatchConds([v], r.entries, k), FilterConds([v], r.filters, n));
  }

  lemma {:induction false} RelsCondsRead(rels: seq<PatternRel>, k: nat, params: map<string, Value>)
    requires (forall i :: 0 <= i < |rels| ==> PatternRelOk(rels[i])) && Gives(params, k, RelsValues(rels))
    ensures ReadConds(RelsConds(rels, k), params) == RelsAsked(rels) && Inner(RelsConds(rels, k))
  {
    hide ReadConds, PatternRelOk, RelValuesOf, RelCondsOf, RelAsked, Inner, Gives, Then;
    if rels == [] {
      NoConds(params);
      NothingInner();
    } else {
      var before, r, last := rels[..|rels| - 1], rels[|rels| - 1], |rels| - 1;
      var n := k + |RelsValues(before)|;
      GivesJoin(params, k, RelsValues(before), RelValuesOf(r));
      RelsCondsRead(before, k, params);
      RelCondsOfRead(r, last, n, params);
      ReadAndThen(RelsConds(before, k), RelCondsOf(r, last, n), params);
      AndInner(RelsConds(before, k), RelCondsOf(r, last, n));
    }
  }

  lemma PatternCondsRead(in_: Input, params: map<string, Value>)
    requires InputOk(in_) && Gives(params, 0, NodesValues(in_.nodes) + RelsValues(in_.rels))
    ensures ReadConds(PatternConds(in_), params) == Asked(in_) && Inner(PatternConds(in_))
  {
    hide ReadConds, NodesConds, AllDifferent, RelsConds, Then, PatternNodeOk, PatternRelOk, NodesValues, RelsValues,
      DistinctAliases, Connected, NodesAsked, PairsAsked, RelsAsked, Inner, Gives, ChainLimit;
    var k := |NodesValues(in_.nodes)|;
    var same := if in_.allowSameNode then [] else AllDifferent(in_.nodes, |in_.nodes|);
    GivesJoin(params, 0, NodesValues(in_.nodes), RelsValues(in_.rels));
    NodesCondsRead(in_.nodes, params);
    PairsRead(in_.nodes, |in_.nodes|, params);
    RelsCondsRead(in_.rels, k, params);
    NoConds(params);
    NothingInner();
    ReadAndThen(NodesConds(in_.nodes), same, params);
    AndInner(NodesConds(in_.nodes), same);
    ReadAndThen(Then(NodesConds(in_.nodes), AND, same), RelsConds(in_.rels, k), params);
    AndInner(Then(NodesConds(in_.nodes), AND, same), RelsConds(in_.rels, k));
  }

  function RelElementsOf(r: PatternRel, i: nat): seq<Element> {
    [NodeAt(Name(r.from), [], []), LinkAt(Text(Indexed(R, i)), LabelTokens(r.types, PIPE), false, !r.undirected), NodeAt(Name(r.to), [], [])]
  }

  function RelsElements(rels: seq<PatternRel>): seq<Element> {
    if rels == [] then [] else RelsElements(rels[..|rels| - 1]) + RelElementsOf(rels[|rels| - 1], |rels| - 1)
  }

  lemma EndSteps(done: seq<Element>, alias: string)
    ensures Steps(Scan(done, Outside), [Text(OPEN), Name(alias), Text(CLOSE)]) == Scan(done + [NodeAt(Name(alias), [], [])], Outside)
    ensures OneLine([Text(OPEN), Name(alias), Text(CLOSE)])
  {
    StepsOpen(done, Name(alias));
    StepsJoin(Scan(done, Outside), [Text(OPEN), Name(alias)], [Text(CLOSE)]);
    StepsClose(done, Name(alias), []);
    assert [Text(OPEN), Name(alias)] + [Text(CLOSE)] == [Text(OPEN), Name(alias), Text(CLOSE)];
  }

  lemma ArrowSteps(done: seq<Element>, r: PatternRel, i: nat)
    ensures Steps(Scan(done, Outside), Arrow(r, i)) == Scan(done + RelElementsOf(r, i), Outside)
    ensures OneLine(Arrow(r, i)) && Arrow(r, i) != []
  {
    hide Steps, LabelTokens, Indexed, OneLine, SingleRel;
    var es, direction := RelElementsOf(r, i), if r.undirected then Both else Outgoing;
    var from, to := [Text(OPEN), Name(r.from), Text(CLOSE)], [Text(OPEN), Name(r.to), Text(CLOSE)];
    assert SingleRel(direction, Indexed(R, i), LabelTokens(r.types, PIPE)).Done? by { ArrowGiven(r, i); }
    var link := SingleRel(direction, Indexed(R, i), LabelTokens(r.types, PIPE)).value;
    EndSteps(done, r.from);
    TypesEndNoLink(r.types);
    SingleRelSteps(done + [es[0]], direction, Indexed(R, i), LabelTokens(r.types, PIPE));
    EndSteps(done + [es[0]] + [es[1]], r.to);
    StepsJoin(Scan(done, Outside), from, link);
    StepsJoin(Scan(done, Outside), from + link, to);
    OneLineJoin(from, link);
    OneLineJoin(from + link, to);
    assert done + [es[0]] + [es[1]] + [es[2]] == done + es;
    assert Arrow(r, i) == from + link + to;
  }

  lemma ArrowGiven(r: PatternRel, i: nat)
    ensures SingleRel(if r.undirected then Both else Outgoing, Indexed(R, i), LabelTokens(r.types, PIPE)).Done?
  {
  }

  lemma TypesEndNoLink(types: seq<string>)
    ensures EndsNoLink(LabelTokens(types, PIPE)) && forall i :: 0 <= i < |LabelTokens(types, PIPE)| ==> !LabelTokens(types, PIPE)[i].Between?
  {
    LabelTokensPlain(types, PIPE);
  }

  lemma {:induction false} ArrowsSteps(rels: seq<PatternRel>)
    ensures Steps(Scan([], Outside), Arrows(rels)) == Scan(RelsElements(rels), Outside)
    ensures OneLine(Arrows(rels)) && (rels != [] ==> Arrows(rels) != [])
  {
    hide Steps, Arrow, OneLine, RelElementsOf;
    if rels == [] {
      NothingSteps(Scan([], Outside));
    } else {
      var before, r, last, start := rels[..|rels| - 1], rels[|rels| - 1], |rels| - 1, Scan([], Outside);
      ArrowsSteps(before);
      ArrowSteps(RelsElements(before), r, last);
      if before == [] {
        assert RelsElements(before) == [];
      } else {
        CommaSteps(RelsElements(before));
        StepsJoin(start, Arrows(before), [Between(COMMA)]);
        StepsJoin(start, Arrows(before) + [Between(COMMA)], Arrow(r, last));
        OneLineJoin(Arrows(before), [Between(COMMA)]);
        OneLineJoin(Arrows(before) + [Between(COMMA)], Arrow(r, last));
      }
    }
  }

  lemma NothingSteps(s: Scan)
    ensures Steps(s, []) == s && OneLine([])
  {
  }

  lemma CommaSteps(done: seq<Element>)
    ensures Steps(Scan(done, Outside), [Between(COMMA)]) == Scan(done, Outside) && OneLine([Between(COMMA)])
  {
    assert [Between(COMMA)][1..] == [];
  }

  lemma {:induction false} RelsElementsRead(rels: seq<PatternRel>, params: map<string, Value>)
    ensures ReadParts(RelsElements(rels), params) == RelsParts(rels)
  {
    hide Indexed, LabelTokens, ReadConds;
    if rels != [] {
      var before, r, last := rels[..|rels| - 1], rels[|rels| - 1], |rels| - 1;
      RelsElementsRead(before, params);
      LabelsRead(r.types, PIPE);
      NoConds(params);
      assert ReadParts(RelElementsOf(r, last), params) == RelParts(r, last);
      assert ReadParts(RelsElements(rels), params) == ReadParts(RelsElements(before), params) + ReadParts(RelElementsOf(r, last), params);
    }
  }

  lemma EndsAndArrowsSteps(in_: Input, params: map<string, Value>) returns (done: seq<Element>)
    requires in_.nodes != []
    ensures Steps(Scan([], Outside), [Text(MATCH)] + EndsAndArrows(in_)) == Scan(done, Outside)
    ensures OneLine([Text(MATCH)] + EndsAndArrows(in_)) && ReadParts(done, params) == PartsAsked(in_)
  {
    hide Steps, Arrows, OneLine, RelsElements, RelsParts, ReadConds;
    MatchWord(EndsAndArrows(in_));
    TextsOneLine([Text(MATCH)]);
    OneLineJoin([Text(MATCH)], EndsAndArrows(in_));
    if in_.rels == [] {
      done := [NodeAt(Name(in_.nodes[0].alias), [], [])];
      EndSteps([], in_.nodes[0].alias);
      assert [] + done == done;
      NoConds(params);
    } else {
      done := RelsElements(in_.rels);
      ArrowsSteps(in_.rels);
      RelsElementsRead(in_.rels, params);
    }
  }

  // The match, whatever line follows it.
  lemma MatchReadBack(in_: Input, rest: seq<Token>, params: map<string, Value>)
    requires InputOk(in_) && Gives(params, 0, NodesValues(in_.nodes) + RelsValues(in_.rels)) && (rest == [] || IsBreak(rest[0]))
    ensures ReadMatch(MatchTokens(in_) + rest, params) == Clause(PartsAsked(in_), Asked(in_))
    ensures OneLine(MatchTokens(in_))
  {
    hide ReadConds, PatternConds, EndsAndArrows, NodesValues, RelsValues, DistinctAliases, Connected, PatternNodeOk,
      PatternRelOk, Asked, PartsAsked, Inner, Gives, OneLine, Steps, ReadMatch, ReadParts, Where, IsBreak, ChainLimit;
    var done := EndsAndArrowsSteps(in_, params);
    PatternCondsRead(in_, params);
    ClauseRead([Text(MATCH)] + EndsAndArrows(in_), done, PatternConds(in_), rest, params);
  }

  lemma ReturnsBreak()
    ensures IsBreak(Between(RETURN_NODES)) && IsBreak(Between(RETURN_COUNT))
  {
  }

  lemma PatternReads(in_: Input, q: Query)
    requires InputOk(in_) && q.text == PatternText(in_) && q.params == Bound(PatternValues(in_))
    ensures Asks(q, in_) && Returns(q, in_)
  {
    hide MatchTokens, NodesValues, RelsValues, DistinctAliases, Connected, PatternNodeOk, PatternRelOk, Asks, Returns, Gives,
      Bound, RowsTokens, ExistsTokens, ChainLimit;
    var vals := NodesValues(in_.nodes) + RelsValues(in_.rels);
    BoundGives(PatternValues(in_));
    if ModeOf(in_.mode) == Rows {
      var limit := Int(ChainLimit(in_.limit).value);
      assert PatternValues(in_) == vals + [limit];
      GivesJoin(q.params, 0, vals, [limit]);
      GivesOne(q.params, |vals|, limit);
      RowsRead(in_, q, Param(|vals|));
    } else {
      assert PatternValues(in_) == vals;
      if ModeOf(in_.mode) == Count {
        CountRead(in_, q);
      } else {
        ExistsRead(in_, q);
      }
    }
  }

  lemma RowsRead(in_: Input, q: Query, limit: Token)
    requires InputOk(in_) && ModeOf(in_.mode) == Rows && q.text == RowsTokens(in_, MatchTokens(in_), limit)
    requires Gives(q.params, 0, NodesValues(in_.nodes) + RelsValues(in_.rels))
    requires ValueOf(limit, q.params) == Some(Int(ChainLimit(in_.limit).value))
    ensures Asks(q, in_) && Returns(q, in_)
  {
    hide MatchTokens, NodesValues, RelsValues, DistinctAliases, Connected, PatternNodeOk, PatternRelOk, Asked, PartsAsked,
      Gives, ReadMatch, IsBreak, NodeEntries, RelEntries, ValueOf, OneLine, FirstLine, ReturnsAt, Limited, ModeOf, Links,
      Aliases;
    var m := MatchTokens(in_);
    var rest := RowsTail(in_, limit);
    ReturnsBreak();
    RowsAre(in_, m, limit);
    MatchReadBack(in_, rest, q.params);
    LineOf(m, rest);
    assert Behind(q.text) == rest;
    RowsReturned(in_, rest, limit);
    RowsLimited(q, m, in_, limit, if in_.limit == 0 then 25 else in_.limit);
    RowsMode(in_.mode);
  }

  // What follows the match.
  function RowsTail(in_: Input, limit: Token): seq<Token> {
    [Between(RETURN_NODES)] + NodeEntries(in_.nodes, in_.returnProperties) + [Text(AS_NODES)] + RelEntries(|in_.rels|)
      + [Text(AS_RELS), limit]
  }

  lemma RowsAre(in_: Input, match_: seq<Token>, limit: Token)
    ensures RowsTokens(in_, match_, limit) == match_ + RowsTail(in_, limit)
  {
    hide NodeEntries, RelEntries;
  }

  lemma RowsLimited(q: Query, match_: seq<Token>, in_: Input, limit: Token, n: int)
    requires q.text == match_ + RowsTail(in_, limit) && ValueOf(limit, q.params) == Some(Int(n))
    ensures Limited(q, n)
  {
    hide NodeEntries, RelEntries;
    var rest := RowsTail(in_, limit);
    assert q.text[|q.text| - 2] == rest[|rest| - 2] && rest[|rest| - 2] == Text(AS_RELS);
    RowsTexts();
  }

  lemma RowsMode(mode: string)
    ensures ModeOf(mode) == Rows ==> mode != "exists" && mode != "count"
  {
  }

  lemma CountRead(in_: Input, q: Query)
    requires InputOk(in_) && ModeOf(in_.mode) == Count && q.text == MatchTokens(in_) + [Between(RETURN_COUNT)]
    requires Gives(q.params, 0, NodesValues(in_.nodes) + RelsValues(in_.rels))
    ensures Asks(q, in_) && Returns(q, in_)
  {
    hide MatchTokens, NodesValues, RelsValues, DistinctAliases, Connected, PatternNodeOk, PatternRelOk, Asked, PartsAsked,
      Gives, ReadMatch, IsBreak, OneLine, FirstLine;
    ReturnsBreak();
    MatchReadBack(in_, [Between(RETURN_COUNT)], q.params);
    LineOf(MatchTokens(in_), [Between(RETURN_COUNT)]);
    CountText();
  }

  lemma ExistsRead(in_: Input, q: Query)
    requires InputOk(in_) && ModeOf(in_.mode) == Exists && q.text == ExistsTokens(MatchTokens(in_))
    requires Gives(q.params, 0, NodesValues(in_.nodes) + RelsValues(in_.rels))
    ensures Asks(q, in_) && Returns(q, in_)
  {
    hide MatchTokens, NodesValues, RelsValues, DistinctAliases, Connected, PatternNodeOk, PatternRelOk, Asked, PartsAsked,
      Gives, ReadMatch, IndentTokens;
    var m := MatchTokens(in_);
    MatchReadBack(in_, [], q.params);
    ExistsTexts();
    assert m + [] == m && q.text[1..|q.text| - 1] == IndentTokens(m);
    assert q.text[0] == Text(EXISTS) && q.text[|q.text| - 1] == Between(AS_EXISTS);
  }

  lemma CountText()
    ensures RETURN_COUNT == "\nRETURN " + ("count(*) AS " + "count")
  {
  }

  lemma ExistsTexts()
    ensures EXISTS == "RETURN EXISTS " + "{\n  " && AS_EXISTS == "\n} AS exists"
  {
  }

  // ---------------------------------------------------------------- what exists mode asks about

  // The exists query asks about the names the match names, each one, if and only if
  // the caller put a newline in none of them.
  lemma ExistsKeepsNamesIff(in_: Input)
    requires InputOk(in_)
    ensures (forall i :: 0 <= i < |MatchTokens(in_)| && MatchTokens(in_)[i].Name? ==>
               IndentTokens(MatchTokens(in_))[i] == MatchTokens(in_)[i])
       <==> forall n :: n in MatchNames(in_) ==> '\n' !in n
  {
    hide MatchTokens, Connected, DistinctAliases, PatternNodeOk, PatternRelOk, NodesNames, RelsNames, Indent;
    var ts := MatchTokens(in_);
    MatchCovers(in_);
    forall i | 0 <= i < |ts| && ts[i].Name?
      ensures ts[i].name in MatchNames(in_) && (IndentTokens(ts)[i] == ts[i] <==> '\n' !in ts[i].name) {
      IndentKeepsNameIff(ts[i].name);
      assert ts[i] in ts;
    }
    forall n | n in MatchNames(in_) ensures exists i :: 0 <= i < |ts| && ts[i] == Name(n) {
      assert Name(n) in ts;
    }
  }

  // Nodes a with the label "A, newline, B".
  const TWO_LINES := Input(
    [PatternNode("a", NodeRef(["A\nB"], Criteria("", [], [])))], [], "exists", [], false, 0)

  lemma LettersAreNotBlank()
    ensures !IsBlank("a") && !IsBlank("A\nB")
  {
    assert "a"[0] == 'a' && "A\nB"[0] == 'A';
  }

  lemma SingleNodeOk(in_: Input)
    requires |in_.nodes| == 1 && |in_.rels| <= MAX_RELS && in_.limit == 0 && ModeOf(in_.mode) != UnknownMode
    requires !IsBlank(in_.nodes[0].alias) && PatternNodeOk(in_.nodes[0])
    requires forall i :: 0 <= i < |in_.rels| ==>
      PatternRelOk(in_.rels[i]) && in_.rels[i].from == in_.nodes[0].alias && in_.rels[i].to == in_.nodes[0].alias
    ensures InputOk(in_)
  {
    hide IsBlank, PatternNodeOk, PatternRelOk;
    var aliases, links := Aliases(in_.nodes), Links(in_.rels);
    var table: map<string, nat> := map[aliases[0] := 0];
    C.JoinedReflexive(C.Edges(links, table), 0);
    assert C.TableFor(table, aliases) && C.CheckSpec(aliases, links, table, C.Connects);
  }

  // It is accepted, and the query asks about the label "A, newline, two spaces, B".
  lemma ExistsAsksForAnotherLabel()
    ensures InputOk(TWO_LINES)
    ensures Names(PatternText(TWO_LINES)) == {"a", "A\n  B"} && "A\nB" !in Names(PatternText(TWO_LINES))
  {
    hide IsBlank, Names, PatternText, Indent, InputOk;
    LettersAreNotBlank();
    SingleNodeOk(TWO_LINES);
    PatternTextNames(TWO_LINES);
    IndentedLabel();
  }

  lemma IndentedLabel()
    ensures Indent("A\nB") == "A\n  B" && Indent("a") == "a" && "A\n  B" != "A\nB"
  {
    assert "A\nB"[1..] == "\nB" && "\nB"[1..] == "B" && "B"[1..] == "" && "a"[1..] == "";
    assert |"A\n  B"| == 5 && |"A\nB"| == 3;
  }

  // ---------------------------------------------------------------- the query's variables

  // Every variable of the query: the aliases, and r0, r1, ... for the relationships.
  function Variables(in_: Input): seq<string> {
    Aliases(in_.nodes) + seq(|in_.rels|, i requires 0 <= i < |in_.rels| => Indexed(R, i))
  }

  ghost predicate AllDifferentNames(names: seq<string>) {
    forall i, j :: 0 <= i < j < |names| ==> names[i] != names[j]
  }

  lemma IndexedDistinct(i: nat, j: nat)
    requires Indexed(R, i) == Indexed(R, j)
    ensures i == j
  {
    hide D.Digits;
    assert Indexed(R, i)[1..] == D.Digits(i) && Indexed(R, j)[1..] == D.Digits(j);
    D.DigitsInjective(i, j);
  }

  // The variables of an accepted pattern are different if and only if no alias is
  // one of the names the builder makes up. Nothing the builder checks rules that out.
  lemma VariablesDifferIff(in_: Input)
    requires InputOk(in_)
    ensures AllDifferentNames(Variables(in_)) <==>
      forall i: nat, n :: i < |in_.rels| && n in in_.nodes ==> n.alias != Indexed(R, i)
  {
    hide Indexed, Connected, PatternNodeOk, PatternRelOk;
    var names, k := Variables(in_), |in_.nodes|;
    if AllDifferentNames(names) {
      forall i: nat, n | i < |in_.rels| && n in in_.nodes ensures n.alias != Indexed(R, i) {
        var m :| 0 <= m < k && in_.nodes[m] == n;
        assert names[m] != names[k + i];
      }
    } else {
      var i, j :| 0 <= i < j < |names| && names[i] == names[j];
      if i < k <= j {
        assert in_.nodes[i] in in_.nodes;
      } else if i >= k {
        IndexedDistinct(i - k, j - k);
      }
    }
  }

  // A node called r0 that is related to itself by a relationship called r0.
  const CLASH := Input(
    [PatternNode("r0", NodeRef([], Criteria("", [], [])))], [PatternRel("r0", "r0", [], false, [], [])], "", [], false, 0)

  lemma VariablesMayClash()
    ensures InputOk(CLASH) && !AllDifferentNames(Variables(CLASH))
  {
    hide InputOk;
    assert !IsBlank("r0") by { assert "r0"[0] == 'r'; }
    SingleNodeOk(CLASH);
    assert Indexed(R, 0) == "r0";
    assert Variables(CLASH)[0] == Variables(CLASH)[1];
  }

  // ---------------------------------------------------------------- closed

  // Whatever mode and text the caller supplies, the query refers to exactly what
  // it binds.
  lemma PatternIsClosed(in_: Input)
    requires InputOk(in_)
    ensures ParameterClosed(Render(PatternText(in_)), Bound(PatternValues(in_))) && Names(PatternText(in_)) == QuotedNames(in_)
  {
    hide PatternText, PatternValues, QuotedNames, Within, ParameterClosed, Names, Bound, DistinctAliases, Connected,
      PatternNodeOk, PatternRelOk;
    PatternTextWithin(in_);
    PatternTextNames(in_);
    WithinIsClosed(PatternText(in_), PatternValues(in_), QuotedNames(in_));
  }

  lemma WithinIsClosed(ts: seq<Token>, vals: seq<Value>, names: set<string>)
    requires Within(ts, 0, |vals|, names)
    ensures ParameterClosed(Render(ts), Bound(vals))
  {
    ClosedWhenParamsMatch(ts, vals);
  }

  // The checks before anything is built.
  method CheckInput(in_: Input) returns (r: Built<int>)
    ensures r.Done? <==>
      && 1 <= |in_.nodes| <= MAX_NODES && |in_.rels| <= MAX_RELS
      && DistinctAliases(Aliases(in_.nodes)) && Connected(Aliases(in_.nodes), Links(in_.rels)) && ChainLimit(in_.limit).Done?
    ensures r.Done? ==> r == ChainLimit(in_.limit)
  {
    hide C.CheckSpec, IsBlank, ChainLimit;
    if |in_.nodes| == 0 || |in_.nodes| > MAX_NODES || |in_.rels| > MAX_RELS {
      return Fail(BadPattern);
    }
    var e, table := C.BuildAliases(Aliases(in_.nodes), s => IsBlank(s));
    if e != C.NoAliasError {
      return Fail(BadPattern);
    }
    var c := C.CheckConnected(Aliases(in_.nodes), Links(in_.rels), table);
    ConnectedIff(Aliases(in_.nodes), Links(in_.rels), table, c);
    if c != C.Connects {
      return Fail(BadPattern);
    }
    r := ChainLimit(in_.limit);
  }

  lemma ConnectedIff(aliases: seq<string>, links: seq<C.Rel>, table: map<string, nat>, e: C.CheckError)
    requires C.TableFor(table, aliases) && C.CheckSpec(aliases, links, table, e)
    ensures Connected(aliases, links) <==> e == C.Connects
  {
    hide C.CheckSpec, C.TableFor;
    if Connected(aliases, links) {
      var t :| C.TableFor(t, aliases) && C.CheckSpec(aliases, links, t, C.Connects);
      TableIsUnique(t, table, aliases);
      C.CheckSpecIsFunctional(aliases, links, table, e, C.Connects);
    }
  }

  method BuildMatchPattern(in_: Input) returns (r: Built<Query>)
    ensures r.Done? <==> InputOk(in_)
    ensures r.Done? ==> Asks(r.value, in_) && Returns(r.value, in_)
    ensures r.Done? ==> !r.value.write && r.value.text == PatternText(in_) && r.value.params == Bound(PatternValues(in_))
    ensures r.Done? ==> ParameterClosed(r.value.Cypher(), r.value.params) && Names(r.value.text) == QuotedNames(in_)
  {
    hide DistinctAliases, Connected, ChainLimit, PatternNodeOk, PatternRelOk, NodesConds, AllDifferent, RelsConds, Arrows, Then,
      Where, NodesValues, RelsValues, NodesNames, RelsNames, Bound, ParameterClosed, QuotedNames, NodeEntries, RelEntries,
      IndentTokens, Names, Asks, Returns;
    var limit := CheckInput(in_);
    if limit.Fail? {
      return Fail(limit.error);
    }
    var b := new Builder();
    var nodes := AllNodeConds(in_.nodes, b);
    if nodes.Fail? {
      return Fail(nodes.error);
    }
    ThenNothing(nodes.value);
    var conds := nodes.value;
    if !in_.allowSameNode {
      var distinct := DistinctConds(in_.nodes);
      conds := Then(conds, AND, distinct);
    }
    var rels := AllRels(in_.rels, conds, b);
    if rels.Fail? {
      return Fail(rels.error);
    }
    var patterns := if in_.rels == [] then [Text(OPEN), Name(in_.nodes[0].alias), Text(CLOSE)] else rels.value.0;
    var match_ := [Text(MATCH)] + patterns + Where(rels.value.1);
    assert match_ == MatchTokens(in_);
    if ModeOf(in_.mode) == UnknownMode {
      return Fail(BadMode);
    }
    r := FinishPattern(in_, match_, limit.value, b);
    PatternIsClosed(in_);
    PatternReads(in_, r.value);
  }

  // The three query shapes around the match.
  method FinishPattern(in_: Input, match_: seq<Token>, limit: int, b: Builder) returns (r: Built<Query>)
    requires in_.nodes != [] && ModeOf(in_.mode) != UnknownMode && match_ == MatchTokens(in_) && ChainLimit(in_.limit) == Done(limit)
    requires b.Valid() && b.vals == NodesValues(in_.nodes) + RelsValues(in_.rels)
    modifies b
    ensures r.Done? && !r.value.write && r.value.text == PatternText(in_) && r.value.params == Bound(PatternValues(in_))
  {
    hide MatchTokens, NodesValues, RelsValues, Bound, NodeEntries, RelEntries, IndentTokens, ChainLimit;
    if ModeOf(in_.mode) == Rows {
      var p := b.Param(Int(limit));
      return Done(Query(RowsTokens(in_, match_, p), b.params, false));
    }
    assert PatternValues(in_) == b.vals;
    if ModeOf(in_.mode) == Count {
      return Done(Query(match_ + [Between(RETURN_COUNT)], b.params, false));
    }
    return Done(Query(ExistsTokens(match_), b.params, false));
  }
}
