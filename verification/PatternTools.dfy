// Node and relationship patterns, projections, and the chain builder: a loop over
// hops that threads one builder.
module PatternTools {
  import opened Decimal
  import opened QueryReading
  import opened QueryText
  import opened ResultReading
  import opened Values
  import opened GraphConditions
  import opened GraphTools
  import opened Wrappers

  // Longer texts are given in pieces, as in GraphTools; the cuts have no meaning.
  const PIPE: Plain := "|"
  const REL: Plain := "-["
  const REL_IN: Plain := "<-["
  const REL_END: Plain := "]-"
  const REL_OUT: Plain := "]->"
  const PAREN: Gap := ")"
  const P: Plain := "p"
  const X: Plain := "x"
  const MATCH_PATH: Plain := "MATCH p = "
  const RETURN: Gap := "\nRETURN "
  const AS_PATH: Plain := " AS path\nLIMIT "
  const LENGTH: Plain := Cats(["{length: ", "length("])
  const NODES: Plain := Cats(["), nodes: ", "[x IN nodes("])
  const BAR: Plain := ") | "
  const RELS: Plain := Cats(["], ", "relationships: ", "[x IN ", "relationships("])
  const LIST_END: Plain := "]}"
  const TWO_ENDS: Plain := "))}"
  const DIFFERENT: Plain := " <> "
  const RETURN_NODES: Gap := "\nRETURN {"
  const AS_NODES: Plain := "} AS nodes, ["
  const AS_RELS: Plain := Cats(["] AS ", "relationships\n", "LIMIT "])
  const ENTRY: Plain := ": "
  const RETURN_COUNT: Gap := Cats(["\nRETURN ", "count(*) AS ", "count"])
  const EXISTS: Plain := Cats(["RETURN EXISTS ", "{\n  "])
  const AS_EXISTS: Gap := "\n} AS exists"

  datatype Direction = Outgoing | Incoming | Both | Unsupported

  function Indexed(prefix: Plain, i: nat): Plain {
    prefix + Digits(i)
  }

  function SingleRel(direction: Direction, v: Plain, typ: seq<Token>): Built<seq<Token>> {
    match direction
    case Outgoing => Done([Text(REL), Text(v)] + typ + [Text(REL_OUT)])
    case Incoming => Done([Text(REL_IN), Text(v)] + typ + [Text(REL_END)])
    case Both => Done([Text(REL), Text(v)] + typ + [Text(REL_END)])
    case Unsupported => Fail(BadDirection)
  }

  lemma SingleRelEmits(direction: Direction, v: Plain, typ: seq<Token>)
    requires WellFormed(typ) && !OpenEnd(typ) && direction != Unsupported
    ensures Emits(SingleRel(direction, v, typ).value, Params(typ), Names(typ))
    ensures !OpenEnd(SingleRel(direction, v, typ).value)
  {
    var head := [if direction == Incoming then Text(REL_IN) else Text(REL), Text(v)];
    var tail := [if direction == Outgoing then Text(REL_OUT) else Text(REL_END)];
    PlainEmits(head);
    PlainEmits(tail);
    EmitsConcat(head, typ);
    EmitsConcat(head + typ, tail);
  }

  // (v:`A` WHERE cond AND cond)
  function InlineTokens(ref: NodeRef, v: Plain, n: nat): seq<Token> {
    [Text(OPEN), Text(v)] + LabelTokens(ref.labels, AMP) + Where(CriteriaConds(ref.criteria, [Text(v)], n)) + [Between(PAREN)]
  }

  lemma InlineEmits(ref: NodeRef, v: Plain, n: nat)
    requires RefOk(ref)
    ensures Emits(InlineTokens(ref, v, n), Range(n, n + |CriteriaValues(ref.criteria)|), RefNames(ref))
    ensures !OpenEnd(InlineTokens(ref, v, n))
  {
    hide WellFormed, Params, Names, OpenEnd, CriteriaConds, CriteriaValues, CriteriaNames, LabelTokens, Where, AnyBlank;
    var head: seq<Token>, labels := [Text(OPEN), Text(v)], LabelTokens(ref.labels, AMP);
    var conds := CriteriaConds(ref.criteria, [Text(v)], n);
    PlainEmits(head);
    GapEmits(PAREN);
    LabelTokensEmit(ref.labels, AMP);
    CondsOnPlain(ref.criteria, v, n);
    WhereEmits(conds);
    EmitsConcat(head, labels);
    EmitsConcat(head + labels, Where(conds));
    EmitsConcat(head + labels + Where(conds), [Between(PAREN)]);
  }

  method Inline(ref: NodeRef, v: Plain, b: Builder) returns (r: Built<seq<Token>>)
    requires b.Valid()
    modifies b
    ensures b.Valid()
    ensures r.Done? <==> RefOk(ref)
    ensures r.Done? ==>
      r.value == InlineTokens(ref, v, |old(b.vals)|) && b.vals == old(b.vals) + CriteriaValues(ref.criteria)
  {
    hide CriteriaConds, CriteriaValues, CriteriaOk, AnyBlank, LabelTokens, Where;
    if AnyBlank(ref.labels) {
      return Fail(BlankLabel);
    }
    var conds := Conditions(ref.criteria, [Text(v)], b);
    if conds.Fail? {
      return conds;
    }
    r := Done([Text(OPEN), Text(v)] + LabelTokens(ref.labels, AMP) + Where(conds.value) + [Between(PAREN)]);
  }

  // ---------------------------------------------------------------- projections

  // {id, labels}, plus the named properties when there are any.
  function NodeSummary(v: Token, props: seq<string>): seq<Token> {
    if props == [] then [Text(ID_OF), v, Text(LABELS_OF), v, Text(MAP_END)] else NodeMap(v, props)
  }

  function RelSummary(v: Plain): seq<Token> {
    [Text(ID_OF), Text(v), Text(TYPE_OF), Text(v), Text(FROM_OF), Text(v), Text(TO_OF), Text(v), Text(TWO_ENDS)]
  }

  lemma NodeSummaryEmits(v: Token, props: seq<string>)
    requires v.Text? || v.Name?
    ensures Emits(NodeSummary(v, props), {}, (set p | p in props) + if v.Name? then {v.name} else {})
    ensures !OpenEnd(NodeSummary(v, props))
  {
    if props == [] {
      var summary := NodeSummary(v, props);
      assert summary[1] == v;
    } else {
      NodeMapEmits(v, props);
    }
  }

  function PathMap(p: Plain, props: seq<string>): seq<Token> {
    [Text(LENGTH), Text(p), Text(NODES), Text(p), Text(BAR)] + NodeSummary(Text(X), props)
      + ([Text(RELS), Text(p), Text(BAR)] + RelSummary(X) + [Text(LIST_END)])
  }

  lemma PathMapEmits(p: Plain, props: seq<string>)
    ensures Emits(PathMap(p, props), {}, set q | q in props) && !OpenEnd(PathMap(p, props))
  {
    hide NodeSummary, RelSummary, WellFormed, Params, Names, OpenEnd;
    var head := [Text(LENGTH), Text(p), Text(NODES), Text(p), Text(BAR)];
    var tail := [Text(RELS), Text(p), Text(BAR)] + RelSummary(X) + [Text(LIST_END)];
    PlainEmits(head);
    RelSummaryPlain(p);
    NodeSummaryEmits(Text(X), props);
    EmitsConcat(head, NodeSummary(Text(X), props));
    EmitsConcat(head + NodeSummary(Text(X), props), tail);
  }

  lemma RelSummaryPlain(p: Plain)
    ensures var tail := [Text(RELS), Text(p), Text(BAR)] + RelSummary(X) + [Text(LIST_END)];
      Emits(tail, {}, {}) && !OpenEnd(tail) && tail != []
  {
    PlainEmits([Text(RELS), Text(p), Text(BAR)] + RelSummary(X) + [Text(LIST_END)]);
  }

  // ---------------------------------------------------------------- projections read back

  lemma NodeSummaryRead(v: Token, props: seq<string>)
    requires PlainVariable(v)
    ensures OneMap(NodeSummary(v, props))
    ensures ReadShown(NodeSummary(v, props)) == NodeShown(v, if props == [] then Hidden else Only(props))
  {
    hide NodeMap, Unclosed, OneMap, ReadShown;
    if props == [] {
      var head: seq<Token> := [Text(ID_OF), v, Text(LABELS_OF), v];
      NodeOpens(v, [Text(MAP_END)]);
      NodeHeadOpen(v);
      Closes(head, Text(MAP_END));
      assert head + [Text(MAP_END)] == NodeSummary(v, props) && NodeProps([Text(MAP_END)], v) == Some(Hidden);
    } else {
      NodeMapRead(v, props);
    }
  }

  lemma RelSummaryRead(v: Plain)
    requires PlainVariable(Text(v))
    ensures OneMap(RelSummary(v)) && ReadShown(RelSummary(v)) == RelShown(Text(v), Hidden)
  {
    hide Unclosed, OneMap;
    var head: seq<Token> := [Text(ID_OF), Text(v), Text(TYPE_OF), Text(v), Text(FROM_OF), Text(v), Text(TO_OF), Text(v)];
    var m := RelSummary(v);
    assert m == head + [Text(TWO_ENDS)] && m[..8] == head && m[8..] == [Text(TWO_ENDS)] && m[..4] == head[..4];
    RelHead(v);
    RelHeadOpen(v);
    assert RelProps([Text(TWO_ENDS)], Text(v)) == Some(Hidden);
    Closes(head, Text(TWO_ENDS));
  }

  lemma RelHeadOpen(v: Plain)
    requires PlainVariable(Text(v))
    ensures var head := [Text(ID_OF), Text(v), Text(TYPE_OF), Text(v), Text(FROM_OF), Text(v), Text(TO_OF), Text(v)];
      Unclosed(head) && WordOf(head[0]) != ", "
  {
    assert ID_OF[0] == '{' && |TYPE_OF| > 3 && |FROM_OF| > 3 && |TO_OF| > 3;
  }

  lemma PathMapRead(p: Plain, props: seq<string>)
    ensures ReadPath(PathMap(p, props))
         == PathShown(Text(p), NodeShown(Text("x"), if props == [] then Hidden else Only(props)), RelShown(Text("x"), Hidden))
  {
    hide NodeSummary, RelSummary, ReadShown, OneMap;
    var head, ts := [Text(LENGTH), Text(p), Text(NODES), Text(p), Text(BAR)], PathMap(p, props);
    var tail := [Text(RELS), Text(p), Text(BAR)] + RelSummary(X) + [Text(LIST_END)];
    NodeSummaryRead(Text(X), props);
    RelSummaryRead(X);
    RelSummaryLength(X);
    assert ts == head + NodeSummary(Text(X), props) + tail;
    assert ts[..5] == head && ts[|ts| - 13..] == tail && ts[5..|ts| - 13] == NodeSummary(Text(X), props);
    assert ts[|ts| - 10..|ts| - 1] == tail[3..12] && tail[3..12] == RelSummary(X);
    PathFrame(p, RelSummary(X));
  }

  lemma RelSummaryLength(v: Plain)
    ensures |RelSummary(v)| == 9
  {
  }

  lemma PathFrame(p: Plain, rel: seq<Token>)
    requires |rel| == 9
    ensures PathOpens([Text(LENGTH), Text(p), Text(NODES), Text(p), Text(BAR)])
    ensures PathCloses([Text(RELS), Text(p), Text(BAR)] + rel + [Text(LIST_END)], Text(p))
  {
  }

  // ---------------------------------------------------------------- find-relationship-chain

  datatype ChainStep = ChainStep(typ: string, direction: Direction, node: Option<NodeRef>)

  datatype ChainInput = ChainInput(start: NodeRef, steps: seq<ChainStep>, nodeProperties: seq<string>, limit: int)

  const CHAIN_MAX_STEPS := 6
  const CHAIN_DEFAULT_LIMIT := 25
  const CHAIN_MAX_LIMIT := 200

  function ChainLimit(n: int): (r: Built<int>)
    ensures r.Done? <==> n == 0 || 1 <= n <= 200
    ensures r.Done? ==> r.value == if n == 0 then 25 else n
  {
    IntInRange(n, CHAIN_DEFAULT_LIMIT, 1, CHAIN_MAX_LIMIT)
  }

  predicate StepOk(step: ChainStep) {
    step.direction != Unsupported && RefOk(End(step.node))
  }

  function StepNames(step: ChainStep): set<string> {
    RefNames(End(step.node)) + if step.typ == "" then {} else {step.typ}
  }

  function StepsValues(steps: seq<ChainStep>): seq<Value> {
    if steps == [] then []
    else StepsValues(steps[..|steps| - 1]) + CriteriaValues(End(steps[|steps| - 1].node).criteria)
  }

  function StepsNames(steps: seq<ChainStep>): set<string> {
    if steps == [] then {} else StepsNames(steps[..|steps| - 1]) + StepNames(steps[|steps| - 1])
  }

  predicate ChainOk(in_: ChainInput) {
    && HasPredicate(in_.start.criteria)
    && 1 <= |in_.steps| <= 6
    && ChainLimit(in_.limit).Done?
    && RefOk(in_.start)
    && forall i :: 0 <= i < |in_.steps| ==> StepOk(in_.steps[i])
  }

  // One hop: the relationship and the node it arrives at, whose values are bound from parameter k on.
  function HopTokens(step: ChainStep, i: nat, k: nat): seq<Token> {
    var rel := SingleRel(step.direction, "", TypeTokens(step.typ));
    (if rel.Done? then rel.value else []) + InlineTokens(End(step.node), Indexed(N, i + 1), k)
  }

  // The start node and the hops, each taking up where the last left its parameters.
  function ChainPath(start: NodeRef, steps: seq<ChainStep>): seq<Token> {
    if steps == [] then InlineTokens(start, Indexed(N, 0), 0)
    else
      var before := steps[..|steps| - 1];
      ChainPath(start, before)
        + HopTokens(steps[|steps| - 1], |steps| - 1, |CriteriaValues(start.criteria)| + |StepsValues(before)|)
  }

  function ChainText(in_: ChainInput): seq<Token> {
    [Text(MATCH_PATH)] + ChainPath(in_.start, in_.steps) + [Between(RETURN)] + PathMap(P, in_.nodeProperties)
      + [Text(AS_PATH), Param(|CriteriaValues(in_.start.criteria) + StepsValues(in_.steps)|)]
  }

  // ---------------------------------------------------------------- a chain read back

  // A node of the path, with its own conditions.
  function NodeWanted(ref: NodeRef, v: Token): Part {
    NodePart(v, Some(ref.labels), Wanted(ref.criteria, v))
  }

  // The start n0, then each step's relationship, its arrow head on the side the
  // direction points to, and the node n1, n2, ... it arrives at.
  function ChainWanted(start: NodeRef, steps: seq<ChainStep>): seq<Part> {
    if steps == [] then [NodeWanted(start, Text(Indexed("n", 0)))]
    else
      var step := steps[|steps| - 1];
      ChainWanted(start, steps[..|steps| - 1]) +
      [LinkPart(Text(""), Some(if step.typ == "" then [] else [step.typ]), step.direction == Incoming, step.direction == Outgoing),
       NodeWanted(End(step.node), Text(Indexed("n", |steps|)))]
  }

  ghost predicate Follows(q: Query, start: NodeRef, steps: seq<ChainStep>) {
    ReadMatch(q.text, q.params) == Clause(ChainWanted(start, steps), [])
  }

  // The query ends in LIMIT with this number.
  ghost predicate Limited(q: Query, limit: int) {
    && |q.text| >= 2 && ValueOf(q.text[|q.text| - 1], q.params) == Some(Int(limit))
    && var word := WordOf(q.text[|q.text| - 2]); |word| >= 6 && word[|word| - 6..] == "LIMIT "
  }

  // The line behind the match returns the path that is matched.
  ghost predicate ReturnsPath(q: Query, props: seq<string>) {
    var rest := Behind(q.text);
    && q.text != [] && WordOf(q.text[0]) == "MATCH p = "
    && |rest| >= 3 && WordOf(rest[0]) == "\nRETURN " && WordOf(rest[|rest| - 2]) == " AS path\nLIMIT "
    && ReadPath(rest[1..|rest| - 2])
         == PathShown(Text("p"), NodeShown(Text("x"), if props == [] then Hidden else Only(props)), RelShown(Text("x"), Hidden))
  }

  lemma PathReturned(q: Query, match_: seq<Token>, props: seq<string>, limit: Token)
    requires match_ != [] && match_[0] == Text(MATCH_PATH) && OneLine(match_)
    requires q.text == match_ + ([Between(RETURN)] + PathMap(P, props) + [Text(AS_PATH), limit])
    ensures ReturnsPath(q, props)
  {
    hide PathMap, ReadPath, IsBreak, OneLine;
    var rest := [Between(RETURN)] + PathMap(P, props) + [Text(AS_PATH), limit];
    ReturnBreaks();
    LineOf(match_, rest);
    PathMapRead(P, props);
    assert q.text[0] == match_[0] && Behind(q.text) == rest;
    assert rest[1..|rest| - 2] == PathMap(P, props) && rest[|rest| - 2] == Text(AS_PATH);
  }

  lemma IndexedVariable(i: nat)
    ensures IsVariable(Text(Indexed(N, i)))
  {
    assert Indexed(N, i)[0] == 'n';
  }

  function InlineElement(ref: NodeRef, v: Plain, n: nat): Element {
    NodeAt(Text(v), LabelTokens(ref.labels, AMP), CriteriaConds(ref.criteria, [Text(v)], n))
  }

  lemma InlineSteps(done: seq<Element>, ref: NodeRef, v: Plain, n: nat)
    requires Inner(CriteriaConds(ref.criteria, [Text(v)], n))
    ensures Steps(Scan(done, Outside), InlineTokens(ref, v, n)) == Scan(done + [InlineElement(ref, v, n)], Outside)
    ensures OneLine(InlineTokens(ref, v, n))
  {
    hide LabelTokens, CriteriaConds, Steps, Where, Inner;
    var labels, conds := LabelTokens(ref.labels, AMP), CriteriaConds(ref.criteria, [Text(v)], n);
    var s := Scan(done, Outside);
    LabelTokensPlain(ref.labels, AMP);
    StepsOpen(done, Text(v));
    StepsJoin(s, [Text(OPEN), Text(v)], labels);
    StepsInNode(done, Text(v), [], labels);
    assert [] + labels == labels;
    StepsJoin(s, [Text(OPEN), Text(v)] + labels, Where(conds));
    StepsJoin(s, [Text(OPEN), Text(v)] + labels + Where(conds), [Between(PAREN)]);
    InlineCloses(done, Text(v), labels, conds);
    WhereSteps(done, conds);
    TextsOneLine([Text(OPEN), Text(v)] + labels);
    OneLineJoin([Text(OPEN), Text(v)] + labels, Where(conds));
    OneLineJoin([Text(OPEN), Text(v)] + labels + Where(conds), [Between(PAREN)]);
  }

  lemma InlineCloses(done: seq<Element>, v: Token, labels: seq<Token>, conds: seq<Token>)
    requires Inner(conds)
    ensures Steps(Steps(Scan(done, InNode(v, labels)), Where(conds)), [Between(PAREN)]) == Scan(done + [NodeAt(v, labels, conds)], Outside)
  {
    assert [Between(PAREN)][1..] == [];
    if conds != [] {
      assert Where(conds)[1..] == conds;
      StepsInNodeWhere(done, v, labels, [], conds);
      assert [] + conds == conds;
    }
  }

  function StepElement(step: ChainStep): Element {
    LinkAt(Text(""), TypeTokens(step.typ), step.direction == Incoming, step.direction == Outgoing)
  }

  lemma SingleRelSteps(done: seq<Element>, direction: Direction, v: Plain, typ: seq<Token>)
    requires direction != Unsupported && EndsNoLink(typ) && forall i :: 0 <= i < |typ| ==> !typ[i].Between?
    ensures Steps(Scan(done, Outside), SingleRel(direction, v, typ).value)
         == Scan(done + [LinkAt(Text(v), typ, direction == Incoming, direction == Outgoing)], Outside)
    ensures OneLine(SingleRel(direction, v, typ).value)
  {
    hide Steps, EndsNoLink;
    LinkSteps(done, if direction == Incoming then Text(REL_IN) else Text(REL), Text(v), typ, if direction == Outgoing then Text(REL_OUT) else Text(REL_END));
    TextsOneLine(SingleRel(direction, v, typ).value);
  }

  lemma HopSteps(done: seq<Element>, step: ChainStep, i: nat, k: nat)
    requires StepOk(step) && Inner(CriteriaConds(End(step.node).criteria, [Text(Indexed(N, i + 1))], k))
    ensures Steps(Scan(done, Outside), HopTokens(step, i, k))
         == Scan(done + [StepElement(step), InlineElement(End(step.node), Indexed(N, i + 1), k)], Outside)
    ensures OneLine(HopTokens(step, i, k))
  {
    hide Steps, EndsNoLink, TypeTokens, SingleRel, InlineTokens, Inner, Indexed, InlineElement, RefOk, OneLine, CriteriaConds;
    var link := SingleRel(step.direction, "", TypeTokens(step.typ));
    assert link.Done? by { DirectionGiven(step.direction, TypeTokens(step.typ)); }
    var node := InlineTokens(End(step.node), Indexed(N, i + 1), k);
    TypeRead(step.typ);
    SingleRelSteps(done, step.direction, "", TypeTokens(step.typ));
    InlineSteps(done + [StepElement(step)], End(step.node), Indexed(N, i + 1), k);
    StepsJoin(Scan(done, Outside), link.value, node);
    OneLineJoin(link.value, node);
    assert done + [StepElement(step)] + [InlineElement(End(step.node), Indexed(N, i + 1), k)]
        == done + [StepElement(step), InlineElement(End(step.node), Indexed(N, i + 1), k)];
  }

  lemma DirectionGiven(direction: Direction, typ: seq<Token>)
    requires direction != Unsupported
    ensures SingleRel(direction, "", typ).Done?
  {
  }

  function ChainElements(start: NodeRef, steps: seq<ChainStep>): seq<Element> {
    if steps == [] then [InlineElement(start, Indexed(N, 0), 0)]
    else
      var before, step := steps[..|steps| - 1], steps[|steps| - 1];
      ChainElements(start, before) +
      [StepElement(step), InlineElement(End(step.node), Indexed(N, |steps|), |CriteriaValues(start.criteria)| + |StepsValues(before)|)]
  }

  lemma InlineRead(ref: NodeRef, v: Plain, n: nat, params: map<string, Value>)
    requires RefOk(ref) && IsVariable(Text(v)) && Gives(params, n, CriteriaValues(ref.criteria))
    ensures ReadPart(InlineElement(ref, v, n), params) == NodeWanted(ref, Text(v))
    ensures Inner(CriteriaConds(ref.criteria, [Text(v)], n))
  {
    hide ReadConds, CriteriaConds, CriteriaValues, CriteriaOk, Gives, Inner, Wanted, LabelTokens, AnyBlank;
    CriteriaRead(ref.criteria, Text(v), n, params);
    LabelsRead(ref.labels, AMP);
  }

  lemma {:induction false} ChainRead(start: NodeRef, steps: seq<ChainStep>, params: map<string, Value>)
    requires RefOk(start) && forall i :: 0 <= i < |steps| ==> StepOk(steps[i])
    requires Gives(params, 0, CriteriaValues(start.criteria) + StepsValues(steps))
    ensures Steps(Scan([], Outside), ChainPath(start, steps)) == Scan(ChainElements(start, steps), Outside)
    ensures OneLine(ChainPath(start, steps))
    ensures ReadParts(ChainElements(start, steps), params) == ChainWanted(start, steps)
  {
    hide Steps, RefOk, StepOk, InlineTokens, HopTokens, InlineElement, CriteriaValues, CriteriaConds, Gives, Inner, Indexed,
      OneLine, ReadPart, NodeWanted;
    var first := CriteriaValues(start.criteria);
    if steps == [] {
      assert first + StepsValues(steps) == first;
      IndexedVariable(0);
      InlineRead(start, Indexed(N, 0), 0, params);
      InlineSteps([], start, Indexed(N, 0), 0);
      assert [] + [InlineElement(start, Indexed(N, 0), 0)] == [InlineElement(start, Indexed(N, 0), 0)];
    } else {
      var before, step, last := steps[..|steps| - 1], steps[|steps| - 1], |steps| - 1;
      var k := |first| + |StepsValues(before)|;
      assert first + StepsValues(steps) == (first + StepsValues(before)) + CriteriaValues(End(step.node).criteria);
      GivesJoin(params, 0, first + StepsValues(before), CriteriaValues(End(step.node).criteria));
      ChainRead(start, before, params);
      IndexedVariable(last + 1);
      assert RefOk(End(step.node)) by { StepRefOk(step); }
      InlineRead(End(step.node), Indexed(N, last + 1), k, params);
      HopSteps(ChainElements(start, before), step, last, k);
      StepsJoin(Scan([], Outside), ChainPath(start, before), HopTokens(step, last, k));
      OneLineJoin(ChainPath(start, before), HopTokens(step, last, k));
      StepRead(step, params);
      assert ReadParts(ChainElements(start, steps), params) == ReadParts(ChainElements(start, before), params)
        + [ReadPart(StepElement(step), params), ReadPart(InlineElement(End(step.node), Indexed(N, |steps|), k), params)];
    }
  }

  lemma StepRefOk(step: ChainStep)
    requires StepOk(step)
    ensures RefOk(End(step.node))
  {
  }

  lemma StepRead(step: ChainStep, params: map<string, Value>)
    ensures ReadPart(StepElement(step), params)
         == LinkPart(Text(""), Some(if step.typ == "" then [] else [step.typ]), step.direction == Incoming, step.direction == Outgoing)
  {
    hide TypeTokens;
    TypeRead(step.typ);
  }

  lemma ChainReads(in_: ChainInput, q: Query)
    requires ChainOk(in_) && q.text == ChainText(in_)
    requires q.params == Bound(CriteriaValues(in_.start.criteria) + StepsValues(in_.steps) + [Int(ChainLimit(in_.limit).value)])
    ensures Follows(q, in_.start, in_.steps) && Limited(q, if in_.limit == 0 then 25 else in_.limit)
    ensures ReturnsPath(q, in_.nodeProperties)
  {
    hide ReturnsPath, Steps, RefOk, StepOk, ChainPath, ChainElements, ChainWanted, CriteriaValues, StepsValues, Gives, OneLine,
      ReadParts, PathMap, Bound, HasPredicate, IsBreak, ChainLimit, ValueOf;
    var vals, limit := CriteriaValues(in_.start.criteria) + StepsValues(in_.steps), Int(ChainLimit(in_.limit).value);
    BoundGives(vals + [limit]);
    GivesJoin(q.params, 0, vals, [limit]);
    assert Limited(q, ChainLimit(in_.limit).value) by {
      GivesOne(q.params, |vals|, limit);
      assert AS_PATH[9..] == "LIMIT " && q.text[|q.text| - 2] == Text(AS_PATH);
    }
    ChainRead(in_.start, in_.steps, q.params);
    var path := ChainPath(in_.start, in_.steps);
    var rest := [Between(RETURN)] + PathMap(P, in_.nodeProperties) + [Text(AS_PATH), Param(|vals|)];
    assert q.text == [Text(MATCH_PATH)] + path + rest;
    PathWord(path);
    assert IsBreak(rest[0]) by { ReturnBreaks(); }
    TextsOneLine([Text(MATCH_PATH)]);
    OneLineJoin([Text(MATCH_PATH)], path);
    LineOf([Text(MATCH_PATH)] + path, rest);
    PathReturned(q, [Text(MATCH_PATH)] + path, in_.nodeProperties, Param(|vals|));
  }

  lemma ReturnBreaks()
    ensures IsBreak(Between(RETURN))
  {
  }

  lemma PathWord(rest: seq<Token>)
    ensures Steps(Scan([], Outside), [Text(MATCH_PATH)] + rest) == Steps(Scan([], Outside), rest)
  {
    assert ([Text(MATCH_PATH)] + rest)[1..] == rest;
  }

  lemma GivesOne(params: map<string, Value>, n: nat, v: Value)
    requires Gives(params, n, [v])
    ensures ValueOf(Param(n), params) == Some(v)
  {
    assert ValueOf(Param(n + 0), params) == Some([v][0]);
  }

  method Hop(step: ChainStep, i: nat, b: Builder) returns (r: Built<seq<Token>>)
    requires b.Valid()
    modifies b
    ensures b.Valid()
    ensures r.Done? <==> StepOk(step)
    ensures r.Done? ==>
      && b.vals == old(b.vals) + CriteriaValues(End(step.node).criteria)
      && r.value == HopTokens(step, i, |old(b.vals)|)
      && Emits(r.value, Range(|old(b.vals)|, |b.vals|), StepNames(step)) && !OpenEnd(r.value)
  {
    hide CriteriaValues, RefOk, RefNames, InlineTokens, WellFormed, Params, Names, OpenEnd, Range, SingleRel;
    TypeEmits(step.typ);
    SupportedDirections(step.direction, TypeTokens(step.typ));
    var rel := SingleRel(step.direction, "", TypeTokens(step.typ));
    if rel.Fail? {
      return rel;
    }
    var v := Indexed(N, i + 1);
    var node := Inline(End(step.node), v, b);
    if node.Fail? {
      return node;
    }
    InlineEmits(End(step.node), v, |old(b.vals)|);
    EmitsConcat(rel.value, node.value);
    r := Done(rel.value + node.value);
  }

  lemma SupportedDirections(direction: Direction, typ: seq<Token>)
    requires WellFormed(typ) && !OpenEnd(typ)
    ensures SingleRel(direction, "", typ).Done? <==> direction != Unsupported
    ensures direction != Unsupported ==>
      Emits(SingleRel(direction, "", typ).value, Params(typ), Names(typ)) && !OpenEnd(SingleRel(direction, "", typ).value)
  {
    if direction != Unsupported {
      SingleRelEmits(direction, "", typ);
    }
  }

  method BuildChain(in_: ChainInput) returns (r: Built<Query>)
    ensures r.Done? <==> ChainOk(in_)
    ensures r.Done? ==> Follows(r.value, in_.start, in_.steps) && Limited(r.value, if in_.limit == 0 then 25 else in_.limit)
    ensures r.Done? ==> ReturnsPath(r.value, in_.nodeProperties)
    ensures r.Done? ==> !r.value.write && r.value.text == ChainText(in_)
    ensures r.Done? ==> Closed(r.value,
      CriteriaValues(in_.start.criteria) + StepsValues(in_.steps) + [Int(ChainLimit(in_.limit).value)],
      RefNames(in_.start) + StepsNames(in_.steps) + set p | p in in_.nodeProperties)
  {
    hide CriteriaValues, RefOk, StepOk, RefNames, StepNames, InlineTokens, HopTokens, WellFormed, Params, Names, OpenEnd, Range,
      Closed, Bound, PathMap, HasPredicate, Emits, Follows, Limited, ReturnsPath;
    if !HasPredicate(in_.start.criteria) {
      return Fail(NoPredicate);
    }
    if |in_.steps| == 0 || |in_.steps| > CHAIN_MAX_STEPS {
      return Fail(OutOfRange);
    }
    var limit := ChainLimit(in_.limit);
    if limit.Fail? {
      return Fail(limit.error);
    }
    var b := new Builder();
    var start := Inline(in_.start, Indexed(N, 0), b);
    if start.Fail? {
      return Fail(start.error);
    }
    InlineEmits(in_.start, Indexed(N, 0), 0);
    var path := start.value;
    assert RefNames(in_.start) + StepsNames(in_.steps[..0]) == RefNames(in_.start);
    for i := 0 to |in_.steps|
      invariant b.Valid()
      invariant forall j :: 0 <= j < i ==> StepOk(in_.steps[j])
      invariant b.vals == CriteriaValues(in_.start.criteria) + StepsValues(in_.steps[..i])
      invariant path == ChainPath(in_.start, in_.steps[..i])
      invariant Emits(path, Range(0, |b.vals|), RefNames(in_.start) + StepsNames(in_.steps[..i])) && !OpenEnd(path)
    {
      ghost var n, names := |b.vals|, RefNames(in_.start) + StepsNames(in_.steps[..i]);
      var hop := Hop(in_.steps[i], i, b);
      if hop.Fail? {
        return Fail(hop.error);
      }
      assert in_.steps[..i + 1][..i] == in_.steps[..i];
      PathGrows(path, hop.value, n, |b.vals|, names, StepNames(in_.steps[i]));
      assert names + StepNames(in_.steps[i]) == RefNames(in_.start) + StepsNames(in_.steps[..i + 1]);
      path := path + hop.value;
    }
    assert in_.steps[..|in_.steps|] == in_.steps;
    r := FinishChain(path, in_.nodeProperties, limit.value, RefNames(in_.start) + StepsNames(in_.steps), b);
    ChainReads(in_, r.value);
  }

  lemma PathGrows(path: seq<Token>, hop: seq<Token>, n: nat, m: nat, x: set<string>, y: set<string>)
    requires n <= m && Emits(path, Range(0, n), x) && Emits(hop, Range(n, m), y) && !OpenEnd(path) && !OpenEnd(hop)
    ensures Emits(path + hop, Range(0, m), x + y) && !OpenEnd(path + hop)
  {
    hide WellFormed, Params, Names, OpenEnd;
    EmitsConcat(path, hop);
  }

  // MATCH p = <path> RETURN <projection> AS path LIMIT $n
  method FinishChain(path: seq<Token>, props: seq<string>, limit: int, ghost names: set<string>, b: Builder) returns (r: Built<Query>)
    requires b.Valid() && Emits(path, Range(0, |b.vals|), names) && !OpenEnd(path)
    modifies b
    ensures r.Done? && !r.value.write
    ensures r.value.text == [Text(MATCH_PATH)] + path + [Between(RETURN)] + PathMap(P, props) + [Text(AS_PATH), Param(|old(b.vals)|)]
    ensures Closed(r.value, old(b.vals) + [Int(limit)], names + set p | p in props) && r.value.params == Bound(old(b.vals) + [Int(limit)])
  {
    hide WellFormed, Params, Names, OpenEnd, Closed, Bound, PathMap;
    ghost var n := |b.vals|;
    PlainEmits([Text(MATCH_PATH)]);
    EmitsConcat([Text(MATCH_PATH)], path);
    GapEmits(RETURN);
    EmitsConcat([Text(MATCH_PATH)] + path, [Between(RETURN)]);
    PathMapEmits(P, props);
    EmitsConcat([Text(MATCH_PATH)] + path + [Between(RETURN)], PathMap(P, props));
    LimitEmits(n);
    EmitsConcat([Text(MATCH_PATH)] + path + [Between(RETURN)] + PathMap(P, props), [Text(AS_PATH), Param(n)]);
    var p := b.Param(Int(limit));
    r := Done(Query([Text(MATCH_PATH)] + path + [Between(RETURN)] + PathMap(P, props) + [Text(AS_PATH), p], b.params, false));
    assert Range(0, n + 1) == Range(0, n) + {n};
    EmitsClosed(r.value, b.vals, names + set q | q in props);
  }

  lemma LimitEmits(n: nat)
    ensures Emits([Text(AS_PATH), Param(n)], {n}, {})
  {
    assert [Text(AS_PATH), Param(n)][1] == Param(n);
  }
}
