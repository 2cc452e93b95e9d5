// The query builders of the graph tools that change data: each selects entities,
// and mutates them only behind the guard.
module GraphTools {
  import opened Decimal
  import opened QueryReading
  import opened QueryText
  import opened ResultReading
  import opened Values
  import opened GraphConditions
  import opened GuardReading
  import opened Wrappers

  const OPEN: Plain := "("
  const CLOSE: Plain := ")"
  const MATCH: Plain := "MATCH "
  const AMP: Plain := "&"
  const REL_OPEN: Plain := "-["
  const REL_CLOSE: Plain := "]->"
  const N: Plain := "n"
  const R: Plain := "r"
  const SRC: Plain := "src"
  const DST: Plain := "dst"

  const LINE: Gap := "\n  "
  const AS: Gap := " AS "

  // The guarded mutation, one constant between two places where something is put in.
  // Longer texts are given in pieces, here and below, because the proof that they are
  // plain takes a literal apart rune by rune. Where they are cut has no meaning.
  const GUARD_COLLECT: Gap := "\nWITH collect("
  const GUARD_ITEMS: Gap := Cats([") AS items\n", "WITH items, ", "size(items) AS "])
  const GUARD_TEST: Gap := Cats(["\nWITH items, ", "matched, "])
  const GUARD_ALLOWED: Gap := Cats([" AS allowed\n", "CALL (items, ", "allowed) {\n"])
  const GUARD_UNWIND: Plain := "  UNWIND "
  const GUARD_RETURN: Gap := "\n  RETURN "
  const GUARD_ROW: Gap := Cats(["\n}\n", "RETURN matched,", " "])
  const GUARD_PERFORMED: Gap := Cats([" AS ", "performed, "])
  const AS_MESSAGE: Gap := " AS message"

  const MATCHED: Plain := "matched"
  const ALLOWED: Plain := "allowed"
  const ITEMS: Plain := "items"
  const NOTHING: Plain := "[]"
  const NULL: Plain := "null"
  const ZERO: Plain := "0"
  const AT_MOST: Plain := " <= "
  const MORE: Plain := " > "
  const CASE: Plain := "CASE"
  const WHEN: Gap := " WHEN "
  const THEN: Gap := " THEN "
  const ELSE: Gap := " ELSE "
  const END: Gap := " END"

  // The dry run.
  const DRY_COUNT: Gap := "\nWITH count("
  const DRY_COLLECT: Gap := Cats([") AS matched, ", "collect(", "elementId("])
  const DRY_SAMPLE: Gap := Cats(["))[..10] AS ", "sampleIds\n", "RETURN matched,"])
  const DRY_IDS: Gap := " sampleIds, "
  const DRY_ROW: Gap := Cats([" AS ", "performed,\n", "  "])
  const FALSE: Plain := "false"
  const DRY_NOTHING: string := "dryRun: nothing matched this selection, so a real call would change nothing"
  const DRY_DONE: string := "dryRun: nothing was changed"

  const SET_PLUS: Plain := " += "
  const SET: Plain := "SET "
  const REMOVE: Plain := "REMOVE "
  const COMMA: Gap := ", "
  const COLLECT: Plain := "collect("
  const ID_OF: Plain := "{id: elementId("
  const LABELS_OF: Plain := Cats(["), labels: ", "labels("])
  const TYPE_OF: Plain := "), type: type("
  const FROM_OF: Plain := Cats(["), from: ", "elementId(", "startNode("])
  const TO_OF: Plain := Cats([")), to: ", "elementId(", "endNode("])
  const NODE_PROPERTIES: Plain := Cats(["), properties: ", "properties("])
  const REL_PROPERTIES: Plain := Cats([")), properties: ", "properties("])
  const MAP_END: Plain := ")}"
  const PROPERTIES: Plain := "), properties: "
  const BRACE: Plain := "{"
  const CLOSING: Gap := "}}"
  const COUNT: Plain := "count(*)"
  const DELETE: Plain := "DELETE "
  const DETACH: Plain := "DETACH "
  const UPDATED: Plain := "updated"
  const DELETED: Plain := "deleted"

  datatype NodeRef = NodeRef(labels: seq<string>, criteria: Criteria)

  datatype RelRef = RelRef(typ: string, from: Option<NodeRef>, to: Option<NodeRef>, criteria: Criteria)

  const ANY_NODE := NodeRef([], Criteria("", [], []))

  datatype Query = Query(text: seq<Token>, params: map<string, Value>, write: bool) {
    function Cypher(): string {
      Render(text)
    }
  }

  // ---------------------------------------------------------------- node and relationship matches

  predicate RefOk(ref: NodeRef) {
    !AnyBlank(ref.labels) && CriteriaOk(ref.criteria)
  }

  function RefNames(ref: NodeRef): set<string> {
    (set l | l in ref.labels) + CriteriaNames(ref.criteria)
  }

  function PatternTokens(ref: NodeRef, v: Plain): seq<Token> {
    [Text(OPEN), Text(v)] + LabelTokens(ref.labels, AMP) + [Text(CLOSE)]
  }

  lemma PatternEmits(ref: NodeRef, v: Plain)
    ensures Emits(PatternTokens(ref, v), {}, set l | l in ref.labels) && !OpenEnd(PatternTokens(ref, v))
  {
    var head: seq<Token> := [Text(OPEN), Text(v)];
    var tail: seq<Token> := [Text(CLOSE)];
    assert Emits(head, {}, {}) && Emits(tail, {}, {});
    LabelTokensEmit(ref.labels, AMP);
    EmitsConcat(head, LabelTokens(ref.labels, AMP));
    EmitsConcat(head + LabelTokens(ref.labels, AMP), tail);
  }

  lemma CondsOnPlain(c: Criteria, v: Plain, n: nat)
    requires CriteriaOk(c)
    ensures Emits(CriteriaConds(c, [Text(v)], n), Range(n, n + |CriteriaValues(c)|), CriteriaNames(c))
  {
    var on: seq<Token> := [Text(v)];
    CriteriaEmit(c, on, n);
    assert Names(on) == {};
  }

  function NodeMatchTokens(ref: NodeRef, v: Plain, n: nat): seq<Token> {
    [Text(MATCH)] + PatternTokens(ref, v) + Where(CriteriaConds(ref.criteria, [Text(v)], n))
  }

  lemma NodeMatchEmits(ref: NodeRef, v: Plain, n: nat)
    requires RefOk(ref)
    ensures Emits(NodeMatchTokens(ref, v, n), Range(n, n + |CriteriaValues(ref.criteria)|), RefNames(ref))
  {
    var head: seq<Token> := [Text(MATCH)];
    assert Emits(head, {}, {});
    PatternEmits(ref, v);
    CondsOnPlain(ref.criteria, v, n);
    WhereEmits(CriteriaConds(ref.criteria, [Text(v)], n));
    EmitsConcat(head, PatternTokens(ref, v));
    EmitsConcat(head + PatternTokens(ref, v), Where(CriteriaConds(ref.criteria, [Text(v)], n)));
  }

  // MATCH (v:`L`) WHERE ...
  method NodeMatch(ref: NodeRef, v: Plain, b: Builder) returns (r: Built<seq<Token>>)
    requires b.Valid()
    modifies b
    ensures b.Valid()
    ensures r.Done? <==> RefOk(ref)
    ensures r.Done? ==>
      r.value == NodeMatchTokens(ref, v, |old(b.vals)|) && b.vals == old(b.vals) + CriteriaValues(ref.criteria)
  {
    if AnyBlank(ref.labels) {
      return Fail(BlankLabel);
    }
    var conds := Conditions(ref.criteria, [Text(v)], b);
    if conds.Fail? {
      return conds;
    }
    r := Done([Text(MATCH)] + PatternTokens(ref, v) + Where(conds.value));
  }

  function End(ref: Option<NodeRef>): NodeRef {
    if ref.Some? then ref.value else ANY_NODE
  }

  predicate RelHasPredicate(ref: RelRef) {
    HasPredicate(ref.criteria) || HasPredicate(End(ref.from).criteria) || HasPredicate(End(ref.to).criteria)
  }

  predicate RelOk(ref: RelRef) {
    RefOk(End(ref.from)) && RefOk(End(ref.to)) && CriteriaOk(ref.criteria)
  }

  function RelValues(ref: RelRef): seq<Value> {
    CriteriaValues(End(ref.from).criteria) + CriteriaValues(End(ref.to).criteria) + CriteriaValues(ref.criteria)
  }

  function RelNames(ref: RelRef): set<string> {
    RefNames(End(ref.from)) + RefNames(End(ref.to)) + CriteriaNames(ref.criteria) + if ref.typ == "" then {} else {ref.typ}
  }

  function TypeTokens(typ: string): seq<Token> {
    if typ == "" then [] else [Text(COLON), Name(typ)]
  }

  function RelConds(ref: RelRef, n: nat): seq<Token> {
    var m := n + |CriteriaValues(End(ref.from).criteria)|;
    AndThen(AndThen(CriteriaConds(End(ref.from).criteria, [Text(SRC)], n),
                    CriteriaConds(End(ref.to).criteria, [Text(DST)], m)),
            CriteriaConds(ref.criteria, [Text(R)], m + |CriteriaValues(End(ref.to).criteria)|))
  }

  function RelPattern(ref: RelRef): seq<Token> {
    [Text(MATCH)] + PatternTokens(End(ref.from), SRC) + [Text(REL_OPEN), Text(R)] + TypeTokens(ref.typ)
      + [Text(REL_CLOSE)] + PatternTokens(End(ref.to), DST)
  }

  function RelMatchTokens(ref: RelRef, n: nat): seq<Token> {
    RelPattern(ref) + Where(RelConds(ref, n))
  }

  lemma TypeEmits(typ: string)
    ensures Emits(TypeTokens(typ), {}, if typ == "" then {} else {typ}) && !OpenEnd(TypeTokens(typ))
  {
    assert typ != "" ==> TypeTokens(typ)[1] == Name(typ);
  }

  lemma RelPatternEmits(ref: RelRef)
    ensures !OpenEnd(RelPattern(ref))
    ensures Emits(RelPattern(ref), {}, (set l | l in End(ref.from).labels) + (set l | l in End(ref.to).labels)
                                       + if ref.typ == "" then {} else {ref.typ})
  {
    hide PatternTokens, TypeTokens, WellFormed, Params, Names, OpenEnd;
    var from, to, typ := PatternTokens(End(ref.from), SRC), PatternTokens(End(ref.to), DST), TypeTokens(ref.typ);
    var a: seq<Token>, b: seq<Token>, c: seq<Token> := [Text(MATCH)], [Text(REL_OPEN), Text(R)], [Text(REL_CLOSE)];
    PlainEmits(a);
    PlainEmits(b);
    PlainEmits(c);
    TypeEmits(ref.typ);
    PatternEmits(End(ref.from), SRC);
    PatternEmits(End(ref.to), DST);
    EmitsConcat(a, from);
    EmitsConcat(a + from, b);
    EmitsConcat(a + from + b, typ);
    EmitsConcat(a + from + b + typ, c);
    EmitsConcat(a + from + b + typ + c, to);
  }

  lemma RelCondsEmit(ref: RelRef, n: nat)
    requires RelOk(ref)
    ensures Emits(RelConds(ref, n), Range(n, n + |RelValues(ref)|),
      CriteriaNames(End(ref.from).criteria) + CriteriaNames(End(ref.to).criteria) + CriteriaNames(ref.criteria))
  {
    hide CriteriaConds, CriteriaValues, CriteriaNames, CriteriaOk, AndThen, WellFormed, Params, Names, AnyBlank;
    var m := n + |CriteriaValues(End(ref.from).criteria)|;
    var k := m + |CriteriaValues(End(ref.to).criteria)|;
    var from, to := CriteriaConds(End(ref.from).criteria, [Text(SRC)], n), CriteriaConds(End(ref.to).criteria, [Text(DST)], m);
    var own := CriteriaConds(ref.criteria, [Text(R)], k);
    CondsOnPlain(End(ref.from).criteria, SRC, n);
    CondsOnPlain(End(ref.to).criteria, DST, m);
    CondsOnPlain(ref.criteria, R, k);
    AndThenEmits(from, to);
    AndThenEmits(AndThen(from, to), own);
    assert Range(n, n + |RelValues(ref)|) == Range(n, m) + Range(m, k) + Range(k, k + |CriteriaValues(ref.criteria)|);
  }

  lemma RelMatchEmits(ref: RelRef, n: nat)
    requires RelOk(ref)
    ensures Emits(RelMatchTokens(ref, n), Range(n, n + |RelValues(ref)|), RelNames(ref))
  {
    hide RelConds, RelPattern, RelValues, Where, RelOk, CriteriaNames, Range, WellFormed, Params, Names, OpenEnd;
    RelPatternEmits(ref);
    RelCondsEmit(ref, n);
    WhereEmits(RelConds(ref, n));
    EmitsConcat(RelPattern(ref), Where(RelConds(ref, n)));
  }

  // MATCH (src)-[r:`T`]->(dst) WHERE ...
  method RelMatch(ref: RelRef, b: Builder) returns (r: Built<seq<Token>>)
    requires b.Valid()
    modifies b
    ensures b.Valid()
    ensures r.Done? <==> RelOk(ref)
    ensures r.Done? ==> r.value == RelMatchTokens(ref, |old(b.vals)|) && b.vals == old(b.vals) + RelValues(ref)
  {
    hide CriteriaConds, CriteriaValues, CriteriaOk, AndThen, Where, RelPattern, AnyBlank;
    var from, to := End(ref.from), End(ref.to);
    ghost var n := |old(b.vals)|;
    if AnyBlank(from.labels) || AnyBlank(to.labels) {
      return Fail(BlankLabel);
    }
    var fromConds := Conditions(from.criteria, [Text(SRC)], b);
    if fromConds.Fail? {
      return fromConds;
    }
    ghost var m := |b.vals|;
    assert m == n + |CriteriaValues(from.criteria)|;
    var toConds := Conditions(to.criteria, [Text(DST)], b);
    if toConds.Fail? {
      return toConds;
    }
    assert |b.vals| == m + |CriteriaValues(to.criteria)|;
    var own := Conditions(ref.criteria, [Text(R)], b);
    if own.Fail? {
      return own;
    }
    r := Done(RelPattern(ref) + Where(AndThen(AndThen(fromConds.value, toConds.value), own.value)));
  }

  // ---------------------------------------------------------------- matches read back

  // The query matches nodes n with these labels, on these conditions.
  ghost predicate SelectsNode(q: Query, ref: NodeRef) {
    ReadMatch(q.text, q.params) == Clause([NodePart(Text("n"), Some(ref.labels), [])], Wanted(ref.criteria, Text("n")))
  }

  // The query matches relationships r from src to dst, of this type, and puts the
  // conditions of each end on that end.
  ghost predicate SelectsRel(q: Query, ref: RelRef) {
    ReadMatch(q.text, q.params) == Clause(
      [NodePart(Text("src"), Some(End(ref.from).labels), []),
       LinkPart(Text("r"), Some(if ref.typ == "" then [] else [ref.typ]), false, true),
       NodePart(Text("dst"), Some(End(ref.to).labels), [])],
      Wanted(End(ref.from).criteria, Text("src")) + Wanted(End(ref.to).criteria, Text("dst")) + Wanted(ref.criteria, Text("r")))
  }

  lemma PatternSteps(done: seq<Element>, ref: NodeRef, v: Plain)
    ensures Steps(Scan(done, Outside), PatternTokens(ref, v)) == Scan(done + [NodeAt(Text(v), LabelTokens(ref.labels, AMP), [])], Outside)
    ensures OneLine(PatternTokens(ref, v))
  {
    hide LabelTokens, Steps, Step, OneLine, IsBreak;
    var labels := LabelTokens(ref.labels, AMP);
    LabelTokensPlain(ref.labels, AMP);
    PatternOneLine(labels, v);
    StepsOpen(done, Text(v));
    StepsJoin(Scan(done, Outside), [Text(OPEN), Text(v)], labels);
    StepsInNode(done, Text(v), [], labels);
    StepsJoin(Scan(done, Outside), [Text(OPEN), Text(v)] + labels, [Text(CLOSE)]);
    StepsClose(done, Text(v), [] + labels);
    assert [] + labels == labels;
  }

  lemma PatternOneLine(labels: seq<Token>, v: Plain)
    requires forall t :: t in labels ==> !t.Between?
    ensures OneLine([Text(OPEN), Text(v)] + labels + [Text(CLOSE)])
  {
    TextsOneLine([Text(OPEN), Text(v)] + labels + [Text(CLOSE)]);
  }

  lemma StepsOpen(done: seq<Element>, v: Token)
    ensures Steps(Scan(done, Outside), [Text(OPEN), v]) == Scan(done, InNode(v, []))
  {
    assert [Text(OPEN), v][1..] == [v] && [v][1..] == [];
    assert Steps(Scan(done, NodeStart), [v]) == Steps(Scan(done, InNode(v, [])), []);
  }

  lemma StepsClose(done: seq<Element>, v: Token, labels: seq<Token>)
    ensures Steps(Scan(done, InNode(v, labels)), [Text(CLOSE)]) == Scan(done + [NodeAt(v, labels, [])], Outside)
  {
    assert [Text(CLOSE)][1..] == [];
  }

  lemma WhereSteps(done: seq<Element>, conds: seq<Token>)
    ensures Steps(Scan(done, Outside), Where(conds)) == Scan(done, if conds == [] then Outside else InWhere(conds))
    ensures Inner(conds) ==> OneLine(Where(conds))
  {
    if conds != [] {
      assert Where(conds)[1..] == conds;
      StepsInWhere(done, [], conds);
      assert [] + conds == conds;
    }
  }

  // What a clause reads as: its pattern's elements and the conditions behind it.
  lemma ClauseRead(pattern: seq<Token>, done: seq<Element>, conds: seq<Token>, rest: seq<Token>, params: map<string, Value>)
    requires Steps(Scan([], Outside), pattern) == Scan(done, Outside) && OneLine(pattern)
    requires Inner(conds) && (rest == [] || IsBreak(rest[0]))
    ensures ReadMatch(pattern + Where(conds) + rest, params) == Clause(ReadParts(done, params), ReadConds(conds, params))
    ensures RestLines(pattern + Where(conds) + rest) == if rest == [] then [] else rest[1..]
    ensures OneLine(pattern + Where(conds))
  {
    hide ReadConds, ReadParts, Where, OneLine, IsBreak, Inner;
    WhereSteps(done, conds);
    OneLineJoin(pattern, Where(conds));
    LineOf(pattern + Where(conds), rest);
    StepsJoin(Scan([], Outside), pattern, Where(conds));
    if conds == [] {
      NoConds(params);
    }
  }

  lemma MatchWord(rest: seq<Token>)
    ensures Steps(Scan([], Outside), [Text(MATCH)] + rest) == Steps(Scan([], Outside), rest)
  {
    assert ([Text(MATCH)] + rest)[1..] == rest;
  }

  lemma NodeMatchRead(ref: NodeRef, v: Plain, n: nat, rest: seq<Token>, params: map<string, Value>)
    requires RefOk(ref) && v != ")" && Gives(params, n, CriteriaValues(ref.criteria)) && (rest == [] || IsBreak(rest[0]))
    ensures ReadMatch(NodeMatchTokens(ref, v, n) + rest, params)
         == Clause([NodePart(Text(v), Some(ref.labels), [])], Wanted(ref.criteria, Text(v)))
    ensures RestLines(NodeMatchTokens(ref, v, n) + rest) == if rest == [] then [] else rest[1..]
    ensures OneLine(NodeMatchTokens(ref, v, n))
  {
    hide ReadConds, CriteriaConds, CriteriaValues, CriteriaOk, PatternTokens, LabelTokens, Gives, OneLine, IsBreak, Inner,
      Where, AnyBlank, ReadMatch, Wanted;
    var pattern := [Text(MATCH)] + PatternTokens(ref, v);
    var done := [NodeAt(Text(v), LabelTokens(ref.labels, AMP), [])];
    MatchWord(PatternTokens(ref, v));
    PatternSteps([], ref, v);
    assert [] + done == done;
    assert OneLine([Text(MATCH)]) by { TextsOneLine([Text(MATCH)]); }
    OneLineJoin([Text(MATCH)], PatternTokens(ref, v));
    CriteriaRead(ref.criteria, Text(v), n, params);
    ClauseRead(pattern, done, CriteriaConds(ref.criteria, [Text(v)], n), rest, params);
    LabelsRead(ref.labels, AMP);
    NoConds(params);
    assert ReadParts(done, params) == [NodePart(Text(v), Some(ref.labels), [])];
  }

  lemma TextsOneLine(ts: seq<Token>)
    requires forall i :: 0 <= i < |ts| ==> !ts[i].Between?
    ensures OneLine(ts)
  {
  }

  lemma TypeRead(typ: string)
    ensures Labels(TypeTokens(typ), "|") == Some(if typ == "" then [] else [typ])
    ensures EndsNoLink(TypeTokens(typ)) && forall i :: 0 <= i < |TypeTokens(typ)| ==> !TypeTokens(typ)[i].Between?
  {
    if typ != "" {
      assert TypeTokens(typ)[1..] == [Name(typ)];
    }
  }

  // The three elements of the relationship pattern.
  function RelElements(ref: RelRef): seq<Element> {
    [NodeAt(Text(SRC), LabelTokens(End(ref.from).labels, AMP), []), LinkAt(Text(R), TypeTokens(ref.typ), false, true),
     NodeAt(Text(DST), LabelTokens(End(ref.to).labels, AMP), [])]
  }

  lemma RelPatternSteps(ref: RelRef)
    ensures Steps(Scan([], Outside), RelPattern(ref)) == Scan(RelElements(ref), Outside) && OneLine(RelPattern(ref))
  {
    hide PatternTokens, LabelTokens, TypeTokens, OneLine, Steps;
    var start := Scan([], Outside);
    var from, to := PatternTokens(End(ref.from), SRC), PatternTokens(End(ref.to), DST);
    var link := [Text(REL_OPEN), Text(R)] + TypeTokens(ref.typ) + [Text(REL_CLOSE)];
    var es := RelElements(ref);
    MatchWord(from);
    PatternSteps([], End(ref.from), SRC);
    assert [] + [es[0]] == [es[0]];
    TypeRead(ref.typ);
    LinkSteps([es[0]], Text(REL_OPEN), Text(R), TypeTokens(ref.typ), Text(REL_CLOSE));
    StepsJoin(start, [Text(MATCH)] + from, link);
    assert [es[0]] + [es[1]] == [es[0], es[1]];
    PatternSteps([es[0], es[1]], End(ref.to), DST);
    StepsJoin(start, [Text(MATCH)] + from + link, to);
    assert [es[0], es[1]] + [es[2]] == es;
    assert RelPattern(ref) == [Text(MATCH)] + from + link + to;
    TextsOneLine([Text(MATCH)]);
    TextsOneLine(link);
    OneLineJoin([Text(MATCH)], from);
    OneLineJoin([Text(MATCH)] + from, link);
    OneLineJoin([Text(MATCH)] + from + link, to);
  }

  lemma RelCondsRead(ref: RelRef, n: nat, params: map<string, Value>)
    requires RelOk(ref) && Gives(params, n, RelValues(ref))
    ensures Inner(RelConds(ref, n))
    ensures ReadConds(RelConds(ref, n), params)
         == Wanted(End(ref.from).criteria, Text(SRC)) + Wanted(End(ref.to).criteria, Text(DST)) + Wanted(ref.criteria, Text(R))
  {
    hide ReadConds, CriteriaConds, CriteriaValues, CriteriaOk, AndThen, Gives, Inner, AnyBlank, Wanted;
    var from, to := End(ref.from).criteria, End(ref.to).criteria;
    var m := n + |CriteriaValues(from)|;
    var k := m + |CriteriaValues(to)|;
    GivesJoin(params, n, CriteriaValues(from) + CriteriaValues(to), CriteriaValues(ref.criteria));
    GivesJoin(params, n, CriteriaValues(from), CriteriaValues(to));
    CriteriaRead(from, Text(SRC), n, params);
    CriteriaRead(to, Text(DST), m, params);
    CriteriaRead(ref.criteria, Text(R), k, params);
    var a, b, c := CriteriaConds(from, [Text(SRC)], n), CriteriaConds(to, [Text(DST)], m), CriteriaConds(ref.criteria, [Text(R)], k);
    ReadAndThen(a, b, params);
    ReadAndThen(AndThen(a, b), c, params);
    AndInner(a, b);
    AndInner(AndThen(a, b), c);
  }

  lemma RelMatchRead(ref: RelRef, n: nat, rest: seq<Token>, params: map<string, Value>)
    requires RelOk(ref) && Gives(params, n, RelValues(ref)) && (rest == [] || IsBreak(rest[0]))
    ensures ReadMatch(RelMatchTokens(ref, n) + rest, params) == Clause(
      [NodePart(Text("src"), Some(End(ref.from).labels), []),
       LinkPart(Text("r"), Some(if ref.typ == "" then [] else [ref.typ]), false, true),
       NodePart(Text("dst"), Some(End(ref.to).labels), [])],
      Wanted(End(ref.from).criteria, Text("src")) + Wanted(End(ref.to).criteria, Text("dst")) + Wanted(ref.criteria, Text("r")))
    ensures OneLine(RelMatchTokens(ref, n))
  {
    hide ReadConds, RelConds, RelValues, RelOk, RelPattern, LabelTokens, TypeTokens, Gives, OneLine, IsBreak, Inner, Where,
      ReadMatch, Wanted, Steps;
    RelPatternSteps(ref);
    RelCondsRead(ref, n, params);
    ClauseRead(RelPattern(ref), RelElements(ref), RelConds(ref, n), rest, params);
    LabelsRead(End(ref.from).labels, AMP);
    LabelsRead(End(ref.to).labels, AMP);
    TypeRead(ref.typ);
    NoConds(params);
    assert ReadParts(RelElements(ref), params) ==
      [NodePart(Text("src"), Some(End(ref.from).labels), []),
       LinkPart(Text("r"), Some(if ref.typ == "" then [] else [ref.typ]), false, true),
       NodePart(Text("dst"), Some(End(ref.to).labels), [])];
  }

  // ---------------------------------------------------------------- the guard

  // The limit is the parameter k.
  function LimitTest(k: nat): seq<Token> {
    [Text(MATCHED), Text(AT_MOST), Param(k)]
  }

  function ItemsCase(): seq<Token> {
    [Between(WHEN), Text(ALLOWED), Between(THEN), Text(ITEMS), Between(ELSE), Text(NOTHING), Between(END)]
  }

  function PerformedTest(): seq<Token> {
    [Text(ALLOWED), Between(AND), Text(MATCHED), Text(MORE), Text(ZERO)]
  }

  function MatchedNone(): seq<Token> {
    [Text(MATCHED), Text(EQUALS), Text(ZERO)]
  }

  // Why nothing changed: nothing matched, which is the parameter k + 1, or too much did.
  function MessageCase(k: nat): seq<Token> {
    [Between(WHEN)] + MatchedNone() + [Between(THEN), Param(k + 1), Between(WHEN), Text(ALLOWED), Between(THEN), Text(NULL),
                                       Between(ELSE), Param(k), Between(END)]
  }

  // Before the mutation: nothing runs unless at most $k entities matched.
  function GuardHead(v: Plain, k: nat): seq<Token> {
    GuardCount(v) + LimitTest(k) + GuardCall() + ItemsCase() + [Between(AS), Text(v), Between(LINE)]
  }

  function GuardCount(v: Plain): seq<Token> {
    [Between(GUARD_COLLECT), Text(v), Between(GUARD_ITEMS), Text(MATCHED), Between(GUARD_TEST)]
  }

  function GuardCall(): seq<Token> {
    [Between(GUARD_ALLOWED), Text(GUARD_UNWIND), Text(CASE)]
  }

  // After it: the one row with the outcome and, when refused, the reason.
  function GuardTail(alias: Plain, k: nat): seq<Token> {
    [Between(AS), Text(alias), Between(GUARD_ROW)] + PerformedTest() + GuardResult(alias) + MessageCase(k + 1) + [Between(AS_MESSAGE)]
  }

  function GuardResult(alias: Plain): seq<Token> {
    [Between(GUARD_PERFORMED), Text(alias), Between(COMMA), Text(CASE)]
  }

  function GuardedTokens(match_: seq<Token>, v: Plain, mutation: seq<Token>, result: seq<Token>, alias: Plain, k: nat): seq<Token> {
    match_ + GuardHead(v, k) + mutation + [Between(GUARD_RETURN)] + result + GuardTail(alias, k)
  }

  // Text that names nothing and refers to nothing.
  ghost predicate Silent(ts: seq<Token>) {
    Emits(ts, {}, {}) && !OpenEnd(ts) && ts != [] && !ts[0].Text?
  }

  lemma HeadTextsSilent(v: Plain)
    ensures Silent(GuardCount(v)) && Silent(GuardCall() + ItemsCase()) && Silent([Between(AS), Text(v), Between(LINE)])
  {
  }

  lemma TailTextsSilent(alias: Plain)
    ensures Silent([Between(AS), Text(alias), Between(GUARD_ROW)]) && Silent(GuardResult(alias)) && Silent([Between(AS_MESSAGE)])
  {
  }

  lemma GuardHeadEmits(v: Plain, k: nat)
    ensures Emits(GuardHead(v, k), {k}, {}) && !OpenEnd(GuardHead(v, k))
    ensures GuardHead(v, k) != [] && !GuardHead(v, k)[0].Text?
  {
    hide GuardCount, GuardCall, ItemsCase, WellFormed, Params, Names;
    var count, call, bind := GuardCount(v), GuardCall() + ItemsCase(), [Between(AS), Text(v), Between(LINE)];
    HeadTextsSilent(v);
    LimitTestEmits(k);
    EmitsConcat(count, LimitTest(k));
    EmitsConcat(call, bind);
    EmitsConcat(count + LimitTest(k), call + bind);
    assert GuardHead(v, k) == count + LimitTest(k) + (call + bind);
  }

  lemma LimitTestEmits(k: nat)
    ensures Emits(LimitTest(k), {k}, {})
  {
    assert LimitTest(k)[2] == Param(k);
  }

  lemma MessageCaseEmits(k: nat)
    ensures Emits(MessageCase(k), {k, k + 1}, {}) && !OpenEnd(MessageCase(k))
    ensures MessageCase(k) != [] && !MessageCase(k)[0].Text?
  {
    assert MessageCase(k)[5] == Param(k + 1) && MessageCase(k)[11] == Param(k);
  }

  lemma GuardTailEmits(alias: Plain, k: nat)
    ensures Emits(GuardTail(alias, k), {k + 1, k + 2}, {}) && GuardTail(alias, k) != [] && !GuardTail(alias, k)[0].Text?
  {
    hide MessageCase, GuardResult, WellFormed, Params, Names;
    var row, test, end := [Between(AS), Text(alias), Between(GUARD_ROW)], PerformedTest(), [Between(AS_MESSAGE)];
    TailTextsSilent(alias);
    PerformedTestEmits();
    MessageCaseEmits(k + 1);
    EmitsConcat(row, test);
    EmitsConcat(row + test, GuardResult(alias));
    EmitsConcat(row + test + GuardResult(alias), MessageCase(k + 1));
    EmitsConcat(row + test + GuardResult(alias) + MessageCase(k + 1), end);
  }

  lemma PerformedTestEmits()
    ensures Emits(PerformedTest(), {}, {}) && !OpenEnd(PerformedTest())
  {
  }

  lemma GuardedEmits(match_: seq<Token>, v: Plain, mutation: seq<Token>, result: seq<Token>, alias: Plain, k: nat)
    requires WellFormed(match_) && WellFormed(mutation) && WellFormed(result) && !OpenEnd(result)
    ensures Emits(GuardedTokens(match_, v, mutation, result, alias, k),
      Params(match_) + Params(mutation) + Params(result) + {k, k + 1, k + 2}, Names(match_) + Names(mutation) + Names(result))
  {
    hide WellFormed, Params, Names, OpenEnd, GuardHead, GuardTail;
    var head, tail, ret := GuardHead(v, k), GuardTail(alias, k), [Between(GUARD_RETURN)];
    GapEmits(GUARD_RETURN);
    GuardHeadEmits(v, k);
    GuardTailEmits(alias, k);
    EmitsConcat(match_, head);
    EmitsConcat(match_ + head, mutation);
    EmitsConcat(match_ + head + mutation, ret);
    EmitsConcat(match_ + head + mutation + ret, result);
    EmitsConcat(match_ + head + mutation + ret + result, tail);
  }

  lemma GapEmits(gap: Gap)
    ensures Emits([Between(gap)], {}, {}) && !OpenEnd([Between(gap)])
  {
  }

  function RefusalMessage(entity: string, maxAffected: nat): string {
    "Nothing was changed: the match selected more " + entity + "s than maxAffected (" + Digits(maxAffected)
      + "). Narrow the match (use id for one exact " + entity
      + "), or raise maxAffected if you really mean to change them all; set dryRun=true to preview first."
  }

  function NoMatchMessage(entity: string): string {
    "Nothing was changed: no " + entity + " matched this selection. Check the id (node ids and relationship ids are different; look the right one up with find-"
      + entity + "s) or the labels, match and filters."
  }

  // What the guard binds: the limit and the two messages.
  function GuardValues(entity: string, maxAffected: nat): seq<Value> {
    [Int(maxAffected), Str(RefusalMessage(entity, maxAffected)), Str(NoMatchMessage(entity))]
  }

  method GuardedMutation(match_: seq<Token>, v: Plain, mutation: seq<Token>, result: seq<Token>, alias: Plain,
                         entity: string, maxAffected: nat, b: Builder) returns (ts: seq<Token>)
    requires b.Valid()
    modifies b
    ensures b.Valid()
    ensures ts == GuardedTokens(match_, v, mutation, result, alias, |old(b.vals)|)
    ensures b.vals == old(b.vals) + GuardValues(entity, maxAffected)
  {
    hide RefusalMessage, NoMatchMessage, GuardCount, GuardCall, GuardResult, ItemsCase, PerformedTest, MatchedNone;
    var limit := b.Param(Int(maxAffected));
    var refusal := b.Param(Str(RefusalMessage(entity, maxAffected)));
    var none := b.Param(Str(NoMatchMessage(entity)));
    var head := GuardCount(v) + [Text(MATCHED), Text(AT_MOST), limit] + GuardCall() + ItemsCase() + [Between(AS), Text(v), Between(LINE)];
    var message := [Between(WHEN)] + MatchedNone() + [Between(THEN), none, Between(WHEN), Text(ALLOWED), Between(THEN), Text(NULL),
                                                      Between(ELSE), refusal, Between(END)];
    var tail := [Between(AS), Text(alias), Between(GUARD_ROW)] + PerformedTest() + GuardResult(alias) + message + [Between(AS_MESSAGE)];
    ts := match_ + head + mutation + [Between(GUARD_RETURN)] + result + tail;
  }

  // Counts what a mutation would touch; binds nothing.
  function DryRunTokens(match_: seq<Token>, v: Plain): seq<Token> {
    match_ + DryRunTail(v)
  }

  function DryRunTail(v: Plain): seq<Token> {
    [Between(DRY_COUNT), Text(v), Between(DRY_COLLECT), Text(v), Between(DRY_SAMPLE), Between(DRY_IDS), Text(FALSE), Between(DRY_ROW), Text(CASE)]
      + DryCase() + [Between(AS_MESSAGE)]
  }

  function DryCase(): seq<Token> {
    [Between(WHEN)] + MatchedNone() + [Between(THEN), Literal(DRY_NOTHING), Between(ELSE), Literal(DRY_DONE), Between(END)]
  }

  lemma DryTailSilent(v: Plain)
    ensures Silent(DryRunTail(v))
  {
  }

  lemma DryRunEmits(match_: seq<Token>, v: Plain)
    requires WellFormed(match_)
    ensures Emits(DryRunTokens(match_, v), Params(match_), Names(match_))
  {
    hide DryRunTail, WellFormed, Params, Names;
    DryTailSilent(v);
    EmitsConcat(match_, DryRunTail(v));
  }

  // ---------------------------------------------------------------- what the guard decides

  // However many entities match, a guarded query changes them all if they are no more
  // than the limit and none otherwise, says so, and gives the reason when it changed none.
  ghost predicate Guarded(q: Query, v: Token, entity: string, maxAffected: nat) {
    forall matched: nat ::
      RunGuarded(Behind(q.text), v, matched, q.params) == Some(
        Outcome(if matched <= maxAffected then matched else 0, 1 <= matched <= maxAffected,
                if matched == 0 then Str(NoMatchMessage(entity))
                else if matched <= maxAffected then Nil
                else Str(RefusalMessage(entity, maxAffected))))
  }

  // However many match, a preview changes nothing and says which.
  ghost predicate Previewed(q: Query, v: Token) {
    forall matched: nat ::
      RunPreview(Behind(q.text), v, matched, q.params) == Some(
        Outcome(0, false, Str(
          if matched == 0 then "dryRun: nothing matched this selection, so a real call would change nothing"
          else "dryRun: nothing was changed")))
  }

  lemma LimitDecides(k: nat, env: Env, matched: nat, limit: nat, params: map<string, Value>)
    requires "matched" in env && env["matched"] == matched && ValueOf(Param(k), params) == Some(Int(limit))
    ensures Holds(LimitTest(k), env, params) == Some(matched <= limit)
  {
    hide ValueOf;
    assert LimitTest(k)[0] == Text("matched") && LimitTest(k)[1] == Text(" <= ");
  }

  lemma NoneDecides(env: Env, matched: nat, params: map<string, Value>)
    requires "matched" in env && env["matched"] == matched && "0" !in env
    ensures Holds(MatchedNone(), env, params) == Some(matched == 0)
  {
    assert MatchedNone()[1] == Text(" = ") && MatchedNone()[2] == Text("0");
  }

  lemma AllowedDecides(env: Env, allowed: bool, params: map<string, Value>)
    requires "allowed" in env && env["allowed"] == Flag(allowed)
    ensures Holds([Text(ALLOWED)], env, params) == Some(allowed)
  {
  }

  lemma ItemsDecide(env: Env, allowed: bool, params: map<string, Value>)
    requires "allowed" in env && env["allowed"] == Flag(allowed)
    ensures Chosen(ItemsCase(), env, params) == Some(if allowed then Text("items") else Text("[]"))
  {
    hide Holds;
    var rest: seq<Token> := [Between(ELSE), Text(NOTHING), Between(END)];
    AllowedDecides(env, allowed, params);
    WhenChosen([Text(ALLOWED)], Text(ITEMS), rest, env, params);
    assert ItemsCase() == [Between(WHEN)] + ([Text(ALLOWED)] + ([Between(THEN)] + ([Text(ITEMS)] + rest)));
  }

  lemma PerformedDecides(env: Env, matched: nat, allowed: bool, params: map<string, Value>)
    requires "matched" in env && env["matched"] == matched && "0" !in env
    requires "allowed" in env && env["allowed"] == Flag(allowed)
    ensures Holds(PerformedTest(), env, params) == Some(allowed && matched > 0)
  {
    hide Holds;
    var some: seq<Token> := [Text(MATCHED), Text(MORE), Text(ZERO)];
    assert some[1] == Text(" > ") && some[2] == Text("0");
    assert Fact(some, env, params) == Some(matched > 0);
    BothHold([Text(ALLOWED)], some, env, params);
    assert PerformedTest() == [Text(ALLOWED)] + ([Between(AND)] + some);
  }

  lemma MessageDecides(k: nat, env: Env, matched: nat, allowed: bool, params: map<string, Value>)
    requires "matched" in env && env["matched"] == matched && "0" !in env
    requires "allowed" in env && env["allowed"] == Flag(allowed)
    ensures Chosen(MessageCase(k), env, params)
         == Some(if matched == 0 then Param(k + 1) else if allowed then Text("null") else Param(k))
  {
    hide Holds;
    var rest: seq<Token> := [Between(ELSE), Param(k), Between(END)];
    var when: seq<Token> := [Between(WHEN)] + ([Text(ALLOWED)] + ([Between(THEN)] + ([Text(NULL)] + rest)));
    NoneDecides(env, matched, params);
    AllowedDecides(env, allowed, params);
    WhenChosen([Text(ALLOWED)], Text(NULL), rest, env, params);
    WhenChosen(MatchedNone(), Param(k + 1), when, env, params);
    assert MessageCase(k) == [Between(WHEN)] + (MatchedNone() + ([Between(THEN)] + ([Param(k + 1)] + when)));
  }

  lemma GuardHeadParts(v: Plain, k: nat)
    ensures |GuardHead(v, k)| == 21 && GuardOpens(GuardHead(v, k), Text(v))
    ensures GuardHead(v, k)[5..8] == LimitTest(k) && GuardHead(v, k)[11..18] == ItemsCase()
  {
  }

  lemma GuardTailParts(alias: Plain, k: nat)
    ensures |GuardTail(alias, k)| == 26 && GuardCloses(GuardTail(alias, k))
    ensures GuardTail(alias, k)[3..8] == PerformedTest() && GuardTail(alias, k)[12..25] == MessageCase(k + 1)
  {
  }

  lemma GuardRuns(ts: seq<Token>, v: Plain, middle: seq<Token>, alias: Plain, k: nat, matched: nat, limit: nat, params: map<string, Value>)
    requires ts == GuardHead(v, k) + middle + GuardTail(alias, k)
    requires ValueOf(Param(k), params) == Some(Int(limit))
    requires ValueOf(Param(k + 1), params).Some? && ValueOf(Param(k + 2), params).Some?
    ensures RunGuarded(ts, Text(v), matched, params) == Some(
      Outcome(if matched <= limit then matched else 0, 1 <= matched <= limit,
              if matched == 0 then ValueOf(Param(k + 2), params).value
              else if matched <= limit then Nil
              else ValueOf(Param(k + 1), params).value))
  {
    hide GuardHead, GuardTail, GuardOpens, GuardCloses, Holds, Chosen, ValueOf, LimitTest, ItemsCase, PerformedTest,
      MessageCase;
    GuardHeadParts(v, k);
    GuardTailParts(alias, k);
    assert ts[..21] == GuardHead(v, k) && ts[|ts| - 26..] == GuardTail(alias, k);
    LimitDecides(k, map["matched" := matched], matched, limit, params);
    var allowed := matched <= limit;
    var env := map["matched" := matched, "allowed" := Flag(allowed)];
    ItemsDecide(env, allowed, params);
    PerformedDecides(env, matched, allowed, params);
    MessageDecides(k + 1, env, matched, allowed, params);
  }

  lemma GuardBound(vals: seq<Value>, limit: Value, refusal: Value, nothing: Value)
    ensures var k, params := |vals|, Bound(vals + [limit, refusal, nothing]);
      && ValueOf(Param(k), params) == Some(limit) && ValueOf(Param(k + 1), params) == Some(refusal)
      && ValueOf(Param(k + 2), params) == Some(nothing)
  {
    hide Bound, ParamName;
    var all := vals + [limit, refusal, nothing];
    BoundValues(all, |vals|);
    BoundValues(all, |vals| + 1);
    BoundValues(all, |vals| + 2);
  }

  // With the guard's values bound last, that is what the guarded template decides.
  lemma GuardReadsItsValues(q: Query, match_: seq<Token>, v: Plain, mutation: seq<Token>, result: seq<Token>, alias: Plain,
                            vals: seq<Value>, entity: string, maxAffected: nat)
    requires OneLine(match_) && q.text == GuardedTokens(match_, v, mutation, result, alias, |vals|)
    requires q.params == Bound(vals + GuardValues(entity, maxAffected))
    ensures Guarded(q, Text(v), entity, maxAffected)
  {
    hide Bound, ParamName, GuardHead, GuardTail, RefusalMessage, NoMatchMessage, RunGuarded, OneLine, ValueOf, IsBreak;
    var k := |vals|;
    var middle := mutation + [Between(GUARD_RETURN)] + result;
    var rest := GuardHead(v, k) + middle + GuardTail(alias, k);
    GuardHeadBreaks(v, k);
    assert q.text == match_ + rest && rest[0] == GuardHead(v, k)[0];
    LineOf(match_, rest);
    GuardBound(vals, Int(maxAffected), Str(RefusalMessage(entity, maxAffected)), Str(NoMatchMessage(entity)));
    forall matched: nat ensures RunGuarded(Behind(q.text), Text(v), matched, q.params) == Some(
        Outcome(if matched <= maxAffected then matched else 0, 1 <= matched <= maxAffected,
                if matched == 0 then Str(NoMatchMessage(entity))
                else if matched <= maxAffected then Nil
                else Str(RefusalMessage(entity, maxAffected)))) {
      GuardRuns(rest, v, middle, alias, k, matched, maxAffected, q.params);
    }
  }

  lemma DryParts(v: Plain)
    ensures PreviewFrame(DryRunTail(v), Text(v)) && DryRunTail(v)[9..18] == DryCase() && IsBreak(DryRunTail(v)[0])
  {
  }

  lemma DryDecides(matched: nat, params: map<string, Value>)
    ensures Chosen(DryCase(), map["matched" := matched], params) == Some(Literal(if matched == 0 then DRY_NOTHING else DRY_DONE))
  {
    hide Holds;
    var env, rest := map["matched" := matched], [Between(ELSE), Literal(DRY_DONE), Between(END)];
    NoneDecides(env, matched, params);
    WhenChosen(MatchedNone(), Literal(DRY_NOTHING), rest, env, params);
    assert DryCase() == [Between(WHEN)] + (MatchedNone() + ([Between(THEN)] + ([Literal(DRY_NOTHING)] + rest)));
  }

  lemma DryRunPreviews(q: Query, match_: seq<Token>, v: Plain)
    requires OneLine(match_) && q.text == DryRunTokens(match_, v)
    ensures Previewed(q, Text(v))
  {
    hide DryRunTail, DryCase, PreviewFrame, Chosen, OneLine;
    DryParts(v);
    LineOf(match_, DryRunTail(v));
    assert Behind(q.text) == DryRunTail(v);
    forall matched: nat ensures RunPreview(Behind(q.text), Text(v), matched, q.params)
      == Some(Outcome(0, false, Str(
        if matched == 0 then "dryRun: nothing matched this selection, so a real call would change nothing"
        else "dryRun: nothing was changed"))) {
      DryDecides(matched, q.params);
    }
  }

  // ---------------------------------------------------------------- mutations read back

  lemma GuardHeadCut(v: Plain, k: nat)
    ensures |GuardHead(v, k)| == 21
    ensures GuardHead(v, k) == GuardHead(v, k)[..20] + [Between("\n  ")] && Between("\n  ") !in GuardHead(v, k)[..20]
  {
    var gaps := [GUARD_COLLECT, GUARD_ITEMS, GUARD_TEST, GUARD_ALLOWED];
    assert gaps[0][1] == 'W' && gaps[1][0] == ')' && gaps[2][1] == 'W' && gaps[3][0] == ' ';
  }

  // The mutation of a guarded text is the part between its indentation and its RETURN.
  lemma GuardedMutationRead(match_: seq<Token>, v: Plain, mutation: seq<Token>, result: seq<Token>, alias: Plain, k: nat)
    requires OneLine(match_) && Between(GUARD_RETURN) !in mutation
    ensures Mutation(GuardedTokens(match_, v, mutation, result, alias, k)) == mutation
  {
    hide GuardHead, GuardTail, UpTo, PastFirst;
    var head, rest := GuardHead(v, k), result + GuardTail(alias, k);
    GuardHeadCut(v, k);
    NoBreaks(match_);
    CutAt(match_ + head[..20], Between(LINE), mutation + ([Between(GUARD_RETURN)] + rest));
    CutAt(mutation, Between(GUARD_RETURN), rest);
    assert GuardedTokens(match_, v, mutation, result, alias, k)
        == match_ + head[..20] + ([Between(LINE)] + (mutation + ([Between(GUARD_RETURN)] + rest)));
  }

  lemma GuardHeadNoReturn(v: Plain, k: nat)
    ensures Between("\n  RETURN ") !in GuardHead(v, k)
  {
    var gaps := [GUARD_COLLECT, GUARD_ITEMS, GUARD_TEST, GUARD_ALLOWED];
    assert gaps[0][1] == 'W' && gaps[1][0] == ')' && gaps[2][1] == 'W' && gaps[3][0] == ' ' && |LINE| == 3;
  }

  // What is handed back stands between that RETURN and the last row.
  lemma ResultRead(match_: seq<Token>, v: Plain, mutation: seq<Token>, result: seq<Token>, alias: Plain, k: nat)
    requires OneLine(match_) && Between(GUARD_RETURN) !in mutation
    ensures var rest := Behind(GuardedTokens(match_, v, mutation, result, alias, k)); Result(rest) == result && ResultName(rest) == alias
  {
    hide GuardHead, GuardTail, PastFirst, OneLine, IsBreak;
    var rest := GuardHead(v, k) + mutation + ([Between(GUARD_RETURN)] + (result + GuardTail(alias, k)));
    GuardHeadNoReturn(v, k);
    GuardHeadBreaks(v, k);
    GuardTailParts(alias, k);
    assert GuardedTokens(match_, v, mutation, result, alias, k) == match_ + rest && rest[0] == GuardHead(v, k)[0];
    LineOf(match_, rest);
    CutAt(GuardHead(v, k) + mutation, Between(GUARD_RETURN), result + GuardTail(alias, k));
    assert rest[|rest| - 25] == GuardTail(alias, k)[1];
    assert GuardTail(alias, k)[1] == Text(alias) by { TailNames(alias, k); }
  }

  lemma TailNames(alias: Plain, k: nat)
    ensures |GuardTail(alias, k)| > 1 && GuardTail(alias, k)[1] == Text(alias)
  {
  }

  lemma NoBreaks(ts: seq<Token>)
    requires OneLine(ts)
    ensures Between("\n  ") !in ts
  {
  }

  // A preview changes nothing.
  lemma DryRunRead(match_: seq<Token>, v: Plain, params: map<string, Value>)
    requires OneLine(match_)
    ensures ReadMutation(DryRunTokens(match_, v), params) == []
  {
    hide UpTo, PastFirst, DryRunTail;
    NoBreaks(match_);
    DryRunCut(v);
    CutAt(match_ + DryRunTail(v), Between(LINE), []);
    CutAt([], Between(GUARD_RETURN), []);
  }

  lemma DryRunCut(v: Plain)
    ensures Between("\n  ") !in DryRunTail(v)
  {
    var gaps := [DRY_COUNT, DRY_COLLECT, DRY_SAMPLE, DRY_ROW];
    assert gaps[0][1] == 'W' && gaps[1][0] == ')' && gaps[2][0] == ')' && gaps[3][0] == ' ';
  }

  lemma PiecesThen(a: seq<Token>, sep: Gap, b: seq<Token>)
    ensures Pieces(Then(a, sep, b), Between(sep)) == Pieces(a, Between(sep)) + Pieces(b, Between(sep))
  {
    if a != [] && b != [] {
      assert a + [Between(sep)] + b == a + ([Between(sep)] + b);
      SplitJoined(a, b, Between(sep));
    }
  }

  // A line of the mutation that stands alone.
  lemma OneLineRead(ts: seq<Token>, params: map<string, Value>)
    requires Between("\n  ") !in ts
    ensures ReadLines(Pieces(ts, Between("\n  ")), params) == if ts == [] then [] else ReadActions(ts, params)
  {
    hide ReadActions;
    PiecesWhole(ts, Between(LINE));
    if ts != [] {
      assert [ts][1..] == [];
    }
  }

  lemma LinesThenRead(a: seq<Token>, b: seq<Token>, params: map<string, Value>)
    ensures ReadLines(Pieces(Then(a, LINE, b), Between("\n  ")), params)
         == ReadLines(Pieces(a, Between("\n  ")), params) + ReadLines(Pieces(b, Between("\n  ")), params)
  {
    hide ReadLines, Pieces, Then;
    PiecesThen(a, LINE, b);
    ReadLinesJoin(Pieces(a, Between(LINE)), Pieces(b, Between(LINE)), params);
  }

  // ---------------------------------------------------------------- arguments

  // 0 stands for "not supplied".
  function IntInRange(n: int, def: int, lo: int, hi: int): Built<int> {
    if n == 0 then Done(def) else if n < lo || n > hi then Fail(OutOfRange) else Done(n)
  }

  const DEFAULT_MAX_AFFECTED := 1
  const MAX_MAX_AFFECTED := 1000

  function ResolveMaxAffected(n: int): (r: Built<int>)
    ensures r.Done? <==> n == 0 || 1 <= n <= 1000
    ensures r.Done? ==> r.value == if n == 0 then 1 else n
  {
    IntInRange(n, DEFAULT_MAX_AFFECTED, 1, MAX_MAX_AFFECTED)
  }

  // An update or deletion that does not say otherwise may affect one entity.
  function GuardLimit(maxAffected: int): nat {
    if maxAffected <= 0 then 1 else maxAffected
  }

  predicate AnyBlankKey(m: map<string, Value>) {
    exists k :: k in m && IsBlank(k)
  }

  // What a finished build promises: its code refers to exactly the parameters it
  // binds, these are `vals` in order, and the only caller text in it is the
  // quoted `names`.
  ghost predicate Closed(q: Query, vals: seq<Value>, names: set<string>) {
    && ParameterClosed(q.Cypher(), q.params)
    && q.params == Bound(vals)
    && Names(q.text) == names
  }

  lemma EmitsClosed(q: Query, vals: seq<Value>, names: set<string>)
    requires Emits(q.text, Range(0, |vals|), names) && q.params == Bound(vals)
    ensures Closed(q, vals, names)
  {
    ClosedWhenParamsMatch(q.text, vals);
  }

  // ---------------------------------------------------------------- delete-node, delete-relationship

  datatype DeleteNodeInput = DeleteNodeInput(ref: NodeRef, detach: bool, maxAffected: int, dryRun: bool)

  predicate DeleteNodeOk(in_: DeleteNodeInput) {
    HasPredicate(in_.ref.criteria) && ResolveMaxAffected(in_.maxAffected).Done? && RefOk(in_.ref)
  }

  function MutationValues(dryRun: bool, entity: string, maxAffected: int): seq<Value> {
    var m := ResolveMaxAffected(maxAffected);
    if dryRun || m.Fail? then [] else GuardValues(entity, m.value)
  }

  // A deletion, or its preview; the guard's parameters start at k.
  function DeleteText(match_: seq<Token>, v: Plain, delete: seq<Token>, dryRun: bool, k: nat): seq<Token> {
    if dryRun then DryRunTokens(match_, v) else GuardedTokens(match_, v, delete, [Text(COUNT)], DELETED, k)
  }

  function DeleteNodeText(in_: DeleteNodeInput): seq<Token> {
    DeleteText(NodeMatchTokens(in_.ref, N, 0), N,
               if in_.detach then [Text(DETACH), Text(DELETE), Text(N)] else [Text(DELETE), Text(N)],
               in_.dryRun, |CriteriaValues(in_.ref.criteria)|)
  }

  // The text is the match followed by a line break.
  lemma GuardedBreaks(match_: seq<Token>, v: Plain, mutation: seq<Token>, result: seq<Token>, alias: Plain, k: nat) returns (rest: seq<Token>)
    ensures GuardedTokens(match_, v, mutation, result, alias, k) == match_ + rest && rest != [] && IsBreak(rest[0])
  {
    hide GuardTail;
    rest := GuardHead(v, k) + mutation + [Between(GUARD_RETURN)] + result + GuardTail(alias, k);
    GuardHeadBreaks(v, k);
  }

  lemma GuardHeadBreaks(v: Plain, k: nat)
    ensures GuardHead(v, k) != [] && IsBreak(GuardHead(v, k)[0])
  {
  }

  lemma DryRunBreaks(match_: seq<Token>, v: Plain) returns (rest: seq<Token>)
    ensures DryRunTokens(match_, v) == match_ + rest && rest != [] && IsBreak(rest[0])
  {
    rest := DryRunTail(v);
  }

  lemma DeleteLineRead(v: Plain, detach: bool, params: map<string, Value>)
    ensures var del := if detach then [Text(DETACH), Text(DELETE), Text(v)] else [Text(DELETE), Text(v)];
      ReadLines(Pieces(del, Between("\n  ")), params) == [Delete(Text(v), detach)] && Between(GUARD_RETURN) !in del
  {
    hide ReadLines, Pieces;
    OneLineRead(if detach then [Text(DETACH), Text(DELETE), Text(v)] else [Text(DELETE), Text(v)], params);
  }

  // All the query does to what it matches is to delete it and count that, or nothing for a preview.
  ghost predicate Deletes(q: Query, v: Token, detach: bool, dryRun: bool) {
    && ReadMutation(q.text, q.params) == (if dryRun then [] else [Delete(v, detach)])
    && (dryRun || (Result(Behind(q.text)) == [Text("count(*)")] && ResultName(Behind(q.text)) == "deleted"))
  }

  // A deletion read back: nothing for a preview.
  lemma DeleteRead(match_: seq<Token>, v: Plain, detach: bool, dryRun: bool, k: nat, params: map<string, Value>)
    requires OneLine(match_)
    ensures var del := if detach then [Text(DETACH), Text(DELETE), Text(v)] else [Text(DELETE), Text(v)];
      && ReadMutation(DeleteText(match_, v, del, dryRun, k), params) == (if dryRun then [] else [Delete(Text(v), detach)])
      && var rest := Behind(DeleteText(match_, v, del, dryRun, k)); dryRun || (Result(rest) == [Text(COUNT)] && ResultName(rest) == DELETED)
  {
    hide GuardedTokens, DryRunTokens, Mutation, ReadLines, Pieces, OneLine, Result, ResultName;
    var del := if detach then [Text(DETACH), Text(DELETE), Text(v)] else [Text(DELETE), Text(v)];
    if dryRun {
      DryRunRead(match_, v, params);
    } else {
      DeleteLineRead(v, detach, params);
      GuardedMutationRead(match_, v, del, [Text(COUNT)], DELETED, k);
      ResultRead(match_, v, del, [Text(COUNT)], DELETED, k);
    }
  }

  // The outcome, for a preview and for the mutation proper.
  ghost predicate Decides(q: Query, v: Token, entity: string, maxAffected: int, dryRun: bool) {
    if dryRun then Previewed(q, v) else Guarded(q, v, entity, GuardLimit(maxAffected))
  }

  lemma OutcomeRead(q: Query, match_: seq<Token>, v: Plain, mutation: seq<Token>, result: seq<Token>, alias: Plain,
                    vals: seq<Value>, entity: string, maxAffected: int, dryRun: bool)
    requires OneLine(match_) && ResolveMaxAffected(maxAffected).Done?
    requires q.text == if dryRun then DryRunTokens(match_, v) else GuardedTokens(match_, v, mutation, result, alias, |vals|)
    requires q.params == Bound(vals + MutationValues(dryRun, entity, maxAffected))
    ensures Decides(q, Text(v), entity, maxAffected, dryRun)
  {
    hide GuardedTokens, DryRunTokens, GuardValues, Bound, OneLine, Guarded, Previewed;
    if dryRun {
      DryRunPreviews(q, match_, v);
    } else {
      GuardReadsItsValues(q, match_, v, mutation, result, alias, vals, entity, GuardLimit(maxAffected));
    }
  }

  lemma DeleteNodeReads(in_: DeleteNodeInput, q: Query)
    requires DeleteNodeOk(in_) && q.text == DeleteNodeText(in_)
    requires q.params == Bound(CriteriaValues(in_.ref.criteria) + MutationValues(in_.dryRun, "node", in_.maxAffected))
    ensures SelectsNode(q, in_.ref) && Deletes(q, Text("n"), in_.detach, in_.dryRun)
    ensures Decides(q, Text("n"), "node", in_.maxAffected, in_.dryRun)
  {
    hide Decides, HandsBack, Result, ResultName, ReadShown, CriteriaValues, RefOk, NodeMatchTokens, GuardedTokens, DryRunTokens,
      GuardValues, ReadMatch, ReadMutation, Bound, Gives, Wanted, HasPredicate, OneLine, IsBreak, ResolveMaxAffected;
    var match_ := NodeMatchTokens(in_.ref, N, 0);
    var vals, k := CriteriaValues(in_.ref.criteria), |CriteriaValues(in_.ref.criteria)|;
    var del: seq<Token> := if in_.detach then [Text(DETACH), Text(DELETE), Text(N)] else [Text(DELETE), Text(N)];
    BoundGives(vals + MutationValues(in_.dryRun, "node", in_.maxAffected));
    GivesJoin(q.params, 0, vals, MutationValues(in_.dryRun, "node", in_.maxAffected));
    var rest;
    if in_.dryRun {
      rest := DryRunBreaks(match_, N);
    } else {
      rest := GuardedBreaks(match_, N, del, [Text(COUNT)], DELETED, k);
    }
    NodeMatchRead(in_.ref, N, 0, rest, q.params);
    DeleteRead(match_, N, in_.detach, in_.dryRun, k, q.params);
    OutcomeRead(q, match_, N, del, [Text(COUNT)], DELETED, vals, "node", in_.maxAffected, in_.dryRun);
  }

  method BuildDeleteNode(in_: DeleteNodeInput) returns (r: Built<Query>)
    ensures r.Done? <==> DeleteNodeOk(in_)
    ensures r.Done? ==> SelectsNode(r.value, in_.ref) && Deletes(r.value, Text("n"), in_.detach, in_.dryRun)
    ensures r.Done? ==> r.value.write == !in_.dryRun && r.value.text == DeleteNodeText(in_)
    ensures r.Done? ==> Decides(r.value, Text("n"), "node", in_.maxAffected, in_.dryRun)
    ensures r.Done? ==> Closed(r.value,
      CriteriaValues(in_.ref.criteria) + MutationValues(in_.dryRun, "node", in_.maxAffected), RefNames(in_.ref))
  {
    hide CriteriaValues, RefOk, NodeMatchTokens, RefNames, GuardedTokens, DryRunTokens, GuardValues, Closed, Decides, Bound,
      WellFormed, Params, Names, SelectsNode, Deletes;
    if !HasPredicate(in_.ref.criteria) {
      return Fail(NoPredicate);
    }
    var maxAffected := ResolveMaxAffected(in_.maxAffected);
    if maxAffected.Fail? {
      return Fail(maxAffected.error);
    }
    var b := new Builder();
    var m := NodeMatch(in_.ref, N, b);
    if m.Fail? {
      return Fail(m.error);
    }
    NodeMatchEmits(in_.ref, N, 0);
    if in_.dryRun {
      r := Done(Query(DryRunTokens(m.value, N), b.params, false));
      DryRunEmits(m.value, N);
      EmitsClosed(r.value, b.vals, RefNames(in_.ref));
      assert b.vals == CriteriaValues(in_.ref.criteria) + [];
      DeleteNodeReads(in_, r.value);
      return;
    }
    var del: seq<Token> := if in_.detach then [Text(DETACH), Text(DELETE), Text(N)] else [Text(DELETE), Text(N)];
    ghost var k := |b.vals|;
    var text := GuardedMutation(m.value, N, del, [Text(COUNT)], DELETED, "node", maxAffected.value, b);
    PlainEmits(del);
    PlainEmits([Text(COUNT)]);
    GuardedEmits(m.value, N, del, [Text(COUNT)], DELETED, k);
    r := Done(Query(text, b.params, true));
    assert b.vals == CriteriaValues(in_.ref.criteria) + GuardValues("node", maxAffected.value);
    GuardClosed(r.value, CriteriaValues(in_.ref.criteria), "node", maxAffected.value, RefNames(in_.ref));
    DeleteNodeReads(in_, r.value);
  }

  lemma PlainEmits(ts: seq<Token>)
    requires forall i :: 0 <= i < |ts| ==> ts[i].Text?
    ensures Emits(ts, {}, {}) && !OpenEnd(ts)
  {
  }

  // A guarded build binds its guard after everything else.
  lemma GuardClosed(q: Query, vals: seq<Value>, entity: string, maxAffected: nat, names: set<string>)
    requires Emits(q.text, Range(0, |vals|) + {|vals|, |vals| + 1, |vals| + 2}, names)
    requires q.params == Bound(vals + GuardValues(entity, maxAffected))
    ensures Closed(q, vals + GuardValues(entity, maxAffected), names)
  {
    hide Emits, RefusalMessage, NoMatchMessage, Bound;
    assert Range(0, |vals| + 3) == Range(0, |vals|) + {|vals|, |vals| + 1, |vals| + 2};
    EmitsClosed(q, vals + GuardValues(entity, maxAffected), names);
  }

  // .`k1`, .`k2`, ...
  function DotNames(props: seq<string>): seq<Token> {
    if props == [] then [] else Then(DotNames(props[..|props| - 1]), COMMA, [Text(DOT), Name(props[|props| - 1])])
  }

  lemma {:induction false} DotNamesEmit(props: seq<string>)
    ensures Emits(DotNames(props), {}, set p | p in props)
  {
    if props != [] {
      var last := |props| - 1;
      var one := [Text(DOT), Name(props[last])];
      DotNamesEmit(props[..last]);
      assert one[1] == Name(props[last]);
      assert Emits(one, {}, {props[last]});
      ThenEmits(DotNames(props[..last]), COMMA, one);
      assert props == props[..last] + [props[last]];
    }
  }

  // {id, labels, properties} of the node `v`: all its properties, or just the named ones.
  function NodeMap(v: Token, props: seq<string>): seq<Token> {
    if props == [] then [Text(ID_OF), v, Text(LABELS_OF), v, Text(NODE_PROPERTIES), v, Text(MAP_END)]
    else [Text(ID_OF), v, Text(LABELS_OF), v, Text(PROPERTIES), v, Text(BRACE)] + DotNames(props) + [Between(CLOSING)]
  }

  lemma NodeMapEmits(v: Token, props: seq<string>)
    requires v.Text? || v.Name?
    ensures Emits(NodeMap(v, props), {}, (set p | p in props) + if v.Name? then {v.name} else {})
    ensures !OpenEnd(NodeMap(v, props))
  {
    if props != [] {
      NamedMapEmits(v, props);
    }
  }

  lemma NamedMapEmits(v: Token, props: seq<string>)
    requires (v.Text? || v.Name?) && props != []
    ensures Emits(NodeMap(v, props), {}, (set p | p in props) + if v.Name? then {v.name} else {})
    ensures !OpenEnd(NodeMap(v, props))
  {
    hide DotNames, WellFormed, Params, Names, OpenEnd;
    var head := [Text(ID_OF), v, Text(LABELS_OF), v, Text(PROPERTIES), v, Text(BRACE)];
    NamedMapHead(v);
    DotNamesEmit(props);
    EmitsConcat(head, DotNames(props));
    GapEmits(CLOSING);
    EmitsConcat(head + DotNames(props), [Between(CLOSING)]);
  }

  lemma NamedMapHead(v: Token)
    requires v.Text? || v.Name?
    ensures var head := [Text(ID_OF), v, Text(LABELS_OF), v, Text(PROPERTIES), v, Text(BRACE)];
      Emits(head, {}, if v.Name? then {v.name} else {}) && !OpenEnd(head)
  {
    assert [Text(ID_OF), v, Text(LABELS_OF), v, Text(PROPERTIES), v, Text(BRACE)][1] == v;
  }

  // {id, type, from, to, properties} of a relationship, with all its properties.
  function RelMap(v: Plain): seq<Token> {
    [Text(ID_OF), Text(v), Text(TYPE_OF), Text(v), Text(FROM_OF), Text(v), Text(TO_OF), Text(v), Text(REL_PROPERTIES), Text(v), Text(MAP_END)]
  }

  function Collect(map_: seq<Token>): seq<Token> {
    [Text(COLLECT)] + map_ + [Text(CLOSE)]
  }

  // ---------------------------------------------------------------- maps read back

  lemma {:induction false} DotNamesRead(props: seq<string>)
    ensures Dotted(Pieces(DotNames(props), Between(", "))) == Some(props)
    ensures forall t :: t in DotNames(props) ==> t.Name? || WordOf(t) == "." || WordOf(t) == ", "
  {
    hide Dotted, Then, Pieces;
    if props == [] {
      NoDots();
    } else {
      var before, one := props[..|props| - 1], [Text(DOT), Name(props[|props| - 1])];
      DotNamesRead(before);
      PiecesThen(DotNames(before), COMMA, one);
      OneDot(props[|props| - 1]);
      DottedJoin(Pieces(DotNames(before), Between(COMMA)), Pieces(one, Between(COMMA)));
      ThenTokens(DotNames(before), COMMA, one);
      assert props == before + [props[|props| - 1]];
    }
  }

  lemma NoDots()
    ensures Dotted(Pieces([], Between(", "))) == Some([])
  {
  }

  lemma OneDot(name: string)
    ensures Dotted(Pieces([Text(DOT), Name(name)], Between(", "))) == Some([name])
  {
    var one: seq<Token> := [Text(DOT), Name(name)];
    PiecesWhole(one, Between(COMMA));
    assert [one][1..] == [] && one[0] == Text(".") && [name] + [] == [name];
  }

  // A variable that is not a closing bracket.
  ghost predicate PlainVariable(v: Token) {
    v.Name? || (v.Text? && v.text != "" && v.text[0] != ')' && v.text[0] != '}' && v.text[0] != ',')
  }

  lemma NodeMapRead(v: Token, props: seq<string>)
    requires PlainVariable(v)
    ensures OneMap(NodeMap(v, props))
    ensures ReadShown(NodeMap(v, props)) == NodeShown(v, if props == [] then All else Only(props))
  {
    if props == [] {
      AllPropsRead(v);
    } else {
      SomePropsRead(v, props);
    }
  }

  lemma NodeOpens(v: Token, rest: seq<Token>)
    ensures var ts := [Text(ID_OF), v, Text(LABELS_OF), v] + rest;
      ReadShown(ts) == if NodeProps(rest, v).Some? then NodeShown(v, NodeProps(rest, v).value) else Unshown
  {
    hide NodeProps;
    var head: seq<Token> := [Text(ID_OF), v, Text(LABELS_OF), v];
    assert (head + rest)[..4] == head && (head + rest)[4..] == rest;
    assert OpensNode(head);
  }

  lemma AllPropsRead(v: Token)
    requires PlainVariable(v)
    ensures OneMap(NodeMap(v, [])) && ReadShown(NodeMap(v, [])) == NodeShown(v, All)
  {
    hide Unclosed, OneMap, ReadShown;
    var head: seq<Token>, rest: seq<Token> := [Text(ID_OF), v, Text(LABELS_OF), v], [Text(NODE_PROPERTIES), v, Text(MAP_END)];
    NodeOpens(v, rest);
    assert NodeProps(rest, v) == Some(All);
    NodeHeadOpen(v);
    UnclosedJoin(head, [Text(NODE_PROPERTIES), v]);
    Closes(head + [Text(NODE_PROPERTIES), v], Text(MAP_END));
    assert NodeMap(v, []) == head + rest && head + rest == head + [Text(NODE_PROPERTIES), v] + [Text(MAP_END)];
  }

  lemma NodeHeadOpen(v: Token)
    requires PlainVariable(v)
    ensures Unclosed([Text(ID_OF), v, Text(LABELS_OF), v]) && Unclosed([Text(NODE_PROPERTIES), v])
    ensures Unclosed([Text(PROPERTIES), v, Text(BRACE)])
    ensures ID_OF != ", "
  {
    assert ID_OF[0] == '{' && |ID_OF| > 2 && |LABELS_OF| > 3 && |NODE_PROPERTIES| > 3;
  }

  lemma SomePropsRead(v: Token, props: seq<string>)
    requires PlainVariable(v) && props != []
    ensures OneMap(NodeMap(v, props)) && ReadShown(NodeMap(v, props)) == NodeShown(v, Only(props))
  {
    hide DotNames, Pieces, ReadShown, NodeProps, OneMap, Dotted;
    var dots := DotNames(props);
    var rest := [Text(PROPERTIES), v, Text(BRACE)] + dots + [Between(CLOSING)];
    DotNamesRead(props);
    NoDots();
    assert dots != [];
    NodeOpens(v, rest);
    PropsRead(v, dots, props);
    NamedMapCloses(v, dots);
    assert NodeMap(v, props) == [Text(ID_OF), v, Text(LABELS_OF), v] + rest;
    assert [Text(ID_OF), v, Text(LABELS_OF), v] + rest
      == [Text(ID_OF), v, Text(LABELS_OF), v] + ([Text(PROPERTIES), v, Text(BRACE)] + dots) + [Between(CLOSING)];
  }

  lemma PropsRead(v: Token, dots: seq<Token>, props: seq<string>)
    requires dots != [] && Dotted(Pieces(dots, Between(", "))) == Some(props)
    ensures NodeProps([Text(PROPERTIES), v, Text(BRACE)] + dots + [Between(CLOSING)], v) == Some(Only(props))
  {
    hide Dotted, Pieces;
    var rest := [Text(PROPERTIES), v, Text(BRACE)] + dots + [Between(CLOSING)];
    assert rest[3..|rest| - 1] == dots && WordOf(rest[|rest| - 1]) == "}}" && |rest| > 4;
    assert WordOf(rest[0]) == "), properties: " && rest[1] == v && WordOf(rest[2]) == "{";
  }

  lemma DotsOpen(dots: seq<Token>)
    requires forall t :: t in dots ==> t.Name? || WordOf(t) == "." || WordOf(t) == ", "
    ensures Unclosed(dots)
  {
  }

  lemma NamedMapCloses(v: Token, dots: seq<Token>)
    requires PlainVariable(v) && forall t :: t in dots ==> t.Name? || WordOf(t) == "." || WordOf(t) == ", "
    ensures OneMap([Text(ID_OF), v, Text(LABELS_OF), v] + ([Text(PROPERTIES), v, Text(BRACE)] + dots) + [Between(CLOSING)])
  {
    hide Unclosed, OneMap;
    var head, named := [Text(ID_OF), v, Text(LABELS_OF), v], [Text(PROPERTIES), v, Text(BRACE)];
    NodeHeadOpen(v);
    DotsOpen(dots);
    UnclosedJoin(named, dots);
    UnclosedJoin(head, named + dots);
    Closes(head + (named + dots), Between(CLOSING));
  }

  lemma RelMapRead(v: Plain)
    requires PlainVariable(Text(v))
    ensures ReadShown(RelMap(v)) == RelShown(Text(v), All)
  {
    var head: seq<Token> := [Text(ID_OF), Text(v), Text(TYPE_OF), Text(v), Text(FROM_OF), Text(v), Text(TO_OF), Text(v)];
    var rest: seq<Token> := [Text(REL_PROPERTIES), Text(v), Text(MAP_END)];
    assert RelMap(v) == head + rest && RelMap(v)[..8] == head && RelMap(v)[8..] == rest;
    assert OpensRel(head) && !OpensNode(head[..4]) by { RelHead(v); }
    assert RelMap(v)[..4] == head[..4];
    assert RelProps(rest, Text(v)) == Some(All);
  }

  lemma RelHead(v: Plain)
    ensures var head := [Text(ID_OF), Text(v), Text(TYPE_OF), Text(v), Text(FROM_OF), Text(v), Text(TO_OF), Text(v)];
      OpensRel(head) && !OpensNode(head[..4])
  {
    assert TYPE_OF[3] == 't' && LABELS_OF[3] == 'l';
  }

  // ---------------------------------------------------------------- delete-relationship

  datatype DeleteRelInput = DeleteRelInput(ref: RelRef, maxAffected: int, dryRun: bool)

  predicate DeleteRelOk(in_: DeleteRelInput) {
    RelHasPredicate(in_.ref) && ResolveMaxAffected(in_.maxAffected).Done? && RelOk(in_.ref)
  }

  function DeleteRelText(in_: DeleteRelInput): seq<Token> {
    DeleteText(RelMatchTokens(in_.ref, 0), R, [Text(DELETE), Text(R)], in_.dryRun, |RelValues(in_.ref)|)
  }

  lemma DeleteRelReads(in_: DeleteRelInput, q: Query)
    requires DeleteRelOk(in_) && q.text == DeleteRelText(in_)
    requires q.params == Bound(RelValues(in_.ref) + MutationValues(in_.dryRun, "relationship", in_.maxAffected))
    ensures SelectsRel(q, in_.ref) && Deletes(q, Text("r"), false, in_.dryRun)
    ensures Decides(q, Text("r"), "relationship", in_.maxAffected, in_.dryRun)
  {
    hide Decides, HandsBack, Result, ResultName, ReadShown, RelValues, RelOk, RelMatchTokens, GuardedTokens, DryRunTokens,
      GuardValues, ReadMatch, ReadMutation, Bound, Gives, Wanted, RelHasPredicate, OneLine, IsBreak, ResolveMaxAffected;
    var match_, k := RelMatchTokens(in_.ref, 0), |RelValues(in_.ref)|;
    BoundGives(RelValues(in_.ref) + MutationValues(in_.dryRun, "relationship", in_.maxAffected));
    GivesJoin(q.params, 0, RelValues(in_.ref), MutationValues(in_.dryRun, "relationship", in_.maxAffected));
    var rest;
    if in_.dryRun {
      rest := DryRunBreaks(match_, R);
    } else {
      rest := GuardedBreaks(match_, R, [Text(DELETE), Text(R)], [Text(COUNT)], DELETED, k);
    }
    RelMatchRead(in_.ref, 0, rest, q.params);
    DeleteRead(match_, R, false, in_.dryRun, k, q.params);
    OutcomeRead(q, match_, R, [Text(DELETE), Text(R)], [Text(COUNT)], DELETED, RelValues(in_.ref), "relationship",
                in_.maxAffected, in_.dryRun);
  }

  method BuildDeleteRel(in_: DeleteRelInput) returns (r: Built<Query>)
    ensures r.Done? <==> DeleteRelOk(in_)
    ensures r.Done? ==> SelectsRel(r.value, in_.ref) && Deletes(r.value, Text("r"), false, in_.dryRun)
    ensures r.Done? ==> r.value.write == !in_.dryRun && r.value.text == DeleteRelText(in_)
    ensures r.Done? ==> Decides(r.value, Text("r"), "relationship", in_.maxAffected, in_.dryRun)
    ensures r.Done? ==> Closed(r.value,
      RelValues(in_.ref) + MutationValues(in_.dryRun, "relationship", in_.maxAffected), RelNames(in_.ref))
  {
    hide RelValues, RelHasPredicate, RelOk, RelMatchTokens, RelNames, GuardedTokens, DryRunTokens, GuardValues, Closed, Decides,
      Bound, WellFormed, Params, Names, SelectsRel, Deletes;
    if !RelHasPredicate(in_.ref) {
      return Fail(NoPredicate);
    }
    var maxAffected := ResolveMaxAffected(in_.maxAffected);
    if maxAffected.Fail? {
      return Fail(maxAffected.error);
    }
    var b := new Builder();
    var m := RelMatch(in_.ref, b);
    if m.Fail? {
      return Fail(m.error);
    }
    RelMatchEmits(in_.ref, 0);
    if in_.dryRun {
      r := Done(Query(DryRunTokens(m.value, R), b.params, false));
      DryRunEmits(m.value, R);
      EmitsClosed(r.value, b.vals, RelNames(in_.ref));
      assert b.vals == RelValues(in_.ref) + [];
      DeleteRelReads(in_, r.value);
      return;
    }
    var del: seq<Token> := [Text(DELETE), Text(R)];
    ghost var k := |b.vals|;
    var text := GuardedMutation(m.value, R, del, [Text(COUNT)], DELETED, "relationship", maxAffected.value, b);
    PlainEmits(del);
    PlainEmits([Text(COUNT)]);
    GuardedEmits(m.value, R, del, [Text(COUNT)], DELETED, k);
    r := Done(Query(text, b.params, true));
    assert b.vals == RelValues(in_.ref) + GuardValues("relationship", maxAffected.value);
    GuardClosed(r.value, RelValues(in_.ref), "relationship", maxAffected.value, RelNames(in_.ref));
    DeleteRelReads(in_, r.value);
  }

  // ---------------------------------------------------------------- update-node, update-relationship

  // `v`.`k1`, `v`.`k2`, ...
  function PropertyRefs(v: Plain, keys: seq<string>): seq<Token> {
    if keys == [] then []
    else Then(PropertyRefs(v, keys[..|keys| - 1]), COMMA, [Text(v), Text(DOT), Name(keys[|keys| - 1])])
  }

  lemma {:induction false} PropertyRefsEmit(v: Plain, keys: seq<string>)
    ensures Emits(PropertyRefs(v, keys), {}, set k | k in keys)
  {
    if keys != [] {
      var last := |keys| - 1;
      var one := [Text(v), Text(DOT), Name(keys[last])];
      PropertyRefsEmit(v, keys[..last]);
      assert one[2] == Name(keys[last]);
      assert Emits(one, {}, {keys[last]});
      ThenEmits(PropertyRefs(v, keys[..last]), COMMA, one);
      assert keys == keys[..last] + [keys[last]];
    }
  }

  // The property names to remove, failing on a blank one.
  method Removals(v: Plain, keys: seq<string>) returns (r: Built<seq<Token>>)
    ensures r.Done? <==> !AnyBlank(keys)
    ensures r.Done? ==> r.value == PropertyRefs(v, keys)
  {
    hide Then, IsBlank;
    var refs: seq<Token> := [];
    for i := 0 to |keys|
      invariant refs == PropertyRefs(v, keys[..i])
      invariant forall j :: 0 <= j < i ==> !IsBlank(keys[j])
    {
      if IsBlank(keys[i]) {
        return Fail(BlankKey);
      }
      assert keys[..i + 1][..i] == keys[..i];
      refs := Then(refs, COMMA, [Text(v), Text(DOT), Name(keys[i])]);
    }
    assert keys[..|keys|] == keys;
    r := Done(refs);
  }

  function SetTokens(v: Plain, set_: map<string, Value>, k: nat): seq<Token> {
    if set_ == map[] then [] else [Text(SET), Text(v), Text(SET_PLUS), Param(k)]
  }

  function SetValues(set_: map<string, Value>): seq<Value> {
    if set_ == map[] then [] else [Map(set_)]
  }

  function LabelledTokens(v: Plain, labels: seq<string>): seq<Token> {
    if labels == [] then [] else [Text(v)] + LabelTokens(labels, COLON)
  }

  function Prefixed(word: Plain, ts: seq<Token>): seq<Token> {
    if ts == [] then [] else [Text(word)] + ts
  }

  // SET n += $k, then REMOVE properties and labels, then SET labels.
  function UpdateTokens(v: Plain, set_: map<string, Value>, remove: seq<string>,
                        removeLabels: seq<string>, addLabels: seq<string>, k: nat): seq<Token> {
    Then(Then(SetTokens(v, set_, k), LINE,
              Prefixed(REMOVE, Then(PropertyRefs(v, remove), COMMA, LabelledTokens(v, removeLabels)))), LINE,
         Prefixed(SET, LabelledTokens(v, addLabels)))
  }

  lemma LabelledEmits(v: Plain, labels: seq<string>)
    ensures Emits(LabelledTokens(v, labels), {}, set l | l in labels)
  {
    LabelTokensEmit(labels, COLON);
    PlainEmits([Text(v)]);
    EmitsConcat([Text(v)], LabelTokens(labels, COLON));
  }

  lemma PrefixedEmits(word: Plain, ts: seq<Token>)
    requires WellFormed(ts)
    ensures Emits(Prefixed(word, ts), Params(ts), Names(ts))
  {
    PlainEmits([Text(word)]);
    EmitsConcat([Text(word)], ts);
  }

  lemma SetEmits(v: Plain, set_: map<string, Value>, k: nat)
    ensures Emits(SetTokens(v, set_, k), Range(k, k + |SetValues(set_)|), {})
  {
    if set_ != map[] {
      assert SetTokens(v, set_, k)[3] == Param(k);
      assert Range(k, k + 1) == {k};
    }
  }

  lemma UpdateEmits(v: Plain, set_: map<string, Value>, remove: seq<string>,
                    removeLabels: seq<string>, addLabels: seq<string>, k: nat)
    ensures Emits(UpdateTokens(v, set_, remove, removeLabels, addLabels, k), Range(k, k + |SetValues(set_)|),
      (set n | n in remove) + (set n | n in removeLabels) + (set n | n in addLabels))
  {
    hide WellFormed, Params, Names, Range, SetValues, SetTokens, PropertyRefs, LabelledTokens, Then, Prefixed;
    var sets, props := SetTokens(v, set_, k), PropertyRefs(v, remove);
    var minus, plus := LabelledTokens(v, removeLabels), LabelledTokens(v, addLabels);
    SetEmits(v, set_, k);
    PropertyRefsEmit(v, remove);
    LabelledEmits(v, removeLabels);
    LabelledEmits(v, addLabels);
    ThenEmits(props, COMMA, minus);
    PrefixedEmits(REMOVE, Then(props, COMMA, minus));
    PrefixedEmits(SET, plus);
    ThenEmits(sets, LINE, Prefixed(REMOVE, Then(props, COMMA, minus)));
    ThenEmits(Then(sets, LINE, Prefixed(REMOVE, Then(props, COMMA, minus))), LINE, Prefixed(SET, plus));
  }

  // ---------------------------------------------------------------- updates read back

  // The query hands back what it changed as a list of these maps.
  ghost predicate HandsBack(q: Query, shown: Shown) {
    var result := Result(Behind(q.text));
    && |result| >= 2 && WordOf(result[0]) == "collect(" && WordOf(result[|result| - 1]) == ")"
    && ReadShown(result[1..|result| - 1]) == shown && ResultName(Behind(q.text)) == "updated"
  }

  lemma CollectedRead(q: Query, map_: seq<Token>, shown: Shown)
    requires Result(Behind(q.text)) == Collect(map_) && ResultName(Behind(q.text)) == UPDATED && ReadShown(map_) == shown
    ensures HandsBack(q, shown)
  {
    hide ReadShown, Result, ResultName;
    assert Collect(map_)[1..|Collect(map_)| - 1] == map_;
    assert Collect(map_)[0] == Text(COLLECT) && Collect(map_)[|Collect(map_)| - 1] == Text(CLOSE);
  }

  // The query does nothing to what it matches.
  ghost predicate Previews(q: Query) {
    ReadMutation(q.text, q.params) == []
  }

  // An update of the entity bound to `v`: what is done to it, in order, and what that
  // leaves of it, whatever it was.
  ghost predicate Updates(q: Query, v: Token, set_: map<string, Value>, remove: seq<string>,
                          removeLabels: seq<string>, addLabels: seq<string>) {
    && ReadMutation(q.text, q.params) == UpdateActions(v, set_, remove, removeLabels, addLabels)
    && forall e: Entity :: AfterActions(e, v, ReadMutation(q.text, q.params))
         == Entity((e.labels - NameSet(removeLabels)) + NameSet(addLabels), Merged(e.properties, set_) - NameSet(remove))
  }

  function DropAll(v: Token, remove: seq<string>): (r: seq<Action>)
    ensures |r| == |remove|
  {
    seq(|remove|, i requires 0 <= i < |remove| => DropProperty(v, remove[i]))
  }

  function UpdateActions(v: Token, set_: map<string, Value>, remove: seq<string>,
                         removeLabels: seq<string>, addLabels: seq<string>): seq<Action> {
    (if set_ == map[] then [] else [SetProperties(v, Map(set_))])
      + (DropAll(v, remove) + if removeLabels == [] then [] else [DropLabels(v, removeLabels)])
      + if addLabels == [] then [] else [SetLabels(v, addLabels)]
  }

  lemma {:induction false} DropAllLeaves(e: Entity, v: Token, remove: seq<string>)
    ensures AfterActions(e, v, DropAll(v, remove)) == e.(properties := e.properties - NameSet(remove))
    decreases |remove|
  {
    if remove == [] {
      assert e.properties - NameSet(remove) == e.properties;
    } else {
      var rest := e.(properties := e.properties - {remove[0]});
      DropAllLeaves(rest, v, remove[1..]);
      assert DropAll(v, remove)[1..] == DropAll(v, remove[1..]);
      assert NameSet(remove) == {remove[0]} + NameSet(remove[1..]);
      assert e.properties - {remove[0]} - NameSet(remove[1..]) == e.properties - NameSet(remove);
    }
  }

  lemma UpdateLeaves(e: Entity, v: Token, set_: map<string, Value>, remove: seq<string>, removeLabels: seq<string>, addLabels: seq<string>)
    ensures AfterActions(e, v, UpdateActions(v, set_, remove, removeLabels, addLabels))
         == Entity((e.labels - NameSet(removeLabels)) + NameSet(addLabels), Merged(e.properties, set_) - NameSet(remove))
  {
    hide DropAll, AfterActions, Merged, NameSet;
    var sets: seq<Action> := if set_ == map[] then [] else [SetProperties(v, Map(set_))];
    var minus: seq<Action> := if removeLabels == [] then [] else [DropLabels(v, removeLabels)];
    var plus: seq<Action> := if addLabels == [] then [] else [SetLabels(v, addLabels)];
    var drops := DropAll(v, remove);
    ActionsJoin(e, v, sets + (drops + minus), plus);
    ActionsJoin(e, v, sets, drops + minus);
    SetLeaves(e, v, set_);
    var afterSet := e.(properties := Merged(e.properties, set_));
    ActionsJoin(afterSet, v, drops, minus);
    DropAllLeaves(afterSet, v, remove);
    var afterDrop := afterSet.(properties := Merged(e.properties, set_) - NameSet(remove));
    LabelsLeave(afterDrop, v, removeLabels, addLabels);
  }

  lemma SetLeaves(e: Entity, v: Token, set_: map<string, Value>)
    ensures AfterActions(e, v, if set_ == map[] then [] else [SetProperties(v, Map(set_))]) == e.(properties := Merged(e.properties, set_))
  {
    if set_ == map[] {
      assert Merged(e.properties, set_) == e.properties;
    } else {
      assert [SetProperties(v, Map(set_))][1..] == [];
    }
  }

  lemma LabelsLeave(e: Entity, v: Token, removeLabels: seq<string>, addLabels: seq<string>)
    ensures AfterActions(AfterActions(e, v, if removeLabels == [] then [] else [DropLabels(v, removeLabels)]), v,
                         if addLabels == [] then [] else [SetLabels(v, addLabels)])
         == e.(labels := (e.labels - NameSet(removeLabels)) + NameSet(addLabels))
  {
    assert removeLabels == [] ==> e.labels - NameSet(removeLabels) == e.labels;
    assert [DropLabels(v, removeLabels)][1..] == [] && [SetLabels(v, addLabels)][1..] == [];
    var between := e.(labels := e.labels - NameSet(removeLabels));
    assert AfterActions(e, v, if removeLabels == [] then [] else [DropLabels(v, removeLabels)]) == between;
    assert addLabels == [] ==> between.labels + NameSet(addLabels) == between.labels;
  }

  lemma SetRead(v: Plain, set_: map<string, Value>, k: nat, params: map<string, Value>)
    requires Gives(params, k, SetValues(set_))
    ensures ReadLines(Pieces(SetTokens(v, set_, k), Between("\n  ")), params)
         == if set_ == map[] then [] else [SetProperties(Text(v), Map(set_))]
    ensures forall t :: t in SetTokens(v, set_, k) ==> !t.Between?
  {
    hide ParamName, ReadLines, Pieces;
    OneLineRead(SetTokens(v, set_, k), params);
    if set_ != map[] {
      assert SetTokens(v, set_, k) == [Text("SET "), Text(v), Text(" += "), Param(k)];
      assert ValueOf(Param(k + 0), params) == Some(SetValues(set_)[0]);
    }
  }

  lemma AddLabelsRead(v: Plain, labels: seq<string>, params: map<string, Value>)
    ensures ReadLines(Pieces(Prefixed(SET, LabelledTokens(v, labels)), Between("\n  ")), params)
         == if labels == [] then [] else [SetLabels(Text(v), labels)]
    ensures forall t :: t in Prefixed(SET, LabelledTokens(v, labels)) ==> !t.Between?
  {
    hide ReadLines, Pieces, NameList;
    var ts := Prefixed(SET, LabelledTokens(v, labels));
    LabelTokensPlain(labels, COLON);
    OneLineRead(ts, params);
    if labels != [] {
      NameListRead(labels, COLON);
      assert ts == [Text("SET "), Text(v), Text(":")] + NameList(labels, COLON);
      assert ts[3..] == NameList(labels, COLON) && NameList(labels, COLON) != [];
      AddActionsRead(ts, labels, params);
    }
  }

  lemma AddActionsRead(ts: seq<Token>, labels: seq<string>, params: map<string, Value>)
    requires |ts| >= 4 && ts[0] == Text("SET ") && ts[2] == Text(":") && Listed(ts[3..], ":") == Some(labels)
    ensures ReadActions(ts, params) == [SetLabels(ts[1], labels)]
  {
    hide Listed;
  }

  lemma {:induction false} PropertyRefsRead(v: Plain, keys: seq<string>)
    ensures Removed(PropertyRefs(v, keys)) == DropAll(Text(v), keys)
    ensures forall t :: t in PropertyRefs(v, keys) && t.Between? ==> t == Between(COMMA)
  {
    hide Removed, Then, ReadRemoval;
    if keys == [] {
      NothingRemoved();
    } else {
      var before, key := keys[..|keys| - 1], keys[|keys| - 1];
      PropertyRefsRead(v, before);
      RemovedThen(PropertyRefs(v, before), [Text(v), Text(DOT), Name(key)]);
      OneRemoved([Text(v), Text(DOT), Name(key)]);
      assert ReadRemoval([Text(v), Text(DOT), Name(key)]) == DropProperty(Text(v), key) by { PropertyRemoval(v, key); }
      ThenTokens(PropertyRefs(v, before), COMMA, [Text(v), Text(DOT), Name(key)]);
      assert DropAll(Text(v), keys) == DropAll(Text(v), before) + [DropProperty(Text(v), key)];
    }
  }

  // The removals in a list.
  function Removed(ts: seq<Token>): seq<Action> {
    var removals := Pieces(ts, Between(", "));
    seq(|removals|, i requires 0 <= i < |removals| => ReadRemoval(removals[i]))
  }

  lemma NothingRemoved()
    ensures Removed([]) == []
  {
  }

  lemma RemovedThen(a: seq<Token>, b: seq<Token>)
    ensures Removed(Then(a, COMMA, b)) == Removed(a) + Removed(b)
  {
    hide ReadRemoval, Pieces, Then;
    PiecesThen(a, COMMA, b);
  }

  lemma OneRemoved(ts: seq<Token>)
    requires ts != [] && Between(COMMA) !in ts
    ensures Removed(ts) == [ReadRemoval(ts)]
  {
    hide ReadRemoval;
    PiecesWhole(ts, Between(COMMA));
  }

  lemma PropertyRemoval(v: Plain, key: string)
    ensures ReadRemoval([Text(v), Text(DOT), Name(key)]) == DropProperty(Text(v), key)
  {
  }

  lemma ThenTokens(a: seq<Token>, sep: Gap, b: seq<Token>)
    ensures forall t :: t in Then(a, sep, b) ==> t in a || t in b || t == Between(sep)
  {
  }

  lemma LabelRemovalRead(v: Plain, labels: seq<string>)
    ensures Removed(LabelledTokens(v, labels)) == if labels == [] then [] else [DropLabels(Text(v), labels)]
    ensures forall t :: t in LabelledTokens(v, labels) ==> !t.Between?
  {
    hide Removed, NameList;
    var ts := LabelledTokens(v, labels);
    LabelTokensPlain(labels, COLON);
    if labels == [] {
      NothingRemoved();
    } else {
      NameListRead(labels, COLON);
      assert ts == [Text(v), Text(":")] + NameList(labels, COLON);
      assert ts[2..] == NameList(labels, COLON) && NameList(labels, COLON) != [];
      OneRemoved(ts);
    }
  }

  lemma RemoveRead(v: Plain, remove: seq<string>, labels: seq<string>, params: map<string, Value>)
    ensures var ts := Prefixed(REMOVE, Then(PropertyRefs(v, remove), COMMA, LabelledTokens(v, labels)));
      && ReadLines(Pieces(ts, Between("\n  ")), params)
      == DropAll(Text(v), remove) + (if labels == [] then [] else [DropLabels(Text(v), labels)])
      && forall t :: t in ts && t.Between? ==> t == Between(COMMA)
  {
    hide ReadLines, Pieces, Removed, PropertyRefs, LabelledTokens, Then;
    var list := Then(PropertyRefs(v, remove), COMMA, LabelledTokens(v, labels));
    var ts := Prefixed(REMOVE, list);
    PropertyRefsRead(v, remove);
    LabelRemovalRead(v, labels);
    RemovedThen(PropertyRefs(v, remove), LabelledTokens(v, labels));
    ThenTokens(PropertyRefs(v, remove), COMMA, LabelledTokens(v, labels));
    OneLineRead(ts, params);
    if list == [] {
      NothingRemoved();
    } else {
      RemoveLineRead(list, params);
    }
  }

  lemma RemoveLineRead(list: seq<Token>, params: map<string, Value>)
    ensures ReadActions([Text("REMOVE ")] + list, params) == Removed(list)
  {
    assert ([Text("REMOVE ")] + list)[1..] == list;
  }

  lemma UpdateRead(v: Plain, set_: map<string, Value>, remove: seq<string>, removeLabels: seq<string>, addLabels: seq<string>,
                   k: nat, params: map<string, Value>)
    requires Gives(params, k, SetValues(set_))
    ensures ReadLines(Pieces(UpdateTokens(v, set_, remove, removeLabels, addLabels, k), Between("\n  ")), params)
         == UpdateActions(Text(v), set_, remove, removeLabels, addLabels)
    ensures Between(GUARD_RETURN) !in UpdateTokens(v, set_, remove, removeLabels, addLabels, k)
  {
    hide ReadLines, Pieces, SetTokens, PropertyRefs, LabelledTokens, Then, Prefixed, DropAll, Gives;
    var sets := SetTokens(v, set_, k);
    var minus := Prefixed(REMOVE, Then(PropertyRefs(v, remove), COMMA, LabelledTokens(v, removeLabels)));
    var plus := Prefixed(SET, LabelledTokens(v, addLabels));
    SetRead(v, set_, k, params);
    RemoveRead(v, remove, removeLabels, params);
    AddLabelsRead(v, addLabels, params);
    LinesThenRead(sets, minus, params);
    LinesThenRead(Then(sets, LINE, minus), plus, params);
    ThenTokens(sets, LINE, minus);
    ThenTokens(Then(sets, LINE, minus), LINE, plus);
  }

  datatype UpdateNodeInput = UpdateNodeInput(
    ref: NodeRef, set_: map<string, Value>, remove: seq<string>, addLabels: seq<string>, removeLabels: seq<string>,
    maxAffected: int, dryRun: bool)

  predicate UpdateNodeOk(in_: UpdateNodeInput) {
    && HasPredicate(in_.ref.criteria)
    && (in_.set_ != map[] || in_.remove != [] || in_.addLabels != [] || in_.removeLabels != [])
    && !AnyBlankKey(in_.set_)
    && ResolveMaxAffected(in_.maxAffected).Done?
    && RefOk(in_.ref)
    && (in_.dryRun || (!AnyBlank(in_.remove) && !AnyBlank(in_.removeLabels) && !AnyBlank(in_.addLabels)))
  }

  function UpdateNodeValues(in_: UpdateNodeInput): seq<Value> {
    CriteriaValues(in_.ref.criteria) + (if in_.dryRun then [] else SetValues(in_.set_))
      + MutationValues(in_.dryRun, "node", in_.maxAffected)
  }

  // An update, or its preview; the guard's parameters follow those of the match and the new properties.
  function UpdateText(match_: seq<Token>, v: Plain, steps: seq<Token>, map_: seq<Token>, dryRun: bool, k: nat): seq<Token> {
    if dryRun then DryRunTokens(match_, v) else GuardedTokens(match_, v, steps, Collect(map_), UPDATED, k)
  }

  function UpdateNodeText(in_: UpdateNodeInput): seq<Token> {
    var k := |CriteriaValues(in_.ref.criteria)|;
    UpdateText(NodeMatchTokens(in_.ref, N, 0), N, UpdateTokens(N, in_.set_, in_.remove, in_.removeLabels, in_.addLabels, k),
               NodeMap(Text(N), []), in_.dryRun, k + |SetValues(in_.set_)|)
  }

  function UpdateNodeNames(in_: UpdateNodeInput): set<string> {
    RefNames(in_.ref)
      + if in_.dryRun then {}
        else (set n | n in in_.remove) + (set n | n in in_.removeLabels) + (set n | n in in_.addLabels)
  }

  // An update read back: nothing for a preview.
  lemma UpdateTextRead(match_: seq<Token>, v: Plain, map_: seq<Token>, set_: map<string, Value>, remove: seq<string>,
                       removeLabels: seq<string>, addLabels: seq<string>, dryRun: bool, k: nat, n: nat, params: map<string, Value>)
    requires OneLine(match_) && (dryRun || Gives(params, k, SetValues(set_)))
    ensures ReadMutation(UpdateText(match_, v, UpdateTokens(v, set_, remove, removeLabels, addLabels, k), map_, dryRun, n), params)
         == if dryRun then [] else UpdateActions(Text(v), set_, remove, removeLabels, addLabels)
    ensures var rest := Behind(UpdateText(match_, v, UpdateTokens(v, set_, remove, removeLabels, addLabels, k), map_, dryRun, n));
      dryRun || (Result(rest) == Collect(map_) && ResultName(rest) == UPDATED)
  {
    hide Result, ResultName, GuardedTokens, DryRunTokens, UpdateTokens, UpdateActions, Mutation, ReadLines, Pieces, OneLine,
      Gives, SetValues, Collect;
    if dryRun {
      DryRunRead(match_, v, params);
    } else {
      var steps := UpdateTokens(v, set_, remove, removeLabels, addLabels, k);
      UpdateRead(v, set_, remove, removeLabels, addLabels, k, params);
      GuardedMutationRead(match_, v, steps, Collect(map_), UPDATED, n);
      ResultRead(match_, v, steps, Collect(map_), UPDATED, n);
    }
  }

  lemma UpdatesRead(q: Query, v: Token, set_: map<string, Value>, remove: seq<string>, removeLabels: seq<string>, addLabels: seq<string>)
    requires ReadMutation(q.text, q.params) == UpdateActions(v, set_, remove, removeLabels, addLabels)
    ensures Updates(q, v, set_, remove, removeLabels, addLabels)
  {
    hide ReadMutation, UpdateActions, AfterActions, Merged, NameSet;
    forall e: Entity ensures AfterActions(e, v, ReadMutation(q.text, q.params))
      == Entity((e.labels - NameSet(removeLabels)) + NameSet(addLabels), Merged(e.properties, set_) - NameSet(remove)) {
      UpdateLeaves(e, v, set_, remove, removeLabels, addLabels);
    }
  }

  lemma UpdateNodeReads(in_: UpdateNodeInput, q: Query)
    requires UpdateNodeOk(in_) && q.text == UpdateNodeText(in_) && q.params == Bound(UpdateNodeValues(in_))
    ensures SelectsNode(q, in_.ref)
    ensures if in_.dryRun then Previews(q) else Updates(q, Text("n"), in_.set_, in_.remove, in_.removeLabels, in_.addLabels)
    ensures !in_.dryRun ==> HandsBack(q, NodeShown(Text("n"), All))
    ensures Decides(q, Text("n"), "node", in_.maxAffected, in_.dryRun)
  {
    hide Decides, HandsBack, Result, ResultName, ReadShown, CriteriaValues, RefOk, NodeMatchTokens, GuardedTokens, DryRunTokens,
      MutationValues, ReadMatch, ReadMutation, Bound, Gives, Wanted, HasPredicate, OneLine, IsBreak, ResolveMaxAffected,
      AnyBlank, AnyBlankKey, UpdateTokens, SetValues, NodeMap, Collect, Updates, UpdateActions;
    var match_, vals := NodeMatchTokens(in_.ref, N, 0), CriteriaValues(in_.ref.criteria);
    var k, sets := |vals|, if in_.dryRun then [] else SetValues(in_.set_);
    var n := k + |SetValues(in_.set_)|;
    BoundGives(UpdateNodeValues(in_));
    GivesJoin(q.params, 0, vals + sets, MutationValues(in_.dryRun, "node", in_.maxAffected));
    GivesJoin(q.params, 0, vals, sets);
    var rest;
    if in_.dryRun {
      rest := DryRunBreaks(match_, N);
    } else {
      rest := GuardedBreaks(match_, N, UpdateTokens(N, in_.set_, in_.remove, in_.removeLabels, in_.addLabels, k),
                            Collect(NodeMap(Text(N), [])), UPDATED, n);
    }
    NodeMatchRead(in_.ref, N, 0, rest, q.params);
    UpdateTextRead(match_, N, NodeMap(Text(N), []), in_.set_, in_.remove, in_.removeLabels, in_.addLabels, in_.dryRun, k, n, q.params);
    OutcomeRead(q, match_, N, UpdateTokens(N, in_.set_, in_.remove, in_.removeLabels, in_.addLabels, k),
                Collect(NodeMap(Text(N), [])), UPDATED, vals + sets, "node", in_.maxAffected, in_.dryRun);
    if !in_.dryRun {
      UpdatesRead(q, Text(N), in_.set_, in_.remove, in_.removeLabels, in_.addLabels);
      NodeMapRead(Text(N), []);
      CollectedRead(q, NodeMap(Text(N), []), NodeShown(Text(N), All));
    }
  }

  method BuildUpdateNode(in_: UpdateNodeInput) returns (r: Built<Query>)
    ensures r.Done? <==> UpdateNodeOk(in_)
    ensures r.Done? ==> SelectsNode(r.value, in_.ref)
    ensures r.Done? && in_.dryRun ==> Previews(r.value)
    ensures r.Done? && !in_.dryRun ==> Updates(r.value, Text("n"), in_.set_, in_.remove, in_.removeLabels, in_.addLabels)
    ensures r.Done? && !in_.dryRun ==> HandsBack(r.value, NodeShown(Text("n"), All))
    ensures r.Done? ==> r.value.write == !in_.dryRun && r.value.text == UpdateNodeText(in_)
    ensures r.Done? ==> Decides(r.value, Text("n"), "node", in_.maxAffected, in_.dryRun)
    ensures r.Done? ==> Closed(r.value, UpdateNodeValues(in_), UpdateNodeNames(in_))
  {
    hide CriteriaValues, RefOk, NodeMatchTokens, RefNames, GuardedTokens, DryRunTokens, GuardValues, Decides, Bound,
      SelectsNode, WellFormed, Params, Names, AnyBlank, AnyBlankKey, PropertyRefs, SetTokens, LabelledTokens, Then, Previews,
      Updates, HandsBack, ParameterClosed, UpdateTokens;
    if !HasPredicate(in_.ref.criteria) {
      return Fail(NoPredicate);
    }
    if in_.set_ == map[] && in_.remove == [] && in_.addLabels == [] && in_.removeLabels == [] {
      return Fail(NothingToUpdate);
    }
    if AnyBlankKey(in_.set_) {
      return Fail(BlankKey);
    }
    var maxAffected := ResolveMaxAffected(in_.maxAffected);
    if maxAffected.Fail? {
      return Fail(maxAffected.error);
    }
    var b := new Builder();
    var m := NodeMatch(in_.ref, N, b);
    if m.Fail? {
      return Fail(m.error);
    }
    NodeMatchEmits(in_.ref, N, 0);
    if in_.dryRun {
      r := Done(Query(DryRunTokens(m.value, N), b.params, false));
      DryRunEmits(m.value, N);
      EmitsClosed(r.value, b.vals, RefNames(in_.ref));
      assert b.vals == UpdateNodeValues(in_) && RefNames(in_.ref) == UpdateNodeNames(in_);
      UpdateNodeReads(in_, r.value);
      return;
    }
    r := UpdateNodeMutation(in_, m.value, maxAffected.value, b);
    if r.Done? {
      UpdateNodeReads(in_, r.value);
    }
  }

  // The mutation proper, once the match is rendered.
  method UpdateNodeMutation(in_: UpdateNodeInput, match_: seq<Token>, maxAffected: nat, b: Builder) returns (r: Built<Query>)
    requires b.Valid() && b.vals == CriteriaValues(in_.ref.criteria)
    requires Emits(match_, Range(0, |b.vals|), RefNames(in_.ref))
    requires !in_.dryRun && ResolveMaxAffected(in_.maxAffected) == Done(maxAffected)
    modifies b
    ensures r.Done? <==> !AnyBlank(in_.remove) && !AnyBlank(in_.removeLabels) && !AnyBlank(in_.addLabels)
    ensures r.Done? ==> r.value.write && Closed(r.value, UpdateNodeValues(in_), UpdateNodeNames(in_))
    ensures r.Done? ==> r.value.text == GuardedTokens(match_, N,
      UpdateTokens(N, in_.set_, in_.remove, in_.removeLabels, in_.addLabels, |old(b.vals)|), Collect(NodeMap(Text(N), [])), UPDATED,
      |old(b.vals)| + |SetValues(in_.set_)|)
  {
    hide CriteriaValues, RefNames, GuardedTokens, GuardValues, Closed, Decides, Bound, WellFormed, Params, Names, AnyBlank,
      PropertyRefs, LabelledTokens, Then, Prefixed, NodeMap;
    ghost var k := |b.vals|;
    var steps: seq<Token> := [];
    if in_.set_ != map[] {
      var p := b.Param(Map(in_.set_));
      steps := [Text(SET), Text(N), Text(SET_PLUS), p];
    }
    assert steps == SetTokens(N, in_.set_, k) && b.vals == CriteriaValues(in_.ref.criteria) + SetValues(in_.set_);
    var removals := Removals(N, in_.remove);
    if removals.Fail? {
      return Fail(removals.error);
    }
    if AnyBlank(in_.removeLabels) {
      return Fail(BlankLabel);
    }
    steps := Then(steps, LINE, Prefixed(REMOVE, Then(removals.value, COMMA, LabelledTokens(N, in_.removeLabels))));
    if AnyBlank(in_.addLabels) {
      return Fail(BlankLabel);
    }
    steps := Then(steps, LINE, Prefixed(SET, LabelledTokens(N, in_.addLabels)));
    UpdateEmits(N, in_.set_, in_.remove, in_.removeLabels, in_.addLabels, k);
    r := GuardedQuery(match_, N, steps, NodeMap(Text(N), []), "node", maxAffected, RefNames(in_.ref),
                      (set n | n in in_.remove) + (set n | n in in_.removeLabels) + (set n | n in in_.addLabels), k, b);
    assert UpdateNodeValues(in_) == CriteriaValues(in_.ref.criteria) + SetValues(in_.set_) + GuardValues("node", maxAffected);
  }

  lemma MapsEmit(v: Plain)
    ensures Emits(Collect(NodeMap(Text(v), [])), {}, {}) && !OpenEnd(Collect(NodeMap(Text(v), [])))
    ensures Emits(Collect(RelMap(v)), {}, {}) && !OpenEnd(Collect(RelMap(v)))
  {
    PlainEmits(Collect(NodeMap(Text(v), [])));
    PlainEmits(Collect(RelMap(v)));
  }

  // The last step of both updates: guard the steps and hand out the query.
  method GuardedQuery(match_: seq<Token>, v: Plain, steps: seq<Token>, map_: seq<Token>, entity: string, maxAffected: nat,
                      ghost names: set<string>, ghost more: set<string>, ghost k: nat, b: Builder) returns (r: Built<Query>)
    requires b.Valid() && k <= |b.vals| && (map_ == NodeMap(Text(v), []) || map_ == RelMap(v))
    requires Emits(match_, Range(0, k), names) && Emits(steps, Range(k, |b.vals|), more)
    modifies b
    ensures r.Done? && r.value.write
    ensures Closed(r.value, old(b.vals) + GuardValues(entity, maxAffected), names + more)
    ensures r.value.text == GuardedTokens(match_, v, steps, Collect(map_), UPDATED, |old(b.vals)|)
  {
    hide GuardedTokens, GuardValues, Closed, Decides, Bound, WellFormed, Params, Names, NodeMap, RelMap, Collect, OpenEnd;
    ghost var n := |b.vals|;
    var text := GuardedMutation(match_, v, steps, Collect(map_), UPDATED, entity, maxAffected, b);
    MapsEmit(v);
    GuardedEmits(match_, v, steps, Collect(map_), UPDATED, n);
    r := Done(Query(text, b.params, true));
    assert Range(0, n) == Range(0, k) + Range(k, n);
    GuardClosed(r.value, old(b.vals), entity, maxAffected, names + more);
  }

  datatype UpdateRelInput = UpdateRelInput(
    ref: RelRef, set_: map<string, Value>, remove: seq<string>, maxAffected: int, dryRun: bool)

  predicate UpdateRelOk(in_: UpdateRelInput) {
    && RelHasPredicate(in_.ref)
    && (in_.set_ != map[] || in_.remove != [])
    && !AnyBlankKey(in_.set_)
    && ResolveMaxAffected(in_.maxAffected).Done?
    && RelOk(in_.ref)
    && (in_.dryRun || !AnyBlank(in_.remove))
  }

  function UpdateRelValues(in_: UpdateRelInput): seq<Value> {
    RelValues(in_.ref) + (if in_.dryRun then [] else SetValues(in_.set_))
      + MutationValues(in_.dryRun, "relationship", in_.maxAffected)
  }

  function UpdateRelSteps(in_: UpdateRelInput, k: nat): seq<Token> {
    Then(SetTokens(R, in_.set_, k), LINE, Prefixed(REMOVE, PropertyRefs(R, in_.remove)))
  }

  function UpdateRelText(in_: UpdateRelInput): seq<Token> {
    var k := |RelValues(in_.ref)|;
    UpdateText(RelMatchTokens(in_.ref, 0), R, UpdateRelSteps(in_, k), RelMap(R), in_.dryRun, k + |SetValues(in_.set_)|)
  }

  function UpdateRelNames(in_: UpdateRelInput): set<string> {
    RelNames(in_.ref) + if in_.dryRun then {} else set n | n in in_.remove
  }

  lemma RelStepsAre(in_: UpdateRelInput, k: nat)
    ensures UpdateRelSteps(in_, k) == UpdateTokens(R, in_.set_, in_.remove, [], [], k)
  {
  }

  lemma UpdateRelReads(in_: UpdateRelInput, q: Query)
    requires UpdateRelOk(in_) && q.text == UpdateRelText(in_) && q.params == Bound(UpdateRelValues(in_))
    ensures SelectsRel(q, in_.ref)
    ensures if in_.dryRun then Previews(q) else Updates(q, Text("r"), in_.set_, in_.remove, [], [])
    ensures !in_.dryRun ==> HandsBack(q, RelShown(Text("r"), All))
    ensures Decides(q, Text("r"), "relationship", in_.maxAffected, in_.dryRun)
  {
    hide Decides, HandsBack, Result, ResultName, ReadShown, RelValues, RelOk, RelMatchTokens, GuardedTokens, DryRunTokens,
      MutationValues, ReadMatch, ReadMutation, Bound, Gives, Wanted, RelHasPredicate, OneLine, IsBreak, ResolveMaxAffected,
      AnyBlank, AnyBlankKey, UpdateTokens, UpdateRelSteps, SetValues, RelMap, Collect, Updates, UpdateActions;
    var match_, vals := RelMatchTokens(in_.ref, 0), RelValues(in_.ref);
    var k, sets := |vals|, if in_.dryRun then [] else SetValues(in_.set_);
    var n := k + |SetValues(in_.set_)|;
    RelStepsAre(in_, k);
    BoundGives(UpdateRelValues(in_));
    GivesJoin(q.params, 0, vals + sets, MutationValues(in_.dryRun, "relationship", in_.maxAffected));
    GivesJoin(q.params, 0, vals, sets);
    var rest;
    if in_.dryRun {
      rest := DryRunBreaks(match_, R);
    } else {
      rest := GuardedBreaks(match_, R, UpdateTokens(R, in_.set_, in_.remove, [], [], k), Collect(RelMap(R)), UPDATED, n);
    }
    RelMatchRead(in_.ref, 0, rest, q.params);
    UpdateTextRead(match_, R, RelMap(R), in_.set_, in_.remove, [], [], in_.dryRun, k, n, q.params);
    OutcomeRead(q, match_, R, UpdateTokens(R, in_.set_, in_.remove, [], [], k), Collect(RelMap(R)), UPDATED, vals + sets,
                "relationship", in_.maxAffected, in_.dryRun);
    if !in_.dryRun {
      UpdatesRead(q, Text(R), in_.set_, in_.remove, [], []);
      RelMapRead(R);
      CollectedRead(q, RelMap(R), RelShown(Text(R), All));
    }
  }

  method BuildUpdateRel(in_: UpdateRelInput) returns (r: Built<Query>)
    ensures r.Done? <==> UpdateRelOk(in_)
    ensures r.Done? ==> SelectsRel(r.value, in_.ref)
    ensures r.Done? && in_.dryRun ==> Previews(r.value)
    ensures r.Done? && !in_.dryRun ==> Updates(r.value, Text("r"), in_.set_, in_.remove, [], [])
    ensures r.Done? && !in_.dryRun ==> HandsBack(r.value, RelShown(Text("r"), All))
    ensures r.Done? ==> r.value.write == !in_.dryRun && r.value.text == UpdateRelText(in_)
    ensures r.Done? ==> Decides(r.value, Text("r"), "relationship", in_.maxAffected, in_.dryRun)
    ensures r.Done? ==> Closed(r.value, UpdateRelValues(in_), UpdateRelNames(in_))
  {
    hide RelValues, RelHasPredicate, RelOk, RelMatchTokens, RelNames, GuardedTokens, DryRunTokens, GuardValues, Decides, Bound,
      WellFormed, Params, Names, AnyBlank, AnyBlankKey, PropertyRefs, LabelledTokens, Then, Prefixed, RelMap, SelectsRel,
      Previews, Updates, HandsBack, ParameterClosed, UpdateRelSteps;
    if !RelHasPredicate(in_.ref) {
      return Fail(NoPredicate);
    }
    if in_.set_ == map[] && in_.remove == [] {
      return Fail(NothingToUpdate);
    }
    if AnyBlankKey(in_.set_) {
      return Fail(BlankKey);
    }
    var maxAffected := ResolveMaxAffected(in_.maxAffected);
    if maxAffected.Fail? {
      return Fail(maxAffected.error);
    }
    var b := new Builder();
    var m := RelMatch(in_.ref, b);
    if m.Fail? {
      return Fail(m.error);
    }
    RelMatchEmits(in_.ref, 0);
    if in_.dryRun {
      r := Done(Query(DryRunTokens(m.value, R), b.params, false));
      DryRunEmits(m.value, R);
      EmitsClosed(r.value, b.vals, RelNames(in_.ref));
      assert b.vals == UpdateRelValues(in_) && RelNames(in_.ref) == UpdateRelNames(in_);
      UpdateRelReads(in_, r.value);
      return;
    }
    r := UpdateRelMutation(in_, m.value, maxAffected.value, b);
    if r.Done? {
      UpdateRelReads(in_, r.value);
    }
  }

  method UpdateRelMutation(in_: UpdateRelInput, match_: seq<Token>, maxAffected: nat, b: Builder) returns (r: Built<Query>)
    requires b.Valid() && b.vals == RelValues(in_.ref)
    requires Emits(match_, Range(0, |b.vals|), RelNames(in_.ref))
    requires !in_.dryRun && ResolveMaxAffected(in_.maxAffected) == Done(maxAffected)
    modifies b
    ensures r.Done? <==> !AnyBlank(in_.remove)
    ensures r.Done? ==> r.value.write && Closed(r.value, UpdateRelValues(in_), UpdateRelNames(in_))
    ensures r.Done? ==> r.value.text == GuardedTokens(match_, R, UpdateRelSteps(in_, |old(b.vals)|), Collect(RelMap(R)), UPDATED,
      |old(b.vals)| + |SetValues(in_.set_)|)
  {
    hide RelValues, RelNames, GuardedTokens, GuardValues, Closed, Decides, Bound, WellFormed, Params, Names, AnyBlank,
      PropertyRefs, Then, Prefixed, RelMap;
    ghost var k := |b.vals|;
    var steps: seq<Token> := [];
    if in_.set_ != map[] {
      var p := b.Param(Map(in_.set_));
      steps := [Text(SET), Text(R), Text(SET_PLUS), p];
    }
    assert steps == SetTokens(R, in_.set_, k) && b.vals == RelValues(in_.ref) + SetValues(in_.set_);
    var refs := Removals(R, in_.remove);
    if refs.Fail? {
      return Fail(refs.error);
    }
    SetEmits(R, in_.set_, k);
    PropertyRefsEmit(R, in_.remove);
    PrefixedEmits(REMOVE, refs.value);
    ThenEmits(steps, LINE, Prefixed(REMOVE, refs.value));
    steps := Then(steps, LINE, Prefixed(REMOVE, refs.value));
    r := GuardedQuery(match_, R, steps, RelMap(R), "relationship", maxAffected, RelNames(in_.ref), (set n | n in in_.remove), k, b);
    assert UpdateRelValues(in_) == RelValues(in_.ref) + SetValues(in_.set_) + GuardValues("relationship", maxAffected);
  }
}
