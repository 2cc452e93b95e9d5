// The create-relationship builder, the one tool whose query may bind a parameter
// its text never mentions.
module CreateRelationship {
  import opened CypherText
  import opened QueryReading
  import opened QueryText
  import opened ResultReading
  import opened Values
  import opened GraphConditions
  import opened GraphTools
  import opened GuardReading
  import opened Wrappers

  // Longer texts are given in pieces, as in GraphTools; the cuts have no meaning.
  const WITH_SOURCES: Gap := Cats(["\nWITH collect(", "src) AS ", "sources\n"])
  const WITH_TARGETS: Gap := Cats(["\nWITH sources, ", "collect(dst) ", "AS targets\n"])
  const OPTIONAL_CALL: Plain := Cats(["OPTIONAL CALL ", "(sources, ", "targets) {\n"])
  const ONE_EACH: Plain := Cats(["  WITH ", "sources[0] AS ", "src, ", "targets[0] AS ", "dst\n"])
  const WHERE_ONE: Plain := "  WHERE "
  const SOURCES: Plain := "size(sources)"
  const TARGETS: Plain := "size(targets)"
  const ONE: Plain := "1"
  const RETURN_REL: Gap := "\n  RETURN "
  const AS_REL: Plain := Cats([" AS ", "relationship\n", "}\n", "RETURN "])
  const AS_FROM: Gap := Cats([" AS ", "fromMatched, "])
  const AS_TO: Gap := Cats([" AS ", "toMatched, "])
  const REL: Plain := "relationship"
  const AND_CASE: Gap := ", CASE"
  const IS_NULL: Plain := " IS NULL"

  const MERGE: Plain := "MERGE (src)-[r:"
  const MERGE_SET: Plain := Cats(["]->(dst)\n", "    SET r += "])
  const CREATE: Plain := "CREATE (src)-[r:"
  const SPACE: Gap := " "
  const CREATE_END: Gap := "]->(dst)"

  // `notice` is the fixed text the query returns when it creates nothing.
  datatype Input = Input(from: NodeRef, to: NodeRef, typ: string, properties: map<string, Value>, allowDuplicate: bool, notice: string)

  predicate InputOk(in_: Input) {
    && in_.typ != ""
    && HasPredicate(in_.from.criteria) && HasPredicate(in_.to.criteria)
    && !AnyBlankKey(in_.properties)
    && RefOk(in_.from) && RefOk(in_.to)
  }

  function EndValues(in_: Input): seq<Value> {
    CriteriaValues(in_.from.criteria) + CriteriaValues(in_.to.criteria)
  }

  // The properties are bound once for MERGE and, for CREATE, a second time.
  function AllValues(in_: Input): seq<Value> {
    EndValues(in_) + [Map(in_.properties)] + (if in_.allowDuplicate then [Map(in_.properties)] else []) + [Str(in_.notice)]
  }

  function CreateText(in_: Input): seq<Token> {
    var n, k := |CriteriaValues(in_.from.criteria)|, |EndValues(in_)|;
    Call(NodeMatchTokens(in_.from, SRC, 0), NodeMatchTokens(in_.to, DST, n),
         if in_.allowDuplicate then CreateTokens(in_.typ, Param(k + 1)) else MergeTokens(in_.typ, Param(k)),
         Param(if in_.allowDuplicate then k + 2 else k + 1))
  }

  // The parameters the text refers to.
  ghost function Referenced(in_: Input): set<nat> {
    Range(0, |AllValues(in_)|) - if in_.allowDuplicate then {|EndValues(in_)|} else {}
  }

  // Up to the write: one source and one target, or nothing.
  function CallMiddle(): seq<Token> {
    [Between(WITH_TARGETS)] + CallHead()
  }

  function CallHead(): seq<Token> {
    [Text(OPTIONAL_CALL), Text(ONE_EACH), Text(WHERE_ONE)] + OneOfEach() + [Between(LINE)]
  }

  function OneOfEach(): seq<Token> {
    [Text(SOURCES), Text(EQUALS), Text(ONE), Between(AND), Text(TARGETS), Text(EQUALS), Text(ONE)]
  }

  // After it: the relationship, the two counts and, when nothing was created, why.
  function CallTail(message: Token): seq<Token> {
    RelMap(R) + CallRow(message)
  }

  function CallRow(message: Token): seq<Token> {
    CallCounts() + MissingCase(message) + [Between(AS_MESSAGE)]
  }

  function CallCounts(): seq<Token> {
    [Text(AS_REL), Text(SOURCES), Between(AS_FROM), Text(TARGETS), Between(AS_TO), Text(REL), Between(AND_CASE)]
  }

  function MissingCase(message: Token): seq<Token> {
    [Between(WHEN), Text(REL), Text(IS_NULL), Between(THEN), message, Between(END)]
  }

  function Call(from: seq<Token>, to: seq<Token>, write: seq<Token>, message: Token): seq<Token> {
    from + [Between(WITH_SOURCES)] + to + CallMiddle() + write + [Between(RETURN_REL)] + CallTail(message)
  }

  function MergeTokens(typ: string, props: Token): seq<Token> {
    [Text(MERGE), Name(typ), Text(MERGE_SET), props]
  }

  function CreateTokens(typ: string, props: Token): seq<Token> {
    [Text(CREATE), Name(typ), Between(SPACE), props, Between(CREATE_END)]
  }

  lemma WriteEmits(typ: string, k: nat)
    ensures Emits(MergeTokens(typ, Param(k)), {k}, {typ})
    ensures Emits(CreateTokens(typ, Param(k)), {k}, {typ})
  {
    var merge, create := MergeTokens(typ, Param(k)), CreateTokens(typ, Param(k));
    assert merge[1] == Name(typ) && merge[3] == Param(k) && create[1] == Name(typ) && create[3] == Param(k);
  }

  lemma CountsEmit()
    ensures Emits(CallCounts(), {}, {}) && !OpenEnd(CallCounts())
  {
  }

  lemma MissingEmits(k: nat)
    ensures Emits(MissingCase(Param(k)), {k}, {}) && !OpenEnd(MissingCase(Param(k)))
    ensures MissingCase(Param(k)) != [] && !MissingCase(Param(k))[0].Text?
  {
    assert MissingCase(Param(k))[4] == Param(k);
  }

  lemma CallTailEmits(k: nat)
    ensures Emits(CallTail(Param(k)), {k}, {})
  {
    hide CallCounts, MissingCase, RelMap, WellFormed, Params, Names;
    var missing := MissingCase(Param(k));
    RelMapSilent();
    CountsEmit();
    MissingEmits(k);
    GapEmits(AS_MESSAGE);
    EmitsConcat(RelMap(R), CallCounts());
    EmitsConcat(RelMap(R) + CallCounts(), missing);
    EmitsConcat(RelMap(R) + CallCounts() + missing, [Between(AS_MESSAGE)]);
    assert CallTail(Param(k)) == RelMap(R) + CallCounts() + missing + [Between(AS_MESSAGE)];
  }

  lemma RelMapSilent()
    ensures Emits(RelMap(R), {}, {}) && !OpenEnd(RelMap(R))
  {
    PlainEmits(RelMap(R));
  }

  lemma CallMiddleEmits()
    ensures Emits(CallMiddle(), {}, {}) && !OpenEnd(CallMiddle()) && CallMiddle() != [] && !CallMiddle()[0].Text?
  {
    hide CallHead, WellFormed, Params, Names;
    GapEmits(WITH_TARGETS);
    CallHeadEmits();
    EmitsConcat([Between(WITH_TARGETS)], CallHead());
  }

  lemma CallHeadEmits()
    ensures Emits(CallHead(), {}, {}) && !OpenEnd(CallHead()) && CallHead() != []
  {
  }

  lemma CallEmits(from: seq<Token>, to: seq<Token>, write: seq<Token>, k: nat)
    requires WellFormed(from) && WellFormed(to) && WellFormed(write)
    ensures Emits(Call(from, to, write, Param(k)), Params(from) + Params(to) + Params(write) + {k},
                  Names(from) + Names(to) + Names(write))
  {
    hide WellFormed, Params, Names, OpenEnd, CallMiddle, CallTail;
    var a: seq<Token>, c: seq<Token> := [Between(WITH_SOURCES)], [Between(RETURN_REL)];
    GapEmits(WITH_SOURCES);
    GapEmits(RETURN_REL);
    CallMiddleEmits();
    CallTailEmits(k);
    EmitsConcat(from, a);
    EmitsConcat(from + a, to);
    EmitsConcat(from + a + to, CallMiddle());
    EmitsConcat(from + a + to + CallMiddle(), write);
    EmitsConcat(from + a + to + CallMiddle() + write, c);
    EmitsConcat(from + a + to + CallMiddle() + write + c, CallTail(Param(k)));
  }

  lemma ReferencedParts(in_: Input, n: nat, k: nat)
    requires n <= k == |EndValues(in_)|
    ensures var m := |AllValues(in_)| - 1; Range(0, n) + Range(n, k) + {m - 1} + {m} == Referenced(in_)
  {
  }

  // ---------------------------------------------------------------- the query read back

  // The query matches src by `from` and, a line further on, dst by `to`.
  ghost predicate MatchesEnds(q: Query, from: NodeRef, to: NodeRef) {
    && ReadMatch(q.text, q.params) == Clause([NodePart(Text("src"), Some(from.labels), [])], Wanted(from.criteria, Text("src")))
    && ReadMatch(RestLines(q.text), q.params) == Clause([NodePart(Text("dst"), Some(to.labels), [])], Wanted(to.criteria, Text("dst")))
  }

  // At this place it creates a relationship of the type from src to dst, with the
  // properties: a new one, or one only if there is none.
  ghost predicate CreatesAt(q: Query, i: nat, typ: string, properties: map<string, Value>, duplicate: bool) {
    && i + 4 < |q.text|
    && q.text[i + 1] == Name(typ) && ValueOf(q.text[i + 3], q.params) == Some(Map(properties))
    && if duplicate then
         q.text[i] == Text("CREATE (src)-[r:") && q.text[i + 2] == Between(" ") && q.text[i + 4] == Between("]->(dst)")
       else
         q.text[i] == Text("MERGE (src)-[r:") && q.text[i + 2] == Text(MERGE_SET) && q.text[i + 4] == Between("\n  RETURN ")
  }

  ghost predicate Creates(q: Query, typ: string, properties: map<string, Value>, duplicate: bool) {
    exists i :: CreatesAt(q, i, typ, properties, duplicate)
  }

  // However many sources and targets match, it creates one relationship if there is one
  // of each and nothing otherwise, and answers with both counts and, then, with the notice.
  ghost predicate Answers(q: Query, notice: string) {
    && CollectsEnds(q.text)
    && forall sources: nat, targets: nat ::
      RunCreation(RestLines(RestLines(q.text)), sources, targets, q.params) == Some(
        Creation(sources == 1 && targets == 1, sources, targets, if sources == 1 && targets == 1 then Nil else Str(notice)))
  }

  // What it hands back is the relationship.
  ghost predicate HandsBackRel(q: Query) {
    ReadShown(Created(RestLines(RestLines(q.text)))) == RelShown(Text("r"), All)
  }

  lemma CreatedRead(q: Query, write: seq<Token>, message: Token)
    requires RestLines(RestLines(q.text)) == CallHead() + write + [Between(RETURN_REL)] + CallTail(message)
    requires Between(RETURN_REL) !in write
    ensures HandsBackRel(q)
  {
    hide CallHead, CallRow, RelMap, RestLines, ReadShown, PastFirst, CreationCloses, MissingCase;
    var rest := RestLines(RestLines(q.text));
    CallHeadNoReturn();
    CallRowParts(message);
    RelMapRead(R);
    CutAt(CallHead() + write, Between(RETURN_REL), CallTail(message));
    assert rest == CallHead() + write + ([Between(RETURN_REL)] + CallTail(message));
    var after := RelMap(R) + CallRow(message);
    assert PastFirst(rest, Between("\n  RETURN ")) == after && after[..|after| - 14] == RelMap(R);
  }

  lemma CallHeadNoReturn()
    ensures Between("\n  RETURN ") !in CallHead()
  {
    assert |LINE| == 3;
  }

  // The longer text above, in full.
  lemma FixedTexts()
    ensures MERGE_SET == "]->(dst)\n" + "    SET r += "
  {
  }

  lemma OneDecides(counts: Env, sources: nat, targets: nat, params: map<string, Value>)
    requires "size(sources)" in counts && counts["size(sources)"] == sources && "1" !in counts
    requires "size(targets)" in counts && counts["size(targets)"] == targets
    ensures Holds(OneOfEach(), counts, params) == Some(sources == 1 && targets == 1)
  {
    hide Holds;
    var from: seq<Token>, to: seq<Token> := [Text(SOURCES), Text(EQUALS), Text(ONE)], [Text(TARGETS), Text(EQUALS), Text(ONE)];
    assert from[1] == Text(" = ") && to[1] == Text(" = ") && from[2] == Text("1") && to[2] == Text("1");
    assert Fact(from, counts, params) == Some(sources == 1) && Fact(to, counts, params) == Some(targets == 1);
    BothHold(from, to, counts, params);
    assert OneOfEach() == from + ([Between(AND)] + to);
  }

  lemma MissingDecides(message: Token, env: Env, created: bool, params: map<string, Value>)
    requires "relationship" in env && env["relationship"] == Flag(created)
    ensures Chosen(MissingCase(message), env, params) == Some(if created then Text("null") else message)
  {
    hide Holds;
    var test, rest: seq<Token> := [Text(REL), Text(IS_NULL)], [Between(END)];
    MissingHolds(env, created, params);
    WhenChosen(test, message, rest, env, params);
    assert MissingCase(message) == [Between(WHEN)] + (test + ([Between(THEN)] + ([message] + rest)));
  }

  lemma MissingHolds(env: Env, created: bool, params: map<string, Value>)
    requires "relationship" in env && env["relationship"] == Flag(created)
    ensures Holds([Text(REL), Text(IS_NULL)], env, params) == Some(!created)
  {
    assert [Text(REL), Text(IS_NULL)][1] == Text(" IS NULL");
  }

  lemma CallHeadParts()
    ensures |CallHead()| == 11 && CreationOpens(CallHead()) && CallHead()[3..10] == OneOfEach()
  {
  }

  lemma CallRowParts(message: Token)
    ensures |CallRow(message)| == 14 && CreationCloses(CallRow(message))
    ensures CallRow(message)[1] == Text("size(sources)") && CallRow(message)[3] == Text("size(targets)")
    ensures CallRow(message)[7..13] == MissingCase(message)
  {
  }

  lemma CallRuns(ts: seq<Token>, middle: seq<Token>, message: Token, sources: nat, targets: nat, params: map<string, Value>)
    requires ts == CallHead() + middle + CallRow(message) && MessageOf(message, params).Some?
    ensures RunCreation(ts, sources, targets, params) == Some(
      Creation(sources == 1 && targets == 1, sources, targets,
               if sources == 1 && targets == 1 then Nil else MessageOf(message, params).value))
  {
    hide CallHead, CallRow, OneOfEach, MissingCase, CreationOpens, CreationCloses, Holds, Chosen;
    CallHeadParts();
    CallRowParts(message);
    assert ts[..11] == CallHead() && ts[|ts| - 14..] == CallRow(message);
    var counts: Env := map["size(sources)" := sources, "size(targets)" := targets];
    OneDecides(counts, sources, targets, params);
    var created := sources == 1 && targets == 1;
    MissingDecides(message, counts["relationship" := Flag(created)], created, params);
  }

  lemma SourcesBreak()
    ensures IsBreak(Between(WITH_SOURCES)) && IsBreak(Between(WITH_TARGETS))
  {
  }

  lemma EndsRead(in_: Input, write: seq<Token>, message: Token, q: Query)
    requires RefOk(in_.from) && RefOk(in_.to) && Gives(q.params, 0, EndValues(in_))
    requires q.text == Call(NodeMatchTokens(in_.from, SRC, 0), NodeMatchTokens(in_.to, DST, |CriteriaValues(in_.from.criteria)|), write, message)
    ensures MatchesEnds(q, in_.from, in_.to) && CollectsEnds(q.text)
    ensures RestLines(RestLines(q.text)) == CallHead() + write + [Between(RETURN_REL)] + CallTail(message)
  {
    hide CriteriaValues, RefOk, NodeMatchTokens, Gives, ReadMatch, Wanted, IsBreak, CallHead, CallTail, RestLines, OneLine,
      CollectsEnds;
    var n := |CriteriaValues(in_.from.criteria)|;
    var from, to := NodeMatchTokens(in_.from, SRC, 0), NodeMatchTokens(in_.to, DST, n);
    var middle := write + [Between(RETURN_REL)] + CallTail(message);
    var end := [Between(WITH_TARGETS)] + (CallHead() + middle);
    var rest := [Between(WITH_SOURCES)] + (to + end);
    SourcesBreak();
    GivesJoin(q.params, 0, CriteriaValues(in_.from.criteria), CriteriaValues(in_.to.criteria));
    assert q.text == from + rest;
    NodeMatchRead(in_.from, SRC, 0, rest, q.params);
    NodeMatchRead(in_.to, DST, n, end, q.params);
    EndsLines(q.text, from, to, CallHead() + middle);
    assert CallHead() + middle == CallHead() + write + [Between(RETURN_REL)] + CallTail(message);
  }

  lemma EndsLines(ts: seq<Token>, from: seq<Token>, to: seq<Token>, rest: seq<Token>)
    requires OneLine(from) && OneLine(to)
    requires ts == from + ([Between(WITH_SOURCES)] + (to + ([Between(WITH_TARGETS)] + rest)))
    ensures RestLines(ts) == to + ([Between(WITH_TARGETS)] + rest) && RestLines(RestLines(ts)) == rest
    ensures CollectsEnds(ts)
  {
    hide IsBreak, RestLines, FirstLine, OneLine;
    var end := [Between(WITH_TARGETS)] + rest;
    var first := [Between(WITH_SOURCES)] + (to + end);
    SourcesBreak();
    LineOf(from, first);
    LineOf(to, end);
    assert first[1..] == to + end && end[1..] == rest;
    assert Behind(ts) == first && Behind(to + end) == end;
    EndsCollected(ts, first[0], end[0]);
  }

  lemma EndsCollected(ts: seq<Token>, first: Token, second: Token)
    requires Behind(ts) != [] && Behind(RestLines(ts)) != [] && first == Behind(ts)[0] && second == Behind(RestLines(ts))[0]
    requires first == Between(WITH_SOURCES) && second == Between(WITH_TARGETS)
    ensures CollectsEnds(ts)
  {
    hide Behind, RestLines;
  }

  lemma CreateReads(in_: Input, q: Query)
    requires InputOk(in_) && q.text == CreateText(in_) && q.params == Bound(AllValues(in_))
    ensures MatchesEnds(q, in_.from, in_.to) && Creates(q, in_.typ, in_.properties, in_.allowDuplicate) && Answers(q, in_.notice)
    ensures HandsBackRel(q)
  {
    hide CriteriaValues, RefOk, NodeMatchTokens, Gives, MatchesEnds, CallMiddle, CallHead, CallRow, RelMap, Bound, HasPredicate,
      AnyBlankKey, EndValues, RestLines, CollectsEnds, Answers, Creates, ValueOf, HandsBackRel;
    var n, k := |CriteriaValues(in_.from.criteria)|, |EndValues(in_)|;
    var vals, notice := AllValues(in_), Str(in_.notice);
    var write := if in_.allowDuplicate then CreateTokens(in_.typ, Param(k + 1)) else MergeTokens(in_.typ, Param(k));
    var message := Param(if in_.allowDuplicate then k + 2 else k + 1);
    BoundGives(vals);
    assert vals == EndValues(in_) + vals[k..];
    GivesJoin(q.params, 0, EndValues(in_), vals[k..]);
    EndsRead(in_, write, message, q);
    assert ValueOf(message, q.params) == Some(notice) by { GivesAt(q.params, vals, message.index); }
    assert ValueOf(write[3], q.params) == Some(Map(in_.properties)) by { GivesAt(q.params, vals, write[3].index); }
    var head := NodeMatchTokens(in_.from, SRC, 0) + [Between(WITH_SOURCES)] + NodeMatchTokens(in_.to, DST, n) + CallMiddle();
    WriteStands(q, head, write, message, in_.typ, in_.properties, in_.allowDuplicate);
    WriteNoReturn(in_.typ, write[3]);
    CreatedRead(q, write, message);
    assert write + [Between(RETURN_REL)] + RelMap(R) + CallRow(message) == write + [Between(RETURN_REL)] + CallTail(message);
    AnswerStands(q, write + [Between(RETURN_REL)] + RelMap(R), message, in_.notice);
  }

  lemma WriteNoReturn(typ: string, props: Token)
    requires props.Param?
    ensures Between("\n  RETURN ") !in MergeTokens(typ, props) && Between("\n  RETURN ") !in CreateTokens(typ, props)
  {
    assert |SPACE| == 1 && CREATE_END[0] == ']';
  }

  lemma GivesAt(params: map<string, Value>, vals: seq<Value>, k: nat)
    requires Gives(params, 0, vals) && k < |vals|
    ensures ValueOf(Param(k), params) == Some(vals[k])
  {
    assert ValueOf(Param(0 + k), params) == Some(vals[k]);
  }

  lemma WriteStands(q: Query, head: seq<Token>, write: seq<Token>, message: Token, typ: string, properties: map<string, Value>, duplicate: bool)
    requires q.text == head + write + [Between(RETURN_REL)] + CallTail(message)
    requires |write| > 3 && write[3].Param? && ValueOf(write[3], q.params) == Some(Map(properties))
    requires write == if duplicate then CreateTokens(typ, write[3]) else MergeTokens(typ, write[3])
    ensures Creates(q, typ, properties, duplicate)
  {
    hide CallTail, ValueOf;
    var i, ts := |head|, q.text;
    assert ts[i] == write[0] && ts[i + 1] == write[1] && ts[i + 2] == write[2] && ts[i + 3] == write[3];
    assert duplicate ==> ts[i + 4] == write[4];
    assert !duplicate ==> ts[i + 4] == Between(RETURN_REL);
    assert CreatesAt(q, i, typ, properties, duplicate);
  }

  lemma AnswerStands(q: Query, middle: seq<Token>, message: Token, notice: string)
    requires CollectsEnds(q.text) && RestLines(RestLines(q.text)) == CallHead() + middle + CallRow(message)
    requires message.Param? && ValueOf(message, q.params) == Some(Str(notice))
    ensures Answers(q, notice)
  {
    hide CallHead, CallRow, ValueOf, RestLines, RunCreation, CollectsEnds;
    forall sources: nat, targets: nat ensures RunCreation(RestLines(RestLines(q.text)), sources, targets, q.params) == Some(
        Creation(sources == 1 && targets == 1, sources, targets, if sources == 1 && targets == 1 then Nil else Str(notice))) {
      CallRuns(RestLines(RestLines(q.text)), middle, message, sources, targets, q.params);
    }
  }

  method BuildCreateRelationship(in_: Input) returns (r: Built<Query>)
    ensures r.Done? <==> InputOk(in_)
    ensures r.Done? ==> MatchesEnds(r.value, in_.from, in_.to)
    ensures r.Done? ==> Creates(r.value, in_.typ, in_.properties, in_.allowDuplicate) && HandsBackRel(r.value)
    ensures r.Done? ==> Answers(r.value, in_.notice)
    ensures r.Done? ==> r.value.write && r.value.text == CreateText(in_) && r.value.params == Bound(AllValues(in_))
    ensures r.Done? ==> Names(r.value.text) == RefNames(in_.from) + RefNames(in_.to) + {in_.typ}
    ensures r.Done? ==>
      && WellFormed(r.value.text)
      && Params(r.value.text) == Referenced(in_)
  {
    hide CriteriaValues, RefOk, NodeMatchTokens, RefNames, Bound, WellFormed, Params, Names, AnyBlankKey, Call,
      MergeTokens, CreateTokens, HasPredicate, Range, Referenced, MatchesEnds, Creates, Answers, HandsBackRel;
    if in_.typ == "" {
      return Fail(BlankLabel);
    }
    if !HasPredicate(in_.from.criteria) || !HasPredicate(in_.to.criteria) {
      return Fail(NoPredicate);
    }
    if AnyBlankKey(in_.properties) {
      return Fail(BlankKey);
    }
    var b := new Builder();
    var from := NodeMatch(in_.from, SRC, b);
    if from.Fail? {
      return Fail(from.error);
    }
    ghost var n := |b.vals|;
    var to := NodeMatch(in_.to, DST, b);
    if to.Fail? {
      return Fail(to.error);
    }
    ghost var k := |b.vals|;
    assert b.vals == EndValues(in_);
    NodeMatchEmits(in_.from, SRC, 0);
    NodeMatchEmits(in_.to, DST, n);
    var props := b.Param(Map(in_.properties));
    var write := MergeTokens(in_.typ, props);
    WriteEmits(in_.typ, k);
    if in_.allowDuplicate {
      var again := b.Param(Map(in_.properties));
      write := CreateTokens(in_.typ, again);
      WriteEmits(in_.typ, k + 1);
    }
    ghost var m := |b.vals|;
    assert Params(write) == {m - 1};
    var message := b.Param(Str(in_.notice));
    CallEmits(from.value, to.value, write, m);
    r := Done(Query(Call(from.value, to.value, write, message), b.params, true));
    assert b.vals == AllValues(in_);
    ReferencedParts(in_, n, k);
    CreateReads(in_, r.value);
  }

  // Every reference is bound, and the only parameter the text may leave out is the
  // first copy of the properties.
  lemma OnlyFirstCopyUnused(in_: Input, q: Query)
    requires q.params == Bound(AllValues(in_)) && WellFormed(q.text) && Params(q.text) == Referenced(in_)
    ensures forall r :: r in Refs(Lex(q.Cypher(), Code)) ==> r in q.params
    ensures forall r :: r in q.params && r !in Refs(Lex(q.Cypher(), Code)) ==>
      in_.allowDuplicate && r == ParamName(|EndValues(in_)|)
  {
    hide AllValues, EndValues, Render, Lex, Refs, ParamName, Bound, WellFormed, Params;
    BoundWhenParamsWithin(q.text, AllValues(in_));
    BoundKeys(AllValues(in_));
    RenderedCode(q.text);
    RenderedRefs(q.text);
    ParamListIsParams(q.text);
  }

  // The query refers to exactly what it binds if and only if allowDuplicate is off.
  lemma ClosedIffNoDuplicate(in_: Input, q: Query)
    requires q.params == Bound(AllValues(in_)) && WellFormed(q.text) && Params(q.text) == Referenced(in_)
    ensures ParameterClosed(q.Cypher(), q.params) <==> !in_.allowDuplicate
  {
    hide EndValues, Render, Lex, Refs, ParamName, Bound, WellFormed, Params;
    var k := |EndValues(in_)|;
    BoundWhenParamsWithin(q.text, AllValues(in_));
    BoundKeys(AllValues(in_));
    OnlyFirstCopyUnused(in_, q);
    if in_.allowDuplicate {
      assert k !in Params(q.text);
    }
  }
}
