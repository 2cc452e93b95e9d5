// Node and relationship references rendered as patterns and conditions, with
// every value bound through the query's builder.
module GraphConditions {
  import opened Quoting
  import opened QueryReading
  import opened QueryText
  import opened Runes
  import opened Values
  import opened Wrappers

  datatype Operator =
    | Equal | NotEqual | Less | Greater | AtMost | AtLeast
    | In | ContainsText | StartsWithText | EndsWithText
    | IsNull | IsNotNull

  // The whitelist, keyed by the operator text once trimmed and upper-cased.
  function FilterOperators(op: string): Option<Operator> {
    if op == "=" then Some(Equal)
    else if op == "<>" then Some(NotEqual)
    else if op == "<" then Some(Less)
    else if op == ">" then Some(Greater)
    else if op == "<=" then Some(AtMost)
    else if op == ">=" then Some(AtLeast)
    else if op == "IN" then Some(In)
    else if op == "CONTAINS" then Some(ContainsText)
    else if op == "STARTS WITH" then Some(StartsWithText)
    else if op == "ENDS WITH" then Some(EndsWithText)
    else if op == "IS NULL" then Some(IsNull)
    else if op == "IS NOT NULL" then Some(IsNotNull)
    else None
  }

  // What is in it.
  lemma OperatorsAre(op: string)
    ensures FilterOperators(op).Some? <==>
      op in ["=", "<>", "<", ">", "<=", ">=", "IN", "CONTAINS", "STARTS WITH", "ENDS WITH", "IS NULL", "IS NOT NULL"]
  {
  }

  function OperatorText(op: Operator): Gap {
    match op
    case Equal => " = "
    case NotEqual => " <> "
    case Less => " < "
    case Greater => " > "
    case AtMost => " <= "
    case AtLeast => " >= "
    case In => " IN "
    case ContainsText => " CONTAINS "
    case StartsWithText => " STARTS WITH "
    case EndsWithText => " ENDS WITH "
    case IsNull => " IS NULL"
    case IsNotNull => " IS NOT NULL"
  }

  datatype Filter = Filter(property: string, operator: string, value: Value)

  function OperatorOf(f: Filter): Option<Operator> {
    FilterOperators(UpperCase(TrimSpace(f.operator)))
  }

  // An operator is looked up whatever whitespace surrounds it.
  lemma PaddingIgnored(f: Filter, a: string, b: string)
    requires forall i :: 0 <= i < |a| ==> IsSpace(a[i])
    requires forall i :: 0 <= i < |b| ==> IsSpace(b[i])
    ensures OperatorOf(f.(operator := a + (f.operator + b))) == OperatorOf(f)
  {
    hide FilterOperators, TrimSpace;
    TrimPadded(a, f.operator, b);
  }

  lemma UpperCaseKept(s: string)
    requires forall i :: 0 <= i < |s| ==> Upper(s[i]) == s[i]
    ensures UpperCase(s) == s
  {
  }

  function OperatorName(op: Operator): string {
    match op
    case Equal => "="
    case NotEqual => "<>"
    case Less => "<"
    case Greater => ">"
    case AtMost => "<="
    case AtLeast => ">="
    case In => "IN"
    case ContainsText => "CONTAINS"
    case StartsWithText => "STARTS WITH"
    case EndsWithText => "ENDS WITH"
    case IsNull => "IS NULL"
    case IsNotNull => "IS NOT NULL"
  }

  // The whitelist has each operator under its own name, and the text rendered for
  // it is that name, set off by spaces.
  lemma OperatorReadsBack(op: Operator, f: Filter)
    requires f.operator == OperatorText(op)
    ensures OperatorOf(f) == Some(op)
  {
    hide IsSpace, Upper, FilterOperators, TrimSpace, UpperCase, OperatorText, OperatorName;
    var name := OperatorName(op);
    var after := if TakesNoValue(op) then "" else " ";
    OperatorTextPadded(op);
    assert IsSpace(' ') by { SpaceIsSpace(); }
    PaddingIgnored(f.(operator := name), " ", after);
    NameBounds(op);
    NothingToTrim(name);
    UpperCaseKept(name);
    NameLookedUp(op);
    assert f == f.(operator := name).(operator := " " + (name + after));
  }

  lemma SpaceIsSpace()
    ensures IsSpace(' ')
  {
  }

  lemma OperatorTextPadded(op: Operator)
    ensures OperatorText(op) == " " + (OperatorName(op) + if TakesNoValue(op) then "" else " ")
  {
    hide OperatorText, OperatorName;
    if TakesNoValue(op) {
      TestPadded(op);
    } else if op == In || op == ContainsText || op == StartsWithText || op == EndsWithText {
      WordPadded(op);
    } else {
      SymbolPadded(op);
    }
  }

  lemma TestPadded(op: Operator)
    requires TakesNoValue(op)
    ensures OperatorText(op) == " " + (OperatorName(op) + "")
  {
  }

  lemma WordPadded(op: Operator)
    requires op == In || op == ContainsText || op == StartsWithText || op == EndsWithText
    ensures OperatorText(op) == " " + (OperatorName(op) + " ")
  {
  }

  lemma SymbolPadded(op: Operator)
    requires op == Equal || op == NotEqual || op == Less || op == Greater || op == AtMost || op == AtLeast
    ensures OperatorText(op) == " " + (OperatorName(op) + " ")
  {
  }

  lemma NameBounds(op: Operator)
    ensures var name := OperatorName(op); name != "" && !IsSpace(name[0]) && !IsSpace(name[|name| - 1])
    ensures forall i :: 0 <= i < |OperatorName(op)| ==> Upper(OperatorName(op)[i]) == OperatorName(op)[i]
  {
  }

  lemma NameLookedUp(op: Operator)
    ensures FilterOperators(OperatorName(op)) == Some(op)
  {
  }

  // One key of a property map; maps are listed in the sorted order they are rendered in.
  datatype Entry = Entry(key: string, value: Value)

  datatype BuildError =
    | BlankProperty(filter: nat)
    | UnknownOperator(filter: nat)
    | MissingValue(filter: nat)
    | ValueNotList(filter: nat)
    | BlankMatchKey
    | NullMatch(key: string)
    | BlankLabel
    | NoPredicate
    | NothingToUpdate
    | BlankKey
    | OutOfRange
    | BadDirection
    | BadMode
    | BadPattern

  datatype Built<T> = Fail(error: BuildError) | Done(value: T)

  const AND: Gap := " AND "
  const WHERE: Gap := " WHERE "
  const COLON: Plain := ":"
  const DOT: Plain := "."
  const EQUALS: Plain := " = "
  const ELEMENT_ID: Plain := "elementId("
  const IS: Plain := ") = "

  predicate IsBlank(s: string) {
    forall i :: 0 <= i < |s| ==> IsSpace(s[i])
  }

  predicate AnyBlank(names: seq<string>) {
    exists n :: n in names && IsBlank(n)
  }

  // ---------------------------------------------------------------- what a list of tokens emits

  ghost predicate Emits(ts: seq<Token>, params: set<nat>, names: set<string>) {
    WellFormed(ts) && Params(ts) == params && Names(ts) == names
  }

  ghost predicate OpenEnd(ts: seq<Token>) {
    ts != [] && ts[|ts| - 1].Param?
  }

  lemma EmitsConcat(a: seq<Token>, b: seq<Token>)
    requires WellFormed(a) && WellFormed(b)
    requires OpenEnd(a) && b != [] ==> !b[0].Text?
    ensures Emits(a + b, Params(a) + Params(b), Names(a) + Names(b))
    ensures OpenEnd(a + b) <==> OpenEnd(if b == [] then a else b)
  {
  }

  // A variable expression: it binds nothing.
  ghost predicate IsVar(v: seq<Token>) {
    v != [] && forall i :: 0 <= i < |v| ==> !v[i].Param?
  }

  function NameList(names: seq<string>, sep: Plain): seq<Token> {
    if names == [] then []
    else if |names| == 1 then [Name(names[0])]
    else [Name(names[0]), Text(sep)] + NameList(names[1..], sep)
  }

  // ":`A`&`B`", or nothing for no labels.
  function LabelTokens(labels: seq<string>, sep: Plain): seq<Token> {
    if labels == [] then [] else [Text(COLON)] + NameList(labels, sep)
  }

  lemma {:induction false} NameListEmits(names: seq<string>, sep: Plain)
    ensures Emits(NameList(names, sep), {}, set n | n in names) && !OpenEnd(NameList(names, sep))
  {
    if |names| > 1 {
      NameListEmits(names[1..], sep);
      EmitsConcat([Name(names[0]), Text(sep)], NameList(names[1..], sep));
      assert names == [names[0]] + names[1..];
    }
  }

  lemma LabelTokensEmit(labels: seq<string>, sep: Plain)
    ensures Emits(LabelTokens(labels, sep), {}, set n | n in labels) && !OpenEnd(LabelTokens(labels, sep))
  {
    NameListEmits(labels, sep);
    EmitsConcat([Text(COLON)], NameList(labels, sep));
  }

  // The tokens render as the label printer's text.
  lemma {:induction false} NameListRenders(names: seq<string>, sep: Plain)
    ensures Render(NameList(names, sep)) == Join(QuoteAll(names), sep)
  {
    if |names| == 1 {
      assert [Name(names[0])][1..] == [];
      assert Render([Name(names[0])]) == QuoteIdentifier(names[0]) + Render([]);
    } else if |names| > 1 {
      var head := [Name(names[0]), Text(sep)];
      NameListRenders(names[1..], sep);
      RenderConcat(head, NameList(names[1..], sep));
      assert head[1..] == [Text(sep)] && head[1..][1..] == [];
      assert Render(head) == QuoteIdentifier(names[0]) + (sep + Render([]));
      assert QuoteAll(names)[1..] == QuoteAll(names[1..]);
    }
  }

  lemma LabelTokensRender(labels: seq<string>, sep: Plain)
    requires labels != []
    ensures Render(LabelTokens(labels, sep)) == ":" + Join(QuoteAll(labels), sep)
  {
    NameListRenders(labels, sep);
    assert LabelTokens(labels, sep)[1..] == NameList(labels, sep);
  }

  // ---------------------------------------------------------------- condition lists

  // A list of conditions is kept joined by AND; no conditions are no tokens.
  function AndThen(a: seq<Token>, b: seq<Token>): seq<Token> {
    Then(a, AND, b)
  }

  function Then(a: seq<Token>, sep: Gap, b: seq<Token>): seq<Token> {
    if a == [] then b else if b == [] then a else a + [Between(sep)] + b
  }

  function Where(conds: seq<Token>): seq<Token> {
    if conds == [] then [] else [Between(WHERE)] + conds
  }

  // Conditions that bind the parameters from..to-1. Their names are `names`, up to
  // those of the variable the conditions are on.
  ghost predicate CondsEmit(conds: seq<Token>, from: nat, to: nat, names: set<string>, of: set<string>) {
    from <= to && WellFormed(conds) && Params(conds) == Range(from, to) && Names(conds) + of == names + of
  }

  lemma AndThenEmits(a: seq<Token>, b: seq<Token>)
    requires WellFormed(a) && WellFormed(b)
    ensures Emits(AndThen(a, b), Params(a) + Params(b), Names(a) + Names(b))
  {
    ThenEmits(a, AND, b);
  }

  lemma ThenEmits(a: seq<Token>, sep: Gap, b: seq<Token>)
    requires WellFormed(a) && WellFormed(b)
    ensures Emits(Then(a, sep, b), Params(a) + Params(b), Names(a) + Names(b))
  {
    var link: seq<Token> := [Between(sep)];
    assert Emits(link, {}, {});
    EmitsConcat(a, link);
    EmitsConcat(a + link, b);
  }

  lemma NothingEmits(n: nat, of: set<string>)
    ensures CondsEmit([], n, n, {}, of)
  {
  }

  lemma CondsEmitConcat(a: seq<Token>, b: seq<Token>, from: nat, mid: nat, to: nat,
                        x: set<string>, y: set<string>, of: set<string>)
    requires CondsEmit(a, from, mid, x, of) && CondsEmit(b, mid, to, y, of)
    ensures CondsEmit(AndThen(a, b), from, to, x + y, of)
  {
    AndThenEmits(a, b);
    assert Range(from, to) == Range(from, mid) + Range(mid, to);
  }

  lemma WhereEmits(conds: seq<Token>)
    requires WellFormed(conds)
    ensures Emits(Where(conds), Params(conds), Names(conds))
    ensures Where(conds) != [] ==> !Where(conds)[0].Text?
  {
    var head: seq<Token> := [Between(WHERE)];
    assert Emits(head, {}, {});
    EmitsConcat(head, conds);
  }

  // ---------------------------------------------------------------- filters

  predicate TakesNoValue(op: Operator) {
    op == IsNull || op == IsNotNull
  }

  predicate FilterOk(f: Filter) {
    && !IsBlank(f.property)
    && OperatorOf(f).Some?
    && (TakesNoValue(OperatorOf(f).value) || (f.value != Nil && (OperatorOf(f).value == In ==> f.value.List?)))
  }

  predicate FiltersOk(filters: seq<Filter>) {
    forall i :: 0 <= i < |filters| ==> FilterOk(filters[i])
  }

  function FilterValue(f: Filter): seq<Value> {
    if OperatorOf(f).Some? && TakesNoValue(OperatorOf(f).value) then [] else [f.value]
  }

  // The values the filters bind, in order.
  function FilterValues(filters: seq<Filter>): seq<Value> {
    if filters == [] then [] else FilterValues(filters[..|filters| - 1]) + FilterValue(filters[|filters| - 1])
  }

  function FilterNames(filters: seq<Filter>): set<string> {
    set f | f in filters :: f.property
  }

  // One filter on `v`, with its value bound as parameter k.
  function FilterCond(v: seq<Token>, f: Filter, k: nat): seq<Token> {
    v + [Text(DOT), Name(f.property)]
      + match OperatorOf(f)
        case None => []
        case Some(op) => if TakesNoValue(op) then [Between(OperatorText(op))] else [Between(OperatorText(op)), Param(k)]
  }

  // The conditions of the filters, their values bound from parameter n on.
  function FilterConds(v: seq<Token>, filters: seq<Filter>, n: nat): seq<Token> {
    if filters == [] then []
    else
      var before := filters[..|filters| - 1];
      AndThen(FilterConds(v, before, n), FilterCond(v, filters[|filters| - 1], n + |FilterValues(before)|))
  }

  lemma FilterCondEmits(v: seq<Token>, f: Filter, k: nat)
    requires IsVar(v) && FilterOk(f)
    ensures FilterCond(v, f, k) != []
    ensures CondsEmit(FilterCond(v, f, k), k, k + |FilterValue(f)|, {f.property}, Names(v))
  {
    hide OperatorOf, OperatorText, IsBlank;
    var gap := OperatorText(OperatorOf(f).value);
    var name := [Text(DOT), Name(f.property)];
    var tail := if TakesNoValue(OperatorOf(f).value) then [Between(gap)] else [Between(gap), Param(k)];
    assert name[1] == Name(f.property);
    assert Emits(name, {}, {f.property});
    EmitsConcat(v, name);
    assert !TakesNoValue(OperatorOf(f).value) ==> tail[1] == Param(k);
    assert Emits(tail, if TakesNoValue(OperatorOf(f).value) then {} else {k}, {});
    EmitsConcat(v + name, tail);
    assert Range(k, k + |FilterValue(f)|) == Params(tail);
  }

  lemma FilterNamesLast(before: seq<Filter>, f: Filter)
    ensures FilterNames(before + [f]) == FilterNames(before) + {f.property}
  {
    assert forall g :: g in before + [f] <==> g in before || g == f;
  }

  lemma FilterStep(v: seq<Token>, before: seq<Filter>, f: Filter, n: nat)
    ensures FilterConds(v, before + [f], n)
         == AndThen(FilterConds(v, before, n), FilterCond(v, f, n + |FilterValues(before)|))
    ensures FilterValues(before + [f]) == FilterValues(before) + FilterValue(f)
  {
    hide FilterCond, FilterValue, AndThen;
    assert (before + [f])[..|before|] == before;
  }

  lemma FilterStepEmits(v: seq<Token>, before: seq<Filter>, f: Filter, n: nat)
    requires IsVar(v) && FilterOk(f)
    requires CondsEmit(FilterConds(v, before, n), n, n + |FilterValues(before)|, FilterNames(before), Names(v))
    ensures CondsEmit(FilterConds(v, before + [f], n), n, n + |FilterValues(before + [f])|, FilterNames(before + [f]), Names(v))
  {
    hide *;
    var k := n + |FilterValues(before)|;
    FilterCondEmits(v, f, k);
    FilterStep(v, before, f, n);
    FilterNamesLast(before, f);
    CondsEmitConcat(FilterConds(v, before, n), FilterCond(v, f, k), n, k, k + |FilterValue(f)|, FilterNames(before), {f.property}, Names(v));
  }

  lemma {:induction false} FilterCondsEmit(v: seq<Token>, filters: seq<Filter>, n: nat)
    requires IsVar(v) && FiltersOk(filters)
    ensures CondsEmit(FilterConds(v, filters, n), n, n + |FilterValues(filters)|, FilterNames(filters), Names(v))
  {
    hide *;
    FiltersOkIff(filters);
    if filters == [] {
      NothingEmits(n, Names(v));
      NoFilters(v, filters, n);
    } else {
      var last := |filters| - 1;
      FiltersOkIff(filters[..last]);
      FilterCondsEmit(v, filters[..last], n);
      FilterStepEmits(v, filters[..last], filters[last], n);
      assert filters[..last] + [filters[last]] == filters;
    }
  }

  // The checks on one filter, and its condition.
  method FilterCondition(v: seq<Token>, f: Filter, i: nat, b: Builder) returns (r: Built<seq<Token>>)
    requires b.Valid()
    modifies b
    ensures b.Valid()
    ensures r.Done? <==> FilterOk(f)
    ensures r.Done? ==> r.value == FilterCond(v, f, |old(b.vals)|) && b.vals == old(b.vals) + FilterValue(f)
  {
    hide OperatorOf, OperatorText, IsBlank, Bound;
    if IsBlank(f.property) {
      return Fail(BlankProperty(i));
    }
    if OperatorOf(f) == None {
      return Fail(UnknownOperator(i));
    }
    var op := OperatorOf(f).value;
    var prop := v + [Text(DOT), Name(f.property)];
    if TakesNoValue(op) {
      return Done(prop + [Between(OperatorText(op))]);
    }
    if f.value == Nil {
      return Fail(MissingValue(i));
    }
    if op == In && !f.value.List? {
      return Fail(ValueNotList(i));
    }
    var p := b.Param(f.value);
    r := Done(prop + [Between(OperatorText(op)), p]);
  }

  lemma NoFilters(v: seq<Token>, filters: seq<Filter>, n: nat)
    requires filters == []
    ensures FilterConds(v, filters, n) == [] && FilterValues(filters) == [] && FilterNames(filters) == {}
  {
  }

  lemma FiltersOkIff(filters: seq<Filter>)
    ensures FiltersOk(filters) <==> forall j :: 0 <= j < |filters| ==> FilterOk(filters[j])
  {
  }

  method FilterConditions(v: seq<Token>, filters: seq<Filter>, b: Builder) returns (r: Built<seq<Token>>)
    requires b.Valid()
    modifies b
    ensures b.Valid()
    ensures r.Done? <==> FiltersOk(filters)
    ensures r.Done? ==> r.value == FilterConds(v, filters, |old(b.vals)|) && b.vals == old(b.vals) + FilterValues(filters)
  {
    hide *;
    var conds: seq<Token> := [];
    NoFilters(v, filters[..0], |b.vals|);
    FiltersOkIff(filters);
    for i := 0 to |filters|
      invariant b.Valid()
      invariant forall j :: 0 <= j < i ==> FilterOk(filters[j])
      invariant b.vals == old(b.vals) + FilterValues(filters[..i])
      invariant conds == FilterConds(v, filters[..i], |old(b.vals)|)
    {
      var c := FilterCondition(v, filters[i], i, b);
      if c.Fail? {
        return c;
      }
      FilterStep(v, filters[..i], filters[i], |old(b.vals)|);
      assert filters[..i] + [filters[i]] == filters[..i + 1];
      conds := AndThen(conds, c.value);
    }
    assert filters[..|filters|] == filters;
    r := Done(conds);
  }

  // ---------------------------------------------------------------- exact matches

  predicate EntryOk(e: Entry) {
    !IsBlank(e.key) && e.value != Nil
  }

  predicate EntriesOk(entries: seq<Entry>) {
    forall i :: 0 <= i < |entries| ==> EntryOk(entries[i])
  }

  function EntryValues(entries: seq<Entry>): seq<Value> {
    if entries == [] then [] else EntryValues(entries[..|entries| - 1]) + [entries[|entries| - 1].value]
  }

  function EntryNames(entries: seq<Entry>): set<string> {
    set e | e in entries :: e.key
  }

  function MatchCond(v: seq<Token>, key: string, k: nat): seq<Token> {
    v + [Text(DOT), Name(key), Text(EQUALS), Param(k)]
  }

  function MatchConds(v: seq<Token>, entries: seq<Entry>, n: nat): seq<Token> {
    if entries == [] then []
    else
      var before := entries[..|entries| - 1];
      AndThen(MatchConds(v, before, n), MatchCond(v, entries[|entries| - 1].key, n + |EntryValues(before)|))
  }

  lemma MatchCondEmits(v: seq<Token>, key: string, k: nat)
    requires IsVar(v)
    ensures CondsEmit(MatchCond(v, key, k), k, k + 1, {key}, Names(v))
  {
    var tail := [Text(DOT), Name(key), Text(EQUALS), Param(k)];
    assert tail[1] == Name(key) && tail[3] == Param(k);
    assert Emits(tail, {k}, {key});
    EmitsConcat(v, tail);
    assert Range(k, k + 1) == {k};
  }

  lemma EntryNamesLast(before: seq<Entry>, e: Entry)
    ensures EntryNames(before + [e]) == EntryNames(before) + {e.key}
  {
    assert forall g :: g in before + [e] <==> g in before || g == e;
  }

  lemma MatchStep(v: seq<Token>, before: seq<Entry>, e: Entry, n: nat)
    ensures MatchConds(v, before + [e], n)
         == AndThen(MatchConds(v, before, n), MatchCond(v, e.key, n + |EntryValues(before)|))
    ensures EntryValues(before + [e]) == EntryValues(before) + [e.value]
  {
    hide MatchCond, AndThen;
    assert (before + [e])[..|before|] == before;
  }

  lemma MatchStepEmits(v: seq<Token>, before: seq<Entry>, e: Entry, n: nat)
    requires IsVar(v)
    requires CondsEmit(MatchConds(v, before, n), n, n + |EntryValues(before)|, EntryNames(before), Names(v))
    ensures CondsEmit(MatchConds(v, before + [e], n), n, n + |EntryValues(before + [e])|, EntryNames(before + [e]), Names(v))
  {
    hide *;
    var k := n + |EntryValues(before)|;
    MatchCondEmits(v, e.key, k);
    MatchStep(v, before, e, n);
    EntryNamesLast(before, e);
    CondsEmitConcat(MatchConds(v, before, n), MatchCond(v, e.key, k), n, k, k + 1, EntryNames(before), {e.key}, Names(v));
  }

  lemma NoMatches(v: seq<Token>, n: nat)
    ensures MatchConds(v, [], n) == [] && EntryValues([]) == [] && EntryNames([]) == {}
  {
  }

  lemma {:induction false} MatchCondsEmit(v: seq<Token>, entries: seq<Entry>, n: nat)
    requires IsVar(v)
    ensures CondsEmit(MatchConds(v, entries, n), n, n + |EntryValues(entries)|, EntryNames(entries), Names(v))
  {
    hide *;
    if entries == [] {
      NothingEmits(n, Names(v));
      NoMatches(v, n);
    } else {
      var last := |entries| - 1;
      MatchCondsEmit(v, entries[..last], n);
      MatchStepEmits(v, entries[..last], entries[last], n);
      assert entries[..last] + [entries[last]] == entries;
    }
  }

  method MatchCondition(v: seq<Token>, e: Entry, b: Builder) returns (r: Built<seq<Token>>)
    requires b.Valid()
    modifies b
    ensures b.Valid()
    ensures r.Done? <==> EntryOk(e)
    ensures r.Done? ==> r.value == MatchCond(v, e.key, |old(b.vals)|) && b.vals == old(b.vals) + [e.value]
  {
    hide IsBlank, Bound;
    if IsBlank(e.key) {
      return Fail(BlankMatchKey);
    }
    if e.value == Nil {
      return Fail(NullMatch(e.key));
    }
    var p := b.Param(e.value);
    r := Done(v + [Text(DOT), Name(e.key), Text(EQUALS), p]);
  }

  lemma NoEntries(v: seq<Token>, entries: seq<Entry>, n: nat)
    requires entries == []
    ensures MatchConds(v, entries, n) == [] && EntryValues(entries) == []
  {
  }

  lemma EntriesOkIff(entries: seq<Entry>)
    ensures EntriesOk(entries) <==> forall j :: 0 <= j < |entries| ==> EntryOk(entries[j])
  {
  }

  method MatchConditions(v: seq<Token>, entries: seq<Entry>, b: Builder) returns (r: Built<seq<Token>>)
    requires b.Valid()
    modifies b
    ensures b.Valid()
    ensures r.Done? <==> EntriesOk(entries)
    ensures r.Done? ==> r.value == MatchConds(v, entries, |old(b.vals)|) && b.vals == old(b.vals) + EntryValues(entries)
  {
    hide *;
    var conds: seq<Token> := [];
    NoEntries(v, entries[..0], |b.vals|);
    EntriesOkIff(entries);
    for i := 0 to |entries|
      invariant b.Valid()
      invariant forall j :: 0 <= j < i ==> EntryOk(entries[j])
      invariant b.vals == old(b.vals) + EntryValues(entries[..i])
      invariant conds == MatchConds(v, entries[..i], |old(b.vals)|)
    {
      var c := MatchCondition(v, entries[i], b);
      if c.Fail? {
        return c;
      }
      MatchStep(v, entries[..i], entries[i], |old(b.vals)|);
      assert entries[..i] + [entries[i]] == entries[..i + 1];
      conds := AndThen(conds, c.value);
    }
    assert entries[..|entries|] == entries;
    r := Done(conds);
  }

  // ---------------------------------------------------------------- selection criteria

  function IdValues(id: string): seq<Value> {
    if id == "" then [] else [Str(id)]
  }

  function IdConds(id: string, v: seq<Token>, n: nat): seq<Token> {
    if id == "" then [] else [Text(ELEMENT_ID)] + v + [Text(IS), Param(n)]
  }

  // The id, match and filters criteria together: the values they bind in order,
  // the names they quote, and the conditions they render as.
  datatype Criteria = Criteria(id: string, entries: seq<Entry>, filters: seq<Filter>)

  predicate HasPredicate(c: Criteria) {
    c.id != "" || c.entries != [] || c.filters != []
  }

  predicate CriteriaOk(c: Criteria) {
    EntriesOk(c.entries) && FiltersOk(c.filters)
  }

  function CriteriaValues(c: Criteria): seq<Value> {
    IdValues(c.id) + EntryValues(c.entries) + FilterValues(c.filters)
  }

  function CriteriaNames(c: Criteria): set<string> {
    EntryNames(c.entries) + FilterNames(c.filters)
  }

  function CriteriaConds(c: Criteria, v: seq<Token>, n: nat): seq<Token> {
    var m := n + |IdValues(c.id)|;
    AndThen(AndThen(IdConds(c.id, v, n), MatchConds(v, c.entries, m)), FilterConds(v, c.filters, m + |EntryValues(c.entries)|))
  }

  lemma IdCondsEmit(id: string, v: seq<Token>, n: nat)
    requires IsVar(v)
    ensures CondsEmit(IdConds(id, v, n), n, n + |IdValues(id)|, {}, Names(v))
  {
    if id != "" {
      var head: seq<Token> := [Text(ELEMENT_ID)];
      var tail := [Text(IS), Param(n)];
      assert Emits(head, {}, {});
      EmitsConcat(head, v);
      assert tail[1] == Param(n);
      assert Emits(tail, {n}, {});
      EmitsConcat(head + v, tail);
    }
  }

  lemma CriteriaEmit(c: Criteria, v: seq<Token>, n: nat)
    requires IsVar(v) && FiltersOk(c.filters)
    ensures CondsEmit(CriteriaConds(c, v, n), n, n + |CriteriaValues(c)|, CriteriaNames(c), Names(v))
  {
    hide CondsEmit, FiltersOk, IsVar, IdConds, MatchConds, FilterConds, IdValues, EntryValues, FilterValues, EntryNames,
      FilterNames, Names, AndThen;
    var m := n + |IdValues(c.id)|;
    var k := m + |EntryValues(c.entries)|;
    var ids, matches, filters := IdConds(c.id, v, n), MatchConds(v, c.entries, m), FilterConds(v, c.filters, k);
    IdCondsEmit(c.id, v, n);
    MatchCondsEmit(v, c.entries, m);
    FilterCondsEmit(v, c.filters, k);
    CondsEmitConcat(ids, matches, n, m, k, {}, EntryNames(c.entries), Names(v));
    CondsEmitConcat(AndThen(ids, matches), filters, n, k, k + |FilterValues(c.filters)|,
                    {} + EntryNames(c.entries), FilterNames(c.filters), Names(v));
    assert {} + EntryNames(c.entries) == EntryNames(c.entries);
    assert n + |CriteriaValues(c)| == k + |FilterValues(c.filters)|;
  }

  method Conditions(c: Criteria, v: seq<Token>, b: Builder) returns (r: Built<seq<Token>>)
    requires b.Valid()
    modifies b
    ensures b.Valid()
    ensures r.Done? <==> CriteriaOk(c)
    ensures r.Done? ==> r.value == CriteriaConds(c, v, |old(b.vals)|) && b.vals == old(b.vals) + CriteriaValues(c)
  {
    hide EntriesOk, FiltersOk, MatchConds, FilterConds, EntryValues, FilterValues;
    var conds: seq<Token> := [];
    if c.id != "" {
      var p := b.Param(Str(c.id));
      conds := [Text(ELEMENT_ID)] + v + [Text(IS), p];
    }
    ghost var n := |old(b.vals)|;
    assert b.vals == old(b.vals) + IdValues(c.id) && |b.vals| == n + |IdValues(c.id)|;
    assert conds == IdConds(c.id, v, n);
    var m := MatchConditions(v, c.entries, b);
    if m.Fail? {
      return m;
    }
    assert |b.vals| == n + |IdValues(c.id)| + |EntryValues(c.entries)|;
    var f := FilterConditions(v, c.filters, b);
    if f.Fail? {
      return f;
    }
    r := Done(AndThen(AndThen(conds, m.value), f.value));
  }

  // ---------------------------------------------------------------- the criteria read back

  // What the criteria ask of a variable: the id, each exact match, each filter with the
  // operator the caller wrote.
  function Wanted(c: Criteria, v: Token): seq<Cond> {
    (if c.id == "" then [] else [IdIs(v, Str(c.id))]) + WantedMatches(c.entries, v) + WantedFilters(c.filters, v)
  }

  function WantedMatches(entries: seq<Entry>, v: Token): (r: seq<Cond>)
    ensures |r| == |entries|
  {
    seq(|entries|, i requires 0 <= i < |entries| => Test(v, entries[i].key, "=", Some(entries[i].value)))
  }

  function WantedFilters(filters: seq<Filter>, v: Token): (r: seq<Cond>)
    ensures |r| == |filters|
  {
    seq(|filters|, i requires 0 <= i < |filters| => WantedFilter(filters[i], v))
  }

  function WantedFilter(f: Filter, v: Token): Cond {
    var op := UpperCase(TrimSpace(f.operator));
    Test(v, f.property, op, if op == "IS NULL" || op == "IS NOT NULL" then None else Some(f.value))
  }

  // A token that stands for a variable.
  ghost predicate IsVariable(t: Token) {
    (t.Text? || t.Name?) && WordOf(t) != ")"
  }

  // Tokens that neither end a line nor close a node.
  ghost predicate Inner(ts: seq<Token>) {
    forall i :: 0 <= i < |ts| ==> !IsBreak(ts[i]) && !ClosesNode(ts[i])
  }

  lemma InnerThen(a: seq<Token>, sep: Gap, b: seq<Token>)
    requires Inner(a) && Inner(b) && !IsBreak(Between(sep)) && sep != ")"
    ensures Inner(Then(a, sep, b))
  {
  }

  lemma ReadAndThen(a: seq<Token>, b: seq<Token>, params: map<string, Value>)
    ensures ReadConds(AndThen(a, b), params) == ReadConds(a, params) + ReadConds(b, params)
  {
    hide ReadConds;
    NoConds(params);
    if a != [] && b != [] {
      CondsJoined(a, b, params);
    }
  }

  lemma NoConds(params: map<string, Value>)
    ensures ReadConds([], params) == []
  {
  }

  lemma {:induction false} MatchCondsRead(entries: seq<Entry>, v: Token, n: nat, params: map<string, Value>)
    requires IsVariable(v) && Gives(params, n, EntryValues(entries))
    ensures ReadConds(MatchConds([v], entries, n), params) == WantedMatches(entries, v)
    ensures Inner(MatchConds([v], entries, n))
  {
    hide ReadConds, Gives, AndThen, MatchCond, Inner;
    if entries == [] {
      NoConds(params);
      NothingInner();
    } else {
      var before, e := entries[..|entries| - 1], entries[|entries| - 1];
      var k := n + |EntryValues(before)|;
      GivesJoin(params, n, EntryValues(before), [e.value]);
      MatchCondsRead(before, v, n, params);
      MatchCondRead(e, v, k, params);
      ReadAndThen(MatchConds([v], before, n), MatchCond([v], e.key, k), params);
      AndInner(MatchConds([v], before, n), MatchCond([v], e.key, k));
      assert WantedMatches(entries, v) == WantedMatches(before, v) + [Test(v, e.key, "=", Some(e.value))];
    }
  }

  lemma NothingInner()
    ensures Inner([])
  {
  }

  lemma AndInner(a: seq<Token>, b: seq<Token>)
    requires Inner(a) && Inner(b)
    ensures Inner(AndThen(a, b))
  {
    InnerThen(a, AND, b);
  }

  lemma MatchCondRead(e: Entry, v: Token, k: nat, params: map<string, Value>)
    requires IsVariable(v) && Gives(params, k, [e.value])
    ensures ReadConds(MatchCond([v], e.key, k), params) == [Test(v, e.key, "=", Some(e.value))]
    ensures Inner(MatchCond([v], e.key, k))
  {
    hide ReadConds, ParamName;
    var cond := MatchCond([v], e.key, k);
    assert cond == [v, Text("."), Name(e.key), Text(" = "), Param(k)];
    OneCond(cond, params);
    assert ValueOf(Param(k + 0), params) == Some([e.value][0]);
    EqualsTrimmed();
  }

  lemma EqualsTrimmed()
    ensures TrimSpace(" = ") == "="
  {
    assert " = " == " " + ("=" + " ");
    TrimPadded(" ", "=", " ");
    NothingToTrim("=");
  }

  lemma NameOfLookup(s: string)
    ensures FilterOperators(s).Some? ==> OperatorName(FilterOperators(s).value) == s
  {
  }

  lemma NameOfTest(op: Operator)
    ensures TakesNoValue(op) <==> OperatorName(op) == "IS NULL" || OperatorName(op) == "IS NOT NULL"
  {
  }

  // The operator in the text is the one the caller wrote, trimmed and in upper case.
  lemma OperatorTrimmed(f: Filter)
    requires OperatorOf(f).Some?
    ensures TrimSpace(OperatorText(OperatorOf(f).value)) == UpperCase(TrimSpace(f.operator)) == OperatorName(OperatorOf(f).value)
  {
    hide FilterOperators, OperatorText, OperatorName, TrimSpace, UpperCase, IsSpace, Upper;
    var op := OperatorOf(f).value;
    NameOfLookup(UpperCase(TrimSpace(f.operator)));
    OperatorTextPadded(op);
    SpaceIsSpace();
    TrimPadded(" ", OperatorName(op), if TakesNoValue(op) then "" else " ");
    NameBounds(op);
    NothingToTrim(OperatorName(op));
  }

  lemma OperatorInner(op: Operator)
    ensures Inner([Between(OperatorText(op))]) && OperatorText(op) != " AND "
  {
  }

  lemma FilterCondRead(f: Filter, v: Token, k: nat, params: map<string, Value>)
    requires IsVariable(v) && FilterOk(f) && Gives(params, k, FilterValue(f))
    ensures ReadConds(FilterCond([v], f, k), params) == [WantedFilter(f, v)]
    ensures Inner(FilterCond([v], f, k))
  {
    hide ReadConds, ParamName, OperatorOf, OperatorText, UpperCase, TrimSpace, IsBlank;
    var op := OperatorOf(f).value;
    var cond := FilterCond([v], f, k);
    OperatorTrimmed(f);
    OperatorInner(op);
    NameOfTest(op);
    assert Inner([Between(OperatorText(op))]) && [Between(OperatorText(op))][0] == Between(OperatorText(op));
    if TakesNoValue(op) {
      assert cond == [v, Text("."), Name(f.property), Between(OperatorText(op))];
    } else {
      assert cond == [v, Text("."), Name(f.property), Between(OperatorText(op)), Param(k)];
      assert ValueOf(Param(k + 0), params) == Some(FilterValue(f)[0]);
    }
    OneCond(cond, params);
  }

  lemma {:induction false} FilterCondsRead(filters: seq<Filter>, v: Token, n: nat, params: map<string, Value>)
    requires IsVariable(v) && FiltersOk(filters) && Gives(params, n, FilterValues(filters))
    ensures ReadConds(FilterConds([v], filters, n), params) == WantedFilters(filters, v)
    ensures Inner(FilterConds([v], filters, n))
  {
    hide ReadConds, Gives, AndThen, FilterCond, FilterOk, FilterValue, WantedFilter, Inner;
    if filters == [] {
      NoConds(params);
      NothingInner();
    } else {
      var before, f := filters[..|filters| - 1], filters[|filters| - 1];
      var k := n + |FilterValues(before)|;
      GivesJoin(params, n, FilterValues(before), FilterValue(f));
      FilterCondsRead(before, v, n, params);
      FilterCondRead(f, v, k, params);
      ReadAndThen(FilterConds([v], before, n), FilterCond([v], f, k), params);
      AndInner(FilterConds([v], before, n), FilterCond([v], f, k));
      assert WantedFilters(filters, v) == WantedFilters(before, v) + [WantedFilter(f, v)];
    }
  }

  lemma IdCondsRead(id: string, v: Token, n: nat, params: map<string, Value>)
    requires IsVariable(v) && Gives(params, n, IdValues(id))
    ensures ReadConds(IdConds(id, [v], n), params) == if id == "" then [] else [IdIs(v, Str(id))]
    ensures Inner(IdConds(id, [v], n))
  {
    hide ReadConds, ParamName;
    if id == "" {
      NoConds(params);
    } else {
      var cond := IdConds(id, [v], n);
      assert cond == [Text("elementId("), v, Text(") = "), Param(n)];
      OneCond(cond, params);
      assert ValueOf(Param(n + 0), params) == Some(IdValues(id)[0]);
    }
  }

  // The conditions on a variable, read with the query's parameters, are what the
  // criteria ask of it, each with its own value.
  lemma CriteriaRead(c: Criteria, v: Token, n: nat, params: map<string, Value>)
    requires IsVariable(v) && CriteriaOk(c) && Gives(params, n, CriteriaValues(c))
    ensures ReadConds(CriteriaConds(c, [v], n), params) == Wanted(c, v)
    ensures Inner(CriteriaConds(c, [v], n))
  {
    hide ReadConds, Gives, AndThen, IdConds, MatchConds, FilterConds, IdValues, EntryValues, FilterValues, FiltersOk, EntriesOk,
      WantedMatches, WantedFilters, Inner;
    var m := n + |IdValues(c.id)|;
    var k := m + |EntryValues(c.entries)|;
    var ids, matches, filters := IdConds(c.id, [v], n), MatchConds([v], c.entries, m), FilterConds([v], c.filters, k);
    GivesJoin(params, n, IdValues(c.id) + EntryValues(c.entries), FilterValues(c.filters));
    GivesJoin(params, n, IdValues(c.id), EntryValues(c.entries));
    IdCondsRead(c.id, v, n, params);
    MatchCondsRead(c.entries, v, m, params);
    FilterCondsRead(c.filters, v, k, params);
    ReadAndThen(ids, matches, params);
    ReadAndThen(AndThen(ids, matches), filters, params);
    AndInner(ids, matches);
    AndInner(AndThen(ids, matches), filters);
  }

  // ---------------------------------------------------------------- label lists read back

  lemma {:induction false} NameListRead(names: seq<string>, sep: Plain)
    requires names != []
    ensures Listed(NameList(names, sep), sep) == Some(names)
  {
    if |names| > 1 {
      NameListRead(names[1..], sep);
      assert NameList(names, sep)[2..] == NameList(names[1..], sep);
      assert [names[0]] + names[1..] == names;
    } else {
      assert names == [names[0]];
    }
  }

  lemma LabelsRead(labels: seq<string>, sep: Plain)
    ensures Labels(LabelTokens(labels, sep), sep) == Some(labels)
  {
    if labels != [] {
      NameListRead(labels, sep);
      assert LabelTokens(labels, sep)[1..] == NameList(labels, sep);
    }
  }

  lemma {:induction false} NameListPlain(names: seq<string>, sep: Plain)
    ensures forall i :: 0 <= i < |NameList(names, sep)| ==> NameList(names, sep)[i].Name? || NameList(names, sep)[i] == Text(sep)
  {
    if |names| > 1 {
      NameListPlain(names[1..], sep);
    }
  }

  // A label list is names, its separator and the colon.
  lemma LabelTokensPlain(labels: seq<string>, sep: Plain)
    ensures forall i :: 0 <= i < |LabelTokens(labels, sep)| ==>
      LabelTokens(labels, sep)[i].Name? || LabelTokens(labels, sep)[i] == Text(sep) || LabelTokens(labels, sep)[i] == Text(":")
  {
    NameListPlain(labels, sep);
  }
}
