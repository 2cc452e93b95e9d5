// JSON Schema graphs and the nullable-type rewrite.
module JsonSchema {

  datatype Json =
    | Null
    | Bool(b: bool)
    | Num(n: real)
    | Str(s: string)
    | Arr(elems: seq<Json>)
    | Obj(fields: map<string, Json>)

  // The keywords that hold a nested schema, `anyOf` apart. PrefixItem stands for
  // prefixItems and the older array form of items; Items for items and the older
  // additionalItems; DependentSchema for dependentSchemas and the older
  // dependencies. Annotation covers the ones that assert nothing ($defs,
  // definitions, contentSchema). Contains carries the counts of minContains and
  // maxContains, the latter only when bounded.
  datatype Keyword =
    | Property(name: string)
    | PatternProperty(pattern: string -> bool)
    | AdditionalProperties
    | PropertyNames
    | PrefixItem(index: nat)
    | Items
    | Contains(min: nat, bounded: bool, max: nat)
    | AllOf
    | OneOf
    | Not
    | If
    | Then
    | Else
    | DependentSchema(trigger: string)
    | UnevaluatedProperties
    | UnevaluatedItems
    | Annotation

  datatype Sub<R> = Sub(kw: Keyword, target: R)

  // One schema object: `typ`/`types` are the two spellings of the type keyword,
  // `refs` the schemas that $ref and $dynamicRef name, `assertions` every keyword that
  // looks at the instance alone.
  datatype Node<R> =
    Node(typ: string, types: seq<string>, anyOf: seq<R>, refs: seq<R>, subs: seq<Sub<R>>, assertions: Json -> bool)

  type Graph<R> = map<R, Node<R>>

  // ---------------------------------------------------------------- meaning

  // Section 6.1.1 of JSON Schema Validation 2020-12.
  ghost predicate TypeMatches(t: string, inst: Json) {
    match inst
    case Null => t == "null"
    case Bool(_) => t == "boolean"
    case Num(n) => t == "number" || (t == "integer" && n == n.Floor as real)
    case Str(_) => t == "string"
    case Arr(_) => t == "array"
    case Obj(_) => t == "object"
  }

  ghost predicate TypeAllows<R>(node: Node<R>, inst: Json) {
    && (node.typ == "" || TypeMatches(node.typ, inst))
    && (node.types == [] || exists t :: t in node.types && TypeMatches(t, inst))
  }

  ghost predicate IsNamed<R>(subs: seq<Sub<R>>, key: string) {
    exists e :: e in subs && (e.kw == Property(key) || (e.kw.PatternProperty? && e.kw.pattern(key)))
  }

  ghost predicate IsPrefixIndex<R>(subs: seq<Sub<R>>, i: nat) {
    exists e :: e in subs && e.kw.PrefixItem? && i <= e.kw.index
  }

  // The instances that a subschema under `kw` is evaluated against when its
  // node, with subschemas `subs`, meets `inst`.
  ghost predicate Applies<R>(subs: seq<Sub<R>>, kw: Keyword, inst: Json, j: Json) {
    match kw
    case Property(name) => inst.Obj? && name in inst.fields && j == inst.fields[name]
    case PatternProperty(p) => inst.Obj? && exists k :: k in inst.fields && p(k) && j == inst.fields[k]
    case AdditionalProperties => inst.Obj? && exists k :: k in inst.fields && !IsNamed(subs, k) && j == inst.fields[k]
    case PropertyNames => inst.Obj? && exists k :: k in inst.fields && j == Str(k)
    case PrefixItem(i) => inst.Arr? && i < |inst.elems| && j == inst.elems[i]
    case Items => inst.Arr? && exists i :: 0 <= i < |inst.elems| && !IsPrefixIndex(subs, i) && j == inst.elems[i]
    case Contains(_, _, _) => inst.Arr? && j in inst.elems
    case UnevaluatedProperties => inst.Obj? && exists k :: k in inst.fields && j == inst.fields[k]
    case UnevaluatedItems => inst.Arr? && j in inst.elems
    case DependentSchema(name) => inst.Obj? && name in inst.fields && j == inst
    case Annotation => false
    case AllOf | OneOf | Not | If | Then | Else => j == inst
  }

  // A verdict, and the properties and items it evaluated. A rejection keeps none
  // (section 7.7.1.2 of JSON Schema Core 2020-12).
  datatype Outcome = Outcome(ok: bool, keys: set<string>, indices: set<nat>)

  ghost predicate EveryAccepts<R>(subs: seq<Sub<R>>, e: Sub<R>, inst: Json, v: (R, Json) -> Outcome) {
    forall j :: Applies(subs, e.kw, inst, j) ==> v(e.target, j).ok
  }

  // Sections 6.4.4 and 6.4.5 of JSON Schema Validation 2020-12 bound this count.
  ghost function CountAccepted<R>(elems: seq<Json>, r: R, v: (R, Json) -> Outcome): nat {
    if elems == [] then 0
    else CountAccepted(elems[..|elems| - 1], r, v) + if v(r, elems[|elems| - 1]).ok then 1 else 0
  }

  ghost predicate OneOfHolds<R>(subs: seq<Sub<R>>, i: nat, inst: Json, v: (R, Json) -> Outcome)
    requires i < |subs|
  {
    subs[i].kw == OneOf && v(subs[i].target, inst).ok
  }

  ghost predicate OneOfAccepts<R>(subs: seq<Sub<R>>, inst: Json, v: (R, Json) -> Outcome) {
    exists i :: 0 <= i < |subs| && OneOfHolds(subs, i, inst, v)
      && forall k :: 0 <= k < |subs| && k != i ==> !OneOfHolds(subs, k, inst, v)
  }

  ghost predicate BranchAccepts<R>(subs: seq<Sub<R>>, branch: Keyword, inst: Json, v: (R, Json) -> Outcome) {
    forall f :: f in subs && f.kw == branch ==> v(f.target, inst).ok
  }

  // What a subschema evaluates of the instance its own node meets counts for the node.
  ghost predicate InPlace<R>(subs: seq<Sub<R>>, kw: Keyword, inst: Json, v: (R, Json) -> Outcome) {
    match kw
    case AllOf | OneOf | If => true
    case Then => exists f :: f in subs && f.kw.If? && v(f.target, inst).ok
    case Else => exists f :: f in subs && f.kw.If? && !v(f.target, inst).ok
    case DependentSchema(name) => inst.Obj? && name in inst.fields
    case _ => false
  }

  ghost predicate SubEvaluatesKey<R>(subs: seq<Sub<R>>, e: Sub<R>, k: string, inst: Json, v: (R, Json) -> Outcome) {
    e.kw.AdditionalProperties? || (InPlace(subs, e.kw, inst, v) && k in v(e.target, inst).keys)
  }

  ghost predicate SubEvaluatesIndex<R>(subs: seq<Sub<R>>, e: Sub<R>, i: nat, inst: Json, v: (R, Json) -> Outcome)
    requires inst.Arr? && i < |inst.elems|
  {
    || e.kw.Items? || (e.kw.Contains? && v(e.target, inst.elems[i]).ok)
    || (InPlace(subs, e.kw, inst, v) && i in v(e.target, inst).indices)
  }

  ghost predicate OneEvaluatesKey<R>(rs: seq<R>, k: string, inst: Json, v: (R, Json) -> Outcome) {
    exists r :: r in rs && k in v(r, inst).keys
  }

  ghost predicate OneEvaluatesIndex<R>(rs: seq<R>, i: nat, inst: Json, v: (R, Json) -> Outcome) {
    exists r :: r in rs && i in v(r, inst).indices
  }

  // Section 11 of JSON Schema Core 2020-12: what the keywords beside the unevaluated
  // ones have evaluated.
  ghost predicate KeyEvaluated<R>(node: Node<R>, k: string, inst: Json, v: (R, Json) -> Outcome) {
    || IsNamed(node.subs, k)
    || (exists e :: e in node.subs && SubEvaluatesKey(node.subs, e, k, inst, v))
    || OneEvaluatesKey(node.anyOf, k, inst, v) || OneEvaluatesKey(node.refs, k, inst, v)
  }

  ghost predicate IndexEvaluated<R>(node: Node<R>, i: nat, inst: Json, v: (R, Json) -> Outcome)
    requires inst.Arr? && i < |inst.elems|
  {
    || IsPrefixIndex(node.subs, i)
    || (exists e :: e in node.subs && SubEvaluatesIndex(node.subs, e, i, inst, v))
    || OneEvaluatesIndex(node.anyOf, i, inst, v) || OneEvaluatesIndex(node.refs, i, inst, v)
  }

  // Section 10 of JSON Schema Core 2020-12, given an outcome for every subschema.
  ghost predicate SubAccepts<R>(node: Node<R>, e: Sub<R>, inst: Json, v: (R, Json) -> Outcome) {
    match e.kw
    case Not => !v(e.target, inst).ok
    case Contains(min, bounded, max) =>
      inst.Arr? ==> var n := CountAccepted(inst.elems, e.target, v); min <= n && (bounded ==> n <= max)
    case OneOf => OneOfAccepts(node.subs, inst, v)
    case If => BranchAccepts(node.subs, if v(e.target, inst).ok then Then else Else, inst, v)
    case Then | Else | Annotation => true
    case UnevaluatedProperties =>
      inst.Obj? ==> forall k :: k in inst.fields && !KeyEvaluated(node, k, inst, v) ==> v(e.target, inst.fields[k]).ok
    case UnevaluatedItems =>
      inst.Arr? ==> forall i :: 0 <= i < |inst.elems| && !IndexEvaluated(node, i, inst, v) ==> v(e.target, inst.elems[i]).ok
    case _ => EveryAccepts(node.subs, e, inst, v)
  }

  // An absent anyOf constrains nothing (section 10.2.1.2).
  ghost predicate AnyOfAccepts<R>(anyOf: seq<R>, inst: Json, v: (R, Json) -> Outcome) {
    anyOf == [] || exists r :: r in anyOf && v(r, inst).ok
  }

  ghost predicate NodeAccepts<R>(node: Node<R>, inst: Json, v: (R, Json) -> Outcome) {
    && TypeAllows(node, inst)
    && AnyOfAccepts(node.anyOf, inst, v)
    && node.assertions(inst)
    && (forall r :: r in node.refs ==> v(r, inst).ok)
    && forall e :: e in node.subs ==> SubAccepts(node, e, inst, v)
  }

  ghost predicate HasKeyword<R>(node: Node<R>, kw: Keyword) {
    exists e :: e in node.subs && e.kw == kw
  }

  ghost function NodeOutcome<R>(node: Node<R>, inst: Json, v: (R, Json) -> Outcome): Outcome {
    if !NodeAccepts(node, inst, v) then Outcome(false, {}, {})
    else Outcome(true, NodeKeys(node, inst, v), NodeIndices(node, inst, v))
  }

  ghost function NodeKeys<R>(node: Node<R>, inst: Json, v: (R, Json) -> Outcome): set<string> {
    if inst.Obj? then set k | k in inst.fields && (HasKeyword(node, UnevaluatedProperties) || KeyEvaluated(node, k, inst, v))
    else {}
  }

  ghost function NodeIndices<R>(node: Node<R>, inst: Json, v: (R, Json) -> Outcome): set<nat> {
    if inst.Arr? then
      set i: nat | i < |inst.elems| && (HasKeyword(node, UnevaluatedItems) || IndexEvaluated(node, i, inst, v))
    else {}
  }

  // Evaluation to depth n. A graph may be cyclic, so an evaluation settles at a
  // depth or never does.
  ghost predicate Settles<R>(g: Graph<R>, r: R, inst: Json, n: nat)
    decreases n
  {
    && n > 0
    && r in g
    && (forall a :: a in g[r].anyOf ==> Settles(g, a, inst, n - 1))
    && (forall t :: t in g[r].refs ==> Settles(g, t, inst, n - 1))
    && (forall e, j :: e in g[r].subs && Applies(g[r].subs, e.kw, inst, j) ==> Settles(g, e.target, j, n - 1))
  }

  ghost function Evaluated<R>(g: Graph<R>, r: R, inst: Json, n: nat): Outcome
    decreases n
  {
    if n > 0 && r in g then NodeOutcome(g[r], inst, (t: R, j: Json) => Evaluated(g, t, j, n - 1)) else Outcome(false, {}, {})
  }

  ghost predicate Accepts<R>(g: Graph<R>, r: R, inst: Json, n: nat) {
    Evaluated(g, r, inst, n).ok
  }

  datatype Verdict = Accepted | Rejected | Diverges

  ghost function Meaning<R>(g: Graph<R>, r: R, inst: Json): Verdict {
    if exists n: nat :: Settles(g, r, inst, n) then
      var n: nat :| Settles(g, r, inst, n);
      if Accepts(g, r, inst, n) then Accepted else Rejected
    else Diverges
  }

  // ---------------------------------------------------------------- evaluation lemmas

  ghost predicate Agree<R>(subs: seq<Sub<R>>, inst: Json, v: (R, Json) -> Outcome, w: (R, Json) -> Outcome) {
    forall e, j :: e in subs && Applies(subs, e.kw, inst, j) ==> v(e.target, j) == w(e.target, j)
  }

  ghost predicate AgreeOn<R>(rs: seq<R>, inst: Json, v: (R, Json) -> Outcome, w: (R, Json) -> Outcome) {
    forall r :: r in rs ==> v(r, inst) == w(r, inst)
  }

  lemma {:induction false} CountCongruent<R>(elems: seq<Json>, r: R, v: (R, Json) -> Outcome, w: (R, Json) -> Outcome)
    requires forall j :: j in elems ==> v(r, j) == w(r, j)
    ensures CountAccepted(elems, r, v) == CountAccepted(elems, r, w)
  {
    if elems != [] {
      CountCongruent(elems[..|elems| - 1], r, v, w);
    }
  }

  lemma OneOfCongruent<R>(subs: seq<Sub<R>>, inst: Json, v: (R, Json) -> Outcome, w: (R, Json) -> Outcome)
    requires Agree(subs, inst, v, w)
    ensures OneOfAccepts(subs, inst, v) == OneOfAccepts(subs, inst, w)
  {
    assert forall i | 0 <= i < |subs| :: OneOfHolds(subs, i, inst, v) == OneOfHolds(subs, i, inst, w);
  }

  // Two nodes that may differ in their types and their anyOf.
  ghost predicate SameBeside<R>(x: Node<R>, y: Node<R>, inst: Json, v: (R, Json) -> Outcome, w: (R, Json) -> Outcome) {
    && x.subs == y.subs && x.refs == y.refs && x.assertions == y.assertions
    && Agree(x.subs, inst, v, w) && AgreeOn(x.refs, inst, v, w)
    && (forall k :: OneEvaluatesKey(x.anyOf, k, inst, v) == OneEvaluatesKey(y.anyOf, k, inst, w))
    && (forall i :: OneEvaluatesIndex(x.anyOf, i, inst, v) == OneEvaluatesIndex(y.anyOf, i, inst, w))
  }

  lemma InPlaceCongruent<R>(subs: seq<Sub<R>>, e: Sub<R>, inst: Json, v: (R, Json) -> Outcome, w: (R, Json) -> Outcome)
    requires e in subs && Agree(subs, inst, v, w)
    ensures InPlace(subs, e.kw, inst, v) == InPlace(subs, e.kw, inst, w)
    ensures InPlace(subs, e.kw, inst, v) ==> v(e.target, inst) == w(e.target, inst)
  {
  }

  lemma KeyCongruent<R>(x: Node<R>, y: Node<R>, k: string, inst: Json, v: (R, Json) -> Outcome, w: (R, Json) -> Outcome)
    requires SameBeside(x, y, inst, v, w)
    ensures KeyEvaluated(x, k, inst, v) == KeyEvaluated(y, k, inst, w)
  {
    hide InPlace, Applies;
    forall e | e in x.subs ensures SubEvaluatesKey(x.subs, e, k, inst, v) == SubEvaluatesKey(y.subs, e, k, inst, w) {
      InPlaceCongruent(x.subs, e, inst, v, w);
    }
  }

  lemma IndexCongruent<R>(x: Node<R>, y: Node<R>, i: nat, inst: Json, v: (R, Json) -> Outcome, w: (R, Json) -> Outcome)
    requires SameBeside(x, y, inst, v, w) && inst.Arr? && i < |inst.elems|
    ensures IndexEvaluated(x, i, inst, v) == IndexEvaluated(y, i, inst, w)
  {
    hide InPlace;
    forall e | e in x.subs ensures SubEvaluatesIndex(x.subs, e, i, inst, v) == SubEvaluatesIndex(y.subs, e, i, inst, w) {
      InPlaceCongruent(x.subs, e, inst, v, w);
      assert e.kw.Contains? ==> Applies(x.subs, e.kw, inst, inst.elems[i]);
    }
  }

  lemma UnevaluatedCongruent<R>(x: Node<R>, y: Node<R>, e: Sub<R>, inst: Json, v: (R, Json) -> Outcome, w: (R, Json) -> Outcome)
    requires e in x.subs && SameBeside(x, y, inst, v, w) && (e.kw.UnevaluatedProperties? || e.kw.UnevaluatedItems?)
    ensures SubAccepts(x, e, inst, v) == SubAccepts(y, e, inst, w)
  {
    hide KeyEvaluated, IndexEvaluated;
    if e.kw.UnevaluatedProperties? && inst.Obj? {
      forall k | k in inst.fields
        ensures KeyEvaluated(x, k, inst, v) == KeyEvaluated(y, k, inst, w) && v(e.target, inst.fields[k]) == w(e.target, inst.fields[k])
      {
        KeyCongruent(x, y, k, inst, v, w);
        assert Applies(x.subs, e.kw, inst, inst.fields[k]);
      }
    }
    if e.kw.UnevaluatedItems? && inst.Arr? {
      forall i | 0 <= i < |inst.elems|
        ensures IndexEvaluated(x, i, inst, v) == IndexEvaluated(y, i, inst, w) && v(e.target, inst.elems[i]) == w(e.target, inst.elems[i])
      {
        IndexCongruent(x, y, i, inst, v, w);
        assert Applies(x.subs, e.kw, inst, inst.elems[i]);
      }
    }
  }

  lemma ContainsCongruent<R>(x: Node<R>, y: Node<R>, e: Sub<R>, inst: Json, v: (R, Json) -> Outcome, w: (R, Json) -> Outcome)
    requires e in x.subs && SameBeside(x, y, inst, v, w) && e.kw.Contains?
    ensures SubAccepts(x, e, inst, v) == SubAccepts(y, e, inst, w)
  {
    hide CountAccepted;
    if inst.Arr? {
      assert forall j :: j in inst.elems ==> Applies(x.subs, e.kw, inst, j);
      CountCongruent(inst.elems, e.target, v, w);
    }
  }

  // A subschema's part of the verdict depends only on the evaluations that apply.
  lemma SubCongruent<R>(x: Node<R>, y: Node<R>, e: Sub<R>, inst: Json, v: (R, Json) -> Outcome, w: (R, Json) -> Outcome)
    requires e in x.subs && SameBeside(x, y, inst, v, w)
    ensures SubAccepts(x, e, inst, v) == SubAccepts(y, e, inst, w)
  {
    hide KeyEvaluated, IndexEvaluated, OneOfAccepts, CountAccepted;
    if e.kw.UnevaluatedProperties? || e.kw.UnevaluatedItems? {
      UnevaluatedCongruent(x, y, e, inst, v, w);
    } else if e.kw.Contains? {
      ContainsCongruent(x, y, e, inst, v, w);
    } else {
      OneOfCongruent(x.subs, inst, v, w);
    }
  }

  lemma NodeCongruent<R>(x: Node<R>, y: Node<R>, inst: Json, v: (R, Json) -> Outcome, w: (R, Json) -> Outcome)
    requires SameBeside(x, y, inst, v, w)
    requires TypeAllows(x, inst) && AnyOfAccepts(x.anyOf, inst, v) <==> TypeAllows(y, inst) && AnyOfAccepts(y.anyOf, inst, w)
    ensures NodeOutcome(x, inst, v) == NodeOutcome(y, inst, w)
  {
    hide KeyEvaluated, IndexEvaluated, SubAccepts, TypeAllows, AnyOfAccepts;
    forall e | e in x.subs ensures SubAccepts(x, e, inst, v) == SubAccepts(y, e, inst, w) {
      SubCongruent(x, y, e, inst, v, w);
    }
    forall k ensures KeyEvaluated(x, k, inst, v) == KeyEvaluated(y, k, inst, w) {
      KeyCongruent(x, y, k, inst, v, w);
    }
    forall i: nat | inst.Arr? && i < |inst.elems| ensures IndexEvaluated(x, i, inst, v) == IndexEvaluated(y, i, inst, w) {
      IndexCongruent(x, y, i, inst, v, w);
    }
    assert NodeKeys(x, inst, v) == NodeKeys(y, inst, w);
    assert NodeIndices(x, inst, v) == NodeIndices(y, inst, w);
  }

  lemma SameNodeCongruent<R>(node: Node<R>, inst: Json, v: (R, Json) -> Outcome, w: (R, Json) -> Outcome)
    requires Agree(node.subs, inst, v, w) && AgreeOn(node.refs, inst, v, w) && AgreeOn(node.anyOf, inst, v, w)
    ensures NodeOutcome(node, inst, v) == NodeOutcome(node, inst, w)
  {
    hide NodeOutcome, Agree;
    NodeCongruent(node, node, inst, v, w);
  }

  // Once settled, evaluating deeper changes nothing: Meaning is well defined.
  lemma {:induction false} SettledIsStable<R>(g: Graph<R>, r: R, inst: Json, n: nat, m: nat)
    requires Settles(g, r, inst, n) && n <= m
    ensures Settles(g, r, inst, m)
    ensures Evaluated(g, r, inst, n) == Evaluated(g, r, inst, m)
    decreases n
  {
    hide NodeOutcome, Applies;
    forall a | a in g[r].anyOf
      ensures Settles(g, a, inst, m - 1) && Evaluated(g, a, inst, n - 1) == Evaluated(g, a, inst, m - 1)
    {
      SettledIsStable(g, a, inst, n - 1, m - 1);
    }
    forall t | t in g[r].refs
      ensures Settles(g, t, inst, m - 1) && Evaluated(g, t, inst, n - 1) == Evaluated(g, t, inst, m - 1)
    {
      SettledIsStable(g, t, inst, n - 1, m - 1);
    }
    forall e, j | e in g[r].subs && Applies(g[r].subs, e.kw, inst, j)
      ensures Settles(g, e.target, j, m - 1)
      ensures Evaluated(g, e.target, j, n - 1) == Evaluated(g, e.target, j, m - 1)
    {
      SettledIsStable(g, e.target, j, n - 1, m - 1);
    }
    SameNodeCongruent(g[r], inst, (t: R, j: Json) => Evaluated(g, t, j, n - 1), (t: R, j: Json) => Evaluated(g, t, j, m - 1));
  }

  lemma MeaningAt<R>(g: Graph<R>, r: R, inst: Json, n: nat)
    requires Settles(g, r, inst, n)
    ensures Meaning(g, r, inst) == if Accepts(g, r, inst, n) then Accepted else Rejected
  {
    hide NodeOutcome;
    var m: nat :| Settles(g, r, inst, m) && Meaning(g, r, inst) == if Accepts(g, r, inst, m) then Accepted else Rejected;
    if n <= m {
      SettledIsStable(g, r, inst, n, m);
      assert Accepts(g, r, inst, m) == Accepts(g, r, inst, n);
    } else {
      SettledIsStable(g, r, inst, m, n);
    }
  }

  // ---------------------------------------------------------------- the rewrite

  ghost predicate NeedsSplit(types: seq<string>) {
    "null" in types && exists t :: t in types && t != "null"
  }

  // The types other than null, in order.
  function Others(types: seq<string>): seq<string> {
    if types == [] then []
    else if types[0] == "null" then Others(types[1..])
    else [types[0]] + Others(types[1..])
  }

  lemma {:induction false} OthersKeepsTheRest(types: seq<string>)
    ensures forall t :: t in Others(types) <==> t in types && t != "null"
  {
    if types != [] {
      OthersKeepsTheRest(types[1..]);
      assert forall t :: t in types <==> t == types[0] || t in types[1..];
    }
  }

  lemma {:induction false} OthersAppend(types: seq<string>, t: string)
    ensures Others(types + [t]) == Others(types) + if t == "null" then [] else [t]
  {
    if types == [] {
      assert Others([t][1..]) == [];
    } else {
      assert (types + [t])[1..] == types[1..] + [t];
      OthersAppend(types[1..], t);
    }
  }

  function Branches(types: seq<string>): seq<string> {
    ["null"] + Others(types)
  }

  ghost predicate IsTypeLeaf<R>(node: Node<R>, t: string) {
    node.typ == t && node.types == [] && node.anyOf == [] && node.refs == [] && node.subs == [] && forall j :: node.assertions(j)
  }

  ghost predicate PointsInside<R>(node: Node<R>, g: Graph<R>) {
    && (forall a :: a in node.anyOf ==> a in g)
    && (forall t :: t in node.refs ==> t in g)
    && (forall e :: e in node.subs ==> e.target in g)
  }

  ghost predicate Closed<R>(g: Graph<R>) {
    forall r {:trigger PointsInside(g[r], g)} :: r in g ==> PointsInside(g[r], g)
  }

  // What splitting leaves of a node: its types are gone, and its anyOf holds one
  // single-type leaf per branch. Any anyOf it had before is overwritten.
  ghost predicate SplitInto<R>(old_: Node<R>, new_: Node<R>, g: Graph<R>) {
    && new_ == old_.(types := [], anyOf := new_.anyOf)
    && |new_.anyOf| == |Branches(old_.types)|
    && forall i :: 0 <= i < |new_.anyOf| ==>
         new_.anyOf[i] in g && IsTypeLeaf(g[new_.anyOf[i]], Branches(old_.types)[i])
  }

  ghost predicate RewrittenNode<R>(before: Graph<R>, after: Graph<R>, done: set<R>, r: R)
    requires r in before
  {
    && r in after
    && if r in done && NeedsSplit(before[r].types) then SplitInto(before[r], after[r], after)
       else after[r] == before[r]
  }

  // `after` is `before` with the nodes in `done` split where they need it.
  ghost predicate IsRewrite<R>(before: Graph<R>, after: Graph<R>, done: set<R>) {
    forall r {:trigger RewrittenNode(before, after, done, r)} :: r in before ==> RewrittenNode(before, after, done, r)
  }

  // The graph with the anyOf of every node about to be split erased, and with its
  // types too if one of them is the empty string.
  ghost function Erased<R>(g: Graph<R>, done: set<R>): (e: Graph<R>)
    ensures e.Keys == g.Keys
    ensures forall r :: r in g ==> e[r] == EraseNode(g[r], r in done)
  {
    map r | r in g :: EraseNode(g[r], r in done)
  }

  ghost function EraseNode<R>(node: Node<R>, split: bool): Node<R> {
    if split && NeedsSplit(node.types) then node.(types := if "" in node.types then [] else node.types, anyOf := []) else node
  }

  lemma LeafMeaning<R>(g: Graph<R>, r: R, t: string, inst: Json, n: nat)
    requires r in g && IsTypeLeaf(g[r], t) && n > 0
    ensures Settles(g, r, inst, n)
    ensures Evaluated(g, r, inst, n) == Outcome(t == "" || TypeMatches(t, inst), {}, {})
  {
    hide TypeMatches;
    var v := (t: R, j: Json) => Evaluated(g, t, j, n - 1);
    assert NodeKeys(g[r], inst, v) == {};
    forall i: nat ensures i !in NodeIndices(g[r], inst, v) {
      assert inst.Arr? && i < |inst.elems| ==> !IndexEvaluated(g[r], i, inst, v);
    }
    assert NodeIndices(g[r], inst, v) == {};
  }

  // For one node, the leaves of anyOf say what the list of types said, if no type is
  // the empty string. A leaf of that type says nothing, so neither do they then.
  lemma BranchesSayTypes<R>(old_: Node<R>, new_: Node<R>, g: Graph<R>, inst: Json, n: nat)
    requires NeedsSplit(old_.types) && SplitInto(old_, new_, g) && n > 0
    ensures forall a :: a in new_.anyOf ==> Settles(g, a, inst, n)
    ensures forall a :: a in new_.anyOf ==> Evaluated(g, a, inst, n).keys == {} && Evaluated(g, a, inst, n).indices == {}
    ensures AnyOfAccepts(new_.anyOf, inst, (t: R, j: Json) => Evaluated(g, t, j, n))
        <==> "" in old_.types || exists t :: t in old_.types && TypeMatches(t, inst)
  {
    hide TypeMatches, Evaluated, Settles, IsTypeLeaf;
    OthersKeepsTheRest(old_.types);
    var names := Branches(old_.types);
    forall i | 0 <= i < |new_.anyOf|
      ensures Settles(g, new_.anyOf[i], inst, n)
      ensures Evaluated(g, new_.anyOf[i], inst, n) == Outcome(names[i] == "" || TypeMatches(names[i], inst), {}, {})
    {
      assert names[i] in old_.types;
      LeafMeaning(g, new_.anyOf[i], names[i], inst, n);
    }
    if t :| t in old_.types && (t == "" || TypeMatches(t, inst)) {
      assert t in names;
      var i :| 0 <= i < |names| && names[i] == t;
      assert new_.anyOf[i] in new_.anyOf;
    }
  }

  lemma SplitNodeAgrees<R>(old_: Node<R>, new_: Node<R>, g: Graph<R>, inst: Json,
                           v: (R, Json) -> Outcome, n: nat)
    requires NeedsSplit(old_.types) && SplitInto(old_, new_, g) && n > 0
    requires Agree(old_.subs, inst, v, (t: R, j: Json) => Evaluated(g, t, j, n))
    requires AgreeOn(old_.refs, inst, v, (t: R, j: Json) => Evaluated(g, t, j, n))
    ensures NodeOutcome(EraseNode(old_, true), inst, v)
        == NodeOutcome(new_, inst, (t: R, j: Json) => Evaluated(g, t, j, n))
  {
    hide NodeOutcome, Agree, TypeMatches, Evaluated, Settles;
    BranchesSayTypes(old_, new_, g, inst, n);
    NodeCongruent(EraseNode(old_, true), new_, inst, v, (t: R, j: Json) => Evaluated(g, t, j, n));
  }

  // Both graphs settle on `r` at `inst`, one level apart, with one outcome.
  ghost predicate InStep<R>(erased: Graph<R>, after: Graph<R>, r: R, inst: Json, n: nat) {
    Settles(after, r, inst, n + 1) && Evaluated(after, r, inst, n + 1) == Evaluated(erased, r, inst, n)
  }

  ghost predicate SubsInStep<R>(erased: Graph<R>, after: Graph<R>, node: Node<R>, inst: Json, n: nat) {
    && (forall e, j :: e in node.subs && Applies(node.subs, e.kw, inst, j) ==> InStep(erased, after, e.target, j, n))
    && (forall t :: t in node.refs ==> InStep(erased, after, t, inst, n))
  }

  lemma SplitNodeInStep<R>(node: Node<R>, erased: Graph<R>, after: Graph<R>, r: R, inst: Json, n: nat)
    requires r in erased && erased[r] == EraseNode(node, true) && NeedsSplit(node.types)
    requires r in after && SplitInto(node, after[r], after)
    requires SubsInStep(erased, after, node, inst, n)
    ensures InStep(erased, after, r, inst, n + 1)
  {
    hide NodeOutcome, TypeMatches;
    var v := (t: R, j: Json) => Evaluated(erased, t, j, n);
    BranchesSayTypes(node, after[r], after, inst, n + 1);
    SplitNodeAgrees(node, after[r], after, inst, v, n + 1);
  }

  lemma PlainNodeInStep<R>(erased: Graph<R>, after: Graph<R>, r: R, inst: Json, n: nat)
    requires r in erased && r in after && erased[r] == after[r]
    requires SubsInStep(erased, after, after[r], inst, n)
    requires forall a :: a in after[r].anyOf ==> InStep(erased, after, a, inst, n)
    ensures InStep(erased, after, r, inst, n + 1)
  {
    hide NodeOutcome;
    SameNodeCongruent(after[r], inst, (t: R, j: Json) => Evaluated(erased, t, j, n), (t: R, j: Json) => Evaluated(after, t, j, n + 1));
  }

  // One node in step, given that everything it points to is.
  lemma NodeInStep<R>(before: Graph<R>, after: Graph<R>, done: set<R>, r: R, inst: Json, n: nat)
    requires r in before && RewrittenNode(before, after, done, r)
    requires SubsInStep(Erased(before, done), after, before[r], inst, n)
    requires !(r in done && NeedsSplit(before[r].types)) ==>
      forall a :: a in before[r].anyOf ==> InStep(Erased(before, done), after, a, inst, n)
    ensures InStep(Erased(before, done), after, r, inst, n + 1)
  {
    hide InStep, SubsInStep, SplitInto;
    if r in done && NeedsSplit(before[r].types) {
      SplitNodeInStep(before[r], Erased(before, done), after, r, inst, n);
    } else {
      PlainNodeInStep(Erased(before, done), after, r, inst, n);
    }
  }

  // What the erased graph settles at some depth, the rewritten graph settles one
  // level deeper, with the same outcome.
  lemma {:induction false} ErasedThenRewritten<R>(before: Graph<R>, after: Graph<R>, done: set<R>, r: R, inst: Json, n: nat)
    requires Closed(before) && IsRewrite(before, after, done) && r in before
    requires Settles(Erased(before, done), r, inst, n)
    ensures InStep(Erased(before, done), after, r, inst, n)
    decreases n
  {
    hide InStep, NeedsSplit, SplitInto, Applies, Evaluated;
    var erased, node := Erased(before, done), before[r];
    assert PointsInside(node, before) && RewrittenNode(before, after, done, r);
    forall e, j | e in node.subs && Applies(node.subs, e.kw, inst, j)
      ensures InStep(erased, after, e.target, j, n - 1)
    {
      ErasedThenRewritten(before, after, done, e.target, j, n - 1);
    }
    forall t | t in node.refs ensures InStep(erased, after, t, inst, n - 1) {
      ErasedThenRewritten(before, after, done, t, inst, n - 1);
    }
    if !(r in done && NeedsSplit(node.types)) {
      forall a | a in node.anyOf ensures InStep(erased, after, a, inst, n - 1) {
        ErasedThenRewritten(before, after, done, a, inst, n - 1);
      }
    }
    NodeInStep(before, after, done, r, inst, n - 1);
  }

  lemma {:induction false} RewrittenThenErased<R>(before: Graph<R>, after: Graph<R>, done: set<R>, r: R, inst: Json, n: nat)
    requires Closed(before) && IsRewrite(before, after, done) && r in before
    requires Settles(after, r, inst, n)
    ensures Settles(Erased(before, done), r, inst, n)
    decreases n
  {
    hide Applies, NeedsSplit;
    assert PointsInside(before[r], before) && RewrittenNode(before, after, done, r);
    forall e, j | e in before[r].subs && Applies(before[r].subs, e.kw, inst, j)
      ensures Settles(Erased(before, done), e.target, j, n - 1)
    {
      assert Settles(after, e.target, j, n - 1);
      RewrittenThenErased(before, after, done, e.target, j, n - 1);
    }
    forall t | t in before[r].refs ensures Settles(Erased(before, done), t, inst, n - 1) {
      RewrittenThenErased(before, after, done, t, inst, n - 1);
    }
    if !(r in done && NeedsSplit(before[r].types)) {
      forall a | a in before[r].anyOf ensures Settles(Erased(before, done), a, inst, n - 1) {
        RewrittenThenErased(before, after, done, a, inst, n - 1);
      }
    }
  }

  // The rewrite means exactly what the original means once the anyOf of each
  // split node is erased: for every graph, cyclic or not, and every instance.
  lemma RewriteMeansErased<R>(before: Graph<R>, after: Graph<R>, done: set<R>, r: R, inst: Json)
    requires Closed(before) && IsRewrite(before, after, done) && r in before
    ensures Meaning(after, r, inst) == Meaning(Erased(before, done), r, inst)
  {
    hide InStep, Settles, Evaluated;
    var erased := Erased(before, done);
    if n: nat :| Settles(erased, r, inst, n) {
      ErasedThenRewritten(before, after, done, r, inst, n);
      SettledInStep(erased, after, r, inst, n);
    } else if n: nat :| Settles(after, r, inst, n) {
      RewrittenThenErased(before, after, done, r, inst, n);
    }
  }

  lemma SettledInStep<R>(erased: Graph<R>, after: Graph<R>, r: R, inst: Json, n: nat)
    requires Settles(erased, r, inst, n) && InStep(erased, after, r, inst, n)
    ensures Meaning(after, r, inst) == Meaning(erased, r, inst)
  {
    hide Settles, Evaluated, Meaning;
    MeaningAt(erased, r, inst, n);
    MeaningAt(after, r, inst, n + 1);
  }

  // No node to be split carries an anyOf of its own, or lists the empty string.
  ghost predicate NothingOverwritten<R>(g: Graph<R>, done: set<R>) {
    forall r :: r in g && r in done && NeedsSplit(g[r].types) ==> g[r].anyOf == []
  }

  ghost predicate NoEmptyName<R>(g: Graph<R>, done: set<R>) {
    forall r :: r in g && r in done && NeedsSplit(g[r].types) ==> "" !in g[r].types
  }

  // The comment's promise that both spellings mean the same thing.
  lemma RewritePreservesMeaning<R>(before: Graph<R>, after: Graph<R>, done: set<R>, r: R, inst: Json)
    requires Closed(before) && IsRewrite(before, after, done) && r in before
    requires NothingOverwritten(before, done) && NoEmptyName(before, done)
    ensures Meaning(after, r, inst) == Meaning(before, r, inst)
  {
    hide Meaning;
    RewriteMeansErased(before, after, done, r, inst);
    assert Erased(before, done) == before;
  }

  // ---------------------------------------------------------------- the guards are needed

  // A node without references or subschemas, its anyOf apart.
  ghost predicate IsBare<R>(node: Node<R>) {
    node.typ == "" && node.refs == [] && node.subs == []
  }

  lemma BareAccepts<R>(node: Node<R>, inst: Json, v: (R, Json) -> Outcome)
    requires IsBare(node)
    ensures NodeOutcome(node, inst, v).ok <==> TypeAllows(node, inst) && AnyOfAccepts(node.anyOf, inst, v) && node.assertions(inst)
  {
  }

  // Once split, a bare node accepts what one of its types does, or everything if one of
  // them is the empty string.
  lemma SplitBareMeaning<R>(before: Graph<R>, after: Graph<R>, done: set<R>, r: R, inst: Json)
    requires IsRewrite(before, after, done) && r in done && r in before
    requires NeedsSplit(before[r].types) && IsBare(before[r])
    ensures Meaning(after, r, inst) == (
      if before[r].assertions(inst) && ("" in before[r].types || exists t :: t in before[r].types && TypeMatches(t, inst))
      then Accepted else Rejected)
  {
    hide Meaning, TypeMatches, NodeOutcome, AnyOfAccepts;
    assert RewrittenNode(before, after, done, r);
    BranchesSayTypes(before[r], after[r], after, inst, 1);
    BareAccepts(after[r], inst, (t: R, j: Json) => Evaluated(after, t, j, 1));
    assert Settles(after, r, inst, 2);
    MeaningAt(after, r, inst, 2);
  }

  // A bare nullable node rejects null when its own anyOf offers only a leaf of another
  // type, and accepts null once it is split.
  lemma OverwritingChangesMeaning<R>(before: Graph<R>, after: Graph<R>, done: set<R>, r: R, leaf: R, t: string)
    requires IsRewrite(before, after, done)
    requires r in done && r in before && leaf in before
    requires NeedsSplit(before[r].types) && IsBare(before[r]) && before[r].assertions(Null)
    requires before[r].anyOf == [leaf] && IsTypeLeaf(before[leaf], t) && t != "" && t != "null"
    ensures Meaning(before, r, Null) == Rejected
    ensures Meaning(after, r, Null) == Accepted
  {
    hide Meaning;
    SplitBareMeaning(before, after, done, r, Null);
    assert TypeMatches("null", Null);
    LeafMeaning(before, leaf, t, Null, 1);
    assert Settles(before, r, Null, 2);
    MeaningAt(before, r, Null, 2);
  }

  // A bare node without an anyOf keeps its meaning on an instance if and only if it
  // does not list the empty string, or rejects the instance for another reason, or
  // accepts it for one of the types.
  lemma EmptyNameKeepsMeaningIff<R>(before: Graph<R>, after: Graph<R>, done: set<R>, r: R, inst: Json)
    requires IsRewrite(before, after, done) && r in done && r in before
    requires NeedsSplit(before[r].types) && IsBare(before[r]) && before[r].anyOf == []
    ensures Meaning(after, r, inst) == Meaning(before, r, inst) <==>
      || "" !in before[r].types || !before[r].assertions(inst)
      || exists t :: t in before[r].types && TypeMatches(t, inst)
  {
    hide Meaning, TypeMatches;
    SplitBareMeaning(before, after, done, r, inst);
    assert Settles(before, r, inst, 1);
    MeaningAt(before, r, inst, 1);
  }

  // {"type": ["null", "string"], "anyOf": [{"type": "string"}]}
  ghost function NullableWithAnyOf(any: Json -> bool): Graph<nat> {
    map[0 := Node("", ["null", "string"], [1], [], [], any), 1 := Node("string", [], [], [], [], any)]
  }

  lemma OverwritingExample(any: Json -> bool, after: Graph<nat>)
    requires forall j :: any(j)
    requires IsRewrite(NullableWithAnyOf(any), after, {0, 1})
    ensures Meaning(NullableWithAnyOf(any), 0, Null) == Rejected
    ensures Meaning(after, 0, Null) == Accepted
  {
    hide Meaning, Evaluated, Settles, IsRewrite;
    var before := NullableWithAnyOf(any);
    var types := before[0].types;
    assert types[0] == "null" && types[1] == "string" && "null"[0] != "string"[0];
    assert types[0] in types && types[1] in types;
    OverwritingChangesMeaning(before, after, {0, 1}, 0, 1, "string");
  }

  // {"type": ["null", ""]}
  ghost function NullableNameless(any: Json -> bool): Graph<nat> {
    map[0 := Node("", ["null", ""], [], [], [], any)]
  }

  lemma EmptyNameExample(any: Json -> bool, after: Graph<nat>)
    requires forall j :: any(j)
    requires IsRewrite(NullableNameless(any), after, {0})
    ensures Meaning(NullableNameless(any), 0, Bool(true)) == Rejected
    ensures Meaning(after, 0, Bool(true)) == Accepted
  {
    hide Meaning, IsRewrite;
    var before := NullableNameless(any);
    var types := before[0].types;
    assert types[0] == "null" && types[1] == "" && types[0] in types && types[1] in types;
    SplitBareMeaning(before, after, {0}, 0, Bool(true));
    assert Settles(before, 0, Bool(true), 1);
    MeaningAt(before, 0, Bool(true), 1);
    assert !TypeAllows(before[0], Bool(true));
  }
}
