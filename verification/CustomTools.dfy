// Operator-defined tools, checked and called.
module CustomTools {
  import opened CypherText
  import opened QueryText
  import opened Values
  import opened Wrappers
  import D = Decimal
  import G = GraphConditions

  const STRING := "string"
  const INTEGER := "integer"
  const NUMBER := "number"
  const BOOLEAN := "boolean"
  const READ := "read"
  const READ_WRITE := "readwrite"

  const MAX_NAME := 64

  // `def` is Nil when there is no default.
  datatype ToolParam = ToolParam(name: string, typ: string, description: string, required: bool, enum_: seq<Value>, def: Value)

  datatype CustomTool = CustomTool(
    name: string, description: string, category: string, access: string, statement: string, params: seq<ToolParam>)

  // ---------------------------------------------------------------- coercion

  predicate IsType(typ: string) {
    typ == STRING || typ == INTEGER || typ == NUMBER || typ == BOOLEAN
  }

  // A value as it is bound for a declared type.
  predicate HasType(typ: string, v: Value) {
    || (typ == "string" && v.Str?)
    || (typ == "boolean" && v.Bool?)
    || (typ == "integer" && v.Int?)
    || (typ == "number" && v.Float?)
  }

  // The same string, boolean or number, as an integer or as a float.
  predicate SameValue(v: Value, w: Value) {
    match (v, w)
    case (Int(i), Float(r)) => i as real == r
    case (Float(r), Int(i)) => i as real == r
    case _ => v == w
  }

  // A decoded value converted to the declared type, if it can be. A whole float is
  // an integer when it fits in 64 bits.
  function Coerce(typ: string, v: Value): (r: Option<Value>)
    ensures r.Some? ==> HasType(typ, r.value) && SameValue(v, r.value)
    ensures HasType(typ, v) ==> r == Some(v)
  {
    if typ == STRING then (if v.Str? then Some(v) else None)
    else if typ == BOOLEAN then (if v.Bool? then Some(v) else None)
    else if typ == INTEGER then
      match v {
        case Int(_) => Some(v)
        case Float(r) =>
          if r == r.Floor as real && -D.INT64_LIMIT <= r.Floor < D.INT64_LIMIT then Some(Int(r.Floor)) else None
        case _ => None
      }
    else if typ == NUMBER then
      match v {
        case Int(i) => Some(Float(i as real))
        case Float(_) => Some(v)
        case _ => None
      }
    else None
  }

  // A value converts to the one value of the declared type that is the same, if there
  // is one; a float converts to an integer only within 64 bits.
  lemma CoercesIff(typ: string, v: Value, w: Value)
    ensures Coerce(typ, v) == Some(w) <==>
      HasType(typ, w) && SameValue(v, w) && (v.Float? && w.Int? ==> -0x8000_0000_0000_0000 <= w.i < 0x8000_0000_0000_0000)
  {
    if v.Float? && w.Int? && SameValue(v, w) {
      assert v.r.Floor == w.i;
    }
  }

  // ---------------------------------------------------------------- validation

  predicate IsLower(c: char) {
    'a' <= c <= 'z'
  }

  // ^[a-z][a-z0-9]*(-[a-z0-9]+)*$
  predicate IsKebab(s: string) {
    s != [] && IsLower(s[0]) && forall i :: 0 <= i < |s| ==> KebabAt(s, i)
  }

  predicate KebabAt(s: string, i: nat)
    requires i < |s|
  {
    IsLower(s[i]) || D.IsDigit(s[i]) || (s[i] == '-' && i + 1 < |s| && (IsLower(s[i + 1]) || D.IsDigit(s[i + 1])))
  }

  // Small letters, digits and single hyphens inside, from a letter on.
  lemma KebabIff(s: string)
    ensures IsKebab(s) <==>
      && s != "" && 'a' <= s[0] <= 'z' && s[|s| - 1] != '-'
      && (forall i :: 0 <= i < |s| ==> 'a' <= s[i] <= 'z' || '0' <= s[i] <= '9' || s[i] == '-')
      && forall i :: 0 <= i < |s| - 1 ==> s[i] == '-' ==> s[i + 1] != '-'
  {
    if IsKebab(s) {
      assert KebabAt(s, |s| - 1);
      forall i | 0 <= i < |s|
        ensures 'a' <= s[i] <= 'z' || '0' <= s[i] <= '9' || s[i] == '-'
        ensures i < |s| - 1 && s[i] == '-' ==> s[i + 1] != '-'
      {
        assert KebabAt(s, i);
      }
    }
  }

  // ^[a-z][a-z0-9_-]{0,31}$
  predicate IsCategory(s: string) {
    && 0 < |s| <= 32 && IsLower(s[0])
    && forall i :: 0 <= i < |s| ==> IsLower(s[i]) || D.IsDigit(s[i]) || s[i] == '_' || s[i] == '-'
  }

  datatype Problem =
    | BadName
    | NoDescription
    | BadCategory
    | BadAccess
    | NoStatement
    | BadParamName(param: nat)
    | DuplicateParam(param: nat)
    | BadParamType(param: nat)
    | NoParamDescription(param: nat)
    | BadEnum(param: nat, value: Value)
    | BadDefault(param: nat)
    | Undeclared(ref: string)
    | Unreferenced(name: string)

  predicate ParamOk(p: ToolParam) {
    && IsName(p.name) && IsType(p.typ) && !G.IsBlank(p.description)
    && (forall e :: e in p.enum_ ==> Coerce(p.typ, e).Some?)
    && (p.def != Nil ==> Coerce(p.typ, p.def).Some?)
  }

  predicate DistinctNames(params: seq<ToolParam>) {
    forall i, j :: 0 <= i < j < |params| ==> params[i].name != params[j].name
  }

  function ParamNames(params: seq<ToolParam>): set<string> {
    set p | p in params :: p.name
  }

  // The parameters the code of the statement refers to.
  function Referenced(t: CustomTool): set<string> {
    set r | r in Refs(Lex(t.statement, Code))
  }

  predicate HeaderOk(t: CustomTool) {
    && IsKebab(t.name) && |t.name| <= MAX_NAME
    && !G.IsBlank(t.description)
    && IsCategory(t.category)
    && (t.access == READ || t.access == READ_WRITE)
    && !G.IsBlank(Lex(t.statement, Code))
  }

  predicate ToolOk(t: CustomTool) {
    && HeaderOk(t)
    && (forall p :: p in t.params ==> ParamOk(p))
    && DistinctNames(t.params)
    && ParamNames(t.params) == Referenced(t)
  }

  // What each problem with the header says, with the limits spelled out.
  predicate HeaderFault(t: CustomTool, e: Problem) {
    match e
    case BadName => !(IsKebab(t.name) && |t.name| <= 64)
    case NoDescription => G.IsBlank(t.description)
    case BadCategory => !IsCategory(t.category)
    case BadAccess => t.access != "read" && t.access != "readwrite"
    case NoStatement => G.IsBlank(Lex(t.statement, Code))
    case _ => false
  }

  method HeaderProblems(t: CustomTool, code: string) returns (errs: seq<Problem>)
    requires code == Lex(t.statement, Code)
    ensures errs == [] <==> HeaderOk(t)
    ensures forall e :: e in errs <==> HeaderFault(t, e)
  {
    hide G.IsBlank, IsKebab;
    errs := [];
    if |t.name| > MAX_NAME || !IsKebab(t.name) {
      errs := errs + [BadName];
    }
    if G.IsBlank(t.description) {
      errs := errs + [NoDescription];
    }
    if !IsCategory(t.category) {
      errs := errs + [BadCategory];
    }
    if t.access != READ && t.access != READ_WRITE {
      errs := errs + [BadAccess];
    }
    if G.IsBlank(code) {
      errs := errs + [NoStatement];
    }
  }

  // What each problem with parameter j says, given the names declared before it. Of a
  // parameter without a type nothing further is asked.
  predicate ParamFault(p: ToolParam, j: nat, declared: set<string>, e: Problem) {
    match e
    case BadParamName(i) => i == j && !IsName(p.name)
    case DuplicateParam(i) => i == j && p.name in declared
    case BadParamType(i) => i == j && !IsType(p.typ)
    case NoParamDescription(i) => i == j && IsType(p.typ) && G.IsBlank(p.description)
    case BadEnum(i, v) => i == j && IsType(p.typ) && v in p.enum_ && Coerce(p.typ, v).None?
    case BadDefault(i) => i == j && IsType(p.typ) && p.def != Nil && Coerce(p.typ, p.def).None?
    case _ => false
  }

  // The problems of one parameter.
  method ParamProblems(p: ToolParam, j: nat, declared: set<string>) returns (errs: seq<Problem>)
    ensures errs == [] <==> ParamOk(p) && p.name !in declared
    ensures forall e :: e in errs <==> ParamFault(p, j, declared, e)
  {
    hide IsName, IsType, Coerce, G.IsBlank;
    errs := [];
    if !IsName(p.name) {
      errs := errs + [BadParamName(j)];
    }
    if p.name in declared {
      errs := errs + [DuplicateParam(j)];
    }
    if !IsType(p.typ) {
      errs := errs + [BadParamType(j)];
      return;
    }
    if G.IsBlank(p.description) {
      errs := errs + [NoParamDescription(j)];
    }
    ghost var before := errs;
    for k := 0 to |p.enum_|
      invariant forall e :: e in errs <==>
        e in before || (e.BadEnum? && e.param == j && e.value in p.enum_[..k] && Coerce(p.typ, e.value).None?)
    {
      assert p.enum_[..k + 1] == p.enum_[..k] + [p.enum_[k]];
      if Coerce(p.typ, p.enum_[k]).None? {
        errs := errs + [BadEnum(j, p.enum_[k])];
      }
    }
    if p.def != Nil && Coerce(p.typ, p.def).None? {
      errs := errs + [BadDefault(j)];
    }
    assert forall e :: e in errs <==> ParamFault(p, j, declared, e);
    FaultlessIff(p, j, declared, errs);
  }

  lemma FaultlessIff(p: ToolParam, j: nat, declared: set<string>, errs: seq<Problem>)
    requires forall e :: e in errs <==> ParamFault(p, j, declared, e)
    ensures errs == [] <==> ParamOk(p) && p.name !in declared
  {
    hide IsName, IsType, Coerce, G.IsBlank;
    if errs == [] {
      assert !ParamFault(p, j, declared, BadParamName(j)) && !ParamFault(p, j, declared, DuplicateParam(j));
      assert !ParamFault(p, j, declared, BadParamType(j)) && !ParamFault(p, j, declared, NoParamDescription(j));
      assert !ParamFault(p, j, declared, BadDefault(j));
      forall v | v in p.enum_ ensures Coerce(p.typ, v).Some? {
        assert !ParamFault(p, j, declared, BadEnum(j, v));
      }
    } else {
      assert errs[0] in errs;
    }
  }

  // The problems of the first n parameters, each with the names before its own.
  predicate ParamsFault(params: seq<ToolParam>, n: nat, e: Problem)
    requires n <= |params|
  {
    && (e.BadParamName? || e.DuplicateParam? || e.BadParamType? || e.NoParamDescription? || e.BadEnum? || e.BadDefault?)
    && e.param < n && ParamFault(params[e.param], e.param, ParamNames(params[..e.param]), e)
  }

  method ParamsProblems(params: seq<ToolParam>) returns (errs: seq<Problem>, declared: set<string>)
    ensures errs == [] <==> (forall p :: p in params ==> ParamOk(p)) && DistinctNames(params)
    ensures declared == ParamNames(params)
    ensures forall e :: e in errs <==> ParamsFault(params, |params|, e)
  {
    hide ParamOk, IsName, IsType, Coerce, G.IsBlank, ParamNames;
    errs, declared := [], {};
    NoNames();
    for j := 0 to |params|
      invariant errs == [] <==> (forall p :: p in params[..j] ==> ParamOk(p)) && DistinctNames(params[..j])
      invariant declared == ParamNames(params[..j])
      invariant forall e :: e in errs <==> ParamsFault(params, j, e)
    {
      var p := params[j];
      var more := ParamProblems(p, j, declared);
      OneMoreParam(params, j);
      errs := errs + more;
      declared := declared + {p.name};
    }
    assert params[..|params|] == params;
  }

  lemma NoNames()
    ensures ParamNames([]) == {}
  {
  }

  lemma OneMoreParam(params: seq<ToolParam>, j: nat)
    requires j < |params|
    ensures ParamNames(params[..j + 1]) == ParamNames(params[..j]) + {params[j].name}
    ensures DistinctNames(params[..j + 1]) <==> DistinctNames(params[..j]) && params[j].name !in ParamNames(params[..j])
  {
    hide ParamNames, DistinctNames;
    assert params[..j + 1] == params[..j] + [params[j]];
    NamesOneMore(params[..j], params[j]);
    DistinctOneMore(params[..j], params[j]);
  }

  lemma NamesOneMore(before: seq<ToolParam>, p: ToolParam)
    ensures ParamNames(before + [p]) == ParamNames(before) + {p.name}
  {
    assert forall q :: q in before + [p] <==> q in before || q == p;
  }

  lemma DistinctOneMore(before: seq<ToolParam>, p: ToolParam)
    ensures DistinctNames(before + [p]) <==> DistinctNames(before) && p.name !in ParamNames(before)
  {
    var after, n := before + [p], |before|;
    assert forall i :: 0 <= i < n ==> after[i] == before[i];
    if DistinctNames(after) {
      forall i | 0 <= i < n ensures before[i].name != p.name {
        assert after[i].name != after[n].name;
      }
      assert forall i, j :: 0 <= i < j < n ==> after[i].name != after[j].name;
    } else {
      var i, j :| 0 <= i < j < |after| && after[i].name == after[j].name;
      assert before[i] in before;
    }
  }

  // References without a declaration, each once, and declarations without a reference.
  method ReferenceProblems(params: seq<ToolParam>, refs: seq<string>, declared: set<string>) returns (errs: seq<Problem>)
    requires declared == ParamNames(params)
    ensures forall e :: e in errs <==>
      || (e.Undeclared? && e.ref in refs && e.ref !in declared)
      || (e.Unreferenced? && e.name in declared && e.name !in refs)
    ensures forall i, j :: 0 <= i < j < |errs| && errs[i].Undeclared? ==> errs[i] != errs[j]
  {
    errs := [];
    var referenced: set<string> := {};
    for i := 0 to |refs|
      invariant referenced == set r | r in refs[..i]
      invariant forall e :: e in errs <==> e.Undeclared? && e.ref in referenced && e.ref !in declared
      invariant forall i, j :: 0 <= i < j < |errs| ==> errs[i] != errs[j]
    {
      assert refs[..i + 1] == refs[..i] + [refs[i]];
      if refs[i] !in referenced {
        referenced := referenced + {refs[i]};
        if refs[i] !in declared {
          errs := errs + [Undeclared(refs[i])];
        }
      }
    }
    assert refs[..|refs|] == refs;
    for i := 0 to |params|
      invariant forall e :: e in errs <==>
        || (e.Undeclared? && e.ref in refs && e.ref !in declared)
        || (e.Unreferenced? && e.name in ParamNames(params[..i]) && e.name !in refs)
      invariant forall i, j :: 0 <= i < j < |errs| && errs[i].Undeclared? ==> errs[i] != errs[j]
    {
      OneMoreParam(params, i);
      if params[i].name !in referenced {
        errs := errs + [Unreferenced(params[i].name)];
      }
    }
    assert params[..|params|] == params;
  }

  // Every problem with a definition. None are found exactly when it is well formed
  // and its parameters are exactly those the code of its statement refers to.
  method ValidateCustomTool(t: CustomTool) returns (errs: seq<Problem>)
    ensures errs == [] <==> ToolOk(t)
    ensures forall n :: Undeclared(n) in errs <==> n in Referenced(t) - ParamNames(t.params)
    ensures forall n :: Unreferenced(n) in errs <==> n in ParamNames(t.params) - Referenced(t)
    ensures forall e :: e in errs && !e.Undeclared? && !e.Unreferenced? <==> HeaderFault(t, e) || ParamsFault(t.params, |t.params|, e)
  {
    hide HeaderOk, ParamOk, DistinctNames, ParamNames, Refs, Lex, IsKebab, IsCategory, G.IsBlank, ParamFault;
    var code := CypherCode(t.statement);
    var header := HeaderProblems(t, code);
    var params, declared := ParamsProblems(t.params);
    var references := ReferenceProblems(t.params, Refs(code), declared);
    errs := header + params + references;
    NoneOf(references, declared, Referenced(t));
    assert errs == [] <==> header == [] && params == [] && references == [];
  }

  lemma NoneOf(errs: seq<Problem>, declared: set<string>, referenced: set<string>)
    requires forall e :: e in errs <==>
      || (e.Undeclared? && e.ref in referenced && e.ref !in declared)
      || (e.Unreferenced? && e.name in declared && e.name !in referenced)
    ensures errs == [] <==> declared == referenced
  {
    if errs != [] {
      assert errs[0] in errs;
    } else {
      forall n ensures n in declared <==> n in referenced {
        assert Undeclared(n) !in errs && Unreferenced(n) !in errs;
      }
    }
  }

  // ---------------------------------------------------------------- binding a call

  datatype CallError = UnknownArgument(name: string) | Missing(name: string) | WrongType(name: string) | NotInEnum(name: string)

  datatype Bind<T> = Refused(error: CallError) | Accepted(value: T)

  // The value a parameter gets before it is checked: the argument unless it is
  // absent or null, then the default.
  function Supplied(p: ToolParam, args: map<string, Value>): Value {
    if p.name in args && args[p.name] != Nil then args[p.name] else p.def
  }

  predicate EnumContains(p: ToolParam, v: Value) {
    exists e :: e in p.enum_ && Coerce(p.typ, e) == Some(v)
  }

  // The values a parameter may take.
  predicate Admits(p: ToolParam, v: Value) {
    HasType(p.typ, v) && (p.enum_ == [] || EnumContains(p, v))
  }

  method InEnum(p: ToolParam, v: Value) returns (found: bool)
    ensures found <==> EnumContains(p, v)
  {
    for i := 0 to |p.enum_|
      invariant forall j :: 0 <= j < i ==> Coerce(p.typ, p.enum_[j]) != Some(v)
    {
      if Coerce(p.typ, p.enum_[i]) == Some(v) {
        return true;
      }
    }
    found := false;
  }

  // A parameter that gets a value gets one it admits; one that gets none is null,
  // and only when nothing requires it.
  predicate Binds(p: ToolParam, args: map<string, Value>) {
    var raw := Supplied(p, args);
    if raw == Nil then !p.required
    else Coerce(p.typ, raw).Some? && Admits(p, Coerce(p.typ, raw).value)
  }

  function BoundValue(p: ToolParam, args: map<string, Value>): Value
    requires Binds(p, args)
  {
    var raw := Supplied(p, args);
    if raw == Nil then Nil else Coerce(p.typ, raw).value
  }

  method BindParam(p: ToolParam, args: map<string, Value>) returns (r: Bind<Value>)
    ensures r.Accepted? <==> Binds(p, args)
    ensures r.Accepted? ==> r.value == BoundValue(p, args)
    ensures r.Refused? ==> r.error.name == p.name && !r.error.UnknownArgument?
    ensures r.Refused? ==> (r.error.Missing? <==> Supplied(p, args) == Nil)
    ensures r.Refused? ==> (r.error.WrongType? <==> Supplied(p, args) != Nil && Coerce(p.typ, Supplied(p, args)) == None)
  {
    var raw := if p.name in args then args[p.name] else Nil;
    if raw == Nil {
      if p.def != Nil {
        raw := p.def;
      } else if p.required {
        return Refused(Missing(p.name));
      } else {
        return Accepted(Nil);
      }
    }
    var v := Coerce(p.typ, raw);
    if v.None? {
      return Refused(WrongType(p.name));
    }
    if p.enum_ != [] {
      var found := InEnum(p, v.value);
      if !found {
        return Refused(NotInEnum(p.name));
      }
    }
    r := Accepted(v.value);
  }

  ghost predicate CallOk(t: CustomTool, args: map<string, Value>) {
    args.Keys <= ParamNames(t.params) && forall p :: p in t.params ==> Binds(p, args)
  }

  // An argument no parameter declares, if there is one.
  method UnknownArguments(params: seq<ToolParam>, args: map<string, Value>) returns (r: Option<string>)
    ensures r == None <==> args.Keys <= ParamNames(params)
    ensures r.Some? ==> r.value in args && r.value !in ParamNames(params)
  {
    hide ParamNames, DistinctNames;
    var declared: set<string> := ParamNames(params[..0]);
    for i := 0 to |params|
      invariant declared == ParamNames(params[..i])
    {
      OneMoreParam(params, i);
      declared := declared + {params[i].name};
    }
    assert params[..|params|] == params;
    var left := args.Keys;
    while left != {}
      invariant left <= args.Keys && args.Keys - left <= declared
      decreases |left|
    {
      var name :| name in left;
      if name !in declared {
        return Some(name);
      }
      left := left - {name};
    }
    r := None;
  }

  // The value of each parameter, when names are distinct.
  ghost predicate BoundTo(params: seq<ToolParam>, args: map<string, Value>, bound: map<string, Value>) {
    forall i :: 0 <= i < |params| ==>
      Binds(params[i], args) && params[i].name in bound && bound[params[i].name] == BoundValue(params[i], args)
  }

  // Each parameter is bound to null if it is given nothing and has no default, and
  // else to what it is given, or its default, as a value of its type.
  ghost predicate Carries(params: seq<ToolParam>, args: map<string, Value>, bound: map<string, Value>) {
    forall p :: p in params ==>
      var given := if p.name in args && args[p.name] != Nil then args[p.name] else p.def;
      p.name in bound
        && if given == Nil then bound[p.name] == Nil else HasType(p.typ, bound[p.name]) && SameValue(given, bound[p.name])
  }

  lemma BoundCarries(params: seq<ToolParam>, args: map<string, Value>, bound: map<string, Value>)
    requires BoundTo(params, args, bound)
    ensures Carries(params, args, bound)
  {
    hide HasType, SameValue, Admits, Coerce;
    forall p | p in params
      ensures var given := if p.name in args && args[p.name] != Nil then args[p.name] else p.def;
        p.name in bound
          && if given == Nil then bound[p.name] == Nil else HasType(p.typ, bound[p.name]) && SameValue(given, bound[p.name])
    {
      var i :| 0 <= i < |params| && params[i] == p;
      assert Binds(params[i], args) && bound[params[i].name] == BoundValue(params[i], args);
    }
  }

  lemma BoundOneMore(params: seq<ToolParam>, args: map<string, Value>, bound: map<string, Value>, i: nat)
    requires i < |params| && Binds(params[i], args)
    requires DistinctNames(params[..i]) ==> BoundTo(params[..i], args, bound)
    ensures DistinctNames(params[..i + 1]) ==> BoundTo(params[..i + 1], args, bound[params[i].name := BoundValue(params[i], args)])
  {
    hide Binds, BoundValue;
    OneMoreParam(params, i);
    assert forall j :: 0 <= j < i ==> params[..i + 1][j] == params[..i][j] && params[..i][j] in params[..i];
  }

  method BuildParams(t: CustomTool, args: map<string, Value>) returns (r: Bind<map<string, Value>>)
    ensures r.Accepted? <==> CallOk(t, args)
    ensures r.Accepted? ==> r.value.Keys == ParamNames(t.params)
    ensures r.Accepted? && DistinctNames(t.params) ==> BoundTo(t.params, args, r.value) && Carries(t.params, args, r.value)
  {
    hide Binds, BoundValue, ParamNames, DistinctNames, BoundTo, Carries;
    var unknown := UnknownArguments(t.params, args);
    if unknown.Some? {
      return Refused(UnknownArgument(unknown.value));
    }
    var params: map<string, Value> := map[];
    NoParams(t.params[..0], args);
    for i := 0 to |t.params|
      invariant forall p :: p in t.params[..i] ==> Binds(p, args)
      invariant params.Keys == ParamNames(t.params[..i])
      invariant DistinctNames(t.params[..i]) ==> BoundTo(t.params[..i], args, params)
    {
      var p := t.params[i];
      OneMoreParam(t.params, i);
      var v := BindParam(p, args);
      if v.Refused? {
        return Refused(v.error);
      }
      BoundOneMore(t.params, args, params, i);
      params := params[p.name := v.value];
    }
    assert t.params[..|t.params|] == t.params;
    r := Accepted(params);
    if DistinctNames(t.params) {
      BoundCarries(t.params, args, params);
    }
  }

  lemma NoParams(params: seq<ToolParam>, args: map<string, Value>)
    requires params == []
    ensures ParamNames(params) == {} && BoundTo(params, args, map[])
  {
  }

  // ---------------------------------------------------------------- validated tools bind exactly what they use

  // For a tool that passed validation, an accepted call binds exactly the
  // parameters its statement refers to, each to null or to a value it admits.
  lemma AcceptedCallIsClosed(t: CustomTool, args: map<string, Value>, params: map<string, Value>)
    requires ToolOk(t) && CallOk(t, args) && params.Keys == ParamNames(t.params) && BoundTo(t.params, args, params)
    ensures ParameterClosed(t.statement, params)
    ensures forall p :: p in t.params ==> params[p.name] == Nil || Admits(p, params[p.name])
    ensures forall p :: p in t.params ==> (params[p.name] == Nil <==> Supplied(p, args) == Nil)
    ensures forall p :: p in t.params && p.required ==> params[p.name] != Nil
  {
    forall r ensures r in Refs(Lex(t.statement, Code)) <==> r in params {
      assert r in Referenced(t) <==> r in ParamNames(t.params);
    }
  }

  // What a parameter needs to be left out: a default listed in its enum, if it has
  // one, or else not to be required.
  predicate MayBeOmitted(p: ToolParam) {
    if p.def == Nil then !p.required
    else p.enum_ == [] || exists e :: e in p.enum_ && Coerce(p.typ, e) == Coerce(p.typ, p.def)
  }

  // In every call that gives a validated parameter no value, or null, it binds if
  // and only if its default is inside its enum or, without a default, it is not
  // required. Validation only asks that a default coerces.
  lemma BindsWhenOmittedIff(p: ToolParam, args: map<string, Value>)
    requires ParamOk(p) && (p.name !in args || args[p.name] == Nil)
    ensures Binds(p, args) <==> MayBeOmitted(p)
  {
  }

  // Whatever else a call gives, it is refused when it leaves out one parameter that
  // may not be omitted.
  lemma RefusedWhenOmitted(t: CustomTool, p: ToolParam, args: map<string, Value>)
    requires ToolOk(t) && p in t.params && (p.name !in args || args[p.name] == Nil)
    requires !MayBeOmitted(p)
    ensures !CallOk(t, args)
  {
    hide ToolOk, Binds, MayBeOmitted;
    assert ParamOk(p) by { ParamsAreOk(t, p); }
    BindsWhenOmittedIff(p, args);
  }

  lemma ParamsAreOk(t: CustomTool, p: ToolParam)
    requires ToolOk(t) && p in t.params
    ensures ParamOk(p)
  {
  }

  // So a tool can be called with no arguments if and only if every parameter may be
  // omitted.
  lemma CallableWithoutArgumentsIff(t: CustomTool)
    requires ToolOk(t)
    ensures CallOk(t, map[]) <==> forall p :: p in t.params ==> MayBeOmitted(p)
  {
    hide Binds, MayBeOmitted, HeaderOk, ParamOk, DistinctNames;
    forall p | p in t.params ensures Binds(p, map[]) <==> MayBeOmitted(p) {
      ParamsAreOk(t, p);
      BindsWhenOmittedIff(p, map[]);
    }
  }

  lemma RefersToX()
    ensures Lex("$x", Code) == "$x" && Refs("$x") == ["x"]
  {
    PlainIsCode("$x", "");
    assert "$x" + "" == "$x" && Lex("", Code) == "";
    RefsFind("x", "");
    assert "$" + "x" + "" == "$x" && Refs("") == [];
  }

  lemma LettersAreNotBlank()
    ensures !G.IsBlank("$x") && !G.IsBlank("t") && IsKebab("t") && IsCategory("t") && IsName("x")
  {
    assert "$x"[0] == '$' && "t"[0] == 't';
  }

  // A parameter with a default is not always satisfiable: this tool passes
  // validation, yet its optional parameter can never be left out.
  lemma DefaultOutsideEnum()
    ensures var p := ToolParam("x", STRING, "t", false, [Str("a")], Str("b"));
      var t := CustomTool("t", "t", "t", READ, "$x", [p]);
      ToolOk(t) && !CallOk(t, map[]) && CallOk(t, map["x" := Str("a")])
  {
    hide Lex, Refs, IsKebab, IsCategory, IsName, G.IsBlank;
    var p := ToolParam("x", STRING, "t", false, [Str("a")], Str("b"));
    var t := CustomTool("t", "t", "t", READ, "$x", [p]);
    assert p.enum_[0] == Str("a") && t.params[0] == p;
    RefersToX();
    LettersAreNotBlank();
    assert Referenced(t) == {"x"} == ParamNames(t.params);
  }
}
