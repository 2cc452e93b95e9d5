// Which tools are registered, and which of them a request may see.
module ToolPipeline {
  import opened Wrappers

  const CYPHER := "cypher"
  const GDS := "gds"
  const FEEDBACK := "feedback"
  const SEARCH := "search"
  const GRAPH := "graph"
  const TRAVERSAL := "traversal"
  const PATTERNS := "patterns"

  function BuiltinCategories(): seq<string> {
    [CYPHER, GDS, FEEDBACK, SEARCH, GRAPH, TRAVERSAL, PATTERNS]
  }

  // `spec` stands for the definition and handler the registry serves.
  datatype Tool = Tool(name: string, category: string, readonly: bool, spec: nat)

  datatype Capabilities = Capabilities(gds: bool, search: bool, cypher25: bool)

  const NONE := Capabilities(false, false, false)
  const ALL := Capabilities(true, true, true)

  // `names` and `categories` are the configured selection; both empty selects all.
  datatype Config = Config(
    builtin: seq<Tool>, custom: seq<Tool>, names: seq<string>, categories: seq<string>, readOnly: bool)

  function AllTools(cfg: Config): seq<Tool> {
    cfg.builtin + cfg.custom
  }

  // ---------------------------------------------------------------- the specification

  predicate Selected(cfg: Config, t: Tool) {
    (cfg.names == [] && cfg.categories == []) || t.name in cfg.names || t.category in cfg.categories
  }

  datatype Unavailable = NoGds | OldSearch | NoCypher25

  // The offline reason a category cannot be served, if there is one.
  function UnavailableReason(category: string, caps: Capabilities): Option<Unavailable> {
    if category == GDS then (if caps.gds then None else Some(NoGds))
    else if category == SEARCH then (if caps.search then None else Some(OldSearch))
    else if category == GRAPH || category == TRAVERSAL || category == PATTERNS then (if caps.cypher25 then None else Some(NoCypher25))
    else None
  }

  predicate Registrable(cfg: Config, caps: Capabilities, t: Tool) {
    Selected(cfg, t) && !(cfg.readOnly && !t.readonly) && UnavailableReason(t.category, caps) == None
  }

  // The tools of `ts` for which `keep` holds, in order.
  function Filter(keep: Tool -> bool, ts: seq<Tool>): seq<Tool> {
    if ts == [] then []
    else Filter(keep, ts[..|ts| - 1]) + if keep(ts[|ts| - 1]) then [ts[|ts| - 1]] else []
  }

  lemma {:induction false} FilterMembers(keep: Tool -> bool, ts: seq<Tool>)
    ensures forall t :: t in Filter(keep, ts) <==> t in ts && keep(t)
  {
    if ts != [] {
      FilterMembers(keep, ts[..|ts| - 1]);
      assert ts == ts[..|ts| - 1] + [ts[|ts| - 1]];
    }
  }

  function Enabled(cfg: Config, caps: Capabilities): seq<Tool> {
    Filter(t => Registrable(cfg, caps, t), AllTools(cfg))
  }

  // A tool is offered if the configuration selects it, lets it write if it does, and
  // the database can do what its category needs.
  predicate Offered(cfg: Config, caps: Capabilities, t: Tool) {
    && ((cfg.names == [] && cfg.categories == []) || t.name in cfg.names || t.category in cfg.categories)
    && (cfg.readOnly ==> t.readonly)
    && (t.category == "gds" ==> caps.gds)
    && (t.category == "search" ==> caps.search)
    && (t.category in ["graph", "traversal", "patterns"] ==> caps.cypher25)
  }

  lemma RegistrableIff(cfg: Config, caps: Capabilities, t: Tool)
    ensures Registrable(cfg, caps, t) <==> Offered(cfg, caps, t)
  {
    CategoriesDiffer();
    var needs25 := ["graph", "traversal", "patterns"];
    assert needs25[0] == GRAPH && needs25[1] == TRAVERSAL && needs25[2] == PATTERNS;
  }

  lemma CategoriesDiffer()
    ensures GDS != SEARCH && GDS != GRAPH && GDS != TRAVERSAL && GDS != PATTERNS
    ensures SEARCH != GRAPH && SEARCH != TRAVERSAL && SEARCH != PATTERNS
  {
    assert GDS[0] == 'g' && GDS[1] == 'd' && GRAPH[1] == 'r' && SEARCH[0] == 's' && TRAVERSAL[0] == 't' && PATTERNS[0] == 'p';
  }

  lemma EnabledIff(cfg: Config, caps: Capabilities)
    ensures forall t :: t in Enabled(cfg, caps) <==> t in AllTools(cfg) && Registrable(cfg, caps, t)
  {
    FilterMembers(t => Registrable(cfg, caps, t), AllTools(cfg));
  }

  lemma OfferedIff(cfg: Config, caps: Capabilities)
    ensures forall t :: t in Enabled(cfg, caps) <==> (t in cfg.builtin || t in cfg.custom) && Offered(cfg, caps, t)
  {
    hide Offered, Registrable, Enabled;
    EnabledIff(cfg, caps);
    forall t ensures Registrable(cfg, caps, t) <==> Offered(cfg, caps, t) {
      RegistrableIff(cfg, caps, t);
    }
  }

  // ---------------------------------------------------------------- the filters

  // The filters that may be in force, each as what it keeps.
  datatype Stage = BySelection | WriteTools | GdsTools | SearchTools | Cypher25Tools

  predicate Keeps(cfg: Config, stage: Stage, t: Tool) {
    match stage
    case BySelection => Selected(cfg, t)
    case WriteTools => t.readonly
    case GdsTools => t.category != GDS
    case SearchTools => t.category != SEARCH
    case Cypher25Tools => t.category != GRAPH && t.category != TRAVERSAL && t.category != PATTERNS
  }

  function KeepsAll(cfg: Config, stages: seq<Stage>): Tool -> bool {
    t => forall s :: s in stages ==> Keeps(cfg, s, t)
  }

  lemma FilterStep(keep: Tool -> bool, ts: seq<Tool>, i: nat)
    requires i < |ts|
    ensures Filter(keep, ts[..i + 1]) == Filter(keep, ts[..i]) + if keep(ts[i]) then [ts[i]] else []
  {
    assert ts[..i + 1][..i] == ts[..i];
  }

  lemma {:induction false} FilterTwice(p: Tool -> bool, q: Tool -> bool, both: Tool -> bool, ts: seq<Tool>)
    requires forall t :: t in ts ==> (both(t) <==> p(t) && q(t))
    ensures Filter(q, Filter(p, ts)) == Filter(both, ts)
  {
    if ts != [] {
      var before, last := ts[..|ts| - 1], ts[|ts| - 1];
      FilterTwice(p, q, both, before);
      if p(last) {
        assert (Filter(p, before) + [last])[..|Filter(p, before)|] == Filter(p, before);
      } else {
        assert Filter(p, before) + [] == Filter(p, before);
      }
    }
  }

  lemma {:induction false} FilterAgrees(p: Tool -> bool, q: Tool -> bool, ts: seq<Tool>)
    requires forall t :: t in ts ==> p(t) == q(t)
    ensures Filter(p, ts) == Filter(q, ts)
  {
    if ts != [] {
      FilterAgrees(p, q, ts[..|ts| - 1]);
    }
  }

  method Apply(cfg: Config, stage: Stage, defs: seq<Tool>) returns (kept: seq<Tool>)
    ensures kept == Filter(t => Keeps(cfg, stage, t), defs)
  {
    if stage == BySelection && cfg.names == [] && cfg.categories == [] {
      FilterAll(t => Keeps(cfg, stage, t), defs);
      return defs;
    }
    kept := [];
    for i := 0 to |defs|
      invariant kept == Filter(t => Keeps(cfg, stage, t), defs[..i])
    {
      FilterStep(t => Keeps(cfg, stage, t), defs, i);
      if Keeps(cfg, stage, defs[i]) {
        kept := kept + [defs[i]];
      }
    }
    assert defs[..|defs|] == defs;
  }

  lemma {:induction false} FilterAll(keep: Tool -> bool, ts: seq<Tool>)
    requires forall t :: t in ts ==> keep(t)
    ensures Filter(keep, ts) == ts
  {
    if ts != [] {
      FilterAll(keep, ts[..|ts| - 1]);
      assert ts == ts[..|ts| - 1] + [ts[|ts| - 1]];
    }
  }

  lemma OneMoreStage(cfg: Config, filters: seq<Stage>, i: nat)
    requires i < |filters|
    ensures Filter(t => Keeps(cfg, filters[i], t), Filter(KeepsAll(cfg, filters[..i]), AllTools(cfg)))
         == Filter(KeepsAll(cfg, filters[..i + 1]), AllTools(cfg))
  {
    assert forall s :: s in filters[..i + 1] <==> s in filters[..i] || s == filters[i];
    FilterTwice(KeepsAll(cfg, filters[..i]), t => Keeps(cfg, filters[i], t), KeepsAll(cfg, filters[..i + 1]), AllTools(cfg));
  }

  // Which filters are in force.
  ghost predicate InForce(cfg: Config, caps: Capabilities, filters: seq<Stage>) {
    && (BySelection in filters <==> cfg.names != [] || cfg.categories != [])
    && (WriteTools in filters <==> cfg.readOnly)
    && (GdsTools in filters <==> !caps.gds)
    && (SearchTools in filters <==> !caps.search)
    && (Cypher25Tools in filters <==> !caps.cypher25)
  }

  // Together the filters in force keep what the offline check calls registrable.
  lemma StagesAgree(cfg: Config, caps: Capabilities, filters: seq<Stage>)
    requires InForce(cfg, caps, filters)
    ensures Filter(KeepsAll(cfg, filters), AllTools(cfg)) == Enabled(cfg, caps)
  {
    forall t | t in AllTools(cfg) ensures KeepsAll(cfg, filters)(t) == Registrable(cfg, caps, t) {
    }
    FilterAgrees(KeepsAll(cfg, filters), t => Registrable(cfg, caps, t), AllTools(cfg));
  }

  method FiltersInForce(cfg: Config, caps: Capabilities) returns (filters: seq<Stage>)
    ensures InForce(cfg, caps, filters)
  {
    filters := [];
    if |cfg.names| > 0 || |cfg.categories| > 0 {
      filters := filters + [BySelection];
    }
    if cfg.readOnly {
      filters := filters + [WriteTools];
    }
    if !caps.gds {
      filters := filters + [GdsTools];
    }
    if !caps.search {
      filters := filters + [SearchTools];
    }
    if !caps.cypher25 {
      filters := filters + [Cypher25Tools];
    }
  }

  // The pipeline: gather the filters in force, then run them one after the other.
  method GetEnabledTools(cfg: Config, caps: Capabilities) returns (enabled: seq<Tool>)
    ensures enabled == Enabled(cfg, caps)
    ensures forall t :: t in enabled <==> (t in cfg.builtin || t in cfg.custom) && Offered(cfg, caps, t)
  {
    hide Filter, Enabled, AllTools, InForce, Offered;
    var filters := FiltersInForce(cfg, caps);
    enabled := AllTools(cfg);
    FilterAll(KeepsAll(cfg, filters[..0]), enabled);
    for i := 0 to |filters|
      invariant enabled == Filter(KeepsAll(cfg, filters[..i]), AllTools(cfg))
    {
      enabled := Apply(cfg, filters[i], enabled);
      OneMoreStage(cfg, filters, i);
    }
    assert filters[..|filters|] == filters;
    StagesAgree(cfg, caps, filters);
    OfferedIff(cfg, caps);
  }

  // ---------------------------------------------------------------- capabilities only add tools

  predicate AtMost(c: Capabilities, d: Capabilities) {
    (c.gds ==> d.gds) && (c.search ==> d.search) && (c.cypher25 ==> d.cypher25)
  }

  lemma EnabledIsMonotone(cfg: Config, c: Capabilities, d: Capabilities)
    requires AtMost(c, d)
    ensures forall t :: t in Enabled(cfg, c) ==> t in Enabled(cfg, d)
    ensures Enabled(cfg, c) == Filter(t => Registrable(cfg, c, t), Enabled(cfg, d))
  {
    var p, q := (t: Tool) => Registrable(cfg, d, t), (t: Tool) => Registrable(cfg, c, t);
    FilterTwice(p, q, q, AllTools(cfg));
    EnabledIff(cfg, c);
    EnabledIff(cfg, d);
  }

  // ---------------------------------------------------------------- the registry

  function AddAll(tools: map<string, Tool>, defs: seq<Tool>): map<string, Tool> {
    if defs == [] then tools else AddAll(tools, defs[..|defs| - 1])[defs[|defs| - 1].name := defs[|defs| - 1]]
  }

  // The last definition of a name wins.
  function LastNamed(defs: seq<Tool>, name: string): Option<Tool> {
    if defs == [] then None
    else if defs[|defs| - 1].name == name then Some(defs[|defs| - 1])
    else LastNamed(defs[..|defs| - 1], name)
  }

  lemma {:induction false} LastNamedIff(defs: seq<Tool>, name: string)
    ensures LastNamed(defs, name).Some? <==> exists t :: t in defs && t.name == name
    ensures LastNamed(defs, name).Some? ==> LastNamed(defs, name).value in defs && LastNamed(defs, name).value.name == name
  {
    if defs != [] {
      LastNamedIff(defs[..|defs| - 1], name);
    }
  }

  lemma {:induction false} AddAllLooksUp(tools: map<string, Tool>, defs: seq<Tool>, name: string)
    ensures name in AddAll(tools, defs) <==> name in tools || LastNamed(defs, name).Some?
    ensures name in AddAll(tools, defs) ==>
      AddAll(tools, defs)[name] == if LastNamed(defs, name).Some? then LastNamed(defs, name).value else tools[name]
  {
    if defs != [] {
      AddAllLooksUp(tools, defs[..|defs| - 1], name);
    }
  }

  // Every tool is filed under its own name.
  predicate Keyed(tools: map<string, Tool>) {
    forall n :: n in tools ==> tools[n].name == n
  }

  lemma {:induction false} AddAllKeyed(tools: map<string, Tool>, defs: seq<Tool>)
    requires Keyed(tools)
    ensures Keyed(AddAll(tools, defs))
  {
    if defs != [] {
      AddAllKeyed(tools, defs[..|defs| - 1]);
    }
  }

  predicate NamesWithin(tools: map<string, Tool>, defs: seq<Tool>) {
    forall n :: n in tools ==> exists t :: t in defs && t.name == n
  }

  // Adding a batch to what is there leaves exactly the batch if and only if
  // every name already there is in the batch.
  lemma AddAllIsExactIff(tools: map<string, Tool>, defs: seq<Tool>)
    ensures AddAll(tools, defs) == AddAll(map[], defs) <==> NamesWithin(tools, defs)
  {
    forall n ensures n in AddAll(tools, defs) <==> n in tools || LastNamed(defs, n).Some?
             ensures n in AddAll(map[], defs) <==> LastNamed(defs, n).Some?
             ensures LastNamed(defs, n).Some? ==> n in AddAll(tools, defs) && n in AddAll(map[], defs)
                                                  && AddAll(tools, defs)[n] == AddAll(map[], defs)[n]
             ensures LastNamed(defs, n).Some? <==> exists t :: t in defs && t.name == n {
      AddAllLooksUp(tools, defs, n);
      AddAllLooksUp(map[], defs, n);
      LastNamedIff(defs, n);
    }
  }

  // What a server serves once the tools for `caps` are added to an empty registry.
  function Served(cfg: Config, caps: Capabilities): map<string, Tool> {
    AddAll(map[], Enabled(cfg, caps))
  }

  lemma {:induction false} AddAllNames(defs: seq<Tool>)
    ensures NamesWithin(AddAll(map[], defs), defs)
  {
    forall n | n in AddAll(map[], defs) ensures exists t :: t in defs && t.name == n {
      AddAllLooksUp(map[], defs, n);
      LastNamedIff(defs, n);
    }
  }

  // Registering again after capabilities are found leaves no tool behind and
  // drops none, whether or not tools share names.
  lemma ReregisteringIsExact(cfg: Config, c: Capabilities, d: Capabilities)
    requires AtMost(c, d)
    ensures AddAll(Served(cfg, c), Enabled(cfg, d)) == Served(cfg, d)
  {
    EnabledIsMonotone(cfg, c, d);
    AddAllNames(Enabled(cfg, c));
    AddAllIsExactIff(Served(cfg, c), Enabled(cfg, d));
  }

  // A name is served exactly when the offline check finds a tool of that name
  // selected, not removed by read-only mode and with no reason against it.
  lemma ServedIff(cfg: Config, caps: Capabilities, name: string)
    ensures name in Served(cfg, caps) <==> exists t :: t in AllTools(cfg) && t.name == name && Registrable(cfg, caps, t)
    ensures name in Served(cfg, caps) ==>
      Served(cfg, caps)[name] in AllTools(cfg) && Served(cfg, caps)[name].name == name && Registrable(cfg, caps, Served(cfg, caps)[name])
  {
    EnabledIff(cfg, caps);
    AddAllLooksUp(map[], Enabled(cfg, caps), name);
    LastNamedIff(Enabled(cfg, caps), name);
  }

  // The server's tool bookkeeping.
  class Server {
    var tools: map<string, Tool>

    constructor ()
      ensures tools == map[]
    {
      tools := map[];
    }

    method AddTool(t: Tool)
      modifies this
      ensures tools == old(tools)[t.name := t]
    {
      tools := tools[t.name := t];
    }

    method AddTools(defs: seq<Tool>)
      modifies this
      ensures tools == AddAll(old(tools), defs)
    {
      for i := 0 to |defs|
        invariant tools == AddAll(old(tools), defs[..i])
      {
        assert defs[..i + 1][..i] == defs[..i];
        AddTool(defs[i]);
      }
      assert defs[..|defs|] == defs;
    }

    // Registration at start and again whenever capabilities are found.
    method Register(cfg: Config, caps: Capabilities)
      modifies this
      ensures tools == AddAll(old(tools), Enabled(cfg, caps))
      ensures forall c :: AtMost(c, caps) && old(tools) == Served(cfg, c) ==> tools == Served(cfg, caps)
    {
      var enabled := GetEnabledTools(cfg, caps);
      AddTools(enabled);
      forall c | AtMost(c, caps) && old(tools) == Served(cfg, c) ensures tools == Served(cfg, caps) {
        ReregisteringIsExact(cfg, c, caps);
      }
    }
  }

  // ---------------------------------------------------------------- custom tools against built-in ones

  predicate CustomToolsOk(cfg: Config) {
    forall t :: t in cfg.custom ==> t.category !in BuiltinCategories() && forall b :: b in cfg.builtin ==> b.name != t.name
  }

  method ValidateCustomTools(cfg: Config) returns (ok: bool)
    ensures ok <==> CustomToolsOk(cfg)
  {
    var builtinNames: set<string> := {};
    for i := 0 to |cfg.builtin|
      invariant forall n :: n in builtinNames <==> exists j :: 0 <= j < i && cfg.builtin[j].name == n
    {
      builtinNames := builtinNames + {cfg.builtin[i].name};
    }
    for i := 0 to |cfg.custom|
      invariant forall j :: 0 <= j < i ==> cfg.custom[j].category !in BuiltinCategories() && cfg.custom[j].name !in builtinNames
    {
      var t := cfg.custom[i];
      if t.name in builtinNames {
        return false;
      }
      if t.category in BuiltinCategories() {
        return false;
      }
    }
    ok := true;
  }

  // A valid custom tool is never gated by a capability and never replaces a
  // built-in tool.
  lemma CustomToolsStandApart(cfg: Config, caps: Capabilities, t: Tool)
    requires CustomToolsOk(cfg) && t in cfg.custom
    ensures Registrable(cfg, caps, t) <==> Registrable(cfg, NONE, t)
    ensures forall b :: b in Enabled(cfg, caps) && b.name == t.name ==> b in cfg.custom
  {
    EnabledIff(cfg, caps);
    var builtin := BuiltinCategories();
    assert builtin[1] == GDS && builtin[3] == SEARCH && builtin[4] == GRAPH && builtin[5] == TRAVERSAL && builtin[6] == PATTERNS;
    assert t.category != GDS && t.category != SEARCH && t.category != GRAPH && t.category != TRAVERSAL && t.category != PATTERNS;
  }

  // ---------------------------------------------------------------- the offline check

  datatype Issue =
    | CustomClash
    | UnknownTool(name: string)
    | UnknownCategory(category: string)
    | RemovedByReadOnly(name: string)
    | WillNotRegister(name: string, reason: Unavailable)
    | NoToolsEnabled

  predicate Reported(cfg: Config, t: Tool) {
    Selected(cfg, t) && cfg.readOnly && !t.readonly && (t.name in cfg.names || exists c :: c in cfg.custom && c.name == t.name)
  }

  // The issues a single tool gives rise to.
  function ToolIssues(cfg: Config, caps: Option<Capabilities>, t: Tool): seq<Issue> {
    if !Selected(cfg, t) then []
    else if cfg.readOnly && !t.readonly then (if Reported(cfg, t) then [RemovedByReadOnly(t.name)] else [])
    else match caps
      case None => []
      case Some(c) =>
        match UnavailableReason(t.category, c)
        case None => []
        case Some(reason) => [WillNotRegister(t.name, reason)]
  }

  method CustomToolNamed(cfg: Config, name: string) returns (found: bool)
    ensures found <==> exists c :: c in cfg.custom && c.name == name
  {
    for i := 0 to |cfg.custom|
      invariant forall j :: 0 <= j < i ==> cfg.custom[j].name != name
    {
      if cfg.custom[i].name == name {
        return true;
      }
    }
    found := false;
  }

  // The unknown names and categories of the selection.
  method SelectionIssues(cfg: Config) returns (issues: seq<Issue>)
    ensures forall x :: x in issues <==>
      || (x.UnknownTool? && x.name in cfg.names && forall t :: t in AllTools(cfg) ==> t.name != x.name)
      || (x.UnknownCategory? && x.category in cfg.categories && forall t :: t in AllTools(cfg) ==> t.category != x.category)
  {
    var defs := AllTools(cfg);
    var byName: set<string>, categories: set<string> := {}, {};
    for i := 0 to |defs|
      invariant forall n :: n in byName <==> exists j :: 0 <= j < i && defs[j].name == n
      invariant forall c :: c in categories <==> exists j :: 0 <= j < i && defs[j].category == c
    {
      byName := byName + {defs[i].name};
      categories := categories + {defs[i].category};
    }
    issues := [];
    for i := 0 to |cfg.names|
      invariant forall x :: x in issues <==> x.UnknownTool? && x.name in cfg.names[..i] && x.name !in byName
    {
      if cfg.names[i] !in byName {
        issues := issues + [UnknownTool(cfg.names[i])];
      }
    }
    for i := 0 to |cfg.categories|
      invariant forall x :: x in issues <==>
        || (x.UnknownTool? && x.name in cfg.names && x.name !in byName)
        || (x.UnknownCategory? && x.category in cfg.categories[..i] && x.category !in categories)
    {
      if cfg.categories[i] !in categories {
        issues := issues + [UnknownCategory(cfg.categories[i])];
      }
    }
  }

  method ToolsIssues(cfg: Config, caps: Option<Capabilities>) returns (issues: seq<Issue>)
    ensures forall x :: x in issues <==> exists t :: t in AllTools(cfg) && x in ToolIssues(cfg, caps, t)
  {
    var defs := AllTools(cfg);
    issues := [];
    for i := 0 to |defs|
      invariant forall x :: x in issues <==> exists j :: 0 <= j < i && x in ToolIssues(cfg, caps, defs[j])
    {
      var d := defs[i];
      ghost var before := issues;
      var custom := CustomToolNamed(cfg, d.name);
      if Selected(cfg, d) {
        if cfg.readOnly && !d.readonly {
          if custom || d.name in cfg.names {
            issues := issues + [RemovedByReadOnly(d.name)];
          }
        } else if caps.Some? {
          var reason := UnavailableReason(d.category, caps.value);
          if reason.Some? {
            issues := issues + [WillNotRegister(d.name, reason.value)];
          }
        }
      }
      assert issues == before + ToolIssues(cfg, caps, d);
    }
  }

  method AnyRegistered(cfg: Config) returns (registered: nat)
    ensures registered == 0 <==> Enabled(cfg, ALL) == []
  {
    var defs := AllTools(cfg);
    registered := 0;
    for i := 0 to |defs|
      invariant registered == 0 <==> forall j :: 0 <= j < i ==> !Registrable(cfg, ALL, defs[j])
    {
      if Selected(cfg, defs[i]) && !(cfg.readOnly && !defs[i].readonly) {
        registered := registered + 1;
      }
    }
    EnabledIff(cfg, ALL);
    if Enabled(cfg, ALL) != [] {
      assert Enabled(cfg, ALL)[0] in Enabled(cfg, ALL);
    }
    if registered != 0 {
      var j :| 0 <= j < |defs| && Registrable(cfg, ALL, defs[j]);
      assert defs[j] in Enabled(cfg, ALL);
    }
  }

  // The check: an error stops the server; the rest are warnings.
  method CheckToolConfig(cfg: Config, caps: Option<Capabilities>) returns (issues: seq<Issue>)
    ensures CustomClash in issues <==> !CustomToolsOk(cfg)
    ensures NoToolsEnabled in issues <==> Enabled(cfg, ALL) == []
    ensures forall n, why :: WillNotRegister(n, why) in issues <==>
      caps.Some? && exists t :: t in AllTools(cfg) && t.name == n && t in Enabled(cfg, ALL) && t !in Enabled(cfg, caps.value)
                                && UnavailableReason(t.category, caps.value) == Some(why)
    ensures forall n :: RemovedByReadOnly(n) in issues <==> exists t :: t in AllTools(cfg) && t.name == n && Reported(cfg, t)
    ensures forall n :: UnknownTool(n) in issues <==> n in cfg.names && forall t :: t in AllTools(cfg) ==> t.name != n
    ensures forall c :: UnknownCategory(c) in issues <==> c in cfg.categories && forall t :: t in AllTools(cfg) ==> t.category != c
  {
    var ok := ValidateCustomTools(cfg);
    var selection := SelectionIssues(cfg);
    var perTool := ToolsIssues(cfg, caps);
    var registered := AnyRegistered(cfg);
    issues := (if ok then [] else [CustomClash]) + selection + perTool + if registered == 0 then [NoToolsEnabled] else [];
    forall n, why ensures WillNotRegister(n, why) in perTool <==>
      caps.Some? && exists t :: t in AllTools(cfg) && t.name == n && t in Enabled(cfg, ALL) && t !in Enabled(cfg, caps.value)
                                && UnavailableReason(t.category, caps.value) == Some(why) {
      WillNotRegisterIff(cfg, caps, n, why);
    }
    forall n ensures RemovedByReadOnly(n) in perTool <==> exists t :: t in AllTools(cfg) && t.name == n && Reported(cfg, t) {
      RemovedIff(cfg, caps, n);
    }
  }

  lemma WillNotRegisterIff(cfg: Config, caps: Option<Capabilities>, n: string, why: Unavailable)
    ensures (exists t :: t in AllTools(cfg) && WillNotRegister(n, why) in ToolIssues(cfg, caps, t)) <==>
      caps.Some? && exists t :: t in AllTools(cfg) && t.name == n && t in Enabled(cfg, ALL) && t !in Enabled(cfg, caps.value)
                                && UnavailableReason(t.category, caps.value) == Some(why)
  {
    EnabledIff(cfg, ALL);
    if caps.Some? {
      EnabledIff(cfg, caps.value);
    }
  }

  lemma RemovedIff(cfg: Config, caps: Option<Capabilities>, n: string)
    ensures (exists t :: t in AllTools(cfg) && RemovedByReadOnly(n) in ToolIssues(cfg, caps, t)) <==>
      exists t :: t in AllTools(cfg) && t.name == n && Reported(cfg, t)
  {
  }

  // ---------------------------------------------------------------- per-request access

  // A request's own selection; None when its headers name nothing.
  method ToolAccessFilter(cfg: Config, names: seq<string>, categories: seq<string>) returns (allowed: Option<set<string>>)
    ensures allowed == None <==> names == [] && categories == []
    ensures allowed.Some? ==> forall n :: n in allowed.value <==>
      exists t :: t in AllTools(cfg) && t.name == n && (t.name in names || t.category in categories)
  {
    if names == [] && categories == [] {
      return None;
    }
    var defs, found: set<string> := AllTools(cfg), {};
    for i := 0 to |defs|
      invariant forall n :: n in found <==> exists j :: 0 <= j < i && defs[j].name == n && (defs[j].name in names || defs[j].category in categories)
    {
      if defs[i].name in names || defs[i].category in categories {
        found := found + {defs[i].name};
      }
    }
    allowed := Some(found);
  }

  // tools/call: a name the request may not see is refused, as is one not registered.
  function CallTool(tools: map<string, Tool>, allowed: Option<set<string>>, name: string): Option<Tool> {
    if allowed.Some? && name !in allowed.value then None else if name in tools then Some(tools[name]) else None
  }

  // tools/list: drop what the request may not see.
  method ListTools(listed: seq<Tool>, allowed: Option<set<string>>) returns (shown: seq<Tool>)
    ensures shown == Filter((t: Tool) => allowed.Some? ==> t.name in allowed.value, listed)
  {
    var keep := (t: Tool) => allowed.Some? ==> t.name in allowed.value;
    if allowed == None {
      FilterAll(keep, listed);
      return listed;
    }
    shown := [];
    for i := 0 to |listed|
      invariant shown == Filter(keep, listed[..i])
    {
      FilterStep(keep, listed, i);
      if listed[i].name in allowed.value {
        shown := shown + [listed[i]];
      }
    }
    assert listed[..|listed|] == listed;
    FilterAgrees(keep, (t: Tool) => allowed.Some? ==> t.name in allowed.value, listed);
  }

  // A tool can be called exactly when it is listed, and a request only ever sees
  // fewer tools than are registered.
  lemma CallableIffListed(tools: map<string, Tool>, listed: seq<Tool>, allowed: Option<set<string>>, name: string)
    requires Keyed(tools) && forall t :: t in listed <==> t.name in tools && tools[t.name] == t
    ensures var shown := Filter((t: Tool) => allowed.Some? ==> t.name in allowed.value, listed);
      && (CallTool(tools, allowed, name).Some? <==> exists t :: t in shown && t.name == name)
      && (forall t :: t in shown ==> t in listed && CallTool(tools, allowed, t.name) == Some(t))
      && (CallTool(tools, allowed, name).Some? ==> CallTool(tools, None, name) == CallTool(tools, allowed, name))
  {
    FilterMembers((t: Tool) => allowed.Some? ==> t.name in allowed.value, listed);
    if CallTool(tools, allowed, name).Some? {
      assert tools[name] in listed;
    }
  }
}
