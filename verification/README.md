# Verification of the Neo4j MCP server's algorithmic core

The server lets a language model query a Neo4j database through tools. Most of it is I/O, but a handful of
algorithms decide what it lets through: whether a described pattern is connected, what a rewritten schema accepts,
what is code and what is quoted text in Cypher, whether a generated query binds exactly what it mentions, how much of
a result is returned, and which tools exist. This project models those algorithms in Dafny and proves what the
repository's comments, tests and documentation promise of them, on inputs of any size.

Run `dafny verify dfyconfig.toml` from this directory.

## Modules

| module | what it models |
|---|---|
| `PatternConnectivity` | the union-find with path halving that decides whether a pattern is connected, on a live array |
| `JsonSchema` | the JSON Schema keywords the rewrite passes through (JSON Schema Validation 2020-12 sections 6.1.1 and 6.4, JSON Schema Core 2020-12 sections 8.2.3, 10 and 11), and what the nullable-type rewrite does to their meaning |
| `SchemaWalk` | the walk that rewrites live, shared and possibly cyclic schema objects in place |
| `CypherText` | the lexical form of Cypher as a per-rune state machine, and the scanner that blanks what is not code |
| `CypherStrip` | the second scanner, which strips leading whitespace and comments, and when the two agree |
| `Keywords` | the first word of a query, by which PROFILE and EXPLAIN are recognised, against the first word of its code |
| `Quoting` | the printers of identifiers, literals and label lists |
| `Decimal`, `Runes`, `Values`, `Wrappers` | decimal numerals; whitespace and upper case; parameter values; optional values |
| `QueryText` | generated Cypher as tokens, what the lexer sees of it, and the builder that allocates parameters |
| `QueryReading`, `GuardReading`, `ResultReading` | readers of finished queries: what a match asks for and what a mutation does to an entity; what the text around a write decides; what is handed back |
| `GraphConditions` | filters, exact matches and ids rendered as conditions |
| `GraphTools`, `CreateRelationship` | the guarded update, delete and create builders |
| `PatternTools`, `MatchPattern` | the chain and match-pattern builders |
| `Streaming` | the two loops that cap a streamed result |
| `ToolPipeline` | the tool filters, the replace-by-name registry, the offline configuration check and the access filter |
| `FirstRequest` | first-request verification as an interleaved transition system |
| `CustomTools` | validation of operator-defined tools against the binding of their arguments |
| `ExplainScrubber`, `ExplainReports` | the rewriting of error messages about a query the server wrapped in EXPLAIN, and what it makes of a report |
| `Duration` | the ISO 8601 duration printer and a reader for it |
| `Motif` | the list predicates of the cycle and triangle motifs |

Generated Cypher is modelled as a list of tokens: fixed text, quoted names and literals, and parameter references.
`QueryText.RenderedCode` and `QueryText.RenderedRefs` connect tokens to the text: whatever callers put into names, the
lexer of `CypherText` sees only the fixed text and the references of the rendered string. `Closed` then says of a
finished query that its code refers to exactly the parameters it binds, that these are the expected values in order as
p0, p1, ..., and that caller text occurs in it only as quoted names.

What a query says is read back from its tokens by readers that know nothing of the builders and spell out the fixed
text they look for. A match is read as a pattern and a list of conditions, each on a variable and with the value bound
to its parameter; a mutation as a list of actions, which are then applied to any entity; the text around a write as
tests and choices, which are evaluated for any number of matched entities. Every builder's contract says what its query
reads as, in terms of the input alone.

## Where the code and its promises part

- The rewrite of nullable types assigns `AnyOf` outright, so a node that already had one loses it, and a type that is
  the empty string becomes a branch without a type, which accepts everything. What the rewritten schema means is stated
  for every graph (`JsonSchema.RewriteMeansErased`). It is the original meaning when no split node had an `AnyOf` or
  listed the empty string; `JsonSchema.OverwritingChangesMeaning` and `JsonSchema.EmptyNameKeepsMeaningIff` show that
  both guards are needed.
- The stripping scanner takes `/*/` for a closed comment. The scanners walk in step if and only if no skipped comment
  is `/*/` with text after it (`CypherStrip.InStepIff`), and walking in step is enough for them to agree. It is not
  needed: they can also agree by chance (`CypherStrip.AgreementByChance`).
- `create-relationship` with `allowDuplicate` binds the properties twice and refers to the second copy only. The query
  is parameter-closed if and only if `allowDuplicate` is off (`CreateRelationship.ClosedIffNoDuplicate`).
- The exists mode of `match-pattern` indents the whole match, quoted names included. It asks about the names the other
  modes ask about if and only if the caller put a newline in none of them (`MatchPattern.ExistsKeepsNamesIff`,
  with an accepted input that is asked about wrongly in `MatchPattern.ExistsAsksForAnotherLabel`).
- The variables of `match-pattern` are different if and only if no alias is one of the names r0, r1, ... that the
  builder makes up for the relationships, and it accepts patterns where one is (`MatchPattern.VariablesDifferIff`,
  `MatchPattern.VariablesMayClash`).
- When the row cap stops a stream with the byte cap on, the reported byte count includes the row left out. It is the
  size of the returned rows unless the stream has more rows than the row cap, all of them up to the first one too many
  fit the byte cap, and that row has a known, non-zero size (`Streaming.ByteCountIsReturnedIff`, exactly).
- A comment calls a custom-tool parameter with a default always satisfiable. Validation lets a default lie outside the
  enum. A call that leaves out a parameter, whatever else it gives, has that parameter bound if and only if its default
  is listed in its enum or, without a default, it is not required (`CustomTools.BindsWhenOmittedIff`).
- The pre-flight check for PROFILE and EXPLAIN takes the first word up to whitespace. As long as no skipped comment is
  `/*/` with text after it, it never finds a verb the code does not begin with, and misses one if and only if the word
  runs into a quote or a comment (`Keywords.VerbFoundIff`; `Keywords.VerbBeforeComment` is missed). With such a comment
  it can both miss a verb and find one in the comment (`Keywords.VerbBehindShortComment`, `Keywords.VerbInShortComment`).
- A duration whose seconds within the minute are negative prints the sign over the fraction too. The time reads back
  exactly if and only if there is no fraction or those seconds are not negative (`Duration.RoundTripIff`).
- The EXPLAIN scrubber also shifts numbers inside the query it echoes, and in a message that holds its marker it moves
  every column back by the length of the prefix, which is on the first line only. A report reads as if the query had
  been sent directly if and only if the error is on the first line, and that line holds neither the marker nor, behind
  "column " or "offset: ", a number other than 0 that can be read (`ExplainReports.ReadsAsSentDirectlyIff`). The position
  alone is right if and only if the error is on the first line (`ExplainReports.PositionRightIff`). This holds whether
  the driver echoes the first line or the error's own, and wherever it draws the caret: the comment at
  `internal/database/explain_sanitize.go:87-90` has it at the column, the report recorded in the tests one place before.
- An anchored cycle is reported once for each of its nodes that the start matches, not once
  (`Motif.AnchoredReportedPerStart`).

## Model

| member | source | states |
|---|---|---|
| PatternConnectivity.RootIgnoresRank | internal/tools/patterns/match_pattern.go:189-195 | of two termination measures for find on one parent array both give the same root; that each array the check goes through has one is part of Union and CheckConnected |
| PatternConnectivity.HalvingKeepsRoots | internal/tools/patterns/match_pattern.go:191 | path halving keeps the forest, its measure and the root of every element |
| PatternConnectivity.Find | internal/tools/patterns/match_pattern.go:189-195 | find terminates on the live array, returns the root, and changes no element's root |
| PatternConnectivity.LinkMergesRoots | internal/tools/patterns/match_pattern.go:214 | hanging one root under another merges exactly those two trees |
| PatternConnectivity.PathKeepsRoot | internal/tools/patterns/match_pattern.go:204-215 | a path of relationships never leaves a union of trees that every relationship stays inside |
| PatternConnectivity.UnionStep | internal/tools/patterns/match_pattern.go:204-215 | merging the trees of a relationship's ends keeps "same root if and only if joined" for the relationships so far plus that one |
| PatternConnectivity.Union | internal/tools/patterns/match_pattern.go:214 | `parent[find(from)] = find(to)` does that on the live array, also when both ends already share a root |
| PatternConnectivity.CheckConnected | internal/tools/patterns/match_pattern.go:184-223 | no error if and only if every end is a defined alias and every node is joined to node 0; otherwise the first bad relationship, or the first unreachable node |
| PatternConnectivity.FirstDisconnected | internal/tools/patterns/match_pattern.go:216-222 | the closing scan, which itself halves paths, finds the first node not joined to node 0 |
| PatternConnectivity.CheckSpecIsFunctional | internal/tools/patterns/match_pattern.go:184-223 | that specification leaves one answer |
| PatternConnectivity.EveryNodeHasRel | internal/tools/patterns/match_pattern.go:181-183 | in a connected pattern with a relationship every node is at the end of one |
| PatternConnectivity.BuildAliases | internal/tools/patterns/match_pattern.go:84-93 | the table exists if and only if no alias is blank or repeated, and maps each alias to its own index and nothing else |
| JsonSchema.SettledIsStable | internal/mcpsdk/tool.go:91-116 | evaluating a schema deeper never changes a verdict once reached, on cyclic graphs too |
| JsonSchema.BranchesSayTypes | internal/mcpsdk/tool.go:91-116 | one of the generated anyOf branches accepts an instance if and only if one of the listed types did, or one is the empty string; they evaluate no property and no item |
| JsonSchema.RewriteMeansErased | internal/mcpsdk/tool.go:91-116 | for every closed graph and instance, the rewritten schema means what the original means with the anyOf of split nodes erased, and with their types erased too where one is the empty string; `$ref` and the unevaluated keywords included |
| JsonSchema.RewritePreservesMeaning | internal/mcpsdk/tool.go:85-116 | the rewrite accepts exactly the same instances when no split node had an anyOf or listed the empty string |
| JsonSchema.OverwritingChangesMeaning | internal/mcpsdk/tool.go:115 | a bare nullable node with an anyOf of another type rejected null before and accepts it after |
| JsonSchema.OverwritingExample | internal/mcpsdk/tool.go:115 | a concrete such schema |
| JsonSchema.EmptyNameKeepsMeaningIff | internal/mcpsdk/tool.go:109-113 | a bare node without an anyOf keeps its meaning on an instance if and only if it does not list the empty string, or rejects the instance for another reason, or one of its types matches |
| JsonSchema.EmptyNameExample | internal/mcpsdk/tool.go:109-113 | a concrete schema that accepts more once split |
| SchemaWalk.SplitNullableTypes | internal/mcpsdk/tool.go:91-116 | splits a live schema exactly when its types hold null and another type, into fresh single-type leaves in order, and otherwise leaves it alone |
| SchemaWalk.Visit | internal/mcpsdk/tool.go:125-129 | one visit changes its own node and adds fresh leaves, and keeps everything seen before |
| SchemaWalk.Walk | internal/mcpsdk/tool.go:124-181 | a walk visits each new node once, sees all they point to, and sees nothing else |
| SchemaWalk.WalkAll | internal/mcpsdk/tool.go:130-180 | the same for the lists and maps of subschemas |
| SchemaWalk.WalksCompose | internal/mcpsdk/tool.go:130-180 | walking one more child keeps that account |
| SchemaWalk.WalkIsExact | internal/mcpsdk/tool.go:124-181 | the nodes seen are exactly those reachable in the rewritten graph, and none of them is left nullable with another type |
| SchemaWalk.SplitNullableTypesEverywhere | internal/mcpsdk/tool.go:85-87 | on shared and cyclic live graphs: terminates, visits each reachable schema once, leaves no nullable multi-type, and preserves meaning |
| CypherText.LexAt | internal/config/custom_tools.go:246-250 | each rune of the lexed text is the source's exactly when the lexer is in code there |
| CypherText.LexIdempotent | internal/config/custom_tools.go:251-278 | blanking twice equals blanking once |
| CypherText.QuotedForms | internal/config/custom_tools.go:280-294 | a string in single or double quotes, in which a backslash takes the next rune along, and a name in backticks are blank, and the text behind is read as if alone |
| CypherText.LineForm | internal/config/custom_tools.go:261-264 | a line comment is blank up to its newline, which is code |
| CypherText.BlockForm | internal/config/custom_tools.go:265-270 | a block comment is blank up to the first closing bracket |
| CypherText.SkipQuoted | internal/config/custom_tools.go:283-294 | the run skipped is blank to the lexer, whether or not it is terminated, and never reads out of range |
| CypherText.CypherCode | internal/config/custom_tools.go:251-278 | the index loops compute the per-rune lexer on every input |
| CypherText.DoublingIsInvisible | internal/config/custom_tools.go:280-294 | closing and reopening at a doubled quote blanks the same runes as treating it as an escape |
| CypherText.RefsAreNames | internal/config/custom_tools.go:72 | every reference found is a valid parameter name |
| CypherText.RefsFind | internal/config/custom_tools.go:72 | a reference that nothing extends is found whole, and the search goes on after it |
| CypherStrip.StripLeadingWhitespaceAndComments | internal/database/service.go:366-387 | the loop computes the turn-by-turn stripping on every input; the text returned is empty, or begins with no whitespace and no line comment, and with a block comment only if that never closes |
| CypherStrip.StrippedIsBare | internal/database/service.go:366-387 | stripping removes whitespace, line comments and closed block comments in front until none is left |
| CypherStrip.AllStrippedIff | internal/database/service.go:366-387 | where no skipped comment is `/*/` with text after it, nothing is left if and only if the query is whitespace and closed comments throughout, or ends in that comment |
| CypherStrip.StripIsSuffix | internal/database/service.go:366-387 | the stripped text is a suffix of the query |
| CypherStrip.StripIdempotent | internal/database/service.go:366-387 | stripping twice equals stripping once |
| CypherStrip.InStepIff | internal/database/service.go:370 | the scanners walk in step if and only if no skipped block comment is `/*/` with text after it |
| CypherStrip.ScannersAgree | internal/database/service.go:366-387 | under that condition the removed prefix is whitespace to the lexer and the rest lexes as the stripped text does |
| CypherStrip.ShortCommentDisagrees | internal/database/service.go:370 | `/*/a` tells them apart |
| CypherStrip.AgreementByChance | internal/database/service.go:366-387 | the condition is not needed for agreement: `/*/ /**/a` |
| Keywords.FirstKeyword | internal/database/service.go:350-357 | the first word, up to whitespace, of the stripped query, in upper case |
| Keywords.LexIsUnbroken | internal/config/custom_tools.go:251-278 | no quote and no comment begins anywhere in lexed text |
| Keywords.FirstWordIsCodeIff | internal/database/service.go:350-357 | where no skipped comment is `/*/` with text after it, the keyword is that of the query's code if and only if no quote and no comment begins in the first word |
| Keywords.VerbFoundIff | internal/tools/cypher/explain_cypher_handler.go:45-60 | there, a verb is found if and only if the code begins with it and the first word does not run into a quote or a comment; so never where the code has none |
| Keywords.VerbBeforeComment | internal/database/service.go:350-357 | `PROFILE/**/MATCH` is not taken for PROFILE |
| Keywords.VerbBehindShortComment | internal/database/service.go:366-387 | neither is `/*/ */PROFILE` |
| Keywords.VerbInShortComment | internal/database/service.go:366-387 | but `/*/PROFILE */MATCH` is |
| Quoting.IdentifierIsOpaque | internal/tools/graphutil/builder.go:41-43 | for any name and following text, a quoted identifier lexes as blanks and the following text as if alone |
| Quoting.LiteralIsOpaque | internal/tools/search/search_helpers.go:163-167 | the same for string literals |
| Quoting.TwoPassesEscape | internal/tools/search/search_helpers.go:163-167 | the two replacement passes escape rune by rune |
| Quoting.IdentifierRoundTrip | internal/tools/graphutil/builder.go:41-43 | reading a quoted identifier gives back the name and the following text |
| Quoting.LiteralRoundTrip | internal/tools/search/search_helpers.go:163-167 | reading a string literal gives back the text |
| Quoting.JoinQuoted | internal/tools/graphutil/builder.go:63-75 | fails exactly on a blank name and otherwise joins the quoted names |
| Quoting.JoinedRoundTrip | internal/tools/graphutil/builder.go:47-75 | a label or type list is parsed back from its joined expression, whatever the names hold |
| QueryText.RenderedCode | internal/tools/graphutil/builder.go:28-43 | nothing quoted reaches the code of a rendered query |
| QueryText.RenderedRefs | internal/tools/graphutil/builder.go:28-33 | the references in its code are its parameter tokens, in order |
| QueryText.BoundValues | internal/tools/graphutil/builder.go:28-33 | p0 to p(n-1) are distinct names bound to the n values in order |
| QueryText.ClosedWhenParamsMatch | internal/tools/graphutil/builder.go:28-37 | a query whose tokens are p0 to p(n-1) refers to exactly what it binds |
| QueryText.BoundWhenParamsWithin | internal/tools/graphutil/builder.go:28-37 | with fewer tokens every reference is bound, and a parameter without a token is not referenced |
| QueryText.Builder.Param | internal/tools/graphutil/builder.go:29-33 | names the next parameter after the number bound, never reusing a name |
| GraphConditions.LabelTokensRender | internal/tools/graphutil/builder.go:47-55 | the tokens of a label list render as the label printer's text |
| GraphConditions.PaddingIgnored | internal/tools/graphutil/filters.go:59 | an operator is looked up whatever whitespace surrounds it |
| GraphConditions.OperatorReadsBack | internal/tools/graphutil/filters.go:44-48 | the text rendered for an operator is looked up as that operator |
| GraphConditions.OperatorTrimmed | internal/tools/graphutil/filters.go:59 | the rendered operator is that of the filter, trimmed and upper-cased |
| GraphConditions.FilterConditions | internal/tools/graphutil/filters.go:53-79 | succeeds exactly when every filter has a property, an operator that is in the whitelist once trimmed and upper-cased, and the value it needs; one condition per filter, values bound in order |
| GraphConditions.FilterCondsEmit | internal/tools/graphutil/filters.go:53-79 | those conditions refer to exactly the parameters they bind and quote exactly the filtered properties |
| GraphConditions.MatchConditions | internal/tools/graphutil/filters.go:83-100 | succeeds exactly when no key is blank and no value null; one equality per key, values bound in order |
| GraphConditions.MatchCondsEmit | internal/tools/graphutil/filters.go:83-100 | those conditions refer to exactly the parameters they bind and quote exactly the keys |
| GraphConditions.Conditions | internal/tools/graphutil/noderef.go:32-47 | id, match and filters in that order, failing exactly when one of them does |
| GraphConditions.CriteriaEmit | internal/tools/graphutil/noderef.go:32-47 | the whole of it is closed over its own parameters |
| GraphConditions.CriteriaRead | internal/tools/graphutil/noderef.go:32-47 | read back, the conditions are the id, each match entry and each filter, in order, on the variable given, each with its own value and nothing else |
| GraphTools.NodeMatch | internal/tools/graph/common.go:22-28 | the match of a node reference, failing exactly on a blank label or a bad criterion |
| GraphTools.NodeMatchRead | internal/tools/graph/common.go:22-28 | read back, the match asks for one node with the labels given and its criteria on that variable |
| GraphTools.RelMatch | internal/tools/graph/rel_ref.go:35-70 | the match of a relationship reference: source, target, then its own conditions |
| GraphTools.RelMatchRead | internal/tools/graph/rel_ref.go:35-70 | read back, the arrow leads from src to dst, the criteria of `from` are conditions on src, those of `to` on dst and its own on r, each with its own value |
| GraphTools.RelMatchEmits | internal/tools/graph/rel_ref.go:35-70 | it is closed over its own parameters and quotes only the labels, keys and type given |
| GraphTools.GuardedMutation | internal/tools/graph/common.go:71-80 | binds the limit and the two messages after everything else, around the mutation |
| GraphTools.GuardedEmits | internal/tools/graph/common.go:71-80 | the guarded template refers to what its parts refer to and to its three parameters, and nothing else |
| GraphTools.GuardReadsItsValues | internal/tools/graph/common.go:71-105 | evaluated for any number of matched entities, the guarded text changes all of them if they are no more than the limit and none otherwise, says so in `performed`, and answers with the no-match message, the refusal or null accordingly |
| GraphTools.DryRunEmits | internal/tools/graph/common.go:90-96 | a preview refers to what its match refers to |
| GraphTools.DryRunPreviews | internal/tools/graph/common.go:90-96 | evaluated for any number of matched entities, a preview changes nothing and says whether a call would |
| GraphTools.ResolveMaxAffected | internal/tools/graph/common.go:58-60 | an omitted limit is 1, and only 1 to 1000 are accepted |
| GraphTools.BuildDeleteNode | internal/tools/graph/node_delete.go:47-73 | succeeds exactly for a narrowing, valid selection and limit; closed; read back, it selects the node asked for, does nothing but delete it, with DETACH if and only if asked, and for every number of matches keeps to the limit, 1 if none is given; a preview does nothing |
| GraphTools.DeleteNodeReads | internal/tools/graph/node_delete.go:47-73 | that text, with those bindings, reads so |
| GraphTools.BuildDeleteRel | internal/tools/graph/rel_delete.go:45-66 | the same for relationships, never with DETACH |
| GraphTools.Removals | internal/tools/graph/node_update.go:83-89 | fails exactly on a blank property name |
| GraphTools.NodeMapRead | internal/tools/graphutil/projection.go:14-30 | a node map reads as its id, its labels and all its properties, or exactly those named |
| GraphTools.RelMapRead | internal/tools/graphutil/projection.go:42-45 | a relationship map reads as its id, its type, the nodes it starts and ends at, and its properties |
| GraphTools.UpdateEmits | internal/tools/graph/node_update.go:79-106 | the steps of an update refer to the new properties only and quote exactly the properties and labels given |
| GraphTools.UpdateRead | internal/tools/graph/node_update.go:79-106 | read back, the steps set the new properties, then remove the properties and labels to remove, then set the labels to add |
| GraphTools.UpdateLeaves | internal/tools/graph/node_update.go:79-106 | done in order to any entity, they leave it with the labels (S - removed) + added and the merged properties without the removed ones |
| GraphTools.BuildUpdateNode | internal/tools/graph/node_update.go:55-115 | succeeds exactly when the selection narrows, there is something to do and nothing is blank (names are not looked at in a preview); closed; read back, it selects the node asked for, does that to it within the limit and hands back the changed nodes with their properties; a preview does nothing |
| GraphTools.BuildUpdateRel | internal/tools/graph/rel_update.go:52-96 | the same for relationships |
| CreateRelationship.BuildCreateRelationship | internal/tools/graph/rel_create.go:48-92 | succeeds exactly for valid ends, type and properties; what it binds and what it refers to; read back, it matches src by `from` and dst by `to` and creates, or merges, a relationship of the type from src to dst with the properties |
| CreateRelationship.CreateReads | internal/tools/graph/rel_create.go:64-95 | that text, with those bindings, reads so; evaluated for any numbers of sources and targets, it creates if and only if there is one of each, answers with both counts, and otherwise with the notice |
| CreateRelationship.OnlyFirstCopyUnused | internal/tools/graph/rel_create.go:76-79 | every reference is bound, and the only parameter ever left out is the first copy of the properties |
| CreateRelationship.ClosedIffNoDuplicate | internal/tools/graph/rel_create.go:76-79 | it refers to exactly what it binds if and only if allowDuplicate is off |
| PatternTools.Inline | internal/tools/graphutil/noderef.go:65-78 | a node reference inline, its predicate inside the parentheses |
| PatternTools.InlineEmits | internal/tools/graphutil/noderef.go:65-78 | it is closed over its own parameters |
| PatternTools.PathMapEmits | internal/tools/graphutil/projection.go:54-57 | a path projection refers to no parameter and quotes only the property names given |
| PatternTools.PathMapRead | internal/tools/graphutil/projection.go:33-57 | a path projection reads as the path, its nodes with the properties named, and its relationships with their ends |
| PatternTools.Hop | internal/tools/patterns/chain.go:77-96 | one hop threads the builder and fails exactly on an unsupported direction or a bad node |
| PatternTools.ChainReads | internal/tools/patterns/chain.go:70-101 | read back, the path goes from the start through each step, an arrow head on the side its direction points to, with every node's labels and criteria its own; it returns that path and the limit, 25 if none is given |
| PatternTools.BuildChain | internal/tools/patterns/chain.go:58-101 | succeeds exactly for a narrowing start, 1 to 6 valid steps and a limit of 1 to 200 or none; closed over all steps, and reads so |
| MatchPattern.AllNodeConds | internal/tools/patterns/match_pattern.go:104-118 | the label and property conditions of every node, in order |
| MatchPattern.DistinctConds | internal/tools/patterns/match_pattern.go:119-125 | the nested loops render the pairs of nodes in order |
| MatchPattern.EveryPairDiffers | internal/tools/patterns/match_pattern.go:119-125 | for every two nodes, "they differ" is one of the conditions |
| MatchPattern.MatchReadBack | internal/tools/patterns/match_pattern.go:102-159 | read back, the match asks for each relationship between its own two ends, with a head at `to` unless undirected, and for the conditions of nodes, pairs and relationships in order, each with its own value |
| MatchPattern.DifferAskedIff | internal/tools/patterns/match_pattern.go:119-125 | two nodes are asked to differ if and only if allowSameNode is off |
| MatchPattern.RelPartsAt | internal/tools/patterns/match_pattern.go:128-145 | relationship i stands with its `from` before it and its `to` behind it |
| MatchPattern.AllRels | internal/tools/patterns/match_pattern.go:127-153 | the arrow and conditions of every relationship, in order |
| MatchPattern.IndentTokensRender | internal/tools/patterns/match_pattern.go:176 | indenting the tokens is indenting the text, quoting included |
| MatchPattern.ExistsRenders | internal/tools/patterns/match_pattern.go:175-176 | the exists query is the indented match between its fixed ends |
| MatchPattern.IndentKeepsNameIff | internal/tools/patterns/match_pattern.go:176 | indenting leaves a name as it is if and only if it has no newline |
| MatchPattern.ExistsKeepsNamesIff | internal/tools/patterns/match_pattern.go:175-176 | of an accepted input, every quoted name of the match is the same in the exists query if and only if none of the names the caller gave has a newline |
| MatchPattern.ExistsAsksForAnotherLabel | internal/tools/patterns/match_pattern.go:175-176 | an accepted exists-mode input whose query asks about another label |
| MatchPattern.VariablesDifferIff | internal/tools/patterns/match_pattern.go:128-130 | the variables of an accepted pattern differ if and only if no alias is a made-up relationship variable |
| MatchPattern.VariablesMayClash | internal/tools/patterns/match_pattern.go:128-130 | an accepted pattern whose alias and relationship are one variable |
| MatchPattern.PatternTextWithin | internal/tools/patterns/match_pattern.go:102-178 | in every mode the tokens are p0 to p(n-1) |
| MatchPattern.PatternTextNames | internal/tools/patterns/match_pattern.go:102-178 | in every mode the quoted names are exactly those the caller gave for it, none added and none left out |
| MatchPattern.PatternIsClosed | internal/tools/patterns/match_pattern.go:102-178 | the query refers to exactly what it binds |
| MatchPattern.PatternReads | internal/tools/patterns/match_pattern.go:160-178 | so does the query of every mode, in exists mode once the indentation is undone; rows show every node under its own alias and every relationship, up to the limit, 25 if none is given |
| MatchPattern.CheckInput | internal/tools/patterns/match_pattern.go:78-100 | passes exactly for 1 to 6 nodes, at most 6 relationships, distinct aliases, a connected pattern and a valid limit |
| MatchPattern.BuildMatchPattern | internal/tools/patterns/match_pattern.go:77-179 | succeeds exactly for valid input, with that text, those bindings and exactly those quoted names, closed; and it reads so |
| Streaming.StreamBolt | internal/database/service.go:503-575 | returns the longest prefix the caps allow, flagged truncated exactly when strict, naming the cap the next row breaks |
| Streaming.StreamQueryAPI | internal/queryapi/service.go:150-190 | the same, by a differently written loop |
| Streaming.AnswerIsLongest | internal/database/service.go:503-575 | no longer prefix is within the caps |
| Streaming.AnswerIsUnique | internal/queryapi/service.go:127-138 | the two transports return the same result on every error-free stream |
| Streaming.LooserCapsKeepRows | internal/database/service.go:503-575 | raising or lifting a cap never loses a row |
| Streaming.AllowedBytes | internal/database/service.go:512-530 | the measured rows stay within the byte cap, or within the first row when that alone is over |
| Streaming.FirstRowAlwaysReturned | internal/database/service.go:525-530 | a stream with a row never yields an empty result |
| Streaming.RowCapFiresIff | internal/database/service.go:531-573 | the row cap stops a stream if and only if the stream has more rows than it allows and they fit the byte cap up to the first one too many |
| Streaming.ByteCountIsReturnedIff | internal/database/service.go:547-562 | the reported byte count is that of the returned rows if and only if that is not so or the row left out has no known size above zero |
| Streaming.ByteCountExample | internal/database/service.go:547-562 | two rows of 7 bytes under a cap of one row report 14 bytes for a result of 7 |
| ToolPipeline.Apply | internal/server/tools_register.go:155-210 | each filter loop keeps the tools its rule keeps, in order |
| ToolPipeline.GetEnabledTools | internal/server/tools_register.go:75-117 | the pipeline yields exactly the tools that are selected, not removed by read-only mode and without an offline reason against them, in order; a tool is among them if and only if it is selected, read-only where that is asked, and its category, by name, has the capability it needs |
| ToolPipeline.RegistrableIff | internal/server/tools_register.go:155-210 | which categories need GDS, the search procedures and Cypher 25 to be registered |
| ToolPipeline.EnabledIsMonotone | internal/server/tools_register.go:75-117 | more capabilities never remove a tool |
| ToolPipeline.AddAllIsExactIff | internal/mcpsdk/server.go:58-74 | adding a batch by name leaves exactly the batch if and only if every name already there is in it |
| ToolPipeline.ReregisteringIsExact | internal/server/tools_register.go:70-73 | registering again after capabilities are found leaves no tool behind and drops none, even if tools share names |
| ToolPipeline.ServedIff | internal/server/tools_register.go:602-689 | a name is served if and only if the offline conditions hold of a tool of that name |
| ToolPipeline.Server.AddTools | internal/mcpsdk/server.go:70-74 | the last definition of each name replaces what was there |
| ToolPipeline.Server.Register | internal/server/tools_register.go:70-73 | after any earlier registration with fewer capabilities the registry holds exactly the tools of the new ones |
| ToolPipeline.ValidateCustomTools | internal/server/tools_register.go:237-254 | accepts exactly the custom tools that share no name with a built-in tool and no built-in category |
| ToolPipeline.CustomToolsStandApart | internal/server/tools_register.go:233-236 | an accepted custom tool is not gated by any capability and replaces no built-in tool |
| ToolPipeline.SelectionIssues | internal/server/tools_register.go:610-626 | reports exactly the selected names and categories no tool has |
| ToolPipeline.CheckToolConfig | internal/server/tools_register.go:602-662 | "will not be registered" exactly for tools a fully capable server would enable and this one does not; "no tools enabled" exactly when even a fully capable server would have none |
| ToolPipeline.ToolAccessFilter | internal/server/server.go:393-407 | a request is restricted exactly when it names something, to the tools it names |
| ToolPipeline.ListTools | internal/mcpsdk/hooks.go:84-101 | keeps the visible tools, in order |
| ToolPipeline.CallableIffListed | internal/mcpsdk/hooks.go:68-106 | a tool is callable if and only if it is listed, and a request never sees more than is registered |
| FirstRequest.InvStep | internal/server/server.go:412-443 | every atomic step of every request keeps the invariant on flags, registry, event count and lock |
| FirstRequest.SafeInEveryRun | internal/server/server.go:409-443 | in every interleaving the event is emitted at most once, one request at most is inside, and verified implies flags, tools and event are in place |
| FirstRequest.VerifiedIsFinal | internal/server/server.go:413-426 | once verified no step changes the flags, the registry or the event count |
| FirstRequest.FinalInEveryRun | internal/server/server.go:413-426 | so in every interleaving whatever holds at a verified state holds ever after |
| FirstRequest.FailureChangesNothing | internal/server/server.go:429-433 | a failed check changes nothing shared |
| FirstRequest.FlagsAreOneCheck | internal/server/server.go:434-443 | the step that marks the server verified leaves the flags and tools of the result it holds |
| FirstRequest.VerifiedFlagsWereFound | internal/server/server.go:428-443 | in every run the flags of a verified state are, all three, what one check of that run found, and the tools served are the ones for them |
| FirstRequest.NoDeadlock | internal/server/server.go:418-420 | while a request is unfinished some request can move |
| FirstRequest.CanStillSucceed | internal/server/server.go:429-433 | from every reachable unverified state, whatever failed before, some continuation becomes verified |
| FirstRequest.EveryRunCanSucceed | internal/server/server.go:429-433 | every run that is not yet verified can be carried on to one that is |
| CustomTools.Coerce | internal/config/custom_tools.go:298-330 | what it returns is of the declared type and the same string, boolean or number |
| CustomTools.CoercesIff | internal/config/custom_tools.go:298-330 | a value converts to another if and only if that is of the declared type and the same value, and a float converts to an integer only within 64 bits |
| CustomTools.KebabIff | internal/config/custom_tools.go:69 | tool names are small letters, digits and single inner hyphens, from a letter on |
| CustomTools.ParamProblems | internal/config/custom_tools.go:199-224 | one parameter has exactly these problems, a type that is none hiding the later ones |
| CustomTools.ParamsProblems | internal/config/custom_tools.go:198-224 | no problem if and only if every parameter is well formed and names are distinct; exactly the problems of each parameter |
| CustomTools.ReferenceProblems | internal/config/custom_tools.go:226-242 | exactly the undeclared references, each once, and the unreferenced declarations |
| CustomTools.ValidateCustomTool | internal/config/custom_tools.go:175-244 | no problem if and only if the definition is well formed and its parameters are exactly those the code of the statement refers to; every problem is reported exactly when it is one |
| CustomTools.BindParam | internal/tools/custom/custom.go:83-102 | one argument: default, null, coercion and enum, and which error when it is refused |
| CustomTools.BoundCarries | internal/tools/custom/custom.go:83-102 | that is what binding one parameter does |
| CustomTools.BuildParams | internal/tools/custom/custom.go:70-105 | accepts exactly calls with declared arguments that each bind, and binds every parameter to the argument or default given, as the same string, boolean or number, or to null |
| CustomTools.AcceptedCallIsClosed | internal/tools/custom/custom.go:66-105 | for a validated tool an accepted call binds exactly the references in the code of its statement, each to null or to a value of its type and enum, and required ones never to null |
| CustomTools.BindsWhenOmittedIff | internal/tools/custom/custom.go:33-40 | in every call that gives a validated parameter nothing, or null, it binds if and only if its default is in its enum or, without one, it is not required |
| CustomTools.RefusedWhenOmitted | internal/tools/custom/custom.go:33-40 | a call that leaves out a parameter that does not bind then is refused whatever else it gives |
| CustomTools.CallableWithoutArgumentsIff | internal/tools/custom/custom.go:33-40 | a validated tool can be called without arguments if and only if that holds of every parameter |
| CustomTools.DefaultOutsideEnum | internal/tools/custom/custom.go:33-40 | a validated tool whose optional parameter can never be left out |
| ExplainScrubber.DedentCaretLines | internal/database/explain_sanitize.go:162-179 | the loop over the lines, in place, dedents every caret line and no other |
| ExplainScrubber.SanitizeExplainPrefix | internal/database/explain_sanitize.go:101-114 | the composition of the three rewrites; a message without the marker is returned as it is |
| ExplainScrubber.StripKeepsIff | internal/database/explain_sanitize.go:109 | stripping leaves a text as it is if and only if it has no marker, and otherwise shortens it |
| ExplainScrubber.ShiftMatch | internal/database/explain_sanitize.go:124-144 | a number behind a position word is moved back by 8, not below 0, whatever surrounds it, and what is before and after is rewritten on its own |
| ExplainScrubber.NumeralKeptIff | internal/database/explain_sanitize.go:133-143 | a number is left alone if and only if it is written 0 or does not fit an integer |
| ExplainScrubber.ShiftKeepsIff | internal/database/explain_sanitize.go:124-144 | shifting leaves a text as it is if and only if no occurrence of the word has another number behind it, and otherwise makes it shorter or earlier |
| ExplainScrubber.ColumnBehindPrefix | internal/database/explain_sanitize.go:81-85 | the prefix moves the column of positions on the first line only |
| ExplainReports.DedentCaret | internal/database/explain_sanitize.go:162-179 | a caret line loses 8 leading spaces, or all it has |
| ExplainReports.CaretKeepsPointing | internal/database/explain_sanitize.go:87-90 | on the first line, wherever the driver puts the caret, the rune above it is the same before and after, except at the very left; one place beyond the offset it is the rune at the offset |
| ExplainReports.PositionLineScrubbed | internal/database/explain_sanitize.go:76-85 | the line with the position comes out with its two numbers moved back and nothing else changed |
| ExplainReports.RemainsIff | internal/database/explain_sanitize.go:78-85 | an echoed line comes through the rewrites as it is if and only if it has no marker and no readable number other than 0 behind either word |
| ExplainReports.SanitizedReport | internal/database/explain_sanitize.go:101-114 | what any report on a wrapped query comes out as, whatever its numbers and wherever its caret: position and caret moved back, the echo rewritten on its own |
| ExplainReports.PositionRightIff | internal/database/explain_sanitize.go:81-85 | for every query and every offset, whichever line is echoed and wherever the caret is, the position in the scrubbed report is that of the query sent directly if and only if it is on the query's first line |
| ExplainReports.ReadsAsSentDirectlyIff | internal/database/explain_sanitize.go:92-96 | for every query and every offset, the report on the query behind its prefix comes out as the report of the query itself if and only if the position is on the first line and that line survives |
| ExplainReports.WithoutTheWords | internal/database/explain_sanitize.go:30-43 | wording and queries without a double quote and without the two words qualify |
| ExplainReports.WordsWithoutNumbers | internal/database/explain_sanitize.go:30-43 | so do those without a double quote and without digits, words or not |
| ExplainReports.DriverFormOrdinary | internal/database/explain_sanitize.go:30-34 | so does the driver's layout around any such words, on any line, with either echo |
| ExplainReports.RecordedReport | internal/database/explain_sanitize_test.go:43-50 | the report recorded from the server is one of these, and it goes out as the test has it |
| ExplainReports.EchoedNumberIsShifted | internal/database/explain_sanitize.go:124-144 | a query whose every report is damaged, in every layout |
| ExplainReports.LaterLineIsWrong | internal/database/explain_sanitize.go:81-85 | an error on a second line, in every layout: echoing the first line its column 3 becomes 0, echoing its own line its offset stays 8 too large |
| Duration.FormatDurationISO | internal/database/json_tagged_values.go:196-244 | the builder writes the component texts in order and PT0S for nothing |
| Duration.PartsFit | internal/database/json_tagged_values.go:196-244 | printed months stay below 12 and printed minutes and seconds below 60, with the sign of what they are taken from |
| Duration.FractionRead | internal/database/json_tagged_values.go:227-232 | nine padded digits with trailing zeros trimmed read back as the nanoseconds |
| Duration.TextRead | internal/database/json_tagged_values.go:196-244 | what every printed duration reads back as, negative components included |
| Duration.RoundTripIff | internal/database/json_tagged_values.go:196-244 | months, days and the exact time are recovered if and only if no fraction follows negative seconds |
| Duration.RoundTrip | internal/database/json_tagged_values.go:196-244 | with non-negative seconds all four fields are recovered |
| Duration.NegativeFraction | internal/database/json_tagged_values.go:225-232 | half a second before zero prints as one and a half seconds before it |
| Motif.DistinctMembersIff | internal/tools/patterns/motif.go:149-151 | the members test accepts exactly the walks around cycles without repeats |
| Motif.CycleReportedOnce | internal/tools/patterns/motif.go:149-154 | of the rotations of a cycle of distinct nodes exactly one is accepted, the one from the smallest id |
| Motif.RepeatsNeverReported | internal/tools/patterns/motif.go:149-154 | a closed walk with a repeated inner node is rejected from every start, anchored or not |
| Motif.OneWalkPerCycle | internal/tools/patterns/motif.go:149-150 | two accepted walks around one cycle are the same walk |
| Motif.AnchoredReportedPerStart | internal/tools/patterns/motif.go:151-154 | an anchored cycle is accepted from exactly its nodes that the start matches |
| Motif.TriangleReportedOnce | internal/tools/patterns/motif.go:126-131 | exactly one of the six orderings of a triangle is accepted |
| Motif.TriangleReportedPerStart | internal/tools/patterns/motif.go:126-131 | anchored, exactly one of the two orderings from a matching node is accepted, and none from another |

## Left out

- JsonSchema.RewritePreservesMeaning: takes it that no reference in the graph leads outside it.
- JsonSchema.RewriteMeansErased: a `$ref` or `$dynamicRef` is given as the schema it resolves to, before and after; one that points into an anyOf list by position could resolve elsewhere once the list is replaced. Subschemas that do not matter to a verdict are evaluated too, so a graph that recurs without end only there counts as diverging.
- SchemaWalk.Walk: the fields that hold subschemas are one ordered list, with anyOf visited first, where the code visits 23 fields in a fixed order and map fields in a random one. No result depends on the order.
- Streaming.StreamBolt: streams that end in an error, the draining of the driver's result and the query summary are not modelled. A record's size is given; None is a record that does not marshal.
- CustomTools.Coerce: numbers are mathematical. Whole floats outside 64 bits are refused, as on the platforms where the conversion wraps; the rounding of large integers to floats is not modelled.
- MatchPattern.BuildMatchPattern: of the error it says only that there is one, not which check raised it first. Property maps are lists of entries in the sorted order the code renders them in.
- GraphConditions.FilterConditions: upper-casing is modelled as far as it can produce a letter from A to Z.
- FirstRequest.CanStillSucceed: says that success stays possible, not that a fair scheduler reaches it. The readiness check is any result or a failure.
- ToolPipeline.CheckToolConfig: the issues are values, not their texts, and the comma-separated settings are taken as parsed lists.
- Duration.TextRead: the reader is this project's own, with a sign allowed on every component.
- Motif.CycleReportedOnce: about the list predicates of the generated query, not about the rest of Cypher; parallel relationships give one walk each.
- GraphTools.BuildUpdateNode: the readers give a meaning to the clauses these builders write, not to all of Cypher; that a subquery runs once per matched entity, and that one whose WHERE fails yields null under OPTIONAL, is built into them.
- The find, count, traversal, subgraph, common-connections and motif query builders: they add no way of building text that the modelled builders do not have.
- ExplainReports.ReadsAsSentDirectlyIff: about reports of three lines, a position, an echo and a caret; the wrapping that keeps the original error reachable is not modelled.
- Keywords.FirstKeyword: upper-casing is modelled as far as it can produce a letter from A to Z.
- The removal of null properties from results, plan-tree copying, Markdown and TOON rendering.
- The database driver, the HTTP client, sessions, transactions and stream closing; HTTP serving, TLS, CORS, tokens, logging, telemetry and embeddings.
- Configuration sources and precedence, and version parsing.
