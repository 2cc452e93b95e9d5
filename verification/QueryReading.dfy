// What a generated query says, read back from its tokens.
module QueryReading {
  import opened QueryText
  import opened Runes
  import opened Values
  import opened Wrappers

  // ---------------------------------------------------------------- cutting tokens apart

  // The stretches between one separator and the next.
  function Split(ts: seq<Token>, sep: Token): (r: seq<seq<Token>>)
    ensures r != []
  {
    if ts == [] then [[]]
    else if ts[0] == sep then [[]] + Split(ts[1..], sep)
    else [[ts[0]] + Split(ts[1..], sep)[0]] + Split(ts[1..], sep)[1..]
  }

  // No tokens are no pieces.
  function Pieces(ts: seq<Token>, sep: Token): seq<seq<Token>> {
    if ts == [] then [] else Split(ts, sep)
  }

  lemma {:induction false} SplitJoined(a: seq<Token>, b: seq<Token>, sep: Token)
    ensures Split(a + ([sep] + b), sep) == Split(a, sep) + Split(b, sep)
  {
    hide Split;
    var ts, y := a + ([sep] + b), Split(b, sep);
    SplitFirst(ts, sep);
    if a == [] {
      SplitNothing(sep);
      assert ts[1..] == b;
    } else {
      var x := Split(a[1..], sep);
      SplitJoined(a[1..], b, sep);
      SplitFirst(a, sep);
      assert ts[0] == a[0] && ts[1..] == a[1..] + ([sep] + b);
      if a[0] == sep {
        assert [[]] + (x + y) == [[]] + x + y;
      } else {
        assert (x + y)[0] == x[0] && (x + y)[1..] == x[1..] + y;
        assert [[a[0]] + x[0]] + (x[1..] + y) == [[a[0]] + x[0]] + x[1..] + y;
      }
    }
  }

  lemma SplitNothing(sep: Token)
    ensures Split([], sep) == [[]]
  {
  }

  lemma SplitFirst(ts: seq<Token>, sep: Token)
    requires ts != []
    ensures var rest := Split(ts[1..], sep);
      Split(ts, sep) == if ts[0] == sep then [[]] + rest else [[ts[0]] + rest[0]] + rest[1..]
  {
  }

  lemma {:induction false} SplitWhole(a: seq<Token>, sep: Token)
    requires sep !in a
    ensures Split(a, sep) == [a]
  {
    if a != [] {
      SplitWhole(a[1..], sep);
      assert [a[1..]][1..] == [] && [a[0]] + a[1..] == a;
    }
  }

  lemma PiecesWhole(a: seq<Token>, sep: Token)
    requires sep !in a
    ensures Pieces(a, sep) == if a == [] then [] else [a]
  {
    SplitWhole(a, sep);
  }

  // The tokens before, and those after, the first occurrence of one.
  function UpTo(ts: seq<Token>, t: Token): seq<Token> {
    if ts == [] || ts[0] == t then [] else [ts[0]] + UpTo(ts[1..], t)
  }

  function PastFirst(ts: seq<Token>, t: Token): (r: seq<Token>)
    ensures t in ts ==> |r| < |ts|
    ensures |r| <= |ts|
  {
    if ts == [] then [] else if ts[0] == t then ts[1..] else PastFirst(ts[1..], t)
  }

  lemma {:induction false} CutAt(a: seq<Token>, t: Token, b: seq<Token>)
    requires t !in a
    ensures UpTo(a + ([t] + b), t) == a && PastFirst(a + ([t] + b), t) == b
    ensures UpTo(a, t) == a && PastFirst(a, t) == []
  {
    var ts := a + ([t] + b);
    if a == [] {
      assert ts[1..] == b;
    } else {
      assert ts[1..] == a[1..] + ([t] + b);
      CutAt(a[1..], t, b);
    }
  }

  // The line a text begins with, and the rest behind its break.
  predicate IsBreak(t: Token) {
    t.Between? && t.gap[0] == '\n'
  }

  ghost predicate OneLine(ts: seq<Token>) {
    forall i :: 0 <= i < |ts| ==> !IsBreak(ts[i])
  }

  function FirstLine(ts: seq<Token>): (r: seq<Token>)
    ensures |r| <= |ts|
  {
    if ts == [] || IsBreak(ts[0]) then [] else [ts[0]] + FirstLine(ts[1..])
  }

  function RestLines(ts: seq<Token>): seq<Token> {
    if ts == [] then [] else if IsBreak(ts[0]) then ts[1..] else RestLines(ts[1..])
  }

  // From the first break on.
  function Behind(ts: seq<Token>): seq<Token> {
    ts[|FirstLine(ts)|..]
  }

  lemma {:induction false} LineOf(a: seq<Token>, b: seq<Token>)
    requires OneLine(a) && (b == [] || IsBreak(b[0]))
    ensures FirstLine(a + b) == a && RestLines(a + b) == if b == [] then [] else b[1..]
  {
    if a == [] {
      assert a + b == b;
    } else {
      assert (a + b)[1..] == a[1..] + b;
      LineOf(a[1..], b);
    }
  }

  lemma OneLineJoin(a: seq<Token>, b: seq<Token>)
    ensures OneLine(a + b) <==> OneLine(a) && OneLine(b)
  {
    var ts := a + b;
    assert forall i :: 0 <= i < |a| ==> ts[i] == a[i];
    assert forall i :: 0 <= i < |b| ==> ts[|a| + i] == b[i];
  }

  // ---------------------------------------------------------------- parameters

  // The value the query binds to the token, if it is a parameter.
  function ValueOf(t: Token, params: map<string, Value>): Option<Value> {
    if t.Param? && ParamName(t.index) in params then Some(params[ParamName(t.index)]) else None
  }

  // The parameters from n on are bound to these values.
  ghost predicate Gives(params: map<string, Value>, n: nat, vals: seq<Value>) {
    forall i: nat :: i < |vals| ==> ValueOf(Param(n + i), params) == Some(vals[i])
  }

  lemma GivesJoin(params: map<string, Value>, n: nat, a: seq<Value>, b: seq<Value>)
    ensures Gives(params, n, a + b) <==> Gives(params, n, a) && Gives(params, n + |a|, b)
  {
    var vals := a + b;
    if Gives(params, n, vals) {
      forall i: nat | i < |b| ensures ValueOf(Param(n + |a| + i), params) == Some(b[i]) {
        assert ValueOf(Param(n + (|a| + i)), params) == Some(vals[|a| + i]);
      }
      forall i: nat | i < |a| ensures ValueOf(Param(n + i), params) == Some(a[i]) {
        assert vals[i] == a[i];
      }
    }
    if Gives(params, n, a) && Gives(params, n + |a|, b) {
      forall i: nat | i < |vals| ensures ValueOf(Param(n + i), params) == Some(vals[i]) {
        if i >= |a| {
          assert ValueOf(Param(n + |a| + (i - |a|)), params) == Some(b[i - |a|]);
        }
      }
    }
  }

  lemma BoundGives(vals: seq<Value>)
    ensures Gives(Bound(vals), 0, vals)
  {
    hide Bound, ParamName;
    forall i: nat | i < |vals| ensures ValueOf(Param(0 + i), Bound(vals)) == Some(vals[i]) {
      BoundValues(vals, i);
    }
  }

  // ---------------------------------------------------------------- conditions

  // What a condition asks of a variable. An operator is its text, trimmed.
  datatype Cond =
    | IdIs(v: Token, id: Value)
    | Test(v: Token, key: string, op: string, value: Option<Value>)
    | HasLabels(v: Token, labels: seq<string>)
    | Differ(v: Token, w: Token)
    | Unread

  function WordOf(t: Token): string {
    match t
    case Text(text) => text
    case Between(gap) => gap
    case _ => ""
  }

  // `a`, `b`, ... with the separator between them.
  function Listed(ts: seq<Token>, sep: string): Option<seq<string>> {
    if |ts| == 0 || !ts[0].Name? then None
    else if |ts| == 1 then Some([ts[0].name])
    else if !(ts[1].Text? && ts[1].text == sep) then None
    else
      match Listed(ts[2..], sep)
      case None => None
      case Some(names) => Some([ts[0].name] + names)
  }

  // :`a`&`b`, or nothing.
  function Labels(ts: seq<Token>, sep: string): Option<seq<string>> {
    if ts == [] then Some([]) else if ts[0] == Text(":") then Listed(ts[1..], sep) else None
  }

  function ReadCond(ts: seq<Token>, params: map<string, Value>): Cond {
    if |ts| == 4 && ts[0] == Text("elementId(") && ts[2] == Text(") = ") then
      match ValueOf(ts[3], params)
      case None => Unread
      case Some(id) => IdIs(ts[1], id)
    else if 4 <= |ts| <= 5 && ts[1] == Text(".") && ts[2].Name? then
      var value := if |ts| == 5 then ValueOf(ts[4], params) else None;
      if |ts| == 5 && value == None then Unread else Test(ts[0], ts[2].name, TrimSpace(WordOf(ts[3])), value)
    else if |ts| == 3 && ts[1] == Text(" <> ") then Differ(ts[0], ts[2])
    else if |ts| >= 3 && ts[1] == Text(":") then
      match Labels(ts[1..], "&")
      case None => Unread
      case Some(labels) => HasLabels(ts[0], labels)
    else Unread
  }

  // The conditions joined by AND.
  function ReadConds(ts: seq<Token>, params: map<string, Value>): seq<Cond> {
    var pieces := Pieces(ts, Between(" AND "));
    seq(|pieces|, i requires 0 <= i < |pieces| => ReadCond(pieces[i], params))
  }

  lemma CondsJoined(a: seq<Token>, b: seq<Token>, params: map<string, Value>)
    requires a != [] && b != []
    ensures ReadConds(a + [Between(" AND ")] + b, params) == ReadConds(a, params) + ReadConds(b, params)
  {
    hide ReadCond;
    assert a + [Between(" AND ")] + b == a + ([Between(" AND ")] + b);
    SplitJoined(a, b, Between(" AND "));
  }

  lemma OneCond(a: seq<Token>, params: map<string, Value>)
    requires a != [] && Between(" AND ") !in a
    ensures ReadConds(a, params) == [ReadCond(a, params)]
  {
    hide ReadCond;
    PiecesWhole(a, Between(" AND "));
  }

  // ---------------------------------------------------------------- patterns

  // A node in round brackets, or a relationship in square ones with its arrow heads.
  datatype Element =
    | NodeAt(v: Token, labels: seq<Token>, conds: seq<Token>)
    | LinkAt(v: Token, types: seq<Token>, left: bool, right: bool)

  datatype Place =
    | Outside
    | NodeStart
    | InNode(v: Token, labels: seq<Token>)
    | InNodeWhere(v: Token, labels: seq<Token>, conds: seq<Token>)
    | LinkStart(left: bool)
    | InLink(v: Token, types: seq<Token>, left: bool)
    | InWhere(conds: seq<Token>)

  datatype Scan = Scan(done: seq<Element>, at: Place)

  predicate ClosesNode(t: Token) {
    WordOf(t) == ")"
  }

  function Step(s: Scan, t: Token): Scan {
    match s.at
    case Outside =>
      if t == Text("(") then s.(at := NodeStart)
      else if t == Text("-[") then s.(at := LinkStart(false))
      else if t == Text("<-[") then s.(at := LinkStart(true))
      else if t == Between(" WHERE ") then s.(at := InWhere([]))
      else s
    case NodeStart => s.(at := InNode(t, []))
    case InNode(v, labels) =>
      if ClosesNode(t) then Scan(s.done + [NodeAt(v, labels, [])], Outside)
      else if t == Between(" WHERE ") then s.(at := InNodeWhere(v, labels, []))
      else s.(at := InNode(v, labels + [t]))
    case InNodeWhere(v, labels, conds) =>
      if ClosesNode(t) then Scan(s.done + [NodeAt(v, labels, conds)], Outside) else s.(at := InNodeWhere(v, labels, conds + [t]))
    case LinkStart(left) => s.(at := InLink(t, [], left))
    case InLink(v, types, left) =>
      if t == Text("]-") then Scan(s.done + [LinkAt(v, types, left, false)], Outside)
      else if t == Text("]->") then Scan(s.done + [LinkAt(v, types, left, true)], Outside)
      else s.(at := InLink(v, types + [t], left))
    case InWhere(conds) => s.(at := InWhere(conds + [t]))
  }

  function Steps(s: Scan, ts: seq<Token>): Scan
    decreases |ts|
  {
    if ts == [] then s else Steps(Step(s, ts[0]), ts[1..])
  }

  lemma {:induction false} StepsJoin(s: Scan, a: seq<Token>, b: seq<Token>)
    ensures Steps(s, a + b) == Steps(Steps(s, a), b)
    decreases |a|
  {
    if a == [] {
      assert a + b == b;
    } else {
      assert (a + b)[1..] == a[1..] + b;
      StepsJoin(Step(s, a[0]), a[1..], b);
    }
  }

  lemma {:induction false} StepsInNode(done: seq<Element>, v: Token, labels: seq<Token>, ts: seq<Token>)
    requires forall i :: 0 <= i < |ts| ==> !ClosesNode(ts[i]) && ts[i] != Between(" WHERE ")
    ensures Steps(Scan(done, InNode(v, labels)), ts) == Scan(done, InNode(v, labels + ts))
    decreases |ts|
  {
    if ts == [] {
      assert labels + ts == labels;
    } else {
      StepsInNode(done, v, labels + [ts[0]], ts[1..]);
      assert labels + [ts[0]] + ts[1..] == labels + ts;
    }
  }

  lemma {:induction false} StepsInNodeWhere(done: seq<Element>, v: Token, labels: seq<Token>, conds: seq<Token>, ts: seq<Token>)
    requires forall i :: 0 <= i < |ts| ==> !ClosesNode(ts[i])
    ensures Steps(Scan(done, InNodeWhere(v, labels, conds)), ts) == Scan(done, InNodeWhere(v, labels, conds + ts))
    decreases |ts|
  {
    if ts == [] {
      assert conds + ts == conds;
    } else {
      StepsInNodeWhere(done, v, labels, conds + [ts[0]], ts[1..]);
      assert conds + [ts[0]] + ts[1..] == conds + ts;
    }
  }

  ghost predicate EndsNoLink(ts: seq<Token>) {
    forall i :: 0 <= i < |ts| ==> ts[i] != Text("]-") && ts[i] != Text("]->")
  }

  lemma {:induction false} StepsInLink(done: seq<Element>, v: Token, types: seq<Token>, left: bool, ts: seq<Token>)
    requires EndsNoLink(ts)
    ensures Steps(Scan(done, InLink(v, types, left)), ts) == Scan(done, InLink(v, types + ts, left))
    decreases |ts|
  {
    if ts == [] {
      assert types + ts == types;
    } else {
      StepsInLink(done, v, types + [ts[0]], left, ts[1..]);
      assert types + [ts[0]] + ts[1..] == types + ts;
    }
  }

  lemma {:induction false} StepsInWhere(done: seq<Element>, conds: seq<Token>, ts: seq<Token>)
    ensures Steps(Scan(done, InWhere(conds)), ts) == Scan(done, InWhere(conds + ts))
    decreases |ts|
  {
    if ts == [] {
      assert conds + ts == conds;
    } else {
      StepsInWhere(done, conds + [ts[0]], ts[1..]);
      assert conds + [ts[0]] + ts[1..] == conds + ts;
    }
  }

  lemma LinkOpens(done: seq<Element>, open: Token, v: Token)
    requires open == Text("-[") || open == Text("<-[")
    ensures Steps(Scan(done, Outside), [open, v]) == Scan(done, InLink(v, [], open == Text("<-[")))
  {
    assert [open, v][1..] == [v] && [v][1..] == [];
    var at := Scan(done, LinkStart(open == Text("<-[")));
    assert Step(Scan(done, Outside), open) == at;
    assert Steps(at, [v]) == Steps(Step(at, v), []);
  }

  lemma LinkCloses(done: seq<Element>, v: Token, types: seq<Token>, left: bool, close: Token)
    requires close == Text("]-") || close == Text("]->")
    ensures Steps(Scan(done, InLink(v, types, left)), [close]) == Scan(done + [LinkAt(v, types, left, close == Text("]->"))], Outside)
  {
    assert [close][1..] == [];
  }

  lemma LinkSteps(done: seq<Element>, open: Token, v: Token, types: seq<Token>, close: Token)
    requires open == Text("-[") || open == Text("<-[")
    requires close == Text("]-") || close == Text("]->")
    requires EndsNoLink(types)
    ensures Steps(Scan(done, Outside), [open, v] + types + [close])
         == Scan(done + [LinkAt(v, types, open == Text("<-["), close == Text("]->"))], Outside)
  {
    hide Steps, Step, EndsNoLink;
    var s, left := Scan(done, Outside), open == Text("<-[");
    LinkOpens(done, open, v);
    StepsJoin(s, [open, v], types);
    StepsInLink(done, v, [], left, types);
    assert [] + types == types;
    StepsJoin(s, [open, v] + types, [close]);
    LinkCloses(done, v, types, left, close);
  }

  // ---------------------------------------------------------------- a match clause

  datatype Part =
    | NodePart(v: Token, labels: Option<seq<string>>, conds: seq<Cond>)
    | LinkPart(v: Token, types: Option<seq<string>>, left: bool, right: bool)

  // The elements of the pattern in order, and the conditions behind its WHERE.
  datatype Clause = Clause(parts: seq<Part>, conds: seq<Cond>)

  function ReadPart(e: Element, params: map<string, Value>): Part {
    match e
    case NodeAt(v, labels, conds) => NodePart(v, Labels(labels, "&"), ReadConds(conds, params))
    case LinkAt(v, types, left, right) => LinkPart(v, Labels(types, "|"), left, right)
  }

  function ReadParts(done: seq<Element>, params: map<string, Value>): seq<Part> {
    seq(|done|, i requires 0 <= i < |done| => ReadPart(done[i], params))
  }

  // The match clause a text begins with, up to its first line break.
  function ReadMatch(ts: seq<Token>, params: map<string, Value>): Clause {
    var s := Steps(Scan([], Outside), FirstLine(ts));
    Clause(ReadParts(s.done, params), if s.at.InWhere? then ReadConds(s.at.conds, params) else [])
  }

  // ---------------------------------------------------------------- what is done

  datatype Action =
    | SetProperties(v: Token, value: Value)
    | SetLabels(v: Token, labels: seq<string>)
    | DropProperty(v: Token, key: string)
    | DropLabels(v: Token, labels: seq<string>)
    | Delete(v: Token, detach: bool)
    | UnreadAction

  function ReadRemoval(ts: seq<Token>): Action {
    if |ts| == 3 && ts[1] == Text(".") && ts[2].Name? then DropProperty(ts[0], ts[2].name)
    else if |ts| >= 3 && ts[1] == Text(":") then
      match Listed(ts[2..], ":")
      case None => UnreadAction
      case Some(labels) => DropLabels(ts[0], labels)
    else UnreadAction
  }

  // One line of the mutation.
  function ReadActions(ts: seq<Token>, params: map<string, Value>): seq<Action> {
    if |ts| >= 1 && ts[0] == Text("REMOVE ") then
      var removals := Pieces(ts[1..], Between(", "));
      seq(|removals|, i requires 0 <= i < |removals| => ReadRemoval(removals[i]))
    else if |ts| == 4 && ts[0] == Text("SET ") && ts[2] == Text(" += ") && ValueOf(ts[3], params).Some? then
      [SetProperties(ts[1], ValueOf(ts[3], params).value)]
    else if |ts| >= 4 && ts[0] == Text("SET ") && ts[2] == Text(":") && Listed(ts[3..], ":").Some? then
      [SetLabels(ts[1], Listed(ts[3..], ":").value)]
    else if |ts| == 2 && ts[0] == Text("DELETE ") then [Delete(ts[1], false)]
    else if |ts| == 3 && ts[0] == Text("DETACH ") && ts[1] == Text("DELETE ") then [Delete(ts[2], true)]
    else [UnreadAction]
  }

  function ReadLines(lines: seq<seq<Token>>, params: map<string, Value>): seq<Action> {
    if lines == [] then [] else ReadActions(lines[0], params) + ReadLines(lines[1..], params)
  }

  lemma {:induction false} ReadLinesJoin(a: seq<seq<Token>>, b: seq<seq<Token>>, params: map<string, Value>)
    ensures ReadLines(a + b, params) == ReadLines(a, params) + ReadLines(b, params)
  {
    if a == [] {
      assert a + b == b;
    } else {
      assert (a + b)[1..] == a[1..] + b;
      ReadLinesJoin(a[1..], b, params);
    }
  }

  // The mutation is indented, a line for each step, up to its RETURN.
  function Mutation(ts: seq<Token>): seq<Token> {
    UpTo(PastFirst(ts, Between("\n  ")), Between("\n  RETURN "))
  }

  function ReadMutation(ts: seq<Token>, params: map<string, Value>): seq<Action> {
    ReadLines(Pieces(Mutation(ts), Between("\n  ")), params)
  }

  // ---------------------------------------------------------------- what that does to an entity

  datatype Entity = Entity(labels: set<string>, properties: map<string, Value>)

  function NameSet(names: seq<string>): set<string> {
    set n | n in names
  }

  // New properties replace old ones of the same name; a null one removes it.
  function Merged(old_: map<string, Value>, new_: map<string, Value>): map<string, Value> {
    map k | k in old_.Keys + new_.Keys && !(k in new_ && new_[k] == Nil) :: if k in new_ then new_[k] else old_[k]
  }

  function AfterAction(e: Entity, v: Token, a: Action): Entity {
    match a
    case SetProperties(w, Map(fields)) => if w == v then e.(properties := Merged(e.properties, fields)) else e
    case SetLabels(w, labels) => if w == v then e.(labels := e.labels + NameSet(labels)) else e
    case DropProperty(w, key) => if w == v then e.(properties := e.properties - {key}) else e
    case DropLabels(w, labels) => if w == v then e.(labels := e.labels - NameSet(labels)) else e
    case _ => e
  }

  // The entity bound to `v`, once the actions are done one after the other.
  function AfterActions(e: Entity, v: Token, actions: seq<Action>): Entity
    decreases |actions|
  {
    if actions == [] then e else AfterActions(AfterAction(e, v, actions[0]), v, actions[1..])
  }

  lemma {:induction false} ActionsJoin(e: Entity, v: Token, a: seq<Action>, b: seq<Action>)
    ensures AfterActions(e, v, a + b) == AfterActions(AfterActions(e, v, a), v, b)
    decreases |a|
  {
    if a == [] {
      assert a + b == b;
    } else {
      assert (a + b)[1..] == a[1..] + b;
      ActionsJoin(AfterAction(e, v, a[0]), v, a[1..], b);
    }
  }
}
