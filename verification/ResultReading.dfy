// What a query returns, read back from its tokens.
module ResultReading {
  import opened QueryReading
  import opened QueryText
  import opened Wrappers

  // ---------------------------------------------------------------- one map

  datatype Props = Hidden | All | Only(names: seq<string>)

  // A map that shows what is bound to `v`: a node by its id and labels, a relationship by
  // its id, its type and the ids of the nodes it starts and ends at.
  datatype Shown =
    | NodeShown(v: Token, props: Props)
    | RelShown(v: Token, props: Props)
    | Unshown

  // .`a`, .`b`, ... cut at the commas.
  function Dotted(pieces: seq<seq<Token>>): Option<seq<string>> {
    if pieces == [] then Some([])
    else if |pieces[0]| == 2 && WordOf(pieces[0][0]) == "." && pieces[0][1].Name? then
      match Dotted(pieces[1..])
      case None => None
      case Some(names) => Some([pieces[0][1].name] + names)
    else None
  }

  lemma {:induction false} DottedJoin(a: seq<seq<Token>>, b: seq<seq<Token>>)
    requires Dotted(a).Some? && Dotted(b).Some?
    ensures Dotted(a + b) == Some(Dotted(a).value + Dotted(b).value)
  {
    if a == [] {
      assert a + b == b && [] + Dotted(b).value == Dotted(b).value;
    } else {
      assert (a + b)[1..] == a[1..] + b;
      DottedJoin(a[1..], b);
      assert Dotted(a).value + Dotted(b).value == [a[0][1].name] + (Dotted(a[1..]).value + Dotted(b).value);
    }
  }

  // What follows the id and labels of a node.
  function NodeProps(ts: seq<Token>, v: Token): Option<Props> {
    if |ts| == 1 && WordOf(ts[0]) == ")}" then Some(Hidden)
    else if |ts| == 3 && WordOf(ts[0]) == "), properties: " + "properties(" && ts[1] == v && WordOf(ts[2]) == ")}" then Some(All)
    else if |ts| > 4 && WordOf(ts[0]) == "), properties: " && ts[1] == v && WordOf(ts[2]) == "{" && WordOf(ts[|ts| - 1]) == "}}" then
      match Dotted(Pieces(ts[3..|ts| - 1], Between(", ")))
      case None => None
      case Some(names) => Some(Only(names))
    else None
  }

  // What follows the two ends of a relationship.
  function RelProps(ts: seq<Token>, v: Token): Option<Props> {
    if |ts| == 1 && WordOf(ts[0]) == "))}" then Some(Hidden)
    else if |ts| == 3 && WordOf(ts[0]) == ")), properties: " + "properties(" && ts[1] == v && WordOf(ts[2]) == ")}" then Some(All)
    else None
  }

  predicate OpensNode(ts: seq<Token>) {
    && |ts| == 4 && WordOf(ts[0]) == "{id: elementId("
    && WordOf(ts[2]) == "), labels: " + "labels(" && ts[3] == ts[1]
  }

  predicate OpensRel(ts: seq<Token>) {
    && |ts| == 8 && WordOf(ts[0]) == "{id: elementId("
    && WordOf(ts[2]) == "), type: type(" && ts[3] == ts[1]
    && WordOf(ts[4]) == "), from: " + ("elementId(" + "startNode(") && ts[5] == ts[1]
    && WordOf(ts[6]) == ")), to: " + ("elementId(" + "endNode(") && ts[7] == ts[1]
  }

  function ReadShown(ts: seq<Token>): Shown {
    if |ts| >= 4 && OpensNode(ts[..4]) then
      match NodeProps(ts[4..], ts[1])
      case None => Unshown
      case Some(props) => NodeShown(ts[1], props)
    else if |ts| >= 8 && OpensRel(ts[..8]) then
      match RelProps(ts[8..], ts[1])
      case None => Unshown
      case Some(props) => RelShown(ts[1], props)
    else Unshown
  }

  // ---------------------------------------------------------------- a list of maps

  predicate EndsMap(t: Token) {
    WordOf(t) == ")}" || WordOf(t) == "}}" || WordOf(t) == "))}"
  }

  datatype Maps = Maps(done: seq<seq<Token>>, open: seq<Token>)

  function CutStep(s: Maps, t: Token): Maps {
    if EndsMap(t) then Maps(s.done + [s.open + [t]], [])
    else if s.open == [] && WordOf(t) == ", " then s
    else s.(open := s.open + [t])
  }

  // Each map up to its closing bracket, without the commas between them.
  function Cut(s: Maps, ts: seq<Token>): Maps
    decreases |ts|
  {
    if ts == [] then s else Cut(CutStep(s, ts[0]), ts[1..])
  }

  lemma {:induction false} CutJoin(s: Maps, a: seq<Token>, b: seq<Token>)
    ensures Cut(s, a + b) == Cut(Cut(s, a), b)
    decreases |a|
  {
    if a == [] {
      assert a + b == b;
    } else {
      assert (a + b)[1..] == a[1..] + b;
      CutJoin(CutStep(s, a[0]), a[1..], b);
    }
  }

  lemma {:induction false} CutWithin(done: seq<seq<Token>>, open: seq<Token>, ts: seq<Token>)
    requires forall i :: 0 <= i < |ts| ==> !EndsMap(ts[i])
    requires open != [] || ts == [] || WordOf(ts[0]) != ", "
    ensures Cut(Maps(done, open), ts) == Maps(done, open + ts)
    decreases |ts|
  {
    if ts == [] {
      assert open + ts == open;
    } else {
      CutWithin(done, open + [ts[0]], ts[1..]);
      assert open + [ts[0]] + ts[1..] == open + ts;
    }
  }

  ghost predicate Unclosed(ts: seq<Token>) {
    forall t :: t in ts ==> !EndsMap(t)
  }

  lemma UnclosedJoin(a: seq<Token>, b: seq<Token>)
    requires Unclosed(a) && Unclosed(b)
    ensures Unclosed(a + b)
  {
    hide EndsMap;
  }

  lemma Closes(open: seq<Token>, close: Token)
    requires Unclosed(open) && open != [] && WordOf(open[0]) != ", " && EndsMap(close)
    ensures OneMap(open + [close])
  {
    hide EndsMap;
    var m := open + [close];
    assert forall i :: 0 <= i < |m| - 1 ==> m[i] == open[i];
  }

  // Only its last token closes it.
  ghost predicate OneMap(m: seq<Token>) {
    && m != [] && EndsMap(m[|m| - 1]) && WordOf(m[0]) != ", "
    && forall i :: 0 <= i < |m| - 1 ==> !EndsMap(m[i])
  }

  lemma KeyedMap(head: seq<Token>, m: seq<Token>)
    requires Unclosed(head) && OneMap(m) && (head == [] || WordOf(head[0]) != ", ")
    ensures OneMap(head + m)
  {
    hide EndsMap;
    var ts := head + m;
    forall i | 0 <= i < |ts| - 1 ensures !EndsMap(ts[i]) {
      assert ts[i] == if i < |head| then head[i] else m[i - |head|];
    }
  }

  lemma CutMap(done: seq<seq<Token>>, m: seq<Token>)
    requires OneMap(m)
    ensures Cut(Maps(done, []), m) == Maps(done + [m], [])
  {
    var last := |m| - 1;
    CutWithin(done, [], m[..last]);
    CutJoin(Maps(done, []), m[..last], [m[last]]);
    assert m == m[..last] + [m[last]] && [m[last]][1..] == [] && [] + m[..last] == m[..last];
    assert Cut(Maps(done, m[..last]), [m[last]]) == CutStep(Maps(done, m[..last]), m[last]);
  }

  // One more map behind a comma.
  lemma CutMore(ts: seq<Token>, maps: seq<seq<Token>>, m: seq<Token>)
    requires Cut(Maps([], []), ts) == Maps(maps, []) && OneMap(m)
    ensures Cut(Maps([], []), ts + [Between(", ")] + m) == Maps(maps + [m], [])
  {
    var comma: seq<Token> := [Between(", ")];
    CutMap(maps, m);
    CutJoin(Maps([], []), ts + comma, m);
    CutJoin(Maps([], []), ts, comma);
    assert comma[1..] == [] && WordOf(comma[0]) == ", ";
    assert Cut(Maps(maps, []), comma) == CutStep(Maps(maps, []), comma[0]);
  }

  function ReadMaps(ts: seq<Token>): seq<Shown> {
    var maps := Cut(Maps([], []), ts).done;
    seq(|maps|, i requires 0 <= i < |maps| => ReadShown(maps[i]))
  }

  // `key`: map
  datatype Keyed = Keyed(key: string, shown: Shown) | Unkeyed

  function ReadEntry(ts: seq<Token>): Keyed {
    if |ts| > 2 && ts[0].Name? && WordOf(ts[1]) == ": " then Keyed(ts[0].name, ReadShown(ts[2..])) else Unkeyed
  }

  function ReadEntries(ts: seq<Token>): seq<Keyed> {
    var maps := Cut(Maps([], []), ts).done;
    seq(|maps|, i requires 0 <= i < |maps| => ReadEntry(maps[i]))
  }

  // ---------------------------------------------------------------- a path

  // The length, the nodes and the relationships of the path bound to `p`, each of its
  // nodes and relationships shown as the one bound to x.
  datatype Path = PathShown(p: Token, node: Shown, rel: Shown) | NoPath

  predicate PathOpens(ts: seq<Token>) {
    && |ts| == 5 && WordOf(ts[0]) == "{length: " + "length(" && WordOf(ts[2]) == "), nodes: " + "[x IN nodes("
    && ts[3] == ts[1] && WordOf(ts[4]) == ") | "
  }

  predicate PathCloses(ts: seq<Token>, p: Token) {
    && |ts| == 13 && WordOf(ts[0]) == "], " + ("relationships: " + ("[x IN " + "relationships("))
    && ts[1] == p && WordOf(ts[2]) == ") | " && WordOf(ts[12]) == "]}"
  }

  function ReadPath(ts: seq<Token>): Path {
    if |ts| >= 18 && PathOpens(ts[..5]) && PathCloses(ts[|ts| - 13..], ts[1]) then
      PathShown(ts[1], ReadShown(ts[5..|ts| - 13]), ReadShown(ts[|ts| - 10..|ts| - 1]))
    else NoPath
  }
}
