// What the text around a write decides, evaluated.
module GuardReading {
  import opened QueryReading
  import opened QueryText
  import opened Values
  import opened Wrappers

  // ---------------------------------------------------------------- tests and choices

  // What the text's own names stand for: counts, and 1 or 0 for what holds, or is there, or not.
  type Env = map<string, int>

  function Term(t: Token, env: Env, params: map<string, Value>): Option<int> {
    if t.Text? && t.text in env then Some(env[t.text])
    else if t == Text("0") then Some(0)
    else if t == Text("1") then Some(1)
    else
      match ValueOf(t, params)
      case Some(Int(n)) => Some(n)
      case _ => None
  }

  function Compared(a: int, op: Token, b: int): Option<bool> {
    if op == Text(" <= ") then Some(a <= b)
    else if op == Text(" > ") then Some(a > b)
    else if op == Text(" = ") then Some(a == b)
    else None
  }

  function Fact(ts: seq<Token>, env: Env, params: map<string, Value>): Option<bool> {
    if ts == [] then None
    else
      match Term(ts[0], env, params)
      case None => None
      case Some(a) =>
        if |ts| == 1 then Some(a != 0)
        else if |ts| == 2 && ts[1] == Text(" IS NULL") then Some(a == 0)
        else if |ts| == 3 && Term(ts[2], env, params).Some? then Compared(a, ts[1], Term(ts[2], env, params).value)
        else None
  }

  // Facts joined by AND.
  function Holds(ts: seq<Token>, env: Env, params: map<string, Value>): Option<bool>
    decreases |ts|
  {
    if Between(" AND ") !in ts then Fact(ts, env, params)
    else if ts[0] == Between(" AND ") then None
    else
      match (Fact(UpTo(ts, Between(" AND ")), env, params), Holds(PastFirst(ts, Between(" AND ")), env, params))
      case (Some(a), Some(b)) => Some(a && b)
      case _ => None
  }

  lemma BothHold(a: seq<Token>, b: seq<Token>, env: Env, params: map<string, Value>)
    requires a != [] && Between(" AND ") !in a && Between(" AND ") !in b
    requires Fact(a, env, params).Some? && Fact(b, env, params).Some?
    ensures Holds(a + ([Between(" AND ")] + b), env, params) == Some(Fact(a, env, params).value && Fact(b, env, params).value)
  {
    hide Fact;
    var ts := a + ([Between(" AND ")] + b);
    CutAt(a, Between(" AND "), b);
    assert ts[|a|] == Between(" AND ") && ts[0] == a[0];
    assert Holds(b, env, params) == Fact(b, env, params);
  }

  // What a CASE chooses, read from its first WHEN to its END; without an ELSE that can be null.
  function Chosen(ts: seq<Token>, env: Env, params: map<string, Value>): Option<Token>
    decreases |ts|
  {
    if ts == [Between(" END")] then Some(Text("null"))
    else if |ts| == 3 && ts[0] == Between(" ELSE ") && ts[2] == Between(" END") then Some(ts[1])
    else if |ts| > 0 && ts[0] == Between(" WHEN ") && PastFirst(ts, Between(" THEN ")) != [] then
      var rest := PastFirst(ts, Between(" THEN "));
      match Holds(UpTo(ts[1..], Between(" THEN ")), env, params)
      case None => None
      case Some(b) => if b then Some(rest[0]) else Chosen(rest[1..], env, params)
    else None
  }

  lemma WhenChosen(test: seq<Token>, value: Token, rest: seq<Token>, env: Env, params: map<string, Value>)
    requires Between(" THEN ") !in test && Holds(test, env, params).Some?
    ensures Chosen([Between(" WHEN ")] + (test + ([Between(" THEN ")] + ([value] + rest))), env, params)
         == if Holds(test, env, params).value then Some(value) else Chosen(rest, env, params)
  {
    hide Holds;
    var after := [value] + rest;
    var ts := [Between(" WHEN ")] + (test + ([Between(" THEN ")] + after));
    CutAt([Between(" WHEN ")] + test, Between(" THEN "), after);
    CutAt(test, Between(" THEN "), after);
    assert ts == [Between(" WHEN ")] + test + ([Between(" THEN ")] + after);
    assert ts[1..] == test + ([Between(" THEN ")] + after) && after[1..] == rest;
  }

  // ---------------------------------------------------------------- a guarded mutation

  // How many entities a query changes, whether it says it did, and with which message.
  datatype Outcome = Outcome(changed: nat, performed: bool, message: Value)

  function MessageOf(t: Token, params: map<string, Value>): Option<Value> {
    match t
    case Text(text) => if text == "null" then Some(Nil) else None
    case Literal(literal) => Some(Str(literal))
    case _ => ValueOf(t, params)
  }

  // Collect what matched, count it, test the count, and go through it or through nothing.
  predicate GuardOpens(ts: seq<Token>, v: Token) {
    && |ts| == 21
    && WordOf(ts[0]) == "\nWITH collect(" && ts[1] == v
    && WordOf(ts[2]) == ") AS items\n" + ("WITH items, " + "size(items) AS ") && WordOf(ts[3]) == "matched"
    && WordOf(ts[4]) == "\nWITH items, " + "matched, "
    && WordOf(ts[8]) == " AS allowed\n" + ("CALL (items, " + "allowed) {\n")
    && WordOf(ts[9]) == "  UNWIND " && WordOf(ts[10]) == "CASE"
    && WordOf(ts[18]) == " AS " && ts[19] == v && WordOf(ts[20]) == "\n  "
  }

  // One row: the count, whether the mutation was performed, its result and a message.
  predicate GuardCloses(ts: seq<Token>) {
    && |ts| == 26
    && WordOf(ts[0]) == " AS " && WordOf(ts[2]) == "\n}\n" + ("RETURN matched," + " ")
    && WordOf(ts[8]) == " AS " + "performed, " && ts[9] == ts[1] && WordOf(ts[10]) == ", "
    && WordOf(ts[11]) == "CASE" && WordOf(ts[25]) == " AS message"
  }

  function Flag(b: bool): int {
    if b then 1 else 0
  }

  // What the text behind a match makes of this many matched entities.
  function RunGuarded(ts: seq<Token>, v: Token, matched: nat, params: map<string, Value>): Option<Outcome> {
    if |ts| < 47 || !GuardOpens(ts[..21], v) || !GuardCloses(ts[|ts| - 26..]) then None
    else
      var head, tail := ts[..21], ts[|ts| - 26..];
      match Holds(head[5..8], map["matched" := matched], params)
      case None => None
      case Some(allowed) => RunAllowed(head[11..18], tail, matched, allowed, params)
  }

  function RunAllowed(items: seq<Token>, tail: seq<Token>, matched: nat, allowed: bool, params: map<string, Value>): Option<Outcome>
    requires |tail| == 26
  {
    var env := map["matched" := matched, "allowed" := Flag(allowed)];
    var through, performed, message := Chosen(items, env, params), Holds(tail[3..8], env, params), Chosen(tail[12..25], env, params);
    if through.None? || performed.None? || message.None? || MessageOf(message.value, params).None? then None
    else if WordOf(through.value) == "items" then Some(Outcome(matched, performed.value, MessageOf(message.value, params).value))
    else if WordOf(through.value) == "[]" then Some(Outcome(0, performed.value, MessageOf(message.value, params).value))
    else None
  }

  // What each mutation hands back, and under which name, behind a match.
  function Result(ts: seq<Token>): seq<Token> {
    var after := PastFirst(ts, Between("\n  RETURN "));
    if |after| < 26 then [] else after[..|after| - 26]
  }

  function ResultName(ts: seq<Token>): string {
    if |ts| < 26 then "" else WordOf(ts[|ts| - 25])
  }

  // ---------------------------------------------------------------- a preview

  // Count what matched, show up to ten of their ids, and change nothing.
  predicate PreviewFrame(ts: seq<Token>, v: Token) {
    && |ts| == 19
    && WordOf(ts[0]) == "\nWITH count(" && ts[1] == v
    && WordOf(ts[2]) == ") AS matched, " + ("collect(" + "elementId(") && ts[3] == v
    && WordOf(ts[4]) == "))[..10] AS " + ("sampleIds\n" + "RETURN matched,")
    && WordOf(ts[5]) == " sampleIds, " && WordOf(ts[6]) == "false"
    && WordOf(ts[7]) == " AS " + ("performed,\n" + "  ")
    && WordOf(ts[8]) == "CASE" && WordOf(ts[18]) == " AS message"
  }

  function RunPreview(ts: seq<Token>, v: Token, matched: nat, params: map<string, Value>): Option<Outcome> {
    if !PreviewFrame(ts, v) then None
    else
      var message := Chosen(ts[9..18], map["matched" := matched], params);
      if message.None? || MessageOf(message.value, params).None? then None
      else Some(Outcome(0, false, MessageOf(message.value, params).value))
  }

  // ---------------------------------------------------------------- a creation

  // What a creation answers: the two counts, and a message.
  datatype Creation = Creation(created: bool, fromMatched: int, toMatched: int, message: Value)

  // The two lines that match are each collected, first the sources and then the targets.
  predicate CollectsEnds(ts: seq<Token>) {
    var first, second := Behind(ts), Behind(RestLines(ts));
    && first != [] && WordOf(first[0]) == "\nWITH collect(" + ("src) AS " + "sources\n")
    && second != [] && WordOf(second[0]) == "\nWITH sources, " + ("collect(dst) " + "AS targets\n")
  }

  // Behind the second match: a subquery on the first source and the first target, under a test.
  predicate CreationOpens(ts: seq<Token>) {
    && |ts| == 11
    && WordOf(ts[0]) == "OPTIONAL CALL " + ("(sources, " + "targets) {\n")
    && WordOf(ts[1]) == "  WITH " + ("sources[0] AS " + ("src, " + ("targets[0] AS " + "dst\n")))
    && WordOf(ts[2]) == "  WHERE " && WordOf(ts[10]) == "\n  "
  }

  predicate CreationCloses(ts: seq<Token>) {
    && |ts| == 14
    && WordOf(ts[0]) == " AS " + ("relationship\n" + ("}\n" + "RETURN "))
    && WordOf(ts[2]) == " AS " + "fromMatched, " && WordOf(ts[4]) == " AS " + "toMatched, "
    && WordOf(ts[5]) == "relationship" && WordOf(ts[6]) == ", CASE" && WordOf(ts[13]) == " AS message"
  }

  function Created(ts: seq<Token>): seq<Token> {
    var after := PastFirst(ts, Between("\n  RETURN "));
    if |after| < 14 then [] else after[..|after| - 14]
  }

  // What the text behind the second match makes of these counts. Where the test fails
  // there is no relationship.
  function RunCreation(ts: seq<Token>, sources: nat, targets: nat, params: map<string, Value>): Option<Creation> {
    if |ts| < 25 || !CreationOpens(ts[..11]) || !CreationCloses(ts[|ts| - 14..]) then None
    else
      var head, tail := ts[..11], ts[|ts| - 14..];
      var counts := map["size(sources)" := sources, "size(targets)" := targets];
      match Holds(head[3..10], counts, params)
      case None => None
      case Some(created) =>
        var env := counts["relationship" := Flag(created)];
        var from, to, message := Term(tail[1], env, params), Term(tail[3], env, params), Chosen(tail[7..13], env, params);
        if from.None? || to.None? || message.None? || MessageOf(message.value, params).None? then None
        else Some(Creation(created, from.value, to.value, MessageOf(message.value, params).value))
  }
}
