// The scanner that strips leading whitespace and comments, against the lexer.
module CypherStrip {
  import opened CypherText
  import opened Runes

  predicate HasPrefix(s: string, a: char, b: char) {
    |s| >= 2 && s[0] == a && s[1] == b
  }

  predicate ClosesAt(s: string, k: nat) {
    k + 1 < |s| && s[k] == '*' && s[k + 1] == '/'
  }

  // The first index of "*/", or -1.
  function IndexClose(s: string): (i: int)
    ensures -1 <= i < |s|
    ensures i >= 0 ==> ClosesAt(s, i)
    ensures forall k :: 0 <= k < (if i >= 0 then i else |s|) ==> !ClosesAt(s, k)
  {
    if s == [] then -1
    else if ClosesAt(s, 0) then 0
    else
      var i := IndexClose(s[1..]);
      assert forall k :: 1 <= k < |s| ==> ClosesAt(s, k) == ClosesAt(s[1..], k - 1);
      if i < 0 then -1 else i + 1
  }

  // The first index of a newline, or -1.
  function IndexNewline(s: string): (i: int)
    ensures -1 <= i < |s|
    ensures i >= 0 ==> s[i] == '\n'
    ensures forall k :: 0 <= k < (if i >= 0 then i else |s|) ==> s[k] != '\n'
  {
    if s == [] then -1
    else if s[0] == '\n' then 0
    else var i := IndexNewline(s[1..]); if i < 0 then -1 else i + 1
  }

  // What one turn of the scanner's loop leaves: the text after the leading
  // whitespace and one comment, or the place where it stops.
  datatype Turn = Stop(text: string) | Skip(comment: string, rest: string)

  function TakeTurn(s: string): (t: Turn)
    ensures t.Skip? ==> |t.rest| < |s|
  {
    var t := TrimLeft(s);
    if HasPrefix(t, '/', '*') then
      var e := IndexClose(t);
      if e < 0 then Stop(t) else Skip(t[..e + 2], t[e + 2..])
    else if HasPrefix(t, '/', '/') then
      var e := IndexNewline(t);
      if e < 0 then Stop("") else Skip(t[..e + 1], t[e + 1..])
    else Stop(t)
  }

  lemma TurnParts(s: string)
    requires TakeTurn(s).Skip?
    ensures TakeTurn(s).comment + TakeTurn(s).rest == TrimLeft(s) && TakeTurn(s).comment != ""
  {
  }

  function Stripped(s: string): string
    decreases |s|
  {
    match TakeTurn(s)
    case Stop(text) => text
    case Skip(_, rest) => Stripped(rest)
  }

  // Nothing is left to strip: no whitespace, no line comment, no closed block comment.
  ghost predicate Bare(text: string) {
    text == "" || (!IsSpace(text[0]) && !("//" <= text) && ("/*" <= text ==> !HasClose(text)))
  }

  ghost predicate HasClose(text: string) {
    exists k :: 0 <= k < |text| - 1 && text[k] == '*' && text[k + 1] == '/'
  }

  lemma {:induction false} StrippedIsBare(s: string)
    ensures Bare(Stripped(s))
    decreases |s|
  {
    match TakeTurn(s)
    case Stop(_) => StopIsBare(s);
    case Skip(_, rest) => StrippedIsBare(rest);
  }

  lemma StopIsBare(s: string)
    requires TakeTurn(s).Stop?
    ensures Bare(TakeTurn(s).text)
  {
    var t := TakeTurn(s).text;
    if |t| >= 2 {
      assert t[..2] == [t[0], t[1]];
    }
    if HasClose(t) {
      var k :| 0 <= k < |t| - 1 && t[k] == '*' && t[k + 1] == '/';
      assert ClosesAt(t, k);
    }
  }

  method StripLeadingWhitespaceAndComments(query: string) returns (text: string)
    ensures text == Stripped(query) && Bare(text)
  {
    hide Bare;
    StrippedIsBare(query);
    var q := query;
    while true
      invariant Stripped(q) == Stripped(query)
      decreases |q|
    {
      ghost var turn := TakeTurn(q);
      q := TrimLeft(q);
      if HasPrefix(q, '/', '*') {
        var end := IndexClose(q);
        if end < 0 {
          return q;
        }
        q := q[end + 2..];
        continue;
      }
      if HasPrefix(q, '/', '/') {
        var end := IndexNewline(q);
        if end < 0 {
          return "";
        }
        q := q[end + 1..];
        continue;
      }
      return q;
    }
  }

  // ---------------------------------------------------------------- properties of the scanner alone

  ghost predicate IsSuffix(t: string, s: string) {
    |t| <= |s| && t == s[|s| - |t|..]
  }

  lemma SuffixTransitive(u: string, t: string, s: string)
    requires IsSuffix(u, t) && IsSuffix(t, s)
    ensures IsSuffix(u, s)
  {
    assert s[|s| - |t|..][|t| - |u|..] == s[|s| - |u|..];
  }

  lemma TurnIsSuffix(s: string)
    ensures IsSuffix(if TakeTurn(s).Skip? then TakeTurn(s).rest else TakeTurn(s).text, s)
  {
    var t, turn := TrimLeft(s), TakeTurn(s);
    TrimLeftDropsSpace(s);
    if turn.Skip? {
      TurnParts(s);
      assert IsSuffix(turn.rest, t) by { assert t[|turn.comment|..] == turn.rest; }
      SuffixTransitive(turn.rest, t, s);
    }
  }

  lemma {:induction false} StripIsSuffix(s: string)
    ensures IsSuffix(Stripped(s), s)
    decreases |s|
  {
    hide IsSuffix, TakeTurn;
    TurnIsSuffix(s);
    if TakeTurn(s).Skip? {
      StripIsSuffix(TakeTurn(s).rest);
      SuffixTransitive(Stripped(s), TakeTurn(s).rest, s);
    }
  }

  lemma {:induction false} StripIdempotent(s: string)
    ensures Stripped(Stripped(s)) == Stripped(s)
    decreases |s|
  {
    var turn := TakeTurn(s);
    if turn.Skip? {
      StripIdempotent(turn.rest);
    } else if turn.text != "" {
      assert TrimLeft(turn.text) == turn.text;
    }
  }

  // ---------------------------------------------------------------- agreement with the lexer

  // No skipped block comment is the three runes /*/ with text after it. The
  // scanner takes those for a closed comment.
  predicate NoShortComment(s: string)
    decreases |s|
  {
    match TakeTurn(s)
    case Stop(_) => true
    case Skip(comment, rest) => !(comment == "/*/" && rest != "") && NoShortComment(rest)
  }

  // At every turn the scanner resumes where the lexer is in code too.
  predicate InStep(s: string)
    decreases |s|
  {
    match TakeTurn(s)
    case Stop(_) => true
    case Skip(comment, rest) => (rest == "" || After(comment, Code, rest) == Code) && InStep(rest)
  }

  // Lexed from `mode`, every rune of `piece` comes out as whitespace.
  ghost predicate Vanishes(piece: string, mode: Mode, rest: string) {
    forall i :: 0 <= i < |piece| ==> IsSpace(Lex(piece + rest, mode)[i])
  }

  lemma VanishesStep(piece: string, mode: Mode, rest: string)
    requires piece != []
    requires Kept(mode, piece[0], piece[1..] + rest) ==> IsSpace(piece[0])
    requires Vanishes(piece[1..], Next(mode, piece[0], piece[1..] + rest), rest)
    ensures Vanishes(piece, mode, rest)
  {
    assert (piece + rest)[1..] == piece[1..] + rest;
    forall i | 0 <= i < |piece| ensures IsSpace(Lex(piece + rest, mode)[i]) {
      assert i > 0 ==> IsSpace(Lex(piece[1..] + rest, Next(mode, piece[0], piece[1..] + rest))[i - 1]);
    }
  }

  lemma {:induction false} AfterBlock(body: string, rest: string)
    requires |body| >= 2 && ClosesAt(body, |body| - 2)
    requires forall k :: 0 <= k < |body| - 2 ==> !ClosesAt(body, k)
    ensures After(body, Block, rest) == Code && Vanishes(body, Block, rest)
    decreases |body|
  {
    if |body| == 2 {
      assert body[1..][1..] == [];
      assert After(body[1..], BlockClose, rest) == Code;
      VanishesStep(body[1..], BlockClose, rest);
    } else {
      assert !ClosesAt(body, 0) && StartsWith(body[1..] + rest, body[1]);
      assert forall k :: 0 <= k < |body| - 1 ==> ClosesAt(body[1..], k) == ClosesAt(body, k + 1);
      AfterBlock(body[1..], rest);
    }
    VanishesStep(body, Block, rest);
  }

  lemma {:induction false} AfterLine(body: string, rest: string)
    requires body != [] && body[|body| - 1] == '\n'
    requires forall k :: 0 <= k < |body| - 1 ==> body[k] != '\n'
    ensures After(body, Line, rest) == Code && Vanishes(body, Line, rest)
    decreases |body|
  {
    if |body| > 1 {
      AfterLine(body[1..], rest);
    }
    VanishesStep(body, Line, rest);
  }

  // A block that closes at its end and not before, for the lexer.
  lemma AfterOpenedBlock(comment: string, rest: string)
    requires |comment| >= 4 && comment[0] == '/' && comment[1] == '*' && ClosesAt(comment, |comment| - 2)
    requires forall k :: 2 <= k < |comment| - 2 ==> !ClosesAt(comment, k)
    ensures After(comment, Code, rest) == Code && Vanishes(comment, Code, rest)
  {
    var body := comment[2..];
    assert comment[1..][1..] == body && StartsWith(comment[1..] + rest, '*');
    assert After(comment, Code, rest) == After(comment[1..], BlockOpen, rest) == After(body, Block, rest);
    assert forall k :: 0 <= k < |body| ==> ClosesAt(body, k) == ClosesAt(comment, k + 2);
    AfterBlock(body, rest);
    VanishesStep(comment[1..], BlockOpen, rest);
    VanishesStep(comment, Code, rest);
  }

  // The scanner looks for the end from the first rune on.
  lemma AfterBlockComment(comment: string, rest: string)
    requires |comment| >= 3 && comment[0] == '/' && comment[1] == '*' && ClosesAt(comment, |comment| - 2)
    requires forall k :: 0 <= k < |comment| - 2 ==> !ClosesAt(comment, k)
    ensures After(comment, Code, rest) == if comment == "/*/" then Block else Code
    ensures Vanishes(comment, Code, rest)
  {
    if |comment| == 3 {
      var body := comment[2..];
      assert comment[1..][1..] == body && StartsWith(comment[1..] + rest, '*');
      assert After(comment, Code, rest) == After(comment[1..], BlockOpen, rest) == After(body, Block, rest);
      assert body == "/" && comment == "/*/";
      assert After(body[1..], Block, rest) == Block;
      VanishesStep(body, Block, rest);
      VanishesStep(comment[1..], BlockOpen, rest);
      VanishesStep(comment, Code, rest);
    } else {
      assert !ClosesAt(comment, 1);
      AfterOpenedBlock(comment, rest);
    }
  }

  lemma AfterLineComment(comment: string, rest: string)
    requires |comment| >= 3 && comment[0] == '/' && comment[1] == '/' && comment[|comment| - 1] == '\n'
    requires forall k :: 0 <= k < |comment| - 1 ==> comment[k] != '\n'
    ensures After(comment, Code, rest) == Code && Vanishes(comment, Code, rest)
  {
    assert StartsWith(comment[1..] + rest, '/');
    AfterLine(comment[1..], rest);
    VanishesStep(comment, Code, rest);
  }

  // A skipped comment leaves the lexer in code, except /*/.
  lemma AfterComment(s: string)
    requires TakeTurn(s).Skip?
    ensures var turn := TakeTurn(s);
      && After(turn.comment, Code, turn.rest) == (if turn.comment == "/*/" then Block else Code)
      && Vanishes(turn.comment, Code, turn.rest)
  {
    var t, turn := TrimLeft(s), TakeTurn(s);
    if HasPrefix(t, '/', '*') {
      var e := IndexClose(t);
      assert forall k :: 0 <= k <= e ==> ClosesAt(turn.comment, k) == ClosesAt(t, k);
      AfterBlockComment(turn.comment, turn.rest);
    } else {
      AfterLineComment(turn.comment, turn.rest);
    }
  }

  // The two scanners walk in step exactly when no skipped comment is /*/ with
  // text after it.
  lemma {:induction false} InStepIff(s: string)
    ensures InStep(s) <==> NoShortComment(s)
    decreases |s|
  {
    var turn := TakeTurn(s);
    if turn.Skip? {
      AfterComment(s);
      InStepIff(turn.rest);
    }
  }

  // What lies before `t` in `s` is whitespace to the lexer, and `t` lexes the
  // same within `s` as on its own.
  ghost predicate LexesAs(s: string, t: string) {
    && |t| <= |s|
    && Lex(s, Code)[|s| - |t|..] == Lex(t, Code)
    && forall i :: 0 <= i < |s| - |t| ==> IsSpace(Lex(s, Code)[i])
  }

  lemma LexesAsTransitive(s: string, t: string, u: string)
    requires LexesAs(s, t) && LexesAs(t, u)
    ensures LexesAs(s, u)
  {
    var x, y := Lex(s, Code), Lex(t, Code);
    assert x[|s| - |u|..] == x[|s| - |t|..][|t| - |u|..];
    forall i | 0 <= i < |s| - |u| ensures IsSpace(x[i]) {
      assert i >= |s| - |t| ==> x[i] == y[i - (|s| - |t|)];
    }
  }

  lemma SpaceLexesAs(s: string)
    requires s != [] && IsSpace(s[0])
    ensures LexesAs(s, s[1..])
  {
    hide IsSpace;
    assert Kept(Code, s[0], s[1..]) && Next(Code, s[0], s[1..]) == Code by { assert IsSpace(s[0]); SpaceIsCode(s[0], s[1..]); }
    assert Lex(s, Code) == [s[0]] + Lex(s[1..], Code);
  }

  lemma SpaceIsCode(c: char, rest: string)
    requires IsSpace(c)
    ensures Kept(Code, c, rest) && Next(Code, c, rest) == Code
  {
  }

  lemma {:induction false} TrimLexesAs(s: string)
    ensures LexesAs(s, TrimLeft(s))
  {
    hide LexesAs, Lex, IsSpace;
    if s != [] && IsSpace(s[0]) {
      SpaceLexesAs(s);
      TrimLexesAs(s[1..]);
      LexesAsTransitive(s, s[1..], TrimLeft(s));
    } else {
      LexesAsItself(s);
    }
  }

  lemma LexesAsItself(s: string)
    ensures LexesAs(s, s)
  {
  }

  lemma CommentLexesAs(comment: string, rest: string)
    requires Vanishes(comment, Code, rest)
    requires rest == "" || After(comment, Code, rest) == Code
    ensures LexesAs(comment + rest, rest)
  {
    LexSplits(comment, rest, Code);
  }

  lemma {:induction false} OpenLineVanishes(s: string)
    requires forall k :: 0 <= k < |s| ==> s[k] != '\n'
    ensures Vanishes(s, Line, "")
  {
    if s != [] {
      OpenLineVanishes(s[1..]);
      VanishesStep(s, Line, "");
    }
  }

  // A line comment that runs to the end vanishes whole.
  lemma OpenLineLexesAs(t: string)
    requires HasPrefix(t, '/', '/') && forall k :: 0 <= k < |t| ==> t[k] != '\n'
    ensures LexesAs(t, "")
  {
    assert t + "" == t && StartsWith(t[1..], '/') && t[1..] + "" == t[1..];
    OpenLineVanishes(t[1..]);
    VanishesStep(t, Code, "");
  }

  // One turn of the scanner: what it drops is whitespace to the lexer.
  lemma TurnLexesAs(s: string)
    requires TakeTurn(s).Skip? ==> TakeTurn(s).comment != "/*/" || TakeTurn(s).rest == ""
    ensures LexesAs(s, if TakeTurn(s).Skip? then TakeTurn(s).rest else TakeTurn(s).text)
  {
    hide Lex, LexesAs, Vanishes, IsSpace, After;
    var t, turn := TrimLeft(s), TakeTurn(s);
    TrimLexesAs(s);
    if turn.Skip? {
      AfterComment(s);
      TurnParts(s);
      CommentLexesAs(turn.comment, turn.rest);
      LexesAsTransitive(s, t, turn.rest);
    } else if turn.text != t {
      OpenLineLexesAs(t);
      LexesAsTransitive(s, t, "");
    }
  }

  // The agreement: with no /*/ comment to mistake, the stripped text is what the
  // lexer sees after nothing but whitespace.
  lemma {:induction false} ScannersAgree(s: string)
    requires NoShortComment(s)
    ensures LexesAs(s, Stripped(s))
    decreases |s|
  {
    hide Lex, LexesAs, TakeTurn;
    var turn := TakeTurn(s);
    TurnLexesAs(s);
    if turn.Skip? {
      ScannersAgree(turn.rest);
      LexesAsTransitive(s, turn.rest, Stripped(s));
    }
  }

  // ---------------------------------------------------------------- when everything is stripped

  // From `mode` the lexer meets nothing but whitespace and comments, each of them closed.
  predicate OnlyComments(s: string, mode: Mode)
    decreases |s|
  {
    if s == [] then mode == Code || mode == Line
    else
      && !mode.Quoted? && !mode.Escaped?
      && (mode == Code ==> IsSpace(s[0]) || (s[0] == '/' && (StartsWith(s[1..], '/') || StartsWith(s[1..], '*'))))
      && OnlyComments(s[1..], Next(mode, s[0], s[1..]))
  }

  // The last comment skipped is the three runes /*/, with nothing after it.
  predicate EndsShort(s: string)
    decreases |s|
  {
    match TakeTurn(s)
    case Stop(_) => false
    case Skip(comment, rest) => (comment == "/*/" && rest == "") || EndsShort(rest)
  }

  lemma SpaceNext(c: char, rest: string)
    requires IsSpace(c)
    ensures Next(Code, c, rest) == Code
  {
  }

  lemma {:induction false} OnlyCommentsTrimmed(s: string)
    ensures OnlyComments(s, Code) <==> OnlyComments(TrimLeft(s), Code)
  {
    if s != [] && IsSpace(s[0]) {
      SpaceNext(s[0], s[1..]);
      OnlyCommentsTrimmed(s[1..]);
    }
  }

  lemma {:induction false} OnlyCommentsInBlock(body: string, rest: string)
    requires |body| >= 2 && ClosesAt(body, |body| - 2)
    requires forall k :: 0 <= k < |body| - 2 ==> !ClosesAt(body, k)
    ensures OnlyComments(body + rest, Block) <==> OnlyComments(rest, Code)
    decreases |body|
  {
    var s := body + rest;
    assert s[1..] == body[1..] + rest && s[1] == body[1];
    if |body| == 2 {
      assert s[1..][1..] == rest;
    } else {
      assert !ClosesAt(body, 0);
      assert forall k :: 0 <= k < |body| - 1 ==> ClosesAt(body[1..], k) == ClosesAt(body, k + 1);
      OnlyCommentsInBlock(body[1..], rest);
    }
  }

  lemma {:induction false} OpenBlockIsMore(body: string)
    requires forall k :: 0 <= k < |body| ==> !ClosesAt(body, k)
    ensures !OnlyComments(body, Block)
    decreases |body|
  {
    if body != [] {
      assert !ClosesAt(body, 0);
      assert forall k :: 0 <= k < |body| - 1 ==> ClosesAt(body[1..], k) == ClosesAt(body, k + 1);
      OpenBlockIsMore(body[1..]);
    }
  }

  lemma {:induction false} OnlyCommentsInLine(body: string, rest: string)
    requires body != [] && body[|body| - 1] == '\n' && forall k :: 0 <= k < |body| - 1 ==> body[k] != '\n'
    ensures OnlyComments(body + rest, Line) <==> OnlyComments(rest, Code)
    decreases |body|
  {
    var s := body + rest;
    assert s[1..] == body[1..] + rest;
    if |body| > 1 {
      OnlyCommentsInLine(body[1..], rest);
    } else {
      assert s[1..] == rest;
    }
  }

  lemma {:induction false} OpenLineIsComment(body: string)
    requires forall k :: 0 <= k < |body| ==> body[k] != '\n'
    ensures OnlyComments(body, Line)
  {
    if body != [] {
      OpenLineIsComment(body[1..]);
    }
  }

  // The two runes that open a comment.
  lemma OpensBlock(s: string)
    requires HasPrefix(s, '/', '*')
    ensures OnlyComments(s, Code) <==> OnlyComments(s[2..], Block)
  {
    assert s[1..][1..] == s[2..] && StartsWith(s[1..], '*');
  }

  lemma OpensLine(s: string)
    requires HasPrefix(s, '/', '/')
    ensures OnlyComments(s, Code) <==> OnlyComments(s[1..], Line)
  {
    assert StartsWith(s[1..], '/');
  }

  lemma SkippedBlock(t: string, e: nat)
    requires HasPrefix(t, '/', '*') && ClosesAt(t, e) && forall k :: 0 <= k < e ==> !ClosesAt(t, k)
    ensures t[..e + 2] != "/*/" ==> (OnlyComments(t, Code) <==> OnlyComments(t[e + 2..], Code))
  {
    OpensBlock(t);
    if e == 1 {
      assert t[..3] == "/*/";
    } else {
      var body := t[2..e + 2];
      assert t[2..] == body + t[e + 2..];
      assert forall k :: 0 <= k < |body| ==> ClosesAt(body, k) == (k + 1 < |body| && ClosesAt(t, k + 2));
      OnlyCommentsInBlock(body, t[e + 2..]);
    }
  }

  lemma ShortIsOpen()
    ensures !OnlyComments("/*/", Code)
  {
    OpensBlock("/*/");
    assert "/*/"[2..] == "/" && "/"[1..] == "";
  }

  lemma SkippedLine(t: string, e: nat)
    requires HasPrefix(t, '/', '/') && e < |t| && t[e] == '\n' && forall k :: 0 <= k < e ==> t[k] != '\n'
    ensures OnlyComments(t, Code) <==> OnlyComments(t[e + 1..], Code)
  {
    OpensLine(t);
    var body := t[1..e + 1];
    assert t[1..] == body + t[e + 1..];
    OnlyCommentsInLine(body, t[e + 1..]);
  }

  lemma SkipKeeps(s: string)
    requires TakeTurn(s).Skip?
    ensures TakeTurn(s).comment != "/*/" ==> (OnlyComments(s, Code) <==> OnlyComments(TakeTurn(s).rest, Code))
    ensures TakeTurn(s).comment == "/*/" && TakeTurn(s).rest == "" ==> !OnlyComments(s, Code)
  {
    hide OnlyComments;
    var t, turn := TrimLeft(s), TakeTurn(s);
    OnlyCommentsTrimmed(s);
    TurnParts(s);
    if HasPrefix(t, '/', '*') {
      SkippedBlock(t, IndexClose(t));
      ShortIsOpen();
      assert turn.rest == "" ==> turn.comment == t;
    } else {
      SkippedLine(t, IndexNewline(t));
    }
  }

  lemma StopIsMore(s: string)
    requires TakeTurn(s).Stop?
    ensures OnlyComments(s, Code) <==> TakeTurn(s).text == ""
  {
    var t := TrimLeft(s);
    OnlyCommentsTrimmed(s);
    if HasPrefix(t, '/', '*') {
      OpensBlock(t);
      assert forall k :: 0 <= k < |t[2..]| ==> ClosesAt(t[2..], k) == ClosesAt(t, k + 2);
      OpenBlockIsMore(t[2..]);
    } else if HasPrefix(t, '/', '/') {
      OpensLine(t);
      OpenLineIsComment(t[1..]);
    }
  }

  // With no /*/ to mistake, stripping leaves nothing if and only if the lexer finds
  // nothing but whitespace and closed comments, or the text ends in /*/.
  lemma {:induction false} AllStrippedIff(s: string)
    requires NoShortComment(s)
    ensures Stripped(s) == "" <==> OnlyComments(s, Code) || EndsShort(s)
    decreases |s|
  {
    hide TakeTurn, OnlyComments;
    var turn := TakeTurn(s);
    if turn.Skip? {
      AllStrippedIff(turn.rest);
      SkipKeeps(s);
      if turn.rest == "" {
        NothingLeft();
      }
    } else {
      StopIsMore(s);
    }
  }

  lemma NothingLeft()
    ensures Stripped("") == "" && !EndsShort("") && OnlyComments("", Code)
  {
  }

  // Without the condition the scanners disagree.
  lemma ShortCommentDisagrees()
    ensures !NoShortComment("/*/a")
    ensures Stripped("/*/a") == "a" && !LexesAs("/*/a", "a")
  {
    var s := "/*/a";
    assert TrimLeft(s) == s && ClosesAt(s, 1) && !ClosesAt(s, 0);
    assert IndexClose(s) == 1;
    assert s[..3] == "/*/" && s[3..] == "a";
    assert TakeTurn(s) == Skip("/*/", "a");
    assert TrimLeft("a") == "a" && TakeTurn("a") == Stop("a");
    LexAt(s, Code, 3);
    AfterBlockComment("/*/", "a");
    assert s[..3] == "/*/" && Lex(s, Code)[3] == ' ';
    assert Lex("a", Code)[0] == 'a' && Lex(s, Code)[3..][0] == ' ';
  }

  lemma BlockTurn(s: string, e: nat)
    requires HasPrefix(s, '/', '*') && ClosesAt(s, e) && forall k :: 0 <= k < e ==> !ClosesAt(s, k)
    ensures TakeTurn(s) == Skip(s[..e + 2], s[e + 2..])
  {
    assert TrimLeft(s) == s && IndexClose(s) == e;
  }

  lemma TurnSkipsSpace(t: string)
    ensures TakeTurn(" " + t) == TakeTurn(t)
  {
    assert (" " + t)[1..] == t;
  }

  lemma StripsTwice()
    ensures !NoShortComment("/*/ /**/a") && Stripped("/*/ /**/a") == "a"
  {
    hide TakeTurn, IndexClose;
    var s, t := "/*/ /**/a", "/**/a";
    BlockTurn(s, 1);
    assert s[..3] == "/*/" && s[3..] == " " + t;
    TurnSkipsSpace(t);
    BlockTurn(t, 2);
    assert t[..4] == "/**/" && t[4..] == "a";
    assert TakeTurn("a") == Stop("a") by { LetterStops(); }
  }

  lemma LetterStops()
    ensures TakeTurn("a") == Stop("a")
  {
  }

  // The condition is more than agreement needs: here the lexer ends its own block
  // comment where the stripping scanner ends a second one.
  lemma AgreementByChance()
    ensures !NoShortComment("/*/ /**/a")
    ensures Stripped("/*/ /**/a") == "a" && LexesAs("/*/ /**/a", "a")
  {
    hide Lex, LexesAs, Vanishes, After, NoShortComment, Stripped;
    var s := "/*/ /**/a";
    StripsTwice();
    AfterOpenedBlock(s[..8], "a");
    CommentLexesAs(s[..8], "a");
    assert s[..8] + "a" == s;
  }
}
