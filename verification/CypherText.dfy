// Which runes of Cypher text are code, and which are quoted or commented out.
module CypherText {

  // ---------------------------------------------------------------- lexer

  // What the rune about to be read belongs to. Escaped follows a backslash in a
  // string; BlockOpen and BlockClose are the second runes of the two-rune
  // comment brackets.
  datatype Mode =
    | Code
    | Quoted(quote: char)
    | Escaped(quote: char)
    | Line
    | BlockOpen
    | Block
    | BlockClose

  predicate IsQuote(c: char) {
    c == '\'' || c == '"' || c == '`'
  }

  predicate StartsWith(s: string, c: char) {
    s != [] && s[0] == c
  }

  // Is rune `c`, read in `mode` with `rest` after it, part of the code?
  predicate Kept(mode: Mode, c: char, rest: string) {
    match mode
    case Code => !IsQuote(c) && !(c == '/' && (StartsWith(rest, '/') || StartsWith(rest, '*')))
    case Line => c == '\n'
    case _ => false
  }

  function Next(mode: Mode, c: char, rest: string): Mode {
    match mode
    case Code =>
      if IsQuote(c) then Quoted(c)
      else if c == '/' && StartsWith(rest, '/') then Line
      else if c == '/' && StartsWith(rest, '*') then BlockOpen
      else Code
    case Quoted(q) => if c == '\\' && q != '`' then Escaped(q) else if c == q then Code else Quoted(q)
    case Escaped(q) => Quoted(q)
    case Line => if c == '\n' then Code else Line
    case BlockOpen => Block
    case Block => if c == '*' && StartsWith(rest, '/') then BlockClose else Block
    case BlockClose => Code
  }

  // The text with everything but code blanked out, rune by rune.
  function Lex(s: string, mode: Mode): (out: string)
    ensures |out| == |s|
  {
    if s == [] then []
    else [if Kept(mode, s[0], s[1..]) then s[0] else ' '] + Lex(s[1..], Next(mode, s[0], s[1..]))
  }

  function Blanks(n: nat): string {
    seq(n, _ => ' ')
  }

  // The mode after reading all of `s` with `rest` following.
  function After(s: string, mode: Mode, rest: string): Mode {
    if s == [] then mode else After(s[1..], Next(mode, s[0], s[1..] + rest), rest)
  }

  // Lexing a text in two pieces: the second starts in the mode the first leaves.
  lemma {:induction false} LexSplits(s: string, rest: string, mode: Mode)
    ensures Lex(s + rest, mode)[..|s|] + Lex(rest, After(s, mode, rest)) == Lex(s + rest, mode)
  {
    if s == [] {
      assert s + rest == rest;
    } else {
      assert (s + rest)[1..] == s[1..] + rest;
      LexSplits(s[1..], rest, Next(mode, s[0], s[1..] + rest));
    }
  }

  // Each rune of the result is the source's rune exactly when the lexer is in
  // code there, and a blank otherwise.
  lemma {:induction false} LexAt(s: string, mode: Mode, i: nat)
    requires i < |s|
    ensures Lex(s, mode)[i] == if Kept(After(s[..i], mode, s[i..]), s[i], s[i + 1..]) then s[i] else ' '
  {
    if i == 0 {
      assert s[..0] == [];
    } else {
      LexAt(s[1..], Next(mode, s[0], s[1..]), i - 1);
      assert s[..i][1..] == s[1..][..i - 1];
      assert s[1..][..i - 1] + s[i..] == s[1..];
      assert s[1..][i - 1..] == s[i..] && s[1..][i..] == s[i + 1..];
    }
  }

  // Nothing that opens a quote or a comment survives, so lexing the result again
  // changes nothing.
  lemma {:induction false} LexIdempotent(s: string, mode: Mode)
    ensures Lex(Lex(s, mode), Code) == Lex(s, mode)
  {
    if s != [] {
      var out, next := Lex(s, mode), Next(mode, s[0], s[1..]);
      var tail := Lex(s[1..], next);
      LexIdempotent(s[1..], next);
      assert out[1..] == tail;
      if |s| > 1 {
        assert tail[0] == s[1] || tail[0] == ' ';
      }
      assert Next(Code, out[0], tail) == Code && Kept(Code, out[0], tail);
    }
  }

  // ---------------------------------------------------------------- the forms that are not code

  // Text between the quotes of a string: no quote and no backslash, except that a
  // backslash takes the rune after it along.
  predicate InString(body: string, quote: char) {
    if body == [] then true
    else if body[0] == '\\' then |body| > 1 && InString(body[2..], quote)
    else body[0] != quote && InString(body[1..], quote)
  }

  lemma BlankThen(n: nat, rest: string)
    ensures [' '] + (Blanks(n) + rest) == Blanks(n + 1) + rest
  {
  }

  lemma {:induction false} BodyBlank(body: string, quote: char, rest: string)
    requires if quote == '`' then quote !in body else InString(body, quote) && (quote == '\'' || quote == '"')
    ensures Lex(body + ([quote] + rest), Quoted(quote)) == Blanks(|body| + 1) + Lex(rest, Code)
    decreases |body|
  {
    var s := body + ([quote] + rest);
    if body == [] {
      assert s[1..] == rest;
      BlankThen(0, Lex(rest, Code));
    } else if body[0] == '\\' && quote != '`' {
      BodyBlank(body[2..], quote, rest);
      assert s[1..] == body[1..] + ([quote] + rest) && s[1..][1..] == body[2..] + ([quote] + rest);
      BlankThen(|body| - 1, Lex(rest, Code));
      BlankThen(|body|, Lex(rest, Code));
      assert Lex(s[1..], Escaped(quote)) == [' '] + Lex(s[1..][1..], Quoted(quote));
    } else {
      BodyBlank(body[1..], quote, rest);
      assert s[1..] == body[1..] + ([quote] + rest);
      BlankThen(|body|, Lex(rest, Code));
    }
  }

  // A string in either kind of quotes and a name in backticks are blank, and what
  // follows is read as if alone.
  lemma QuotedForms(body: string, rest: string)
    ensures InString(body, '\'') ==> Lex("'" + body + "'" + rest, Code) == Blanks(|body| + 2) + Lex(rest, Code)
    ensures InString(body, '"') ==> Lex("\"" + body + "\"" + rest, Code) == Blanks(|body| + 2) + Lex(rest, Code)
    ensures '`' !in body ==> Lex("`" + body + "`" + rest, Code) == Blanks(|body| + 2) + Lex(rest, Code)
  {
    forall quote | quote in ['\'', '"', '`'] && if quote == '`' then quote !in body else InString(body, quote)
      ensures Lex([quote] + body + [quote] + rest, Code) == Blanks(|body| + 2) + Lex(rest, Code) {
      BodyBlank(body, quote, rest);
      var s := [quote] + body + [quote] + rest;
      assert s[1..] == body + ([quote] + rest);
      BlankThen(|body| + 1, Lex(rest, Code));
    }
    assert ['\''] == "'" && ['"'] == "\"" && ['`'] == "`";
  }

  lemma {:induction false} LineBlank(body: string, rest: string)
    requires '\n' !in body
    ensures Lex(body + ("\n" + rest), Line) == Blanks(|body|) + ("\n" + Lex(rest, Code))
  {
    var s := body + ("\n" + rest);
    if body == [] {
      assert s[1..] == rest && Blanks(0) + ("\n" + Lex(rest, Code)) == "\n" + Lex(rest, Code);
    } else {
      LineBlank(body[1..], rest);
      assert s[1..] == body[1..] + ("\n" + rest);
      BlankThen(|body| - 1, "\n" + Lex(rest, Code));
    }
  }

  // A line comment is blank up to its newline, which is code.
  lemma LineForm(body: string, rest: string)
    requires '\n' !in body
    ensures Lex("//" + body + "\n" + rest, Code) == Blanks(|body| + 2) + "\n" + Lex(rest, Code)
  {
    var s := "//" + body + "\n" + rest;
    assert s[1..] == "/" + body + ("\n" + rest);
    assert StartsWith(s[1..], '/');
    LineBlank("/" + body, rest);
    BlankThen(|body| + 1, "\n" + Lex(rest, Code));
    assert Blanks(|body| + 2) + "\n" + Lex(rest, Code) == Blanks(|body| + 2) + ("\n" + Lex(rest, Code));
  }

  // The first closing bracket is the one behind the body.
  predicate InBlock(body: string) {
    forall i :: 0 <= i < |body| ==> !(body[i] == '*' && (body + "*/")[i + 1] == '/')
  }

  lemma {:induction false} BlockBlank(body: string, rest: string)
    requires InBlock(body)
    ensures Lex(body + ("*/" + rest), Block) == Blanks(|body| + 2) + Lex(rest, Code)
  {
    var s := body + ("*/" + rest);
    if body == [] {
      assert s[1..] == "/" + rest && s[1..][1..] == rest;
      assert StartsWith(s[1..], '/');
      BlankThen(0, Lex(rest, Code));
      BlankThen(1, Lex(rest, Code));
    } else {
      forall i | 0 <= i < |body[1..]| ensures !(body[1..][i] == '*' && (body[1..] + "*/")[i + 1] == '/') {
        assert body[1..][i] == body[i + 1] && (body[1..] + "*/")[i + 1] == (body + "*/")[i + 2];
      }
      BlockBlank(body[1..], rest);
      assert s[1..] == body[1..] + ("*/" + rest) && s[1..][0] == (body + "*/")[1];
      BlankThen(|body| + 1, Lex(rest, Code));
    }
  }

  // So is a block comment up to its closing bracket.
  lemma BlockForm(body: string, rest: string)
    requires InBlock(body)
    ensures Lex("/*" + body + "*/" + rest, Code) == Blanks(|body| + 4) + Lex(rest, Code)
  {
    var s := "/*" + body + "*/" + rest;
    assert s[1..] == "*" + (body + ("*/" + rest)) && s[1..][1..] == body + ("*/" + rest);
    assert StartsWith(s[1..], '*') && !StartsWith(s[1..], '/');
    BlockBlank(body, rest);
    BlankThen(|body| + 2, Lex(rest, Code));
    BlankThen(|body| + 3, Lex(rest, Code));
    assert Lex(s[1..], BlockOpen) == [' '] + Lex(s[1..][1..], Block);
  }

  // Any other rune is code.
  lemma CodeForm(c: char, rest: string)
    requires c != '\'' && c != '"' && c != '`'
    requires c == '/' ==> rest == [] || (rest[0] != '/' && rest[0] != '*')
    ensures Lex([c] + rest, Code) == [c] + Lex(rest, Code)
  {
    assert ([c] + rest)[1..] == rest;
  }

  // ---------------------------------------------------------------- cypherCode

  // From `start`, everything up to `end` is blank and `mode` is where it leaves the lexer.
  ghost predicate BlankTo(src: string, start: nat, end: nat, mode: Mode)
    requires start <= end <= |src|
  {
    Lex(src[start..], Code) == Blanks(end - start) + Lex(src[end..], mode)
  }

  lemma BlankOneMore(src: string, start: nat, end: nat, mode: Mode)
    requires start <= end < |src| && BlankTo(src, start, end, mode)
    requires !Kept(mode, src[end], src[end + 1..])
    ensures BlankTo(src, start, end + 1, Next(mode, src[end], src[end + 1..]))
  {
    assert Blanks(end - start) + [' '] == Blanks(end + 1 - start);
  }

  lemma BlankInQuote(src: string, start: nat, i: nat, quote: char)
    requires start <= i < |src| && BlankTo(src, start, i, Quoted(quote))
    ensures src[i] == '\\' && quote != '`' ==>
      if i + 1 < |src| then BlankTo(src, start, i + 2, Quoted(quote)) else BlankTo(src, start, |src|, Escaped(quote))
    ensures !(src[i] == '\\' && quote != '`') ==>
      BlankTo(src, start, i + 1, if src[i] == quote then Code else Quoted(quote))
  {
    BlankOneMore(src, start, i, Quoted(quote));
    if src[i] == '\\' && quote != '`' && i + 1 < |src| {
      BlankOneMore(src, start, i + 1, Escaped(quote));
    }
  }

  // The index just past the quoted run that opens at `start`.
  method SkipQuoted(src: string, start: nat) returns (end: nat)
    requires start < |src| && IsQuote(src[start])
    ensures start < end <= |src| && (end < |src| ==> BlankTo(src, start, end, Code))
    ensures end == |src| ==> Lex(src[start..], Code) == Blanks(|src| - start)
  {
    var quote := src[start];
    assert BlankTo(src, start, start, Code);
    BlankOneMore(src, start, start, Code);
    var i := start + 1;
    while i < |src|
      invariant start < i <= |src| + 1
      invariant i <= |src| ==> BlankTo(src, start, i, Quoted(quote))
      invariant i > |src| ==> BlankTo(src, start, |src|, Escaped(quote))
    {
      BlankInQuote(src, start, i, quote);
      if src[i] == '\\' && quote != '`' {
        i := i + 1;
      } else if src[i] == quote {
        return i + 1;
      }
      i := i + 1;
    }
    end := |src|;
  }

  // The index of the newline that ends the line comment at `start`, or the end.
  method SkipLine(src: string, start: nat) returns (end: nat)
    requires start + 1 < |src| && src[start] == '/' && src[start + 1] == '/'
    ensures start < end <= |src| && BlankTo(src, start, end, Code)
  {
    assert BlankTo(src, start, start, Code);
    BlankOneMore(src, start, start, Code);
    var i := start + 1;
    while i < |src| && src[i] != '\n'
      invariant start < i <= |src|
      invariant BlankTo(src, start, i, Line)
    {
      BlankOneMore(src, start, i, Line);
      i := i + 1;
    }
    end := i;
  }

  // The index just past the block comment at `start`, or beyond the end if it never closes.
  method SkipBlock(src: string, start: nat) returns (end: nat)
    requires start + 1 < |src| && src[start] == '/' && src[start + 1] == '*'
    ensures start < end <= |src| + 2
    ensures end <= |src| ==> BlankTo(src, start, end, Code)
    ensures end > |src| ==> Lex(src[start..], Code) == Blanks(|src| - start)
  {
    assert BlankTo(src, start, start, Code);
    BlankOneMore(src, start, start, Code);
    assert Next(Code, src[start], src[start + 1..]) == BlockOpen;
    BlankOneMore(src, start, start + 1, BlockOpen);
    var i := start + 2;
    while i < |src| && !(src[i] == '*' && i + 1 < |src| && src[i + 1] == '/')
      invariant start + 2 <= i <= |src|
      invariant BlankTo(src, start, i, Block)
    {
      BlankOneMore(src, start, i, Block);
      i := i + 1;
    }
    end := i + 2;
    if i < |src| {
      BlankOneMore(src, start, i, Block);
      assert Next(Block, src[i], src[i + 1..]) == BlockClose;
      BlankOneMore(src, start, i + 1, BlockClose);
    }
  }

  // What the scanner has written so far, followed by the lexer's view of the rest.
  ghost predicate ScannedTo(src: string, out: string, i: nat)
    requires |out| == |src|
  {
    if i <= |src| then Lex(src, Code) == out[..i] + Lex(src[i..], Code) else Lex(src, Code) == out
  }

  lemma SkipBlanks(src: string, out: string, i: nat, j: nat)
    requires |out| == |src| && i <= |src| && i <= j && ScannedTo(src, out, i)
    requires forall k :: i <= k < |src| ==> out[k] == ' '
    requires if j <= |src| then BlankTo(src, i, j, Code) || (j == |src| && Lex(src[i..], Code) == Blanks(|src| - i))
             else Lex(src[i..], Code) == Blanks(|src| - i)
    ensures ScannedTo(src, out, j)
  {
    if j <= |src| {
      assert out[..j] == out[..i] + Blanks(j - i);
    } else {
      assert out == out[..i] + Blanks(|src| - i);
    }
  }

  lemma KeepRune(src: string, out: string, i: nat)
    requires |out| == |src| && i < |src| && ScannedTo(src, out, i) && Kept(Code, src[i], src[i + 1..])
    ensures ScannedTo(src, out[i := src[i]], i + 1)
  {
    assert out[i := src[i]][..i + 1] == out[..i] + [src[i]];
  }

  // The scanner over the statement: no index leaves the text, whatever is left
  // unterminated, and the result is the lexer's.
  method CypherCode(src: string) returns (code: string)
    ensures code == Lex(src, Code)
  {
    var out := new char[|src|](_ => ' ');
    var i: nat := 0;
    while i < |src|
      invariant i <= |src| + 2
      invariant forall k :: i <= k < |src| ==> out[k] == ' '
      invariant ScannedTo(src, out[..], i)
      decreases |src| - i
    {
      var c := src[i];
      if c == '\'' || c == '"' || c == '`' {
        var j := SkipQuoted(src, i);
        SkipBlanks(src, out[..], i, j);
        i := j;
      } else if c == '/' && i + 1 < |src| && src[i + 1] == '/' {
        var j := SkipLine(src, i);
        SkipBlanks(src, out[..], i, j);
        i := j;
      } else if c == '/' && i + 1 < |src| && src[i + 1] == '*' {
        var j := SkipBlock(src, i);
        SkipBlanks(src, out[..], i, j);
        i := j;
      } else {
        ghost var sofar := out[..];
        out[i] := c;
        assert out[..] == sofar[i := c];
        KeepRune(src, sofar, i);
        i := i + 1;
      }
    }
    code := out[..];
  }

  // ---------------------------------------------------------------- doubled quotes

  // The other reading of a doubled quote: not a close and a reopen, but an
  // escape that keeps the scanner inside one quoted run.
  datatype DoublingMode = Plain(mode: Mode) | SecondQuote(quote: char)

  function NextDoubling(m: DoublingMode, c: char, rest: string): DoublingMode {
    match m
    case SecondQuote(q) => Plain(Quoted(q))
    case Plain(Quoted(q)) => if c == q && StartsWith(rest, q) then SecondQuote(q) else Plain(Next(Quoted(q), c, rest))
    case Plain(mode) => Plain(Next(mode, c, rest))
  }

  function LexDoubling(s: string, m: DoublingMode): string {
    if s == [] then []
    else [if m.Plain? && Kept(m.mode, s[0], s[1..]) then s[0] else ' '] + LexDoubling(s[1..], NextDoubling(m, s[0], s[1..]))
  }

  // Both readings blank the same runes, for every kind of quote and whether or
  // not the run is closed.
  lemma {:induction false} DoublingIsInvisible(s: string, mode: Mode)
    requires mode.Quoted? || mode.Escaped? ==> IsQuote(mode.quote)
    ensures LexDoubling(s, Plain(mode)) == Lex(s, mode)
    decreases |s|
  {
    if s != [] {
      if mode.Quoted? && s[0] == mode.quote && StartsWith(s[1..], mode.quote) {
        var q := mode.quote;
        DoublingIsInvisible(s[2..], mode);
        assert s[1..][1..] == s[2..];
        assert LexDoubling(s[1..], SecondQuote(q)) == [' '] + LexDoubling(s[2..], Plain(mode));
        assert q != '\\' && Next(mode, q, s[1..]) == Code && Next(Code, q, s[2..]) == mode;
        assert Lex(s[1..], Code) == [' '] + Lex(s[2..], mode);
      } else {
        DoublingIsInvisible(s[1..], Next(mode, s[0], s[1..]));
      }
    }
  }

  // ---------------------------------------------------------------- parameter references

  predicate IsNameStart(c: char) {
    'A' <= c <= 'Z' || 'a' <= c <= 'z' || c == '_'
  }

  predicate IsNameChar(c: char) {
    IsNameStart(c) || '0' <= c <= '9'
  }

  predicate IsName(s: string) {
    s != [] && IsNameStart(s[0]) && forall i :: 0 <= i < |s| ==> IsNameChar(s[i])
  }

  // How many name characters the text begins with.
  function NameLength(s: string): (n: nat)
    ensures n <= |s|
    ensures forall i :: 0 <= i < n ==> IsNameChar(s[i])
    ensures n < |s| ==> !IsNameChar(s[n])
  {
    if s == [] || !IsNameChar(s[0]) then 0 else 1 + NameLength(s[1..])
  }

  // Every match of \$([A-Za-z_][A-Za-z0-9_]*), leftmost and longest, in order.
  function Refs(code: string): seq<string>
    decreases |code|
  {
    if code == [] then []
    else if code[0] == '$' && |code| > 1 && IsNameStart(code[1]) then
      var n := NameLength(code[1..]);
      [code[1..1 + n]] + Refs(code[1 + n..])
    else Refs(code[1..])
  }

  lemma {:induction false} RefsAreNames(code: string)
    ensures forall r :: r in Refs(code) ==> IsName(r)
    decreases |code|
  {
    if code == [] {
    } else if code[0] == '$' && |code| > 1 && IsNameStart(code[1]) {
      var n := NameLength(code[1..]);
      assert code[1..1 + n] == code[1..][..n];
      RefsAreNames(code[1 + n..]);
    } else {
      RefsAreNames(code[1..]);
    }
  }

  // Text without '$' in front adds no reference.
  lemma {:induction false} RefsSkip(quiet: string, rest: string)
    requires forall i :: 0 <= i < |quiet| ==> quiet[i] != '$'
    ensures Refs(quiet + rest) == Refs(rest)
  {
    if quiet == [] {
      assert quiet + rest == rest;
    } else {
      assert (quiet + rest)[1..] == quiet[1..] + rest;
      RefsSkip(quiet[1..], rest);
    }
  }

  lemma {:induction false} NameLengthOf(name: string, rest: string)
    requires forall i :: 0 <= i < |name| ==> IsNameChar(name[i])
    requires rest == [] || !IsNameChar(rest[0])
    ensures NameLength(name + rest) == |name|
  {
    if name == [] {
      assert name + rest == rest;
    } else {
      assert (name + rest)[1..] == name[1..] + rest;
      NameLengthOf(name[1..], rest);
    }
  }

  // A reference followed by anything that cannot extend its name is found.
  lemma RefsFind(name: string, rest: string)
    requires IsName(name) && (rest == [] || !IsNameChar(rest[0]))
    ensures Refs("$" + name + rest) == [name] + Refs(rest)
  {
    var code := "$" + name + rest;
    assert code[1..] == name + rest;
    NameLengthOf(name, rest);
    assert code[1..1 + |name|] == name && code[1 + |name|..] == rest;
  }
}
