// The printers that put caller-supplied text into Cypher.
module Quoting {
  import opened CypherText
  import opened Wrappers

  // strings.ReplaceAll for a one-rune pattern.
  function ReplaceAll(s: string, c: char, with: string): string {
    if s == [] then [] else (if s[0] == c then with else [s[0]]) + ReplaceAll(s[1..], c, with)
  }

  function QuoteIdentifier(s: string): string {
    "`" + ReplaceAll(s, '`', "``") + "`"
  }

  function QuoteLiteral(s: string): string {
    "'" + ReplaceAll(ReplaceAll(s, '\\', "\\\\"), '\'', "\\'") + "'"
  }

  // ---------------------------------------------------------------- opaque to the lexer

  lemma BlanksPrepend(n: nat, rest: string)
    ensures [' '] + (Blanks(n) + rest) == Blanks(n + 1) + rest
  {
  }

  lemma {:induction false} IdentifierBodyIsOpaque(s: string, rest: string)
    ensures Lex(ReplaceAll(s, '`', "``") + "`" + rest, Quoted('`'))
         == Blanks(|ReplaceAll(s, '`', "``")| + 1) + Lex(rest, Code)
  {
    var body := ReplaceAll(s, '`', "``");
    var text := body + "`" + rest;
    if s == [] {
      assert text[1..] == rest;
    } else {
      var tail := ReplaceAll(s[1..], '`', "``") + "`" + rest;
      IdentifierBodyIsOpaque(s[1..], rest);
      if s[0] == '`' {
        assert text == ['`'] + (['`'] + tail);
        BlanksPrepend(|body| - 1, Lex(rest, Code));
        BlanksPrepend(|body|, Lex(rest, Code));
      } else {
        assert text == [s[0]] + tail;
        BlanksPrepend(|body|, Lex(rest, Code));
      }
    }
  }

  // Whatever the name holds, a quoted identifier is blank to the lexer and leaves
  // it in code for whatever follows.
  lemma IdentifierIsOpaque(s: string, rest: string)
    ensures Lex(QuoteIdentifier(s) + rest, Code) == Blanks(|QuoteIdentifier(s)|) + Lex(rest, Code)
  {
    var text := QuoteIdentifier(s) + rest;
    assert text[1..] == ReplaceAll(s, '`', "``") + "`" + rest;
    IdentifierBodyIsOpaque(s, rest);
  }

  // The two replacement passes amount to escaping rune by rune.
  function EscapeRune(c: char): string {
    if c == '\\' then "\\\\" else if c == '\'' then "\\'" else [c]
  }

  function Escape(s: string): string {
    if s == [] then [] else EscapeRune(s[0]) + Escape(s[1..])
  }

  lemma {:induction false} ReplaceAllConcat(s: string, t: string, c: char, with: string)
    ensures ReplaceAll(s + t, c, with) == ReplaceAll(s, c, with) + ReplaceAll(t, c, with)
  {
    if s == [] {
      assert s + t == t;
    } else {
      assert (s + t)[1..] == s[1..] + t;
      ReplaceAllConcat(s[1..], t, c, with);
    }
  }

  lemma {:induction false} TwoPassesEscape(s: string)
    ensures ReplaceAll(ReplaceAll(s, '\\', "\\\\"), '\'', "\\'") == Escape(s)
  {
    if s != [] {
      var first := if s[0] == '\\' then "\\\\" else [s[0]];
      TwoPassesEscape(s[1..]);
      ReplaceAllConcat(first, ReplaceAll(s[1..], '\\', "\\\\"), '\'', "\\'");
      assert ReplaceAll(first, '\'', "\\'") == EscapeRune(s[0]) by {
        assert first[1..] == if s[0] == '\\' then "\\" else "";
        assert "\\"[1..] == "";
        assert ReplaceAll("\\", '\'', "\\'") == "\\" + ReplaceAll("", '\'', "\\'");
      }
    }
  }

  lemma EscapedRuneIsOpaque(c: char, tail: string)
    ensures Lex(EscapeRune(c) + tail, Quoted('\'')) == Blanks(|EscapeRune(c)|) + Lex(tail, Quoted('\''))
  {
    if |EscapeRune(c)| == 2 {
      assert EscapeRune(c) + tail == ['\\'] + ([c] + tail);
    }
  }

  lemma BlanksAdd(m: nat, n: nat, rest: string)
    ensures Blanks(m) + (Blanks(n) + rest) == Blanks(m + n) + rest
  {
  }

  lemma {:induction false} LiteralBodyIsOpaque(s: string, rest: string)
    ensures Lex(Escape(s) + ("'" + rest), Quoted('\'')) == Blanks(|Escape(s)| + 1) + Lex(rest, Code)
  {
    if s == [] {
      assert Escape(s) + ("'" + rest) == ['\''] + rest;
    } else {
      var tail := Escape(s[1..]) + ("'" + rest);
      LiteralBodyIsOpaque(s[1..], rest);
      assert Escape(s) + ("'" + rest) == EscapeRune(s[0]) + tail;
      EscapedRuneIsOpaque(s[0], tail);
      BlanksAdd(|EscapeRune(s[0])|, |Escape(s[1..])| + 1, Lex(rest, Code));
    }
  }

  lemma LiteralIsOpaque(s: string, rest: string)
    ensures Lex(QuoteLiteral(s) + rest, Code) == Blanks(|QuoteLiteral(s)|) + Lex(rest, Code)
  {
    var text := QuoteLiteral(s) + rest;
    TwoPassesEscape(s);
    assert text[1..] == Escape(s) + ("'" + rest);
    LiteralBodyIsOpaque(s, rest);
  }

  // ---------------------------------------------------------------- invertible

  // Reads the rest of a backtick identifier whose opening quote is gone.
  function ReadIdentifierBody(t: string): Option<(string, string)>
    decreases |t|
  {
    if t == [] then None
    else if t[0] != '`' then Cons(t[0], ReadIdentifierBody(t[1..]))
    else if |t| > 1 && t[1] == '`' then Cons('`', ReadIdentifierBody(t[2..]))
    else Some(([], t[1..]))
  }

  function Cons(c: char, r: Option<(string, string)>): Option<(string, string)> {
    match r
    case None => None
    case Some((name, rest)) => Some(([c] + name, rest))
  }

  // A name and the text after it, read from the front of `t`.
  function ReadIdentifier(t: string): (r: Option<(string, string)>)
    ensures r.Some? ==> |r.value.1| < |t|
  {
    if !StartsWith(t, '`') then None
    else
      ReadIdentifierBodyShrinks(t[1..]);
      ReadIdentifierBody(t[1..])
  }

  lemma {:induction false} ReadIdentifierBodyShrinks(t: string)
    ensures ReadIdentifierBody(t).Some? ==> |ReadIdentifierBody(t).value.1| <= |t|
    decreases |t|
  {
    if t == [] {
    } else if t[0] != '`' {
      ReadIdentifierBodyShrinks(t[1..]);
    } else if |t| > 1 && t[1] == '`' {
      ReadIdentifierBodyShrinks(t[2..]);
    }
  }

  lemma {:induction false} IdentifierBodyRoundTrip(s: string, rest: string)
    requires !StartsWith(rest, '`')
    ensures ReadIdentifierBody(ReplaceAll(s, '`', "``") + "`" + rest) == Some((s, rest))
  {
    var text := ReplaceAll(s, '`', "``") + "`" + rest;
    if s == [] {
      assert text[1..] == rest;
    } else {
      var tail := ReplaceAll(s[1..], '`', "``") + "`" + rest;
      IdentifierBodyRoundTrip(s[1..], rest);
      assert [s[0]] + s[1..] == s;
      if s[0] == '`' {
        assert text[2..] == tail;
      } else {
        assert text[1..] == tail;
      }
    }
  }

  lemma IdentifierRoundTrip(s: string, rest: string)
    requires !StartsWith(rest, '`')
    ensures ReadIdentifier(QuoteIdentifier(s) + rest) == Some((s, rest))
  {
    IdentifierBodyRoundTrip(s, rest);
    assert (QuoteIdentifier(s) + rest)[1..] == ReplaceAll(s, '`', "``") + "`" + rest;
  }

  // Reads the rest of a single-quoted literal whose opening quote is gone.
  function ReadLiteralBody(t: string): Option<(string, string)>
    decreases |t|
  {
    if t == [] then None
    else if t[0] == '\'' then Some(([], t[1..]))
    else if t[0] == '\\' then if |t| > 1 then Cons(t[1], ReadLiteralBody(t[2..])) else None
    else Cons(t[0], ReadLiteralBody(t[1..]))
  }

  lemma {:induction false} EscapeRoundTrip(s: string, rest: string)
    ensures ReadLiteralBody(Escape(s) + "'" + rest) == Some((s, rest))
  {
    var text := Escape(s) + "'" + rest;
    if s == [] {
      assert text[1..] == rest;
    } else {
      var tail := Escape(s[1..]) + "'" + rest;
      EscapeRoundTrip(s[1..], rest);
      assert [s[0]] + s[1..] == s;
      if |EscapeRune(s[0])| == 2 {
        assert text[2..] == tail && text[1] == s[0];
      } else {
        assert text[1..] == tail;
      }
    }
  }

  lemma LiteralRoundTrip(s: string, rest: string)
    ensures StartsWith(QuoteLiteral(s) + rest, '\'')
    ensures ReadLiteralBody((QuoteLiteral(s) + rest)[1..]) == Some((s, rest))
  {
    TwoPassesEscape(s);
    EscapeRoundTrip(s, rest);
    assert (QuoteLiteral(s) + rest)[1..] == Escape(s) + "'" + rest;
  }

  // ---------------------------------------------------------------- label and type expressions

  datatype Joined = BlankName | Expression(text: string)

  function Join(parts: seq<string>, sep: string): string {
    if parts == [] then ""
    else if |parts| == 1 then parts[0]
    else parts[0] + sep + Join(parts[1..], sep)
  }

  function QuoteAll(names: seq<string>): (r: seq<string>)
    ensures |r| == |names|
  {
    seq(|names|, i requires 0 <= i < |names| => QuoteIdentifier(names[i]))
  }

  // joinQuoted: quotes every name, failing on a blank one.
  method JoinQuoted(prefix: string, sep: string, names: seq<string>, isBlank: string -> bool) returns (r: Joined)
    ensures r == BlankName <==> exists n :: n in names && isBlank(n)
    ensures r.Expression? ==> r.text == if names == [] then "" else prefix + Join(QuoteAll(names), sep)
  {
    if |names| == 0 {
      return Expression("");
    }
    var quoted: seq<string> := [];
    for i := 0 to |names|
      invariant quoted == QuoteAll(names[..i])
      invariant forall n :: n in names[..i] ==> !isBlank(n)
    {
      if isBlank(names[i]) {
        return BlankName;
      }
      assert names[..i + 1] == names[..i] + [names[i]];
      quoted := quoted + [QuoteIdentifier(names[i])];
    }
    assert names[..|names|] == names;
    r := Expression(prefix + Join(quoted, sep));
  }

  // Reads back a separated list of quoted names.
  function ReadList(t: string, sep: char): Option<seq<string>>
    decreases |t|
  {
    match ReadIdentifier(t)
    case None => None
    case Some((name, rest)) =>
      if rest == "" then Some([name])
      else if rest[0] != sep then None
      else match ReadList(rest[1..], sep)
           case None => None
           case Some(names) => Some([name] + names)
  }

  // The joined expression loses nothing: whatever the names hold, the list comes back.
  lemma {:induction false} JoinedRoundTrip(names: seq<string>, sep: char)
    requires names != [] && sep != '`'
    ensures ReadList(Join(QuoteAll(names), [sep]), sep) == Some(names)
  {
    var name, quoted := names[0], QuoteAll(names);
    if |names| == 1 {
      IdentifierRoundTrip(name, "");
      assert Join(quoted, [sep]) == QuoteIdentifier(name) + "" && [name] == names;
    } else {
      assert quoted[1..] == QuoteAll(names[1..]);
      var tail := Join(QuoteAll(names[1..]), [sep]);
      assert Join(quoted, [sep]) == QuoteIdentifier(name) + ([sep] + tail);
      IdentifierRoundTrip(name, [sep] + tail);
      assert ([sep] + tail)[1..] == tail;
      JoinedRoundTrip(names[1..], sep);
      assert [name] + names[1..] == names;
    }
  }
}
