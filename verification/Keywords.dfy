// The first word of a query, against the first word of its code.
module Keywords {
  import opened CypherStrip
  import opened CypherText
  import opened Runes

  // The first index of whitespace, or -1.
  function IndexSpace(s: string): (i: int)
    ensures -1 <= i < |s|
    ensures i >= 0 ==> IsSpace(s[i])
    ensures forall k :: 0 <= k < (if i >= 0 then i else |s|) ==> !IsSpace(s[k])
  {
    if s == [] then -1
    else if IsSpace(s[0]) then 0
    else var i := IndexSpace(s[1..]); if i < 0 then -1 else i + 1
  }

  function FirstWord(s: string): (w: string)
    ensures w <= s && forall i :: 0 <= i < |w| ==> !IsSpace(w[i])
    ensures |w| < |s| ==> IsSpace(s[|w|])
  {
    if IndexSpace(s) < 0 then s else s[..IndexSpace(s)]
  }

  function Keyword(query: string): string {
    UpperCase(FirstWord(Stripped(query)))
  }

  method FirstKeyword(query: string) returns (keyword: string)
    ensures keyword == Keyword(query)
  {
    var s := StripLeadingWhitespaceAndComments(query);
    var end := IndexSpace(s);
    if end < 0 {
      end := |s|;
    }
    assert s[..|s|] == s;
    keyword := UpperCase(s[..end]);
  }

  // ---------------------------------------------------------------- what the lexer makes of it

  // The first word of the query's code.
  function CodeKeyword(query: string): string {
    UpperCase(FirstWord(TrimLeft(Lex(query, Code))))
  }

  predicate OpensComment(s: string, i: nat) {
    i + 1 < |s| && s[i] == '/' && (s[i + 1] == '/' || s[i + 1] == '*')
  }

  // No quote and no comment begins in the text.
  predicate Unbroken(s: string) {
    forall i :: 0 <= i < |s| ==> !IsQuote(s[i]) && !OpensComment(s, i)
  }

  lemma {:induction false} LexIsUnbroken(s: string, mode: Mode)
    ensures Unbroken(Lex(s, mode))
  {
    if s != [] {
      var out, tail := Lex(s, mode), Lex(s[1..], Next(mode, s[0], s[1..]));
      LexIsUnbroken(s[1..], Next(mode, s[0], s[1..]));
      assert out[1..] == tail;
      assert tail != [] ==> tail[0] == s[1] || tail[0] == ' ';
      forall i | 0 <= i < |out| ensures !IsQuote(out[i]) && !OpensComment(out, i) {
        assert i > 0 ==> out[i] == tail[i - 1] && OpensComment(out, i) == OpensComment(tail, i - 1);
      }
    }
  }

  lemma UnbrokenPart(s: string, k: nat, n: nat)
    requires k <= n <= |s| && Unbroken(s)
    ensures Unbroken(s[k..n])
  {
    forall i | 0 <= i < n - k ensures !IsQuote(s[k..n][i]) && !OpensComment(s[k..n], i) {
      assert !IsQuote(s[k + i]) && !OpensComment(s, k + i);
    }
  }

  lemma CodeWordUnbroken(s: string)
    ensures Unbroken(FirstWord(TrimLeft(Lex(s, Code))))
  {
    hide Lex, Unbroken;
    var out := Lex(s, Code);
    var w, k := FirstWord(TrimLeft(out)), |out| - |TrimLeft(out)|;
    LexIsUnbroken(s, Code);
    TrimLeftDropsSpace(out);
    assert w == out[k..k + |w|];
    UnbrokenPart(out, k, k + |w|);
  }

  // Upper case neither makes nor unmakes a quote, a slash or a star.
  lemma UpperKeepsUnbroken(s: string, t: string)
    requires UpperCase(s) == UpperCase(t)
    ensures Unbroken(s) <==> Unbroken(t)
  {
    forall i | 0 <= i < |s|
      ensures IsQuote(s[i]) <==> IsQuote(t[i])
      ensures (s[i] == '/' <==> t[i] == '/') && (s[i] == '*' <==> t[i] == '*')
    {
      assert UpperCase(s)[i] == Upper(s[i]) && UpperCase(t)[i] == Upper(t[i]);
    }
  }

  lemma UnbrokenHead(w: string, rest: string)
    requires w != "" && Unbroken(w) && (w[|w| - 1] != '/' || rest == "" || IsSpace(rest[0]))
    ensures Kept(Code, w[0], w[1..] + rest) && Next(Code, w[0], w[1..] + rest) == Code
  {
    assert !IsQuote(w[0]) && !OpensComment(w, 0);
  }

  // A word in which nothing begins, up to its end, is code as it stands.
  lemma {:induction false} UnbrokenIsCode(w: string, rest: string)
    requires Unbroken(w) && (w == "" || w[|w| - 1] != '/' || rest == "" || IsSpace(rest[0]))
    ensures Lex(w + rest, Code) == w + Lex(rest, Code)
  {
    hide Unbroken, Kept, Next, IsSpace;
    if w == [] {
      assert w + rest == rest;
    } else {
      assert (w + rest)[1..] == w[1..] + rest;
      UnbrokenHead(w, rest);
      UnbrokenPart(w, 1, |w|);
      assert w[1..|w|] == w[1..] && (|w| > 1 ==> w[1..][|w| - 2] == w[|w| - 1]);
      UnbrokenIsCode(w[1..], rest);
    }
  }

  lemma FirstWordOf(w: string, rest: string)
    requires (forall i :: 0 <= i < |w| ==> !IsSpace(w[i])) && (rest == "" || IsSpace(rest[0]))
    ensures FirstWord(w + rest) == w
  {
    hide IsSpace, IndexSpace;
    var s := w + rest;
    var first := FirstWord(s);
    assert |w| < |s| ==> s[|w|] == rest[0];
    assert forall i :: 0 <= i < |w| ==> s[i] == w[i];
    assert |first| == |w|;
  }

  lemma {:induction false} StrippedBegins(s: string)
    ensures Stripped(s) == "" || !IsSpace(Stripped(s)[0])
    decreases |s|
  {
    if TakeTurn(s).Skip? {
      StrippedBegins(TakeTurn(s).rest);
    }
  }

  // What the scanner dropped is dropped from the code too.
  lemma StrippedCode(query: string)
    requires LexesAs(query, Stripped(query))
    ensures TrimLeft(Lex(query, Code)) == TrimLeft(Lex(Stripped(query), Code))
  {
    hide Lex, Stripped;
    var out, k := Lex(query, Code), |query| - |Stripped(query)|;
    assert out == out[..k] + out[k..];
    TrimLeftPadded(out[..k], out[k..]);
  }

  lemma SpaceStays(s: string)
    requires s != "" && IsSpace(s[0])
    ensures IsSpace(Lex(s, Code)[0])
  {
  }

  lemma UnbrokenWordAgrees(query: string)
    requires LexesAs(query, Stripped(query)) && Unbroken(FirstWord(Stripped(query)))
    ensures Keyword(query) == CodeKeyword(query)
  {
    hide Lex, LexesAs, Stripped, Unbroken, IsSpace, UpperCase;
    var t := Stripped(query);
    var w := FirstWord(t);
    var rest := t[|w|..];
    StrippedCode(query);
    StrippedBegins(query);
    assert t == w + rest;
    UnbrokenIsCode(w, rest);
    if rest != "" {
      SpaceStays(rest);
    }
    FirstWordOf(w, Lex(rest, Code));
    if t == "" {
      EmptyCode();
    } else {
      assert w != "" && TrimLeft(w + Lex(rest, Code)) == w + Lex(rest, Code);
    }
  }

  lemma EmptyCode()
    ensures TrimLeft(Lex("", Code)) == "" && FirstWord("") == ""
  {
  }

  // Where the two scanners agree, the first word is that of the code if and only if
  // no quote and no comment begins in it.
  lemma FirstWordIsCodeIff(query: string)
    requires NoShortComment(query)
    ensures Keyword(query) == CodeKeyword(query) <==> Unbroken(FirstWord(Stripped(query)))
  {
    hide Lex, LexesAs, Stripped, Unbroken, NoShortComment, FirstWord, UpperCase;
    if Unbroken(FirstWord(Stripped(query))) {
      ScannersAgree(query);
      UnbrokenWordAgrees(query);
    }
    if Keyword(query) == CodeKeyword(query) {
      CodeWordUnbroken(query);
      UpperKeepsUnbroken(FirstWord(Stripped(query)), FirstWord(TrimLeft(Lex(query, Code))));
    }
  }

  predicate IsWord(w: string) {
    w != "" && forall i :: 0 <= i < |w| ==> 'A' <= w[i] <= 'Z'
  }

  lemma WordUnbroken(w: string)
    requires IsWord(w)
    ensures UpperCase(w) == w && Unbroken(w)
  {
  }

  // The pre-flight check takes no query for one that begins with the verb unless its
  // code does, and misses one only if its first word runs into a quote or a comment.
  lemma VerbFoundIff(query: string, key: string)
    requires NoShortComment(query) && IsWord(key)
    ensures Keyword(query) == key <==> CodeKeyword(query) == key && Unbroken(FirstWord(Stripped(query)))
  {
    hide Lex, LexesAs, Stripped, Unbroken, NoShortComment, FirstWord, UpperCase, IsWord;
    FirstWordIsCodeIff(query);
    if Keyword(query) == key {
      WordUnbroken(key);
      UpperKeepsUnbroken(FirstWord(Stripped(query)), key);
    }
  }

  // A verb is found however its letters are written.
  lemma CaseIgnored(word: string, key: string)
    requires IsWord(key) && |word| == |key|
    requires forall i :: 0 <= i < |key| ==> word[i] == key[i] || word[i] as int == key[i] as int + 32
    ensures UpperCase(word) == key
  {
  }

  // ---------------------------------------------------------------- where they part

  lemma WordIsWhole(w: string, rest: string)
    requires IsWord(w) && (rest == "" || IsSpace(rest[0]))
    ensures FirstWord(w + rest) == w && TrimLeft(w + rest) == w + rest && UpperCase(w) == w
  {
    FirstWordOf(w, rest);
  }

  lemma WordIsCode(w: string, rest: string)
    requires IsWord(w)
    ensures Lex(w + rest, Code) == w + Lex(rest, Code)
  {
    hide Lex;
    WordUnbroken(w);
    UnbrokenIsCode(w, rest);
  }

  lemma CodeBehindComment(comment: string, w: string)
    requires |comment| >= 4 && comment[0] == '/' && comment[1] == '*' && ClosesAt(comment, |comment| - 2)
    requires forall k :: 2 <= k < |comment| - 2 ==> !ClosesAt(comment, k)
    requires IsWord(w)
    ensures CodeKeyword(comment + w) == w
  {
    hide Lex, After, Vanishes, UpperCase, IsWord, FirstWord, TrimLeft, ClosesAt;
    var out, n := Lex(comment + w, Code), |comment|;
    AfterOpenedBlock(comment, w);
    CommentLexesAs(comment, w);
    assert out == out[..n] + out[n..] && out[n..] == Lex(w, Code);
    TrimLeftPadded(out[..n], out[n..]);
    WordIsCode(w, "");
    assert w + "" == w && Lex("", Code) == "" && w + Lex("", Code) == w;
    WordIsWhole(w, "");
  }

  lemma StopsAtOnce(s: string)
    requires s != "" && !IsSpace(s[0]) && s[0] != '/'
    ensures TakeTurn(s) == Stop(s) && Stripped(s) == s && NoShortComment(s)
  {
  }

  lemma ShortCommentSkipped(rest: string)
    ensures Stripped("/*/" + rest) == Stripped(rest)
  {
    hide TakeTurn, IndexClose;
    var s := "/*/" + rest;
    BlockTurn(s, 1);
    assert s[3..] == rest;
  }

  lemma SpaceSkipped(t: string)
    ensures Stripped(" " + t) == Stripped(t)
  {
    hide TakeTurn;
    TurnSkipsSpace(t);
  }

  // A comment right behind the verb hides it from the check.
  lemma VerbBeforeComment()
    ensures var query := "PROFILE" + ("/**/" + "MATCH");
      NoShortComment(query) && Keyword(query) != "PROFILE" && CodeKeyword(query) == "PROFILE"
  {
    hide Lex, After, FirstWord, TrimLeft, UpperCase, Stripped, NoShortComment;
    var rest := "/**/" + "MATCH";
    var query := "PROFILE" + rest;
    StopsAtOnce(query);
    FirstWordOf(query, "");
    assert query + "" == query && |FirstWord(query)| == 16;
    AfterOpenedBlock("/**/", "MATCH");
    WordIsCode("PROFILE", rest);
    assert IsSpace(Lex(rest, Code)[0]);
    WordIsWhole("PROFILE", Lex(rest, Code));
  }

  // So does a comment that the scanner takes for closed too early,
  lemma VerbBehindShortComment()
    ensures Keyword("/*/ */PROFILE") != "PROFILE" && CodeKeyword("/*/ */PROFILE") == "PROFILE"
  {
    hide Lex, TrimLeft, UpperCase, Stripped, NoShortComment, FirstWord;
    assert "/*/ */PROFILE" == "/*/" + (" " + "*/PROFILE") == "/*/ */" + "PROFILE";
    ShortCommentSkipped(" " + "*/PROFILE");
    SpaceSkipped("*/PROFILE");
    StopsAtOnce("*/PROFILE");
    FirstWordOf("*/PROFILE", "");
    assert "*/PROFILE" + "" == "*/PROFILE" && |FirstWord("*/PROFILE")| == 9;
    CodeBehindComment("/*/ */", "PROFILE");
  }

  // which can also put a verb where there is none.
  lemma VerbInShortComment()
    ensures Keyword("/*/PROFILE */MATCH") == "PROFILE" && CodeKeyword("/*/PROFILE */MATCH") == "MATCH"
  {
    hide Lex, TrimLeft, UpperCase, Stripped, NoShortComment, FirstWord;
    assert "/*/PROFILE */MATCH" == "/*/" + ("PROFILE" + " */MATCH") == "/*/PROFILE */" + "MATCH";
    ShortCommentSkipped("PROFILE" + " */MATCH");
    StopsAtOnce("PROFILE" + " */MATCH");
    WordIsWhole("PROFILE", " */MATCH");
    CodeBehindComment("/*/PROFILE */", "MATCH");
  }
}
