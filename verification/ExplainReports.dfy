// Reports of errors in a query, and what the scrubber makes of them.
module ExplainReports {
  import opened Decimal
  import opened ExplainScrubber
  import opened Quoting

  // ---------------------------------------------------------------- rewriting line by line

  // A separator keeps what is before and after it apart.
  lemma {:induction false} ShiftAround(a: string, c: char, b: string, key: string)
    requires key != [] && c !in key && !IsDigit(c)
    ensures ShiftNumbers(a + ([c] + b), key) == ShiftNumbers(a, key) + ([c] + ShiftNumbers(b, key))
    decreases |a|
  {
    hide ShiftNumbers, IsDigit, ShiftedNumeral, DigitRun;
    var rest := [c] + b;
    if a == [] {
      ShiftsNothing(key);
      assert a + rest == rest && rest[1..] == b;
      NotAtOther(rest, key);
      ShiftStays(rest, key);
    } else {
      NumeralBefore(a, c, b, key);
      if At(a, key, 0) && DigitRun(a[|key|..]) > 0 {
        var k := DigitRun(a[|key|..]);
        SplitAtKey(a, key, rest);
        ShiftTakes(key, a[|key|..] + rest);
        ShiftTakes(key, a[|key|..]);
        ShiftAround(a[|key|..][k..], c, b, key);
        assert (a[|key|..] + rest)[k..] == a[|key|..][k..] + rest;
        Reassociate(key, ShiftedNumeral(a[|key|..][..k]), ShiftNumbers(a[|key|..][k..], key), [c] + ShiftNumbers(b, key));
      } else {
        ShiftAround(a[1..], c, b, key);
        ShiftStays(a, key);
        ShiftStays(a + rest, key);
        assert (a + rest)[1..] == a[1..] + rest;
      }
    }
  }

  lemma NotAtOther(s: string, key: string)
    requires s != [] && key != [] && s[0] !in key
    ensures !At(s, key, 0)
  {
    if |key| <= |s| {
      assert s[0..0 + |key|][0] == s[0] && key[0] in key;
    }
  }

  lemma NumeralBefore(a: string, c: char, b: string, key: string)
    requires key != [] && c !in key && !IsDigit(c) && a != []
    ensures At(a + ([c] + b), key, 0) <==> At(a, key, 0)
    ensures At(a, key, 0) ==> var t := a[|key|..];
      && DigitRun(t + ([c] + b)) == DigitRun(t) && (t + ([c] + b))[..DigitRun(t)] == t[..DigitRun(t)]
      && (a + ([c] + b))[|key|..] == t + ([c] + b)
  {
    AtSplits(a, [c], b, key, 0);
    if At(a, key, 0) {
      DigitRunBefore(a[|key|..], [c] + b);
    }
  }

  lemma StripStays(s: string)
    requires s != [] && !At(s, MARKER, 0)
    ensures ReplaceText(s, MARKER, "\"") == [s[0]] + ReplaceText(s[1..], MARKER, "\"")
  {
  }

  lemma StripTakes(rest: string)
    ensures ReplaceText(MARKER + rest, MARKER, "\"") == "\"" + ReplaceText(rest, MARKER, "\"")
  {
    hide ReplaceText;
    StripsHere(MARKER + rest);
  }

  lemma StripsHere(s: string)
    requires At(s, MARKER, 0)
    ensures |s| >= |MARKER| && ReplaceText(s, MARKER, "\"") == "\"" + ReplaceText(s[|MARKER|..], MARKER, "\"")
  {
  }

  lemma {:induction false} StripAround(a: string, c: char, b: string)
    requires c !in MARKER
    ensures ReplaceText(a + ([c] + b), MARKER, "\"") == ReplaceText(a, MARKER, "\"") + ([c] + ReplaceText(b, MARKER, "\""))
    decreases |a|
  {
    hide At, ReplaceText;
    var rest := [c] + b;
    if a == [] {
      assert a + rest == rest && rest[1..] == b;
      NotAtOther(rest, MARKER);
      StripStays(rest);
      StripsNothing();
    } else {
      KeyFirst(a, c, b, MARKER);
      if At(a, MARKER, 0) {
        SplitAtKey(a, MARKER, rest);
        StripTakes(a[|MARKER|..] + rest);
        StripTakes(a[|MARKER|..]);
        StripAround(a[|MARKER|..], c, b);
      } else {
        assert (a + rest)[1..] == a[1..] + rest;
        StripStays(a);
        StripStays(a + rest);
        StripAround(a[1..], c, b);
      }
    }
  }

  lemma KeyFirst(a: string, c: char, b: string, pat: string)
    requires pat != [] && c !in pat
    ensures At(a + ([c] + b), pat, 0) <==> At(a, pat, 0)
  {
    AtSplits(a, [c], b, pat, 0);
  }

  lemma StripsNothing()
    ensures ReplaceText([], MARKER, "\"") == []
  {
  }

  // ---------------------------------------------------------------- quiet pieces make quiet texts

  lemma HarmlessBefore(t: string, rest: string)
    requires DigitRun(t) < |t| || rest == [] || !IsDigit(rest[0])
    ensures Harmless(t + rest) <==> Harmless(t)
  {
    DigitRunBefore(t, rest);
  }

  // Nothing at the end of the text waits for a number.
  ghost predicate Ends(a: string, key: string) {
    a == [] || (!IsDigit(a[|a| - 1]) && !At(a, key, |a| - |key|))
  }

  lemma QuietJoin(a: string, mid: string, b: string, key: string)
    requires Separates(mid, key) && (!IsDigit(mid[0]) || Ends(a, key))
    requires Quiet(a, key) && Quiet(b, key)
    ensures Quiet(a + (mid + b), key)
  {
    hide Harmless;
    var s := a + (mid + b);
    forall i | At(s, key, i) ensures Harmless(s[i + |key|..]) {
      AtSplits(a, mid, b, key, i);
      var k := i + |key|;
      if At(a, key, i) {
        assert s[k..] == a[k..] + (mid + b);
        assert (mid + b)[0] == mid[0];
        HarmlessBefore(a[k..], mid + b);
      } else {
        assert s[k..] == b[k - |a| - |mid|..];
      }
    }
  }

  lemma AtSnoc(a: string, c: char, pat: string, i: int)
    requires pat != [] && pat[|pat| - 1] != c
    ensures At(a + [c], pat, i) <==> At(a, pat, i)
  {
    var s := a + [c];
    if 0 <= i && i + |pat| <= |a| {
      assert s[i..i + |pat|] == a[i..i + |pat|];
    } else if 0 <= i && i + |pat| == |s| {
      assert s[i..i + |pat|][|pat| - 1] == c;
    }
  }

  lemma QuietSnocIff(a: string, c: char, key: string)
    requires key != [] && key[|key| - 1] != c && !IsDigit(c)
    ensures Quiet(a + [c], key) <==> Quiet(a, key)
  {
    hide Harmless;
    forall i ensures At(a + [c], key, i) <==> At(a, key, i) {
      AtSnoc(a, c, key, i);
    }
    forall i | At(a, key, i) ensures Harmless((a + [c])[i + |key|..]) <==> Harmless(a[i + |key|..]) {
      assert (a + [c])[i + |key|..] == a[i + |key|..] + [c];
      HarmlessBefore(a[i + |key|..], [c]);
    }
  }

  lemma FreeSnocIff(a: string, c: char, pat: string)
    requires pat != [] && pat[|pat| - 1] != c
    ensures Free(a + [c], pat) <==> Free(a, pat)
  {
    hide At;
    forall i ensures At(a + [c], pat, i) <==> At(a, pat, i) {
      AtSnoc(a, c, pat, i);
    }
  }

  lemma TooShort(s: string, pat: string)
    requires |s| < |pat|
    ensures Free(s, pat) && Quiet(s, pat)
  {
  }

  lemma ColumnKeyApart()
    ensures Separates("ffset:", COLUMN) && Separates("^", COLUMN)
  {
  }

  lemma OffsetKeyApart()
    ensures Separates("c", OFFSET) && Separates("lumn", OFFSET) && Separates("^", OFFSET)
  {
  }

  lemma DigitsApart(n: nat)
    ensures Separates(Digits(n), COLUMN) && Separates(Digits(n), OFFSET) && Separates(Digits(n), MARKER)
  {
    hide Digits;
  }

  // ---------------------------------------------------------------- reports

  // The driver's layout: its wording around the numbers and behind the caret, how far
  // the caret is indented beyond the offset, and whether it echoes the line the error
  // is on or the first line of the query.
  datatype Form = Form(head: string, middle: string, tail: string, rest: string, gap: nat, ownLine: bool)

  function Spaces(n: nat): string {
    seq(n, _ => ' ')
  }

  function PositionLine(f: Form, column: nat, offset: nat): string {
    f.head + (COLUMN + (Digits(column) + (f.middle + (OFFSET + (Digits(offset) + f.tail)))))
  }

  function EchoLine(echo: string): string {
    "\"" + (echo + "\"")
  }

  function CaretLine(f: Form, caret: nat): string {
    Spaces(caret) + ("^" + f.rest)
  }

  function ThreeLines(x: string, y: string, z: string): string {
    x + ("\n" + (y + ("\n" + z)))
  }

  function FirstLineOf(text: string): string {
    Lines(text)[0]
  }

  // The line a position is on.
  function LineAt(text: string, offset: nat): string
    requires offset <= |text|
  {
    FirstLineOf(text[offset + 1 - ColumnOf(text, offset)..])
  }

  function Echoed(f: Form, query: string, offset: nat): string
    requires offset <= |query|
  {
    if f.ownLine then LineAt(query, offset) else FirstLineOf(query)
  }

  function Caret(f: Form, query: string, offset: nat): nat
    requires offset <= |query|
  {
    ColumnOf(query, offset) - 1 + f.gap
  }

  // An error at an offset in a query: its column and offset, a line in quotes, and a
  // caret.
  function Report(f: Form, query: string, offset: nat): string
    requires offset <= |query|
  {
    ThreeLines(PositionLine(f, ColumnOf(query, offset), offset), EchoLine(Echoed(f, query, offset)), CaretLine(f, Caret(f, query, offset)))
  }

  // The scrubber leaves the wording alone.
  ghost predicate Calm(s: string) {
    Quiet(s, COLUMN) && Quiet(s, OFFSET) && Free(s, MARKER)
  }

  ghost predicate Ordinary(f: Form) {
    && Calm(f.head) && Calm(f.middle) && Calm(f.tail) && Calm(f.rest)
    && '\n' !in f.head && '\n' !in f.middle && '\n' !in f.tail && '\n' !in f.rest
    && (f.middle == [] || !IsDigit(f.middle[0])) && (f.tail == [] || !IsDigit(f.tail[0]))
    && !IsCaretLine(f.head)
  }

  lemma {:induction false} LinesHead(a: string, text: string)
    requires '\n' !in a
    ensures FirstLineOf(a + text) == a + FirstLineOf(text)
  {
    if a == [] {
      assert a + text == text;
    } else {
      LinesHead(a[1..], text);
      assert (a + text)[1..] == a[1..] + text;
    }
  }

  lemma {:induction false} FirstLineIsPrefix(text: string)
    ensures FirstLineOf(text) <= text && '\n' !in FirstLineOf(text)
  {
    if text != [] && text[0] != '\n' {
      FirstLineIsPrefix(text[1..]);
    }
  }

  lemma FirstLineBehindPrefix(query: string)
    ensures FirstLineOf(EXPLAIN + query) == EXPLAIN + FirstLineOf(query)
  {
    LinesHead(EXPLAIN, query);
  }

  // The line of a position is the first one, prefix and all, or is not touched.
  lemma LineBehindPrefix(query: string, offset: nat)
    requires offset <= |query|
    ensures LineAt(EXPLAIN + query, offset + PREFIX)
         == if '\n' in query[..offset] then LineAt(query, offset) else EXPLAIN + FirstLineOf(query)
    ensures '\n' !in query[..offset] ==> LineAt(query, offset) == FirstLineOf(query)
  {
    hide Lines;
    var text := EXPLAIN + query;
    ColumnBehindPrefix(query, offset);
    var start := offset + 1 - ColumnOf(query, offset);
    if '\n' in query[..offset] {
      assert text[start + PREFIX..] == query[start..];
    } else {
      FirstLineColumn(query, offset);
      assert text[0..] == text && query[0..] == query;
      FirstLineBehindPrefix(query);
    }
  }

  // What the caret points at. On the first line the prefix moves it along with the
  // text above it, wherever the driver puts it, except at the very left, where the
  // blank of the prefix gives way to the quote. One place beyond the offset it is
  // under the rune at the offset.
  lemma CaretKeepsPointing(f: Form, query: string, offset: nat)
    requires offset + f.gap <= |FirstLineOf(query)| + 1 && offset <= |FirstLineOf(query)|
    ensures |FirstLineOf(query)| <= |query|
    ensures var line, from, to := FirstLineOf(query), Caret(f, EXPLAIN + query, offset + PREFIX), Caret(f, query, offset);
      && from < |EchoLine(EXPLAIN + line)| && to < |EchoLine(line)|
      && (EchoLine(EXPLAIN + line)[from] == EchoLine(line)[to] <==> offset + f.gap > 0)
      && (f.gap == 1 && offset < |line| ==> EchoLine(line)[to] == query[offset])
  {
    hide Lines;
    var line := FirstLineOf(query);
    FirstLineIsPrefix(query);
    assert query[..offset] == line[..offset];
    FirstLineColumn(query, offset);
    ColumnBehindPrefix(query, offset);
    assert EchoLine(EXPLAIN + line) == MARKER + (line + "\"");
  }

  // ---------------------------------------------------------------- the position line

  lemma OffsetPartQuiet(f: Form, offset: nat)
    requires Ordinary(f)
    ensures Quiet(f.middle + (OFFSET + (Digits(offset) + f.tail)), COLUMN)
  {
    hide Quiet, Digits, Separates, IsCaretLine, Free;
    ColumnKeyApart();
    DigitsApart(offset);
    TooShort(" ", COLUMN);
    QuietJoin(" ", Digits(offset), f.tail, COLUMN);
    QuietSnocIff(f.middle, 'o', COLUMN);
    QuietJoin(f.middle + ['o'], "ffset:", " " + (Digits(offset) + f.tail), COLUMN);
    RegroupOffset(f.middle, Digits(offset) + f.tail);
  }

  lemma RegroupOffset(middle: string, rest: string)
    ensures middle + (OFFSET + rest) == (middle + ['o']) + ("ffset:" + (" " + rest))
    ensures middle + (OFFSET + rest) == middle + ("offset:" + (" " + rest))
  {
  }

  lemma ColumnPartQuiet(f: Form, column: nat)
    requires Ordinary(f)
    ensures Quiet(f.head + (COLUMN + (Digits(column) + f.middle)), OFFSET)
  {
    hide Quiet, Digits, Separates, IsCaretLine, Free;
    OffsetKeyApart();
    DigitsApart(column);
    TooShort(" ", OFFSET);
    TooShort("o", OFFSET);
    QuietJoin(" ", Digits(column), f.middle, OFFSET);
    QuietJoin("o", "lumn", " " + (Digits(column) + f.middle), OFFSET);
    QuietJoin(f.head, "c", "o" + ("lumn" + (" " + (Digits(column) + f.middle))), OFFSET);
    RegroupColumn(f.head, Digits(column) + f.middle);
  }

  lemma RegroupColumn(head: string, rest: string)
    ensures head + (COLUMN + rest) == head + ("c" + ("o" + ("lumn" + (" " + rest))))
    ensures head + (COLUMN + rest) == head + ("column" + (" " + rest))
  {
  }

  lemma PositionLineFree(f: Form, column: nat, offset: nat)
    requires Ordinary(f)
    ensures Free(PositionLine(f, column, offset), MARKER)
  {
    hide Quiet, Digits, Separates, IsCaretLine, Free;
    var rest := Digits(offset) + f.tail;
    TooShort(" ", MARKER);
    DigitsApart(offset);
    FreeJoin(" ", Digits(offset), f.tail, MARKER);
    FreeJoin(f.middle, "offset:", " " + rest, MARKER);
    RegroupOffset(f.middle, rest);
    DigitsApart(column);
    FreeJoin(" ", Digits(column), f.middle + (OFFSET + rest), MARKER);
    FreeJoin(f.head, "column", " " + (Digits(column) + (f.middle + (OFFSET + rest))), MARKER);
    RegroupColumn(f.head, Digits(column) + (f.middle + (OFFSET + rest)));
  }

  lemma PositionColumnShifted(f: Form, column: nat, offset: nat)
    requires Ordinary(f) && column < INT64_LIMIT
    ensures ShiftNumbers(PositionLine(f, column, offset), COLUMN) == PositionLine(f, Less8(column), offset)
  {
    hide Quiet, Digits, Separates, IsCaretLine, Free, ShiftNumbers, Less8;
    var rest := f.middle + (OFFSET + (Digits(offset) + f.tail));
    OffsetPartQuiet(f, offset);
    ShiftKeepsIff(f.head, COLUMN);
    ShiftKeepsIff(rest, COLUMN);
    assert rest != [] && !IsDigit(rest[0]);
    ShiftMatch(f.head, COLUMN, column, rest);
  }

  lemma PositionOffsetShifted(f: Form, column: nat, offset: nat)
    requires Ordinary(f) && offset < INT64_LIMIT
    ensures ShiftNumbers(PositionLine(f, column, offset), OFFSET) == PositionLine(f, column, Less8(offset))
  {
    hide Quiet, Digits, Separates, IsCaretLine, Free, ShiftNumbers, Less8;
    var a := f.head + (COLUMN + (Digits(column) + f.middle));
    ColumnPartQuiet(f, column);
    ShiftKeepsIff(a, OFFSET);
    ShiftKeepsIff(f.tail, OFFSET);
    ShiftMatch(a, OFFSET, offset, f.tail);
    RegroupLine(f.head, Digits(column), f.middle, OFFSET + (Digits(offset) + f.tail));
    RegroupLine(f.head, Digits(column), f.middle, OFFSET + (Digits(Less8(offset)) + f.tail));
  }

  lemma RegroupLine(head: string, d: string, middle: string, rest: string)
    ensures (head + (COLUMN + (d + middle))) + rest == head + (COLUMN + (d + (middle + rest)))
  {
  }

  lemma PositionLineScrubbed(f: Form, column: nat, offset: nat)
    requires Ordinary(f) && column < INT64_LIMIT && offset < INT64_LIMIT
    ensures Scrubbed(PositionLine(f, column, offset)) == PositionLine(f, Less8(column), Less8(offset))
  {
    hide PositionLine, Ordinary, ReplaceText, ShiftNumbers, Less8, Free;
    PositionLineFree(f, column, offset);
    StripKeepsIff(PositionLine(f, column, offset));
    PositionColumnShifted(f, column, offset);
    PositionOffsetShifted(f, Less8(column), offset);
  }

  // ---------------------------------------------------------------- the other lines

  // The three rewrites of a line, short of the caret.
  function Scrubbed(s: string): string {
    ShiftNumbers(ShiftNumbers(ReplaceText(s, MARKER, "\""), COLUMN), OFFSET)
  }

  lemma CaretLineScrubbed(f: Form, caret: nat)
    requires Ordinary(f)
    ensures Scrubbed(CaretLine(f, caret)) == CaretLine(f, caret)
  {
    hide ReplaceText, ShiftNumbers, Free, Quiet, Separates, Spaces, IsCaretLine;
    ColumnKeyApart();
    OffsetKeyApart();
    SpacesCalm(caret);
    QuietJoin(Spaces(caret), "^", f.rest, COLUMN);
    QuietJoin(Spaces(caret), "^", f.rest, OFFSET);
    FreeJoin(Spaces(caret), "^", f.rest, MARKER);
    StripKeepsIff(CaretLine(f, caret));
    ShiftKeepsIff(CaretLine(f, caret), COLUMN);
    ShiftKeepsIff(CaretLine(f, caret), OFFSET);
  }

  lemma SpacesCalm(n: nat)
    ensures Calm(Spaces(n))
  {
    NothingInSpaces(n, COLUMN);
    NothingInSpaces(n, OFFSET);
    NothingInSpaces(n, MARKER);
  }

  lemma NothingInSpaces(n: nat, pat: string)
    requires pat == COLUMN || pat == OFFSET || pat == MARKER
    ensures Free(Spaces(n), pat) && Quiet(Spaces(n), pat)
  {
    forall i ensures !At(Spaces(n), pat, i) {
      if 0 <= i && i + |pat| <= n {
        assert pat[1] != ' ' && Spaces(n)[i..i + |pat|][1] == ' ';
      }
    }
  }

  // What the rewrites leave of an echoed line and its closing quote.
  function Remains(echo: string): string {
    Scrubbed(echo + "\"")
  }

  lemma EchoLineScrubbed(echo: string)
    ensures Scrubbed(EchoLine(EXPLAIN + echo)) == "\"" + Remains(echo)
  {
    hide ReplaceText, ShiftNumbers;
    assert EchoLine(EXPLAIN + echo) == MARKER + (echo + "\"");
    StripTakes(echo + "\"");
    var y := ReplaceText(echo + "\"", MARKER, "\"");
    QuoteStays(y, COLUMN);
    QuoteStays(ShiftNumbers(y, COLUMN), OFFSET);
  }

  lemma QuoteStays(s: string, key: string)
    requires key != [] && '"' !in key
    ensures ShiftNumbers("\"" + s, key) == "\"" + ShiftNumbers(s, key)
  {
    hide ShiftNumbers;
    ShiftAround([], '"', s, key);
    ShiftsNothing(key);
    assert [] + (['"'] + s) == "\"" + s;
  }

  // An echoed line comes through exactly when it holds no marker and no number
  // behind either word, other than 0 or one too big to be read.
  ghost predicate Survives(echo: string) {
    Calm(echo)
  }

  lemma RemainsIff(echo: string)
    ensures Remains(echo) == echo + "\"" <==> Survives(echo)
  {
    hide ReplaceText, ShiftNumbers, NotAbove, Quiet, Free;
    var x := echo + ['"'];
    var a := ReplaceText(x, MARKER, "\"");
    var b := ShiftNumbers(a, COLUMN);
    var c := ShiftNumbers(b, OFFSET);
    StripKeepsIff(x);
    ShiftKeepsIff(a, COLUMN);
    ShiftKeepsIff(b, OFFSET);
    NotAboveTransitive(b, a, x);
    NotAboveTransitive(c, b, x);
    if c == x {
      NotAboveTransitive(c, b, a);
      NotAboveTransitive(c, a, x);
    }
    assert c == x <==> Free(x, MARKER) && Quiet(x, COLUMN) && Quiet(x, OFFSET);
    FreeSnocIff(echo, '"', MARKER);
    QuietSnocIff(echo, '"', COLUMN);
    QuietSnocIff(echo, '"', OFFSET);
  }

  // ---------------------------------------------------------------- three lines

  lemma ScrubbedLines(x: string, y: string, z: string)
    ensures Scrubbed(ThreeLines(x, y, z)) == ThreeLines(Scrubbed(x), Scrubbed(y), Scrubbed(z))
  {
    hide Scrubbed;
    ScrubbedAround(x, y + ("\n" + z));
    ScrubbedAround(y, z);
  }

  lemma ScrubbedAround(x: string, y: string)
    ensures Scrubbed(x + ("\n" + y)) == Scrubbed(x) + ("\n" + Scrubbed(y))
  {
    hide ReplaceText, ShiftNumbers;
    StripAround(x, '\n', y);
    var a, b := ReplaceText(x, MARKER, "\""), ReplaceText(y, MARKER, "\"");
    ShiftAround(a, '\n', b, COLUMN);
    ShiftAround(ShiftNumbers(a, COLUMN), '\n', ShiftNumbers(b, COLUMN), OFFSET);
  }

  lemma {:induction false} StripAddsNoLine(s: string)
    requires '\n' !in s
    ensures '\n' !in ReplaceText(s, MARKER, "\"")
    decreases |s|
  {
    hide At;
    if s != [] {
      if At(s, MARKER, 0) {
        StripsHere(s);
        StripAddsNoLine(s[|MARKER|..]);
      } else {
        StripAddsNoLine(s[1..]);
      }
    }
  }

  lemma {:induction false} ShiftAddsNoLine(s: string, key: string)
    requires key != [] && '\n' !in key && '\n' !in s
    ensures '\n' !in ShiftNumbers(s, key)
    decreases |s|
  {
    hide ShiftNumbers, ShiftedNumeral, DigitRun;
    if s == [] {
      ShiftsNothing(key);
    } else if At(s, key, 0) && DigitRun(s[|key|..]) > 0 {
      var t := s[|key|..];
      SplitAtKey(s, key, []);
      ShiftTakes(key, t);
      NumeralIsDigits(t[..DigitRun(t)]);
      ShiftAddsNoLine(t[DigitRun(t)..], key);
    } else {
      ShiftStays(s, key);
      ShiftAddsNoLine(s[1..], key);
    }
  }

  lemma NumeralIsDigits(d: string)
    requires forall i :: 0 <= i < |d| ==> IsDigit(d[i])
    ensures '\n' !in ShiftedNumeral(d)
  {
    hide Digits, Value;
  }

  lemma ScrubbedOneLine(s: string)
    requires '\n' !in s
    ensures '\n' !in Scrubbed(s)
  {
    hide ReplaceText, ShiftNumbers;
    StripAddsNoLine(s);
    ShiftAddsNoLine(ReplaceText(s, MARKER, "\""), COLUMN);
    ShiftAddsNoLine(ShiftNumbers(ReplaceText(s, MARKER, "\""), COLUMN), OFFSET);
  }

  // ---------------------------------------------------------------- the caret line

  lemma {:induction false} LinesOf(line: string, rest: string)
    requires '\n' !in line
    ensures Lines(line + ("\n" + rest)) == [line] + Lines(rest) && Lines(line) == [line]
  {
    var s := line + ("\n" + rest);
    if line == [] {
      assert s[1..] == rest;
    } else {
      LinesOf(line[1..], rest);
      assert s[1..] == line[1..] + ("\n" + rest);
      assert ([line[1..]] + Lines(rest))[1..] == Lines(rest) && [line[1..]][1..] == [];
      assert [line[0]] + line[1..] == line;
    }
  }

  lemma DedentLines(x: string, y: string, z: string)
    requires '\n' !in x && '\n' !in y && '\n' !in z
    ensures DedentText(ThreeLines(x, y, z)) == ThreeLines(Dedent(x), Dedent(y), Dedent(z))
  {
    hide Lines, Dedent, Join;
    LinesOf(x, y + ("\n" + z));
    LinesOf(y, z);
    LinesOf(z, "");
    assert Lines(ThreeLines(x, y, z)) == [x, y, z];
    assert DedentAll([x, y, z]) == [Dedent(x), Dedent(y), Dedent(z)];
    JoinThree(Dedent(x), Dedent(y), Dedent(z));
  }

  lemma JoinThree(x: string, y: string, z: string)
    ensures Join([x, y, z], "\n") == ThreeLines(x, y, z)
  {
    assert [x, y, z][1..] == [y, z] && [y, z][1..] == [z];
    assert Join([y, z], "\n") == y + "\n" + z;
    assert x + "\n" + (y + "\n" + z) == x + ("\n" + (y + ("\n" + z)));
  }

  lemma {:induction false} LeadingSpacesOf(n: nat, rest: string)
    requires rest != [] && rest[0] != ' '
    ensures LeadingSpaces(Spaces(n) + rest) == n
  {
    if n == 0 {
      assert Spaces(0) + rest == rest;
    } else {
      LeadingSpacesOf(n - 1, rest);
      assert (Spaces(n) + rest)[1..] == Spaces(n - 1) + rest;
    }
  }

  // A caret line loses eight leading spaces, or all it has.
  lemma DedentCaret(n: nat, rest: string)
    ensures Dedent(Spaces(n) + ("^" + rest)) == Spaces(Less8(n)) + ("^" + rest)
  {
    LeadingSpacesOf(n, "^" + rest);
    var line := Spaces(n) + ("^" + rest);
    var removed := if PREFIX > n then n else PREFIX;
    assert line[removed..] == Spaces(n - removed) + ("^" + rest);
  }

  lemma {:induction false} NotACaretLine(a: string, rest: string)
    requires !IsCaretLine(a) && rest != [] && rest[0] != ' ' && rest[0] != '^'
    ensures !IsCaretLine(a + rest)
  {
    if a == [] {
      assert a + rest == rest;
    } else if a[0] == ' ' {
      assert (a + rest)[1..] == a[1..] + rest;
      NotACaretLine(a[1..], rest);
    }
  }

  lemma PositionLineKept(f: Form, column: nat, offset: nat)
    requires Ordinary(f)
    ensures Dedent(PositionLine(f, column, offset)) == PositionLine(f, column, offset)
    ensures '\n' !in PositionLine(f, column, offset)
  {
    hide Digits, Calm, IsCaretLine;
    NotACaretLine(f.head, COLUMN + (Digits(column) + (f.middle + (OFFSET + (Digits(offset) + f.tail)))));
  }

  lemma QuotedKept(s: string)
    ensures Dedent("\"" + s) == "\"" + s
  {
    assert LeadingSpaces("\"" + s) == 0;
  }

  lemma CaretLineOne(f: Form, caret: nat)
    requires '\n' !in f.rest
    ensures '\n' !in CaretLine(f, caret)
  {
  }

  // ---------------------------------------------------------------- the whole report

  lemma ScrubbedReport(f: Form, column: nat, offset: nat, line: string, caret: nat)
    requires Ordinary(f) && column < INT64_LIMIT && offset < INT64_LIMIT && '\n' !in line
    ensures DedentText(Scrubbed(ThreeLines(PositionLine(f, column, offset), line, CaretLine(f, caret))))
         == ThreeLines(PositionLine(f, Less8(column), Less8(offset)), Dedent(Scrubbed(line)), CaretLine(f, Less8(caret)))
  {
    hide PositionLine, Scrubbed, ThreeLines, Calm, DedentText, Dedent, IsCaretLine, Less8, Spaces;
    var x, z := PositionLine(f, column, offset), CaretLine(f, caret);
    ScrubbedLines(x, line, z);
    PositionLineScrubbed(f, column, offset);
    CaretLineScrubbed(f, caret);
    PositionLineKept(f, Less8(column), Less8(offset));
    ScrubbedOneLine(line);
    CaretLineOne(f, caret);
    DedentLines(PositionLine(f, Less8(column), Less8(offset)), Scrubbed(line), z);
    DedentCaret(caret, f.rest);
  }

  // Whatever the numbers and the caret's place.
  lemma SanitizedReport(f: Form, column: nat, offset: nat, echo: string, caret: nat)
    requires Ordinary(f) && column < INT64_LIMIT && offset < INT64_LIMIT && '\n' !in echo
    ensures Sanitized(ThreeLines(PositionLine(f, column, offset), EchoLine(EXPLAIN + echo), CaretLine(f, caret)))
         == ThreeLines(PositionLine(f, Less8(column), Less8(offset)), "\"" + Remains(echo), CaretLine(f, Less8(caret)))
  {
    hide PositionLine, Remains, Scrubbed, ThreeLines, Calm, DedentText, Dedent, IsCaretLine, Less8, Contains, CaretLine;
    HasMarker(PositionLine(f, column, offset), echo, CaretLine(f, caret));
    SanitizedIs(ThreeLines(PositionLine(f, column, offset), EchoLine(EXPLAIN + echo), CaretLine(f, caret)));
    ScrubbedReport(f, column, offset, EchoLine(EXPLAIN + echo), caret);
    EchoLineScrubbed(echo);
    QuotedKept(Remains(echo));
  }

  lemma SanitizedIs(msg: string)
    requires Contains(msg, MARKER)
    ensures Sanitized(msg) == DedentText(Scrubbed(msg))
  {
    hide DedentText, ShiftNumbers, ReplaceText;
  }

  lemma HasMarker(x: string, echo: string, z: string)
    ensures Contains(ThreeLines(x, EchoLine(EXPLAIN + echo), z), MARKER)
  {
    var msg, i := ThreeLines(x, EchoLine(EXPLAIN + echo), z), |x| + 1;
    assert msg[i..i + |MARKER|] == MARKER;
    assert At(msg, MARKER, i);
  }

  lemma MiddleLineDecides(x: string, y: string, w: string, z: string)
    ensures ThreeLines(x, y, z) == ThreeLines(x, w, z) <==> y == w
  {
    var s, t, k := ThreeLines(x, y, z), ThreeLines(x, w, z), |x| + 1;
    if s == t {
      assert |y| == |w|;
      assert s[k..k + |y|] == y && t[k..k + |w|] == w;
    }
  }

  lemma NumeralFirst(m: nat, x: string, n: nat, y: string)
    requires Digits(m) + x == Digits(n) + y
    requires (x == [] || !IsDigit(x[0])) && (y == [] || !IsDigit(y[0]))
    ensures m == n && x == y
  {
    hide Digits, DigitRun;
    var s := Digits(m) + x;
    DigitRunOf(Digits(m), x);
    DigitRunOf(Digits(n), y);
    assert s[..|Digits(m)|] == Digits(m) && s[..|Digits(n)|] == Digits(n);
    assert s[|Digits(m)|..] == x && s[|Digits(n)|..] == y;
    DigitsInjective(m, n);
  }

  lemma SameAfter(a: string, x: string, y: string)
    ensures a + x == a + y ==> x == y
  {
    assert (a + x)[|a|..] == x && (a + y)[|a|..] == y;
  }

  // The position line tells the numbers in it.
  lemma PositionTells(f: Form, column: nat, offset: nat, c: nat, o: nat)
    requires Ordinary(f)
    ensures PositionLine(f, column, offset) == PositionLine(f, c, o) <==> column == c && offset == o
  {
    hide Digits, Calm, IsCaretLine;
    if PositionLine(f, column, offset) == PositionLine(f, c, o) {
      var x, y := OFFSET + (Digits(offset) + f.tail), OFFSET + (Digits(o) + f.tail);
      SameAfter(f.head, COLUMN + (Digits(column) + (f.middle + x)), COLUMN + (Digits(c) + (f.middle + y)));
      SameAfter(COLUMN, Digits(column) + (f.middle + x), Digits(c) + (f.middle + y));
      NumeralFirst(column, f.middle + x, c, f.middle + y);
      SameAfter(f.middle, x, y);
      SameAfter(OFFSET, Digits(offset) + f.tail, Digits(o) + f.tail);
      NumeralFirst(offset, f.tail, o, f.tail);
    }
  }

  lemma PositionLineFirst(f: Form, column: nat, offset: nat, y: string, z: string)
    requires Ordinary(f)
    ensures FirstLineOf(ThreeLines(PositionLine(f, column, offset), y, z)) == PositionLine(f, column, offset)
  {
    hide PositionLine, Ordinary, Lines;
    PositionLineKept(f, column, offset);
    LinesOf(PositionLine(f, column, offset), y + ("\n" + z));
  }

  lemma EchoedBehindPrefix(f: Form, query: string, offset: nat)
    requires offset <= |query|
    ensures '\n' !in Echoed(f, EXPLAIN + query, offset + PREFIX)
    ensures '\n' !in query[..offset] ==>
      Echoed(f, EXPLAIN + query, offset + PREFIX) == EXPLAIN + FirstLineOf(query) && Echoed(f, query, offset) == FirstLineOf(query)
  {
    hide Lines;
    var text := EXPLAIN + query;
    LineBehindPrefix(query, offset);
    FirstLineBehindPrefix(query);
    FirstLineIsPrefix(text);
    FirstLineIsPrefix(text[offset + PREFIX + 1 - ColumnOf(text, offset + PREFIX)..]);
  }

  // The scrubbed position is that of the query sent directly exactly for errors on
  // its first line: whatever the query and the offset, whichever line is echoed and
  // wherever the caret is.
  lemma PositionRightIff(f: Form, query: string, offset: nat)
    requires Ordinary(f) && offset <= |query| < INT64_LIMIT - PREFIX - 1
    ensures FirstLineOf(Sanitized(Report(f, EXPLAIN + query, offset + PREFIX))) == FirstLineOf(Report(f, query, offset))
       <==> '\n' !in query[..offset]
  {
    hide PositionLine, CaretLine, ThreeLines, Ordinary, Sanitized, Scrubbed, Contains, Lines, Dedent, DedentText, Echoed,
      ColumnOf;
    var text, from := EXPLAIN + query, offset + PREFIX;
    var column, c := ColumnOf(query, offset), ColumnOf(text, from);
    var line, caret := EchoLine(Echoed(f, text, from)), Caret(f, text, from);
    ColumnRightIff(query, offset);
    EchoedBehindPrefix(f, query, offset);
    PositionLineFirst(f, column, offset, EchoLine(Echoed(f, query, offset)), CaretLine(f, Caret(f, query, offset)));
    if Contains(Report(f, text, from), MARKER) {
      SanitizedIs(Report(f, text, from));
      ScrubbedReport(f, c, from, line, caret);
      PositionLineFirst(f, Less8(c), offset, Dedent(Scrubbed(line)), CaretLine(f, Less8(caret)));
      PositionTells(f, Less8(c), offset, column, offset);
    } else {
      WithoutMarker(Report(f, text, from));
      PositionLineFirst(f, c, from, line, CaretLine(f, caret));
      PositionTells(f, c, from, column, offset);
      if '\n' !in query[..offset] {
        HasMarker(PositionLine(f, c, from), FirstLineOf(query), CaretLine(f, caret));
      }
    }
  }

  lemma WithoutMarker(msg: string)
    requires !Contains(msg, MARKER)
    ensures Sanitized(msg) == msg
  {
  }

  // A report on the query behind its prefix comes out as the report of the query
  // sent directly if and only if the error is on the first line and that line
  // survives.
  lemma ReadsAsSentDirectlyIff(f: Form, query: string, offset: nat)
    requires Ordinary(f) && offset <= |query| < INT64_LIMIT - PREFIX - 1
    ensures Sanitized(Report(f, EXPLAIN + query, offset + PREFIX)) == Report(f, query, offset)
       <==> '\n' !in query[..offset] && Survives(FirstLineOf(query))
  {
    hide PositionLine, CaretLine, Remains, ThreeLines, Calm, Survives, Ordinary, Sanitized, Echoed, ColumnOf, Lines;
    PositionRightIff(f, query, offset);
    if '\n' !in query[..offset] {
      var line, caret := FirstLineOf(query), offset + f.gap;
      EchoedBehindPrefix(f, query, offset);
      FirstLineColumn(query, offset);
      ColumnBehindPrefix(query, offset);
      FirstLineIsPrefix(query);
      SanitizedReport(f, offset + PREFIX + 1, offset + PREFIX, line, caret + PREFIX);
      MiddleLineDecides(PositionLine(f, offset + 1, offset), "\"" + Remains(line), EchoLine(line), CaretLine(f, caret));
      RemainsIff(line);
      SameAfter("\"", Remains(line), line + "\"");
    }
  }

  // ---------------------------------------------------------------- which reports qualify

  // Wording without a double quote and without the two words is left alone, and so
  // is any query that has neither the words nor a double quote.
  lemma WithoutTheWords(s: string)
    requires Free(s, COLUMN) && Free(s, OFFSET) && '"' !in s
    ensures Calm(s) && Survives(s)
  {
    forall i ensures !At(s, MARKER, i) {
      if 0 <= i && i + |MARKER| <= |s| {
        assert s[i..i + |MARKER|][0] == s[i];
      }
    }
  }

  // The words do no harm without a number behind them.
  lemma WordsWithoutNumbers(s: string)
    requires '"' !in s && forall i :: 0 <= i < |s| ==> !IsDigit(s[i])
    ensures Calm(s) && Survives(s)
  {
    forall i ensures !At(s, MARKER, i) {
      if 0 <= i && i + |MARKER| <= |s| {
        assert s[i..i + |MARKER|][0] == s[i];
      }
    }
  }

  // Free of a text, for want of one of its runes.
  lemma LacksRune(s: string, pat: string, c: char)
    requires c in pat && c !in s
    ensures Free(s, pat)
  {
    forall i ensures !At(s, pat, i) {
      if 0 <= i && i + |pat| <= |s| {
        assert c in s[i..i + |pat|] ==> c in s;
      }
    }
  }

  // The driver's layout for an error on a line: (line 1, column 26 (offset: 25)) behind
  // the words of the error, a bracket after the caret, and the caret indented by as
  // much as the offset is into its line.
  function DriverForm(words: string, line: nat, ownLine: bool): Form {
    Form(words + ("(" + ("line " + (Digits(line) + ", "))), " (", "))", ")", 0, ownLine)
  }

  lemma DriverFormOrdinary(words: string, line: nat, ownLine: bool)
    requires Calm(words) && '\n' !in words && !IsCaretLine(words)
    ensures Ordinary(DriverForm(words, line, ownLine))
  {
    hide Calm, Survives, Digits, IsCaretLine;
    LineNumberCalm(words, line);
    WordsWithoutNumbers(" (");
    WordsWithoutNumbers("))");
    WordsWithoutNumbers(")");
    NotACaretLine(words, "(" + ("line " + (Digits(line) + ", ")));
  }

  lemma LineNumberCalm(words: string, line: nat)
    requires Calm(words)
    ensures Calm(words + ("(" + ("line " + (Digits(line) + ", "))))
  {
    hide Quiet, Free, Digits, Separates;
    DigitsApart(line);
    BracketApart();
    TooShort("line ", COLUMN);
    TooShort("line ", OFFSET);
    TooShort("line ", MARKER);
    TooShort(", ", COLUMN);
    TooShort(", ", OFFSET);
    TooShort(", ", MARKER);
    QuietJoin("line ", Digits(line), ", ", COLUMN);
    QuietJoin("line ", Digits(line), ", ", OFFSET);
    FreeJoin("line ", Digits(line), ", ", MARKER);
    QuietJoin(words, "(", "line " + (Digits(line) + ", "), COLUMN);
    QuietJoin(words, "(", "line " + (Digits(line) + ", "), OFFSET);
    FreeJoin(words, "(", "line " + (Digits(line) + ", "), MARKER);
  }

  lemma BracketApart()
    ensures Separates("(", COLUMN) && Separates("(", OFFSET) && Separates("(", MARKER)
    ensures Separates("'", COLUMN)
  {
  }

  // ---------------------------------------------------------------- a recorded report

  // In short pieces, because the prover takes a literal apart rune by rune.
  const STATUS := "Neo4jError: " + ("Neo.ClientError." + ("Statement." + "SyntaxError "))
  const INVALID := "Invalid input "
  const EXPECTED := "RETURN': expected " + "a parameter, "
  const OTHERS := "'&', ')', ':', " + "'WHERE', '{' or '|' "
  const RECORDED_WORDS := STATUS + ("(" + (INVALID + ("'" + (EXPECTED + OTHERS))))
  const RECORDED_QUERY := "MATCH (c:Company " + "RETURN c"

  lemma RecordedWordsCalm()
    ensures Calm(RECORDED_WORDS) && '\n' !in RECORDED_WORDS && !IsCaretLine(RECORDED_WORDS)
  {
    hide Free, Separates, Calm;
    BracketApart();
    forall c | c in "cf\"\n" ensures c !in STATUS && c !in INVALID && STATUS[0] == 'N' {
      StatusLacks(c);
      InvalidLacks(c);
    }
    forall c | c in "lf\"\n" ensures c !in EXPECTED && c !in OTHERS {
      ExpectedLacks(c);
      OthersLacks(c);
    }
    InWords(STATUS, INVALID, EXPECTED + OTHERS, 'f');
    InWords(STATUS, INVALID, EXPECTED + OTHERS, '"');
    InWords(STATUS, INVALID, EXPECTED + OTHERS, '\n');
    LacksRune(STATUS, COLUMN, 'c');
    LacksRune(INVALID, COLUMN, 'c');
    LacksRune(EXPECTED + OTHERS, COLUMN, 'l');
    FreeJoin(INVALID, "'", EXPECTED + OTHERS, COLUMN);
    FreeJoin(STATUS, "(", INVALID + ("'" + (EXPECTED + OTHERS)), COLUMN);
    LacksRune(RECORDED_WORDS, OFFSET, 'f');
    WithoutTheWords(RECORDED_WORDS);
  }

  lemma StatusLacks(c: char)
    requires c in "cf\"\n"
    ensures c !in STATUS && STATUS[0] == 'N'
  {
  }

  lemma InvalidLacks(c: char)
    requires c in "cf\"\n"
    ensures c !in INVALID
  {
  }

  lemma ExpectedLacks(c: char)
    requires c in "lf\"\n"
    ensures c !in EXPECTED
  {
  }

  lemma OthersLacks(c: char)
    requires c in "lf\"\n"
    ensures c !in OTHERS
  {
  }

  lemma InWords(a: string, b: string, d: string, c: char)
    requires a != [] && c !in a && c !in b && c !in d && c != '(' && c != '\''
    ensures c !in a + ("(" + (b + ("'" + d))) && (a + ("(" + (b + ("'" + d))))[0] == a[0]
  {
  }

  lemma OneLine(text: string)
    requires '\n' !in text
    ensures FirstLineOf(text) == text
  {
    hide Lines;
    LinesOf(text, "");
  }

  lemma ReportOnOneLine(f: Form, text: string, offset: nat)
    requires '\n' !in text && offset <= |text|
    ensures Report(f, text, offset)
         == ThreeLines(PositionLine(f, offset + 1, offset), EchoLine(text), CaretLine(f, offset + f.gap))
  {
    hide Lines, PositionLine, EchoLine, CaretLine, ThreeLines;
    FirstLineColumn(text, offset);
    assert text[0..] == text;
    OneLine(text);
  }

  lemma PrefixedEcho(text: string)
    ensures EchoLine(EXPLAIN + text) == MARKER + (text + "\"") && EchoLine(text) == "\"" + (text + "\"")
  {
  }

  lemma RecordedQuerySurvives()
    ensures '\n' !in RECORDED_QUERY && '\n' !in EXPLAIN + RECORDED_QUERY && Survives(RECORDED_QUERY)
  {
    hide Calm, Survives;
    WordsWithoutNumbers(RECORDED_QUERY);
  }

  lemma TwoDigits(n: nat)
    requires 10 <= n < 100
    ensures Digits(n) == [DigitChar(n / 10), DigitChar(n % 10)]
  {
  }

  lemma DriverPosition(words: string, ownLine: bool, column: nat, offset: nat)
    ensures PositionLine(DriverForm(words, 1, ownLine), column, offset)
         == words + ("(line 1, column " + (Digits(column) + (" (offset: " + (Digits(offset) + "))"))))
  {
    hide Digits;
    assert Digits(1) == "1" by { OneDigit(); }
    var d, e := Digits(column), Digits(offset);
    assert ("(" + ("line " + ("1" + ", "))) + COLUMN == "(line 1, column " && " (" + OFFSET == " (offset: ";
    assert (words + ("(" + ("line " + ("1" + ", ")))) + (COLUMN + (d + (" (" + (OFFSET + (e + "))")))))
        == words + (("(" + ("line " + ("1" + ", "))) + COLUMN + (d + ((" (" + OFFSET) + (e + "))"))));
  }

  lemma OneDigit()
    ensures Digits(1) == "1"
  {
  }

  // The report the tests pin, as it comes from the driver and as it goes out.
  lemma RecordedReport(ownLine: bool)
    ensures var f := DriverForm(RECORDED_WORDS, 1, ownLine);
      && Report(f, EXPLAIN + RECORDED_QUERY, 25)
      == ThreeLines(RECORDED_WORDS + "(line 1, column 26 (offset: 25))", "\"EXPLAIN " + (RECORDED_QUERY + "\""), Spaces(25) + "^)")
      && Sanitized(Report(f, EXPLAIN + RECORDED_QUERY, 25))
      == ThreeLines(RECORDED_WORDS + "(line 1, column 18 (offset: 17))", "\"" + (RECORDED_QUERY + "\""), Spaces(17) + "^)")
  {
    hide Calm, Ordinary, Sanitized, Lines, IsCaretLine, Digits, ColumnOf, Survives, ThreeLines, Report, Spaces, EchoLine,
      PositionLine;
    var f := DriverForm(RECORDED_WORDS, 1, ownLine);
    RecordedWordsCalm();
    DriverFormOrdinary(RECORDED_WORDS, 1, ownLine);
    RecordedQuerySurvives();
    ReadsAsSentDirectlyIff(f, RECORDED_QUERY, 17);
    OneLine(RECORDED_QUERY);
    ReportOnOneLine(f, EXPLAIN + RECORDED_QUERY, 25);
    ReportOnOneLine(f, RECORDED_QUERY, 17);
    RecordedNumbers(ownLine);
    assert EchoLine(EXPLAIN + RECORDED_QUERY) == "\"EXPLAIN " + (RECORDED_QUERY + "\"") by {
      PrefixedEcho(RECORDED_QUERY);
    }
    assert EchoLine(RECORDED_QUERY) == "\"" + (RECORDED_QUERY + "\"") by { PrefixedEcho(RECORDED_QUERY); }
    assert "^" + ")" == "^)";
  }

  lemma RecordedNumbers(ownLine: bool)
    ensures var f := DriverForm(RECORDED_WORDS, 1, ownLine);
      && PositionLine(f, 26, 25) == RECORDED_WORDS + "(line 1, column 26 (offset: 25))"
      && PositionLine(f, 18, 17) == RECORDED_WORDS + "(line 1, column 18 (offset: 17))"
  {
    hide PositionLine, DriverForm;
    DriverPosition(RECORDED_WORDS, ownLine, 26, 25);
    DriverPosition(RECORDED_WORDS, ownLine, 18, 17);
    RecordedPositions();
  }

  lemma RecordedPositions()
    ensures "(line 1, column " + (Digits(26) + (" (offset: " + (Digits(25) + "))"))) == "(line 1, column 26 (offset: 25))"
    ensures "(line 1, column " + (Digits(18) + (" (offset: " + (Digits(17) + "))"))) == "(line 1, column 18 (offset: 17))"
  {
    hide Digits;
    TwoDigits(26);
    TwoDigits(25);
    TwoDigits(18);
    TwoDigits(17);
  }

  // ---------------------------------------------------------------- reports that come out wrong

  // A query that returns the text "column 9": wherever the driver reports an error in
  // it, the scrubbed report is not that of the query, because it echoes "column 1".
  lemma EchoedNumberIsShifted(f: Form, offset: nat)
    requires Ordinary(f) && offset <= 15
    ensures var query := "RETURN column 9";
      Sanitized(Report(f, EXPLAIN + query, offset + PREFIX)) != Report(f, query, offset)
  {
    hide Calm, Sanitized, Report, Ordinary, Lines;
    var query := "RETURN column 9";
    OneLine(query);
    ColumnNineIsLoud();
    ReadsAsSentDirectlyIff(f, query, offset);
  }

  lemma ColumnNineIsLoud()
    ensures !Survives("RETURN column 9")
  {
    var s := "RETURN column 9";
    assert s[7..7 + |COLUMN|] == COLUMN && At(s, COLUMN, 7);
    assert s[7 + |COLUMN|..] == "9" && "9"[1..] == "";
    assert DigitRun("9") == 1 && "9"[..1] == "9" && "9"[..0] == "" && Value("9") == 9;
  }

  // An error behind a line break: if the driver echoes the first line the column that
  // was right is taken to 0, and if it echoes the error's own line nothing is moved
  // and the offset stays 8 too large.
  lemma LaterLineIsWrong(f: Form)
    requires Ordinary(f)
    ensures var query := "RETURN 1,\n  x";
      && FirstLineOf(Report(f, query, 12)) == PositionLine(f, 3, 12)
      && FirstLineOf(Sanitized(Report(f, EXPLAIN + query, 12 + PREFIX)))
      == if f.ownLine then PositionLine(f, 3, 12 + PREFIX) else PositionLine(f, 0, 12)
  {
    hide Sanitized, Lines, Ordinary, PositionLine, ThreeLines, EchoLine, CaretLine, ColumnOf;
    var query := "RETURN 1,\n  x";
    var text, caret := EXPLAIN + query, 2 + f.gap;
    SecondLine();
    LineBehindPrefix(query, 12);
    ColumnBehindPrefix(query, 12);
    FirstLineBehindPrefix(query);
    PositionLineFirst(f, 3, 12, EchoLine(Echoed(f, query, 12)), CaretLine(f, caret));
    if f.ownLine {
      NoMarker(f, 3, 12 + PREFIX, "  x", caret);
      PositionLineFirst(f, 3, 12 + PREFIX, EchoLine("  x"), CaretLine(f, caret));
    } else {
      SanitizedReport(f, 3, 12 + PREFIX, "RETURN 1,", caret);
      PositionLineFirst(f, 0, 12, "\"" + Remains("RETURN 1,"), CaretLine(f, Less8(caret)));
    }
  }

  lemma SecondLine()
    ensures var query := "RETURN 1,\n  x";
      '\n' in query[..12] && ColumnOf(query, 12) == 3 && FirstLineOf(query) == "RETURN 1," && LineAt(query, 12) == "  x"
  {
    hide Lines;
    var query := "RETURN 1,\n  x";
    assert query == "RETURN 1," + ("\n" + "  x");
    assert query[..12][9] == '\n' && query[10..] == "  x";
    assert ColumnOf(query, 10) == 1 && ColumnOf(query, 11) == 2;
    LinesOf("RETURN 1,", "  x");
    OneLine("  x");
  }

  lemma NoMarker(f: Form, column: nat, offset: nat, line: string, caret: nat)
    requires Ordinary(f) && |line| + 2 < |MARKER|
    ensures var msg := ThreeLines(PositionLine(f, column, offset), EchoLine(line), CaretLine(f, caret)); Sanitized(msg) == msg
  {
    hide PositionLine, Free, Separates, Contains, Spaces, Quiet, IsCaretLine, Sanitized;
    var x, z := PositionLine(f, column, offset), CaretLine(f, caret);
    PositionLineFree(f, column, offset);
    TooShort(EchoLine(line), MARKER);
    SpacesCalm(caret);
    BreaksApart();
    FreeJoin(Spaces(caret), "^", f.rest, MARKER);
    FreeJoin(EchoLine(line), "\n", z, MARKER);
    FreeJoin(x, "\n", EchoLine(line) + ("\n" + z), MARKER);
    FreeHasNone(ThreeLines(x, EchoLine(line), z));
    WithoutMarker(ThreeLines(x, EchoLine(line), z));
  }

  lemma BreaksApart()
    ensures Separates("\n", MARKER) && Separates("^", MARKER)
  {
  }

  lemma FreeHasNone(s: string)
    requires Free(s, MARKER)
    ensures !Contains(s, MARKER)
  {
    hide At;
  }
}
