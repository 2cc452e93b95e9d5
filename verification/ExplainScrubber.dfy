// Error messages rewritten as if sent without EXPLAIN.
module ExplainScrubber {
  import opened Decimal
  import opened Quoting

  const EXPLAIN := "EXPLAIN "
  const MARKER := "\"EXPLAIN "
  const COLUMN := "column "
  const OFFSET := "offset: "
  const PREFIX := 8

  predicate At(s: string, pat: string, i: int) {
    0 <= i && i + |pat| <= |s| && s[i..i + |pat|] == pat
  }

  // ---------------------------------------------------------------- the three rewrites

  // strings.ReplaceAll
  function ReplaceText(s: string, pat: string, with: string): string
    requires pat != []
    decreases |s|
  {
    if s == [] then []
    else if At(s, pat, 0) then with + ReplaceText(s[|pat|..], pat, with)
    else [s[0]] + ReplaceText(s[1..], pat, with)
  }

  function Less8(n: nat): nat {
    if n < PREFIX then 0 else n - PREFIX
  }

  // A numeral that does not fit an integer is left alone.
  function ShiftedNumeral(digits: string): string
    requires forall i :: 0 <= i < |digits| ==> IsDigit(digits[i])
  {
    if Value(digits) >= INT64_LIMIT then digits else Digits(Less8(Value(digits)))
  }

  // Every match of the key and a numeral, with the numeral shifted.
  function ShiftNumbers(s: string, key: string): string
    requires key != []
    decreases |s|
  {
    if s == [] then []
    else if At(s, key, 0) && DigitRun(s[|key|..]) > 0 then
      var n := DigitRun(s[|key|..]);
      key + ShiftedNumeral(s[|key|..][..n]) + ShiftNumbers(s[|key| + n..], key)
    else [s[0]] + ShiftNumbers(s[1..], key)
  }

  function LeadingSpaces(line: string): (n: nat)
    ensures n <= |line| && (forall i :: 0 <= i < n ==> line[i] == ' ') && (n < |line| ==> line[n] != ' ')
  {
    if line == [] || line[0] != ' ' then 0 else 1 + LeadingSpaces(line[1..])
  }

  predicate IsCaretLine(line: string) {
    LeadingSpaces(line) < |line| && line[LeadingSpaces(line)] == '^'
  }

  function Dedent(line: string): string {
    if IsCaretLine(line) then line[if PREFIX > LeadingSpaces(line) then LeadingSpaces(line) else PREFIX..] else line
  }

  // strings.Split on newlines
  function Lines(s: string): (ls: seq<string>)
    ensures ls != []
  {
    if s == [] then [[]]
    else if s[0] == '\n' then [[]] + Lines(s[1..])
    else [[s[0]] + Lines(s[1..])[0]] + Lines(s[1..])[1..]
  }

  function DedentAll(lines: seq<string>): (r: seq<string>)
    ensures |r| == |lines|
  {
    seq(|lines|, i requires 0 <= i < |lines| => Dedent(lines[i]))
  }

  function DedentText(s: string): string {
    Join(DedentAll(Lines(s)), "\n")
  }

  // The loop overwrites the lines in place.
  method DedentCaretLines(lines: array<string>)
    modifies lines
    ensures lines[..] == DedentAll(old(lines[..]))
  {
    for i := 0 to lines.Length
      invariant forall j :: 0 <= j < i ==> lines[j] == Dedent(old(lines[j]))
      invariant forall j :: i <= j < lines.Length ==> lines[j] == old(lines[j])
    {
      var leading := LeadingSpaces(lines[i]);
      if leading == |lines[i]| || lines[i][leading] != '^' {
        continue;
      }
      if leading == 0 {
        continue;
      }
      var removed := PREFIX;
      if removed > leading {
        removed := leading;
      }
      lines[i] := lines[i][removed..];
    }
  }

  predicate Contains(s: string, pat: string) {
    exists i :: 0 <= i <= |s| && At(s, pat, i)
  }

  function Sanitized(msg: string): string {
    if !Contains(msg, MARKER) then msg
    else DedentText(ShiftNumbers(ShiftNumbers(ReplaceText(msg, MARKER, "\""), COLUMN), OFFSET))
  }

  method SanitizeExplainPrefix(msg: string) returns (out: string)
    ensures out == Sanitized(msg)
  {
    hide At, ReplaceText, ShiftNumbers, Lines, Dedent, Join;
    if !Contains(msg, MARKER) {
      return msg;
    }
    out := ReplaceText(msg, MARKER, "\"");
    out := ShiftNumbers(out, COLUMN);
    out := ShiftNumbers(out, OFFSET);
    var ls := Lines(out);
    var lines := new string[|ls|](i requires 0 <= i < |ls| => ls[i]);
    assert lines[..] == ls;
    DedentCaretLines(lines);
    out := Join(lines[..], "\n");
  }

  // ---------------------------------------------------------------- one number

  lemma AtTail(s: string, pat: string, i: nat)
    requires s != []
    ensures At(s[1..], pat, i) <==> At(s, pat, i + 1)
  {
    if i + 1 + |pat| <= |s| {
      assert s[1..][i..i + |pat|] == s[i + 1..i + 1 + |pat|];
    }
  }

  lemma ShiftTakes(key: string, rest: string)
    requires key != [] && DigitRun(rest) > 0
    ensures ShiftNumbers(key + rest, key)
         == key + ShiftedNumeral(rest[..DigitRun(rest)]) + ShiftNumbers(rest[DigitRun(rest)..], key)
  {
    hide DigitRun, ShiftedNumeral, IsDigit;
    var s, n := key + rest, DigitRun(rest);
    assert s[|key|..] == rest;
    assert s[0..0 + |key|] == key;
    assert s[|key| + n..] == rest[n..];
    assert ShiftNumbers(s, key) == key + ShiftedNumeral(s[|key|..][..n]) + ShiftNumbers(s[|key| + n..], key);
  }

  lemma NumeralShifted(n: nat)
    requires n < INT64_LIMIT
    ensures ShiftedNumeral(Digits(n)) == Digits(Less8(n))
  {
    ValueOfDigits(n);
  }

  // A key no occurrence of which overlaps another, or a number after one.
  ghost predicate SingleStart(key: string) {
    key != [] && !IsDigit(key[0]) && forall j :: 0 < j < |key| ==> key[j] != key[0]
  }

  // Any number behind the key: it is shifted, and what is before and after it is
  // rewritten on its own.
  lemma {:induction false} ShiftMatch(a: string, key: string, n: nat, b: string)
    requires SingleStart(key) && n < INT64_LIMIT && (b == [] || !IsDigit(b[0]))
    ensures ShiftNumbers(a + (key + (Digits(n) + b)), key)
         == ShiftNumbers(a, key) + (key + (Digits(Less8(n)) + ShiftNumbers(b, key)))
    decreases |a|
  {
    hide Digits, ShiftNumbers, Less8, IsDigit, ShiftedNumeral, DigitRun;
    var rest := key + (Digits(n) + b);
    if a == [] {
      MatchFirst(key, n, b);
      ShiftsNothing(key);
      assert a + rest == rest;
    } else {
      var tail := key + (Digits(Less8(n)) + ShiftNumbers(b, key));
      MatchInside(a, key, Digits(n) + b);
      if At(a, key, 0) && DigitRun(a[|key|..]) > 0 {
        var k := DigitRun(a[|key|..]);
        ShiftTakes(key, a[|key|..] + rest);
        ShiftTakes(key, a[|key|..]);
        ShiftMatch(a[|key|..][k..], key, n, b);
        SplitAtKey(a, key, rest);
        assert (a[|key|..] + rest)[k..] == a[|key|..][k..] + rest;
        Reassociate(key, ShiftedNumeral(a[|key|..][..k]), ShiftNumbers(a[|key|..][k..], key), tail);
      } else {
        ShiftMatch(a[1..], key, n, b);
        ShiftStays(a, key);
        ShiftStays(a + rest, key);
        assert (a + rest)[1..] == a[1..] + rest;
      }
    }
  }

  lemma ShiftsNothing(key: string)
    requires key != []
    ensures ShiftNumbers([], key) == []
  {
  }

  lemma Reassociate(a: string, b: string, c: string, d: string)
    ensures a + b + (c + d) == a + b + c + d
  {
  }

  lemma SplitAtKey(a: string, key: string, rest: string)
    requires At(a, key, 0)
    ensures a == key + a[|key|..] && a + rest == key + (a[|key|..] + rest)
  {
    assert a[0..0 + |key|] == key;
  }

  lemma MatchFirst(key: string, n: nat, b: string)
    requires key != [] && n < INT64_LIMIT && (b == [] || !IsDigit(b[0]))
    ensures ShiftNumbers(key + (Digits(n) + b), key) == key + (Digits(Less8(n)) + ShiftNumbers(b, key))
  {
    hide Digits, DigitRun, IsDigit, ShiftNumbers, ShiftedNumeral, Less8;
    var rest := Digits(n) + b;
    DigitRunOf(Digits(n), b);
    assert rest[..|Digits(n)|] == Digits(n) && rest[|Digits(n)|..] == b;
    ShiftTakes(key, rest);
    NumeralShifted(n);
  }

  // A match in `a` is not disturbed by the key that follows.
  lemma MatchInside(a: string, key: string, rest: string)
    requires SingleStart(key) && a != []
    ensures At(a + (key + rest), key, 0) <==> At(a, key, 0)
    ensures At(a, key, 0) ==> var t := a[|key|..];
      DigitRun(t + (key + rest)) == DigitRun(t) && (t + (key + rest))[..DigitRun(t)] == t[..DigitRun(t)]
    ensures At(a, key, 0) ==> (a + (key + rest))[|key|..] == a[|key|..] + (key + rest)
  {
    var s := a + (key + rest);
    if |a| < |key| {
      assert s[0..0 + |key|][|a|] == s[|a|] == key[0] != key[|a|];
    } else {
      assert s[0..0 + |key|] == a[0..0 + |key|];
      assert (key + rest)[0] == key[0];
      DigitRunBefore(a[|key|..], key + rest);
    }
  }

  lemma ShiftStays(s: string, key: string)
    requires key != [] && s != [] && !(At(s, key, 0) && DigitRun(s[|key|..]) > 0)
    ensures ShiftNumbers(s, key) == [s[0]] + ShiftNumbers(s[1..], key)
  {
  }

  // ---------------------------------------------------------------- occurrences across a separator

  ghost predicate Free(s: string, pat: string) {
    forall i :: !At(s, pat, i)
  }

  ghost predicate Separates(mid: string, pat: string) {
    mid != [] && pat != [] && forall i :: 0 <= i < |mid| ==> mid[i] !in pat
  }

  // An occurrence lies on one side of a separator.
  lemma AtSplits(a: string, mid: string, b: string, pat: string, i: int)
    requires Separates(mid, pat)
    ensures At(a + (mid + b), pat, i) <==> At(a, pat, i) || At(b, pat, i - |a| - |mid|)
  {
    var s, k := a + (mid + b), |a| + |mid|;
    if 0 <= i && i + |pat| <= |s| {
      if i + |pat| <= |a| {
        assert s[i..i + |pat|] == a[i..i + |pat|];
      } else if i >= k {
        assert s[i..i + |pat|] == b[i - k..i - k + |pat|];
      } else {
        var j := if i < |a| then |a| else i;
        var window := s[i..i + |pat|];
        assert window[j - i] == mid[j - |a|] && window[j - i] in window;
      }
    }
  }

  lemma FreeJoin(a: string, mid: string, b: string, pat: string)
    requires Separates(mid, pat) && Free(a, pat) && Free(b, pat)
    ensures Free(a + (mid + b), pat)
  {
    forall i ensures !At(a + (mid + b), pat, i) {
      AtSplits(a, mid, b, pat, i);
    }
  }

  // ---------------------------------------------------------------- when a number is left alone

  // The numeral the text begins with, if any, is zero or too big to be read.
  predicate Harmless(t: string) {
    DigitRun(t) == 0 || t[..DigitRun(t)] == "0" || Value(t[..DigitRun(t)]) >= INT64_LIMIT
  }

  // No occurrence of the key has another number behind it.
  ghost predicate Quiet(s: string, key: string) {
    forall i :: At(s, key, i) ==> Harmless(s[i + |key|..])
  }

  lemma NumeralKeptIff(d: string)
    requires d != [] && forall i :: 0 <= i < |d| ==> IsDigit(d[i])
    ensures ShiftedNumeral(d) == d <==> d == "0" || Value(d) >= INT64_LIMIT
  {
    hide Digits;
    var v := Value(d);
    if v < INT64_LIMIT {
      ValueOfDigits(Less8(v));
      if d == "0" {
        assert d[..0] == [] && v == 0;
      }
      ZeroDigits();
    }
  }

  lemma ZeroDigits()
    ensures Digits(0) == "0"
  {
  }

  lemma {:induction false} QuietAfter(s: string, key: string, k: nat)
    requires k <= |s| && forall i :: 0 <= i < k ==> !At(s, key, i)
    ensures Quiet(s, key) <==> Quiet(s[k..], key)
  {
    forall i: nat ensures At(s[k..], key, i) <==> At(s, key, k + i) {
      if k + i + |key| <= |s| {
        assert s[k..][i..i + |key|] == s[k + i..k + i + |key|];
      }
    }
    if Quiet(s[k..], key) {
      forall i | At(s, key, i) ensures Harmless(s[i + |key|..]) {
        assert At(s[k..], key, i - k);
        assert s[k..][i - k + |key|..] == s[i + |key|..];
      }
    }
    if Quiet(s, key) {
      forall i | At(s[k..], key, i) ensures Harmless(s[k..][i + |key|..]) {
        assert At(s, key, k + i);
        assert s[k..][i + |key|..] == s[k + i + |key|..];
      }
    }
  }

  // The scanner moves over an occurrence of the key and its number in one step; it
  // misses none that begins inside.
  lemma NoneInside(s: string, key: string)
    requires SingleStart(key) && At(s, key, 0)
    ensures forall i :: 0 < i < |key| + DigitRun(s[|key|..]) ==> !At(s, key, i)
  {
    var n := DigitRun(s[|key|..]);
    assert s[0..0 + |key|] == key;
    forall i | 0 < i < |key| + n ensures !At(s, key, i) {
      if i + |key| <= |s| {
        assert s[i..i + |key|][0] == s[i];
        if i < |key| {
          assert s[i] == s[0..0 + |key|][i] == key[i];
        } else {
          assert s[i] == s[|key|..][i - |key|];
        }
      }
    }
  }

  lemma QuietFirst(s: string, key: string)
    requires SingleStart(key) && At(s, key, 0)
    ensures var n := DigitRun(s[|key|..]);
      Quiet(s, key) <==> Harmless(s[|key|..]) && Quiet(s[|key|..][n..], key)
  {
    hide Harmless, DigitRun, At;
    AtFirst(s, key);
    var k := |key| + DigitRun(s[|key|..]);
    NoneInside(s, key);
    var t := s[1..];
    forall i | 0 <= i < k - 1 ensures !At(t, key, i) {
      AtTail(s, key, i);
    }
    QuietAfter(t, key, k - 1);
    assert t[k - 1..] == s[|key|..][DigitRun(s[|key|..])..];
  }

  lemma AtFirst(s: string, key: string)
    requires key != [] && At(s, key, 0)
    ensures |s| >= |key| && (Quiet(s, key) <==> Harmless(s[|key|..]) && Quiet(s[1..], key))
  {
    hide Harmless;
    if Harmless(s[|key|..]) && Quiet(s[1..], key) {
      forall i | At(s, key, i) ensures Harmless(s[i + |key|..]) {
        if i > 0 {
          AtTail(s, key, i - 1);
          assert s[1..][i - 1 + |key|..] == s[i + |key|..];
        } else {
          assert s[i + |key|..] == s[|key|..];
        }
      }
    }
    if Quiet(s, key) {
      forall i | At(s[1..], key, i) ensures Harmless(s[1..][i + |key|..]) {
        AtTail(s, key, i);
        assert s[1..][i + |key|..] == s[i + 1 + |key|..];
      }
    }
  }

  // ---------------------------------------------------------------- rewriting only takes away

  // Character by character, for texts of one length.
  predicate LexLe(t: string, s: string)
    requires |t| == |s|
  {
    t == [] || t[0] < s[0] || (t[0] == s[0] && LexLe(t[1..], s[1..]))
  }

  // Shorter, or of the same length and not after.
  predicate NotAbove(t: string, s: string) {
    |t| < |s| || (|t| == |s| && LexLe(t, s))
  }

  lemma {:induction false} LexSame(s: string)
    ensures LexLe(s, s)
  {
    if s != [] {
      LexSame(s[1..]);
    }
  }

  lemma {:induction false} LexTransitive(a: string, b: string, c: string)
    requires |a| == |b| == |c| && LexLe(a, b) && LexLe(b, c)
    ensures LexLe(a, c)
  {
    if a != [] && a[0] == b[0] == c[0] {
      LexTransitive(a[1..], b[1..], c[1..]);
    }
  }

  lemma {:induction false} LexBothWays(a: string, b: string)
    requires |a| == |b| && LexLe(a, b) && LexLe(b, a)
    ensures a == b
  {
    if a != [] {
      LexBothWays(a[1..], b[1..]);
      assert a == [a[0]] + a[1..] && b == [b[0]] + b[1..];
    }
  }

  lemma {:induction false} LexConcat(a: string, s: string, b: string, t: string)
    requires |a| == |s| && |b| == |t| && LexLe(a, s) && LexLe(b, t)
    ensures LexLe(a + b, s + t)
  {
    if a == [] {
      assert a + b == b && s + t == t;
    } else {
      assert (a + b)[1..] == a[1..] + b && (s + t)[1..] == s[1..] + t;
      if a[0] == s[0] {
        LexConcat(a[1..], s[1..], b, t);
      }
    }
  }

  lemma NotAboveConcat(a: string, s: string, b: string, t: string)
    requires NotAbove(a, s) && NotAbove(b, t)
    ensures NotAbove(a + b, s + t)
    ensures a + b == s + t ==> a == s && b == t
  {
    hide LexLe;
    if |a| == |s| && |b| == |t| {
      LexConcat(a, s, b, t);
      assert (a + b)[..|a|] == a && (s + t)[..|a|] == s && (a + b)[|a|..] == b && (s + t)[|a|..] == t;
    }
  }

  lemma NotAboveSame(s: string)
    ensures NotAbove(s, s)
  {
    LexSame(s);
  }

  lemma NotAboveTransitive(a: string, b: string, c: string)
    requires NotAbove(a, b) && NotAbove(b, c)
    ensures NotAbove(a, c) && (a == c ==> a == b)
  {
    hide LexLe;
    if |a| == |b| == |c| {
      LexTransitive(a, b, c);
      if a == c {
        LexBothWays(a, b);
      }
    }
  }

  lemma {:induction false} OneMoreTimes(a: nat, b: nat, p: nat)
    ensures a < b ==> a * p + p <= b * p
    decreases b
  {
    if a < b {
      OneMoreTimes(a, b - 1, p);
      assert b * p == (b - 1) * p + p;
    }
  }

  // Of two numerals of one length the smaller comes first.
  lemma {:induction false} LexByValue(x: string, y: string)
    requires |x| == |y| && (forall i :: 0 <= i < |x| ==> IsDigit(x[i]) && IsDigit(y[i]))
    requires Value(x) <= Value(y)
    ensures LexLe(x, y)
  {
    hide Value;
    if x != [] {
      ValueHead(x);
      ValueHead(y);
      ValueBound(x[1..]);
      ValueBound(y[1..]);
      OneMoreTimes(DigitValue(y[0]), DigitValue(x[0]), Pow10(|x| - 1));
      if x[0] == y[0] {
        LexByValue(x[1..], y[1..]);
      }
    }
  }

  lemma NumeralNotAbove(d: string)
    requires d != [] && forall i :: 0 <= i < |d| ==> IsDigit(d[i])
    ensures NotAbove(ShiftedNumeral(d), d)
  {
    hide Digits, Value, LexLe;
    if Value(d) >= INT64_LIMIT {
      NotAboveSame(d);
    } else {
      var v := Less8(Value(d));
      ValueBound(d);
      DigitsLength(v, |d|);
      ValueOfDigits(v);
      if |Digits(v)| == |d| {
        LexByValue(Digits(v), d);
      }
    }
  }

  // Shifting leaves a text as it is exactly when it is quiet; otherwise it comes
  // out shorter or earlier.
  lemma {:induction false} ShiftKeepsIff(s: string, key: string)
    requires SingleStart(key)
    ensures NotAbove(ShiftNumbers(s, key), s) && (ShiftNumbers(s, key) == s <==> Quiet(s, key))
    decreases |s|
  {
    hide NotAbove, ShiftNumbers, ShiftedNumeral, Quiet, Harmless, DigitRun, Value;
    if s == [] {
      ShiftsNothing(key);
      NotAboveSame(s);
      EmptyQuiet(key);
    } else if At(s, key, 0) && DigitRun(s[|key|..]) > 0 {
      var t := s[|key|..];
      var n := DigitRun(t);
      var d, rest := t[..n], t[n..];
      SplitAtKey(s, key, []);
      assert s == key + (d + rest);
      ShiftTakes(key, t);
      ShiftKeepsIff(rest, key);
      NumeralNotAbove(d);
      NumeralKeptIff(d);
      NotAboveConcat(ShiftedNumeral(d), d, ShiftNumbers(rest, key), rest);
      NotAboveSame(key);
      NotAboveConcat(key, key, ShiftedNumeral(d) + ShiftNumbers(rest, key), d + rest);
      assert key + ShiftedNumeral(d) + ShiftNumbers(rest, key) == key + (ShiftedNumeral(d) + ShiftNumbers(rest, key));
      QuietFirst(s, key);
      HarmlessIff(t);
    } else {
      ShiftStays(s, key);
      ShiftKeepsIff(s[1..], key);
      NotAboveSame([s[0]]);
      NotAboveConcat([s[0]], [s[0]], ShiftNumbers(s[1..], key), s[1..]);
      assert s == [s[0]] + s[1..];
      QuietWithoutNumber(s, key);
    }
  }

  lemma EmptyQuiet(key: string)
    requires key != []
    ensures Quiet([], key)
  {
  }

  lemma HarmlessIff(t: string)
    requires DigitRun(t) > 0
    ensures Harmless(t) <==> t[..DigitRun(t)] == "0" || Value(t[..DigitRun(t)]) >= INT64_LIMIT
  {
  }

  lemma QuietWithoutNumber(s: string, key: string)
    requires key != [] && s != [] && !(At(s, key, 0) && DigitRun(s[|key|..]) > 0)
    ensures Quiet(s, key) <==> Quiet(s[1..], key)
  {
    if At(s, key, 0) {
      AtFirst(s, key);
    } else {
      QuietAfter(s, key, 1);
    }
  }

  // So is stripping the marker, exactly when there is none.
  lemma {:induction false} StripKeepsIff(s: string)
    ensures NotAbove(ReplaceText(s, MARKER, "\""), s) && (ReplaceText(s, MARKER, "\"") == s <==> Free(s, MARKER))
    decreases |s|
  {
    hide LexLe;
    if s != [] {
      if At(s, MARKER, 0) {
        StripKeepsIff(s[|MARKER|..]);
      } else {
        StripKeepsIff(s[1..]);
        NotAboveSame([s[0]]);
        NotAboveConcat([s[0]], [s[0]], ReplaceText(s[1..], MARKER, "\""), s[1..]);
        assert s == [s[0]] + s[1..];
        FreeTail(s, MARKER);
      }
    } else {
      NotAboveSame(s);
    }
  }

  lemma FreeTail(s: string, pat: string)
    requires s != [] && !At(s, pat, 0)
    ensures Free(s, pat) <==> Free(s[1..], pat)
  {
    if Free(s[1..], pat) {
      forall i ensures !At(s, pat, i) {
        if i > 0 {
          AtTail(s, pat, i - 1);
        }
      }
    }
    if Free(s, pat) {
      forall i ensures !At(s[1..], pat, i) {
        if i >= 0 {
          AtTail(s, pat, i);
        }
      }
    }
  }

  // ---------------------------------------------------------------- errors on later lines

  // The column of a position, counted from 1 on each line.
  function ColumnOf(text: string, offset: nat): (c: nat)
    requires offset <= |text|
    ensures 1 <= c <= offset + 1
  {
    if offset == 0 || text[offset - 1] == '\n' then 1 else ColumnOf(text, offset - 1) + 1
  }

  lemma {:induction false} ColumnBehindPrefix(query: string, offset: nat)
    requires offset <= |query|
    ensures ColumnOf(EXPLAIN + query, offset + PREFIX)
         == ColumnOf(query, offset) + if '\n' in query[..offset] then 0 else PREFIX
  {
    var text := EXPLAIN + query;
    if offset == 0 {
      assert text[..PREFIX] == EXPLAIN;
      FirstLineColumn(text, PREFIX);
    } else {
      assert text[offset + PREFIX - 1] == query[offset - 1];
      assert query[..offset] == query[..offset - 1] + [query[offset - 1]];
      ColumnBehindPrefix(query, offset - 1);
    }
  }

  lemma {:induction false} FirstLineColumn(text: string, offset: nat)
    requires offset <= |text| && '\n' !in text[..offset]
    ensures ColumnOf(text, offset) == offset + 1
  {
    if offset > 0 {
      assert text[..offset] == text[..offset - 1] + [text[offset - 1]];
      FirstLineColumn(text, offset - 1);
    }
  }

  // The shifted column is the query's own if and only if the error is on its first
  // line. The offset is always right.
  lemma ColumnRightIff(query: string, offset: nat)
    requires offset <= |query|
    ensures Less8(ColumnOf(EXPLAIN + query, offset + PREFIX)) == ColumnOf(query, offset) <==> '\n' !in query[..offset]
    ensures Less8(offset + PREFIX) == offset
  {
    ColumnBehindPrefix(query, offset);
  }
}
