// Durations printed as ISO 8601 text, against a reader for it.
module Duration {
  import opened Decimal
  import opened Wrappers

  const GIGA := 1_000_000_000

  // As the driver decomposes it. nanos is the non-negative fraction of a second.
  datatype Duration = Duration(months: int, days: int, seconds: int, nanos: nat)

  predicate Valid(d: Duration) {
    d.nanos < GIGA
  }

  // Go's / and %, which truncate toward zero.
  function Quo(a: int, b: int): int
    requires b > 0
  {
    if a >= 0 then a / b else -(-a / b)
  }

  function Rem(a: int, b: int): int
    requires b > 0
  {
    if a >= 0 then a % b else -(-a % b)
  }

  lemma QuoRem(a: int, b: int)
    requires b > 0
    ensures a == b * Quo(a, b) + Rem(a, b)
  {
    if a < 0 {
      assert -a == b * (-a / b) + -a % b;
      assert b * Quo(a, b) == -(b * (-a / b));
    }
  }

  // ---------------------------------------------------------------- printing

  // %d
  function IntText(n: int): string {
    if n < 0 then "-" + Digits(-n) else Digits(n)
  }

  function Zeros(n: nat): string {
    seq(n, _ => '0')
  }

  // %09d
  function NineDigits(n: nat): string {
    Zeros(if |Digits(n)| < 9 then 9 - |Digits(n)| else 0) + Digits(n)
  }

  // strings.TrimRight(s, "0")
  function TrimZeros(s: string): string {
    if s != [] && s[|s| - 1] == '0' then TrimZeros(s[..|s| - 1]) else s
  }

  function Field(v: int, unit: char): string {
    if v == 0 then [] else IntText(v) + [unit]
  }

  function SecondsText(seconds: int, nanos: nat): string {
    if seconds == 0 && nanos == 0 then []
    else if nanos != 0 then IntText(seconds) + "." + TrimZeros(NineDigits(nanos)) + "S"
    else IntText(seconds) + "S"
  }

  function DateText(d: Duration): string {
    Field(Quo(d.months, 12), 'Y') + (Field(Rem(d.months, 12), 'M') + Field(d.days, 'D'))
  }

  function ClockText(d: Duration): string {
    Field(Quo(d.seconds, 3600), 'H') + (Field(Quo(Rem(d.seconds, 3600), 60), 'M') + SecondsText(Rem(d.seconds, 60), d.nanos))
  }

  function DurationText(d: Duration): string {
    if DateText(d) == [] && ClockText(d) == [] then "PT0S"
    else "P" + DateText(d) + if ClockText(d) == [] then [] else "T" + ClockText(d)
  }

  lemma ConcatAssociates(a: string, b: string, c: string, d: string)
    ensures a + b + c + d == a + (b + (c + d))
  {
  }

  // Appends a component, unless it is zero.
  method WriteField(b: string, v: int, unit: char) returns (r: string)
    ensures r == b + Field(v, unit)
  {
    r := b;
    if v != 0 {
      r := r + (IntText(v) + [unit]);
    }
  }

  method FormatDurationISO(d: Duration) returns (b: string)
    ensures b == DurationText(d)
  {
    hide Digits, Quo, Rem, TrimZeros, NineDigits, IntText, Field;
    var hours, minutes, seconds := Quo(d.seconds, 3600), Quo(Rem(d.seconds, 3600), 60), Rem(d.seconds, 60);
    b := "P";
    b := WriteField(b, Quo(d.months, 12), 'Y');
    b := WriteField(b, Rem(d.months, 12), 'M');
    b := WriteField(b, d.days, 'D');
    ConcatAssociates("P", Field(Quo(d.months, 12), 'Y'), Field(Rem(d.months, 12), 'M'), Field(d.days, 'D'));
    assert b == "P" + DateText(d);
    ClockTextEmptyIff(d);
    if hours != 0 || minutes != 0 || seconds != 0 || d.nanos != 0 {
      var clock := WriteClock(hours, minutes, seconds, d.nanos);
      b := b + ("T" + clock);
    }
    if |b| == 1 {
      b := "PT0S";
    }
  }

  method WriteClock(hours: int, minutes: int, seconds: int, nanos: nat) returns (b: string)
    ensures b == Field(hours, 'H') + (Field(minutes, 'M') + SecondsText(seconds, nanos))
  {
    hide Digits, TrimZeros, NineDigits, IntText, Field;
    b := "";
    b := WriteField(b, hours, 'H');
    b := WriteField(b, minutes, 'M');
    ghost var before := b;
    if seconds != 0 || nanos != 0 {
      if nanos != 0 {
        b := b + (IntText(seconds) + "." + TrimZeros(NineDigits(nanos)) + "S");
      } else {
        b := b + (IntText(seconds) + "S");
      }
    }
    assert b == before + SecondsText(seconds, nanos);
    ConcatAssociates("", Field(hours, 'H'), Field(minutes, 'M'), SecondsText(seconds, nanos));
  }

  lemma ClockTextEmptyIff(d: Duration)
    ensures ClockText(d) == [] <==>
      Quo(d.seconds, 3600) == 0 && Quo(Rem(d.seconds, 3600), 60) == 0 && Rem(d.seconds, 60) == 0 && d.nanos == 0
  {
    hide Digits, TrimZeros, NineDigits, IntText, Quo, Rem;
  }

  lemma RemFits(a: int, b: int)
    requires b > 0
    ensures a == b * Quo(a, b) + Rem(a, b) && -b < Rem(a, b) < b && if a >= 0 then Rem(a, b) >= 0 else Rem(a, b) <= 0
  {
    QuoRem(a, b);
  }

  // Twelve months or more are printed as years, sixty minutes or more as hours, and
  // sixty seconds or more as minutes, all with one sign.
  lemma PartsFit(d: Duration) returns (years: int, months: int, hours: int, minutes: int, seconds: int)
    ensures DateText(d) == Field(years, 'Y') + (Field(months, 'M') + Field(d.days, 'D'))
    ensures years * 12 + months == d.months && -12 < months < 12 && (if d.months >= 0 then months >= 0 else months <= 0)
    ensures ClockText(d) == Field(hours, 'H') + (Field(minutes, 'M') + SecondsText(seconds, d.nanos))
    ensures hours * 3600 + minutes * 60 + seconds == d.seconds && -60 < minutes < 60 && -60 < seconds < 60
    ensures if d.seconds >= 0 then minutes >= 0 && seconds >= 0 else minutes <= 0 && seconds <= 0
  {
    hide Field, SecondsText, Quo, Rem;
    RemFits(d.months, 12);
    RemFits(d.seconds, 3600);
    RemFits(Rem(d.seconds, 3600), 60);
    RemFits(d.seconds, 60);
    RemOfRem(d.seconds);
    years, months := Quo(d.months, 12), Rem(d.months, 12);
    hours, minutes, seconds := Quo(d.seconds, 3600), Quo(Rem(d.seconds, 3600), 60), Rem(d.seconds, 60);
  }

  // ---------------------------------------------------------------- reading

  // A reader of section 4.4.3.2 of ISO 8601:2004 that takes a sign on each component
  // and a fraction on the seconds.

  predicate IsNegative(s: string) {
    s != [] && s[0] == '-'
  }

  // The length of an optional sign and the digits after it.
  function NumberRun(s: string): (n: nat)
    ensures n <= |s|
  {
    if IsNegative(s) then 1 + DigitRun(s[1..]) else DigitRun(s)
  }

  // The size of the number the text begins with, without its sign.
  function Magnitude(s: string): nat {
    var t := if IsNegative(s) then s[1..] else s;
    Value(t[..DigitRun(t)])
  }

  predicate HasDigits(s: string) {
    DigitRun(if IsNegative(s) then s[1..] else s) > 0
  }

  // Is the next component a number of this unit?
  predicate FieldNext(s: string, unit: char) {
    HasDigits(s) && NumberRun(s) < |s| && s[NumberRun(s)] == unit
  }

  function Signed(s: string, n: int): int {
    if IsNegative(s) then -n else n
  }

  // Reads a component of the unit if it comes next; otherwise it is 0.
  function TakeField(s: string, unit: char): (int, string) {
    if FieldNext(s, unit) then (Signed(s, Magnitude(s)), s[NumberRun(s) + 1..]) else (0, s)
  }

  // Reads up to nine decimals and the unit, in nanoseconds.
  function TakeFraction(s: string): Option<(nat, string)> {
    var n := DigitRun(s);
    if 0 < n <= 9 && n < |s| && s[n] == 'S' then Some((Value(s[..n]) * Pow10(9 - n), s[n + 1..])) else None
  }

  // Reads the seconds, in nanoseconds: the sign applies to the whole decimal.
  function TakeSeconds(s: string): Option<(int, string)> {
    if FieldNext(s, 'S') then Some((Signed(s, Magnitude(s) * GIGA), s[NumberRun(s) + 1..]))
    else if FieldNext(s, '.') then
      match TakeFraction(s[NumberRun(s) + 1..])
      case None => None
      case Some((fraction, rest)) => Some((Signed(s, Magnitude(s) * GIGA + fraction), rest))
    else Some((0, s))
  }

  // `nanos` is the whole of the time part.
  datatype Amount = Amount(months: int, days: int, nanos: int)

  function ReadDuration(s: string): Option<Amount> {
    if s == [] || s[0] != 'P' then None
    else
      var (years, afterYears) := TakeField(s[1..], 'Y');
      var (months, afterMonths) := TakeField(afterYears, 'M');
      var (days, rest) := TakeField(afterMonths, 'D');
      if rest == [] then (if s == "P" then None else Some(Amount(12 * years + months, days, 0)))
      else if rest[0] != 'T' || rest == "T" then None
      else
        match ReadClock(rest[1..])
        case None => None
        case Some(nanos) => Some(Amount(12 * years + months, days, nanos))
  }

  function ReadClock(s: string): Option<int> {
    var (hours, afterHours) := TakeField(s, 'H');
    var (minutes, afterMinutes) := TakeField(afterHours, 'M');
    match TakeSeconds(afterMinutes)
    case None => None
    case Some((nanos, rest)) => if rest == [] then Some((hours * 3600 + minutes * 60) * GIGA + nanos) else None
  }

  // ---------------------------------------------------------------- what is printed is read back

  lemma DigitsRead(m: nat, rest: string)
    requires rest != [] && !IsDigit(rest[0])
    ensures var t := Digits(m) + rest; DigitRun(t) == |Digits(m)| > 0 && Value(t[..DigitRun(t)]) == m && t[0] != '-'
  {
    hide Digits, Value, DigitRun;
    var t := Digits(m) + rest;
    DigitRunOf(Digits(m), rest);
    assert t[..|Digits(m)|] == Digits(m);
    ValueOfDigits(m);
  }

  lemma IntTextRead(n: int, rest: string)
    requires rest != [] && !IsDigit(rest[0])
    ensures var s := IntText(n) + rest;
      && HasDigits(s) && NumberRun(s) == |IntText(n)| && (IsNegative(s) <==> n < 0)
      && Magnitude(s) == (if n < 0 then -n else n)
  {
    hide Digits, Value, DigitRun, IsDigit;
    var m := if n < 0 then -n else n;
    DigitsRead(m, rest);
    if n < 0 {
      assert IntText(n) + rest == "-" + (Digits(m) + rest);
      assert ("-" + (Digits(m) + rest))[1..] == Digits(m) + rest;
    }
  }

  lemma FieldRead(v: int, unit: char, rest: string)
    requires !IsDigit(unit)
    requires v == 0 ==> !FieldNext(rest, unit)
    ensures TakeField(Field(v, unit) + rest, unit) == (v, rest)
  {
    hide FieldNext, IntText, Magnitude, NumberRun;
    var s := Field(v, unit) + rest;
    if v == 0 {
      assert s == rest;
    } else {
      IntTextRead(v, [unit] + rest);
      assert s == IntText(v) + ([unit] + rest);
      FieldIsNext(v, unit, rest);
    }
  }

  lemma FieldIsNext(v: int, unit: char, rest: string)
    requires !IsDigit(unit)
    ensures FieldNext(IntText(v) + ([unit] + rest), unit)
    ensures forall other :: other != unit ==> !FieldNext(IntText(v) + ([unit] + rest), other)
  {
    hide IntText, NumberRun, HasDigits;
    IntTextRead(v, [unit] + rest);
  }

  // A component of one unit does not read as another, nor does what follows it.
  lemma FieldIsNotOther(v: int, unit: char, rest: string, other: char)
    requires !IsDigit(unit) && other != unit && !FieldNext(rest, other)
    ensures !FieldNext(Field(v, unit) + rest, other)
  {
    hide FieldNext, IntText;
    if v == 0 {
      assert Field(v, unit) + rest == rest;
    } else {
      FieldIsNext(v, unit, rest);
      assert Field(v, unit) + rest == IntText(v) + ([unit] + rest);
    }
  }

  // ---------------------------------------------------------------- the fraction

  lemma {:induction false} ValueOfZeros(n: nat, s: string)
    requires forall i :: 0 <= i < |s| ==> IsDigit(s[i])
    ensures Value(Zeros(n) + s) == Value(s)
    decreases n + |s|
  {
    if s != [] {
      ValueOfZeros(n, s[..|s| - 1]);
      assert (Zeros(n) + s)[..n + |s| - 1] == Zeros(n) + s[..|s| - 1];
    } else if n > 0 {
      ValueOfZeros(n - 1, []);
      assert (Zeros(n) + s)[..n - 1] == Zeros(n - 1) + [];
    }
  }

  lemma {:induction false} TrimZerosValue(s: string)
    requires forall i :: 0 <= i < |s| ==> IsDigit(s[i])
    ensures TrimZeros(s) <= s && Value(s) == Value(TrimZeros(s)) * Pow10(|s| - |TrimZeros(s)|)
  {
    hide Value;
    if s != [] && s[|s| - 1] == '0' {
      var before := s[..|s| - 1];
      TrimZerosValue(before);
      EndsInZero(s);
      Distribute(Value(TrimZeros(s)), Pow10(|before| - |TrimZeros(s)|));
    }
  }

  lemma Distribute(v: nat, p: nat)
    ensures 10 * (v * p) == v * (10 * p)
  {
  }

  lemma EndsInZero(s: string)
    requires s != [] && (forall i :: 0 <= i < |s| ==> IsDigit(s[i])) && s[|s| - 1] == '0'
    ensures Value(s) == 10 * Value(s[..|s| - 1])
  {
  }

  lemma ValueOfNothing()
    ensures Value([]) == 0
  {
  }

  lemma FractionRead(nanos: nat)
    requires 0 < nanos < GIGA
    ensures var f := TrimZeros(NineDigits(nanos));
      && 0 < |f| <= 9 && (forall i :: 0 <= i < |f| ==> IsDigit(f[i]))
      && Value(f) * Pow10(9 - |f|) == nanos
  {
    hide Digits, Value, TrimZeros;
    Pow10Nine();
    DigitsLength(nanos, 9);
    ValueOfZeros(9 - |Digits(nanos)|, Digits(nanos));
    ValueOfDigits(nanos);
    var text := NineDigits(nanos);
    assert |text| == 9;
    TrimZerosValue(text);
    ValueOfNothing();
  }

  lemma Pow10Nine()
    ensures Pow10(9) == GIGA
  {
    assert Pow10(3) == 1000;
    assert Pow10(6) == 1000 * Pow10(3);
  }

  // What the printed seconds read back as: the fraction takes the sign of the
  // whole seconds.
  function SecondsRead(seconds: int, nanos: nat): int {
    if seconds < 0 then seconds * GIGA - nanos else seconds * GIGA + nanos
  }

  lemma FractionTaken(f: string)
    requires 0 < |f| <= 9 && forall i :: 0 <= i < |f| ==> IsDigit(f[i])
    ensures TakeFraction(f + "S") == Some((Value(f) * Pow10(9 - |f|), ""))
  {
    hide Value, Pow10, DigitRun;
    var t := f + "S";
    DigitRunOf(f, "S");
    assert t[..|f|] == f && t[|f|] == 'S' && t[|f| + 1..] == "";
  }

  lemma SecondsTextRead(seconds: int, nanos: nat)
    requires nanos < GIGA
    ensures TakeSeconds(SecondsText(seconds, nanos)) == Some((SecondsRead(seconds, nanos), ""))
  {
    hide FieldNext, IntText, Magnitude, NumberRun, TrimZeros, NineDigits, Digits, Value, Pow10, DigitRun;
    var s := SecondsText(seconds, nanos);
    if seconds == 0 && nanos == 0 {
      NothingNext('S');
      NothingNext('.');
    } else if nanos == 0 {
      assert s == IntText(seconds) + (['S'] + []);
      IntTextRead(seconds, ['S'] + []);
      FieldIsNext(seconds, 'S', []);
      assert s[NumberRun(s) + 1..] == [];
    } else {
      FractionTextRead(seconds, nanos);
    }
  }

  lemma FractionTextRead(seconds: int, nanos: nat)
    requires 0 < nanos < GIGA
    ensures TakeSeconds(SecondsText(seconds, nanos)) == Some((SecondsRead(seconds, nanos), ""))
  {
    hide FieldNext, IntText, Magnitude, NumberRun, TrimZeros, NineDigits, Digits, Value, Pow10, DigitRun, TakeFraction;
    var s, f := SecondsText(seconds, nanos), TrimZeros(NineDigits(nanos));
    assert s == IntText(seconds) + (['.'] + (f + "S"));
    IntTextRead(seconds, ['.'] + (f + "S"));
    FieldIsNext(seconds, '.', f + "S");
    FractionRead(nanos);
    FractionTaken(f);
    assert s[NumberRun(s) + 1..] == f + "S";
  }

  lemma NothingNext(unit: char)
    ensures !FieldNext([], unit)
  {
  }

  lemma SecondsTextIsNot(seconds: int, nanos: nat, other: char)
    requires other != 'S' && other != '.'
    ensures !FieldNext(SecondsText(seconds, nanos), other)
  {
    hide FieldNext, IntText, TrimZeros, NineDigits;
    var s := SecondsText(seconds, nanos);
    if seconds == 0 && nanos == 0 {
      NothingNext(other);
    } else if nanos == 0 {
      assert s == IntText(seconds) + (['S'] + []);
      FieldIsNext(seconds, 'S', []);
    } else {
      var f := TrimZeros(NineDigits(nanos));
      assert s == IntText(seconds) + (['.'] + (f + "S"));
      FieldIsNext(seconds, '.', f + "S");
    }
  }

  lemma ClockTextRead(d: Duration)
    requires Valid(d)
    ensures ReadClock(ClockText(d)) == Some(d.seconds * GIGA + SecondsRead(Rem(d.seconds, 60), d.nanos) - Rem(d.seconds, 60) * GIGA)
  {
    hide FieldNext, TakeField, TakeSeconds, Field, SecondsText, SecondsRead;
    var hours, minutes, seconds := Quo(d.seconds, 3600), Quo(Rem(d.seconds, 3600), 60), Rem(d.seconds, 60);
    var tail := SecondsText(seconds, d.nanos);
    SecondsTextRead(seconds, d.nanos);
    SecondsTextIsNot(seconds, d.nanos, 'M');
    SecondsTextIsNot(seconds, d.nanos, 'H');
    FieldIsNotOther(minutes, 'M', tail, 'H');
    FieldRead(hours, 'H', Field(minutes, 'M') + tail);
    FieldRead(minutes, 'M', tail);
    ClockAdds(d.seconds);
  }

  lemma RemOfRem(a: int)
    ensures Rem(Rem(a, 3600), 60) == Rem(a, 60)
  {
    var m := if a < 0 then -a else a;
    assert m % 3600 == m - 3600 * (m / 3600);
    assert m == 60 * (60 * (m / 3600)) + m % 3600;
    assert (m % 3600) % 60 == m % 60;
  }

  lemma ClockAdds(seconds: int)
    ensures seconds == Quo(seconds, 3600) * 3600 + Quo(Rem(seconds, 3600), 60) * 60 + Rem(seconds, 60)
  {
    hide Quo, Rem;
    QuoRem(seconds, 3600);
    QuoRem(Rem(seconds, 3600), 60);
    RemOfRem(seconds);
  }

  lemma DateTextRead(d: Duration, rest: string)
    requires rest == [] || rest[0] == 'T'
    ensures var (years, s) := TakeField(DateText(d) + rest, 'Y');
      var (months, t) := TakeField(s, 'M');
      12 * years + months == d.months && TakeField(t, 'D') == (d.days, rest)
  {
    hide FieldNext, TakeField, Field;
    var years, months := Quo(d.months, 12), Rem(d.months, 12);
    var days := Field(d.days, 'D') + rest;
    StopsFields(rest);
    FieldIsNotOther(d.days, 'D', rest, 'M');
    FieldIsNotOther(d.days, 'D', rest, 'Y');
    FieldIsNotOther(months, 'M', days, 'Y');
    FieldRead(years, 'Y', Field(months, 'M') + days);
    FieldRead(months, 'M', days);
    FieldRead(d.days, 'D', rest);
    assert DateText(d) + rest == Field(years, 'Y') + (Field(months, 'M') + days);
    QuoRem(d.months, 12);
  }

  lemma StopsFields(rest: string)
    requires rest == [] || rest[0] == 'T'
    ensures forall unit :: !FieldNext(rest, unit)
  {
  }

  // Whatever the duration, its text reads back with the same months and days, and
  // with this much time.
  lemma TextRead(d: Duration)
    requires Valid(d)
    ensures ReadDuration(DurationText(d))
         == Some(Amount(d.months, d.days, d.seconds * GIGA + SecondsRead(Rem(d.seconds, 60), d.nanos) - Rem(d.seconds, 60) * GIGA))
  {
    hide TakeField, ReadClock, DateText, ClockText, SecondsRead, Rem;
    var date, clock := DateText(d), ClockText(d);
    ClockTextRead(d);
    if clock == [] {
      EmptyClock(d);
      DateTextRead(d, []);
      assert date + [] == date && "P" + date + [] == "P" + date;
      if date == [] {
        ZeroRead();
        EmptyDate(d);
      } else {
        assert ("P" + date)[1..] == date;
      }
    } else {
      DateTextRead(d, "T" + clock);
      assert DurationText(d) == "P" + (date + ("T" + clock));
      assert ("P" + (date + ("T" + clock)))[1..] == date + ("T" + clock) && ("T" + clock)[1..] == clock;
    }
  }

  lemma EmptyClock(d: Duration)
    requires ClockText(d) == [] && Valid(d)
    ensures d.seconds * GIGA + SecondsRead(Rem(d.seconds, 60), d.nanos) - Rem(d.seconds, 60) * GIGA == 0
  {
    ClockAdds(d.seconds);
  }

  lemma EmptyDate(d: Duration)
    requires DateText(d) == []
    ensures d.months == 0 && d.days == 0
  {
    QuoRem(d.months, 12);
  }

  lemma FieldAbsent(unit: char, rest: string)
    requires !FieldNext(rest, unit)
    ensures TakeField(rest, unit) == (0, rest)
  {
  }

  lemma ZeroRead()
    ensures ReadDuration("PT0S") == Some(Amount(0, 0, 0))
  {
    hide TakeField, ReadClock, FieldNext;
    StopsFields("T0S");
    FieldAbsent('Y', "T0S");
    FieldAbsent('M', "T0S");
    FieldAbsent('D', "T0S");
    assert "PT0S"[1..] == "T0S" && "T0S"[1..] == "0S";
    ZeroClock();
  }

  lemma ZeroClock()
    ensures ReadClock("0S") == Some(0)
  {
    hide TakeField, TakeSeconds, FieldNext;
    assert IntText(0) == "0" && "0" + (['S'] + []) == "0S";
    FieldIsNext(0, 'S', []);
    FieldAbsent('H', "0S");
    FieldAbsent('M', "0S");
    ZeroSeconds();
  }

  lemma ZeroSeconds()
    ensures TakeSeconds("0S") == Some((0, ""))
  {
    hide FieldNext, NumberRun, HasDigits, IsNegative, Magnitude;
    assert IntText(0) == "0" && "0" + (['S'] + []) == "0S";
    FieldIsNext(0, 'S', []);
    IntTextRead(0, ['S'] + []);
    assert "0S"[NumberRun("0S") + 1..] == [];
  }

  // The time reads back exactly if and only if the fraction does not follow
  // negative seconds, which is where the sign of the text covers the fraction too.
  lemma RoundTripIff(d: Duration)
    requires Valid(d)
    ensures ReadDuration(DurationText(d)) == Some(Amount(d.months, d.days, d.seconds * GIGA + d.nanos))
        <==> !(d.nanos != 0 && Rem(d.seconds, 60) < 0)
  {
    hide ReadDuration, DurationText, Rem;
    TextRead(d);
  }

  // In particular a duration of non-negative seconds is recovered whole.
  lemma RoundTrip(d: Duration)
    requires Valid(d) && d.seconds >= 0
    ensures var r := ReadDuration(DurationText(d));
      r.Some? && d == Duration(r.value.months, r.value.days, r.value.nanos / GIGA, r.value.nanos % GIGA)
  {
    hide ReadDuration, DurationText;
    TextRead(d);
  }

  // Half a second before zero prints as one and a half seconds before it.
  lemma NegativeFraction()
    ensures ReadDuration(DurationText(Duration(0, 0, -1, 500_000_000))) == Some(Amount(0, 0, -1_500_000_000))
  {
    hide ReadDuration, DurationText;
    TextRead(Duration(0, 0, -1, 500_000_000));
  }
}
