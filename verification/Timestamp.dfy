/**
 The timestamp text of time.RFC3339Nano (section 5.6 of RFC 3339): what Go's Time.Format
 prints for a UTC time, and what time.Parse reads back.
 */
module Timestamp {
  import opened Text
  import opened Calendar

  // ---------- printing ----------

  function TrimZeros(s: Str): (t: Str)
    ensures |t| <= |s| && t == s[..|t|]
    ensures t == [] || t[|t| - 1] != '0'
  {
    if s != [] && s[|s| - 1] == '0' then TrimZeros(s[..|s| - 1]) else s
  }

  function FractionText(nanos: nat): Str {
    if nanos == 0 then [] else ['.'] + TrimZeros(Digits(nanos, 9))
  }

  function YearDigits(year: nat): Str {
    if year < 10_000 then Digits(year, 4) else Decimal(year)
  }

  /** At least four digits, after a minus sign for a year before 0000. */
  function YearText(year: int): Str {
    if year < 0 then ['-'] + YearDigits(-year) else YearDigits(year)
  }

  function PrintDate(d: Date, rest: Str): Str {
    YearText(d.year) + (['-'] + (Digits(d.month, 2) + (['-'] + (Digits(d.day, 2) + rest))))
  }

  function PrintClock(c: Clock, rest: Str): Str {
    var seconds := Digits(c.second, 2) + (FractionText(c.nano) + rest);
    Digits(c.hour, 2) + ([':'] + (Digits(c.minute, 2) + ([':'] + seconds)))
  }

  function Format(t: int): Str {
    var (date, clock) := Civil(t);
    PrintDate(date, ['T'] + PrintClock(clock, ['Z']))
  }

  // ---------- scanning ----------

  function ScanLiteral(s: Str, c: Octet): Option<Str> {
    if s != [] && s[0] == c then Some(s[1..]) else None
  }

  /** One or two digits; exactly two when `fixed`. */
  function ScanTwo(s: Str, fixed: bool): Option<(nat, Str)> {
    if s == [] || !IsDigit(s[0]) then None
    else if |s| == 1 || !IsDigit(s[1]) then
      if fixed then None else Some((DigitValue(s[0]), s[1..]))
    else Some((DigitValue(s[0]) * 10 + DigitValue(s[1]), s[2..]))
  }

  function ScanDate(s: Str): (r: Option<(Date, Str)>)
    ensures r.Some? ==> r.value.0.Valid()
  {
    if |s| < 4 || !AllDigits(s[..4]) then None
    else
      var year := Value(s[..4]);
      var s1 :- ScanLiteral(s[4..], '-');
      var (month, s2) :- ScanTwo(s1, true);
      var s3 :- ScanLiteral(s2, '-');
      var (day, s4) :- ScanTwo(s3, true);
      var d := Date(year, month, day);
      if d.Valid() then Some((d, s4)) else None
  }

  function DigitRun(s: Str): (n: nat)
    ensures n <= |s| && AllDigits(s[..n])
    ensures n == |s| || !IsDigit(s[n])
  {
    if s == [] || !IsDigit(s[0]) then 0 else 1 + DigitRun(s[1..])
  }

  /** Digits after the ninth are dropped. */
  function FractionNanos(digits: Str): nat
    requires AllDigits(digits)
  {
    if |digits| > 9 then Value(digits[..9]) else Value(digits) * Pow10(9 - |digits|)
  }

  /** The fraction is optional; a comma may stand for the point. */
  function ScanFraction(s: Str): (nat, Str) {
    if |s| >= 2 && (s[0] == '.' || s[0] == ',') && IsDigit(s[1]) then
      var n := DigitRun(s[1..]);
      (FractionNanos(s[1..][..n]), s[1..][n..])
    else (0, s)
  }

  function ScanClock(s: Str): Option<(Clock, Str)> {
    var (hour, s1) :- ScanTwo(s, false);
    var s2 :- ScanLiteral(s1, ':');
    var (minute, s3) :- ScanTwo(s2, true);
    var s4 :- ScanLiteral(s3, ':');
    var (second, s5) :- ScanTwo(s4, true);
    var (nano, s6) := ScanFraction(s5);
    if hour < 24 && minute < 60 && second < 60 then Some((Clock(hour, minute, second, nano), s6)) else None
  }

  /** The offset east of UTC in seconds. */
  function ScanZone(s: Str): Option<(int, Str)> {
    if s != [] && s[0] == 'Z' then Some((0, s[1..]))
    else if |s| < 6 || s[3] != ':' || (s[0] != '+' && s[0] != '-') then None
    else
      var (hour, _) :- ScanTwo(s[1..3], true);
      var (minute, _) :- ScanTwo(s[4..6], true);
      var offset := hour * 3600 + minute * 60;
      if hour <= 24 && minute <= 60 then Some((if s[0] == '+' then offset else -offset, s[6..])) else None
  }

  function Parse(s: Str): Option<int> {
    var (date, s1) :- ScanDate(s);
    var s2 :- ScanLiteral(s1, 'T');
    var (clock, s3) :- ScanClock(s2);
    var (offset, s4) :- ScanZone(s3);
    if s4 == [] then Some(Instant(date, clock) - offset * SECOND) else None
  }

  // ---------- round trip ----------

  lemma ScanTwoPrinted(n: nat, rest: Str, fixed: bool)
    requires n < 100
    ensures ScanTwo(Digits(n, 2) + rest, fixed) == Some((n, rest))
  {
    var s := Digits(n, 2) + rest;
    assert Digits(n, 2) == Digits(n / 10, 1) + [DigitChar(n % 10)];
    assert Digits(n / 10, 1) == [] + [DigitChar(n / 10)];
    assert s[2..] == rest;
  }

  lemma ScanLiteralPrinted(c: Octet, rest: Str)
    ensures ScanLiteral([c] + rest, c) == Some(rest)
  {
    assert ([c] + rest)[1..] == rest;
  }

  lemma ScanDatePrinted(d: Date, rest: Str)
    requires d.Valid() && 0 <= d.year < 10_000
    ensures ScanDate(PrintDate(d, rest)) == Some((d, rest))
  {
    var r3 := Digits(d.day, 2) + rest;
    var r2 := Digits(d.month, 2) + (['-'] + r3);
    var s := PrintDate(d, rest);
    assert s == Digits(d.year, 4) + (['-'] + r2);
    assert s[..4] == Digits(d.year, 4) && s[4..] == ['-'] + r2;
    assert Pow10(4) == 10_000 by {
      assert Pow10(2) == 100;
    }
    DigitsValue(d.year, 4);
    ScanLiteralPrinted('-', r2);
    ScanTwoPrinted(d.month, ['-'] + r3, true);
    ScanLiteralPrinted('-', r3);
    ScanTwoPrinted(d.day, rest, true);
  }

  lemma {:induction false} TrimZerosValue(s: Str)
    requires AllDigits(s)
    ensures Value(s) == Value(TrimZeros(s)) * Pow10(|s| - |TrimZeros(s)|)
  {
    if s != [] && s[|s| - 1] == '0' {
      var t := s[..|s| - 1];
      TrimZerosValue(t);
      TimesTen(Value(TrimZeros(t)), |t| - |TrimZeros(t)|);
    }
  }

  lemma TimesTen(v: nat, k: nat)
    ensures v * Pow10(k + 1) == 10 * (v * Pow10(k))
  {
    var p := Pow10(k);
    assert Pow10(k + 1) == 10 * p;
    assert v * (10 * p) == 10 * (v * p);
  }

  lemma {:induction false} DigitRunPrinted(digits: Str, rest: Str)
    requires AllDigits(digits)
    requires rest == [] || !IsDigit(rest[0])
    ensures DigitRun(digits + rest) == |digits|
  {
    if digits == [] {
      assert digits + rest == rest;
    } else {
      assert (digits + rest)[1..] == digits[1..] + rest;
      DigitRunPrinted(digits[1..], rest);
    }
  }

  lemma TrimmedFraction(nanos: nat)
    requires 0 < nanos < SECOND
    ensures TrimZeros(Digits(nanos, 9)) != []
    ensures FractionNanos(TrimZeros(Digits(nanos, 9))) == nanos
  {
    assert Pow10(9) == SECOND by {
      assert Pow10(3) == 1000 && Pow10(6) == 1_000_000;
    }
    DigitsValue(nanos, 9);
    TrimZerosValue(Digits(nanos, 9));
  }

  lemma ScanFractionPrinted(nanos: nat)
    requires nanos < SECOND
    ensures ScanFraction(FractionText(nanos) + ['Z']) == (nanos, ['Z'])
  {
    var rest: Str := ['Z'];
    if nanos == 0 {
      assert FractionText(nanos) + rest == rest;
    } else {
      var digits := TrimZeros(Digits(nanos, 9));
      TrimmedFraction(nanos);
      DigitRunPrinted(digits, rest);
      FractionSplit(digits, rest);
    }
  }

  lemma FractionSplit(digits: Str, rest: Str)
    requires digits != [] && AllDigits(digits) && DigitRun(digits + rest) == |digits|
    ensures ScanFraction(['.'] + digits + rest) == (FractionNanos(digits), rest)
  {
    hide FractionNanos, DigitRun;
    var s, after := ['.'] + digits + rest, digits + rest;
    assert s[1..] == after && s[1] == digits[0];
    assert after[..|digits|] == digits && after[|digits|..] == rest;
  }

  lemma ScanClockPrinted(c: Clock)
    requires c.Valid()
    ensures ScanClock(PrintClock(c, ['Z'])) == Some((c, ['Z']))
  {
    var r4 := FractionText(c.nano) + ['Z'];
    var r3 := Digits(c.second, 2) + r4;
    var r2 := Digits(c.minute, 2) + ([':'] + r3);
    ScanTwoPrinted(c.hour, [':'] + r2, false);
    ScanLiteralPrinted(':', r2);
    ScanTwoPrinted(c.minute, [':'] + r3, true);
    ScanLiteralPrinted(':', r3);
    ScanTwoPrinted(c.second, r4, true);
    ScanFractionPrinted(c.nano);
  }

  lemma ScanZonePrinted()
    ensures ScanZone(['Z']) == Some((0, []))
  {
    var zone: Str := ['Z'];
    assert zone[1..] == [];
  }

  lemma ParseParts(s: Str, date: Date, s1: Str, s2: Str, clock: Clock, s3: Str)
    requires date.Valid()
    requires ScanDate(s) == Some((date, s1)) && ScanLiteral(s1, 'T') == Some(s2)
    requires ScanClock(s2) == Some((clock, s3)) && ScanZone(s3) == Some((0, []))
    ensures Parse(s) == Some(Instant(date, clock))
  {
    hide ScanDate, ScanLiteral, ScanClock, ScanZone, Instant;
  }

  lemma ParsePrinted(date: Date, clock: Clock)
    requires date.Valid() && clock.Valid() && 0 <= date.year < 10_000
    ensures Parse(PrintDate(date, ['T'] + PrintClock(clock, ['Z']))) == Some(Instant(date, clock))
  {
    var clockText := PrintClock(clock, ['Z']);
    ScanDatePrinted(date, ['T'] + clockText);
    ScanLiteralPrinted('T', clockText);
    ScanClockPrinted(clock);
    ScanZonePrinted();
    ParseParts(PrintDate(date, ['T'] + clockText), date, ['T'] + clockText, clockText, clock, ['Z']);
  }

  /** time.Parse undoes Time.Format on every UTC time of the years 0000 to 9999. */
  lemma ParseFormat(t: int)
    requires 0 <= YearAt(t) < 10_000
    ensures Parse(Format(t)) == Some(t)
  {
    var (date, clock) := Civil(t);
    ParsePrinted(date, clock);
  }

  /** Outside those years the printed text is no timestamp. */
  lemma ParseRejectsOtherYears(t: int)
    requires !(0 <= YearAt(t) < 10_000)
    ensures Parse(Format(t)) == None
  {
    var year := YearAt(t);
    if year < 0 {
      assert Format(t)[0] == '-';
      assert !AllDigits(Format(t)[..4]) by {
        assert Format(t)[..4][0] == '-';
      }
    } else {
      assert Pow10(4) == 10_000 by {
        assert Pow10(2) == 100;
      }
      DecimalWidth(year, 4);
      assert Format(t)[4] == Decimal(year)[4];
      assert Format(t)[4..][0] == Format(t)[4];
    }
  }

  /** Timestamps hold no underscore, so the first one in a token ends the timestamp. */
  lemma FormatHasNoUnderscore(t: int)
    ensures '_' !in Format(t) && Format(t) != []
  {
    var (date, clock) := Civil(t);
    assert '_' !in YearText(date.year) && YearText(date.year) != [];
    assert '_' !in FractionText(clock.nano);
    assert '_' !in PrintClock(clock, ['Z']);
  }

  // ---------- everything that is read ----------

  /** Nothing, or a point or comma and digits, of which the first nine count. */
  ghost predicate Fraction(s: Str, nanos: nat) {
    || (s == [] && nanos == 0)
    || (|s| >= 2 && (s[0] == '.' || s[0] == ',') && AllDigits(s[1..]) && nanos == FractionNanos(s[1..]))
  }

  /** Z, or a sign and hours and minutes east of UTC. */
  ghost predicate Zone(s: Str, offset: int) {
    || (s == "Z" && offset == 0)
    || (exists hour: nat, minute: nat | hour <= 24 && minute <= 60 :: ZoneIs(s, hour, minute, offset))
  }

  ghost predicate ZoneIs(s: Str, hour: nat, minute: nat, offset: int) {
    var text := Digits(hour, 2) + ([':'] + Digits(minute, 2));
    || (s == ['+'] + text && offset == hour * 3600 + minute * 60)
    || (s == ['-'] + text && offset == -(hour * 3600 + minute * 60))
  }

  lemma OneDigitPrinted(n: nat)
    requires n < 10
    ensures Digits(n, 1) == [DigitChar(n)]
  {
    assert Digits(n, 1) == Digits(n / 10, 0) + [DigitChar(n % 10)];
  }

  /** A digit string is what its value prints. */
  lemma {:induction false} DigitsBack(s: Str)
    requires AllDigits(s)
    ensures Digits(Value(s), |s|) == s
  {
    if s != [] {
      var front, last := s[..|s| - 1], s[|s| - 1];
      DigitsBack(front);
      assert Value(s) / 10 == Value(front) && Value(s) % 10 == DigitValue(last);
      assert s == front + [last];
    }
  }

  lemma ValueOfTwo(a: Octet, b: Octet)
    requires IsDigit(a) && IsDigit(b)
    ensures Value([a, b]) == DigitValue(a) * 10 + DigitValue(b)
  {
    OneDigit(a);
    ValueSnoc([a], b);
    assert [a] + [b] == [a, b];
  }

  /** Two digits are read exactly where they stand. */
  lemma ScanTwoExactly(s: Str, n: nat, rest: Str)
    ensures ScanTwo(s, true) == Some((n, rest)) <==> n < 100 && s == Digits(n, 2) + rest
  {
    if n < 100 && s == Digits(n, 2) + rest {
      ScanTwoPrinted(n, rest, true);
    }
    if ScanTwo(s, true) == Some((n, rest)) {
      ValueOfTwo(s[0], s[1]);
      DigitsBack([s[0], s[1]]);
      assert s == [s[0], s[1]] + s[2..];
    }
  }

  lemma ScanLiteralExactly(s: Str, c: Octet, rest: Str)
    ensures ScanLiteral(s, c) == Some(rest) <==> s == [c] + rest
  {
    if ScanLiteral(s, c) == Some(rest) {
      assert s == [s[0]] + s[1..];
    }
    ScanLiteralPrinted(c, rest);
  }

  ghost predicate HourText(s: Str, hour: nat) {
    s == Digits(hour, 2) || (hour < 10 && s == Digits(hour, 1))
  }

  /** The hour may be written with one digit. */
  lemma ScanHourExactly(s: Str, rest: Str) returns (text: Str)
    ensures var r := ScanTwo(s, false);
            r.Some? && r.value.1 == rest ==> r.value.0 < 100 && HourText(text, r.value.0) && s == text + rest
  {
    if |s| >= 1 && IsDigit(s[0]) {
      if |s| >= 2 && IsDigit(s[1]) {
        text := [s[0], s[1]];
        ValueOfTwo(s[0], s[1]);
        DigitsBack(text);
        assert s == text + s[2..];
      } else {
        text := [s[0]];
        OneDigit(s[0]);
        DigitsBack(text);
        assert s == text + s[1..];
      }
    } else {
      text := [];
    }
  }

  lemma HourScanned(text: Str, hour: nat, rest: Str)
    requires hour < 24 && HourText(text, hour) && rest != [] && rest[0] == ':'
    ensures ScanTwo(text + rest, false) == Some((hour, rest))
  {
    if text == Digits(hour, 2) {
      ScanTwoPrinted(hour, rest, false);
    } else {
      OneDigitPrinted(hour);
      assert (text + rest)[1..] == rest;
    }
  }

  lemma ScanDateExactly(s: Str, d: Date, rest: Str)
    ensures ScanDate(s) == Some((d, rest)) <==> d.Valid() && 0 <= d.year < 10_000 && s == PrintDate(d, rest)
  {
    if d.Valid() && 0 <= d.year < 10_000 && s == PrintDate(d, rest) {
      ScanDatePrinted(d, rest);
    }
    if ScanDate(s) == Some((d, rest)) {
      DateScanned(s, d, rest);
    }
  }

  lemma DateScanned(s: Str, d: Date, rest: Str)
    requires ScanDate(s) == Some((d, rest))
    ensures d.Valid() && 0 <= d.year < 10_000 && s == PrintDate(d, rest)
  {
    hide Date.Valid, ScanTwo, ScanLiteral, Digits, Value, AllDigits;
    var s1 := ScanLiteral(s[4..], '-').value;
    var (month, s2) := ScanTwo(s1, true).value;
    var s3 := ScanLiteral(s2, '-').value;
    var (day, s4) := ScanTwo(s3, true).value;
    DigitsBack(s[..4]);
    FourDigits(s[..4]);
    assert s == s[..4] + s[4..];
    ScanLiteralExactly(s[4..], '-', s1);
    ScanTwoExactly(s1, month, s2);
    ScanLiteralExactly(s2, '-', s3);
    ScanTwoExactly(s3, day, s4);
  }

  lemma {:induction false} ValueBelow(s: Str)
    requires AllDigits(s)
    ensures Value(s) < Pow10(|s|)
  {
    if s != [] {
      ValueBelow(s[..|s| - 1]);
    }
  }

  lemma FourDigits(s: Str)
    requires |s| == 4 && AllDigits(s)
    ensures Value(s) < 10_000
  {
    ValueBelow(s);
    assert Pow10(2) == 100;
  }

  lemma FractionRead(s: Str) returns (text: Str)
    ensures Fraction(text, ScanFraction(s).0) && s == text + ScanFraction(s).1
  {
    hide FractionNanos;
    if |s| >= 2 && (s[0] == '.' || s[0] == ',') && IsDigit(s[1]) {
      var n := DigitRun(s[1..]);
      text := [s[0]] + s[1..][..n];
      assert text[1..] == s[1..][..n] && n > 0;
      assert s == text + s[1..][n..];
    } else {
      text := [];
    }
  }

  lemma FractionScanned(text: Str, nanos: nat, rest: Str)
    requires Fraction(text, nanos) && rest != [] && rest[0] in {'Z', '+', '-'}
    ensures ScanFraction(text + rest) == (nanos, rest)
  {
    hide FractionNanos;
    if text == [] {
      assert text + rest == rest;
    } else {
      var s := text + rest;
      assert s[1..] == text[1..] + rest && IsDigit(text[1..][0]);
      DigitRunPrinted(text[1..], rest);
      assert s[1..][..|text| - 1] == text[1..] && s[1..][|text| - 1..] == rest;
    }
  }

  lemma ZoneText(sign: Octet, hour: nat, minute: nat, s: Str)
    requires |s| == 6
    ensures s[0] == sign && ScanTwo(s[1..3], true) == Some((hour, [])) && s[3] == ':'
            && ScanTwo(s[4..6], true) == Some((minute, []))
       <==> hour < 100 && minute < 100 && s == [sign] + (Digits(hour, 2) + ([':'] + Digits(minute, 2)))
  {
    hide ScanTwo, Digits;
    ScanTwoExactly(s[1..3], hour, []);
    ScanTwoExactly(s[4..6], minute, []);
    assert s == [s[0]] + (s[1..3] + ([s[3]] + s[4..6]));
    assert Digits(hour, 2) + [] == Digits(hour, 2) && Digits(minute, 2) + [] == Digits(minute, 2);
    if hour < 100 && minute < 100 && s == [sign] + (Digits(hour, 2) + ([':'] + Digits(minute, 2))) {
      assert s[1..3] == Digits(hour, 2) && s[4..6] == Digits(minute, 2);
    }
  }

  lemma TwoRead(s: Str)
    requires |s| == 2
    ensures ScanTwo(s, true).Some? ==> ScanTwo(s, true).value.1 == []
  {
  }

  /** What is read as the zone at the end of the text. */
  lemma ZoneExactly(s: Str, offset: int)
    ensures ScanZone(s) == Some((offset, [])) <==> Zone(s, offset)
  {
    hide ScanTwo, Digits;
    if s == "Z" {
    } else if |s| == 6 && s[0] != 'Z' {
      TwoRead(s[1..3]);
      TwoRead(s[4..6]);
      assert s[6..] == [];
      if ScanZone(s) == Some((offset, [])) {
        var hour, minute := ScanTwo(s[1..3], true).value.0, ScanTwo(s[4..6], true).value.0;
        ZoneText(s[0], hour, minute, s);
        assert ZoneIs(s, hour, minute, offset);
      }
      if hour: nat, minute: nat :| hour <= 24 && minute <= 60 && ZoneIs(s, hour, minute, offset) {
        ZoneText(s[0], hour, minute, s);
      }
    }
  }

  /** One way in which a timestamp may be written. */
  ghost predicate Writes(s: Str, date: Date, clock: Clock, hourText: Str, fraction: Str, zone: Str, offset: int) {
    && date.Valid() && 0 <= date.year < 10_000
    && clock.hour < 24 && clock.minute < 60 && clock.second < 60
    && HourText(hourText, clock.hour) && Fraction(fraction, clock.nano) && Zone(zone, offset)
    && s == PrintDate(date, ['T'] + ClockText(clock, hourText, fraction + zone))
  }

  function ClockText(clock: Clock, hourText: Str, rest: Str): Str {
    hourText + ([':'] + (Digits(clock.minute, 2) + ([':'] + (Digits(clock.second, 2) + rest))))
  }

  lemma ClockRead(s: Str, clock: Clock, rest: Str) returns (hourText: Str, fraction: Str)
    requires ScanClock(s) == Some((clock, rest))
    ensures clock.hour < 24 && clock.minute < 60 && clock.second < 60
    ensures HourText(hourText, clock.hour) && Fraction(fraction, clock.nano)
    ensures s == ClockText(clock, hourText, fraction + rest)
  {
    hide ScanTwo, ScanLiteral, ScanFraction, Digits, HourText, Fraction;
    var (hour, s1) := ScanTwo(s, false).value;
    var s2 := ScanLiteral(s1, ':').value;
    var (minute, s3) := ScanTwo(s2, true).value;
    var s4 := ScanLiteral(s3, ':').value;
    var (second, s5) := ScanTwo(s4, true).value;
    hourText := ScanHourExactly(s, s1);
    ScanLiteralExactly(s1, ':', s2);
    ScanTwoExactly(s2, minute, s3);
    ScanLiteralExactly(s3, ':', s4);
    ScanTwoExactly(s4, second, s5);
    fraction := FractionRead(s5);
  }

  lemma ClockScanned(clock: Clock, hourText: Str, fraction: Str, rest: Str)
    requires clock.hour < 24 && clock.minute < 60 && clock.second < 60
    requires HourText(hourText, clock.hour) && Fraction(fraction, clock.nano)
    requires rest != [] && rest[0] in {'Z', '+', '-'}
    ensures ScanClock(ClockText(clock, hourText, fraction + rest)) == Some((clock, rest))
  {
    hide ScanTwo, ScanLiteral, ScanFraction, Digits, HourText, Fraction;
    var s5 := fraction + rest;
    var s4 := Digits(clock.second, 2) + s5;
    var s3 := [':'] + s4;
    var s2 := Digits(clock.minute, 2) + s3;
    var s1 := [':'] + s2;
    HourScanned(hourText, clock.hour, s1);
    ScanLiteralExactly(s1, ':', s2);
    ScanTwoExactly(s2, clock.minute, s3);
    ScanLiteralExactly(s3, ':', s4);
    ScanTwoExactly(s4, clock.second, s5);
    FractionScanned(fraction, clock.nano, rest);
  }

  lemma ZoneStart(s: Str, offset: int)
    requires Zone(s, offset)
    ensures s != [] && s[0] in {'Z', '+', '-'}
  {
  }

  /**
   Text is read as an instant exactly when it is written in one of the ways there are, with valid fields:
   the hour with one or two digits, any number of them in the fraction, and any zone.
   */
  lemma ParseExactly(s: Str, t: int)
    ensures Parse(s) == Some(t)
       <==> exists date, clock, hourText, fraction, zone, offset ::
              Writes(s, date, clock, hourText, fraction, zone, offset)
              && t == Instant(date, clock) - offset * SECOND
  {
    hide ScanDate, ScanLiteral, ScanClock, ScanZone, Instant, Date.Valid, HourText, Fraction, Zone, PrintDate,
        ClockText;
    if Parse(s) == Some(t) {
      var (date, s1) := ScanDate(s).value;
      var s2 := ScanLiteral(s1, 'T').value;
      var (clock, s3) := ScanClock(s2).value;
      var (offset, s4) := ScanZone(s3).value;
      ScanDateExactly(s, date, s1);
      ScanLiteralExactly(s1, 'T', s2);
      var hourText, fraction := ClockRead(s2, clock, s3);
      ZoneExactly(s3, offset);
      assert Writes(s, date, clock, hourText, fraction, s3, offset);
    }
    if date, clock, hourText, fraction, zone, offset :|
        Writes(s, date, clock, hourText, fraction, zone, offset) && t == Instant(date, clock) - offset * SECOND {
      var s2 := ClockText(clock, hourText, fraction + zone);
      ScanDateExactly(s, date, ['T'] + s2);
      ScanLiteralExactly(['T'] + s2, 'T', s2);
      ZoneStart(zone, offset);
      ClockScanned(clock, hourText, fraction, zone);
      ZoneExactly(zone, offset);
    }
  }

  /**
   What is printed for the years 0000 to 9999: of all the ways to write the instant the one in UTC, with
   two digits for the hour, no fraction if it is zero, and no zero at the end of one.
   */
  lemma FormatWrites(t: int) returns (fraction: Str)
    requires 0 <= YearAt(t) < 10_000
    ensures
      var (date, clock) := Civil(t);
      Writes(Format(t), date, clock, Digits(clock.hour, 2), fraction, "Z", 0)
      && (clock.nano == 0 ==> fraction == [])
      && (clock.nano != 0 ==> fraction != [] && fraction[0] == '.' && fraction[|fraction| - 1] != '0')
  {
    var (date, clock) := Civil(t);
    fraction := FractionText(clock.nano);
    if clock.nano != 0 {
      var digits := TrimZeros(Digits(clock.nano, 9));
      TrimmedFraction(clock.nano);
      assert fraction[1..] == digits;
    }
    assert fraction + "Z" == fraction + ['Z'];
  }
}
