/** ISO 8601 text of datetimes: decimal padding, `isoformat`, its order and its inverse. */
module IsoTime {
  import opened Common

  /** A datetime as Python stores it: its fields, not a count of seconds. */
  datatype Stamp = Stamp(year: nat, month: nat, day: nat, hour: nat, minute: nat, second: nat, micro: nat)

  /** The field ranges of a `datetime` object (days per month are not needed here). */
  predicate InRange(s: Stamp)
  {
    && 1 <= s.year < 10000 && 1 <= s.month <= 12 && 1 <= s.day <= 31
    && s.hour < 24 && s.minute < 60 && s.second < 60 && s.micro < 1000000
  }

  /** Chronological order of two UTC datetimes: the fields from the year down. */
  predicate Earlier(a: Stamp, b: Stamp)
  {
    a.year < b.year || (a.year == b.year && (
    a.month < b.month || (a.month == b.month && (
    a.day < b.day || (a.day == b.day && (
    a.hour < b.hour || (a.hour == b.hour && (
    a.minute < b.minute || (a.minute == b.minute && (
    a.second < b.second || (a.second == b.second && a.micro < b.micro)))))))))))
  }

  function Pow10(w: nat): (p: nat)
    ensures p > 0
  {
    if w == 0 then 1 else 10 * Pow10(w - 1)
  }

  function Digit(d: nat): char
    requires d < 10
  {
    '0' + d as char
  }

  function DigitValue(c: char): (d: nat)
    ensures d < 10
  {
    if '0' <= c <= '9' then (c - '0') as nat else 0
  }

  /** `n` in exactly `w` decimal digits. */
  function Pad(n: nat, w: nat): (s: string)
    requires n < Pow10(w)
    ensures |s| == w
  {
    if w == 0 then "" else Pad(n / 10, w - 1) + [Digit(n % 10)]
  }

  function Number(s: string): nat
  {
    if |s| == 0 then 0 else 10 * Number(s[..|s| - 1]) + DigitValue(s[|s| - 1])
  }

  lemma {:induction false} NumberOfPad(n: nat, w: nat)
    requires n < Pow10(w)
    ensures Number(Pad(n, w)) == n
  {
    if w > 0 {
      NumberOfPad(n / 10, w - 1);
      var p := Pad(n, w);
      assert p[..|p| - 1] == Pad(n / 10, w - 1);
    }
  }

  lemma {:induction false} PadOrder(n: nat, m: nat, w: nat)
    requires n < Pow10(w) && m < Pow10(w)
    ensures LexLess(Pad(n, w), Pad(m, w)) <==> n < m
    ensures Pad(n, w) == Pad(m, w) <==> n == m
  {
    NumberOfPad(n, w);
    NumberOfPad(m, w);
    if w > 0 {
      var a, b := Pad(n / 10, w - 1), Pad(m / 10, w - 1);
      var x, y := [Digit(n % 10)], [Digit(m % 10)];
      PadOrder(n / 10, m / 10, w - 1);
      LexConcat(a, b, x, y);
      assert LexLess(x, y) <==> x[0] < y[0];
    }
  }

  lemma Widths()
    ensures Pow10(2) == 100 && Pow10(4) == 10000 && Pow10(6) == 1000000
  {
    assert Pow10(1) == 10;
    assert Pow10(3) == 1000;
    assert Pow10(5) == 100000;
  }

  // ----- isoformat(), from the innermost field outwards -----

  function SecondText(s: Stamp, tail: string): string
    requires InRange(s)
  {
    Widths();
    Pad(s.second, 2) + ("" + tail)
  }

  function MinuteText(s: Stamp, tail: string): string
    requires InRange(s)
  {
    Widths();
    Pad(s.minute, 2) + (":" + SecondText(s, tail))
  }

  function HourText(s: Stamp, tail: string): string
    requires InRange(s)
  {
    Widths();
    Pad(s.hour, 2) + (":" + MinuteText(s, tail))
  }

  function DayText(s: Stamp, tail: string): string
    requires InRange(s)
  {
    Widths();
    Pad(s.day, 2) + ("T" + HourText(s, tail))
  }

  function MonthText(s: Stamp, tail: string): string
    requires InRange(s)
  {
    Widths();
    Pad(s.month, 2) + ("-" + DayText(s, tail))
  }

  /** Year down to seconds, then `tail`: the fraction and the offset. */
  function ClockText(s: Stamp, tail: string): string
    requires InRange(s)
  {
    Widths();
    Pad(s.year, 4) + ("-" + MonthText(s, tail))
  }

  /** `isoformat()` writes no fraction at all when the microseconds are zero. */
  function FractionText(s: Stamp): string
    requires InRange(s)
  {
    Widths();
    if s.micro == 0 then "+00:00" else "." + (Pad(s.micro, 6) + "+00:00")
  }

  /** `datetime.isoformat()` of a UTC datetime. */
  function IsoText(s: Stamp): string
    requires InRange(s)
  {
    ClockText(s, FractionText(s))
  }

  /** An offset that `datetime` accepts: strictly less than a day either way. */
  predicate OffsetInRange(offset: int)
  {
    -86400 < offset < 86400
  }

  /** The odd seconds of an offset, written only when there are some. */
  function OddSecondsText(second: nat): string
    requires second < 60
  {
    Widths();
    if second == 0 then "" else ":" + Pad(second, 2)
  }

  /** `HH:MM`, then the odd seconds. */
  function MagnitudeText(hour: nat, minute: nat, second: nat): string
    requires hour < 24 && minute < 60 && second < 60
  {
    Widths();
    Pad(hour, 2) + (":" + (Pad(minute, 2) + ("" + OddSecondsText(second))))
  }

  /** `+HH:MM` or `+HH:MM:SS`, the sign being that of the whole offset. */
  function OffsetText(offset: int): string
    requires OffsetInRange(offset)
  {
    var size: nat := if offset < 0 then -offset else offset;
    (if offset < 0 then "-" else "+") + MagnitudeText(size / 3600, size / 60 % 60, size % 60)
  }

  /** `isoformat(timespec="seconds")` of a local datetime that carries `offset`. */
  function IsoSecondsText(s: Stamp, offset: int): string
    requires InRange(s) && OffsetInRange(offset)
  {
    ClockText(s, OffsetText(offset))
  }

  predicate SameSecond(a: Stamp, b: Stamp)
  {
    a.(micro := 0) == b.(micro := 0)
  }

  /** One field of the comparison: a padded number, a fixed separator, the rest. */
  lemma FieldOrder(n: nat, m: nat, w: nat, sep: string, x: string, y: string)
    requires n < Pow10(w) && m < Pow10(w)
    ensures LexLess(Pad(n, w) + (sep + x), Pad(m, w) + (sep + y)) <==> n < m || (n == m && LexLess(x, y))
    ensures Pad(n, w) + (sep + x) == Pad(m, w) + (sep + y) <==> n == m && x == y
  {
    PadOrder(n, m, w);
    LexConcat(Pad(n, w), Pad(m, w), sep + x, sep + y);
    LexConcat(sep, sep, x, y);
    LexIrreflexive(sep);
    if Pad(n, w) + (sep + x) == Pad(m, w) + (sep + y) {
      ConcatCancel(Pad(n, w), Pad(m, w), sep + x, sep + y);
      ConcatCancel(sep, sep, x, y);
    }
  }

  /** Clock texts compare by their whole seconds, then by their tails; equal texts have equal parts. */
  lemma ClockOrder(a: Stamp, b: Stamp, x: string, y: string)
    requires InRange(a) && InRange(b)
    ensures LexLess(ClockText(a, x), ClockText(b, y))
            <==> Earlier(a.(micro := 0), b.(micro := 0)) || (SameSecond(a, b) && LexLess(x, y))
    ensures ClockText(a, x) == ClockText(b, y) <==> SameSecond(a, b) && x == y
  {
    Widths();
    FieldOrder(a.second, b.second, 2, "", x, y);
    FieldOrder(a.minute, b.minute, 2, ":", SecondText(a, x), SecondText(b, y));
    FieldOrder(a.hour, b.hour, 2, ":", MinuteText(a, x), MinuteText(b, y));
    FieldOrder(a.day, b.day, 2, "T", HourText(a, x), HourText(b, y));
    FieldOrder(a.month, b.month, 2, "-", DayText(a, x), DayText(b, y));
    FieldOrder(a.year, b.year, 4, "-", MonthText(a, x), MonthText(b, y));
  }

  /** The omitted fraction sorts first, because '+' comes before '.'. */
  lemma FractionOrder(a: Stamp, b: Stamp)
    requires InRange(a) && InRange(b)
    ensures LexLess(FractionText(a), FractionText(b)) <==> a.micro < b.micro
    ensures FractionText(a) == FractionText(b) <==> a.micro == b.micro
  {
    Widths();
    LexIrreflexive("+00:00");
    if a.micro > 0 && b.micro > 0 {
      var x, y := Pad(a.micro, 6) + ("" + "+00:00"), Pad(b.micro, 6) + ("" + "+00:00");
      LexConcat(".", ".", x, y);
      LexIrreflexive(".");
      FieldOrder(a.micro, b.micro, 6, "", "+00:00", "+00:00");
      assert "." + x == FractionText(a) && "." + y == FractionText(b);
      if "." + x == "." + y {
        ConcatCancel(".", ".", x, y);
      }
    } else if a.micro > 0 || b.micro > 0 {
      assert FractionText(a)[0] != FractionText(b)[0];
    }
  }

  /** Text order of UTC `isoformat()` strings is chronological order. */
  lemma IsoOrder(a: Stamp, b: Stamp)
    requires InRange(a) && InRange(b)
    ensures LexLess(IsoText(a), IsoText(b)) <==> Earlier(a, b)
    ensures IsoText(a) == IsoText(b) <==> a == b
  {
    FractionOrder(a, b);
    ClockOrder(a, b, FractionText(a), FractionText(b));
  }

  lemma MagnitudeTextInjective(h: nat, m: nat, s: nat, h': nat, m': nat, s': nat)
    requires h < 24 && m < 60 && s < 60 && h' < 24 && m' < 60 && s' < 60
    ensures MagnitudeText(h, m, s) == MagnitudeText(h', m', s') <==> h == h' && m == m' && s == s'
  {
    Widths();
    var x, y := OddSecondsText(s), OddSecondsText(s');
    FieldOrder(h, h', 2, ":", Pad(m, 2) + ("" + x), Pad(m', 2) + ("" + y));
    FieldOrder(m, m', 2, "", x, y);
    if x == y && s != 0 && s' != 0 {
      ConcatCancel(":", ":", Pad(s, 2), Pad(s', 2));
      PadOrder(s, s', 2);
    }
  }

  lemma SizeFromParts(n: nat, m: nat)
    requires n / 3600 == m / 3600 && n / 60 % 60 == m / 60 % 60 && n % 60 == m % 60
    ensures n == m
  {
    assert n / 3600 == n / 60 / 60 && m / 3600 == m / 60 / 60;
    assert n / 60 == m / 60;
  }

  lemma OffsetTextInjective(a: int, b: int)
    requires OffsetInRange(a) && OffsetInRange(b)
    requires OffsetText(a) == OffsetText(b)
    ensures a == b
  {
    var n: nat, m: nat := if a < 0 then -a else a, if b < 0 then -b else b;
    var p, q := if a < 0 then "-" else "+", if b < 0 then "-" else "+";
    var x := MagnitudeText(n / 3600, n / 60 % 60, n % 60);
    var y := MagnitudeText(m / 3600, m / 60 % 60, m % 60);
    ConcatCancel(p, q, x, y);
    assert a < 0 <==> p == "-";
    assert b < 0 <==> q == "-";
    MagnitudeTextInjective(n / 3600, n / 60 % 60, n % 60, m / 3600, m / 60 % 60, m % 60);
    SizeFromParts(n, m);
  }

  /** Two local times with offsets have the same text exactly when they agree to the second. */
  lemma IsoSecondsInjective(a: Stamp, p: int, b: Stamp, q: int)
    requires InRange(a) && InRange(b) && OffsetInRange(p) && OffsetInRange(q)
    ensures IsoSecondsText(a, p) == IsoSecondsText(b, q) <==> SameSecond(a, b) && p == q
  {
    ClockOrder(a, b, OffsetText(p), OffsetText(q));
    if OffsetText(p) == OffsetText(q) {
      OffsetTextInjective(p, q);
    }
  }

  // ----- fromisoformat() of the text above -----

  /** Reads back the fixed-width layout that `IsoText` writes. */
  function ParseIso(text: string): Option<Stamp>
  {
    if |text| < 20 then None else
    var month := text[5..];
    var day := month[3..];
    var hour := day[3..];
    var minute := hour[3..];
    var second := minute[3..];
    var fraction := second[2..];
    var micro := if |fraction| < 7 || fraction[0] != '.' then 0 else Number(fraction[1..7]);
    Some(Stamp(Number(text[..4]), Number(month[..2]), Number(day[..2]),
               Number(hour[..2]), Number(minute[..2]), Number(second[..2]), micro))
  }

  lemma FieldParse(n: nat, w: nat, sep: string, rest: string)
    requires n < Pow10(w)
    ensures var t := Pad(n, w) + (sep + rest);
            |t| == w + |sep| + |rest| && Number(t[..w]) == n && t[w + |sep|..] == rest
  {
    var t := Pad(n, w) + (sep + rest);
    assert t[..w] == Pad(n, w);
    assert t[w + |sep|..] == rest;
    NumberOfPad(n, w);
  }

  lemma FractionParse(s: Stamp)
    requires InRange(s)
    ensures var f := FractionText(s);
            |f| >= 6 && s.micro == if |f| < 7 || f[0] != '.' then 0 else Number(f[1..7])
  {
    Widths();
    if s.micro > 0 {
      var f := FractionText(s);
      assert f[1..7] == Pad(s.micro, 6);
      NumberOfPad(s.micro, 6);
    }
  }

  /** `fromisoformat(isoformat(s)) == s`: nothing is lost by storing an expiry as text. */
  lemma ParseIsoText(s: Stamp)
    requires InRange(s)
    ensures ParseIso(IsoText(s)) == Some(s)
  {
    Widths();
    var f := FractionText(s);
    FieldParse(s.year, 4, "-", MonthText(s, f));
    FieldParse(s.month, 2, "-", DayText(s, f));
    FieldParse(s.day, 2, "T", HourText(s, f));
    FieldParse(s.hour, 2, ":", MinuteText(s, f));
    FieldParse(s.minute, 2, ":", SecondText(s, f));
    FieldParse(s.second, 2, "", f);
    FractionParse(s);
  }

  // ----- where everything stands in the text -----

  /** One field of the layout: its digits, its separator, and where the rest starts. */
  lemma FieldAt(n: nat, w: nat, sep: char, rest: string, text: string, at: nat)
    requires n < Pow10(w) && at <= |text| && text[at..] == Pad(n, w) + ([sep] + rest)
    ensures at + w + 1 <= |text| && Number(text[at..at + w]) == n && text[at + w] == sep && text[at + w + 1..] == rest
  {
    NumberOfPad(n, w);
    var field := text[at..];
    assert text[at..at + w] == field[..w] == Pad(n, w);
    assert text[at + w] == field[w];
    assert text[at + w + 1..] == field[w + 1..] == rest;
  }

  /** The text of a clock reading, field by field. */
  lemma ClockParts(s: Stamp, tail: string)
    requires InRange(s)
    ensures s.year < Pow10(4) && ClockText(s, tail) == Pad(s.year, 4) + (['-'] + MonthText(s, tail))
    ensures s.month < Pow10(2) && MonthText(s, tail) == Pad(s.month, 2) + (['-'] + DayText(s, tail))
    ensures s.day < Pow10(2) && DayText(s, tail) == Pad(s.day, 2) + (['T'] + HourText(s, tail))
    ensures s.hour < Pow10(2) && HourText(s, tail) == Pad(s.hour, 2) + ([':'] + MinuteText(s, tail))
    ensures s.minute < Pow10(2) && MinuteText(s, tail) == Pad(s.minute, 2) + ([':'] + SecondText(s, tail))
    ensures s.second < Pow10(2) && SecondText(s, tail) == Pad(s.second, 2) + tail
  {
    Widths();
    assert "" + tail == tail;
    hide Pad, Pow10;
  }

  /** YYYY-MM-DDTHH:MM:SS, and what follows. */
  lemma ClockLayout(s: Stamp, tail: string)
    requires InRange(s)
    ensures var text := ClockText(s, tail);
            && |text| == 19 + |tail| && text[19..] == tail
            && Number(text[0..4]) == s.year && text[4] == '-' && Number(text[5..7]) == s.month && text[7] == '-'
            && Number(text[8..10]) == s.day && text[10] == 'T' && Number(text[11..13]) == s.hour && text[13] == ':'
            && Number(text[14..16]) == s.minute && text[16] == ':' && Number(text[17..19]) == s.second
  {
    hide *;
    ClockParts(s, tail);
    var text := ClockText(s, tail);
    assert text[0..] == text;
    FieldAt(s.year, 4, '-', MonthText(s, tail), text, 0);
    FieldAt(s.month, 2, '-', DayText(s, tail), text, 5);
    FieldAt(s.day, 2, 'T', HourText(s, tail), text, 8);
    FieldAt(s.hour, 2, ':', MinuteText(s, tail), text, 11);
    FieldAt(s.minute, 2, ':', SecondText(s, tail), text, 14);
    LastField(s.second, 2, tail, text, 17);
  }

  lemma LastField(n: nat, w: nat, tail: string, text: string, at: nat)
    requires n < Pow10(w) && at <= |text| && text[at..] == Pad(n, w) + tail
    ensures |text| == at + w + |tail| && Number(text[at..at + w]) == n && text[at + w..] == tail
  {
    NumberOfPad(n, w);
    var field := text[at..];
    assert text[at..at + w] == field[..w] == Pad(n, w);
    assert text[at + w..] == field[w..] == tail;
  }

  /** `isoformat()`: after the seconds six digits of fraction, unless it is zero, and the offset of UTC. */
  lemma IsoLayout(s: Stamp)
    requires InRange(s)
    ensures var text := IsoText(s);
            && |text| == (if s.micro == 0 then 25 else 32)
            && Number(text[0..4]) == s.year && text[4] == '-' && Number(text[5..7]) == s.month && text[7] == '-'
            && Number(text[8..10]) == s.day && text[10] == 'T' && Number(text[11..13]) == s.hour && text[13] == ':'
            && Number(text[14..16]) == s.minute && text[16] == ':' && Number(text[17..19]) == s.second
            && (s.micro > 0 ==> text[19] == '.' && Number(text[20..26]) == s.micro)
            && text[|text| - 6..] == "+00:00"
  {
    Widths();
    var text, fraction := IsoText(s), FractionText(s);
    assert text == ClockText(s, fraction);
    assert s.micro == 0 ==> fraction == "+00:00";
    assert s.micro > 0 ==> fraction == "." + (Pad(s.micro, 6) + "+00:00");
    hide *;
    ClockLayout(s, fraction);
    if s.micro == 0 {
      assert text[19..] == "+00:00";
    } else {
      NumberOfPad(s.micro, 6);
      FractionSlices(text, fraction, Pad(s.micro, 6));
    }
  }

  lemma FractionSlices(text: string, fraction: string, digits: string)
    requires |digits| == 6 && fraction == "." + (digits + "+00:00") && |text| == 19 + |fraction| && text[19..] == fraction
    ensures |text| == 32 && text[19] == '.' && text[20..26] == digits && text[26..] == "+00:00"
  {
    assert text[19] == fraction[0];
    assert text[20..26] == fraction[1..7];
    assert text[26..] == fraction[7..];
  }

  /** The sign, hours and minutes of an offset, and its odd seconds if it has some. */
  lemma OffsetLayout(offset: int)
    requires OffsetInRange(offset)
    ensures var text, size := OffsetText(offset), if offset < 0 then -offset else offset;
            && |text| == (if offset % 60 == 0 then 6 else 9)
            && text[0] == (if offset < 0 then '-' else '+')
            && Number(text[1..3]) == size / 3600 && text[3] == ':' && Number(text[4..6]) == size / 60 % 60
            && (|text| == 9 ==> text[6] == ':' && Number(text[7..9]) == size % 60)
  {
    var size: nat := if offset < 0 then -offset else offset;
    NegatedRemainder(offset);
    MagnitudeLayout(size / 3600, size / 60 % 60, size % 60);
    var text, rest := OffsetText(offset), MagnitudeText(size / 3600, size / 60 % 60, size % 60);
    assert text == [if offset < 0 then '-' else '+'] + rest;
    hide *;
    AfterFirst(text, rest);
  }

  lemma AfterFirst(text: string, rest: string)
    requires |rest| == 5 || |rest| == 8
    requires |text| == 1 + |rest| && text[1..] == rest
    ensures text[1..3] == rest[0..2] && text[3] == rest[2] && text[4..6] == rest[3..5]
    ensures |rest| == 8 ==> text[6] == rest[5] && text[7..9] == rest[6..8]
  {
  }

  lemma MagnitudeLayout(hour: nat, minute: nat, second: nat)
    requires hour < 24 && minute < 60 && second < 60
    ensures var text := MagnitudeText(hour, minute, second);
            && |text| == (if second == 0 then 5 else 8)
            && Number(text[0..2]) == hour && text[2] == ':' && Number(text[3..5]) == minute
            && (second > 0 ==> text[5] == ':' && Number(text[6..8]) == second)
  {
    Widths();
    var text, odd := MagnitudeText(hour, minute, second), OddSecondsText(second);
    assert text[0..] == text;
    FieldAt(hour, 2, ':', Pad(minute, 2) + ("" + odd), text, 0);
    NumberOfPad(minute, 2);
    NumberOfPad(second, 2);
    hide Pad, Number, Pow10;
    assert text[3..5] == Pad(minute, 2);
    assert text[5..] == odd;
    if second > 0 {
      assert odd[1..3] == Pad(second, 2);
      assert text[6..8] == text[5..][1..3];
    }
  }

  /** The offset stands after the first 19 characters. */
  lemma TailSlices(text: string, tail: string)
    requires |tail| == 6 || |tail| == 9
    requires |text| == 19 + |tail| && text[19..] == tail
    ensures text[19] == tail[0] && text[20..22] == tail[1..3] && text[22] == tail[3] && text[23..25] == tail[4..6]
    ensures |tail| == 9 ==> text[25] == tail[6] && text[26..28] == tail[7..9]
  {
  }

  /** `isoformat(timespec="seconds")`: after the seconds the offset. */
  lemma IsoSecondsLayout(s: Stamp, offset: int)
    requires InRange(s) && OffsetInRange(offset)
    ensures var text, size := IsoSecondsText(s, offset), if offset < 0 then -offset else offset;
            && |text| == (if offset % 60 == 0 then 25 else 28)
            && Number(text[0..4]) == s.year && text[4] == '-' && Number(text[5..7]) == s.month && text[7] == '-'
            && Number(text[8..10]) == s.day && text[10] == 'T' && Number(text[11..13]) == s.hour && text[13] == ':'
            && Number(text[14..16]) == s.minute && text[16] == ':' && Number(text[17..19]) == s.second
            && text[19] == (if offset < 0 then '-' else '+')
            && Number(text[20..22]) == size / 3600 && text[22] == ':' && Number(text[23..25]) == size / 60 % 60
            && (|text| == 28 ==> text[25] == ':' && Number(text[26..28]) == size % 60)
  {
    var text, tail := IsoSecondsText(s, offset), OffsetText(offset);
    assert text == ClockText(s, tail);
    ClockLayout(s, tail);
    OffsetLayout(offset);
    NegatedRemainder(offset);
    hide *;
    TailSlices(text, tail);
  }

  lemma NegatedRemainder(n: int)
    ensures n % 60 == 0 <==> (if n < 0 then -n else n) % 60 == 0
  {
  }
}
