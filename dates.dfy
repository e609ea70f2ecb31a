/** Calendar dates and second-resolution timestamps as the server compares them:
    the `YYYY-MM-DD` filter dates it parses, their midnight instants, and the
    chronological order of `datetime` values. */
module Dates {
  import opened Wrappers

  /** A calendar date (what `strptime(s, '%Y-%m-%d')` yields, before time of day). */
  datatype Date = Date(year: nat, month: nat, day: nat)

  /** A point in time with second precision (a parsed `Timestamp` field). */
  datatype DateTime = DateTime(year: nat, month: nat, day: nat, hour: nat, minute: nat, second: nat)

  predicate IsLeapYear(year: nat) {
    year % 4 == 0 && (year % 100 != 0 || year % 400 == 0)
  }

  function DaysInMonth(year: nat, month: nat): nat
    requires 1 <= month <= 12
  {
    if month == 2 then (if IsLeapYear(year) then 29 else 28)
    else if month == 4 || month == 6 || month == 9 || month == 11 then 30
    else 31
  }

  /** The dates Python's `datetime` accepts: years 1 to 9999, real days of real months. */
  predicate ValidDate(d: Date) {
    1 <= d.year <= 9999 && 1 <= d.month <= 12 && 1 <= d.day <= DaysInMonth(d.year, d.month)
  }

  /** 00:00:00 of the given day: the instant a date filter compares against. */
  function Midnight(d: Date): DateTime {
    DateTime(d.year, d.month, d.day, 0, 0, 0)
  }

  function Fields(t: DateTime): seq<nat> {
    [t.year, t.month, t.day, t.hour, t.minute, t.second]
  }

  /** Lexicographic order on equally long sequences of numbers. */
  predicate LexLe(a: seq<nat>, b: seq<nat>)
    requires |a| == |b|
    decreases |a|
  {
    |a| == 0 || a[0] < b[0] || (a[0] == b[0] && LexLe(a[1..], b[1..]))
  }

  /** `a <= b` on `datetime` values: year first, then month, day, hour, minute, second. */
  predicate NotAfter(a: DateTime, b: DateTime)
    ensures NotAfter(a, b) <==> a == b || Earlier(a, b)
  {
    NotAfterUnfold(a, b);
    LexLe(Fields(a), Fields(b))
  }

  /** `a < b` on `datetime` values, field by field: the first field that differs decides. */
  predicate Earlier(a: DateTime, b: DateTime) {
    || a.year < b.year
    || (a.year == b.year && a.month < b.month)
    || (a.year == b.year && a.month == b.month && a.day < b.day)
    || (a.year == b.year && a.month == b.month && a.day == b.day && a.hour < b.hour)
    || (a.year == b.year && a.month == b.month && a.day == b.day && a.hour == b.hour
        && a.minute < b.minute)
    || (a.year == b.year && a.month == b.month && a.day == b.day && a.hour == b.hour
        && a.minute == b.minute && a.second < b.second)
  }

  lemma NotAfterUnfold(a: DateTime, b: DateTime)
    ensures LexLe(Fields(a), Fields(b)) <==> a == b || Earlier(a, b)
  {
    var a1, b1 := [a.month, a.day, a.hour, a.minute, a.second], [b.month, b.day, b.hour, b.minute, b.second];
    var a2, b2 := [a.day, a.hour, a.minute, a.second], [b.day, b.hour, b.minute, b.second];
    var a3, b3 := [a.hour, a.minute, a.second], [b.hour, b.minute, b.second];
    var a4, b4 := [a.minute, a.second], [b.minute, b.second];
    var a5, b5 := [a.second], [b.second];
    assert Fields(a)[1..] == a1 && Fields(b)[1..] == b1;
    assert a1[1..] == a2 && b1[1..] == b2 && a2[1..] == a3 && b2[1..] == b3;
    assert a3[1..] == a4 && b3[1..] == b4 && a4[1..] == a5 && b4[1..] == b5;
    assert a5[1..] == [] && b5[1..] == [];
    assert LexLe(a5, b5) <==> a.second <= b.second;
    assert LexLe(a4, b4) <==> a.minute < b.minute || (a.minute == b.minute && LexLe(a5, b5));
    assert LexLe(a3, b3) <==> a.hour < b.hour || (a.hour == b.hour && LexLe(a4, b4));
    assert LexLe(a2, b2) <==> a.day < b.day || (a.day == b.day && LexLe(a3, b3));
    assert LexLe(a1, b1) <==> a.month < b.month || (a.month == b.month && LexLe(a2, b2));
    assert LexLe(Fields(a), Fields(b)) <==> a.year < b.year || (a.year == b.year && LexLe(a1, b1));
  }

  lemma {:induction false} LexLeAntisymmetric(a: seq<nat>, b: seq<nat>)
    requires |a| == |b| && LexLe(a, b) && LexLe(b, a)
    ensures a == b
  {
    if |a| > 0 {
      LexLeAntisymmetric(a[1..], b[1..]);
      assert a == [a[0]] + a[1..] && b == [b[0]] + b[1..];
    }
  }

  lemma {:induction false} LexLeTransitive(a: seq<nat>, b: seq<nat>, c: seq<nat>)
    requires |a| == |b| == |c| && LexLe(a, b) && LexLe(b, c)
    ensures LexLe(a, c)
  {
    if |a| > 0 && a[0] == b[0] == c[0] {
      LexLeTransitive(a[1..], b[1..], c[1..]);
    }
  }

  lemma {:induction false} LexLeTotal(a: seq<nat>, b: seq<nat>)
    requires |a| == |b|
    ensures LexLe(a, b) || LexLe(b, a)
  {
    if |a| > 0 && a[0] == b[0] {
      LexLeTotal(a[1..], b[1..]);
    }
  }

  /** Two timestamps each not after the other are the same instant. */
  lemma NotAfterAntisymmetric(a: DateTime, b: DateTime)
    requires NotAfter(a, b) && NotAfter(b, a)
    ensures a == b
  {
    LexLeAntisymmetric(Fields(a), Fields(b));
    assert Fields(a)[0] == Fields(b)[0] && Fields(a)[1] == Fields(b)[1] && Fields(a)[2] == Fields(b)[2];
    assert Fields(a)[3] == Fields(b)[3] && Fields(a)[4] == Fields(b)[4] && Fields(a)[5] == Fields(b)[5];
  }

  /** The order on timestamps is a total order: transitive and total. */
  lemma NotAfterTotalOrder(a: DateTime, b: DateTime, c: DateTime)
    ensures NotAfter(a, b) || NotAfter(b, a)
    ensures NotAfter(a, b) && NotAfter(b, c) ==> NotAfter(a, c)
  {
    LexLeTotal(Fields(a), Fields(b));
    if NotAfter(a, b) && NotAfter(b, c) {
      LexLeTransitive(Fields(a), Fields(b), Fields(c));
    }
  }

  /** A common prefix does not affect the order. */
  lemma {:induction false} LexLeCommonPrefix(p: seq<nat>, x: seq<nat>, y: seq<nat>)
    requires |x| == |y|
    ensures LexLe(p + x, p + y) == LexLe(x, y)
  {
    if p != [] {
      assert (p + x)[1..] == p[1..] + x && (p + y)[1..] == p[1..] + y;
      LexLeCommonPrefix(p[1..], x, y);
    } else {
      assert p + x == x && p + y == y;
    }
  }

  /** On the day `d` itself, only the first second (00:00:00) is not after `d`'s midnight:
      every later instant of that day lies beyond the bound. */
  lemma SameDayNotAfterMidnight(t: DateTime, d: Date)
    requires t.year == d.year && t.month == d.month && t.day == d.day
    ensures NotAfter(t, Midnight(d)) <==> t == Midnight(d)
  {
    var day := [t.year, t.month, t.day];
    var clock := [t.hour, t.minute, t.second];
    assert Fields(t) == day + clock && Fields(Midnight(d)) == day + [0, 0, 0];
    LexLeCommonPrefix(day, clock, [0, 0, 0]);
    assert clock[1..] == [t.minute, t.second] && clock[1..][1..] == [t.second];
    assert [0, 0, 0][1..] == [0, 0] && [0, 0, 0][1..][1..] == [0];
    assert LexLe(clock, [0, 0, 0]) <==> t.hour == 0 && LexLe([t.minute, t.second], [0, 0]);
    assert LexLe([t.minute, t.second], [0, 0]) <==> t.minute == 0 && LexLe([t.second], [0]);
    assert LexLe([t.second], [0]) <==> t.second == 0;
  }

  /** Every instant of the day `d` is at or after `d`'s midnight. */
  lemma SameDayNotBeforeMidnight(t: DateTime, d: Date)
    requires t.year == d.year && t.month == d.month && t.day == d.day
    ensures NotAfter(Midnight(d), t)
  {
    var day := [t.year, t.month, t.day];
    var clock := [t.hour, t.minute, t.second];
    assert Fields(t) == day + clock && Fields(Midnight(d)) == day + [0, 0, 0];
    LexLeCommonPrefix(day, [0, 0, 0], clock);
    assert clock[1..] == [t.minute, t.second] && clock[1..][1..] == [t.second];
    assert [0, 0, 0][1..] == [0, 0] && [0, 0, 0][1..][1..] == [0];
  }

  // ---- parsing the `YYYY-MM-DD` filter strings ----

  predicate IsDigit(c: char) {
    '0' <= c <= '9'
  }

  function DigitValue(c: char): nat
    requires IsDigit(c)
  {
    c as int - '0' as int
  }

  function DigitChar(n: nat): char
    requires n < 10
  {
    ('0' as int + n) as char
  }

  predicate AllDigits(s: string) {
    forall i :: 0 <= i < |s| ==> IsDigit(s[i])
  }

  /** The decimal number written by a string of digits. */
  function Number(s: string): nat
    requires AllDigits(s)
    decreases |s|
  {
    if s == [] then 0 else 10 * Number(s[..|s| - 1]) + DigitValue(s[|s| - 1])
  }

  /** The `%m` directive: `1[0-2]`, `0[1-9]` or a single `[1-9]`. */
  function MonthToken(tok: string): Option<nat> {
    if |tok| == 1 && '1' <= tok[0] <= '9' then Some(DigitValue(tok[0]))
    else if |tok| == 2 && tok[0] == '0' && '1' <= tok[1] <= '9' then Some(DigitValue(tok[1]))
    else if |tok| == 2 && tok[0] == '1' && '0' <= tok[1] <= '2' then Some(10 + DigitValue(tok[1]))
    else None
  }

  /** The `%d` directive: `3[01]`, `[12]` and a digit, `0[1-9]`, a single `[1-9]`
      or a space followed by `[1-9]`. */
  function DayToken(tok: string): Option<nat> {
    if |tok| == 1 && '1' <= tok[0] <= '9' then Some(DigitValue(tok[0]))
    else if |tok| == 2 && tok[0] == '3' && '0' <= tok[1] <= '1' then Some(30 + DigitValue(tok[1]))
    else if |tok| == 2 && '1' <= tok[0] <= '2' && IsDigit(tok[1]) then Some(10 * DigitValue(tok[0]) + DigitValue(tok[1]))
    else if |tok| == 2 && (tok[0] == '0' || tok[0] == ' ') && '1' <= tok[1] <= '9' then Some(DigitValue(tok[1]))
    else None
  }

  /** A two-character digit string's value. */
  lemma NumberTwo(tok: string)
    requires |tok| == 2 && AllDigits(tok)
    ensures Number(tok) == 10 * DigitValue(tok[0]) + DigitValue(tok[1])
  {
    assert tok[..1][..0] == [] && tok[..1][0] == tok[0];
    assert Number(tok[..1]) == 10 * Number(tok[..1][..0]) + DigitValue(tok[..1][0]) == DigitValue(tok[0]);
  }

  /** `%m` accepts exactly the one- or two-digit spellings of 1 to 12, leading zero allowed. */
  lemma MonthTokenMeaning(tok: string)
    ensures MonthToken(tok).Some? <==> 1 <= |tok| <= 2 && AllDigits(tok) && 1 <= Number(tok) <= 12
    ensures MonthToken(tok).Some? ==> MonthToken(tok).value == Number(tok)
  {
    if |tok| == 1 && AllDigits(tok) {
      assert tok[..0] == [];
    } else if |tok| == 2 && AllDigits(tok) {
      NumberTwo(tok);
    }
  }

  /** `%d` accepts exactly the one- or two-digit spellings of 1 to 31, leading zero allowed,
      and a space followed by a single non-zero digit. */
  lemma DayTokenMeaning(tok: string)
    ensures DayToken(tok).Some? <==>
              || (1 <= |tok| <= 2 && AllDigits(tok) && 1 <= Number(tok) <= 31)
              || (|tok| == 2 && tok[0] == ' ' && '1' <= tok[1] <= '9')
    ensures DayToken(tok).Some? && AllDigits(tok) ==> DayToken(tok).value == Number(tok)
    ensures DayToken(tok).Some? && !AllDigits(tok) ==> DayToken(tok).value == DigitValue(tok[1])
  {
    if |tok| == 1 && AllDigits(tok) {
      assert tok[..0] == [];
    } else if |tok| == 2 && AllDigits(tok) {
      NumberTwo(tok);
    } else if |tok| == 2 && !AllDigits(tok) {
      assert !IsDigit(tok[0]) || !IsDigit(tok[1]);
    }
  }

  /** `datetime.strptime(s, '%Y-%m-%d')`: four digits of year, a dash, a month, a dash
      and a day, with nothing left over, naming a real calendar day. `None` is the
      `ValueError` the server does not catch. */
  function ParseDate(s: string): (r: Option<Date>)
    ensures r.Some? ==> ValidDate(r.value)
  {
    if |s| < 5 || !AllDigits(s[..4]) || s[4] != '-' then None
    else
      var rest := s[5..];
      var cut := if |rest| >= 2 && rest[1] == '-' then 1
                 else if |rest| >= 3 && rest[2] == '-' then 2
                 else 0;
      if cut == 0 then None
      else
        var month, day := MonthToken(rest[..cut]), DayToken(rest[cut + 1..]);
        if month.None? || day.None? then None
        else
          var d := Date(Number(s[..4]), month.value, day.value);
          if ValidDate(d) then Some(d) else None
  }

  function Pow10(n: nat): nat {
    if n == 0 then 1 else 10 * Pow10(n - 1)
  }

  /** `n` written with exactly `width` decimal digits, zero-padded on the left. */
  function Padded(n: nat, width: nat): (s: string)
    ensures |s| == width && AllDigits(s)
  {
    if width == 0 then [] else Padded(n / 10, width - 1) + [DigitChar(n % 10)]
  }

  /** The canonical `YYYY-MM-DD` spelling of a date. */
  function FormatDate(d: Date): string {
    Padded(d.year, 4) + "-" + Padded(d.month, 2) + "-" + Padded(d.day, 2)
  }

  lemma {:induction false} NumberPadded(n: nat, width: nat)
    requires n < Pow10(width)
    ensures Number(Padded(n, width)) == n
  {
    if width > 0 {
      var s := Padded(n, width);
      assert s[..|s| - 1] == Padded(n / 10, width - 1);
      NumberPadded(n / 10, width - 1);
    }
  }

  lemma PaddedTwo(n: nat)
    requires n < 100
    ensures Padded(n, 2) == [DigitChar(n / 10), DigitChar(n % 10)]
  {
    var tens := n / 10;
    assert tens < 10;
    assert tens % 10 == tens;
    assert Padded(tens, 1) == Padded(tens / 10, 0) + [DigitChar(tens % 10)] == [DigitChar(tens)];
  }

  lemma MonthTokenPadded(m: nat)
    requires 1 <= m <= 12
    ensures MonthToken(Padded(m, 2)) == Some(m)
  {
    PaddedTwo(m);
  }

  lemma DayTokenPadded(day: nat)
    requires 1 <= day <= 31
    ensures DayToken(Padded(day, 2)) == Some(day)
  {
    PaddedTwo(day);
  }

  /** Parsing the canonical spelling of a valid date gives back that date. */
  lemma ParseFormatRoundTrip(d: Date)
    requires ValidDate(d)
    ensures ParseDate(FormatDate(d)) == Some(d)
  {
    var y, m, dd := Padded(d.year, 4), Padded(d.month, 2), Padded(d.day, 2);
    var s := FormatDate(d);
    assert s[..4] == y;
    var rest := s[5..];
    assert rest == m + "-" + dd;
    assert rest[..2] == m && rest[3..] == dd;
    NumberPadded(d.year, 4);
    MonthTokenPadded(d.month);
    DayTokenPadded(d.day);
  }

  /** `s` is four year digits, a dash, a `%m` token, a dash and a `%d` token that
      together name the fields of `d`. */
  ghost predicate SpellsDate(s: string, d: Date) {
    exists y: string, m: string, dd: string ::
      && s == y + "-" + m + "-" + dd
      && |y| == 4 && AllDigits(y) && Number(y) == d.year
      && MonthToken(m) == Some(d.month) && DayToken(dd) == Some(d.day)
  }

  /** A spelled date is parsed to the date it names when that day exists, and is
      rejected when it does not (such as 29 February of a common year). */
  lemma ParseSpelled(y: string, m: string, dd: string)
    requires |y| == 4 && AllDigits(y) && MonthToken(m).Some? && DayToken(dd).Some?
    ensures var d := Date(Number(y), MonthToken(m).value, DayToken(dd).value);
            ParseDate(y + "-" + m + "-" + dd) == if ValidDate(d) then Some(d) else None
  {
    var s := y + "-" + m + "-" + dd;
    assert s[..4] == y;
    var rest := s[5..];
    assert rest == m + "-" + dd;
    if |m| == 1 {
      assert rest[..1] == m && rest[2..] == dd;
    } else {
      assert rest[1] == m[1] && rest[2] == '-';
      assert rest[..2] == m && rest[3..] == dd;
    }
  }

  /** Every accepted string is the spelling of the date it is parsed to. */
  lemma ParseAcceptedSpells(s: string, d: Date)
    requires ParseDate(s) == Some(d)
    ensures SpellsDate(s, d)
  {
    var rest := s[5..];
    var cut := if rest[1] == '-' then 1 else 2;
    var y, m, dd := s[..4], rest[..cut], rest[cut + 1..];
    assert s == y + "-" + m + "-" + dd;
  }

  /** The parser accepts a string exactly when it spells a real day, and yields that day. */
  lemma ParseDateMeaning(s: string, d: Date)
    ensures ParseDate(s) == Some(d) <==> SpellsDate(s, d) && ValidDate(d)
  {
    if ParseDate(s) == Some(d) {
      ParseAcceptedSpells(s, d);
    } else if SpellsDate(s, d) && ValidDate(d) {
      var y, m, dd :| && s == y + "-" + m + "-" + dd
                      && |y| == 4 && AllDigits(y) && Number(y) == d.year
                      && MonthToken(m) == Some(d.month) && DayToken(dd) == Some(d.day);
      ParseSpelled(y, m, dd);
      assert false;
    }
  }

  /** Months and days may be written with a single digit, as `strptime` allows. */
  lemma ParseUnpaddedDate(d: Date)
    requires ValidDate(d) && d.month < 10 && d.day < 10
    ensures ParseDate(Padded(d.year, 4) + "-" + [DigitChar(d.month)] + "-" + [DigitChar(d.day)]) == Some(d)
  {
    var m, dd := [DigitChar(d.month)], [DigitChar(d.day)];
    assert MonthToken(m) == Some(d.month);
    assert DayToken(dd) == Some(d.day);
    NumberPadded(d.year, 4);
    ParseSpelled(Padded(d.year, 4), m, dd);
  }
}
