/**
 Time stamps as Onionoo writes them, "2018-08-08 01:00:00", read as Python's strptime does
 and counted in seconds since 1970 as timegm does.
*/
module Timestamps {
  import opened Collections
  import opened JsNumbers
  import opened Strings

  // ---- the calendar

  predicate IsLeap(year: int) { year % 4 == 0 && (year % 100 != 0 || year % 400 == 0) }

  function DaysInMonth(year: int, month: int): int
  {
    if month == 2 then (if IsLeap(year) then 29 else 28)
    else if month == 4 || month == 6 || month == 9 || month == 11 then 30
    else 31
  }

  predicate IsDate(year: int, month: int, day: int)
  {
    1 <= year && 1 <= month <= 12 && 1 <= day <= DaysInMonth(year, month)
  }

  function DaysBeforeYear(year: int): int
  {
    var y := year - 1;
    365 * y + y / 4 - y / 100 + y / 400
  }

  function DaysBeforeMonth(year: int, month: nat): int
  {
    if month <= 1 then 0 else DaysBeforeMonth(year, month - 1) + DaysInMonth(year, month - 1)
  }

  const EPOCH_ORDINAL := 719163

  // date(year, month, 1).toordinal() - EPOCH_ORDINAL + day - 1
  function DayNumber(year: int, month: nat, day: int): int
  {
    DaysBeforeYear(year) + DaysBeforeMonth(year, month) + 1 - EPOCH_ORDINAL + day - 1
  }

  // The day after a date.
  function NextDay(year: int, month: int, day: int): (int, int, int)
  {
    if day < DaysInMonth(year, month) then (year, month, day + 1)
    else if month < 12 then (year, month + 1, 1)
    else (year + 1, 1, 1)
  }

  lemma {:induction false} YearLength(year: int)
    ensures DaysBeforeMonth(year, 13) == if IsLeap(year) then 366 else 365
    ensures DaysBeforeYear(year + 1) == DaysBeforeYear(year) + DaysBeforeMonth(year, 13)
  {
    hide IsLeap, DaysBeforeYear;
    var f := DaysInMonth(year, 2);
    assert DaysBeforeMonth(year, 2) == 31;
    assert DaysBeforeMonth(year, 4) == 31 + f + 31;
    assert DaysBeforeMonth(year, 6) == 31 + f + 92;
    assert DaysBeforeMonth(year, 8) == 31 + f + 153;
    assert DaysBeforeMonth(year, 10) == 31 + f + 214;
    assert DaysBeforeMonth(year, 12) == 31 + f + 275;
    LeapDays(year);
  }

  lemma LeapDays(year: int)
    ensures DaysBeforeYear(year + 1) == DaysBeforeYear(year) + if IsLeap(year) then 366 else 365
  {
    Every(year, 4);
    Every(year, 100);
    Every(year, 400);
    Divides(year, 25, 4);
    Divides(year, 4, 100);
  }

  lemma Divides(year: int, k: int, n: int)
    requires k > 0 && n > 0
    ensures year % (k * n) == 0 ==> year % n == 0
  {
    if year % (k * n) == 0 {
      var q := year / (k * n);
      assert year == q * (k * n) == (q * k) * n + 0;
      DivModUnique(year, n, q * k, 0);
    }
  }

  lemma Every(year: int, n: int)
    requires n > 1
    ensures year / n - (year - 1) / n == if year % n == 0 then 1 else 0
  {
    var q, m := year / n, year % n;
    if m == 0 {
      assert (q - 1) * n + (n - 1) == year - 1 by { MulLess(q, n); }
      Quotient(year - 1, n, q - 1, n - 1);
    } else {
      Quotient(year - 1, n, q, m - 1);
    }
  }

  lemma MulLess(q: int, n: int)
    ensures (q - 1) * n == q * n - n
  {
  }

  lemma Quotient(x: int, n: int, q: int, m: int)
    requires n > 0 && 0 <= m < n && x == q * n + m
    ensures x / n == q
  {
    DivModUnique(x, n, q, m);
  }

  /** The days are numbered from the first of January 1970, one by one. */
  lemma DaysAreCounted(year: int, month: int, day: int)
    requires IsDate(year, month, day)
    ensures DayNumber(1970, 1, 1) == 0
    ensures var (y, m, d) := NextDay(year, month, day);
            IsDate(y, m, d) && DayNumber(y, m, d) == DayNumber(year, month, day) + 1
  {
    hide IsLeap;
    if day == DaysInMonth(year, month) && month == 12 { YearLength(year); }
  }

  // ---- reading

  predicate AllDigits(s: string) { forall i :: 0 <= i < |s| ==> IsDigit(s[i]) }

  function Value(s: string): nat
    requires AllDigits(s)
  {
    if s == "" then 0 else 10 * Value(s[..|s| - 1]) + (s[|s| - 1] as int - '0' as int)
  }

  // A field of one or two digits between two bounds.
  function Field(s: string, lowest: int, highest: int): Option<int>
  {
    if 1 <= |s| <= 2 && AllDigits(s) && lowest <= Value(s) <= highest then Some(Value(s)) else None
  }

  // "%H:%M:%S", in seconds; up to 61 for the last field
  function TimeOfDay(text: string): Option<int>
  {
    var parts := Split(text, ":");
    if |parts| != 3 then None
    else
      var h, m, s := Field(parts[0], 0, 23), Field(parts[1], 0, 59), Field(parts[2], 0, 61);
      if h.None? || m.None? || s.None? then None else Some((h.value * 60 + m.value) * 60 + s.value)
  }

  // "%d %H:%M:%S": a one-digit day may stand behind a blank; any white space may follow the day
  function DayAndTime(text: string): Option<(int, int)>
  {
    var blank := text != "" && text[0] == ' ';
    var t := if blank then text[1..] else text;
    var n := WordEnd(t);
    var day, time := Field(t[..n], 1, 31), TimeOfDay(TrimLeft(t[n..]));
    if (blank && n != 1) || day.None? || time.None? then None else Some((day.value, time.value))
  }

  /** timegm(strptime(text, '%Y-%m-%d %H:%M:%S')); None where strptime raises ValueError. */
  function Parsed(text: string): Option<int>
  {
    var parts := Split(text, "-");
    if |parts| != 3 || |parts[0]| != 4 || !AllDigits(parts[0]) then None
    else
      var year, month, rest := Value(parts[0]), Field(parts[1], 1, 12), DayAndTime(parts[2]);
      if month.None? || rest.None? || !IsDate(year, month.value, rest.value.0) then None
      else Some(DayNumber(year, month.value, rest.value.0) * 86400 + rest.value.1)
  }

  // ---- writing

  // The last k digits of a number.
  function Padded(n: nat, k: nat): (s: string)
    ensures |s| == k && AllDigits(s)
  {
    if k == 0 then "" else Padded(n / 10, k - 1) + ["0123456789"[n % 10]]
  }

  function Power10(k: nat): nat { if k == 0 then 1 else 10 * Power10(k - 1) }

  lemma {:induction false} PaddedValue(n: nat, k: nat)
    requires n < Power10(k)
    ensures Value(Padded(n, k)) == n
  {
    if k != 0 {
      var s := Padded(n, k);
      assert s[..|s| - 1] == Padded(n / 10, k - 1);
      assert "0123456789"[n % 10] as int - '0' as int == n % 10;
      PaddedValue(n / 10, k - 1);
    }
  }

  function Written(year: nat, month: nat, day: nat, hour: nat, minute: nat, second: nat): string
  {
    Join([Padded(year, 4), Padded(month, 2),
          Padded(day, 2) + " " + Join([Padded(hour, 2), Padded(minute, 2), Padded(second, 2)], ":")], "-")
  }

  lemma TwoDigits(n: nat, lowest: int, highest: int)
    requires n <= 99
    ensures Field(Padded(n, 2), lowest, highest) == if lowest <= n <= highest then Some(n) else None
  {
    assert Power10(2) == 10 * Power10(1) && Power10(1) == 10 * Power10(0);
    PaddedValue(n, 2);
  }

  // A text of digits and other characters is free of a separator that is neither.
  lemma DigitsFree(s: string, c: char)
    requires AllDigits(s) && !IsDigit(c)
    ensures c !in s && Free(s, [c])
  {
    FreeOfChar(s, c);
  }

  lemma TimeIsRead(hour: nat, minute: nat, second: nat)
    requires hour <= 99 && minute <= 99 && second <= 99
    ensures var time := Join([Padded(hour, 2), Padded(minute, 2), Padded(second, 2)], ":");
            TimeOfDay(time)
            == (if hour < 24 && minute < 60 && second < 62 then Some((hour * 60 + minute) * 60 + second) else None)
            && time != "" && IsDigit(time[0]) && '-' !in time
  {
    hide Padded, Value, Field, Split, Join;
    var h, m, s := Padded(hour, 2), Padded(minute, 2), Padded(second, 2);
    ThreeSplit(h, m, s);
    TwoDigits(hour, 0, 23);
    TwoDigits(minute, 0, 59);
    TwoDigits(second, 0, 61);
    ThreeJoined(h, m, s);
  }

  lemma ThreeSplit(h: string, m: string, s: string)
    requires AllDigits(h) && AllDigits(m) && AllDigits(s)
    ensures Split(Join([h, m, s], ":"), ":") == [h, m, s]
  {
    hide Split, Join, Free;
    DigitsFree(h, ':');
    DigitsFree(m, ':');
    DigitsFree(s, ':');
    SplitJoin([h, m, s], ":");
  }

  lemma ThreeJoined(h: string, m: string, s: string)
    requires AllDigits(h) && AllDigits(m) && AllDigits(s) && h != ""
    ensures var time := Join([h, m, s], ":"); time != "" && time[0] == h[0] && '-' !in time
  {
    assert [h, m, s][1..] == [m, s] && [m, s][1..] == [s];
    assert Join([s], ":") == s;
    assert Join([m, s], ":") == m + ":" + s;
    var time := h + ":" + (m + ":" + s);
    assert time[0] == h[0] && '-' !in time;
  }

  lemma DayIsRead(day: nat, time: string)
    requires day <= 99 && time != "" && IsDigit(time[0]) && '-' !in time
    ensures var text := Padded(day, 2) + " " + time;
            DayAndTime(text)
            == (if 1 <= day <= 31 && TimeOfDay(time).Some? then Some((day as int, TimeOfDay(time).value)) else None)
            && '-' !in text
  {
    hide TimeOfDay, Padded, Value, Field;
    var d := Padded(day, 2);
    var rest := " " + time;
    assert d + " " + time == d + rest;
    assert IsDigit(d[0]) && forall i :: 0 <= i < |d| ==> !IsSpace(d[i]);
    WordEndAt(d, rest);
    assert (d + rest)[..2] == d && (d + rest)[2..] == rest && rest[1..] == time;
    assert TrimLeft(time) == time;
    TwoDigits(day, 1, 31);
  }

  /**
   Reading undoes writing, for every date of a year with four digits and every time of day;
   with any other numbers of two digits there is nothing to read.
  */
  lemma StampIsRead(year: nat, month: nat, day: nat, hour: nat, minute: nat, second: nat)
    requires year <= 9999 && month <= 99 && day <= 99 && hour <= 99 && minute <= 99 && second <= 99
    ensures Parsed(Written(year, month, day, hour, minute, second))
         == if IsDate(year, month, day) && hour < 24 && minute < 60 && second < 62
            then Some(((DayNumber(year, month, day) * 24 + hour) * 60 + minute) * 60 + second)
            else None
  {
    hide Padded, Value, Field, Split, Free, Join, TimeOfDay, DayAndTime, DayNumber;
    var time := Join([Padded(hour, 2), Padded(minute, 2), Padded(second, 2)], ":");
    var y, m, rest := Padded(year, 4), Padded(month, 2), Padded(day, 2) + " " + time;
    TimeIsRead(hour, minute, second);
    DayIsRead(day, time);
    DigitsFree(y, '-');
    DigitsFree(m, '-');
    FreeOfChar(rest, '-');
    SplitJoin([y, m, rest], "-");
    TwoDigits(month, 1, 12);
    FourDigits();
    PaddedValue(year, 4);
  }

  lemma FourDigits()
    ensures Power10(4) == 10000
  {
    assert Power10(1) == 10 && Power10(2) == 100 && Power10(3) == 1000;
  }

  /** A year with a leap day and two without; some days by their number. */
  lemma KnownDays()
    ensures IsLeap(2000) && IsLeap(2016) && !IsLeap(1900) && !IsLeap(2018)
    ensures DayNumber(1970, 1, 1) == 0 && DayNumber(2000, 2, 29) == 11016 && DayNumber(2000, 3, 1) == 11017
    ensures DayNumber(2018, 8, 8) == 17751
  {
    assert DaysBeforeYear(2000) == 730119 && DaysBeforeYear(2018) == 736694 && DaysBeforeYear(1970) == 719162;
    assert DaysBeforeMonth(2000, 2) == 31 && DaysBeforeMonth(2000, 3) == 60;
    assert DaysBeforeMonth(2018, 2) == 31 && DaysBeforeMonth(2018, 4) == 90 && DaysBeforeMonth(2018, 6) == 151;
    assert DaysBeforeMonth(2018, 8) == 212;
  }

  lemma PaddedExamples()
    ensures Padded(8, 2) == "08" && Padded(1, 2) == "01" && Padded(0, 2) == "00"
  {
    hide Padded;
    PaddedNext(0, 0);
    PaddedNext(8, 1);
    PaddedNext(1, 1);
    PaddedNext(0, 1);
  }

  lemma PaddedNext(n: nat, k: nat)
    ensures Padded(n, 0) == ""
    ensures Padded(n, k + 1) == Padded(n / 10, k) + ["0123456789"[n % 10]]
  {
  }

  lemma PaddedYear()
    ensures Padded(2018, 4) == "2018"
  {
    assert Padded(2, 1) == "2";
    assert Padded(20, 2) == Padded(2, 1) + "0" == "20";
    assert Padded(201, 3) == Padded(20, 2) + "1" == "201";
  }

  /** A stamp as it is written, part by part. */
  lemma WrittenExample()
    ensures Written(2018, 8, 8, 1, 0, 0)
         == "2018" + "-" + ("08" + "-" + ("08" + " " + ("01" + ":" + ("00" + ":" + "00"))))
  {
    hide Padded;
    PaddedExamples();
    PaddedYear();
    JoinThree("01", "00", "00", ":");
    JoinThree("2018", "08", "08" + " " + ("01" + ":" + ("00" + ":" + "00")), "-");
  }

  lemma JoinThree(a: string, b: string, c: string, sep: string)
    ensures Join([a, b, c], sep) == a + sep + (b + sep + c)
  {
    assert [a, b, c][1..] == [b, c] && [b, c][1..] == [c];
    assert Join([c], sep) == c;
    assert Join([b, c], sep) == b + sep + c;
  }
}
