/** Calendar dates as the servers store them (`YYYY-MM-DD` text) and the two ways
    the payroll query picks the attendance rows of a month. */
module Dates {
  import opened Text
  import opened Sql

  /** The database dialect a query runs under. */
  datatype Dialect = Sqlite | Mysql

  /** `YYYY-MM-DD`: four digits, a dash, two digits, a dash, two digits. */
  predicate IsCanonicalDate(s: string) {
    && |s| == 10
    && AllDigits(s[0..4]) && s[4] == '-' && AllDigits(s[5..7]) && s[7] == '-' && AllDigits(s[8..10])
  }

  /** `CAST(SUBSTR(date, 6, 2) AS INTEGER)` (server-sqlite-complete.js:462). */
  function SqliteMonth(date: string): int {
    CastInteger(Substr(date, 6, 2))
  }

  /** `CAST(SUBSTR(date, 1, 4) AS INTEGER)` (server-sqlite-complete.js:462). */
  function SqliteYear(date: string): int {
    CastInteger(Substr(date, 1, 4))
  }

  /** A date string as MySQL reads it with dashes, in `MONTH(date)`, `YEAR(date)` and a
      DATE column alike: a four-digit year, then a month and a day of one or two digits
      each, so '2024-3-15' is 15 March 2024. */
  predicate IsDashedDate(date: string) {
    var p := Split(date, '-');
    && |p| == 3 && |p[0]| == 4 && 1 <= |p[1]| <= 2 && 1 <= |p[2]| <= 2
    && AllDigits(p[0]) && AllDigits(p[1]) && AllDigits(p[2])
  }

  /** `MONTH(date)` (server.js:359). */
  function MysqlMonth(date: string): int
    requires IsDashedDate(date)
  {
    DigitsValue(Split(date, '-')[1])
  }

  /** `YEAR(date)` (server.js:359). */
  function MysqlYear(date: string): int
    requires IsDashedDate(date)
  {
    DigitsValue(Split(date, '-')[0])
  }

  /** Whether an attendance date belongs to (month, year) under each server's join
      condition: SQLite slices the text, MySQL reads the date's fields. */
  predicate InPeriod(d: Dialect, date: string, month: int, year: int) {
    match d
    case Sqlite => SqliteMonth(date) == month && SqliteYear(date) == year
    case Mysql => IsDashedDate(date) && MysqlMonth(date) == month && MysqlYear(date) == year
  }

  lemma DigitsHaveNoDash(s: string)
    requires AllDigits(s)
    ensures '-' !in s
  {
    assert forall i :: 0 <= i < |s| ==> s[i] != '-';
  }

  /** MySQL reads the year and the month of a canonical date from its fields. */
  lemma MysqlFieldsOfCanonical(date: string)
    requires IsCanonicalDate(date)
    ensures IsDashedDate(date)
    ensures MysqlMonth(date) == DigitsValue(date[5..7])
    ensures MysqlYear(date) == DigitsValue(date[0..4])
  {
    var y, m, dd := date[0..4], date[5..7], date[8..10];
    DigitsHaveNoDash(y);
    DigitsHaveNoDash(m);
    DigitsHaveNoDash(dd);
    assert date == y + ['-'] + (m + ['-'] + dd);
    SplitAfterField(y, '-', m + ['-'] + dd);
    SplitAfterField(m, '-', dd);
    SplitNoSeparator(dd, '-');
    assert Split(date, '-') == [y, m, dd];
  }

  /** On a canonical date SQLite's string slicing reads the month and year fields. */
  lemma SqliteFieldsOfCanonical(date: string)
    requires IsCanonicalDate(date)
    ensures SqliteMonth(date) == DigitsValue(date[5..7])
    ensures SqliteYear(date) == DigitsValue(date[0..4])
  {
    assert Substr(date, 6, 2) == date[5..7];
    assert Substr(date, 1, 4) == date[0..4];
    assert date[5..7] + "" == date[5..7];
    assert date[0..4] + "" == date[0..4];
    CastIntegerDigits(date[5..7], "");
    CastIntegerDigits(date[0..4], "");
  }

  /** On canonical dates the two servers select the same attendance rows. */
  lemma DialectsAgreeOnCanonical(date: string, month: int, year: int)
    requires IsCanonicalDate(date)
    ensures InPeriod(Sqlite, date, month, year) <==> InPeriod(Mysql, date, month, year)
  {
    SqliteFieldsOfCanonical(date);
    MysqlFieldsOfCanonical(date);
  }

  /** An unpadded date counts for its month under both servers: SQLite's
      `SUBSTR('2024-3-15', 6, 2)` is `'3-'`, whose integer value is 3, and MySQL reads
      '2024-3-15' as 15 March 2024. */
  lemma UnpaddedDateCountsUnderBoth()
    ensures InPeriod(Sqlite, "2024-3-15", 3, 2024)
    ensures InPeriod(Mysql, "2024-3-15", 3, 2024)
  {
    var date := "2024-3-15";
    assert Substr(date, 6, 2) == "3" + "-";
    assert Substr(date, 1, 4) == "2024" + "";
    YearDigits();
    CastIntegerDigits("3", "-");
    CastIntegerDigits("2024", "");
    UnpaddedDateFields();
  }

  lemma UnpaddedDateFields()
    ensures Split("2024-3-15", '-') == ["2024", "3", "15"]
  {
    DigitsHaveNoDash("2024");
    DigitsHaveNoDash("3");
    DigitsHaveNoDash("15");
    assert "2024-3-15" == "2024" + ['-'] + ("3" + ['-'] + "15");
    SplitAfterField("2024", '-', "3" + ['-'] + "15");
    SplitAfterField("3", '-', "15");
    SplitNoSeparator("15", '-');
  }

  lemma YearDigits()
    ensures AllDigits("2024") && DigitsValue("2024") == 2024 && AllDigits("3") && DigitsValue("3") == 3
    ensures AllDigits("15")
  {
    assert "2024"[..3] == "202" && "202"[..2] == "20" && "20"[..1] == "2";
  }

  /** dayjs `format('YYYY-MM-DD')` of a calendar date: zero-padded fields separated by dashes. */
  function FormatDate(year: nat, month: nat, day: nat): string {
    ZeroPad(year, 4) + "-" + ZeroPad(month, 2) + "-" + ZeroPad(day, 2)
  }

  /** A date the client formats is canonical, and the server's period filter reads back
      exactly the month and year it was formatted from (both dialects). */
  lemma {:induction false} FormatDateInPeriod(year: nat, month: nat, day: nat, d: Dialect, m: int, y: int)
    requires year <= 9999 && month <= 99 && day <= 99
    ensures IsCanonicalDate(FormatDate(year, month, day))
    ensures InPeriod(d, FormatDate(year, month, day), m, y) <==> m == month && y == year
  {
    assert Pow10(4) == 10000 && Pow10(2) == 100;
    NatToStringLength(year, 4);
    NatToStringLength(month, 2);
    NatToStringLength(day, 2);
    var ys, ms, ds := ZeroPad(year, 4), ZeroPad(month, 2), ZeroPad(day, 2);
    var s := FormatDate(year, month, day);
    assert s[0..4] == ys && s[5..7] == ms && s[8..10] == ds;
    ZeroPadValue(year, 4);
    ZeroPadValue(month, 2);
    MysqlFieldsOfCanonical(s);
    DialectsAgreeOnCanonical(s, m, y);
  }
}
