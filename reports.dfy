/** The admin Reports page (client/src/components/admin/Reports.tsx): the CSV download,
    the bar-chart and pie-chart data, and the download's file name. */
module Reports {
  import opened Text
  import opened Tally
  import opened Schema
  import opened Routes

  /** A JSON value as `convertToCSV` tells them apart: a string; any other value, with
      the text `Array.join` renders it as; or `null`/`undefined`, which join renders as
      the empty string. */
  datatype Value = Str(s: string) | Scalar(text: string) | Absent

  /** A JSON object: its properties in `Object.keys` order. */
  type Row = seq<(string, Value)>

  /** `Object.keys(row)`. */
  function Keys(row: Row): (ks: seq<string>)
    ensures |ks| == |row| && forall j :: 0 <= j < |row| ==> ks[j] == row[j].0
  {
    seq(|row|, j requires 0 <= j < |row| => row[j].0)
  }

  /** `row[key]`: the value of the property with that name, `undefined` when there is none. */
  function Lookup(row: Row, key: string): Value {
    if row == [] then Absent
    else if row[0].0 == key then row[0].1
    else Lookup(row[1..], key)
  }

  /** ``typeof value === 'string' ? `"${value}"` : value``, as the join renders it:
      a string is wrapped in double quotes with nothing escaped. */
  function Cell(v: Value): string {
    match v
    case Str(s) => "\"" + s + "\""
    case Scalar(t) => t
    case Absent => ""
  }

  /** `headers.map(header => ...)`: one cell per header, in header order. */
  function Cells(headers: seq<string>, row: Row): (cs: seq<string>)
    ensures |cs| == |headers|
    ensures forall j :: 0 <= j < |headers| ==> cs[j] == Cell(Lookup(row, headers[j]))
  {
    seq(|headers|, j requires 0 <= j < |headers| => Cell(Lookup(row, headers[j])))
  }

  /** `csvRows`: the header line (the keys of the first row), then one line per row. */
  function CsvRows(data: seq<Row>): (rows: seq<string>)
    requires data != []
    ensures |rows| == |data| + 1
    ensures rows[0] == Join(Keys(data[0]), ",")
    ensures forall i :: 0 <= i < |data| ==> rows[i + 1] == Join(Cells(Keys(data[0]), data[i]), ",")
  {
    var headers := Keys(data[0]);
    [Join(headers, ",")] + seq(|data|, i requires 0 <= i < |data| => Join(Cells(headers, data[i]), ","))
  }

  /** `convertToCSV`: the empty string for no data, else the lines of `CsvRows` joined
      by newlines. */
  method ConvertToCsv(data: seq<Row>) returns (csv: string)
    ensures data == [] ==> csv == ""
    ensures data != [] ==> csv == Join(CsvRows(data), "\n")
  {
    if |data| == 0 {
      return "";
    }
    var headers := Keys(data[0]);
    var csvRows := [Join(headers, ",")];
    var i := 0;
    while i < |data|
      invariant 0 <= i <= |data|
      invariant |csvRows| == i + 1 && csvRows[0] == Join(headers, ",")
      invariant forall j :: 0 <= j < i ==> csvRows[j + 1] == Join(Cells(headers, data[j]), ",")
    {
      var values := Cells(headers, data[i]);
      csvRows := csvRows + [Join(values, ",")];
      i := i + 1;
    }
    assert csvRows == CsvRows(data);
    csv := Join(csvRows, "\n");
  }

  /** A value whose text holds no comma and no newline. */
  predicate PlainValue(v: Value) {
    match v
    case Str(s) => ',' !in s && '\n' !in s
    case Scalar(t) => ',' !in t && '\n' !in t
    case Absent => true
  }

  predicate PlainRow(row: Row) {
    forall j :: 0 <= j < |row| ==> ',' !in row[j].0 && '\n' !in row[j].0 && PlainValue(row[j].1)
  }

  lemma {:induction false} LookupPlain(row: Row, key: string)
    requires PlainRow(row)
    ensures PlainValue(Lookup(row, key))
    decreases |row|
  {
    if row != [] && row[0].0 != key {
      assert forall j :: 1 <= j < |row| ==> row[1..][j - 1] == row[j];
      LookupPlain(row[1..], key);
    }
  }

  lemma CellsPlain(headers: seq<string>, row: Row)
    requires PlainRow(row)
    ensures forall j :: 0 <= j < |headers| ==> ',' !in Cells(headers, row)[j] && '\n' !in Cells(headers, row)[j]
  {
    forall j | 0 <= j < |headers|
      ensures ',' !in Cells(headers, row)[j] && '\n' !in Cells(headers, row)[j]
    {
      LookupPlain(row, headers[j]);
    }
  }

  /** When no key or value holds a comma or a newline, the CSV reads back: splitting on
      newlines gives the lines, the first line splits into the headers, and each other
      line into its row's cells in header order. */
  lemma CsvReadsBack(data: seq<Row>)
    requires data != [] && data[0] != []
    requires forall i :: 0 <= i < |data| ==> PlainRow(data[i])
    ensures Split(Join(CsvRows(data), "\n"), '\n') == CsvRows(data)
    ensures Split(CsvRows(data)[0], ',') == Keys(data[0])
    ensures forall i :: 0 <= i < |data| ==>
              Split(CsvRows(data)[i + 1], ',') == Cells(Keys(data[0]), data[i])
  {
    var headers := Keys(data[0]);
    var rows := CsvRows(data);
    SplitJoin(headers, ',');
    JoinAvoids(headers, ",", '\n');
    forall i | 0 <= i < |data|
      ensures Split(rows[i + 1], ',') == Cells(headers, data[i])
      ensures '\n' !in rows[i + 1]
    {
      CellsPlain(headers, data[i]);
      if |headers| >= 1 {
        SplitJoin(Cells(headers, data[i]), ',');
      }
      JoinAvoids(Cells(headers, data[i]), ",", '\n');
    }
    assert forall k :: 0 <= k < |rows| ==> '\n' !in rows[k] by {
      forall k | 0 <= k < |rows| ensures '\n' !in rows[k] {
        if k > 0 {
          assert rows[k] == rows[(k - 1) + 1];
        }
      }
    }
    SplitJoin(rows, '\n');
  }

  /** A one-row table with a single string property: the header line is the key, the
      data line the quoted value. */
  lemma CsvOfOneStringField(key: string, v: string)
    ensures CsvRows([[(key, Str(v))]]) == [key, "\"" + v + "\""]
  {
    var data := [[(key, Str(v))]];
    assert Keys(data[0]) == [key];
    assert Lookup(data[0], key) == Str(v);
    assert Cells([key], data[0]) == [Cell(Str(v))];
  }

  /** Two comma-free fields around one comma split into those two fields. */
  lemma SplitsAtComma(a: string, b: string)
    requires ',' !in a && ',' !in b
    ensures Split(a + "," + b, ',') == [a, b]
  {
    assert a + "," + b == a + [','] + b;
    SplitAfterField(a, ',', b);
    SplitNoSeparator(b, ',');
  }

  /** Nothing is escaped: a string value holding a comma spills over into two fields. */
  lemma CommaInValueSpillsOver()
    ensures CsvRows([[("name", Str("Doe, John"))]]) == ["name", "\"Doe, John\""]
    ensures Split("\"Doe, John\"", ',') == ["\"Doe", " John\""]
  {
    CsvOfOneStringField("name", "Doe, John");
    assert "\"" + "Doe, John" + "\"" == "\"Doe, John\"";
    SplitsAtComma("\"Doe", " John\"");
    assert "\"Doe" + "," + " John\"" == "\"Doe, John\"";
  }

  /** A line of the attendance report as the JSON object the route sends (columns in
      SELECT order). */
  function AttendanceJson(l: AttendanceLine): Row {
    [("name", Str(l.name)), ("department", Str(l.department)),
     ("present_days", Scalar(NatToString(l.presentDays))),
     ("absent_days", Scalar(NatToString(l.absentDays))),
     ("late_days", Scalar(NatToString(l.lateDays)))]
  }

  /** The columns of the attendance report, in SELECT order. */
  const AttendanceColumns: seq<string> := ["name", "department", "present_days", "absent_days", "late_days"]

  /** The attendance CSV starts with the report's column names, and its header line
      splits back into exactly those columns. */
  lemma AttendanceCsvHeader(l: AttendanceLine, rest: seq<Row>)
    ensures CsvRows([AttendanceJson(l)] + rest)[0] == Join(AttendanceColumns, ",")
    ensures Split(CsvRows([AttendanceJson(l)] + rest)[0], ',') == AttendanceColumns
  {
    assert ([AttendanceJson(l)] + rest)[0] == AttendanceJson(l);
    assert Keys(AttendanceJson(l)) == AttendanceColumns;
    SplitJoin(AttendanceColumns, ',');
  }

  /** `${reportType}_report.csv`. */
  function ReportFileName(reportType: string): string {
    reportType + "_report.csv"
  }

  /** Different report types download under different names. */
  lemma ReportFileNameInjective(a: string, b: string)
    requires ReportFileName(a) == ReportFileName(b)
    ensures a == b
  {
    assert a == ReportFileName(a)[..|a|];
    assert b == ReportFileName(b)[..|b|];
  }

  /** A bar of the chart: per employee the three day counts, or the net salary. */
  datatype ChartPoint =
    | AttendancePoint(name: string, present: nat, absent: nat, late: nat)
    | SalaryPoint(name: string, salary: real)

  /** `chartData`: one point per report line, in the same order. */
  function ChartData(reportType: string, att: seq<AttendanceLine>, pay: seq<PayrollLine>): (r: seq<ChartPoint>)
    ensures reportType == "attendance" ==> |r| == |att| && forall i :: 0 <= i < |att| ==>
              r[i] == AttendancePoint(att[i].name, att[i].presentDays, att[i].absentDays, att[i].lateDays)
    ensures reportType != "attendance" ==> |r| == |pay| && forall i :: 0 <= i < |pay| ==>
              r[i] == SalaryPoint(pay[i].name, pay[i].netSalary)
  {
    if reportType == "attendance" then
      seq(|att|, i requires 0 <= i < |att| => AttendancePoint(att[i].name, att[i].presentDays, att[i].absentDays, att[i].lateDays))
    else
      seq(|pay|, i requires 0 <= i < |pay| => SalaryPoint(pay[i].name, pay[i].netSalary))
  }

  datatype Slice = Slice(name: string, value: int)

  function PresentDays(l: AttendanceLine): int { l.presentDays }
  function AbsentDays(l: AttendanceLine): int { l.absentDays }
  function LateDays(l: AttendanceLine): int { l.lateDays }
  function LineTotal(l: AttendanceLine): int { l.presentDays + l.absentDays + l.lateDays }

  /** `pieData`: Present, Absent and Late slices summing the report's columns; no
      slices for the payroll report. */
  function PieData(reportType: string, att: seq<AttendanceLine>): (r: seq<Slice>)
    ensures reportType != "attendance" ==> r == []
    ensures reportType == "attendance" ==>
              r == [Slice("Present", SumInt(att, PresentDays)), Slice("Absent", SumInt(att, AbsentDays)),
                    Slice("Late", SumInt(att, LateDays))]
  {
    if reportType == "attendance" then
      [Slice("Present", SumInt(att, PresentDays)), Slice("Absent", SumInt(att, AbsentDays)),
       Slice("Late", SumInt(att, LateDays))]
    else []
  }

  /** The three slices are never negative and together make up every counted day. */
  lemma PieTotal(att: seq<AttendanceLine>)
    ensures var p := PieData("attendance", att);
            && p[0].value >= 0 && p[1].value >= 0 && p[2].value >= 0
            && p[0].value + p[1].value + p[2].value == SumInt(att, LineTotal)
  {
    SumIntNonNegative(att, PresentDays);
    SumIntNonNegative(att, AbsentDays);
    SumIntNonNegative(att, LateDays);
    SumInt3(att, PresentDays, AbsentDays, LateDays, LineTotal);
  }

  /** For a one-day attendance report the pie counts at most one day per staff member. */
  lemma {:induction false} SingleDayPieBound(emps: seq<Employee>, att: map<AttendanceKey, AttendanceRow>, day: string)
    ensures SumInt(AttendanceLines(emps, att, day, day), LineTotal) <= Count(emps, IsStaff)
    decreases |emps|
  {
    if emps != [] {
      SingleDayPieBound(emps[1..], att, day);
      var rest := AttendanceLines(emps[1..], att, day, day);
      var lines := AttendanceLines(emps, att, day, day);
      if IsStaff(emps[0]) {
        AttendanceLineBound(emps[0], att, day, day);
        assert LineOf(att, day, day)(emps[0]) == AttendanceLineOf(emps[0], att, day, day);
        assert lines == [AttendanceLineOf(emps[0], att, day, day)] + rest;
        assert lines[1..] == rest;
      } else {
        assert lines == [] + rest;
        assert lines == rest;
      }
    }
  }
}
