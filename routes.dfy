/** The read-only routes, as pure queries over the tables: the caller-scoped
    `GET /api/attendance`, `GET /api/leaves` and `GET /api/payroll`, and `GET /api/reports`
    (server-sqlite-complete.js:342-366, 383-401, 419-444, 478-518; server.js:239-263,
    280-298, 316-341, 380-420). A result set is returned as the set of keys of the rows it
    holds, or in storage order where the table is a list; `ORDER BY` is not modelled. */
module Routes {
  import opened Schema
  import opened Sql
  import opened Tally

  datatype Response = Response(code: nat, message: string)

  // ---------------------------------------------------------------- attendance

  /** The query parameters of `GET /api/attendance`; `employeeId` is None when the
      parameter is missing or empty (falsy). */
  datatype AttendanceFilter = AttendanceFilter(employeeId: Option<int>, startDate: string, endDate: string)

  /** An admin sees every row in the date range whose employee exists (the inner join),
      narrowed to one employee when the filter names one; anyone else sees only their
      own rows in the range, and the employee filter is ignored. */
  function AttendanceQuery(emps: seq<Employee>, att: map<AttendanceKey, AttendanceRow>,
                           caller: Caller, f: AttendanceFilter): (r: set<AttendanceKey>)
    ensures r <= att.Keys
    ensures forall k :: k in r ==> Between(k.date, f.startDate, f.endDate)
    ensures !IsAdmin(caller) ==> forall k :: k in r ==> k.employeeId == caller.id
    ensures IsAdmin(caller) ==> forall k :: k in r ==> FindEmployee(emps, k.employeeId).Some?
    ensures IsAdmin(caller) && f.employeeId.Some? ==> forall k :: k in r ==> k.employeeId == f.employeeId.value
    ensures IsAdmin(caller) ==>
              forall k :: (&& k in att && FindEmployee(emps, k.employeeId).Some?
                           && Between(k.date, f.startDate, f.endDate)
                           && (f.employeeId.None? || k.employeeId == f.employeeId.value)) ==> k in r
    ensures !IsAdmin(caller) ==>
              forall k :: k in att && k.employeeId == caller.id && Between(k.date, f.startDate, f.endDate) ==> k in r
  {
    if IsAdmin(caller) then
      set k | k in att && FindEmployee(emps, k.employeeId).Some?
                       && (f.employeeId.None? || k.employeeId == f.employeeId.value)
                       && Between(k.date, f.startDate, f.endDate)
    else
      set k | k in att && k.employeeId == caller.id && Between(k.date, f.startDate, f.endDate)
  }

  /** A non-admin gets all of their own rows in the range, and the same rows whatever
      employee filter they send. */
  lemma AttendanceQueryOwnRows(emps: seq<Employee>, att: map<AttendanceKey, AttendanceRow>,
                               caller: Caller, f: AttendanceFilter, other: Option<int>, k: AttendanceKey)
    requires !IsAdmin(caller)
    ensures AttendanceQuery(emps, att, caller, f) == AttendanceQuery(emps, att, caller, f.(employeeId := other))
    ensures k in att && k.employeeId == caller.id && Between(k.date, f.startDate, f.endDate) ==>
              k in AttendanceQuery(emps, att, caller, f)
  {
  }

  /** A one-day range returns at most one row per employee, because `(employee_id,
      date)` is unique and `BETWEEN d AND d` matches only `d`. */
  lemma AttendanceSingleDay(emps: seq<Employee>, att: map<AttendanceKey, AttendanceRow>,
                            caller: Caller, id: int, day: string)
    ensures forall k :: k in AttendanceQuery(emps, att, caller, AttendanceFilter(Some(id), day, day)) ==> k.date == day
    ensures IsAdmin(caller) || caller.id == id ==>
              AttendanceQuery(emps, att, caller, AttendanceFilter(Some(id), day, day)) <= {AttendanceKey(id, day)}
  {
    forall k | k in AttendanceQuery(emps, att, caller, AttendanceFilter(Some(id), day, day))
      ensures k.date == day
    {
      BetweenSameDay(k.date, day);
    }
  }

  // ---------------------------------------------------------------- leaves

  /** The rows of `GET /api/leaves` a caller sees. */
  predicate LeaveVisible(emps: seq<Employee>, caller: Caller, l: Leave) {
    if IsAdmin(caller) then FindEmployee(emps, l.employeeId).Some? else l.employeeId == caller.id
  }

  function LeavesQuery(emps: seq<Employee>, leaves: seq<Leave>, caller: Caller): (r: seq<Leave>)
    ensures |r| <= |leaves|
    ensures forall l :: l in r <==> l in leaves && LeaveVisible(emps, caller, l)
  {
    if leaves == [] then []
    else
      var rest := LeavesQuery(emps, leaves[1..], caller);
      assert forall l :: l in leaves <==> l == leaves[0] || l in leaves[1..];
      if LeaveVisible(emps, caller, leaves[0]) then [leaves[0]] + rest else rest
  }

  /** A non-admin sees exactly their own leave requests. */
  lemma LeavesQueryOwn(emps: seq<Employee>, leaves: seq<Leave>, caller: Caller)
    requires !IsAdmin(caller)
    ensures forall l :: l in LeavesQuery(emps, leaves, caller) <==> l in leaves && l.employeeId == caller.id
  {
  }

  // ---------------------------------------------------------------- payroll

  /** `GET /api/payroll?month&year`: the period's rows, of existing employees for an
      admin, and of the caller only for anyone else. */
  function PayrollQuery(emps: seq<Employee>, rows: map<PayrollKey, PayrollRow>, caller: Caller,
                        month: int, year: int): (r: set<PayrollKey>)
    ensures r <= rows.Keys
    ensures forall k :: k in r ==> k.month == month && k.year == year
    ensures !IsAdmin(caller) ==> r <= {PayrollKey(caller.id, month, year)}
    ensures !IsAdmin(caller) ==> (r == {} <==> PayrollKey(caller.id, month, year) !in rows)
    ensures IsAdmin(caller) ==> forall k :: k in r ==> FindEmployee(emps, k.employeeId).Some?
    ensures IsAdmin(caller) ==>
              forall k :: k in rows && FindEmployee(emps, k.employeeId).Some? && k.month == month && k.year == year ==> k in r
  {
    if IsAdmin(caller) then
      set k | k in rows && FindEmployee(emps, k.employeeId).Some? && k.month == month && k.year == year
    else
      var r := set k | k in rows && k.employeeId == caller.id && k.month == month && k.year == year;
      assert PayrollKey(caller.id, month, year) in rows ==> PayrollKey(caller.id, month, year) in r;
      r
  }

  // ---------------------------------------------------------------- reports

  /** The query parameters of `GET /api/reports`. */
  datatype ReportRequest = ReportRequest(reportType: string, startDate: string, endDate: string, month: int, year: int)

  /** One line of the attendance report: `present_days`, `absent_days`, `late_days`. */
  datatype AttendanceLine = AttendanceLine(name: string, department: string, presentDays: nat, absentDays: nat, lateDays: nat)

  /** One line of the payroll report. */
  datatype PayrollLine = PayrollLine(name: string, department: string, month: int, year: int,
                                     basicSalary: real, allowances: real, deductions: real, netSalary: real)

  datatype Report =
    | AttendanceReport(attendanceLines: seq<AttendanceLine>)
    | PayrollReport(payrollLines: seq<PayrollLine>)
    | Refused(response: Response)

  /** `WHERE e.role = 'employee'`: the attendance report has no status filter. */
  predicate IsStaff(e: Employee) {
    e.role == "employee"
  }

  /** `COUNT(CASE WHEN a.status = ... THEN 1 END)` over the rows joined on
      `a.date BETWEEN start AND end`. */
  function DaysInRange(att: map<AttendanceKey, AttendanceRow>, id: int, startDate: string, endDate: string,
                       status: string): nat
  {
    |set k | k in att && att[k].status == status && k.employeeId == id && Between(k.date, startDate, endDate)|
  }

  function AttendanceLineOf(e: Employee, att: map<AttendanceKey, AttendanceRow>, startDate: string, endDate: string): AttendanceLine {
    AttendanceLine(e.name, e.department,
                   DaysInRange(att, e.id, startDate, endDate, "present"),
                   DaysInRange(att, e.id, startDate, endDate, "absent"),
                   DaysInRange(att, e.id, startDate, endDate, "late"))
  }

  /** The report line of an employee over a date range. */
  function LineOf(att: map<AttendanceKey, AttendanceRow>, startDate: string, endDate: string): Employee -> AttendanceLine {
    e => AttendanceLineOf(e, att, startDate, endDate)
  }

  /** One line per staff member, in id order (`GROUP BY e.id`), zeros included. */
  function AttendanceLines(emps: seq<Employee>, att: map<AttendanceKey, AttendanceRow>,
                           startDate: string, endDate: string): (r: seq<AttendanceLine>)
    ensures |r| == Count(emps, IsStaff)
  {
    FilterMap(emps, IsStaff, LineOf(att, startDate, endDate))
  }

  /** The line of the staff member at position `i` of the employee list sits after the
      lines of the staff members before it. */
  lemma AttendanceLinesAt(emps: seq<Employee>, att: map<AttendanceKey, AttendanceRow>,
                          startDate: string, endDate: string, i: nat)
    requires i < |emps| && IsStaff(emps[i])
    ensures Count(emps[..i], IsStaff) < |AttendanceLines(emps, att, startDate, endDate)|
    ensures AttendanceLines(emps, att, startDate, endDate)[Count(emps[..i], IsStaff)]
            == AttendanceLineOf(emps[i], att, startDate, endDate)
  {
    FilterMapAt(emps, IsStaff, LineOf(att, startDate, endDate), i);
  }

  /** The three day counts of a line never exceed the rows in the range, since the
      statuses are distinct; a one-day range gives at most one day in total. */
  lemma AttendanceLineBound(e: Employee, att: map<AttendanceKey, AttendanceRow>, startDate: string, endDate: string)
    ensures var l := AttendanceLineOf(e, att, startDate, endDate);
            l.presentDays + l.absentDays + l.lateDays <= |RowsInRange(att, e.id, startDate, endDate)|
    ensures startDate == endDate ==>
              var l := AttendanceLineOf(e, att, startDate, endDate);
              l.presentDays + l.absentDays + l.lateDays <= 1
  {
    var all := RowsInRange(att, e.id, startDate, endDate);
    var p := set k | k in att && att[k].status == "present" && k.employeeId == e.id && Between(k.date, startDate, endDate);
    var a := set k | k in att && att[k].status == "absent" && k.employeeId == e.id && Between(k.date, startDate, endDate);
    var t := set k | k in att && att[k].status == "late" && k.employeeId == e.id && Between(k.date, startDate, endDate);
    ThreeDisjointBound(p, a, t, all);
    if startDate == endDate {
      SingleDayRows(att, e.id, startDate);
    }
  }

  /** An employee's attendance keys in a date range. */
  function RowsInRange(att: map<AttendanceKey, AttendanceRow>, id: int, startDate: string, endDate: string): set<AttendanceKey> {
    set k | k in att && k.employeeId == id && Between(k.date, startDate, endDate)
  }

  /** A one-day range holds at most one of an employee's rows, since (employee, date) is the key. */
  lemma SingleDayRows(att: map<AttendanceKey, AttendanceRow>, id: int, day: string)
    ensures |RowsInRange(att, id, day, day)| <= 1
  {
    var all := RowsInRange(att, id, day, day);
    forall k | k in all ensures k == AttendanceKey(id, day) {
      BetweenSameDay(k.date, day);
    }
    SubsetCardinality(all, {AttendanceKey(id, day)});
  }

  lemma ThreeDisjointBound<T>(p: set<T>, a: set<T>, t: set<T>, all: set<T>)
    requires p <= all && a <= all && t <= all
    requires p * a == {} && p * t == {} && a * t == {}
    ensures |p| + |a| + |t| <= |all|
  {
    assert |p + a| == |p| + |a|;
    assert (p + a) * t == {};
    assert |p + a + t| == |p + a| + |t|;
    SubsetCardinality(p + a + t, all);
  }

  lemma SubsetCardinality<T>(a: set<T>, b: set<T>)
    requires a <= b
    ensures |a| <= |b|
  {
    assert b == a + (b - a);
  }

  /** Whether the employee has a payroll row for (month, year): `JOIN employees e ON
      p.employee_id = e.id WHERE p.month = ? AND p.year = ?`. */
  function HasPeriodRow(rows: map<PayrollKey, PayrollRow>, month: int, year: int): Employee -> bool {
    (e: Employee) => PayrollKey(e.id, month, year) in rows
  }

  /** The report line of one joined row: the employee's name and department and the
      row's period and four money columns. */
  function PayrollLineOf(e: Employee, p: PayrollRow, month: int, year: int): PayrollLine {
    PayrollLine(e.name, e.department, month, year, p.basicSalary, p.allowances, p.deductions, p.netSalary)
  }

  /** One line per payroll row of the period whose employee exists, in employee order:
      as many lines as employees with a row for the period. */
  function PayrollLines(emps: seq<Employee>, rows: map<PayrollKey, PayrollRow>, month: int, year: int): (r: seq<PayrollLine>)
    ensures |r| == Count(emps, HasPeriodRow(rows, month, year)) && |r| <= |emps|
    ensures forall i :: 0 <= i < |r| ==> r[i].month == month && r[i].year == year
  {
    if emps == [] then []
    else
      var e := emps[0];
      var key := PayrollKey(e.id, month, year);
      var rest := PayrollLines(emps[1..], rows, month, year);
      if key in rows then [PayrollLineOf(e, rows[key], month, year)] + rest
      else rest
  }

  /** The line of the employee at position `i`, when it has a row for the period, sits
      after the lines of the employees before it that have one, and carries that
      employee's name and department and that row's money. */
  lemma {:induction false} PayrollLinesAt(emps: seq<Employee>, rows: map<PayrollKey, PayrollRow>,
                                          month: int, year: int, i: nat)
    requires i < |emps| && PayrollKey(emps[i].id, month, year) in rows
    ensures var c := Count(emps[..i], HasPeriodRow(rows, month, year));
            var r := PayrollLines(emps, rows, month, year);
            c < |r| && r[c] == PayrollLineOf(emps[i], rows[PayrollKey(emps[i].id, month, year)], month, year)
    decreases i
  {
    var has := HasPeriodRow(rows, month, year);
    if i == 0 {
      assert emps[..0] == [];
    } else {
      var tail := emps[1..];
      assert tail[i - 1] == emps[i];
      CountPrefixCons(emps, i, has);
      PayrollLinesAt(tail, rows, month, year, i - 1);
      var c := Count(tail[..i - 1], has);
      var rest := PayrollLines(tail, rows, month, year);
      if has(emps[0]) {
        var first := PayrollLineOf(emps[0], rows[PayrollKey(emps[0].id, month, year)], month, year);
        assert PayrollLines(emps, rows, month, year) == [first] + rest;
        assert ([first] + rest)[c + 1] == rest[c];
      } else {
        assert PayrollLines(emps, rows, month, year) == rest;
      }
    }
  }

  /** Every payroll row of the period whose employee exists appears on the report, with
      that employee's name and department. */
  lemma PayrollLinesComplete(emps: seq<Employee>, rows: map<PayrollKey, PayrollRow>, month: int, year: int,
                             k: PayrollKey)
    requires k in rows && k.month == month && k.year == year && IndexOfId(emps, k.employeeId).Some?
    ensures var r := PayrollLines(emps, rows, month, year);
            exists j :: 0 <= j < |r| && r[j] == PayrollLineOf(emps[IndexOfId(emps, k.employeeId).value], rows[k], month, year)
  {
    var i := IndexOfId(emps, k.employeeId).value;
    assert k == PayrollKey(emps[i].id, month, year);
    PayrollLinesAt(emps, rows, month, year, i);
  }

  /** Every line of the report is the line of some employee and its row for the period. */
  lemma {:induction false} PayrollLinesSound(emps: seq<Employee>, rows: map<PayrollKey, PayrollRow>,
                                             month: int, year: int, j: nat)
    requires j < |PayrollLines(emps, rows, month, year)|
    ensures exists i :: 0 <= i < |emps| && PayrollKey(emps[i].id, month, year) in rows
                        && PayrollLines(emps, rows, month, year)[j]
                           == PayrollLineOf(emps[i], rows[PayrollKey(emps[i].id, month, year)], month, year)
    decreases |emps|
  {
    var r := PayrollLines(emps, rows, month, year);
    var tail := emps[1..];
    var rest := PayrollLines(tail, rows, month, year);
    var key := PayrollKey(emps[0].id, month, year);
    if key in rows {
      assert r == [PayrollLineOf(emps[0], rows[key], month, year)] + rest;
      if j > 0 {
        PayrollLinesSound(tail, rows, month, year, j - 1);
        var i :| 0 <= i < |tail| && PayrollKey(tail[i].id, month, year) in rows
                 && rest[j - 1] == PayrollLineOf(tail[i], rows[PayrollKey(tail[i].id, month, year)], month, year);
        assert emps[i + 1] == tail[i] && r[j] == rest[j - 1];
      }
    } else {
      assert r == rest;
      PayrollLinesSound(tail, rows, month, year, j);
      var i :| 0 <= i < |tail| && PayrollKey(tail[i].id, month, year) in rows
               && rest[j] == PayrollLineOf(tail[i], rows[PayrollKey(tail[i].id, month, year)], month, year);
      assert emps[i + 1] == tail[i];
    }
  }

  /** `switch (type)`: only 'attendance' and 'payroll' are reports. */
  function RunReport(emps: seq<Employee>, att: map<AttendanceKey, AttendanceRow>,
                     rows: map<PayrollKey, PayrollRow>, q: ReportRequest): (r: Report)
    ensures r.Refused? <==> q.reportType != "attendance" && q.reportType != "payroll"
    ensures r.Refused? ==> r.response == Response(400, "Invalid report type")
    ensures q.reportType == "attendance" ==> r.AttendanceReport? && |r.attendanceLines| == Count(emps, IsStaff)
    ensures q.reportType == "payroll" ==>
              r.PayrollReport? && |r.payrollLines| == Count(emps, HasPeriodRow(rows, q.month, q.year))
    ensures q.reportType == "payroll" ==>
              (r.PayrollReport? && forall i :: 0 <= i < |r.payrollLines| ==> r.payrollLines[i].month == q.month && r.payrollLines[i].year == q.year)
  {
    if q.reportType == "attendance" then AttendanceReport(AttendanceLines(emps, att, q.startDate, q.endDate))
    else if q.reportType == "payroll" then PayrollReport(PayrollLines(emps, rows, q.month, q.year))
    else Refused(Response(400, "Invalid report type"))
  }
}
