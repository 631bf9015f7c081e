/** `POST /api/payroll/generate` (server-sqlite-complete.js:446-475, server.js:343-377):
    one INSERT ... SELECT that prices the month's attendance of every active employee and
    writes one payroll row per (employee_id, month, year). The aggregate is the same in
    both servers; they differ in what happens when the row already exists. */
module PayrollEngine {
  import opened Schema
  import opened Dates

  /** The fixed divisor that prices one day: `salary / 30`, whatever the month's length. */
  const DaysPerMonth: real := 30.0

  /** `WHERE e.role = 'employee' AND e.status = 'active'`. */
  predicate Eligible(e: Employee) {
    e.role == "employee" && e.status == "active"
  }

  /** The keys of one employee's attendance rows in (month, year) with the given status:
      the rows `SUM(CASE WHEN a.status = ... THEN 1 ELSE 0 END)` adds up. */
  function DaysWithStatus(d: Dialect, att: map<AttendanceKey, AttendanceRow>, id: int,
                          month: int, year: int, status: string): nat
  {
    |set k | k in att && att[k].status == status && k.employeeId == id && InPeriod(d, k.date, month, year)|
  }

  /** The four money columns of a payroll row. */
  datatype Money = Money(basic: real, allowances: real, deductions: real, net: real)

  /** The query's columns for a salary and the present and absent day counts: each present
      day adds a day's pay, each absent day takes one away, and net is basic plus
      allowances minus deductions. */
  function Figures(salary: real, present: nat, absent: nat): (f: Money)
    ensures f.basic == salary
    ensures f.allowances == present as real * (salary / DaysPerMonth)
    ensures f.deductions == absent as real * (salary / DaysPerMonth)
    ensures f.net == f.basic + f.allowances - f.deductions
    ensures present == 0 && absent == 0 ==> f == Money(salary, 0.0, 0.0, salary)
    ensures salary > 0.0 ==> (f.net >= salary <==> present >= absent)
  {
    var rate := salary / DaysPerMonth;
    var allowances := present as real * rate;
    var deductions := absent as real * rate;
    assert allowances - deductions == (present as real - absent as real) * rate;
    Money(salary, allowances, deductions, salary + allowances - deductions)
  }

  /** A worked example: 75000 with 20 present and 2 absent days nets 120000. */
  lemma WorkedExample()
    ensures Figures(75000.0, 20, 2) == Money(75000.0, 50000.0, 5000.0, 120000.0)
  {
  }

  /** The figures one employee gets for (month, year). */
  function EmployeeFigures(d: Dialect, e: Employee, att: map<AttendanceKey, AttendanceRow>,
                           month: int, year: int): Money
  {
    Figures(e.salary, DaysWithStatus(d, att, e.id, month, year, "present"),
            DaysWithStatus(d, att, e.id, month, year, "absent"))
  }

  /** An eligible employee with no attendance rows in the period is paid the plain salary. */
  lemma NoAttendanceMeansBasicPay(d: Dialect, e: Employee, att: map<AttendanceKey, AttendanceRow>,
                                  month: int, year: int)
    requires forall k :: k in att && k.employeeId == e.id ==> !InPeriod(d, k.date, month, year)
    ensures EmployeeFigures(d, e, att, month, year) == Money(e.salary, 0.0, 0.0, e.salary)
  {
    var present := set k | k in att && att[k].status == "present" && k.employeeId == e.id && InPeriod(d, k.date, month, year);
    var absent := set k | k in att && att[k].status == "absent" && k.employeeId == e.id && InPeriod(d, k.date, month, year);
    assert present == {} && absent == {};
  }

  /** Adding a row that is not one of the employee's rows with this status in the period
      leaves that day count as it was. */
  lemma DaysUnchangedByOtherRow(d: Dialect, att: map<AttendanceKey, AttendanceRow>, id: int,
                                month: int, year: int, status: string, k: AttendanceKey, row: AttendanceRow)
    requires k !in att
    requires row.status != status || k.employeeId != id || !InPeriod(d, k.date, month, year)
    ensures DaysWithStatus(d, att[k := row], id, month, year, status) == DaysWithStatus(d, att, id, month, year, status)
  {
    var att' := att[k := row];
    var before := set x | x in att && att[x].status == status && x.employeeId == id && InPeriod(d, x.date, month, year);
    var after := set x | x in att' && att'[x].status == status && x.employeeId == id && InPeriod(d, x.date, month, year);
    forall x | x in after ensures x in before {
      assert x != k;
    }
    assert after == before;
  }

  /** Only the employee's own 'present' and 'absent' rows in the period count: a row of
      another employee, of another month or year, or with any other status (late,
      half_day, ...) changes nothing. */
  lemma IrrelevantRowIgnored(d: Dialect, e: Employee, att: map<AttendanceKey, AttendanceRow>,
                             month: int, year: int, k: AttendanceKey, row: AttendanceRow)
    requires k !in att
    requires (row.status != "present" && row.status != "absent") || k.employeeId != e.id || !InPeriod(d, k.date, month, year)
    ensures EmployeeFigures(d, e, att[k := row], month, year) == EmployeeFigures(d, e, att, month, year)
  {
    DaysUnchangedByOtherRow(d, att, e.id, month, year, "present", k, row);
    DaysUnchangedByOtherRow(d, att, e.id, month, year, "absent", k, row);
  }

  /** When every attendance date is in canonical form the two servers compute the same figures. */
  lemma DialectsAgreeOnFigures(e: Employee, att: map<AttendanceKey, AttendanceRow>, month: int, year: int)
    requires forall k :: k in att ==> IsCanonicalDate(k.date)
    ensures EmployeeFigures(Sqlite, e, att, month, year) == EmployeeFigures(Mysql, e, att, month, year)
  {
    forall k | k in att ensures InPeriod(Sqlite, k.date, month, year) == InPeriod(Mysql, k.date, month, year) {
      DialectsAgreeOnCanonical(k.date, month, year);
    }
    assert (set x | x in att && att[x].status == "present" && x.employeeId == e.id && InPeriod(Sqlite, x.date, month, year))
        == (set x | x in att && att[x].status == "present" && x.employeeId == e.id && InPeriod(Mysql, x.date, month, year));
    assert (set x | x in att && att[x].status == "absent" && x.employeeId == e.id && InPeriod(Sqlite, x.date, month, year))
        == (set x | x in att && att[x].status == "absent" && x.employeeId == e.id && InPeriod(Mysql, x.date, month, year));
  }

  /** The payroll table with its AUTOINCREMENT counter: the id the next inserted row gets. */
  datatype PayrollTable = PayrollTable(rows: map<PayrollKey, PayrollRow>, nextId: nat)

  /** Every row's id was drawn from the counter. */
  predicate IdsBelowCounter(t: PayrollTable) {
    forall k :: k in t.rows ==> t.rows[k].id < t.nextId
  }

  function MoneyOf(r: PayrollRow): Money {
    Money(r.basicSalary, r.allowances, r.deductions, r.netSalary)
  }

  /** A freshly inserted row: `status` is the literal 'pending' of the SELECT list. */
  function NewRow(id: nat, f: Money): PayrollRow {
    PayrollRow(id, f.basic, f.allowances, f.deductions, f.net, "pending")
  }

  /** Whether generating (month, year) writes the row at key `k`: the key is in the
      period and belongs to an existing employee who is eligible. */
  predicate Generates(emps: seq<Employee>, month: int, year: int, k: PayrollKey) {
    && k.month == month && k.year == year
    && FindEmployee(emps, k.employeeId).Some?
    && Eligible(FindEmployee(emps, k.employeeId).value)
  }

  /** SQLite, one SELECT row: `INSERT OR REPLACE` deletes a row with the same key and
      inserts a new one with a new id and status 'pending' (server-sqlite-complete.js:451). */
  function ReplaceStep(e: Employee, att: map<AttendanceKey, AttendanceRow>, month: int, year: int,
                       t: PayrollTable): PayrollTable
  {
    if Eligible(e) then
      PayrollTable(t.rows[PayrollKey(e.id, month, year) := NewRow(t.nextId, EmployeeFigures(Sqlite, e, att, month, year))],
                   t.nextId + 1)
    else t
  }

  /** SQLite generation: the SELECT rows, one per employee in id order (`GROUP BY e.id`). */
  function ReplaceAll(emps: seq<Employee>, att: map<AttendanceKey, AttendanceRow>, month: int, year: int,
                      t: PayrollTable): PayrollTable
    decreases |emps|
  {
    if emps == [] then t
    else ReplaceAll(emps[1..], att, month, year, ReplaceStep(emps[0], att, month, year, t))
  }

  /** MySQL, one SELECT row: a new key is inserted as 'pending'; on a duplicate key only the
      four money columns are overwritten (server.js:362-366), the id and status stay. */
  function UpsertStep(e: Employee, att: map<AttendanceKey, AttendanceRow>, month: int, year: int,
                      t: PayrollTable): PayrollTable
  {
    if !Eligible(e) then t
    else
      var key := PayrollKey(e.id, month, year);
      var f := EmployeeFigures(Mysql, e, att, month, year);
      if key in t.rows then
        var old_ := t.rows[key];
        PayrollTable(t.rows[key := old_.(basicSalary := f.basic, allowances := f.allowances,
                                        deductions := f.deductions, netSalary := f.net)], t.nextId)
      else
        PayrollTable(t.rows[key := NewRow(t.nextId, f)], t.nextId + 1)
  }

  /** MySQL generation. */
  function UpsertAll(emps: seq<Employee>, att: map<AttendanceKey, AttendanceRow>, month: int, year: int,
                     t: PayrollTable): PayrollTable
    decreases |emps|
  {
    if emps == [] then t
    else UpsertAll(emps[1..], att, month, year, UpsertStep(emps[0], att, month, year, t))
  }

  /** Splitting the employee list: the first employee decides keys with its id, the
      rest decide every other key. */
  lemma GeneratesTail(emps: seq<Employee>, month: int, year: int, k: PayrollKey)
    requires IdsIncreasing(emps) && emps != []
    ensures k.employeeId == emps[0].id ==>
              (Generates(emps, month, year, k) <==> k == PayrollKey(emps[0].id, month, year) && Eligible(emps[0]))
              && !Generates(emps[1..], month, year, k)
    ensures k.employeeId != emps[0].id ==> (Generates(emps, month, year, k) <==> Generates(emps[1..], month, year, k))
    ensures IdsIncreasing(emps[1..])
  {
    if k.employeeId == emps[0].id {
      assert forall i :: 0 <= i < |emps[1..]| ==> emps[1..][i].id > emps[0].id by {
        forall i | 0 <= i < |emps[1..]| ensures emps[1..][i].id > emps[0].id {
          assert emps[1..][i] == emps[i + 1];
        }
      }
    }
  }

  /** What SQLite generation leaves at any key `k`: a generated key holds a new 'pending'
      row with the employee's figures and a new id; every other row is untouched, and no
      other key is added. */
  lemma {:induction false} ReplaceAllAt(emps: seq<Employee>, att: map<AttendanceKey, AttendanceRow>,
                                        month: int, year: int, t: PayrollTable, k: PayrollKey)
    requires IdsIncreasing(emps)
    ensures var r := ReplaceAll(emps, att, month, year, t);
      && r.nextId >= t.nextId
      && (k in r.rows <==> k in t.rows || Generates(emps, month, year, k))
      && (Generates(emps, month, year, k) ==>
            && MoneyOf(r.rows[k]) == EmployeeFigures(Sqlite, FindEmployee(emps, k.employeeId).value, att, month, year)
            && r.rows[k].status == "pending"
            && t.nextId <= r.rows[k].id < r.nextId)
      && (!Generates(emps, month, year, k) && k in t.rows ==> r.rows[k] == t.rows[k])
    decreases |emps|
  {
    if emps != [] {
      var e := emps[0];
      var t1 := ReplaceStep(e, att, month, year, t);
      GeneratesTail(emps, month, year, k);
      ReplaceAllAt(emps[1..], att, month, year, t1, k);
    }
  }

  /** What MySQL generation leaves at any key `k`: a generated key that already had a row
      keeps that row's id and status and gets the new money columns; a generated key
      without one gets a new 'pending' row; every other row is untouched. */
  lemma {:induction false} UpsertAllAt(emps: seq<Employee>, att: map<AttendanceKey, AttendanceRow>,
                                       month: int, year: int, t: PayrollTable, k: PayrollKey)
    requires IdsIncreasing(emps)
    ensures var r := UpsertAll(emps, att, month, year, t);
      && r.nextId >= t.nextId
      && (k in r.rows <==> k in t.rows || Generates(emps, month, year, k))
      && (Generates(emps, month, year, k) ==>
            MoneyOf(r.rows[k]) == EmployeeFigures(Mysql, FindEmployee(emps, k.employeeId).value, att, month, year))
      && (Generates(emps, month, year, k) && k in t.rows ==>
            r.rows[k].id == t.rows[k].id && r.rows[k].status == t.rows[k].status)
      && (Generates(emps, month, year, k) && k !in t.rows ==>
            r.rows[k].status == "pending" && t.nextId <= r.rows[k].id < r.nextId)
      && (!Generates(emps, month, year, k) && k in t.rows ==> r.rows[k] == t.rows[k])
    decreases |emps|
  {
    if emps != [] {
      var e := emps[0];
      var t1 := UpsertStep(e, att, month, year, t);
      GeneratesTail(emps, month, year, k);
      UpsertAllAt(emps[1..], att, month, year, t1, k);
    }
  }

  /** Both variants keep every row id below the counter. */
  lemma GenerationKeepsIds(emps: seq<Employee>, att: map<AttendanceKey, AttendanceRow>,
                           month: int, year: int, t: PayrollTable)
    requires IdsIncreasing(emps) && IdsBelowCounter(t)
    ensures IdsBelowCounter(ReplaceAll(emps, att, month, year, t))
    ensures IdsBelowCounter(UpsertAll(emps, att, month, year, t))
  {
    forall k | k in ReplaceAll(emps, att, month, year, t).rows
      ensures ReplaceAll(emps, att, month, year, t).rows[k].id < ReplaceAll(emps, att, month, year, t).nextId
    {
      ReplaceAllAt(emps, att, month, year, t, k);
    }
    forall k | k in UpsertAll(emps, att, month, year, t).rows
      ensures UpsertAll(emps, att, month, year, t).rows[k].id < UpsertAll(emps, att, month, year, t).nextId
    {
      UpsertAllAt(emps, att, month, year, t, k);
    }
  }

  /** After generation every eligible employee has exactly one row for the period. */
  lemma EveryEligibleEmployeeHasARow(emps: seq<Employee>, att: map<AttendanceKey, AttendanceRow>,
                                     month: int, year: int, t: PayrollTable, i: nat)
    requires IdsIncreasing(emps) && i < |emps| && Eligible(emps[i])
    ensures PayrollKey(emps[i].id, month, year) in ReplaceAll(emps, att, month, year, t).rows
    ensures PayrollKey(emps[i].id, month, year) in UpsertAll(emps, att, month, year, t).rows
  {
    FindEmployeeAt(emps, i);
    ReplaceAllAt(emps, att, month, year, t, PayrollKey(emps[i].id, month, year));
    UpsertAllAt(emps, att, month, year, t, PayrollKey(emps[i].id, month, year));
  }

  /** Running SQLite generation twice gives the same keys, money columns and status as
      running it once; only the row ids are new again. */
  lemma ReplaceAllIdempotentMoney(emps: seq<Employee>, att: map<AttendanceKey, AttendanceRow>,
                                  month: int, year: int, t: PayrollTable)
    requires IdsIncreasing(emps)
    ensures var once := ReplaceAll(emps, att, month, year, t);
            var twice := ReplaceAll(emps, att, month, year, once);
            && twice.rows.Keys == once.rows.Keys
            && forall k :: k in once.rows ==>
                 MoneyOf(twice.rows[k]) == MoneyOf(once.rows[k]) && twice.rows[k].status == once.rows[k].status
  {
    var once := ReplaceAll(emps, att, month, year, t);
    var twice := ReplaceAll(emps, att, month, year, once);
    forall k
      ensures (k in twice.rows <==> k in once.rows)
      ensures k in once.rows ==> MoneyOf(twice.rows[k]) == MoneyOf(once.rows[k]) && twice.rows[k].status == once.rows[k].status
    {
      ReplaceAllAt(emps, att, month, year, t, k);
      ReplaceAllAt(emps, att, month, year, once, k);
    }
  }

  /** MySQL generation inserts no row when every eligible employee already has a row for
      the period: every statement ends on the update path. */
  lemma {:induction false} UpsertAllNoInsert(emps: seq<Employee>, att: map<AttendanceKey, AttendanceRow>,
                                             month: int, year: int, t: PayrollTable)
    requires forall i :: 0 <= i < |emps| && Eligible(emps[i]) ==> PayrollKey(emps[i].id, month, year) in t.rows
    ensures UpsertAll(emps, att, month, year, t).rows.Keys == t.rows.Keys
    decreases |emps|
  {
    if emps != [] {
      var t1 := UpsertStep(emps[0], att, month, year, t);
      assert t1.rows.Keys == t.rows.Keys;
      assert forall i :: 0 <= i < |emps[1..]| ==> emps[1..][i] == emps[i + 1];
      UpsertAllNoInsert(emps[1..], att, month, year, t1);
    }
  }

  /** Running MySQL generation a second time with unchanged inputs changes no row: same
      keys, and every row keeps its id, status and money. */
  lemma UpsertAllIdempotent(emps: seq<Employee>, att: map<AttendanceKey, AttendanceRow>,
                            month: int, year: int, t: PayrollTable)
    requires IdsIncreasing(emps)
    ensures var once := UpsertAll(emps, att, month, year, t);
            UpsertAll(emps, att, month, year, once).rows == once.rows
  {
    var once := UpsertAll(emps, att, month, year, t);
    var twice := UpsertAll(emps, att, month, year, once);
    forall k
      ensures (k in twice.rows <==> k in once.rows)
      ensures k in once.rows ==> twice.rows[k] == once.rows[k]
    {
      UpsertAllAt(emps, att, month, year, t, k);
      UpsertAllAt(emps, att, month, year, once, k);
    }
  }

  /** The two servers part ways on a row that already exists for a generated key: SQLite
      replaces it by a new 'pending' row with a new id, so a 'paid' row goes back to
      'pending'; MySQL keeps its id and status. With canonical dates both write the same
      money columns. */
  lemma VariantsDifferOnExistingRow(emps: seq<Employee>, att: map<AttendanceKey, AttendanceRow>,
                                    month: int, year: int, t: PayrollTable, k: PayrollKey)
    requires IdsIncreasing(emps) && IdsBelowCounter(t)
    requires Generates(emps, month, year, k) && k in t.rows
    requires forall a :: a in att ==> IsCanonicalDate(a.date)
    ensures var s := ReplaceAll(emps, att, month, year, t);
            var q := UpsertAll(emps, att, month, year, t);
            && k in s.rows && k in q.rows
            && s.rows[k].status == "pending" && s.rows[k].id != t.rows[k].id
            && q.rows[k].status == t.rows[k].status && q.rows[k].id == t.rows[k].id
            && MoneyOf(s.rows[k]) == MoneyOf(q.rows[k])
  {
    ReplaceAllAt(emps, att, month, year, t, k);
    UpsertAllAt(emps, att, month, year, t, k);
    DialectsAgreeOnFigures(FindEmployee(emps, k.employeeId).value, att, month, year);
  }
}
