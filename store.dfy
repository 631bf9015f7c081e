/** The database both servers keep, as one in-memory store, and the routes that change
    it: seeding, employee create/update/delete, attendance recording, leave create and
    update, and payroll generation. Two variants are given where the servers differ: the
    attendance upsert and payroll generation. The read-only routes are methods that
    change nothing and return the queries of module Routes over the store's fields. */
module Store {
  import opened Schema
  import opened Access
  import opened PayrollEngine
  import opened Routes

  /** The body of `POST /api/employees`. */
  datatype NewEmployeeRequest = NewEmployeeRequest(
    name: string, email: string, password: string, department: string, position: string,
    salary: real, hireDate: string)

  /** `!name || !email || !password || !department || !position || !salary` fails: every
      required field is truthy. A salary of 0 is falsy; `hire_date` is not checked. */
  predicate RequiredFieldsPresent(q: NewEmployeeRequest) {
    q.name != "" && q.email != "" && q.password != "" && q.department != ""
    && q.position != "" && q.salary != 0.0
  }

  /** The inserted row: role is always 'employee'; status takes its default 'active'. */
  function NewEmployee(id: nat, q: NewEmployeeRequest): Employee {
    Employee(id, q.name, q.email, q.department, q.position, q.salary, q.hireDate, "employee", "active")
  }

  /** The body of `PUT /api/employees/:id`. */
  datatype EmployeeChanges = EmployeeChanges(
    name: string, email: string, department: string, position: string, salary: real, status: string)

  /** `UPDATE employees SET name, email, department, position, salary, status`: the id,
      role and hire date stay. */
  function ApplyChanges(e: Employee, u: EmployeeChanges): Employee {
    e.(name := u.name, email := u.email, department := u.department, position := u.position,
       salary := u.salary, status := u.status)
  }

  /** The body of `POST /api/attendance`. */
  datatype AttendanceEntry = AttendanceEntry(employeeId: int, date: string, checkIn: string, checkOut: string, status: string)

  /** The body of `POST /api/leaves`. */
  datatype LeaveRequest = LeaveRequest(employeeId: int, startDate: string, endDate: string, reason: string, leaveType: string)

  /** The five sample rows seeded into an empty employees table, the first with the
      given id (server-sqlite-complete.js:129-135). */
  function SampleEmployees(firstId: nat): (r: seq<Employee>)
    ensures |r| == 5 && IdsIncreasing(r) && UniqueEmails(r)
    ensures forall i :: 0 <= i < 5 ==> r[i].id == firstId + i && r[i].status == "active"
    ensures r[0].role == "admin" && forall i :: 1 <= i < 5 ==> r[i].role == "employee"
  {
    [ Employee(firstId, "Admin User", "admin@payroll.com", "IT", "System Administrator", 100000.0, "2024-01-01", "admin", "active"),
      Employee(firstId + 1, "John Doe", "john.doe@company.com", "Engineering", "Software Developer", 75000.0, "2024-01-15", "employee", "active"),
      Employee(firstId + 2, "Jane Smith", "jane.smith@company.com", "Marketing", "Marketing Manager", 65000.0, "2024-02-01", "employee", "active"),
      Employee(firstId + 3, "Mike Johnson", "mike.johnson@company.com", "HR", "HR Specialist", 55000.0, "2024-02-15", "employee", "active"),
      Employee(firstId + 4, "Sarah Wilson", "sarah.wilson@company.com", "Finance", "Accountant", 60000.0, "2024-03-01", "employee", "active") ]
  }

  /** `UPDATE leaves SET status = ? WHERE id = ?`, whatever the current status. */
  function SetLeaveStatus(leaves: seq<Leave>, id: int, status: string): (r: seq<Leave>)
    ensures |r| == |leaves|
    ensures forall i :: 0 <= i < |r| ==>
              r[i] == if leaves[i].id == id then leaves[i].(status := status) else leaves[i]
  {
    if leaves == [] then []
    else
      var rest := SetLeaveStatus(leaves[1..], id, status);
      [if leaves[0].id == id then leaves[0].(status := status) else leaves[0]] + rest
  }

  predicate LeaveIdsIncreasing(leaves: seq<Leave>) {
    forall i, j :: 0 <= i < j < |leaves| ==> leaves[i].id < leaves[j].id
  }

  /** Every payroll row satisfies net = basic + allowances - deductions. */
  predicate NetConsistent(t: PayrollTable) {
    forall k :: k in t.rows ==>
      t.rows[k].netSalary == t.rows[k].basicSalary + t.rows[k].allowances - t.rows[k].deductions
  }

  /** Both generation variants keep every row's net identity. */
  lemma GenerationKeepsNetIdentity(emps: seq<Employee>, att: map<AttendanceKey, AttendanceRow>,
                                   month: int, year: int, t: PayrollTable)
    requires IdsIncreasing(emps) && NetConsistent(t)
    ensures NetConsistent(ReplaceAll(emps, att, month, year, t))
    ensures NetConsistent(UpsertAll(emps, att, month, year, t))
  {
    var s := ReplaceAll(emps, att, month, year, t);
    var q := UpsertAll(emps, att, month, year, t);
    forall k | k in s.rows
      ensures s.rows[k].netSalary == s.rows[k].basicSalary + s.rows[k].allowances - s.rows[k].deductions
    {
      ReplaceAllAt(emps, att, month, year, t, k);
    }
    forall k | k in q.rows
      ensures q.rows[k].netSalary == q.rows[k].basicSalary + q.rows[k].allowances - q.rows[k].deductions
    {
      UpsertAllAt(emps, att, month, year, t, k);
    }
  }

  /** Every employee id was drawn from the counter. */
  predicate IdsBelow(emps: seq<Employee>, bound: nat) {
    forall j :: 0 <= j < |emps| ==> emps[j].id < bound
  }

  /** Removing one row keeps the list sorted by id, the emails unique and the ids below
      the counter. */
  lemma RemoveAtKeepsOrder(s: seq<Employee>, i: nat, bound: nat)
    requires i < |s| && IdsIncreasing(s) && UniqueEmails(s)
    requires IdsBelow(s, bound)
    ensures IdsIncreasing(s[..i] + s[i + 1..]) && UniqueEmails(s[..i] + s[i + 1..])
    ensures IdsBelow(s[..i] + s[i + 1..], bound)
    ensures forall x :: x in s[..i] + s[i + 1..] <==> x in s && x != s[i]
  {
    var t := s[..i] + s[i + 1..];
    assert forall j :: 0 <= j < |t| ==> t[j] == s[if j < i then j else j + 1];
    forall a, b | 0 <= a < b < |t| ensures t[a].id < t[b].id && t[a].email != t[b].email {
      var a', b' := if a < i then a else a + 1, if b < i then b else b + 1;
      assert t[a] == s[a'] && t[b] == s[b'] && a' < b';
    }
    forall x | x in s && x != s[i] ensures x in t {
      var j :| 0 <= j < |s| && s[j] == x;
      if j < i { assert t[j] == x; } else { assert t[j - 1] == x; }
    }
  }

  /** Rewriting one row in place, keeping its id and taking an email no other row has,
      keeps the list sorted by id, the emails unique and the ids below the counter. */
  lemma ReplaceAtKeepsOrder(s: seq<Employee>, i: nat, e: Employee, bound: nat)
    requires i < |s| && IdsIncreasing(s) && UniqueEmails(s) && IdsBelow(s, bound)
    requires e.id == s[i].id
    requires forall j :: 0 <= j < |s| && j != i ==> s[j].email != e.email
    ensures IdsIncreasing(s[i := e]) && UniqueEmails(s[i := e]) && IdsBelow(s[i := e], bound)
  {
    var t := s[i := e];
    forall a, b | 0 <= a < b < |t| ensures t[a].id < t[b].id && t[a].email != t[b].email {
      assert t[a].id == s[a].id && t[b].id == s[b].id;
    }
  }

  class Database {
    var employees: seq<Employee>
    var nextEmployeeId: nat
    var attendance: map<AttendanceKey, AttendanceRow>
    var nextAttendanceId: nat
    var leaves: seq<Leave>
    var nextLeaveId: nat
    var payroll: PayrollTable

    /** The table constraints: ids come from the AUTOINCREMENT counters, emails are
        unique, and every payroll row's net is its basic plus allowances minus
        deductions. The UNIQUE keys of attendance and payroll hold by the map types. */
    ghost predicate Valid()
      reads this
    {
      && IdsIncreasing(employees)
      && IdsBelow(employees, nextEmployeeId)
      && UniqueEmails(employees)
      && (forall k :: k in attendance ==> attendance[k].id < nextAttendanceId)
      && LeaveIdsIncreasing(leaves)
      && (forall i :: 0 <= i < |leaves| ==> leaves[i].id < nextLeaveId)
      && IdsBelowCounter(payroll)
      && NetConsistent(payroll)
    }

    /** Freshly created tables. */
    constructor ()
      ensures Valid()
      ensures employees == [] && attendance == map[] && leaves == [] && payroll == PayrollTable(map[], 1)
      ensures nextEmployeeId == 1 && nextAttendanceId == 1 && nextLeaveId == 1
    {
      employees := [];
      nextEmployeeId := 1;
      attendance := map[];
      nextAttendanceId := 1;
      leaves := [];
      nextLeaveId := 1;
      payroll := PayrollTable(map[], 1);
    }

    /** `insertSampleData`: seeds only an empty employees table (`row.count > 0` returns). */
    method Seed()
      requires Valid()
      modifies this
      ensures Valid()
      ensures old(employees) != [] ==> employees == old(employees) && nextEmployeeId == old(nextEmployeeId)
      ensures old(employees) == [] ==>
                employees == SampleEmployees(old(nextEmployeeId)) && nextEmployeeId == old(nextEmployeeId) + 5
      ensures attendance == old(attendance) && nextAttendanceId == old(nextAttendanceId)
      ensures leaves == old(leaves) && nextLeaveId == old(nextLeaveId) && payroll == old(payroll)
    {
      if |employees| > 0 {
        return;
      }
      employees := SampleEmployees(nextEmployeeId);
      nextEmployeeId := nextEmployeeId + 5;
    }

    /** `POST /api/employees` (admin only). */
    method CreateEmployee(caller: Caller, q: NewEmployeeRequest) returns (r: Response, employeeId: Option<nat>)
      requires Valid()
      modifies this
      ensures Valid()
      ensures !IsAdmin(caller) ==> r == Response(403, "Admin access required")
      ensures IsAdmin(caller) && !RequiredFieldsPresent(q) ==> r == Response(400, "All fields are required")
      ensures IsAdmin(caller) && RequiredFieldsPresent(q) && EmailInUse(old(employees), q.email) ==>
                r == Response(400, "Email already exists")
      ensures r.code == 201 <==> IsAdmin(caller) && RequiredFieldsPresent(q) && !EmailInUse(old(employees), q.email)
      ensures r.code == 201 ==>
                && r.message == "Employee created successfully" && employeeId == Some(old(nextEmployeeId))
                && employees == old(employees) + [NewEmployee(old(nextEmployeeId), q)]
                && nextEmployeeId == old(nextEmployeeId) + 1
      ensures r.code != 201 ==> employees == old(employees) && nextEmployeeId == old(nextEmployeeId) && employeeId.None?
      ensures attendance == old(attendance) && nextAttendanceId == old(nextAttendanceId)
      ensures leaves == old(leaves) && nextLeaveId == old(nextLeaveId) && payroll == old(payroll)
    {
      var gate := RequireAdmin(caller);
      if gate.Deny? {
        return Response(gate.code, gate.message), None;
      }
      if !RequiredFieldsPresent(q) {
        return Response(400, "All fields are required"), None;
      }
      if EmailInUse(employees, q.email) {
        return Response(400, "Email already exists"), None;
      }
      employees := employees + [NewEmployee(nextEmployeeId, q)];
      employeeId := Some(nextEmployeeId);
      nextEmployeeId := nextEmployeeId + 1;
      r := Response(201, "Employee created successfully");
    }

    /** `PUT /api/employees/:id` (admin only). There is no validation: any field may be
        set to any value, any row (an admin's too) may be updated, and an email that
        another row already has violates the UNIQUE constraint, reported as 500. */
    method UpdateEmployee(caller: Caller, id: int, u: EmployeeChanges) returns (r: Response)
      requires Valid()
      modifies this
      ensures Valid()
      ensures !IsAdmin(caller) ==> r == Response(403, "Admin access required") && employees == old(employees)
      ensures IsAdmin(caller) && IndexOfId(old(employees), id).None? ==>
                r == Response(404, "Employee not found") && employees == old(employees)
      ensures IsAdmin(caller) && IndexOfId(old(employees), id).Some? ==>
                var i := IndexOfId(old(employees), id).value;
                if exists j :: 0 <= j < |old(employees)| && j != i && old(employees)[j].email == u.email then
                  r == Response(500, "Database error") && employees == old(employees)
                else
                  r == Response(200, "Employee updated successfully")
                  && employees == old(employees)[i := ApplyChanges(old(employees)[i], u)]
      ensures nextEmployeeId == old(nextEmployeeId)
      ensures attendance == old(attendance) && nextAttendanceId == old(nextAttendanceId)
      ensures leaves == old(leaves) && nextLeaveId == old(nextLeaveId) && payroll == old(payroll)
    {
      var gate := RequireAdmin(caller);
      if gate.Deny? {
        return Response(gate.code, gate.message);
      }
      match IndexOfId(employees, id)
      case None =>
        r := Response(404, "Employee not found");
      case Some(i) =>
        if exists j :: 0 <= j < |employees| && j != i && employees[j].email == u.email {
          r := Response(500, "Database error");
        } else {
          ReplaceAtKeepsOrder(employees, i, ApplyChanges(employees[i], u), nextEmployeeId);
          employees := employees[i := ApplyChanges(employees[i], u)];
          r := Response(200, "Employee updated successfully");
        }
    }

    /** `DELETE /api/employees/:id` (admin only): `WHERE id = ? AND role != "admin"`, so
        an admin row is never removed; when nothing matched the answer is 404. */
    method DeleteEmployee(caller: Caller, id: int) returns (r: Response)
      requires Valid()
      modifies this
      ensures Valid()
      ensures !IsAdmin(caller) ==> r == Response(403, "Admin access required") && employees == old(employees)
      ensures IsAdmin(caller) ==>
                if IndexOfId(old(employees), id).None? || old(employees)[IndexOfId(old(employees), id).value].role == "admin" then
                  r == Response(404, "Employee not found") && employees == old(employees)
                else
                  var i := IndexOfId(old(employees), id).value;
                  r == Response(200, "Employee deleted successfully")
                  && employees == old(employees)[..i] + old(employees)[i + 1..]
      ensures forall e :: e in old(employees) && e.role == "admin" ==> e in employees
      ensures forall e :: e in old(employees) && e.id != id ==> e in employees
      ensures r.code == 200 ==> forall e :: e in employees <==> e in old(employees) && e.id != id
      ensures nextEmployeeId == old(nextEmployeeId)
      ensures attendance == old(attendance) && nextAttendanceId == old(nextAttendanceId)
      ensures leaves == old(leaves) && nextLeaveId == old(nextLeaveId) && payroll == old(payroll)
    {
      var gate := RequireAdmin(caller);
      if gate.Deny? {
        return Response(gate.code, gate.message);
      }
      match IndexOfId(employees, id)
      case None =>
        r := Response(404, "Employee not found");
      case Some(i) =>
        if employees[i].role == "admin" {
          r := Response(404, "Employee not found");
        } else {
          RemoveAtKeepsOrder(employees, i, nextEmployeeId);
          employees := employees[..i] + employees[i + 1..];
          r := Response(200, "Employee deleted successfully");
        }
    }

    /** `POST /api/attendance`, SQLite: `INSERT OR REPLACE` deletes the row with the same
        (employee_id, date) and inserts a new one with a new id. */
    method RecordAttendanceSqlite(a: AttendanceEntry) returns (r: Response)
      requires Valid()
      modifies this
      ensures Valid()
      ensures r == Response(200, "Attendance recorded successfully")
      ensures attendance == old(attendance)[AttendanceKey(a.employeeId, a.date) :=
                AttendanceRow(old(nextAttendanceId), a.checkIn, a.checkOut, a.status)]
      ensures nextAttendanceId == old(nextAttendanceId) + 1
      ensures employees == old(employees) && nextEmployeeId == old(nextEmployeeId)
      ensures leaves == old(leaves) && nextLeaveId == old(nextLeaveId) && payroll == old(payroll)
    {
      attendance := attendance[AttendanceKey(a.employeeId, a.date) :=
                      AttendanceRow(nextAttendanceId, a.checkIn, a.checkOut, a.status)];
      nextAttendanceId := nextAttendanceId + 1;
      r := Response(200, "Attendance recorded successfully");
    }

    /** `POST /api/attendance`, MySQL: on a duplicate (employee_id, date) only check_in,
        check_out and status are updated and the row keeps its id. */
    method RecordAttendanceMysql(a: AttendanceEntry) returns (r: Response)
      requires Valid()
      modifies this
      ensures Valid()
      ensures r == Response(200, "Attendance recorded successfully")
      ensures var key := AttendanceKey(a.employeeId, a.date);
              if key in old(attendance) then
                attendance == old(attendance)[key := old(attendance)[key].(checkIn := a.checkIn, checkOut := a.checkOut, status := a.status)]
                && nextAttendanceId == old(nextAttendanceId)
              else
                attendance == old(attendance)[key := AttendanceRow(old(nextAttendanceId), a.checkIn, a.checkOut, a.status)]
                && nextAttendanceId == old(nextAttendanceId) + 1
      ensures employees == old(employees) && nextEmployeeId == old(nextEmployeeId)
      ensures leaves == old(leaves) && nextLeaveId == old(nextLeaveId) && payroll == old(payroll)
    {
      var key := AttendanceKey(a.employeeId, a.date);
      if key in attendance {
        attendance := attendance[key := attendance[key].(checkIn := a.checkIn, checkOut := a.checkOut, status := a.status)];
      } else {
        attendance := attendance[key := AttendanceRow(nextAttendanceId, a.checkIn, a.checkOut, a.status)];
        nextAttendanceId := nextAttendanceId + 1;
      }
      r := Response(200, "Attendance recorded successfully");
    }

    /** `POST /api/leaves`: the new row's status is always 'pending'. Any authenticated
        caller may file a request for any employee id. */
    method CreateLeave(q: LeaveRequest) returns (r: Response)
      requires Valid()
      modifies this
      ensures Valid()
      ensures r == Response(201, "Leave request submitted successfully")
      ensures leaves == old(leaves) + [Leave(old(nextLeaveId), q.employeeId, q.startDate, q.endDate, q.reason, q.leaveType, "pending")]
      ensures nextLeaveId == old(nextLeaveId) + 1
      ensures employees == old(employees) && nextEmployeeId == old(nextEmployeeId)
      ensures attendance == old(attendance) && nextAttendanceId == old(nextAttendanceId) && payroll == old(payroll)
    {
      leaves := leaves + [Leave(nextLeaveId, q.employeeId, q.startDate, q.endDate, q.reason, q.leaveType, "pending")];
      nextLeaveId := nextLeaveId + 1;
      r := Response(201, "Leave request submitted successfully");
    }

    /** `PUT /api/leaves/:id` (admin only): sets the given status whatever the current
        one is, and answers 200 even when no row has the id. */
    method UpdateLeave(caller: Caller, id: int, status: string) returns (r: Response)
      requires Valid()
      modifies this
      ensures Valid()
      ensures !IsAdmin(caller) ==> r == Response(403, "Admin access required") && leaves == old(leaves)
      ensures IsAdmin(caller) ==>
                r == Response(200, "Leave status updated successfully") && leaves == SetLeaveStatus(old(leaves), id, status)
      ensures nextLeaveId == old(nextLeaveId)
      ensures employees == old(employees) && nextEmployeeId == old(nextEmployeeId)
      ensures attendance == old(attendance) && nextAttendanceId == old(nextAttendanceId) && payroll == old(payroll)
    {
      var gate := RequireAdmin(caller);
      if gate.Deny? {
        return Response(gate.code, gate.message);
      }
      leaves := SetLeaveStatus(leaves, id, status);
      r := Response(200, "Leave status updated successfully");
    }

    /** `POST /api/payroll/generate` on the SQLite server (admin only). */
    method GeneratePayrollSqlite(caller: Caller, month: int, year: int) returns (r: Response)
      requires Valid()
      modifies this
      ensures Valid()
      ensures !IsAdmin(caller) ==> r == Response(403, "Admin access required") && payroll == old(payroll)
      ensures IsAdmin(caller) ==>
                r == Response(200, "Payroll generated successfully")
                && payroll == ReplaceAll(old(employees), old(attendance), month, year, old(payroll))
      ensures employees == old(employees) && nextEmployeeId == old(nextEmployeeId)
      ensures attendance == old(attendance) && nextAttendanceId == old(nextAttendanceId)
      ensures leaves == old(leaves) && nextLeaveId == old(nextLeaveId)
    {
      var gate := RequireAdmin(caller);
      if gate.Deny? {
        return Response(gate.code, gate.message);
      }
      GenerationKeepsIds(employees, attendance, month, year, payroll);
      GenerationKeepsNetIdentity(employees, attendance, month, year, payroll);
      payroll := ReplaceAll(employees, attendance, month, year, payroll);
      r := Response(200, "Payroll generated successfully");
    }

    /** `POST /api/payroll/generate` on the MySQL server (admin only). */
    method GeneratePayrollMysql(caller: Caller, month: int, year: int) returns (r: Response)
      requires Valid()
      modifies this
      ensures Valid()
      ensures !IsAdmin(caller) ==> r == Response(403, "Admin access required") && payroll == old(payroll)
      ensures IsAdmin(caller) ==>
                r == Response(200, "Payroll generated successfully")
                && payroll == UpsertAll(old(employees), old(attendance), month, year, old(payroll))
      ensures employees == old(employees) && nextEmployeeId == old(nextEmployeeId)
      ensures attendance == old(attendance) && nextAttendanceId == old(nextAttendanceId)
      ensures leaves == old(leaves) && nextLeaveId == old(nextLeaveId)
    {
      var gate := RequireAdmin(caller);
      if gate.Deny? {
        return Response(gate.code, gate.message);
      }
      GenerationKeepsIds(employees, attendance, month, year, payroll);
      GenerationKeepsNetIdentity(employees, attendance, month, year, payroll);
      payroll := UpsertAll(employees, attendance, month, year, payroll);
      r := Response(200, "Payroll generated successfully");
    }

    /** `GET /api/attendance`: any signed-in caller; a non-admin gets their own rows only,
        whatever employee filter they pass. */
    method GetAttendance(caller: Caller, f: AttendanceFilter) returns (rows: set<AttendanceKey>)
      ensures rows == AttendanceQuery(employees, attendance, caller, f)
      ensures rows <= attendance.Keys
      ensures !IsAdmin(caller) ==> forall k :: k in rows ==> k.employeeId == caller.id
    {
      rows := AttendanceQuery(employees, attendance, caller, f);
    }

    /** `GET /api/leaves`: a non-admin gets their own leaves only. */
    method GetLeaves(caller: Caller) returns (rows: seq<Leave>)
      ensures rows == LeavesQuery(employees, leaves, caller)
      ensures !IsAdmin(caller) ==> forall l :: l in rows <==> l in leaves && l.employeeId == caller.id
    {
      if !IsAdmin(caller) {
        LeavesQueryOwn(employees, leaves, caller);
      }
      rows := LeavesQuery(employees, leaves, caller);
    }

    /** `GET /api/payroll`: a non-admin gets at most their own row of the period. */
    method GetPayroll(caller: Caller, month: int, year: int) returns (rows: set<PayrollKey>)
      ensures rows == PayrollQuery(employees, payroll.rows, caller, month, year)
      ensures !IsAdmin(caller) ==> rows <= {PayrollKey(caller.id, month, year)}
    {
      rows := PayrollQuery(employees, payroll.rows, caller, month, year);
    }

    /** `GET /api/reports` (admin only). */
    method GetReport(caller: Caller, q: ReportRequest) returns (r: Report)
      ensures !IsAdmin(caller) ==> r == Refused(Response(403, "Admin access required"))
      ensures IsAdmin(caller) ==> r == RunReport(employees, attendance, payroll.rows, q)
    {
      var gate := RequireAdmin(caller);
      if gate.Deny? {
        return Refused(Response(gate.code, gate.message));
      }
      r := RunReport(employees, attendance, payroll.rows, q);
    }
  }
}
