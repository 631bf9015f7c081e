/** The four tables both servers keep (server-sqlite-complete.js:47-102), one datatype
    per row. Attendance and payroll rows are stored in maps keyed on their UNIQUE
    constraints, so "at most one row per key" holds by construction; every row keeps the
    surrogate `id` its AUTOINCREMENT column gave it. */
module Schema {

  datatype Option<T> = None | Some(value: T)

  /** A row of `employees`. `role` defaults to 'employee' and `status` to 'active'. */
  datatype Employee = Employee(
    id: nat, name: string, email: string, department: string, position: string,
    salary: real, hireDate: string, role: string, status: string)

  /** `UNIQUE(employee_id, date)` (server-sqlite-complete.js:72). */
  datatype AttendanceKey = AttendanceKey(employeeId: int, date: string)

  datatype AttendanceRow = AttendanceRow(id: nat, checkIn: string, checkOut: string, status: string)

  /** A row of `leaves`. */
  datatype Leave = Leave(
    id: nat, employeeId: int, startDate: string, endDate: string,
    reason: string, leaveType: string, status: string)

  /** `UNIQUE(employee_id, month, year)` (server-sqlite-complete.js:101). */
  datatype PayrollKey = PayrollKey(employeeId: int, month: int, year: int)

  datatype PayrollRow = PayrollRow(
    id: nat, basicSalary: real, allowances: real, deductions: real, netSalary: real, status: string)

  /** The authenticated user a route runs for (the decoded token's `id` and `role`). */
  datatype Caller = Caller(id: int, role: string)

  /** AUTOINCREMENT hands out increasing ids, so the employee list in storage order is
      sorted by id; in particular ids are unique. */
  predicate IdsIncreasing(emps: seq<Employee>) {
    forall i, j :: 0 <= i < j < |emps| ==> emps[i].id < emps[j].id
  }

  /** The employee with the given id, if any (the join `ON e.id = ...`). */
  function FindEmployee(emps: seq<Employee>, id: int): (r: Option<Employee>)
    ensures r.None? <==> forall i :: 0 <= i < |emps| ==> emps[i].id != id
    ensures r.Some? ==> r.value in emps && r.value.id == id
  {
    if emps == [] then None
    else if emps[0].id == id then Some(emps[0])
    else
      var r := FindEmployee(emps[1..], id);
      assert forall i :: 1 <= i < |emps| ==> emps[i] == emps[1..][i - 1];
      r
  }

  /** The position of the employee with the given id, if any: the row an
      `UPDATE ... WHERE id = ?` or `DELETE ... WHERE id = ?` addresses. */
  function IndexOfId(emps: seq<Employee>, id: int): (r: Option<nat>)
    ensures r.None? <==> forall i :: 0 <= i < |emps| ==> emps[i].id != id
    ensures r.Some? ==> r.value < |emps| && emps[r.value].id == id
  {
    if emps == [] then None
    else if emps[0].id == id then Some(0)
    else
      assert forall i :: 1 <= i < |emps| ==> emps[i] == emps[1..][i - 1];
      match IndexOfId(emps[1..], id)
      case None => None
      case Some(j) => Some(j + 1)
  }

  /** `email TEXT UNIQUE` (server-sqlite-complete.js:50). */
  predicate UniqueEmails(emps: seq<Employee>) {
    forall i, j :: 0 <= i < j < |emps| ==> emps[i].email != emps[j].email
  }

  predicate EmailInUse(emps: seq<Employee>, email: string) {
    exists i :: 0 <= i < |emps| && emps[i].email == email
  }

  lemma FindEmployeeAt(emps: seq<Employee>, i: nat)
    requires IdsIncreasing(emps) && i < |emps|
    ensures FindEmployee(emps, emps[i].id) == Some(emps[i])
  {
  }

  predicate IsAdmin(c: Caller) {
    c.role == "admin"
  }
}
