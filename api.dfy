/** What the client sees of the server: the JSON records the routes return, as the
    components' interfaces declare them, and the outcome of a request. */
module Api {
  import opened Schema
  import opened Dates

  /** The MUI chip colours the components pick from. */
  datatype ChipColor = Success | Warning | Error | Default

  /** A request that succeeded, or failed with the server's `message` ("" when the
      error response carries none). */
  datatype Outcome = Ok | Failed(serverMessage: string)

  /** A GET that returned data, or failed. */
  datatype Fetch<T> = Fetched(data: T) | FetchFailed(serverMessage: string)

  /** `err.response?.data?.message || fallback`. */
  function ErrorText(serverMessage: string, fallback: string): (t: string)
    ensures serverMessage != "" ==> t == serverMessage
    ensures serverMessage == "" ==> t == fallback
  {
    if serverMessage != "" then serverMessage else fallback
  }

  /** A row of `GET /api/payroll` (`SELECT *`). */
  datatype PayrollRecord = PayrollRecord(
    id: nat, employeeId: int, month: int, year: int,
    basicSalary: real, allowances: real, deductions: real, netSalary: real, status: string)

  /** A row of `GET /api/attendance`. */
  datatype AttendanceRecord = AttendanceRecord(
    id: nat, employeeId: int, date: string, checkIn: string, checkOut: string, status: string)

  /** A row of `GET /api/leaves`. */
  datatype LeaveRecord = LeaveRecord(
    id: nat, employeeId: int, startDate: string, endDate: string, reason: string,
    leaveType: string, status: string)

  /** The signed-in user the auth context holds; `salary` is missing when the login
      response has none. */
  datatype User = User(id: int, role: string, salary: Option<real>)

  /** The `user` object of the login response, as each server builds it from the
      employee row: the SQLite server includes the salary, the MySQL server leaves it out. */
  function LoginResponseUser(d: Dialect, e: Employee): (u: User)
    ensures u.id == e.id && u.role == e.role
    ensures u.salary.Some? <==> d == Sqlite
    ensures d == Sqlite ==> u.salary == Some(e.salary)
  {
    match d
    case Sqlite => User(e.id, e.role, Some(e.salary))
    case Mysql => User(e.id, e.role, None)
  }

  /** The login response user with the salary included under both servers, as the
      employee dashboard expects it. */
  function LoginResponseUserWithSalary(d: Dialect, e: Employee): (u: User)
    ensures u.id == e.id && u.role == e.role && u.salary == Some(e.salary)
    ensures d == Sqlite ==> u == LoginResponseUser(d, e)
  {
    User(e.id, e.role, Some(e.salary))
  }

  function NetSalary(r: PayrollRecord): real {
    r.netSalary
  }

  function BasicSalary(r: PayrollRecord): real {
    r.basicSalary
  }

  function Allowances(r: PayrollRecord): real {
    r.allowances
  }

  function Deductions(r: PayrollRecord): real {
    r.deductions
  }

  predicate IsPaid(r: PayrollRecord) {
    r.status == "paid"
  }

  predicate IsNotPaid(r: PayrollRecord) {
    r.status != "paid"
  }

  predicate IsPending(r: PayrollRecord) {
    r.status == "pending"
  }

  predicate IsPresent(r: AttendanceRecord) {
    r.status == "present"
  }

  predicate IsAbsent(r: AttendanceRecord) {
    r.status == "absent"
  }

  predicate IsLate(r: AttendanceRecord) {
    r.status == "late"
  }

  predicate LeavePending(l: LeaveRecord) {
    l.status == "pending"
  }

  predicate LeaveApproved(l: LeaveRecord) {
    l.status == "approved"
  }

  predicate LeaveRejected(l: LeaveRecord) {
    l.status == "rejected"
  }

  /** The payroll status chip of both payroll pages: success for 'paid', warning for
      anything else. */
  function PayrollStatusChip(status: string): (c: ChipColor)
    ensures c == Success <==> status == "paid"
    ensures c == Success || c == Warning
  {
    if status == "paid" then Success else Warning
  }

  /** The leave status chip of both leave pages: success for 'approved', error for
      'rejected', warning for anything else ('pending' included). */
  function LeaveStatusChip(status: string): (c: ChipColor)
    ensures c == Success <==> status == "approved"
    ensures c == Error <==> status == "rejected"
    ensures c == Warning <==> status != "approved" && status != "rejected"
  {
    if status == "approved" then Success
    else if status == "rejected" then Error
    else Warning
  }
}
