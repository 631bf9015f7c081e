/** The employee dashboard's overview (client/src/components/employee/EmployeeOverview.tsx):
    the signed-in guard and the five figures. */
module EmployeeOverview {
  import opened Tally
  import opened Schema
  import opened Dates
  import opened Api

  /** The five figures the overview computes; the stat cards show all but
      `currentSalary`. */
  datatype Stats = Stats(presentDays: nat, absentDays: nat, pendingLeaves: nat, currentSalary: real, lastPayroll: real)

  /** The overview's state; it starts loading. */
  datatype Dashboard = Dashboard(stats: Option<Stats>, loading: bool, error: string)

  /** The effect on `user`: the stats are fetched only for a signed-in user; otherwise
      nothing changes, so the spinner keeps turning. */
  function OnUser(d: Dashboard, user: Option<User>): (r: (Dashboard, bool))
    ensures r.1 <==> user.Some?
    ensures r.0 == d
  {
    (d, user.Some?)
  }

  /** `user?.salary || 0`: the profile card's "Monthly Salary", and the stats'
      `currentSalary`. A missing or zero salary shows as 0. */
  function CurrentSalary(u: User): (s: real)
    ensures u.salary.Some? && u.salary.value != 0.0 ==> s == u.salary.value
    ensures s == 0.0 <==> u.salary.None? || u.salary.value == 0.0
  {
    if u.salary.Some? && u.salary.value != 0.0 then u.salary.value else 0.0
  }

  /** `payrollRes.data.length > 0 ? payrollRes.data[0].net_salary : 0`. */
  function LastPayroll(payroll: seq<PayrollRecord>): (s: real)
    ensures payroll != [] ==> s == payroll[0].netSalary
    ensures payroll == [] ==> s == 0.0
  {
    if |payroll| > 0 then payroll[0].netSalary else 0.0
  }

  /** The figures over this month's attendance, the leaves and this month's payroll:
      present and absent are exact-status counts that together never exceed the rows. */
  function ComputeStats(u: User, attendance: seq<AttendanceRecord>, leaves: seq<LeaveRecord>,
                        payroll: seq<PayrollRecord>): (s: Stats)
    ensures s.presentDays == Count(attendance, IsPresent)
    ensures s.absentDays == Count(attendance, IsAbsent)
    ensures s.presentDays + s.absentDays <= |attendance|
    ensures s.pendingLeaves == Count(leaves, LeavePending) <= |leaves|
    ensures s.currentSalary == CurrentSalary(u) && s.lastPayroll == LastPayroll(payroll)
  {
    CountDisjoint(attendance, IsPresent, IsAbsent);
    Stats(Count(attendance, IsPresent), Count(attendance, IsAbsent), Count(leaves, LeavePending),
          CurrentSalary(u), LastPayroll(payroll))
  }

  /** As written: signed in through the MySQL server, whose login response has no salary,
      an employee's Monthly Salary shows 0 however much they earn; through the SQLite
      server it shows their salary. */
  lemma MysqlLoginHidesSalary(e: Employee, attendance: seq<AttendanceRecord>, leaves: seq<LeaveRecord>,
                              payroll: seq<PayrollRecord>)
    requires e.salary > 0.0
    ensures CurrentSalary(LoginResponseUser(Mysql, e)) == 0.0
    ensures CurrentSalary(LoginResponseUser(Sqlite, e)) == e.salary
    ensures ComputeStats(LoginResponseUser(Mysql, e), attendance, leaves, payroll).currentSalary == 0.0
    ensures ComputeStats(LoginResponseUser(Sqlite, e), attendance, leaves, payroll).currentSalary == e.salary
  {
  }

  /** With the salary in the login response, Monthly Salary shows the employee's salary
      under either server (a salary of 0 shows as 0 either way). */
  lemma CurrentSalaryShowsSalary(d: Dialect, e: Employee, attendance: seq<AttendanceRecord>,
                                 leaves: seq<LeaveRecord>, payroll: seq<PayrollRecord>)
    ensures CurrentSalary(LoginResponseUserWithSalary(d, e)) == e.salary
    ensures ComputeStats(LoginResponseUserWithSalary(d, e), attendance, leaves, payroll).currentSalary == e.salary
  {
  }
}
