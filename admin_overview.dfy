/** The admin dashboard's overview (client/src/components/admin/AdminOverview.tsx): the
    signed-out guard and the four figures computed from the four lists it fetches. */
module AdminOverview {
  import opened Tally
  import opened Schema
  import opened Api
  import PayrollManagement
  import MyAttendance
  import MyLeaves

  /** The four cards. */
  datatype Stats = Stats(totalEmployees: nat, presentToday: nat, pendingLeaves: nat, totalPayroll: real)

  /** The overview's state. */
  datatype Dashboard = Dashboard(stats: Option<Stats>, loading: bool, error: string)

  /** The effect on `token`: with no token (missing or empty) nothing is fetched, the
      spinner stops and the page asks to log in; with one, the stats are fetched. */
  function OnToken(d: Dashboard, token: Option<string>): (r: (Dashboard, bool))
    ensures !r.1 <==> token.None? || token.value == ""
    ensures !r.1 ==> r.0 == d.(loading := false, error := "Please log in to view dashboard data.")
    ensures r.1 ==> r.0 == d
  {
    if token.None? || token.value == "" then
      (d.(loading := false, error := "Please log in to view dashboard data."), false)
    else (d, true)
  }

  /** The figures over the fetched lists: the employees listed, today's rows marked
      present, the pending leaves, and the month's net salaries summed from 0. */
  function ComputeStats(employees: seq<Employee>, attendance: seq<AttendanceRecord>,
                        leaves: seq<LeaveRecord>, payroll: seq<PayrollRecord>): (s: Stats)
    ensures s.totalEmployees == |employees|
    ensures s.presentToday == Count(attendance, IsPresent) <= |attendance|
    ensures s.pendingLeaves == Count(leaves, LeavePending) <= |leaves|
    ensures s.totalPayroll == Sum(payroll, NetSalary)
    ensures payroll == [] ==> s.totalPayroll == 0.0
  {
    Stats(|employees|, Count(attendance, IsPresent), Count(leaves, LeavePending), Sum(payroll, NetSalary))
  }

  /** The overview agrees with the pages it summarises: its payroll total is the payroll
      page's, its present count the attendance page's, its pending count the leave page's. */
  lemma OverviewAgreesWithPages(employees: seq<Employee>, attendance: seq<AttendanceRecord>,
                                leaves: seq<LeaveRecord>, payroll: seq<PayrollRecord>)
    ensures var s := ComputeStats(employees, attendance, leaves, payroll);
            && s.totalPayroll == PayrollManagement.Summarize(payroll).totalPayroll
            && s.presentToday == MyAttendance.Tallies(attendance).present
            && s.pendingLeaves == MyLeaves.Counts(leaves).pending
  {
  }

  /** `fetchDashboardStats` once all four requests have settled: the figures, or the
      error; the spinner stops either way. */
  function StatsSettled(d: Dashboard, f: Fetch<(seq<Employee>, seq<AttendanceRecord>, seq<LeaveRecord>, seq<PayrollRecord>)>): (q: Dashboard)
    ensures !q.loading
    ensures f.Fetched? ==> q.stats == Some(ComputeStats(f.data.0, f.data.1, f.data.2, f.data.3)) && q.error == d.error
    ensures f.FetchFailed? ==> q.stats == d.stats && q.error == ErrorText(f.serverMessage, "Failed to fetch dashboard data")
  {
    match f
    case Fetched(lists) => d.(stats := Some(ComputeStats(lists.0, lists.1, lists.2, lists.3)), loading := false)
    case FetchFailed(m) => d.(error := ErrorText(m, "Failed to fetch dashboard data"), loading := false)
  }
}
