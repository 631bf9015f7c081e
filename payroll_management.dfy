/** The admin payroll page (client/src/components/admin/PayrollManagement.tsx): the four
    summary cards, the period selectors, and the generate-then-refetch handler. */
module PayrollManagement {
  import opened Tally
  import opened Api

  /** The four cards: Total Payroll, Total Employees, Paid Employees, Pending. */
  datatype Summary = Summary(totalPayroll: real, totalEmployees: nat, paidEmployees: nat, pending: int)

  /** The cards over the rows on screen. Pending is shown as total less paid; it is never
      negative and is exactly the number of rows whose status is anything but 'paid'. */
  function Summarize(rows: seq<PayrollRecord>): (s: Summary)
    ensures s.totalPayroll == Sum(rows, NetSalary)
    ensures rows == [] ==> s.totalPayroll == 0.0
    ensures s.totalEmployees == |rows|
    ensures s.paidEmployees == Count(rows, IsPaid) <= s.totalEmployees
    ensures s.pending == s.totalEmployees - s.paidEmployees
    ensures s.pending >= 0 && s.pending == Count(rows, IsNotPaid)
    ensures s.pending == 0 <==> forall i :: 0 <= i < |rows| ==> rows[i].status == "paid"
  {
    var paid := Count(rows, IsPaid);
    CountComplement(rows, IsPaid, IsNotPaid);
    CountZero(rows, IsNotPaid);
    Summary(Sum(rows, NetSalary), |rows|, paid, |rows| - paid)
  }

  /** When every row keeps the server's identity net = basic + allowances - deductions
      (which generation guarantees), the Total Payroll card equals total basic plus total
      allowances less total deductions. */
  lemma TotalPayrollDecomposes(rows: seq<PayrollRecord>)
    requires forall i :: 0 <= i < |rows| ==>
               rows[i].netSalary == rows[i].basicSalary + rows[i].allowances - rows[i].deductions
    ensures Summarize(rows).totalPayroll == Sum(rows, BasicSalary) + Sum(rows, Allowances) - Sum(rows, Deductions)
  {
    SumCombination(rows, BasicSalary, Allowances, Deductions, NetSalary);
  }

  /** Loading more rows adds their net salaries and their paid count to the cards. */
  lemma SummaryOfAppend(a: seq<PayrollRecord>, b: seq<PayrollRecord>)
    ensures Summarize(a + b).totalPayroll == Summarize(a).totalPayroll + Summarize(b).totalPayroll
    ensures Summarize(a + b).paidEmployees == Summarize(a).paidEmployees + Summarize(b).paidEmployees
    ensures Summarize(a + b).pending == Summarize(a).pending + Summarize(b).pending
  {
    SumAppend(a, b, NetSalary);
    CountAppend(a, b, IsPaid);
  }

  /** The month selector: `Array.from({ length: 12 }, (_, i) => i + 1)`. */
  function MonthOptions(): (ms: seq<int>)
    ensures |ms| == 12
    ensures forall m :: m in ms <==> 1 <= m <= 12
    ensures forall i, j :: 0 <= i < j < |ms| ==> ms[i] < ms[j]
  {
    var ms := seq(12, i requires 0 <= i < 12 => i + 1);
    assert forall i :: 0 <= i < 12 ==> ms[i] == i + 1;
    forall m | 1 <= m <= 12
      ensures m in ms
    {
      assert ms[m - 1] == m;
    }
    ms
  }

  /** The year selector: five consecutive years centred on the current one. */
  function YearOptions(currentYear: int): (ys: seq<int>)
    ensures |ys| == 5
    ensures forall y :: y in ys <==> currentYear - 2 <= y <= currentYear + 2
    ensures forall i :: 0 <= i < 4 ==> ys[i + 1] == ys[i] + 1
  {
    var ys := seq(5, i requires 0 <= i < 5 => currentYear - 2 + i);
    assert forall i :: 0 <= i < 5 ==> ys[i] == currentYear - 2 + i;
    forall y | currentYear - 2 <= y <= currentYear + 2
      ensures y in ys
    {
      assert ys[y - currentYear + 2] == y;
    }
    ys
  }

  /** The requests the page sends. */
  datatype Request = GetPayroll(month: int, year: int) | PostGenerate(month: int, year: int)

  /** The page's state: the rows, the spinner, the error banner and the selected period. */
  datatype Page = Page(payroll: seq<PayrollRecord>, loading: bool, error: string, month: int, year: int)

  /** `fetchPayroll` once its GET has settled: the rows replace the list, or the error is
      shown and the list kept; the spinner stops either way. */
  function FetchSettled(p: Page, f: Fetch<seq<PayrollRecord>>): (q: Page)
    ensures !q.loading && q.month == p.month && q.year == p.year
    ensures f.Fetched? ==> q.payroll == f.data && q.error == p.error
    ensures f.FetchFailed? ==> q.payroll == p.payroll && q.error == ErrorText(f.serverMessage, "Failed to fetch payroll data")
  {
    match f
    case Fetched(rows) => p.(payroll := rows, loading := false)
    case FetchFailed(m) => p.(error := ErrorText(m, "Failed to fetch payroll data"), loading := false)
  }

  /** `handleGeneratePayroll`: post the selected period; on success fetch the list for the
      same period, on failure show the error and fetch nothing. */
  function HandleGenerate(p: Page, post: Outcome): (r: (Page, seq<Request>))
    ensures |r.1| >= 1 && r.1[0] == PostGenerate(p.month, p.year)
    ensures post.Ok? <==> r.1 == [PostGenerate(p.month, p.year), GetPayroll(p.month, p.year)]
    ensures post.Ok? ==> r.0 == p
    ensures post.Failed? ==> r.0 == p.(error := ErrorText(post.serverMessage, "Failed to generate payroll"))
  {
    match post
    case Ok => (p, [PostGenerate(p.month, p.year), GetPayroll(p.month, p.year)])
    case Failed(m) => (p.(error := ErrorText(m, "Failed to generate payroll")), [PostGenerate(p.month, p.year)])
  }
}
