/** The employee's leave page (client/src/components/employee/MyLeaves.tsx): the status
    counters, the request the form sends, and the form reset. Dates are the date
    pickers' calendar days; `dayjs()` and the day after it are parameters. */
module MyLeaves {
  import opened Tally
  import opened Schema
  import opened Dates
  import opened Api
  import Store

  /** The three cards: Pending, Approved and Rejected. */
  datatype LeaveCounts = LeaveCounts(pending: nat, approved: nat, rejected: nat)

  predicate IsDecided(l: LeaveRecord) {
    l.status == "approved" || l.status == "rejected"
  }

  predicate IsKnownStatus(l: LeaveRecord) {
    l.status == "pending" || l.status == "approved" || l.status == "rejected"
  }

  /** Each counter counts one exact status; together they never exceed the leaves, and
      they reach it exactly when every leave has one of the three statuses. */
  function Counts(leaves: seq<LeaveRecord>): (c: LeaveCounts)
    ensures c.pending == Count(leaves, LeavePending)
    ensures c.approved == Count(leaves, LeaveApproved)
    ensures c.rejected == Count(leaves, LeaveRejected)
    ensures c.pending + c.approved + c.rejected <= |leaves|
    ensures c.pending + c.approved + c.rejected == |leaves| <==>
              forall i :: 0 <= i < |leaves| ==> IsKnownStatus(leaves[i])
  {
    CountUnion(leaves, LeaveApproved, LeaveRejected, IsDecided);
    CountUnion(leaves, LeavePending, IsDecided, IsKnownStatus);
    CountAll(leaves, IsKnownStatus);
    LeaveCounts(Count(leaves, LeavePending), Count(leaves, LeaveApproved), Count(leaves, LeaveRejected))
  }

  /** A date picker's value. */
  datatype CalendarDay = CalendarDay(year: nat, month: nat, day: nat)

  /** `format('YYYY-MM-DD')`. */
  function Format(d: CalendarDay): string {
    FormatDate(d.year, d.month, d.day)
  }

  /** The dialog's fields. */
  datatype LeaveForm = LeaveForm(startDate: CalendarDay, endDate: CalendarDay, reason: string, leaveType: string)

  /** The page's state. */
  datatype Page = Page(leaves: seq<LeaveRecord>, error: string, dialogOpen: bool, form: LeaveForm)

  /** `handleOpenDialog`: the form starts again from today to tomorrow, a personal leave
      with no reason, and the dialog opens. */
  function OpenDialog(p: Page, today: CalendarDay, tomorrow: CalendarDay): (q: Page)
    ensures q.dialogOpen && q.form == LeaveForm(today, tomorrow, "", "personal")
    ensures q.leaves == p.leaves && q.error == p.error
  {
    p.(form := LeaveForm(today, tomorrow, "", "personal"), dialogOpen := true)
  }

  /** What a submission does: the page after it, the body it posts, and whether it
      fetches the list again. */
  datatype Submitted = Submitted(page: Page, request: Option<Store.LeaveRequest>, refetch: bool)

  /** `handleSubmit`: with no signed-in user nothing is sent; otherwise the form is posted
      for the user's id with both dates formatted, and on success the list is fetched
      again and the dialog closed. */
  function HandleSubmit(p: Page, user: Option<User>, post: Outcome): (r: Submitted)
    ensures user.None? ==> r == Submitted(p.(error := "User not authenticated"), None, false)
    ensures user.Some? ==> r.request == Some(Store.LeaveRequest(user.value.id, Format(p.form.startDate),
                                                                Format(p.form.endDate), p.form.reason, p.form.leaveType))
    ensures r.page.leaves == p.leaves && r.page.form == p.form
    ensures r.refetch <==> user.Some? && post.Ok?
    ensures user.Some? && post.Ok? ==> !r.page.dialogOpen && r.page.error == p.error
    ensures user.Some? && post.Failed? ==>
              r.page == p.(error := ErrorText(post.serverMessage, "Failed to submit leave request"))
  {
    match user
    case None => Submitted(p.(error := "User not authenticated"), None, false)
    case Some(u) =>
      var body := Store.LeaveRequest(u.id, Format(p.form.startDate), Format(p.form.endDate), p.form.reason, p.form.leaveType);
      match post
      case Ok => Submitted(p.(dialogOpen := false), Some(body), true)
      case Failed(m) => Submitted(p.(error := ErrorText(m, "Failed to submit leave request")), Some(body), false)
  }

  /** The posted dates are canonical `YYYY-MM-DD` text, and the servers' month filter
      reads back the month and year of the picked days. */
  lemma RequestDatesAreCanonical(p: Page, u: User, post: Outcome, d: Dialect, m: int, y: int)
    requires p.form.startDate.year <= 9999 && p.form.startDate.month <= 99 && p.form.startDate.day <= 99
    requires p.form.endDate.year <= 9999 && p.form.endDate.month <= 99 && p.form.endDate.day <= 99
    ensures var q := HandleSubmit(p, Some(u), post).request.value;
            && IsCanonicalDate(q.startDate) && IsCanonicalDate(q.endDate)
            && (InPeriod(d, q.startDate, m, y) <==> m == p.form.startDate.month && y == p.form.startDate.year)
            && (InPeriod(d, q.endDate, m, y) <==> m == p.form.endDate.month && y == p.form.endDate.year)
  {
    var s, e := p.form.startDate, p.form.endDate;
    FormatDateInPeriod(s.year, s.month, s.day, d, m, y);
    FormatDateInPeriod(e.year, e.month, e.day, d, m, y);
  }
}
