/** The employee's attendance page (client/src/components/employee/MyAttendance.tsx): the
    four day counters and the status colours. */
module MyAttendance {
  import opened Tally
  import opened Api

  /** The four cards: Present, Absent, Late and Total days. */
  datatype Days = Days(present: nat, absent: nat, late: nat, total: nat)

  predicate IsCounted(r: AttendanceRecord) {
    r.status == "present" || r.status == "absent" || r.status == "late"
  }

  predicate IsPresentOrAbsent(r: AttendanceRecord) {
    r.status == "present" || r.status == "absent"
  }

  /** Each counter counts one exact status; the three together never exceed the total,
      and they reach it exactly when no row has another status ('half_day' and the like). */
  function Tallies(rows: seq<AttendanceRecord>): (d: Days)
    ensures d.present == Count(rows, IsPresent)
    ensures d.absent == Count(rows, IsAbsent)
    ensures d.late == Count(rows, IsLate)
    ensures d.total == |rows|
    ensures d.present + d.absent + d.late <= d.total
    ensures d.present + d.absent + d.late == d.total <==> forall i :: 0 <= i < |rows| ==> IsCounted(rows[i])
  {
    CountUnion(rows, IsPresent, IsAbsent, IsPresentOrAbsent);
    CountUnion(rows, IsPresentOrAbsent, IsLate, IsCounted);
    CountAll(rows, IsCounted);
    Days(Count(rows, IsPresent), Count(rows, IsAbsent), Count(rows, IsLate), |rows|)
  }

  /** A row with any other status ('half_day', say) adds to the total and to no counter. */
  lemma OtherStatusCountsOnlyInTotal(rows: seq<AttendanceRecord>, r: AttendanceRecord)
    requires !IsCounted(r)
    ensures Tallies(rows + [r]) == Tallies(rows).(total := |rows| + 1)
  {
    CountAppend(rows, [r], IsPresent);
    CountAppend(rows, [r], IsAbsent);
    CountAppend(rows, [r], IsLate);
  }

  /** A row with one of the three statuses adds one to its own counter and to the total,
      and leaves the other two counters as they were. */
  lemma CountedStatusAddsOne(rows: seq<AttendanceRecord>, r: AttendanceRecord)
    requires IsCounted(r)
    ensures var t, u := Tallies(rows), Tallies(rows + [r]);
            && u.total == t.total + 1
            && u.present == t.present + (if r.status == "present" then 1 else 0)
            && u.absent == t.absent + (if r.status == "absent" then 1 else 0)
            && u.late == t.late + (if r.status == "late" then 1 else 0)
  {
    CountAppend(rows, [r], IsPresent);
    CountAppend(rows, [r], IsAbsent);
    CountAppend(rows, [r], IsLate);
  }

  /** The status chip: present is success, absent is error, late is warning, anything
      else the default colour. */
  function StatusColor(status: string): (c: ChipColor)
    ensures c == Success <==> status == "present"
    ensures c == Error <==> status == "absent"
    ensures c == Warning <==> status == "late"
    ensures c == Default <==> status != "present" && status != "absent" && status != "late"
  {
    if status == "present" then Success
    else if status == "absent" then Error
    else if status == "late" then Warning
    else Default
  }
}
