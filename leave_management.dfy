/** The admin leave page (client/src/components/admin/LeaveManagement.tsx): the
    approve/reject actions of a row and the status-update handler. */
module LeaveManagement {
  import opened Api

  /** A row action: its caption, the leave it updates and the status it sends. */
  datatype Action = Action(caption: string, leaveId: nat, status: string)

  /** `getActions`: Approve and Reject for a pending leave, nothing otherwise. */
  function GetActions(l: LeaveRecord): (acts: seq<Action>)
    ensures acts != [] <==> l.status == "pending"
    ensures acts != [] ==> acts == [Action("Approve", l.id, "approved"), Action("Reject", l.id, "rejected")]
    ensures forall j :: 0 <= j < |acts| ==> acts[j].leaveId == l.id
  {
    if l.status == "pending" then
      [Action("Approve", l.id, "approved"), Action("Reject", l.id, "rejected")]
    else []
  }

  /** The page lets the admin move a leave to status `to`. */
  predicate UiAllows(l: LeaveRecord, to: string) {
    exists j :: 0 <= j < |GetActions(l)| && GetActions(l)[j].status == to
  }

  /** Through the page a leave only goes from pending to approved or to rejected. */
  lemma UiTransitions(l: LeaveRecord, to: string)
    ensures UiAllows(l, to) <==> l.status == "pending" && (to == "approved" || to == "rejected")
  {
    if l.status == "pending" && to == "approved" {
      assert GetActions(l)[0].status == to;
    } else if l.status == "pending" && to == "rejected" {
      assert GetActions(l)[1].status == to;
    }
  }

  /** Once an action is taken the leave is approved or rejected, and the page offers no
      further action on it. */
  lemma ActionsAreTerminal(l: LeaveRecord, j: nat)
    requires j < |GetActions(l)|
    ensures var after := l.(status := GetActions(l)[j].status);
            (after.status == "approved" || after.status == "rejected") && GetActions(after) == []
  {
  }

  /** The requests the page sends. */
  datatype Call = PutStatus(id: nat, status: string) | GetLeaves

  /** The page's state: the list and the error banner. */
  datatype Page = Page(leaves: seq<LeaveRecord>, error: string)

  /** `handleStatusUpdate`: send the status; on success fetch the list again, on failure
      show the error and keep the list as it was. */
  function HandleStatusUpdate(p: Page, id: nat, status: string, put: Outcome): (r: (Page, seq<Call>))
    ensures |r.1| >= 1 && r.1[0] == PutStatus(id, status)
    ensures put.Ok? <==> r.1 == [PutStatus(id, status), GetLeaves]
    ensures r.0.leaves == p.leaves
    ensures put.Ok? ==> r.0.error == p.error
    ensures put.Failed? ==> r.0.error == ErrorText(put.serverMessage, "Failed to update leave status")
  {
    match put
    case Ok => (p, [PutStatus(id, status), GetLeaves])
    case Failed(m) => (p.(error := ErrorText(m, "Failed to update leave status")), [PutStatus(id, status)])
  }
}
