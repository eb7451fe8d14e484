/**
 * The two-tier leave approval workflow of `LeaveViewSet`: `approve`,
 * `reject` and `destroy`, each looking the leave up through the caller's
 * scoped queryset, and the store of leaves they update in place (with the
 * post-save reminder hook).
 */
module Workflow {
  import opened Wrappers
  import opened Domain
  import opened Roles
  import opened Notifications

  datatype Refusal = NotYetManagerApproved | NoLongerPending | AlreadyProcessed | ApprovedCannotBeDeleted

  /** What one action decides for a leave: save it in this state, or refuse. */
  datatype Decision = Save(leave: Leave) | Refuse(reason: Refusal)

  /** Only the status and the two approver fields of a leave ever change. */
  predicate SameRequest(a: Leave, b: Leave) {
    a.id == b.id && a.employee == b.employee && a.leaveType == b.leaveType && a.start == b.start && a.end == b.end
  }

  /**
   * The `approve` action on a leave already fetched: superuser first, then
   * company profile, then staff flag; any other user saves the leave as it is.
   */
  function ApproveLeave(caller: Principal, l: Leave): (d: Decision)
    ensures d.Save? ==> SameRequest(l, d.leave)
    ensures d.Refuse? ==> d.reason == NotYetManagerApproved || d.reason == NoLongerPending
  {
    if caller.isSuperuser then
      Save(l.(status := Approved, approvedBy := Some(caller.id),
              managerApprovedBy := if l.managerApprovedBy.None? then Some(caller.id) else l.managerApprovedBy))
    else if caller.companyDepartment.Some? then
      if l.status != ManagerApproved then Refuse(NotYetManagerApproved)
      else Save(l.(status := Approved, approvedBy := Some(caller.id)))
    else if caller.isStaff then
      if l.status != Pending then Refuse(NoLongerPending)
      else Save(l.(status := ManagerApproved, managerApprovedBy := Some(caller.id)))
    else Save(l)
  }

  /** The `reject` action on a leave already fetched by a staff user or superuser. */
  function RejectLeave(caller: Principal, l: Leave): (d: Decision)
    ensures d.Save? ==> SameRequest(l, d.leave)
    ensures d.Refuse? ==> d.reason == AlreadyProcessed
  {
    if l.status == Approved || l.status == Rejected then Refuse(AlreadyProcessed)
    else Save(l.(status := Rejected, approvedBy := Some(caller.id)))
  }

  /** An administrator approves directly from any status, filling in the manager step if it was skipped. */
  lemma AdminApprovesDirectly(caller: Principal, l: Leave)
    requires ResolveRole(caller).AdminRole?
    ensures var d := ApproveLeave(caller, l);
      d.Save? && d.leave.status == Approved && d.leave.approvedBy == Some(caller.id)
      && d.leave.managerApprovedBy == (if l.managerApprovedBy.Some? then l.managerApprovedBy else Some(caller.id))
  {
  }

  /** An entreprise gives the final approval, and only after a manager's validation. */
  lemma EntrepriseApprovesOnlyAfterManager(caller: Principal, l: Leave)
    requires ResolveRole(caller).EntrepriseRole?
    ensures ApproveLeave(caller, l).Save? <==> l.status == ManagerApproved
    ensures ApproveLeave(caller, l).Save? ==>
              ApproveLeave(caller, l).leave == l.(status := Approved, approvedBy := Some(caller.id))
  {
  }

  /** A manager gives the first validation, and only to a pending leave. */
  lemma ManagerValidatesOnlyPending(caller: Principal, l: Leave)
    requires ResolveRole(caller).ManagerRole?
    ensures ApproveLeave(caller, l).Save? <==> l.status == Pending
    ensures ApproveLeave(caller, l).Save? ==>
              ApproveLeave(caller, l).leave == l.(status := ManagerApproved, managerApprovedBy := Some(caller.id))
  {
  }

  /** A plain employee's approval saves the leave unchanged. */
  lemma EmployeeApprovalIsNoOp(caller: Principal, l: Leave)
    requires ResolveRole(caller).EmployeeRole?
    ensures ApproveLeave(caller, l) == Save(l)
  {
  }

  /** The status moves along the workflow's edges. */
  predicate WorkflowStep(from: LeaveStatus, to: LeaveStatus) {
    from == to
    || (from == Pending && to == ManagerApproved)
    || (from == ManagerApproved && to == Approved)
    || ((from == Pending || from == ManagerApproved) && to == Rejected)
  }

  /**
   * Without superuser rights, approving and rejecting only follow the
   * workflow's edges: approved and rejected leaves stay as they are.
   */
  lemma {:induction false} NonAdminFollowsWorkflow(caller: Principal, l: Leave)
    requires !caller.isSuperuser
    ensures ApproveLeave(caller, l).Save? ==> WorkflowStep(l.status, ApproveLeave(caller, l).leave.status)
    ensures RejectLeave(caller, l).Save? ==> WorkflowStep(l.status, RejectLeave(caller, l).leave.status)
    ensures l.status == Approved || l.status == Rejected ==>
              (ApproveLeave(caller, l).Save? ==> ApproveLeave(caller, l).leave == l) && RejectLeave(caller, l).Refuse?
  {
  }

  /** A superuser's approval turns even a rejected leave into an approved one. */
  lemma AdminOverridesRejection(caller: Principal, l: Leave)
    requires caller.isSuperuser && l.status == Rejected
    ensures ApproveLeave(caller, l).Save? && ApproveLeave(caller, l).leave.status == Approved
  {
  }

  /** A rejection records the rejecting user as approver and keeps the manager's validation. */
  lemma RejectionRecordsRejecter(caller: Principal, l: Leave)
    ensures RejectLeave(caller, l).Save? <==> l.status == Pending || l.status == ManagerApproved
    ensures RejectLeave(caller, l).Save? ==>
              var r := RejectLeave(caller, l).leave;
              r.status == Rejected && r.approvedBy == Some(caller.id) && r.managerApprovedBy == l.managerApprovedBy
  {
  }

  /** HTTP answer of the three actions. */
  datatype Response = Ok(leave: Leave) | Deleted | BadRequest(reason: Refusal) | Forbidden | NotFound

  /** The leave and reminder tables. */
  datatype Tables = Tables(leaves: seq<Leave>, reminders: seq<Notification>)

  predicate UniqueIds(leaves: seq<Leave>) {
    forall i, j :: 0 <= i < j < |leaves| ==> leaves[i].id != leaves[j].id
  }

  predicate ValidTables(t: Tables) {
    UniqueIds(t.leaves) && UniqueKeys(t.reminders)
  }

  /** The position of the first leave with id `id`. */
  function IndexOfId(leaves: seq<Leave>, id: LeaveId): (r: Option<nat>)
    ensures r.Some? ==> r.value < |leaves| && leaves[r.value].id == id
    ensures r.None? ==> forall l :: l in leaves ==> l.id != id
  {
    if leaves == [] then None
    else if leaves[0].id == id then Some(0)
    else
      var rest := IndexOfId(leaves[1..], id);
      if rest.Some? then Some(rest.value + 1) else None
  }

  /** `get_object()`: the position of leave `id` if it is in the caller's scoped queryset. */
  function FindVisible(caller: Principal, leaves: seq<Leave>, id: LeaveId): (r: Option<nat>)
    ensures r.Some? ==> r.value < |leaves| && leaves[r.value].id == id && leaves[r.value] in VisibleLeaves(caller, leaves)
    ensures r.None? && UniqueIds(leaves) ==> forall l :: l in VisibleLeaves(caller, leaves) ==> l.id != id
  {
    var i := IndexOfId(leaves, id);
    if i.Some? && Visible(ResolveRole(caller), caller.id, LeaveKeys(leaves[i.value])) then i else None
  }

  /** Saving a leave row in place, then running the post-save hook. */
  function SaveAt(t: Tables, i: nat, l: Leave): (r: Tables)
    requires i < |t.leaves|
    ensures ValidTables(t) && t.leaves[i].id == l.id ==> ValidTables(r)
    ensures l.status == Approved && RemindersRepresentable(l) ==> HasReminder(r.reminders, l.id, SevenDaysBefore) && HasReminder(r.reminders, l.id, Eve)
    ensures l.status != Approved || !RemindersRepresentable(l) ==> r.reminders == t.reminders
  {
    var leaves := t.leaves[i := l];
    assert forall k :: 0 <= k < |leaves| ==> leaves[k].id == (if k == i then l.id else t.leaves[k].id);
    Tables(leaves, AfterLeaveSaved(t.reminders, l))
  }

  /** The decision of an action turned into its answer and the new tables. */
  function Apply(t: Tables, i: nat, d: Decision): (Response, Tables)
    requires i < |t.leaves|
  {
    match d
    case Save(l) => (Ok(l), SaveAt(t, i, l))
    case Refuse(reason) => (BadRequest(reason), t)
  }

  /** `POST /leaves/{id}/approve/`. */
  function ApproveRequest(caller: Principal, id: LeaveId, t: Tables): (Response, Tables) {
    var found := FindVisible(caller, t.leaves, id);
    if found.None? then (NotFound, t)
    else Apply(t, found.value, ApproveLeave(caller, t.leaves[found.value]))
  }

  /** `POST /leaves/{id}/reject/`: the permission check comes before the lookup. */
  function RejectRequest(caller: Principal, id: LeaveId, t: Tables): (Response, Tables) {
    if !caller.isStaff && !caller.isSuperuser then (Forbidden, t)
    else
      var found := FindVisible(caller, t.leaves, id);
      if found.None? then (NotFound, t)
      else Apply(t, found.value, RejectLeave(caller, t.leaves[found.value]))
  }

  /** `DELETE /leaves/{id}/`: any caller may delete a leave of its scope that is not approved. */
  function DestroyRequest(caller: Principal, id: LeaveId, t: Tables): (Response, Tables) {
    var found := FindVisible(caller, t.leaves, id);
    if found.None? then (NotFound, t)
    else
      var i := found.value;
      if t.leaves[i].status == Approved then (BadRequest(ApprovedCannotBeDeleted), t)
      else (Deleted, Tables(t.leaves[..i] + t.leaves[i + 1..], t.reminders))
  }

  /** Every refused, forbidden or missing request leaves both tables as they were. */
  lemma FailuresChangeNothing(caller: Principal, id: LeaveId, t: Tables)
    ensures !ApproveRequest(caller, id, t).0.Ok? ==> ApproveRequest(caller, id, t).1 == t
    ensures !RejectRequest(caller, id, t).0.Ok? ==> RejectRequest(caller, id, t).1 == t
    ensures !DestroyRequest(caller, id, t).0.Deleted? ==> DestroyRequest(caller, id, t).1 == t
  {
  }

  /** A leave outside the caller's scope cannot be approved, rejected or deleted by it. */
  lemma OutOfScopeIsNotFound(caller: Principal, id: LeaveId, t: Tables)
    requires forall l :: l in t.leaves && l.id == id ==> !Visible(ResolveRole(caller), caller.id, LeaveKeys(l))
    ensures ApproveRequest(caller, id, t) == (NotFound, t)
    ensures DestroyRequest(caller, id, t) == (NotFound, t)
    ensures RejectRequest(caller, id, t) == (if !caller.isStaff && !caller.isSuperuser then Forbidden else NotFound, t)
  {
  }

  /** A successful action saves exactly the requested leave, keeps ids unique and reminds of it once approved. */
  lemma SuccessUpdatesOneLeave(caller: Principal, id: LeaveId, t: Tables)
    requires ValidTables(t)
    ensures var (resp, t2) := ApproveRequest(caller, id, t);
      ValidTables(t2)
      && (resp.Ok? ==>
            exists i :: 0 <= i < |t.leaves| && t.leaves[i].id == id && t2.leaves == t.leaves[i := resp.leave]
                        && SameRequest(t.leaves[i], resp.leave)
                        && (resp.leave.status == Approved && RemindersRepresentable(resp.leave) ==>
                              HasReminder(t2.reminders, id, SevenDaysBefore) && HasReminder(t2.reminders, id, Eve)))
  {
  }

  /** Removing the row at `i` of a table with unique ids removes its id and keeps every other row. */
  lemma RemoveAtKeepsOthers(leaves: seq<Leave>, i: nat)
    requires UniqueIds(leaves) && i < |leaves|
    ensures var rest := leaves[..i] + leaves[i + 1..];
      |rest| == |leaves| - 1
      && (forall l :: l in rest ==> l in leaves && l.id != leaves[i].id)
      && forall l :: l in leaves && l.id != leaves[i].id ==> l in rest
  {
    RemoveAtLosesOnlyIt(leaves, i);
    RemoveAtKeepsRest(leaves, i);
  }

  lemma RemoveAtKeepsRest(leaves: seq<Leave>, i: nat)
    requires i < |leaves|
    ensures forall l :: l in leaves && l.id != leaves[i].id ==> l in leaves[..i] + leaves[i + 1..]
  {
    var rest := leaves[..i] + leaves[i + 1..];
    forall l | l in leaves && l.id != leaves[i].id
      ensures l in rest
    {
      var k :| 0 <= k < |leaves| && leaves[k] == l;
      if k < i {
        assert rest[k] == l;
      } else {
        assert rest[k - 1] == l;
      }
    }
  }

  lemma RemoveAtLosesOnlyIt(leaves: seq<Leave>, i: nat)
    requires UniqueIds(leaves) && i < |leaves|
    ensures forall l :: l in leaves[..i] + leaves[i + 1..] ==> l in leaves && l.id != leaves[i].id
  {
    var rest := leaves[..i] + leaves[i + 1..];
    forall l | l in rest
      ensures l in leaves && l.id != leaves[i].id
    {
      var k :| 0 <= k < |rest| && rest[k] == l;
      if k < i {
        assert leaves[k] == l;
      } else {
        assert leaves[k + 1] == l;
      }
    }
  }

  /** An approved leave in scope is refused deletion; any other one is removed and only it. */
  lemma DestroyKeepsApproved(caller: Principal, id: LeaveId, t: Tables)
    requires ValidTables(t)
    ensures var (resp, t2) := DestroyRequest(caller, id, t);
      (resp == BadRequest(ApprovedCannotBeDeleted) ==> exists l :: l in t.leaves && l.id == id && l.status == Approved)
      && (resp.Deleted? ==> |t2.leaves| == |t.leaves| - 1 && (forall l :: l in t2.leaves ==> l in t.leaves && l.id != id)
                            && forall l :: l in t.leaves && l.id != id ==> l in t2.leaves)
  {
    var found := FindVisible(caller, t.leaves, id);
    if found.Some? {
      RemoveAtKeepsOthers(t.leaves, found.value);
    }
  }

  /**
   * The two-tier path: a manager of the employee's direction validates a
   * pending leave, then the employee's entreprise approves it; the leave
   * ends approved, with both approvers recorded and its two reminders,
   * unless it starts in the first week of 0001, where the hook raises and
   * writes none.
   */
  lemma {:induction false} TwoTierApproval(manager: Principal, company: Principal, l: Leave, t: Tables)
    requires ValidTables(t) && l in t.leaves && l.status == Pending
    requires ResolveRole(manager).ManagerRole? && l.employee.direction.Some?
             && l.employee.direction.value in ResolveRole(manager).directions
    requires l.employee.department.Some? && ResolveRole(company) == EntrepriseRole(l.employee.department.value)
    ensures var (r1, t1) := ApproveRequest(manager, l.id, t);
      var (r2, t2) := ApproveRequest(company, l.id, t1);
      r1.Ok? && r1.leave.status == ManagerApproved && r1.leave.managerApprovedBy == Some(manager.id)
      && r2.Ok? && r2.leave.status == Approved && r2.leave.approvedBy == Some(company.id)
      && r2.leave.managerApprovedBy == Some(manager.id)
      && (RemindersRepresentable(l) ==> HasReminder(t2.reminders, l.id, SevenDaysBefore) && HasReminder(t2.reminders, l.id, Eve))
      && (!RemindersRepresentable(l) ==> t2.reminders == t.reminders)
  {
    var k :| 0 <= k < |t.leaves| && t.leaves[k] == l;
    assert Visible(ResolveRole(manager), manager.id, LeaveKeys(l));
    var f1 := FindVisible(manager, t.leaves, l.id);
    assert f1.Some?;
    assert f1.value == k;
    var validated := l.(status := ManagerApproved, managerApprovedBy := Some(manager.id));
    var t1 := SaveAt(t, k, validated);
    assert ApproveRequest(manager, l.id, t) == (Ok(validated), t1);
    assert t1.leaves[k] == validated;
    assert Visible(ResolveRole(company), company.id, LeaveKeys(validated));
    var f2 := FindVisible(company, t1.leaves, l.id);
    assert f2.Some?;
    assert f2.value == k;
  }

  /** The leave table of the API, with the reminder table its save hook writes to. */
  class LeaveStore {
    var leaves: seq<Leave>
    const reminders: NotificationTable

    ghost predicate Valid()
      reads this, reminders
    {
      ValidTables(Tables(leaves, reminders.rows))
    }

    constructor (reminders: NotificationTable)
      requires UniqueKeys(reminders.rows)
      ensures Valid() && leaves == [] && this.reminders == reminders
    {
      leaves := [];
      this.reminders := reminders;
    }

    /** Saves `l` at position `i` and runs the post-save hook. */
    method Save(i: nat, l: Leave)
      requires i < |leaves|
      modifies this, reminders
      ensures Tables(leaves, reminders.rows) == SaveAt(old(Tables(leaves, reminders.rows)), i, l)
    {
      leaves := leaves[i := l];
      reminders.CreateLeaveNotifications(l);
    }

    method Approve(caller: Principal, id: LeaveId) returns (response: Response)
      requires Valid()
      modifies this, reminders
      ensures Valid()
      ensures (response, Tables(leaves, reminders.rows)) == ApproveRequest(caller, id, old(Tables(leaves, reminders.rows)))
    {
      var found := FindVisible(caller, leaves, id);
      if found.None? {
        return NotFound;
      }
      var d := ApproveLeave(caller, leaves[found.value]);
      if d.Refuse? {
        return BadRequest(d.reason);
      }
      Save(found.value, d.leave);
      response := Ok(d.leave);
    }

    method Reject(caller: Principal, id: LeaveId) returns (response: Response)
      requires Valid()
      modifies this, reminders
      ensures Valid()
      ensures (response, Tables(leaves, reminders.rows)) == RejectRequest(caller, id, old(Tables(leaves, reminders.rows)))
    {
      if !caller.isStaff && !caller.isSuperuser {
        return Forbidden;
      }
      var found := FindVisible(caller, leaves, id);
      if found.None? {
        return NotFound;
      }
      var d := RejectLeave(caller, leaves[found.value]);
      if d.Refuse? {
        return BadRequest(d.reason);
      }
      Save(found.value, d.leave);
      response := Ok(d.leave);
    }

    method Destroy(caller: Principal, id: LeaveId) returns (response: Response)
      requires Valid()
      modifies this
      ensures Valid()
      ensures (response, Tables(leaves, reminders.rows)) == DestroyRequest(caller, id, old(Tables(leaves, reminders.rows)))
    {
      var found := FindVisible(caller, leaves, id);
      if found.None? {
        return NotFound;
      }
      var i := found.value;
      if leaves[i].status == Approved {
        return BadRequest(ApprovedCannotBeDeleted);
      }
      leaves := leaves[..i] + leaves[i + 1..];
      response := Deleted;
    }
  }
}
