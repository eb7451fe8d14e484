/**
 * The querysets of the REST API that do not go through the shared role
 * filter, or go through it and filter further: password records,
 * departments, employees grouped by department, pending leaves, the
 * unscoped attendance actions and the dashboard statistics.
 */
module ViewScopes {
  import opened Wrappers
  import opened Dates
  import opened Domain
  import opened Roles

  /** A stored (encrypted) password, attached to one user account. */
  datatype PasswordRecord = PasswordRecord(user: UserId, role: string)

  /** Some employee of `employees` matching `inScope` is linked to user `u`. */
  predicate UserOfEmployeeIn(employees: seq<Employee>, u: UserId, inScope: Employee -> bool) {
    exists e :: e in employees && inScope(e) && e.user == Some(u)
  }

  /**
   * `PasswordRecordViewSet.get_queryset` as written: a manager without any
   * direction falls through to every record. `None` is the 403 that
   * `IsAdminUser` answers to a user without the staff flag.
   */
  function PasswordRecordsAsWritten(p: Principal, records: seq<PasswordRecord>, employees: seq<Employee>): (r: Option<seq<PasswordRecord>>)
    ensures r.None? <==> !p.isStaff
    ensures r.Some? && p.isSuperuser ==> r.value == records
    ensures r.Some? && ResolveRole(p) == ManagerRole([]) ==> r.value == records
  {
    if !p.isStaff then None
    else
      var role := ResolveRole(p);
      match role
      case AdminRole => Some(records)
      case EntrepriseRole(d) =>
        Some(Filter(records, (rec: PasswordRecord) => UserOfEmployeeIn(employees, rec.user, (e: Employee) => e.department == Some(d))))
      case ManagerRole(dirs) =>
        if |dirs| > 0 then
          Some(Filter(records, (rec: PasswordRecord) => UserOfEmployeeIn(employees, rec.user, (e: Employee) => e.direction.Some? && e.direction.value in dirs)))
        else
          Some(records)
      case EmployeeRole => Some([])
  }

  /**
   * The password queryset with the manager branch failing closed, as the
   * shared role filter does: a record is listed exactly when it belongs to
   * the user of an employee the caller may see.
   */
  function PasswordRecords(p: Principal, records: seq<PasswordRecord>, employees: seq<Employee>): (r: Option<seq<PasswordRecord>>)
    ensures r.None? <==> !p.isStaff
    ensures r.Some? && p.isSuperuser ==> r.value == records
    ensures r.Some? && !p.isSuperuser ==>
              forall rec :: rec in r.value <==>
                rec in records && UserOfEmployeeIn(employees, rec.user, (e: Employee) => Visible(ResolveRole(p), p.id, EmployeeKeys(e)))
                && !ResolveRole(p).EmployeeRole?
  {
    if !p.isStaff then None
    else
      var role := ResolveRole(p);
      match role
      case AdminRole => Some(records)
      case EntrepriseRole(d) =>
        Some(Filter(records, (rec: PasswordRecord) => UserOfEmployeeIn(employees, rec.user, (e: Employee) => e.department == Some(d))))
      case ManagerRole(dirs) =>
        if |dirs| > 0 then
          Some(Filter(records, (rec: PasswordRecord) => UserOfEmployeeIn(employees, rec.user, (e: Employee) => e.direction.Some? && e.direction.value in dirs)))
        else
          Some([])
      case EmployeeRole => Some([])
  }

  /** A staff user without profiles reads every stored password under the code as written. */
  lemma {:induction false} EmptyManagerReadsAllPasswords(p: Principal, records: seq<PasswordRecord>, employees: seq<Employee>)
    requires !p.isSuperuser && p.isStaff && p.companyDepartment.None? && p.managerDirections.None?
    ensures PasswordRecordsAsWritten(p, records, employees) == Some(records)
    ensures PasswordRecords(p, records, employees) == Some([])
  {
    assert ResolveRole(p) == ManagerRole([]);
  }

  /** For every other caller the code as written and the fail-closed queryset agree. */
  lemma PasswordRecordsAgreeOtherwise(p: Principal, records: seq<PasswordRecord>, employees: seq<Employee>)
    requires ResolveRole(p) != ManagerRole([])
    ensures PasswordRecordsAsWritten(p, records, employees) == PasswordRecords(p, records, employees)
  {
  }

  /** The employee row linked to user `u` (`user.employee_profile`), if any. */
  function ProfileOf(u: UserId, employees: seq<Employee>): (r: Option<Employee>)
    ensures r.Some? ==> r.value in employees && r.value.user == Some(u)
    ensures r.None? ==> forall e :: e in employees ==> e.user != Some(u)
  {
    if employees == [] then None
    else if employees[0].user == Some(u) then Some(employees[0])
    else ProfileOf(u, employees[1..])
  }

  /** `DepartmentViewSet.get_queryset` over the table of department ids. */
  function VisibleDepartments(p: Principal, departments: seq<DepartmentId>, employees: seq<Employee>): (r: seq<DepartmentId>)
    ensures forall d :: d in r ==> d in departments
    ensures ResolveRole(p).AdminRole? || ResolveRole(p).ManagerRole? ==> r == departments
    ensures ResolveRole(p).EntrepriseRole? ==> forall d :: d in r <==> d in departments && d == ResolveRole(p).department
    ensures ResolveRole(p).EmployeeRole? ==>
              forall d :: d in r <==> d in departments && ProfileOf(p.id, employees).Some?
                                      && ProfileOf(p.id, employees).value.department == Some(d)
  {
    match ResolveRole(p)
    case AdminRole => departments
    case ManagerRole(_) => departments
    case EntrepriseRole(dept) => Filter(departments, (d: DepartmentId) => d == dept)
    case EmployeeRole =>
      var profile := ProfileOf(p.id, employees);
      if profile.Some? && profile.value.department.Some? then
        Filter(departments, (d: DepartmentId) => d == profile.value.department.value)
      else []
  }

  /** Every department of an employee the caller sees is a department the caller sees. */
  lemma DepartmentsCoverVisibleEmployees(p: Principal, departments: seq<DepartmentId>, employees: seq<Employee>, e: Employee)
    requires e in VisibleEmployees(p, employees) && e.department.Some? && e.department.value in departments
    requires forall i, j :: 0 <= i < j < |employees| && employees[i].user.Some? ==> employees[i].user != employees[j].user
    ensures e.department.value in VisibleDepartments(p, departments, employees)
  {
    if ResolveRole(p).EmployeeRole? {
      var profile := ProfileOf(p.id, employees);
      assert profile.Some?;
      assert profile.value == e by {
        var i :| 0 <= i < |employees| && employees[i] == profile.value;
        var j :| 0 <= j < |employees| && employees[j] == e;
        assert employees[i].user == employees[j].user == Some(p.id);
      }
    }
  }

  /** One entry of `by_department`: a department and its visible employees. */
  datatype DepartmentGroup = DepartmentGroup(department: DepartmentId, employees: seq<Employee>)

  function MembersOf(visible: seq<Employee>, d: DepartmentId): (r: seq<Employee>)
    ensures forall e :: e in r <==> e in visible && e.department == Some(d)
  {
    Filter(visible, (e: Employee) => e.department == Some(d))
  }

  /** The groups `by_department` returns for the departments in `departments`. */
  function Groups(departments: seq<DepartmentId>, visible: seq<Employee>): (r: seq<DepartmentGroup>)
    ensures forall g :: g in r ==> g.department in departments && g.employees != [] && g.employees == MembersOf(visible, g.department)
    ensures forall d :: d in departments && MembersOf(visible, d) != [] ==> exists g :: g in r && g.department == d
  {
    if departments == [] then []
    else
      var d := departments[|departments| - 1];
      var members := MembersOf(visible, d);
      var earlier := Groups(departments[..|departments| - 1], visible);
      assert forall x :: x in departments ==> x in departments[..|departments| - 1] || x == d;
      earlier + (if members != [] then [DepartmentGroup(d, members)] else [])
  }

  /** `EmployeeViewSet.by_department`. */
  method ByDepartment(p: Principal, departments: seq<DepartmentId>, employees: seq<Employee>) returns (result: seq<DepartmentGroup>)
    ensures result == Groups(departments, VisibleEmployees(p, employees))
  {
    var visible := VisibleEmployees(p, employees);
    result := [];
    var i := 0;
    while i < |departments|
      invariant 0 <= i <= |departments|
      invariant result == Groups(departments[..i], visible)
    {
      var members := MembersOf(visible, departments[i]);
      if members != [] {
        result := result + [DepartmentGroup(departments[i], members)];
      }
      assert departments[..i + 1][..i] == departments[..i];
      i := i + 1;
    }
    assert departments[..i] == departments;
  }

  predicate AwaitingDecision(l: Leave) {
    l.status == Pending || l.status == ManagerApproved
  }

  /** `LeaveViewSet.pending`: the caller's leaves not yet decided. */
  function PendingLeaves(p: Principal, leaves: seq<Leave>): (r: seq<Leave>)
    ensures forall l :: l in r <==> l in leaves && Visible(ResolveRole(p), p.id, LeaveKeys(l)) && AwaitingDecision(l)
  {
    Filter(VisibleLeaves(p, leaves), AwaitingDecision)
  }

  /** `AttendanceViewSet.today`: the attendance rows of the day, taken from the whole table. */
  function AttendanceToday(rows: seq<Attendance>, today: Date): (r: seq<Attendance>)
    ensures forall a :: a in r <==> a in rows && a.date == today
  {
    Filter(rows, (a: Attendance) => a.date == today)
  }

  /** A caller sees in `today` the rows the scoped attendance list hides from it. */
  lemma TodayIgnoresScope(p: Principal, rows: seq<Attendance>, today: Date, a: Attendance)
    requires a in rows && a.date == today && !Visible(ResolveRole(p), p.id, AttendanceKeys(a))
    ensures a in AttendanceToday(rows, today) && a !in VisibleAttendances(p, rows)
  {
  }

  datatype ByEmployeeResponse = EmployeeIdRequired | History(rows: seq<Attendance>)

  /** `AttendanceViewSet.by_employee`, unscoped; `None` is a missing or empty `employee_id`. */
  function AttendanceByEmployee(rows: seq<Attendance>, employeeId: Option<EmployeeId>): (r: ByEmployeeResponse)
    ensures r.EmployeeIdRequired? <==> employeeId.None?
    ensures r.History? ==> forall a :: a in r.rows <==> a in rows && a.employee.id == employeeId.value
  {
    if employeeId.None? then EmployeeIdRequired
    else History(Filter(rows, (a: Attendance) => a.employee.id == employeeId.value))
  }

  datatype DashboardStats = DashboardStats(totalEmployees: nat, totalDepartments: nat, presentToday: nat, onLeaveToday: nat)

  /** The perimeter `DashboardStatsView` applies: only entreprise and manager roles are narrowed. */
  predicate InDashboardScope(role: Role, k: ScopeKeys) {
    match role
    case EntrepriseRole(d) => k.department == Some(d)
    case ManagerRole(dirs) => |dirs| > 0 && k.direction.Some? && k.direction.value in dirs
    case _ => true
  }

  predicate PresentOn(a: Attendance, today: Date) {
    a.date == today && a.status == Present
  }

  predicate OnLeaveOn(l: Leave, today: Date) {
    NotAfter(l.start, today) && NotAfter(today, l.end) && l.status == Approved
  }

  /** `DashboardStatsView.get`. */
  function Dashboard(p: Principal, employees: seq<Employee>, departments: seq<DepartmentId>,
                     leaves: seq<Leave>, attendances: seq<Attendance>, today: Date): (r: DashboardStats)
    ensures r.totalDepartments == |departments|
    ensures r.totalEmployees == |Filter(employees, (e: Employee) => InDashboardScope(ResolveRole(p), EmployeeKeys(e)))|
    ensures r.totalEmployees <= |employees| && r.presentToday <= |attendances| && r.onLeaveToday <= |leaves|
  {
    var role := ResolveRole(p);
    var emps := Filter(employees, (e: Employee) => InDashboardScope(role, EmployeeKeys(e)));
    var ls := Filter(leaves, (l: Leave) => InDashboardScope(role, LeaveKeys(l)));
    var ats := Filter(attendances, (a: Attendance) => InDashboardScope(role, AttendanceKeys(a)));
    DashboardStats(|emps|, |departments|,
                   |Filter(ats, (a: Attendance) => PresentOn(a, today))|,
                   |Filter(ls, (l: Leave) => OnLeaveOn(l, today))|)
  }

  /** For administrators, entreprises and managers the dashboard counts exactly their scoped querysets. */
  lemma {:induction false} DashboardMatchesScopedQuerysets(p: Principal, employees: seq<Employee>, departments: seq<DepartmentId>,
                                                           leaves: seq<Leave>, attendances: seq<Attendance>, today: Date)
    requires !ResolveRole(p).EmployeeRole?
    ensures var s := Dashboard(p, employees, departments, leaves, attendances, today);
      s.totalEmployees == |VisibleEmployees(p, employees)|
      && s.presentToday == |Filter(VisibleAttendances(p, attendances), (a: Attendance) => PresentOn(a, today))|
      && s.onLeaveToday == |Filter(VisibleLeaves(p, leaves), (l: Leave) => OnLeaveOn(l, today))|
  {
    var role := ResolveRole(p);
    RoleFilteredAgrees(p, employees, EmployeeKeys, (e: Employee) => InDashboardScope(role, EmployeeKeys(e)));
    RoleFilteredAgrees(p, leaves, LeaveKeys, (l: Leave) => InDashboardScope(role, LeaveKeys(l)));
    RoleFilteredAgrees(p, attendances, AttendanceKeys, (a: Attendance) => InDashboardScope(role, AttendanceKeys(a)));
  }

  /** A plain employee's dashboard counts the whole personnel, every present row and every approved leave of the day. */
  lemma {:induction false} EmployeeDashboardIsGlobal(p: Principal, employees: seq<Employee>, departments: seq<DepartmentId>,
                                                     leaves: seq<Leave>, attendances: seq<Attendance>, today: Date)
    requires ResolveRole(p).EmployeeRole?
    ensures var s := Dashboard(p, employees, departments, leaves, attendances, today);
      s.totalEmployees == |employees|
      && s.presentToday == |Filter(attendances, (a: Attendance) => PresentOn(a, today))|
      && s.onLeaveToday == |Filter(leaves, (l: Leave) => OnLeaveOn(l, today))|
  {
    FilterKeepsAll(employees, (e: Employee) => InDashboardScope(ResolveRole(p), EmployeeKeys(e)));
    FilterKeepsAll(leaves, (l: Leave) => InDashboardScope(ResolveRole(p), LeaveKeys(l)));
    FilterKeepsAll(attendances, (a: Attendance) => InDashboardScope(ResolveRole(p), AttendanceKeys(a)));
  }
}
