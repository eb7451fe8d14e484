/**
 * Role resolution and the role-scoped querysets of the REST API
 * (`get_user_context`, `RoleFilterMixin`) and the role payload that the
 * login endpoint returns.
 */
module Roles {
  import opened Wrappers
  import opened Domain

  /** The context `get_user_context` returns: a role and its perimeter. */
  datatype Role =
    | AdminRole
    | EntrepriseRole(department: DepartmentId)
    | ManagerRole(directions: seq<string>)
    | EmployeeRole

  /**
   * First match over superuser, company profile, staff flag; a staff user
   * without a manager profile is a manager of no direction.
   */
  function ResolveRole(p: Principal): (r: Role)
    ensures r.AdminRole? <==> p.isSuperuser
    ensures r.EntrepriseRole? <==> !p.isSuperuser && p.companyDepartment.Some?
    ensures r.EntrepriseRole? ==> r.department == p.companyDepartment.value
    ensures r.ManagerRole? <==> !p.isSuperuser && p.companyDepartment.None? && p.isStaff
    ensures r.ManagerRole? ==> r.directions == (if p.managerDirections.Some? then p.managerDirections.value else [])
    ensures r.EmployeeRole? <==> !p.isSuperuser && p.companyDepartment.None? && !p.isStaff
  {
    if p.isSuperuser then AdminRole
    else if p.companyDepartment.Some? then EntrepriseRole(p.companyDepartment.value)
    else if p.isStaff then
      ManagerRole(if p.managerDirections.Some? then p.managerDirections.value else [])
    else EmployeeRole
  }

  /** The role a form or the registration endpoint asks for (`ROLE_CHOICES`). */
  datatype RoleChoice = ChooseAdmin | ChooseManager | ChooseEntreprise | ChooseEmployee

  /** The role string `get_user_context` puts under `'role'`. */
  function RoleName(r: Role): string {
    match r
    case AdminRole => "admin"
    case EntrepriseRole(_) => "entreprise"
    case ManagerRole(_) => "manager"
    case EmployeeRole => "employee"
  }

  /** The three fields a scoped row is filtered on. */
  datatype ScopeKeys = ScopeKeys(department: Option<DepartmentId>, direction: Option<string>, owner: Option<UserId>)

  /** `department`, `direction__in` and `user` on an employee row. */
  function EmployeeKeys(e: Employee): ScopeKeys {
    ScopeKeys(e.department, e.direction, e.user)
  }

  /** `employee__department`, `employee__direction__in`, `employee__user` on a leave row. */
  function LeaveKeys(l: Leave): ScopeKeys {
    EmployeeKeys(l.employee)
  }

  function AttendanceKeys(a: Attendance): ScopeKeys {
    EmployeeKeys(a.employee)
  }

  /** Whether a row with keys `k` stays in the queryset of a caller with role `role`. */
  predicate Visible(role: Role, caller: UserId, k: ScopeKeys) {
    match role
    case AdminRole => true
    case EntrepriseRole(d) => k.department == Some(d)
    case ManagerRole(dirs) => |dirs| > 0 && k.direction.Some? && k.direction.value in dirs
    case EmployeeRole => k.owner == Some(caller)
  }

  /** `get_role_filtered_queryset`, the filter field names given by `keys`. */
  function RoleFiltered<T(!new)>(p: Principal, rows: seq<T>, keys: T -> ScopeKeys): (r: seq<T>)
    ensures forall x :: x in r <==> x in rows && Visible(ResolveRole(p), p.id, keys(x))
  {
    Filter(rows, x => Visible(ResolveRole(p), p.id, keys(x)))
  }

  function VisibleEmployees(p: Principal, employees: seq<Employee>): (r: seq<Employee>)
    ensures forall e :: e in r <==> e in employees && Visible(ResolveRole(p), p.id, EmployeeKeys(e))
  {
    RoleFiltered(p, employees, EmployeeKeys)
  }

  function VisibleLeaves(p: Principal, leaves: seq<Leave>): (r: seq<Leave>)
    ensures forall l :: l in r <==> l in leaves && Visible(ResolveRole(p), p.id, LeaveKeys(l))
  {
    RoleFiltered(p, leaves, LeaveKeys)
  }

  function VisibleAttendances(p: Principal, rows: seq<Attendance>): (r: seq<Attendance>)
    ensures forall a :: a in r <==> a in rows && Visible(ResolveRole(p), p.id, AttendanceKeys(a))
  {
    RoleFiltered(p, rows, AttendanceKeys)
  }

  lemma {:induction false} FilterKeepsAll<T(!new)>(rows: seq<T>, keep: T -> bool)
    requires forall x :: x in rows ==> keep(x)
    ensures Filter(rows, keep) == rows
  {
    if rows != [] {
      FilterKeepsAll(rows[1..], keep);
    }
  }

  lemma {:induction false} FilterKeepsNone<T(!new)>(rows: seq<T>, keep: T -> bool)
    requires forall x :: x in rows ==> !keep(x)
    ensures Filter(rows, keep) == []
  {
    if rows != [] {
      FilterKeepsNone(rows[1..], keep);
    }
  }

  /** A filter whose condition agrees with the role's perimeter on every row is the role's queryset. */
  lemma RoleFilteredAgrees<T(!new)>(p: Principal, rows: seq<T>, keys: T -> ScopeKeys, keep: T -> bool)
    requires forall x :: x in rows ==> keep(x) == Visible(ResolveRole(p), p.id, keys(x))
    ensures Filter(rows, keep) == RoleFiltered(p, rows, keys)
  {
    FilterAgrees(rows, keep, x => Visible(ResolveRole(p), p.id, keys(x)));
  }

  /** An administrator's queryset is the whole table, in its order. */
  lemma AdminSeesAll<T(!new)>(p: Principal, rows: seq<T>, keys: T -> ScopeKeys)
    requires p.isSuperuser
    ensures RoleFiltered(p, rows, keys) == rows
  {
    FilterKeepsAll(rows, x => Visible(ResolveRole(p), p.id, keys(x)));
  }

  /** A manager with no direction sees nothing (fail-closed), whatever the table holds. */
  lemma ManagerWithoutDirectionsSeesNothing<T(!new)>(p: Principal, rows: seq<T>, keys: T -> ScopeKeys)
    requires ResolveRole(p) == ManagerRole([])
    ensures RoleFiltered(p, rows, keys) == []
  {
    FilterKeepsNone(rows, x => Visible(ResolveRole(p), p.id, keys(x)));
  }

  /** A staff user that has neither profile resolves to a manager of no direction. */
  lemma StaffWithoutProfilesIsEmptyManager(p: Principal)
    requires !p.isSuperuser && p.isStaff && p.companyDepartment.None? && p.managerDirections.None?
    ensures ResolveRole(p) == ManagerRole([])
  {
  }

  /** The company profile takes precedence over the staff flag and the manager profile. */
  lemma CompanyProfileWins(p: Principal, d: DepartmentId)
    requires !p.isSuperuser && p.companyDepartment == Some(d)
    ensures ResolveRole(p) == EntrepriseRole(d)
    ensures forall rows: seq<Employee> :: forall e :: e in VisibleEmployees(p, rows) ==> e.department == Some(d)
  {
  }

  /** What the login endpoint answers. */
  datatype LoginResponse =
    | MissingCredentials
    | InvalidCredentials
    | LoggedIn(user: UserId, role: string, managedDirections: seq<string>, managedDepartment: Option<DepartmentId>)

  /**
   * `LoginView.post`; `authenticated` is what the authentication backend
   * returns for the submitted credentials.
   */
  function Login(username: Option<string>, password: Option<string>, authenticated: Option<Principal>): (r: LoginResponse)
    ensures r.MissingCredentials? <==> username.None? || username == Some("") || password.None? || password == Some("")
    ensures r.InvalidCredentials? <==> !r.MissingCredentials? && authenticated.None?
    ensures r.LoggedIn? ==>
              authenticated.Some? && r.user == authenticated.value.id
              && r.role == RoleName(ResolveRole(authenticated.value))
    ensures r.LoggedIn? ==> (r.managedDirections != [] ==> ResolveRole(authenticated.value).ManagerRole?)
    ensures r.LoggedIn? ==> (r.managedDepartment.Some? <==> ResolveRole(authenticated.value).EntrepriseRole?)
  {
    if username.None? || username == Some("") || password.None? || password == Some("") then MissingCredentials
    else if authenticated.None? then InvalidCredentials
    else
      var u := authenticated.value;
      var ctx := ResolveRole(u);
      var dirs := if ctx.ManagerRole? then ctx.directions else [];
      var dept := if ctx.EntrepriseRole? then Some(ctx.department) else None;
      LoggedIn(u.id, RoleName(ctx), dirs, dept)
  }

  /** The payload's perimeter is exactly the one the scoped querysets apply. */
  lemma LoginPerimeterMatchesContext(username: string, password: string, u: Principal)
    requires username != "" && password != ""
    ensures var r := Login(Some(username), Some(password), Some(u));
      r.LoggedIn?
      && (ResolveRole(u).ManagerRole? ==> r.managedDirections == ResolveRole(u).directions)
      && (ResolveRole(u).EntrepriseRole? ==> r.managedDepartment == Some(ResolveRole(u).department))
  {
  }
}
