/**
 * The Excel reports: their own employee perimeter (`_filter_employees`),
 * which differs from the role perimeter of the API for a non-staff user
 * holding a company profile, the restriction of leave and attendance rows
 * to the employees of that perimeter, and the numbering and grand total of
 * the per-company sheet. Cell styling and file output are not modelled.
 */
module Reports {
  import opened Wrappers
  import opened Domain
  import opened Roles

  /** `_filter_employees`, as a condition on one employee row. */
  predicate InReportScope(u: Principal, e: Employee) {
    if u.isSuperuser then true
    else if u.isStaff then
      if u.companyDepartment.Some? then e.department == u.companyDepartment
      else u.managerDirections.Some? && |u.managerDirections.value| > 0
           && e.direction.Some? && e.direction.value in u.managerDirections.value
    else e.user == Some(u.id)
  }

  /** `_filter_employees(user)` over the employee table. */
  function ReportEmployees(u: Principal, employees: seq<Employee>): (r: seq<Employee>)
    ensures forall e :: e in r <==> e in employees && InReportScope(u, e)
    ensures u.isSuperuser ==> r == employees
    ensures (!u.isSuperuser && u.isStaff && u.companyDepartment.None?
             && (u.managerDirections.None? || u.managerDirections.value == [])) ==> r == []
  {
    var keep := (e: Employee) => InReportScope(u, e);
    assert u.isSuperuser ==> Filter(employees, keep) == employees by {
      if u.isSuperuser {
        FilterKeepsAll(employees, keep);
      }
    }
    assert (!u.isSuperuser && u.isStaff && u.companyDepartment.None?
            && (u.managerDirections.None? || u.managerDirections.value == [])) ==> Filter(employees, keep) == [] by {
      if !u.isSuperuser && u.isStaff && u.companyDepartment.None? && (u.managerDirections.None? || u.managerDirections.value == []) {
        FilterKeepsNone(employees, keep);
      }
    }
    Filter(employees, keep)
  }

  /**
   * The report perimeter is the API's role perimeter for every caller but a
   * non-staff, non-superuser holder of a company profile.
   */
  lemma ReportScopeIsRoleScope(u: Principal, employees: seq<Employee>)
    requires u.isSuperuser || u.isStaff || u.companyDepartment.None?
    ensures ReportEmployees(u, employees) == VisibleEmployees(u, employees)
  {
    RoleFilteredAgrees(u, employees, EmployeeKeys, (e: Employee) => InReportScope(u, e));
  }

  /**
   * A non-staff holder of a company profile sees its company's employees in
   * the API but only its own employee rows in the reports.
   */
  lemma NonStaffCompanyHolderSeesOnlyOwnRows(u: Principal, d: DepartmentId)
    requires !u.isSuperuser && !u.isStaff && u.companyDepartment == Some(d)
    ensures ResolveRole(u) == EntrepriseRole(d)
    ensures forall employees: seq<Employee>, e :: e in ReportEmployees(u, employees) <==> e in employees && e.user == Some(u.id)
    ensures exists employees :: ReportEmployees(u, employees) != VisibleEmployees(u, employees)
  {
    var colleague := Employee(0, "", "", "", None, Some(d), None, None);
    assert colleague in VisibleEmployees(u, [colleague]);
    assert colleague !in ReportEmployees(u, [colleague]);
  }

  /** The ids `values_list('id', flat=True)` gives for the report perimeter. */
  function ReportEmployeeIds(u: Principal, employees: seq<Employee>): (ids: set<EmployeeId>)
    ensures forall id :: id in ids <==> exists e :: e in employees && InReportScope(u, e) && e.id == id
  {
    set e | e in ReportEmployees(u, employees) :: e.id
  }

  /** The rows of the leave report (and of the leave sheet of the complete report). */
  function LeavesReport(u: Principal, employees: seq<Employee>, leaves: seq<Leave>): (r: seq<Leave>)
    ensures forall l :: l in r <==> l in leaves && l.employee.id in ReportEmployeeIds(u, employees)
  {
    var ids := ReportEmployeeIds(u, employees);
    Filter(leaves, (l: Leave) => l.employee.id in ids)
  }

  /** The rows of the attendance report (and of the attendance sheet of the complete report). */
  function AttendanceReport(u: Principal, employees: seq<Employee>, rows: seq<Attendance>): (r: seq<Attendance>)
    ensures forall a :: a in r <==> a in rows && a.employee.id in ReportEmployeeIds(u, employees)
  {
    var ids := ReportEmployeeIds(u, employees);
    Filter(rows, (a: Attendance) => a.employee.id in ids)
  }

  /** Employee ids are primary keys. */
  predicate UniqueEmployeeIds(employees: seq<Employee>) {
    forall e1, e2 :: e1 in employees && e2 in employees && e1.id == e2.id ==> e1 == e2
  }

  /**
   * With every leave pointing at a row of the employee table, the leave
   * report holds exactly the leaves of the employees in the report perimeter.
   */
  lemma LeavesReportFollowsEmployees(u: Principal, employees: seq<Employee>, leaves: seq<Leave>, l: Leave)
    requires UniqueEmployeeIds(employees)
    requires l in leaves && l.employee in employees
    ensures l in LeavesReport(u, employees, leaves) <==> InReportScope(u, l.employee)
  {
  }

  lemma AttendanceReportFollowsEmployees(u: Principal, employees: seq<Employee>, rows: seq<Attendance>, a: Attendance)
    requires UniqueEmployeeIds(employees)
    requires a in rows && a.employee in employees
    ensures a in AttendanceReport(u, employees, rows) <==> InReportScope(u, a.employee)
  {
  }

  /**
   * Where the report perimeter is the role perimeter, the leave report
   * holds the same leaves, in the same order, as the scoped leave queryset.
   */
  lemma LeavesReportIsScopedLeaves(u: Principal, employees: seq<Employee>, leaves: seq<Leave>)
    requires u.isSuperuser || u.isStaff || u.companyDepartment.None?
    requires UniqueEmployeeIds(employees)
    requires forall l :: l in leaves ==> l.employee in employees
    ensures LeavesReport(u, employees, leaves) == VisibleLeaves(u, leaves)
  {
    var ids := ReportEmployeeIds(u, employees);
    forall l | l in leaves
      ensures (l.employee.id in ids) == Visible(ResolveRole(u), u.id, LeaveKeys(l))
    {
      LeavesReportFollowsEmployees(u, employees, leaves, l);
    }
    RoleFilteredAgrees(u, leaves, LeaveKeys, (l: Leave) => l.employee.id in ids);
  }

  /** The same for the attendance report and the scoped attendance queryset. */
  lemma AttendanceReportIsScopedAttendance(u: Principal, employees: seq<Employee>, rows: seq<Attendance>)
    requires u.isSuperuser || u.isStaff || u.companyDepartment.None?
    requires UniqueEmployeeIds(employees)
    requires forall a :: a in rows ==> a.employee in employees
    ensures AttendanceReport(u, employees, rows) == VisibleAttendances(u, rows)
  {
    var ids := ReportEmployeeIds(u, employees);
    forall a | a in rows
      ensures (a.employee.id in ids) == Visible(ResolveRole(u), u.id, AttendanceKeys(a))
    {
      AttendanceReportFollowsEmployees(u, employees, rows, a);
    }
    RoleFilteredAgrees(u, rows, AttendanceKeys, (a: Attendance) => a.employee.id in ids);
  }

  /** One line of the per-company sheet, from row 4 on: a company heading, a blank separator, an employee row, the grand total. */
  datatype SheetLine =
    | Heading(title: string, department: Option<DepartmentId>, count: int)
    | Blank
    | Row(index: int, employee: Employee)
    | GrandTotal(count: int)

  /** The heading text of an employee's group. */
  function GroupLabel(e: Employee, nameOf: DepartmentId -> string): string {
    if e.department.Some? then nameOf(e.department.value) else "Sans entreprise"
  }

  /** How many employees of the report have department `d`; for `d == None`, those without a company. */
  function CountIn(employees: seq<Employee>, d: Option<DepartmentId>): (n: nat)
    ensures n <= |employees|
    ensures (exists e :: e in employees && e.department == d) <==> n > 0
  {
    var members := Filter(employees, (x: Employee) => x.department == d);
    assert members != [] ==> members[0] in members;
    |members|
  }

  /** The agent count of a heading, as written: zero for the group without a company. */
  function HeadingCountAsWritten(employees: seq<Employee>, e: Employee): (n: nat)
    ensures e.department.Some? ==> n == CountIn(employees, e.department)
    ensures e.department.None? ==> n == 0
  {
    if e.department.Some? then CountIn(employees, e.department) else 0
  }

  /** The agent count of a heading, counting the group without a company like the others. */
  function HeadingCount(employees: seq<Employee>, e: Employee): (n: nat)
    ensures e in employees ==> n >= 1
  {
    CountIn(employees, e.department)
  }

  /** An employee without a company is listed under a heading announcing no agent at all. */
  lemma NoCompanyHeadingUndercounts(employees: seq<Employee>, e: Employee)
    requires e in employees && e.department.None?
    ensures HeadingCountAsWritten(employees, e) == 0
    ensures HeadingCount(employees, e) >= 1
  {
  }

  /** The group label of the last row written so far (`current_dept`), `None` before the first row. */
  function LastLabel(s: seq<Employee>, nameOf: DepartmentId -> string): (r: Option<string>)
    ensures r.None? <==> s == []
  {
    if s == [] then None else Some(GroupLabel(s[|s| - 1], nameOf))
  }

  /**
   * The count a heading shows: as written when `corrected` is false, with
   * the group without a company counted when it is true.
   */
  function ShownCount(all: seq<Employee>, e: Employee, corrected: bool): nat {
    if corrected then HeadingCount(all, e) else HeadingCountAsWritten(all, e)
  }

  /**
   * What precedes the row of `e` when the last row written belongs to group
   * `current`: a heading when a new group starts, preceded by a blank line
   * unless it is the first group.
   */
  function Separator(current: Option<string>, e: Employee, all: seq<Employee>, nameOf: DepartmentId -> string, corrected: bool): (r: seq<SheetLine>)
    ensures forall x :: x in r ==> !x.Row?
    ensures r != [] <==> current != Some(GroupLabel(e, nameOf))
    ensures r != [] ==> r[|r| - 1] == Heading(GroupLabel(e, nameOf), e.department, ShownCount(all, e, corrected))
    ensures |r| == 2 <==> current.Some? && current != Some(GroupLabel(e, nameOf))
  {
    var heading := Heading(GroupLabel(e, nameOf), e.department, ShownCount(all, e, corrected));
    if current == Some(GroupLabel(e, nameOf)) then []
    else if current.Some? then [Blank, heading]
    else [heading]
  }

  /**
   * The lines the loop writes for the first employees `s` of the ordered
   * report `all`; the sheet as written has `corrected == false`.
   */
  function SheetBody(s: seq<Employee>, all: seq<Employee>, nameOf: DepartmentId -> string, corrected: bool): seq<SheetLine> {
    if s == [] then []
    else
      var before := s[..|s| - 1];
      SheetBody(before, all, nameOf, corrected) + Separator(LastLabel(before, nameOf), s[|s| - 1], all, nameOf, corrected) + [Row(|s|, s[|s| - 1])]
  }

  predicate IsRow(x: SheetLine) {
    x.Row?
  }

  /** Extending the sheet by one employee adds exactly its numbered row to the rows. */
  lemma RowsStep(s: seq<Employee>, all: seq<Employee>, nameOf: DepartmentId -> string, corrected: bool)
    requires s != []
    ensures Filter(SheetBody(s, all, nameOf, corrected), IsRow)
            == Filter(SheetBody(s[..|s| - 1], all, nameOf, corrected), IsRow) + [Row(|s|, s[|s| - 1])]
  {
    var before := s[..|s| - 1];
    var row := Row(|s|, s[|s| - 1]);
    var body := SheetBody(before, all, nameOf, corrected);
    var sep := Separator(LastLabel(before, nameOf), s[|s| - 1], all, nameOf, corrected);
    FilterAppend(body + sep, [row], IsRow);
    FilterAppend(body, sep, IsRow);
    FilterKeepsNone(sep, IsRow);
    assert Filter([row], IsRow) == [row] by {
      assert [row][1..] == [];
    }
  }

  /** `rows` are the rows numbered 1, 2, … of the employees `s`, in order. */
  predicate NumberedRows(rows: seq<SheetLine>, s: seq<Employee>) {
    |rows| == |s| && forall k :: 0 <= k < |s| ==> rows[k] == Row(k + 1, s[k])
  }

  lemma NumberedRowsExtend(rows: seq<SheetLine>, s: seq<Employee>)
    requires s != [] && NumberedRows(rows, s[..|s| - 1])
    ensures NumberedRows(rows + [Row(|s|, s[|s| - 1])], s)
  {
    forall k | 0 <= k < |s| - 1
      ensures s[..|s| - 1][k] == s[k]
    {
    }
  }

  /** The employee rows of the sheet are numbered 1, 2, … in report order and list every employee once. */
  lemma {:induction false} RowsAreNumberedInOrder(s: seq<Employee>, all: seq<Employee>, nameOf: DepartmentId -> string, corrected: bool)
    ensures NumberedRows(Filter(SheetBody(s, all, nameOf, corrected), IsRow), s)
  {
    if s != [] {
      var before, e := s[..|s| - 1], s[|s| - 1];
      var previous := Filter(SheetBody(before, all, nameOf, corrected), IsRow);
      assert NumberedRows(previous, before) by {
        RowsAreNumberedInOrder(before, all, nameOf, corrected);
      }
      assert Filter(SheetBody(s, all, nameOf, corrected), IsRow) == previous + [Row(|s|, e)] by {
        RowsStep(s, all, nameOf, corrected);
      }
      NumberedRowsExtend(previous, s);
    }
  }

  /** Every heading of a company announces the number of employees of that company in the report. */
  lemma {:induction false} HeadingsCountTheirCompany(s: seq<Employee>, all: seq<Employee>, nameOf: DepartmentId -> string, corrected: bool)
    ensures forall x :: x in SheetBody(s, all, nameOf, corrected) && x.Heading? && x.department.Some? ==>
              x.count == CountIn(all, x.department)
  {
    if s != [] {
      HeadingsCountTheirCompany(s[..|s| - 1], all, nameOf, corrected);
    }
  }

  /** On the sheet as written the heading of the group without a company always announces zero agents. */
  lemma {:induction false} NoCompanyHeadingSaysZero(s: seq<Employee>, all: seq<Employee>, nameOf: DepartmentId -> string)
    ensures forall x :: x in SheetBody(s, all, nameOf, false) && x.Heading? && x.department.None? ==> x.count == 0
  {
    if s != [] {
      NoCompanyHeadingSaysZero(s[..|s| - 1], all, nameOf);
    }
  }

  /** On the corrected sheet every heading, the one without a company included, announces its group's size. */
  lemma {:induction false} CorrectedHeadingsCountTheirGroup(s: seq<Employee>, all: seq<Employee>, nameOf: DepartmentId -> string)
    ensures forall x :: x in SheetBody(s, all, nameOf, true) && x.Heading? ==> x.count == CountIn(all, x.department)
  {
    if s != [] {
      CorrectedHeadingsCountTheirGroup(s[..|s| - 1], all, nameOf);
    }
  }

  /** A report of one employee without a company: the sheet as written heads its row with zero agents. */
  lemma LoneNoCompanySheet(e: Employee, nameOf: DepartmentId -> string)
    requires e.department.None?
    ensures SheetBody([e], [e], nameOf, false) == [Heading("Sans entreprise", None, 0), Row(1, e)]
    ensures SheetBody([e], [e], nameOf, true) == [Heading("Sans entreprise", None, 1), Row(1, e)]
  {
    assert [e][..0] == [];
    assert Filter([e], (x: Employee) => x.department == e.department) == [e] by {
      assert [e][1..] == [];
    }
  }

  /** The sheet body for one more employee of `s`: its separator, then its numbered row. */
  lemma SheetBodyStep(s: seq<Employee>, i: nat, all: seq<Employee>, nameOf: DepartmentId -> string, corrected: bool)
    requires i < |s|
    ensures SheetBody(s[..i + 1], all, nameOf, corrected)
            == SheetBody(s[..i], all, nameOf, corrected) + Separator(LastLabel(s[..i], nameOf), s[i], all, nameOf, corrected) + [Row(i + 1, s[i])]
    ensures LastLabel(s[..i + 1], nameOf) == Some(GroupLabel(s[i], nameOf))
  {
    assert s[..i + 1][..i] == s[..i];
  }

  /** `DepartmentsReportView.get`, from the ordered report employees to the sheet lines below the column headers. */
  method DepartmentsReport(employees: seq<Employee>, nameOf: DepartmentId -> string) returns (lines: seq<SheetLine>)
    ensures lines == SheetBody(employees, employees, nameOf, false) + [GrandTotal(|employees|)]
  {
    lines := [];
    var current: Option<string> := None;
    var globalIdx := 0;
    var i := 0;
    while i < |employees|
      invariant 0 <= i <= |employees|
      invariant globalIdx == i
      invariant current == LastLabel(employees[..i], nameOf)
      invariant lines == SheetBody(employees[..i], employees, nameOf, false)
    {
      var e := employees[i];
      var title := GroupLabel(e, nameOf);
      ghost var sep := Separator(current, e, employees, nameOf, false);
      var opening: seq<SheetLine> := [];
      if current != Some(title) {
        var heading := Heading(title, e.department, HeadingCountAsWritten(employees, e));
        if current.Some? {
          opening := [Blank, heading];
        } else {
          opening := [heading];
        }
        assert opening == sep;
        current := Some(title);
      }
      globalIdx := globalIdx + 1;
      SheetBodyStep(employees, i, employees, nameOf, false);
      lines := lines + opening + [Row(globalIdx, e)];
      i := i + 1;
    }
    assert employees[..i] == employees;
    lines := lines + [GrandTotal(globalIdx)];
  }

  /** The grand total of the per-company sheet is the number of numbered rows above it. */
  lemma GrandTotalCountsRows(employees: seq<Employee>, nameOf: DepartmentId -> string)
    ensures |Filter(SheetBody(employees, employees, nameOf, false), IsRow)| == |employees|
  {
    RowsAreNumberedInOrder(employees, employees, nameOf, false);
  }
}
