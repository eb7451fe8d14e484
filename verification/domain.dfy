/**
 * The records of the personnel database: users with their optional
 * company and manager profiles, employees, leaves and attendance rows.
 * A leave or attendance row carries its employee row, as the ORM's
 * `leave.employee` reaches it.
 */
module Domain {
  import opened Wrappers
  import opened Dates

  type UserId = nat
  type DepartmentId = nat
  type EmployeeId = nat
  type LeaveId = nat

  /**
   * An authenticated user: the two account flags, the department of its
   * `CompanyProfile` if it has one, and the direction names of its
   * `ManagerProfile` if it has one.
   */
  datatype Principal = Principal(
    id: UserId,
    isSuperuser: bool,
    isStaff: bool,
    companyDepartment: Option<DepartmentId>,
    managerDirections: Option<seq<string>>)

  datatype Employee = Employee(
    id: EmployeeId,
    firstName: string,
    lastName: string,
    email: string,
    birthDate: Option<Date>,
    department: Option<DepartmentId>,
    direction: Option<string>,
    user: Option<UserId>)

  datatype LeaveType = Paid | Sick | Unpaid | Parental | OtherLeave

  datatype LeaveStatus = Pending | ManagerApproved | Approved | Rejected

  datatype Leave = Leave(
    id: LeaveId,
    employee: Employee,
    leaveType: LeaveType,
    start: Date,
    end: Date,
    status: LeaveStatus,
    managerApprovedBy: Option<UserId>,
    approvedBy: Option<UserId>)

  /** A time of day, in minutes since midnight. */
  type Minutes = m: int | 0 <= m < 24 * 60

  datatype AttendanceStatus = Present | Absent | Late | HalfDay

  datatype Attendance = Attendance(
    employee: Employee,
    date: Date,
    checkIn: Option<Minutes>,
    checkOut: Option<Minutes>,
    status: AttendanceStatus)

  /** `filter(...)` on a table: the rows satisfying `keep`, in their order. */
  function Filter<T(!new)>(rows: seq<T>, keep: T -> bool): (r: seq<T>)
    ensures |r| <= |rows|
    ensures forall x :: x in r <==> x in rows && keep(x)
  {
    if rows == [] then []
    else (if keep(rows[0]) then [rows[0]] else []) + Filter(rows[1..], keep)
  }

  /** Two filters whose conditions agree on every row select the same rows. */
  lemma {:induction false} FilterAgrees<T(!new)>(rows: seq<T>, f: T -> bool, g: T -> bool)
    requires forall x :: x in rows ==> f(x) == g(x)
    ensures Filter(rows, f) == Filter(rows, g)
  {
    if rows != [] {
      FilterAgrees(rows[1..], f, g);
    }
  }

  /** Filtering distributes over appending rows to the table. */
  lemma {:induction false} FilterAppend<T(!new)>(a: seq<T>, b: seq<T>, keep: T -> bool)
    ensures Filter(a + b, keep) == Filter(a, keep) + Filter(b, keep)
  {
    if a == [] {
      assert a + b == b;
    } else {
      assert (a + b)[1..] == a[1..] + b;
      FilterAppend(a[1..], b, keep);
    }
  }
}
