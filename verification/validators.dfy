/**
 * The serializer-side checks and computed fields of the REST API: age and
 * retirement year, the 18-to-60 birth-date window, e-mail uniqueness, the
 * leave request check (dates and effective paid balance), the attendance
 * time check and account registration.
 */
module Validators {
  import opened Wrappers
  import opened Dates
  import opened Domain
  import opened Roles
  import opened Balance

  /** `(m1, d1) < (m2, d2)` on Python tuples. */
  predicate MonthDayBefore(m1: int, d1: int, m2: int, d2: int) {
    m1 < m2 || (m1 == m2 && d1 < d2)
  }

  /** The `k`-th birthday, as a (year, month, day) tuple, is not after `today`. */
  predicate BirthdayReached(birth: Date, today: Date, k: int) {
    birth.year + k < today.year
    || (birth.year + k == today.year && !MonthDayBefore(today.month, today.day, birth.month, birth.day))
  }

  /** Whole years from `birth` to `today`, as `get_age` and `validate_birth_date` compute them. */
  function Age(birth: Date, today: Date): (age: int)
    ensures forall k :: BirthdayReached(birth, today, k) <==> k <= age
  {
    today.year - birth.year - (if MonthDayBefore(today.month, today.day, birth.month, birth.day) then 1 else 0)
  }

  /** `EmployeeSerializer.get_age`. */
  function GetAge(birth: Option<Date>, today: Date): (r: Option<int>)
    ensures r.None? <==> birth.None?
    ensures r.Some? ==> BirthdayReached(birth.value, today, r.value) && !BirthdayReached(birth.value, today, r.value + 1)
  {
    if birth.Some? then Some(Age(birth.value, today)) else None
  }

  /** `EmployeeSerializer.get_retirement_year`: the year of the 60th birthday. */
  function RetirementYear(birth: Option<Date>): (r: Option<int>)
    ensures r.None? <==> birth.None?
    ensures r.Some? ==> r.value - birth.value.year == 60
  {
    if birth.Some? then Some(birth.value.year + 60) else None
  }

  datatype BirthDateCheck = BirthDateAccepted | TooYoung(age: int) | RetirementAge(age: int)

  /** `EmployeeSerializer.validate_birth_date`; an absent date passes. */
  function ValidateBirthDate(value: Option<Date>, today: Date): (r: BirthDateCheck)
    ensures value.None? ==> r == BirthDateAccepted
    ensures value.Some? ==>
              (r == BirthDateAccepted <==> BirthdayReached(value.value, today, 18) && !BirthdayReached(value.value, today, 60))
    ensures value.Some? && r.TooYoung? ==> !BirthdayReached(value.value, today, 18)
    ensures value.Some? && r.RetirementAge? ==> BirthdayReached(value.value, today, 60)
  {
    if value.None? then BirthDateAccepted
    else
      var age := Age(value.value, today);
      if age < 18 then TooYoung(age)
      else if age >= 60 then RetirementAge(age)
      else BirthDateAccepted
  }

  /** A birth date is accepted exactly when the retirement year has not been reached by age. */
  lemma AcceptedBeforeRetirementYear(birth: Date, today: Date)
    requires ValidateBirthDate(Some(birth), today) == BirthDateAccepted
    ensures today.year <= RetirementYear(Some(birth)).value
    ensures today.year >= birth.year + 18
  {
    assert !BirthdayReached(birth, today, 60);
    assert BirthdayReached(birth, today, 18);
  }

  /**
   * `EmployeeSerializer.validate_email`: the address is free unless another
   * employee than the one being edited (`instance`) already uses it.
   */
  function EmailAvailable(value: string, employees: seq<Employee>, instance: Option<EmployeeId>): (ok: bool)
    ensures ok <==> forall e :: e in employees && e.email == value ==> instance == Some(e.id)
  {
    var clashes := if instance.Some? then Filter(employees, (e: Employee) => e.id != instance.value && e.email == value)
                   else Filter(employees, (e: Employee) => e.email == value);
    assert clashes != [] ==> clashes[0] in clashes;
    clashes == []
  }

  /** Keeping one's own address while editing is accepted; taking another employee's is not. */
  lemma EmailEditCases(value: string, employees: seq<Employee>, me: Employee, other: Employee)
    requires me in employees && me.email == value
    requires forall e :: e in employees && e.email == value ==> e.id == me.id
    requires other in employees && other.id != me.id
    ensures EmailAvailable(value, employees, Some(me.id))
    ensures !EmailAvailable(value, employees, None)
    ensures !EmailAvailable(other.email, employees, Some(me.id))
  {
  }

  /** The fields of a leave request the serializer checks. */
  datatype LeaveRequest = LeaveRequest(employee: Option<Employee>, leaveType: Option<LeaveType>, start: Option<Date>, end: Option<Date>)

  datatype LeaveCheck = LeaveAccepted | EndBeforeStart | InsufficientBalance(available: int, pending: int, requested: int)

  /**
   * `LeaveSerializer.validate`, with the employee's leaves and today's date
   * as parameters. Both errors are reported on `end_date`.
   */
  function ValidateLeave(req: LeaveRequest, leaves: seq<Leave>, today: Date): (r: LeaveCheck)
    ensures r == EndBeforeStart <==> req.start.Some? && req.end.Some? && Before(req.end.value, req.start.value)
    ensures r.InsufficientBalance? ==>
              req.start.Some? && req.end.Some? && req.employee.Some? && req.leaveType == Some(Paid)
              && r.available == LeaveBalance(leaves, req.employee.value.id, today.year)
              && r.pending == PendingDays(leaves, req.employee.value.id, today.year)
              && r.requested == DaysBetween(req.start.value, req.end.value) + 1
              && r.requested > r.available - r.pending
    ensures r == LeaveAccepted && req.start.Some? && req.end.Some? && req.employee.Some? && req.leaveType == Some(Paid) ==>
              DaysBetween(req.start.value, req.end.value) + 1
              <= LeaveBalance(leaves, req.employee.value.id, today.year) - PendingDays(leaves, req.employee.value.id, today.year)
  {
    if req.start.Some? && req.end.Some? then
      if Before(req.end.value, req.start.value) then EndBeforeStart
      else
        var requested := DaysBetween(req.start.value, req.end.value) + 1;
        if req.employee.Some? && req.leaveType == Some(Paid) then
          var available := LeaveBalance(leaves, req.employee.value.id, today.year);
          var pending := PendingDays(leaves, req.employee.value.id, today.year);
          if requested > available - pending then InsufficientBalance(available, pending, requested)
          else LeaveAccepted
        else LeaveAccepted
    else LeaveAccepted
  }

  /** Only paid leave is checked against the balance: other types need only well-ordered dates. */
  lemma UnpaidTypesSkipBalance(req: LeaveRequest, leaves: seq<Leave>, today: Date)
    requires req.leaveType != Some(Paid)
    ensures ValidateLeave(req, leaves, today) == LeaveAccepted <==> !(req.start.Some? && req.end.Some? && Before(req.end.value, req.start.value))
  {
  }

  /** An accepted request has at least one day: end not before start. */
  lemma AcceptedRequestHasADay(req: LeaveRequest, leaves: seq<Leave>, today: Date)
    requires req.start.Some? && req.end.Some? && ValidateLeave(req, leaves, today) == LeaveAccepted
    ensures DaysBetween(req.start.value, req.end.value) + 1 >= 1
  {
    DaysBetweenNonNegative(req.start.value, req.end.value);
  }

  /** With no leave on record a paid request is accepted up to 30 days, and refused beyond. */
  lemma {:induction false} FreshEmployeeAllowance(e: Employee, start: Date, end: Date, today: Date)
    requires !Before(end, start)
    ensures var r := ValidateLeave(LeaveRequest(Some(e), Some(Paid), Some(start), Some(end)), [], today);
      r == LeaveAccepted <==> DaysBetween(start, end) + 1 <= AnnualLeaveAllowance
  {
    NoLeavesFullBalance(e.id, today.year);
  }

  datatype AttendanceCheck = AttendanceAccepted | CheckOutNotAfterCheckIn

  /** `AttendanceSerializer.validate`: when both times are given, check-out must be strictly later. */
  function ValidateAttendance(checkIn: Option<Minutes>, checkOut: Option<Minutes>): (r: AttendanceCheck)
    ensures r == CheckOutNotAfterCheckIn <==> checkIn.Some? && checkOut.Some? && checkOut.value <= checkIn.value
  {
    if checkIn.Some? && checkOut.Some? && checkOut.value <= checkIn.value then CheckOutNotAfterCheckIn
    else AttendanceAccepted
  }

  /** A complete row the serializer accepts has a positive worked time. */
  lemma AcceptedAttendanceWorksPositiveTime(a: Attendance)
    requires a.checkIn.Some? && a.checkOut.Some? && ValidateAttendance(a.checkIn, a.checkOut) == AttendanceAccepted
    ensures WorkedMinutes(a) > 0
  {
  }

  /** `RegisterSerializer.validate`. */
  function PasswordsMatch(password: string, password2: string): (ok: bool)
    ensures ok <==> password == password2
  {
    password == password2
  }

  /** `RegisterSerializer.create`: a new user with no profile, flags set from the role (default employee). */
  function Register(id: UserId, role: Option<RoleChoice>): (u: Principal)
    ensures u.id == id && u.companyDepartment.None? && u.managerDirections.None?
    ensures u.isSuperuser ==> u.isStaff
  {
    var chosen := if role.Some? then role.value else ChooseEmployee;
    Principal(id, chosen == ChooseAdmin, chosen == ChooseAdmin || chosen == ChooseManager, None, None)
  }

  /**
   * The role a registered account resolves to: an `entreprise`
   * registration gets no flag and no company profile, so it acts as a
   * plain employee; a manager has no direction yet.
   */
  lemma RegisteredRoles(id: UserId)
    ensures ResolveRole(Register(id, Some(ChooseAdmin))) == AdminRole
    ensures ResolveRole(Register(id, Some(ChooseManager))) == ManagerRole([])
    ensures ResolveRole(Register(id, Some(ChooseEntreprise))) == EmployeeRole
    ensures ResolveRole(Register(id, Some(ChooseEmployee))) == EmployeeRole
    ensures ResolveRole(Register(id, None)) == EmployeeRole
  {
  }

  /** The leave of 10 to 14 February 2026 lasts five days; a leave of one date lasts one. */
  lemma DayCountExamples(e: Employee, status: LeaveStatus)
    ensures DaysCount(Leave(1, e, Paid, YearMonthDay(2026, 2, 10), YearMonthDay(2026, 2, 14), status, None, None)) == 5
    ensures DaysCount(Leave(2, e, Sick, YearMonthDay(2026, 2, 10), YearMonthDay(2026, 2, 10), status, None, None)) == 1
  {
  }

  /**
   * An approved five-day paid leave brings the balance from 30 to 25; the
   * same leave pending or rejected, or an approved sick or unpaid leave,
   * leaves it at 30.
   */
  lemma BalanceExamples(e: Employee)
    ensures var start: Date := YearMonthDay(2026, 3, 2);
      var end: Date := YearMonthDay(2026, 3, 6);
      && LeaveBalance([Leave(1, e, Paid, start, end, Approved, None, None)], e.id, 2026) == 25
      && LeaveBalance([Leave(1, e, Paid, start, end, Pending, None, None)], e.id, 2026) == 30
      && LeaveBalance([Leave(1, e, Paid, start, end, Rejected, None, None)], e.id, 2026) == 30
      && LeaveBalance([Leave(1, e, Sick, start, end, Approved, None, None)], e.id, 2026) == 30
      && LeaveBalance([Leave(1, e, Unpaid, start, end, Approved, None, None)], e.id, 2026) == 30
  {
    var start: Date := YearMonthDay(2026, 3, 2);
    var end: Date := YearMonthDay(2026, 3, 6);
    var paid := Leave(1, e, Paid, start, end, Approved, None, None);
    CountedLeaveLowersBalance([], paid, e.id, 2026);
    NoLeavesFullBalance(e.id, 2026);
    assert [] + [paid] == [paid];
    assert DaysCount(paid) == 5;
    var others := [paid.(status := Pending), paid.(status := Rejected), paid.(leaveType := Sick), paid.(leaveType := Unpaid)];
    forall l | l in others
      ensures LeaveBalance([l], e.id, 2026) == 30
    {
      UncountedLeaveIsNeutral([], l, e.id, 2026);
      assert [] + [l] == [l];
    }
    assert others[0] in others && others[1] in others && others[2] in others && others[3] in others;
  }

  /** A 35-day paid request and a request ending before it starts are refused. */
  lemma LeaveRequestExamples(e: Employee, today: Date)
    ensures ValidateLeave(LeaveRequest(Some(e), Some(Paid), Some(YearMonthDay(2026, 3, 1)), Some(YearMonthDay(2026, 4, 4))), [], today).InsufficientBalance?
    ensures ValidateLeave(LeaveRequest(Some(e), Some(Paid), Some(YearMonthDay(2026, 3, 10)), Some(YearMonthDay(2026, 3, 5))), [], today) == EndBeforeStart
  {
    var start: Date := YearMonthDay(2026, 3, 1);
    var end: Date := YearMonthDay(2026, 4, 4);
    assert DaysBetween(start, end) + 1 == 35;
    NoLeavesFullBalance(e.id, today.year);
  }

  /** Eight o'clock to five o'clock is nine hours of work; a check-out before the check-in is refused. */
  lemma AttendanceExamples(a: Attendance)
    requires a.checkIn == Some(8 * 60) && a.checkOut == Some(17 * 60)
    ensures WorkedMinutes(a) == 9 * 60
    ensures WorkedMinutes(a.(checkOut := None)) == 0
    ensures ValidateAttendance(Some(10 * 60), Some(8 * 60)) == CheckOutNotAfterCheckIn
  {
  }
}
