/**
 * The leave arithmetic of the `Employee` and `Leave` models: inclusive day
 * counts, the paid days taken and pending in the current calendar year and
 * the remaining balance against the annual allowance of 30 days.
 */
module Balance {
  import opened Wrappers
  import opened Dates
  import opened Domain

  /** `Employee.ANNUAL_LEAVE_ALLOWANCE`. */
  const AnnualLeaveAllowance: int := 30

  /** `Employee.full_name`: first name, one space, last name. */
  function FullName(e: Employee): (r: string)
    ensures |r| == |e.firstName| + 1 + |e.lastName|
    ensures r[..|e.firstName|] == e.firstName && r[|e.firstName|] == ' ' && r[|e.firstName| + 1..] == e.lastName
  {
    e.firstName + " " + e.lastName
  }

  /** `Leave.days_count`: calendar days from start to end, both included. */
  function DaysCount(l: Leave): (n: int)
    ensures n >= 1 <==> !Before(l.end, l.start)
    ensures l.start == l.end ==> n == 1
  {
    DaysBetweenNonNegative(l.start, l.end);
    DaysBetween(l.start, l.end) + 1
  }

  /** The leaves `leaves_taken_this_year` sums: paid, approved, starting in `year`. */
  predicate TakenIn(l: Leave, employee: EmployeeId, year: int) {
    l.employee.id == employee && l.leaveType == Paid && l.status == Approved && l.start.year == year
  }

  /** The leaves `leaves_pending_this_year` sums: paid, not yet decided, starting in `year`. */
  predicate PendingIn(l: Leave, employee: EmployeeId, year: int) {
    l.employee.id == employee && l.leaveType == Paid
    && (l.status == Pending || l.status == ManagerApproved) && l.start.year == year
  }

  /** Sum of the day counts of `leaves`. */
  function SumDays(leaves: seq<Leave>): int {
    if leaves == [] then 0 else SumDays(leaves[..|leaves| - 1]) + DaysCount(leaves[|leaves| - 1])
  }

  function TakenDays(leaves: seq<Leave>, employee: EmployeeId, year: int): int {
    SumDays(Filter(leaves, (l: Leave) => TakenIn(l, employee, year)))
  }

  function PendingDays(leaves: seq<Leave>, employee: EmployeeId, year: int): int {
    SumDays(Filter(leaves, (l: Leave) => PendingIn(l, employee, year)))
  }

  /** `Employee.leave_balance`: the allowance minus the paid days taken; never clamped. */
  function LeaveBalance(leaves: seq<Leave>, employee: EmployeeId, year: int): (b: int)
    ensures b + TakenDays(leaves, employee, year) == AnnualLeaveAllowance
  {
    AnnualLeaveAllowance - TakenDays(leaves, employee, year)
  }

  /** Sums the day counts of `leaves` one leave after the other. */
  method SumDayCounts(leaves: seq<Leave>) returns (total: int)
    ensures total == SumDays(leaves)
  {
    total := 0;
    var i := 0;
    while i < |leaves|
      invariant 0 <= i <= |leaves|
      invariant total == SumDays(leaves[..i])
    {
      assert leaves[..i + 1][..i] == leaves[..i];
      total := total + DaysCount(leaves[i]);
      i := i + 1;
    }
    assert leaves[..i] == leaves;
  }

  /** `Employee.leaves_taken_this_year`, with today's date as a parameter. */
  method LeavesTakenThisYear(leaves: seq<Leave>, employee: EmployeeId, today: Date) returns (total: int)
    ensures total == TakenDays(leaves, employee, today.year)
  {
    var approved := Filter(leaves, (l: Leave) => TakenIn(l, employee, today.year));
    total := SumDayCounts(approved);
  }

  /** `Employee.leaves_pending_this_year`, with today's date as a parameter. */
  method LeavesPendingThisYear(leaves: seq<Leave>, employee: EmployeeId, today: Date) returns (total: int)
    ensures total == PendingDays(leaves, employee, today.year)
  {
    var pending := Filter(leaves, (l: Leave) => PendingIn(l, employee, today.year));
    total := SumDayCounts(pending);
  }

  lemma {:induction false} SumDaysAppend(a: seq<Leave>, b: seq<Leave>)
    ensures SumDays(a + b) == SumDays(a) + SumDays(b)
    decreases |b|
  {
    if b == [] {
      assert a + b == a;
    } else {
      var b' := b[..|b| - 1];
      assert (a + b)[..|a + b| - 1] == a + b';
      SumDaysAppend(a, b');
    }
  }

  /** Every counted leave lasts at least one day, so the totals are never negative. */
  lemma {:induction false} SumDaysNonNegative(leaves: seq<Leave>)
    requires forall l :: l in leaves ==> !Before(l.end, l.start)
    ensures SumDays(leaves) >= 0
  {
    if leaves != [] {
      SumDaysNonNegative(leaves[..|leaves| - 1]);
    }
  }

  /** With no leave on record the whole allowance is available. */
  lemma NoLeavesFullBalance(employee: EmployeeId, year: int)
    ensures TakenDays([], employee, year) == 0 && PendingDays([], employee, year) == 0
    ensures LeaveBalance([], employee, year) == AnnualLeaveAllowance
  {
  }

  /** Recording a leave that does not count (another employee, year, type or status) leaves the balance unchanged. */
  lemma {:induction false} UncountedLeaveIsNeutral(leaves: seq<Leave>, l: Leave, employee: EmployeeId, year: int)
    requires !TakenIn(l, employee, year)
    ensures LeaveBalance(leaves + [l], employee, year) == LeaveBalance(leaves, employee, year)
  {
    FilterAppend(leaves, [l], (x: Leave) => TakenIn(x, employee, year));
    assert Filter([l], (x: Leave) => TakenIn(x, employee, year)) == [];
    assert Filter(leaves, (x: Leave) => TakenIn(x, employee, year)) + [] == Filter(leaves, (x: Leave) => TakenIn(x, employee, year));
  }

  /** Recording an approved paid leave of the year lowers the balance by its day count. */
  lemma {:induction false} CountedLeaveLowersBalance(leaves: seq<Leave>, l: Leave, employee: EmployeeId, year: int)
    requires TakenIn(l, employee, year)
    ensures LeaveBalance(leaves + [l], employee, year) == LeaveBalance(leaves, employee, year) - DaysCount(l)
  {
    var keep := (x: Leave) => TakenIn(x, employee, year);
    FilterAppend(leaves, [l], keep);
    assert Filter([l], keep) == [l] by {
      assert Filter([l], keep) == [l] + Filter([l][1..], keep);
    }
    SumDaysAppend(Filter(leaves, keep), [l]);
    assert SumDays([l]) == DaysCount(l) by {
      assert [l][..0] == [];
    }
  }

  /**
   * Approving a pending paid leave moves its days from the pending total to
   * the taken total: their sum, and so the effective balance the leave
   * serializer checks against, does not change.
   */
  lemma {:induction false} ApprovalMovesPendingToTaken(before: seq<Leave>, l: Leave, after: seq<Leave>, employee: EmployeeId, year: int)
    requires PendingIn(l, employee, year)
    ensures var approved := l.(status := Approved);
      TakenDays(before + [approved] + after, employee, year) == TakenDays(before + [l] + after, employee, year) + DaysCount(l)
      && PendingDays(before + [approved] + after, employee, year) == PendingDays(before + [l] + after, employee, year) - DaysCount(l)
  {
    ApprovalAddsTaken(before, l, after, employee, year);
    ApprovalRemovesPending(before, l, after, employee, year);
  }

  /** Approving a pending paid leave adds its days to the days taken. */
  lemma {:induction false} ApprovalAddsTaken(before: seq<Leave>, l: Leave, after: seq<Leave>, employee: EmployeeId, year: int)
    requires PendingIn(l, employee, year)
    ensures TakenDays(before + [l.(status := Approved)] + after, employee, year) == TakenDays(before + [l] + after, employee, year) + DaysCount(l)
  {
    var keep := (x: Leave) => TakenIn(x, employee, year);
    SumAround(before, l.(status := Approved), after, keep);
    SumAround(before, l, after, keep);
  }

  /** Approving a pending paid leave removes its days from the days pending. */
  lemma {:induction false} ApprovalRemovesPending(before: seq<Leave>, l: Leave, after: seq<Leave>, employee: EmployeeId, year: int)
    requires PendingIn(l, employee, year)
    ensures PendingDays(before + [l.(status := Approved)] + after, employee, year) == PendingDays(before + [l] + after, employee, year) - DaysCount(l)
  {
    var keep := (x: Leave) => PendingIn(x, employee, year);
    SumAround(before, l.(status := Approved), after, keep);
    SumAround(before, l, after, keep);
  }

  /** The filtered sum over a table split around one row. */
  lemma {:induction false} SumAround(before: seq<Leave>, x: Leave, after: seq<Leave>, keep: Leave -> bool)
    ensures SumDays(Filter(before + [x] + after, keep))
            == SumDays(Filter(before, keep)) + (if keep(x) then DaysCount(x) else 0) + SumDays(Filter(after, keep))
  {
    FilterAppend(before + [x], after, keep);
    FilterAppend(before, [x], keep);
    var mid := Filter([x], keep);
    assert mid == (if keep(x) then [x] else []) + Filter([x][1..], keep);
    assert [x][1..] == [];
    assert SumDays(mid) == (if keep(x) then DaysCount(x) else 0) by {
      if keep(x) {
        assert mid == [x];
        assert mid[..0] == [];
      } else {
        assert mid == [];
      }
    }
    SumDaysAppend(Filter(before, keep) + mid, Filter(after, keep));
    SumDaysAppend(Filter(before, keep), mid);
  }

  /** `Attendance.hours_worked`, in minutes: zero unless both check-in and check-out are recorded. */
  function WorkedMinutes(a: Attendance): (m: int)
    ensures a.checkIn.None? || a.checkOut.None? ==> m == 0
    ensures a.checkIn.Some? && a.checkOut.Some? ==> a.checkIn.value + m == a.checkOut.value
  {
    if a.checkIn.Some? && a.checkOut.Some? then a.checkOut.value - a.checkIn.value else 0
  }

  /** `unique_together = ['employee', 'date']` on the attendance table. */
  predicate OnePerDay(rows: seq<Attendance>) {
    forall i, j :: 0 <= i < j < |rows| ==> (rows[i].employee.id, rows[i].date) != (rows[j].employee.id, rows[j].date)
  }

  /** Inserting an attendance row; `None` is the integrity error on a second row for the same employee and day. */
  function InsertAttendance(rows: seq<Attendance>, a: Attendance): (r: Option<seq<Attendance>>)
    requires OnePerDay(rows)
    ensures r.None? <==> exists b :: b in rows && b.employee.id == a.employee.id && b.date == a.date
    ensures r.Some? ==> r.value == rows + [a] && OnePerDay(r.value)
  {
    if exists b :: b in rows && b.employee.id == a.employee.id && b.date == a.date then None
    else Some(rows + [a])
  }
}
