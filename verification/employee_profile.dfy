/**
 * The employee self-service page: which employee record the logged-in
 * user is shown, the client-side age and retirement computations, the
 * leave pre-check made before a request is posted, the pending counter
 * and the displayed balance. Each is related to the server-side rule it
 * duplicates.
 */
module EmployeeProfile {
  import opened Wrappers
  import opened Text
  import opened Dates
  import opened Domain
  import opened Roles
  import opened Balance
  import opened ViewScopes
  import opened Validators

  /** `list.findIndex(p)`, as an option. */
  function FindFirst<T>(rows: seq<T>, p: T -> bool): (r: Option<nat>)
    ensures r.Some? ==> r.value < |rows| && p(rows[r.value]) && forall k :: 0 <= k < r.value ==> !p(rows[k])
    ensures r.None? ==> forall k :: 0 <= k < |rows| ==> !p(rows[k])
  {
    if rows == [] then None
    else if p(rows[0]) then Some(0)
    else
      var rest := FindFirst(rows[1..], p);
      assert forall k :: 1 <= k < |rows| ==> rows[1..][k - 1] == rows[k];
      if rest.Some? then Some(rest.value + 1) else None
  }

  /** The third criterion: the employee's e-mail contains the username, ignoring case. */
  predicate EmailMentions(e: Employee, username: string) {
    Contains(Lower(e.email), Lower(username))
  }

  /**
   * The profile `loadEmployeeProfile` picks: the first employee linked to
   * the user id; failing that, the first with the user's e-mail (when it is
   * not empty); failing that, the first whose e-mail contains the username
   * (when it is not empty).
   */
  function FindProfile(employees: seq<Employee>, user: Option<UserId>, email: string, username: string): (r: Option<Employee>)
    ensures r.Some? ==> r.value in employees
    ensures user.Some? && (exists k :: 0 <= k < |employees| && employees[k].user == user) ==>
              exists k :: 0 <= k < |employees| && r == Some(employees[k]) && employees[k].user == user
                          && forall j :: 0 <= j < k ==> employees[j].user != user
    ensures (user.None? || forall e :: e in employees ==> e.user != user)
            && email != "" && (exists k :: 0 <= k < |employees| && employees[k].email == email) ==>
              exists k :: 0 <= k < |employees| && r == Some(employees[k]) && employees[k].email == email
                          && forall j :: 0 <= j < k ==> employees[j].email != email
    ensures (user.None? || forall e :: e in employees ==> e.user != user)
            && (email == "" || forall e :: e in employees ==> e.email != email)
            && username != "" && (exists k :: 0 <= k < |employees| && EmailMentions(employees[k], username)) ==>
              exists k :: 0 <= k < |employees| && r == Some(employees[k]) && EmailMentions(employees[k], username)
                          && forall j :: 0 <= j < k ==> !EmailMentions(employees[j], username)
    ensures r.None? <==>
              (user.None? || forall e :: e in employees ==> e.user != user)
              && (email == "" || forall e :: e in employees ==> e.email != email)
              && (username == "" || forall e :: e in employees ==> !EmailMentions(e, username))
  {
    var byUser := if user.Some? then FindFirst(employees, (e: Employee) => e.user == user) else None;
    if byUser.Some? then Some(employees[byUser.value])
    else
      var byEmail := if email != "" then FindFirst(employees, (e: Employee) => e.email == email) else None;
      if byEmail.Some? then Some(employees[byEmail.value])
      else
        var byName := if username != "" then FindFirst(employees, (e: Employee) => EmailMentions(e, username)) else None;
        if byName.Some? then Some(employees[byName.value]) else None
  }

  /** `calculateAge`, with today's date as a parameter; `None` for a missing date. */
  function CalculateAge(birth: Option<Date>, today: Date): (r: Option<int>)
    ensures r == GetAge(birth, today)
  {
    if birth.None? then None
    else
      var b := birth.value;
      var age := today.year - b.year;
      var monthDiff := today.month - b.month;
      if monthDiff < 0 || (monthDiff == 0 && today.day < b.day) then Some(age - 1) else Some(age)
  }

  /** `calculateRetirementYear`. */
  function CalculateRetirementYear(birth: Option<Date>): (r: Option<int>)
    ensures r == RetirementYear(birth)
  {
    if birth.None? then None else Some(birth.value.year + 60)
  }

  datatype AgeCheck = AgeCheck(valid: bool, age: Option<int>)

  /** `validateEmployeeAge`: the 18-to-60 window, with a missing date refused. */
  function ValidateEmployeeAge(birth: Option<Date>, today: Date): (r: AgeCheck)
    ensures r.age == CalculateAge(birth, today)
    ensures r.valid <==> birth.Some? && ValidateBirthDate(birth, today) == BirthDateAccepted
  {
    var age := CalculateAge(birth, today);
    if age.None? then AgeCheck(false, None)
    else if age.value < 18 then AgeCheck(false, age)
    else if age.value >= 60 then AgeCheck(false, age)
    else AgeCheck(true, age)
  }

  /** The client refuses a missing birth date that the server lets through. */
  lemma MissingBirthDateClientOnly(today: Date)
    ensures !ValidateEmployeeAge(None, today).valid
    ensures ValidateBirthDate(None, today) == BirthDateAccepted
  {
  }

  /** `calculateDays`: whole days between the two dates, either way round, plus one. */
  function CalculateDays(start: Date, end: Date): (n: int)
    ensures n >= 1
    ensures Before(end, start) ==> n == DaysBetween(end, start) + 1
    ensures !Before(end, start) ==> n == DaysBetween(start, end) + 1
  {
    DaysBetweenNonNegative(start, end);
    var diff := DaysBetween(start, end);
    (if diff < 0 then -diff else diff) + 1
  }

  /** For well-ordered dates the client's day count is the model's `days_count`. */
  lemma CalculateDaysIsDaysCount(l: Leave)
    requires !Before(l.end, l.start)
    ensures CalculateDays(l.start, l.end) == DaysCount(l)
  {
  }

  datatype PreCheck = PreAccepted | PreEndBeforeStart | PreInsufficient(balance: int, pending: int, requested: int)

  /**
   * The checks `handleLeaveSubmit` makes before posting: dates in order,
   * and for paid leave the requested days within `(leave_balance ?? 30) -
   * (leaves_pending_this_year ?? 0)`.
   */
  function LeavePreCheck(t: LeaveType, start: Date, end: Date, balance: Option<int>, pending: Option<int>): (r: PreCheck)
    ensures r == PreEndBeforeStart <==> Before(end, start)
    ensures r.PreInsufficient? ==> t == Paid && r.requested > r.balance - r.pending
    ensures r == PreAccepted && t == Paid ==>
              CalculateDays(start, end) <= (if balance.Some? then balance.value else AnnualLeaveAllowance) - (if pending.Some? then pending.value else 0)
    ensures !Before(end, start) && t != Paid ==> r == PreAccepted
    ensures !Before(end, start) && t == Paid
            && CalculateDays(start, end) <= (if balance.Some? then balance.value else AnnualLeaveAllowance) - (if pending.Some? then pending.value else 0)
            ==> r == PreAccepted
    ensures r.PreInsufficient? ==>
              r == PreInsufficient(if balance.Some? then balance.value else AnnualLeaveAllowance,
                                   if pending.Some? then pending.value else 0,
                                   CalculateDays(start, end))
  {
    if Before(end, start) then PreEndBeforeStart
    else if t == Paid then
      var requested := CalculateDays(start, end);
      var b := if balance.Some? then balance.value else AnnualLeaveAllowance;
      var p := if pending.Some? then pending.value else 0;
      if requested > b - p then PreInsufficient(b, p, requested) else PreAccepted
    else PreAccepted
  }

  /**
   * With the profile's figures as the server computes them, the client
   * pre-check accepts exactly the requests the leave serializer accepts,
   * and refuses the others for the same reason.
   */
  lemma PreCheckAgreesWithServer(e: Employee, t: LeaveType, start: Date, end: Date, leaves: seq<Leave>, today: Date)
    ensures var client := LeavePreCheck(t, start, end, Some(LeaveBalance(leaves, e.id, today.year)), Some(PendingDays(leaves, e.id, today.year)));
      var server := ValidateLeave(LeaveRequest(Some(e), Some(t), Some(start), Some(end)), leaves, today);
      && (client == PreAccepted <==> server == LeaveAccepted)
      && (client == PreEndBeforeStart <==> server == EndBeforeStart)
      && (client.PreInsufficient? <==> server.InsufficientBalance?)
  {
  }

  /** A profile without the two figures is checked against the full annual allowance and nothing pending. */
  lemma MissingFiguresMeanFullAllowance(t: LeaveType, start: Date, end: Date)
    ensures LeavePreCheck(t, start, end, None, None) == LeavePreCheck(t, start, end, Some(AnnualLeaveAllowance), Some(0))
    ensures LeavePreCheck(t, start, end, None, None) == LeavePreCheck(t, start, end, Some(LeaveBalance([], 0, start.year)), Some(PendingDays([], 0, start.year)))
  {
  }

  /** The `pendingLeaves` counter of `updateLeaveStats`. */
  function PendingCount(leaves: seq<Leave>): (n: nat)
    ensures n <= |leaves|
    ensures n == 0 <==> forall l :: l in leaves ==> !AwaitingDecision(l)
  {
    var awaiting := Filter(leaves, AwaitingDecision);
    assert awaiting != [] ==> awaiting[0] in awaiting;
    |awaiting|
  }

  /** On the caller's own leave list the counter is the size of the server's `pending` list. */
  lemma PendingCountIsPendingList(p: Principal, leaves: seq<Leave>)
    ensures PendingCount(VisibleLeaves(p, leaves)) == |PendingLeaves(p, leaves)|
  {
  }

  /** The balance `displayProfile` shows, as written: `leave_balance || 30`. */
  function DisplayedBalanceAsWritten(balance: Option<int>): (shown: int)
    ensures balance.Some? && balance.value != 0 ==> shown == balance.value
    ensures balance.None? || balance == Some(0) ==> shown == AnnualLeaveAllowance
  {
    if balance.None? || balance.value == 0 then AnnualLeaveAllowance else balance.value
  }

  /** The balance as the leave tab shows it (`leave_balance ?? 30`), which the profile view evidently means to show too. */
  function DisplayedBalance(balance: Option<int>): (shown: int)
    ensures balance.Some? ==> shown == balance.value
    ensures balance.None? ==> shown == AnnualLeaveAllowance
  {
    if balance.None? then AnnualLeaveAllowance else balance.value
  }

  /**
   * An employee who has taken the whole allowance (one approved paid leave
   * of 30 days) has a balance of 0, which the profile view shows as 30 days
   * while the leave tab shows 0.
   */
  lemma ExhaustedBalanceShownAsFull(e: Employee)
    ensures var l := Leave(1, e, Paid, YearMonthDay(2026, 1, 1), YearMonthDay(2026, 1, 30), Approved, None, None);
      var balance := LeaveBalance([l], e.id, 2026);
      balance == 0 && DisplayedBalanceAsWritten(Some(balance)) == 30 && DisplayedBalance(Some(balance)) == 0
  {
    var l := Leave(1, e, Paid, YearMonthDay(2026, 1, 1), YearMonthDay(2026, 1, 30), Approved, None, None);
    NoLeavesFullBalance(e.id, 2026);
    CountedLeaveLowersBalance([], l, e.id, 2026);
    assert [] + [l] == [l];
    assert DaysCount(l) == 30;
  }
}
