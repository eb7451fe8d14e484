/**
 * The post-save hook on leaves: once a leave is approved it gets two
 * reminders, seven days before its start and on the eve of its start,
 * each created at most once per leave (`get_or_create` keyed by the leave
 * and the reminder type). Trigger dates are kept as day ordinals; a
 * trigger that would fall before 0001-01-01 makes the hook raise instead.
 */
module Notifications {
  import opened Dates
  import opened Domain

  datatype NotificationType = SevenDaysBefore | Eve

  datatype Notification = Notification(leave: LeaveId, kind: NotificationType, trigger: int)

  /** How many days before the start of the leave a reminder of this type fires. */
  function DaysAhead(kind: NotificationType): int {
    match kind
    case SevenDaysBefore => 7
    case Eve => 1
  }

  /**
   * `start_date - timedelta(days=7)` is still a date, at or after
   * 0001-01-01 (ordinal 1). For an earlier start Python raises
   * `OverflowError` there, before any reminder is written; the eve
   * reminder can only overflow when this one already does.
   */
  predicate RemindersRepresentable(l: Leave) {
    Ordinal(l.start) > DaysAhead(SevenDaysBefore)
  }

  /** The row `get_or_create` inserts when none exists yet: its `defaults`. */
  function Reminder(l: Leave, kind: NotificationType): (n: Notification)
    ensures n.leave == l.id && n.kind == kind
    ensures n.trigger + DaysAhead(kind) == Ordinal(l.start)
    ensures RemindersRepresentable(l) ==> n.trigger >= 1
  {
    Notification(l.id, kind, Ordinal(l.start) - DaysAhead(kind))
  }

  predicate HasReminder(rows: seq<Notification>, leave: LeaveId, kind: NotificationType) {
    exists n :: n in rows && n.leave == leave && n.kind == kind
  }

  /** At most one row per leave and reminder type. */
  predicate UniqueKeys(rows: seq<Notification>) {
    forall i, j :: 0 <= i < j < |rows| ==> (rows[i].leave, rows[i].kind) != (rows[j].leave, rows[j].kind)
  }

  /** `get_or_create`: insert `n` unless a row with its key is already there. */
  function GetOrCreate(rows: seq<Notification>, n: Notification): (r: seq<Notification>)
    ensures HasReminder(r, n.leave, n.kind)
    ensures HasReminder(rows, n.leave, n.kind) ==> r == rows
    ensures !HasReminder(rows, n.leave, n.kind) ==> r == rows + [n]
    ensures UniqueKeys(rows) ==> UniqueKeys(r)
  {
    if HasReminder(rows, n.leave, n.kind) then rows else rows + [n]
  }

  /**
   * The notification table after the hook runs for a saved leave. A start
   * in the first seven days of year 1 makes the hook raise before it
   * writes anything: the table stays as it was.
   */
  function AfterLeaveSaved(rows: seq<Notification>, l: Leave): (r: seq<Notification>)
    ensures l.status != Approved || !RemindersRepresentable(l) ==> r == rows
    ensures l.status == Approved && RemindersRepresentable(l) ==> HasReminder(r, l.id, SevenDaysBefore) && HasReminder(r, l.id, Eve)
    ensures UniqueKeys(rows) ==> UniqueKeys(r)
    ensures |rows| <= |r| <= |rows| + 2 && r[..|rows|] == rows
    ensures forall n :: n in r[|rows|..] ==> n.leave == l.id && n in [Reminder(l, SevenDaysBefore), Reminder(l, Eve)] && n.trigger >= 1
  {
    if l.status != Approved || !RemindersRepresentable(l) then rows
    else GetOrCreate(GetOrCreate(rows, Reminder(l, SevenDaysBefore)), Reminder(l, Eve))
  }

  /** Saving the same approved leave again, even with other dates, adds and changes nothing. */
  lemma {:induction false} SavingAgainChangesNothing(rows: seq<Notification>, l: Leave, l2: Leave)
    requires l.status == Approved && RemindersRepresentable(l) && l2.id == l.id
    ensures AfterLeaveSaved(AfterLeaveSaved(rows, l), l2) == AfterLeaveSaved(rows, l)
  {
    var once := AfterLeaveSaved(rows, l);
    assert HasReminder(once, l2.id, SevenDaysBefore);
    assert HasReminder(once, l2.id, Eve);
    if l2.status == Approved {
      assert GetOrCreate(once, Reminder(l2, SevenDaysBefore)) == once;
    }
  }

  /** A leave starting in the first week of 0001 makes the hook overflow: no reminder is written. */
  lemma FirstWeekGetsNoReminder(rows: seq<Notification>, l: Leave)
    requires l.start.year == 1 && l.start.month == 1 && l.start.day <= 7
    ensures !RemindersRepresentable(l) && AfterLeaveSaved(rows, l) == rows
  {
    assert DaysBeforeYear(1) == 0;
    assert DaysBeforeMonth(1, 1) == 0;
  }

  /** With unique keys, an approved leave has exactly one reminder of each type. */
  lemma {:induction false} ExactlyOneOfEach(rows: seq<Notification>, l: Leave, kind: NotificationType)
    requires UniqueKeys(rows) && l.status == Approved && RemindersRepresentable(l)
    ensures var r := AfterLeaveSaved(rows, l);
      exists i :: 0 <= i < |r| && r[i].leave == l.id && r[i].kind == kind
                  && forall j :: 0 <= j < |r| && j != i ==> (r[j].leave, r[j].kind) != (l.id, kind)
  {
    var r := AfterLeaveSaved(rows, l);
    assert HasReminder(r, l.id, kind);
    var n :| n in r && n.leave == l.id && n.kind == kind;
    var i :| 0 <= i < |r| && r[i] == n;
    assert forall j :: 0 <= j < |r| && j != i ==> (r[j].leave, r[j].kind) != (l.id, kind) by {
      forall j | 0 <= j < |r| && j != i
        ensures (r[j].leave, r[j].kind) != (l.id, kind)
      {
        if j < i {
          assert (r[j].leave, r[j].kind) != (r[i].leave, r[i].kind);
        } else {
          assert (r[i].leave, r[i].kind) != (r[j].leave, r[j].kind);
        }
      }
    }
  }

  /** A reminder the hook creates fires seven days, or one day, before the first day of leave. */
  lemma CreatedTriggers(rows: seq<Notification>, l: Leave, n: Notification)
    requires n in AfterLeaveSaved(rows, l) && n !in rows
    ensures n.leave == l.id && n.trigger == Ordinal(l.start) - DaysAhead(n.kind)
  {
    var r := AfterLeaveSaved(rows, l);
    assert r == r[..|rows|] + r[|rows|..];
  }

  /** The notification table, updated in place by the hook. */
  class NotificationTable {
    var rows: seq<Notification>

    constructor ()
      ensures rows == []
    {
      rows := [];
    }

    /** `create_leave_notifications`, run after every save of `l`. */
    method CreateLeaveNotifications(l: Leave)
      modifies this
      ensures rows == AfterLeaveSaved(old(rows), l)
    {
      if l.status != Approved || !RemindersRepresentable(l) {
        return;
      }
      var sevenDays := Reminder(l, SevenDaysBefore);
      if !HasReminder(rows, sevenDays.leave, sevenDays.kind) {
        rows := rows + [sevenDays];
      }
      var eve := Reminder(l, Eve);
      if !HasReminder(rows, eve.leave, eve.kind) {
        rows := rows + [eve];
      }
    }
  }
}
