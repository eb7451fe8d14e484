# Contract staff management — a verified model

This project models the HR system used to manage the contract staff of
several outsourcing companies (Azing, Azing 1, Cafor, Nbig, Yessimo and
Ivoir Gardiennage). It is written in Dafny. The system has two parts:

- a Django REST back end: models, serializers, scoped view sets, leave
  workflow, reminder signal, Excel reports and the admin forms;
- a JavaScript front end: the dashboard helpers and the employee
  self-service page.

The bulk account-creation scripts, one per company, are modelled too.

The model has these parts:

- **Roles and perimeters** (`roles.dfy`): how a user resolves to one of
  four roles. The roles are administrator, *entreprise* (a company
  account, tied to one department), manager (tied to a list of
  directions) and employee. The module also models the row filter every
  scoped view set applies, and the login payload.
- **Leave arithmetic** (`balance.dfy`): inclusive day counts, days taken
  and days pending this year, and the balance against the annual
  allowance of 30 days.
- **Dates** (`dates.dfy`): Python's proleptic Gregorian calendar.
- **Leave workflow** (`workflow.dfy`): approve, reject and destroy on a
  leave table. A manager validates a pending leave, the company
  approves it after the manager, and an administrator approves directly.
  `LeaveStore` keeps the tables and updates them in place.
- **Reminders** (`notifications.dfy`): the post-save signal that creates
  the reminders seven days before and one day before an approved leave.
  `NotificationTable` updates the table in place.
- **Views** (`view_scopes.dfy`): the querysets of the password-record,
  department, employee, leave and attendance view sets, and the
  dashboard statistics.
- **Serializer checks** (`validators.dfy`): age and retirement year, the
  18-to-60 birth-date window, e-mail uniqueness, the leave check against
  the effective balance, the attendance time check and registration.
- **Excel reports** (`reports.dfy`): which employees, leaves and
  attendances they cover, and the layout of the "by company" sheet.
- **Admin** (`admin_roles.dfy`): the user creation and change forms,
  `save_model` and the list columns. `UserAccount` is updated in place
  by the form saves.
- **Front end** (`dashboard_utils.dfy`, `employee_profile.dfy`): HTML
  escaping, the label tables, the profile lookup, the client-side age,
  day-count and balance checks, and the displayed figures.
- **Account scripts** (`agent_scripts.dfy`): username and password
  generation, and the main loop that keeps usernames unique across a
  run.
- **Shared helpers** (`wrappers.dfy`, `text.dfy`, `domain.dfy`):
  `Option`, Python string helpers, and the entities with `Filter`.

Clocks, the database and the request become parameters of the model.
Today's date is an argument. Tables are sequences of rows. A caller is a
`Principal` that records:

- its superuser and staff flags;
- its optional company profile (a department);
- its optional manager profile (a list of direction names).

Where the written documentation of the system and its code differ, the
model follows the code:

- an employee's call to `approve` saves the leave unchanged and answers
  200;
- an administrator's approval has no status check, so it can approve a
  rejected leave;
- registering with the role `entreprise` creates an account with no
  flag and no company profile, which then acts as a plain employee;
- the browser refuses a missing birth date, while the server accepts
  one;
- the `today` and `by_employee` attendance actions read the whole table,
  not the caller's perimeter;
- a plain employee's dashboard counts the whole personnel.

## Model

| member | source | states |
|---|---|---|
| Roles.ResolveRole | backend/api/views.py:102-141 | superuser ⇔ admin; otherwise a company profile ⇔ entreprise of that department; otherwise staff ⇔ manager of its directions (none without a profile); otherwise employee |
| Roles.RoleFiltered | backend/api/views.py:175-201 | a row is kept exactly when the caller's role sees its keys: everything for an admin, the department for an entreprise, the directions for a manager, the own user for an employee |
| Roles.VisibleEmployees | backend/api/views.py:347-353 | the employee queryset holds exactly the employees in the caller's perimeter |
| Roles.VisibleLeaves | backend/api/views.py:403-409 | the leave queryset holds exactly the leaves whose employee is in the caller's perimeter |
| Roles.VisibleAttendances | backend/api/views.py:558-564 | the attendance queryset holds exactly the rows whose employee is in the caller's perimeter |
| Roles.RoleFilteredAgrees | backend/api/views.py:175-201 | any filter that agrees with the perimeter on every row gives the role-filtered queryset, in the same order |
| Roles.AdminSeesAll | backend/api/views.py:192-193 | an administrator's queryset is the whole table |
| Roles.ManagerWithoutDirectionsSeesNothing | backend/api/views.py:196-199 | a manager with no direction gets an empty queryset (fail-closed) |
| Roles.StaffWithoutProfilesIsEmptyManager | backend/api/views.py:134-139 | a staff user with neither profile resolves to a manager with no direction |
| Roles.CompanyProfileWins | backend/api/views.py:125-132 | a company profile beats the staff flag and the manager profile; such a caller only sees its department's employees |
| Roles.Login | backend/api/views.py:652-718 | a missing or empty username or password gives 400; failed authentication gives 401; success returns the role name and the perimeter of the resolved role |
| Roles.LoginPerimeterMatchesContext | backend/api/views.py:679-706 | the login payload's role, department and directions are those of the user context |
| Domain.Filter | backend/api/views.py:175-201 | the filtered rows are exactly the rows that satisfy the condition, and there are no more of them than in the table |
| Domain.FilterAppend | backend/api/views.py:175-201 | filtering distributes over appending rows |
| Domain.FilterAgrees | backend/api/views.py:175-201 | two conditions that agree on every row select the same rows |
| Dates.DaysBetweenNonNegative | backend/api/models.py:559-565 | `(b - a).days` is non-negative exactly when `b` is not before `a` |
| Dates.BeforeIffOrdinalLess | backend/api/serializers.py:363 | comparing dates field by field is comparing their day ordinals |
| Dates.MonthsFillYear | backend/api/models.py:559-565 | the months of a year add up to its 365 or 366 days |
| Dates.OrdinalWithinYear | backend/api/models.py:559-565 | every date's ordinal lies within its own year's range |
| Balance.FullName | backend/api/models.py:326-333 | first name, one space, last name, each part at its place |
| Balance.DaysCount | backend/api/models.py:558-565 | the day count is at least one exactly when the end is not before the start; a one-date leave lasts one day |
| Balance.SumDayCounts | backend/api/models.py:352-355 | the loop's total is the sum of the day counts of the leaves |
| Balance.LeavesTakenThisYear | backend/api/models.py:335-355 | days of the employee's approved paid leaves starting this year |
| Balance.LeavesPendingThisYear | backend/api/models.py:357-378 | days of the employee's paid leaves awaiting a decision (pending or manager-approved) starting this year |
| Balance.LeaveBalance | backend/api/models.py:380-389 | balance plus days taken is the allowance of 30; no clamping at zero |
| Balance.SumDaysAppend | backend/api/models.py:345-355 | the day-count sum is additive over concatenation |
| Balance.SumDaysNonNegative | backend/api/models.py:345-355 | leaves with well-ordered dates sum to a non-negative total |
| Balance.NoLeavesFullBalance | backend/api/models.py:221 | with no leave on record nothing is taken or pending and the balance is 30 |
| Balance.UncountedLeaveIsNeutral | backend/api/models.py:345-355 | recording a leave of another employee, year, type or status leaves the balance unchanged |
| Balance.CountedLeaveLowersBalance | backend/api/models.py:380-389 | recording an approved paid leave of the year lowers the balance by its day count |
| Balance.ApprovalMovesPendingToTaken | backend/api/models.py:335-378 | approving a pending paid leave moves its days from pending to taken, so the effective balance is unchanged |
| Balance.ApprovalAddsTaken | backend/api/models.py:335-355 | approving a pending paid leave adds its day count to the days taken |
| Balance.ApprovalRemovesPending | backend/api/models.py:357-378 | approving a pending paid leave removes its day count from the days pending |
| Balance.SumAround | backend/api/models.py:345-355 | the filtered sum over a table split around one row is the sum of the parts |
| Balance.WorkedMinutes | backend/api/models.py:623-641 | zero unless both times are recorded; otherwise check-in plus the worked time is check-out |
| Balance.InsertAttendance | backend/api/models.py:614-618 | an insert fails exactly when the employee already has a row that day; otherwise the row is appended and one-row-per-day still holds |
| Workflow.ApproveLeave | backend/api/views.py:412-469 | a saved decision keeps the request's employee, type and dates; a refusal is "not yet validated by a manager" or "no longer pending" |
| Workflow.RejectLeave | backend/api/views.py:472-506 | a saved decision keeps the request; the only refusal is "already processed" |
| Workflow.AdminApprovesDirectly | backend/api/views.py:430-435 | an administrator's approval always saves the leave as approved, with the administrator as approver |
| Workflow.EntrepriseApprovesOnlyAfterManager | backend/api/views.py:444-452 | a company approves exactly manager-approved leaves, which then become approved |
| Workflow.ManagerValidatesOnlyPending | backend/api/views.py:453-461 | a manager approves exactly pending leaves, which then become manager-approved |
| Workflow.EmployeeApprovalIsNoOp | backend/api/views.py:436-469 | an employee's approve saves the leave unchanged |
| Workflow.NonAdminFollowsWorkflow | backend/api/views.py:412-506 | without superuser rights, the approve and reject actions only move a leave one step along pending → manager-approved → approved, or reject an undecided leave; they never change a decided leave |
| Workflow.AdminOverridesRejection | backend/api/views.py:430-435 | an administrator can approve a rejected leave |
| Workflow.RejectionRecordsRejecter | backend/api/views.py:493-500 | a rejection succeeds exactly on an undecided leave and records the rejecter |
| Workflow.IndexOfId | backend/api/views.py:427 | the index found holds the requested id; no index means no leave has it |
| Workflow.FindVisible | backend/api/views.py:427 | a leave found is in the caller's queryset; none found means no leave of that id is in it |
| Workflow.SaveAt | backend/api/signals.py:25-65 | saving keeps the tables consistent; saving an approved leave leaves both reminders in place, unless its start is in the first week of 0001, where the reminder table is unchanged |
| Workflow.FailuresChangeNothing | backend/api/views.py:412-523 | a refused approve, reject or destroy leaves the tables untouched |
| Workflow.OutOfScopeIsNotFound | backend/api/views.py:412-523 | a leave outside the caller's perimeter answers 404 (403 first for a non-staff rejecter) and changes nothing |
| Workflow.SuccessUpdatesOneLeave | backend/api/views.py:463-469 | a successful approval replaces exactly one leave, the one requested, and an approved leave whose reminder dates exist has both reminders |
| Workflow.RemoveAtKeepsOthers | backend/api/views.py:508-523 | deleting one leave loses it and only it |
| Workflow.DestroyKeepsApproved | backend/api/views.py:508-523 | destroy removes only the requested leave and keeps the tables consistent |
| Workflow.TwoTierApproval | backend/api/views.py:444-461 | the manager then the company approving a pending leave makes it approved, with both reminders created, or none when the seven-day reminder would fall before 0001-01-01 |
| Workflow.LeaveStore.Approve | backend/api/views.py:412-469 | the answer and new tables are those of the approve function on the old tables; the table invariant is kept |
| Workflow.LeaveStore.Reject | backend/api/views.py:472-506 | the answer and new tables are those of the reject function on the old tables; the table invariant is kept |
| Workflow.LeaveStore.Destroy | backend/api/views.py:508-523 | the answer and new tables are those of the destroy function on the old tables; the table invariant is kept |
| Workflow.LeaveStore.Save | backend/api/signals.py:25-65 | the leave is stored and the reminder hook runs on the stored leave |
| Notifications.Reminder | backend/api/signals.py:41-58 | the reminder fires its number of days before the first day of leave, on a real date (ordinal at least 1) whenever the hook does not overflow |
| Notifications.GetOrCreate | backend/api/signals.py:42-46 | the key is present afterwards; an existing row is kept, otherwise the new row is appended; unique keys stay unique |
| Notifications.AfterLeaveSaved | backend/api/signals.py:25-65 | nothing changes unless the leave is approved and starts after 0001-01-07 (earlier starts overflow); then both reminders exist, keys stay unique, and at most two rows for this leave, with real trigger dates, are appended |
| Notifications.FirstWeekGetsNoReminder | backend/api/signals.py:40-41 | an approved leave starting in the first week of 0001 overflows at the seven-day reminder and gets no reminder |
| Notifications.SavingAgainChangesNothing | backend/api/signals.py:25-65 | once an approved leave has its reminders, saving it again, even with new dates, changes nothing |
| Notifications.ExactlyOneOfEach | backend/api/signals.py:25-65 | with unique keys an approved leave whose reminder dates exist has exactly one reminder of each type |
| Notifications.CreatedTriggers | backend/api/signals.py:41-58 | a created reminder fires 7 days, or 1 day, before the leave starts |
| Notifications.NotificationTable.CreateLeaveNotifications | backend/api/signals.py:25-65 | the table becomes the hook's result on the old table |
| ViewScopes.PasswordRecordsAsWritten | backend/api/views.py:238-261 | non-staff callers are refused; a superuser reads every record, and so does a manager with no direction |
| ViewScopes.PasswordRecords | backend/api/views.py:238-261 | non-staff callers are refused; a superuser reads every record; any other caller reads only records of accounts linked to employees in its perimeter |
| ViewScopes.EmptyManagerReadsAllPasswords | backend/api/views.py:256-260 | a staff user without profiles reads every stored password as written, and none under the fail-closed rule |
| ViewScopes.PasswordRecordsAgreeOtherwise | backend/api/views.py:238-261 | for every other caller the two querysets coincide |
| ViewScopes.ProfileOf | backend/api/views.py:294-299 | the linked employee row, or the proof that none exists |
| ViewScopes.VisibleDepartments | backend/api/views.py:280-300 | all departments for an admin or manager; the own department for an entreprise; the profile's department for an employee |
| ViewScopes.DepartmentsCoverVisibleEmployees | backend/api/views.py:280-300 | the department of every employee the caller sees is a department the caller sees |
| ViewScopes.MembersOf | backend/api/views.py:356-379 | a group holds exactly the visible employees of that department |
| ViewScopes.Groups | backend/api/views.py:356-379 | every group is non-empty and is its department's members; every department with a visible member has a group |
| ViewScopes.ByDepartment | backend/api/views.py:356-379 | the loop returns the groups of the caller's visible employees |
| ViewScopes.PendingLeaves | backend/api/views.py:526-540 | exactly the caller's leaves that are pending or manager-approved |
| ViewScopes.AttendanceToday | backend/api/views.py:567-579 | exactly the rows of the day, from the whole table |
| ViewScopes.TodayIgnoresScope | backend/api/views.py:567-579 | a row the scoped list hides from the caller is shown by `today` |
| ViewScopes.AttendanceByEmployee | backend/api/views.py:582-601 | a missing id is refused; otherwise exactly that employee's rows, unscoped |
| ViewScopes.Dashboard | backend/api/views.py:796-850 | the totals count the scoped employees and all departments, and never exceed the tables |
| ViewScopes.DashboardMatchesScopedQuerysets | backend/api/views.py:796-850 | for admin, entreprise and manager each counter is the size of the matching scoped queryset |
| ViewScopes.EmployeeDashboardIsGlobal | backend/api/views.py:796-850 | a plain employee's dashboard counts every employee, every present row of the day and every approved leave covering the day |
| Validators.Age | backend/api/serializers.py:224-240 | the age is the largest k whose k-th birthday is not after today |
| Validators.GetAge | backend/api/serializers.py:224-240 | none exactly without a birth date; otherwise the k-th birthday is reached and the next is not |
| Validators.RetirementYear | backend/api/serializers.py:242-253 | none exactly without a birth date; otherwise the birth year plus 60 |
| Validators.ValidateBirthDate | backend/api/serializers.py:279-307 | an absent date passes; too young means the 18th birthday is not reached; retirement age means the 60th is |
| Validators.AcceptedBeforeRetirementYear | backend/api/serializers.py:279-307 | an accepted birth date puts today between the 18th birthday's year and the retirement year |
| Validators.EmailAvailable | backend/api/serializers.py:255-277 | free exactly when no employee other than the one being edited has the address |
| Validators.EmailEditCases | backend/api/serializers.py:255-277 | keeping one's own address passes; creating with it, or taking another's, fails |
| Validators.ValidateLeave | backend/api/serializers.py:362-386 | end before start is refused; a refused paid request asks for more than the balance minus the pending days; an accepted paid request fits in it |
| Validators.UnpaidTypesSkipBalance | backend/api/serializers.py:370-379 | non-paid leave is accepted exactly when its dates are in order |
| Validators.AcceptedRequestHasADay | backend/api/serializers.py:362-368 | an accepted request lasts at least one day |
| Validators.FreshEmployeeAllowance | backend/api/serializers.py:368-384 | with no leave on record a paid request is accepted up to 30 days and refused beyond |
| Validators.ValidateAttendance | backend/api/serializers.py:412-429 | refused exactly when both times are given and check-out is not after check-in |
| Validators.AcceptedAttendanceWorksPositiveTime | backend/api/serializers.py:412-429 | an accepted complete row has a positive worked time |
| Validators.PasswordsMatch | backend/api/serializers.py:453-467 | accepted exactly when both passwords are equal |
| Validators.Register | backend/api/serializers.py:469-500 | the new account has no profile, and superuser implies staff |
| Validators.RegisteredRoles | backend/api/serializers.py:469-500 | admin, manager (no direction), and employee for the entreprise, employee and missing choices |
| Validators.DayCountExamples | backend/api/models.py:558-565 | 10–14 February is five days; a one-date leave is one day |
| Validators.BalanceExamples | backend/api/models.py:380-389 | an approved five-day paid leave gives 25; pending, rejected, sick or unpaid leaves keep 30 |
| Validators.LeaveRequestExamples | backend/api/serializers.py:362-386 | a 35-day paid request is refused for balance; an inverted request for its dates |
| Validators.AttendanceExamples | backend/api/models.py:623-641 | 8:00 to 17:00 is nine hours; without a check-out zero; an inverted pair is refused |
| Reports.ReportEmployees | backend/api/views_reports.py:78-97 | exactly the employees in the report perimeter; all of them for a superuser; none for staff without profiles |
| Reports.ReportScopeIsRoleScope | backend/api/views_reports.py:78-97 | except for a non-staff account holding a company profile, the report perimeter is the API's |
| Reports.NonStaffCompanyHolderSeesOnlyOwnRows | backend/api/views_reports.py:78-97 | a non-staff company-profile account resolves to entreprise in the API but the reports give only its own rows |
| Reports.ReportEmployeeIds | backend/api/views_reports.py:78-97 | exactly the ids of employees in the report perimeter |
| Reports.LeavesReport | backend/api/views_reports.py:180-251 | exactly the leaves of employees in the report perimeter |
| Reports.AttendanceReport | backend/api/views_reports.py:117-175 | exactly the attendance rows of employees in the report perimeter |
| Reports.LeavesReportFollowsEmployees | backend/api/views_reports.py:180-251 | a leave is listed exactly when its employee is in the perimeter |
| Reports.AttendanceReportFollowsEmployees | backend/api/views_reports.py:117-175 | a row is listed exactly when its employee is in the perimeter |
| Reports.LeavesReportIsScopedLeaves | backend/api/views_reports.py:180-251 | under the same perimeter the leaves report is the leave queryset, in order |
| Reports.AttendanceReportIsScopedAttendance | backend/api/views_reports.py:117-175 | under the same perimeter the attendance report is the attendance queryset, in order |
| Reports.CountIn | backend/api/views_reports.py:287 | positive exactly when some employee has that department |
| Reports.HeadingCountAsWritten | backend/api/views_reports.py:287 | the company's count for a company, 0 for "Sans entreprise" |
| Reports.HeadingCount | backend/api/views_reports.py:287 | the corrected count: the heading of any listed employee counts at least that employee |
| Reports.NoCompanyHeadingUndercounts | backend/api/views_reports.py:280-287 | the "Sans entreprise" heading says 0 although it heads at least one row |
| Reports.LastLabel | backend/api/views_reports.py:275-286 | no current group exactly before the first row |
| Reports.Separator | backend/api/views_reports.py:283-298 | no line when the group is unchanged; otherwise a heading with the count as written (or corrected), preceded by a blank line unless it is the first group |
| Reports.RowsStep | backend/api/views_reports.py:279-318 | each employee adds exactly one data row |
| Reports.NumberedRowsExtend | backend/api/views_reports.py:300-302 | numbering the next employee extends a correct numbering |
| Reports.RowsAreNumberedInOrder | backend/api/views_reports.py:277-318 | the data rows are the employees in order, numbered 1, 2, … |
| Reports.HeadingsCountTheirCompany | backend/api/views_reports.py:283-298 | every heading of a company carries the report's count for that company |
| Reports.NoCompanyHeadingSaysZero | backend/api/views_reports.py:283-298 | on the sheet as written the "Sans entreprise" heading always announces 0 agents |
| Reports.CorrectedHeadingsCountTheirGroup | backend/api/views_reports.py:283-298 | on the corrected sheet every heading, "Sans entreprise" included, carries its group's size |
| Reports.LoneNoCompanySheet | backend/api/views_reports.py:279-302 | one employee without a company: the sheet as written reads "Sans entreprise" with 0 agents above row 1, the corrected one with 1 |
| Reports.SheetBodyStep | backend/api/views_reports.py:279-318 | one pass of the loop appends the separator and the numbered row |
| Reports.DepartmentsReport | backend/api/views_reports.py:256-329 | the sheet is the grouped body with the counts as written, followed by the grand total of all employees |
| Reports.GrandTotalCountsRows | backend/api/views_reports.py:300-324 | the grand total equals the number of data rows |
| AdminRoles.CleanPassword2 | backend/api/admin.py:142-155 | mismatch exactly when both passwords are given and differ; otherwise the confirmation is kept |
| AdminRoles.CleanRoleFields | backend/api/admin.py:157-173 | a company role needs a company, a manager role a direction, and nothing else is refused |
| AdminRoles.Flags | backend/api/admin.py:195-204 | superuser exactly for admin, staff for every role but employee, and superuser implies staff |
| AdminRoles.AfterCreationSave | backend/api/admin.py:175-231 | the flags follow the role; an uncommitted save leaves the profiles alone |
| AdminRoles.AfterChangeSave | backend/api/admin.py:331-378 | the flags follow the role; a committed save keeps exactly the profile the role needs |
| AdminRoles.AfterSaveModel | backend/api/admin.py:437-466 | the flags are untouched; afterwards exactly the profile the role needs exists |
| AdminRoles.ChangeFormRoundTrip | backend/api/admin.py:331-378 | after a committed change-form save the API resolves the chosen role |
| AdminRoles.CreationFormRoundTrip | backend/api/admin.py:175-231 | after a committed creation-form save of a new account the API resolves the chosen role |
| AdminRoles.AdminPathRoundTrip | backend/api/admin.py:437-466 | an uncommitted form save followed by `save_model` gives the chosen role, whatever the prior state |
| AdminRoles.GetRole | backend/api/admin.py:468-489 | the label names exactly the resolved role |
| AdminRoles.InitialRole | backend/api/admin.py:284-312 | the pre-selected choice is exactly the resolved role |
| AdminRoles.InitialForm | backend/api/admin.py:284-312 | the pre-filled form carries that role and the company profile's department |
| AdminRoles.ResavingInitialFormKeepsRole | backend/api/admin.py:284-378 | submitting the pre-filled change form keeps the account's role |
| AdminRoles.GetDirections | backend/api/admin.py:491-514 | the company name for a company account; for a manager, the direction names joined by ", ", starting with the first and as long as the names plus the separators; "-" without either |
| AdminRoles.DirectionsGrowByOne | backend/api/admin.py:506-510 | one more direction appends ", " and its name to the column |
| Text.Join | backend/api/admin.py:510 | the join starts with the first part and is as long as the parts plus one separator between each pair |
| Text.JoinSnoc | backend/api/admin.py:510 | joining one more part appends the separator and that part |
| Text.JoinEndsWithLast | backend/api/admin.py:510 | the join ends with the last part |
| AdminRoles.UserAccount.CreationFormSave | backend/api/admin.py:175-231 | the account becomes the creation save's result, and a commit writes the password record's role |
| AdminRoles.UserAccount.ChangeFormSave | backend/api/admin.py:331-378 | the account becomes the change save's result; the password record is untouched |
| AdminRoles.UserAccount.SaveModel | backend/api/admin.py:437-466 | the account becomes the `save_model` result; the password record is untouched |
| DashboardUtils.ReplaceAll | dashboard-utils.js:35-40 | a string without the character is unchanged |
| DashboardUtils.ReplaceAllCharacters | dashboard-utils.js:35-40 | every character of the result comes from the replacement or is a kept, different character |
| DashboardUtils.ReplaceAllAppend | dashboard-utils.js:35-40 | global replacement works piecewise on a concatenation |
| DashboardUtils.EscapeHtml | dashboard-utils.js:33-41 | `null` and `undefined` give the empty string |
| DashboardUtils.EscapeChar | dashboard-utils.js:35-40 | a plain character is kept; a special one becomes an entity `&…;` with no other `&` |
| DashboardUtils.Escaped | dashboard-utils.js:35-40 | escaping never shortens the text |
| DashboardUtils.EscapeChainIsPerCharacter | dashboard-utils.js:35-40 | the five chained replacements, `&` first, equal escaping each character on its own |
| DashboardUtils.EscapeChainAppend | dashboard-utils.js:35-40 | the replacement chain works piecewise on a concatenation |
| DashboardUtils.EscapeChainOneChar | dashboard-utils.js:35-40 | on one character the chain gives that character's escape |
| DashboardUtils.NoRawMarkup | dashboard-utils.js:33-41 | the escaped text contains no `<`, `>`, `"` or `'` |
| DashboardUtils.AmpersandsStartReferences | dashboard-utils.js:35-40 | every `&` in the output starts one of the five entities, so none is double-escaped |
| DashboardUtils.PlainTextUnchanged | dashboard-utils.js:33-41 | text without special characters is returned unchanged |
| DashboardUtils.UnescapeEscaped | dashboard-utils.js:33-41 | decoding the five entities gives back the original text |
| DashboardUtils.UnescapeOneChar | dashboard-utils.js:35-40 | decoding one character's escape gives back that character |
| DashboardUtils.Lookup | dashboard-utils.js:97 | a known code gets its table label; an unknown code is shown raw |
| DashboardUtils.GetStatusLabel | dashboard-utils.js:90-98 | an unknown status is shown as its code |
| DashboardUtils.GetLeaveTypeLabel | dashboard-utils.js:106-115 | an unknown type is shown as its code |
| DashboardUtils.GetLeaveStatusLabel | dashboard-utils.js:123-131 | an unknown status is shown as its code |
| DashboardUtils.GetAttendanceStatusLabel | dashboard-utils.js:139-147 | an unknown status is shown as its code |
| DashboardUtils.EveryCodeHasALabel | dashboard-utils.js:106-147 | every leave type, leave status and attendance status the back end stores has a label |
| DashboardUtils.ManagerApprovedLabel | dashboard-utils.js:126 | `manager_approved` is shown as "Validé Manager" |
| DashboardUtils.RejectedLabel | dashboard-utils.js:128 | `rejected` is shown as "Rejeté" |
| DashboardUtils.UnknownStatusShownRaw | dashboard-utils.js:97 | an unknown code such as `archived` is shown as is |
| EmployeeProfile.FindFirst | employee-profile.js:116 | the index found satisfies the test and no earlier row does; none found means no row does |
| EmployeeProfile.FindProfile | employee-profile.js:112-126 | the first row linked to the user id wins; otherwise the first with the user's e-mail; otherwise the first whose e-mail contains the username; none exactly when all three fail |
| EmployeeProfile.CalculateAge | employee-profile.js:819-834 | the client's age is the server's `get_age` |
| EmployeeProfile.CalculateRetirementYear | employee-profile.js:836-845 | the client's retirement year is the server's |
| EmployeeProfile.ValidateEmployeeAge | employee-profile.js:847-859 | valid exactly when a birth date is given and the server's birth-date check accepts it |
| EmployeeProfile.MissingBirthDateClientOnly | employee-profile.js:847-851 | a missing birth date is refused by the client and accepted by the server |
| EmployeeProfile.CalculateDays | employee-profile.js:807-812 | whole days between the dates, either way round, plus one, so at least one |
| EmployeeProfile.CalculateDaysIsDaysCount | employee-profile.js:807-812 | for well-ordered dates the client's count is the server's `days_count` |
| EmployeeProfile.LeavePreCheck | employee-profile.js:735-756 | dates out of order are refused; otherwise non-paid leave is accepted, and paid leave is accepted exactly when it fits in balance (default 30) minus pending (default 0), the refusal carrying those figures and the requested days |
| EmployeeProfile.MissingFiguresMeanFullAllowance | employee-profile.js:743-745 | missing figures check like a balance of 30 and nothing pending, the server's figures for an employee without leave |
| EmployeeProfile.PreCheckAgreesWithServer | employee-profile.js:735-756 | with the server's figures the client accepts and refuses exactly what the serializer does, for the same reason |
| EmployeeProfile.PendingCount | employee-profile.js:395 | zero exactly when no leave awaits a decision |
| EmployeeProfile.PendingCountIsPendingList | employee-profile.js:395 | on the caller's leaves the counter is the size of the server's `pending` list |
| EmployeeProfile.DisplayedBalanceAsWritten | employee-profile.js:287 | a balance of 0 or none is displayed as 30 |
| EmployeeProfile.DisplayedBalance | employee-profile.js:399 | the balance is displayed as is, and 30 only when absent |
| EmployeeProfile.ExhaustedBalanceShownAsFull | employee-profile.js:287 | after a 30-day approved paid leave the balance is 0, the profile shows 30 and the leave tab shows 0 |
| Text.SplitEmptyIffBlank | backend/create_cafor_agents.py:87 | `split()` finds no word exactly in an all-whitespace string |
| Text.FirstWord | backend/create_cafor_agents.py:87 | `split()[0]` exists exactly when `split()` is non-empty, and it is a word |
| Text.Remove | backend/create_cafor_agents.py:87 | the character is gone and every other character is kept |
| Text.RemoveAppend | backend/create_cafor_agents.py:87 | removal works piecewise on a concatenation |
| Text.ParseNatToString | backend/create_cafor_agents.py:100 | the decimal rendering reads back to the number |
| Text.ZeroPad2 | backend/create_cafor_agents.py:100 | at least two digits that read back to the number |
| AgentScripts.StripQuoteDash | backend/create_nbig_agents.py:65-67 | no quote or dash remains, and every other character is kept |
| AgentScripts.CleanWord | backend/create_cafor_agents.py:87-88 | lower case, without quotes, dashes or dots |
| AgentScripts.CleanKeepDot | backend/create_yessimo_agents.py:52-53 | lower case, without quotes or dashes, and dots kept (the Nbig and Yessimo names) |
| AgentScripts.GivenName | backend/create_azing1_agents.py:89-94 | defined exactly when the first name has a first word |
| AgentScripts.GivenNameCharacters | backend/create_azing1_agents.py:89-94 | lower case and without whitespace; only Azing1's fallback can keep a quote or a dash |
| AgentScripts.FamilyName | backend/create_nbig_agents.py:63-67 | defined for Nbig always, for the others exactly when the last name has a first word |
| AgentScripts.FamilyNameCharacters | backend/create_nbig_agents.py:63-67 | lower case without quotes or dashes; only Nbig's can hold a space |
| AgentScripts.BaseUsername | backend/create_cafor_agents.py:87-89 | defined exactly when both parts are |
| AgentScripts.BaseUsernameParts | backend/create_cafor_agents.py:89 | the username is the given name, a dot and the family name |
| AgentScripts.BaseUsernameCharacters | backend/create_cafor_agents.py:87-89 | the base username has no upper-case letter |
| AgentScripts.BaseUsernameSingleDot | backend/create_cafor_agents.py:87-89 | for Azing, Cafor and Ivoir Gardiennage the separator is the only dot |
| AgentScripts.Suffixed | backend/create_cafor_agents.py:92-94 | the suffixed name extends the base |
| AgentScripts.SuffixedInjective | backend/create_cafor_agents.py:92-94 | different suffixes give different names |
| AgentScripts.ChosenNameUnique | backend/create_cafor_agents.py:86-95 | the chosen name is determined by the base and the taken names |
| AgentScripts.GenerateUsername | backend/create_cafor_agents.py:86-95 | the base if free, otherwise the base with the least suffix from 2 up that is free; never a taken name |
| AgentScripts.HomonymsGetSuffixTwo | backend/create_cafor_agents.py:86-95 | of two homonyms the first gets the base and the second the base with 2 |
| AgentScripts.PasswordPrefix | backend/create_cafor_agents.py:100 | five characters ending with `@` |
| AgentScripts.PasswordStem | backend/create_cafor_agents.py:98-99 | defined exactly when the last name has a first word (always for Nbig); at most four characters |
| AgentScripts.PasswordStemCapitalised | backend/create_cafor_agents.py:99 | no lower-case first letter and no upper-case letter after it |
| AgentScripts.PasswordStemNoMarks | backend/create_cafor_agents.py:98 | outside Nbig the stem holds no quote or dash |
| AgentScripts.Password | backend/create_cafor_agents.py:97-100 | exactly when the stem exists: the script's prefix, then the stem, then digits that read back as the index |
| AgentScripts.EmailDomain | backend/create_cafor_agents.py:124 | a non-empty domain without `@` |
| AgentScripts.EmailInjective | backend/create_cafor_agents.py:124 | distinct usernames give distinct addresses |
| AgentScripts.EmailsDistinct | backend/create_cafor_agents.py:124 | a run's accounts have pairwise distinct addresses |
| AgentScripts.Usernames | backend/create_cafor_agents.py:150 | every account's username is in the set |
| AgentScripts.ExtendRun | backend/create_cafor_agents.py:110-150 | one more account chosen against the taken names keeps the run's facts and adds its name |
| AgentScripts.RunNamesFresh | backend/create_cafor_agents.py:106-150 | a run never reuses a pre-existing name or one of its own |
| AgentScripts.CreateAccount | backend/create_cafor_agents.py:110-112 | fails exactly where `split()[0]` fails; otherwise the account for that agent and position |
| AgentScripts.RunScript | backend/create_cafor_agents.py:106-150 | one account per agent until the first failure; pairwise distinct, fresh usernames and addresses |
| AgentScripts.GivenNameOfPlainWord | backend/create_cafor_agents.py:87 | a plain first word is only lower-cased |
| AgentScripts.GivenNameOfWord | backend/create_cafor_agents.py:87 | Azing, Cafor and Ivoir Gardiennage use only the first word of the first name |
| AgentScripts.FamilyNameOfPlainWord | backend/create_cafor_agents.py:88 | a plain last word is only lower-cased |
| AgentScripts.NbigFamilyNamePlain | backend/create_nbig_agents.py:63-67 | Nbig keeps the whole last name, spaces included |
| AgentScripts.StemOfLeadingWord | backend/create_cafor_agents.py:98-99 | the stem is the first word, cleaned, cut to four and capitalised |
| AgentScripts.NbigPasswordExamples | backend/create_nbig_agents.py:78-81 | ('ATTA', 1) gives `Nbig@Atta01`; ('AKA', 10) gives `Nbig@Aka10` |
| AgentScripts.BlankFirstNameFails | backend/create_cafor_agents.py:87 | a blank first name stops every script |

## Left out

- Persistence, HTTP routing, pagination and the JSON field layout of
  the serializers are left out. Tables are sequences and each endpoint
  is a function of them.
- JWT issuance and refresh, login throttling, and Django's password
  hashing and password validators are left out. `ChangePasswordView` is
  not part of this model: it only delegates to Django.
- The Fernet encryption of `PasswordRecord` and the decryption shown to
  administrators are left out. The records are opaque values owned by a
  user.
- Excel styling, column contents and file output are left out. The
  "by company" sheet is modelled as its lines (heading, blank, numbered
  row, grand total). The employee and leave sheets are modelled as the
  rows they list.
- `CompleteReportView` is left out: it only combines the sheets above.
- The `order_by` sorting of querysets and reports is left out. The model
  keeps the table order given.
- `Balance.WorkedMinutes`: hours are kept as whole minutes. The rounding
  of `hours_worked` to two decimals of an hour is not modelled.
- JavaScript `Date` parsing is left out, including time zones and the
  day-rounding of `calculateDays` for non-UTC clocks. Dates are
  calendar dates.
- Case mapping covers ASCII letters only. Accented names are neither
  lower-cased nor capitalised.
- The label tables are lookups over fixed code lists. Lookups of
  JavaScript prototype keys such as `constructor` are not modelled.
- The employee-profile page's rendering, forms, file previews, PDF
  export and notifications are left out. Only the computations listed
  above are modelled.
- The `LeaveNotification` serializer and the notification pages are not
  part of this model. The model stops at the rows the signal creates.
- Concurrent requests, and the cascade deletion of reminders with their
  leave, are left out.
- `Notifications.AfterLeaveSaved`: when the seven-day reminder would fall
  before 0001-01-01, the `OverflowError` of the hook is modelled as a
  hook that writes nothing. The HTTP 500 the request then answers is not
  modelled: `Workflow.ApproveLeave` and the request functions report
  success with the leave saved as approved.
- The account scripts' database writes are left out. That covers
  `create_user`, the employee `create`, the Azing matricule
  update, the password records and the Excel summaries. So is the check
  for an existing username in the database, which the in-memory set
  already decides. The run is a sequence of accounts.
- `ViewScopes.AttendanceByEmployee`: a non-numeric `employee_id` is not
  modelled. The identifier is a parsed number or absent.
- `Workflow.NonAdminFollowsWorkflow`: only the `approve` and `reject`
  actions are modelled as status changes. The leave serializer leaves
  `status`, `manager_approved_by` and `approved_by` writable, so a plain
  create or update of `LeaveViewSet` can set them directly; that path is
  not modelled and the lemma promises nothing about it.
- `AgentScripts.GivenName`: Azing1's "nee" rule is stated through
  `GivenNameCharacters` only. No lemma spells out its two-word form
  separately.

## Findings

| source | as written | input that shows it | evidently intended | confidence | as-written member | corrected member |
|---|---|---|---|---|---|---|
| backend/api/views.py:256-260 | a staff user with neither a company nor a manager profile falls through to `PasswordRecord.objects.all()` | a staff account created outside the admin forms, with no profile | such a user is fail-closed like everywhere else (`RoleFilterMixin` returns nothing for a manager with no direction) | medium, not executed | ViewScopes.PasswordRecordsAsWritten (shown by ViewScopes.EmptyManagerReadsAllPasswords) | ViewScopes.PasswordRecords |
| backend/api/views_reports.py:287 | the heading of the group without a company counts 0 agents | one employee with no department: the heading reads "Sans entreprise (0 agents)" above one row | the number of employees without a company | high, not executed | Reports.HeadingCountAsWritten, used by Reports.DepartmentsReport (shown by Reports.NoCompanyHeadingSaysZero and Reports.LoneNoCompanySheet) | Reports.HeadingCount (proved by Reports.CorrectedHeadingsCountTheirGroup) |
| employee-profile.js:287 | `leave_balance \|\| 30` displays a balance of 0 as 30 days | an employee whose 30 days are taken | `leave_balance ?? 30`, as the leave tab does at line 399 | high, not executed | EmployeeProfile.DisplayedBalanceAsWritten (shown by EmployeeProfile.ExhaustedBalanceShownAsFull) | EmployeeProfile.DisplayedBalance |
