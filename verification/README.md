# HRM leave accounting in Dafny

This project models the leave-accounting core of the `hrm` PHP application and proves properties about it. The core has four parts:

- **Day counting.** `calculateBusinessDays` walks a date range day by day, skipping ISO weekends and listed holidays. There are three copies of it, and they disagree on holidays. `calculateCalendarDays` counts every day of a range. `calculateLeaveDays` picks one of the two counts from the leave type's `counts_weekends` flag. The AJAX endpoint validates its POST input before counting.
- **The leave page's ledger.** Balance rows hold allocated, used and remaining days per employee and leave type (one row per pair; see "Left out"), with an all-zero sentinel for a missing row. A submitted application is checked against the remaining balance and stored as pending. HR approval by POST sets the status and debits the balance in one transaction. HR rejection and the GET links only set the status. A department head can record a decision only on applications that name them as the department head.
- **The annual-award engines.** Both use the July–June financial-year key. The new engine starts a named year once: it awards 30 days, or a share prorated to the hire date with a floor of one day. The old engine awards the current year to everyone without a row, or to everyone when forced. Its proration has no floor. It records each run in a log.
- **Role rules of the employees page.** These cover the level-table permission check, the `employee_type` → user-role mapping, the defaults applied on add, and the builder for the list filter.

Dates are proleptic-Gregorian `(year, month, day)` triples. They are numbered from Monday 0001-01-01 = 0, so the ISO weekday is `n % 7 + 1`. Adding one day with `DateInterval('P1D')` is adding one to that number. The database is replaced by maps of rows. Database failures, the clock and the signed-in user's employee record are parameters of the operations.

Modules:

| file | module | contents |
|---|---|---|
| common.dfy | `Common` | `Option`, `Abs`, `Max` |
| calendar.dfy | `Calendar` | dates, day numbers, ISO weekday, financial-year length |
| day_counting.dfy | `DayCounting` | both business-day variants, calendar days, the leave-type dispatcher, POST validation, the 2024 test ranges |
| financial_year.dfy | `FinancialYear` | decimal rendering, the year key, the `^\d{4}-\d{4}$` pattern, the beginning-of-year window |
| annual_award.dfy | `AnnualAward` | proration, both award loops as folds, and class `AnnualLeaveBook` with the engines' entry points |
| leave_ledger.dfy | `LeaveLedger` | balance rows and actions, applications, and class `LeaveBook` with the page's handlers |
| roles.dfy | `Roles` | permission levels, the role mapping, add defaults, the filter builder |

Where the application's documented behaviour and its code part ways, the model follows the code:

- `startNewFinancialYear` accepts any two four-digit years, including `2024-2026`. It never checks that the second year follows the first.
- The copy of `calculateBusinessDays` in `leave_management.php` skips holidays even when weekends are counted. The other two copies count holidays whenever weekends are counted.
- The old engine's proration has no floor: a hire on June 30 gets 0 days.
- The result of `startNewFinancialYear` does not carry the award's per-employee errors.
- POST approval does not look at the current status, so approving an application twice debits it twice.
- The approval POST and the department-head links ignore what `execute()` returns. A write that returns false changes nothing, yet the transaction commits and the success message is shown. Only a thrown exception rolls back.

## Model

| member | source | states |
|---|---|---|
| Calendar.IsoWeekday | hrm/calculate_leave_days.php:50 | `format('N')`: the weekday of a day number lies in 1..7 |
| Calendar.FinancialYearLength | hrm/annual_leave_award_new.php:143 | July 1 of y to June 30 of y+1, both included, has as many days as year y+1: 365 or 366 |
| Calendar.OrdinalIsChronological | hrm/annual_leave_award_new.php:141 | on valid dates, comparing day numbers is comparing dates (`$hireDate > $financialYearStart`), and equal numbers mean equal dates |
| DayCounting.CountChargeable | hrm/calculate_leave_days.php:48-67 | the day loop's count is never more than the days in the range, and 0 for an empty range |
| DayCounting.CountIsNumberOfChargeableDays | hrm/calculate_leave_days.php:48-69 | the loop's count is the number of days in [start, end] that one pass of the loop body charges |
| DayCounting.BusinessDayIsNonHolidayWeekday | hrm/calculate_leave_days.php:48-69 | with weekends excluded, a day is charged iff its ISO weekday is 1–5 and it is not a listed holiday (all three copies) |
| DayCounting.IncludeWeekendsCountsEveryDay | hrm/calculate_leave_days.php:54-65 | with weekends included, this copy (and the one in test_leave_calculation.php:36-46) counts every day of the range, holidays included |
| DayCounting.LegacyIncludeWeekendsSkipsHolidays | hrm/leave_management.php:76-95 | with weekends included, the leave page's copy counts exactly the days of the range that are not holidays |
| DayCounting.VariantsAgreeWithoutWeekends | hrm/leave_management.php:82-90 | with weekends excluded, the leave page's copy and the AJAX copy give the same count |
| DayCounting.SingleDay | hrm/calculate_leave_days.php:49-67 | a one-day range counts 1 if that day is charged and 0 otherwise |
| DayCounting.HolidaysOutsideRangeIgnored | hrm/calculate_leave_days.php:37-46 | holidays outside [start, end] do not change the count, so the `BETWEEN` filter on the holiday query does not matter |
| DayCounting.CalculateBusinessDays | hrm/calculate_leave_days.php:31-70 | the day-by-day loop returns exactly the specified count for either copy; it returns 0 when end is before start |
| DayCounting.CalendarDays | hrm/calculate_leave_days.php:72-78 | the absolute day difference plus one; at least 1 |
| DayCounting.CalendarDaysCountsEveryDay | hrm/calculate_leave_days.php:72-78 | for start ≤ end, the calendar count is the number of days in the range and bounds every business count |
| DayCounting.LeaveQuoteFor | hrm/calculate_leave_days.php:80-116 | calendar days with "Includes weekends and holidays" iff the type exists and counts weekends. Otherwise business days with "Excludes weekends and holidays", and leave type "Unknown" when the id is missing (same as test_leave_calculation.php:63-99) |
| DayCounting.CalculateLeaveDays | hrm/calculate_leave_days.php:80-116 | the dispatcher's result is the quote specified above |
| DayCounting.HandleCalculateRequest | hrm/calculate_leave_days.php:119-143 | fails exactly when a date is empty, the type id ≤ 0, a date is not Y-m-d or end < start, with the source's message for each, checked in that order; otherwise returns the dispatcher's quote and the two date strings |
| DayCounting.TestMondayToFriday | hrm/test_leave_calculation.php:121-124 | 2024-07-22 is a Monday; with no holiday in range, 22–26 July gives 5 calendar and 5 business days |
| DayCounting.TestFridayToMonday | hrm/test_leave_calculation.php:126-129 | 26–29 July 2024 gives 4 calendar days and 2 business days |
| DayCounting.TestTwoWeeks | hrm/test_leave_calculation.php:131-134 | 22 July – 2 August 2024 gives 12 calendar days and 10 business days |
| FinancialYear.CurrentFinancialYear | hrm/annual_leave_award_new.php:17-28 | "Y-(Y+1)" from July on, "(Y-1)-Y" before (same rule in annual_leave_award.php:17-28) |
| FinancialYear.CurrentFinancialYearRoundTrip | hrm/annual_leave_award_new.php:17-28 | the current key matches the pattern and parses back to (first, first + 1): its second year always follows the first |
| FinancialYear.ParseFinancialYear | hrm/annual_leave_award_new.php:61-63 | a key is accepted iff it is four digits, '-', four digits; the years read are at most 9999 |
| FinancialYear.PatternAcceptsNonConsecutiveYears | hrm/annual_leave_award_new.php:61-63 | "2024-2026" passes the format check and reads as (2024, 2026) |
| FinancialYear.IsBeginningOfFinancialYear | hrm/annual_leave_award.php:33-39 | a day inside the window (July, day ≤ 7) lies in the financial year that starts in the current calendar year, whose key is "Y-(Y+1)" |
| FinancialYear.BeginningIsFirstWeekOfYear | hrm/annual_leave_award.php:33-39 | on a valid date, the window holds exactly the seven days July 1 .. July 7, counted by day number from July 1 |
| AnnualAward.EligibleEmployees | hrm/annual_leave_award_new.php:105-108 | every employee kept is permanent and active, and no more rows come out than go in (same query in annual_leave_award.php:51-54) |
| AnnualAward.EligibleIsFilter | hrm/annual_leave_award_new.php:105-108 | an employee is in the result iff it is in the table and is permanent and active |
| AnnualAward.EligibleKeepsOrder | hrm/annual_leave_award_new.php:105-108 | the query works row by row in table order: the result for a concatenation is the two results concatenated, and one row is kept iff it is eligible. Order and repetitions are therefore fixed |
| AnnualAward.RoundHalfUp | hrm/annual_leave_award_new.php:145 | the result is the integer nearest to num/den, halves up |
| AnnualAward.ProrationHasNoTies | hrm/annual_leave_award_new.php:145 | for a 365- or 366-day year, 30·r/t is never exactly halfway, so PHP's `round` and the model agree |
| AnnualAward.NewEngineAward | hrm/annual_leave_award_new.php:134-148 | hire not after July 1 gives 30 'full'. A later hire gives max(1, round(30·r/t)) 'prorated', with t = days July 1..June 30 and r = days hire..June 30, both inclusive |
| AnnualAward.OldEngineAward | hrm/annual_leave_award.php:92-102 | the same proration with no floor; 30 when hired by July 1 |
| AnnualAward.ProratedAwardBounds | hrm/annual_leave_award_new.php:142-148 | for a hire inside the year, t is the year's length, the new award lies in 1..30 and the old one in 0..30 |
| AnnualAward.WorkedExample | hrm/annual_leave_award_new.php:142-147 | hire 2024-09-01 in 2024-2025 gives r = 303, t = 365 and 25 days 'prorated' |
| AnnualAward.LastDayHire | hrm/annual_leave_award.php:97-102 | a hire on 2025-06-30 gets 0 days from the old engine and 1 from the new one |
| AnnualAward.YearRunTally | hrm/annual_leave_award_new.php:132-196 | awarded_count = number of details = number of new log entries; the old log is a prefix of the new one; awarded + errors = total_processed |
| AnnualAward.YearRunRows | hrm/annual_leave_award_new.php:151-169 | rows of other years or types are untouched. Every other row is unchanged or a fresh one with used 0 and balance = entitled ≥ 1. Every employee whose insert succeeded has a row |
| AnnualAward.YearRunValues | hrm/annual_leave_award_new.php:132-186 | for the employee at position i: a refused insert leaves its failure line in the errors. Otherwise its row holds the new engine's award with used 0 and balance = entitled, and its log entry and detail line carry that award, its kind, r, t and the awarding user |
| AnnualAward.AwardedRunStartsYear | hrm/annual_leave_award_new.php:66-74 | a run that awarded anyone leaves the year started, so the duplicate-year check refuses it next time |
| AnnualAward.SweepTally | hrm/annual_leave_award.php:127-166 | awarded plus failed employees never exceed the employees processed |
| AnnualAward.SweepRows | hrm/annual_leave_award.php:104-125 | no row is removed and `used` never changes. Only the year's Annual Leave rows change. New rows start at used 0. Every row keeps balance = entitled − used |
| AnnualAward.SweepLeavesOthers | hrm/annual_leave_award.php:104-125 | the writes for other employees never add, remove or change the row of an employee outside the run, and errors are only added |
| AnnualAward.SweepValues | hrm/annual_leave_award.php:73-135 | for the employee at position i: unforced, an existing row is kept as it was. A refused write adds its failure line and leaves the row alone. Otherwise an existing row gets entitled = the old engine's award and balance = award − used, and a missing one is inserted as (award, 0, award) |
| AnnualAward.SweepSkipsExisting | hrm/annual_leave_award.php:86-89 | without force, employees who already have a row are skipped: nothing changes and nobody is counted |
| AnnualAward.SweepCoversEmployees | hrm/annual_leave_award.php:73-135 | when no write fails, every employee processed has a row afterwards |
| AnnualAward.RepeatedSweepAwardsNothing | hrm/annual_leave_award.php:86-89 | after a run with no failures, a repeated run without force awards 0 and changes no row |
| AnnualAward.AnnualLeaveBook.AwardEmployee | hrm/annual_leave_award_new.php:133-186 | one pass of the new loop: insert the row, the log entry and the detail line, or record the failure, as the step function says; the run log is untouched |
| AnnualAward.AnnualLeaveBook.AwardAnnualLeaveForYear | hrm/annual_leave_award_new.php:98-208 | without the Annual Leave type: failure and no change. Otherwise the loop leaves the ledger, the award log and the report exactly as the fold specifies; the run log is untouched. Every row keeps balance = entitled − used if it had it |
| AnnualAward.AnnualLeaveBook.StartNewFinancialYear | hrm/annual_leave_award_new.php:50-93 | refuses a malformed key, an already started year and a missing leave type, changing nothing. A well-formed key for a year not yet started, with the leave type present, is always started. The ledger and the log are then the fold's result, the message carries the count, and an award to anyone leaves the year started. Rows stay consistent |
| AnnualAward.AnnualLeaveBook.SweepEmployee | hrm/annual_leave_award.php:73-135 | one pass of the old loop: skip, update keeping used, insert, or record the failure, as the step function says |
| AnnualAward.AnnualLeaveBook.AwardAnnualLeave | hrm/annual_leave_award.php:44-177 | without the leave type: failure and no change. Otherwise the ledger is the fold's result, and one run-log row records the key, the employees processed and the count. Rows stay consistent |
| AnnualAward.AnnualLeaveBook.CheckAndAwardAnnualLeave | hrm/annual_leave_award.php:182-222 | without force and outside 1–7 July (the window of annual_leave_award.php:33-39), fails with the source's message and changes nothing. Inside the window or forced, a missing Annual Leave type fails with its message and changes nothing. Otherwise it awards as the fold says, with awarded ≤ processed. Rows stay consistent |
| LeaveLedger.GetLeaveTypeBalance | hrm/leave_management.php:98-110 | the stored row, or 0/0/0 when the employee has none for that type |
| LeaveLedger.ApplyBalanceAction | hrm/leave_management.php:112-127 | 'use' adds the days to used. Any other action subtracts them, never below 0. allocated is kept, and remaining = allocated − used afterwards |
| LeaveLedger.UseLowersRemaining | hrm/leave_management.php:115-117 | on a consistent row, 'use' lowers remaining by exactly the days |
| LeaveLedger.RestoreUndoesUse | hrm/leave_management.php:115-120 | restoring the days just used gives back the original consistent row |
| LeaveLedger.UsesAccumulate | hrm/leave_management.php:115-117 | two debits equal one debit of the sum |
| LeaveLedger.OverRestoreClampsAtZero | hrm/leave_management.php:118-120 | restoring at least what was used leaves used 0 and remaining = allocated |
| LeaveLedger.NewApplication | hrm/leave_management.php:198-209 | an application is stored pending with the computed days and no decision at either level |
| LeaveLedger.HrDecision | hrm/leave_management.php:231-234 | sets status and approver (and comments when given), and nothing else |
| LeaveLedger.DeptHeadDecision | hrm/leave_management.php:1203-1205 | sets dept_head_approved and dept_head_approver_id only, and leaves the status alone |
| LeaveLedger.LeaveBook.UpdateLeaveBalance | hrm/leave_management.php:112-127 | when the UPDATE executes, rewrites only the employee's row for the type with the action applied. With no row, or an UPDATE that returns false, nothing changes. Returns the `execute()` result |
| LeaveLedger.LeaveBook.ApplyLeave | hrm/leave_management.php:180-214 | days above remaining (0 without a row) give the "Insufficient" error and no application. Otherwise exactly one pending application with the leave page's business-day count is stored under a fresh id. Balances never change |
| LeaveLedger.LeaveBook.ApproveLeavePost | hrm/leave_management.php:216-248 | other roles change nothing. For hr_manager and above, an exception from either write rolls both back and gives "Error approving leave: " + its message. Otherwise the result is always success: the status write sets approved, approver and comments if it executes, and the balance write debits days_requested from the row if it executes. An unknown id changes nothing |
| LeaveLedger.LeaveBook.RejectLeavePost | hrm/leave_management.php:250-270 | for hr_manager and above, sets rejected with approver and comments; balances never change |
| LeaveLedger.LeaveBook.DecideLeaveGet | hrm/leave_management.php:300-342 | the GET links set status and approver only: no debit and no comments |
| LeaveLedger.LeaveBook.DeptHeadDecide | hrm/leave_management.php:1182-1266 | a user who is not the head named on the application gets "not authorized" and no change. For the named head, an exception gives "Database error: " + its message and no change. Otherwise the message is success, and the decision and approver are recorded if the UPDATE executes. Status and balances never change |
| Roles.HasPermission | hrm/employees.php:23-39 | granted iff the user's level ≥ the required level, unknown roles at 0 |
| Roles.UnknownRequiredRoleGrantedToAll | hrm/employees.php:23-39 | a required role missing from a non-negative table is granted to everyone |
| Roles.PermissionIsTotalPreorder | hrm/leave_management.php:31-46 | the check is reflexive, transitive and total for any level table |
| Roles.EmployeesPageQuirks | hrm/employees.php:23-39 | on the employees page section_head outranks super_admin, and 'officer' (line 407) is granted to every role |
| Roles.LeavePageHrManagerCheck | hrm/leave_management.php:31-46 | on the leave page only super_admin and hr_manager pass the 'hr_manager' check |
| Roles.RoleForEmployeeType | hrm/employees.php:139-158 | managing_director and bod_chairman → super_admin, dept_head → dept_head, manager → hr_manager, section_head → section_head, anything else → employee. The edit path, employees.php:244-263, uses the same function |
| Roles.AddEmployeeDefaults | hrm/employees.php:106-110 | a designation of "" or "0" becomes "Employee" and an employment type of "" or "0" becomes "permanent" (PHP's `?:`); any other value is kept |
| Roles.ActiveFiltersAreTheSetOnes | hrm/employees.php:302-335 | a filter contributes a condition iff it is non-empty; no condition iff all are empty |
| Roles.TypesMatchParams | hrm/employees.php:302-335 | the bind-type string is exactly as long as the parameter list |
| Roles.AppendFilter | hrm/employees.php:302-335 | appending a filter appends its condition, its parameters (four for search) and its type characters |
| Roles.AppendIfSet | hrm/employees.php:306-335 | one `if (!empty(...))` block extends conditions, parameters and types exactly when its filter is set |
| Roles.BuildEmployeeFilter | hrm/employees.php:302-337 | conditions in the fixed order search, department, section, type, status. Types as long as params. The WHERE clause joins them with " AND " and is empty iff no filter is set |

## Left out

- Sessions, login, HTML, JavaScript and the browser-side day counter: user-interface code with floating-point arithmetic.
- Read-only listings and statistics, cron logging, mail, the Node proxy and the SQL runner: I/O with no leave arithmetic.
- `sanitizeInput`, `(int)` casts and `DateTime` parsing: inputs arrive as sanitized strings, integers and parsed dates.
- The current date (`date()`) is a parameter. The `NOW()` and `CURRENT_TIMESTAMP` columns (applied_at, approved_date, updated_at, run_date) are not modelled.
- Database reads succeed: the employee, leave-type, holiday and existence queries, and the user-to-employee lookup. The lookup's result is the `actorEmployeeId` parameter.
- Database writes fail only where a parameter says so. The failure's text is the one the parameter carries.
- The new engine's log insert is assumed to succeed. If it threw after the balance insert, the source would record an error without counting the award.
- The award log's `calculation_details` text is represented by its numbers (kind, r, t). The constant `award_method`/`notes` columns and the `echo` progress lines are omitted.
- The multi-step approval handler included at hrm/leave_management.php:1176 (leave_management_handler.php) is not part of this model. Only the transitions visible in leave_management.php are modelled.
- PHP's loose comparison in the department-head check is not modelled: a null `dept_head_emp_id` equals an employee id of 0 there. It is an `Option` equality here, and employee ids are positive.
- PCRE's `$` also matches before a final newline, so `"2024-2025\n"` passes the source's check. The model matches the whole string.
- Integer widths (MySQL INT columns, PHP 64-bit ints) are not modelled; every quantity here is a small day count.
- Recurring holidays: the source compares exact dates only, and so does the model.
- AnnualAward.AnnualLeaveBook.AwardAnnualLeaveForYear: requires a key matching the year pattern. Its only caller, `startNewFinancialYear`, checks the pattern first.
- FinancialYear.CurrentFinancialYearRoundTrip: stated for years 1001–9998, where both years render with four digits.
- AnnualAward.AnnualLeaveBook.AwardAnnualLeave: takes the second year as the first plus one instead of re-reading it from the key. The two agree for years 1001–9998 by `CurrentFinancialYearRoundTrip`.
- LeaveLedger.GetLeaveTypeBalance and LeaveLedger.LeaveBook.UpdateLeaveBalance: the leave page's balances are keyed by (employee, leave type) and hold one row per pair. The award engines write one row per financial year. With several years present, the source's SELECT (leave_management.php:99) returns whichever row comes first, and its UPDATE (line 123) rewrites every year's row for that pair. The model does not capture this. The two column sets (allocated/used/remaining and annual_leave_*) are also kept as separate tables, which the source does not do.
- AnnualAward.YearRunValues and AnnualAward.SweepValues: state the row written for an employee only when the employee ids are distinct, as they are in the employees table.
- Years before 1 CE are not modelled. The day numbering is still defined there, but `date('Y')` never produces them.
