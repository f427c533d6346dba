/**
 * The leave page's ledger (hrm/leave_management.php): balance rows
 * (allocated / used / remaining per employee and leave type), leave
 * applications, and the handlers that create and decide them.  Database
 * failures are parameters of the handlers; dates arrive already parsed.
 */
module LeaveLedger {
  import opened Common
  import opened Calendar
  import opened DayCounting
  import opened Roles
  import opened FinancialYear

  /** A leave_balances row as the leave page reads and writes it. */
  datatype Balance = Balance(allocatedDays: int, used: int, remaining: int)

  datatype BalanceKey = BalanceKey(employeeId: int, leaveTypeId: int)

  predicate Consistent(b: Balance) {
    b.remaining == b.allocatedDays - b.used
  }

  /** `getLeaveTypeBalance`: the stored row, or all zeros when there is none. */
  function GetLeaveTypeBalance(balances: map<BalanceKey, Balance>, key: BalanceKey): (b: Balance)
    ensures key in balances ==> b == balances[key]
    ensures key !in balances ==> b.remaining == 0 && b.used == 0 && b.allocatedDays == 0
  {
    if key in balances then balances[key] else Balance(0, 0, 0)
  }

  /**
   * The row `updateLeaveBalance` writes: "use" adds the days to `used`, any
   * other action takes them off (never below zero); `remaining` is always
   * recomputed from the allocation.
   */
  function ApplyBalanceAction(b: Balance, days: int, action: string): (r: Balance)
    ensures r.allocatedDays == b.allocatedDays && Consistent(r)
    ensures action == "use" ==> r.used == b.used + days
    ensures action != "use" ==> r.used == Max(0, b.used - days) && r.used >= 0
  {
    var newUsed := if action == "use" then b.used + days else Max(0, b.used - days);
    Balance(b.allocatedDays, newUsed, b.allocatedDays - newUsed)
  }

  /** On a consistent row, using `days` lowers `remaining` by exactly `days`. */
  lemma UseLowersRemaining(b: Balance, days: int)
    requires Consistent(b)
    ensures ApplyBalanceAction(b, days, "use").remaining == b.remaining - days
  {
  }

  /** Giving back what was used restores a consistent row with non-negative usage. */
  lemma RestoreUndoesUse(b: Balance, days: nat, action: string)
    requires Consistent(b) && b.used >= 0 && action != "use"
    ensures ApplyBalanceAction(ApplyBalanceAction(b, days, "use"), days, action) == b
  {
  }

  /** Two debits are one debit of the sum: approving an application twice charges it twice. */
  lemma UsesAccumulate(b: Balance, d1: int, d2: int)
    ensures ApplyBalanceAction(ApplyBalanceAction(b, d1, "use"), d2, "use")
         == ApplyBalanceAction(b, d1 + d2, "use")
  {
  }

  /** Giving back more than was used leaves nothing used and the full allocation remaining. */
  lemma OverRestoreClampsAtZero(b: Balance, days: int, action: string)
    requires action != "use" && days >= b.used
    ensures ApplyBalanceAction(b, days, action) == Balance(b.allocatedDays, 0, b.allocatedDays)
  {
  }

  // Applications.

  datatype Status = Pending | Approved | Rejected

  datatype Application = Application(
    employeeId: int, leaveTypeId: int, start: Date, end: Date, daysRequested: nat,
    reason: string, emergencyContact: string, emergencyPhone: string,
    status: Status, approverId: Option<int>, approverComments: Option<string>,
    deptHeadEmpId: Option<int>, deptHeadApproved: Option<bool>, deptHeadApproverId: Option<int>)

  /** The signed-in user: `$user['id']` and `$user['role']`. */
  datatype Actor = Actor(userId: int, role: string)

  /** How a database statement ends: it runs, `execute()` returns false, or it throws. */
  datatype DbOutcome = DbOk | DbFalse | DbThrows(message: string)

  datatype NoticeKind = Success | Warning | Danger

  /** What the page shows afterwards; `Silent` when the handler does nothing. */
  datatype Outcome = Silent | Notice(kind: NoticeKind, message: string)

  function InsufficientMessage(remaining: int): string {
    "Insufficient leave balance. You have " + IntToString(remaining) + " days remaining."
  }

  /** The days an application is charged: the leave page's counting, weekends excluded. */
  function ChargedDays(start: Date, end: Date, holidays: seq<Date>): nat {
    CountChargeable(Ordinal(start), Ordinal(end), Policy(holidays, false, AlwaysSkipHolidays))
  }

  /** An application as `apply_leave` inserts it: pending, undecided at both levels. */
  function NewApplication(employeeId: int, leaveTypeId: int, start: Date, end: Date, days: nat,
                          reason: string, contact: string, phone: string): (a: Application)
    ensures a.status == Pending && a.daysRequested == days
    ensures a.approverId.None? && a.approverComments.None?
    ensures a.deptHeadEmpId.None? && a.deptHeadApproved.None? && a.deptHeadApproverId.None?
  {
    Application(employeeId, leaveTypeId, start, end, days, reason, contact, phone,
                Pending, None, None, None, None, None)
  }

  function HrDecision(a: Application, status: Status, approver: int, comments: Option<string>): (r: Application)
    ensures r.status == status && r.approverId == Some(approver)
    ensures r.approverComments == (if comments.Some? then comments else a.approverComments)
    ensures r.(status := a.status, approverId := a.approverId, approverComments := a.approverComments) == a
  {
    a.(status := status, approverId := Some(approver),
       approverComments := if comments.Some? then comments else a.approverComments)
  }

  function DeptHeadDecision(a: Application, approved: bool, approverEmpId: int): (r: Application)
    ensures r.deptHeadApproved == Some(approved) && r.deptHeadApproverId == Some(approverEmpId)
    ensures r.status == a.status && r.approverId == a.approverId
    ensures r.(deptHeadApproved := a.deptHeadApproved, deptHeadApproverId := a.deptHeadApproverId) == a
  {
    a.(deptHeadApproved := Some(approved), deptHeadApproverId := Some(approverEmpId))
  }

  /**
   * The dept-head check: the user has an employee record, the application
   * exists, and the user is the department head named on it.
   */
  predicate IsNamedDeptHead(applications: map<int, Application>, id: int, actorEmployeeId: Option<int>) {
    actorEmployeeId.Some? && id in applications
    && applications[id].deptHeadEmpId == Some(actorEmployeeId.value)
  }

  class LeaveBook {
    var balances: map<BalanceKey, Balance>
    var applications: map<int, Application>
    /** The next auto-increment id of leave_applications. */
    var nextApplicationId: int

    predicate Valid()
      reads this
    {
      forall id :: id in applications ==> id < nextApplicationId
    }

    /** The tables as they stand: the auto-increment counter lies above every id. */
    constructor (rows: map<BalanceKey, Balance>, apps: map<int, Application>, nextId: int)
      requires forall id :: id in apps ==> id < nextId
      ensures Valid()
      ensures balances == rows && applications == apps && nextApplicationId == nextId
    {
      balances := rows;
      applications := apps;
      nextApplicationId := nextId;
    }

    /**
     * `updateLeaveBalance`: rewrite the employee's row for the leave type;
     * when there is no row the UPDATE matches nothing.  `accepted` is what
     * the UPDATE's `execute()` returns, and is returned; when it is false the
     * row stays as it was.
     */
    method UpdateLeaveBalance(employeeId: int, leaveTypeId: int, days: int, action: string, accepted: bool)
      returns (executed: bool)
      modifies this
      ensures executed == accepted
      ensures var key := BalanceKey(employeeId, leaveTypeId);
              balances == if accepted && key in old(balances)
                          then old(balances)[key := ApplyBalanceAction(old(balances)[key], days, action)]
                          else old(balances)
      ensures applications == old(applications) && nextApplicationId == old(nextApplicationId)
    {
      var key := BalanceKey(employeeId, leaveTypeId);
      var row := ApplyBalanceAction(GetLeaveTypeBalance(balances, key), days, action);
      if accepted && key in balances {
        balances := balances[key := row];
      }
      executed := accepted;
    }

    /**
     * `apply_leave`: charge the business days of the range (holidays skipped
     * even on weekdays), refuse when they exceed the remaining balance (zero
     * without a row), otherwise insert a pending application.  Balances are
     * not touched: the debit happens on approval.
     */
    method ApplyLeave(actorEmployeeId: Option<int>, leaveTypeId: int, start: Date, end: Date,
                      holidays: seq<Date>, reason: string, contact: string, phone: string, db: DbOutcome)
      returns (outcome: Outcome)
      requires Valid()
      modifies this
      ensures Valid() && balances == old(balances)
      ensures var employeeId := if actorEmployeeId.Some? then actorEmployeeId.value else 0;
              var days := ChargedDays(start, end, holidays);
              var remaining := GetLeaveTypeBalance(old(balances), BalanceKey(employeeId, leaveTypeId)).remaining;
              if days > remaining then
                outcome == Notice(Danger, InsufficientMessage(remaining))
                && applications == old(applications) && nextApplicationId == old(nextApplicationId)
              else if db == DbOk then
                outcome == Notice(Success, "Leave application submitted successfully!")
                && old(nextApplicationId) !in old(applications)
                && applications == old(applications)[old(nextApplicationId) :=
                     NewApplication(employeeId, leaveTypeId, start, end, days, reason, contact, phone)]
                && nextApplicationId == old(nextApplicationId) + 1
              else
                outcome == Notice(Danger, if db == DbFalse then "Error submitting application."
                                          else "Database error: " + db.message)
                && applications == old(applications) && nextApplicationId == old(nextApplicationId)
    {
      var employeeId := if actorEmployeeId.Some? then actorEmployeeId.value else 0;
      var days := CalculateBusinessDays(start, end, holidays, false, AlwaysSkipHolidays);
      var balance := GetLeaveTypeBalance(balances, BalanceKey(employeeId, leaveTypeId));
      if days > balance.remaining {
        return Notice(Danger, InsufficientMessage(balance.remaining));
      }
      match db
      case DbOk =>
        applications := applications[nextApplicationId :=
          NewApplication(employeeId, leaveTypeId, start, end, days, reason, contact, phone)];
        nextApplicationId := nextApplicationId + 1;
        outcome := Notice(Success, "Leave application submitted successfully!");
      case DbFalse =>
        outcome := Notice(Danger, "Error submitting application.");
      case DbThrows(message) =>
        outcome := Notice(Danger, "Database error: " + message);
    }

    /**
     * `approve_leave` (POST), for hr_manager and above: in one transaction,
     * mark the application approved with the approver and comments, then
     * debit its days from the employee's balance.  `statusWrite` and
     * `balanceWrite` are how the two UPDATEs go.  Neither `execute()` result
     * is checked: a write that returns false changes nothing and the
     * transaction still commits with the success message.  A write that
     * throws rolls both back.  The current status is not checked, so a
     * second approval debits again.
     */
    method ApproveLeavePost(actor: Actor, applicationId: int, comments: string,
                            statusWrite: DbOutcome, balanceWrite: DbOutcome)
      returns (outcome: Outcome)
      requires Valid()
      modifies this
      ensures Valid() && nextApplicationId == old(nextApplicationId)
      ensures !HasPermission(LeavePageLevels, actor.role, "hr_manager") ==>
                outcome == Silent && balances == old(balances) && applications == old(applications)
      ensures HasPermission(LeavePageLevels, actor.role, "hr_manager") && statusWrite.DbThrows? ==>
                outcome == Notice(Danger, "Error approving leave: " + statusWrite.message)
                && balances == old(balances) && applications == old(applications)
      ensures HasPermission(LeavePageLevels, actor.role, "hr_manager") && !statusWrite.DbThrows? && balanceWrite.DbThrows? ==>
                outcome == Notice(Danger, "Error approving leave: " + balanceWrite.message)
                && balances == old(balances) && applications == old(applications)
      ensures HasPermission(LeavePageLevels, actor.role, "hr_manager") && !statusWrite.DbThrows? && !balanceWrite.DbThrows? ==>
                && outcome == Notice(Success, "Leave application approved successfully!")
                && (applicationId !in old(applications) ==>
                      balances == old(balances) && applications == old(applications))
                && (applicationId in old(applications) ==>
                      var a := old(applications)[applicationId];
                      var key := BalanceKey(a.employeeId, a.leaveTypeId);
                      && applications == (if statusWrite == DbOk
                                          then old(applications)[applicationId := HrDecision(a, Approved, actor.userId, Some(comments))]
                                          else old(applications))
                      && balances == (if balanceWrite == DbOk && key in old(balances)
                                      then old(balances)[key := ApplyBalanceAction(old(balances)[key], a.daysRequested, "use")]
                                      else old(balances)))
    {
      if !HasPermission(LeavePageLevels, actor.role, "hr_manager") {
        return Silent;
      }
      if statusWrite.DbThrows? {
        return Notice(Danger, "Error approving leave: " + statusWrite.message);
      }
      if balanceWrite.DbThrows? {
        // The status UPDATE has run, but the rollback undoes it.
        return Notice(Danger, "Error approving leave: " + balanceWrite.message);
      }
      if applicationId in applications {
        var a := applications[applicationId];
        if statusWrite == DbOk {
          applications := applications[applicationId := HrDecision(a, Approved, actor.userId, Some(comments))];
        }
        var _ := UpdateLeaveBalance(a.employeeId, a.leaveTypeId, a.daysRequested, "use", balanceWrite == DbOk);
      }
      outcome := Notice(Success, "Leave application approved successfully!");
    }

    /** `reject_leave` (POST), for hr_manager and above: mark rejected; balances stay. */
    method RejectLeavePost(actor: Actor, applicationId: int, comments: string, db: DbOutcome)
      returns (outcome: Outcome)
      requires Valid()
      modifies this
      ensures Valid() && balances == old(balances) && nextApplicationId == old(nextApplicationId)
      ensures !HasPermission(LeavePageLevels, actor.role, "hr_manager") ==>
                outcome == Silent && applications == old(applications)
      ensures HasPermission(LeavePageLevels, actor.role, "hr_manager") ==>
                match db
                case DbOk =>
                  && outcome == Notice(Success, "Leave application rejected.")
                  && applications == if applicationId in old(applications)
                                     then old(applications)[applicationId :=
                                            HrDecision(old(applications)[applicationId], Rejected, actor.userId, Some(comments))]
                                     else old(applications)
                case DbFalse =>
                  outcome == Notice(Danger, "Error rejecting application.") && applications == old(applications)
                case DbThrows(message) =>
                  outcome == Notice(Danger, "Database error: " + message) && applications == old(applications)
    {
      if !HasPermission(LeavePageLevels, actor.role, "hr_manager") {
        return Silent;
      }
      match db
      case DbOk =>
        if applicationId in applications {
          applications := applications[applicationId :=
            HrDecision(applications[applicationId], Rejected, actor.userId, Some(comments))];
        }
        outcome := Notice(Success, "Leave application rejected.");
      case DbFalse =>
        outcome := Notice(Danger, "Error rejecting application.");
      case DbThrows(message) =>
        outcome := Notice(Danger, "Database error: " + message);
    }

    /**
     * The GET links `?action=approve_leave&id=…` / `reject_leave`, for
     * hr_manager and above: set the status and the approver only; comments
     * and balances are left as they are.
     */
    method DecideLeaveGet(actor: Actor, id: Option<int>, approve: bool, db: DbOutcome)
      returns (outcome: Outcome)
      requires Valid()
      modifies this
      ensures Valid() && balances == old(balances) && nextApplicationId == old(nextApplicationId)
      ensures id.None? || !HasPermission(LeavePageLevels, actor.role, "hr_manager") ==>
                outcome == Silent && applications == old(applications)
      ensures id.Some? && HasPermission(LeavePageLevels, actor.role, "hr_manager") ==>
                match db
                case DbOk =>
                  && outcome == (if approve then Notice(Success, "Leave application approved successfully!")
                                 else Notice(Warning, "Leave application rejected!"))
                  && applications == if id.value in old(applications)
                                     then old(applications)[id.value :=
                                            HrDecision(old(applications)[id.value], if approve then Approved else Rejected,
                                                       actor.userId, None)]
                                     else old(applications)
                case DbFalse =>
                  && outcome == Notice(Danger, if approve then "Error approving leave application."
                                               else "Error rejecting leave application.")
                  && applications == old(applications)
                case DbThrows(message) =>
                  outcome == Notice(Danger, "Database error: " + message) && applications == old(applications)
    {
      if id.None? || !HasPermission(LeavePageLevels, actor.role, "hr_manager") {
        return Silent;
      }
      var leaveId := id.value;
      match db
      case DbOk =>
        if leaveId in applications {
          applications := applications[leaveId :=
            HrDecision(applications[leaveId], if approve then Approved else Rejected, actor.userId, None)];
        }
        outcome := if approve then Notice(Success, "Leave application approved successfully!")
                   else Notice(Warning, "Leave application rejected!");
      case DbFalse =>
        outcome := Notice(Danger, if approve then "Error approving leave application."
                                  else "Error rejecting leave application.");
      case DbThrows(message) =>
        outcome := Notice(Danger, "Database error: " + message);
    }

    /**
     * `dept_head_approve` / `dept_head_reject`, for dept_head and above: only
     * the department head named on the application may record the
     * department-level decision; anyone else gets "not authorized" and the
     * transaction is rolled back.  `db` is how the UPDATE goes: its
     * `execute()` result is not checked, so one that returns false commits
     * nothing and still reports success; one that throws rolls back with
     * "Database error".  The overall status is never changed.
     */
    method DeptHeadDecide(actor: Actor, id: Option<int>, actorEmployeeId: Option<int>, approve: bool,
                          db: DbOutcome)
      returns (outcome: Outcome)
      requires Valid()
      modifies this
      ensures Valid() && balances == old(balances) && nextApplicationId == old(nextApplicationId)
      ensures id.None? || !HasPermission(LeavePageLevels, actor.role, "dept_head") ==>
                outcome == Silent && applications == old(applications)
      ensures id.Some? && HasPermission(LeavePageLevels, actor.role, "dept_head") ==>
                if !IsNamedDeptHead(old(applications), id.value, actorEmployeeId) then
                  && outcome == Notice(Danger, if approve then "You are not authorized to approve this leave application."
                                               else "You are not authorized to reject this leave application.")
                  && applications == old(applications)
                else
                  match db
                  case DbThrows(message) =>
                    outcome == Notice(Danger, "Database error: " + message) && applications == old(applications)
                  case _ =>
                    && outcome == (if approve then Notice(Success, "Leave application approved successfully!")
                                   else Notice(Warning, "Leave application rejected!"))
                    && applications == if db == DbOk
                                       then old(applications)[id.value :=
                                              DeptHeadDecision(old(applications)[id.value], approve, actorEmployeeId.value)]
                                       else old(applications)
      ensures forall k :: k in old(applications) ==>
                k in applications && applications[k].status == old(applications)[k].status
    {
      if id.None? || !HasPermission(LeavePageLevels, actor.role, "dept_head") {
        return Silent;
      }
      var leaveId := id.value;
      if !IsNamedDeptHead(applications, leaveId, actorEmployeeId) {
        return Notice(Danger, if approve then "You are not authorized to approve this leave application."
                              else "You are not authorized to reject this leave application.");
      }
      match db
      case DbThrows(message) =>
        outcome := Notice(Danger, "Database error: " + message);
      case DbOk =>
        applications := applications[leaveId := DeptHeadDecision(applications[leaveId], approve, actorEmployeeId.value)];
        outcome := if approve then Notice(Success, "Leave application approved successfully!")
                   else Notice(Warning, "Leave application rejected!");
      case DbFalse =>
        outcome := if approve then Notice(Success, "Leave application approved successfully!")
                   else Notice(Warning, "Leave application rejected!");
    }
  }
}
