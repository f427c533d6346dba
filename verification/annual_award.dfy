/**
 * The annual-leave award engines.
 *
 * hrm/annual_leave_award_new.php starts a named financial year once: it
 * refuses a year that already has ledger rows, then inserts one row and one
 * log entry per permanent, active employee, prorating late hires with a
 * floor of one day.  hrm/annual_leave_award.php awards the current year:
 * it skips employees that already have a row unless forced, prorates
 * without a floor, updates or inserts, and records one run-log row.
 *
 * The per-employee computations are functions; each employee loop is a
 * method over a class holding the ledger and the logs, proved equal to a
 * fold (`YearRunOver`, `SweepOver`) about which the batch properties are
 * lemmas.
 */
module AnnualAward {
  import opened Common
  import opened Calendar
  import opened FinancialYear
  import opened DayCounting

  /** The statutory full-year award. */
  const FullAward := 30

  datatype Employee = Employee(id: int, employeeCode: string, firstName: string, lastName: string,
                               hireDate: Date, employmentType: string, status: string)

  function FullName(e: Employee): string {
    e.firstName + " " + e.lastName
  }

  predicate IsEligible(e: Employee) {
    e.employmentType == "permanent" && e.status == "active"
  }

  /** The employee query of both engines: permanent, active, in row order. */
  function EligibleEmployees(all: seq<Employee>): (r: seq<Employee>)
    ensures |r| <= |all|
    ensures forall i :: 0 <= i < |r| ==> IsEligible(r[i])
  {
    if all == [] then []
    else
      var rest := EligibleEmployees(all[..|all| - 1]);
      var last := all[|all| - 1];
      if IsEligible(last) then rest + [last] else rest
  }

  /**
   * The query filters row by row and keeps the row order: the rows of a
   * concatenation are the rows of each part, one after the other.
   */
  lemma {:induction false} EligibleKeepsOrder(a: seq<Employee>, b: seq<Employee>)
    ensures EligibleEmployees(a + b) == EligibleEmployees(a) + EligibleEmployees(b)
    decreases |b|
  {
    if b == [] {
      assert a + b == a;
    } else {
      var b', last := b[..|b| - 1], b[|b| - 1];
      var kept := if IsEligible(last) then [last] else [];
      assert b == b' + [last];
      assert a + b == (a + b') + [last];
      calc {
        EligibleEmployees(a + b);
        { EligibleAppendOne(a + b', last); }
        EligibleEmployees(a + b') + kept;
        { EligibleKeepsOrder(a, b'); }
        EligibleEmployees(a) + EligibleEmployees(b') + kept;
        EligibleEmployees(a) + (EligibleEmployees(b') + kept);
        { EligibleAppendOne(b', last); }
        EligibleEmployees(a) + EligibleEmployees(b);
      }
    }
  }

  /** Adding one row at the end adds it to the result exactly when it is eligible. */
  lemma EligibleAppendOne(s: seq<Employee>, x: Employee)
    ensures EligibleEmployees(s + [x]) == EligibleEmployees(s) + if IsEligible(x) then [x] else []
  {
  }

  /** The query keeps exactly the eligible employees. */
  lemma {:induction false} EligibleIsFilter(all: seq<Employee>)
    ensures forall e :: e in EligibleEmployees(all) <==> e in all && IsEligible(e)
    decreases |all|
  {
    if all != [] {
      var prefix := all[..|all| - 1];
      EligibleIsFilter(prefix);
      assert all == prefix + [all[|all| - 1]];
    }
  }

  /**
   * The integer nearest to num / den, halves rounded up: PHP's `round` on a
   * non-negative quotient.
   */
  function RoundHalfUp(num: nat, den: nat): (q: nat)
    requires den > 0
    ensures 2 * den * q <= 2 * num + den < 2 * den * (q + 1)
  {
    (2 * num + den) / (2 * den)
  }

  /**
   * With a period of 365 or 366 days, 30 * r / t is never exactly halfway
   * between two integers, so the rounding is strict on both sides and every
   * tie-breaking rule (PHP's half-away-from-zero included) gives the same day
   * count.
   */
  lemma ProrationHasNoTies(r: nat, t: nat)
    requires t == 365 || t == 366
    ensures 2 * t * RoundHalfUp(30 * r, t) < 60 * r + t
  {
    var q := RoundHalfUp(30 * r, t);
    if t == 365 {
      assert 730 * q != 60 * r + 365;
    } else {
      assert 732 * q != 60 * r + 366;
    }
  }

  datatype AwardKind = Full | Prorated

  /** One employee's award; `remainingDays`/`totalDays` are the fraction used (0/0 for a full award). */
  datatype Award = Award(days: int, kind: AwardKind, remainingDays: nat, totalDays: nat)

  function PeriodStart(first: int): Date {
    Date(first, 7, 1)
  }

  function PeriodEnd(second: int): Date {
    Date(second, 6, 30)
  }

  /**
   * The new engine's award: 30 days ('full') unless hired after July 1 of
   * the first year, else max(1, round(r / t * 30)) ('prorated') with t the
   * days July 1 .. June 30 and r the days hire .. June 30, both inclusive.
   */
  function NewEngineAward(hire: Date, first: int, second: int): (a: Award)
    ensures Ordinal(hire) <= Ordinal(PeriodStart(first)) ==> a == Award(FullAward, Full, 0, 0)
    ensures Ordinal(hire) > Ordinal(PeriodStart(first)) ==>
              && a.kind == Prorated && a.days >= 1
              && a.totalDays == CalendarDays(PeriodStart(first), PeriodEnd(second))
              && a.remainingDays == CalendarDays(hire, PeriodEnd(second))
              && a.days == Max(1, RoundHalfUp(30 * a.remainingDays, a.totalDays))
  {
    if Ordinal(hire) > Ordinal(PeriodStart(first)) then
      var t := CalendarDays(PeriodStart(first), PeriodEnd(second));
      var r := CalendarDays(hire, PeriodEnd(second));
      Award(Max(1, RoundHalfUp(30 * r, t)), Prorated, r, t)
    else
      Award(FullAward, Full, 0, 0)
  }

  /** The old engine's award: the same proration without the floor of one day. */
  function OldEngineAward(hire: Date, first: int, second: int): (days: nat)
    ensures Ordinal(hire) <= Ordinal(PeriodStart(first)) ==> days == FullAward
    ensures Ordinal(hire) > Ordinal(PeriodStart(first)) ==>
              days == RoundHalfUp(30 * CalendarDays(hire, PeriodEnd(second)),
                                  CalendarDays(PeriodStart(first), PeriodEnd(second)))
  {
    if Ordinal(hire) > Ordinal(PeriodStart(first)) then
      RoundHalfUp(30 * CalendarDays(hire, PeriodEnd(second)),
                  CalendarDays(PeriodStart(first), PeriodEnd(second)))
    else FullAward
  }

  lemma RoundedShareAtMost30(r: nat, t: nat)
    requires t == 365 || t == 366
    requires 1 <= r <= t
    ensures RoundHalfUp(30 * r, t) <= 30
  {
    if t == 365 {
      assert RoundHalfUp(30 * r, t) == (60 * r + 365) / 730;
    } else {
      assert RoundHalfUp(30 * r, t) == (60 * r + 366) / 732;
    }
  }

  /**
   * For a hire date inside the financial year (after July 1, not after
   * June 30), the period has 365 or 366 days, the new award lies in 1..30
   * and the old award in 0..30.
   */
  lemma ProratedAwardBounds(hire: Date, first: int)
    requires Ordinal(PeriodStart(first)) < Ordinal(hire) <= Ordinal(PeriodEnd(first + 1))
    ensures NewEngineAward(hire, first, first + 1).totalDays == DaysInYear(first + 1)
    ensures 1 <= NewEngineAward(hire, first, first + 1).days <= FullAward
    ensures OldEngineAward(hire, first, first + 1) <= FullAward
  {
    FinancialYearLength(first);
    var a := NewEngineAward(hire, first, first + 1);
    RoundedShareAtMost30(a.remainingDays, a.totalDays);
  }

  /** Hire 2024-09-01 in "2024-2025": 303 of 365 days, 25 days prorated. */
  lemma WorkedExample()
    ensures NewEngineAward(Date(2024, 9, 1), 2024, 2025) == Award(25, Prorated, 303, 365)
  {
    assert Ordinal(Date(2024, 7, 1)) == 739067;
    assert Ordinal(Date(2024, 9, 1)) == 739129;
    assert Ordinal(Date(2025, 6, 30)) == 739431;
  }

  /**
   * A hire on the last day of the year gets 1 day from the new engine but 0
   * from the old one, which has no floor.
   */
  lemma LastDayHire()
    ensures OldEngineAward(Date(2025, 6, 30), 2024, 2025) == 0
    ensures NewEngineAward(Date(2025, 6, 30), 2024, 2025).days == 1
  {
    assert Ordinal(Date(2024, 7, 1)) == 739067;
    assert Ordinal(Date(2025, 6, 30)) == 739431;
  }

  // Ledger rows and logs written by the engines.

  datatype RowKey = RowKey(employeeId: int, financialYear: string, leaveTypeId: int)

  /** annual_leave_entitled / annual_leave_used / annual_leave_balance. */
  datatype AnnualRow = AnnualRow(entitled: int, used: int, balance: int)

  predicate RowConsistent(row: AnnualRow) {
    row.balance == row.entitled - row.used
  }

  predicate YearStarted(rows: map<RowKey, AnnualRow>, fy: string) {
    exists k :: k in rows && k.financialYear == fy
  }

  datatype AwardLog = AwardLog(employeeId: int, financialYear: string, daysAwarded: int, kind: AwardKind,
                               remainingDays: nat, totalDays: nat, awardedBy: int)

  datatype AwardDetail = AwardDetail(employeeCode: string, name: string, daysAwarded: int,
                                     kind: AwardKind, hireDate: Date)

  /** How an employee's ledger write fails: `execute()` returns false, or it throws. */
  datatype WriteFailure = ExecuteFalse(error: string) | Thrown(message: string)

  /** The line added to `errors` for a failed employee. */
  function FailureMessage(e: Employee, f: WriteFailure): string {
    match f
    case ExecuteFalse(error) => "Failed to award leave to " + FullName(e) + ": " + error
    case Thrown(message) => "Error processing employee " + FullName(e) + ": " + message
  }

  // The new engine's loop as a fold.

  /**
   * What the loop of `awardAnnualLeaveForYear` works with; `refused` holds the
   * positions (in the employee rows) whose insert fails, and how.
   */
  datatype YearContext = YearContext(fy: string, first: int, second: int, leaveTypeId: int,
                                     awardedBy: int, refused: map<nat, WriteFailure>)

  datatype YearRun = YearRun(rows: map<RowKey, AnnualRow>, logs: seq<AwardLog>, awardedCount: nat,
                             errors: seq<string>, details: seq<AwardDetail>)

  /** One pass of the loop for the employee at position `index`. */
  function YearStep(acc: YearRun, e: Employee, index: nat, ctx: YearContext): YearRun {
    var a := NewEngineAward(e.hireDate, ctx.first, ctx.second);
    if index in ctx.refused then
      acc.(errors := acc.errors + [FailureMessage(e, ctx.refused[index])])
    else
      YearRun(acc.rows[RowKey(e.id, ctx.fy, ctx.leaveTypeId) := AnnualRow(a.days, 0, a.days)],
              acc.logs + [AwardLog(e.id, ctx.fy, a.days, a.kind, a.remainingDays, a.totalDays, ctx.awardedBy)],
              acc.awardedCount + 1,
              acc.errors,
              acc.details + [AwardDetail(e.employeeCode, FullName(e), a.days, a.kind, e.hireDate)])
  }

  /** The loop run over `emps` from state `init`. */
  function YearRunOver(init: YearRun, emps: seq<Employee>, ctx: YearContext): YearRun
    decreases |emps|
  {
    if emps == [] then init
    else YearStep(YearRunOver(init, emps[..|emps| - 1], ctx), emps[|emps| - 1], |emps| - 1, ctx)
  }

  function StartOfRun(rows: map<RowKey, AnnualRow>, logs: seq<AwardLog>): YearRun {
    YearRun(rows, logs, 0, [], [])
  }

  /**
   * Every employee either gets exactly one row, one log entry and one detail
   * line, or one error: awarded_count = |details| = new log entries, and
   * awarded_count + |errors| = total_processed.
   */
  lemma {:induction false} YearRunTally(rows: map<RowKey, AnnualRow>, logs: seq<AwardLog>,
                                        emps: seq<Employee>, ctx: YearContext)
    ensures var run := YearRunOver(StartOfRun(rows, logs), emps, ctx);
            && run.awardedCount == |run.details|
            && |run.logs| == |logs| + run.awardedCount
            && run.logs[..|logs|] == logs
            && run.awardedCount + |run.errors| == |emps|
            && run.awardedCount <= |emps|
  {
    if emps != [] {
      YearRunTally(rows, logs, emps[..|emps| - 1], ctx);
    }
  }

  /** Whether `row` at `k` is one the run could have inserted. */
  predicate InsertedByYearRun(k: RowKey, row: AnnualRow, ctx: YearContext) {
    k.financialYear == ctx.fy && k.leaveTypeId == ctx.leaveTypeId
    && row.used == 0 && row.entitled == row.balance && row.entitled >= 1
  }

  /**
   * Rows of other years or leave types are untouched; every other row is a
   * fresh one with used 0 and balance = entitled >= 1; every employee whose
   * insert went through has a row.
   */
  lemma {:induction false} YearRunRows(rows: map<RowKey, AnnualRow>, logs: seq<AwardLog>,
                                       emps: seq<Employee>, ctx: YearContext)
    ensures var run := YearRunOver(StartOfRun(rows, logs), emps, ctx);
            && (forall k :: k in rows && (k.financialYear != ctx.fy || k.leaveTypeId != ctx.leaveTypeId)
                  ==> k in run.rows && run.rows[k] == rows[k])
            && (forall k :: k in run.rows ==>
                  (k in rows && run.rows[k] == rows[k]) || InsertedByYearRun(k, run.rows[k], ctx))
            && (forall i :: 0 <= i < |emps| && i !in ctx.refused ==>
                  RowKey(emps[i].id, ctx.fy, ctx.leaveTypeId) in run.rows)
  {
    if emps != [] {
      var prefix := emps[..|emps| - 1];
      YearRunRows(rows, logs, prefix, ctx);
      forall i | 0 <= i < |prefix| ensures prefix[i] == emps[i] { }
    }
  }

  /** A run keeps balance = entitled - used on every row when every row had it before. */
  lemma YearRunKeepsRowsConsistent(rows: map<RowKey, AnnualRow>, logs: seq<AwardLog>,
                                   emps: seq<Employee>, ctx: YearContext)
    requires forall k :: k in rows ==> RowConsistent(rows[k])
    ensures var run := YearRunOver(StartOfRun(rows, logs), emps, ctx);
            forall k :: k in run.rows ==> RowConsistent(run.rows[k])
  {
    YearRunRows(rows, logs, emps, ctx);
  }

  /**
   * What the run records for the employee at position i: with its insert
   * refused, the failure line is in the errors; otherwise its row holds the
   * new engine's award with nothing used, and its log entry and detail line
   * carry the same award.  (Employee ids are distinct in the employee table;
   * only later positions need a different id for the row to be the one
   * written at position i.)
   */
  lemma {:induction false} YearRunValues(rows: map<RowKey, AnnualRow>, logs: seq<AwardLog>,
                                         emps: seq<Employee>, ctx: YearContext, i: nat)
    requires i < |emps|
    requires forall j :: i < j < |emps| ==> emps[j].id != emps[i].id
    ensures var run := YearRunOver(StartOfRun(rows, logs), emps, ctx);
            var e := emps[i];
            var a := NewEngineAward(e.hireDate, ctx.first, ctx.second);
            && (i in ctx.refused ==> FailureMessage(e, ctx.refused[i]) in run.errors)
            && (i !in ctx.refused ==>
                  && RowKey(e.id, ctx.fy, ctx.leaveTypeId) in run.rows
                  && run.rows[RowKey(e.id, ctx.fy, ctx.leaveTypeId)] == AnnualRow(a.days, 0, a.days)
                  && AwardLog(e.id, ctx.fy, a.days, a.kind, a.remainingDays, a.totalDays, ctx.awardedBy) in run.logs
                  && AwardDetail(e.employeeCode, FullName(e), a.days, a.kind, e.hireDate) in run.details)
    decreases |emps|
  {
    var prefix := emps[..|emps| - 1];
    if i < |emps| - 1 {
      YearRunValues(rows, logs, prefix, ctx, i);
      assert prefix[i] == emps[i];
    }
  }

  /** A run that awarded anyone leaves the year started, so a second start is refused. */
  lemma {:induction false} AwardedRunStartsYear(rows: map<RowKey, AnnualRow>, logs: seq<AwardLog>,
                                                emps: seq<Employee>, ctx: YearContext)
    ensures var run := YearRunOver(StartOfRun(rows, logs), emps, ctx);
            run.awardedCount > 0 ==> YearStarted(run.rows, ctx.fy)
  {
    if emps != [] {
      var prefix := emps[..|emps| - 1];
      AwardedRunStartsYear(rows, logs, prefix, ctx);
      var before := YearRunOver(StartOfRun(rows, logs), prefix, ctx);
      var e := emps[|emps| - 1];
      if |emps| - 1 !in ctx.refused {
        assert RowKey(e.id, ctx.fy, ctx.leaveTypeId) in YearRunOver(StartOfRun(rows, logs), emps, ctx).rows;
      } else if before.awardedCount > 0 {
        var k :| k in before.rows && k.financialYear == ctx.fy;
        assert k in YearRunOver(StartOfRun(rows, logs), emps, ctx).rows;
      }
    }
  }

  // The old engine's loop as a fold.

  /** What the loop of `awardAnnualLeave` works with. */
  datatype SweepContext = SweepContext(fy: string, first: int, leaveTypeId: int, force: bool, refused: map<nat, WriteFailure>)

  datatype SweepRun = SweepRun(rows: map<RowKey, AnnualRow>, awardedCount: nat, errors: seq<string>)

  /** One pass of the loop: skip, or update / insert, or record a failure. */
  function SweepStep(acc: SweepRun, e: Employee, index: nat, ctx: SweepContext): SweepRun {
    var key := RowKey(e.id, ctx.fy, ctx.leaveTypeId);
    if key in acc.rows && !ctx.force then acc
    else
      var days := OldEngineAward(e.hireDate, ctx.first, ctx.first + 1);
      if index in ctx.refused then acc.(errors := acc.errors + [FailureMessage(e, ctx.refused[index])])
      else
        var row := if key in acc.rows then AnnualRow(days, acc.rows[key].used, days - acc.rows[key].used)
                   else AnnualRow(days, 0, days);
        SweepRun(acc.rows[key := row], acc.awardedCount + 1, acc.errors)
  }

  function SweepOver(init: SweepRun, emps: seq<Employee>, ctx: SweepContext): SweepRun
    decreases |emps|
  {
    if emps == [] then init
    else SweepStep(SweepOver(init, emps[..|emps| - 1], ctx), emps[|emps| - 1], |emps| - 1, ctx)
  }

  /** Awarded and failed employees together never outnumber the employees processed. */
  lemma {:induction false} SweepTally(rows: map<RowKey, AnnualRow>, emps: seq<Employee>, ctx: SweepContext)
    ensures var run := SweepOver(SweepRun(rows, 0, []), emps, ctx);
            run.awardedCount + |run.errors| <= |emps|
  {
    if emps != [] {
      SweepTally(rows, emps[..|emps| - 1], ctx);
    }
  }

  /**
   * A run never removes a row, never changes `used`, touches only rows of
   * its own year and leave type, and keeps balance = entitled - used on
   * every row that had it; new rows start with used 0.
   */
  lemma {:induction false} SweepRows(rows: map<RowKey, AnnualRow>, emps: seq<Employee>, ctx: SweepContext)
    ensures var run := SweepOver(SweepRun(rows, 0, []), emps, ctx);
            && (forall k :: k in rows ==> k in run.rows && run.rows[k].used == rows[k].used)
            && (forall k :: k in rows && (k.financialYear != ctx.fy || k.leaveTypeId != ctx.leaveTypeId)
                  ==> run.rows[k] == rows[k])
            && (forall k :: k in run.rows && k !in rows ==>
                  run.rows[k].used == 0 && k.financialYear == ctx.fy && k.leaveTypeId == ctx.leaveTypeId)
            && (forall k :: k in run.rows && (k in rows ==> RowConsistent(rows[k])) ==> RowConsistent(run.rows[k]))
  {
    if emps != [] {
      SweepRows(rows, emps[..|emps| - 1], ctx);
    }
  }

  /** One pass for an employee who does not own `key` leaves that row as it was. */
  lemma SweepStepLeavesOthers(acc: SweepRun, e: Employee, index: nat, ctx: SweepContext, key: RowKey)
    requires RowKey(e.id, ctx.fy, ctx.leaveTypeId) != key
    ensures var next := SweepStep(acc, e, index, ctx);
            && (key in next.rows <==> key in acc.rows)
            && (key in acc.rows ==> next.rows[key] == acc.rows[key])
            && (forall m :: m in acc.errors ==> m in next.errors)
  {
  }

  /** A run over employees none of whom owns `key` leaves that row as it was. */
  lemma {:induction false} SweepLeavesOthers(acc: SweepRun, emps: seq<Employee>, ctx: SweepContext, key: RowKey)
    requires forall j :: 0 <= j < |emps| ==> RowKey(emps[j].id, ctx.fy, ctx.leaveTypeId) != key
    ensures var run := SweepOver(acc, emps, ctx);
            && (key in run.rows <==> key in acc.rows)
            && (key in acc.rows ==> run.rows[key] == acc.rows[key])
            && (forall m :: m in acc.errors ==> m in run.errors)
    decreases |emps|
  {
    if emps != [] {
      SweepLeavesOthers(acc, emps[..|emps| - 1], ctx, key);
      SweepStepLeavesOthers(SweepOver(acc, emps[..|emps| - 1], ctx), emps[|emps| - 1], |emps| - 1, ctx, key);
    }
  }

  /**
   * What the old engine leaves for the employee at position i (ids are
   * distinct in the employee table).  Unforced, an existing row stays as it
   * was.  Otherwise a refused write adds the failure line and leaves the
   * row alone; a write that goes through sets entitled to the award and the
   * balance to the award less `used`, inserting with used 0 when there was
   * no row.
   */
  lemma {:induction false} SweepValues(rows: map<RowKey, AnnualRow>, emps: seq<Employee>, ctx: SweepContext, i: nat)
    requires i < |emps|
    requires forall j :: 0 <= j < |emps| && j != i ==> emps[j].id != emps[i].id
    ensures var run := SweepOver(SweepRun(rows, 0, []), emps, ctx);
            var e := emps[i];
            var key := RowKey(e.id, ctx.fy, ctx.leaveTypeId);
            var d := OldEngineAward(e.hireDate, ctx.first, ctx.first + 1);
            && (key in rows && !ctx.force ==> key in run.rows && run.rows[key] == rows[key])
            && ((key !in rows || ctx.force) && i in ctx.refused ==>
                  && FailureMessage(e, ctx.refused[i]) in run.errors
                  && (key in run.rows <==> key in rows)
                  && (key in rows ==> run.rows[key] == rows[key]))
            && (key in rows && ctx.force && i !in ctx.refused ==>
                  key in run.rows && run.rows[key] == AnnualRow(d, rows[key].used, d - rows[key].used))
            && (key !in rows && i !in ctx.refused ==>
                  key in run.rows && run.rows[key] == AnnualRow(d, 0, d))
    decreases |emps|
  {
    var prefix := emps[..|emps| - 1];
    var key := RowKey(emps[i].id, ctx.fy, ctx.leaveTypeId);
    var before := SweepOver(SweepRun(rows, 0, []), prefix, ctx);
    if i < |emps| - 1 {
      SweepValues(rows, prefix, ctx, i);
      assert prefix[i] == emps[i];
      SweepStepLeavesOthers(before, emps[|emps| - 1], |emps| - 1, ctx, key);
    } else {
      SweepLeavesOthers(SweepRun(rows, 0, []), prefix, ctx, key);
    }
  }

  /** Without force, a run over employees who all have a row changes nothing and awards nobody. */
  lemma {:induction false} SweepSkipsExisting(acc: SweepRun, emps: seq<Employee>, ctx: SweepContext)
    requires !ctx.force
    requires forall i :: 0 <= i < |emps| ==> RowKey(emps[i].id, ctx.fy, ctx.leaveTypeId) in acc.rows
    ensures SweepOver(acc, emps, ctx) == acc
  {
    if emps != [] {
      SweepSkipsExisting(acc, emps[..|emps| - 1], ctx);
    }
  }

  /** When no insert fails, every employee processed has a row afterwards. */
  lemma {:induction false} SweepCoversEmployees(acc: SweepRun, emps: seq<Employee>, ctx: SweepContext)
    requires forall i :: 0 <= i < |emps| ==> i !in ctx.refused
    ensures forall i :: 0 <= i < |emps| ==>
              RowKey(emps[i].id, ctx.fy, ctx.leaveTypeId) in SweepOver(acc, emps, ctx).rows
  {
    if emps != [] {
      var prefix := emps[..|emps| - 1];
      SweepCoversEmployees(acc, prefix, ctx);
      forall i | 0 <= i < |prefix| ensures prefix[i] == emps[i] { }
    }
  }

  /** A repeated run without force, after a run with no failures, awards 0 and changes no row. */
  lemma RepeatedSweepAwardsNothing(rows: map<RowKey, AnnualRow>, emps: seq<Employee>,
                                   first: SweepContext, again: SweepContext)
    requires forall i :: 0 <= i < |emps| ==> i !in first.refused
    requires !again.force && again.fy == first.fy && again.leaveTypeId == first.leaveTypeId
    ensures var r1 := SweepOver(SweepRun(rows, 0, []), emps, first);
            SweepOver(SweepRun(r1.rows, 0, []), emps, again) == SweepRun(r1.rows, 0, [])
  {
    var r1 := SweepOver(SweepRun(rows, 0, []), emps, first);
    SweepCoversEmployees(SweepRun(rows, 0, []), emps, first);
    SweepSkipsExisting(SweepRun(r1.rows, 0, []), emps, again);
  }

  // The ledger and the logs, updated in place by the engines.

  /** One leave_award_log row of the old engine. */
  datatype RunLog = RunLog(financialYear: string, employeesProcessed: nat, employeesAwarded: nat)

  datatype AwardReport =
    | AwardDone(awardedCount: nat, totalProcessed: nat, financialYear: string,
                errors: seq<string>, details: seq<AwardDetail>)
    | AwardFailed(message: string)

  datatype StartOutcome =
    | Started(awardedCount: nat, financialYear: string, message: string, details: seq<AwardDetail>)
    | StartRefused(message: string)

  const InvalidFormatMessage := "Invalid financial year format. Use format: YYYY-YYYY (e.g., 2024-2025)"
  const NoAnnualLeaveTypeMessage := "Annual Leave type not found in leave_types table"
  const NotBeginningMessage := "Not the beginning of financial year. Annual leave is awarded in July."

  function StartedMessage(fy: string, awardedCount: nat): string {
    "Successfully started financial year " + fy + " and awarded annual leave to "
      + IntToString(awardedCount) + " permanent employees."
  }

  function AlreadyStartedMessage(fy: string): string {
    "Financial year " + fy + " has already been started. Leave balances already exist for this period."
  }

  class AnnualLeaveBook {
    /** leave_balances rows, keyed by (employee, financial year, leave type). */
    var balances: map<RowKey, AnnualRow>
    /** annual_leave_award_logs rows (new engine). */
    var awardLogs: seq<AwardLog>
    /** leave_award_log rows (old engine). */
    var runLogs: seq<RunLog>

    /** Every ledger row keeps balance = entitled - used. */
    predicate Valid()
      reads this
    {
      forall k :: k in balances ==> RowConsistent(balances[k])
    }

    constructor (rows: map<RowKey, AnnualRow>)
      ensures balances == rows && awardLogs == [] && runLogs == []
    {
      balances := rows;
      awardLogs := [];
      runLogs := [];
    }

    /**
     * One pass of the `awardAnnualLeaveForYear` loop: insert the employee's
     * row and log entry and add the detail line, or record the failure.
     */
    method AwardEmployee(e: Employee, index: nat, ctx: YearContext, awardedCount: nat,
                         errors: seq<string>, details: seq<AwardDetail>)
      returns (newCount: nat, newErrors: seq<string>, newDetails: seq<AwardDetail>)
      modifies this
      ensures YearRun(balances, awardLogs, newCount, newErrors, newDetails)
              == YearStep(YearRun(old(balances), old(awardLogs), awardedCount, errors, details), e, index, ctx)
      ensures runLogs == old(runLogs)
    {
      newCount, newErrors, newDetails := awardedCount, errors, details;
      var award := NewEngineAward(e.hireDate, ctx.first, ctx.second);
      if index in ctx.refused {
        newErrors := errors + [FailureMessage(e, ctx.refused[index])];
      } else {
        balances := balances[RowKey(e.id, ctx.fy, ctx.leaveTypeId) := AnnualRow(award.days, 0, award.days)];
        awardLogs := awardLogs + [AwardLog(e.id, ctx.fy, award.days, award.kind, award.remainingDays,
                                           award.totalDays, ctx.awardedBy)];
        newCount := awardedCount + 1;
        newDetails := details + [AwardDetail(e.employeeCode, FullName(e), award.days, award.kind, e.hireDate)];
      }
    }

    /**
     * `awardAnnualLeaveForYear`: one insert and one log entry per eligible
     * employee; a refused insert is recorded as an error and the loop goes on.
     * Its only caller has already checked the key against the pattern.
     */
    method AwardAnnualLeaveForYear(fy: string, awardedBy: int, employees: seq<Employee>,
                                   annualLeaveTypeId: Option<int>, refused: map<nat, WriteFailure>)
      returns (report: AwardReport)
      requires MatchesYearPattern(fy)
      modifies this
      ensures runLogs == old(runLogs)
      ensures old(Valid()) ==> Valid()
      ensures annualLeaveTypeId.None? ==>
                report == AwardFailed(NoAnnualLeaveTypeMessage)
                && balances == old(balances) && awardLogs == old(awardLogs)
      ensures annualLeaveTypeId.Some? ==>
                var years := ParseFinancialYear(fy).value;
                var ctx := YearContext(fy, years.0, years.1, annualLeaveTypeId.value, awardedBy, refused);
                var run := YearRunOver(StartOfRun(old(balances), old(awardLogs)), EligibleEmployees(employees), ctx);
                && balances == run.rows && awardLogs == run.logs
                && report == AwardDone(run.awardedCount, |EligibleEmployees(employees)|, fy, run.errors, run.details)
    {
      if annualLeaveTypeId.None? {
        return AwardFailed(NoAnnualLeaveTypeMessage);
      }
      var years := ParseFinancialYear(fy).value;
      var ctx := YearContext(fy, years.0, years.1, annualLeaveTypeId.value, awardedBy, refused);
      ghost var init := StartOfRun(balances, awardLogs);
      var emps := EligibleEmployees(employees);
      var awardedCount: nat := 0;
      var errors: seq<string> := [];
      var details: seq<AwardDetail> := [];
      var i := 0;
      while i < |emps|
        invariant 0 <= i <= |emps|
        invariant YearRun(balances, awardLogs, awardedCount, errors, details) == YearRunOver(init, emps[..i], ctx)
        invariant runLogs == old(runLogs)
      {
        assert emps[..i + 1][..i] == emps[..i];
        awardedCount, errors, details := AwardEmployee(emps[i], i, ctx, awardedCount, errors, details);
        i := i + 1;
      }
      assert emps[..|emps|] == emps;
      if old(Valid()) {
        YearRunKeepsRowsConsistent(init.rows, init.logs, emps, ctx);
      }
      report := AwardDone(awardedCount, |emps|, fy, errors, details);
    }

    /**
     * `startNewFinancialYear`: refuse a key that does not match the pattern
     * or a year that already has rows; otherwise award.  The award's error
     * list is not passed on.
     */
    method StartNewFinancialYear(fy: string, awardedBy: int, employees: seq<Employee>,
                                 annualLeaveTypeId: Option<int>, refused: map<nat, WriteFailure>)
      returns (outcome: StartOutcome)
      modifies this
      ensures runLogs == old(runLogs)
      ensures old(Valid()) ==> Valid()
      ensures MatchesYearPattern(fy) && !YearStarted(old(balances), fy) && annualLeaveTypeId.Some? ==>
                outcome.Started?
      ensures !MatchesYearPattern(fy) ==>
                outcome == StartRefused(InvalidFormatMessage)
                && balances == old(balances) && awardLogs == old(awardLogs)
      ensures MatchesYearPattern(fy) && YearStarted(old(balances), fy) ==>
                outcome == StartRefused(AlreadyStartedMessage(fy))
                && balances == old(balances) && awardLogs == old(awardLogs)
      ensures MatchesYearPattern(fy) && !YearStarted(old(balances), fy) && annualLeaveTypeId.None? ==>
                outcome == StartRefused(NoAnnualLeaveTypeMessage)
                && balances == old(balances) && awardLogs == old(awardLogs)
      ensures outcome.Started? ==>
                && MatchesYearPattern(fy) && !YearStarted(old(balances), fy) && annualLeaveTypeId.Some?
                && var years := ParseFinancialYear(fy).value;
                   var ctx := YearContext(fy, years.0, years.1, annualLeaveTypeId.value, awardedBy, refused);
                   var run := YearRunOver(StartOfRun(old(balances), old(awardLogs)), EligibleEmployees(employees), ctx);
                   && balances == run.rows && awardLogs == run.logs
                   && outcome == Started(run.awardedCount, fy, StartedMessage(fy, run.awardedCount), run.details)
      ensures outcome.Started? && outcome.awardedCount > 0 ==> YearStarted(balances, fy)
    {
      if !MatchesYearPattern(fy) {
        return StartRefused(InvalidFormatMessage);
      }
      if YearStarted(balances, fy) {
        return StartRefused(AlreadyStartedMessage(fy));
      }
      ghost var rows0, logs0 := balances, awardLogs;
      var report := AwardAnnualLeaveForYear(fy, awardedBy, employees, annualLeaveTypeId, refused);
      match report
      case AwardFailed(message) =>
        outcome := StartRefused(message);
      case AwardDone(count, _, _, _, details) =>
        var years := ParseFinancialYear(fy).value;
        AwardedRunStartsYear(rows0, logs0, EligibleEmployees(employees),
                             YearContext(fy, years.0, years.1, annualLeaveTypeId.value, awardedBy, refused));
        outcome := Started(count, fy, StartedMessage(fy, count), details);
    }

    /**
     * One pass of the `awardAnnualLeave` loop: skip an employee who has a row
     * unless forced; otherwise update the row (keeping `used`) or insert one,
     * or record the failure.
     */
    method SweepEmployee(e: Employee, index: nat, ctx: SweepContext, awardedCount: nat, errors: seq<string>)
      returns (newCount: nat, newErrors: seq<string>)
      modifies this
      ensures SweepRun(balances, newCount, newErrors)
              == SweepStep(SweepRun(old(balances), awardedCount, errors), e, index, ctx)
      ensures awardLogs == old(awardLogs) && runLogs == old(runLogs)
    {
      newCount, newErrors := awardedCount, errors;
      var key := RowKey(e.id, ctx.fy, ctx.leaveTypeId);
      var present := key in balances;
      if present && !ctx.force {
        return;
      }
      var days := OldEngineAward(e.hireDate, ctx.first, ctx.first + 1);
      if index in ctx.refused {
        newErrors := errors + [FailureMessage(e, ctx.refused[index])];
      } else {
        if present {
          var used := balances[key].used;
          balances := balances[key := AnnualRow(days, used, days - used)];
        } else {
          balances := balances[key := AnnualRow(days, 0, days)];
        }
        newCount := awardedCount + 1;
      }
    }

    /**
     * `awardAnnualLeave`: award the current financial year to every eligible
     * employee, skipping those with a row unless forced, then record the run.
     */
    method AwardAnnualLeave(today: Date, force: bool, employees: seq<Employee>,
                            annualLeaveTypeId: Option<int>, refused: map<nat, WriteFailure>)
      returns (report: AwardReport)
      modifies this
      ensures awardLogs == old(awardLogs)
      ensures old(Valid()) ==> Valid()
      ensures annualLeaveTypeId.None? ==>
                report == AwardFailed(NoAnnualLeaveTypeMessage)
                && balances == old(balances) && runLogs == old(runLogs)
      ensures annualLeaveTypeId.Some? ==>
                var fy := CurrentFinancialYear(today);
                var ctx := SweepContext(fy, FirstYearOf(today), annualLeaveTypeId.value, force, refused);
                var emps := EligibleEmployees(employees);
                var run := SweepOver(SweepRun(old(balances), 0, []), emps, ctx);
                && balances == run.rows
                && runLogs == old(runLogs) + [RunLog(fy, |emps|, run.awardedCount)]
                && report == AwardDone(run.awardedCount, |emps|, fy, run.errors, [])
    {
      if annualLeaveTypeId.None? {
        return AwardFailed(NoAnnualLeaveTypeMessage);
      }
      var fy := CurrentFinancialYear(today);
      var ctx := SweepContext(fy, FirstYearOf(today), annualLeaveTypeId.value, force, refused);
      ghost var init := SweepRun(balances, 0, []);
      var emps := EligibleEmployees(employees);
      var awardedCount: nat := 0;
      var errors: seq<string> := [];
      var i := 0;
      while i < |emps|
        invariant 0 <= i <= |emps|
        invariant SweepRun(balances, awardedCount, errors) == SweepOver(init, emps[..i], ctx)
        invariant awardLogs == old(awardLogs) && runLogs == old(runLogs)
      {
        assert emps[..i + 1][..i] == emps[..i];
        awardedCount, errors := SweepEmployee(emps[i], i, ctx, awardedCount, errors);
        i := i + 1;
      }
      assert emps[..|emps|] == emps;
      SweepRows(init.rows, emps, ctx);
      runLogs := runLogs + [RunLog(fy, |emps|, awardedCount)];
      report := AwardDone(awardedCount, |emps|, fy, errors, []);
    }

    /**
     * `checkAndAwardAnnualLeave`: outside the first week of July, and not
     * forced, nothing happens; otherwise award.
     */
    method CheckAndAwardAnnualLeave(today: Date, force: bool, employees: seq<Employee>,
                                    annualLeaveTypeId: Option<int>, refused: map<nat, WriteFailure>)
      returns (report: AwardReport)
      modifies this
      ensures awardLogs == old(awardLogs)
      ensures old(Valid()) ==> Valid()
      ensures !force && !IsBeginningOfFinancialYear(today) ==>
                report == AwardFailed(NotBeginningMessage)
                && balances == old(balances) && runLogs == old(runLogs)
      ensures (force || IsBeginningOfFinancialYear(today)) && annualLeaveTypeId.None? ==>
                report == AwardFailed(NoAnnualLeaveTypeMessage)
                && balances == old(balances) && runLogs == old(runLogs)
      ensures (force || IsBeginningOfFinancialYear(today)) && annualLeaveTypeId.Some? ==>
                var fy := CurrentFinancialYear(today);
                var ctx := SweepContext(fy, FirstYearOf(today), annualLeaveTypeId.value, force, refused);
                var emps := EligibleEmployees(employees);
                var run := SweepOver(SweepRun(old(balances), 0, []), emps, ctx);
                && balances == run.rows
                && runLogs == old(runLogs) + [RunLog(fy, |emps|, run.awardedCount)]
                && report == AwardDone(run.awardedCount, |emps|, fy, run.errors, [])
                && run.awardedCount <= |emps|
    {
      if !force && !IsBeginningOfFinancialYear(today) {
        return AwardFailed(NotBeginningMessage);
      }
      if annualLeaveTypeId.Some? {
        SweepTally(balances, EligibleEmployees(employees),
                   SweepContext(CurrentFinancialYear(today), FirstYearOf(today), annualLeaveTypeId.value, force, refused));
      }
      report := AwardAnnualLeave(today, force, employees, annualLeaveTypeId, refused);
    }
  }
}
