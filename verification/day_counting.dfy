/**
 * Leave-day counting: the business-day loop in its two variants, the
 * calendar-day count, the leave-type dispatcher and the AJAX endpoint's
 * input validation.
 *
 * hrm/calculate_leave_days.php and hrm/test_leave_calculation.php share one
 * business-day loop (holidays are skipped only when weekends are skipped);
 * hrm/leave_management.php has its own copy that skips listed holidays in
 * both modes.
 */
module DayCounting {
  import opened Common
  import opened Calendar

  /** Which copy of `calculateBusinessDays` is meant. */
  datatype HolidayRule =
    | SkipHolidaysWithWeekends   // calculate_leave_days.php, test_leave_calculation.php
    | AlwaysSkipHolidays         // leave_management.php

  /** The inputs that decide whether a day is charged. */
  datatype Policy = Policy(holidays: seq<Date>, includeWeekends: bool, rule: HolidayRule)

  predicate IsWeekend(n: int) {
    IsoWeekday(n) == 6 || IsoWeekday(n) == 7
  }

  /** `in_array($currentDate, $holidays)`: some listed holiday falls on day `n`. */
  predicate IsHoliday(n: int, holidays: seq<Date>) {
    exists i :: 0 <= i < |holidays| && Ordinal(holidays[i]) == n
  }

  /** Whether one pass of the loop body counts day `n`. */
  predicate Chargeable(n: int, p: Policy) {
    match p.rule
    case SkipHolidaysWithWeekends =>
      p.includeWeekends || (!IsWeekend(n) && !IsHoliday(n, p.holidays))
    case AlwaysSkipHolidays =>
      (p.includeWeekends || !IsWeekend(n)) && !IsHoliday(n, p.holidays)
  }

  /** The number of chargeable days among day numbers lo..hi inclusive. */
  function CountChargeable(lo: int, hi: int, p: Policy): (r: nat)
    ensures r <= if lo <= hi then hi - lo + 1 else 0
    decreases hi - lo
  {
    if hi < lo then 0
    else CountChargeable(lo, hi - 1, p) + (if Chargeable(hi, p) then 1 else 0)
  }

  /** The chargeable days of lo..hi as a set: the reference the count is checked against. */
  ghost function ChargeableDays(lo: int, hi: int, p: Policy): set<int> {
    set n | lo <= n <= hi && Chargeable(n, p)
  }

  /** The count is exactly the number of chargeable days in the range. */
  lemma {:induction false} CountIsNumberOfChargeableDays(lo: int, hi: int, p: Policy)
    ensures CountChargeable(lo, hi, p) == |ChargeableDays(lo, hi, p)|
    decreases hi - lo
  {
    if hi < lo {
      assert ChargeableDays(lo, hi, p) == {};
    } else {
      CountIsNumberOfChargeableDays(lo, hi - 1, p);
      var below := ChargeableDays(lo, hi - 1, p);
      assert hi !in below;
      if Chargeable(hi, p) {
        assert ChargeableDays(lo, hi, p) == below + {hi};
      } else {
        assert ChargeableDays(lo, hi, p) == below;
      }
    }
  }

  /**
   * With weekends excluded, a day is counted exactly when it is an ISO
   * weekday 1-5 that is not a listed holiday; both copies of the loop agree.
   */
  lemma BusinessDayIsNonHolidayWeekday(n: int, holidays: seq<Date>, rule: HolidayRule)
    ensures Chargeable(n, Policy(holidays, false, rule))
        <==> 1 <= IsoWeekday(n) <= 5 && !IsHoliday(n, holidays)
  {
  }

  /** With weekends included, the AJAX copy counts every day of a non-empty range. */
  lemma {:induction false} IncludeWeekendsCountsEveryDay(lo: int, hi: int, holidays: seq<Date>)
    requires lo <= hi + 1
    ensures CountChargeable(lo, hi, Policy(holidays, true, SkipHolidaysWithWeekends)) == hi - lo + 1
    decreases hi - lo
  {
    if lo <= hi {
      IncludeWeekendsCountsEveryDay(lo, hi - 1, holidays);
    }
  }

  /** With weekends included, the leave_management.php copy counts exactly the non-holidays. */
  lemma {:induction false} LegacyIncludeWeekendsSkipsHolidays(lo: int, hi: int, holidays: seq<Date>)
    ensures CountChargeable(lo, hi, Policy(holidays, true, AlwaysSkipHolidays))
         == |set n | lo <= n <= hi && !IsHoliday(n, holidays)|
  {
    var p := Policy(holidays, true, AlwaysSkipHolidays);
    CountIsNumberOfChargeableDays(lo, hi, p);
    assert ChargeableDays(lo, hi, p) == set n | lo <= n <= hi && !IsHoliday(n, holidays);
  }

  /** With weekends excluded the two copies give the same count. */
  lemma {:induction false} VariantsAgreeWithoutWeekends(lo: int, hi: int, holidays: seq<Date>)
    ensures CountChargeable(lo, hi, Policy(holidays, false, SkipHolidaysWithWeekends))
         == CountChargeable(lo, hi, Policy(holidays, false, AlwaysSkipHolidays))
    decreases hi - lo
  {
    if lo <= hi {
      VariantsAgreeWithoutWeekends(lo, hi - 1, holidays);
    }
  }

  /** A single-day range counts 1 exactly when that day is chargeable. */
  lemma SingleDay(n: int, p: Policy)
    ensures CountChargeable(n, n, p) == if Chargeable(n, p) then 1 else 0
  {
    assert CountChargeable(n, n - 1, p) == 0;
  }

  /** Holidays outside the range do not change the count. */
  lemma {:induction false} HolidaysOutsideRangeIgnored(lo: int, hi: int, p: Policy)
    requires forall i :: 0 <= i < |p.holidays| ==> Ordinal(p.holidays[i]) < lo || hi < Ordinal(p.holidays[i])
    ensures CountChargeable(lo, hi, p) == CountChargeable(lo, hi, p.(holidays := []))
    decreases hi - lo
  {
    if lo <= hi {
      HolidaysOutsideRangeIgnored(lo, hi - 1, p);
      assert !IsHoliday(hi, p.holidays);
      assert !IsHoliday(hi, []);
    }
  }

  /**
   * `calculateBusinessDays`: walks day by day from start to end inclusive,
   * skipping weekends when they are excluded and skipping listed holidays as
   * the chosen copy does.  The holiday rows are the ones the database query
   * returned.
   */
  method CalculateBusinessDays(start: Date, end: Date, holidays: seq<Date>,
                               includeWeekends: bool, rule: HolidayRule)
    returns (days: nat)
    ensures days == CountChargeable(Ordinal(start), Ordinal(end), Policy(holidays, includeWeekends, rule))
    ensures Ordinal(end) < Ordinal(start) ==> days == 0
  {
    ghost var p := Policy(holidays, includeWeekends, rule);
    var first := Ordinal(start);
    var last := Ordinal(end);
    var current := first;
    days := 0;
    while current <= last
      invariant first <= current
      invariant current <= last + 1 || current == first
      invariant days == CountChargeable(first, current - 1, p)
      decreases last - current
    {
      var dayOfWeek := IsoWeekday(current);
      if !includeWeekends && (dayOfWeek == 6 || dayOfWeek == 7) {
        current := current + 1;
        continue;
      }
      if rule == SkipHolidaysWithWeekends {
        if !includeWeekends && IsHoliday(current, holidays) {
          current := current + 1;
          continue;
        }
        days := days + 1;
      } else {
        if !IsHoliday(current, holidays) {
          days := days + 1;
        }
      }
      current := current + 1;
    }
  }

  /** `calculateCalendarDays`: the distance in days plus one. */
  function CalendarDays(start: Date, end: Date): (r: nat)
    ensures r >= 1
  {
    Abs(Ordinal(end) - Ordinal(start)) + 1
  }

  /**
   * The calendar count is the count with every day charged, on a forward
   * range, and never below the business count of the same range.
   */
  lemma CalendarDaysCountsEveryDay(start: Date, end: Date, p: Policy)
    requires Ordinal(start) <= Ordinal(end)
    ensures CalendarDays(start, end)
         == CountChargeable(Ordinal(start), Ordinal(end), Policy(p.holidays, true, SkipHolidaysWithWeekends))
    ensures CountChargeable(Ordinal(start), Ordinal(end), p) <= CalendarDays(start, end)
  {
    IncludeWeekendsCountsEveryDay(Ordinal(start), Ordinal(end), p.holidays);
  }

  /** A leave_types row. */
  datatype LeaveType = LeaveType(name: string, countsWeekends: bool)

  /** What `calculateLeaveDays` returns. */
  datatype LeaveQuote = LeaveQuote(days: nat, note: string, leaveType: string)

  const IncludesNote := "Includes weekends and holidays"
  const ExcludesNote := "Excludes weekends and holidays"

  /**
   * The quote `calculateLeaveDays` produces: calendar days for a type that
   * counts weekends, business days (weekends and holidays excluded)
   * otherwise, and business days under the name "Unknown" for a type id
   * with no row.
   */
  function LeaveQuoteFor(start: Date, end: Date, leaveTypeId: int,
                         leaveTypes: map<int, LeaveType>, holidays: seq<Date>): (q: LeaveQuote)
    ensures (q.note == IncludesNote) <==> (leaveTypeId in leaveTypes && leaveTypes[leaveTypeId].countsWeekends)
    ensures q.note == IncludesNote || q.note == ExcludesNote
    ensures q.note == IncludesNote ==> q.days == CalendarDays(start, end)
    ensures q.note == ExcludesNote ==>
              q.days == CountChargeable(Ordinal(start), Ordinal(end),
                                        Policy(holidays, false, SkipHolidaysWithWeekends))
    ensures leaveTypeId !in leaveTypes ==> q.leaveType == "Unknown"
    ensures leaveTypeId in leaveTypes ==> q.leaveType == leaveTypes[leaveTypeId].name
  {
    var business := CountChargeable(Ordinal(start), Ordinal(end),
                                    Policy(holidays, false, SkipHolidaysWithWeekends));
    if leaveTypeId in leaveTypes then
      var t := leaveTypes[leaveTypeId];
      if t.countsWeekends then LeaveQuote(CalendarDays(start, end), IncludesNote, t.name)
      else LeaveQuote(business, ExcludesNote, t.name)
    else
      LeaveQuote(business, ExcludesNote, "Unknown")
  }

  /** `calculateLeaveDays`: looks the type up and runs the matching count. */
  method CalculateLeaveDays(start: Date, end: Date, leaveTypeId: int,
                            leaveTypes: map<int, LeaveType>, holidays: seq<Date>)
    returns (q: LeaveQuote)
    ensures q == LeaveQuoteFor(start, end, leaveTypeId, leaveTypes, holidays)
  {
    if leaveTypeId in leaveTypes {
      var t := leaveTypes[leaveTypeId];
      if t.countsWeekends {
        q := LeaveQuote(CalendarDays(start, end), IncludesNote, t.name);
      } else {
        var days := CalculateBusinessDays(start, end, holidays, false, SkipHolidaysWithWeekends);
        q := LeaveQuote(days, ExcludesNote, t.name);
      }
    } else {
      var days := CalculateBusinessDays(start, end, holidays, false, SkipHolidaysWithWeekends);
      q := LeaveQuote(days, ExcludesNote, "Unknown");
    }
  }

  /**
   * One posted date: the sanitised text and what
   * `DateTime::createFromFormat('Y-m-d', ...)` made of it (None when it
   * refused the text).
   */
  datatype DateInput = DateInput(text: string, parsed: Option<Date>)

  /** PHP's `empty()` on a string: "" and "0" are empty. */
  predicate IsEmptyText(s: string) {
    s == "" || s == "0"
  }

  datatype CalcResponse =
    | CalcFailure(error: string)
    | CalcSuccess(days: nat, note: string, leaveType: string, startDate: string, endDate: string)

  /** Whether the endpoint rejects a request before calculating anything. */
  predicate RequestRejected(startInput: DateInput, endInput: DateInput, leaveTypeId: int) {
    IsEmptyText(startInput.text) || IsEmptyText(endInput.text) || leaveTypeId <= 0
    || startInput.parsed.None? || endInput.parsed.None?
    || Ordinal(endInput.parsed.value) < Ordinal(startInput.parsed.value)
  }

  /**
   * The POST handler of calculate_leave_days.php: validate, then calculate.
   * (The session check, request method and database errors are left out.)
   */
  method HandleCalculateRequest(startInput: DateInput, endInput: DateInput, leaveTypeId: int,
                                leaveTypes: map<int, LeaveType>, holidays: seq<Date>)
    returns (response: CalcResponse)
    ensures response.CalcFailure? <==> RequestRejected(startInput, endInput, leaveTypeId)
    ensures (IsEmptyText(startInput.text) || IsEmptyText(endInput.text) || leaveTypeId <= 0)
              ==> response == CalcFailure("Invalid input parameters")
    ensures (!(IsEmptyText(startInput.text) || IsEmptyText(endInput.text) || leaveTypeId <= 0)
             && (startInput.parsed.None? || endInput.parsed.None?))
              ==> response == CalcFailure("Invalid date format")
    ensures (!(IsEmptyText(startInput.text) || IsEmptyText(endInput.text) || leaveTypeId <= 0)
             && startInput.parsed.Some? && endInput.parsed.Some?
             && Ordinal(endInput.parsed.value) < Ordinal(startInput.parsed.value))
              ==> response == CalcFailure("End date must be after start date")
    ensures response.CalcSuccess? ==>
              var q := LeaveQuoteFor(startInput.parsed.value, endInput.parsed.value,
                                     leaveTypeId, leaveTypes, holidays);
              response == CalcSuccess(q.days, q.note, q.leaveType, startInput.text, endInput.text)
  {
    if IsEmptyText(startInput.text) || IsEmptyText(endInput.text) || leaveTypeId <= 0 {
      return CalcFailure("Invalid input parameters");
    }
    if startInput.parsed.None? || endInput.parsed.None? {
      return CalcFailure("Invalid date format");
    }
    var start := startInput.parsed.value;
    var end := endInput.parsed.value;
    if Ordinal(end) < Ordinal(start) {
      return CalcFailure("End date must be after start date");
    }
    var q := CalculateLeaveDays(start, end, leaveTypeId, leaveTypes, holidays);
    response := CalcSuccess(q.days, q.note, q.leaveType, startInput.text, endInput.text);
  }

  // The fixed cases of hrm/test_leave_calculation.php (AJAX copy of the loop).

  predicate NoHolidayIn(holidays: seq<Date>, lo: int, hi: int) {
    forall i :: 0 <= i < |holidays| ==> Ordinal(holidays[i]) < lo || hi < Ordinal(holidays[i])
  }

  /** Day numbers of the dates used by the fixed cases. */
  lemma July2024DayNumbers()
    ensures Ordinal(Date(2024, 7, 22)) == 739088
    ensures Ordinal(Date(2024, 7, 26)) == 739092
    ensures Ordinal(Date(2024, 7, 29)) == 739095
    ensures Ordinal(Date(2024, 8, 2)) == 739099
  {
    assert DaysBeforeYear(2024) == 738885;
  }

  /** Business days from day 739088 (a Monday) with no holidays, one day at a time. */
  lemma {:induction false} CountFromMonday22()
    ensures var q := Policy([], false, SkipHolidaysWithWeekends);
            && CountChargeable(739088, 739092, q) == 5
            && CountChargeable(739088, 739099, q) == 10
  {
    var q := Policy([], false, SkipHolidaysWithWeekends);
    assert CountChargeable(739088, 739088, q) == 1;
    assert CountChargeable(739088, 739089, q) == 2;
    assert CountChargeable(739088, 739090, q) == 3;
    assert CountChargeable(739088, 739091, q) == 4;
    assert CountChargeable(739088, 739092, q) == 5;
    assert CountChargeable(739088, 739093, q) == 5;
    assert CountChargeable(739088, 739094, q) == 5;
    assert CountChargeable(739088, 739095, q) == 6;
    assert CountChargeable(739088, 739096, q) == 7;
    assert CountChargeable(739088, 739097, q) == 8;
    assert CountChargeable(739088, 739098, q) == 9;
  }

  /** Business days from day 739092 (a Friday) to 739095 (the Monday after). */
  lemma {:induction false} CountFromFriday26()
    ensures CountChargeable(739092, 739095, Policy([], false, SkipHolidaysWithWeekends)) == 2
  {
    var q := Policy([], false, SkipHolidaysWithWeekends);
    assert CountChargeable(739092, 739092, q) == 1;
    assert CountChargeable(739092, 739093, q) == 1;
    assert CountChargeable(739092, 739094, q) == 1;
  }

  /** Monday 2024-07-22 to Friday 2024-07-26: 5 calendar days and 5 business days. */
  lemma TestMondayToFriday(holidays: seq<Date>)
    requires NoHolidayIn(holidays, Ordinal(Date(2024, 7, 22)), Ordinal(Date(2024, 7, 26)))
    ensures IsoWeekday(Ordinal(Date(2024, 7, 22))) == 1
    ensures CalendarDays(Date(2024, 7, 22), Date(2024, 7, 26)) == 5
    ensures CountChargeable(Ordinal(Date(2024, 7, 22)), Ordinal(Date(2024, 7, 26)),
                            Policy(holidays, false, SkipHolidaysWithWeekends)) == 5
  {
    July2024DayNumbers();
    HolidaysOutsideRangeIgnored(739088, 739092, Policy(holidays, false, SkipHolidaysWithWeekends));
    CountFromMonday22();
  }

  /** Friday 2024-07-26 to Monday 2024-07-29: 4 calendar days but 2 business days. */
  lemma TestFridayToMonday(holidays: seq<Date>)
    requires NoHolidayIn(holidays, Ordinal(Date(2024, 7, 26)), Ordinal(Date(2024, 7, 29)))
    ensures CalendarDays(Date(2024, 7, 26), Date(2024, 7, 29)) == 4
    ensures CountChargeable(Ordinal(Date(2024, 7, 26)), Ordinal(Date(2024, 7, 29)),
                            Policy(holidays, false, SkipHolidaysWithWeekends)) == 2
  {
    July2024DayNumbers();
    HolidaysOutsideRangeIgnored(739092, 739095, Policy(holidays, false, SkipHolidaysWithWeekends));
    CountFromFriday26();
  }

  /** Monday 2024-07-22 to Friday 2024-08-02: 12 calendar days and 10 business days. */
  lemma TestTwoWeeks(holidays: seq<Date>)
    requires NoHolidayIn(holidays, Ordinal(Date(2024, 7, 22)), Ordinal(Date(2024, 8, 2)))
    ensures CalendarDays(Date(2024, 7, 22), Date(2024, 8, 2)) == 12
    ensures CountChargeable(Ordinal(Date(2024, 7, 22)), Ordinal(Date(2024, 8, 2)),
                            Policy(holidays, false, SkipHolidaysWithWeekends)) == 10
  {
    July2024DayNumbers();
    HolidaysOutsideRangeIgnored(739088, 739099, Policy(holidays, false, SkipHolidaysWithWeekends));
    CountFromMonday22();
  }
}
