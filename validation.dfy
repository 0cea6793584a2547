/** The two input validators of the booking flow: `validateMobileNumber` and the
    range check of `validateDateFormat` (server.js:345-370). */
module Validation {
  import opened Wrappers
  import opened Strings

  /* ---------- mobile numbers ---------- */

  /** A Philippine mobile number once its non-digits are stripped. */
  predicate IsMobileForm(digits: string)
  {
    |digits| == 11 && StartsWith(digits, "09")
  }

  /** `validateMobileNumber`: `Some(formatted)` for `{valid: true, formatted}`, `None`
      for `{valid: false, formatted: null}`. */
  function ValidateMobileNumber(number: string): (r: Option<string>)
    ensures r.Some? <==> IsMobileForm(DigitsOnly(number))
    ensures r.Some? ==> r.value == DigitsOnly(number)
  {
    var cleaned := DigitsOnly(number);
    if |cleaned| == 11 && StartsWith(cleaned, "09") then Some(cleaned) else None
  }

  /** An accepted number is normalised to eleven digits starting with "09", and
      validating that normalised form again accepts it unchanged. */
  lemma MobileNormalFormIsStable(number: string)
    requires ValidateMobileNumber(number).Some?
    ensures var f := ValidateMobileNumber(number).value;
      |f| == 11 && f[0] == '0' && f[1] == '9'
      && (forall i :: 0 <= i < |f| ==> IsDigit(f[i]))
      && ValidateMobileNumber(f) == Some(f)
  {
    var f := ValidateMobileNumber(number).value;
    DigitsOnlyKeepsDigits(f);
  }

  /** A non-digit between two runs of digits disappears from the digit-only form. */
  lemma DigitsOnlyDropsSeparator(a: string, c: char, b: string)
    requires forall i :: 0 <= i < |a| ==> IsDigit(a[i])
    requires !IsDigit(c)
    ensures DigitsOnly(a + [c] + b) == a + DigitsOnly(b)
  {
    DigitsOnlyConcat(a + [c], b);
    DigitsOnlyConcat(a, [c]);
    DigitsOnlyKeepsDigits(a);
    assert DigitsOnly([c]) == [];
  }

  /** Separators are ignored: a dashed number is accepted in its digit-only form. */
  lemma DashedNumberAccepted(s: string)
    requires s == "0912-345-6789"
    ensures ValidateMobileNumber(s) == Some("09123456789")
  {
    assert s == "0912" + ['-'] + ("345" + ['-'] + "6789");
    DigitsOnlyDropsSeparator("0912", '-', "345" + ['-'] + "6789");
    DigitsOnlyDropsSeparator("345", '-', "6789");
    DigitsOnlyKeepsDigits("6789");
    var f := "09123456789";
    assert DigitsOnly(s) == f;
    assert IsMobileForm(f);
  }

  /** Nine digits are too few. */
  lemma ShortNumberRejected(s: string)
    requires s == "091234567"
    ensures ValidateMobileNumber(s) == None
  {
    DigitsOnlyKeepsDigits(s);
  }

  /* ---------- calendar dates ---------- */

  datatype Date = Date(year: nat, month: nat, day: nat)

  predicate IsLeapYear(y: nat)
  {
    (y % 4 == 0 && y % 100 != 0) || y % 400 == 0
  }

  function DaysInMonth(y: nat, m: nat): nat
  {
    if m == 2 then (if IsLeapYear(y) then 29 else 28)
    else if m == 4 || m == 6 || m == 9 || m == 11 then 30
    else 31
  }

  predicate ValidDate(d: Date)
  {
    1 <= d.month <= 12 && 1 <= d.day <= DaysInMonth(d.year, d.month)
  }

  /** A day of the calendar, as a JavaScript `Date` always denotes one. */
  type CalendarDate = d: Date | ValidDate(d) witness Date(1970, 1, 1)

  /** Milliseconds since local midnight. */
  type MsOfDay = n: nat | n < 86400000

  /** A local point in time: a `Date` object read in the host's time zone. */
  datatype Instant = Instant(date: CalendarDate, ms: MsOfDay)

  /** Strict chronological order on days. */
  predicate DateBefore(a: Date, b: Date)
  {
    a.year < b.year
    || (a.year == b.year && (a.month < b.month || (a.month == b.month && a.day < b.day)))
  }

  /** `p < q` on two `Date` objects. */
  predicate InstantBefore(p: Instant, q: Instant)
  {
    DateBefore(p.date, q.date) || (p.date == q.date && p.ms < q.ms)
  }

  function Midnight(d: CalendarDate): Instant
  {
    Instant(d, 0)
  }

  /** `new Date(now.getFullYear() + 2, 11, 31)`: the last day bookings may name. */
  function LastBookableDay(today: CalendarDate): CalendarDate
  {
    Date(today.year + 2, 12, 31)
  }

  /** `parsedDate < minDate || parsedDate > maxDate` negated, with `minDate` today's
      midnight and `maxDate` midnight at the start of December 31 two years on. */
  predicate InBookingWindow(p: Instant, today: CalendarDate)
  {
    !InstantBefore(p, Midnight(today)) && !InstantBefore(Midnight(LastBookableDay(today)), p)
  }

  /** The window, day by day: from today up to December 31 two years on, where a time
      past midnight on that last day already falls outside it. */
  lemma BookingWindowByDay(p: Instant, today: CalendarDate)
    ensures InBookingWindow(p, today) <==>
      !DateBefore(p.date, today) && !DateBefore(LastBookableDay(today), p.date)
      && (p.date == LastBookableDay(today) ==> p.ms == 0)
  {
  }

  /** Any earlier day is refused, and the first moment of the last day is accepted. */
  lemma BookingWindowEnds(p: Instant, today: CalendarDate)
    ensures DateBefore(p.date, today) ==> !InBookingWindow(p, today)
    ensures p == Midnight(LastBookableDay(today)) ==> InBookingWindow(p, today)
    ensures p == Midnight(today) ==> InBookingWindow(p, today)
  {
  }

  const MonthNames: seq<string> := ["January", "February", "March", "April", "May", "June",
    "July", "August", "September", "October", "November", "December"]

  /** `toLocaleDateString('en-US', {year: 'numeric', month: 'long', day: 'numeric'})`,
      e.g. "December 25, 2026". */
  function LongDate(d: CalendarDate): (r: string)
    ensures StartsWith(r, MonthNames[d.month - 1] + " ")
  {
    var prefix := MonthNames[d.month - 1] + " ";
    var r := prefix + NatToString(d.day) + ", " + NatToString(d.year);
    assert r[..|prefix|] == prefix;
    r
  }

  /** `validateDateFormat`. Parsing (`new Date(string)`) is host-dependent, so it is the
      parameter `parse`; `now` is the clock reading. `Some(formatted)` stands for
      `{valid: true, formatted}`. */
  function ValidateDateFormat(dateString: string, parse: string -> Option<Instant>, now: Instant)
    : (r: Option<string>)
    ensures r.Some? <==> parse(Trim(dateString)).Some? && InBookingWindow(parse(Trim(dateString)).value, now.date)
    ensures r.Some? ==> r.value == LongDate(parse(Trim(dateString)).value.date)
  {
    match parse(Trim(dateString))
    case None => None
    case Some(p) => if InBookingWindow(p, now.date) then Some(LongDate(p.date)) else None
  }
}
