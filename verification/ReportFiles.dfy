/** Names of the receiver's report files, and the retention that reads days back from them. */
module ReportFiles {
  import opened Basics

  // ----- calendar -----

  datatype Date = Date(year: nat, month: nat, day: nat)

  predicate Leap(y: nat) { y % 4 == 0 && (y % 100 != 0 || y % 400 == 0) }

  function DaysIn(y: nat, m: nat): nat
  {
    if m == 2 then (if Leap(y) then 29 else 28)
    else if m == 4 || m == 6 || m == 9 || m == 11 then 30
    else 31
  }

  predicate OnCalendar(d: Date) { 1 <= d.month <= 12 && 1 <= d.day <= DaysIn(d.year, d.month) }

  /** A date that is written with a year of four digits. */
  predicate ValidDate(d: Date) { d.year <= 9999 && OnCalendar(d) }

  function DaysBeforeYear(y: nat): int
  {
    if y == 0 then -366 else DaysBeforeYear(y - 1) + (if Leap(y - 1) then 366 else 365)
  }

  function DaysBeforeMonth(y: nat, m: nat): nat
  {
    if m <= 1 then 0 else DaysBeforeMonth(y, m - 1) + DaysIn(y, m - 1)
  }

  /** Days since 1 January of year 1. */
  function DayNumber(d: Date): int { DaysBeforeYear(d.year) + DaysBeforeMonth(d.year, d.month) + d.day - 1 }

  /** Nanoseconds of a day. */
  const DAY: nat := 86_400_000_000_000

  /** A moment: its UTC day and the nanoseconds since midnight. */
  datatype Instant = Instant(date: Date, nanos: nat)

  predicate ValidInstant(t: Instant) { ValidDate(t.date) && t.nanos < DAY }

  function Nanos(t: Instant): int { DayNumber(t.date) * DAY + t.nanos }

  // ----- agent ids and file names -----

  predicate AlphaNum(c: char) { 'A' <= c <= 'Z' || 'a' <= c <= 'z' || '0' <= c <= '9' }

  /** A letter or digit, then at most 63 letters, digits or dashes. */
  predicate ValidAgentID(id: string)
  {
    && 1 <= |id| <= 64
    && AlphaNum(id[0])
    && forall i :: 1 <= i < |id| ==> AlphaNum(id[i]) || id[i] == '-'
  }

  function DigitChar(n: nat): char
    requires n < 10
  {
    '0' + n as char
  }

  /** The decimal digits of `n`, padded to `width`. */
  function Padded(n: nat, width: nat): (s: string)
    ensures |s| == width
  {
    if width == 0 then "" else Padded(n / 10, width - 1) + [DigitChar(n % 10)]
  }

  function FormatDate(d: Date): (s: string)
    ensures |s| == 8
  {
    Padded(d.year, 4) + Padded(d.month, 2) + Padded(d.day, 2)
  }

  function Number(s: string): Option<nat>
  {
    if s == "" then Some(0)
    else
      var c := s[|s| - 1];
      var rest := Number(s[..|s| - 1]);
      if rest.None? || !('0' <= c <= '9') then None else Some(10 * rest.value + (c - '0') as nat)
  }

  function ParseDate(s: string): (d: Option<Date>)
    ensures d.Some? ==> ValidDate(d.value)
  {
    if |s| != 8 then None
    else
      var y, m, d := Number(s[..4]), Number(s[4..6]), Number(s[6..]);
      if y.None? || m.None? || d.None? then None
      else if ValidDate(Date(y.value, m.value, d.value)) then Some(Date(y.value, m.value, d.value))
      else None
  }

  const PREFIX := "report_"
  const SUFFIX := ".jsonl"

  function ReportName(id: string, day: Date): string
  {
    PREFIX + id + "_" + FormatDate(day) + SUFFIX
  }

  /** The last position of `c`, or -1. */
  function LastIndex(s: string, c: char): (i: int)
    ensures -1 <= i < |s|
    ensures i >= 0 ==> s[i] == c
    ensures forall j :: i < j < |s| ==> s[j] != c
  {
    if s == "" then -1 else if s[|s| - 1] == c then |s| - 1 else LastIndex(s[..|s| - 1], c)
  }

  function ReportFileDay(name: string): Option<Date>
  {
    if !(PREFIX <= name) || |name| < |SUFFIX| || name[|name| - |SUFFIX|..] != SUFFIX then None
    else
      var trimmed := name[..|name| - |SUFFIX|];
      var i := LastIndex(trimmed, '_');
      if i < 0 then None else ParseDate(trimmed[i + 1..])
  }

  lemma {:induction false} NumberOfPadded(n: nat, width: nat)
    requires n < Pow10(width)
    ensures Number(Padded(n, width)) == Some(n)
    ensures forall c :: c in Padded(n, width) ==> '0' <= c <= '9'
  {
    if width > 0 {
      var s := Padded(n, width);
      assert s[..|s| - 1] == Padded(n / 10, width - 1);
      NumberOfPadded(n / 10, width - 1);
    }
  }

  function Pow10(d: nat): nat { if d == 0 then 1 else 10 * Pow10(d - 1) }

  lemma DateRoundTrip(d: Date)
    requires ValidDate(d)
    ensures ParseDate(FormatDate(d)) == Some(d)
    ensures forall c :: c in FormatDate(d) ==> '0' <= c <= '9'
  {
    assert Pow10(2) == 100 && Pow10(4) == 10000;
    NumberOfPadded(d.year, 4);
    NumberOfPadded(d.month, 2);
    NumberOfPadded(d.day, 2);
    hide Padded, Number, Pow10;
    ThreeParts(Padded(d.year, 4), Padded(d.month, 2), Padded(d.day, 2));
  }

  lemma ThreeParts(a: string, b: string, c: string)
    requires |a| == 4 && |b| == 2 && |c| == 2
    ensures var s := a + b + c; s[..4] == a && s[4..6] == b && s[6..] == c
  {
  }

  lemma {:induction false} LastIndexIs(s: string, c: char, i: nat)
    requires i < |s| && s[i] == c && forall j :: i < j < |s| ==> s[j] != c
    ensures LastIndex(s, c) == i
  {
    if i + 1 < |s| {
      LastIndexIs(s[..|s| - 1], c, i);
    }
  }

  /** The day of a report file is read back from its name, whatever the agent's id. */
  lemma DayOfReportName(id: string, day: Date)
    requires ValidDate(day)
    ensures ReportFileDay(ReportName(id, day)) == Some(day)
  {
    DateRoundTrip(day);
    var name := ReportName(id, day);
    var trimmed := name[..|name| - |SUFFIX|];
    assert trimmed == PREFIX + id + "_" + FormatDate(day);
    var i := |PREFIX + id|;
    assert trimmed[i + 1..] == FormatDate(day);
    forall j | i < j < |trimmed|
      ensures trimmed[j] != '_'
    {
      assert trimmed[j] == FormatDate(day)[j - i - 1];
      assert trimmed[j] in FormatDate(day);
    }
    LastIndexIs(trimmed, '_', i);
  }

  /** No two agents and no two days share a file. */
  lemma NamesAreInjective(id1: string, day1: Date, id2: string, day2: Date)
    requires ValidDate(day1) && ValidDate(day2)
    requires ReportName(id1, day1) == ReportName(id2, day2)
    ensures id1 == id2 && day1 == day2
  {
    hide ReportName, ReportFileDay;
    DayOfReportName(id1, day1);
    DayOfReportName(id2, day2);
    IdOfReportName(id1, day1);
    IdOfReportName(id2, day2);
  }

  lemma IdOfReportName(id: string, day: Date)
    ensures var name := ReportName(id, day);
            |name| >= |PREFIX| + 9 + |SUFFIX| && name[|PREFIX|..|name| - 9 - |SUFFIX|] == id
  {
    var rest := "_" + FormatDate(day) + SUFFIX;
    assert ReportName(id, day) == PREFIX + id + rest;
  }

  /** A name as it appears on disk. */
  lemma ReportNameLooksLike()
    ensures ReportName("web-1", Date(2026, 1, 2)) == "report_web-1_20260102.jsonl"
  {
    PaddedFour(2026);
    PaddedTwo(1);
    PaddedTwo(2);
    assert FormatDate(Date(2026, 1, 2)) == "20260102";
  }

  lemma PaddedTwo(n: nat)
    requires n < 100
    ensures Padded(n, 2) == [DigitChar(n / 10), DigitChar(n % 10)]
  {
    assert Padded(n / 10, 1) == Padded(0, 0) + [DigitChar(n / 10)];
  }

  lemma PaddedFour(n: nat)
    requires n < 10000
    ensures Padded(n, 4) == [DigitChar(n / 1000), DigitChar(n / 100 % 10), DigitChar(n / 10 % 10), DigitChar(n % 10)]
  {
    PaddedTwo(n / 100);
    assert n / 10 / 10 == n / 100 && n / 100 / 10 == n / 1000;
    assert Padded(n / 10, 3) == Padded(n / 100, 2) + [DigitChar(n / 10 % 10)];
  }

  const UPPER: string := "ABCDEFGHIJKLMNOPQRSTUVWXYZ"
  const LOWER: string := "abcdefghijklmnopqrstuvwxyz"
  const DIGITS: string := "0123456789"

  predicate InOrder(s: string, first: int) { forall i :: 0 <= i < |s| ==> s[i] as int == first + i }

  lemma InOrderHolds(s: string, first: int, c: char)
    requires InOrder(s, first)
    ensures c in s <==> first <= c as int < first + |s|
  {
    if first <= c as int < first + |s| {
      assert s[c as int - first] == c;
    }
  }

  lemma LettersAreInOrder()
    ensures InOrder(UPPER, 'A' as int) && InOrder(LOWER, 'a' as int) && InOrder(DIGITS, '0' as int)
  {
  }

  predicate LetterOrDigit(c: char) { c in UPPER || c in LOWER || c in DIGITS }

  lemma AlphaNumIs(c: char)
    ensures AlphaNum(c) <==> LetterOrDigit(c)
  {
    LettersAreInOrder();
    hide InOrder;
    InOrderHolds(UPPER, 'A' as int, c);
    InOrderHolds(LOWER, 'a' as int, c);
    InOrderHolds(DIGITS, '0' as int, c);
  }

  /** A usable id has 1 to 64 characters out of 63, and does not start with the dash; so it holds
      no underscore, no dot and no path separator. */
  lemma IdsAreMadeOf(id: string)
    ensures ValidAgentID(id) <==>
              && 1 <= |id| <= 64 && LetterOrDigit(id[0])
              && forall i :: 1 <= i < |id| ==> LetterOrDigit(id[i]) || id[i] == '-'
    ensures ValidAgentID(id) ==> '_' !in id && '.' !in id && '/' !in id && '\\' !in id
  {
    hide LetterOrDigit;
    forall i | 0 <= i < |id|
      ensures AlphaNum(id[i]) <==> LetterOrDigit(id[i])
    {
      AlphaNumIs(id[i]);
    }
  }

  // ----- retention -----

  /** The file's day began before the cutoff, `retentionDays` days before now. */
  predicate Expired(name: string, now: Instant, retentionDays: int)
  {
    var day := ReportFileDay(name);
    day.Some? && Nanos(Instant(day.value, 0)) < Nanos(now) - retentionDays * DAY
  }

  /** Cleanup keeps every other file and its content, deletes what has expired, and does
      nothing at all when no retention is configured. */
  function Cleaned<T>(files: map<string, T>, now: Instant, retentionDays: int): map<string, T>
  {
    if retentionDays <= 0 then files else map name | name in files && !Expired(name, now, retentionDays) :: files[name]
  }

  /** The loop over the directory. */
  method Cleanup<T>(files: map<string, T>, now: Instant, retentionDays: int) returns (left: map<string, T>)
    ensures left == Cleaned(files, now, retentionDays)
  {
    left := files;
    if retentionDays <= 0 {
      return;
    }
    var entries := files.Keys;
    while entries != {}
      invariant entries <= files.Keys
      invariant left.Keys <= files.Keys
      invariant forall n :: n in files ==> (n in left <==> n in entries || !Expired(n, now, retentionDays))
      invariant forall n :: n in left ==> left[n] == files[n]
      decreases |entries|
    {
      var name :| name in entries;
      entries := entries - {name};
      var day := ReportFileDay(name);
      if day.Some? && Nanos(Instant(day.value, 0)) < Nanos(now) - retentionDays * DAY {
        left := left - {name};
      }
    }
  }

  /** A report written now never expires now. */
  lemma TodayIsKept(id: string, now: Instant, retentionDays: int)
    requires ValidInstant(now) && retentionDays >= 1
    ensures !Expired(ReportName(id, now.date), now, retentionDays)
  {
    DayOfReportName(id, now.date);
    assert retentionDays * DAY >= DAY;
  }

  lemma {:induction false} YearsGrow(y1: nat, y2: nat)
    requires y1 < y2
    ensures DaysBeforeYear(y1) + (if Leap(y1) then 366 else 365) <= DaysBeforeYear(y2)
    decreases y2
  {
    if y1 + 1 < y2 {
      YearsGrow(y1, y2 - 1);
    }
  }

  lemma {:induction false} MonthsGrow(y: nat, m1: nat, m2: nat)
    requires 1 <= m1 < m2
    ensures DaysBeforeMonth(y, m1) + DaysIn(y, m1) <= DaysBeforeMonth(y, m2)
    decreases m2
  {
    if m1 + 1 < m2 {
      MonthsGrow(y, m1, m2 - 1);
    }
  }

  predicate Earlier(a: Date, b: Date)
  {
    a.year < b.year || (a.year == b.year && (a.month < b.month || (a.month == b.month && a.day < b.day)))
  }

  lemma YearHasItsDays(y: nat)
    ensures DaysBeforeMonth(y, 12) + DaysIn(y, 12) == if Leap(y) then 366 else 365
  {
    assert DaysBeforeMonth(y, 2) == 31;
    assert DaysBeforeMonth(y, 3) == 31 + DaysIn(y, 2);
    assert DaysBeforeMonth(y, 5) == DaysBeforeMonth(y, 3) + 61;
    assert DaysBeforeMonth(y, 7) == DaysBeforeMonth(y, 5) + 61;
    assert DaysBeforeMonth(y, 9) == DaysBeforeMonth(y, 7) + 62;
    assert DaysBeforeMonth(y, 11) == DaysBeforeMonth(y, 9) + 61;
  }

  /** Day numbers follow the calendar, so comparing them compares dates. */
  lemma DayNumbersGrow(a: Date, b: Date)
    requires OnCalendar(a) && OnCalendar(b) && Earlier(a, b)
    ensures DayNumber(a) < DayNumber(b)
  {
    if a.year < b.year {
      YearsGrow(a.year, b.year);
      YearHasItsDays(a.year);
      if a.month < 12 {
        MonthsGrow(a.year, a.month, 12);
      }
    } else if a.month < b.month {
      MonthsGrow(a.year, a.month, b.month);
    }
  }

  /** The next day, else the first of the next month, else 1 January. */
  function NextDate(d: Date): Date
  {
    if d.day < DaysIn(d.year, d.month) then Date(d.year, d.month, d.day + 1)
    else if d.month < 12 then Date(d.year, d.month + 1, 1)
    else Date(d.year + 1, 1, 1)
  }

  /** The calendar is the Gregorian one: day 0 is 1 January of year 1, and each next date is one
      day later. */
  lemma DayNumbersCountDays(d: Date)
    requires OnCalendar(d)
    ensures DayNumber(Date(1, 1, 1)) == 0
    ensures DayNumber(NextDate(d)) == DayNumber(d) + 1 && OnCalendar(NextDate(d))
  {
    if d.day == DaysIn(d.year, d.month) && d.month == 12 {
      YearHasItsDays(d.year);
    }
    assert DaysBeforeYear(1) == DaysBeforeYear(0) + 366;
  }

  /** Leap years come every fourth year, but of the centuries only every fourth: checked against
      the count of all days before a year. */
  lemma {:induction false} LeapYearsCount(y: nat)
    requires y > 0
    ensures DaysBeforeYear(y) == 365 * (y - 1) + (y - 1) / 4 - (y - 1) / 100 + (y - 1) / 400
  {
    if y == 1 {
      assert DaysBeforeYear(1) == DaysBeforeYear(0) + 366;
    } else {
      LeapYearsCount(y - 1);
      LeapStep(y - 1);
    }
  }

  lemma LeapStep(n: nat)
    requires n > 0
    ensures n / 4 - n / 100 + n / 400 == (n - 1) / 4 - (n - 1) / 100 + (n - 1) / 400 + (if Leap(n) then 1 else 0)
  {
    QuotientSteps(n, 4);
    QuotientSteps(n, 100);
    QuotientSteps(n, 400);
    CenturiesAreFourths(n);
  }

  lemma CenturiesAreFourths(n: nat)
    ensures n % 100 == 0 ==> n % 4 == 0
    ensures n % 400 == 0 ==> n % 100 == 0
  {
    HundredsAreFours(n, n / 100);
    FourHundredsAreHundreds(n, n / 400);
  }

  lemma HundredsAreFours(n: nat, c: nat)
    ensures n == 100 * c ==> n % 4 == 0
  {
    assert n == 100 * c ==> n == 4 * (25 * c);
  }

  lemma FourHundredsAreHundreds(n: nat, d: nat)
    ensures n == 400 * d ==> n % 100 == 0
  {
    assert n == 400 * d ==> n == 100 * (4 * d);
  }

  lemma QuotientSteps(n: nat, k: nat)
    requires n > 0 && k > 1
    ensures n / k == (n - 1) / k + (if n % k == 0 then 1 else 0)
  {
    var q, r := n / k, n % k;
    if r == 0 {
      QuotientIs(n - 1, k, q - 1, k - 1);
    } else {
      QuotientIs(n - 1, k, q, r - 1);
    }
  }

  lemma QuotientIs(n: nat, k: nat, q: int, r: nat)
    requires k > 0 && n == q * k + r && r < k
    ensures n / k == q
  {
    var d := n / k - q;
    assert d * k == r - n % k;
    if d >= 1 {
      AtLeastOnce(d, k);
    } else if d <= -1 {
      AtLeastOnce(-d, k);
    }
  }

  lemma AtLeastOnce(d: int, k: nat)
    requires d >= 1
    ensures d * k >= k
  {
  }

  /** The days before the first of each month, in a year that is not a leap year. */
  const BEFORE_MONTH: seq<nat> := [0, 31, 59, 90, 120, 151, 181, 212, 243, 273, 304, 334]

  lemma MonthsHaveTheirDays(y: nat, m: nat)
    requires 1 <= m <= 12
    ensures DaysBeforeMonth(y, m) == BEFORE_MONTH[m - 1] + (if m > 2 && Leap(y) then 1 else 0)
  {
    assert DaysBeforeMonth(y, 2) == 31;
    assert DaysBeforeMonth(y, 4) == DaysBeforeMonth(y, 2) + DaysIn(y, 2) + 31;
    assert DaysBeforeMonth(y, 6) == DaysBeforeMonth(y, 4) + 61;
    assert DaysBeforeMonth(y, 8) == DaysBeforeMonth(y, 6) + 61;
    assert DaysBeforeMonth(y, 10) == DaysBeforeMonth(y, 8) + 61;
    assert DaysBeforeMonth(y, 12) == DaysBeforeMonth(y, 10) + 61;
  }

  function DaysAfter(d: Date, n: nat): Date { if n == 0 then d else NextDate(DaysAfter(d, n - 1)) }

  lemma {:induction false} DaysAfterCount(d: Date, n: nat)
    requires OnCalendar(d)
    ensures OnCalendar(DaysAfter(d, n)) && DayNumber(DaysAfter(d, n)) == DayNumber(d) + n
  {
    if n > 0 {
      DaysAfterCount(d, n - 1);
      DayNumbersCountDays(DaysAfter(d, n - 1));
      hide DayNumber, OnCalendar;
    }
  }

  /** Going from date to date reaches every later one. */
  lemma EveryLaterDateIsReached(a: Date, b: Date) returns (n: nat)
    requires OnCalendar(a) && OnCalendar(b) && !Earlier(b, a)
    ensures b == DaysAfter(a, n)
  {
    if Earlier(a, b) {
      DayNumbersGrow(a, b);
    }
    n := DayNumber(b) - DayNumber(a);
    DaysAfterCount(a, n);
    var c := DaysAfter(a, n);
    if Earlier(b, c) {
      DayNumbersGrow(b, c);
    } else if Earlier(c, b) {
      DayNumbersGrow(c, b);
    }
  }

  /** Retention, counted in dates: of the reports dated `n` dates before today exactly those with
      `n` up to the retention are kept - those at the retention itself only in the very first
      nanosecond of the day, those before it always. */
  lemma RetentionKeepsRecentDays(id: string, day: Date, n: nat, now: Instant, retentionDays: int)
    requires ValidDate(day) && ValidInstant(now) && retentionDays >= 1 && now.date == DaysAfter(day, n)
    ensures Expired(ReportName(id, day), now, retentionDays) <==>
              n > retentionDays || (n == retentionDays && now.nanos > 0)
  {
    DayOfReportName(id, day);
    DaysAfterCount(day, n);
    hide DayNumber, ReportName, DaysAfter;
    ExpiryInDays(DayNumber(day), n, now.nanos, retentionDays);
  }

  lemma ExpiryInDays(day: int, n: nat, nanos: nat, retentionDays: int)
    requires nanos < DAY
    ensures day * DAY < (day + n) * DAY + nanos - retentionDays * DAY <==>
              n > retentionDays || (n == retentionDays && nanos > 0)
  {
    var ahead := n - retentionDays;
    assert (day + n) * DAY + nanos - retentionDays * DAY - day * DAY == ahead * DAY + nanos;
  }

  /** Reports dated later than today are kept as well. */
  lemma FutureReportsAreKept(id: string, day: Date, now: Instant, retentionDays: int)
    requires ValidDate(day) && ValidInstant(now) && retentionDays >= 1 && Earlier(now.date, day)
    ensures !Expired(ReportName(id, day), now, retentionDays)
  {
    DayOfReportName(id, day);
    DayNumbersGrow(now.date, day);
    hide DayNumber, ReportName;
    var ahead := DayNumber(day) - DayNumber(now.date);
    assert DayNumber(day) * DAY == DayNumber(now.date) * DAY + ahead * DAY;
  }
}
