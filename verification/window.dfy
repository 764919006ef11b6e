/** The rules that decide which tags a component may be patched to. */
module Policy {
  import opened Text
  import opened Tags
  import opened Components

  // ---------- calendar ----------

  datatype Date = Date(year: int, month: int, day: int)

  predicate IsLeap(year: int) { year % 4 == 0 && (year % 100 != 0 || year % 400 == 0) }

  function DaysIn(month: int, year: int): int {
    if month == 2 then (if IsLeap(year) then 29 else 28)
    else if month == 4 || month == 6 || month == 9 || month == 11 then 30 else 31
  }

  predicate Valid(d: Date) {
    0 <= d.year && 1 <= d.month <= 12 && 1 <= d.day <= DaysIn(d.month, d.year)
  }

  /** Days from 1 January of year 0 to 1 January of the given year, proleptic Gregorian. */
  function DaysBeforeYear(year: int): int
    requires year >= 0
  {
    365 * year + if year == 0 then 0 else (year - 1) / 4 - (year - 1) / 100 + (year - 1) / 400 + 1
  }

  function DaysBeforeMonth(month: int, year: int): int
    requires 1 <= month <= 13
    decreases month
  {
    if month == 1 then 0 else DaysBeforeMonth(month - 1, year) + DaysIn(month - 1, year)
  }

  function DayNumber(d: Date): int
    requires Valid(d)
  {
    DaysBeforeYear(d.year) + DaysBeforeMonth(d.month, d.year) + d.day - 1
  }

  /** The date as the number yyyymmdd. */
  function Stamp(d: Date): int { d.year * 10000 + d.month * 100 + d.day }

  function NextDay(d: Date): (n: Date)
    requires Valid(d)
    ensures Valid(n)
  {
    if d.day < DaysIn(d.month, d.year) then Date(d.year, d.month, d.day + 1)
    else if d.month < 12 then Date(d.year, d.month + 1, 1)
    else Date(d.year + 1, 1, 1)
  }

  function AddDays(d: Date, n: nat): (r: Date)
    requires Valid(d)
    ensures Valid(r)
    decreases n, d
  {
    if n == 0 then d else AddDays(NextDay(d), n - 1)
  }

  lemma MonthLengths(year: int)
    ensures DaysBeforeMonth(2, year) == 31 && DaysBeforeMonth(3, year) == 31 + DaysIn(2, year)
    ensures DaysBeforeMonth(13, year) == DaysBeforeMonth(3, year) + 306
  {
    var f := m requires 1 <= m <= 13 => DaysBeforeMonth(m, year);
    assert f(4) == f(3) + 31 && f(5) == f(4) + 30 && f(6) == f(5) + 31 && f(7) == f(6) + 30;
    assert f(8) == f(7) + 31 && f(9) == f(8) + 31 && f(10) == f(9) + 30 && f(11) == f(10) + 31;
    assert f(12) == f(11) + 30 && f(13) == f(12) + 31;
  }

  lemma YearLength(year: int)
    requires year >= 0
    ensures DaysBeforeYear(year + 1) == DaysBeforeYear(year) + (if IsLeap(year) then 366 else 365)
    ensures DaysBeforeMonth(13, year) == if IsLeap(year) then 366 else 365
  {
    MonthLengths(year);
    Multiples(year, 4);
    Multiples(year, 100);
    Multiples(year, 400);
  }

  lemma Multiples(n: int, k: int)
    requires n >= 0 && k > 1
    ensures n > 0 ==> n / k == (n - 1) / k + (if n % k == 0 then 1 else 0)
  {
    if n > 0 {
      var q, r := (n - 1) / k, (n - 1) % k;
      assert n - 1 == k * q + r;
      if r == k - 1 {
        Quotient(n, k, q + 1, 0);
      } else {
        Quotient(n, k, q, r + 1);
      }
    }
  }

  lemma Quotient(n: int, k: int, q: int, r: int)
    requires k > 0 && n == k * q + r && 0 <= r < k
    ensures n / k == q && n % k == r
  {
    var q', r' := n / k, n % k;
    assert n == k * q' + r';
    if q > q' { TimesGrows(k, q' + 1, q); }
    if q < q' { TimesGrows(k, q + 1, q'); }
  }

  lemma TimesGrows(k: int, a: int, b: int)
    requires k > 0 && a <= b
    ensures k * a <= k * b
    ensures k * a == k * (a - 1) + k
  {
  }

  /** The day number counts days: the next calendar day has the next number. */
  lemma NextDayCounts(d: Date)
    requires Valid(d)
    ensures DayNumber(NextDay(d)) == DayNumber(d) + 1
  {
    if d.day == DaysIn(d.month, d.year) && d.month == 12 {
      YearLength(d.year);
    }
  }

  lemma {:induction false} AddDaysCounts(d: Date, n: nat)
    requires Valid(d)
    ensures DayNumber(AddDays(d, n)) == DayNumber(d) + n
    decreases n
  {
    if n > 0 {
      NextDayCounts(d);
      AddDaysCounts(NextDay(d), n - 1);
    }
  }

  lemma {:induction false} YearsGrow(a: int, b: int)
    requires 0 <= a < b
    ensures DaysBeforeYear(a) + DaysBeforeMonth(13, a) <= DaysBeforeYear(b)
    decreases b - a
  {
    YearLength(a);
    if a + 1 < b {
      YearsGrow(a + 1, b);
      YearLength(a + 1);
    }
  }

  lemma {:induction false} MonthsGrow(a: int, b: int, year: int)
    requires 1 <= a < b <= 13
    ensures DaysBeforeMonth(a, year) + DaysIn(a, year) <= DaysBeforeMonth(b, year)
    decreases b - a
  {
    if a + 1 < b {
      MonthsGrow(a, b - 1, year);
    }
  }

  predicate Before(a: Date, b: Date) {
    if a.year != b.year then a.year < b.year
    else if a.month != b.month then a.month < b.month
    else a.day < b.day
  }

  lemma BeforeInYear(a: Date, b: Date)
    requires Valid(a) && Valid(b) && a.year == b.year && Before(a, b)
    ensures DayNumber(a) < DayNumber(b) && Stamp(a) < Stamp(b)
  {
    if a.month < b.month { MonthsGrow(a.month, b.month, a.year); }
  }

  lemma BeforeByYear(a: Date, b: Date)
    requires Valid(a) && Valid(b) && a.year < b.year
    ensures DayNumber(a) < DayNumber(b) && Stamp(a) < Stamp(b)
  {
    YearsGrow(a.year, b.year);
    MonthsGrow(a.month, 13, a.year);
    if b.month > 1 { MonthsGrow(1, b.month, b.year); }
  }

  lemma BeforeCounts(a: Date, b: Date)
    requires Valid(a) && Valid(b) && Before(a, b)
    ensures DayNumber(a) < DayNumber(b) && Stamp(a) < Stamp(b)
  {
    if a.year == b.year { BeforeInYear(a, b); } else { BeforeByYear(a, b); }
  }

  /** Comparing dates as numbers yyyymmdd is comparing days. */
  lemma StampOrder(a: Date, b: Date)
    requires Valid(a) && Valid(b)
    ensures Stamp(a) < Stamp(b) <==> DayNumber(a) < DayNumber(b)
    ensures Stamp(a) == Stamp(b) <==> a == b
  {
    if Before(a, b) {
      BeforeCounts(a, b);
    } else if Before(b, a) {
      BeforeCounts(b, a);
    } else {
      assert a == b;
    }
  }

  // ---------- build dates and the patch window ----------

  const PATCH_WINDOW_DAYS := 45

  /** A build number read as an eight-digit date. */
  function DateOfBuild(build: int): (d: Option<Date>)
    ensures d.Some? ==> Valid(d.value)
  {
    if build <= 0 || build > 99999999 then None
    else
      var d := Date(build / 10000, build / 100 % 100, build % 100);
      if Valid(d) then Some(d) else None
  }

  function BuildDate(tag: string): (d: Option<Date>)
    ensures d.Some? ==> Valid(d.value)
  {
    match ParseTag(tag)
    case None => None
    case Some(parsed) => DateOfBuild(parsed.build)
  }

  lemma StampDigits(d: Date)
    requires Valid(d)
    ensures Stamp(d) / 10000 == d.year && Stamp(d) / 100 % 100 == d.month && Stamp(d) % 100 == d.day
  {
    Quotient(Stamp(d), 10000, d.year, d.month * 100 + d.day);
    Quotient(Stamp(d), 100, d.year * 100 + d.month, d.day);
    Quotient(d.year * 100 + d.month, 100, d.year, d.month);
  }

  lemma Digits(n: nat)
    ensures n == n / 10000 * 10000 + n / 100 % 100 * 100 + n % 100
  {
    var q, r := n / 100, n % 100;
    var high, low := q / 100, q % 100;
    assert n == 100 * q + r && q == 100 * high + low;
    Quotient(n, 10000, high, low * 100 + r);
  }

  /** A build number is dated exactly when it spells a calendar date. */
  lemma DateOfBuildIs(build: int, d: Date)
    requires Valid(d)
    ensures DateOfBuild(build) == Some(d) <==> build == Stamp(d) && d.year <= 9999
  {
    StampDigits(d);
    if build > 0 {
      Digits(build);
    }
  }

  datatype Reason = TagNotFound | UnparsableTag | NotNewer | MinorVersionChange | OutsidePatchWindow

  datatype Verdict = Allowed | Refused(reason: Reason)

  predicate IsPatchWindowExempt(c: Component) { c.IngressNginx? }

  function ValidatePatchWindow(c: Component, targetTag: string, zeroDay: Date): Verdict
    requires Valid(zeroDay)
  {
    if IsPatchWindowExempt(c) then Allowed
    else
      var targetDate := BuildDate(targetTag);
      if targetDate.None? then Refused(UnparsableTag)
      else if DayNumber(targetDate.value) > DayNumber(AddDays(zeroDay,
        PATCH_WINDOW_DAYS)) then Refused(OutsidePatchWindow)
      else Allowed
  }

  /** Only rke2-ingress-nginx is exempt. The window is 45 calendar days, and the build number alone decides it. */
  lemma WindowIs45Days(c: Component, targetTag: string, zeroDay: Date)
    requires Valid(zeroDay)
    ensures ValidatePatchWindow(c, targetTag, zeroDay) == Allowed <==>
            c == IngressNginx ||
            (BuildDate(targetTag).Some? && DayNumber(BuildDate(targetTag).value) <= DayNumber(zeroDay) + 45)
    ensures ValidatePatchWindow(c, targetTag, zeroDay) == Allowed <==>
            c == IngressNginx ||
            (BuildDate(targetTag).Some? && ParseTag(targetTag).value.build <= Stamp(AddDays(zeroDay, 45)))
    ensures ValidatePatchWindow(c, targetTag, zeroDay) == Refused(UnparsableTag) <==>
            c != IngressNginx && BuildDate(targetTag).None?
  {
    AddDaysCounts(zeroDay, 45);
    if BuildDate(targetTag).Some? {
      DateOfBuildIs(ParseTag(targetTag).value.build, BuildDate(targetTag).value);
      StampOrder(AddDays(zeroDay, 45), BuildDate(targetTag).value);
    }
  }

  // ---------- target checks ----------

  /** The target is newer than the baseline and on its major/minor line. */
  function ValidateAgainstBaseline(baselineTag: string, targetTag: string): Verdict {
    var baseline, target := ParseTag(baselineTag), ParseTag(targetTag);
    if baseline.None? || target.None? then Refused(UnparsableTag)
    else if CompareTags(target.value, baseline.value) <= 0 then Refused(NotNewer)
    else if target.value.major != baseline.value.major ||
      target.value.minor != baseline.value.minor then Refused(MinorVersionChange)
    else Allowed
  }

  predicate OnSameLine(a: Tag, b: Tag) { a.major == b.major && a.minor == b.minor }

  /** What the rule means: the target is ahead of the baseline in the order of tags, on its major/minor line. */
  lemma BaselineRule(baselineTag: string, targetTag: string, b: Tag, t: Tag)
    requires Parser()(baselineTag) == Some(b) && Parser()(targetTag) == Some(t)
    ensures ValidateAgainstBaseline(baselineTag, targetTag) ==
            if !Ahead(t, b) then Refused(NotNewer) else if !OnSameLine(t, b)
              then Refused(MinorVersionChange) else Allowed
  {
    CompareTagsMeans(t, b);
  }

  lemma NothingToCompare(baselineTag: string, targetTag: string)
    ensures ValidateAgainstBaseline(baselineTag, targetTag) == Refused(UnparsableTag) <==>
            Parser()(baselineTag).None? || Parser()(targetTag).None?
  {
  }

  function ValidateExplicitTarget(baselineTag: string, targetTag: string, available: seq<string>): Verdict {
    if targetTag !in available then Refused(TagNotFound) else ValidateAgainstBaseline(baselineTag, targetTag)
  }

  method ValidateExplicitTargetLoop(baselineTag: string, targetTag: string, available: seq<string>) returns (v: Verdict)
    ensures v == ValidateExplicitTarget(baselineTag, targetTag, available)
  {
    var found := false;
    for i := 0 to |available|
      invariant found <==> targetTag in available[..i]
    {
      if available[i] == targetTag {
        found := true;
        break;
      }
    }
    return if found then ValidateAgainstBaseline(baselineTag, targetTag) else Refused(TagNotFound);
  }

  function ValidateNotOlderThanCurrent(currentTag: string, targetTag: string): Verdict {
    var current, target := ParseTag(currentTag), ParseTag(targetTag);
    if current.Some? && target.Some? && CompareTags(target.value, current.value) < 0 then Refused(NotNewer) else Allowed
  }

  predicate IsNewerMinorRelease(current: Tag, target: Tag) {
    if target.major != current.major then target.major > current.major else target.minor > current.minor
  }
}
