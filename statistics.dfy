/** The reporting windows of the statistics: the current and previous
    periods of the revenue comparison, the change percentage, the window of
    the dead-product report and the last seven days. Instants are counted in
    seconds and calendar dates in days. */
module Statistics {
  import opened Common

  const SecondsPerDay: nat := 86400

  /** The length in days of a named period. */
  function PeriodDays(period: string): (d: Option<nat>)
    ensures d.Some? <==> period in {"week", "month", "quarter", "year"}
    ensures period == "week" ==> d == Some(7)
    ensures period == "month" ==> d == Some(30)
    ensures period == "quarter" ==> d == Some(90)
    ensures period == "year" ==> d == Some(365)
  {
    if period == "week" then Some(7)
    else if period == "month" then Some(30)
    else if period == "quarter" then Some(90)
    else if period == "year" then Some(365)
    else None
  }

  /** A window from `start` to `end`, in seconds. */
  datatype Window = Window(start: int, end: int)

  /** Which of the two period names was not recognised. */
  datatype PeriodError = InvalidCurrentPeriod | InvalidPreviousPeriod

  datatype Windows = Windows(current: Window, previous: Window)

  /** The two windows of compare_revenue_periods: the current period ends
      now, and the previous one ends where the current one starts. The
      current period is checked first. */
  function ComparisonWindows(now: int, currentPeriod: string, previousPeriod: string): (r: Result<Windows, PeriodError>)
    ensures r == Err(InvalidCurrentPeriod) <==> PeriodDays(currentPeriod).None?
    ensures r == Err(InvalidPreviousPeriod) <==> PeriodDays(currentPeriod).Some? && PeriodDays(previousPeriod).None?
    ensures r.Ok? ==>
              && r.value.current.end == now
              && r.value.current.end - r.value.current.start == PeriodDays(currentPeriod).value * SecondsPerDay
              && r.value.previous.end == r.value.current.start
              && r.value.previous.end - r.value.previous.start == PeriodDays(previousPeriod).value * SecondsPerDay
  {
    match PeriodDays(currentPeriod)
    case None => Err(InvalidCurrentPeriod)
    case Some(currentDays) =>
      var currentStart := now - currentDays * SecondsPerDay;
      match PeriodDays(previousPeriod)
      case None => Err(InvalidPreviousPeriod)
      case Some(previousDays) =>
        Ok(Windows(Window(currentStart, now), Window(currentStart - previousDays * SecondsPerDay, currentStart)))
  }

  /** The windows lie one after the other: the previous one starts before
      the current one and both are non-empty. */
  lemma WindowsAreConsecutive(now: int, currentPeriod: string, previousPeriod: string)
    requires ComparisonWindows(now, currentPeriod, previousPeriod).Ok?
    ensures var w := ComparisonWindows(now, currentPeriod, previousPeriod).value;
      w.previous.start < w.previous.end == w.current.start < w.current.end == now
  {
  }

  /** The filter the queries apply, `gte` start and `lte` end: both ends are
      inside the window. */
  predicate InClosedWindow(w: Window, t: int)
  {
    w.start <= t <= w.end
  }

  /** An instant that falls exactly on the boundary is counted in both periods. */
  lemma BoundaryCountedTwice(now: int)
    ensures var w := ComparisonWindows(now, "month", "month").value;
      InClosedWindow(w.current, w.current.start) && InClosedWindow(w.previous, w.current.start)
  {
  }

  /** The windows as evidently meant: each one leaves out its own end except
      the current window, which ends now and keeps it. */
  predicate InCurrent(w: Windows, t: int)
  {
    w.current.start <= t <= w.current.end
  }

  predicate InPrevious(w: Windows, t: int)
  {
    w.previous.start <= t < w.previous.end
  }

  /** With the previous window left open at its end, every instant from the
      previous start up to now lies in exactly one of the two windows. */
  lemma PeriodsPartition(now: int, currentPeriod: string, previousPeriod: string, t: int)
    requires ComparisonWindows(now, currentPeriod, previousPeriod).Ok?
    ensures var w := ComparisonWindows(now, currentPeriod, previousPeriod).value;
      && !(InCurrent(w, t) && InPrevious(w, t))
      && (InCurrent(w, t) || InPrevious(w, t) <==> w.previous.start <= t <= now)
  {
  }

  /** An order as the report sums it: when it was placed, and its final amount. */
  datatype Sale = Sale(placedAt: int, amount: int)

  /** The revenue of the sales the test admits; an empty sum is 0, as `or 0` makes it. */
  function Revenue(sales: seq<Sale>, inWindow: int -> bool): int
  {
    if sales == [] then 0
    else (if inWindow(sales[0].placedAt) then sales[0].amount else 0) + Revenue(sales[1..], inWindow)
  }

  function CurrentTest(w: Windows): int -> bool { t => InCurrent(w, t) }

  function PreviousTest(w: Windows): int -> bool { t => InPrevious(w, t) }

  function SpanTest(w: Windows): int -> bool { t => w.previous.start <= t <= w.current.end }

  /** With the corrected windows no sale is counted twice: the two revenues
      add up to the revenue of the whole span. */
  lemma {:induction false} RevenuesAddUp(sales: seq<Sale>, w: Windows)
    requires w.previous.end == w.current.start
    requires w.previous.start <= w.previous.end <= w.current.end
    ensures Revenue(sales, CurrentTest(w)) + Revenue(sales, PreviousTest(w)) == Revenue(sales, SpanTest(w))
  {
    if sales != [] {
      RevenuesAddUp(sales[1..], w);
    }
  }

  /** change_percentage: the relative change in percent when there was
      previous revenue; otherwise 100 for any revenue now, else 0. */
  function ChangePercentage(current: int, previous: int): (p: real)
    ensures previous > 0 ==> (p > 0.0 <==> current > previous) && (p == 0.0 <==> current == previous)
    ensures previous <= 0 ==> p == (if current > 0 then 100.0 else 0.0)
  {
    if previous > 0 then ((current - previous) as real / previous as real) * 100.0
    else if current > 0 then 100.0 else 0.0
  }

  /** Applying the percentage to the previous revenue gives back the current one. */
  lemma ChangePercentageRoundTrip(current: int, previous: int)
    requires previous > 0
    ensures previous as real + previous as real * ChangePercentage(current, previous) / 100.0 == current as real
  {
    var q := (current - previous) as real / previous as real;
    assert q * previous as real == (current - previous) as real;
  }

  /** The start of the dead-product window: the named period before now, or
      30 days for a period it does not know. */
  function DeadProductsStart(now: int, period: string): (start: int)
    ensures PeriodDays(period).None? ==> start == now - 30 * SecondsPerDay
  {
    var periodMap := map[
      "week" := now - 7 * SecondsPerDay,
      "month" := now - 30 * SecondsPerDay,
      "quarter" := now - 90 * SecondsPerDay,
      "year" := now - 365 * SecondsPerDay
    ];
    if period in periodMap then periodMap[period] else now - 30 * SecondsPerDay
  }

  /** For a known period the dead-product window starts where the current
      comparison window starts; an unknown one is read as a month. */
  lemma DeadProductsStartAgrees(now: int, period: string, previousPeriod: string)
    requires PeriodDays(previousPeriod).Some?
    ensures PeriodDays(period).Some? ==>
              DeadProductsStart(now, period) == ComparisonWindows(now, period, previousPeriod).value.current.start
    ensures PeriodDays(period).None? ==>
              DeadProductsStart(now, period) == DeadProductsStart(now, "month")
  {
  }

  /** The dates of get_last_7_days, day numbers from six days before today
      through today. */
  function LastSevenDays(today: int): (r: seq<int>)
    ensures |r| == 7 && r[6] == today
    ensures forall i :: 0 <= i < 7 ==> r[i] == today - 6 + i
    ensures forall d :: d in r <==> today - 6 <= d <= today
  {
    var start := today - 6;
    var r := DaysFrom(start, 7);
    forall d | today - 6 <= d <= today
      ensures d in r
    {
      assert r[d - start] == d;
    }
    r
  }

  /** `count` consecutive days starting at `start`. */
  function DaysFrom(start: int, count: nat): (r: seq<int>)
    ensures |r| == count
    ensures forall i :: 0 <= i < count ==> r[i] == start + i
    decreases count
  {
    if count == 0 then [] else [start] + DaysFrom(start + 1, count - 1)
  }
}
