// Chart series over validation history (src/eve/web/series.py): calendar buckets, the
// windows they form, and the totals they hold.

module Series {
  import opened Common
  import opened Calendar

  /** Any grain that is neither monthly nor weekly is drawn daily. */
  datatype Grain = Monthly | Weekly | Daily

  function MonthFloor(d: Date): Date {
    d.(day := 1)
  }

  function AddMonths(d: Date, n: int): Date {
    var m := d.month - 1 + n;
    Date(d.year + m / 12, m % 12 + 1, 1)
  }

  // ---------------------------------------------------------------- periods

  // Every grain cuts the calendar into numbered periods: months, weeks that start on a
  // Monday, or single days. This is the specification the buckets are proved against.

  function PeriodOf(g: Grain, d: Date): int {
    match g
    case Monthly => MonthIndex(d)
    case Weekly => (Ordinal(d) - 1) / 7
    case Daily => Ordinal(d)
  }

  /** Day number of the first day of period `p`. */
  function FirstDay(g: Grain, p: int): int {
    match g
    case Monthly => Ordinal(MonthAt(p))
    case Weekly => 7 * p + 1
    case Daily => p
  }

  lemma DayInItsPeriod(g: Grain, d: Date)
    requires ValidDate(d)
    ensures FirstDay(g, PeriodOf(g, d)) <= Ordinal(d) < FirstDay(g, PeriodOf(g, d) + 1)
  {
    hide Ordinal, MonthAt, MonthIndex;
    DayWithinMonth(d);
  }

  lemma PeriodsGrow(g: Grain, p: int, q: int)
    requires p < q
    ensures FirstDay(g, p) < FirstDay(g, q)
  {
    hide Ordinal, MonthAt;
    MonthsGrow(p, q);
  }

  /** A day lies in one period only. */
  lemma OnlyPeriod(g: Grain, d: Date, p: int)
    requires ValidDate(d) && FirstDay(g, p) <= Ordinal(d) < FirstDay(g, p + 1)
    ensures p == PeriodOf(g, d)
  {
    hide *;
    DayInItsPeriod(g, d);
    var q := PeriodOf(g, d);
    if p + 1 < q {
      PeriodsGrow(g, p + 1, q);
    } else if q + 1 < p {
      PeriodsGrow(g, q + 1, p);
    }
  }

  /** The periods are the calendar's: a month holds exactly the dates of its year and month, a
      week seven days from Monday to Sunday, a day itself. */
  lemma PeriodsAreCalendar(d: Date, e: Date)
    requires ValidDate(d) && ValidDate(e)
    ensures PeriodOf(Monthly, d) == PeriodOf(Monthly, e) <==> d.year == e.year && d.month == e.month
    ensures PeriodOf(Weekly, d) == PeriodOf(Weekly, e) <==> Ordinal(d) - Weekday(d) == Ordinal(e) - Weekday(e)
    ensures PeriodOf(Daily, d) == PeriodOf(Daily, e) <==> d == e
  {
    hide Ordinal;
    OrderIsOrdinal(d, e);
  }

  lemma MonthsAdd(d: Date, n: int)
    ensures AddMonths(d, n) == MonthAt(MonthIndex(d) + n)
    ensures MonthIndex(AddMonths(d, n)) == MonthIndex(d) + n && ValidDate(AddMonths(d, n))
  {
  }

  // ---------------------------------------------------------------- bucket bounds

  /** First and last day of a bucket, both inclusive. */
  datatype Bounds = Bounds(start: Date, end: Date)

  ghost predicate Covers(b: Bounds, g: Grain, p: int) {
    ValidDate(b.start) && ValidDate(b.end) &&
    Ordinal(b.start) == FirstDay(g, p) && Ordinal(b.end) == FirstDay(g, p + 1) - 1
  }

  method MonthlyBounds(count: int, today: Date) returns (out: seq<Bounds>)
    requires ValidDate(today)
    ensures |out| == Max(count, 0)
    ensures forall i :: 0 <= i < |out| ==> Covers(out[i], Monthly, PeriodOf(Monthly, today) - (count - 1) + i)
  {
    hide Ordinal, MonthAt, AddMonths, MonthIndex, ValidDate;
    out := [];
    MonthFloorIndex(today);
    MonthsAdd(MonthFloor(today), -(count - 1));
    var first := AddMonths(MonthFloor(today), -(count - 1));
    var i := 0;
    while i < count
      invariant 0 <= i <= Max(count, 0) && |out| == i
      invariant forall k :: 0 <= k < i ==> Covers(out[k], Monthly, PeriodOf(Monthly, today) - (count - 1) + k)
    {
      MonthsAdd(first, i);
      var start := AddMonths(first, i);
      MonthsAdd(start, 1);
      var end := AddDays(AddMonths(start, 1), -1);
      out := out + [Bounds(start, end)];
      i := i + 1;
    }
  }

  lemma MonthFloorIndex(d: Date)
    ensures MonthIndex(MonthFloor(d)) == MonthIndex(d)
  {
  }

  method WeeklyBounds(count: int, today: Date) returns (out: seq<Bounds>)
    requires ValidDate(today)
    ensures |out| == Max(count, 0)
    ensures forall i :: 0 <= i < |out| ==> Covers(out[i], Weekly, PeriodOf(Weekly, today) - (count - 1) + i)
    ensures forall i :: 0 <= i < |out| ==> Weekday(out[i].start) == 0 && Weekday(out[i].end) == 6
  {
    hide Ordinal, ValidDate;
    out := [];
    var thisWeek := AddDays(today, -Weekday(today));
    var i := 0;
    while i < count
      invariant 0 <= i <= Max(count, 0) && |out| == i
      invariant forall k :: 0 <= k < i ==> Covers(out[k], Weekly, PeriodOf(Weekly, today) - (count - 1) + k)
      invariant forall k :: 0 <= k < i ==> Weekday(out[k].start) == 0 && Weekday(out[k].end) == 6
    {
      var start := AddDays(thisWeek, -7 * (count - 1 - i));
      out := out + [Bounds(start, AddDays(start, 6))];
      i := i + 1;
    }
  }

  /** The `count` most recent buckets, oldest first: consecutive periods ending with today's. */
  method BucketBounds(g: Grain, count: int, today: Date) returns (out: seq<Bounds>)
    requires ValidDate(today)
    ensures |out| == Max(count, 0)
    ensures forall i :: 0 <= i < |out| ==> Covers(out[i], g, PeriodOf(g, today) - (count - 1) + i)
    ensures g.Weekly? ==> forall i :: 0 <= i < |out| ==> Weekday(out[i].start) == 0 && Weekday(out[i].end) == 6
  {
    hide Ordinal, ValidDate, Weekday;
    if g.Monthly? {
      out := MonthlyBounds(count, today);
    } else if g.Weekly? {
      out := WeeklyBounds(count, today);
    } else {
      out := [];
      var i := 0;
      while i < count
        invariant 0 <= i <= Max(count, 0) && |out| == i
        invariant forall k :: 0 <= k < i ==> Covers(out[k], g, PeriodOf(g, today) - (count - 1) + k)
      {
        var day := AddDays(today, -(count - 1 - i));
        out := out + [Bounds(day, day)];
        i := i + 1;
      }
    }
  }

  // ---------------------------------------------------------------- daily counts

  const VERDICTS := {"deliverable", "risky", "unknown", "undeliverable"}

  /** Counts by verdict, in the order the dictionary holds them. */
  type Totals = seq<(string, int)>

  datatype Day = Day(date: Date, totals: Totals)

  ghost predicate AllValid(days: seq<Day>) {
    forall i :: 0 <= i < |days| ==> ValidDate(days[i].date)
  }

  function CountOf(totals: Totals, k: string): int {
    if totals == [] then 0
    else
      var n := |totals| - 1;
      CountOf(totals[..n], k) + if totals[n].0 == k then totals[n].1 else 0
  }

  /** All counts of verdict `k` on days numbered `lo` to `hi`. */
  function SumBetween(days: seq<Day>, k: string, lo: int, hi: int): int {
    if days == [] then 0
    else
      var n := |days| - 1;
      SumBetween(days[..n], k, lo, hi) +
      if lo <= Ordinal(days[n].date) <= hi then CountOf(days[n].totals, k) else 0
  }

  /** Dictionary assignment: a date already present keeps its place and takes the new counts. */
  function Assign(days: seq<Day>, d: Day): seq<Day> {
    if days == [] then [d]
    else
      var n := |days| - 1;
      if days[n].date == d.date then days[..n] + [d] else Assign(days[..n], d) + [days[n]]
  }

  type History = seq<(string, Totals)>

  function Parsed(byDay: History, parse: string -> Option<Date>): seq<Day> {
    if byDay == [] then []
    else
      var n := |byDay| - 1;
      var before := Parsed(byDay[..n], parse);
      match parse(byDay[n].0)
      case None => before
      case Some(d) => Assign(before, Day(d, byDay[n].1))
  }

  ghost predicate ParsesToDates(parse: string -> Option<Date>) {
    forall s :: parse(s).Some? ==> ValidDate(parse(s).value)
  }

  lemma {:induction false} AssignKeepsValid(days: seq<Day>, d: Day)
    requires AllValid(days) && ValidDate(d.date)
    ensures AllValid(Assign(days, d))
  {
    hide ValidDate;
    if days != [] {
      AssignKeepsValid(days[..|days| - 1], d);
    }
  }

  lemma {:induction false} ParsedIsValid(byDay: History, parse: string -> Option<Date>)
    requires ParsesToDates(parse)
    ensures AllValid(Parsed(byDay, parse))
  {
    hide ValidDate, Assign;
    if byDay != [] {
      var n := |byDay| - 1;
      ParsedIsValid(byDay[..n], parse);
      if parse(byDay[n].0).Some? {
        AssignKeepsValid(Parsed(byDay[..n], parse), Day(parse(byDay[n].0).value, byDay[n].1));
      }
    }
  }

  // ---------------------------------------------------------------- building a series

  datatype Bucket = Bucket(bounds: Bounds, totals: map<string, int>)

  /** The bucket counts, for every verdict, exactly the days of period `p`. */
  ghost predicate Counts(b: Bucket, days: seq<Day>, g: Grain, p: int) {
    Covers(b.bounds, g, p) && b.totals.Keys == VERDICTS &&
    forall k :: k in VERDICTS ==> b.totals[k] == SumBetween(days, k, FirstDay(g, p), FirstDay(g, p + 1) - 1)
  }

  /** Consecutive buckets, the newest one being period `last`. */
  ghost predicate IsWindow(buckets: seq<Bucket>, days: seq<Day>, g: Grain, last: int) {
    forall i :: 0 <= i < |buckets| ==> Counts(buckets[i], days, g, last - (|buckets| - 1) + i)
  }

  /** Adds one day's counts, ignoring names that are not verdicts. */
  method AddTotals(acc: map<string, int>, totals: Totals) returns (r: map<string, int>)
    ensures r.Keys == acc.Keys
    ensures forall k :: k in acc ==> r[k] == acc[k] + CountOf(totals, k)
  {
    r := acc;
    var i := 0;
    while i < |totals|
      invariant i <= |totals| && r.Keys == acc.Keys
      invariant forall k :: k in acc ==> r[k] == acc[k] + CountOf(totals[..i], k)
    {
      assert totals[..i + 1][..i] == totals[..i];
      var (k, n) := totals[i];
      if k in r {
        r := r[k := r[k] + n];
      }
      i := i + 1;
    }
    assert totals[..i] == totals;
  }

  method Accumulate(days: seq<Day>, b: Bounds) returns (acc: map<string, int>)
    requires AllValid(days) && ValidDate(b.start) && ValidDate(b.end)
    ensures acc.Keys == VERDICTS
    ensures forall k :: k in VERDICTS ==> acc[k] == SumBetween(days, k, Ordinal(b.start), Ordinal(b.end))
  {
    hide Ordinal, ValidDate, NotAfter, CountOf;
    acc := map k | k in VERDICTS :: 0;
    var i := 0;
    while i < |days|
      invariant i <= |days| && acc.Keys == VERDICTS
      invariant forall k :: k in VERDICTS ==> acc[k] == SumBetween(days[..i], k, Ordinal(b.start), Ordinal(b.end))
    {
      assert days[..i + 1][..i] == days[..i];
      OrderIsOrdinal(b.start, days[i].date);
      OrderIsOrdinal(days[i].date, b.end);
      if NotAfter(b.start, days[i].date) && NotAfter(days[i].date, b.end) {
        acc := AddTotals(acc, days[i].totals);
      }
      i := i + 1;
    }
    assert days[..i] == days;
  }

  /** Moves `today` back by a whole number of windows. */
  method ShiftBack(g: Grain, count: int, today: Date, offset: int) returns (shifted: Date)
    requires ValidDate(today)
    ensures ValidDate(shifted) && PeriodOf(g, shifted) == PeriodOf(g, today) - count * offset
  {
    hide Ordinal, MonthAt, AddMonths, MonthIndex, ValidDate;
    shifted := today;
    var back := count * offset;
    if offset != 0 {
      if g.Monthly? {
        MonthFloorIndex(today);
        MonthsAdd(MonthFloor(today), -back);
        shifted := AddMonths(MonthFloor(today), -back);
      } else if g.Weekly? {
        shifted := AddDays(today, -7 * back);
      } else {
        shifted := AddDays(today, -back);
      }
    }
  }

  method Build(byDay: History, parse: string -> Option<Date>, g: Grain, count: int, today: Date, offset: int)
    returns (buckets: seq<Bucket>)
    requires ValidDate(today) && ParsesToDates(parse)
    ensures |buckets| == Max(count, 0)
    ensures IsWindow(buckets, Parsed(byDay, parse), g, PeriodOf(g, today) - count * offset)
  {
    hide Ordinal, ValidDate, FirstDay, PeriodOf, SumBetween, Assign;
    var shifted := ShiftBack(g, count, today, offset);
    var parsed: seq<Day> := [];
    var n := 0;
    while n < |byDay|
      invariant n <= |byDay| && parsed == Parsed(byDay[..n], parse)
    {
      assert byDay[..n + 1][..n] == byDay[..n];
      var day := parse(byDay[n].0);
      if day.Some? {
        parsed := Assign(parsed, Day(day.value, byDay[n].1));
      }
      n := n + 1;
    }
    assert byDay[..n] == byDay;
    ParsedIsValid(byDay, parse);
    var bounds := BucketBounds(g, count, shifted);
    buckets := [];
    var i := 0;
    while i < |bounds|
      invariant i <= |bounds| && |buckets| == i
      invariant forall k :: 0 <= k < i ==> Counts(buckets[k], parsed, g, PeriodOf(g, shifted) - (count - 1) + k)
    {
      var acc := Accumulate(parsed, bounds[i]);
      buckets := buckets + [Bucket(bounds[i], acc)];
      i := i + 1;
    }
  }

  // ---------------------------------------------------------------- windows tile the calendar

  /** Inside a window every bucket is non-empty and starts the day after the previous one ends. */
  lemma BucketsAreContiguous(buckets: seq<Bucket>, days: seq<Day>, g: Grain, last: int, i: nat)
    requires IsWindow(buckets, days, g, last) && i < |buckets|
    ensures NotAfter(buckets[i].bounds.start, buckets[i].bounds.end)
    ensures i + 1 < |buckets| ==> AddDays(buckets[i].bounds.end, 1) == buckets[i + 1].bounds.start
  {
    hide Ordinal, ValidDate, NotAfter, FirstDay, SumBetween, AddDays;
    var b := buckets[i].bounds;
    var p := last - (|buckets| - 1) + i;
    assert Counts(buckets[i], days, g, p);
    PeriodsGrow(g, p, p + 1);
    OrderIsOrdinal(b.start, b.end);
    if i + 1 < |buckets| {
      assert Counts(buckets[i + 1], days, g, p + 1);
      OrderIsOrdinal(AddDays(b.end, 1), buckets[i + 1].bounds.start);
    }
  }

  /** A window one period further back ends the day before the newer window starts. */
  lemma WindowsAreContiguous(older: seq<Bucket>, newer: seq<Bucket>, days: seq<Day>, g: Grain, last: int)
    requires |older| == |newer| > 0
    requires IsWindow(older, days, g, last - |newer|) && IsWindow(newer, days, g, last)
    ensures AddDays(older[|older| - 1].bounds.end, 1) == newer[0].bounds.start
  {
    hide Ordinal, ValidDate, FirstDay, SumBetween, AddDays;
    var end := older[|older| - 1].bounds.end;
    assert Counts(older[|older| - 1], days, g, last - |newer|);
    assert Counts(newer[0], days, g, last - (|newer| - 1));
    OrderIsOrdinal(AddDays(end, 1), newer[0].bounds.start);
  }

  /** `d` lies in bucket `i` of the window `w` windows back from today. */
  ghost predicate Holds(g: Grain, count: int, today: Date, w: int, i: int, d: Date) {
    var p := PeriodOf(g, today) - count * w - (count - 1) + i;
    FirstDay(g, p) <= Ordinal(d) < FirstDay(g, p + 1)
  }

  /** Each day lies in exactly one bucket of exactly one window, and the windows at offsets
      0, 1, 2, ... take every day up to the end of the current period. */
  lemma EveryDayInOneBucket(g: Grain, count: int, today: Date, d: Date) returns (w: int, i: int)
    requires count >= 1 && ValidDate(today) && ValidDate(d)
    ensures 0 <= i < count && Holds(g, count, today, w, i, d)
    ensures forall v, j :: 0 <= j < count && Holds(g, count, today, v, j, d) ==> v == w && j == i
    ensures w >= 0 <==> Ordinal(d) < FirstDay(g, PeriodOf(g, today) + 1)
  {
    hide Ordinal, ValidDate, FirstDay, PeriodOf;
    var back := PeriodOf(g, today) - PeriodOf(g, d);
    w, i := back / count, count - 1 - back % count;
    DayInItsPeriod(g, d);
    assert back == count * w + back % count;
    forall v, j | 0 <= j < count && Holds(g, count, today, v, j, d)
      ensures v == w && j == i
    {
      OnlyPeriod(g, d, PeriodOf(g, today) - count * v - (count - 1) + j);
      QuotientIsUnique(count, v, count - 1 - j, w, count - 1 - i);
    }
    QuotientSign(back, count);
    if back < 0 {
      if PeriodOf(g, today) + 1 < PeriodOf(g, d) {
        PeriodsGrow(g, PeriodOf(g, today) + 1, PeriodOf(g, d));
      }
    } else if back > 0 {
      PeriodsGrow(g, PeriodOf(g, d) + 1, PeriodOf(g, today) + 1);
    }
  }

  /** The day lies between the bucket's first and last day. */
  predicate Within(b: Bucket, d: Date) {
    NotAfter(b.bounds.start, d) && NotAfter(d, b.bounds.end)
  }

  /** `built(w)` is what building the series at offset `w` returns. */
  ghost predicate BuiltAtEachOffset(built: int -> seq<Bucket>, days: seq<Day>, g: Grain, count: int, today: Date) {
    forall w :: |built(w)| == count && IsWindow(built(w), days, g, PeriodOf(g, today) - count * w)
  }

  lemma WithinIsHolds(b: Bucket, days: seq<Day>, g: Grain, count: int, today: Date, w: int, i: int, d: Date)
    requires ValidDate(d) && Counts(b, days, g, PeriodOf(g, today) - count * w - (count - 1) + i)
    ensures Within(b, d) <==> Holds(g, count, today, w, i, d)
  {
    hide Ordinal, ValidDate, NotAfter, FirstDay, PeriodOf, SumBetween;
    OrderIsOrdinal(b.bounds.start, d);
    OrderIsOrdinal(d, b.bounds.end);
  }

  /** Over the buckets built at all offsets, each day lies in exactly one bucket of one window;
      the offsets 0, 1, 2, ... take exactly the days up to the end of the newest bucket. */
  lemma DayInOneBuiltBucket(built: int -> seq<Bucket>, days: seq<Day>, g: Grain, count: int, today: Date, d: Date)
    returns (w: int, i: int)
    requires count >= 1 && ValidDate(today) && ValidDate(d) && BuiltAtEachOffset(built, days, g, count, today)
    ensures |built(w)| == count && 0 <= i < count && Within(built(w)[i], d)
    ensures forall v, j :: 0 <= j < |built(v)| && Within(built(v)[j], d) ==> v == w && j == i
    ensures |built(0)| == count && (w >= 0 <==> NotAfter(d, built(0)[count - 1].bounds.end))
  {
    hide Ordinal, ValidDate, NotAfter, FirstDay, PeriodOf, SumBetween, Holds, Counts, Within;
    w, i := EveryDayInOneBucket(g, count, today, d);
    CountsAt(built, days, g, count, today, w, i);
    WithinIsHolds(built(w)[i], days, g, count, today, w, i, d);
    forall v, j | 0 <= j < |built(v)| && Within(built(v)[j], d)
      ensures v == w && j == i
    {
      CountsAt(built, days, g, count, today, v, j);
      WithinIsHolds(built(v)[j], days, g, count, today, v, j, d);
    }
    CountsAt(built, days, g, count, today, 0, count - 1);
    UpToLastDay(built(0)[count - 1], days, g, PeriodOf(g, today), d);
  }

  lemma CountsAt(built: int -> seq<Bucket>, days: seq<Day>, g: Grain, count: int, today: Date, w: int, i: int)
    requires BuiltAtEachOffset(built, days, g, count, today) && 0 <= i < count
    ensures |built(w)| == count && Counts(built(w)[i], days, g, PeriodOf(g, today) - count * w - (count - 1) + i)
    ensures w == 0 && i == count - 1 ==> Counts(built(w)[i], days, g, PeriodOf(g, today))
  {
    hide Counts, PeriodOf;
  }

  lemma UpToLastDay(b: Bucket, days: seq<Day>, g: Grain, p: int, d: Date)
    requires ValidDate(d) && Counts(b, days, g, p)
    ensures NotAfter(d, b.bounds.end) <==> Ordinal(d) < FirstDay(g, p + 1)
  {
    hide Ordinal, ValidDate, NotAfter, FirstDay, SumBetween;
    OrderIsOrdinal(d, b.bounds.end);
  }

  lemma ProductAtLeast(m: int, k: int)
    requires m >= 0 && k >= 1
    ensures m * k >= m
  {
  }

  lemma QuotientIsUnique(m: int, q: int, r: int, q': int, r': int)
    requires m * q + r == m * q' + r' && 0 <= r < m && 0 <= r' < m
    ensures q == q' && r == r'
  {
    assert m * (q' - q) == r - r' && m * (q - q') == r' - r;
    if q < q' {
      ProductAtLeast(m, q' - q);
    } else if q' < q {
      ProductAtLeast(m, q - q');
    }
  }

  lemma QuotientSign(x: int, m: int)
    requires m >= 1
    ensures x / m >= 0 <==> x >= 0
  {
  }

  // ---------------------------------------------------------------- totals are conserved

  lemma {:induction false} SumSplits(days: seq<Day>, k: string, lo: int, mid: int, hi: int)
    requires lo <= mid <= hi + 1
    ensures SumBetween(days, k, lo, hi) == SumBetween(days, k, lo, mid - 1) + SumBetween(days, k, mid, hi)
  {
    hide Ordinal, CountOf;
    if days != [] {
      SumSplits(days[..|days| - 1], k, lo, mid, hi);
    }
  }

  lemma {:induction false} EmptyRangeSumsToZero(days: seq<Day>, k: string, lo: int, hi: int)
    requires hi < lo
    ensures SumBetween(days, k, lo, hi) == 0
  {
    hide Ordinal, CountOf;
    if days != [] {
      EmptyRangeSumsToZero(days[..|days| - 1], k, lo, hi);
    }
  }

  function WindowTotal(buckets: seq<Bucket>, k: string): int
    requires forall i :: 0 <= i < |buckets| ==> k in buckets[i].totals
  {
    if buckets == [] then 0
    else
      var n := |buckets| - 1;
      WindowTotal(buckets[..n], k) + buckets[n].totals[k]
  }

  /** A window's counts of a verdict add up to the counts of its whole date range. */
  lemma {:induction false} WindowTotalIsRangeTotal(buckets: seq<Bucket>, days: seq<Day>, g: Grain, last: int, k: string)
    requires IsWindow(buckets, days, g, last) && k in VERDICTS
    ensures forall i :: 0 <= i < |buckets| ==> k in buckets[i].totals
    ensures WindowTotal(buckets, k) ==
            SumBetween(days, k, FirstDay(g, last - |buckets| + 1), FirstDay(g, last + 1) - 1)
    decreases |buckets|
  {
    hide Ordinal, ValidDate, FirstDay, SumBetween;
    if buckets == [] {
      EmptyRangeSumsToZero(days, k, FirstDay(g, last + 1), FirstDay(g, last + 1) - 1);
    } else {
      var n := |buckets| - 1;
      var earlier := buckets[..n];
      assert Counts(buckets[n], days, g, last);
      forall i | 0 <= i < n
        ensures Counts(earlier[i], days, g, last - 1 - (n - 1) + i)
      {
        assert Counts(buckets[i], days, g, last - (|buckets| - 1) + i);
      }
      WindowTotalIsRangeTotal(earlier, days, g, last - 1, k);
      PeriodsGrow(g, last, last + 1);
      if n > 0 {
        PeriodsGrow(g, last - n, last);
      }
      SumSplits(days, k, FirstDay(g, last - n), FirstDay(g, last), FirstDay(g, last + 1) - 1);
    }
  }

  // ---------------------------------------------------------------- keys that name one day twice

  /** All counts of `k` in the raw history, day by day. */
  function RawSum(byDay: History, parse: string -> Option<Date>, k: string, lo: int, hi: int): int {
    if byDay == [] then 0
    else
      var n := |byDay| - 1;
      RawSum(byDay[..n], parse, k, lo, hi) +
      match parse(byDay[n].0)
      case None => 0
      case Some(d) => if lo <= Ordinal(d) <= hi then CountOf(byDay[n].1, k) else 0
  }

  ghost predicate NamesDaysOnce(keys: seq<string>, parse: string -> Option<Date>) {
    forall i, j :: 0 <= i < j < |keys| && parse(keys[i]).Some? ==> parse(keys[i]) != parse(keys[j])
  }

  function KeysOf(byDay: History): seq<string> {
    seq(|byDay|, i requires 0 <= i < |byDay| => byDay[i].0)
  }

  ghost predicate Mentions(days: seq<Day>, d: Date) {
    exists i :: 0 <= i < |days| && days[i].date == d
  }

  lemma {:induction false} AssignNewDay(days: seq<Day>, d: Day, k: string, lo: int, hi: int)
    requires !Mentions(days, d.date)
    ensures SumBetween(Assign(days, d), k, lo, hi) ==
            SumBetween(days, k, lo, hi) + if lo <= Ordinal(d.date) <= hi then CountOf(d.totals, k) else 0
  {
    hide Ordinal, CountOf;
    if days != [] {
      var n := |days| - 1;
      assert days[n].date != d.date;
      AssignNewDay(days[..n], d, k, lo, hi);
      assert Assign(days, d)[..|Assign(days, d)| - 1] == Assign(days[..n], d);
    } else {
      assert [d][..0] == [];
    }
  }

  lemma {:induction false} AssignMentions(days: seq<Day>, d: Day, e: Date)
    ensures Mentions(Assign(days, d), e) ==> Mentions(days, e) || e == d.date
  {
    if days != [] && days[|days| - 1].date != d.date {
      var n := |days| - 1;
      AssignMentions(days[..n], d, e);
      if Mentions(Assign(days, d), e) && days[n].date != e {
        var all := Assign(days, d);
        var i :| 0 <= i < |all| && all[i].date == e;
        assert Assign(days[..n], d)[i].date == e;
      }
    }
  }

  lemma {:induction false} ParsedMentions(byDay: History, parse: string -> Option<Date>, e: Date)
    ensures Mentions(Parsed(byDay, parse), e) ==> exists i :: 0 <= i < |byDay| && parse(byDay[i].0) == Some(e)
  {
    hide Assign;
    if byDay != [] {
      var n := |byDay| - 1;
      if parse(byDay[n].0) != Some(e) {
        if parse(byDay[n].0).Some? {
          AssignMentions(Parsed(byDay[..n], parse), Day(parse(byDay[n].0).value, byDay[n].1), e);
        }
        ParsedMentions(byDay[..n], parse, e);
        assert forall i :: 0 <= i < n ==> byDay[i] == byDay[..n][i];
      }
    }
  }

  lemma {:induction false} NothingLost(byDay: History, parse: string -> Option<Date>, k: string, lo: int, hi: int)
    requires NamesDaysOnce(KeysOf(byDay), parse)
    ensures SumBetween(Parsed(byDay, parse), k, lo, hi) == RawSum(byDay, parse, k, lo, hi)
  {
    hide Ordinal, CountOf, Assign, SumBetween, Mentions;
    if byDay == [] {
      EmptySum(k, lo, hi);
    } else {
      var n := |byDay| - 1;
      assert KeysOf(byDay[..n]) == KeysOf(byDay)[..n];
      NothingLost(byDay[..n], parse, k, lo, hi);
      if parse(byDay[n].0).Some? {
        var d := parse(byDay[n].0).value;
        forall i | 0 <= i < n
          ensures parse(byDay[..n][i].0) != Some(d)
        {
          assert KeysOf(byDay)[i] == byDay[i].0 && KeysOf(byDay)[n] == byDay[n].0;
        }
        ParsedMentions(byDay[..n], parse, d);
        AssignNewDay(Parsed(byDay[..n], parse), Day(d, byDay[n].1), k, lo, hi);
      }
    }
  }

  lemma EmptySum(k: string, lo: int, hi: int)
    ensures SumBetween([], k, lo, hi) == 0
  {
  }

  ghost predicate DistinctDates(days: seq<Day>) {
    forall i, j :: 0 <= i < j < |days| ==> days[i].date != days[j].date
  }

  lemma {:induction false} AssignReplaces(days: seq<Day>, d: Day, e: Day)
    requires DistinctDates(days) && e in Assign(days, d)
    ensures e == d || (e in days && e.date != d.date)
  {
    if days != [] {
      var n := |days| - 1;
      if days[n].date != d.date && e != days[n] {
        AssignReplaces(days[..n], d, e);
      }
    }
  }

  lemma {:induction false} AssignKeepsDistinct(days: seq<Day>, d: Day)
    requires DistinctDates(days)
    ensures DistinctDates(Assign(days, d))
  {
    if days != [] {
      var n := |days| - 1;
      if days[n].date != d.date {
        AssignKeepsDistinct(days[..n], d);
        forall i | 0 <= i < |Assign(days[..n], d)|
          ensures Assign(days[..n], d)[i].date != days[n].date
        {
          AssignReplaces(days[..n], d, Assign(days[..n], d)[i]);
        }
      }
    }
  }

  // A history whose only counts stand under key `i`.
  function OnlyAt(keys: seq<string>, i: nat): History {
    seq(|keys|, m requires 0 <= m < |keys| => (keys[m], if m == i then [("risky", 1)] else []))
  }

  lemma {:induction false} LaterKeyOverwrites(keys: seq<string>, parse: string -> Option<Date>, i: nat, j: nat, n: nat)
    requires i < j < |keys| && n <= |keys|
    requires parse(keys[i]).Some? && parse(keys[i]) == parse(keys[j])
    ensures var days := Parsed(OnlyAt(keys, i)[..n], parse);
            DistinctDates(days) &&
            forall e :: e in days && e.totals != [] ==> i < n <= j && Some(e.date) == parse(keys[i])
  {
    hide Assign;
    if n > 0 {
      LaterKeyOverwrites(keys, parse, i, j, n - 1);
      var all := OnlyAt(keys, i);
      assert all[..n][..n - 1] == all[..n - 1];
      if parse(keys[n - 1]).Some? {
        var days, d := Parsed(all[..n - 1], parse), Day(parse(keys[n - 1]).value, all[n - 1].1);
        AssignKeepsDistinct(days, d);
        forall e | e in Assign(days, d) && e.totals != []
          ensures i < n <= j && Some(e.date) == parse(keys[i])
        {
          AssignReplaces(days, d, e);
        }
      }
    }
  }

  lemma {:induction false} NoCountsNoSum(days: seq<Day>, k: string, lo: int, hi: int)
    requires forall e :: e in days ==> e.totals == []
    ensures SumBetween(days, k, lo, hi) == 0
  {
    hide Ordinal;
    if days != [] {
      NoCountsNoSum(days[..|days| - 1], k, lo, hi);
    }
  }

  lemma {:induction false} RawSumOfOne(keys: seq<string>, parse: string -> Option<Date>, i: nat, n: nat)
    requires i < |keys| && n <= |keys| && parse(keys[i]).Some?
    ensures var o := Ordinal(parse(keys[i]).value);
            RawSum(OnlyAt(keys, i)[..n], parse, "risky", o, o) == if i < n then 1 else 0
  {
    hide Ordinal;
    if n > 0 {
      RawSumOfOne(keys, parse, i, n - 1);
      var all := OnlyAt(keys, i);
      assert all[..n][..n - 1] == all[..n - 1];
      OneCount();
    }
  }

  lemma OneCount()
    ensures CountOf([("risky", 1)], "risky") == 1 && CountOf([], "risky") == 0
  {
    assert [("risky", 1)][..0] == [];
  }

  /** The series counts the whole history, over every date range and whatever the counts are,
      exactly when no two keys of the history name the same day. */
  lemma NothingLostExactlyWhenNamedOnce(keys: seq<string>, parse: string -> Option<Date>)
    ensures NamesDaysOnce(keys, parse) <==>
            forall byDay: History, k, lo, hi :: KeysOf(byDay) == keys ==>
              SumBetween(Parsed(byDay, parse), k, lo, hi) == RawSum(byDay, parse, k, lo, hi)
  {
    hide Ordinal, CountOf, Assign, SumBetween, RawSum, Parsed;
    if NamesDaysOnce(keys, parse) {
      forall byDay: History, k, lo, hi | KeysOf(byDay) == keys
        ensures SumBetween(Parsed(byDay, parse), k, lo, hi) == RawSum(byDay, parse, k, lo, hi)
      {
        NothingLost(byDay, parse, k, lo, hi);
      }
    } else {
      var i, j :| 0 <= i < j < |keys| && parse(keys[i]).Some? && parse(keys[i]) == parse(keys[j]);
      var byDay, o := OnlyAt(keys, i), Ordinal(parse(keys[i]).value);
      assert byDay[..|keys|] == byDay && KeysOf(byDay) == keys;
      LaterKeyOverwrites(keys, parse, i, j, |keys|);
      NoCountsNoSum(Parsed(byDay, parse), "risky", o, o);
      RawSumOfOne(keys, parse, i, |keys|);
      assert SumBetween(Parsed(byDay, parse), "risky", o, o) != RawSum(byDay, parse, "risky", o, o);
    }
  }

  /** The loss at one pair of spellings, both of which Python's date parser accepts. */
  lemma TwoSpellingsLoseCounts(parse: string -> Option<Date>)
    requires parse("2026-07-24") == parse("20260724") == Some(Date(2026, 7, 24))
    ensures var byDay: History := [("2026-07-24", [("risky", 2)]), ("20260724", [("risky", 3)])];
            var o := Ordinal(Date(2026, 7, 24));
            RawSum(byDay, parse, "risky", o, o) == 5 && SumBetween(Parsed(byDay, parse), "risky", o, o) == 3
  {
    hide Ordinal;
    var one: History := [("2026-07-24", [("risky", 2)])];
    var byDay: History := one + [("20260724", [("risky", 3)])];
    var d := Date(2026, 7, 24);
    assert byDay[..1] == one && one[..0] == [];
    assert [("risky", 2)][..0] == [] && [("risky", 3)][..0] == [];
    assert Parsed(one, parse) == [Day(d, [("risky", 2)])];
    assert Parsed(byDay, parse) == Assign(Parsed(one, parse), Day(d, [("risky", 3)])) == [Day(d, [("risky", 3)])];
    assert [Day(d, [("risky", 3)])][..0] == [];
  }

  /** Keys that are all written by one formatter name a day once: the history the application
      builds never loses a count. */
  lemma OneSpellingIsSafe(keys: seq<string>, parse: string -> Option<Date>, format: Date -> string)
    requires forall i, j :: 0 <= i < j < |keys| ==> keys[i] != keys[j]
    requires forall i :: 0 <= i < |keys| ==> parse(keys[i]).Some? && keys[i] == format(parse(keys[i]).value)
    ensures NamesDaysOnce(keys, parse)
  {
  }
}
