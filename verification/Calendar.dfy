/** Local days and the multi-week rotation (Cycle.WeekAt and ReanchoredCycle in
    internal/model/model.go). A time zone is given by the instants of its local
    midnights and noons, indexed by civil day (day 0 is 1 January 1970, a Thursday).
    Instants are nanoseconds. */
module Calendar {
  import opened Arithmetic
  import opened Durations
  import opened Wrappers

  const DAY: int := 24 * HOUR

  datatype Zone = Zone(midnight: int -> int, noon: int -> int)

  /** Midnights are strictly increasing and never a whole day away from UTC's. */
  ghost predicate Valid(z: Zone) {
    && (forall a, b :: a < b ==> z.midnight(a) < z.midnight(b))
    && (forall d :: d * DAY - DAY < z.midnight(d) < d * DAY + DAY)
  }

  /** The UTC offset at noon on days a and b differs by under twelve hours. */
  predicate SmallShift(z: Zone, a: int, b: int) {
    -12 * HOUR < (z.noon(a) - z.noon(b)) - (a - b) * DAY < 12 * HOUR
  }

  /** The civil day an instant falls in. */
  function DayOf(z: Zone, t: int): (d: int)
    ensures Valid(z) ==> z.midnight(d) <= t < z.midnight(d + 1)
  {
    var guess := t / DAY;
    if t < z.midnight(guess) then
      assert Valid(z) ==> z.midnight(guess - 1) < (guess - 1) * DAY + DAY;
      guess - 1
    else if t < z.midnight(guess + 1) then guess
    else
      assert Valid(z) ==> (guess + 2) * DAY - DAY < z.midnight(guess + 2);
      guess + 1
  }

  lemma DayOfIsUnique(z: Zone, t: int, d: int)
    requires Valid(z) && z.midnight(d) <= t < z.midnight(d + 1)
    ensures DayOf(z, t) == d
  {
    var e := DayOf(z, t);
    assert e < d ==> z.midnight(e + 1) <= z.midnight(d);
    assert d < e ==> z.midnight(d + 1) <= z.midnight(e);
  }

  /** Sunday is 0, as in Go's time.Weekday. */
  function Weekday(day: int): int {
    (day + 4) % 7
  }

  function SundayOf(day: int): int {
    day - Weekday(day)
  }

  /** 1 January 1970 was a Thursday, and the days of the week go round. */
  lemma WeekdaysGoRound(d: int)
    ensures Weekday(0) == 4 && 0 <= Weekday(d) < 7
    ensures Weekday(d + 1) == if Weekday(d) == 6 then 0 else Weekday(d) + 1
  {
  }

  /** A week's Sunday is the last one not after the day. */
  lemma SundayIsLast(d: int)
    ensures Weekday(SundayOf(d)) == 0 && SundayOf(d) <= d
    ensures forall e :: SundayOf(d) < e <= d ==> Weekday(e) != 0
  {
  }

  // ---- Go arithmetic ----

  /** Go's integer division truncates toward zero. */
  function TruncDiv(a: int, b: int): int
    requires b > 0
  {
    if a >= 0 then a / b else -((-a) / b)
  }

  function TruncMod(a: int, b: int): int
    requires b > 0
  {
    a - b * TruncDiv(a, b)
  }

  /** math.Round of a span counted in days: halves go away from zero. */
  function RoundDays(span: int): int {
    if span >= 0 then (span + DAY / 2) / DAY else -((-span + DAY / 2) / DAY)
  }

  // ---- the rotation ----

  /** anchor is a day of the week whose index is 0; None stands for an empty or
      unreadable date. */
  datatype Cycle = Cycle(weeks: int, anchor: Option<int>)

  function WeekAtDay(z: Zone, c: Cycle, day: int): int {
    if c.weeks <= 1 || c.anchor.None? then 0 else
      var days := RoundDays(z.noon(SundayOf(day)) - z.noon(SundayOf(c.anchor.value)));
      var w := TruncMod(TruncDiv(days, 7), c.weeks);
      if w < 0 then w + c.weeks else w
  }

  function WeekAt(z: Zone, c: Cycle, now: int): int {
    WeekAtDay(z, c, DayOf(z, now))
  }

  function ReanchoredCycle(z: Zone, now: int, was: Cycle, newWeeks: int): Cycle {
    if newWeeks <= 1 then Cycle(1, None) else
      var idx := TruncMod(WeekAt(z, was, now), newWeeks);
      Cycle(newWeeks, Some(SundayOf(DayOf(z, now)) - 7 * idx))
  }

  // ---- what they promise ----

  lemma ModUnique(a: int, q: int, r: int, n: int)
    requires n > 0 && 0 <= r < n && a == q * n + r
    ensures a % n == r
  {
    assert a % n - r == n * (q - a / n);
    MulBeyond(n, q - a / n);
  }

  lemma ModShift(a: int, k: int, n: int)
    requires n > 0
    ensures (a % n + k) % n == (a + k) % n
  {
    var r := (a % n + k) % n;
    var q := (a % n + k) / n;
    assert a + k == n * (a / n) + n * q + r == (a / n + q) * n + r;
    ModUnique(a + k, a / n + q, r, n);
  }

  /** Noon anchoring counts D days exactly just when the clock shift between the two
      noons stays under twelve hours (a shift of exactly twelve hours that shortens the
      span toward zero is still rounded back). */
  lemma RoundDaysExact(D: int, shift: int)
    ensures RoundDays(D * DAY + shift) == D <==>
              (-12 * HOUR < shift < 12 * HOUR)
              || (shift == -12 * HOUR && D > 0) || (shift == 12 * HOUR && D < 0)
  {
    if D * DAY + shift >= 0 {
      var x := shift + DAY / 2;
      assert (D * DAY + x) / DAY == D + x / DAY;
    } else {
      var x := -shift + DAY / 2;
      assert ((-D) * DAY + x) / DAY == -D + x / DAY;
    }
  }

  lemma SundaysAreWeeksApart(a: int, b: int)
    ensures SundayOf(a) - SundayOf(b) == 7 * ((SundayOf(a) - SundayOf(b)) / 7)
    ensures SundayOf(a) <= a < SundayOf(a) + 7 && Weekday(SundayOf(a)) == 0
  {
  }

  /** The wrapped truncated remainder is the mathematical one. */
  lemma WrappedModIsEuclidean(a: int, n: int)
    requires n > 0
    ensures var w := TruncMod(a, n); (if w < 0 then w + n else w) == a % n
  {
    var w := TruncMod(a, n);
    if a < 0 {
      assert w == a + n * ((-a) / n) == -((-a) % n);
      if w < 0 {
        ModUnique(a, -((-a) / n) - 1, w + n, n);
      } else {
        ModUnique(a, -((-a) / n), 0, n);
      }
    }
  }

  /** A week index always names a week of the cycle, whatever the clock or the anchor. */
  lemma WeekAtInRange(z: Zone, c: Cycle, day: int)
    ensures 0 <= WeekAtDay(z, c, day) < (if c.weeks > 1 then c.weeks else 1)
  {
    if c.weeks > 1 && c.anchor.Some? {
      var days := RoundDays(z.noon(SundayOf(day)) - z.noon(SundayOf(c.anchor.value)));
      WrappedModIsEuclidean(TruncDiv(days, 7), c.weeks);
    }
  }

  /** WeekAt counts Sundays: the index is the number of weeks from the anchor's week to
      this one, modulo the cycle, for anchors in the past and in the future alike. */
  lemma WeekAtCountsWeeks(z: Zone, c: Cycle, day: int)
    requires c.weeks > 1 && c.anchor.Some?
    requires SmallShift(z, SundayOf(day), SundayOf(c.anchor.value))
    ensures WeekAtDay(z, c, day) == ((SundayOf(day) - SundayOf(c.anchor.value)) / 7) % c.weeks
  {
    var a, b := SundayOf(day), SundayOf(c.anchor.value);
    var span := z.noon(a) - z.noon(b);
    RoundDaysExact(a - b, span - (a - b) * DAY);
    SundaysAreWeeksApart(day, c.anchor.value);
    assert RoundDays(span) == a - b;
    assert TruncDiv(a - b, 7) == (a - b) / 7;
    WrappedModIsEuclidean((a - b) / 7, c.weeks);
  }

  /** k weeks later (or earlier) the index has moved on by k modulo the cycle; with
      k == 0, every day of one week has one index. */
  lemma WeekAtAdvances(z: Zone, c: Cycle, day: int, later: int, k: int)
    requires c.weeks > 1 && c.anchor.Some? && SundayOf(later) == SundayOf(day) + 7 * k
    requires SmallShift(z, SundayOf(day), SundayOf(c.anchor.value))
    requires SmallShift(z, SundayOf(later), SundayOf(c.anchor.value))
    ensures WeekAtDay(z, c, later) == (WeekAtDay(z, c, day) + k) % c.weeks
  {
    WeekAtCountsWeeks(z, c, day);
    WeekAtCountsWeeks(z, c, later);
    SundaysAreWeeksApart(day, c.anchor.value);
    ModShift((SundayOf(day) - SundayOf(c.anchor.value)) / 7, k, c.weeks);
  }

  lemma NonnegativeModsAgree(a: int, n: int)
    requires a >= 0 && n > 0
    ensures TruncMod(a, n) == a % n
  {
  }

  lemma WeeksBeforeSunday(day: int, k: int)
    ensures SundayOf(SundayOf(day) - 7 * k) == SundayOf(day) - 7 * k
  {
  }

  lemma ReanchoredAnchor(z: Zone, now: int, was: Cycle, newWeeks: int)
    requires newWeeks > 1
    ensures var c := ReanchoredCycle(z, now, was, newWeeks);
            && c.weeks == newWeeks && c.anchor.Some? && SundayOf(c.anchor.value) == c.anchor.value
            && c.anchor.value == SundayOf(DayOf(z, now)) - 7 * (WeekAt(z, was, now) % newWeeks)
  {
    var idx := WeekAt(z, was, now);
    WeekAtInRange(z, was, DayOf(z, now));
    NonnegativeModsAgree(idx, newWeeks);
    WeeksBeforeSunday(DayOf(z, now), idx % newWeeks);
  }

  /** Re-anchoring keeps the current week's index (modulo the new length) and the
      rotation runs on from there. */
  lemma ReanchoredRunsOn(z: Zone, now: int, was: Cycle, newWeeks: int, later: int, k: int)
    requires newWeeks > 1 && SundayOf(later) == SundayOf(DayOf(z, now)) + 7 * k
    requires SmallShift(z, SundayOf(later), ReanchoredCycle(z, now, was, newWeeks).anchor.value)
    ensures WeekAtDay(z, ReanchoredCycle(z, now, was, newWeeks), later)
            == (WeekAt(z, was, now) % newWeeks + k) % newWeeks
  {
    ReanchoredAnchor(z, now, was, newWeeks);
    var c := ReanchoredCycle(z, now, was, newWeeks);
    WeekAtCountsWeeks(z, c, later);
    assert SundayOf(later) - c.anchor.value == 7 * (k + WeekAt(z, was, now) % newWeeks);
  }

  /** In the week of the edit the new index is the old one modulo the new length, so
      growing a cycle leaves the week alone. */
  lemma ReanchoredKeepsWeek(z: Zone, now: int, was: Cycle, newWeeks: int, later: int)
    requires SundayOf(later) == SundayOf(DayOf(z, now))
    requires newWeeks > 1 ==> SmallShift(z, SundayOf(later), ReanchoredCycle(z, now, was, newWeeks).anchor.value)
    ensures newWeeks >= 1 ==> WeekAtDay(z, ReanchoredCycle(z, now, was, newWeeks), later) == WeekAt(z, was, now) % newWeeks
    ensures newWeeks >= 1 && newWeeks >= was.weeks ==>
              WeekAtDay(z, ReanchoredCycle(z, now, was, newWeeks), later) == WeekAt(z, was, now)
  {
    WeekAtInRange(z, was, DayOf(z, now));
    if newWeeks > 1 {
      ReanchoredRunsOn(z, now, was, newWeeks, later, 0);
      ModShift(WeekAt(z, was, now), 0, newWeeks);
    }
    if newWeeks >= 1 && newWeeks >= was.weeks {
      ModUnique(WeekAt(z, was, now), 0, WeekAt(z, was, now), newWeeks);
    }
  }

  /** Two edits inside one week compose: the index is reduced by each length in turn. */
  lemma ReanchoredComposes(z: Zone, now: int, again: int, was: Cycle, first: int, second: int)
    requires SundayOf(DayOf(z, again)) == SundayOf(DayOf(z, now)) && first >= 1 && second >= 1
    requires var c1 := ReanchoredCycle(z, now, was, first);
             var c2 := ReanchoredCycle(z, again, c1, second);
             && (first > 1 ==> SmallShift(z, SundayOf(DayOf(z, again)), c1.anchor.value))
             && (second > 1 ==> SmallShift(z, SundayOf(DayOf(z, again)), c2.anchor.value))
    ensures var c1 := ReanchoredCycle(z, now, was, first);
            WeekAt(z, ReanchoredCycle(z, again, c1, second), again) == (WeekAt(z, was, now) % first) % second
  {
    var c1 := ReanchoredCycle(z, now, was, first);
    ReanchoredKeepsWeek(z, now, was, first, DayOf(z, again));
    ReanchoredKeepsWeek(z, again, c1, second, DayOf(z, again));
  }
}
