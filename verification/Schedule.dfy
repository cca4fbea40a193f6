/** Which car the schedule wants, and when it next asks for a council write
    (Resolve, SameTarget and NextChange in internal/model/model.go). */
module Schedule {
  import opened Wrappers
  import opened Calendar

  datatype Rule = Rule(id: int, week: int, weekday: int, vehicle: int, empty: bool)

  datatype Override = Override(id: int, vehicle: int, registration: string, state: string,
                               startsAt: int, endsAt: Option<int>, createdBy: string,
                               createdAt: int, empty: bool)

  datatype Source = Nothing | Roster | Booking

  datatype Resolution = Resolution(vehicle: int, registration: string, state: string, source: Source,
                                   creator: string, empty: bool, since: Option<int>, scheduled: bool,
                                   until: Option<int>)

  /** Everything the decision reads besides the clock. */
  datatype Plan = Plan(zone: Zone, cycle: Cycle, rules: seq<Rule>, overrides: seq<Override>)

  // ---- plates ----

  /** The whitespace class of Unicode. */
  predicate IsSpace(ch: char) {
    || ch in " \t\n\r\U{B}\U{C}\U{85}\U{A0}\U{1680}\U{2028}\U{2029}\U{202F}\U{205F}\U{3000}"
    || '\U{2000}' <= ch <= '\U{200A}'
  }

  predicate Skipped(ch: char) {
    IsSpace(ch) || ch in "-.\U{B7}"
  }

  function Upper(ch: char): char {
    if 'a' <= ch <= 'z' then ch - 'a' + 'A' else ch
  }

  function NormPlate(s: string): string {
    if s == "" then ""
    else if Skipped(s[0]) then NormPlate(s[1..])
    else [Upper(s[0])] + NormPlate(s[1..])
  }

  predicate SamePlate(a: string, b: string) {
    NormPlate(a) == NormPlate(b)
  }

  predicate SameTarget(r: Resolution, o: Resolution) {
    if r.empty || o.empty then r.empty == o.empty
    else r.vehicle == o.vehicle && SamePlate(r.registration, o.registration)
  }

  // ---- what counts as the same plate ----

  lemma {:induction false} NormOfJoined(a: string, b: string)
    ensures NormPlate(a + b) == NormPlate(a) + NormPlate(b)
  {
    if a == "" {
      assert a + b == b;
    } else {
      NormOfJoined(a[1..], b);
      assert (a + b)[1..] == a[1..] + b;
    }
  }

  /** A character of a plate as the comparison sees it: neither spacing nor a separator, and
      not a small letter. */
  predicate Plain(ch: char) {
    && ch !in {' ', '\t', '\n', '\r', '-', '.', '\U{B}', '\U{C}', '\U{85}', '\U{A0}', '\U{B7}', '\U{1680}',
               '\U{2028}', '\U{2029}', '\U{202F}', '\U{205F}', '\U{3000}'}
    && !('\U{2000}' <= ch <= '\U{200A}') && !('a' <= ch <= 'z')
  }

  predicate AllPlain(s: string) {
    forall i :: 0 <= i < |s| ==> Plain(s[i])
  }

  /** The normal form is plain, and plain spellings are their own: two of them name the same
      car only when they are the same. */
  lemma {:induction false} NormIsPlain(s: string)
    ensures AllPlain(NormPlate(s)) && (AllPlain(s) ==> NormPlate(s) == s)
  {
    if s != "" {
      NormIsPlain(s[1..]);
      assert AllPlain(s) ==> Plain(s[0]) && AllPlain(s[1..]);
    }
  }

  lemma PlainPlatesDiffer(a: string, b: string)
    requires AllPlain(a) && AllPlain(b)
    ensures SamePlate(a, b) <==> a == b
  {
    NormIsPlain(a);
    NormIsPlain(b);
  }

  lemma NormAround(a: string, ch: char, b: string)
    ensures NormPlate(a + [ch] + b) == NormPlate(a) + NormPlate([ch]) + NormPlate(b)
  {
    NormOfJoined(a + [ch], b);
    NormOfJoined(a, [ch]);
  }

  lemma NormOfSeparator(ch: char)
    requires !Plain(ch) && !('a' <= ch <= 'z')
    ensures NormPlate([ch]) == ""
  {
    assert [ch][1..] == "" && NormPlate("") == "";
    assert Skipped(ch);
  }

  /** A separator anywhere is the same plate. */
  lemma SeparatorsAreIrrelevant(a: string, ch: char, b: string)
    requires !Plain(ch) && !('a' <= ch <= 'z')
    ensures SamePlate(a + [ch] + b, a + b)
  {
    NormAround(a, ch, b);
    NormOfSeparator(ch);
    NormOfJoined(a, b);
    assert NormPlate(a) + "" == NormPlate(a);
  }

  function Capital(ch: char): char
    requires 'a' <= ch <= 'z'
  {
    (ch as int - 32) as char
  }

  lemma NormOfSmall(ch: char)
    requires 'a' <= ch <= 'z'
    ensures NormPlate([ch]) == NormPlate([Capital(ch)])
  {
    assert [ch][1..] == "" && [Capital(ch)][1..] == "";
    assert !Skipped(ch) && !Skipped(Capital(ch));
  }

  /** So is a small letter for its capital. */
  lemma CaseIsIrrelevant(a: string, ch: char, b: string)
    requires 'a' <= ch <= 'z'
    ensures SamePlate(a + [ch] + b, a + [Capital(ch)] + b)
  {
    NormAround(a, ch, b);
    NormAround(a, Capital(ch), b);
    NormOfSmall(ch);
  }

  /** What a resolution wants on the permit. */
  datatype Want = NoRego | Car(vehicle: int, plate: string)

  function WantOf(r: Resolution): Want {
    if r.empty then NoRego else Car(r.vehicle, NormPlate(r.registration))
  }

  /** SameTarget is equality of what is wanted, so an equivalence: sources and spellings do
      not count, the saved vehicle, the typed plate and an empty permit do. */
  lemma SameTargetIff(r: Resolution, o: Resolution)
    ensures SameTarget(r, o) <==> WantOf(r) == WantOf(o)
  {
  }

  // ---- Resolve ----

  predicate Active(o: Override, now: int) {
    o.startsAt <= now && (o.endsAt.Some? ==> now < o.endsAt.value)
  }

  /** a was booked after b; ids break ties within one second. */
  predicate Fresher(a: Override, b: Override) {
    a.createdAt > b.createdAt || (a.createdAt == b.createdAt && a.id > b.id)
  }

  /** The override the scan holds after the first n. */
  function BestOverride(os: seq<Override>, now: int, n: nat): Option<Override>
    requires n <= |os|
  {
    if n == 0 then None else
      var best := BestOverride(os, now, n - 1);
      var o := os[n - 1];
      if Active(o, now) && (best.None? || Fresher(o, best.value)) then Some(o) else best
  }

  predicate OnDay(r: Rule, week: int, weekday: int) {
    r.week == week && r.weekday == weekday
  }

  function BestRule(rs: seq<Rule>, week: int, weekday: int, n: nat): Option<Rule>
    requires n <= |rs|
  {
    if n == 0 then None else
      var best := BestRule(rs, week, weekday, n - 1);
      var r := rs[n - 1];
      if OnDay(r, week, weekday) && (best.None? || r.id > best.value.id) then Some(r) else best
  }

  function BookingResolution(o: Override): Resolution {
    var ahead := o.startsAt > o.createdAt;
    Resolution(o.vehicle, o.registration, o.state, Booking, o.createdBy, o.empty,
               Some(if ahead then o.startsAt else o.createdAt), ahead, o.endsAt)
  }

  const UNSCHEDULED: Resolution := Resolution(0, "", "", Nothing, "", false, None, false, None)

  function Resolved(p: Plan, now: int): Resolution {
    var best := BestOverride(p.overrides, now, |p.overrides|);
    if best.Some? then BookingResolution(best.value) else
      var day := DayOf(p.zone, now);
      var rule := BestRule(p.rules, WeekAtDay(p.zone, p.cycle, day), Weekday(day), |p.rules|);
      if rule.Some?
      then Resolution(rule.value.vehicle, "", "", Roster, "", rule.value.empty,
                      Some(p.zone.midnight(day)), true, None)
      else UNSCHEDULED
  }

  method Resolve(p: Plan, now: int) returns (r: Resolution)
    ensures r == Resolved(p, now)
  {
    var best: Option<Override> := None;
    for i := 0 to |p.overrides|
      invariant best == BestOverride(p.overrides, now, i)
    {
      var o := p.overrides[i];
      if o.startsAt > now {
        continue;
      }
      if o.endsAt.Some? && !(now < o.endsAt.value) {
        continue;
      }
      if best.None? || o.createdAt > best.value.createdAt
         || (o.createdAt == best.value.createdAt && o.id > best.value.id) {
        best := Some(o);
      }
    }
    if best.Some? {
      var since, scheduled := best.value.createdAt, false;
      if best.value.startsAt > best.value.createdAt {
        since, scheduled := best.value.startsAt, true;
      }
      return Resolution(best.value.vehicle, best.value.registration, best.value.state, Booking,
                        best.value.createdBy, best.value.empty, Some(since), scheduled, best.value.endsAt);
    }
    var day := DayOf(p.zone, now);
    var wd, wk := Weekday(day), WeekAt(p.zone, p.cycle, now);
    var bestRule: Option<Rule> := None;
    for i := 0 to |p.rules|
      invariant bestRule == BestRule(p.rules, wk, wd, i)
    {
      var rule := p.rules[i];
      if rule.week != wk || rule.weekday != wd {
        continue;
      }
      if bestRule.None? || rule.id > bestRule.value.id {
        bestRule := Some(rule);
      }
    }
    if bestRule.Some? {
      return Resolution(bestRule.value.vehicle, "", "", Roster, "", bestRule.value.empty,
                        Some(p.zone.midnight(day)), true, None);
    }
    return UNSCHEDULED;
  }

  /** The scan's pick: present iff some booking is active, active itself, and no active
      booking is fresher. */
  lemma {:induction false} BestOverrideIsFreshest(os: seq<Override>, now: int, n: nat)
    requires n <= |os|
    ensures var best := BestOverride(os, now, n);
            && (best.Some? <==> exists i :: 0 <= i < n && Active(os[i], now))
            && (best.Some? ==> best.value in os[..n] && Active(best.value, now)
                               && forall i :: 0 <= i < n && Active(os[i], now) ==> !Fresher(os[i], best.value))
  {
    if n > 0 {
      BestOverrideIsFreshest(os, now, n - 1);
      assert os[..n] == os[..n - 1] + [os[n - 1]];
    }
  }

  lemma {:induction false} BestRuleIsHighest(rs: seq<Rule>, week: int, weekday: int, n: nat)
    requires n <= |rs|
    ensures var best := BestRule(rs, week, weekday, n);
            && (best.Some? <==> exists i :: 0 <= i < n && OnDay(rs[i], week, weekday))
            && (best.Some? ==> best.value in rs[..n] && OnDay(best.value, week, weekday)
                               && forall i :: 0 <= i < n && OnDay(rs[i], week, weekday) ==> rs[i].id <= best.value.id)
  {
    if n > 0 {
      BestRuleIsHighest(rs, week, weekday, n - 1);
      assert rs[..n] == rs[..n - 1] + [rs[n - 1]];
    }
  }

  /** The booking is running at now: it has started and not ended. */
  predicate Running(o: Override, now: int) {
    o.startsAt <= now && (o.endsAt.None? || now < o.endsAt.value)
  }

  /** Of those running none was booked later, nor at the same second under a higher id. */
  ghost predicate WinsAmong(o: Override, os: seq<Override>, now: int) {
    && o in os && Running(o, now)
    && forall i :: 0 <= i < |os| && Running(os[i], now) ==>
         os[i].createdAt < o.createdAt || (os[i].createdAt == o.createdAt && os[i].id <= o.id)
  }

  ghost predicate RulesDay(u: Rule, rs: seq<Rule>, week: int, weekday: int) {
    && u in rs && u.week == week && u.weekday == weekday
    && forall i :: 0 <= i < |rs| && rs[i].week == week && rs[i].weekday == weekday ==> rs[i].id <= u.id
  }

  /** The resolution is this booking's: it has been the right answer since it started, or
      since it was booked if that was later, and it is the clock's doing exactly when it was
      booked ahead. */
  predicate IsBookings(r: Resolution, o: Override) {
    && r.source.Booking? && r.vehicle == o.vehicle && r.registration == o.registration && r.state == o.state
    && r.creator == o.createdBy && r.empty == o.empty && r.until == o.endsAt
    && r.since.Some? && r.since.value >= o.startsAt && r.since.value >= o.createdAt
    && (r.since.value == o.startsAt || r.since.value == o.createdAt)
    && (r.scheduled <==> o.createdAt < o.startsAt)
  }

  /** The resolution is this rule's: a saved vehicle or none, since the day's midnight. */
  predicate IsRules(r: Resolution, u: Rule, z: Zone, now: int) {
    && r.source.Roster? && r.vehicle == u.vehicle && r.empty == u.empty
    && r.registration == "" && r.state == "" && r.creator == "" && r.scheduled && r.until.None?
    && r.since == Some(z.midnight(DayOf(z, now)))
  }

  /** A running booking beats the roster and the latest booked wins; otherwise the day's
      highest rule; nothing is resolved exactly when neither exists. */
  lemma ResolvedFollowsPrecedence(p: Plan, now: int)
    ensures var r := Resolved(p, now);
            var week, weekday := WeekAt(p.zone, p.cycle, now), Weekday(DayOf(p.zone, now));
            var booked := exists i :: 0 <= i < |p.overrides| && Running(p.overrides[i], now);
            var rostered := exists i :: 0 <= i < |p.rules| && p.rules[i].week == week && p.rules[i].weekday == weekday;
            && (booked ==> exists o :: WinsAmong(o, p.overrides, now) && IsBookings(r, o))
            && (!booked && rostered ==>
                  exists u :: RulesDay(u, p.rules, week, weekday) && IsRules(r, u, p.zone, now))
            && (!booked && !rostered ==> r == Resolution(0, "", "", Nothing, "", false, None, false, None))
  {
    var day := DayOf(p.zone, now);
    var week, weekday := WeekAt(p.zone, p.cycle, now), Weekday(day);
    BestOverrideIsFreshest(p.overrides, now, |p.overrides|);
    BestRuleIsHighest(p.rules, week, weekday, |p.rules|);
    assert p.overrides[..|p.overrides|] == p.overrides && p.rules[..|p.rules|] == p.rules;
    assert forall i :: 0 <= i < |p.overrides| ==> Running(p.overrides[i], now) == Active(p.overrides[i], now);
    assert forall i :: 0 <= i < |p.rules| ==>
      (p.rules[i].week == week && p.rules[i].weekday == weekday) == OnDay(p.rules[i], week, weekday);
    var best := BestOverride(p.overrides, now, |p.overrides|);
    if best.Some? {
      assert WinsAmong(best.value, p.overrides, now) && IsBookings(Resolved(p, now), best.value);
    } else {
      var rule := BestRule(p.rules, week, weekday, |p.rules|);
      assert rule.Some? ==> RulesDay(rule.value, p.rules, week, weekday) && IsRules(Resolved(p, now), rule.value, p.zone, now);
    }
  }

  // ---- between boundaries nothing changes ----

  ghost predicate IsMidnight(z: Zone, t: int) {
    exists d :: z.midnight(d) == t
  }

  ghost predicate BookingEdge(p: Plan, n: nat, t: int)
    requires n <= |p.overrides|
  {
    exists i :: 0 <= i < n && (p.overrides[i].startsAt == t || p.overrides[i].endsAt == Some(t))
  }

  /** A local midnight, or an instant where some booking starts or ends. */
  ghost predicate Boundary(p: Plan, t: int) {
    IsMidnight(p.zone, t) || BookingEdge(p, |p.overrides|, t)
  }

  ghost predicate NoBoundary(p: Plan, a: int, b: int) {
    forall t :: a < t <= b ==> !Boundary(p, t)
  }

  lemma SameDayBetween(p: Plan, a: int, b: int)
    requires Valid(p.zone) && a <= b && NoBoundary(p, a, b)
    ensures DayOf(p.zone, a) == DayOf(p.zone, b)
  {
    var d, e := DayOf(p.zone, a), DayOf(p.zone, b);
    assert Boundary(p, p.zone.midnight(e));
    DayOfIsUnique(p.zone, a, e);
  }

  lemma {:induction false} SameBookingBetween(p: Plan, a: int, b: int, n: nat)
    requires a <= b && NoBoundary(p, a, b) && n <= |p.overrides|
    ensures BestOverride(p.overrides, a, n) == BestOverride(p.overrides, b, n)
  {
    if n > 0 {
      SameBookingBetween(p, a, b, n - 1);
      var o := p.overrides[n - 1];
      assert Boundary(p, o.startsAt);
      assert o.endsAt.Some? ==> Boundary(p, o.endsAt.value);
      assert Active(o, a) == Active(o, b);
    }
  }

  /** Resolve is constant from one boundary to the next. */
  lemma ConstantBetweenBoundaries(p: Plan, a: int, b: int)
    requires Valid(p.zone) && a <= b && NoBoundary(p, a, b)
    ensures Resolved(p, a) == Resolved(p, b)
  {
    SameDayBetween(p, a, b);
    SameBookingBetween(p, a, b, |p.overrides|);
  }

  // ---- the reference: an app that looks at every instant ----

  type Timeline = int -> Resolution

  ghost function TimelineOf(p: Plan): Timeline {
    t => Resolved(p, t)
  }

  /** The allocation in place at t for an app that started at `from` and applied the
      schedule at every instant since: a gap leaves the last one lingering. */
  ghost function InPlace(f: Timeline, from: int, t: int): Option<Resolution>
    requires from <= t
    decreases t - from
  {
    if !f(t).source.Nothing? then Some(f(t))
    else if t == from then None
    else InPlace(f, from, t - 1)
  }

  /** At t the schedule asks for a write: an allocation is present and differs from the
      one in place just before (or nothing was in place). */
  ghost predicate WritesAt(f: Timeline, from: int, t: int)
    requires from < t
  {
    var before := InPlace(f, from, t - 1);
    !f(t).source.Nothing? && (before.None? || !SameTarget(f(t), before.value))
  }

  ghost predicate QuietUntil(f: Timeline, from: int, t: int) {
    forall u :: from < u <= t ==> !WritesAt(f, from, u)
  }

  /** While the timeline is constant nothing is written and nothing moves. */
  lemma {:induction false} NothingWhileConstant(f: Timeline, from: int, a: int, b: int)
    requires from <= a <= b && forall u :: a <= u <= b ==> f(u) == f(a)
    requires QuietUntil(f, from, a)
    ensures InPlace(f, from, b) == InPlace(f, from, a) && QuietUntil(f, from, b)
    decreases b - a
  {
    if a < b {
      NothingWhileConstant(f, from, a, b - 1);
      assert f(b) == f(b - 1) == f(a);
    }
  }

  lemma NothingBetweenBoundaries(p: Plan, from: int, a: int, b: int)
    requires Valid(p.zone) && from <= a <= b && NoBoundary(p, a, b) && QuietUntil(TimelineOf(p), from, a)
    ensures InPlace(TimelineOf(p), from, b) == InPlace(TimelineOf(p), from, a)
    ensures QuietUntil(TimelineOf(p), from, b)
  {
    forall u | a <= u <= b ensures TimelineOf(p)(u) == TimelineOf(p)(a) {
      ConstantBetweenBoundaries(p, a, u);
    }
    NothingWhileConstant(TimelineOf(p), from, a, b);
  }

  /** No write means no other car: through a quiet stretch every allocation the schedule
      shows wants what was in place at its start, and if nothing was, shows none. */
  lemma {:induction false} QuietKeepsTheCar(f: Timeline, from: int, t: int)
    requires from <= t && QuietUntil(f, from, t)
    ensures var before, after := InPlace(f, from, from), InPlace(f, from, t);
            && before.Some? == after.Some?
            && (before.Some? ==> SameTarget(after.value, before.value))
    ensures !f(t).source.Nothing? ==>
              InPlace(f, from, from).Some? && SameTarget(f(t), InPlace(f, from, from).value)
    decreases t - from
  {
    if from < t {
      QuietKeepsTheCar(f, from, t - 1);
      assert !WritesAt(f, from, t);
    }
  }

  // ---- NextChange ----

  predicate Ascending(s: seq<int>) {
    forall i, j :: 0 <= i < j < |s| ==> s[i] <= s[j]
  }

  function Insert(x: int, s: seq<int>): (r: seq<int>)
    requires Ascending(s)
    ensures Ascending(r) && forall y :: y in r <==> y == x || y in s
  {
    if s == [] then [x]
    else if x <= s[0] then [x] + s
    else
      var rest := Insert(x, s[1..]);
      assert forall y :: y in s <==> y == s[0] || y in s[1..];
      assert forall y :: y in rest ==> s[0] <= y;
      assert forall i :: 0 <= i < |rest| ==> rest[i] in rest;
      [s[0]] + rest
  }

  /** sort.Slice by time; equal instants are interchangeable. */
  function Sorted(s: seq<int>): (r: seq<int>)
    ensures Ascending(r) && forall y :: y in r <==> y in s
  {
    if s == [] then [] else Insert(s[0], Sorted(s[1..]))
  }

  /** The local midnights after now, up to and including end. */
  method Midnights(z: Zone, now: int, end: int) returns (ts: seq<int>)
    requires Valid(z)
    ensures forall i :: 0 <= i < |ts| ==> ts[i] == z.midnight(DayOf(z, now) + 1 + i)
    ensures forall i :: 0 <= i < |ts| ==> now < ts[i] <= end
    ensures end < z.midnight(DayOf(z, now) + 1 + |ts|)
  {
    ts := [];
    var d := DayOf(z, now) + 1;
    while z.midnight(d) <= end
      invariant d == DayOf(z, now) + 1 + |ts|
      invariant forall i :: 0 <= i < |ts| ==> ts[i] == z.midnight(DayOf(z, now) + 1 + i)
      invariant forall i :: 0 <= i < |ts| ==> now < ts[i] <= end
      decreases end - z.midnight(d)
    {
      ts := ts + [z.midnight(d)];
      assert z.midnight(d) < z.midnight(d + 1);
      d := d + 1;
    }
  }

  lemma MidnightsAreAll(z: Zone, now: int, end: int, ts: seq<int>, t: int)
    requires Valid(z)
    requires forall i :: 0 <= i < |ts| ==> ts[i] == z.midnight(DayOf(z, now) + 1 + i)
    requires forall i :: 0 <= i < |ts| ==> now < ts[i] <= end
    requires end < z.midnight(DayOf(z, now) + 1 + |ts|)
    ensures t in ts <==> now < t <= end && IsMidnight(z, t)
  {
    if now < t <= end && IsMidnight(z, t) {
      var d :| z.midnight(d) == t;
      var first := DayOf(z, now) + 1;
      assert first <= d < first + |ts|;
      assert ts[d - first] == t;
    }
  }

  method BookingEdges(p: Plan, now: int, end: int) returns (ts: seq<int>)
    ensures forall t :: t in ts <==> now < t <= end && BookingEdge(p, |p.overrides|, t)
  {
    ts := [];
    for i := 0 to |p.overrides|
      invariant forall t :: t in ts <==> now < t <= end && BookingEdge(p, i, t)
    {
      var o := p.overrides[i];
      if o.startsAt > now && o.startsAt <= end {
        ts := ts + [o.startsAt];
      }
      if o.endsAt.Some? && o.endsAt.value > now && o.endsAt.value <= end {
        ts := ts + [o.endsAt.value];
      }
      forall t ensures BookingEdge(p, i + 1, t) <==> BookingEdge(p, i, t) || o.startsAt == t || o.endsAt == Some(t) {
        assert p.overrides[i] == o;
      }
    }
  }

  ghost function From(now: int, cands: seq<int>, i: nat): int
    requires i <= |cands|
  {
    if i == 0 then now else cands[i - 1]
  }

  ghost function Upto(end: int, cands: seq<int>, i: nat): int {
    if i < |cands| then cands[i] - 1 else end
  }

  /** The candidates lie in (now, end], ascend, and leave out no boundary. */
  ghost predicate Enumerates(p: Plan, now: int, end: int, cands: seq<int>) {
    forall i: nat :: i <= |cands| ==>
      && now <= From(now, cands, i)
      && (i < |cands| ==> now < cands[i] <= end && From(now, cands, i) <= cands[i])
      && NoBoundary(p, From(now, cands, i), Upto(end, cands, i))
  }

  lemma SortedEnumerates(p: Plan, now: int, end: int, cands: seq<int>)
    requires Ascending(cands) && forall t :: t in cands <==> now < t <= end && Boundary(p, t)
    ensures Enumerates(p, now, end, cands)
  {
    forall i: nat | i <= |cands|
      ensures now <= From(now, cands, i)
      ensures i < |cands| ==> now < cands[i] <= end && From(now, cands, i) <= cands[i]
      ensures NoBoundary(p, From(now, cands, i), Upto(end, cands, i))
    {
      assert i > 0 ==> cands[i - 1] in cands;
      assert i < |cands| ==> cands[i] in cands;
      forall t | From(now, cands, i) < t <= Upto(end, cands, i) ensures !Boundary(p, t) {
        assert t !in cands;
      }
    }
  }

  lemma ListedAreBoundaries(p: Plan, now: int, end: int, days: seq<int>, edges: seq<int>, t: int)
    requires t in days <==> now < t <= end && IsMidnight(p.zone, t)
    requires t in edges <==> now < t <= end && BookingEdge(p, |p.overrides|, t)
    ensures t in Sorted(days + edges) <==> now < t <= end && Boundary(p, t)
  {
  }

  lemma AllAreListed(p: Plan, now: int, end: int, days: seq<int>, edges: seq<int>)
    requires forall t :: t in days <==> now < t <= end && IsMidnight(p.zone, t)
    requires forall t :: t in edges <==> now < t <= end && BookingEdge(p, |p.overrides|, t)
    ensures Enumerates(p, now, end, Sorted(days + edges))
  {
    forall t ensures t in Sorted(days + edges) <==> now < t <= end && Boundary(p, t) {
      ListedAreBoundaries(p, now, end, days, edges, t);
    }
    SortedEnumerates(p, now, end, Sorted(days + edges));
  }

  method Candidates(p: Plan, now: int, end: int) returns (cands: seq<int>)
    requires Valid(p.zone)
    ensures Enumerates(p, now, end, cands)
  {
    var days := Midnights(p.zone, now, end);
    var edges := BookingEdges(p, now, end);
    cands := Sorted(days + edges);
    forall t ensures t in days <==> now < t <= end && IsMidnight(p.zone, t) {
      MidnightsAreAll(p.zone, now, end, days, t);
    }
    AllAreListed(p, now, end, days, edges);
  }

  /** What looking at one instant t says, when nothing moved since `seen`. */
  lemma LookAt(f: Timeline, from: int, seen: int, t: int)
    requires from <= seen <= t && from < t && QuietUntil(f, from, seen)
    requires seen < t ==> InPlace(f, from, t - 1) == InPlace(f, from, seen) && QuietUntil(f, from, t - 1)
    ensures var before := InPlace(f, from, seen);
            if f(t).source.Nothing? then InPlace(f, from, t) == before && QuietUntil(f, from, t)
            else InPlace(f, from, t) == Some(f(t))
                 && if before.Some? && SameTarget(f(t), before.value) then QuietUntil(f, from, t)
                    else WritesAt(f, from, t) && QuietUntil(f, from, t - 1)
  {
  }

  lemma LookAtCandidate(p: Plan, now: int, end: int, cands: seq<int>, i: nat, seen: int)
    requires Valid(p.zone) && Enumerates(p, now, end, cands) && i < |cands| && seen == From(now, cands, i)
    requires QuietUntil(TimelineOf(p), now, seen)
    ensures seen <= cands[i] && now < cands[i] <= end
    ensures var f, t, before := TimelineOf(p), cands[i], InPlace(TimelineOf(p), now, seen);
            if f(t).source.Nothing? then InPlace(f, now, t) == before && QuietUntil(f, now, t)
            else InPlace(f, now, t) == Some(f(t))
                 && if before.Some? && SameTarget(f(t), before.value) then QuietUntil(f, now, t)
                    else WritesAt(f, now, t) && QuietUntil(f, now, t - 1)
  {
    var t := cands[i];
    if seen < t {
      assert t - 1 == Upto(end, cands, i);
      NothingBetweenBoundaries(p, now, seen, t - 1);
    }
    LookAt(TimelineOf(p), now, seen, t);
  }

  /** NextChange is exact: it returns the first instant in (now, now + horizon] at which
      the every-instant app would write, and None exactly when it never would. */
  method NextChange(p: Plan, now: int, horizon: int) returns (next: Option<int>)
    requires Valid(p.zone)
    ensures next.Some? ==> now < next.value <= now + horizon
                           && WritesAt(TimelineOf(p), now, next.value)
                           && QuietUntil(TimelineOf(p), now, next.value - 1)
    ensures next.None? ==> QuietUntil(TimelineOf(p), now, now + horizon)
  {
    var end := now + horizon;
    var cands := Candidates(p, now, end);
    var last := Resolve(p, now);
    var haveLast := !last.source.Nothing?;
    ghost var f := TimelineOf(p);
    ghost var seen := now;
    for i := 0 to |cands|
      invariant seen == From(now, cands, i)
      invariant InPlace(f, now, seen) == if haveLast then Some(last) else None
      invariant QuietUntil(f, now, seen)
    {
      LookAtCandidate(p, now, end, cands, i, seen);
      var t := cands[i];
      seen := t;
      var r := Resolve(p, t);
      assert r == f(t);
      if !r.source.Nothing? {
        if !haveLast || !SameTarget(r, last) {
          return Some(t);
        }
        last, haveLast := r, true;
      }
    }
    if seen < end {
      assert end == Upto(end, cands, |cands|);
      NothingBetweenBoundaries(p, now, seen, end);
    }
    return None;
  }
}
