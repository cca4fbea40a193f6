/** The governor's lazy token bucket (internal/parking/governor.go). Token counts and
    rates are reals (Go uses float64); instants and waits are whole nanoseconds, and the
    wait is truncated as time.Duration truncates it. */
module TokenBucket {
  import opened Arithmetic
  import Durations
  import opened Wrappers

  const SECOND: real := 1000000000.0

  datatype Config = Config(burst: real, perSec: real)
  datatype State = State(tokens: real, last: Option<int>)

  function Min(a: real, b: real): real {
    if a < b then a else b
  }

  /** What accrues in a span of nanoseconds. */
  function Accrued(c: Config, span: int): real {
    span as real / SECOND * c.perSec
  }

  function Refilled(c: Config, s: State, now: int): real {
    if s.last.Some? && now > s.last.value
    then Min(c.burst, s.tokens + Accrued(c, now - s.last.value))
    else s.tokens
  }

  predicate Grants(c: Config, s: State, now: int) {
    Refilled(c, s, now) >= 1.0
  }

  function AfterTake(c: Config, s: State, now: int): State {
    State(Refilled(c, s, now) - (if Grants(c, s, now) then 1.0 else 0.0), Some(now))
  }

  function WaitFor(c: Config, s: State, now: int): int {
    if Grants(c, s, now) then 0
    else if c.perSec <= 0.0 then Durations.HOUR
    else ((1.0 - Refilled(c, s, now)) / c.perSec * SECOND).Floor
  }

  // ---- runs ----

  /** ss[i] is the bucket before the take at instant ts[i]; the clock never goes back. */
  ghost predicate Run(c: Config, ts: seq<int>, ss: seq<State>) {
    && c.burst >= 0.0 && c.perSec >= 0.0
    && |ss| == |ts| + 1 && ss[0] == State(c.burst, None)
    && (forall i :: 0 <= i < |ts| ==> ss[i + 1] == AfterTake(c, ss[i], ts[i]))
    && (forall i :: 0 < i < |ts| ==> ts[i - 1] <= ts[i])
  }

  /** Requests granted by takes i to j. */
  ghost function Granted(c: Config, ts: seq<int>, ss: seq<State>, i: nat, j: nat): nat
    requires i <= j <= |ts| < |ss|
    decreases j - i
  {
    if i == j then 0
    else Granted(c, ts, ss, i, j - 1) + (if Grants(c, ss[j - 1], ts[j - 1]) then 1 else 0)
  }

  lemma AccruedAdds(c: Config, a: int, b: int)
    ensures Accrued(c, a + b) == Accrued(c, a) + Accrued(c, b)
  {
    assert (a + b) as real / SECOND == a as real / SECOND + b as real / SECOND;
  }

  lemma AccruedIsNonnegative(c: Config, span: int)
    requires c.perSec >= 0.0 && span >= 0
    ensures Accrued(c, span) >= 0.0
  {
    assert span as real / SECOND >= 0.0;
  }

  lemma {:induction false} TokensStayInRange(c: Config, ts: seq<int>, ss: seq<State>, i: nat)
    requires Run(c, ts, ss) && i <= |ts|
    ensures 0.0 <= ss[i].tokens <= c.burst
    ensures i > 0 ==> ss[i].last == Some(ts[i - 1])
  {
    if i > 0 {
      TokensStayInRange(c, ts, ss, i - 1);
      if i > 1 {
        AccruedIsNonnegative(c, ts[i - 1] - ts[i - 2]);
      }
    }
  }

  /** In any stretch of a run the grants number at most burst plus the rate times the
      stretch's length; what is left in the bucket counts against them. */
  lemma {:induction false} GrantsAreBounded(c: Config, ts: seq<int>, ss: seq<State>, i: nat, j: nat)
    requires Run(c, ts, ss) && i < j <= |ts|
    ensures ts[i] <= ts[j - 1]
    ensures Granted(c, ts, ss, i, j) as real + ss[j].tokens <= c.burst + Accrued(c, ts[j - 1] - ts[i])
    ensures Granted(c, ts, ss, i, j) as real <= c.burst + Accrued(c, ts[j - 1] - ts[i])
    decreases j
  {
    TokensStayInRange(c, ts, ss, j - 1);
    TokensStayInRange(c, ts, ss, j);
    if j == i + 1 {
      assert Granted(c, ts, ss, i, i) == 0;
      if i > 0 {
        AccruedIsNonnegative(c, ts[i] - ts[i - 1]);
      }
    } else {
      GrantsAreBounded(c, ts, ss, i, j - 1);
      AccruedAdds(c, ts[j - 2] - ts[i], ts[j - 1] - ts[j - 2]);
      AccruedIsNonnegative(c, ts[j - 1] - ts[j - 2]);
    }
  }

  /** Take k finds room in the bucket for all that has accrued since the one before. */
  ghost predicate Uncapped(c: Config, ts: seq<int>, ss: seq<State>, k: nat)
    requires 0 < k < |ts| < |ss|
  {
    ss[k].tokens + Accrued(c, ts[k] - ts[k - 1]) <= c.burst
  }

  /** And no fewer: in any stretch in which the bucket does not fill up, the grants and the
      tokens left are together exactly the tokens it began with and what accrued. */
  lemma {:induction false} TokensAreConserved(c: Config, ts: seq<int>, ss: seq<State>, i: nat, j: nat)
    requires Run(c, ts, ss) && 0 < i <= j <= |ts|
    requires forall k: nat :: i <= k < j ==> Uncapped(c, ts, ss, k)
    ensures Granted(c, ts, ss, i, j) as real + ss[j].tokens == ss[i].tokens + Accrued(c, ts[j - 1] - ts[i - 1])
    decreases j
  {
    assert Accrued(c, 0) == 0.0;
    if i < j {
      TokensAreConserved(c, ts, ss, i, j - 1);
      TokensStayInRange(c, ts, ss, j - 1);
      var k: nat := j - 1;
      assert Uncapped(c, ts, ss, k);
      AccruedAdds(c, ts[j - 2] - ts[i - 1], ts[j - 1] - ts[j - 2]);
    }
  }

  /** A bucket with no rate never refills, and sends a refused waiter away for an hour. */
  lemma ClosedBucketStaysShut(c: Config, s: State, now: int, later: int)
    requires c.perSec == 0.0 && !Grants(c, s, now)
    ensures WaitFor(c, s, now) == 3_600_000_000_000 && !Grants(c, AfterTake(c, s, now), later)
  {
    if later > now {
      assert Accrued(c, later - now) == 0.0;
    }
  }

  /** After a refusal with no other taker, a take `span` later is granted exactly when
      the span is at least the missing token's worth of time. */
  lemma GrantedAfterSpan(c: Config, s: State, now: int, span: int)
    requires c.perSec > 0.0 && c.burst >= 1.0 && !Grants(c, s, now) && span >= 0
    ensures Grants(c, AfterTake(c, s, now), now + span)
            <==> span as real >= (1.0 - Refilled(c, s, now)) / c.perSec * SECOND
  {
    var f := Refilled(c, s, now);
    var need := (1.0 - f) / c.perSec * SECOND;
    assert need / SECOND * c.perSec == 1.0 - f;
    var scale := c.perSec / SECOND;
    assert scale > 0.0 && Accrued(c, span) == span as real * scale && 1.0 - f == need * scale;
    if span as real >= need {
      assert (span as real - need) * scale >= 0.0;
    } else {
      assert (need - span as real) * scale > 0.0;
    }
  }

  /** Waiting exactly the returned time is enough if and only if the missing time is a
      whole number of nanoseconds (the conversion to a Duration drops the fraction); one
      nanosecond more is always enough. */
  lemma ReturnedWaitSuffices(c: Config, s: State, now: int)
    requires c.perSec > 0.0 && c.burst >= 1.0 && !Grants(c, s, now)
    ensures var need := (1.0 - Refilled(c, s, now)) / c.perSec * SECOND;
            && 0 <= WaitFor(c, s, now)
            && (Grants(c, AfterTake(c, s, now), now + WaitFor(c, s, now)) <==> need == need.Floor as real)
            && Grants(c, AfterTake(c, s, now), now + WaitFor(c, s, now) + 1)
  {
    var f := Refilled(c, s, now);
    var need := (1.0 - f) / c.perSec * SECOND;
    assert (1.0 - f) / c.perSec > 0.0;
    GrantedAfterSpan(c, s, now, need.Floor);
    GrantedAfterSpan(c, s, now, need.Floor + 1);
  }

  /** A concrete refusal whose returned wait falls short: three tokens a second from
      empty asks for a third of a second and returns 333333333 nanoseconds. */
  lemma ReturnedWaitCanFallShort(now: int)
    ensures var c, s := Config(1.0, 3.0), State(0.0, Some(now));
            && WaitFor(c, s, now) == 333333333
            && !Grants(c, AfterTake(c, s, now), now + WaitFor(c, s, now))
  {
    var c, s := Config(1.0, 3.0), State(0.0, Some(now));
    ReturnedWaitSuffices(c, s, now);
    assert 1.0 / 3.0 * SECOND > 333333333.0;
  }

  /** No single wait exceeds one token's accrual time, the unit loginBudget adds up. */
  lemma WaitIsAtMostOneToken(c: Config, s: State, now: int)
    requires c.perSec > 0.0 && Refilled(c, s, now) >= 0.0
    ensures WaitFor(c, s, now) as real <= SECOND / c.perSec
  {
    var f := Refilled(c, s, now);
    if f < 1.0 {
      assert (1.0 - f) / c.perSec * SECOND + f * (SECOND / c.perSec) == SECOND / c.perSec;
      assert f * (SECOND / c.perSec) >= 0.0;
    }
    assert SECOND / c.perSec > 0.0;
  }

  // ---- the wait loop ----

  /** A bucket that refills and can hold a token. */
  type Rate = c: Config | c.perSec > 0.0 && c.burst >= 1.0 witness Config(1.0, 1.0)

  /** What is missing, in nanoseconds. */
  function Need(c: Rate, s: State, now: int): real {
    (1.0 - Refilled(c, s, now)) / c.perSec * SECOND
  }

  /** How long a refused waiter rests before it asks again. */
  function Rest(c: Rate, s: State, now: int): int {
    Max(1, WaitFor(c, s, now))
  }

  /** Shrinks from ask to ask: zero once the ask is granted. */
  function Left(c: Rate, s: State, now: int): nat {
    if Grants(c, s, now) then 0 else
      assert (1.0 - Refilled(c, s, now)) / c.perSec > 0.0;
      WaitFor(c, s, now) + 1
  }

  lemma NeedShrinks(c: Rate, s: State, now: int, span: int)
    requires !Grants(c, s, now) && span >= 0 && !Grants(c, AfterTake(c, s, now), now + span)
    ensures Need(c, AfterTake(c, s, now), now + span) == Need(c, s, now) - span as real
  {
    var f, unit := Refilled(c, s, now), SECOND / c.perSec;
    assert Accrued(c, 0) == 0.0;
    assert Refilled(c, AfterTake(c, s, now), now + span) == f + Accrued(c, span);
    assert Need(c, s, now) == (1.0 - f) * unit;
    assert Need(c, AfterTake(c, s, now), now + span) == (1.0 - f - Accrued(c, span)) * unit;
    assert Accrued(c, span) * unit == span as real;
  }

  /** A lone waiter refused again is missing less than a nanosecond's worth. */
  lemma LeftShrinks(c: Rate, s: State, now: int)
    requires !Grants(c, s, now)
    ensures var first, rest := AfterTake(c, s, now), Rest(c, s, now);
            && Left(c, first, now + rest) < Left(c, s, now)
            && (!Grants(c, first, now + rest) ==> rest == WaitFor(c, s, now) && WaitFor(c, first, now + rest) == 0)
  {
    var first, rest := AfterTake(c, s, now), Rest(c, s, now);
    assert Need(c, s, now) > 0.0 && WaitFor(c, s, now) == Need(c, s, now).Floor;
    GrantedAfterSpan(c, s, now, rest);
    if !Grants(c, first, now + rest) {
      NeedShrinks(c, s, now, rest);
      assert WaitFor(c, first, now + rest) == Need(c, first, now + rest).Floor;
    }
  }

  /** The bucket after others' takes. */
  function AfterTakes(c: Config, s: State, takes: seq<int>): State {
    if takes == [] then s else AfterTake(c, AfterTakes(c, s, takes[..|takes| - 1]), takes[|takes| - 1])
  }

  /** Left alone for as long as the burst takes to accrue, a bucket is full. */
  lemma IdleBucketIsFull(c: Rate, s: State, now: int)
    requires s.tokens >= 0.0 && s.last.Some? && now >= s.last.value
    requires (now - s.last.value) as real >= c.burst / c.perSec * SECOND
    ensures Refilled(c, s, now) == c.burst
  {
    var span := (now - s.last.value) as real;
    var scale := c.perSec / SECOND;
    assert c.burst / c.perSec * SECOND * scale == c.burst;
    ProductIsNonnegative(span - c.burst / c.perSec * SECOND, scale);
    assert Accrued(c, now - s.last.value) == span * scale >= c.burst;
    assert span > 0.0;
  }

  /** k asks at one instant. */
  function AtOnce(now: int, k: nat): seq<int> {
    seq(k, _ => now)
  }

  lemma {:induction false} TakenFromFull(c: Rate, s: State, now: int, k: nat)
    requires Refilled(c, s, now) == c.burst && k as real <= c.burst
    ensures Refilled(c, AfterTakes(c, s, AtOnce(now, k)), now) == c.burst - k as real
    decreases k
  {
    if k > 0 {
      TakenFromFull(c, s, now, k - 1);
      assert AtOnce(now, k)[..k - 1] == AtOnce(now, k - 1) && AtOnce(now, k)[k - 1] == now;
    }
  }

  /** A full bucket, new or left alone that long, grants its burst at one instant and no more:
      after k grants the next ask is granted if and only if the burst has room for it. */
  lemma BurstIsGranted(c: Rate, s: State, now: int, k: nat)
    requires k as real <= c.burst && s.tokens >= 0.0
    requires s == State(c.burst, None)
             || (s.last.Some? && now >= s.last.value
                 && (now - s.last.value) as real >= c.burst / c.perSec * SECOND)
    ensures Grants(c, AfterTakes(c, s, AtOnce(now, k)), now) <==> (k + 1) as real <= c.burst
  {
    if s.last.Some? {
      IdleBucketIsFull(c, s, now);
    }
    TakenFromFull(c, s, now, k);
  }

  /** The state the granted ask found, and how long after the first ask it came. */
  datatype Hold = Hold(before: State, time: int)

  /** The wait loop asking first at `now`, up to the ask that is granted. races[i] are the
      takes others make while it rests after its ask i; after those rests it is alone. */
  function Waited(c: Rate, s: State, now: int, races: seq<seq<int>>): Hold
    decreases |races|, Left(c, s, now)
  {
    if Grants(c, s, now) then Hold(s, 0) else
      var rest := Rest(c, s, now);
      var asked := AfterTake(c, s, now);
      LeftShrinks(c, s, now);
      var w := if races == [] then Waited(c, asked, now + rest, [])
               else Waited(c, AfterTakes(c, asked, races[0]), now + rest, races[1..]);
      Hold(w.before, rest + w.time)
  }

  /** The loop ends, at an ask that is granted. */
  lemma {:induction false} WaitEndsGranted(c: Rate, s: State, now: int, races: seq<seq<int>>)
    ensures var w := Waited(c, s, now, races); w.time >= 0 && Grants(c, w.before, now + w.time)
    decreases |races|, Left(c, s, now)
  {
    if !Grants(c, s, now) {
      var rest, asked := Rest(c, s, now), AfterTake(c, s, now);
      LeftShrinks(c, s, now);
      if races == [] {
        WaitEndsGranted(c, asked, now + rest, []);
      } else {
        WaitEndsGranted(c, AfterTakes(c, asked, races[0]), now + rest, races[1..]);
      }
    }
  }

  lemma WaitGoesOn(c: Rate, s: State, now: int)
    requires !Grants(c, s, now)
    ensures var rest, asked := Rest(c, s, now), AfterTake(c, s, now);
            && Left(c, asked, now + rest) < Left(c, s, now)
            && Waited(c, s, now, []).before == Waited(c, asked, now + rest, []).before
            && Waited(c, s, now, []).time == rest + Waited(c, asked, now + rest, []).time
  {
    LeftShrinks(c, s, now);
  }

  /** Two takes in a row accrue what one take at the end would. */
  lemma RefillTwice(c: Config, s: State, now: int, d: int, e: int)
    requires c.perSec > 0.0 && c.burst >= 1.0 && !Grants(c, s, now) && d >= 0 && e >= 0
    requires !Grants(c, AfterTake(c, s, now), now + d)
    ensures Grants(c, AfterTake(c, AfterTake(c, s, now), now + d), now + d + e)
            == Grants(c, AfterTake(c, s, now), now + d + e)
  {
    AccruedAdds(c, d, e);
    AccruedIsNonnegative(c, d);
    AccruedIsNonnegative(c, e);
    AccruedIsNonnegative(c, d + e);
    assert Accrued(c, 0) == 0.0;
  }

  /** Alone, a refused waiter is granted at its next ask or, a nanosecond later, at the one
      after: the loop is over within the returned time and a nanosecond. */
  lemma SecondTryIsGranted(c: Rate, s: State, now: int)
    requires !Grants(c, s, now)
    ensures var first, d, w := AfterTake(c, s, now), WaitFor(c, s, now), Waited(c, s, now, []);
            && 0 <= d <= w.time <= d + 1
            && (Grants(c, first, now + d) || Grants(c, AfterTake(c, first, now + d), now + d + 1))
  {
    var first, d, rest := AfterTake(c, s, now), WaitFor(c, s, now), Rest(c, s, now);
    ReturnedWaitSuffices(c, s, now);
    LeftShrinks(c, s, now);
    WaitGoesOn(c, s, now);
    if !Grants(c, first, now + d) {
      RefillTwice(c, s, now, d, 1);
    }
    if !Grants(c, first, now + rest) {
      WaitGoesOn(c, first, now + rest);
    }
  }

  class Bucket {
    const cfg: Config
    var tokens: real
    var last: Option<int>

    ghost function View(): State
      reads this
    {
      State(tokens, last)
    }

    constructor (perMin: real, burst: real)
      ensures cfg == Config(burst, perMin / 60.0) && View() == State(burst, None)
    {
      cfg := Config(burst, perMin / 60.0);
      tokens, last := burst, None;
    }

    method TryTake(now: int) returns (ok: bool, wait: int)
      modifies this
      ensures View() == AfterTake(cfg, old(View()), now)
      ensures ok == Grants(cfg, old(View()), now) && wait == WaitFor(cfg, old(View()), now)
    {
      if last.Some? && now > last.value {
        tokens := Min(cfg.burst, tokens + (now - last.value) as real / SECOND * cfg.perSec);
      }
      last := Some(now);
      if tokens >= 1.0 {
        tokens := tokens - 1.0;
        return true, 0;
      }
      if cfg.perSec <= 0.0 {
        return false, Durations.HOUR;
      }
      var need := (1.0 - tokens) / cfg.perSec;
      return false, (need * SECOND).Floor;
    }

    /** The wait loop, for a bucket that refills: it asks until it is granted, resting
        between asks for the time returned, and no less than the nanosecond by which a
        clock moves. */
    method Wait(now: int) returns (at: int)
      requires cfg.perSec > 0.0 && cfg.burst >= 1.0
      modifies this
      ensures var w := Waited(cfg, old(View()), now, []);
              at == now + w.time && Grants(cfg, w.before, at) && View() == AfterTake(cfg, w.before, at)
    {
      at := now;
      ghost var before := View();
      WaitEndsGranted(cfg, before, now, []);
      var ok, d := TryTake(at);
      while !ok
        invariant View() == AfterTake(cfg, before, at)
        invariant ok == Grants(cfg, before, at) && d == WaitFor(cfg, before, at)
        invariant var w, rest := Waited(cfg, old(View()), now, []), Waited(cfg, before, at, []);
                  w.before == rest.before && now + w.time == at + rest.time
        decreases Left(cfg, before, at)
      {
        WaitGoesOn(cfg, before, at);
        before := View();
        at := at + Max(1, d);
        ok, d := TryTake(at);
      }
    }
  }

  // ---- the budget of a login ----

  /** Time.Duration(Second / perSec): one token's worth, fraction dropped. */
  function TokenTime(c: Config): int {
    if c.perSec <= 0.0 then 0 else (SECOND / c.perSec).Floor
  }

  const LOGIN_FLOW_REQUESTS: int := 6

  function LoginBudget(login: Config, total: Config): int {
    LOGIN_FLOW_REQUESTS * (TokenTime(login) + TokenTime(total))
  }

  lemma RefillKeepsTokens(c: Config, s: State, now: int)
    requires c.perSec >= 0.0 && c.burst >= 0.0 && s.tokens >= 0.0
    ensures Refilled(c, s, now) >= 0.0 && AfterTake(c, s, now).tokens >= 0.0
    ensures Grants(c, s, now) ==> AfterTake(c, s, now).tokens == Refilled(c, s, now) - 1.0
  {
    if s.last.Some? && now > s.last.value {
      AccruedIsNonnegative(c, now - s.last.value);
    }
  }

  /** The budget is six tokens' time of each bucket, less the fractions dropped. */
  lemma BudgetIsSixOfEach(login: Rate, total: Rate)
    ensures var worst := 6.0 * (SECOND / login.perSec + SECOND / total.perSec);
            worst - 12.0 < LoginBudget(login, total) as real <= worst
  {
  }

  lemma WaitForIsShort(c: Rate, s: State, now: int)
    requires Refilled(c, s, now) >= 0.0
    ensures WaitFor(c, s, now) <= TokenTime(c) && 0 <= TokenTime(c)
  {
    WaitIsAtMostOneToken(c, s, now);
    assert SECOND / c.perSec > 0.0;
  }

  lemma TokenTimeIsNonnegative(c: Rate)
    ensures TokenTime(c) >= 0
  {
    assert SECOND / c.perSec > 0.0;
  }

  lemma {:induction false} TakesKeepTokens(c: Rate, s: State, takes: seq<int>)
    requires s.tokens >= 0.0
    ensures AfterTakes(c, s, takes).tokens >= 0.0
    decreases |takes|
  {
    if takes != [] {
      TakesKeepTokens(c, s, takes[..|takes| - 1]);
      RefillKeepsTokens(c, AfterTakes(c, s, takes[..|takes| - 1]), takes[|takes| - 1]);
    }
  }

  /** n holds of `each`. */
  function Times(n: nat, each: int): int {
    if n == 0 then 0 else each + Times(n - 1, each)
  }

  lemma {:induction false} TimesIsNonnegative(n: nat, each: int)
    requires each >= 0
    ensures 0 <= Times(n, each)
  {
    if n > 0 {
      TimesIsNonnegative(n - 1, each);
    }
  }

  lemma {:induction false} TimesMultiplies(n: nat, each: int)
    ensures Times(n, each) == n * each
  {
    if n > 0 {
      TimesMultiplies(n - 1, each);
      assert n * each == each + (n - 1) * each;
    }
  }

  lemma {:induction false} WaitedKeepsTokens(c: Rate, s: State, now: int, races: seq<seq<int>>)
    requires s.tokens >= 0.0
    ensures Waited(c, s, now, races).before.tokens >= 0.0
    decreases |races|, Left(c, s, now)
  {
    if !Grants(c, s, now) {
      var rest, asked := Rest(c, s, now), AfterTake(c, s, now);
      LeftShrinks(c, s, now);
      RefillKeepsTokens(c, s, now);
      if races == [] {
        WaitedKeepsTokens(c, asked, now + rest, []);
      } else {
        TakesKeepTokens(c, asked, races[0]);
        WaitedKeepsTokens(c, AfterTakes(c, asked, races[0]), now + rest, races[1..]);
      }
    }
  }

  /** A wait is held at most one token's time and a nanosecond, and as much again for each
      of its rests in which others draw on the bucket. */
  lemma {:induction false} WaitedIsShort(c: Rate, s: State, now: int, races: seq<seq<int>>)
    requires s.tokens >= 0.0
    ensures var w := Waited(c, s, now, races);
            0 <= w.time <= Times(|races| + 1, TokenTime(c) + 1) && Grants(c, w.before, now + w.time)
    decreases |races|
  {
    RefillKeepsTokens(c, s, now);
    WaitForIsShort(c, s, now);
    WaitEndsGranted(c, s, now, races);
    TimesIsNonnegative(|races|, TokenTime(c) + 1);
    if !Grants(c, s, now) {
      if races == [] {
        SecondTryIsGranted(c, s, now);
      } else {
        var asked := AfterTake(c, s, now);
        TakesKeepTokens(c, asked, races[0]);
        WaitedIsShort(c, AfterTakes(c, asked, races[0]), now + Rest(c, s, now), races[1..]);
      }
    }
  }

  /** One request of the login surface: the time spent at the portal and elsewhere before
      it, what others draw from the two buckets in that time, and what they draw during its
      waits in the one and then the other. */
  datatype Visit = Visit(gap: nat, loginTakes: seq<int>, totalTakes: seq<int>,
                         loginRaces: seq<seq<int>>, totalRaces: seq<seq<int>>)

  /** The two buckets after a request, and how long it was held. */
  datatype Held = Held(login: State, total: State, hold: int)

  /** It pays into the login bucket and then the total. */
  function Request(login: Rate, total: Rate, ls: State, ts: State, now: int, v: Visit): Held {
    var at := now + v.gap;
    var d := Waited(login, AfterTakes(login, ls, v.loginTakes), at, v.loginRaces);
    var e := Waited(total, AfterTakes(total, ts, v.totalTakes), at + d.time, v.totalRaces);
    Held(AfterTake(login, d.before, at + d.time), AfterTake(total, e.before, at + d.time + e.time), d.time + e.time)
  }

  type Step = (State, State, int, Visit) -> Held

  /** How long a flow of requests is held altogether. */
  function FlowWaits(step: Step, ls: State, ts: State, now: int, visits: seq<Visit>): int
    decreases |visits|
  {
    if visits == [] then 0 else
      var h := step(ls, ts, now, visits[0]);
      h.hold + FlowWaits(step, h.login, h.total, now + visits[0].gap + h.hold, visits[1..])
  }

  function Governed(login: Rate, total: Rate): Step {
    (ls, ts, now, v) => Request(login, total, ls, ts, now, v)
  }

  /** How long the governor holds a flow of login requests. */
  function LoginWaits(login: Rate, total: Rate, ls: State, ts: State, now: int, visits: seq<Visit>): int {
    FlowWaits(Governed(login, total), ls, ts, now, visits)
  }

  type Invariant = (State, State, int) -> bool

  /** From where inv holds, a request of a visit that is ok is held at most `each`, and leaves
      inv holding. */
  ghost predicate HoldsAtMost(step: Step, inv: Invariant, ok: Visit -> bool, each: int) {
    forall ls, ts, now, v :: inv(ls, ts, now) && ok(v) ==>
      var h := step(ls, ts, now, v);
      inv(h.login, h.total, now + v.gap + h.hold) && 0 <= h.hold <= each
  }

  lemma {:induction false} HoldsAddUp(step: Step, inv: Invariant, ok: Visit -> bool, each: int,
                                      ls: State, ts: State, now: int, visits: seq<Visit>)
    requires HoldsAtMost(step, inv, ok, each) && inv(ls, ts, now)
    requires forall i :: 0 <= i < |visits| ==> ok(visits[i])
    ensures 0 <= FlowWaits(step, ls, ts, now, visits) <= |visits| * each
    decreases |visits|
  {
    if visits != [] {
      var h := step(ls, ts, now, visits[0]);
      HoldsAddUp(step, inv, ok, each, h.login, h.total, now + visits[0].gap + h.hold, visits[1..]);
      assert |visits| * each == each + |visits[1..]| * each;
    }
  }

  // ---- a login that has the buckets to itself ----

  predicate Alone(v: Visit) {
    v.loginTakes == v.totalTakes == [] && v.loginRaces == v.totalRaces == []
  }

  /** A bucket in use: not overdrawn, full until its first take, last used by `now`. */
  predicate Ready(s: State, now: int) {
    s.tokens >= 0.0 && if s.last.None? then s.tokens >= 1.0 else s.last.value <= now
  }

  /** What a later ask has accrued meanwhile it does not wait for. */
  lemma LaterWaitIsShorter(c: Rate, s: State, at: int, d: int)
    requires Ready(s, at) && d >= 0
    ensures !Grants(c, s, at + d) ==> WaitFor(c, s, at + d) <= TokenTime(c) - d
  {
    if !Grants(c, s, at + d) {
      var idle := at - s.last.value;
      AccruedAdds(c, idle, d);
      AccruedIsNonnegative(c, idle);
      AccruedIsNonnegative(c, idle + d);
      assert Accrued(c, 0) == 0.0;
      var f := Refilled(c, s, at + d);
      assert f >= Accrued(c, d);
      var unit := SECOND / c.perSec;
      assert (1.0 - f) / c.perSec * SECOND == (1.0 - f) * unit;
      ProductIsNonnegative(f - Accrued(c, d), unit);
      assert Accrued(c, d) * unit == d as real;
      assert (1.0 - f) * unit <= unit - d as real;
    }
  }

  lemma GrantLeavesReady(c: Rate, before: State, at: int)
    requires before.tokens >= 0.0
    ensures Ready(AfterTake(c, before, at), at)
  {
    RefillKeepsTokens(c, before, at);
  }

  lemma LaterWaitedIsShorter(c: Rate, s: State, at: int, d: int)
    requires Ready(s, at) && d >= 0
    ensures 0 <= Waited(c, s, at + d, []).time <= Max(0, TokenTime(c) - d + 1)
  {
    if !Grants(c, s, at + d) {
      LaterWaitIsShorter(c, s, at, d);
      SecondTryIsGranted(c, s, at + d);
    }
  }

  lemma LoneWaitIsShort(c: Rate, s: State, now: int)
    requires s.tokens >= 0.0
    ensures 0 <= Waited(c, s, now, []).time <= TokenTime(c) + 1
    ensures Ready(AfterTake(c, Waited(c, s, now, []).before, now + Waited(c, s, now, []).time),
                  now + Waited(c, s, now, []).time)
  {
    WaitedIsShort(c, s, now, []);
    assert Times(1, TokenTime(c) + 1) == TokenTime(c) + 1 + Times(0, TokenTime(c) + 1);
    WaitedKeepsTokens(c, s, now, []);
    GrantLeavesReady(c, Waited(c, s, now, []).before, now + Waited(c, s, now, []).time);
  }

  /** A request waits for the slower of its two buckets and no longer: what it waits in the
      login bucket the total accrues too. */
  lemma RequestIsShort(login: Rate, total: Rate, ls: State, ts: State, now: int, v: Visit)
    requires Ready(ls, now) && Ready(ts, now) && Alone(v)
    ensures var h := Request(login, total, ls, ts, now, v);
            && Ready(h.login, now + v.gap + h.hold) && Ready(h.total, now + v.gap + h.hold)
            && 0 <= h.hold <= Max(TokenTime(login), TokenTime(total)) + 1
  {
    var at := now + v.gap;
    var d := Waited(login, ls, at, []).time;
    LoneWaitIsShort(login, ls, at);
    LoneWaitIsShort(total, ts, at + d);
    LaterWaitedIsShorter(total, ts, at, d);
  }

  /** From whatever the buckets hold, with no one else drawing on them, a login of n
      requests is held at most n tokens' time of the slower bucket, and a nanosecond a
      request. */
  lemma WaitsAreBudgeted(login: Rate, total: Rate, ls: State, ts: State, now: int, visits: seq<Visit>)
    requires Ready(ls, now) && Ready(ts, now)
    requires forall i :: 0 <= i < |visits| ==> Alone(visits[i])
    ensures 0 <= LoginWaits(login, total, ls, ts, now, visits)
                 <= |visits| * (Max(TokenTime(login), TokenTime(total)) + 1)
  {
    var step, each := Governed(login, total), Max(TokenTime(login), TokenTime(total)) + 1;
    var inv: Invariant := (l: State, t: State, n: int) => Ready(l, n) && Ready(t, n);
    forall l, t, n, v | inv(l, t, n) && Alone(v)
      ensures var h := step(l, t, n, v);
              inv(h.login, h.total, n + v.gap + h.hold) && 0 <= h.hold <= each
    {
      RequestIsShort(login, total, l, t, n, v);
    }
    HoldsAddUp(step, inv, Alone, each, ls, ts, now, visits);
  }

  lemma TokenTimeIsPositive(c: Rate)
    requires c.perSec <= SECOND
    ensures TokenTime(c) >= 1
  {
    assert SECOND / c.perSec >= 1.0;
  }

  /** So loginBudget is the worst case it is meant to be for a login that has the buckets to
      itself, at any rate of up to one request a nanosecond: adding the two buckets' times
      more than covers the fractions dropped. */
  lemma LoginBudgetCoversALogin(login: Rate, total: Rate, ls: State, ts: State, now: int, visits: seq<Visit>)
    requires login.perSec <= SECOND && total.perSec <= SECOND && Ready(ls, now) && Ready(ts, now)
    requires |visits| == LOGIN_FLOW_REQUESTS && forall i :: 0 <= i < |visits| ==> Alone(visits[i])
    ensures LoginWaits(login, total, ls, ts, now, visits) <= LoginBudget(login, total)
  {
    WaitsAreBudgeted(login, total, ls, ts, now, visits);
    TokenTimeIsPositive(login);
    TokenTimeIsPositive(total);
  }

  // ---- and one that has not ----

  /** Others draw on a bucket as they like, but in at most k rests of any one wait. */
  predicate RacedAtMost(v: Visit, k: nat) {
    |v.loginRaces| <= k && |v.totalRaces| <= k
  }

  lemma {:induction false} TimesGrows(n: nat, m: nat, each: int)
    requires n <= m && each >= 0
    ensures 0 <= Times(n, each) <= Times(m, each)
    decreases m
  {
    if n < m {
      TimesGrows(n, m - 1, each);
    } else if m > 0 {
      TimesGrows(n - 1, m - 1, each);
    }
  }

  lemma RacedWaitIsShort(c: Rate, s: State, takes: seq<int>, now: int, races: seq<seq<int>>, k: nat)
    requires s.tokens >= 0.0 && |races| <= k
    ensures var w := Waited(c, AfterTakes(c, s, takes), now, races);
            && AfterTake(c, w.before, now + w.time).tokens >= 0.0
            && 0 <= w.time <= Times(k + 1, TokenTime(c) + 1)
  {
    var s' := AfterTakes(c, s, takes);
    TakesKeepTokens(c, s, takes);
    WaitedIsShort(c, s', now, races);
    WaitedKeepsTokens(c, s', now, races);
    var w := Waited(c, s', now, races);
    RefillKeepsTokens(c, w.before, now + w.time);
    TokenTimeIsNonnegative(c);
    TimesGrows(|races| + 1, k + 1, TokenTime(c) + 1);
  }

  lemma RacedRequestIsShort(login: Rate, total: Rate, ls: State, ts: State, now: int, v: Visit, k: nat)
    requires ls.tokens >= 0.0 && ts.tokens >= 0.0 && RacedAtMost(v, k)
    ensures var h := Request(login, total, ls, ts, now, v);
            && h.login.tokens >= 0.0 && h.total.tokens >= 0.0
            && 0 <= h.hold <= Times(k + 1, TokenTime(login) + 1) + Times(k + 1, TokenTime(total) + 1)
  {
    var at := now + v.gap;
    var d := Waited(login, AfterTakes(login, ls, v.loginTakes), at, v.loginRaces);
    RacedWaitIsShort(login, ls, v.loginTakes, at, v.loginRaces, k);
    RacedWaitIsShort(total, ts, v.totalTakes, at + d.time, v.totalRaces, k);
  }

  lemma RacedWaitsAddUp(login: Rate, total: Rate, ls: State, ts: State, now: int, visits: seq<Visit>, k: nat)
    requires ls.tokens >= 0.0 && ts.tokens >= 0.0
    requires forall i :: 0 <= i < |visits| ==> RacedAtMost(visits[i], k)
    ensures 0 <= LoginWaits(login, total, ls, ts, now, visits)
                 <= |visits| * (Times(k + 1, TokenTime(login) + 1) + Times(k + 1, TokenTime(total) + 1))
  {
    var step := Governed(login, total);
    var each := Times(k + 1, TokenTime(login) + 1) + Times(k + 1, TokenTime(total) + 1);
    var inv: Invariant := (l: State, t: State, n: int) => l.tokens >= 0.0 && t.tokens >= 0.0;
    var ok := (v: Visit) => RacedAtMost(v, k);
    forall l, t, n, v | inv(l, t, n) && ok(v)
      ensures var h := step(l, t, n, v);
              inv(h.login, h.total, n + v.gap + h.hold) && 0 <= h.hold <= each
    {
      RacedRequestIsShort(login, total, l, t, n, v, k);
    }
    HoldsAddUp(step, inv, ok, each, ls, ts, now, visits);
  }

  lemma SixHolds(k: nat, a: int, b: int)
    ensures 6 * (Times(k + 1, a + 1) + Times(k + 1, b + 1)) == (k + 1) * (6 * (a + b) + 12)
  {
    TimesMultiplies(k + 1, a + 1);
    TimesMultiplies(k + 1, b + 1);
  }

  /** With other traffic on both buckets, racing each wait in at most k of its rests and
      drawing freely between requests, a whole login is held at most k + 1 times its budget
      and twelve nanoseconds. */
  lemma RacedLoginIsBounded(login: Rate, total: Rate, ls: State, ts: State, now: int, visits: seq<Visit>, k: nat)
    requires ls.tokens >= 0.0 && ts.tokens >= 0.0
    requires |visits| == LOGIN_FLOW_REQUESTS && forall i :: 0 <= i < |visits| ==> RacedAtMost(visits[i], k)
    ensures 0 <= LoginWaits(login, total, ls, ts, now, visits) <= (k + 1) * (LoginBudget(login, total) + 12)
  {
    RacedWaitsAddUp(login, total, ls, ts, now, visits, k);
    SixHolds(k, TokenTime(login), TokenTime(total));
  }

  // ---- which does break the budget ----

  /** A fast login bucket and a slow total: a thousand tokens a second, and one. */
  const FAST: Rate := Config(1.0, 1000.0)
  const SLOW: Rate := Config(1.0, 1.0)
  const TICKS: int := 1_000_000_000

  /** Someone takes the total's one token the instant it accrues, just before the waiter. */
  function Beaten(now: int): Visit {
    Visit(0, [], [], [], [[now + TICKS]])
  }

  lemma BeatenWaitsTwice(ls: State, now: int)
    requires Grants(FAST, ls, now)
    ensures var h := Request(FAST, SLOW, ls, State(0.0, Some(now)), now, Beaten(now));
            h.hold == 2 * TICKS && h.total == State(0.0, Some(now + 2 * TICKS)) && Grants(FAST, h.login, now + 2 * TICKS)
  {
    var s0 := State(0.0, Some(now));
    var s1 := State(0.0, Some(now + TICKS));
    var s2 := State(0.0, Some(now + 2 * TICKS));
    assert WaitFor(SLOW, s0, now) == TICKS && AfterTake(SLOW, s0, now) == s0;
    assert AfterTake(SLOW, s0, now + TICKS) == s1;
    assert AfterTakes(SLOW, s0, [now + TICKS]) == s1 by {
      assert [now + TICKS][..0] == [];
    }
    assert WaitFor(SLOW, s1, now + TICKS) == TICKS && AfterTake(SLOW, s1, now + TICKS) == s1;
    assert Grants(SLOW, s1, now + 2 * TICKS) && AfterTake(SLOW, s1, now + 2 * TICKS) == s2;
    assert Waited(SLOW, s1, now + TICKS, []) == Hold(s1, TICKS);
    assert Waited(SLOW, s0, now, [[now + TICKS]]) == Hold(s1, 2 * TICKS);
    assert Waited(FAST, ls, now, []) == Hold(ls, 0);
  }

  /** n requests each beaten to one token. */
  function BeatenEachTime(now: int, n: nat): seq<Visit>
    decreases n
  {
    if n == 0 then [] else [Beaten(now)] + BeatenEachTime(now + 2 * TICKS, n - 1)
  }

  lemma {:induction false} BeatenLoginWaits(ls: State, now: int, n: nat)
    requires Grants(FAST, ls, now)
    ensures |BeatenEachTime(now, n)| == n
    ensures forall i :: 0 <= i < n ==> RacedAtMost(BeatenEachTime(now, n)[i], 1)
    ensures LoginWaits(FAST, SLOW, ls, State(0.0, Some(now)), now, BeatenEachTime(now, n)) == n * (2 * TICKS)
    decreases n
  {
    if n > 0 {
      BeatenWaitsTwice(ls, now);
      var h := Request(FAST, SLOW, ls, State(0.0, Some(now)), now, Beaten(now));
      BeatenLoginWaits(h.login, now + 2 * TICKS, n - 1);
      assert BeatenEachTime(now, n)[1..] == BeatenEachTime(now + 2 * TICKS, n - 1);
    }
  }

  /** One competitor a request, and a login is held past its budget. */
  lemma OneCompetitorBreaksTheBudget(now: int)
    ensures forall v :: v in BeatenEachTime(now, LOGIN_FLOW_REQUESTS) ==> RacedAtMost(v, 1)
    ensures LoginWaits(FAST, SLOW, State(1.0, Some(now)), State(0.0, Some(now)), now, BeatenEachTime(now, LOGIN_FLOW_REQUESTS))
            > LoginBudget(FAST, SLOW)
  {
    BeatenLoginWaits(State(1.0, Some(now)), now, LOGIN_FLOW_REQUESTS);
    assert SECOND / 1000.0 == 1000000.0;
  }
}
