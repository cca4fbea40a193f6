/** How long a scheduled change waits after its boundary (spreadElapsed, effectiveSpread
    and spreadOffset in internal/scheduler/reconcile.go). */
module Spread {
  import opened Durations
  import Schedule

  const SPREAD_OVERRIDE_CAP: int := 10 * MINUTE
  const SPREAD_SPACING_FACTOR: int := 2

  datatype Config = Config(spreadWindow: int, opDrain: int)

  function EffectiveSpread(c: Config, fleet: int): int {
    if c.spreadWindow <= 0 || c.opDrain <= 0 || fleet <= 0 then 0
    else
      var want := fleet * c.opDrain * SPREAD_SPACING_FACTOR;
      if want > c.spreadWindow then c.spreadWindow else want
  }

  /** A permit's place in the window; slot is the hash of its id scaled into [0, 1). */
  function SpreadOffset(slot: real, window: int): int {
    (slot * window as real).Floor
  }

  /** Go's d/10, which truncates; only asked of positive d. */
  function BookingOffset(offset: int, res: Schedule.Resolution): int
    requires res.since.Some?
  {
    var capped :=
      if res.until.Some? && res.until.value - res.since.value > 0
         && offset > (res.until.value - res.since.value) / 10
      then (res.until.value - res.since.value) / 10 else offset;
    if capped > SPREAD_OVERRIDE_CAP then SPREAD_OVERRIDE_CAP else capped
  }

  predicate SpreadElapsed(window: int, slot: real, res: Schedule.Resolution, now: int) {
    if window <= 0 || !res.scheduled || res.since.None? then true else
      var elapsed := now - res.since.value;
      if elapsed < 0 || elapsed >= window then true else
        var drawn := SpreadOffset(slot, window);
        var offset := if res.source.Booking? then BookingOffset(drawn, res) else drawn;
        if res.until.Some? && res.until.value <= res.since.value + offset then true
        else elapsed >= offset
  }

  lemma OffsetInWindow(slot: real, window: int)
    requires 0.0 <= slot < 1.0 && window > 0
    ensures 0 <= SpreadOffset(slot, window) < window
  {
    var w := window as real;
    assert slot * w >= 0.0;
    assert (1.0 - slot) * w > 0.0;
  }

  /** The whole hold, as one number: how long after Since the change becomes eligible. */
  function Hold(window: int, slot: real, res: Schedule.Resolution): int {
    if window <= 0 || !res.scheduled || res.since.None? then 0 else
      var drawn := SpreadOffset(slot, window);
      var offset := if res.source.Booking? then BookingOffset(drawn, res) else drawn;
      if res.until.Some? && res.until.value <= res.since.value + offset then 0 else offset
  }

  /** A slot takes its share of the window, to the nanosecond. */
  lemma OffsetIsTheShare(slot: real, window: int)
    ensures SpreadOffset(slot, window) as real <= slot * window as real < SpreadOffset(slot, window) as real + 1.0
  {
  }

  /** Which hold it is. A change a person asked for, or any change with spreading off, is not
      held. A roster day is held for its slot's share of the window. A booking made ahead is
      held for that share, ten minutes, or a tenth of its length, whichever is least; one that
      would end within its hold is not held at all. */
  lemma HoldIsExact(window: int, slot: real, res: Schedule.Resolution)
    requires 0.0 <= slot < 1.0 && res.since.Some?
    ensures var share, hold := SpreadOffset(slot, window), Hold(window, slot, res);
            && (window <= 0 || !res.scheduled ==> hold == 0)
            && (window > 0 && res.scheduled && !res.source.Booking? && res.until.None? ==> hold == share)
            && (window > 0 && res.scheduled && res.source.Booking? && res.until.None? ==>
                  hold <= share && hold <= 600_000_000_000 && (hold == share || hold == 600_000_000_000))
            && (window > 0 && res.scheduled && res.source.Booking?
                && res.until.Some? && res.until.value > res.since.value ==>
                  var tenth := (res.until.value - res.since.value) / 10;
                  && hold <= share && hold <= 600_000_000_000 && hold <= tenth
                  && (hold == share || hold == 600_000_000_000 || hold == tenth))
            && (res.until.Some? && res.until.value <= res.since.value ==> hold == 0)
  {
    if window > 0 {
      OffsetInWindow(slot, window);
    }
  }

  /** Before it becomes the right answer, and once the window is over, nothing holds it. */
  lemma NeverHeldOutsideTheWindow(window: int, slot: real, res: Schedule.Resolution, now: int)
    requires res.since.Some? && (now < res.since.value || now >= res.since.value + window)
    ensures SpreadElapsed(window, slot, res, now)
  {
  }

  /** From Since on, eligibility switches on once, after the hold, and stays on: it is
      monotone in time and comes within the window. */
  lemma EligibleExactlyAfterHold(window: int, slot: real, res: Schedule.Resolution, now: int)
    requires 0.0 <= slot < 1.0 && res.since.Some? && now >= res.since.value
    ensures SpreadElapsed(window, slot, res, now) <==> now >= res.since.value + Hold(window, slot, res)
    ensures 0 <= Hold(window, slot, res) && (window > 0 ==> Hold(window, slot, res) < window)
  {
    if window > 0 {
      OffsetInWindow(slot, window);
    }
  }

  /** An advance booking is held at most a tenth of its length and at most ten minutes,
      whatever the fleet's window and the permit's slot, so never to its end. */
  lemma BookingHoldIsShort(window: int, slot: real, res: Schedule.Resolution)
    requires 0.0 <= slot < 1.0 && res.source.Booking? && res.since.Some?
    ensures Hold(window, slot, res) <= SPREAD_OVERRIDE_CAP
    ensures res.until.Some? && res.until.value > res.since.value ==>
              && Hold(window, slot, res) <= (res.until.value - res.since.value) / 10
              && res.since.value + Hold(window, slot, res) < res.until.value
  {
    if window > 0 {
      OffsetInWindow(slot, window);
    }
  }

  /** Put together with Resolve: while a booking made in advance is the one resolved, it
      is eligible at every instant from a tenth of its length (or ten minutes, if that is
      less) after its start, and that instant lies before its end. */
  lemma AdvanceBookingIsNotStarved(p: Schedule.Plan, o: Schedule.Override, window: int, slot: real, now: int)
    requires 0.0 <= slot < 1.0
    requires o.startsAt > o.createdAt && o.endsAt.Some?
    requires Schedule.Active(o, now) && Schedule.Resolved(p, now) == Schedule.BookingResolution(o)
    ensures var tenth := (o.endsAt.value - o.startsAt) / 10;
            var hold := if tenth < SPREAD_OVERRIDE_CAP then tenth else SPREAD_OVERRIDE_CAP;
            && o.startsAt + hold < o.endsAt.value
            && (now >= o.startsAt + hold ==> SpreadElapsed(window, slot, Schedule.Resolved(p, now), now))
  {
    var res := Schedule.BookingResolution(o);
    EligibleExactlyAfterHold(window, slot, res, now);
    BookingHoldIsShort(window, slot, res);
  }

  /** The window never exceeds the configured cap, and below the cap it is exactly twice
      the time the fleet takes to drain, so it only ever lowers the rate. */
  lemma EffectiveSpreadIsCapped(c: Config, fleet: int)
    ensures 0 <= EffectiveSpread(c, fleet)
    ensures EffectiveSpread(c, fleet) > 0 <==> c.spreadWindow > 0 && c.opDrain > 0 && fleet > 0
    ensures EffectiveSpread(c, fleet) > 0 ==>
              EffectiveSpread(c, fleet) <= c.spreadWindow && EffectiveSpread(c, fleet) <= 2 * (fleet * c.opDrain)
              && (EffectiveSpread(c, fleet) < c.spreadWindow ==> EffectiveSpread(c, fleet) == 2 * (fleet * c.opDrain))
  {
    if c.spreadWindow > 0 && c.opDrain > 0 && fleet > 0 {
      assert fleet * c.opDrain >= 1 * c.opDrain;
    }
  }
}
