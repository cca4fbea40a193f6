/** When a failing permit is tried again (deferRetry, parkRetry, unparkIfTargetChanged,
    retryDeferred and clearRetry in internal/scheduler/scheduler.go), as reconcilePermit
    consults it on each tick. A transient failure stretches the next attempt; a refusal is
    parked for that plate. */
module RetryBook {
  import opened Arithmetic
  import opened Durations
  import opened Schedule

  const PARKED_RETRY: int := 365 * 24 * 60 * MINUTE

  datatype State = State(nextTry: map<int, int>, parkedFor: map<int, string>)

  /** interval << min(streak, 5), capped at half an hour. */
  function DeferFor(streak: nat): int {
    var b := MINUTE * Pow2(if streak < 5 then streak else 5);
    if b > 30 * MINUTE then 30 * MINUTE else b
  }

  /** d scaled by a factor within jitterFrac of one, drawn by roll from [0, 1). */
  function Jittered(d: int, jitterFrac: real, roll: real): int {
    if jitterFrac <= 0.0 || d <= 0 then d else
      var j := d as real * (1.0 + (roll * 2.0 - 1.0) * jitterFrac);
      if j < 0.0 then 0 else j.Floor
  }

  predicate RetryDeferred(s: State, id: int, now: int) {
    id in s.nextTry && now < s.nextTry[id]
  }

  function Cleared(s: State, id: int): State {
    State(s.nextTry - {id}, s.parkedFor - {id})
  }

  function Deferred(jitterFrac: real, s: State, id: int, streak: nat, now: int, roll: real): State {
    s.(nextTry := s.nextTry[id := now + Jittered(DeferFor(streak), jitterFrac, roll)])
  }

  function Parked(s: State, id: int, plate: string, now: int): State {
    State(s.nextTry[id := now + PARKED_RETRY], s.parkedFor[id := plate])
  }

  function UnparkIfTargetChanged(s: State, id: int, want: string): State {
    if id in s.parkedFor && !SamePlate(s.parkedFor[id], want) then Cleared(s, id) else s
  }

  class Book {
    const jitterFrac: real
    var nextTry: map<int, int>
    var parkedFor: map<int, string>

    function View(): State
      reads this
    {
      State(nextTry, parkedFor)
    }

    constructor (jitterFrac: real)
      ensures this.jitterFrac == jitterFrac && View() == State(map[], map[])
    {
      this.jitterFrac := jitterFrac;
      nextTry, parkedFor := map[], map[];
    }

    /** roll is the random draw. */
    method DeferRetry(id: int, streak: nat, now: int, roll: real)
      modifies this
      ensures View() == Deferred(jitterFrac, old(View()), id, streak, now, roll)
    {
      var b := MINUTE * Pow2(if streak < 5 then streak else 5);
      if b > 30 * MINUTE {
        b := 30 * MINUTE;
      }
      nextTry := nextTry[id := now + Jittered(b, jitterFrac, roll)];
    }

    method ParkRetry(id: int, plate: string, now: int)
      modifies this
      ensures View() == Parked(old(View()), id, plate, now)
    {
      nextTry := nextTry[id := now + PARKED_RETRY];
      parkedFor := parkedFor[id := plate];
    }

    method Unpark(id: int, want: string)
      modifies this
      ensures View() == UnparkIfTargetChanged(old(View()), id, want)
    {
      if id !in parkedFor || SamePlate(parkedFor[id], want) {
        return;
      }
      nextTry := nextTry - {id};
      parkedFor := parkedFor - {id};
    }

    method ClearRetry(id: int)
      modifies this
      ensures View() == Cleared(old(View()), id)
    {
      nextTry := nextTry - {id};
      parkedFor := parkedFor - {id};
    }
  }

  // ---- ticks ----

  datatype Outcome = Landed | Failed(streak: nat, roll: real) | Refused

  /** A tick that wants a change, with what an attempt would come to; or a user's kick. */
  datatype Event = Tick(id: int, want: string, now: int, outcome: Outcome) | Kick(id: int)

  predicate Attempts(s: State, e: Event) {
    e.Tick? && !RetryDeferred(UnparkIfTargetChanged(s, e.id, e.want), e.id, e.now)
  }

  function Apply(jitterFrac: real, s: State, e: Event): State {
    match e
    case Kick(id) => Cleared(s, id)
    case Tick(id, want, now, outcome) =>
      var u := UnparkIfTargetChanged(s, id, want);
      if !Attempts(s, e) then u
      else match outcome
           case Landed => Cleared(u, id)
           case Failed(streak, roll) => Deferred(jitterFrac, u, id, streak, now, roll)
           case Refused => Parked(u, id, want, now)
  }

  function After(jitterFrac: real, s: State, es: seq<Event>): State {
    if es == [] then s else Apply(jitterFrac, After(jitterFrac, s, es[..|es| - 1]), es[|es| - 1])
  }

  /** Ticks of this permit that still want the refused plate, before the deadline; anything
      at all for the others. */
  predicate SameTargetBefore(es: seq<Event>, id: int, plate: string, deadline: int) {
    forall i :: 0 <= i < |es| && es[i].id == id ==>
      es[i].Tick? && SamePlate(plate, es[i].want) && es[i].now < deadline
  }

  /** The permit is parked for this plate until this instant. */
  predicate IsParked(s: State, id: int, plate: string, deadline: int) {
    && id in s.parkedFor && s.parkedFor[id] == plate
    && id in s.nextTry && s.nextTry[id] == deadline
  }

  lemma ParkedAfterOneMore(jitterFrac: real, s: State, e: Event, id: int, plate: string, deadline: int)
    requires IsParked(s, id, plate, deadline)
    requires e.id == id ==> e.Tick? && SamePlate(plate, e.want) && e.now < deadline
    ensures IsParked(Apply(jitterFrac, s, e), id, plate, deadline)
  {
  }

  lemma {:induction false} StaysParked(jitterFrac: real, s: State, es: seq<Event>, id: int, plate: string, deadline: int)
    requires IsParked(s, id, plate, deadline) && SameTargetBefore(es, id, plate, deadline)
    ensures IsParked(After(jitterFrac, s, es), id, plate, deadline)
    decreases |es|
  {
    if es != [] {
      var front, last := es[..|es| - 1], es[|es| - 1];
      assert SameTargetBefore(front, id, plate, deadline) by {
        assert forall i :: 0 <= i < |front| ==> front[i] == es[i];
      }
      StaysParked(jitterFrac, s, front, id, plate, deadline);
      ParkedAfterOneMore(jitterFrac, After(jitterFrac, s, front), last, id, plate, deadline);
    }
  }

  /** A refused write costs nothing more: for a year, through any ticks of this permit that
      want the same plate in any spelling and any doings of other permits, a tick attempts a
      write if and only if it wants another plate. */
  lemma RefusalHoldsForItsPlateOnly(jitterFrac: real, s: State, id: int, plate: string, now: int, es: seq<Event>, next: Event)
    requires SameTargetBefore(es, id, plate, now + PARKED_RETRY)
    requires next.Tick? && next.id == id && next.now < now + PARKED_RETRY
    ensures Attempts(After(jitterFrac, Parked(s, id, plate, now), es), next) <==> !SamePlate(plate, next.want)
  {
    StaysParked(jitterFrac, Parked(s, id, plate, now), es, id, plate, now + PARKED_RETRY);
  }

  /** One permit's failures never delay another's. */
  lemma OthersUntouched(jitterFrac: real, s: State, e: Event, other: int)
    requires other != e.id
    ensures (other in Apply(jitterFrac, s, e).nextTry) == (other in s.nextTry)
    ensures other in s.nextTry ==> Apply(jitterFrac, s, e).nextTry[other] == s.nextTry[other]
    ensures (other in Apply(jitterFrac, s, e).parkedFor) == (other in s.parkedFor)
    ensures other in s.parkedFor ==> Apply(jitterFrac, s, e).parkedFor[other] == s.parkedFor[other]
  {
  }

  /** A longer streak never shortens the backoff, and half an hour is the most. */
  lemma DeferGrows(a: nat, b: nat)
    requires a <= b
    ensures MINUTE <= DeferFor(a) <= DeferFor(b) <= 30 * MINUTE
  {
    Pow2Grows(if a < 5 then a else 5, if b < 5 then b else 5);
  }

  /** From a 1-minute interval: doubling with the streak, up to half an hour. */
  lemma DeferDoubles(streak: nat)
    ensures DeferFor(0) == 60_000_000_000
    ensures DeferFor(streak + 1) == if 2 * DeferFor(streak) > 30 * MINUTE then 30 * MINUTE else 2 * DeferFor(streak)
  {
    assert Pow2(5) == 32 && Pow2(4) == 16;
  }

  /** A landed change or a user's kick clears everything held against the permit: whatever it
      wants next is attempted. */
  lemma ClearedIsForgotten(jitterFrac: real, s: State, e: Event, next: Event)
    requires (e.Kick? || (Attempts(s, e) && e.outcome.Landed?)) && next.Tick? && next.id == e.id
    ensures var after := Apply(jitterFrac, s, e);
            e.id !in after.nextTry && e.id !in after.parkedFor && Attempts(after, next)
  {
  }

  /** A refusal holds for a year from when it came; a deferred tick changes nothing. */
  lemma RefusalParks(jitterFrac: real, s: State, e: Event)
    requires e.Tick?
    ensures Attempts(s, e) && e.outcome.Refused? ==>
              IsParked(Apply(jitterFrac, s, e), e.id, e.want, e.now + 365 * 86_400_000_000_000)
    ensures !Attempts(s, e) ==> Apply(jitterFrac, s, e) == s
  {
  }

  /** The jitter moves a backoff by at most its fraction, and below one never to zero. */
  lemma JitterIsWithin(d: int, jitterFrac: real, roll: real)
    requires d > 0 && 0.0 <= jitterFrac <= 1.0 && 0.0 <= roll < 1.0
    ensures d as real * (1.0 - jitterFrac) - 1.0 < Jittered(d, jitterFrac, roll) as real
            <= d as real * (1.0 + jitterFrac)
  {
    var factor := (roll * 2.0 - 1.0) * jitterFrac;
    ProductIsNonnegative(2.0 * roll, jitterFrac);
    ProductIsNonnegative(2.0 - 2.0 * roll, jitterFrac);
    assert -jitterFrac <= factor <= jitterFrac;
    ProductIsNonnegative(d as real, factor + jitterFrac);
    ProductIsNonnegative(d as real, jitterFrac - factor);
    assert d as real * (1.0 + factor) == d as real + d as real * factor;
    ProductIsNonnegative(d as real, 1.0 + factor);
  }

  /** The same as spans since the failure, at a streak. */
  lemma BackoffIsWithin(jitterFrac: real, streak: nat, roll: real)
    requires 0.0 <= jitterFrac <= 1.0 && 0.0 <= roll < 1.0
    ensures var j := Jittered(DeferFor(streak), jitterFrac, roll) as real;
            && j > DeferFor(streak) as real * (1.0 - jitterFrac) - 1.0
            && j <= DeferFor(streak) as real * (1.0 + jitterFrac)
            && j <= (30 * MINUTE) as real * (1.0 + jitterFrac)
  {
    DeferGrows(streak, streak);
    JitterIsWithin(DeferFor(streak), jitterFrac, roll);
    ProductIsNonnegative((30 * MINUTE - DeferFor(streak)) as real, 1.0 + jitterFrac);
  }

  /** After a transient failure the permit is next attempted at the first tick from the
      jittered backoff on: never sooner than that fraction below what its streak calls for,
      and always once the fraction above it, and half an hour, have passed. */
  lemma FailureIsRetried(jitterFrac: real, s: State, id: int, streak: nat, now: int, roll: real, next: Event)
    requires 0.0 <= jitterFrac <= 1.0 && 0.0 <= roll < 1.0
    requires next.Tick? && next.id == id && (id in s.parkedFor ==> SamePlate(s.parkedFor[id], next.want))
    ensures var held := Deferred(jitterFrac, s, id, streak, now, roll);
            var waited := (next.now - now) as real;
            && (Attempts(held, next) <==> next.now >= held.nextTry[id])
            && (Attempts(held, next) ==> waited > DeferFor(streak) as real * (1.0 - jitterFrac) - 1.0)
            && (waited >= DeferFor(streak) as real * (1.0 + jitterFrac) ==> Attempts(held, next))
            && (waited >= (30 * MINUTE) as real * (1.0 + jitterFrac) ==> Attempts(held, next))
  {
    BackoffIsWithin(jitterFrac, streak, roll);
  }
}
