/** The fleet circuit breaker (internal/parking/breaker.go).

    `Cell` is the mutable breaker, method for method; each method is tied to a
    function on the value `State`. What the breaker promises is proved about runs
    of those functions: any interleaving of admissions, pushbacks and successes,
    where a success presents the permit some earlier admission returned.
    Times are nanoseconds. */
module Breaker {
  import opened Arithmetic
  import opened Durations
  import opened Wrappers

  type Owner = string
  type Time = int

  const MAX_BREAKER_COOLDOWN: int := 30 * MINUTE

  datatype Config = Config(threshold: int, window: int, cooldown: int, probeInterval: int)

  /** Handed out by an admission and presented again at the matching success. */
  datatype Permit = Permit(probe: bool, gen: nat)

  datatype Admission = Admission(permit: Permit, ok: bool, wait: int)

  /** openUntil is None while the circuit is closed; a past deadline is half-open. */
  datatype State = State(openUntil: Option<Time>, recent: map<Owner, Time>,
                         generation: nat, lastPushback: Option<Time>)

  predicate Blocked(s: State, now: Time) {
    s.openUntil.Some? && now < s.openUntil.value
  }

  /** The open window has elapsed: the next admission is a probe. */
  predicate HalfOpen(s: State, now: Time) {
    s.openUntil.Some? && s.openUntil.value <= now
  }

  function Admit(s: State, now: Time): Admission {
    if s.openUntil.None? then Admission(Permit(false, s.generation), true, 0)
    else if now < s.openUntil.value then Admission(Permit(false, 0), false, s.openUntil.value - now)
    else Admission(Permit(true, s.generation), true, 0)
  }

  function AfterAdmit(c: Config, s: State, now: Time): State {
    if HalfOpen(s, now) then s.(openUntil := Some(now + c.probeInterval)) else s
  }

  function Pruned(c: Config, recent: map<Owner, Time>, now: Time): map<Owner, Time> {
    map o | o in recent && now - recent[o] <= c.window :: recent[o]
  }

  /** Pruned but for the owners still to be looked at. */
  ghost predicate PrunedExcept(c: Config, was: map<Owner, Time>, recent: map<Owner, Time>, now: Time, todo: set<Owner>) {
    && (forall o :: o in recent ==> o in was && recent[o] == was[o])
    && (forall o :: o in was ==> (o in recent <==> o in todo || now - was[o] <= c.window))
  }

  /** The tally after `owner` strikes: one entry per owner, aged entries dropped. */
  function Tally(c: Config, s: State, now: Time, owner: Owner): map<Owner, Time> {
    Pruned(c, s.recent[owner := now], now)
  }

  function Cooldown(c: Config, retryAfter: int): int {
    var cd := if retryAfter > c.cooldown then retryAfter else c.cooldown;
    if cd > MAX_BREAKER_COOLDOWN then MAX_BREAKER_COOLDOWN else cd
  }

  predicate Reopens(c: Config, s: State, now: Time, owner: Owner) {
    |Tally(c, s, now, owner)| >= c.threshold || Blocked(s, now)
  }

  function AfterPushback(c: Config, s: State, now: Time, owner: Owner, retryAfter: int): State {
    var tally := Tally(c, s, now, owner);
    if Reopens(c, s, now, owner)
    then State(Some(now + Cooldown(c, retryAfter)), tally, s.generation + 1, Some(now))
    else State(s.openUntil, tally, s.generation, Some(now))
  }

  /** Only the half-open probe, still on the generation it was admitted under. */
  predicate ClosedBy(s: State, permit: Permit) {
    s.openUntil.Some? && permit.probe && permit.gen == s.generation
  }

  function AfterSuccess(s: State, owner: Owner, permit: Permit): State {
    var tally := s.recent - {owner};
    if ClosedBy(s, permit) then s.(openUntil := None, recent := tally, generation := s.generation + 1)
    else s.(recent := tally)
  }

  // ---- persistence ----

  /** The stored row; an absent row reads back as Row(None, None, 0). */
  datatype Row = Row(openUntil: Option<Time>, lastPushback: Option<Time>, generation: nat)

  function Snapshot(s: State): Row {
    Row(s.openUntil, s.lastPushback, s.generation)
  }

  function Fresh(): State {
    State(None, map[], 0, None)
  }

  function Restore(s: State, row: Row): State {
    State(if row.openUntil.Some? then row.openUntil else s.openUntil, s.recent,
          if row.generation > s.generation then row.generation else s.generation, row.lastPushback)
  }

  /** Stored times carry whole seconds only. */
  function WholeSeconds(t: Option<Time>): Option<Time> {
    match t
    case None => None
    case Some(v) => Some(v - v % SECOND)
  }

  /** The generation-guarded upsert: an older snapshot never replaces a newer row. */
  function Save(row: Row, snap: Row): Row {
    if snap.generation >= row.generation
    then Row(WholeSeconds(snap.openUntil), WholeSeconds(snap.lastPushback), snap.generation)
    else row
  }

  // ---- the breaker itself ----

  class Cell {
    const cfg: Config
    var openUntil: Option<Time>
    var recent: map<Owner, Time>
    var generation: nat
    var lastPushback: Option<Time>

    ghost function View(): State
      reads this
    {
      State(openUntil, recent, generation, lastPushback)
    }

    constructor (cfg: Config)
      ensures this.cfg == cfg && View() == Fresh()
    {
      this.cfg := cfg;
      openUntil, recent, generation, lastPushback := None, map[], 0, None;
    }

    method Allow(now: Time) returns (permit: Permit, ok: bool, wait: int)
      modifies this`openUntil
      ensures Admission(permit, ok, wait) == Admit(old(View()), now)
      ensures View() == AfterAdmit(cfg, old(View()), now)
    {
      if openUntil.None? {
        return Permit(false, generation), true, 0;
      }
      if now < openUntil.value {
        return Permit(false, 0), false, openUntil.value - now;
      }
      openUntil := Some(now + cfg.probeInterval);
      return Permit(true, generation), true, 0;
    }

    /** The loop of onPushback: drops aged owners while counting the others. */
    method CountDistinct(now: Time) returns (distinct: nat)
      modifies this`recent
      ensures recent == Pruned(cfg, old(recent), now)
      ensures distinct == |recent|
    {
      distinct := 0;
      var todo := recent.Keys;
      while todo != {}
        invariant todo <= recent.Keys && distinct + |todo| == |recent|
        invariant PrunedExcept(cfg, old(recent), recent, now, todo)
      {
        var o :| o in todo;
        todo := todo - {o};
        if now - recent[o] > cfg.window {
          recent := recent - {o};
        } else {
          distinct := distinct + 1;
        }
      }
    }

    method OnPushback(now: Time, owner: Owner, retryAfter: int) returns (openedNow: bool)
      modifies this
      ensures View() == AfterPushback(cfg, old(View()), now, owner, retryAfter)
      ensures openedNow == (Blocked(View(), now) && !Blocked(old(View()), now))
    {
      var wasBlocked := openUntil.Some? && now < openUntil.value;
      lastPushback := Some(now);
      recent := recent[owner := now];
      var distinct := CountDistinct(now);
      assert recent == Tally(cfg, old(View()), now, owner);
      if distinct >= cfg.threshold || wasBlocked {
        var cd := cfg.cooldown;
        if retryAfter > cd {
          cd := retryAfter;
        }
        if cd > MAX_BREAKER_COOLDOWN {
          cd := MAX_BREAKER_COOLDOWN;
        }
        openUntil := Some(now + cd);
        generation := generation + 1;
      }
      openedNow := openUntil.Some? && now < openUntil.value && !wasBlocked;
    }

    method OnSuccess(owner: Owner, permit: Permit) returns (closedNow: bool)
      modifies this
      ensures View() == AfterSuccess(old(View()), owner, permit)
      ensures closedNow == (old(openUntil).Some? && openUntil.None?)
    {
      recent := recent - {owner};
      if openUntil.None? {
        return false;
      }
      if permit.probe && permit.gen == generation {
        openUntil := None;
        generation := generation + 1;
        return true;
      }
      return false;
    }

    method RestoreFrom(row: Row)
      modifies this
      ensures View() == Restore(old(View()), row)
    {
      if row.openUntil.Some? {
        openUntil := row.openUntil;
      }
      lastPushback := row.lastPushback;
      if row.generation > generation {
        generation := row.generation;
      }
    }
  }

  // ---- runs ----

  /** One locked call. A success presents the permit returned at step `admitted`. */
  datatype Event =
    | Allowed(now: Time)
    | Pushed(now: Time, owner: Owner, retryAfter: int)
    | Succeeded(now: Time, owner: Owner, admitted: nat)

  predicate WellFormed(es: seq<Event>) {
    forall i :: 0 <= i < |es| && es[i].Succeeded? ==> es[i].admitted < i && es[es[i].admitted].Allowed?
  }

  /** ss[i] is the state before event i; ss[i + 1] is what event i makes of it. */
  ghost predicate Step(c: Config, es: seq<Event>, ss: seq<State>, i: nat)
    requires WellFormed(es) && |ss| == |es| + 1 && i < |es|
  {
    ss[i + 1] == match es[i]
                 case Allowed(now) => AfterAdmit(c, ss[i], now)
                 case Pushed(now, owner, retryAfter) => AfterPushback(c, ss[i], now, owner, retryAfter)
                 case Succeeded(_, owner, k) => AfterSuccess(ss[i], owner, Admit(ss[k], es[k].now).permit)
  }

  ghost predicate Run(c: Config, es: seq<Event>, ss: seq<State>) {
    && WellFormed(es) && |ss| == |es| + 1
    && forall i: nat :: i < |es| ==> Step(c, es, ss, i)
  }

  /** Every interleaving is a run, from any starting state. */
  lemma {:induction false} RunExists(c: Config, s0: State, es: seq<Event>) returns (ss: seq<State>)
    requires WellFormed(es)
    ensures Run(c, es, ss) && ss[0] == s0
    decreases |es|
  {
    if es == [] {
      return [s0];
    }
    var front := es[..|es| - 1];
    ss := RunExists(c, s0, front);
    var i := |front|;
    var next := match es[i]
      case Allowed(now) => AfterAdmit(c, ss[i], now)
      case Pushed(now, owner, retryAfter) => AfterPushback(c, ss[i], now, owner, retryAfter)
      case Succeeded(_, owner, k) => AfterSuccess(ss[i], owner, Admit(ss[k], es[k].now).permit);
    ghost var before := ss;
    ss := ss + [next];
    forall m: nat | m < |es| ensures Step(c, es, ss, m) {
      if m < i {
        assert Step(c, front, before, m);
      }
    }
  }

  /** Step i (re)opens the circuit: it sets a fresh cooldown. */
  ghost predicate OpensAt(c: Config, es: seq<Event>, ss: seq<State>, i: nat)
    requires i < |es| < |ss|
  {
    es[i].Pushed? && Reopens(c, ss[i], es[i].now, es[i].owner)
  }

  /** Step i takes the circuit from open to closed. */
  ghost predicate ClosesAt(ss: seq<State>, i: nat)
    requires i + 1 < |ss|
  {
    ss[i].openUntil.Some? && ss[i + 1].openUntil.None?
  }

  /** Step k was admitted as the half-open probe. */
  ghost predicate ProbesAt(es: seq<Event>, ss: seq<State>, k: nat)
    requires k < |es| < |ss|
  {
    es[k].Allowed? && HalfOpen(ss[k], es[k].now)
  }

  ghost predicate Turns(c: Config, es: seq<Event>, ss: seq<State>, i: nat)
    requires i < |es| < |ss|
  {
    OpensAt(c, es, ss, i) || ClosesAt(ss, i)
  }

  /** Nothing opened, re-opened or closed in steps i to j. */
  ghost predicate Quiet(c: Config, es: seq<Event>, ss: seq<State>, i: nat, j: nat)
    requires i <= j <= |es| < |ss|
  {
    forall m: nat :: i <= m < j ==> !Turns(c, es, ss, m)
  }

  /** Every (re)opening and every close raises the generation by one; nothing else moves it. */
  lemma GenerationStep(c: Config, es: seq<Event>, ss: seq<State>, i: nat)
    requires Run(c, es, ss) && i < |es|
    ensures ss[i + 1].generation == ss[i].generation + (if Turns(c, es, ss, i) then 1 else 0)
    ensures !Turns(c, es, ss, i) ==> ss[i + 1].openUntil.Some? == ss[i].openUntil.Some?
  {
    assert Step(c, es, ss, i);
  }

  /** The generation never decreases, stands still exactly when nothing opened or
      closed in between, and while it stands still open stays open and closed closed. */
  lemma {:induction false} GenerationOrdersRun(c: Config, es: seq<Event>, ss: seq<State>, i: nat, j: nat)
    requires Run(c, es, ss) && i <= j <= |es|
    ensures ss[i].generation <= ss[j].generation
    ensures ss[i].generation == ss[j].generation <==> Quiet(c, es, ss, i, j)
    ensures Quiet(c, es, ss, i, j) ==> ss[i].openUntil.Some? == ss[j].openUntil.Some?
    decreases j
  {
    if i < j {
      GenerationOrdersRun(c, es, ss, i, j - 1);
      GenerationStep(c, es, ss, j - 1);
      assert Quiet(c, es, ss, i, j) <==> Quiet(c, es, ss, i, j - 1) && !Turns(c, es, ss, j - 1);
    }
  }

  /** A success closes the circuit exactly when its permit is a half-open probe's and
      nothing opened or closed between that admission and now: a request admitted while
      closed, and a probe of a superseded episode, never close it. */
  lemma ClosesOnlyOnCurrentProbe(c: Config, es: seq<Event>, ss: seq<State>, i: nat)
    requires Run(c, es, ss) && i < |es| && es[i].Succeeded?
    ensures ClosesAt(ss, i) <==>
              ProbesAt(es, ss, es[i].admitted) && Quiet(c, es, ss, es[i].admitted, i)
  {
    assert Step(c, es, ss, i);
    GenerationOrdersRun(c, es, ss, es[i].admitted, i);
  }

  lemma OnlySuccessCloses(c: Config, es: seq<Event>, ss: seq<State>, i: nat)
    requires Run(c, es, ss) && i < |es| && ClosesAt(ss, i)
    ensures es[i].Succeeded?
  {
    assert Step(c, es, ss, i);
  }

  /** Each open episode closes at most once: between two closes the circuit re-opened. */
  lemma {:induction false} ClosesOncePerEpisode(c: Config, es: seq<Event>, ss: seq<State>, i: nat, j: nat)
    requires Run(c, es, ss) && i < j < |es|
    requires ClosesAt(ss, i) && ss[j].openUntil.Some?
    ensures exists m: nat :: i < m < j && OpensAt(c, es, ss, m)
    decreases j
  {
    GenerationStep(c, es, ss, j - 1);
    if !OpensAt(c, es, ss, j - 1) && i < j - 1 {
      ClosesOncePerEpisode(c, es, ss, i, j - 1);
    }
  }

  // ---- the tally refines the full history ----

  predicate Monotone(es: seq<Event>) {
    forall i, j :: 0 <= i < j < |es| ==> es[i].now <= es[j].now
  }

  /** Step j is a pushback of o that no success of o before step n has forgiven. */
  predicate Unforgiven(es: seq<Event>, n: nat, j: nat, o: Owner)
    requires n <= |es|
  {
    && j < n && es[j].Pushed? && es[j].owner == o
    && forall k :: j < k < n ==> !(es[k].Succeeded? && es[k].owner == o)
  }

  /** o has an unforgiven pushback inside the window, read off the whole history. */
  predicate Struck(c: Config, es: seq<Event>, n: nat, now: Time, o: Owner)
    requires n <= |es|
  {
    exists j :: 0 <= j < n && Unforgiven(es, n, j, o) && now - es[j].now <= c.window
  }

  ghost predicate TallySound(recent: map<Owner, Time>, es: seq<Event>, n: nat)
    requires n <= |es|
  {
    forall o :: o in recent ==> exists j :: 0 <= j < n && Unforgiven(es, n, j, o) && es[j].now == recent[o]
  }

  ghost predicate TallyComplete(c: Config, recent: map<Owner, Time>, es: seq<Event>, n: nat)
    requires n <= |es|
  {
    forall j, o :: 0 <= j < n && Unforgiven(es, n, j, o) ==>
      (o in recent && es[j].now <= recent[o]) || es[n - 1].now - es[j].now > c.window
  }

  /** What one event does to the tally. */
  lemma TallyStep(c: Config, es: seq<Event>, ss: seq<State>, i: nat)
    requires Run(c, es, ss) && i < |es|
    ensures es[i].Pushed? ==> ss[i + 1].recent == Tally(c, ss[i], es[i].now, es[i].owner)
    ensures es[i].Succeeded? ==> ss[i + 1].recent == ss[i].recent - {es[i].owner}
    ensures es[i].Allowed? ==> ss[i + 1].recent == ss[i].recent
  {
    assert Step(c, es, ss, i);
  }

  lemma TallySoundStep(c: Config, es: seq<Event>, ss: seq<State>, i: nat)
    requires Run(c, es, ss) && i < |es| && TallySound(ss[i].recent, es, i)
    ensures TallySound(ss[i + 1].recent, es, i + 1)
  {
    TallyStep(c, es, ss, i);
    var before, after, e := ss[i].recent, ss[i + 1].recent, es[i];
    forall o | o in after
      ensures exists j :: 0 <= j < i + 1 && Unforgiven(es, i + 1, j, o) && es[j].now == after[o]
    {
      if e.Pushed? && e.owner == o {
        assert Unforgiven(es, i + 1, i, o);
      } else {
        var j :| 0 <= j < i && Unforgiven(es, i, j, o) && es[j].now == before[o];
        assert Unforgiven(es, i + 1, j, o);
      }
    }
  }

  lemma TallyCompleteStep(c: Config, es: seq<Event>, ss: seq<State>, i: nat)
    requires Run(c, es, ss) && Monotone(es) && i < |es| && TallyComplete(c, ss[i].recent, es, i)
    ensures TallyComplete(c, ss[i + 1].recent, es, i + 1)
  {
    TallyStep(c, es, ss, i);
    var before, after, e := ss[i].recent, ss[i + 1].recent, es[i];
    forall j, o | 0 <= j < i + 1 && Unforgiven(es, i + 1, j, o)
      ensures (o in after && es[j].now <= after[o]) || e.now - es[j].now > c.window
    {
      if j < i {
        assert Unforgiven(es, i, j, o);
        assert es[i - 1].now <= e.now;
      }
    }
  }

  lemma {:induction false} TallyInvariant(c: Config, es: seq<Event>, ss: seq<State>, n: nat)
    requires Run(c, es, ss) && Monotone(es) && n <= |es| && ss[0].recent == map[]
    ensures TallySound(ss[n].recent, es, n) && TallyComplete(c, ss[n].recent, es, n)
    decreases n
  {
    if n > 0 {
      TallyInvariant(c, es, ss, n - 1);
      TallySoundStep(c, es, ss, n - 1);
      TallyCompleteStep(c, es, ss, n - 1);
    }
  }

  /** A pushback opens a circuit that is not already blocking exactly when at least
      `threshold` distinct owners have a pushback inside the window and after their own
      last success: pruning the tally loses nothing the decision needs. */
  lemma OpensExactlyOnDistinctOwners(c: Config, es: seq<Event>, ss: seq<State>, i: nat, struck: set<Owner>)
    requires Run(c, es, ss) && Monotone(es) && i < |es| && ss[0].recent == map[] && es[i].Pushed?
    requires forall o :: o in struck <==> Struck(c, es, i + 1, es[i].now, o)
    ensures OpensAt(c, es, ss, i) <==> Blocked(ss[i], es[i].now) || |struck| >= c.threshold
  {
    TallyInvariant(c, es, ss, i + 1);
    TallyStep(c, es, ss, i);
    var tally := Tally(c, ss[i], es[i].now, es[i].owner);
    assert forall o :: o in tally ==> es[i].now - tally[o] <= c.window;
    assert tally.Keys == struck;
  }

  // ---- who is served ----

  /** Step m sets a deadline: it (re)opens the circuit or is admitted as the probe. */
  ghost predicate Sets(c: Config, es: seq<Event>, ss: seq<State>, m: nat)
    requires m < |es| < |ss|
  {
    OpensAt(c, es, ss, m) || ProbesAt(es, ss, m)
  }

  /** Step m is the last before k to have set a deadline, and nothing closed since. */
  ghost predicate Governs(c: Config, es: seq<Event>, ss: seq<State>, m: nat, k: nat)
    requires m < k <= |es| < |ss|
  {
    Sets(c, es, ss, m) && forall j: nat :: m < j < k ==> !Sets(c, es, ss, j) && !ClosesAt(ss, j)
  }

  /** Until when step m holds requests back. */
  function Deadline(c: Config, e: Event): Time {
    e.now + if e.Pushed? then Cooldown(c, e.retryAfter) else c.probeInterval
  }

  /** A re-opening pauses for the configured cooldown or the time the edge asked for,
      whichever is longer, and never more than the cap. */
  lemma PauseIsExact(c: Config, retryAfter: int)
    ensures var pause := Cooldown(c, retryAfter);
            && (pause == c.cooldown || pause == retryAfter || pause == 1_800_000_000_000)
            && pause <= 1_800_000_000_000
            && (pause < 1_800_000_000_000 ==> pause >= c.cooldown && pause >= retryAfter)
            && (pause <= c.cooldown || pause <= retryAfter)
  {
  }

  /** What each step does to the deadline. */
  lemma DeadlineStep(c: Config, es: seq<Event>, ss: seq<State>, k: nat)
    requires Run(c, es, ss) && k < |es|
    ensures ss[k + 1].openUntil == if Sets(c, es, ss, k) then Some(Deadline(c, es[k]))
                                   else if ClosesAt(ss, k) then None else ss[k].openUntil
    ensures Sets(c, es, ss, k) ==> !ClosesAt(ss, k)
  {
    assert Step(c, es, ss, k);
  }

  /** The circuit is open exactly when some step set a deadline and nothing closed since,
      and then its deadline is the last one set. */
  lemma {:induction false} DeadlineIsTheLastSet(c: Config, es: seq<Event>, ss: seq<State>, k: nat)
    requires Run(c, es, ss) && k <= |es| && ss[0].openUntil.None?
    ensures ss[k].openUntil.Some? <==> exists m: nat :: m < k && Governs(c, es, ss, m, k)
    ensures forall m: nat :: m < k && Governs(c, es, ss, m, k) ==> ss[k].openUntil == Some(Deadline(c, es[m]))
    decreases k
  {
    if k > 0 {
      var last: nat := k - 1;
      DeadlineIsTheLastSet(c, es, ss, last);
      DeadlineStep(c, es, ss, last);
      assert Sets(c, es, ss, last) ==> Governs(c, es, ss, last, k);
      forall m: nat | m < last
        ensures Governs(c, es, ss, m, k)
                <==> Governs(c, es, ss, m, last) && !Sets(c, es, ss, last) && !ClosesAt(ss, last)
      {
      }
    }
  }

  /** An admission is refused exactly while the last deadline set lies ahead with nothing
      closed since, and is told how far. It is the probe exactly when that deadline has
      passed, and an ordinary one exactly when the circuit is closed. */
  lemma RefusedIff(c: Config, es: seq<Event>, ss: seq<State>, k: nat)
    requires Run(c, es, ss) && k < |es| && es[k].Allowed? && ss[0].openUntil.None?
    ensures var a := Admit(ss[k], es[k].now);
            && (!a.ok <==> exists m: nat :: m < k && Governs(c, es, ss, m, k) && es[k].now < Deadline(c, es[m]))
            && (a.ok && a.permit.probe
                <==> exists m: nat :: m < k && Governs(c, es, ss, m, k) && Deadline(c, es[m]) <= es[k].now)
            && (a.ok && a.permit.probe <==> ProbesAt(es, ss, k))
            && forall m: nat :: m < k && Governs(c, es, ss, m, k) && !a.ok ==> es[k].now + a.wait == Deadline(c, es[m])
  {
    DeadlineIsTheLastSet(c, es, ss, k);
  }

  lemma {:induction false} NeverOpenedIsClosed(c: Config, es: seq<Event>, ss: seq<State>, k: nat)
    requires Run(c, es, ss) && k <= |es| && ss[0].openUntil.None?
    requires forall m: nat :: m < k ==> !OpensAt(c, es, ss, m)
    ensures ss[k].openUntil.None?
    decreases k
  {
    if k > 0 {
      NeverOpenedIsClosed(c, es, ss, k - 1);
      var last: nat := k - 1;
      DeadlineStep(c, es, ss, last);
      assert !OpensAt(c, es, ss, last);
    }
  }

  /** Started closed and never opened, the circuit serves everyone, and no one as a probe. */
  lemma ClosedServes(c: Config, es: seq<Event>, ss: seq<State>, k: nat)
    requires Run(c, es, ss) && k < |es| && es[k].Allowed? && ss[0].openUntil.None?
    requires forall m: nat :: m < k ==> !OpensAt(c, es, ss, m)
    ensures var a := Admit(ss[k], es[k].now); a.ok && !a.permit.probe && a.wait == 0 && ss[k + 1] == ss[k]
  {
    NeverOpenedIsClosed(c, es, ss, k);
    assert Step(c, es, ss, k);
  }

  /** A refusal changes nothing, and its wait is exact: asked again with nothing else in
      between, a request is refused until that time is up and then goes out as the probe. */
  lemma WaitIsExact(c: Config, s: State, now: Time, later: Time)
    requires !Admit(s, now).ok && later >= now
    ensures AfterAdmit(c, s, now) == s && Admit(s, now).wait > 0
    ensures var again := Admit(AfterAdmit(c, s, now), later);
            && (again.ok <==> later >= now + Admit(s, now).wait)
            && (again.ok <==> again.permit.probe)
  {
  }

  /** lastPushback is the instant of the last pushback, or what the run began with. */
  lemma {:induction false} LastPushbackIsLatest(c: Config, es: seq<Event>, ss: seq<State>, m: nat, k: nat)
    requires Run(c, es, ss) && m < k <= |es| && es[m].Pushed?
    requires forall j :: m < j < k ==> !es[j].Pushed?
    ensures ss[k].lastPushback == Some(es[m].now)
    decreases k
  {
    assert Step(c, es, ss, k - 1);
    if m < k - 1 {
      LastPushbackIsLatest(c, es, ss, m, k - 1);
    }
  }

  // ---- timing ----

  ghost predicate OpenThroughout(ss: seq<State>, i: nat, j: nat)
    requires i <= j < |ss|
  {
    forall m :: i <= m <= j ==> ss[m].openUntil.Some?
  }

  /** After a probe at step k the deadline stays at least probeInterval past it for as
      long as the circuit stays open. */
  lemma {:induction false} DeadlineHoldsAfterProbe(c: Config, es: seq<Event>, ss: seq<State>, k: nat, i: nat)
    requires Run(c, es, ss) && Monotone(es) && k < i <= |es|
    requires c.probeInterval <= c.cooldown && c.probeInterval <= MAX_BREAKER_COOLDOWN
    requires ProbesAt(es, ss, k) && OpenThroughout(ss, k, i)
    ensures ss[i].openUntil.value >= es[k].now + c.probeInterval
    decreases i
  {
    assert Step(c, es, ss, i - 1);
    if k < i - 1 {
      DeadlineHoldsAfterProbe(c, es, ss, k, i - 1);
      assert es[k].now <= es[i - 1].now;
    }
  }

  /** While the circuit stays open, everything admitted is a probe, none comes before the
      deadline in force, and successive ones are at least probeInterval apart. */
  lemma ProbesAreSpaced(c: Config, es: seq<Event>, ss: seq<State>, k: nat, i: nat)
    requires Run(c, es, ss) && Monotone(es) && k < i < |es|
    requires c.probeInterval <= c.cooldown && c.probeInterval <= MAX_BREAKER_COOLDOWN
    requires es[k].Allowed? && Admit(ss[k], es[k].now).ok
    requires es[i].Allowed? && Admit(ss[i], es[i].now).ok
    requires OpenThroughout(ss, k, i)
    ensures es[i].now >= ss[i].openUntil.value >= es[k].now + c.probeInterval
  {
    DeadlineHoldsAfterProbe(c, es, ss, k, i);
  }

  /** Steps k and i both admit a request in one stretch of an open circuit. */
  ghost predicate AdmitsTwice(c: Config, es: seq<Event>, ss: seq<State>, k: nat, i: nat) {
    && Run(c, es, ss) && Monotone(es) && k < i < |es|
    && es[k].Allowed? && Admit(ss[k], es[k].now).ok
    && es[i].Allowed? && Admit(ss[i], es[i].now).ok
    && OpenThroughout(ss, k, i)
  }

  /** The shortest pause a re-opening sets. */
  function ShortestPause(c: Config): int {
    if c.cooldown > MAX_BREAKER_COOLDOWN then MAX_BREAKER_COOLDOWN else c.cooldown
  }

  /** A probe, its pushback at once, and the next admission when that pause is over. */
  lemma ShortPauseBreaksSpacing(c: Config) returns (es: seq<Event>, ss: seq<State>)
    requires ShortestPause(c) < c.probeInterval && c.probeInterval > 0
    ensures AdmitsTwice(c, es, ss, 0, 2) && es[2].now < es[0].now + c.probeInterval
    ensures ss[0] == Restore(Fresh(), Row(Some(0), None, 0))
  {
    var after := Max(0, ShortestPause(c));
    var s0 := Restore(Fresh(), Row(Some(0), None, 0));
    var s1 := AfterAdmit(c, s0, 0);
    var s2 := AfterPushback(c, s1, 0, "owner", c.cooldown);
    es := [Allowed(0), Pushed(0, "owner", c.cooldown), Allowed(after)];
    ss := [s0, s1, s2, AfterAdmit(c, s2, after)];
    assert Step(c, es, ss, 0) && Step(c, es, ss, 1) && Step(c, es, ss, 2);
    assert s2.openUntil == Some(ShortestPause(c));
  }

  /** Exactly which configurations space the admissions of an open circuit: those whose
      probe interval is at most the shortest pause (or no interval at all). */
  lemma SpacedIff(c: Config)
    ensures (forall es: seq<Event>, ss, k: nat, i: nat :: AdmitsTwice(c, es, ss, k, i) ==> es[i].now >= es[k].now + c.probeInterval)
            <==> c.probeInterval <= ShortestPause(c) || c.probeInterval <= 0
  {
    if c.probeInterval <= ShortestPause(c) || c.probeInterval <= 0 {
      forall es: seq<Event>, ss, k: nat, i: nat | AdmitsTwice(c, es, ss, k, i) ensures es[i].now >= es[k].now + c.probeInterval {
        if c.probeInterval <= ShortestPause(c) {
          ProbesAreSpaced(c, es, ss, k, i);
        }
      }
    } else {
      var es, ss := ShortPauseBreaksSpacing(c);
    }
  }

  /** A probe that is pushed back within its probe interval re-opens the circuit, whoever
      else was pushed back: for at least what the edge asked and at least the configured
      cooldown, as far as the cap allows. */
  lemma FailedProbeReopens(c: Config, es: seq<Event>, ss: seq<State>, k: nat, i: nat)
    requires Run(c, es, ss) && Monotone(es) && k < i < |es|
    requires c.probeInterval <= c.cooldown && c.probeInterval <= MAX_BREAKER_COOLDOWN
    requires ProbesAt(es, ss, k) && OpenThroughout(ss, k, i)
    requires es[i].Pushed? && es[i].now < es[k].now + c.probeInterval
    ensures OpensAt(c, es, ss, i) && ss[i + 1].openUntil.Some?
    ensures var pause := ss[i + 1].openUntil.value - es[i].now;
            && pause <= MAX_BREAKER_COOLDOWN
            && (pause < c.cooldown || pause < es[i].retryAfter ==> pause == MAX_BREAKER_COOLDOWN)
  {
    DeadlineHoldsAfterProbe(c, es, ss, k, i);
    assert Step(c, es, ss, i);
  }

  /** With nothing opened, closed or probed in between the deadline stays where it is. */
  lemma {:induction false} DeadlineUnmoved(c: Config, es: seq<Event>, ss: seq<State>, i: nat, j: nat)
    requires Run(c, es, ss) && i <= j <= |es| && Quiet(c, es, ss, i, j)
    requires forall m: nat :: i <= m < j ==> !ProbesAt(es, ss, m)
    ensures ss[j].openUntil == ss[i].openUntil
    decreases j
  {
    if i < j {
      DeadlineUnmoved(c, es, ss, i, j - 1);
      var m: nat := j - 1;
      assert Step(c, es, ss, m) && !Turns(c, es, ss, m) && !ProbesAt(es, ss, m);
    }
  }

  /** Exactly when a failed probe re-opens the circuit. (The comment on onPushback has every
      one do so.) If nothing else happened to the circuit since the probe at step k, a
      pushback at step i re-opens it if and only if it comes within the probe interval or is
      the last strike the threshold needs. */
  lemma FailedProbeReopensIff(c: Config, es: seq<Event>, ss: seq<State>, k: nat, i: nat, struck: set<Owner>)
    requires Run(c, es, ss) && Monotone(es) && k < i < |es| && ss[0].recent == map[]
    requires ProbesAt(es, ss, k) && es[i].Pushed? && Quiet(c, es, ss, k, i)
    requires forall m: nat :: k < m < i ==> !ProbesAt(es, ss, m)
    requires forall o :: o in struck <==> Struck(c, es, i + 1, es[i].now, o)
    ensures OpensAt(c, es, ss, i) <==> es[i].now < es[k].now + c.probeInterval || |struck| >= c.threshold
  {
    assert Step(c, es, ss, k);
    DeadlineUnmoved(c, es, ss, k + 1, i);
    OpensExactlyOnDistinctOwners(c, es, ss, i, struck);
  }

  /** So a slow failure need not: when every other owner's strike has aged out by then and
      the threshold is above one, the circuit stays half-open and the next caller is let
      through at once. */
  lemma SlowProbeFailureDoesNotReopen(c: Config, s: State, now: Time, later: Time, owner: Owner, retryAfter: int)
    requires HalfOpen(s, now) && Pruned(c, s.recent, later).Keys <= {owner} && c.threshold > 1
    requires later >= now + c.probeInterval
    ensures var failed := AfterPushback(c, AfterAdmit(c, s, now), later, owner, retryAfter);
            !Reopens(c, AfterAdmit(c, s, now), later, owner) && Admit(failed, later).permit.probe
  {
    var tally := Tally(c, AfterAdmit(c, s, now), later, owner);
    assert forall o :: o in tally && o != owner ==> o in Pruned(c, s.recent, later);
    assert tally.Keys == {} || tally.Keys == {owner};
  }

  function MaxPause(c: Config): int {
    if MAX_BREAKER_COOLDOWN > c.probeInterval then MAX_BREAKER_COOLDOWN else c.probeInterval
  }

  /** No header can pause the fleet for long: from a fresh start or a restored pause within
      bounds, the deadline is never further ahead than the larger of the cooldown cap and
      the probe interval. */
  lemma {:induction false} DeadlineIsBounded(c: Config, es: seq<Event>, ss: seq<State>, i: nat)
    requires Run(c, es, ss) && Monotone(es) && 0 < i <= |es|
    requires ss[0].openUntil.Some? ==> ss[0].openUntil.value <= es[0].now + MaxPause(c)
    ensures ss[i].openUntil.Some? ==> ss[i].openUntil.value <= es[i - 1].now + MaxPause(c)
    decreases i
  {
    assert Step(c, es, ss, i - 1);
    if i > 1 {
      DeadlineIsBounded(c, es, ss, i - 1);
      assert es[i - 2].now <= es[i - 1].now;
    }
  }

  // ---- restarts ----

  /** The row after persisting the run's snapshots taken at steps ws, in that order. */
  ghost function Persisted(row0: Row, ss: seq<State>, ws: seq<nat>): Row
    requires forall k :: 0 <= k < |ws| ==> ws[k] < |ss|
  {
    if ws == [] then row0
    else Save(Persisted(row0, ss, ws[..|ws| - 1]), Snapshot(ss[ws[|ws| - 1]]))
  }

  /** The stored instant is the whole second this one falls in. */
  predicate WithinASecond(stored: Time, t: Time) {
    stored <= t < stored + 1_000_000_000
  }

  /** The row is the one the highest-generation snapshot (or the boot row) left. */
  lemma {:induction false} PersistedIsHighest(row0: Row, ss: seq<State>, ws: seq<nat>) returns (m: nat)
    requires |ss| > 0 && ss[0] == Restore(Fresh(), row0)
    requires forall k :: 0 <= k < |ws| ==> ws[k] < |ss|
    ensures m < |ss|
    ensures var row := Persisted(row0, ss, ws);
            && row.generation == ss[m].generation && row.openUntil.Some? == ss[m].openUntil.Some?
            && (row.openUntil.Some? ==> WithinASecond(row.openUntil.value, ss[m].openUntil.value))
            && row.lastPushback.Some? == ss[m].lastPushback.Some?
            && (row.lastPushback.Some? ==> WithinASecond(row.lastPushback.value, ss[m].lastPushback.value))
            && row.generation >= row0.generation
            && forall k :: 0 <= k < |ws| ==> ss[ws[k]].generation <= row.generation
    decreases |ws|
  {
    m := 0;
    if ws != [] {
      var front, last := ws[..|ws| - 1], ws[|ws| - 1];
      m := PersistedIsHighest(row0, ss, front);
      if ss[last].generation >= Persisted(row0, ss, front).generation {
        m := last;
      }
      assert forall k :: 0 <= k < |front| ==> ws[k] == front[k];
    }
  }

  /** Whatever order the snapshots of a run reach the store in, once one of the final
      generation has landed (or nothing opened or closed at all) a restart comes back
      closed if and only if the breaker was closed: a delayed write neither resurrects
      a closed pause nor clears an open one. */
  lemma RestartKeepsThePause(c: Config, row0: Row, es: seq<Event>, ss: seq<State>, ws: seq<nat>)
    requires Run(c, es, ss) && ss[0] == Restore(Fresh(), row0)
    requires forall k :: 0 <= k < |ws| ==> ws[k] < |ss|
    requires ss[|es|].generation == row0.generation
             || exists k :: 0 <= k < |ws| && ss[ws[k]].generation == ss[|es|].generation
    ensures var back := Restore(Fresh(), Persisted(row0, ss, ws));
            && back.openUntil.None? == ss[|es|].openUntil.None? && back.generation == ss[|es|].generation
            && (back.openUntil.Some? ==>
                  exists m: nat :: m <= |es| && Quiet(c, es, ss, m, |es|) && ss[m].openUntil.Some?
                                   && WithinASecond(back.openUntil.value, ss[m].openUntil.value))
  {
    var m := PersistedIsHighest(row0, ss, ws);
    GenerationOrdersRun(c, es, ss, m, |es|);
  }

  lemma {:induction false} PersistedIsWithin(row0: Row, ss: seq<State>, ws: seq<nat>, latest: Time)
    requires forall k :: 0 <= k < |ws| ==> ws[k] < |ss|
    requires row0.openUntil.Some? ==> row0.openUntil.value <= latest
    requires forall k :: 0 <= k < |ws| && ss[ws[k]].openUntil.Some? ==> ss[ws[k]].openUntil.value <= latest
    ensures var row := Persisted(row0, ss, ws); row.openUntil.Some? ==> row.openUntil.value <= latest
    decreases |ws|
  {
    if ws != [] {
      var front := ws[..|ws| - 1];
      assert forall k :: 0 <= k < |front| ==> front[k] == ws[k];
      PersistedIsWithin(row0, ss, front, latest);
    }
  }

  /** The bound on the pause carries over a restart, from one run to the next. */
  lemma BoundSurvivesRestart(c: Config, row0: Row, es: seq<Event>, ss: seq<State>, ws: seq<nat>, later: Time)
    requires Run(c, es, ss) && Monotone(es) && es != [] && ss[0] == Restore(Fresh(), row0)
    requires row0.openUntil.Some? ==> row0.openUntil.value <= es[0].now + MaxPause(c)
    requires forall k :: 0 <= k < |ws| ==> ws[k] < |ss|
    requires es[|es| - 1].now <= later
    ensures var back := Restore(Fresh(), Persisted(row0, ss, ws));
            back.openUntil.Some? ==> back.openUntil.value <= later + MaxPause(c)
  {
    assert forall i :: 0 <= i < |es| ==> es[i].now <= later;
    forall k | 0 <= k < |ws| && ss[ws[k]].openUntil.Some?
      ensures ss[ws[k]].openUntil.value <= later + MaxPause(c)
    {
      if ws[k] > 0 {
        DeadlineIsBounded(c, es, ss, ws[k]);
      }
    }
    PersistedIsWithin(row0, ss, ws, later + MaxPause(c));
  }

  /** Two open snapshots of one generation carry the same deadline exactly when no probe
      was admitted between them. (The comment on the close path calls same-generation
      writes equivalent in either order; that is true of open versus closed, but a probe
      admitted in between has moved the deadline.) */
  lemma {:induction false} EqualGenerationDeadline(c: Config, es: seq<Event>, ss: seq<State>, i: nat, j: nat)
    requires Run(c, es, ss) && i <= j <= |es| && c.probeInterval > 0
    requires ss[i].openUntil.Some? && Quiet(c, es, ss, i, j)
    ensures ss[j].openUntil.Some? && ss[i].openUntil.value <= ss[j].openUntil.value
    ensures (ss[i].openUntil == ss[j].openUntil)
            <==> (forall m: nat :: i <= m < j ==> !ProbesAt(es, ss, m))
    decreases j
  {
    if i < j {
      EqualGenerationDeadline(c, es, ss, i, j - 1);
      assert !Turns(c, es, ss, j - 1);
      assert Step(c, es, ss, j - 1);
      var last: nat := j - 1;
      assert ProbesAt(es, ss, last) <==> ss[last].openUntil != ss[j].openUntil;
      assert (forall m: nat :: i <= m < j ==> !ProbesAt(es, ss, m))
             <==> (forall m: nat :: i <= m < last ==> !ProbesAt(es, ss, m)) && !ProbesAt(es, ss, last);
    }
  }
}
