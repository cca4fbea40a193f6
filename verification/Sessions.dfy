/** One stored council session and everything that races over it: interactive links,
    password opt-outs, unlinks, renewals, automatic reconnects and the recovery worker's
    retirement. The store's generation-conditioned writes are those of
    internal/store/tenant.go; the operations are withSession, Link and Reconnect in
    internal/parking/parking.go and recoverOrRetire in internal/scheduler/reconnect.go. */
module Sessions {
  import opened Wrappers

  /** ver numbers the row's successive contents; the code has no such column, only gen. */
  datatype Row = Row(gen: int, password: bool, ver: nat)

  /** lastSeed is the process's memory of the last fresh generation it issued. */
  datatype State = State(row: Option<Row>, lastSeed: int, vers: nat)

  /** newSessionGeneration: clock milliseconds, forced above the last seed issued. */
  function Seed(s: State, clock: int): int {
    if clock <= s.lastSeed then s.lastSeed + 1 else clock
  }

  function Drawn(s: State, clock: int): State {
    s.(lastSeed := Seed(s, clock))
  }

  /** SaveTenantSession with the seed drawn for it: a fresh row takes the seed, an existing
      one counts up. */
  function Linked(s: State, seed: int, password: bool): State {
    s.(row := Some(Row(if s.row.None? then seed else s.row.value.gen + 1, password, s.vers)), vers := s.vers + 1)
  }

  function Rewritten(s: State, password: bool): State
    requires s.row.Some?
  {
    State(Some(Row(s.row.value.gen + 1, password, s.vers)), s.lastSeed, s.vers + 1)
  }

  function OptedOut(s: State): State {
    if s.row.Some? then Rewritten(s, false) else s
  }

  function Unlinked(s: State): State {
    s.(row := None)
  }

  predicate AtGen(s: State, gen: int) {
    s.row.Some? && s.row.value.gen == gen
  }

  /** UpdateTenantCookie. */
  function Renewed(s: State, gen: int): State {
    if AtGen(s, gen) then Rewritten(s, s.row.value.password) else s
  }

  /** SaveReconnectedSessionIfGen: writes the re-sealed password back. */
  function Reconnected(s: State, gen: int): State {
    if AtGen(s, gen) then Rewritten(s, true) else s
  }

  /** DeleteTenantSessionIfGen. */
  function Retired(s: State, gen: int): State {
    if AtGen(s, gen) then Unlinked(s) else s
  }

  // ---- every interleaving ----

  /** A link names the step at which it drew its seed, conditional writes the step at which
      their operation read the row. */
  datatype Event =
    | Draw(clock: int)
    | Link(draw: nat, password: bool)
    | OptOut
    | Unlink
    | Read
    | Renew(read: nat)
    | Reconnect(read: nat)
    | Retire(read: nat)
    | Restart          // a new process: the seed memory is lost

  function ReadOf(e: Event): Option<nat> {
    match e
    case Renew(r) => Some(r)
    case Reconnect(r) => Some(r)
    case Retire(r) => Some(r)
    case _ => None
  }

  ghost predicate Enabled(es: seq<Event>, ss: seq<State>, i: nat)
    requires i < |es| < |ss|
  {
    && (es[i].Link? ==> es[i].draw < i && es[es[i].draw].Draw?)
    && (ReadOf(es[i]).Some? ==>
          var r := ReadOf(es[i]).value;
          r < i && es[r].Read? && ss[r].row.Some? && (es[i].Reconnect? ==> ss[r].row.value.password))
  }

  /** The seed drawn at step d. */
  ghost function SeedAt(es: seq<Event>, ss: seq<State>, d: nat): int
    requires d < |es| < |ss| && es[d].Draw?
  {
    Seed(ss[d], es[d].clock)
  }

  ghost function Next(es: seq<Event>, ss: seq<State>, i: nat): State
    requires i < |es| < |ss| && Enabled(es, ss, i)
  {
    match es[i]
    case Draw(clock) => Drawn(ss[i], clock)
    case Link(d, password) => Linked(ss[i], SeedAt(es, ss, d), password)
    case OptOut => OptedOut(ss[i])
    case Unlink => Unlinked(ss[i])
    case Read => ss[i]
    case Renew(r) => Renewed(ss[i], ss[r].row.value.gen)
    case Reconnect(r) => Reconnected(ss[i], ss[r].row.value.gen)
    case Retire(r) => Retired(ss[i], ss[r].row.value.gen)
    case Restart => ss[i].(lastSeed := 0)
  }

  ghost predicate Step(es: seq<Event>, ss: seq<State>, i: nat)
    requires i < |es| < |ss|
  {
    Enabled(es, ss, i) && ss[i + 1] == Next(es, ss, i)
  }

  ghost predicate Run(es: seq<Event>, ss: seq<State>) {
    && |ss| == |es| + 1 && ss[0] == State(None, 0, 0)
    && forall i: nat :: i < |es| ==> Step(es, ss, i)
  }

  /** Step k read a row, and some operation may act on the generation it saw. */
  ghost predicate Saw(es: seq<Event>, ss: seq<State>, k: nat)
    requires k < |es| < |ss|
  {
    es[k].Read? && ss[k].row.Some?
  }

  /** A fresh row's seed exceeds every generation read so far. */
  ghost predicate FreshAt(es: seq<Event>, ss: seq<State>, i: nat)
    requires i < |es| < |ss|
  {
    es[i].Link? && ss[i].row.None? && Enabled(es, ss, i) ==>
      forall k: nat :: k < i && Saw(es, ss, k) ==> ss[k].row.value.gen < SeedAt(es, ss, es[i].draw)
  }

  ghost predicate FreshThrough(es: seq<Event>, ss: seq<State>, n: nat)
    requires n <= |es| < |ss|
  {
    forall i: nat :: i < n ==> FreshAt(es, ss, i)
  }

  ghost predicate Unchanged(ss: seq<State>, i: nat, j: nat) {
    forall k :: i <= k <= j < |ss| ==> ss[k].row == ss[i].row
  }

  /** What a run of the process remembers is the last seed drawn. */
  lemma {:induction false} LastSeedIsRemembered(es: seq<Event>, ss: seq<State>, i: nat, n: nat)
    requires Run(es, ss) && i < n <= |es| && es[i].Draw? && forall k :: i < k < n ==> es[k] != Restart
    ensures SeedAt(es, ss, i) <= ss[n].lastSeed
    decreases n
  {
    assert Step(es, ss, n - 1);
    if i < n - 1 {
      LastSeedIsRemembered(es, ss, i, n - 1);
    }
  }

  /** Within one run of the process seeds strictly rise, whatever the clock does, and none is
      behind the clock. */
  lemma SeedsRise(es: seq<Event>, ss: seq<State>, i: nat, j: nat)
    requires Run(es, ss) && i < j < |es| && es[i].Draw? && es[j].Draw?
    requires forall k :: i < k < j ==> es[k] != Restart
    ensures SeedAt(es, ss, i) < SeedAt(es, ss, j)
    ensures SeedAt(es, ss, j) >= es[j].clock
    ensures SeedAt(es, ss, j) == es[j].clock || SeedAt(es, ss, j) == ss[j].lastSeed + 1
  {
    LastSeedIsRemembered(es, ss, i, j);
  }

  /** What the user does takes effect at once: a link leaves a session with the password they
      chose to save and a new content, an unlink leaves none, an opt-out one without a
      password. */
  lemma UserHasTheSay(es: seq<Event>, ss: seq<State>, i: nat)
    requires Run(es, ss) && i < |es| && Step(es, ss, i)
    ensures es[i].Link? ==> ss[i + 1].row.Some? && ss[i + 1].row.value.password == es[i].password
                            && ss[i + 1].row.value.ver == ss[i].vers < ss[i + 1].vers
    ensures es[i].Link? && ss[i].row.Some? ==> ss[i + 1].row.value.gen > ss[i].row.value.gen
    ensures es[i].Link? && ss[i].row.None? ==> ss[i + 1].row.value.gen == SeedAt(es, ss, es[i].draw)
    ensures es[i].Unlink? ==> ss[i + 1].row.None?
    ensures es[i].OptOut? && ss[i].row.Some? ==> ss[i + 1].row.Some? && !ss[i + 1].row.value.password
  {
  }

  /** What the app does keeps the user's choice: a renewal never touches whether a password
      is saved, a reconnect leaves it saved, and neither makes or ends a session. */
  lemma AppKeepsTheChoice(es: seq<Event>, ss: seq<State>, i: nat)
    requires Run(es, ss) && i < |es|
    ensures es[i].Renew? || es[i].Reconnect? ==> ss[i + 1].row.Some? == ss[i].row.Some?
    ensures es[i].Renew? && ss[i].row.Some? ==> ss[i + 1].row.value.password == ss[i].row.value.password
    ensures es[i].Reconnect? && ss[i].row.Some? && ss[i + 1] != ss[i] ==> ss[i + 1].row.value.password
    ensures es[i].Draw? || es[i].Read? || es[i].Restart? ==> ss[i + 1].row == ss[i].row
  {
    assert Step(es, ss, i);
  }

  /** A generation read at step r still matches at step i exactly when nothing at all
      happened to the row in between; and the live row's is never below one that was read. */
  lemma {:induction false} MatchMeansUnchanged(es: seq<Event>, ss: seq<State>, r: nat, i: nat)
    requires Run(es, ss) && r < i <= |es| && FreshThrough(es, ss, i) && Saw(es, ss, r)
    ensures AtGen(ss[i], ss[r].row.value.gen) <==> Unchanged(ss, r, i)
    ensures ss[i].row.Some? ==> ss[i].row.value.gen >= ss[r].row.value.gen
    decreases i
  {
    assert Step(es, ss, i - 1) && FreshAt(es, ss, i - 1);
    if r < i - 1 {
      MatchMeansUnchanged(es, ss, r, i - 1);
      assert Unchanged(ss, r, i) <==> Unchanged(ss, r, i - 1) && ss[i].row == ss[r].row;
    }
  }

  /** The worker deletes a session exactly when it is, untouched, the one whose expiry was
      reported: any re-link, renewal, reconnect or opt-out since saves it. */
  lemma RetireIsExact(es: seq<Event>, ss: seq<State>, i: nat)
    requires Run(es, ss) && i < |es| && FreshThrough(es, ss, i) && es[i].Retire?
    ensures (ss[i].row.Some? && ss[i + 1].row.None?) <==> Unchanged(ss, es[i].read, i)
    ensures !Unchanged(ss, es[i].read, i) ==> ss[i + 1] == ss[i]
  {
    assert Step(es, ss, i);
    MatchMeansUnchanged(es, ss, es[i].read, i);
  }

  /** A renewal or a reconnect started from an older session never overwrites what
      replaced it. */
  lemma StaleWritesLandNowhere(es: seq<Event>, ss: seq<State>, i: nat)
    requires Run(es, ss) && i < |es| && FreshThrough(es, ss, i) && (es[i].Renew? || es[i].Reconnect?)
    ensures ss[i + 1] == ss[i] <==> !Unchanged(ss, ReadOf(es[i]).value, i)
  {
    assert Step(es, ss, i);
    MatchMeansUnchanged(es, ss, ReadOf(es[i]).value, i);
  }

  /** Only the user hands over a password: after an opt-out, no reconnect in flight puts
      the saved password back; the row stays without one until the next link. */
  lemma {:induction false} OptOutSticks(es: seq<Event>, ss: seq<State>, o: nat, n: nat)
    requires Run(es, ss) && o < n <= |es| && FreshThrough(es, ss, n) && es[o].OptOut?
    requires forall k :: o < k < n ==> !es[k].Link?
    ensures ss[n].row.Some? ==> !ss[n].row.value.password
    decreases n
  {
    assert Step(es, ss, n - 1);
    if o < n - 1 {
      assert FreshThrough(es, ss, n - 1);
      OptOutSticks(es, ss, o, n - 1);
      if es[n - 1].Reconnect? {
        var r := es[n - 1].read;
        MatchMeansUnchanged(es, ss, r, n - 1);
        if r > o {
          OptOutSticks(es, ss, o, r);
        } else {
          assert Step(es, ss, o);
          assert ss[o].row.Some? ==> ss[o + 1].row != ss[o].row;
        }
      }
    }
  }

  // ---- when the seeds are fresh ----

  /** Restarts included, seeds are fresh when no two steps share a millisecond, the clock
      never steps back (`at` is the clock at each step), and no session is read between a
      link's drawing its seed and its landing. */
  ghost predicate StrictClock(es: seq<Event>, at: seq<int>) {
    && |at| == |es|
    && (forall i :: 0 <= i < |es| ==> at[i] > 0 && (es[i].Draw? ==> es[i].clock == at[i]))
    && (forall i, j :: 0 <= i < j < |es| ==> at[i] < at[j])
  }

  ghost predicate NoReadWhileLinking(es: seq<Event>, ss: seq<State>)
    requires |es| < |ss|
  {
    forall i, k: nat :: 0 <= i < |es| && es[i].Link? && es[i].draw < k < i ==> !Saw(es, ss, k)
  }

  /** Under a strict clock neither the seed memory nor the row's generation runs ahead of it. */
  lemma {:induction false} BehindTheClock(es: seq<Event>, ss: seq<State>, at: seq<int>, n: nat)
    requires Run(es, ss) && StrictClock(es, at) && n <= |es|
    ensures ss[n].lastSeed <= if n > 0 then at[n - 1] else 0
    ensures ss[n].row.Some? ==> n > 0 && ss[n].row.value.gen <= at[n - 1]
    ensures n < |es| && es[n].Draw? ==> SeedAt(es, ss, n) == at[n]
    decreases n
  {
    if n > 0 {
      BehindTheClock(es, ss, at, n - 1);
      assert Step(es, ss, n - 1);
      assert n > 1 ==> at[n - 2] < at[n - 1];
      assert n < |es| ==> at[n - 1] < at[n];
      if es[n - 1].Link? {
        var d := es[n - 1].draw;
        BehindTheClock(es, ss, at, d);
        assert at[d] < at[n - 1];
      }
    }
  }

  lemma StrictClockIsFresh(es: seq<Event>, ss: seq<State>, at: seq<int>)
    requires Run(es, ss) && StrictClock(es, at) && NoReadWhileLinking(es, ss)
    ensures FreshThrough(es, ss, |es|)
  {
    forall i: nat, k: nat | k < i < |es| && es[i].Link? && Enabled(es, ss, i) && Saw(es, ss, k)
      ensures ss[k].row.value.gen < SeedAt(es, ss, es[i].draw)
    {
      var d := es[i].draw;
      BehindTheClock(es, ss, at, d);
      BehindTheClock(es, ss, at, k);
      assert k < d;
      assert k > 0 && at[k - 1] < at[d];
    }
  }

  // ---- when they are not ----

  lemma Continue(es: seq<Event>, ss: seq<State>, e: Event) returns (es': seq<Event>, ss': seq<State>)
    requires Run(es, ss)
    requires Enabled(es + [e], ss + [ss[|es|]], |es|)
    ensures Run(es', ss') && es' == es + [e] && |ss'| == |es| + 2 && ss'[..|es| + 1] == ss
    ensures ss'[|es| + 1] == Next(es', ss + [ss[|es|]], |es|)
  {
    es' := es + [e];
    var padded := ss + [ss[|es|]];
    ss' := ss + [Next(es', padded, |es|)];
    forall i: nat | i < |es'| ensures Step(es', ss', i) {
      if i < |es| {
        assert Step(es, ss, i);
      }
    }
  }

  /** The run that continues es with a link of the seed drawn at step d, and then n opt-outs. */
  lemma {:induction false} CountsUp(es: seq<Event>, ss: seq<State>, d: nat, n: nat)
    returns (es': seq<Event>, ss': seq<State>)
    requires Run(es, ss) && ss[|es|].row.None? && d < |es| && es[d].Draw?
    ensures Run(es', ss') && |es'| == |es| + 1 + n
    ensures es'[..|es|] == es && ss'[..|es| + 1] == ss && es'[|es|] == Link(d, true)
    ensures ss'[|es'|].row.Some? && ss'[|es'|].row.value.gen == SeedAt(es, ss, d) + n
    ensures forall i :: |es| < i <= |es'| ==> ss'[i].row.Some?
    decreases n
  {
    if n == 0 {
      es', ss' := Continue(es, ss, Link(d, true));
    } else {
      var es1, ss1 := CountsUp(es, ss, d, n - 1);
      es', ss' := Continue(es1, ss1, OptOut);
      assert es'[..|es|] == es1[..|es|] && ss'[..|es| + 1] == ss1[..|es| + 1];
      forall i | |es| < i <= |es'| ensures ss'[i].row.Some? {
        if i < |ss1| {
          assert ss'[i] == ss1[i];
        }
      }
    }
  }

  /** The run es', ss' continues es with the link whose seed was drawn at step d, keeps that
      session, and ends with the worker retiring it for an expiry read at step r of es. */
  ghost predicate RetiresTheNewLink(es: seq<Event>, ss: seq<State>, r: nat, d: nat, es': seq<Event>, ss': seq<State>) {
    && Run(es', ss') && |es| + 1 < |es'| && |ss| == |es| + 1
    && es'[..|es|] == es && ss'[..|es| + 1] == ss
    && es'[|es|].Link? && es'[|es|].draw == d
    && (forall i :: |es| < i < |es'| ==> ss'[i].row.Some?)
    && es'[|es'| - 1] == Retire(r) && ss'[|es'|].row.None?
  }

  /** A session that is never deleted only counts up. */
  lemma {:induction false} KeptOnlyRises(es: seq<Event>, ss: seq<State>, i: nat, n: nat)
    requires Run(es, ss) && i <= n <= |es| && forall k :: i <= k <= n ==> ss[k].row.Some?
    ensures ss[i].row.value.gen <= ss[n].row.value.gen
    decreases n
  {
    if i < n {
      KeptOnlyRises(es, ss, i, n - 1);
      assert Step(es, ss, n - 1);
    }
  }

  lemma StaleSeedIsRetired(es: seq<Event>, ss: seq<State>, r: nat, d: nat)
    returns (es': seq<Event>, ss': seq<State>)
    requires Run(es, ss) && r < |es| && Saw(es, ss, r)
    requires ss[|es|].row.None? && d < |es| && es[d].Draw?
    requires SeedAt(es, ss, d) <= ss[r].row.value.gen
    ensures RetiresTheNewLink(es, ss, r, d, es', ss')
  {
    var es1, ss1 := CountsUp(es, ss, d, ss[r].row.value.gen - SeedAt(es, ss, d));
    assert es1[r] == es1[..|es|][r] == es[r] && ss1[r] == ss1[..|es| + 1][r] == ss[r];
    es', ss' := Continue(es1, ss1, Retire(r));
    assert es'[..|es|] == es1[..|es|] && es'[|es|] == es1[|es|];
    assert ss'[..|es| + 1] == ss1[..|es| + 1];
    forall i | |es| < i < |es'| ensures ss'[i].row.Some? {
      assert ss'[i] == ss'[..|es1| + 1][i] == ss1[i];
    }
  }

  /** Freshness is exactly what safety needs. When the row is gone and a link with a seed in
      hand is about to land, an expiry read earlier can come to retire the session that link
      makes if and only if the seed does not exceed the generation it was read at. (Seeds
      are remembered, and not the increments on top of them, so such a seed takes a clock
      that stepped back, writes that outran milliseconds, or another link meanwhile.) */
  lemma StaleSeedRetiresTheNewLink(es: seq<Event>, ss: seq<State>, r: nat, d: nat)
    requires Run(es, ss) && r < |es| && Saw(es, ss, r)
    requires ss[|es|].row.None? && d < |es| && es[d].Draw?
    ensures (exists es', ss' :: RetiresTheNewLink(es, ss, r, d, es', ss'))
            <==> SeedAt(es, ss, d) <= ss[r].row.value.gen
  {
    if SeedAt(es, ss, d) <= ss[r].row.value.gen {
      var es', ss' := StaleSeedIsRetired(es, ss, r, d);
    }
    forall es', ss' | RetiresTheNewLink(es, ss, r, d, es', ss') ensures SeedAt(es, ss, d) <= ss[r].row.value.gen {
      var n, m: nat := |es|, |es'| - 1;
      assert Step(es', ss', n) && Step(es', ss', m);
      assert es'[d] == es'[..n][d] && ss'[d] == ss'[..n + 1][d] && ss'[r] == ss'[..n + 1][r] && ss'[n] == ss'[..n + 1][n];
      KeptOnlyRises(es', ss', n + 1, m);
    }
  }

  /** A run that does it: a password opt-out counts the row up past its seed, its expiry is
      queued, and the user unlinks and links again within the same millisecond. */
  lemma RelinkWithinAMillisecond() returns (es: seq<Event>, ss: seq<State>)
    ensures es == [Draw(10), Link(0, true), OptOut, Read, Unlink, Draw(10), Link(5, true), Retire(3)]
    ensures Run(es, ss) && ss[7].row == Some(Row(11, true, 2)) && ss[8].row.None?
    ensures !FreshAt(es, ss, 6)
  {
    es := [Draw(10), Link(0, true), OptOut, Read, Unlink, Draw(10), Link(5, true), Retire(3)];
    var a, b := Some(Row(10, true, 0)), Some(Row(11, false, 1));
    ss := [State(None, 0, 0), State(None, 10, 0), State(a, 10, 1), State(b, 10, 2), State(b, 10, 2),
           State(None, 10, 2), State(None, 11, 2), State(Some(Row(11, true, 2)), 11, 3), State(None, 11, 3)];
    assert Step(es, ss, 0) && Step(es, ss, 1) && Step(es, ss, 2) && Step(es, ss, 3);
    assert Step(es, ss, 4) && Step(es, ss, 5) && Step(es, ss, 6) && Step(es, ss, 7);
    assert Saw(es, ss, 3);
  }
}
