/** The sliding-window limiter with amortised sweeping (rateLimiter in
    internal/server/contact.go), checked against the plain log of allowed events. */
module RateLimiter {
  import opened Arithmetic

  type Key = string

  const MAX_LIMITER_KEYS: int := 20000
  const PRUNE_EVERY: int := 256

  datatype Config = Config(limit: int, window: int)
  datatype State = State(hits: map<Key, seq<int>>, calls: int)

  /** The timestamps after the cutoff, in order. */
  function Live(ts: seq<int>, cutoff: int): seq<int> {
    if ts == [] then []
    else Live(ts[..|ts| - 1], cutoff) + (if ts[|ts| - 1] > cutoff then [ts[|ts| - 1]] else [])
  }

  function Of(hits: map<Key, seq<int>>, key: Key): seq<int> {
    if key in hits then hits[key] else []
  }

  predicate Stale(ts: seq<int>, cutoff: int) {
    ts == [] || ts[|ts| - 1] < cutoff
  }

  function Swept(hits: map<Key, seq<int>>, key: Key, cutoff: int): map<Key, seq<int>> {
    map k | k in hits && (k == key || !Stale(hits[k], cutoff)) :: hits[k]
  }

  /** The keys that have reached the limit. */
  function AtLimit(c: Config, hits: map<Key, seq<int>>, cutoff: int): map<Key, seq<int>> {
    map k | k in hits && |Live(hits[k], cutoff)| >= c.limit :: hits[k]
  }

  function Evicted(c: Config, hits: map<Key, seq<int>>, cutoff: int): map<Key, seq<int>> {
    if |hits| > MAX_LIMITER_KEYS then
      var blocked := AtLimit(c, hits, cutoff);
      if |blocked| > MAX_LIMITER_KEYS then map[] else blocked
    else hits
  }

  predicate SweepDue(s: State) {
    s.calls + 1 >= PRUNE_EVERY
  }

  /** The map once this call's sweep, if it is due, is done. */
  function AfterSweep(c: Config, s: State, now: int, key: Key): map<Key, seq<int>> {
    if SweepDue(s) then Swept(s.hits, key, now - c.window) else s.hits
  }

  function AfterEviction(c: Config, s: State, now: int, key: Key): map<Key, seq<int>> {
    Evicted(c, AfterSweep(c, s, now, key), now - c.window)
  }

  predicate Grants(c: Config, s: State, now: int, key: Key) {
    |Live(Of(AfterEviction(c, s, now, key), key), now - c.window)| < c.limit
  }

  /** The key's own entry trimmed, and the event added if there is room. */
  function Recorded(c: Config, hits: map<Key, seq<int>>, now: int, key: Key): map<Key, seq<int>> {
    var kept := Live(Of(hits, key), now - c.window);
    hits[key := if |kept| < c.limit then kept + [now] else kept]
  }

  function AfterAllow(c: Config, s: State, now: int, key: Key): State {
    State(Recorded(c, AfterEviction(c, s, now, key), now, key), if SweepDue(s) then 0 else s.calls + 1)
  }

  function Oldest(ts: seq<int>): int
    requires ts != []
  {
    if |ts| == 1 then ts[0]
    else
      var rest := Oldest(ts[..|ts| - 1]);
      if ts[|ts| - 1] < rest then ts[|ts| - 1] else rest
  }

  lemma {:induction false} OldestIs(ts: seq<int>)
    requires ts != []
    ensures Oldest(ts) in ts && forall x :: x in ts ==> Oldest(ts) <= x
    decreases |ts|
  {
    if |ts| > 1 {
      OldestIs(ts[..|ts| - 1]);
      assert forall x :: x in ts ==> x in ts[..|ts| - 1] || x == ts[|ts| - 1];
    }
  }

  /** What time.Sub saturates to, from Go's zero time (year 1) to any present. */
  const MIN_DURATION: int := -0x8000_0000_0000_0000

  /** Zero while another attempt would pass, else how long until the oldest one leaves; with
      no attempt counted and none allowed, the oldest is Go's zero time. */
  function WaitOf(c: Config, ts: seq<int>, now: int): int {
    var live := Live(ts, now - c.window);
    if |live| < c.limit then 0
    else if live == [] then MIN_DURATION
    else Oldest(live) + c.window - now
  }

  function RetryAfter(c: Config, s: State, now: int, key: Key): int {
    WaitOf(c, Of(s.hits, key), now)
  }

  lemma LiveAppend(ts: seq<int>, x: int, cutoff: int)
    ensures Live(ts + [x], cutoff) == Live(ts, cutoff) + (if x > cutoff then [x] else [])
  {
    assert (ts + [x])[..|ts|] == ts;
  }

  lemma OldestOfMore(ts: seq<int>, t: int)
    ensures Oldest(ts + [t]) == if ts != [] && Oldest(ts) <= t then Oldest(ts) else t
  {
    assert (ts + [t])[..|ts|] == ts;
  }

  // ---- the limiter itself ----

  class Limiter {
    const cfg: Config
    var hits: map<Key, seq<int>>
    var calls: int

    ghost function View(): State
      reads this
    {
      State(hits, calls)
    }

    constructor (limit: int, window: int)
      ensures cfg == Config(limit, window) && View() == State(map[], 0)
    {
      cfg := Config(limit, window);
      hits, calls := map[], 0;
    }

    method Sweep(key: Key, cutoff: int)
      modifies this`hits
      ensures hits == Swept(old(hits), key, cutoff)
    {
      ghost var full := hits;
      var todo := hits.Keys;
      while todo != {}
        invariant todo <= hits.Keys <= full.Keys
        invariant forall k :: k in hits ==> hits[k] == full[k]
        invariant forall k :: k in full ==> (k in hits <==> k in todo || k == key || !Stale(full[k], cutoff))
      {
        var k :| k in todo;
        todo := todo - {k};
        if k == key {
          continue;
        }
        var ts := hits[k];
        if |ts| == 0 || ts[|ts| - 1] < cutoff {
          hits := hits - {k};
        }
      }
    }

    method CountLive(ts: seq<int>, cutoff: int) returns (live: nat)
      ensures live == |Live(ts, cutoff)|
    {
      live := 0;
      for i := 0 to |ts|
        invariant live == |Live(ts[..i], cutoff)|
      {
        assert ts[..i + 1][..i] == ts[..i];
        if ts[i] > cutoff {
          live := live + 1;
        }
      }
      assert ts[..|ts|] == ts;
    }

    /** Keep the keys at their limit; give up only if they alone overflow. */
    method Evict(cutoff: int)
      requires |hits| > MAX_LIMITER_KEYS
      modifies this`hits
      ensures hits == Evicted(cfg, old(hits), cutoff)
    {
      var blocked: map<Key, seq<int>> := map[];
      var todo := hits.Keys;
      while todo != {}
        invariant todo <= hits.Keys && hits == old(hits)
        invariant forall k :: k in blocked ==> k in hits && blocked[k] == hits[k]
        invariant forall k :: k in hits ==> (k in blocked <==> k !in todo && |Live(hits[k], cutoff)| >= cfg.limit)
      {
        var k :| k in todo;
        todo := todo - {k};
        var live := CountLive(hits[k], cutoff);
        if live >= cfg.limit {
          blocked := blocked[k := hits[k]];
        }
      }
      assert blocked == AtLimit(cfg, hits, cutoff);
      if |blocked| > MAX_LIMITER_KEYS {
        blocked := map[];
      }
      hits := blocked;
    }

    method Trim(ts: seq<int>, cutoff: int) returns (kept: seq<int>)
      ensures kept == Live(ts, cutoff)
    {
      kept := [];
      for i := 0 to |ts|
        invariant kept == Live(ts[..i], cutoff)
      {
        assert ts[..i + 1][..i] == ts[..i];
        if ts[i] > cutoff {
          kept := kept + [ts[i]];
        }
      }
      assert ts[..|ts|] == ts;
    }

    /** The amortised sweep and the overflow guard at the head of allow. */
    method Prune(now: int, key: Key)
      modifies this
      ensures hits == AfterEviction(cfg, old(View()), now, key)
      ensures calls == if SweepDue(old(View())) then 0 else old(calls) + 1
    {
      calls := calls + 1;
      if calls >= PRUNE_EVERY {
        calls := 0;
        Sweep(key, now - cfg.window);
      }
      assert hits == AfterSweep(cfg, old(View()), now, key);
      if |hits| > MAX_LIMITER_KEYS {
        Evict(now - cfg.window);
      }
    }

    method Allow(now: int, key: Key) returns (ok: bool)
      modifies this
      ensures ok == Grants(cfg, old(View()), now, key)
      ensures View() == AfterAllow(cfg, old(View()), now, key)
    {
      Prune(now, key);
      var kept := Trim(if key in hits then hits[key] else [], now - cfg.window);
      ok := |kept| < cfg.limit;
      hits := hits[key := if ok then kept + [now] else kept];
    }

    method RetryAfterFor(now: int, key: Key) returns (wait: int)
      ensures wait == RetryAfter(cfg, View(), now, key)
    {
      var ts, cutoff := if key in hits then hits[key] else [], now - cfg.window;
      var live, oldest := 0, 0;
      ghost var counted: seq<int> := [];
      for i := 0 to |ts|
        invariant counted == Live(ts[..i], cutoff) && live == |counted|
        invariant counted != [] ==> oldest == Oldest(counted)
      {
        assert ts[..i + 1] == ts[..i] + [ts[i]];
        LiveAppend(ts[..i], ts[i], cutoff);
        if ts[i] > cutoff {
          OldestOfMore(counted, ts[i]);
          if live == 0 || ts[i] < oldest {
            oldest := ts[i];
          }
          live := live + 1;
          counted := counted + [ts[i]];
        }
      }
      assert ts[..|ts|] == ts;
      if live < cfg.limit {
        return 0;
      }
      return if live == 0 then MIN_DURATION else oldest + cfg.window - now;
    }
  }

  // ---- sorted timestamps ----

  ghost predicate Ascending(ts: seq<int>) {
    forall i, j :: 0 <= i < j < |ts| ==> ts[i] <= ts[j]
  }

  ghost predicate OkList(c: Config, ts: seq<int>, last: int) {
    Ascending(ts) && (ts != [] ==> ts[|ts| - 1] <= last) && (|ts| <= c.limit || ts == [])
  }

  /** What every call preserves: each key's timestamps ascend, none is in the future, and
      none holds more than the limit allows. */
  ghost predicate Ok(c: Config, s: State, last: int) {
    forall k :: k in s.hits ==> OkList(c, s.hits[k], last)
  }

  lemma {:induction false} LiveMembers(ts: seq<int>, cutoff: int)
    ensures forall t :: t in Live(ts, cutoff) <==> t in ts && t > cutoff
    ensures |Live(ts, cutoff)| <= |ts|
    decreases |ts|
  {
    if ts != [] {
      LiveMembers(ts[..|ts| - 1], cutoff);
      assert forall t :: t in ts <==> t in ts[..|ts| - 1] || t == ts[|ts| - 1];
    }
  }

  lemma {:induction false} LiveAscends(ts: seq<int>, cutoff: int)
    requires Ascending(ts)
    ensures Ascending(Live(ts, cutoff))
    decreases |ts|
  {
    if ts != [] {
      var front := ts[..|ts| - 1];
      LiveAscends(front, cutoff);
      LiveMembers(front, cutoff);
      var live := Live(front, cutoff);
      assert forall i :: 0 <= i < |live| ==> live[i] in live && live[i] in front;
    }
  }

  /** Filtering again with a later cutoff only needs what the earlier one kept. */
  lemma {:induction false} LiveAgain(ts: seq<int>, cutoff: int, later: int)
    requires cutoff <= later
    ensures Live(Live(ts, cutoff), later) == Live(ts, later)
    decreases |ts|
  {
    if ts != [] {
      var front, x := ts[..|ts| - 1], ts[|ts| - 1];
      LiveAgain(front, cutoff, later);
      LiveAppend(Live(front, cutoff), x, later);
      assert Live(front, cutoff) + [] == Live(front, cutoff);
    }
  }

  lemma {:induction false} AllOldIsDead(ts: seq<int>, cutoff: int)
    requires forall i :: 0 <= i < |ts| ==> ts[i] <= cutoff
    ensures Live(ts, cutoff) == []
    decreases |ts|
  {
    if ts != [] {
      AllOldIsDead(ts[..|ts| - 1], cutoff);
    }
  }

  /** A later cutoff drops the oldest live timestamp and maybe more. */
  lemma {:induction false} LiveShrinks(ts: seq<int>, cutoff: int, later: int)
    requires cutoff <= later
    ensures |Live(ts, later)| <= |Live(ts, cutoff)|
    ensures (exists t :: t in ts && cutoff < t <= later) ==> |Live(ts, later)| < |Live(ts, cutoff)|
    decreases |ts|
  {
    if ts != [] {
      LiveShrinks(ts[..|ts| - 1], cutoff, later);
      assert forall t :: t in ts <==> t in ts[..|ts| - 1] || t == ts[|ts| - 1];
    }
  }

  lemma AppendKeepsOk(c: Config, ts: seq<int>, now: int)
    requires OkList(c, ts, now) && |ts| < c.limit
    ensures OkList(c, ts + [now], now)
  {
    assert forall i :: 0 <= i < |ts| ==> ts[i] in ts;
  }

  lemma LiveKeepsOk(c: Config, ts: seq<int>, last: int, now: int, cutoff: int)
    requires OkList(c, ts, last) && last <= now
    ensures OkList(c, Live(ts, cutoff), now)
  {
    LiveMembers(ts, cutoff);
    LiveAscends(ts, cutoff);
    var kept := Live(ts, cutoff);
    assert kept != [] ==> kept[|kept| - 1] in kept;
  }

  lemma TrimKeepsOk(c: Config, ts: seq<int>, last: int, now: int)
    requires OkList(c, ts, last) && last <= now
    ensures var kept := Live(ts, now - c.window);
            OkList(c, kept, now) && (|kept| < c.limit ==> OkList(c, kept + [now], now))
  {
    LiveKeepsOk(c, ts, last, now, now - c.window);
    if |Live(ts, now - c.window)| < c.limit {
      AppendKeepsOk(c, Live(ts, now - c.window), now);
    }
  }

  lemma EvictionSelects(c: Config, s: State, now: int, key: Key, k: Key)
    ensures Of(AfterEviction(c, s, now, key), k) == Of(s.hits, k) || Of(AfterEviction(c, s, now, key), k) == []
    ensures k in AfterEviction(c, s, now, key) ==> k in s.hits && AfterEviction(c, s, now, key)[k] == s.hits[k]
  {
  }

  lemma OkLater(c: Config, ts: seq<int>, last: int, now: int)
    requires OkList(c, ts, last) && last <= now
    ensures OkList(c, ts, now)
  {
  }

  lemma OkOf(c: Config, s: State, last: int, k: Key)
    requires Ok(c, s, last)
    ensures OkList(c, Of(s.hits, k), last)
  {
  }

  lemma EvictedIsOk(c: Config, s: State, last: int, now: int, key: Key, k: Key)
    requires Ok(c, s, last)
    ensures OkList(c, Of(AfterEviction(c, s, now, key), k), last)
  {
    EvictionSelects(c, s, now, key, k);
    OkOf(c, s, last, k);
  }

  lemma EntryIsOk(c: Config, hits: map<Key, seq<int>>, last: int, now: int, key: Key, k: Key)
    requires OkList(c, Of(hits, k), last) && last <= now
    ensures OkList(c, Of(Recorded(c, hits, now, key), k), now)
  {
    if k == key {
      TrimKeepsOk(c, Of(hits, k), last, now);
    } else {
      assert Of(Recorded(c, hits, now, key), k) == Of(hits, k);
      OkLater(c, Of(hits, k), last, now);
    }
  }

  lemma AllowKeepsOk(c: Config, s: State, last: int, now: int, key: Key)
    requires Ok(c, s, last) && last <= now
    ensures Ok(c, AfterAllow(c, s, now, key), now)
  {
    var after := AfterAllow(c, s, now, key).hits;
    forall k | k in after ensures OkList(c, after[k], now) {
      EvictedIsOk(c, s, last, now, key, k);
      EntryIsOk(c, AfterEviction(c, s, now, key), last, now, key, k);
      assert Of(after, k) == after[k];
    }
  }

  /** The map is bounded whatever came before. */
  lemma MapStaysBounded(c: Config, s: State, now: int, key: Key)
    ensures |AfterAllow(c, s, now, key).hits| <= MAX_LIMITER_KEYS + 1
  {
    var hits := AfterEviction(c, s, now, key);
    assert AfterAllow(c, s, now, key).hits.Keys == hits.Keys + {key};
  }

  // ---- agreement with the full log ----

  /** The limiter that forgets nothing. */
  predicate NaiveGrants(c: Config, log: map<Key, seq<int>>, now: int, key: Key) {
    |Live(Of(log, key), now - c.window)| < c.limit
  }

  function AfterNaive(c: Config, log: map<Key, seq<int>>, now: int, key: Key): map<Key, seq<int>> {
    if NaiveGrants(c, log, now, key) then log[key := Of(log, key) + [now]] else log
  }

  predicate Overflows(c: Config, s: State, now: int, key: Key) {
    |AfterSweep(c, s, now, key)| > MAX_LIMITER_KEYS
  }

  /** From `last` on, every window sees the same timestamps in both. */
  ghost predicate Agrees(c: Config, hits: map<Key, seq<int>>, log: map<Key, seq<int>>, last: int) {
    forall k, cutoff :: cutoff >= last - c.window ==> Live(Of(hits, k), cutoff) == Live(Of(log, k), cutoff)
  }

  lemma StaleIsDead(ts: seq<int>, swept: int, cutoff: int)
    requires Ascending(ts) && Stale(ts, swept) && swept <= cutoff
    ensures Live(ts, cutoff) == []
  {
    AllOldIsDead(ts, cutoff);
  }

  /** A sweep that is due drops every other key with nothing left in the window, and none
      that has; one that is not drops nothing. */
  lemma SweepIsExact(c: Config, s: State, now: int, key: Key, k: Key)
    ensures SweepDue(s) && k != key ==>
              (k in AfterSweep(c, s, now, key)
               <==> k in s.hits && s.hits[k] != [] && s.hits[k][|s.hits[k]| - 1] >= now - c.window)
    ensures !SweepDue(s) || k == key ==> (k in AfterSweep(c, s, now, key) <==> k in s.hits)
    ensures k in AfterSweep(c, s, now, key) ==> AfterSweep(c, s, now, key)[k] == s.hits[k]
  {
  }

  /** On overflow, and only then, exactly the keys at their limit are kept, if they fit. */
  lemma EvictionIsExact(c: Config, s: State, now: int, key: Key, k: Key)
    ensures var swept, kept := AfterSweep(c, s, now, key), AfterEviction(c, s, now, key);
            && (|swept| <= 20000 ==> kept == swept)
            && (|swept| > 20000 && |AtLimit(c, swept, now - c.window)| <= 20000 ==>
                  (k in kept <==> k in swept && |Live(swept[k], now - c.window)| >= c.limit))
            && (|swept| > 20000 && |AtLimit(c, swept, now - c.window)| > 20000 ==> kept == map[])
  {
  }

  lemma SweepLosesNothing(c: Config, s: State, log: map<Key, seq<int>>, last: int, now: int, key: Key)
    requires Ok(c, s, last) && last <= now && Agrees(c, s.hits, log, last)
    ensures Agrees(c, AfterSweep(c, s, now, key), log, now)
  {
    var swept := AfterSweep(c, s, now, key);
    forall k, cutoff | cutoff >= now - c.window
      ensures Live(Of(swept, k), cutoff) == Live(Of(log, k), cutoff)
    {
      if k in s.hits && k !in swept {
        OkOf(c, s, last, k);
        StaleIsDead(s.hits[k], now - c.window, cutoff);
      }
    }
  }

  /** What the key's own entry becomes, seen from any later window. */
  lemma OwnEntryAgrees(c: Config, ts: seq<int>, full: seq<int>, now: int, cutoff: int)
    requires cutoff >= now - c.window
    requires Live(ts, now - c.window) == Live(full, now - c.window) && Live(ts, cutoff) == Live(full, cutoff)
    ensures Live(Live(ts, now - c.window), cutoff) == Live(full, cutoff)
    ensures Live(Live(ts, now - c.window) + [now], cutoff) == Live(full + [now], cutoff)
  {
    LiveAgain(ts, now - c.window, cutoff);
    LiveAppend(Live(ts, now - c.window), now, cutoff);
    LiveAppend(full, now, cutoff);
  }

  lemma RecordAgrees(c: Config, hits: map<Key, seq<int>>, log: map<Key, seq<int>>, now: int, key: Key, ok: bool)
    requires Agrees(c, hits, log, now)
    ensures var kept := Live(Of(hits, key), now - c.window);
            Agrees(c, hits[key := if ok then kept + [now] else kept],
                   if ok then log[key := Of(log, key) + [now]] else log, now)
  {
    var kept := Live(Of(hits, key), now - c.window);
    var hits1 := hits[key := if ok then kept + [now] else kept];
    var log1 := if ok then log[key := Of(log, key) + [now]] else log;
    forall k, cutoff | cutoff >= now - c.window
      ensures Live(Of(hits1, k), cutoff) == Live(Of(log1, k), cutoff)
    {
      if k == key {
        OwnEntryAgrees(c, Of(hits, key), Of(log, key), now, cutoff);
      } else {
        assert Of(hits1, k) == Of(hits, k) && Of(log1, k) == Of(log, k);
      }
    }
  }

  lemma WithoutOverflow(c: Config, s: State, now: int, key: Key)
    requires !Overflows(c, s, now, key)
    ensures var hits := AfterSweep(c, s, now, key);
            var kept := Live(Of(hits, key), now - c.window);
            && Grants(c, s, now, key) == (|kept| < c.limit)
            && AfterAllow(c, s, now, key).hits == hits[key := if |kept| < c.limit then kept + [now] else kept]
  {
  }

  /** One call without overflow: the same answer as the full log, and agreement goes on. */
  lemma AllowAgrees(c: Config, s: State, log: map<Key, seq<int>>, last: int, now: int, key: Key)
    requires Ok(c, s, last) && last <= now && Agrees(c, s.hits, log, last) && !Overflows(c, s, now, key)
    ensures Grants(c, s, now, key) == NaiveGrants(c, log, now, key)
    ensures Agrees(c, AfterAllow(c, s, now, key).hits, AfterNaive(c, log, now, key), now)
  {
    var hits := AfterSweep(c, s, now, key);
    SweepLosesNothing(c, s, log, last, now, key);
    assert Live(Of(hits, key), now - c.window) == Live(Of(log, key), now - c.window);
    WithoutOverflow(c, s, now, key);
    RecordAgrees(c, hits, log, now, key, NaiveGrants(c, log, now, key));
  }

  datatype Call = Call(now: int, key: Key)

  ghost predicate Allows(c: Config, cs: seq<Call>, ss: seq<State>, i: nat)
    requires i < |cs| < |ss|
  {
    ss[i + 1] == AfterAllow(c, ss[i], cs[i].now, cs[i].key)
  }

  ghost predicate Logs(c: Config, cs: seq<Call>, logs: seq<map<Key, seq<int>>>, i: nat)
    requires i < |cs| < |logs|
  {
    logs[i + 1] == AfterNaive(c, logs[i], cs[i].now, cs[i].key)
  }

  ghost predicate LimiterRun(c: Config, cs: seq<Call>, ss: seq<State>) {
    && |ss| == |cs| + 1 && ss[0] == State(map[], 0)
    && (forall i: nat {:trigger Allows(c, cs, ss, i)} :: i < |cs| ==> Allows(c, cs, ss, i))
    && (forall i :: 0 < i < |cs| ==> cs[i - 1].now <= cs[i].now)
  }

  /** The limiter and the full log over the same calls. */
  ghost predicate Run(c: Config, cs: seq<Call>, ss: seq<State>, logs: seq<map<Key, seq<int>>>) {
    && LimiterRun(c, cs, ss) && |logs| == |cs| + 1 && logs[0] == map[]
    && (forall i: nat {:trigger Logs(c, cs, logs, i)} :: i < |cs| ==> Logs(c, cs, logs, i))
  }

  ghost predicate NoOverflow(c: Config, cs: seq<Call>, ss: seq<State>, n: nat)
    requires n <= |cs| < |ss|
  {
    forall i :: 0 <= i < n ==> !Overflows(c, ss[i], cs[i].now, cs[i].key)
  }

  lemma {:induction false} RunIsOk(c: Config, cs: seq<Call>, ss: seq<State>, logs: seq<map<Key, seq<int>>>, n: nat)
    requires Run(c, cs, ss, logs) && n <= |cs|
    ensures n > 0 ==> Ok(c, ss[n], cs[n - 1].now)
    ensures n < |cs| ==> Ok(c, ss[n], cs[n].now)
  {
    if n > 0 {
      RunIsOk(c, cs, ss, logs, n - 1);
      AllowKeepsOk(c, ss[n - 1], cs[n - 1].now, cs[n - 1].now, cs[n - 1].key);
      assert Allows(c, cs, ss, n - 1);
    }
  }

  lemma CountsTo256(n: nat)
    ensures (n + 1) % 256 == if n % 256 == 255 then 0 else n % 256 + 1
  {
  }

  lemma CallIsCounted(c: Config, s: State, now: int, key: Key)
    ensures AfterAllow(c, s, now, key).calls == if s.calls + 1 >= 256 then 0 else s.calls + 1
    ensures SweepDue(s) <==> s.calls + 1 >= 256
  {
  }

  /** Every 256th call sweeps, and no other. */
  lemma {:induction false} SweepsEvery256(c: Config, cs: seq<Call>, ss: seq<State>, n: nat)
    requires LimiterRun(c, cs, ss) && n < |cs|
    ensures ss[n].calls == n % 256
    ensures SweepDue(ss[n]) <==> (n + 1) % 256 == 0
  {
    CountsTo256(n);
    CallIsCounted(c, ss[n], cs[n].now, cs[n].key);
    if n > 0 {
      SweepsEvery256(c, cs, ss, n - 1);
      CountsTo256(n - 1);
      CallIsCounted(c, ss[n - 1], cs[n - 1].now, cs[n - 1].key);
      assert Allows(c, cs, ss, n - 1);
    }
  }

  /** Until the map first overflows, sweeping and trimming never change an answer: every
      call is decided as the full log would decide it. */
  lemma {:induction false} RunAgreesWithLog(c: Config, cs: seq<Call>, ss: seq<State>, logs: seq<map<Key, seq<int>>>, n: nat)
    requires Run(c, cs, ss, logs) && n < |cs| && NoOverflow(c, cs, ss, n + 1)
    ensures Agrees(c, ss[n].hits, logs[n], cs[n].now)
    ensures Grants(c, ss[n], cs[n].now, cs[n].key) == NaiveGrants(c, logs[n], cs[n].now, cs[n].key)
    decreases n
  {
    RunIsOk(c, cs, ss, logs, n);
    if n > 0 {
      RunAgreesWithLog(c, cs, ss, logs, n - 1);
      RunIsOk(c, cs, ss, logs, n - 1);
      AllowAgrees(c, ss[n - 1], logs[n - 1], cs[n - 1].now, cs[n - 1].now, cs[n - 1].key);
      assert Allows(c, cs, ss, n - 1) && Logs(c, cs, logs, n - 1);
    }
    AllowAgrees(c, ss[n], logs[n], cs[n].now, cs[n].now, cs[n].key);
  }

  // ---- the promise of the log ----

  /** Each entry was allowed on what came before it. */
  ghost predicate Earned(c: Config, ts: seq<int>) {
    ts == [] ||
    var front, x := ts[..|ts| - 1], ts[|ts| - 1];
    && Earned(c, front)
    && (forall t :: t in front ==> t <= x)
    && |Live(front, x - c.window)| < c.limit
  }

  lemma {:induction false} LogIsEarned(c: Config, cs: seq<Call>, ss: seq<State>, logs: seq<map<Key, seq<int>>>, n: nat, key: Key)
    requires Run(c, cs, ss, logs) && n <= |cs|
    ensures Earned(c, Of(logs[n], key))
    ensures n > 0 ==> forall t :: t in Of(logs[n], key) ==> t <= cs[n - 1].now
    decreases n
  {
    if n > 0 {
      LogIsEarned(c, cs, ss, logs, n - 1, key);
      assert Logs(c, cs, logs, n - 1);
      var now, before, after := cs[n - 1].now, Of(logs[n - 1], key), Of(logs[n], key);
      assert n > 1 ==> cs[n - 2].now <= now;
      if after != before {
        assert after[..|after| - 1] == before;
      }
    }
  }

  /** Entries in (lo, hi]. */
  function InWindow(ts: seq<int>, lo: int, hi: int): nat {
    if ts == [] then 0
    else InWindow(ts[..|ts| - 1], lo, hi) + (if lo < ts[|ts| - 1] <= hi then 1 else 0)
  }

  lemma {:induction false} InWindowIsLive(ts: seq<int>, lo: int, hi: int)
    requires forall i :: 0 <= i < |ts| ==> ts[i] <= hi
    ensures InWindow(ts, lo, hi) == |Live(ts, lo)|
    decreases |ts|
  {
    if ts != [] {
      InWindowIsLive(ts[..|ts| - 1], lo, hi);
    }
  }

  /** Any window of the configured length, ending anywhere, holds at most `limit` allowed
      events of a key. */
  lemma {:induction false} EarnedIsRateLimited(c: Config, ts: seq<int>, end: int)
    requires Earned(c, ts)
    ensures InWindow(ts, end - c.window, end) <= Max(c.limit, 0)
    decreases |ts|
  {
    if ts != [] {
      var front, x, lo := ts[..|ts| - 1], ts[|ts| - 1], end - c.window;
      EarnedIsRateLimited(c, front, end);
      if lo < x <= end {
        assert forall i :: 0 <= i < |front| ==> front[i] in front;
        InWindowIsLive(front, lo, end);
        LiveShrinks(front, x - c.window, lo);
      }
    }
  }

  /** The log after the first n calls. */
  ghost function LogAfter(c: Config, cs: seq<Call>, n: nat): map<Key, seq<int>>
    requires n <= |cs|
  {
    if n == 0 then map[] else AfterNaive(c, LogAfter(c, cs, n - 1), cs[n - 1].now, cs[n - 1].key)
  }

  /** The limiter's own grants to a key at instants in (lo, hi], over the first n calls. */
  ghost function GrantsIn(c: Config, cs: seq<Call>, ss: seq<State>, n: nat, key: Key, lo: int, hi: int): nat
    requires n <= |cs| < |ss|
  {
    if n == 0 then 0 else
      var call := cs[n - 1];
      GrantsIn(c, cs, ss, n - 1, key, lo, hi)
      + if call.key == key && lo < call.now <= hi && Grants(c, ss[n - 1], call.now, key) then 1 else 0
  }

  lemma InWindowAppend(ts: seq<int>, x: int, lo: int, hi: int)
    ensures InWindow(ts + [x], lo, hi) == InWindow(ts, lo, hi) + if lo < x <= hi then 1 else 0
  {
    assert (ts + [x])[..|ts|] == ts;
  }

  /** What one call adds to a key's log. */
  lemma LogStep(c: Config, log: map<Key, seq<int>>, now: int, key: Key, k: Key)
    ensures Of(AfterNaive(c, log, now, key), k)
            == Of(log, k) + if k == key && NaiveGrants(c, log, now, key) then [now] else []
  {
  }

  lemma {:induction false} GrantsAreLogged(c: Config, cs: seq<Call>, ss: seq<State>, logs: seq<map<Key, seq<int>>>,
                                           n: nat, key: Key, lo: int, hi: int)
    requires Run(c, cs, ss, logs) && n <= |cs| && NoOverflow(c, cs, ss, n)
    ensures GrantsIn(c, cs, ss, n, key, lo, hi) == InWindow(Of(logs[n], key), lo, hi)
    decreases n
  {
    if n > 0 {
      GrantsAreLogged(c, cs, ss, logs, n - 1, key, lo, hi);
      RunAgreesWithLog(c, cs, ss, logs, n - 1);
      assert Logs(c, cs, logs, n - 1);
      var call := cs[n - 1];
      LogStep(c, logs[n - 1], call.now, call.key, key);
      InWindowAppend(Of(logs[n - 1], key), call.now, lo, hi);
    }
  }

  lemma LogRuns(c: Config, cs: seq<Call>, ss: seq<State>) returns (logs: seq<map<Key, seq<int>>>)
    requires LimiterRun(c, cs, ss)
    ensures Run(c, cs, ss, logs)
  {
    logs := seq(|cs| + 1, n requires 0 <= n <= |cs| => LogAfter(c, cs, n));
    forall i: nat | i < |cs| ensures Logs(c, cs, logs, i) {
      assert logs[i] == LogAfter(c, cs, i) && logs[i + 1] == LogAfter(c, cs, i + 1);
    }
  }

  /** What the limiter is for: in any run whose map never overflows, any window of the
      configured length, ending anywhere, holds at most `limit` grants to a key. */
  lemma LimiterLimits(c: Config, cs: seq<Call>, ss: seq<State>, key: Key, end: int)
    requires LimiterRun(c, cs, ss) && NoOverflow(c, cs, ss, |cs|)
    ensures GrantsIn(c, cs, ss, |cs|, key, end - c.window, end) <= Max(c.limit, 0)
  {
    var logs := LogRuns(c, cs, ss);
    GrantsAreLogged(c, cs, ss, logs, |cs|, key, end - c.window, end);
    LogIsEarned(c, cs, ss, logs, |cs|, key);
    EarnedIsRateLimited(c, Of(logs[|cs|], key), end);
  }

  // ---- overflow, and retryAfter ----

  /** The blocked keys alone overflow: the one case in which everything is forgotten. */
  predicate TotalReset(c: Config, s: State, now: int, key: Key) {
    && Overflows(c, s, now, key)
    && |AtLimit(c, AfterSweep(c, s, now, key), now - c.window)| > MAX_LIMITER_KEYS
  }

  lemma LiveIsNotStale(ts: seq<int>, cutoff: int)
    requires Ascending(ts) && Live(ts, cutoff) != []
    ensures !Stale(ts, cutoff)
  {
    LiveMembers(ts, cutoff);
    assert Live(ts, cutoff)[0] in Live(ts, cutoff);
  }

  lemma AtLimitIsKept(c: Config, s: State, now: int, key: Key, k: Key)
    requires k in s.hits && !Stale(s.hits[k], now - c.window)
    requires |Live(s.hits[k], now - c.window)| >= c.limit && !TotalReset(c, s, now, key)
    ensures Of(AfterEviction(c, s, now, key), k) == s.hits[k]
  {
    assert k in AfterSweep(c, s, now, key);
  }

  /** A key at its limit keeps its timestamps through any call, its own or another's,
      sweep or overflow, unless that call is a total reset. */
  lemma AtLimitSurvives(c: Config, s: State, last: int, now: int, key: Key, k: Key)
    requires Ok(c, s, last) && c.limit >= 1
    requires |Live(Of(s.hits, k), now - c.window)| >= c.limit && !TotalReset(c, s, now, key)
    ensures Of(AfterEviction(c, s, now, key), k) == Of(s.hits, k)
  {
    OkOf(c, s, last, k);
    LiveIsNotStale(Of(s.hits, k), now - c.window);
    AtLimitIsKept(c, s, now, key, k);
  }

  function LiveCount(ts: seq<int>, cutoff: int): nat {
    |Live(ts, cutoff)|
  }

  /** A key below its limit is allowed, whatever sweep and overflow make of its entry. */
  lemma BelowLimitIsAllowed(c: Config, s: State, now: int, key: Key)
    requires LiveCount(Of(s.hits, key), now - c.window) < c.limit
    ensures Grants(c, s, now, key)
  {
    EvictionSelects(c, s, now, key, key);
  }

  lemma AtLimitIsRefused(c: Config, s: State, last: int, now: int, key: Key)
    requires Ok(c, s, last) && c.limit >= 1 && !TotalReset(c, s, now, key)
    requires LiveCount(Of(s.hits, key), now - c.window) >= c.limit
    ensures !Grants(c, s, now, key)
  {
    AtLimitSurvives(c, s, last, now, key, key);
  }

  /** The sign of the returned time says on which side of the limit the key is. */
  lemma WaitSign(c: Config, ts: seq<int>, now: int)
    requires |ts| <= c.limit || ts == []
    ensures WaitOf(c, ts, now) == 0 <==> LiveCount(ts, now - c.window) < c.limit
    ensures WaitOf(c, ts, now) > 0 <==> LiveCount(ts, now - c.window) >= c.limit >= 1
    ensures WaitOf(c, ts, now) < 0 <==> c.limit <= 0
  {
    LiveMembers(ts, now - c.window);
    if Live(ts, now - c.window) != [] {
      OldestIs(Live(ts, now - c.window));
    }
  }

  /** retryAfter is zero only if the next attempt passes, and positive only if it is
      refused (unless that very attempt is the total reset). With no attempts allowed at
      all it is neither: negative, while every attempt is refused. */
  lemma RetryAfterMatchesAllow(c: Config, s: State, last: int, now: int, key: Key)
    requires Ok(c, s, last)
    ensures RetryAfter(c, s, now, key) >= 0 <==> c.limit >= 1
    ensures RetryAfter(c, s, now, key) == 0 ==> Grants(c, s, now, key)
    ensures RetryAfter(c, s, now, key) > 0 && !TotalReset(c, s, now, key) ==> !Grants(c, s, now, key)
    ensures RetryAfter(c, s, now, key) < 0 ==> !Grants(c, s, now, key)
  {
    OkOf(c, s, last, key);
    WaitSign(c, Of(s.hits, key), now);
    if RetryAfter(c, s, now, key) == 0 {
      BelowLimitIsAllowed(c, s, now, key);
    } else if c.limit >= 1 && !TotalReset(c, s, now, key) {
      AtLimitIsRefused(c, s, last, now, key);
    }
  }

  lemma OtherCallsKeepOrDrop(c: Config, s: State, now: int, key: Key, k: Key)
    requires k != key
    ensures Of(AfterAllow(c, s, now, key).hits, k) == Of(s.hits, k) || Of(AfterAllow(c, s, now, key).hits, k) == []
  {
  }

  /** The limiter after a stretch of calls. */
  function AfterAll(c: Config, s: State, cs: seq<Call>): State {
    if cs == [] then s
    else AfterAllow(c, AfterAll(c, s, cs[..|cs| - 1]), cs[|cs| - 1].now, cs[|cs| - 1].key)
  }

  lemma {:induction false} OthersKeepOrDrop(c: Config, s: State, cs: seq<Call>, k: Key)
    requires forall i :: 0 <= i < |cs| ==> cs[i].key != k
    ensures Of(AfterAll(c, s, cs).hits, k) == Of(s.hits, k) || Of(AfterAll(c, s, cs).hits, k) == []
  {
    if cs != [] {
      OthersKeepOrDrop(c, s, cs[..|cs| - 1], k);
      OtherCallsKeepOrDrop(c, AfterAll(c, s, cs[..|cs| - 1]), cs[|cs| - 1].now, cs[|cs| - 1].key, k);
    }
  }

  ghost predicate CalmAt(c: Config, s: State, cs: seq<Call>, i: nat)
    requires i < |cs|
  {
    !TotalReset(c, AfterAll(c, s, cs[..i]), cs[i].now, cs[i].key)
  }

  /** Calls in clock order between `last` and `until`, none of them a total reset. */
  ghost predicate Calm(c: Config, s: State, cs: seq<Call>, last: int, until: int) {
    && (forall i :: 0 <= i < |cs| ==> last <= cs[i].now <= until)
    && (forall i :: 0 < i < |cs| ==> cs[i - 1].now <= cs[i].now)
    && (forall i: nat :: i < |cs| ==> CalmAt(c, s, cs, i))
  }

  lemma TrimKeepsAtLimit(ts: seq<int>, limit: int, cutoff: int, later: int)
    requires cutoff <= later && |Live(ts, later)| >= limit
    ensures |Live(ts, cutoff)| >= limit && |Live(Live(ts, cutoff), later)| >= limit
  {
    LiveShrinks(ts, cutoff, later);
    LiveAgain(ts, cutoff, later);
  }

  lemma OtherEntryStays(c: Config, hits: map<Key, seq<int>>, now: int, key: Key, k: Key)
    requires k != key
    ensures Of(Recorded(c, hits, now, key), k) == Of(hits, k)
  {
  }

  lemma RefusedEntryIsTrimmed(c: Config, hits: map<Key, seq<int>>, now: int, key: Key)
    requires |Live(Of(hits, key), now - c.window)| >= c.limit
    ensures Of(Recorded(c, hits, now, key), key) == Live(Of(hits, key), now - c.window)
  {
  }

  lemma RecordKeepsAtLimit(c: Config, hits: map<Key, seq<int>>, now: int, key: Key, k: Key, until: int)
    requires now <= until && |Live(Of(hits, k), until - c.window)| >= c.limit
    ensures |Live(Of(Recorded(c, hits, now, key), k), until - c.window)| >= c.limit
  {
    if k == key {
      TrimKeepsAtLimit(Of(hits, key), c.limit, now - c.window, until - c.window);
      RefusedEntryIsTrimmed(c, hits, now, key);
    } else {
      OtherEntryStays(c, hits, now, key, k);
    }
  }

  /** One call leaves a key that will still be at its limit at `until` that way. */
  lemma CallKeepsAtLimit(c: Config, s: State, last: int, now: int, key: Key, k: Key, until: int)
    requires Ok(c, s, last) && c.limit >= 1 && last <= now <= until && !TotalReset(c, s, now, key)
    requires |Live(Of(s.hits, k), until - c.window)| >= c.limit
    ensures |Live(Of(AfterAllow(c, s, now, key).hits, k), until - c.window)| >= c.limit
  {
    LiveShrinks(Of(s.hits, k), now - c.window, until - c.window);
    AtLimitSurvives(c, s, last, now, key, k);
    RecordKeepsAtLimit(c, AfterEviction(c, s, now, key), now, key, k, until);
  }

  lemma {:induction false} StaysAtLimit(c: Config, s: State, last: int, cs: seq<Call>, k: Key, until: int)
    requires Ok(c, s, last) && c.limit >= 1 && Calm(c, s, cs, last, until)
    requires |Live(Of(s.hits, k), until - c.window)| >= c.limit
    ensures Ok(c, AfterAll(c, s, cs), if cs == [] then last else cs[|cs| - 1].now)
    ensures |Live(Of(AfterAll(c, s, cs).hits, k), until - c.window)| >= c.limit
    decreases |cs|
  {
    if cs != [] {
      var n: nat := |cs| - 1;
      var front, call := cs[..n], cs[n];
      assert CalmAt(c, s, cs, n);
      assert Calm(c, s, front, last, until) by {
        forall i: nat | i < n ensures CalmAt(c, s, front, i) {
          assert CalmAt(c, s, cs, i) && front[..i] == cs[..i];
        }
      }
      StaysAtLimit(c, s, last, front, k, until);
      var before := if front == [] then last else front[n - 1].now;
      AllowKeepsOk(c, AfterAll(c, s, front), before, call.now, call.key);
      CallKeepsAtLimit(c, AfterAll(c, s, front), before, call.now, call.key, k, until);
    }
  }

  /** A key with `limit` attempts still in the window at `until` is refused then, however
      many calls, sweeps and overflows came in between, unless one of them was a total
      reset. */
  lemma RefusedThroughOverflow(c: Config, s: State, last: int, cs: seq<Call>, k: Key, until: int)
    requires Ok(c, s, last) && c.limit >= 1 && last <= until
    requires Calm(c, s, cs, last, until) && !TotalReset(c, AfterAll(c, s, cs), until, k)
    requires |Live(Of(s.hits, k), until - c.window)| >= c.limit
    ensures !Grants(c, AfterAll(c, s, cs), until, k)
  {
    StaysAtLimit(c, s, last, cs, k, until);
    AtLimitSurvives(c, AfterAll(c, s, cs), if cs == [] then last else cs[|cs| - 1].now, until, k, k);
  }

  lemma OldestLeaves(ts: seq<int>, cutoff: int, later: int)
    requires Live(ts, cutoff) != [] && Oldest(Live(ts, cutoff)) <= later
    ensures |Live(ts, later)| < |Live(ts, cutoff)| <= |ts|
  {
    LiveMembers(ts, cutoff);
    var oldest := Oldest(Live(ts, cutoff));
    OldestIs(Live(ts, cutoff));
    assert oldest in ts && cutoff < oldest <= later;
    LiveShrinks(ts, cutoff, later);
  }

  lemma {:induction false} AllNewIsLive(ts: seq<int>, cutoff: int)
    requires forall i :: 0 <= i < |ts| ==> ts[i] > cutoff
    ensures Live(ts, cutoff) == ts
    decreases |ts|
  {
    if ts != [] {
      AllNewIsLive(ts[..|ts| - 1], cutoff);
      assert ts == ts[..|ts| - 1] + [ts[|ts| - 1]];
    }
  }

  /** If as many are live as there are, all are. */
  lemma {:induction false} AllLive(ts: seq<int>, cutoff: int)
    ensures |Live(ts, cutoff)| <= |ts|
    ensures |Live(ts, cutoff)| == |ts| ==> Live(ts, cutoff) == ts
    decreases |ts|
  {
    if ts != [] {
      AllLive(ts[..|ts| - 1], cutoff);
      assert ts == ts[..|ts| - 1] + [ts[|ts| - 1]];
    }
  }

  lemma NoneLeavesBeforeTheOldest(ts: seq<int>, cutoff: int, later: int)
    requires ts != [] && |Live(ts, cutoff)| == |ts| && later < Oldest(Live(ts, cutoff))
    ensures Live(ts, later) == ts
  {
    AllLive(ts, cutoff);
    OldestIs(ts);
    assert forall i :: 0 <= i < |ts| ==> ts[i] in ts;
    AllNewIsLive(ts, later);
  }

  lemma StillAtLimit(ts: seq<int>, limit: int, cutoff: int, later: int)
    requires |ts| <= limit <= LiveCount(ts, cutoff) && ts != [] && later < Oldest(Live(ts, cutoff))
    ensures LiveCount(ts, later) >= limit
  {
    AllLive(ts, cutoff);
    NoneLeavesBeforeTheOldest(ts, cutoff, later);
  }

  lemma WaitKeepsAtLimit(c: Config, ts: seq<int>, now: int, sooner: int)
    requires (|ts| <= c.limit || ts == []) && WaitOf(c, ts, now) > 0 && sooner < now + WaitOf(c, ts, now)
    ensures LiveCount(ts, sooner - c.window) >= c.limit >= 1
  {
    StillAtLimit(ts, c.limit, now - c.window, sooner - c.window);
  }

  /** And the returned time is needed: at every instant before it is up, a key left alone is
      still refused, unless its very attempt is the total reset. */
  lemma WaitIsNeeded(c: Config, s: State, last: int, now: int, key: Key, sooner: int)
    requires Ok(c, s, last) && last <= now <= sooner
    requires RetryAfter(c, s, now, key) > 0 && sooner < now + RetryAfter(c, s, now, key)
    requires !TotalReset(c, s, sooner, key)
    ensures !Grants(c, s, sooner, key)
  {
    OkOf(c, s, last, key);
    WaitKeepsAtLimit(c, Of(s.hits, key), now, sooner);
    AtLimitIsRefused(c, s, last, sooner, key);
  }

  /** When the returned time is up, the oldest counted timestamp has left the window. */
  lemma WaitingFreesASlot(c: Config, s: State, last: int, now: int, key: Key, later: int)
    requires Ok(c, s, last)
    requires RetryAfter(c, s, now, key) > 0 && later >= now + RetryAfter(c, s, now, key)
    ensures |Live(Of(s.hits, key), later - c.window)| < c.limit
  {
    OkOf(c, s, last, key);
    OldestLeaves(Of(s.hits, key), now - c.window, later - c.window);
  }

  /** A refused key that makes no attempt for exactly the returned time is then allowed,
      whatever every other key did meanwhile. */
  lemma WaitingIsEnough(c: Config, s: State, last: int, now: int, key: Key, others: seq<Call>, later: int)
    requires Ok(c, s, last)
    requires RetryAfter(c, s, now, key) > 0 && later >= now + RetryAfter(c, s, now, key)
    requires forall i :: 0 <= i < |others| ==> others[i].key != key
    ensures Grants(c, AfterAll(c, s, others), later, key)
  {
    WaitingFreesASlot(c, s, last, now, key, later);
    OthersKeepOrDrop(c, s, others, key);
    EvictionSelects(c, AfterAll(c, s, others), later, key, key);
  }
}
