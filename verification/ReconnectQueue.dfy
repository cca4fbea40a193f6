/** The queue of sessions to reconnect (queueReconnectItem, cancelReconnectWhere,
    nextDueReconnect, sameQueued, dequeueReconnect and backoffReconnect in
    internal/scheduler/reconnect.go). The worker copies an item out, spends a while
    attempting it, and then dequeues or backs off whatever is under the key by then, if it
    still is that item. */
module ReconnectQueue {
  import opened Arithmetic
  import opened Durations
  import opened Wrappers

  const BACKOFF_MIN: int := 5 * MINUTE
  const BACKOFF_MAX: int := 60 * MINUTE
  const STALLED_ALERT_ATTEMPTS: int := 5

  /** Owner and tenant, each by its rank in the string order. */
  datatype Key = Key(owner: int, tenant: int)

  datatype Item = Item(next: int, queuedAt: int, gen: int, attempts: int, countsChurn: bool)

  type Queue = map<Key, Item>

  function Queued(q: Queue, key: Key, now: int, gen: int, countsChurn: bool): Queue {
    if key in q then
      if countsChurn && !q[key].countsChurn then q[key := q[key].(countsChurn := true)] else q
    else q[key := Item(now, now, gen, 0, countsChurn)]
  }

  predicate SameQueued(cur: Item, attempted: Item) {
    cur.gen == attempted.gen && cur.queuedAt == attempted.queuedAt
  }

  predicate StillQueued(q: Queue, key: Key, attempted: Item) {
    key in q && SameQueued(q[key], attempted)
  }

  function Dequeued(q: Queue, key: Key, attempted: Item): Queue {
    if StillQueued(q, key, attempted) then q - {key} else q
  }

  /** reconnectBackoffMin << min(attempts - 1, 6), capped. */
  function Backoff(attempts: int): int
    requires attempts >= 1
  {
    var shifted := BACKOFF_MIN * Pow2(if attempts - 1 < 6 then attempts - 1 else 6);
    if shifted > BACKOFF_MAX then BACKOFF_MAX else shifted
  }

  function BackedOff(it: Item, now: int): Item
    requires it.attempts >= 0
  {
    it.(attempts := it.attempts + 1, next := now + Backoff(it.attempts + 1))
  }

  /** Earlier next attempt first; owner, then tenant, break ties. */
  predicate Before(a: Key, x: Item, b: Key, y: Item) {
    || x.next < y.next
    || (x.next == y.next && (a.owner < b.owner || (a.owner == b.owner && a.tenant < b.tenant)))
  }

  class Pending {
    var q: Queue

    ghost predicate Valid()
      reads this
    {
      forall k :: k in q ==> q[k].attempts >= 0
    }

    constructor ()
      ensures Valid() && q == map[]
    {
      q := map[];
    }

    method QueueReconnectItem(key: Key, now: int, gen: int, countsChurn: bool) returns (newly: bool)
      requires Valid()
      modifies this
      ensures Valid() && q == Queued(old(q), key, now, gen, countsChurn)
      ensures newly <==> q != old(q)
    {
      if key in q {
        var it := q[key];
        if countsChurn && !it.countsChurn {
          q := q[key := it.(countsChurn := true)];
          assert q[key] != old(q)[key];
          return true;
        }
        return false;
      }
      q := q[key := Item(now, now, gen, 0, countsChurn)];
      return true;
    }

    /** tenant None cancels at every council. */
    method CancelReconnect(owner: int, tenant: Option<int>)
      requires Valid()
      modifies this
      ensures Valid()
      ensures q == map k | k in old(q) && !(k.owner == owner && (tenant.None? || k.tenant == tenant.value)) :: old(q)[k]
    {
      ghost var full := q;
      var todo := q.Keys;
      while todo != {}
        invariant Valid() && todo <= q.Keys <= full.Keys
        invariant forall k :: k in q ==> q[k] == full[k]
        invariant forall k :: k in full ==>
          (k in q <==> k in todo || !(k.owner == owner && (tenant.None? || k.tenant == tenant.value)))
      {
        var k :| k in todo;
        todo := todo - {k};
        if k.owner == owner && (tenant.None? || k.tenant == tenant.value) {
          q := q - {k};
        }
      }
    }

    /** The item due first, with how long until it is due; none only if the queue is empty. */
    method NextDueReconnect(now: int) returns (due: Option<(Key, Item, int)>)
      ensures due.None? <==> q == map[]
      ensures due.Some? ==>
        var (key, item, wait) := due.value;
        && key in q && q[key] == item
        && wait == (if item.next > now then item.next - now else 0)
        && (forall k :: k in q && k != key ==> Before(key, item, k, q[k]))
        && (forall k :: k in q ==> item.next <= q[k].next)
    {
      var best: Option<(Key, Item)> := None;
      var todo := q.Keys;
      while todo != {}
        invariant todo <= q.Keys
        invariant best.None? ==> todo == q.Keys
        invariant best.Some? ==> best.value.0 in q && q[best.value.0] == best.value.1 && best.value.0 !in todo
        invariant best.Some? ==> forall k :: k in q && k !in todo && k != best.value.0 ==>
                                   Before(best.value.0, best.value.1, k, q[k])
      {
        var k :| k in todo;
        todo := todo - {k};
        if best.None? || Before(k, q[k], best.value.0, best.value.1) {
          best := Some((k, q[k]));
        }
      }
      if best.None? {
        return None;
      }
      var (key, item) := best.value;
      return Some((key, item, if item.next > now then item.next - now else 0));
    }

    method DequeueReconnect(key: Key, attempted: Item)
      requires Valid()
      modifies this
      ensures Valid() && q == Dequeued(old(q), key, attempted)
    {
      if key in q && SameQueued(q[key], attempted) {
        q := q - {key};
      }
    }

    method BackoffReconnect(key: Key, attempted: Item, now: int) returns (stalledAlert: bool)
      requires Valid()
      modifies this
      ensures Valid()
      ensures StillQueued(old(q), key, attempted) ==>
                q == old(q)[key := BackedOff(old(q)[key], now)]
                && (stalledAlert <==> q[key].attempts == STALLED_ALERT_ATTEMPTS)
      ensures !StillQueued(old(q), key, attempted) ==> q == old(q) && !stalledAlert
    {
      if key !in q || !SameQueued(q[key], attempted) {
        return false;
      }
      var it := q[key];
      var attempts := it.attempts + 1;
      var backoff := BACKOFF_MIN * Pow2(if attempts - 1 < 6 then attempts - 1 else 6);
      if backoff > BACKOFF_MAX {
        backoff := BACKOFF_MAX;
      }
      q := q[key := it.(attempts := attempts, next := now + backoff)];
      return attempts == STALLED_ALERT_ATTEMPTS;
    }
  }

  // ---- runs ----

  /** An attempt's end names the step at which the worker copied the item out. */
  datatype Event =
    | Enqueue(key: Key, now: int, gen: int, countsChurn: bool)
    | Cancel(key: Key)
    | Start(key: Key)
    | Done(start: nat)
    | Defer(start: nat, now: int)

  ghost predicate StartsAt(es: seq<Event>, qs: seq<Queue>, a: nat)
    requires |qs| == |es| + 1
  {
    a < |es| && es[a].Start? && es[a].key in qs[a]
  }

  ghost predicate Step(es: seq<Event>, qs: seq<Queue>, i: nat)
    requires i < |es| && |qs| == |es| + 1
  {
    match es[i]
    case Enqueue(key, now, gen, countsChurn) => qs[i + 1] == Queued(qs[i], key, now, gen, countsChurn)
    case Cancel(key) => qs[i + 1] == qs[i] - {key}
    case Start(_) => qs[i + 1] == qs[i]
    case Done(a) => a < i && StartsAt(es, qs, a) && qs[i + 1] == Dequeued(qs[i], es[a].key, qs[a][es[a].key])
    case Defer(a, now) =>
      && a < i && StartsAt(es, qs, a)
      && var key := es[a].key;
         if StillQueued(qs[i], key, qs[a][key])
         then qs[i][key].attempts >= 0 && qs[i + 1] == qs[i][key := BackedOff(qs[i][key], now)]
         else qs[i + 1] == qs[i]
  }

  ghost predicate Run(es: seq<Event>, qs: seq<Queue>) {
    && |qs| == |es| + 1 && qs[0] == map[]
    && forall i: nat :: i < |es| ==> Step(es, qs, i)
  }

  /** Step v puts a new item under key. */
  ghost predicate Adds(es: seq<Event>, qs: seq<Queue>, v: nat, key: Key)
    requires v < |es| < |qs|
  {
    es[v].Enqueue? && es[v].key == key && key !in qs[v]
  }

  /** key is queued at every step from i to n: one residency. */
  ghost predicate Resident(qs: seq<Queue>, key: Key, i: nat, n: nat) {
    forall m :: i <= m <= n && m < |qs| ==> key in qs[m]
  }

  /** While it stays queued an item keeps the generation and the instant it was added with. */
  lemma {:induction false} AddedWhen(es: seq<Event>, qs: seq<Queue>, key: Key, n: nat) returns (v: nat)
    requires Run(es, qs) && n <= |es| && key in qs[n]
    ensures v < n && Adds(es, qs, v, key) && Resident(qs, key, v + 1, n)
    ensures qs[n][key].gen == es[v].gen && qs[n][key].queuedAt == es[v].now
    decreases n
  {
    assert Step(es, qs, n - 1);
    if key in qs[n - 1] {
      v := AddedWhen(es, qs, key, n - 1);
    } else {
      v := n - 1;
    }
  }

  /** Since step a the key left the queue and came back as an item of the same generation,
      queued at the very same instant. */
  ghost predicate ComesBackAlike(es: seq<Event>, qs: seq<Queue>, key: Key, item: Item, a: nat, i: nat)
    requires |qs| == |es| + 1 && i <= |es|
  {
    exists v: nat :: a < v < i && Adds(es, qs, v, key) && Resident(qs, key, v + 1, i)
                     && es[v].gen == item.gen && es[v].now == item.queuedAt
  }

  /** When an attempt ends, what is under its key passes for the attempted item exactly when
      the key never left the queue meanwhile, or came back at the same generation and
      instant. So an item queued after the attempt began, at another generation or at any
      other time, is neither dequeued nor backed off by it; an upgraded one still is. */
  lemma SameItemMeansNeverLeft(es: seq<Event>, qs: seq<Queue>, a: nat, i: nat)
    requires Run(es, qs) && a <= i <= |es| && StartsAt(es, qs, a)
    ensures var key, item := es[a].key, qs[a][es[a].key];
            StillQueued(qs[i], key, item) <==> Resident(qs, key, a, i) || ComesBackAlike(es, qs, key, item, a, i)
  {
    var key := es[a].key;
    var va := AddedWhen(es, qs, key, a);
    if key in qs[i] {
      var vi := AddedWhen(es, qs, key, i);
      assert key !in qs[va] && key !in qs[vi];
      if vi < a {
        assert Resident(qs, key, a, i);
        assert vi == va;
      } else {
        assert vi != a;
        assert !Resident(qs, key, a, i);
        forall v: nat | a < v < i && Adds(es, qs, v, key) && Resident(qs, key, v + 1, i) ensures v == vi {
          assert key !in qs[v];
        }
      }
    }
  }

  /** The finished attempt of an item that left the queue changes nothing. */
  lemma StaleFinishIsNoOp(es: seq<Event>, qs: seq<Queue>, i: nat)
    requires Run(es, qs) && i < |es| && (es[i].Done? || es[i].Defer?) && Step(es, qs, i)
    requires var a := es[i].start;
             !Resident(qs, es[a].key, a, i) && !ComesBackAlike(es, qs, es[a].key, qs[a][es[a].key], a, i)
    ensures qs[i + 1] == qs[i]
  {
    SameItemMeansNeverLeft(es, qs, es[i].start, i);
  }

  /** The one way to be fooled: an item cancelled while attempted and queued again, for the
      same generation and at the same instant, is dequeued by the attempt of the first. */
  lemma RequeuedAlikeIsDequeued(key: Key, now: int, gen: int) returns (es: seq<Event>, qs: seq<Queue>)
    ensures es == [Enqueue(key, now, gen, true), Start(key), Cancel(key), Enqueue(key, now, gen, true), Done(1)]
    ensures Run(es, qs) && key in qs[1] && key !in qs[3] && key in qs[4] && key !in qs[5]
    ensures ComesBackAlike(es, qs, key, qs[1][key], 1, 4)
  {
    var q: Queue := map[key := Item(now, now, gen, 0, true)];
    es := [Enqueue(key, now, gen, true), Start(key), Cancel(key), Enqueue(key, now, gen, true), Done(1)];
    qs := [map[], q, q, map[], q, map[]];
    assert Step(es, qs, 0) && Step(es, qs, 1) && Step(es, qs, 2) && Step(es, qs, 3) && Step(es, qs, 4);
    assert Adds(es, qs, 3, key) && Resident(qs, key, 4, 4);
  }

  // ---- backoff over one residency ----

  lemma BackoffGrows(a: int, b: int)
    requires 1 <= a <= b
    ensures BACKOFF_MIN <= Backoff(a) <= Backoff(b) <= BACKOFF_MAX
  {
    Pow2Grows(if a - 1 < 6 then a - 1 else 6, if b - 1 < 6 then b - 1 else 6);
  }

  /** The first delay is five minutes and each next one twice as long, up to an hour. */
  lemma BackoffDoubles(attempts: int)
    requires attempts >= 1
    ensures Backoff(1) == 5 * 60_000_000_000
    ensures Backoff(attempts + 1) == if 2 * Backoff(attempts) > 60 * MINUTE then 60 * MINUTE else 2 * Backoff(attempts)
  {
    var exp := if attempts - 1 < 6 then attempts - 1 else 6;
    assert Pow2(4) == 16;
    if attempts >= 5 {
      Pow2Grows(4, exp);
      Pow2Grows(4, if attempts < 6 then attempts else 6);
    }
  }

  /** Step i backs off the item under key. */
  ghost predicate BacksOff(es: seq<Event>, qs: seq<Queue>, i: nat, key: Key)
    requires |qs| == |es| + 1 && Run(es, qs)
  {
    && i < |es| && es[i].Defer? && Step(es, qs, i)
    && es[es[i].start].key == key && StillQueued(qs[i], key, qs[es[i].start][key])
  }

  /** What each step makes of an item: a new one is due at once and untried; a second report
      of a queued one changes nothing but whether it counts; an attempt's end either takes it
      out or, one attempt on, puts it off by that attempt's delay; nothing touches another. */
  lemma StepDoes(es: seq<Event>, qs: seq<Queue>, i: nat, key: Key)
    requires Run(es, qs) && i < |es|
    ensures Adds(es, qs, i, key) ==>
              key in qs[i + 1] && qs[i + 1][key] == Item(es[i].now, es[i].now, es[i].gen, 0, es[i].countsChurn)
    ensures es[i].Enqueue? && es[i].key == key && key in qs[i] ==>
              key in qs[i + 1]
              && qs[i + 1][key] == qs[i][key].(countsChurn := qs[i][key].countsChurn || es[i].countsChurn)
    ensures es[i].Cancel? && es[i].key == key ==> key !in qs[i + 1]
    ensures (es[i].Done? && Step(es, qs, i) && es[es[i].start].key == key
             && StillQueued(qs[i], key, qs[es[i].start][key])) ==> key !in qs[i + 1]
    ensures BacksOff(es, qs, i, key) ==>
              && key in qs[i + 1] && qs[i + 1][key].attempts == qs[i][key].attempts + 1 >= 1
              && qs[i + 1][key].next == es[i].now + Backoff(qs[i + 1][key].attempts)
              && qs[i + 1][key].queuedAt == qs[i][key].queuedAt && qs[i + 1][key].gen == qs[i][key].gen
  {
    assert Step(es, qs, i);
  }

  lemma StepLeavesOthers(es: seq<Event>, qs: seq<Queue>, i: nat, other: Key)
    requires Run(es, qs) && i < |es| && Step(es, qs, i)
    requires match es[i]
             case Enqueue(key, _, _, _) => key != other
             case Cancel(key) => key != other
             case Start(_) => true
             case Done(a) => es[a].key != other
             case Defer(a, _) => es[a].key != other
    ensures (other in qs[i + 1]) == (other in qs[i]) && (other in qs[i] ==> qs[i + 1][other] == qs[i][other])
  {
  }

  lemma {:induction false} AttemptsRise(es: seq<Event>, qs: seq<Queue>, key: Key, i: nat, n: nat)
    requires Run(es, qs) && i <= n <= |es| && Resident(qs, key, i, n)
    ensures qs[i][key].attempts <= qs[n][key].attempts
    decreases n
  {
    if i < n {
      AttemptsRise(es, qs, key, i, n - 1);
      assert Step(es, qs, n - 1);
    }
  }

  /** Within one residency the delays never shrink and never pass the cap, and the stalled
      alert, which goes out when the count reaches five, goes out at most once. */
  lemma BackoffsOfOneResidency(es: seq<Event>, qs: seq<Queue>, key: Key, i: nat, j: nat)
    requires Run(es, qs) && i < j < |es| && Resident(qs, key, i, j)
    requires BacksOff(es, qs, i, key) && BacksOff(es, qs, j, key)
    ensures var delayI, delayJ := qs[i + 1][key].next - es[i].now, qs[j + 1][key].next - es[j].now;
            BACKOFF_MIN <= delayI <= delayJ <= BACKOFF_MAX
    ensures qs[i + 1][key].attempts < qs[j + 1][key].attempts
    ensures !(qs[i + 1][key].attempts == STALLED_ALERT_ATTEMPTS && qs[j + 1][key].attempts == STALLED_ALERT_ATTEMPTS)
  {
    AttemptsRise(es, qs, key, i + 1, j);
    assert Step(es, qs, i) && Step(es, qs, j);
    BackoffGrows(qs[i][key].attempts + 1, qs[j][key].attempts + 1);
  }
}
