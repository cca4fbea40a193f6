/** The durable notification outbox (drainOutbox, record, park, flushUnrecorded, deliver
    and outboxBackoff in internal/notify/outbox.go, over the rows of
    internal/store/notify.go). Delivery comes before bookkeeping and the store may refuse
    any write; what was delivered but not recorded is parked in memory. The last four
    fields of `State` are history: how often each row was tried and delivered, and how much
    of that a crash made the app forget. */
module Outbox {
  import opened Durations

  type Id = nat

  const OUTBOX_MAX_ATTEMPTS: int := 8
  const MAX_UNRECORDED: int := 256
  const OUTBOX_BATCH: nat := 50

  datatype Status = Pending | Sent | Dead

  /** recipients is how many addresses the row names, topic whether it also names a push topic. */
  datatype Row = Row(status: Status, attempts: int, next: int, recipients: nat, topic: bool)

  datatype Update = MarkSent | MarkDead(attempts: int) | Retry(attempts: int, next: int)

  type Tally = map<Id, nat>

  datatype State = State(rows: map<Id, Row>, unrecorded: map<Id, Update>, nextId: Id,
                         tried: Tally, delivered: Tally, lostTried: Tally, lostDelivered: Tally)

  function Get(t: Tally, id: Id): nat {
    if id in t then t[id] else 0
  }

  function Plus(t: Tally, id: Id, more: bool): Tally {
    if more then t[id := Get(t, id) + 1] else t
  }

  // ---- deliver ----

  datatype MailResult = Accepted | Suppressed | Refused(permanent: bool)

  /** What a pass meets: which channels are on and what each answers about a row, whether
      the store takes a write about it (in the flush, in the loop), whether it can be read,
      and where the pass is cancelled. */
  datatype World = World(mailOn: bool, pushOn: bool, results: Id -> seq<MailResult>, pushOk: Id -> bool,
                         flushAccepts: Id -> bool, flushCancelled: bool, readable: bool,
                         accepts: Id -> bool, cancelledAt: nat -> bool)

  predicate MailReaches(mailOn: bool, results: seq<MailResult>) {
    mailOn && exists r :: r in results && !r.Suppressed?
  }

  /** With a reachable address some address must accept; without one the push decides; with
      nothing to address there is nothing to do. */
  predicate Delivers(w: World, id: Id, row: Row) {
    if MailReaches(w.mailOn, w.results(id)) then Accepted in w.results(id)
    else row.topic && w.pushOn && !(row.recipients > 0 && row.attempts > 0) ==> w.pushOk(id)
  }

  /** Every failure was a hard refusal. */
  predicate HardRefused(w: World, id: Id, row: Row) {
    && !Delivers(w, id, row) && MailReaches(w.mailOn, w.results(id))
    && (forall r :: r in w.results(id) && r.Refused? ==> r.permanent)
    && (row.topic && w.pushOn && !(row.recipients > 0 && row.attempts > 0) ==> w.pushOk(id))
  }

  /** The world has an answer for each address of each row. */
  predicate Fits(w: World, rows: map<Id, Row>) {
    forall id {:trigger w.results(id)} :: id in rows ==> |w.results(id)| == rows[id].recipients
  }

  /** Mail is the reliable channel: a push that went through never masks a row none of whose
      addresses accepted. A push-only row is as good as its push, and a row that also has
      addresses pushes on its first attempt alone. */
  lemma MailDecides(w: World, id: Id, row: Row)
    requires |w.results(id)| == row.recipients
    ensures w.mailOn && Accepted in w.results(id) ==> Delivers(w, id, row)
    ensures w.mailOn && Accepted !in w.results(id) && (exists r :: r in w.results(id) && r.Refused?) ==> !Delivers(w, id, row)
    ensures row.recipients == 0 && row.topic && w.pushOn ==> (Delivers(w, id, row) <==> w.pushOk(id))
    ensures row.recipients > 0 && row.attempts > 0 && !w.mailOn ==> Delivers(w, id, row)
    ensures !w.mailOn && !w.pushOn ==> Delivers(w, id, row)
  {
  }

  /** A row is given up at once exactly when its mail failed, every address it could reach
      refused for good, and no push failed beside it. */
  lemma OnlyHardRefusalsGiveUp(w: World, id: Id, row: Row)
    requires |w.results(id)| == row.recipients
    ensures HardRefused(w, id, row) ==>
              w.mailOn && Refused(true) in w.results(id)
              && forall r :: r in w.results(id) ==> r == Suppressed || r == Refused(true)
    ensures (w.mailOn && Refused(true) in w.results(id) && !row.topic
             && forall r :: r in w.results(id) ==> r == Suppressed || r == Refused(true)) ==> HardRefused(w, id, row)
    ensures row.topic && w.pushOn && row.attempts == 0 && !w.pushOk(id) ==> !HardRefused(w, id, row)
  {
  }

  /** deliver: what each channel answered is read off the world. */
  method Deliver(w: World, id: Id, row: Row) returns (ok: bool, permanent: bool)
    requires |w.results(id)| == row.recipients
    ensures ok <==> Delivers(w, id, row)
    ensures permanent <==> HardRefused(w, id, row)
  {
    var results := w.results(id);
    var errs, allPermanent, emailTargets, emailOk := 0, true, 0, false;
    if w.mailOn {
      for i := 0 to |results|
        invariant emailTargets > 0 <==> exists k :: 0 <= k < i && !results[k].Suppressed?
        invariant emailTargets >= 0 && errs >= 0
        invariant emailOk <==> exists k :: 0 <= k < i && results[k].Accepted?
        invariant errs > 0 <==> exists k :: 0 <= k < i && results[k].Refused?
        invariant allPermanent <==> forall k :: 0 <= k < i && results[k].Refused? ==> results[k].permanent
      {
        if results[i].Suppressed? {
          continue;
        }
        emailTargets := emailTargets + 1;
        if results[i].Refused? {
          errs := errs + 1;
          if !results[i].permanent {
            allPermanent := false;
          }
        } else {
          emailOk := true;
        }
      }
    }
    var mixed := row.recipients > 0 && row.topic;
    var pushTargets, pushed := 0, false;
    if row.topic && w.pushOn && !(mixed && row.attempts > 0) {
      pushTargets := 1;
      if !w.pushOk(id) {
        errs := errs + 1;
        allPermanent := false;
      } else {
        pushed := true;
      }
    }
    if emailTargets > 0 {
      if emailOk {
        return true, false;
      }
    } else if pushTargets > 0 {
      if pushed {
        return true, false;
      }
    } else {
      return true, false;
    }
    return false, allPermanent && errs > 0;
  }

  // ---- backoff ----

  function Pow3(n: nat): int {
    if n == 0 then 1 else 3 * Pow3(n - 1)
  }

  /** One minute, tripling, capped at three hours. */
  function Backoff(attempts: int): int {
    if attempts <= 1 then MINUTE
    else if MINUTE * Pow3(attempts - 1) > 180 * MINUTE then 180 * MINUTE
    else MINUTE * Pow3(attempts - 1)
  }

  lemma {:induction false} Pow3Grows(a: nat, b: nat)
    requires a <= b
    ensures 1 <= Pow3(a) <= Pow3(b)
    decreases b
  {
    if a < b {
      Pow3Grows(a, b - 1);
    } else if a > 0 {
      Pow3Grows(a - 1, b - 1);
    }
  }

  method OutboxBackoff(attempts: int) returns (d: int)
    ensures d == Backoff(attempts)
  {
    d := MINUTE;
    var i := 1;
    while i < attempts
      invariant 1 <= i && (i <= attempts || i == 1)
      invariant d == MINUTE * Pow3(i - 1) && d <= 180 * MINUTE
    {
      d := d * 3;
      i := i + 1;
      assert d == MINUTE * Pow3(i - 1);
      if d > 180 * MINUTE {
        Pow3Grows(i - 1, attempts - 1);
        return 180 * MINUTE;
      }
    }
  }

  /** Retries never come closer together, and never more than three hours apart. */
  lemma BackoffGrows(a: int, b: int)
    requires a <= b
    ensures MINUTE <= Backoff(a) <= Backoff(b) <= 180 * MINUTE
  {
    if a > 1 {
      Pow3Grows(a - 1, b - 1);
    } else if b > 1 {
      Pow3Grows(0, b - 1);
    }
  }

  /** The first retry waits a minute and each next one three times as long, up to the cap. */
  lemma BackoffTriples(attempts: int)
    ensures attempts <= 1 ==> Backoff(attempts) == 60_000_000_000
    ensures attempts >= 1 ==>
              Backoff(attempts + 1) == if 3 * Backoff(attempts) > 180 * MINUTE then 180 * MINUTE else 3 * Backoff(attempts)
  {
    if attempts >= 1 {
      Pow3Grows(attempts - 1, attempts);
    }
  }

  // ---- steps ----

  /** A delivery attempt at row id, whose outcome is now owed to the store. */
  function AfterTry(s: State, id: Id, ok: bool, u: Update): State {
    s.(unrecorded := s.unrecorded[id := u], tried := Plus(s.tried, id, true),
       delivered := Plus(s.delivered, id, ok))
  }

  function Settled(row: Row, u: Update): Row {
    match u
    case MarkSent => row.(status := Sent)
    case MarkDead(_) => row.(status := Dead, attempts := row.attempts + 1)
    case Retry(attempts, next) => row.(attempts := attempts, next := next)
  }

  /** What an attempt at a row comes to owe it: sent exactly when it was delivered, dead
      exactly when it was not and every failure was hard or it was the eighth attempt, else
      another try at the backoff. */
  predicate Owes(w: World, id: Id, row: Row, u: Update, now: int) {
    && (u.MarkSent? <==> Delivers(w, id, row))
    && (u.MarkDead? <==> !Delivers(w, id, row) && (HardRefused(w, id, row) || row.attempts + 1 >= 8))
    && (!u.MarkSent? ==> u.attempts == row.attempts + 1)
    && (u.Retry? ==> u.next == now + Backoff(row.attempts + 1))
  }

  /** The rows once everything owed has been recorded. */
  function Flushed(s: State): map<Id, Row> {
    map id | id in s.rows :: if id in s.unrecorded then Settled(s.rows[id], s.unrecorded[id]) else s.rows[id]
  }

  /** The store accepts what is owed for id. */
  function AfterRecord(s: State, id: Id): State
    requires id in s.unrecorded && id in s.rows
  {
    s.(rows := s.rows[id := Settled(s.rows[id], s.unrecorded[id])], unrecorded := s.unrecorded - {id})
  }

  /** The process dies: what was parked is forgotten. */
  function AfterCrash(s: State, id: Id): State
    requires id in s.unrecorded
  {
    s.(unrecorded := s.unrecorded - {id}, lostTried := Plus(s.lostTried, id, true),
       lostDelivered := Plus(s.lostDelivered, id, s.unrecorded[id].MarkSent?))
  }

  function AfterEnqueue(s: State, next: int, recipients: nat, topic: bool): State {
    s.(rows := s.rows[s.nextId := Row(Pending, 0, next, recipients, topic)], nextId := s.nextId + 1)
  }

  /** The decision drainOutbox takes on a delivery's outcome. */
  function UpdateFor(attempts: int, ok: bool, permanent: bool, now: int): Update {
    if ok then MarkSent
    else if permanent || attempts + 1 >= OUTBOX_MAX_ATTEMPTS then MarkDead(attempts + 1)
    else Retry(attempts + 1, now + Backoff(attempts + 1))
  }

  // ---- the invariant ----

  predicate OpenRow(s: State, id: Id) {
    id in s.rows && s.rows[id].status.Pending?
  }

  ghost predicate CountsAt(s: State, id: Id) {
    if OpenRow(s, id) then
      && 0 <= s.rows[id].attempts < OUTBOX_MAX_ATTEMPTS
      && Get(s.tried, id) == s.rows[id].attempts + Get(s.lostTried, id) + (if id in s.unrecorded then 1 else 0)
      && Get(s.delivered, id) == Get(s.lostDelivered, id)
                                 + (if id in s.unrecorded && s.unrecorded[id].MarkSent? then 1 else 0)
      && (id in s.unrecorded && s.unrecorded[id].Retry? ==>
            s.unrecorded[id].attempts == s.rows[id].attempts + 1 < OUTBOX_MAX_ATTEMPTS)
    else
      && id !in s.unrecorded
      && Get(s.tried, id) <= OUTBOX_MAX_ATTEMPTS + Get(s.lostTried, id)
      && Get(s.delivered, id) <= 1 + Get(s.lostDelivered, id)
      && (id >= s.nextId ==> id !in s.rows && Get(s.tried, id) == Get(s.lostTried, id) == 0
                             && Get(s.delivered, id) == Get(s.lostDelivered, id) == 0)
  }

  ghost predicate Inv(s: State) {
    && (forall id: Id :: CountsAt(s, id))
    && (forall id :: id in s.rows ==> id < s.nextId)
    && |s.unrecorded| <= 1
  }

  /** What the invariant is for. However the store behaves, a row is delivered at most
      once and tried at most eight times, plus one for each outcome a crash made the app
      forget; at most one outcome is ever parked. */
  lemma DeliveredAtMostOnce(s: State, id: Id)
    requires Inv(s)
    ensures Get(s.delivered, id) <= 1 + Get(s.lostDelivered, id)
    ensures Get(s.tried, id) <= OUTBOX_MAX_ATTEMPTS + Get(s.lostTried, id)
    ensures forall other :: other in s.unrecorded && id in s.unrecorded ==> other == id
  {
    assert CountsAt(s, id);
    if id in s.unrecorded {
      assert |s.unrecorded.Keys - {id}| == |s.unrecorded| - 1;
    }
  }

  lemma TryKeepsInv(s: State, id: Id, ok: bool, permanent: bool, now: int)
    requires Inv(s) && s.unrecorded == map[] && OpenRow(s, id)
    ensures Inv(AfterTry(s, id, ok, UpdateFor(s.rows[id].attempts, ok, permanent, now)))
  {
    assert CountsAt(s, id);
    var s' := AfterTry(s, id, ok, UpdateFor(s.rows[id].attempts, ok, permanent, now));
    forall other: Id ensures CountsAt(s', other) {
      assert CountsAt(s, other);
    }
    assert s'.unrecorded.Keys == {id};
  }

  lemma RecordKeepsInv(s: State, id: Id)
    requires Inv(s) && id in s.unrecorded && id in s.rows
    ensures Inv(AfterRecord(s, id)) && AfterRecord(s, id).unrecorded == map[]
  {
    assert CountsAt(s, id);
    var s' := AfterRecord(s, id);
    forall other: Id ensures CountsAt(s', other) {
      assert CountsAt(s, other);
    }
    assert |s.unrecorded.Keys - {id}| == |s.unrecorded| - 1;
    assert s'.unrecorded.Keys == {};
  }

  lemma CrashKeepsInv(s: State, id: Id)
    requires Inv(s) && id in s.unrecorded
    ensures Inv(AfterCrash(s, id)) && AfterCrash(s, id).unrecorded == map[]
  {
    assert CountsAt(s, id);
    var s' := AfterCrash(s, id);
    forall other: Id ensures CountsAt(s', other) {
      assert CountsAt(s, other);
    }
    assert |s.unrecorded.Keys - {id}| == |s.unrecorded| - 1;
    assert s'.unrecorded.Keys == {};
  }

  /** The new row is pending, untried and due from next on, names what it was given, and no
      other row is touched. */
  lemma EnqueueAddsARow(s: State, next: int, recipients: nat, topic: bool)
    requires forall id :: id in s.rows ==> id < s.nextId
    ensures s.nextId !in s.rows
    ensures var s' := AfterEnqueue(s, next, recipients, topic);
            && s'.rows == s.rows[s.nextId := s'.rows[s.nextId]] && s'.nextId == s.nextId + 1
            && s'.unrecorded == s.unrecorded
            && var row := s'.rows[s.nextId];
               && row.status == Pending && row.attempts == 0 && row.next == next
               && row.recipients == recipients && row.topic == topic
  {
  }

  lemma EnqueueKeepsInv(s: State, next: int, recipients: nat, topic: bool)
    requires Inv(s)
    ensures Inv(AfterEnqueue(s, next, recipients, topic))
  {
    var s' := AfterEnqueue(s, next, recipients, topic);
    forall other: Id ensures CountsAt(s', other) {
      assert CountsAt(s, other);
    }
  }

  /** Purging settled rows loses nothing the bound needs. */
  lemma PurgeKeepsInv(s: State, gone: set<Id>)
    requires Inv(s) && forall id :: id in gone ==> !OpenRow(s, id)
    ensures Inv(s.(rows := s.rows - gone))
  {
    forall other: Id ensures CountsAt(s.(rows := s.rows - gone), other) {
      assert CountsAt(s, other);
    }
  }

  /** The crash term is really there: a row delivered, refused by the store and forgotten
      is delivered again. */
  lemma CrashCanDuplicate(s: State, id: Id)
    requires Inv(s) && s.unrecorded == map[] && OpenRow(s, id) && Get(s.lostDelivered, id) == 0
    ensures var again := AfterTry(AfterCrash(AfterTry(s, id, true, MarkSent), id), id, true, MarkSent);
            Inv(again) && Get(again.delivered, id) == 2 && Get(again.lostDelivered, id) == 1
  {
    assert CountsAt(s, id);
    TryKeepsInv(s, id, true, false, 0);
    var crashed := AfterCrash(AfterTry(s, id, true, MarkSent), id);
    CrashKeepsInv(AfterTry(s, id, true, MarkSent), id);
    TryKeepsInv(crashed, id, true, false, 0);
  }

  lemma OwedIsOpen(s: State, id: Id)
    requires Inv(s) && id in s.unrecorded
    ensures OpenRow(s, id)
  {
    assert CountsAt(s, id);
  }

  ghost function FlushedState(s: State): State {
    s.(rows := Flushed(s), unrecorded := map[])
  }

  lemma FlushedIsRecord(s: State, id: Id)
    requires Inv(s) && id in s.unrecorded && id in s.rows
    ensures Flushed(s) == AfterRecord(s, id).rows
  {
    forall other | other in s.unrecorded ensures other == id {
      DeliveredAtMostOnce(s, id);
    }
  }

  lemma OnlyOwed(s: State, id: Id)
    requires Inv(s) && id in s.unrecorded
    ensures id in s.rows && s.unrecorded == map[id := s.unrecorded[id]]
    ensures s.(unrecorded := s.unrecorded[id := s.unrecorded[id]]) == s
    ensures AfterRecord(s, id) == FlushedState(s)
  {
    OwedIsOpen(s, id);
    forall other | other in s.unrecorded ensures other == id {
      DeliveredAtMostOnce(s, id);
    }
    FlushedIsRecord(s, id);
    RecordKeepsInv(s, id);
  }

  lemma FlushedFits(w: World, s: State)
    requires Fits(w, s.rows)
    ensures Fits(w, FlushedState(s).rows)
  {
  }

  // ---- the worker ----

  /** How a pass ended: with old bookkeeping still owed, before its end, at a refused
      write, or with every due row tried. */
  datatype PassEnd = StillOwing | Interrupted | StoreRefused | Complete

  predicate Due(row: Row, now: int) {
    row.status.Pending? && row.next <= now
  }

  lemma DueMeans(row: Row, now: int)
    ensures Due(row, now) <==> row.status == Pending && row.next <= now
  {
  }

  /** A due row is left out only of a full batch, and only if its id comes after. */
  predicate AllDue(rows: map<Id, Row>, due: seq<Id>, now: int) {
    && |due| <= 50
    && forall id :: id in rows && Due(rows[id], now) && id !in due ==> |due| == 50 && due[49] < id
  }

  /** A batch: due rows, by id. */
  ghost predicate Batch(start: map<Id, Row>, due: seq<Id>, now: int) {
    && (forall i, j :: 0 <= i < j < |due| ==> due[i] < due[j])
    && (forall i :: 0 <= i < |due| ==> due[i] in start && Due(start[due[i]], now))
  }

  /** A pass over a batch of due rows, from the state in which it finds the outbox. */
  datatype Pass = Pass(w: World, start: State, due: seq<Id>, now: int)

  /** How an attempt leaves its row once recorded: sent exactly if it was delivered. */
  predicate SettledBy(p: Pass, id: Id, was: Row, row: Row) {
    if Delivers(p.w, id, was) then row == was.(status := Sent)
    else if HardRefused(p.w, id, was) || was.attempts + 1 >= 8
    then row == was.(status := Dead, attempts := was.attempts + 1)
    else row == was.(attempts := was.attempts + 1, next := p.now + Backoff(was.attempts + 1))
  }

  /** What the pass has made of one row: settled, if it is among due[..n] and nothing is owed
      for it, else as it was. */
  predicate SettledRow(p: Pass, n: nat, rows: map<Id, Row>, owed: map<Id, Update>, id: Id)
    requires n <= |p.due|
  {
    var start := p.start.rows;
    && id in start && id in rows
    && if id in p.due[..n] && id !in owed then SettledBy(p, id, start[id], rows[id]) else rows[id] == start[id]
  }

  /** The pass settled the rows due[..n] and touched no other; what is still owed is what the
      attempt at one of them came to owe it. */
  ghost predicate SettledPass(p: Pass, n: nat, rows: map<Id, Row>, owed: map<Id, Update>) {
    var start := p.start.rows;
    && n <= |p.due| && rows.Keys == start.Keys && Batch(start, p.due, p.now) && Fits(p.w, start)
    && (forall id {:trigger id in owed} :: id in owed ==> id in p.due[..n] && id in start && Owes(p.w, id, start[id], owed[id], p.now))
    && (forall id {:trigger SettledRow(p, n, rows, owed, id)} :: id in start ==> SettledRow(p, n, rows, owed, id))
  }

  predicate TriedAs(p: Pass, n: nat, tried: Tally, id: Id)
    requires n <= |p.due|
  {
    Get(tried, id) == Get(p.start.tried, id) + if id in p.due[..n] then 1 else 0
  }

  /** Each of due[..n] was tried once more, and nothing else was. */
  ghost predicate TriedOnce(p: Pass, n: nat, tried: Tally)
    requires n <= |p.due|
  {
    forall id: Id {:trigger TriedAs(p, n, tried, id)} :: TriedAs(p, n, tried, id)
  }

  predicate DeliveredAs(p: Pass, n: nat, delivered: Tally, id: Id)
    requires n <= |p.due|
  {
    Get(delivered, id) == Get(p.start.delivered, id)
      + if id in p.due[..n] && id in p.start.rows && Delivers(p.w, id, p.start.rows[id]) then 1 else 0
  }

  /** Of those, exactly the ones whose channels took them were delivered once more. */
  ghost predicate DeliveredOnce(p: Pass, n: nat, delivered: Tally)
    requires n <= |p.due|
  {
    forall id: Id {:trigger DeliveredAs(p, n, delivered, id)} :: DeliveredAs(p, n, delivered, id)
  }

  ghost predicate Progress(p: Pass, n: nat, s: State)
    requires n <= |p.due|
  {
    TriedOnce(p, n, s.tried) && DeliveredOnce(p, n, s.delivered) && SettledPass(p, n, s.rows, s.unrecorded)
  }

  /** s is what the first n rows of the batch have made of it. */
  ghost predicate Reached(p: Pass, n: nat, s: State) {
    n <= |p.due| && Progress(p, n, s)
  }

  predicate Smooth(w: World, due: seq<Id>, i: nat)
    requires i < |due|
  {
    !w.cancelledAt(i) && w.accepts(due[i])
  }

  /** The first n rows of the batch met neither a cancellation nor a refused write. */
  predicate Uneventful(w: World, due: seq<Id>, n: nat)
    requires n <= |due|
  {
    forall i: nat {:trigger Smooth(w, due, i)} :: i < n ==> Smooth(w, due, i)
  }

  lemma OneMoreSmooth(w: World, due: seq<Id>, n: nat)
    requires n < |due| && Uneventful(w, due, n) && Smooth(w, due, n)
    ensures Uneventful(w, due, n + 1)
  {
  }

  /** Where the loop stops, and what it leaves owing: where it is first cancelled, after the
      first write refused, or at the end of the batch. */
  predicate Ended(p: Pass, end: PassEnd, n: nat, owed: map<Id, Update>) {
    && n <= |p.due|
    && match end
       case StillOwing => false
       case Interrupted => n < |p.due| && Uneventful(p.w, p.due, n) && p.w.cancelledAt(n) && owed == map[]
       case StoreRefused =>
         && n > 0 && Uneventful(p.w, p.due, n - 1) && !p.w.cancelledAt(n - 1)
         && !p.w.accepts(p.due[n - 1]) && owed.Keys == {p.due[n - 1]}
       case Complete => n == |p.due| && Uneventful(p.w, p.due, n) && owed == map[]
  }

  lemma NothingReachedYet(w: World, s: State, due: seq<Id>, now: int)
    requires Inv(s) && s.unrecorded == map[] && Batch(s.rows, due, now) && Fits(w, s.rows)
    ensures Reached(Pass(w, s, due, now), 0, s)
  {
  }

  lemma NextIsOpen(p: Pass, i: nat, rows: map<Id, Row>)
    requires SettledPass(p, i, rows, map[]) && i < |p.due|
    ensures p.due[i] in rows && p.due[i] in p.start.rows && rows[p.due[i]] == p.start.rows[p.due[i]]
    ensures Due(rows[p.due[i]], p.now) && p.due[i] !in p.due[..i]
    ensures |p.w.results(p.due[i])| == rows[p.due[i]].recipients
  {
    assert SettledRow(p, i, rows, map[], p.due[i]);
  }

  lemma OneMoreTried(p: Pass, i: nat, before: Tally, after: Tally)
    requires i < |p.due| && p.due[i] !in p.due[..i]
    requires TriedOnce(p, i, before) && after == Plus(before, p.due[i], true)
    ensures TriedOnce(p, i + 1, after)
  {
    assert p.due[..i + 1] == p.due[..i] + [p.due[i]];
    var next := i + 1;
    forall id: Id ensures TriedAs(p, next, after, id) {
      assert TriedAs(p, i, before, id);
    }
  }

  lemma OneMoreDelivered(p: Pass, i: nat, before: Tally, after: Tally)
    requires i < |p.due| && p.due[i] !in p.due[..i] && p.due[i] in p.start.rows
    requires DeliveredOnce(p, i, before)
    requires after == Plus(before, p.due[i], Delivers(p.w, p.due[i], p.start.rows[p.due[i]]))
    ensures DeliveredOnce(p, i + 1, after)
  {
    assert p.due[..i + 1] == p.due[..i] + [p.due[i]];
    var next := i + 1;
    forall id: Id ensures DeliveredAs(p, next, after, id) {
      assert DeliveredAs(p, i, before, id);
    }
  }

  lemma OwedSettles(p: Pass, id: Id, row: Row, u: Update)
    requires Owes(p.w, id, row, u, p.now)
    ensures SettledBy(p, id, row, Settled(row, u))
  {
  }

  lemma OneMoreSettled(p: Pass, i: nat, before: map<Id, Row>, after: map<Id, Row>, owed: map<Id, Update>, u: Update)
    requires SettledPass(p, i, before, map[]) && i < |p.due|
    requires p.due[i] in before && Owes(p.w, p.due[i], before[p.due[i]], u, p.now)
    requires (owed == map[] && after == before[p.due[i] := Settled(before[p.due[i]], u)])
             || (owed == map[p.due[i] := u] && after == before)
    ensures SettledPass(p, i + 1, after, owed)
  {
    var id := p.due[i];
    assert p.due[..i + 1] == p.due[..i] + [id];
    NextIsOpen(p, i, before);
    OwedSettles(p, id, before[id], u);
    forall k | k in p.start.rows ensures SettledRow(p, i + 1, after, owed, k) {
      assert SettledRow(p, i, before, map[], k);
      assert k in p.due[..i + 1] <==> k in p.due[..i] || k == id;
    }
  }

  lemma OneMoreReached(p: Pass, i: nat, before: State, s: State, u: Update)
    requires Reached(p, i, before) && before.unrecorded == map[] && i < |p.due| && p.due[i] in before.rows
    requires Inv(s) && Owes(p.w, p.due[i], before.rows[p.due[i]], u, p.now)
    requires s.tried == Plus(before.tried, p.due[i], true)
    requires s.delivered == Plus(before.delivered, p.due[i], Delivers(p.w, p.due[i], before.rows[p.due[i]]))
    requires (s.unrecorded == map[] && s.rows == before.rows[p.due[i] := Settled(before.rows[p.due[i]], u)])
             || (s.unrecorded == map[p.due[i] := u] && s.rows == before.rows)
    ensures Reached(p, i + 1, s)
  {
    NextIsOpen(p, i, before.rows);
    OneMoreSettled(p, i, before.rows, s.rows, s.unrecorded, u);
    OneMoreTried(p, i, before.tried, s.tried);
    OneMoreDelivered(p, i, before.delivered, s.delivered);
  }

  class Service {
    var rows: map<Id, Row>
    var unrecorded: map<Id, Update>
    var nextId: Id
    ghost var tried: Tally
    ghost var delivered: Tally
    ghost var lostTried: Tally
    ghost var lostDelivered: Tally

    ghost function View(): State
      reads this
    {
      State(rows, unrecorded, nextId, tried, delivered, lostTried, lostDelivered)
    }

    constructor ()
      ensures Inv(View()) && rows == map[]
    {
      rows, unrecorded, nextId := map[], map[], 0;
      tried, delivered, lostTried, lostDelivered := map[], map[], map[], map[];
    }

    /** MarkOutboxSent, MarkOutboxDead or RescheduleOutbox, which the store may refuse. */
    method Write(id: Id, u: Update, accepted: bool)
      requires id in rows
      modifies this`rows
      ensures rows == if accepted then old(rows)[id := Settled(old(rows)[id], u)] else old(rows)
    {
      if accepted {
        rows := rows[id := match u
                           case MarkSent => rows[id].(status := Sent)
                           case MarkDead(_) => rows[id].(status := Dead, attempts := rows[id].attempts + 1)
                           case Retry(attempts, next) => rows[id].(attempts := attempts, next := next)];
      }
    }

    /** Applies the owed outcome u of row id, or parks it if the store refuses. */
    method Record(id: Id, u: Update, accepted: bool) returns (ok: bool)
      requires Inv(View().(unrecorded := unrecorded[id := u]))
      modifies this`rows, this`unrecorded
      ensures Inv(View()) && ok == accepted
      ensures id in old(rows)
      ensures var owing := old(View()).(unrecorded := old(unrecorded)[id := u]);
              View() == if accepted then AfterRecord(owing, id) else owing
      ensures accepted ==> unrecorded == map[]
    {
      ghost var owing := View().(unrecorded := unrecorded[id := u]);
      OwedIsOpen(owing, id);
      Write(id, u, accepted);
      if !accepted {
        assert |unrecorded.Keys| <= |owing.unrecorded.Keys|;
        if |unrecorded| < MAX_UNRECORDED {
          unrecorded := unrecorded[id := u];
        }
        assert View() == owing;
        return false;
      }
      RecordKeepsInv(owing, id);
      unrecorded := unrecorded - {id};
      assert View() == AfterRecord(owing, id);
      return true;
    }

    /** Everything owed is recorded exactly when nothing was owed, or the pass was not
        cancelled and the store took it. */
    method FlushUnrecorded(w: World) returns (ok: bool)
      requires Inv(View())
      modifies this`rows, this`unrecorded
      ensures Inv(View())
      ensures ok <==> old(unrecorded) == map[]
                      || (!w.flushCancelled && forall id :: id in old(unrecorded) ==> w.flushAccepts(id))
      ensures ok ==> View() == FlushedState(old(View()))
      ensures !ok ==> View() == old(View())
    {
      assert unrecorded == map[] ==> Flushed(View()) == rows;
      while unrecorded != map[]
        invariant Inv(View())
        invariant (View() == old(View()) && (unrecorded == map[] ==> View() == FlushedState(old(View()))))
                  || (unrecorded == map[] && View() == FlushedState(old(View()))
                      && !w.flushCancelled && forall id :: id in old(unrecorded) ==> w.flushAccepts(id))
        decreases |unrecorded|
      {
        var id :| id in unrecorded;
        OnlyOwed(View(), id);
        if w.flushCancelled {
          return false;
        }
        var recorded := Record(id, unrecorded[id], w.flushAccepts(id));
        if !recorded {
          return false;
        }
      }
      return true;
    }

    /** The pending rows that are due, by id, at most a batch. */
    method DueOutbox(now: int) returns (due: seq<Id>)
      requires Inv(View())
      ensures Batch(rows, due, now) && AllDue(rows, due, now)
    {
      due := [];
      for id := 0 to nextId
        invariant |due| <= OUTBOX_BATCH
        invariant forall i, j :: 0 <= i < j < |due| ==> due[i] < due[j]
        invariant forall i :: 0 <= i < |due| ==> due[i] < id && due[i] in rows && Due(rows[due[i]], now)
        invariant forall k :: 0 <= k < id && k in rows && Due(rows[k], now) && k !in due ==>
                    |due| == OUTBOX_BATCH && due[OUTBOX_BATCH - 1] < k
      {
        if |due| < OUTBOX_BATCH && id in rows && rows[id].status == Pending && rows[id].next <= now {
          due := due + [id];
        }
      }
    }

    /** One delivery, and what it comes to owe. It may happen only while nothing is owed to
        the store. */
    method Try(w: World, id: Id, now: int) returns (u: Update)
      requires Inv(View()) && unrecorded == map[] && OpenRow(View(), id) && |w.results(id)| == rows[id].recipients
      modifies this`tried, this`delivered
      ensures Inv(View().(unrecorded := unrecorded[id := u]))
      ensures tried == Plus(old(tried), id, true)
      ensures delivered == Plus(old(delivered), id, Delivers(w, id, rows[id]))
      ensures Owes(w, id, rows[id], u, now)
    {
      var row := rows[id];
      var ok, permanent := Deliver(w, id, row);
      var attempts := row.attempts + 1;
      if ok {
        u := MarkSent;
      } else if permanent || attempts >= OUTBOX_MAX_ATTEMPTS {
        u := MarkDead(attempts);
      } else {
        var backoff := OutboxBackoff(attempts);
        u := Retry(attempts, now + backoff);
      }
      TryKeepsInv(View(), id, ok, permanent, now);
      tried := Plus(tried, id, true);
      delivered := Plus(delivered, id, ok);
    }

    /** The drain's treatment of one row: deliver, then record or park. */
    method Attempt(ghost p: Pass, ghost i: nat, w: World, id: Id, now: int) returns (recorded: bool)
      requires Inv(View()) && Reached(p, i, View()) && unrecorded == map[]
      requires i < |p.due| && p.due[i] == id && p.now == now && p.w == w
      modifies this
      ensures Inv(View()) && Reached(p, i + 1, View()) && recorded == w.accepts(id)
      ensures if recorded then unrecorded == map[] else unrecorded.Keys == {id}
    {
      NextIsOpen(p, i, rows);
      var u := Try(w, id, now);
      recorded := Record(id, u, w.accepts(id));
      assert unrecorded == if recorded then map[] else map[id := u];
      OneMoreReached(p, i, old(View()), View(), u);
    }

    /** One turn of the loop over a batch: whether it goes on, and if not how it ended. (The
        code also passes over a parked row here; none can be, since nothing is owed.) */
    method Turn(ghost p: Pass, i: nat, w: World, id: Id, now: int) returns (goOn: bool, ghost end: PassEnd, ghost n: nat)
      requires Inv(View()) && Reached(p, i, View()) && unrecorded == map[] && Uneventful(w, p.due, i)
      requires i < |p.due| && p.due[i] == id && p.now == now && p.w == w
      modifies this
      ensures Inv(View()) && Reached(p, n, View())
      ensures if goOn then n == i + 1 && unrecorded == map[] && Uneventful(w, p.due, n)
              else Ended(p, end, n, unrecorded)
    {
      if w.cancelledAt(i) {
        return false, Interrupted, i;
      }
      goOn := Attempt(p, i, w, id, now);
      end, n := StoreRefused, i + 1;
      if goOn {
        OneMoreSmooth(w, p.due, i);
      }
    }

    /** The loop over a batch of due rows. */
    method DeliverBatch(ghost p: Pass, w: World, batch: seq<Id>, now: int) returns (ghost end: PassEnd, ghost n: nat)
      requires Inv(View()) && Reached(p, 0, View()) && unrecorded == map[] && p.due == batch && p.now == now && p.w == w
      modifies this
      ensures Inv(View()) && Reached(p, n, View()) && Ended(p, end, n, unrecorded)
    {
      n := 0;
      for i := 0 to |batch|
        invariant Inv(View()) && Reached(p, n, View()) && n == i && unrecorded == map[] && Uneventful(w, p.due, n)
      {
        var goOn: bool;
        goOn, end, n := Turn(p, i, w, batch[i], now);
        if !goOn {
          return;
        }
      }
      end := Complete;
    }

    /** One pass of the drain. It goes on to deliver only once everything owed is recorded and
        the store can be read; then it tries the due rows in turn, each once, until it is
        cancelled or a write is refused. Every row tried is settled by what its channels
        answered, except the last when the store refuses it, and then that one outcome is
        parked. Whatever the store refuses, the bound of DeliveredAtMostOnce stays in force. */
    method DrainOutbox(w: World, now: int) returns (ghost end: PassEnd, ghost due: seq<Id>, ghost n: nat)
      requires Inv(View()) && Fits(w, rows)
      modifies this
      ensures Inv(View())
      ensures end.StillOwing? <==> old(unrecorded) != map[]
                                   && (w.flushCancelled || exists id :: id in old(unrecorded) && !w.flushAccepts(id))
      ensures end.StillOwing? ==> View() == old(View())
      ensures !end.StillOwing? && !w.readable ==> end.Interrupted? && View() == FlushedState(old(View()))
      ensures !end.StillOwing? && w.readable ==>
                var p := Pass(w, FlushedState(old(View())), due, now);
                Reached(p, n, View()) && Ended(p, end, n, unrecorded) && AllDue(Flushed(old(View())), due, now)
    {
      var settled := FlushUnrecorded(w);
      if !settled {
        return StillOwing, [], 0;
      }
      if !w.readable {
        return Interrupted, [], 0;
      }
      ghost var start := View();
      var batch := DueOutbox(now);
      due := batch;
      FlushedFits(w, old(View()));
      NothingReachedYet(w, start, batch, now);
      end, n := DeliverBatch(Pass(w, start, batch, now), w, batch, now);
    }

    method Enqueue(next: int, recipients: nat, topic: bool)
      requires Inv(View())
      modifies this`rows, this`nextId
      ensures Inv(View()) && View() == AfterEnqueue(old(View()), next, recipients, topic)
    {
      EnqueueKeepsInv(View(), next, recipients, topic);
      rows := rows[nextId := Row(Pending, 0, next, recipients, topic)];
      nextId := nextId + 1;
    }

    /** The process dies and starts again with nothing parked. */
    method Crash()
      requires Inv(View())
      modifies this
      ensures Inv(View()) && unrecorded == map[] && rows == old(rows)
    {
      if unrecorded != map[] {
        var id :| id in unrecorded;
        CrashKeepsInv(View(), id);
        lostTried := Plus(lostTried, id, true);
        lostDelivered := Plus(lostDelivered, id, unrecorded[id].MarkSent?);
        unrecorded := unrecorded - {id};
      }
    }
  }
}
