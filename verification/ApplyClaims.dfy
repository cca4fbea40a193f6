/** The per-permit apply claim (AcquireApply, tryApply and its release in
    internal/scheduler/scheduler.go) and the protocol its holders follow: claim, write at
    the council, record the plate locally, release (reconcilePermit, and the handlers in
    internal/server). `Claims` is the table itself; the interleavings of many writers, with
    the readers that adopt a council reading outside any claim and the ways a cycle can go
    wrong, are runs of `State`. */
module ApplyClaims {
  type Permit = int
  type Plate = string
  type Ticket = nat  // one acquisition, numbered

  // ---- the claim table ----

  datatype Slot = Slot(permit: Permit, released: bool)

  /** held is the map of claims, slots everything ever acquired, by ticket. */
  datatype Table = Table(held: map<Permit, Ticket>, slots: seq<Slot>)

  function Acquired(tb: Table, p: Permit): Table {
    if p in tb.held then tb else Table(tb.held[p := |tb.slots|], tb.slots + [Slot(p, false)])
  }

  function Freed(tb: Table, t: Ticket): Table
    requires t < |tb.slots|
  {
    var p := tb.slots[t].permit;
    if tb.slots[t].released then tb
    else Table(if p in tb.held && tb.held[p] == t then tb.held - {p} else tb.held, tb.slots[t := Slot(p, true)])
  }

  /** One acquisition. fired is the sync.Once of its release, closed its wake-up channel. */
  class Claim {
    const permit: Permit
    ghost const ticket: Ticket
    var fired: bool
    var closed: bool

    constructor (permit: Permit, ghost ticket: Ticket)
      ensures this.permit == permit && this.ticket == ticket && !fired && !closed
    {
      this.permit, this.ticket := permit, ticket;
      fired, closed := false, false;
    }
  }

  class Claims {
    var applying: map<Permit, Claim>
    ghost var issued: seq<Claim>  // history, by ticket

    ghost predicate Valid()
      reads this, issued
    {
      && (forall t :: 0 <= t < |issued| ==> issued[t].ticket == t && issued[t].closed == issued[t].fired)
      && (forall p :: p in applying ==> applying[p] in issued)
    }

    ghost function View(): Table
      reads this, issued
    {
      Table(map p | p in applying :: applying[p].ticket,
            seq(|issued|, t requires 0 <= t < |issued| reads this, issued => Slot(issued[t].permit, issued[t].fired)))
    }

    constructor ()
      ensures Valid() && View() == Table(map[], [])
    {
      applying, issued := map[], [];
    }

    /** No claim while another holds the permit, else a fresh one. */
    method TryApply(permit: Permit) returns (claim: Claim?)
      requires Valid()
      modifies this
      ensures Valid() && View() == Acquired(old(View()), permit)
      ensures claim == null <==> permit in old(applying)
      ensures claim != null ==> fresh(claim) && issued == old(issued) + [claim]
      ensures claim == null ==> issued == old(issued)
    {
      if permit in applying {
        return null;
      }
      var done := new Claim(permit, |issued|);
      applying := applying[permit := done];
      issued := issued + [done];
      return done;
    }

    /** A release frees its own claim and no other, once: repeated, it does nothing; late,
        with a newer holder in the table, it leaves the holder there. */
    method Release(claim: Claim)
      requires Valid() && claim in issued
      modifies this`applying, claim
      ensures Valid() && claim.closed && issued == old(issued)
      ensures View() == Freed(old(View()), claim.ticket)
    {
      if claim.fired {
        return;
      }
      claim.fired := true;
      if claim.permit in applying && applying[claim.permit] == claim {
        applying := applying - {claim.permit};
      }
      claim.closed := true;
    }
  }

  // ---- the protocol ----

  datatype Phase = Claimed | Wrote(plate: Plate) | Finished

  /** phases[t] is how far ticket t's cycle is; council is the council's own record, stored
      the app's belief. */
  datatype State = State(table: Table, phases: seq<Phase>, council: Permit -> Plate, stored: Permit -> Plate)

  /** What a council write did: confirmed; refused, nothing changed; or failed with the
      outcome unknown, whether or not it landed. */
  datatype Outcome = Confirmed | Refused | Unknown(landed: bool)

  /** An adoption compares and swaps: `believed` is the belief its reader read at step
      believedAt, `reading` the plate the council showed at step readAt. */
  datatype Event =
    | Acquire(permit: Permit)
    | Write(ticket: Ticket, plate: Plate, outcome: Outcome)
    | Commit(ticket: Ticket, ok: bool)
    | Release(ticket: Ticket)
    | Abandon(ticket: Ticket)                  // released between write and commit, as by a panic
    | External(permit: Permit, plate: Plate)   // edited in the council's own portal
    | Adopt(permit: Permit, believed: Plate, reading: Plate, believedAt: nat, readAt: nat)

  predicate Enabled(s: State, e: Event) {
    |s.phases| == |s.table.slots| &&
    match e
    case Acquire(_) => true
    case External(_, _) => true
    case Adopt(_, _, _, _, _) => true
    case Write(t, _, _) => t < |s.phases| && s.phases[t] == Claimed && !s.table.slots[t].released
    case Commit(t, _) => t < |s.phases| && s.phases[t].Wrote? && !s.table.slots[t].released
    case Release(t) => t < |s.phases| && !s.phases[t].Wrote?
    case Abandon(t) => t < |s.phases| && s.phases[t].Wrote? && !s.table.slots[t].released
  }

  function Put(f: Permit -> Plate, p: Permit, plate: Plate): Permit -> Plate {
    q => if q == p then plate else f(q)
  }

  predicate Lands(outcome: Outcome) {
    outcome.Confirmed? || (outcome.Unknown? && outcome.landed)
  }

  function Apply(s: State, e: Event): State
    requires Enabled(s, e)
  {
    match e
    case Acquire(p) =>
      s.(table := Acquired(s.table, p), phases := if p in s.table.held then s.phases else s.phases + [Claimed])
    case Write(t, plate, outcome) =>
      s.(council := if Lands(outcome) then Put(s.council, s.table.slots[t].permit, plate) else s.council,
         phases := s.phases[t := if outcome.Confirmed? then Wrote(plate) else Finished])
    case Commit(t, ok) =>
      s.(stored := if ok then Put(s.stored, s.table.slots[t].permit, s.phases[t].plate) else s.stored,
         phases := s.phases[t := Finished])
    case Release(t) => s.(table := Freed(s.table, t), phases := s.phases[t := Finished])
    case Abandon(t) => s.(table := Freed(s.table, t), phases := s.phases[t := Finished])
    case External(p, plate) => s.(council := Put(s.council, p, plate))
    case Adopt(p, believed, reading, _, _) =>
      if s.stored(p) == believed then s.(stored := Put(s.stored, p, reading)) else s
  }

  /** The plates an adoption goes by were really there when it says it read them. */
  ghost predicate Honest(es: seq<Event>, ss: seq<State>, i: nat)
    requires i < |es| < |ss|
  {
    es[i].Adopt? ==>
      var p := es[i].permit;
      && es[i].believedAt <= i && ss[es[i].believedAt].stored(p) == es[i].believed
      && es[i].readAt <= i && ss[es[i].readAt].council(p) == es[i].reading
  }

  ghost predicate Run(es: seq<Event>, ss: seq<State>) {
    && |ss| == |es| + 1 && ss[0].table == Table(map[], []) && ss[0].phases == []
    && (forall i :: 0 <= i < |es| ==> Enabled(ss[i], es[i]) && ss[i + 1] == Apply(ss[i], es[i]))
    && (forall i: nat :: i < |es| ==> Honest(es, ss, i))
  }

  /** Unreleased cycles are exactly the held ones. */
  ghost predicate Exclusive(s: State) {
    var held, slots := s.table.held, s.table.slots;
    && |s.phases| == |slots|
    && (forall t :: 0 <= t < |slots| && !slots[t].released ==> slots[t].permit in held && held[slots[t].permit] == t)
    && (forall p :: p in held ==> held[p] < |slots| && slots[held[p]] == Slot(p, false))
    && (forall t :: 0 <= t < |slots| && s.phases[t].Wrote? ==> !slots[t].released)
  }

  lemma ApplyKeepsExclusive(s: State, e: Event)
    requires Exclusive(s) && Enabled(s, e)
    ensures Exclusive(Apply(s, e))
  {
  }

  lemma {:induction false} RunIsExclusive(es: seq<Event>, ss: seq<State>, n: nat)
    requires Run(es, ss) && n <= |es|
    ensures Exclusive(ss[n])
  {
    if n > 0 {
      RunIsExclusive(es, ss, n - 1);
      ApplyKeepsExclusive(ss[n - 1], es[n - 1]);
    }
  }

  /** Two writers are never inside their cycles on one permit at once. */
  lemma ClaimsAreExclusive(es: seq<Event>, ss: seq<State>, n: nat, t: Ticket, u: Ticket)
    requires Run(es, ss) && n <= |es| && t < |ss[n].table.slots| && u < |ss[n].table.slots|
    requires ss[n].table.slots[t] == ss[n].table.slots[u] && !ss[n].table.slots[t].released
    ensures t == u
  {
    RunIsExclusive(es, ss, n);
  }

  /** A release by anyone but the holder, late or repeated, leaves every claim in place. */
  lemma StaleReleaseFreesNothing(es: seq<Event>, ss: seq<State>, n: nat, t: Ticket)
    requires Run(es, ss) && n < |es| && es[n] == Release(t)
    requires var tb := ss[n].table; tb.slots[t].permit in tb.held ==> tb.held[tb.slots[t].permit] != t
    ensures ss[n + 1].table.held == ss[n].table.held
  {
    RunIsExclusive(es, ss, n);
  }

  // ---- agreement ----

  /** A confirmed write on p is not recorded yet. */
  predicate Pending(s: State, p: Permit) {
    p in s.table.held && s.table.held[p] < |s.phases| && s.phases[s.table.held[p]].Wrote?
  }

  /** Whether the belief matches the council, allowing for a write not yet recorded. */
  ghost predicate Agrees(s: State, p: Permit) {
    if Pending(s, p) then s.council(p) == s.phases[s.table.held[p]].plate else s.council(p) == s.stored(p)
  }

  /** The ways belief and council can part: an unrecorded confirmed write (the commit
      failed or the writer died first), a failed write that landed all the same, an edit
      made elsewhere, or a swap to a reading the council no longer shows. */
  predicate Faults(s: State, e: Event, p: Permit)
    requires Enabled(s, e)
  {
    match e
    case Commit(t, ok) => !ok && s.table.slots[t].permit == p
    case Write(t, _, outcome) => outcome == Unknown(true) && s.table.slots[t].permit == p
    case Abandon(t) => s.table.slots[t].permit == p
    case External(q, _) => q == p
    case Adopt(q, believed, reading, _, _) =>
      q == p && !Pending(s, p) && s.stored(p) == believed && reading != s.council(p)
    case _ => false
  }

  lemma ApplyKeepsAgreement(s: State, e: Event, p: Permit)
    requires Exclusive(s) && Enabled(s, e) && Agrees(s, p) && !Faults(s, e, p)
    ensures Agrees(Apply(s, e), p)
  {
    match e
    case Acquire(q) =>
    case External(q, _) =>
    case Adopt(q, _, _, _, _) =>
    case Write(t, plate, outcome) => assert s.table.held[s.table.slots[t].permit] == t;
    case Commit(t, ok) => assert s.table.held[s.table.slots[t].permit] == t;
    case Release(t) =>
    case Abandon(t) =>
  }

  ghost predicate FaultFree(es: seq<Event>, ss: seq<State>, p: Permit, i: nat, n: nat)
    requires Run(es, ss) && i <= n <= |es|
  {
    forall k :: i <= k < n ==> !Faults(ss[k], es[k], p)
  }

  /** Agreement once reached is lost only through a fault on that permit, under any
      interleaving of any number of writers and adopters. */
  lemma {:induction false} AgreementLastsUntilAFault(es: seq<Event>, ss: seq<State>, p: Permit, i: nat, n: nat)
    requires Run(es, ss) && i <= n <= |es| && Agrees(ss[i], p) && FaultFree(es, ss, p, i, n)
    ensures Agrees(ss[n], p)
    decreases n - i
  {
    if i < n {
      AgreementLastsUntilAFault(es, ss, p, i, n - 1);
      RunIsExclusive(es, ss, n - 1);
      ApplyKeepsAgreement(ss[n - 1], es[n - 1], p);
    }
  }

  /** What each step does to p's two records: a council write lands exactly when it is
      confirmed or says it failed but landed, a successful commit stores the plate that was
      written, an edit elsewhere changes the council alone, an adoption stores its reading
      exactly if the belief is still the one read; and nothing else touches either. */
  lemma StepDoes(s: State, e: Event, p: Permit)
    requires Enabled(s, e)
    ensures Apply(s, e).council(p) ==
              match e
              case Write(t, plate, outcome) =>
                if s.table.slots[t].permit == p && (outcome == Confirmed || outcome == Unknown(true)) then plate
                else s.council(p)
              case External(q, plate) => if q == p then plate else s.council(p)
              case _ => s.council(p)
    ensures Apply(s, e).stored(p) ==
              match e
              case Commit(t, ok) =>
                if ok && s.table.slots[t].permit == p then s.phases[t].plate else s.stored(p)
              case Adopt(q, believed, reading, _, _) =>
                if q == p && s.stored(p) == believed then reading else s.stored(p)
              case _ => s.stored(p)
    ensures e.Write? ==> Apply(s, e).phases[e.ticket] == if e.outcome == Confirmed then Wrote(e.plate) else Finished
  {
  }

  /** A free permit is claimed at once, by a fresh ticket; a held one is not; and only its own
      release frees it. */
  lemma ClaimDoes(s: State, e: Event, p: Permit)
    requires Exclusive(s) && Enabled(s, e)
    ensures var held, held' := s.table.held, Apply(s, e).table.held;
            && (e == Acquire(p) ==> p in held' && held'[p] == if p in held then held[p] else |s.phases|)
            && (p in held && !(e.Release? && e.ticket == held[p]) && !(e.Abandon? && e.ticket == held[p]) ==>
                  p in held' && held'[p] == held[p])
            && (p in held && (e == Release(held[p]) || e == Abandon(held[p])) ==> p !in held')
            && (p !in held && e != Acquire(p) ==> p !in held')
  {
  }

  /** From an agreed start, in a fault-free run, whenever no one holds the permit's claim
      the recorded plate is the council's plate. */
  lemma UnclaimedMeansAgreed(es: seq<Event>, ss: seq<State>, p: Permit, n: nat)
    requires Run(es, ss) && n <= |es| && FaultFree(es, ss, p, 0, n)
    requires ss[0].council(p) == ss[0].stored(p) && p !in ss[n].table.held
    ensures ss[n].council(p) == ss[n].stored(p)
  {
    AgreementLastsUntilAFault(es, ss, p, 0, n);
  }

  /** And whatever went wrong before, one confirmed write followed by no further fault
      repairs it: once the claim is free again the two agree. */
  lemma ConfirmedWriteHeals(es: seq<Event>, ss: seq<State>, p: Permit, i: nat, n: nat)
    requires Run(es, ss) && i < n <= |es| && es[i].Write? && es[i].outcome.Confirmed?
    requires ss[i].table.slots[es[i].ticket].permit == p
    requires FaultFree(es, ss, p, i + 1, n) && p !in ss[n].table.held
    ensures ss[n].council(p) == ss[n].stored(p)
  {
    RunIsExclusive(es, ss, i);
    assert ss[i + 1] == Apply(ss[i], es[i]);
    AgreementLastsUntilAFault(es, ss, p, i + 1, n);
  }

  // ---- adopting a council reading ----

  /** An adoption keeps agreement exactly when it is none of those faults: its swap fails,
      a write is waiting to be recorded over it, or the council still shows the reading. */
  lemma AdoptionKeepsAgreementIff(s: State, e: Event, p: Permit)
    requires e.Adopt? && e.permit == p && Enabled(s, e) && Agrees(s, p)
    ensures Agrees(Apply(s, e), p) <==> !Faults(s, e, p)
  {
  }

  /** Something changed p's plate at the council at step k. */
  ghost predicate Changes(es: seq<Event>, ss: seq<State>, k: nat, p: Permit)
    requires k < |es| < |ss|
  {
    ss[k + 1].council(p) != ss[k].council(p)
  }

  lemma {:induction false} CouncilUnchanged(es: seq<Event>, ss: seq<State>, p: Permit, i: nat, n: nat)
    requires Run(es, ss) && i <= n <= |es| && forall k: nat :: i <= k < n ==> !Changes(es, ss, k, p)
    ensures ss[n].council(p) == ss[i].council(p)
    decreases n
  {
    if i < n {
      CouncilUnchanged(es, ss, p, i, n - 1);
      var k: nat := n - 1;
      assert !Changes(es, ss, k, p);
    }
  }

  /** If the permit was not applied or edited between the reading and the swap the adoption
      is no fault, and if it swaps, it brings the belief to the council's plate from
      wherever it was. */
  lemma TimelyAdoptionAgrees(es: seq<Event>, ss: seq<State>, p: Permit, i: nat)
    requires Run(es, ss) && i < |es| && es[i].Adopt? && es[i].permit == p
    requires forall k: nat :: es[i].readAt <= k < i ==> !Changes(es, ss, k, p)
    ensures !Faults(ss[i], es[i], p)
    ensures ss[i].stored(p) == es[i].believed ==> ss[i + 1].stored(p) == ss[i + 1].council(p)
  {
    assert Honest(es, ss, i);
    CouncilUnchanged(es, ss, p, es[i].readAt, i);
  }

  /** The write waiting at s is still waiting at s'. */
  predicate StillPending(s: State, s': State, p: Permit)
    requires Pending(s, p)
  {
    var t := s.table.held[p];
    Pending(s', p) && s'.table.held[p] == t && s'.phases[t] == s.phases[t]
  }

  lemma PendingStep(s: State, e: Event, p: Permit)
    requires Exclusive(s) && Enabled(s, e) && Pending(s, p) && !Faults(s, e, p)
    ensures StillPending(s, Apply(s, e), p) || Apply(s, e).stored(p) == s.phases[s.table.held[p]].plate
  {
  }

  /** A write waiting to be recorded is still waiting, or its plate has been stored since. */
  lemma {:induction false} PendingIsStored(es: seq<Event>, ss: seq<State>, p: Permit, i: nat, n: nat) returns (m: nat)
    requires Run(es, ss) && i <= n <= |es| && Pending(ss[i], p) && FaultFree(es, ss, p, i, n)
    ensures i <= m <= n
    ensures StillPending(ss[i], ss[n], p) || ss[m].stored(p) == ss[i].phases[ss[i].table.held[p]].plate
    decreases n
  {
    m := i;
    if i < n {
      m := PendingIsStored(es, ss, p, i, n - 1);
      if ss[m].stored(p) != ss[i].phases[ss[i].table.held[p]].plate {
        RunIsExclusive(es, ss, n - 1);
        PendingStep(ss[n - 1], es[n - 1], p);
        m := n;
      }
    }
  }

  /** A swap to a stale plate takes a belief that moved and came back: in an otherwise
      fault-free run, it was the reading at some step since the reading was taken, and the
      value compared with now. */
  lemma StaleAdoptionNeedsAReturn(es: seq<Event>, ss: seq<State>, p: Permit, i: nat) returns (m: nat)
    requires Run(es, ss) && i < |es| && es[i].Adopt? && Faults(ss[i], es[i], p)
    requires es[i].readAt <= i && Agrees(ss[es[i].readAt], p) && FaultFree(es, ss, p, es[i].readAt, i)
    ensures es[i].readAt <= m < i
    ensures ss[m].stored(p) == es[i].reading && ss[i].stored(p) == es[i].believed != es[i].reading
  {
    var r := es[i].readAt;
    assert Honest(es, ss, i);
    AgreementLastsUntilAFault(es, ss, p, r, i);
    m := r;
    if Pending(ss[r], p) {
      m := PendingIsStored(es, ss, p, r, i);
    }
  }

  /** So drift, which reads the belief before the council, is misled only by a belief that
      was A, then B, then A again. */
  lemma DriftIsMisledOnlyByABA(es: seq<Event>, ss: seq<State>, p: Permit, i: nat) returns (m: nat)
    requires Run(es, ss) && i < |es| && es[i].Adopt? && Faults(ss[i], es[i], p)
    requires es[i].believedAt <= es[i].readAt
    requires es[i].readAt <= i && Agrees(ss[es[i].readAt], p) && FaultFree(es, ss, p, es[i].readAt, i)
    ensures es[i].believedAt <= m < i
    ensures ss[es[i].believedAt].stored(p) == ss[i].stored(p) != ss[m].stored(p)
  {
    assert Honest(es, ss, i);
    m := StaleAdoptionNeedsAReturn(es, ss, p, i);
  }

  // ---- and those do mislead it ----

  lemma Continue(es: seq<Event>, ss: seq<State>, e: Event) returns (es': seq<Event>, ss': seq<State>)
    requires Run(es, ss) && Enabled(ss[|es|], e) && Honest(es + [e], ss + [ss[|es|]], |es|)
    ensures es' == es + [e] && ss' == ss + [Apply(ss[|es|], e)] && Run(es', ss')
  {
    es', ss' := es + [e], ss + [Apply(ss[|es|], e)];
    forall i: nat | i < |es'| ensures Honest(es', ss', i) {
      assert i < |es| ==> Honest(es, ss, i);
    }
  }

  /** A whole cycle on an unclaimed permit: claim, confirmed write, record, release. */
  lemma OneApply(es: seq<Event>, ss: seq<State>, p: Permit, plate: Plate) returns (es': seq<Event>, ss': seq<State>)
    requires Run(es, ss) && p !in ss[|es|].table.held
    ensures Run(es', ss') && |es'| == |es| + 4 && es'[..|es|] == es && ss'[..|es| + 1] == ss
    ensures FaultFree(es', ss', p, |es|, |es'|) && p !in ss'[|es'|].table.held
    ensures ss'[|es'|].council(p) == ss'[|es'|].stored(p) == plate
  {
    RunIsExclusive(es, ss, |es|);
    var t := |ss[|es|].table.slots|;
    var es1, ss1 := Continue(es, ss, Acquire(p));
    var es2, ss2 := Continue(es1, ss1, Write(t, plate, Confirmed));
    var es3, ss3 := Continue(es2, ss2, Commit(t, true));
    es', ss' := Continue(es3, ss3, Release(t));
    assert es' == es + [Acquire(p), Write(t, plate, Confirmed), Commit(t, true), Release(t)];
  }

  /** From any point at which p is unclaimed and agreed there is a fault-free continuation,
      two plain applies, at the end of which a drift adoption stores a plate the council
      does not hold. */
  lemma ABAMisleadsDrift(es: seq<Event>, ss: seq<State>, p: Permit, b: Plate)
    returns (es': seq<Event>, ss': seq<State>)
    requires Run(es, ss) && p !in ss[|es|].table.held
    requires ss[|es|].council(p) == ss[|es|].stored(p) != b
    ensures Run(es', ss') && |es| < |es'| && es'[..|es|] == es && ss'[..|es| + 1] == ss
    ensures var last := es'[|es'| - 1]; last.Adopt? && last.permit == p && last.believedAt <= last.readAt
    ensures FaultFree(es', ss', p, |es|, |es'| - 1) && p !in ss'[|es'|].table.held
    ensures ss'[|es'|].council(p) == ss[|es|].council(p) && ss'[|es'|].stored(p) == b
  {
    var n, a := |es|, ss[|es|].council(p);
    var es1, ss1 := OneApply(es, ss, p, b);
    var es2, ss2 := OneApply(es1, ss1, p, a);
    assert ss2[n] == ss2[..|es1| + 1][n] == ss1[n] == ss1[..n + 1][n];
    assert ss2[n + 4] == ss2[..|es1| + 1][n + 4];
    RunIsExclusive(es2, ss2, |es2|);
    es', ss' := Continue(es2, ss2, Adopt(p, a, b, n, n + 4));
    assert es'[..n] == es2[..|es1|][..n] && ss'[..n + 1] == ss2[..|es1| + 1][..n + 1];
    forall k | n <= k < |es2| ensures !Faults(ss'[k], es'[k], p) {
      if k < |es1| {
        assert es2[k] == es2[..|es1|][k] && ss2[k] == ss2[..|es1| + 1][k];
      }
    }
  }

  /** And a reading older than the belief it is compared with needs one apply only. */
  lemma OneApplyMisleadsAnOldReading(es: seq<Event>, ss: seq<State>, p: Permit, a: Plate)
    returns (es': seq<Event>, ss': seq<State>)
    requires Run(es, ss) && p !in ss[|es|].table.held
    requires ss[|es|].council(p) == ss[|es|].stored(p) != a
    ensures Run(es', ss') && |es| < |es'| && es'[..|es|] == es && ss'[..|es| + 1] == ss
    ensures var last := es'[|es'| - 1]; last.Adopt? && last.permit == p && last.readAt < last.believedAt
    ensures FaultFree(es', ss', p, |es|, |es'| - 1) && p !in ss'[|es'|].table.held
    ensures ss'[|es'|].council(p) == a && ss'[|es'|].stored(p) == ss[|es|].stored(p)
  {
    var n, b := |es|, ss[|es|].council(p);
    var es1, ss1 := OneApply(es, ss, p, a);
    assert ss1[n] == ss1[..n + 1][n];
    RunIsExclusive(es1, ss1, |es1|);
    es', ss' := Continue(es1, ss1, Adopt(p, a, b, n + 4, n));
    assert es'[..n] == es1[..n] && ss'[..n + 1] == ss1[..n + 1];
  }
}
