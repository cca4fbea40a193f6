/** When a household is told that a change did not land (notifyFailure,
    closeFailureEpisode, legacyFailureTold and the key discipline of notifyUserThen in
    internal/scheduler/notify.go, over the permit_notify row of internal/store/notify.go),
    and what the two ways an episode ends leave behind (settle and the success branch of
    reconcilePermit in internal/scheduler/reconcile.go). A delivery is taken to finish
    before the next decision. */
module FailureEpisode {
  import opened Schedule

  /** A rego as the schedule spells it. "" is a target too: the schedule wants none. */
  type Plate = string

  datatype Tier = Soft | Urgent

  /** The key of the last outcome delivered: a failure of some plate, the close-out of one
      that never landed, anything else, or none (drift clears it). */
  datatype NotifiedKey =
    | NoKey
    | FailKey(plate: Plate, tier: Tier)
    | UnappliedKey(plate: Plate, day: int)
    | OtherKey(id: string)

  /** told and urgent are the open episode's columns; told "" means nothing was told. */
  datatype State = State(told: Plate, urgent: bool, key: NotifiedKey)

  const START: State := State("", false, NoKey)

  /** MarkFailureTold: for one plate the tier only rises; another plate replaces it. */
  function MarkTold(s: State, plate: Plate, urgent: bool): State {
    s.(told := plate, urgent := if s.told == plate then s.urgent || urgent else urgent)
  }

  /** legacyFailureTold: the key says the household was told about this plate not landing. */
  predicate About(key: NotifiedKey, plate: Plate) {
    (key.FailKey? || key.UnappliedKey?) && SamePlate(key.plate, plate)
  }

  predicate SaysUrgent(key: NotifiedKey) {
    key.FailKey? && key.tier.Urgent?
  }

  /** An episode that says nothing adopts the last delivered key, if it is about this plate. */
  function Adopted(s: State, plate: Plate): State {
    if s.told == "" && About(s.key, plate) then MarkTold(s, s.key.plate, SaysUrgent(s.key)) else s
  }

  /** A failing attempt: what is due, how loudly, and whether the council is down. */
  datatype Failure = Failure(plate: Plate, tier: Tier, councilDown: bool)

  predicate AlreadyTold(s: State, f: Failure) {
    && s.told != ""
    && (f.councilDown || f.tier.Urgent? || SamePlate(s.told, f.plate))
    && (f.tier.Soft? || s.urgent)
  }

  /** A notice is sent: the episode has not covered it and its key is not the last one. */
  predicate Sends(s: State, f: Failure) {
    !AlreadyTold(Adopted(s, f.plate), f) && s.key != FailKey(f.plate, f.tier)
  }

  /** reached: the delivery succeeded; otherwise nothing is recorded and it is retried. */
  function AfterFailure(s: State, f: Failure, reached: bool): State {
    var a := Adopted(s, f.plate);
    if Sends(s, f) && reached
    then MarkTold(a.(key := FailKey(f.plate, f.tier)), f.plate, f.tier.Urgent?) else a
  }

  /** CloseFailureEpisode leaves the key alone. */
  function Closed(s: State): State {
    if s.told != "" then s.(told := "", urgent := false) else s
  }

  /** notifyUser: an outcome that is no failing attempt. */
  function Notified(s: State, key: NotifiedKey, reached: bool): State {
    if s.key != key && reached then s.(key := key) else s
  }

  /** settle, when the failing target went away without landing. */
  function SettledUnapplied(s: State, plate: Plate, day: int, reached: bool): State {
    Closed(Notified(s, UnappliedKey(plate, day), reached))
  }

  /** The success branch: the episode is closed, then the change is announced. */
  function Applied(s: State, id: string, reached: bool): State {
    Notified(Closed(s), OtherKey(id), reached)
  }

  class PermitNotify {
    var told: Plate
    var urgent: bool
    var key: NotifiedKey

    ghost function View(): State
      reads this
    {
      State(told, urgent, key)
    }

    constructor ()
      ensures View() == START
    {
      told, urgent, key := "", false, NoKey;
    }

    method MarkFailureTold(plate: Plate, tier: Tier)
      modifies this`told, this`urgent
      ensures View() == MarkTold(old(View()), plate, tier.Urgent?)
    {
      urgent := if told == plate then urgent || tier.Urgent? else tier.Urgent?;
      told := plate;
    }

    /** notifyFailure and the delivery it hands to notifyUserThen. */
    method NotifyFailure(f: Failure, reached: bool) returns (sent: bool)
      modifies this
      ensures View() == AfterFailure(old(View()), f, reached)
      ensures sent == Sends(old(View()), f)
    {
      if told == "" && (key.FailKey? || key.UnappliedKey?) && SamePlate(key.plate, f.plate) {
        MarkFailureTold(key.plate, if key.FailKey? then key.tier else Soft);
      }
      var outage := f.councilDown || f.tier.Urgent?;
      var already := told != "" && (outage || SamePlate(told, f.plate));
      if already && (f.tier.Soft? || urgent) {
        return false;
      }
      if key == FailKey(f.plate, f.tier) {
        return false;
      }
      if reached {
        key := FailKey(f.plate, f.tier);
        MarkFailureTold(f.plate, f.tier);
      }
      return true;
    }

    method CloseFailureEpisode() returns (wasTold: bool)
      modifies this`told, this`urgent
      ensures View() == Closed(old(View())) && wasTold == (old(told) != "")
    {
      if told == "" {
        return false;
      }
      told, urgent := "", false;
      return true;
    }

    method NotifyUser(outcome: NotifiedKey, reached: bool) returns (sent: bool)
      modifies this`key
      ensures View() == Notified(old(View()), outcome, reached) && sent == (old(key) != outcome)
    {
      if key == outcome {
        return false;
      }
      if reached {
        key := outcome;
      }
      return true;
    }

    method SettleUnapplied(plate: Plate, day: int, reached: bool)
      modifies this
      ensures View() == SettledUnapplied(old(View()), plate, day, reached)
    {
      var sent := NotifyUser(UnappliedKey(plate, day), reached);
      var wasTold := CloseFailureEpisode();
    }

    /** resolves: the news also reaches the members who only hear about problems. */
    method ChangeApplied(id: string, reached: bool) returns (resolves: bool)
      modifies this
      ensures View() == Applied(old(View()), id, reached) && resolves == (old(told) != "")
    {
      resolves := CloseFailureEpisode();
      var sent := NotifyUser(OtherKey(id), reached);
    }
  }

  // ---- one episode, one plate ----

  /** The state after a run of failures, each with whether its notice could be delivered. */
  function After(s: State, fs: seq<(Failure, bool)>): State {
    if fs == [] then s
    else
      var last := fs[|fs| - 1];
      AfterFailure(After(s, fs[..|fs| - 1]), last.0, last.1)
  }

  /** The tiers delivered in such a run, in order. */
  function Notices(s: State, fs: seq<(Failure, bool)>): seq<Tier> {
    if fs == [] then []
    else
      var front, last := fs[..|fs| - 1], fs[|fs| - 1];
      Notices(s, front) + (if Sends(After(s, front), last.0) && last.1 then [last.0.tier] else [])
  }

  /** Every failure is about this plate, in some spelling (an empty target has only one). */
  predicate OnePlate(fs: seq<(Failure, bool)>, plate: Plate) {
    forall i :: 0 <= i < |fs| ==>
      SamePlate(fs[i].0.plate, plate) && (fs[i].0.plate == "" <==> plate == "")
  }

  /** At most one notice a tier, and never a soft one after the urgent. */
  predicate OnePerTier(notices: seq<Tier>) {
    notices == [] || notices == [Soft] || notices == [Urgent] || notices == [Soft, Urgent]
  }

  /** An episode that says nothing would take the key as having told this plate. */
  predicate Covers(key: NotifiedKey, plate: Plate) {
    About(key, plate) && key.plate != ""
  }

  /** What the notices delivered so far have left in the episode's columns. */
  ghost predicate Recorded(s: State, plate: Plate, notices: seq<Tier>) {
    && OnePerTier(notices)
    && (notices != [] ==> s.told != "" && SamePlate(s.told, plate))
    && (Urgent in notices ==> s.urgent)
  }

  lemma OneMoreIsRecorded(s: State, plate: Plate, notices: seq<Tier>, f: Failure, reached: bool)
    requires Recorded(s, plate, notices) && SamePlate(f.plate, plate) && f.plate != ""
    ensures Recorded(AfterFailure(s, f, reached), plate, notices + if Sends(s, f) && reached then [f.tier] else [])
  {
    assert [Soft] + [Urgent] == [Soft, Urgent];
    assert notices + [] == notices && (notices == [] ==> notices + [f.tier] == [f.tier]);
  }

  lemma {:induction false} NoticesAreRecorded(s: State, fs: seq<(Failure, bool)>, plate: Plate)
    requires plate != "" && OnePlate(fs, plate)
    ensures Recorded(After(s, fs), plate, Notices(s, fs))
    decreases |fs|
  {
    if fs != [] {
      var front, last := fs[..|fs| - 1], fs[|fs| - 1];
      assert OnePlate(front, plate) by {
        assert forall i :: 0 <= i < |front| ==> front[i] == fs[i];
      }
      NoticesAreRecorded(s, front, plate);
      OneMoreIsRecorded(After(s, front), plate, Notices(s, front), last.0, last.1);
    }
  }

  /** From whatever the columns and the last key say, and whatever sequence of causes, tiers
      and spellings a plate's failures take, the household hears at most one soft notice, at
      most one urgent one, and never a soft one after the urgent. */
  lemma OneNoticePerTier(s: State, fs: seq<(Failure, bool)>, plate: Plate)
    requires plate != "" && OnePlate(fs, plate)
    ensures OnePerTier(Notices(s, fs))
  {
    NoticesAreRecorded(s, fs, plate);
  }

  // ---- and what is told ----

  /** Some failure of the run could be delivered, or some urgent one could. */
  predicate SomeDeliverable(fs: seq<(Failure, bool)>, urgently: bool) {
    fs != [] &&
    var last := fs[|fs| - 1];
    (last.1 && (urgently ==> last.0.tier.Urgent?)) || SomeDeliverable(fs[..|fs| - 1], urgently)
  }

  /** Nothing told yet, and the last notice was not about this plate failing. */
  predicate Armed(s: State, plate: Plate) {
    s.told == "" && !Covers(s.key, plate)
  }

  /** In an episode that opened armed: nothing told yet, told softly, or told urgently. */
  ghost predicate Matches(s: State, plate: Plate, notices: seq<Tier>) {
    if notices == [] then Armed(s, plate)
    else
      && s.told != "" && SamePlate(s.told, plate)
      && ((notices == [Soft] && !s.urgent && s.key.FailKey? && s.key.tier.Soft?)
          || ((notices == [Urgent] || notices == [Soft, Urgent]) && s.urgent))
  }

  lemma OneMoreFailure(s: State, plate: Plate, notices: seq<Tier>, f: Failure, reached: bool)
    requires Matches(s, plate, notices) && SamePlate(f.plate, plate) && f.plate != ""
    ensures Matches(AfterFailure(s, f, reached), plate, notices + if Sends(s, f) && reached then [f.tier] else [])
    ensures Sends(s, f) <==> notices == [] || (f.tier.Urgent? && notices == [Soft])
  {
    assert [Soft] + [Urgent] == [Soft, Urgent];
    assert notices + [] == notices && (notices == [] ==> notices + [f.tier] == [f.tier]);
  }

  /** And nothing is kept from them: in an episode that opened armed, once a failure could
      be delivered something has been, and once an urgent one could, the urgent notice has. */
  lemma {:induction false} DeliverableIsTold(s: State, fs: seq<(Failure, bool)>, plate: Plate)
    requires plate != "" && Armed(s, plate) && OnePlate(fs, plate)
    ensures Matches(After(s, fs), plate, Notices(s, fs))
    ensures Notices(s, fs) != [] <==> SomeDeliverable(fs, false)
    ensures Urgent in Notices(s, fs) <==> SomeDeliverable(fs, true)
    decreases |fs|
  {
    if fs != [] {
      var n := |fs| - 1;
      var front, last := fs[..n], fs[n];
      assert OnePlate(front, plate) by {
        assert forall i :: 0 <= i < n ==> front[i] == fs[i];
      }
      DeliverableIsTold(s, front, plate);
      OneMoreFailure(After(s, front), plate, Notices(s, front), last.0, last.1);
    }
  }

  /** In an episode that opened with a key about the plate: still only that, or its urgent
      notice is out. */
  ghost predicate MatchesCovered(s: State, plate: Plate, notices: seq<Tier>, urgently: bool) {
    if notices == [] && !urgently then
      && (s.told == "" || (SamePlate(s.told, plate) && !s.urgent))
      && Covers(s.key, plate) && !SaysUrgent(s.key)
    else if notices == [] then
      if s.told == "" then Covers(s.key, plate) && SaysUrgent(s.key) else SamePlate(s.told, plate) && s.urgent
    else notices == [Urgent] && !urgently && s.told != "" && SamePlate(s.told, plate) && s.urgent
  }

  lemma OneMoreCovered(s: State, plate: Plate, notices: seq<Tier>, urgently: bool, f: Failure, reached: bool)
    requires MatchesCovered(s, plate, notices, urgently) && SamePlate(f.plate, plate) && f.plate != ""
    ensures MatchesCovered(AfterFailure(s, f, reached), plate,
                           notices + if Sends(s, f) && reached then [f.tier] else [], urgently)
    ensures Sends(s, f) <==> f.tier.Urgent? && notices == [] && !urgently
  {
    assert notices + [] == notices && (notices == [] ==> notices + [f.tier] == [f.tier]);
  }

  /** An episode that opens with the last delivered key about its plate tells no soft
      failure: only the urgent notice, once it can be delivered, and not even that if the
      key was urgent. */
  lemma {:induction false} CoveredTellsOnlyUrgently(s: State, fs: seq<(Failure, bool)>, plate: Plate)
    requires plate != "" && s.told == "" && Covers(s.key, plate) && OnePlate(fs, plate)
    ensures MatchesCovered(After(s, fs), plate, Notices(s, fs), SaysUrgent(s.key))
    ensures Notices(s, fs) == if SomeDeliverable(fs, true) && !SaysUrgent(s.key) then [Urgent] else []
    decreases |fs|
  {
    if fs != [] {
      var n := |fs| - 1;
      var front, last := fs[..n], fs[n];
      assert OnePlate(front, plate) by {
        assert forall i :: 0 <= i < n ==> front[i] == fs[i];
      }
      CoveredTellsOnlyUrgently(s, front, plate);
      OneMoreCovered(After(s, front), plate, Notices(s, front), SaysUrgent(s.key), last.0, last.1);
    }
  }

  // ---- an empty target ----

  /** When the schedule wants no rego the episode never records anything: a failure is told
      if and only if the last notice delivered was not this same failure at this tier. */
  lemma EmptyTargetRule(s: State, f: Failure, reached: bool)
    requires s.told == "" && f.plate == "" && !Covers(s.key, "")
    ensures Sends(s, f) <==> s.key != FailKey("", f.tier)
    ensures AfterFailure(s, f, reached).told == "" && !Covers(AfterFailure(s, f, reached).key, "")
    ensures reached ==> AfterFailure(s, f, reached).key == FailKey("", f.tier)
  {
  }

  predicate EmptyTargets(fs: seq<(Failure, bool)>) {
    forall i :: 0 <= i < |fs| ==> fs[i].0.plate == "" && fs[i].1
  }

  /** The tiers that differ from the one before. */
  function Flips(key: NotifiedKey, fs: seq<(Failure, bool)>): seq<Tier> {
    if fs == [] then []
    else
      var n := |fs| - 1;
      var tier := fs[n].0.tier;
      Flips(key, fs[..n])
      + (if (if n == 0 then key != FailKey("", tier) else fs[n - 1].0.tier != tier) then [tier] else [])
  }

  /** So its deliverable failures are told at every change of tier, up or down, for as long
      as the episode lasts. */
  lemma {:induction false} EmptyTargetTellsEveryFlip(s: State, fs: seq<(Failure, bool)>)
    requires s.told == "" && !Covers(s.key, "") && EmptyTargets(fs)
    ensures Notices(s, fs) == Flips(s.key, fs)
    ensures After(s, fs).told == ""
    ensures After(s, fs).key == if fs == [] then s.key else FailKey("", fs[|fs| - 1].0.tier)
    decreases |fs|
  {
    if fs != [] {
      var n := |fs| - 1;
      var front, last := fs[..n], fs[n];
      assert forall i :: 0 <= i < n ==> front[i] == fs[i];
      EmptyTargetTellsEveryFlip(s, front);
      EmptyTargetRule(After(s, front), last.0, last.1);
    }
  }

  /** Each failure is at another tier than the one before, the first than the last outcome. */
  predicate AllFlip(key: NotifiedKey, fs: seq<(Failure, bool)>) {
    && (fs != [] ==> key != FailKey("", fs[0].0.tier))
    && (forall i :: 0 < i < |fs| ==> fs[i].0.tier != fs[i - 1].0.tier)
  }

  lemma {:induction false} AllFlipsAreTold(key: NotifiedKey, fs: seq<(Failure, bool)>)
    requires AllFlip(key, fs)
    ensures |Flips(key, fs)| == |fs|
    ensures forall i :: 0 <= i < |fs| ==> Flips(key, fs)[i] == fs[i].0.tier
    decreases |fs|
  {
    if fs != [] {
      var n := |fs| - 1;
      assert AllFlip(key, fs[..n]);
      AllFlipsAreTold(key, fs[..n]);
    }
  }

  /** An empty target failing n times, urgently (an expired session, say) and softly in turn. */
  function Alternating(n: nat): (fs: seq<(Failure, bool)>)
    ensures |fs| == n
  {
    seq(n, i => (Failure("", if i % 2 == 0 then Urgent else Soft, false), true))
  }

  lemma AlternatingIs(n: nat, i: nat)
    requires i < n
    ensures Alternating(n)[i] == (Failure("", if i % 2 == 0 then Urgent else Soft, false), true)
  {
  }

  lemma AlternatingFlips(n: nat)
    ensures EmptyTargets(Alternating(n)) && OnePlate(Alternating(n), "") && AllFlip(NoKey, Alternating(n))
  {
    var fs := Alternating(n);
    forall i | 0 <= i < n ensures fs[i].0.plate == "" && fs[i].1 {
      AlternatingIs(n, i);
    }
    forall i | 0 < i < n ensures fs[i].0.tier != fs[i - 1].0.tier {
      AlternatingIs(n, i);
      AlternatingIs(n, i - 1);
    }
  }

  /** Urgent, soft, urgent, soft: all n are told, each soft one after an urgent. */
  lemma EmptyTargetHasNoBound(n: nat)
    ensures OnePlate(Alternating(n), "") && |Notices(START, Alternating(n))| == n
    ensures forall i :: 0 <= i < n ==> Notices(START, Alternating(n))[i] == if i % 2 == 0 then Urgent else Soft
  {
    AlternatingFlips(n);
    EmptyTargetTellsEveryFlip(START, Alternating(n));
    AllFlipsAreTold(NoKey, Alternating(n));
    forall i | 0 <= i < n ensures Notices(START, Alternating(n))[i] == if i % 2 == 0 then Urgent else Soft {
      AlternatingIs(n, i);
    }
  }

  /** One notice per tier, from every state, exactly for targets that are a plate. */
  lemma OneNoticePerTierIff(plate: Plate)
    ensures (forall s, fs :: OnePlate(fs, plate) ==> OnePerTier(Notices(s, fs))) <==> plate != ""
  {
    if plate != "" {
      forall s, fs | OnePlate(fs, plate) ensures OnePerTier(Notices(s, fs)) {
        OneNoticePerTier(s, fs, plate);
      }
    } else {
      EmptyTargetHasNoBound(3);
      assert |Notices(START, Alternating(3))| == 3;
    }
  }

  // ---- failures of any plates ----

  /** In an open episode that told some plate, exactly what is told next, of whatever plate:
      an urgent failure unless an urgent notice is on record for the last plate told, a soft
      one if the council is not down and it is about another plate; and neither if it is the
      very last outcome delivered. */
  lemma OpenEpisodeTellsIff(s: State, f: Failure)
    requires s.told != ""
    ensures f.tier.Urgent? ==> (Sends(s, f) <==> !s.urgent && s.key != FailKey(f.plate, Urgent))
    ensures f.tier.Soft? ==>
              (Sends(s, f) <==> !f.councilDown && !SamePlate(s.told, f.plate) && s.key != FailKey(f.plate, Soft))
  {
  }

  /** A delivered notice is what the episode and the key then say; one that could not be
      delivered leaves the failure to be told. */
  lemma DeliveredIsRecorded(s: State, f: Failure)
    requires Sends(s, f)
    ensures AfterFailure(s, f, true).told == f.plate && AfterFailure(s, f, true).key == FailKey(f.plate, f.tier)
    ensures f.tier.Urgent? ==> AfterFailure(s, f, true).urgent
    ensures s.told != "" && f.tier.Soft? && !SamePlate(s.told, f.plate) ==> !AfterFailure(s, f, true).urgent
    ensures Sends(AfterFailure(s, f, false), f) && AfterFailure(s, f, false).key == s.key
  {
  }

  predicate AllPlates(fs: seq<(Failure, bool)>) {
    forall i :: 0 <= i < |fs| ==> fs[i].0.plate != ""
  }

  /** Nothing urgent is on record. */
  predicate Calm(s: State) {
    !s.urgent && !SaysUrgent(s.key)
  }

  lemma CalmTellsUrgently(s: State, f: Failure, reached: bool)
    requires Calm(s) && f.plate != ""
    ensures f.tier.Urgent? ==> Sends(s, f)
    ensures f.tier.Soft? || !reached ==> Calm(AfterFailure(s, f, reached))
  {
  }

  /** However the target moves from plate to plate, an urgent notice has gone out if and only
      if some urgent failure could be delivered. */
  lemma {:induction false} UrgentIsNeverSwallowed(s: State, fs: seq<(Failure, bool)>)
    requires Calm(s) && AllPlates(fs)
    ensures Urgent in Notices(s, fs) <==> SomeDeliverable(fs, true)
    ensures Urgent !in Notices(s, fs) ==> Calm(After(s, fs))
    decreases |fs|
  {
    if fs != [] {
      var n := |fs| - 1;
      var front, last := fs[..n], fs[n];
      assert AllPlates(front) by {
        assert forall i :: 0 <= i < n ==> front[i] == fs[i];
      }
      UrgentIsNeverSwallowed(s, front);
      if Urgent !in Notices(s, front) {
        CalmTellsUrgently(After(s, front), last.0, last.1);
      }
    }
  }

  // ---- the next episode ----

  /** After a close, a failure is told exactly when the last delivered key neither covers
      it, as a notice about that plate at this tier or above, nor is its own key. (Closing
      does not forget the key, and the next episode reads it back.) */
  lemma NextEpisodeTellsIff(s: State, f: Failure)
    ensures Sends(Closed(s), f) <==>
              && !(Covers(s.key, f.plate) && (f.tier.Soft? || SaysUrgent(s.key)))
              && s.key != FailKey(f.plate, f.tier)
  {
  }

  /** A close leaves an episode that says nothing, and the last delivered key as it was. */
  lemma ClosedIsBlank(s: State)
    ensures Closed(s).told == "" && Closed(s).key == s.key
    ensures s.told != "" ==> !Closed(s).urgent
  {
  }

  /** Closing re-arms both tiers for a plate if and only if the last delivered key is not
      about it. */
  lemma CloseRearmsIff(s: State, plate: Plate)
    requires plate != ""
    ensures Armed(Closed(s), plate) <==> !Covers(s.key, plate)
    ensures Armed(Closed(s), plate) <==> forall f: Failure :: f.plate == plate ==> Sends(Closed(s), f)
  {
    NextEpisodeTellsIff(s, Failure(plate, Soft, false));
    forall f: Failure | f.plate == plate && Armed(Closed(s), plate) ensures Sends(Closed(s), f) {
      NextEpisodeTellsIff(s, f);
    }
  }

  /** The news of an applied change, once delivered, re-arms every plate. */
  lemma AppliedRearms(s: State, id: string, plate: Plate)
    ensures Armed(Applied(s, id, true), plate)
  {
  }

  /** Drift clears the key; so does that, once the episode is closed. */
  lemma DriftRearms(s: State, plate: Plate)
    ensures Armed(Closed(s.(key := NoKey)), plate)
  {
  }

  /** The close-out notice of a change that never landed does not: it is itself read back as
      a soft failure. So the plate's next episode, however it goes, is told by the urgent
      notice alone, once one can be delivered, and otherwise not at all. */
  lemma SettledUnappliedStaysSoftlyTold(s: State, plate: Plate, day: int, fs: seq<(Failure, bool)>)
    requires plate != "" && OnePlate(fs, plate)
    ensures var next := SettledUnapplied(s, plate, day, true);
            && Notices(next, fs) == (if SomeDeliverable(fs, true) then [Urgent] else [])
            && !Armed(next, plate)
            && forall f: Failure :: SamePlate(f.plate, plate) ==> (Sends(next, f) <==> f.tier.Urgent?)
  {
    var closing := Notified(s, UnappliedKey(plate, day), true);
    CoveredTellsOnlyUrgently(Closed(closing), fs, plate);
    forall f: Failure | SamePlate(f.plate, plate) ensures Sends(Closed(closing), f) <==> f.tier.Urgent? {
      NextEpisodeTellsIff(closing, f);
    }
  }

  /** Told once, closed without a word, failing again: the household hears nothing. */
  lemma ClosedInSilenceStaysSilent(plate: Plate)
    ensures var f := Failure(plate, Soft, false);
            var told := AfterFailure(START, f, true);
            && Sends(START, f)
            && told == State(plate, false, FailKey(plate, Soft))
            && !Sends(Closed(told), f)
  {
  }

  // ---- several plates ----

  /** Within an episode a plate is told softly again only if some other plate was told in
      between: the columns remember the last plate only. */
  lemma {:induction false} RetoldOnlyAfterAnother(s: State, fs: seq<(Failure, bool)>, plate: Plate)
    requires s.told != "" && SamePlate(s.told, plate)
    requires forall i :: 0 <= i < |fs| && !(fs[i].0.plate != "" && SamePlate(fs[i].0.plate, plate)) ==>
                           !(Sends(After(s, fs[..i]), fs[i].0) && fs[i].1)
    ensures After(s, fs).told != "" && SamePlate(After(s, fs).told, plate)
    ensures forall f: Failure :: SamePlate(f.plate, plate) && f.tier.Soft? ==> !Sends(After(s, fs), f)
    decreases |fs|
  {
    if fs != [] {
      var n := |fs| - 1;
      var front := fs[..n];
      assert forall i :: 0 <= i < n ==> front[..i] == fs[..i] && front[i] == fs[i];
      RetoldOnlyAfterAnother(s, front, plate);
      assert fs[..n] == front;
    }
  }

  /** And then it is: with the target going A, B, A, the household gets three soft notices,
      two of them about A. (The comment on notifyFailure promises one per target plate.) */
  lemma AlternatingPlatesAreRetold(a: Plate, b: Plate)
    requires a != "" && b != "" && !SamePlate(a, b)
    ensures var fa, fb := (Failure(a, Soft, false), true), (Failure(b, Soft, false), true);
            Notices(START, [fa, fb, fa]) == [Soft, Soft, Soft]
  {
    var fa, fb := (Failure(a, Soft, false), true), (Failure(b, Soft, false), true);
    assert [fa, fb, fa][..2] == [fa, fb] && [fa, fb][..1] == [fa] && [fa][..0] == [];
    assert Notices(START, [fa]) == [Soft];
    assert After(START, [fa]) == State(a, false, FailKey(a, Soft));
    assert After(START, [fa, fb]) == State(b, false, FailKey(b, Soft));
    assert Notices(START, [fa, fb]) == [Soft, Soft];
  }

  /** During an outage the plate is incidental: once a plate was told, no soft notice
      follows whatever is due, and after an urgent one nothing does. */
  lemma OutageIsToldOnce(s: State, f: Failure)
    requires s.told != ""
    ensures f.councilDown && f.tier.Soft? ==> !Sends(s, f)
    ensures f.tier.Urgent? && s.urgent ==> !Sends(s, f)
  {
  }
}
