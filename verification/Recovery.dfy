/** The operations that race over one stored session, statement by statement, each with
    the rest of the system free to act between any two store calls: withSession, Link and
    Reconnect (internal/parking/parking.go), and recoverOrRetire
    (internal/scheduler/reconnect.go). The store may refuse any call. */
module Recovery {
  import opened Wrappers
  import opened Sessions

  /** One change of the stored row. */
  datatype Change = Change(was: Option<Row>, row: Option<Row>)

  /** The last three fields are history: the contents some operation has read; whether every
      link so far that made a fresh row gave it a seed above all generations read by then;
      and the changes made by the operation under study rather than by Others. */
  class Store {
    var row: Option<Row>
    var lastSeed: int
    var vers: nat
    ghost var seen: set<Row>
    ghost var seedsFresh: bool
    ghost var own: seq<Change>

    function View(): State
      reads this
    {
      State(row, lastSeed, vers)
    }

    /** While seeds are fresh the live row is past every content read, or is that content. */
    ghost predicate Valid()
      reads this
    {
      seedsFresh && row.Some? ==>
        forall a :: a in seen ==> a.gen <= row.value.gen && (a.gen == row.value.gen ==> a == row.value)
    }

    constructor ()
      ensures Valid() && View() == State(None, 0, 0) && seen == {} && seedsFresh && own == []
    {
      row, lastSeed, vers := None, 0, 0;
      seen, seedsFresh, own := {}, true, [];
    }

    method GetTenantSession(failed: bool) returns (found: Option<Row>)
      requires Valid()
      modifies this`seen
      ensures Valid() && old(seen) <= seen && (found.Some? ==> found.value in seen)
      ensures found == if failed then None else row
    {
      found := if failed then None else row;
      if found.Some? {
        seen := seen + {found.value};
      }
    }

    method NewSessionGeneration(clock: int) returns (seed: int)
      modifies this`lastSeed
      ensures View() == Drawn(old(View()), clock) && seed == Seed(old(View()), clock)
    {
      seed := clock;
      if seed <= lastSeed {
        seed := lastSeed + 1;
      }
      lastSeed := seed;
    }

    method SaveTenantSession(seed: int, password: bool)
      requires Valid()
      modifies this`row, this`vers, this`seedsFresh, this`own
      ensures Valid() && View() == Linked(old(View()), seed, password)
      ensures seedsFresh <==> old(seedsFresh) && (old(row).None? ==> forall a :: a in seen ==> a.gen < seed)
      ensures own == old(own) + [Change(old(row), row)]
    {
      ghost var was := row;
      seedsFresh := seedsFresh && (row.None? ==> forall a :: a in seen ==> a.gen < seed);
      row := Some(Row(if row.None? then seed else row.value.gen + 1, password, vers));
      vers := vers + 1;
      own := own + [Change(was, row)];
    }

    method Rewrite(password: bool)
      requires Valid() && row.Some?
      modifies this`row, this`vers, this`own
      ensures Valid() && View() == Rewritten(old(View()), password)
      ensures own == old(own) + [Change(old(row), row)]
    {
      ghost var was := row;
      row := Some(Row(row.value.gen + 1, password, vers));
      vers := vers + 1;
      own := own + [Change(was, row)];
    }

    method ClearTenantPassword()
      requires Valid()
      modifies this`row, this`vers, this`own
      ensures Valid() && View() == OptedOut(old(View()))
      ensures own == old(own) + if old(row).Some? then [Change(old(row), row)] else []
    {
      if row.Some? {
        Rewrite(false);
      }
    }

    method DeleteTenantSession()
      requires Valid()
      modifies this`row, this`own
      ensures Valid() && View() == Unlinked(old(View()))
      ensures own == old(own) + if old(row).Some? then [Change(old(row), None)] else []
    {
      own := own + if row.Some? then [Change(row, None)] else [];
      row := None;
    }

    method UpdateTenantCookie(gen: int, failed: bool) returns (landed: bool)
      requires Valid()
      modifies this`row, this`vers, this`own
      ensures Valid()
      ensures View() == if failed then old(View()) else Renewed(old(View()), gen)
      ensures landed <==> !failed && AtGen(old(View()), gen)
      ensures own == old(own) + if landed then [Change(old(row), row)] else []
    {
      landed := !failed && row.Some? && row.value.gen == gen;
      if landed {
        Rewrite(row.value.password);
      }
    }

    method SaveReconnectedSessionIfGen(gen: int, failed: bool) returns (saved: bool)
      requires Valid()
      modifies this`row, this`vers, this`own
      ensures Valid()
      ensures View() == if failed then old(View()) else Reconnected(old(View()), gen)
      ensures saved <==> !failed && AtGen(old(View()), gen)
      ensures own == old(own) + if saved then [Change(old(row), row)] else []
    {
      saved := !failed && row.Some? && row.value.gen == gen;
      if saved {
        Rewrite(true);
      }
    }

    method DeleteTenantSessionIfGen(gen: int, failed: bool) returns (deleted: bool)
      requires Valid()
      modifies this`row, this`own
      ensures Valid()
      ensures View() == if failed then old(View()) else Retired(old(View()), gen)
      ensures deleted <==> !failed && AtGen(old(View()), gen)
      ensures own == old(own) + if deleted then [Change(old(row), None)] else []
    {
      deleted := !failed && row.Some? && row.value.gen == gen;
      if deleted {
        own := own + [Change(row, None)];
        row := None;
      }
    }

    /** Everyone else: any number of seeds, links (each with a seed drawn at any time),
        opt-outs, unlinks, reads, renewals, reconnects and restarts. */
    method Others()
      requires Valid()
      modifies this
      ensures Valid() && old(seen) <= seen && (seedsFresh ==> old(seedsFresh)) && own == old(own)
    {
      var n: nat := *;
      while n > 0
        invariant Valid() && old(seen) <= seen && (seedsFresh ==> old(seedsFresh))
      {
        var which: int, number: int, flag: bool := *, *, *;
        if which == 0 {
          var seed := NewSessionGeneration(number);
        } else if which == 1 {
          SaveTenantSession(number, flag);
        } else if which == 2 {
          ClearTenantPassword();
        } else if which == 3 {
          DeleteTenantSession();
        } else if which == 4 {
          var found := GetTenantSession(flag);
        } else if which == 5 {
          var landed := UpdateTenantCookie(number, flag);
        } else if which == 6 {
          var saved := SaveReconnectedSessionIfGen(number, flag);
        } else {
          lastSeed := 0;
        }
        n := n - 1;
      }
      own := old(own);
    }
  }

  /** The one change from `before` to `own` is a save over `was`, counting its generation up. */
  ghost predicate Replaced(before: seq<Change>, own: seq<Change>, was: Row, password: bool) {
    && |own| == |before| + 1 && own[..|before|] == before
    && var change := own[|before|];
       && change.was == Some(was) && change.row.Some?
       && change.row.value.gen == was.gen + 1 && change.row.value.password == password
  }

  /** What a provider call came to: fine (and whether it rotated the session material),
      the session is dead, or anything else. */
  datatype Wire = Fine(rotated: bool) | Dead | Failing

  datatype OpError = Nil | NotLinked | Busy | Expired(gen: int) | Other

  /** What an operation meets: whether the row can be read, the owner is cooling down, the
      circuit is open or the material is unreadable, what the provider answers, and whether
      the store refuses the write. */
  datatype OpWorld = OpWorld(readFails: bool, cooling: bool, circuitOpen: bool, unreadable: bool,
                             wire: Wire, refused: bool)

  /** The provider was asked. */
  predicate Asked(w: OpWorld, loaded: Option<Row>) {
    loaded.Some? && !w.cooling && !w.circuitOpen && !w.unreadable
  }

  /** withSession: the row is read once; a failing operation writes nothing, so an expiry is
      tagged with the generation of the session it failed on, and every dead session is
      reported as one; a successful one replaces the row, once, and only at the generation
      that was read: with fresh seeds, only the very row. It does so whenever it rotated the
      material or must persist, the store accepts, and that generation still stands. */
  method WithSession(st: Store, persist: bool, w: OpWorld) returns (err: OpError, ghost loaded: Option<Row>)
    requires st.Valid()
    modifies st
    ensures st.Valid() && old(st.seen) <= st.seen && (loaded.Some? ==> loaded.value in st.seen && !w.readFails)
    ensures err.NotLinked? <==> loaded.None?
    ensures loaded.None? && !w.readFails ==> st.row.None?
    ensures err.Busy? <==> loaded.Some? && (w.cooling || w.circuitOpen)
    ensures err.Expired? <==> loaded.Some? && !w.cooling && !w.circuitOpen && (w.unreadable || w.wire.Dead?)
    ensures err.Expired? ==> err.gen == loaded.value.gen
    ensures err.Nil? <==> Asked(w, loaded) && w.wire.Fine? && ((w.wire.rotated || persist) ==> !w.refused)
    ensures st.own == old(st.own)
            || (err.Nil? && exists was: Row ::
                  && was.gen == loaded.value.gen && (st.seedsFresh ==> was == loaded.value)
                  && Replaced(old(st.own), st.own, was, was.password))
    ensures err.Nil? && (w.wire.rotated || persist) && st.own == old(st.own) ==> !AtGen(st.View(), loaded.value.gen)
    ensures err.Nil? && !w.wire.rotated && !persist ==> st.own == old(st.own)
  {
    st.Others();
    var found := st.GetTenantSession(w.readFails);
    loaded := found;
    if found.None? {
      return NotLinked, None;
    }
    var cs := found.value;
    if w.cooling || w.circuitOpen {
      return Busy, loaded;
    }
    if w.unreadable {
      return Expired(cs.gen), loaded;
    }
    st.Others();  // the provider call takes its time
    match w.wire {
      case Dead => return Expired(cs.gen), loaded;
      case Failing => return Other, loaded;
      case Fine(_) =>
    }
    if w.wire.rotated || persist {
      ghost var before := st.View();
      var landed := st.UpdateTenantCookie(cs.gen, w.refused);
      if landed {
        var was := before.row.value;
        assert st.own == old(st.own) + [Change(Some(was), Some(Row(was.gen + 1, was.password, before.vers)))];
        assert Replaced(old(st.own), st.own, was, was.password);
      }
      if w.refused {
        return Other, loaded;
      }
    }
    return Nil, loaded;
  }

  datatype LoginOutcome = SignedIn | Rejected | FormUnrecognised | LoginTransient

  datatype ReconnectError =
    | Recon | NotFound | NoSavedPassword | LoginRejected | LoginFormUnrecognised | Superseded | Transient

  /** What a reconnect meets: whether the row can be read and its password unsealed, how the
      sign-in ends, and whether the store refuses the save. */
  datatype LoginWorld = LoginWorld(readFails: bool, unreadable: bool, outcome: LoginOutcome, refused: bool)

  /** It got as far as signing in. */
  predicate TriedLogin(w: LoginWorld, read: Option<Row>) {
    !w.readFails && read.Some? && read.value.password && !w.unreadable
  }

  /** Reconnect and the non-interactive half of Link: sign in with the saved password and
      save only at the generation that was read, so with fresh seeds a link or an opt-out
      during the login is never overwritten. Recon is Go's nil error: a sign-in that the
      store accepts is lost only if that generation is gone. */
  method Reconnect(st: Store, w: LoginWorld) returns (err: ReconnectError, ghost read: Option<Row>)
    requires st.Valid()
    modifies st
    ensures st.Valid() && old(st.seen) <= st.seen && (st.seedsFresh ==> old(st.seedsFresh))
    ensures read.Some? ==> read.value in st.seen && !w.readFails
    ensures err.NotFound? <==> !w.readFails && read.None?
    ensures err.NotFound? ==> st.row.None?
    ensures err.NoSavedPassword? <==> read.Some? && (!read.value.password || w.unreadable)
    ensures err.LoginRejected? <==> TriedLogin(w, read) && w.outcome.Rejected?
    ensures err.LoginFormUnrecognised? <==> TriedLogin(w, read) && w.outcome.FormUnrecognised?
    ensures err.Transient? <==> w.readFails || (TriedLogin(w, read)
                                && (w.outcome.LoginTransient? || (w.outcome.SignedIn? && w.refused)))
    ensures err.Recon? || err.Superseded? <==> TriedLogin(w, read) && w.outcome.SignedIn? && !w.refused
    ensures err.Superseded? ==> !AtGen(st.View(), read.value.gen)
    ensures if err.Recon?
            then exists was: Row ::
                   && was.gen == read.value.gen && (st.seedsFresh ==> was == read.value)
                   && Replaced(old(st.own), st.own, was, true)
            else st.own == old(st.own)
  {
    st.Others();
    var found := st.GetTenantSession(w.readFails);
    read := found;
    if w.readFails {
      return Transient, None;
    }
    if found.None? {
      return NotFound, None;
    }
    var cs := found.value;
    if !cs.password {
      return NoSavedPassword, read;
    }
    if w.unreadable {
      return NoSavedPassword, read;
    }
    st.Others();  // the login takes its time
    match w.outcome {
      case Rejected => return LoginRejected, read;
      case FormUnrecognised => return LoginFormUnrecognised, read;
      case LoginTransient => return Transient, read;
      case SignedIn =>
    }
    ghost var before := st.View();
    var saved := st.SaveReconnectedSessionIfGen(cs.gen, w.refused);
    if w.refused {
      return Transient, read;
    }
    if !saved {
      return Superseded, read;
    }
    ghost var was := before.row.value;
    assert st.own == old(st.own) + [Change(Some(was), Some(Row(was.gen + 1, true, before.vers)))];
    assert Replaced(old(st.own), st.own, was, true);
    return Recon, read;
  }

  datatype ReconnectResult = Recovered | Retirement | Deferred

  /** recoverOrRetire for an expiry queued at generation gen, when the row read `failed`.
      Of its own doing it either renews a row, or deletes one at that generation (with fresh
      seeds, exactly the row that failed), or changes nothing; the re-link prompt goes out
      exactly when it deleted, and a deferral has changed nothing. `tried` is what the
      sign-in came to, if it got that far. A passing failure or an unrecognised form always
      keeps the work. A missing or rejected password ends it, unless the store refuses: the
      row at that generation is deleted and the household prompted, if it still stands. */
  method RecoverOrRetire(st: Store, gen: int, ghost failed: Row, readFails: bool, w: LoginWorld, refused: bool)
    returns (r: ReconnectResult, prompted: bool, ghost tried: Option<ReconnectError>, ghost read: Option<Row>)
    requires st.Valid() && failed in st.seen && failed.gen == gen
    modifies st
    ensures st.Valid() && old(st.seen) <= st.seen
    ensures if prompted
            then exists was: Row ::
                   && was.gen == gen && (st.seedsFresh ==> was == failed)
                   && st.own == old(st.own) + [Change(Some(was), None)]
            else if r.Recovered?
            then exists was: Row ::
                   && (st.seedsFresh ==> was in st.seen && was.password)
                   && Replaced(old(st.own), st.own, was, true)
            else st.own == old(st.own)
    ensures readFails ==> r.Deferred? && tried.None?
    ensures !readFails && tried.None? ==> r.Retirement? && !prompted && !AtGen(st.View(), gen)
    ensures read.Some? ==> read.value in st.seen
    ensures tried.Some? && !w.readFails && read.None? ==> tried == Some(NotFound) && st.row.None?
    ensures tried.Some? ==> (w.readFails ==> tried == Some(Transient))
                            && (TriedLogin(w, read) && w.outcome.Rejected? ==> tried == Some(LoginRejected))
                            && (TriedLogin(w, read) && w.outcome.FormUnrecognised? ==> tried == Some(LoginFormUnrecognised))
                            && (read.Some? && (!read.value.password || w.unreadable) ==> tried == Some(NoSavedPassword))
                            && (tried == Some(NoSavedPassword) ==> read.Some? && (!read.value.password || w.unreadable))
                            && (tried == Some(LoginRejected) ==> TriedLogin(w, read) && w.outcome.Rejected?)
    ensures r.Recovered? <==> tried == Some(Recon)
    ensures tried == Some(Superseded) ==> r.Retirement? && !prompted
    ensures tried.Some? && tried.value in {LoginFormUnrecognised, NotFound, Transient} ==> r.Deferred?
    ensures tried.Some? && tried.value in {NoSavedPassword, LoginRejected} ==>
              if refused then r.Deferred? else r.Retirement? && (prompted || !AtGen(st.View(), gen))
    ensures prompted ==> !refused && r.Retirement? && tried.Some? && tried.value in {NoSavedPassword, LoginRejected}
  {
    st.Others();
    var found := st.GetTenantSession(readFails);
    if readFails {
      return Deferred, false, None, None;
    }
    if found.None? {
      return Retirement, false, None, None;
    }
    if found.value.gen != gen {
      return Retirement, false, None, None;
    }
    var rerr, found' := Reconnect(st, w);
    match rerr {
      case Recon => return Recovered, false, Some(rerr), found';
      case Superseded => return Retirement, false, Some(rerr), found';
      case NoSavedPassword =>
      case LoginRejected =>
      case LoginFormUnrecognised => return Deferred, false, Some(rerr), found';
      case NotFound => return Deferred, false, Some(rerr), found';
      case Transient => return Deferred, false, Some(rerr), found';
    }
    st.Others();
    ghost var before := st.row;
    var gone := st.DeleteTenantSessionIfGen(gen, refused);
    if refused {
      return Deferred, false, Some(rerr), found';
    }
    if !gone {
      return Retirement, false, Some(rerr), found';
    }
    assert st.own == old(st.own) + [Change(Some(before.value), None)];
    return Retirement, true, Some(rerr), found';
  }
}
