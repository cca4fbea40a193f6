/** The cached council readings (ForgetPermit, regGeneration and storeRegIfCurrent in
    internal/parking/parking.go). A read or write captures its key's generation before it
    talks to the council and may store its plate only if the generation still stands;
    forgetting a permit bumps the generation and then, as a second step, drops the entry. */
module PlateCache {
  datatype Key = Key(owner: string, permit: string)

  /** reg is the reading; captured is the step at which its operation took its generation. */
  datatype Entry = Entry(reg: string, captured: nat)

  datatype State = State(gens: map<Key, nat>, cache: map<Key, Entry>)

  /** An absent generation reads as zero. */
  function GenOf(gens: map<Key, nat>, key: Key): nat {
    if key in gens then gens[key] else 0
  }

  /** What a store does whose operation took generation gen at step captured. */
  function Stored(s: State, key: Key, gen: nat, captured: nat, reg: string): State {
    if GenOf(s.gens, key) == gen then s.(cache := s.cache[key := Entry(reg, captured)]) else s
  }

  function Bumped(s: State, key: Key): State {
    s.(gens := s.gens[key := GenOf(s.gens, key) + 1])
  }

  function Dropped(s: State, key: Key): State {
    s.(cache := s.cache - {key})
  }

  class Cache {
    var regGen: map<Key, nat>
    var regCache: map<Key, string>
    ghost var capturedAt: map<Key, nat>  // history: when each entry's generation was taken

    ghost predicate Valid()
      reads this
    {
      regCache.Keys == capturedAt.Keys
    }

    ghost function View(): State
      reads this
      requires Valid()
    {
      State(regGen, map key | key in regCache :: Entry(regCache[key], capturedAt[key]))
    }

    constructor ()
      ensures Valid() && View() == State(map[], map[])
    {
      regGen, regCache, capturedAt := map[], map[], map[];
    }

    method RegGeneration(key: Key) returns (gen: nat)
      ensures gen == GenOf(regGen, key)
    {
      gen := if key in regGen then regGen[key] else 0;
    }

    method StoreRegIfCurrent(key: Key, gen: nat, reg: string, ghost captured: nat)
      requires Valid()
      modifies this`regCache, this`capturedAt
      ensures Valid() && View() == Stored(old(View()), key, gen, captured, reg)
    {
      var cur := RegGeneration(key);
      if cur != gen {
        return;
      }
      regCache := regCache[key := reg];
      capturedAt := capturedAt[key := captured];
    }

    /** The locked half of ForgetPermit. */
    method Bump(key: Key)
      requires Valid()
      modifies this`regGen
      ensures Valid() && View() == Bumped(old(View()), key)
    {
      var cur := RegGeneration(key);
      regGen := regGen[key := cur + 1];
    }

    method ForgetPermit(key: Key)
      requires Valid()
      modifies this
      ensures Valid() && View() == Dropped(Bumped(old(View()), key), key)
    {
      Bump(key);
      regCache := regCache - {key};
      capturedAt := capturedAt - {key};
    }
  }

  // ---- interleavings ----

  /** Stores name the step that captured their generation, drops the step that bumped. */
  datatype Event =
    | Capture(key: Key)
    | Store(captured: nat, reg: string)
    | Bump(key: Key)
    | Drop(bumped: nat)

  predicate WellFormed(es: seq<Event>) {
    forall i :: 0 <= i < |es| ==>
      && (es[i].Store? ==> es[i].captured < i && es[es[i].captured].Capture?)
      && (es[i].Drop? ==> es[i].bumped < i && es[es[i].bumped].Bump?)
  }

  ghost predicate Step(es: seq<Event>, ss: seq<State>, i: nat)
    requires WellFormed(es) && |ss| == |es| + 1 && i < |es|
  {
    var s := ss[i];
    ss[i + 1] == match es[i]
                 case Capture(_) => s
                 case Store(c, reg) => Stored(s, es[c].key, GenOf(ss[c].gens, es[c].key), c, reg)
                 case Bump(key) => Bumped(s, key)
                 case Drop(b) => Dropped(s, es[b].key)
  }

  ghost predicate Run(es: seq<Event>, ss: seq<State>) {
    && WellFormed(es) && |ss| == |es| + 1 && ss[0] == State(map[], map[])
    && forall i: nat :: i < |es| ==> Step(es, ss, i)
  }

  predicate BumpsAt(es: seq<Event>, m: nat, key: Key)
    requires m < |es|
  {
    es[m] == Bump(key)
  }

  lemma {:induction false} GenerationsRise(es: seq<Event>, ss: seq<State>, i: nat, j: nat, key: Key)
    requires Run(es, ss) && i <= j <= |es|
    ensures GenOf(ss[i].gens, key) <= GenOf(ss[j].gens, key)
    ensures GenOf(ss[i].gens, key) == GenOf(ss[j].gens, key)
            <==> forall m: nat :: i <= m < j ==> !BumpsAt(es, m, key)
    decreases j
  {
    if i < j {
      GenerationsRise(es, ss, i, j - 1, key);
      var last: nat := j - 1;
      assert Step(es, ss, last);
      assert (forall m: nat :: i <= m < j ==> !BumpsAt(es, m, key))
             <==> (forall m: nat :: i <= m < last ==> !BumpsAt(es, m, key)) && !BumpsAt(es, last, key);
    }
  }

  /** A store lands exactly when its key was not forgotten since it captured. */
  lemma StoreLandsIffNotForgotten(es: seq<Event>, ss: seq<State>, i: nat)
    requires Run(es, ss) && i < |es| && es[i].Store?
    ensures var c, key := es[i].captured, es[es[i].captured].key;
            ss[i + 1].cache == if forall m: nat :: c <= m < i ==> !BumpsAt(es, m, key)
                               then ss[i].cache[key := Entry(es[i].reg, c)] else ss[i].cache
  {
    assert Step(es, ss, i);
    GenerationsRise(es, ss, es[i].captured, i, es[es[i].captured].key);
  }

  /** Once a forget has returned (bump at step b, drop at step d), whatever the cache
      holds for its key at any later time was put there by an operation that captured
      its generation after the bump: nothing in flight resurrects a forgotten plate. */
  lemma {:induction false} ForgottenStaysForgotten(es: seq<Event>, ss: seq<State>, d: nat, n: nat)
    requires Run(es, ss) && d < n <= |es| && es[d].Drop?
    ensures var b := es[d].bumped;
            var key := es[b].key;
            key in ss[n].cache ==> ss[n].cache[key].captured > b
    decreases n
  {
    var b := es[d].bumped;
    var key := es[b].key;
    assert Step(es, ss, n - 1);
    if d < n - 1 {
      ForgottenStaysForgotten(es, ss, d, n - 1);
      var e := es[n - 1];
      if e.Store? && es[e.captured].key == key {
        StoreLandsIffNotForgotten(es, ss, n - 1);
        assert BumpsAt(es, b, key);
      }
    }
  }

  /** Forgetting one permit touches no other's entry or generation, and a store only its own. */
  lemma OthersAreUntouched(es: seq<Event>, ss: seq<State>, i: nat, key: Key)
    requires Run(es, ss) && i < |es|
    requires match es[i]
             case Capture(_) => true
             case Store(c, _) => es[c].key != key
             case Bump(k) => k != key
             case Drop(b) => es[b].key != key
    ensures GenOf(ss[i + 1].gens, key) == GenOf(ss[i].gens, key)
    ensures (key in ss[i + 1].cache) == (key in ss[i].cache)
    ensures key in ss[i].cache ==> ss[i + 1].cache[key] == ss[i].cache[key]
  {
    assert Step(es, ss, i);
  }
}
