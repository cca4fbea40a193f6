/** The per-minute traffic counter (rollingCounter in internal/parking/metrics.go): a
    ring of minute buckets that never sweeps, read back by summing the buckets whose
    minute is inside the window. `log` is the full event log it summarises, by minute. */
module RollingCounter {
  import opened Arithmetic

  datatype Bucket = Bucket(epoch: int, n: int)

  function Add(bs: seq<Bucket>, m: int): seq<Bucket>
    requires |bs| > 0
  {
    var i := m % |bs|;
    bs[i := Bucket(m, (if bs[i].epoch == m then bs[i].n else 0) + 1)]
  }

  function Sum(bs: seq<Bucket>, m: int, minutes: int, k: nat): int
    requires k <= |bs|
  {
    if k == 0 then 0
    else Sum(bs, m, minutes, k - 1) + (if m - minutes < bs[k - 1].epoch <= m then bs[k - 1].n else 0)
  }

  // ---- what the ring keeps of the log ----

  /** Event k is still counted: nothing later took its slot for another minute. */
  predicate Kept(log: seq<int>, size: int, k: nat)
    requires size > 0 && k < |log|
  {
    forall j :: k < j < |log| && log[j] % size == log[k] % size ==> log[j] == log[k]
  }

  /** The kept events of one slot. */
  ghost function InSlot(log: seq<int>, size: int, i: int): set<nat>
    requires size > 0
  {
    set k: nat | k < |log| && Kept(log, size, k) && log[k] % size == i
  }

  /** The kept events in (lo, hi] of the first n slots. */
  ghost function InSlots(log: seq<int>, size: int, lo: int, hi: int, n: int): set<nat>
    requires size > 0
  {
    set k: nat | k < |log| && Kept(log, size, k) && lo < log[k] <= hi && log[k] % size < n
  }

  ghost function KeptIn(log: seq<int>, size: int, lo: int, hi: int): set<nat>
    requires size > 0
  {
    set k: nat | k < |log| && Kept(log, size, k) && lo < log[k] <= hi
  }

  ghost function LoggedIn(log: seq<int>, lo: int, hi: int): set<nat> {
    set k: nat | k < |log| && lo < log[k] <= hi
  }

  /** Slot i counts its kept events, and they are all of the minute it is tagged with. */
  ghost predicate SlotTracks(b: Bucket, log: seq<int>, size: int, i: int)
    requires size > 0
  {
    && b.n == |InSlot(log, size, i)|
    && forall k :: k in InSlot(log, size, i) ==> log[k] == b.epoch
  }

  ghost predicate Tracks(bs: seq<Bucket>, log: seq<int>) {
    |bs| > 0 && forall i :: 0 <= i < |bs| ==> SlotTracks(bs[i], log, |bs|, i)
  }

  lemma EmptyTracks(size: nat)
    requires size > 0
    ensures Tracks(seq(size, _ => Bucket(0, 0)), [])
  {
    forall i | 0 <= i < size ensures SlotTracks(Bucket(0, 0), [], size, i) {
      assert InSlot([], size, i) == {};
    }
  }

  lemma KeptAfter(log: seq<int>, m: int, size: int, k: nat)
    requires size > 0 && k < |log|
    ensures Kept(log + [m], size, k) <==> Kept(log, size, k) && (m % size == log[k] % size ==> m == log[k])
  {
    var log1 := log + [m];
    assert log1[|log|] == m;
    assert Kept(log1, size, k) ==> forall j :: k < j < |log| ==> log1[j] == log[j];
  }

  /** What one more event, at minute m, makes of slot i. */
  lemma SlotAfter(log: seq<int>, m: int, size: int, i: int)
    requires size > 0
    ensures var was, now := InSlot(log, size, i), InSlot(log + [m], size, i);
            if m % size != i then now == was
            else now == (set k | k in was && log[k] == m) + {|log|}
  {
    var log1, last: nat := log + [m], |log|;
    assert Kept(log1, size, last);
    forall k: nat | k < last
      ensures k in InSlot(log1, size, i) <==> k in InSlot(log, size, i) && (m % size == i ==> log[k] == m)
    {
      KeptAfter(log, m, size, k);
    }
  }

  lemma SlotStaysTracked(b: Bucket, log: seq<int>, m: int, size: int, i: int)
    requires size > 0 && SlotTracks(b, log, size, i)
    ensures SlotTracks(if m % size == i then Bucket(m, (if b.epoch == m then b.n else 0) + 1) else b, log + [m], size, i)
  {
    SlotAfter(log, m, size, i);
    var was := InSlot(log, size, i);
    if m % size == i {
      assert (set k | k in was && log[k] == m) == if b.epoch == m then was else {};
    }
  }

  /** Recording any minute, however late, keeps ring and log in step. */
  lemma AddTracks(bs: seq<Bucket>, log: seq<int>, m: int)
    requires Tracks(bs, log)
    ensures Tracks(Add(bs, m), log + [m])
  {
    forall i | 0 <= i < |bs| ensures SlotTracks(Add(bs, m)[i], log + [m], |bs|, i) {
      SlotStaysTracked(bs[i], log, m, |bs|, i);
    }
  }

  /** The ring after recording every minute of a log, from an empty ring. */
  function RecordAll(size: nat, log: seq<int>): (bs: seq<Bucket>)
    requires size > 0
    ensures |bs| == size
  {
    if log == [] then seq(size, _ => Bucket(0, 0))
    else Add(RecordAll(size, log[..|log| - 1]), log[|log| - 1])
  }

  /** On any run at all the ring counts what it keeps. */
  lemma {:induction false} RunTracks(size: nat, log: seq<int>)
    requires size > 0
    ensures Tracks(RecordAll(size, log), log)
    decreases |log|
  {
    if log == [] {
      EmptyTracks(size);
    } else {
      var front, m := log[..|log| - 1], log[|log| - 1];
      RunTracks(size, front);
      AddTracks(RecordAll(size, front), front, m);
      assert front + [m] == log;
    }
  }

  /** Slot i adds its own kept events, all or none of which are in the window. */
  lemma OneMoreSlot(b: Bucket, log: seq<int>, size: int, lo: int, hi: int, i: int)
    requires size > 0 && SlotTracks(b, log, size, i)
    ensures InSlots(log, size, lo, hi, i) !! InSlot(log, size, i)
    ensures InSlots(log, size, lo, hi, i + 1)
            == InSlots(log, size, lo, hi, i) + if lo < b.epoch <= hi then InSlot(log, size, i) else {}
  {
  }

  lemma OneMoreSlotCounts(b: Bucket, log: seq<int>, size: int, lo: int, hi: int, i: int)
    requires size > 0 && SlotTracks(b, log, size, i)
    ensures |InSlots(log, size, lo, hi, i + 1)|
            == |InSlots(log, size, lo, hi, i)| + if lo < b.epoch <= hi then b.n else 0
  {
    OneMoreSlot(b, log, size, lo, hi, i);
  }

  lemma {:induction false} SumIsKept(bs: seq<Bucket>, log: seq<int>, m: int, minutes: int, n: nat)
    requires Tracks(bs, log) && n <= |bs|
    ensures Sum(bs, m, minutes, n) == |InSlots(log, |bs|, m - minutes, m, n)|
    decreases n
  {
    if n == 0 {
      assert InSlots(log, |bs|, m - minutes, m, 0) == {};
    } else {
      SumIsKept(bs, log, m, minutes, n - 1);
      assert SlotTracks(bs[n - 1], log, |bs|, n - 1);
      OneMoreSlotCounts(bs[n - 1], log, |bs|, m - minutes, m, n - 1);
    }
  }

  class Counter {
    const buckets: array<Bucket>

    constructor (minutes: nat)
      requires minutes > 0
      ensures fresh(buckets) && Tracks(buckets[..], [])
    {
      buckets := new Bucket[minutes](_ => Bucket(0, 0));
      new;
      EmptyTracks(minutes);
      assert buckets[..] == seq(minutes, _ => Bucket(0, 0));
    }

    /** m is a wall-clock minute. */
    method Record(m: int)
      requires buckets.Length > 0 && m >= 0
      modifies buckets
      ensures buckets[..] == Add(old(buckets[..]), m)
    {
      var i := m % buckets.Length;
      if buckets[i].epoch != m {
        buckets[i] := Bucket(m, 0);
      }
      buckets[i] := Bucket(buckets[i].epoch, buckets[i].n + 1);
    }

    /** The sum is exactly the number of kept events of the window. */
    method Window(m: int, minutes: int, ghost log: seq<int>) returns (sum: int)
      requires Tracks(buckets[..], log)
      ensures sum == |KeptIn(log, buckets.Length, m - minutes, m)|
    {
      sum := 0;
      for i := 0 to buckets.Length
        invariant sum == Sum(buckets[..], m, minutes, i)
      {
        var e := buckets[i].epoch;
        if e <= m && e > m - minutes {
          sum := sum + buckets[i].n;
        }
      }
      SumIsKept(buckets[..], log, m, minutes, buckets.Length);
      assert InSlots(log, buckets.Length, m - minutes, m, buckets.Length)
             == KeptIn(log, buckets.Length, m - minutes, m);
    }
  }

  // ---- when it keeps everything ----

  lemma SameResidue(x: int, y: int, size: int)
    requires size > 0 && x % size == y % size && 0 <= y - x < size
    ensures x == y
  {
    assert y - x == size * (y / size - x / size);
    MulBeyond(size, y / size - x / size);
  }

  /** With a clock that has not gone back, and a window that fits the ring, nothing of the
      window is lost: the sum is the number of events logged in it. */
  lemma NothingLost(log: seq<int>, size: int, m: int, minutes: int)
    requires size > 0 && minutes <= size
    requires forall i, j :: 0 <= i < j < |log| ==> log[i] <= log[j]
    requires forall i :: 0 <= i < |log| ==> log[i] <= m
    ensures KeptIn(log, size, m - minutes, m) == LoggedIn(log, m - minutes, m)
  {
    forall k: nat | k < |log| && m - minutes < log[k] ensures Kept(log, size, k) {
      forall j | k < j < |log| && log[j] % size == log[k] % size ensures log[j] == log[k] {
        SameResidue(log[k], log[j], size);
      }
    }
  }

  /** Without either it can lose some: a window one minute longer than the ring misses the
      first of two events, and so does one read after the clock stepped back a full cycle. */
  lemma LongWindowForgets(size: nat)
    requires size > 0
    ensures KeptIn([0, size], size, -1, size) == {1} && LoggedIn([0, size], -1, size) == {0, 1}
    ensures KeptIn([size, 0], size, 0, size) == {} && LoggedIn([size, 0], 0, size) == {0}
  {
    assert 0 % size == size % size == 0;
    var up, back := [0, size], [size, 0];
    assert !Kept(up, size, 0) by {
      assert up[1] % size == up[0] % size && up[1] != up[0];
    }
    assert Kept(up, size, 1);
    assert !Kept(back, size, 0) by {
      assert back[1] % size == back[0] % size && back[1] != back[0];
    }
  }
}
