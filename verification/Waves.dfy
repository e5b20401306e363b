/**
 Dependency-ordered flushing of a batch of blob images: which entries a sequence
 of waves flushes, and the counters kept beside it.
 */
module Waves {
  import opened BlobStore

  /** One blob image to write, for the epoch it was drained in. */
  datatype Entry = Entry(epoch: nat, guid: Guid, seqno: nat, image: Image)

  function GuidsOf(entries: seq<Entry>, at: set<nat>): set<Guid> { set i | i in at && i < |entries| :: entries[i].guid }

  // ---------- least fixpoint ----------

  /** Every child is settled outside the batch or has an entry in `done`. */
  predicate Ready(entries: seq<Entry>, settled: set<Guid>, done: set<nat>, i: nat)
    requires i < |entries|
  {
    forall c :: c in entries[i].image.children ==> c in settled || c in GuidsOf(entries, done)
  }

  predicate Saturated(entries: seq<Entry>, settled: set<Guid>, done: set<nat>) {
    forall i :: 0 <= i < |entries| && Ready(entries, settled, done, i) ==> i in done
  }

  /** The least set of entries closed under readiness. */
  ghost predicate LeastSaturated(entries: seq<Entry>, settled: set<Guid>, done: set<nat>) {
    && done <= Indices(|entries|)
    && Saturated(entries, settled, done)
    && Within(entries, settled, done)
  }

  ghost predicate Within(entries: seq<Entry>, settled: set<Guid>, done: set<nat>) {
    forall other: set<nat> :: Saturated(entries, settled, other) ==> done <= other
  }

  lemma WithinGrows(entries: seq<Entry>, settled: set<Guid>, done: set<nat>, wave: set<nat>)
    requires Within(entries, settled, done)
    requires forall i :: i in wave ==> i < |entries| && Ready(entries, settled, done, i)
    ensures Within(entries, settled, done + wave)
  {
    forall other: set<nat> | Saturated(entries, settled, other) ensures done + wave <= other {
      assert done <= other;
      assert GuidsOf(entries, done) <= GuidsOf(entries, other);
      forall i | i in wave ensures i in other { assert Ready(entries, settled, other, i); }
    }
  }

  /** Children come before parents in some ranking: everything is flushed. */
  lemma AcyclicDrains(entries: seq<Entry>, settled: set<Guid>, done: set<nat>, rank: Guid -> nat, i: nat)
    requires Saturated(entries, settled, done) && i < |entries|
    requires forall j, c :: 0 <= j < |entries| && c in entries[j].image.children && c !in settled ==>
      rank(c) < rank(entries[j].guid) && exists k :: 0 <= k < |entries| && entries[k].guid == c
    ensures i in done
    decreases rank(entries[i].guid)
  {
    forall c | c in entries[i].image.children && c !in settled ensures c in GuidsOf(entries, done) {
      var k :| 0 <= k < |entries| && entries[k].guid == c;
      AcyclicDrains(entries, settled, done, rank, k);
    }
    assert Ready(entries, settled, done, i);
  }

  /** Every member waits for a child that is not settled and has no entry outside the set. */
  predicate Blocked(entries: seq<Entry>, settled: set<Guid>, stuck: set<nat>) {
    && stuck <= Indices(|entries|)
    && forall i :: i in stuck ==>
         i < |entries| && exists c :: c in entries[i].image.children && c !in settled && OnlyIn(entries, stuck, c)
  }

  predicate OnlyIn(entries: seq<Entry>, stuck: set<nat>, c: Guid) {
    forall j :: 0 <= j < |entries| && entries[j].guid == c ==> j in stuck
  }

  lemma RestIsBlocked(entries: seq<Entry>, settled: set<Guid>, done: set<nat>)
    requires Saturated(entries, settled, done)
    ensures Blocked(entries, settled, Indices(|entries|) - done)
  {
    var stuck := Indices(|entries|) - done;
    forall i | i in stuck
      ensures i < |entries| && exists c :: c in entries[i].image.children && c !in settled && OnlyIn(entries, stuck, c)
    {
      assert !Ready(entries, settled, done, i);
      var c :| c in entries[i].image.children && c !in settled && c !in GuidsOf(entries, done);
      assert OnlyIn(entries, stuck, c);
    }
  }

  /** What the least fixpoint leaves out is exactly what is blocked. */
  lemma DeferredExactly(entries: seq<Entry>, settled: set<Guid>, done: set<nat>, i: nat)
    requires LeastSaturated(entries, settled, done) && i < |entries|
    ensures i !in done <==> exists stuck: set<nat> :: Blocked(entries, settled, stuck) && i in stuck
  {
    var rest := Indices(|entries|) - done;
    RestIsBlocked(entries, settled, done);
    assert i !in done ==> Blocked(entries, settled, rest) && i in rest;
    forall stuck: set<nat> | Blocked(entries, settled, stuck) && i in stuck ensures i !in done {
      BlockedStays(entries, settled, done, stuck);
    }
  }

  lemma BlockedStays(entries: seq<Entry>, settled: set<Guid>, done: set<nat>, stuck: set<nat>)
    requires LeastSaturated(entries, settled, done) && Blocked(entries, settled, stuck)
    ensures done !! stuck
  {
    var free := Indices(|entries|) - stuck;
    forall i | i in stuck ensures i < |entries| && !Ready(entries, settled, free, i) {
      var c :| c in entries[i].image.children && c !in settled && OnlyIn(entries, stuck, c);
      assert c !in GuidsOf(entries, free);
    }
    assert Saturated(entries, settled, free);
  }

  // ---------- why an entry is left out ----------

  /** An unsettled child of entry `i` has entry `j`. */
  predicate Waits(entries: seq<Entry>, settled: set<Guid>, i: nat, j: nat)
    requires i < |entries| && j < |entries|
  {
    entries[j].guid in entries[i].image.children && entries[j].guid !in settled
  }

  /** An unsettled child of entry `i` has no entry at all. */
  predicate Missing(entries: seq<Entry>, settled: set<Guid>, i: nat)
    requires i < |entries|
  {
    exists c :: c in entries[i].image.children && c !in settled && OnlyIn(entries, {}, c)
  }

  /** Each entry of the path waits for the next. */
  predicate Path(entries: seq<Entry>, settled: set<Guid>, path: seq<nat>) {
    && path != [] && (forall k :: 0 <= k < |path| ==> path[k] < |entries|)
    && forall k :: 0 <= k < |path| - 1 ==> Waits(entries, settled, path[k], path[k + 1])
  }

  /** The path runs into a child that is nowhere, or into itself. */
  predicate Hopeless(entries: seq<Entry>, settled: set<Guid>, path: seq<nat>) {
    && Path(entries, settled, path)
    && var n := |path| - 1;
       Missing(entries, settled, path[n]) || path[n] in path[..n]
  }

  predicate Distinct(path: seq<nat>) { forall j, k :: 0 <= j < k < |path| ==> path[j] != path[k] }

  lemma {:induction false} DistinctFits(path: seq<nat>, n: nat)
    requires Distinct(path) && forall k :: 0 <= k < |path| ==> path[k] < n
    ensures |path| <= n
    decreases n
  {
    if path != [] {
      assert path[0] < n;
      if k :| 0 <= k < |path| && path[k] == n - 1 {
        DistinctFits(path[..k] + path[k + 1..], n - 1);
      } else {
        DistinctFits(path, n - 1);
      }
    }
  }

  /** A path of entries that are left out goes on until it is hopeless. */
  lemma {:induction false} Trace(entries: seq<Entry>, settled: set<Guid>, done: set<nat>, path: seq<nat>)
    returns (full: seq<nat>)
    requires Saturated(entries, settled, done) && Path(entries, settled, path) && Distinct(path)
    requires forall k :: 0 <= k < |path| ==> path[k] !in done
    ensures Hopeless(entries, settled, full) && path <= full
    decreases |entries| - |path|
  {
    hide Missing;
    DistinctFits(path, |entries|);
    var i := path[|path| - 1];
    assert !Ready(entries, settled, done, i);
    var c :| c in entries[i].image.children && c !in settled && c !in GuidsOf(entries, done);
    if j :| 0 <= j < |entries| && entries[j].guid == c {
      full := path + [j];
      if j in path {
        assert full[..|path|] == path;
      } else {
        DistinctFits(full, |entries|);
        full := Trace(entries, settled, done, full);
      }
    } else {
      full := path;
      NowhereIsMissing(entries, settled, i, c);
    }
  }

  lemma NowhereIsMissing(entries: seq<Entry>, settled: set<Guid>, i: nat, c: Guid)
    requires i < |entries| && c in entries[i].image.children && c !in settled
    requires forall j :: 0 <= j < |entries| ==> entries[j].guid != c
    ensures Missing(entries, settled, i)
  {
    assert OnlyIn(entries, {}, c);
  }

  /** An entry is left out only if it hangs on a cycle of unflushed images or on a child that is
      neither in the store nor in the batch. */
  lemma DeferredCause(entries: seq<Entry>, settled: set<Guid>, done: set<nat>, i: nat) returns (path: seq<nat>)
    requires Saturated(entries, settled, done) && i < |entries| && i !in done
    ensures Hopeless(entries, settled, path) && path[0] == i
  {
    path := Trace(entries, settled, done, [i]);
  }

  predicate OncePerGuid(entries: seq<Entry>) {
    forall j, k :: 0 <= j < |entries| && 0 <= k < |entries| && entries[j].guid == entries[k].guid ==> j == k
  }

  function OnPath(path: seq<nat>): set<nat> { set k | 0 <= k < |path| :: path[k] }

  lemma HopelessBlocks(entries: seq<Entry>, settled: set<Guid>, path: seq<nat>)
    requires OncePerGuid(entries) && Hopeless(entries, settled, path)
    ensures Blocked(entries, settled, OnPath(path))
  {
    var stuck, n := OnPath(path), |path| - 1;
    forall i | i in stuck
      ensures i < |entries| && exists c :: c in entries[i].image.children && c !in settled && OnlyIn(entries, stuck, c)
    {
      var k :| 0 <= k < |path| && path[k] == i && (k < n || Missing(entries, settled, path[n]));
      if k < n {
        assert Waits(entries, settled, path[k], path[k + 1]) && path[k + 1] in stuck;
        assert OnlyIn(entries, stuck, entries[path[k + 1]].guid);
      } else {
        var c :| c in entries[i].image.children && c !in settled && OnlyIn(entries, {}, c);
        assert OnlyIn(entries, stuck, c);
      }
    }
  }

  /** With one image per blob, the entries left out are exactly those that hang on a cycle or on a
      child that is nowhere. With several, one image of the child may get through where another
      does not; then `DeferredExactly` is the condition. */
  lemma DeferredIffHopeless(entries: seq<Entry>, settled: set<Guid>, done: set<nat>, i: nat)
    requires LeastSaturated(entries, settled, done) && i < |entries| && OncePerGuid(entries)
    ensures i !in done <==> exists path :: Hopeless(entries, settled, path) && path[0] == i
  {
    hide Missing, LeastSaturated;
    if i !in done {
      LeastIsSaturated(entries, settled, done);
      var path := DeferredCause(entries, settled, done, i);
    }
    forall path | Hopeless(entries, settled, path) && path[0] == i ensures i !in done {
      HopelessBlocks(entries, settled, path);
      BlockedStays(entries, settled, done, OnPath(path));
      assert path[0] in OnPath(path);
    }
  }

  lemma LeastIsSaturated(entries: seq<Entry>, settled: set<Guid>, done: set<nat>)
    requires LeastSaturated(entries, settled, done)
    ensures Saturated(entries, settled, done)
  {
  }

  // ---------- waves with stale entries ----------

  /** The next wave: ready and not written yet. */
  function ReadyIn(entries: seq<Entry>, settled: set<Guid>, done: set<nat>): set<nat> {
    set i | i in Indices(|entries|) && i !in done && Ready(entries, settled, done, i)
  }

  lemma ReadyInside(entries: seq<Entry>, settled: set<Guid>, done: set<nat>)
    ensures var wave := ReadyIn(entries, settled, done);
            && wave <= Indices(|entries|) && wave !! done
            && (forall i :: i in wave ==> i < |entries| && Ready(entries, settled, done, i))
            && (wave == {} ==> Saturated(entries, settled, done))
            && (wave != {} ==> Indices(|entries|) - (done + wave) < Indices(|entries|) - done)
  {
    var wave := ReadyIn(entries, settled, done);
    assert forall i :: 0 <= i < |entries| && Ready(entries, settled, done, i) && i !in done ==> i in wave;
    if i :| i in wave { assert i in Indices(|entries|) - done; }
  }

  /** What undisturbed waves write, and what they find stale. */
  datatype Ran = Ran(flushed: set<nat>, stale: set<nat>)

  /** Wave after wave until none is left; a wave with a stale entry is the last. */
  function Run(entries: seq<Entry>, settled: set<Guid>, current: set<nat>, done: set<nat>): Ran
    decreases Indices(|entries|) - done
  {
    var wave := ReadyIn(entries, settled, done);
    if wave == {} then Ran(done, {})
    else if wave <= current then
      ReadyInside(entries, settled, done);
      Run(entries, settled, current, done + wave)
    else Ran(done + wave * current, wave - current)
  }

  lemma RunStep(entries: seq<Entry>, settled: set<Guid>, current: set<nat>, done: set<nat>)
    ensures var wave := ReadyIn(entries, settled, done);
            Run(entries, settled, current, done) ==
              if wave == {} then Ran(done, {})
              else if wave <= current then Run(entries, settled, current, done + wave)
              else Ran(done + wave * current, wave - current)
  {
  }

  lemma {:induction false} RunShape(entries: seq<Entry>, settled: set<Guid>, current: set<nat>, done: set<nat>)
    requires done <= Indices(|entries|) && done <= current && Within(entries, settled, done)
    ensures var ran := Run(entries, settled, current, done);
            && done <= ran.flushed <= Indices(|entries|) && ran.stale <= Indices(|entries|)
            && ran.flushed <= current && ran.stale !! current
            && Within(entries, settled, ran.flushed + ran.stale)
            && (ran.stale == {} ==> Saturated(entries, settled, ran.flushed))
    decreases Indices(|entries|) - done
  {
    hide Within, Ready, ReadyIn, Saturated, Indices;
    var wave := ReadyIn(entries, settled, done);
    ReadyInside(entries, settled, done);
    WithinGrows(entries, settled, done, wave);
    if wave == {} {
      assert done + {} == done;
    } else if wave <= current {
      RunShape(entries, settled, current, done + wave);
    } else {
      assert done + wave * current + (wave - current) == done + wave;
    }
  }

  /** Undisturbed waves meet a stale entry exactly when the least set closed under readiness holds
      one; otherwise that set is what they write. */
  lemma StaleIff(entries: seq<Entry>, settled: set<Guid>, current: set<nat>, least: set<nat>)
    requires LeastSaturated(entries, settled, least)
    ensures Run(entries, settled, current, {}).stale == {} <==> least <= current
    ensures least <= current ==> Run(entries, settled, current, {}).flushed == least
  {
    hide Run, Saturated;
    NothingWithin(entries, settled);
    RunShape(entries, settled, current, {});
    var ran := Run(entries, settled, current, {});
    assert ran.flushed + ran.stale <= least;
    if ran.stale == {} {
      assert least <= ran.flushed;
    } else {
      assert ran.stale <= least;
    }
  }

  /** Without a stale entry, the waves write the least set closed under readiness. */
  lemma RunIsLeast(entries: seq<Entry>, settled: set<Guid>, current: set<nat>)
    requires Run(entries, settled, current, {}).stale == {}
    ensures LeastSaturated(entries, settled, Run(entries, settled, current, {}).flushed)
  {
    hide Run, Saturated, Within;
    NothingWithin(entries, settled);
    RunShape(entries, settled, current, {});
    var flushed := Run(entries, settled, current, {}).flushed;
    assert flushed + {} == flushed;
  }

  lemma NothingWithin(entries: seq<Entry>, settled: set<Guid>)
    ensures Within(entries, settled, {})
  {
  }

  // ---------- counters ----------

  function At(entries: seq<Entry>, at: set<nat>, g: Guid): set<nat> {
    set i | i in at && i < |entries| && entries[i].guid == g
  }

  function AtEpoch(entries: seq<Entry>, at: set<nat>, e: nat): set<nat> {
    set i | i in at && i < |entries| && entries[i].epoch == e
  }

  function Count(entries: seq<Entry>, at: set<nat>, g: Guid): nat { |At(entries, at, g)| }

  datatype Progress = Progress(flushed: set<nat>, remaining: map<Guid, nat>, durableNow: set<Guid>, byEpoch: seq<nat>)

  function Unflushed(entries: seq<Entry>, p: Progress): set<nat> { Indices(|entries|) - p.flushed }

  /** The map holds, for every guid with an unflushed entry, how many there are. */
  ghost predicate Remaining(entries: seq<Entry>, at: set<nat>, remaining: map<Guid, nat>) {
    && (forall g :: g in remaining <==> Count(entries, at, g) > 0)
    && (forall g :: g in remaining ==> remaining[g] == Count(entries, at, g))
  }

  ghost predicate Tracks(entries: seq<Entry>, epochs: nat, p: Progress) {
    && p.flushed <= Indices(|entries|)
    && Remaining(entries, Unflushed(entries, p), p.remaining)
    && p.durableNow == GuidsOf(entries, p.flushed)
    && |p.byEpoch| == epochs
    && forall e :: 0 <= e < epochs ==> p.byEpoch[e] == |AtEpoch(entries, p.flushed, e)|
  }

  lemma CountWith(entries: seq<Entry>, at: set<nat>, i: nat, g: Guid)
    requires i < |entries| && i !in at
    ensures Count(entries, at + {i}, g) == Count(entries, at, g) + if entries[i].guid == g then 1 else 0
  {
    assert At(entries, at + {i}, g) == At(entries, at, g) + (if entries[i].guid == g then {i} else {});
  }

  lemma CountSplit(entries: seq<Entry>, a: set<nat>, b: set<nat>, g: Guid)
    requires a !! b
    ensures Count(entries, a + b, g) == Count(entries, a, g) + Count(entries, b, g)
  {
    assert At(entries, a + b, g) == At(entries, a, g) + At(entries, b, g);
  }

  lemma EpochWith(entries: seq<Entry>, at: set<nat>, i: nat, e: nat)
    requires i < |entries| && i !in at
    ensures |AtEpoch(entries, at + {i}, e)| == |AtEpoch(entries, at, e)| + if entries[i].epoch == e then 1 else 0
  {
    assert AtEpoch(entries, at + {i}, e) == AtEpoch(entries, at, e) + (if entries[i].epoch == e then {i} else {});
  }

  lemma NothingCounted(entries: seq<Entry>)
    ensures Indices(0) == {} && forall g :: Count(entries, Indices(0), g) == 0
  {
    assert forall g :: At(entries, {}, g) == {};
  }

  method CountRemaining(entries: seq<Entry>) returns (remaining: map<Guid, nat>)
    ensures Remaining(entries, Indices(|entries|), remaining)
  {
    hide Count, Indices;
    remaining := map[];
    NothingCounted(entries);
    for k := 0 to |entries|
      invariant Remaining(entries, Indices(k), remaining)
    {
      var g := entries[k].guid;
      forall x { CountWith(entries, Indices(k), k, x); }
      assert Indices(k + 1) == Indices(k) + {k};
      assert forall x :: x in remaining <==> Count(entries, Indices(k), x) > 0;
      remaining := remaining[g := if g in remaining then remaining[g] + 1 else 1];
    }
  }

  method Begin(entries: seq<Entry>, epochs: nat) returns (p: Progress)
    ensures Tracks(entries, epochs, p) && p.flushed == {}
  {
    var remaining := CountRemaining(entries);
    p := Progress({}, remaining, {}, seq(epochs, _ => 0));
    assert Unflushed(entries, p) == Indices(|entries|);
    assert forall e :: AtEpoch(entries, {}, e) == {};
  }

  lemma OneFewer(entries: seq<Entry>, rest: set<nat>, i: nat, remaining: map<Guid, nat>)
    requires i < |entries| && i in rest && Remaining(entries, rest, remaining)
    ensures var g := entries[i].guid;
            && g in remaining && remaining[g] > 0
            && Remaining(entries, rest - {i},
                         if remaining[g] == 1 then remaining - {g} else remaining[g := remaining[g] - 1])
  {
    hide Count;
    assert rest == (rest - {i}) + {i};
    forall x { CountWith(entries, rest - {i}, i, x); }
    assert Count(entries, rest, entries[i].guid) > 0;
  }

  /** One entry written: its guid is durable now, and one fewer of it remains. */
  method MarkFlushed(entries: seq<Entry>, epochs: nat, p: Progress, i: nat) returns (p': Progress)
    requires Tracks(entries, epochs, p) && i < |entries| && i !in p.flushed && entries[i].epoch < epochs
    ensures Tracks(entries, epochs, p') && p'.flushed == p.flushed + {i}
  {
    hide Remaining, AtEpoch;
    var g, e := entries[i].guid, entries[i].epoch;
    OneFewer(entries, Unflushed(entries, p), i, p.remaining);
    forall x { EpochWith(entries, p.flushed, i, x); }
    var n := p.remaining[g] - 1;
    var remaining := if n == 0 then p.remaining - {g} else p.remaining[g := n];
    p' := Progress(p.flushed + {i}, remaining, p.durableNow + {g}, p.byEpoch[e := p.byEpoch[e] + 1]);
    assert Unflushed(entries, p') == Unflushed(entries, p) - {i};
  }

  // ---------- references ----------

  /** Restoring gives back one reference per guid, however many of its entries were not flushed. */
  function Restored(entries: seq<Entry>, flushed: set<nat>, g: Guid): nat {
    if Count(entries, Indices(|entries|) - flushed, g) > 0 then 1 else 0
  }

  /** References given up: one per written or stale entry, and one more per guid that is restored. */
  function Given(entries: seq<Entry>, ran: Ran, g: Guid): nat {
    Count(entries, ran.flushed + ran.stale, g) + Restored(entries, ran.flushed, g)
  }

  /** The references that the entries of a batch hold. */
  function Owned(entries: seq<Entry>, g: Guid): nat { Count(entries, Indices(|entries|), g) }

  /** Neither written nor found stale. */
  function Waiting(entries: seq<Entry>, ran: Ran): set<nat> { Indices(|entries|) - ran.flushed - ran.stale }

  /** Too few are given up exactly when two entries of a guid are left waiting. One too many is, and
      with it one of another epoch's, exactly when an entry was stale and none is left waiting. */
  lemma GivenExactly(entries: seq<Entry>, ran: Ran, g: Guid)
    requires ran.flushed + ran.stale <= Indices(|entries|) && ran.flushed !! ran.stale
    ensures Given(entries, ran, g) < Owned(entries, g) <==> Count(entries, Waiting(entries, ran), g) >= 2
    ensures Given(entries, ran, g) > Owned(entries, g) <==>
      Count(entries, ran.stale, g) > 0 && Count(entries, Waiting(entries, ran), g) == 0
    ensures Given(entries, ran, g) <= Owned(entries, g) + 1
  {
    hide Count, Indices;
    var waiting := Waiting(entries, ran);
    assert Indices(|entries|) == (ran.flushed + ran.stale) + waiting;
    CountSplit(entries, ran.flushed + ran.stale, waiting, g);
    assert Indices(|entries|) - ran.flushed == ran.stale + waiting;
    CountSplit(entries, ran.stale, waiting, g);
  }

  predicate HoldsTwo(entries: seq<Entry>, at: set<nat>, g: Guid, i: nat, j: nat) {
    i < j < |entries| && i in at && j in at && entries[i].guid == g && entries[j].guid == g
  }

  /** What would be written by `k` waves if nothing were stale. */
  function WaveUnion(entries: seq<Entry>, settled: set<Guid>, k: nat): set<nat> {
    if k == 0 then {} else
      var done := WaveUnion(entries, settled, k - 1);
      done + ReadyIn(entries, settled, done)
  }

  lemma {:induction false} UnionGrows(entries: seq<Entry>, settled: set<Guid>, k: nat, m: nat)
    requires k <= m
    ensures WaveUnion(entries, settled, k) <= WaveUnion(entries, settled, m)
    decreases m
  {
    hide ReadyIn;
    if k < m { UnionGrows(entries, settled, k, m - 1); }
  }

  lemma {:induction false} UnionStops(entries: seq<Entry>, settled: set<Guid>, k: nat, m: nat)
    requires k <= m && ReadyIn(entries, settled, WaveUnion(entries, settled, k)) == {}
    ensures WaveUnion(entries, settled, m) == WaveUnion(entries, settled, k)
    decreases m
  {
    hide ReadyIn;
    if k < m { UnionStops(entries, settled, k, m - 1); }
  }

  /** The entry is never ready, or only in a later wave than an image that is stale. */
  ghost predicate Held(entries: seq<Entry>, settled: set<Guid>, current: set<nat>, i: nat) {
    || (forall m: nat :: i !in WaveUnion(entries, settled, m))
    || (exists m: nat :: i !in WaveUnion(entries, settled, m) && !(WaveUnion(entries, settled, m) <= current))
  }

  lemma NotHeld(entries: seq<Entry>, settled: set<Guid>, current: set<nat>, i: nat, k: nat)
    requires i in WaveUnion(entries, settled, k)
    requires forall m: nat :: m < k ==> WaveUnion(entries, settled, m) <= current
    ensures !Held(entries, settled, current, i)
  {
    hide WaveUnion;
    forall m: nat | i !in WaveUnion(entries, settled, m) ensures WaveUnion(entries, settled, m) <= current {
      if k <= m { UnionGrows(entries, settled, k, m); }
    }
  }

  /** From wave `k` on, when all before it were current. */
  lemma {:induction false} HeldFrom(entries: seq<Entry>, settled: set<Guid>, current: set<nat>, k: nat, i: nat)
    requires i < |entries| && WaveUnion(entries, settled, k) <= current
    ensures var ran := Run(entries, settled, current, WaveUnion(entries, settled, k));
            i in Waiting(entries, ran) <==> Held(entries, settled, current, i)
    decreases Indices(|entries|) - WaveUnion(entries, settled, k)
  {
    hide ReadyIn, Held, Indices, Run;
    var done := WaveUnion(entries, settled, k);
    var wave := ReadyIn(entries, settled, done);
    ReadyInside(entries, settled, done);
    RunStep(entries, settled, current, done);
    forall m: nat | m <= k ensures WaveUnion(entries, settled, m) <= current { UnionGrows(entries, settled, m, k); }
    if wave == {} {
      if i in done {
        NotHeld(entries, settled, current, i, k);
      } else {
        NeverReady(entries, settled, current, k, i);
      }
    } else if wave <= current {
      HeldFrom(entries, settled, current, k + 1, i);
    } else if i in done + wave {
      NotHeld(entries, settled, current, i, k + 1);
    } else {
      HeldBehind(entries, settled, current, k + 1, i);
    }
  }

  lemma NeverReady(entries: seq<Entry>, settled: set<Guid>, current: set<nat>, k: nat, i: nat)
    requires ReadyIn(entries, settled, WaveUnion(entries, settled, k)) == {} && i !in WaveUnion(entries, settled, k)
    ensures Held(entries, settled, current, i)
  {
    hide WaveUnion, ReadyIn;
    forall m: nat ensures i !in WaveUnion(entries, settled, m) {
      if m < k { UnionGrows(entries, settled, m, k); } else { UnionStops(entries, settled, k, m); }
    }
  }

  lemma HeldBehind(entries: seq<Entry>, settled: set<Guid>, current: set<nat>, k: nat, i: nat)
    requires i !in WaveUnion(entries, settled, k) && !(WaveUnion(entries, settled, k) <= current)
    ensures Held(entries, settled, current, i)
  {
  }

  /** Undisturbed waves leave an entry waiting exactly when it is held up. */
  lemma HeldIff(entries: seq<Entry>, settled: set<Guid>, current: set<nat>, i: nat)
    requires i < |entries|
    ensures i in Waiting(entries, Run(entries, settled, current, {})) <==> Held(entries, settled, current, i)
  {
    hide Run, Held, Waiting;
    assert WaveUnion(entries, settled, 0) == {};
    HeldFrom(entries, settled, current, 0, i);
  }

  ghost predicate HeldOf(entries: seq<Entry>, settled: set<Guid>, current: set<nat>, g: Guid, i: nat) {
    i < |entries| && entries[i].guid == g && Held(entries, settled, current, i)
  }

  /** Two entries of one blob are held up. */
  ghost predicate HeldTwice(entries: seq<Entry>, settled: set<Guid>, current: set<nat>, g: Guid) {
    exists i, j :: i < j && HeldOf(entries, settled, current, g, i) && HeldOf(entries, settled, current, g, j)
  }

  /** An entry of the blob is stale and none of it is held up. */
  ghost predicate StaleUnheld(entries: seq<Entry>, settled: set<Guid>, current: set<nat>, g: Guid) {
    && (exists i :: 0 <= i < |entries| && entries[i].guid == g && i !in current)
    && (forall i :: 0 <= i < |entries| && entries[i].guid == g ==> !Held(entries, settled, current, i))
  }

  /** Undisturbed waves leave a reference behind exactly when two entries of the blob are held up. */
  lemma LeakIff(entries: seq<Entry>, settled: set<Guid>, current: set<nat>, g: Guid)
    ensures Given(entries, Run(entries, settled, current, {}), g) < Owned(entries, g)
       <==> HeldTwice(entries, settled, current, g)
  {
    hide Run, Count, Given, Owned, Indices, Held, Waiting;
    var ran := Run(entries, settled, current, {});
    FromNothing(entries, settled, current);
    GivenExactly(entries, ran, g);
    var rest := Waiting(entries, ran);
    if Count(entries, rest, g) >= 2 {
      var i, j := TwoOf(entries, rest, g);
      HeldIff(entries, settled, current, i);
      HeldIff(entries, settled, current, j);
      assert HeldOf(entries, settled, current, g, i) && HeldOf(entries, settled, current, g, j);
    }
    if i, j :| i < j && HeldOf(entries, settled, current, g, i) && HeldOf(entries, settled, current, g, j) {
      HeldIff(entries, settled, current, i);
      HeldIff(entries, settled, current, j);
      AtLeastTwo(entries, rest, g, i, j);
    }
  }

  /** They give up one reference too many, of another epoch on the blob, exactly when an entry of the
      blob is stale and none of it is held up. */
  lemma LostIff(entries: seq<Entry>, settled: set<Guid>, current: set<nat>, g: Guid)
    ensures Given(entries, Run(entries, settled, current, {}), g) > Owned(entries, g)
       <==> StaleUnheld(entries, settled, current, g)
  {
    hide Run, Count, Given, Owned, Held;
    var ran := Run(entries, settled, current, {});
    FromNothing(entries, settled, current);
    GivenExactly(entries, ran, g);
    SomeCounted(entries, ran.stale, g);
    SomeCounted(entries, Waiting(entries, ran), g);
    forall i | 0 <= i < |entries|
      ensures Held(entries, settled, current, i) <==> i in Waiting(entries, ran)
    {
      HeldIff(entries, settled, current, i);
    }
  }

  lemma FromNothing(entries: seq<Entry>, settled: set<Guid>, current: set<nat>)
    ensures var ran := Run(entries, settled, current, {});
            && ran.flushed <= Indices(|entries|) && ran.stale <= Indices(|entries|)
            && ran.flushed <= current && ran.stale !! current && ran.flushed !! ran.stale
            && ran.flushed + ran.stale <= Indices(|entries|)
  {
    hide Run, Within, Indices, Saturated;
    NothingWithin(entries, settled);
    RunShape(entries, settled, current, {});
  }

  lemma SomeCounted(entries: seq<Entry>, at: set<nat>, g: Guid)
    ensures Count(entries, at, g) > 0 <==> g in GuidsOf(entries, at)
  {
    if g in GuidsOf(entries, at) {
      var i :| i in at && i < |entries| && entries[i].guid == g;
      assert i in At(entries, at, g);
    } else {
      assert At(entries, at, g) == {};
    }
  }

  /** Two entries of one guid that can both never be written. */
  ghost predicate BlockedTwice(entries: seq<Entry>, settled: set<Guid>, g: Guid) {
    exists i, j, stuck: set<nat> :: HoldsTwo(entries, stuck, g, i, j) && Blocked(entries, settled, stuck)
  }

  /** Over current images only, two entries are held up exactly when two are blocked. */
  lemma BlockedLeaks(entries: seq<Entry>, settled: set<Guid>, current: set<nat>, least: set<nat>, g: Guid)
    requires LeastSaturated(entries, settled, least) && least <= current
    ensures Given(entries, Run(entries, settled, current, {}), g) <= Owned(entries, g)
    ensures Given(entries, Run(entries, settled, current, {}), g) < Owned(entries, g)
       <==> BlockedTwice(entries, settled, g)
  {
    hide Run, Count, LeastSaturated, Indices, Blocked, Given, Owned;
    StaleIff(entries, settled, current, least);
    LeastIsSaturated(entries, settled, least);
    var ran := Run(entries, settled, current, {});
    FromNothing(entries, settled, current);
    GivenExactly(entries, ran, g);
    NothingCounted(entries);
    var rest := Waiting(entries, ran);
    assert rest == Indices(|entries|) - least;
    RestIsBlocked(entries, settled, least);
    if Count(entries, rest, g) >= 2 {
      var i, j := TwoOf(entries, rest, g);
    }
    if i, j, stuck: set<nat> :| HoldsTwo(entries, stuck, g, i, j) && Blocked(entries, settled, stuck) {
      BlockedStays(entries, settled, least, stuck);
      AtLeastTwo(entries, rest, g, i, j);
    }
  }

  lemma TwoOf(entries: seq<Entry>, at: set<nat>, g: Guid) returns (i: nat, j: nat)
    requires Count(entries, at, g) >= 2
    ensures HoldsTwo(entries, at, g, i, j)
  {
    var two := At(entries, at, g);
    var x :| x in two;
    assert |two - {x}| == |two| - 1;
    var y :| y in two - {x};
    i, j := if x < y then x else y, if x < y then y else x;
  }

  lemma AtLeastTwo(entries: seq<Entry>, at: set<nat>, g: Guid, i: nat, j: nat)
    requires HoldsTwo(entries, at, g, i, j)
    ensures Count(entries, at, g) >= 2
  {
    var two := At(entries, at, g);
    assert {i, j} <= two;
    assert two == {i, j} + (two - {i, j});
    assert |{i, j}| == 2;
  }
}
