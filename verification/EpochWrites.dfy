/** Writing the dirty images of a batch of epochs wave by wave, children before parents. */
module EpochWrites {
  import opened BlobStore
  import opened Waves
  import opened BufferManager

  // ---------- readiness ----------

  ghost predicate ChildNow(b: Buffer, p: Progress, c: Guid)
    reads b
  {
    c in p.durableNow || (c !in p.remaining && !IsUnflushed(b.dirty, b.flushing, c) && c in Fold(b.durable, b.ops))
  }

  ghost predicate ReadyNow(b: Buffer, p: Progress, image: Image)
    reads b
  {
    forall c :: c in image.children ==> ChildNow(b, p, c)
  }

  /** Every child is durable already, or visible without an outstanding write. */
  ghost predicate ChildrenSettled(store: Store, ops: seq<StoreOp>, doomed: set<Guid>, p: Progress, image: Image) {
    forall c :: c in image.children ==>
      c in p.durableNow || (c in Fold(store, ops) && (c in PutGuids(ops) ==> c in doomed))
  }

  method ChildrenReady(b: Buffer, image: Image, p: Progress, calm: bool) returns (r: Try<bool>)
    modifies b`faults
    ensures b.faults == old(b.faults) + if r.Fault? then 1 else 0
    ensures r.Fine? ==> r.value == ReadyNow(b, p, image)
    ensures calm ==> r.Fine?
  {
    hide Fold;
    var todo := image.children;
    while todo != {}
      invariant todo <= image.children && b.faults == old(b.faults)
      invariant forall c :: c in image.children && c !in todo ==> ChildNow(b, p, c)
      decreases |todo|
    {
      var c :| c in todo;
      todo := todo - {c};
      if c in p.durableNow { continue; }
      if c in p.remaining || c in b.dirty || c in b.flushing {
        assert !ChildNow(b, p, c);
        return Fine(false);
      }
      var has := b.StoreHas(c, calm);
      if has.Fault? { return Fault; }
      if !has.value {
        assert !ChildNow(b, p, c);
        return Fine(false);
      }
    }
    r := Fine(true);
  }

  lemma RacedTrans(a: Table, b: Table, c: Table, doomed: set<Guid>)
    requires Raced(a, b, doomed) && Raced(b, c, doomed)
    ensures Raced(a, c, doomed)
  {
  }

  lemma NotRaced(t: Table, doomed: set<Guid>)
    requires forall g :: g in t.flushing ==> t.flushing[g] > 0
    ensures Raced(t, t, doomed)
  {
  }

  lemma ReadyIsSettled(b: Buffer, p: Progress, image: Image, doomed: set<Guid>)
    requires ReadyNow(b, p, image) && WritesTracked(b.ops, b.dirty, b.flushing, doomed, {})
    ensures ChildrenSettled(b.durable, b.ops, doomed, p, image)
  {
    hide Fold, PutGuids;
    forall c | c in image.children
      ensures c in p.durableNow || (c in Fold(b.durable, b.ops) && (c in PutGuids(b.ops) ==> c in doomed))
    {
      assert ChildNow(b, p, c);
    }
  }

  predicate Ascending(entries: seq<Entry>, wave: seq<nat>) {
    && (forall j :: 0 <= j < |wave| ==> wave[j] < |entries|)
    && (forall j, k :: 0 <= j < k < |wave| ==> wave[j] < wave[k])
  }

  /** The unflushed entries whose children are ready; other threads run meanwhile. */
  method NextWave(b: Buffer, entries: seq<Entry>, p: Progress, calm: bool, doomed: set<Guid>) returns (r: Try<seq<nat>>)
    requires b.Counted() && WritesTracked(b.ops, b.dirty, b.flushing, doomed, {})
    modifies b`dirty, b`flushing, b`pendingDeletes, b`cache, b`faults
    ensures b.faults == old(b.faults) + if r.Fault? then 1 else 0
    ensures b.Counted() && WritesTracked(b.ops, b.dirty, b.flushing, doomed, {})
    ensures Raced(old(b.Now()), b.Now(), doomed)
    ensures calm ==> r.Fine? && b.Now() == old(b.Now())
    ensures r.Fine? ==> Ascending(entries, r.value)
    ensures r.Fine? ==> forall j :: 0 <= j < |r.value| ==>
      r.value[j] !in p.flushed && ChildrenSettled(b.durable, b.ops, doomed, p, entries[r.value[j]].image)
    ensures calm ==>
      forall i :: 0 <= i < |entries| ==> (i in r.value <==> i !in p.flushed && ReadyNow(b, p, entries[i].image))
  {
    hide Fold, PutGuids, ReadyNow, ChildrenSettled, Raced;
    var wave: seq<nat> := [];
    NotRaced(b.Now(), doomed);
    for i := 0 to |entries|
      invariant b.Counted() && WritesTracked(b.ops, b.dirty, b.flushing, doomed, {})
      invariant Raced(old(b.Now()), b.Now(), doomed) && b.faults == old(b.faults)
      invariant calm ==> b.Now() == old(b.Now())
      invariant Ascending(entries, wave) && forall j :: 0 <= j < |wave| ==> wave[j] < i
      invariant forall j :: 0 <= j < |wave| ==>
        wave[j] !in p.flushed && ChildrenSettled(b.durable, b.ops, doomed, p, entries[wave[j]].image)
      invariant calm ==> forall k :: 0 <= k < i ==> (k in wave <==> k !in p.flushed && ReadyNow(b, p, entries[k].image))
    {
      ghost var now := b.Now();
      b.Race(calm, doomed);
      RacedTrans(old(b.Now()), now, b.Now(), doomed);
      StillTracked(b.ops, now, b.Now(), doomed, {});
      if i !in p.flushed {
        var ready := ChildrenReady(b, entries[i].image, p, calm);
        if ready.Fault? { return Fault; }
        if ready.value {
          ReadyIsSettled(b, p, entries[i].image, doomed);
          wave := wave + [i];
        }
      }
    }
    r := Fine(wave);
  }

  lemma StillTracked(ops: seq<StoreOp>, was: Table, now: Table, doomed: set<Guid>, ours: set<Guid>)
    requires Raced(was, now, doomed) && WritesTracked(ops, was.dirty, was.flushing, doomed, ours)
    ensures WritesTracked(ops, now.dirty, now.flushing, doomed, ours)
  {
  }

  // ---------- one wave ----------

  function WaveSet(wave: seq<nat>): set<nat> { set j | 0 <= j < |wave| :: wave[j] }

  lemma {:induction false} TimesCount(entries: seq<Entry>, wave: seq<nat>, g: Guid)
    requires Ascending(entries, wave)
    ensures Times(Select(entries, wave), g) == Count(entries, WaveSet(wave), g)
    decreases |wave|
  {
    if wave == [] {
      assert At(entries, WaveSet(wave), g) == {};
    } else {
      var front, i := wave[..|wave| - 1], wave[|wave| - 1];
      TimesCount(entries, front, g);
      assert Select(entries, wave)[..|wave| - 1] == Select(entries, front);
      WaveLast(wave);
      CountWith(entries, WaveSet(front), i, g);
    }
  }

  lemma WaveLast(wave: seq<nat>)
    requires wave != [] && forall j, k :: 0 <= j < k < |wave| ==> wave[j] < wave[k]
    ensures WaveSet(wave) == WaveSet(wave[..|wave| - 1]) + {wave[|wave| - 1]}
    ensures wave[|wave| - 1] !in WaveSet(wave[..|wave| - 1])
  {
    var front := wave[..|wave| - 1];
    forall x | x in WaveSet(wave) ensures x in WaveSet(front) + {wave[|wave| - 1]} {
      var j :| 0 <= j < |wave| && wave[j] == x;
      if j < |front| { assert front[j] == x; }
    }
    forall x | x in WaveSet(front) ensures x in WaveSet(wave) {
      var j :| 0 <= j < |front| && front[j] == x;
      assert wave[j] == x;
    }
  }

  /** Each flushed guid is durable, with the newest image flushed. */
  ghost predicate Kept(entries: seq<Entry>, done: set<nat>, store: Store) {
    forall i :: i in done && i < |entries| ==> KeptAt(entries, done, store, entries[i].guid)
  }

  ghost predicate KeptAt(entries: seq<Entry>, done: set<nat>, store: Store, g: Guid) {
    g in store && exists j :: j in done && j < |entries| && entries[j].guid == g && store[g] == entries[j].image
                           && NoNewer(entries, done, g, entries[j].image.stamp)
  }

  /** No flushed image of the blob is newer. */
  predicate NoNewer(entries: seq<Entry>, done: set<nat>, g: Guid, stamp: nat) {
    forall k :: k in done && k < |entries| && entries[k].guid == g ==> entries[k].image.stamp <= stamp
  }

  /** No flushed image is newer than the cached one. */
  ghost predicate Dated(entries: seq<Entry>, done: set<nat>, cache: Marks) {
    forall i :: i in done && i < |entries| && entries[i].guid in cache ==>
      entries[i].image.stamp <= cache[entries[i].guid]
  }

  lemma RisingTrans(a: Marks, b: Marks, c: Marks)
    requires Rising(a, b) && Rising(b, c)
    ensures Rising(a, c)
  {
  }

  /** An image that was no newer than the cache, and is current later, was current from the start. */
  lemma CurrentSince(entries: seq<Entry>, cache: Marks, cache': Marks)
    requires Dated(entries, Indices(|entries|), cache) && Rising(cache, cache')
    ensures Current(entries, cache') <= Current(entries, cache)
  {
  }

  lemma DatedRises(entries: seq<Entry>, done: set<nat>, cache: Marks, cache': Marks)
    requires Dated(entries, done, cache) && Rising(cache, cache')
    ensures Dated(entries, done, cache')
  {
  }

  lemma {:induction false} FoldPuts(store: Store, puts: seq<StoreOp>, g: Guid)
    requires forall k :: 0 <= k < |puts| ==> puts[k].Put?
    ensures g in PutGuids(puts) ==> g in Fold(store, puts) && Put(g, Fold(store, puts)[g]) in puts
    ensures g !in PutGuids(puts) ==>
      (g in Fold(store, puts) <==> g in store) && (g in store ==> Fold(store, puts)[g] == store[g])
    decreases |puts|
  {
    if puts != [] {
      var front, last := puts[..|puts| - 1], puts[|puts| - 1];
      assert puts == front + [last];
      OpsAppend(front, last);
      FoldPuts(store, front, g);
    }
  }

  /** Marks what a wave wrote; a stale entry stays unflushed. */
  method MarkWave(entries: seq<Entry>, epochs: nat, p: Progress, wave: seq<nat>, statuses: seq<Status>)
    returns (p': Progress, stale: set<nat>)
    requires Tracks(entries, epochs, p) && Ascending(entries, wave) && |statuses| == |wave|
    requires forall j :: 0 <= j < |wave| ==> wave[j] !in p.flushed && entries[wave[j]].epoch < epochs
    ensures Tracks(entries, epochs, p')
    ensures forall i :: i in p'.flushed <==> i in p.flushed || WroteAt(wave, statuses, |wave|, i, Written)
    ensures forall i :: i in stale <==> WroteAt(wave, statuses, |wave|, i, Stale)
  {
    hide Tracks;
    p', stale := p, {};
    for k := 0 to |wave|
      invariant Tracks(entries, epochs, p')
      invariant forall i :: i in p'.flushed <==> i in p.flushed || WroteAt(wave, statuses, k, i, Written)
      invariant forall i :: i in stale <==> WroteAt(wave, statuses, k, i, Stale)
    {
      forall i, s { WroteNext(wave, statuses, k, i, s); }
      if statuses[k] == Written {
        assert forall j :: 0 <= j < k ==> wave[j] < wave[k];
        p' := MarkFlushed(entries, epochs, p', wave[k]);
      } else {
        stale := stale + {wave[k]};
      }
    }
  }

  /** Entry `i` is among the first `n` of the wave, with this status. */
  predicate WroteAt(wave: seq<nat>, statuses: seq<Status>, n: nat, i: nat, status: Status)
    requires n <= |wave| == |statuses|
  {
    exists j :: 0 <= j < n && wave[j] == i && statuses[j] == status
  }

  lemma WroteNext(wave: seq<nat>, statuses: seq<Status>, k: nat, i: nat, status: Status)
    requires k < |wave| == |statuses|
    ensures WroteAt(wave, statuses, k + 1, i, status) <==>
      WroteAt(wave, statuses, k, i, status) || (wave[k] == i && statuses[k] == status)
  {
  }

  lemma WaveAnchored(store: Store, ops: seq<StoreOp>, doomed: set<Guid>, p: Progress, image: Image)
    requires ChildrenSettled(store, ops, doomed, p, image) && image.children !! (PutGuids(ops) * doomed)
    requires p.durableNow <= store.Keys && (p.durableNow == {} || ops == [])
    ensures Anchor(store, ops, image)
  {
    hide Fold, PutGuids;
    forall c | c in image.children ensures c in store && c !in DelGuids(ops) {
      if c in p.durableNow {
        assert DelGuids([]) == {};
      } else {
        FoldUnwritten(store, ops, c);
      }
    }
  }

  /** Only current images are written, so what a wave leaves is the newest flushed so far. */
  lemma KeptGrows(entries: seq<Entry>, done: set<nat>, store: Store, wave: seq<nat>, statuses: seq<Status>,
                  done': set<nat>, cache: Marks)
    requires Kept(entries, done, store) && Dated(entries, done, cache) && Ascending(entries, wave)
    requires |statuses| == |wave|
    requires forall i :: i in done' <==> i in done || WroteAt(wave, statuses, |wave|, i, Written)
    requires forall j :: 0 <= j < |wave| && statuses[j] == Written ==> IsCurrent(cache, entries[wave[j]])
    ensures Kept(entries, done', Fold(store, PutsOf(Select(entries, wave), statuses))) && Dated(entries, done', cache)
  {
    hide PutsOf, Fold, PutGuids;
    assert Dated(entries, done', cache);
    forall i | i in done' && i < |entries|
      ensures KeptAt(entries, done', Fold(store, PutsOf(Select(entries, wave), statuses)), entries[i].guid)
    {
      var g := entries[i].guid;
      if g in PutGuids(PutsOf(Select(entries, wave), statuses)) {
        KeptNew(entries, done', wave, statuses, g, store, cache);
      } else {
        KeptOld(entries, done, store, wave, statuses, done', g);
      }
    }
  }

  lemma KeptNew(entries: seq<Entry>, done': set<nat>, wave: seq<nat>, statuses: seq<Status>, g: Guid, store: Store,
                cache: Marks)
    requires Dated(entries, done', cache) && Ascending(entries, wave) && |statuses| == |wave|
    requires forall j :: 0 <= j < |wave| && statuses[j] == Written ==>
      IsCurrent(cache, entries[wave[j]]) && wave[j] in done'
    requires g in PutGuids(PutsOf(Select(entries, wave), statuses))
    ensures KeptAt(entries, done', Fold(store, PutsOf(Select(entries, wave), statuses)), g)
  {
    hide PutsOf, Fold, PutGuids;
    var sel := Select(entries, wave);
    var puts := PutsOf(sel, statuses);
    forall k | 0 <= k < |puts| ensures puts[k].Put? { var j := PutComesFrom(sel, statuses, k); }
    FoldPuts(store, puts, g);
    var k :| 0 <= k < |puts| && puts[k] == Put(g, Fold(store, puts)[g]);
    var j := PutComesFrom(sel, statuses, k);
    assert wave[j] in done' && entries[wave[j]].image == Fold(store, puts)[g];
  }

  lemma KeptOld(entries: seq<Entry>, done: set<nat>, store: Store, wave: seq<nat>, statuses: seq<Status>,
                done': set<nat>, g: Guid)
    requires Kept(entries, done, store) && Ascending(entries, wave) && |statuses| == |wave|
    requires forall i :: i in done' <==> i in done || WroteAt(wave, statuses, |wave|, i, Written)
    requires g in GuidsOf(entries, done') && g !in PutGuids(PutsOf(Select(entries, wave), statuses))
    ensures KeptAt(entries, done', Fold(store, PutsOf(Select(entries, wave), statuses)), g)
  {
    hide PutsOf, Fold, PutGuids;
    var sel := Select(entries, wave);
    var puts := PutsOf(sel, statuses);
    forall k | 0 <= k < |puts| ensures puts[k].Put? { var j := PutComesFrom(sel, statuses, k); }
    FoldPuts(store, puts, g);
    forall j | 0 <= j < |wave| && statuses[j] == Written ensures entries[wave[j]].guid != g {
      Issued(entries, wave, statuses, j);
    }
    var i :| i in done' && i < |entries| && entries[i].guid == g;
    assert i in done;
    assert KeptAt(entries, done, store, entries[i].guid);
    assert forall k :: k in done' && k < |entries| && entries[k].guid == g ==> k in done;
  }

  lemma Issued(entries: seq<Entry>, wave: seq<nat>, statuses: seq<Status>, j: nat)
    requires Ascending(entries, wave) && |statuses| == |wave| && j < |wave| && statuses[j] == Written
    ensures entries[wave[j]].guid in PutGuids(PutsOf(Select(entries, wave), statuses))
  {
    hide PutsOf;
    var k := PutIsIssued(Select(entries, wave), statuses, j);
    assert PutsOf(Select(entries, wave), statuses)[k].guid == entries[wave[j]].guid;
  }

  // ---------- all waves ----------

  function Everyone(entries: seq<Entry>): set<Guid> { GuidsOf(entries, Indices(|entries|)) }

  function Children(entries: seq<Entry>): set<Guid> {
    set i, c | 0 <= i < |entries| && c in entries[i].image.children :: c
  }

  /** Children outside the batch that are in the store and have nothing left to flush. */
  function SettledOutside(entries: seq<Entry>, dirty: Marks, flushing: Marks, view: Store): set<Guid> {
    set c | c in Children(entries) && c !in Everyone(entries) && !IsUnflushed(dirty, flushing, c) && c in view
  }

  /** Outside the batch, marks and visibility are as they were. */
  ghost predicate SameOutside(entries: seq<Entry>, d: Marks, f: Marks, view: Store, d': Marks, f': Marks,
                              view': Store) {
    forall c :: c !in Everyone(entries) ==>
      (IsUnflushed(d, f, c) <==> IsUnflushed(d', f', c)) && (c in view <==> c in view')
  }

  lemma ReadyMatches(b: Buffer, entries: seq<Entry>, epochs: nat, p: Progress, settled: set<Guid>, i: nat, d: Marks,
                     f: Marks, view: Store)
    requires Tracks(entries, epochs, p) && i < |entries|
    requires settled == SettledOutside(entries, d, f, view)
    requires SameOutside(entries, d, f, view, b.dirty, b.flushing, Fold(b.durable, b.ops))
    ensures ReadyNow(b, p, entries[i].image) <==> Ready(entries, settled, p.flushed, i)
  {
    hide Fold, Count;
    forall c | c in entries[i].image.children
      ensures ChildNow(b, p, c) <==> c in settled || c in GuidsOf(entries, p.flushed)
    {
      assert c in Children(entries);
      if c !in Everyone(entries) {
        Outsider(entries, epochs, p, c);
      } else if c !in p.durableNow {
        WaitsFor(entries, epochs, p, c);
      }
    }
  }

  lemma Outsider(entries: seq<Entry>, epochs: nat, p: Progress, c: Guid)
    requires Tracks(entries, epochs, p) && c !in Everyone(entries)
    ensures c !in p.remaining && c !in p.durableNow
  {
    assert At(entries, Unflushed(entries, p), c) == {};
  }

  /** A guid of the batch with no flushed entry still has one remaining. */
  lemma WaitsFor(entries: seq<Entry>, epochs: nat, p: Progress, c: Guid)
    requires Tracks(entries, epochs, p) && c in Everyone(entries) && c !in p.durableNow
    ensures c in p.remaining
  {
    var i :| i in Indices(|entries|) && i < |entries| && entries[i].guid == c;
    assert i !in p.flushed;
    assert i in At(entries, Unflushed(entries, p), c);
  }

  /** Between waves: outstanding writes are tracked, and what was flushed is durable and no newer
      than the cache. */
  ghost predicate Working(b: Buffer, entries: seq<Entry>, epochs: nat, p: Progress, doomed: set<Guid>)
    reads b
  {
    && b.Counted() && Tracks(entries, epochs, p)
    && WritesTracked(b.ops, b.dirty, b.flushing, doomed, {})
    && Kept(entries, p.flushed, b.durable) && Dated(entries, p.flushed, b.cache)
    && (p.flushed == {} || b.ops == [])
  }

  predicate EpochsBelow(entries: seq<Entry>, epochs: nat) {
    forall i :: 0 <= i < |entries| ==> entries[i].epoch < epochs
  }

  /** The entries whose image is still the cached one. */
  function Current(entries: seq<Entry>, cache: Marks): set<nat> {
    set i | i in Indices(|entries|) && i < |entries| && IsCurrent(cache, entries[i])
  }

  predicate AllCached(entries: seq<Entry>, cache: Marks) {
    forall i :: 0 <= i < |entries| ==> entries[i].guid in cache
  }

  /** No image refers to one of the blobs. */
  predicate Avoids(entries: seq<Entry>, guids: set<Guid>) {
    forall i :: 0 <= i < |entries| ==> entries[i].image.children !! guids
  }

  /** Blobs outside the batch look the same. */
  ghost predicate ViewOutside(entries: seq<Entry>, view: Store, view': Store) {
    forall g :: g !in Everyone(entries) ==> (g in view <==> g in view') && (g in view ==> view[g] == view'[g])
  }

  predicate WaveOf(entries: seq<Entry>, p: Progress, wave: seq<nat>) {
    Ascending(entries, wave) && forall j :: 0 <= j < |wave| ==> wave[j] !in p.flushed
  }

  lemma WaveGuid(entries: seq<Entry>, wave: seq<nat>, j: nat)
    requires Ascending(entries, wave) && j < |wave|
    ensures Select(entries, wave)[j].guid in Everyone(entries)
  {
    assert wave[j] in Indices(|entries|);
  }

  lemma {:induction false} NoTimes(wave: seq<Entry>, g: Guid)
    requires forall j :: 0 <= j < |wave| ==> wave[j].guid != g
    ensures Times(wave, g) == 0
    decreases |wave|
  {
    if wave != [] { NoTimes(wave[..|wave| - 1], g); }
  }

  /** Issues one wave and flushes it; other threads run in between. */
  method IssueWave(b: Buffer, entries: seq<Entry>, wave: seq<nat>, calm: bool, doomed: set<Guid>)
    returns (r: Try<seq<Status>>)
    requires Ascending(entries, wave) && b.Counted() && (calm ==> AllCached(entries, b.cache))
    requires WritesTracked(b.ops, b.dirty, b.flushing, doomed, {})
    modifies b
    ensures b.Counted() && old(b.points) <= b.points && DelsWithin(b.points, |old(b.points)|, DelGuids(old(b.ops)))
    ensures DelGuids(b.ops) <= DelGuids(old(b.ops)) && old(b.View()).Keys <= b.View().Keys
    ensures Rising(old(b.cache), b.cache) && b.pendingDeletes.Keys <= old(b.pendingDeletes).Keys + doomed
    ensures b.faults == old(b.faults) + if r.Fault? then 1 else 0
    ensures r.Fine? ==> |r.value| == |wave| && b.ops == []
    ensures r.Fine? ==> forall j :: 0 <= j < |wave| ==>
      (r.value[j] == Written <==> IsCurrent(old(b.cache), entries[wave[j]]))
    ensures r.Fine? ==> b.durable == Fold(old(b.View()), PutsOf(Select(entries, wave), r.value))
    ensures r.Fault? ==>
      b.durable == old(b.durable) && WritesTracked(b.ops, b.dirty, b.flushing, doomed, Everyone(entries))
    ensures calm ==> r.Fine? && b.cache == old(b.cache) && b.pendingDeletes == old(b.pendingDeletes)
    ensures calm ==> forall g :: g !in Everyone(entries) ==> (g in b.dirty <==> g in old(b.dirty))
    ensures calm ==> forall g :: Tok(b.flushing, g) == Minus(old(Tok(b.flushing, g)), Times(Select(entries, wave), g))
    ensures Anchored(old(b.durable), old(b.ops)) && WaveAnchors(old(b.durable), old(b.ops), entries, wave) ==>
      Anchored(b.durable, b.ops) && PointsSafe(b.points, |old(b.points)|)
  {
    hide Anchored, Anchor, Fold, PutsOf, PutGuids, DelGuids, Times, Everyone, Raced;
    var sel := Select(entries, wave);
    RisingSame(b.cache);
    forall j | 0 <= j < |wave| ensures sel[j].guid in Everyone(entries) { WaveGuid(entries, wave, j); }
    r := b.WriteThroughBatch(sel, calm);
    if r.Fault? { return; }
    forall g | g !in Everyone(entries) ensures Times(sel, g) == 0 { NoTimes(sel, g); }
    assert forall g :: g in b.flushing <==> Tok(b.flushing, g) > 0;
    FoldConcat(b.durable, old(b.ops), PutsOf(sel, r.value));
    assert WritesTracked(b.ops, b.dirty, b.flushing, doomed, Everyone(entries));
    ghost var now := b.Now();
    b.Race(calm, doomed);
    RaceKeeps(now, b.Now(), doomed);
    StillTracked(b.ops, now, b.Now(), doomed, Everyone(entries));
    var ok := b.FlushInner(calm);
    NothingIssued(b.durable);
    if !ok { r := Fault; }
  }

  ghost predicate WaveAnchors(store: Store, ops: seq<StoreOp>, entries: seq<Entry>, wave: seq<nat>)
    requires Ascending(entries, wave)
  {
    forall j :: 0 <= j < |wave| ==> Anchor(store, ops, entries[wave[j]].image)
  }

  lemma RisingSame(cache: Marks)
    ensures Rising(cache, cache)
  {
  }

  lemma RaceKeeps(was: Table, now: Table, doomed: set<Guid>)
    requires Raced(was, now, doomed)
    ensures Rising(was.cache, now.cache) && now.pending.Keys <= was.pending.Keys + doomed
  {
  }

  /** One wave: written, flushed and marked. The result is what was stale in it. */
  method FlushWave(b: Buffer, entries: seq<Entry>, epochs: nat, p: Progress, wave: seq<nat>, calm: bool,
                   doomed: set<Guid>)
    returns (r: Try<set<nat>>, p': Progress)
    requires Working(b, entries, epochs, p, doomed) && WaveOf(entries, p, wave) && EpochsBelow(entries, epochs)
    requires forall j :: 0 <= j < |wave| ==> ChildrenSettled(b.durable, b.ops, doomed, p, entries[wave[j]].image)
    requires calm ==> AllCached(entries, b.cache)
    modifies b
    ensures b.Counted() && Tracks(entries, epochs, p') && Kept(entries, p'.flushed, b.durable)
    ensures old(b.points) <= b.points && DelsWithin(b.points, |old(b.points)|, DelGuids(old(b.ops)))
    ensures DelGuids(b.ops) <= DelGuids(old(b.ops)) && old(b.View()).Keys <= b.View().Keys
    ensures Rising(old(b.cache), b.cache) && b.pendingDeletes.Keys <= old(b.pendingDeletes).Keys + doomed
    ensures b.faults == old(b.faults) + if r.Fault? then 1 else 0
    ensures r.Fault? ==> p' == p && WritesTracked(b.ops, b.dirty, b.flushing, doomed, Everyone(entries))
    ensures r.Fine? ==> b.ops == [] && Working(b, entries, epochs, p', doomed)
    ensures r.Fine? ==> r.value == WaveSet(wave) - Current(entries, old(b.cache))
    ensures r.Fine? ==> p'.flushed == p.flushed + WaveSet(wave) * Current(entries, old(b.cache))
    ensures r.Fine? ==> ViewOutside(entries, old(b.View()), b.durable)
    ensures calm ==> r.Fine? && b.cache == old(b.cache) && b.pendingDeletes == old(b.pendingDeletes)
    ensures calm ==> forall g :: g !in Everyone(entries) ==> (g in b.dirty <==> g in old(b.dirty))
    ensures calm ==> forall g :: Tok(b.flushing, g) == Minus(old(Tok(b.flushing, g)), Count(entries, WaveSet(wave), g))
    ensures Anchored(old(b.durable), old(b.ops)) && Avoids(entries, PutGuids(old(b.ops)) * doomed) ==>
      Anchored(b.durable, b.ops) && PointsSafe(b.points, |old(b.points)|)
  {
    hide Anchored, Anchor, Fold, PutsOf, PutGuids, DelGuids, Times, Everyone, Tracks, Count, Kept, Dated,
         ChildrenSettled,
         Current, WaveSet, ViewOutside, WaveAnchors, Avoids, WroteAt;
    if Avoids(entries, PutGuids(b.ops) * doomed) {
      WaveImages(b.durable, b.ops, entries, epochs, p, wave, doomed);
    }
    p' := p;
    ghost var view0, cache := b.View(), b.cache;
    KeptView(entries, p, b.durable, b.ops);
    var statuses := IssueWave(b, entries, wave, calm, doomed);
    if statuses.Fault? { return Fault, p'; }
    PutsOutside(view0, entries, wave, statuses.value);
    var stale;
    p', stale := MarkWave(entries, epochs, p, wave, statuses.value);
    WaveSplits(entries, p.flushed, wave, statuses.value, p'.flushed, stale, cache);
    KeptGrows(entries, p.flushed, view0, wave, statuses.value, p'.flushed, cache);
    DatedRises(entries, p'.flushed, cache, b.cache);
    forall g { TimesCount(entries, wave, g); }
    NothingTracked(b.dirty, b.flushing, doomed);
    r := Fine(stale);
  }

  lemma WaveSplits(entries: seq<Entry>, done: set<nat>, wave: seq<nat>, statuses: seq<Status>, done': set<nat>,
                   stale: set<nat>, cache: Marks)
    requires Ascending(entries, wave) && |statuses| == |wave|
    requires forall i :: i in done' <==> i in done || WroteAt(wave, statuses, |wave|, i, Written)
    requires forall i :: i in stale <==> WroteAt(wave, statuses, |wave|, i, Stale)
    requires forall j :: 0 <= j < |wave| ==> (statuses[j] == Written <==> IsCurrent(cache, entries[wave[j]]))
    ensures stale == WaveSet(wave) - Current(entries, cache)
    ensures done' == done + WaveSet(wave) * Current(entries, cache)
  {
    hide IsCurrent;
    forall i | i in WaveSet(wave)
      ensures WroteAt(wave, statuses, |wave|, i, Written) <==> i in Current(entries, cache)
      ensures WroteAt(wave, statuses, |wave|, i, Stale) <==> i !in Current(entries, cache)
    {
      var j :| 0 <= j < |wave| && wave[j] == i;
      assert forall k :: 0 <= k < |wave| && wave[k] == i ==> k == j;
    }
    assert forall i, s :: WroteAt(wave, statuses, |wave|, i, s) ==> i in WaveSet(wave);
  }

  lemma NothingTracked(dirty: Marks, flushing: Marks, doomed: set<Guid>)
    ensures WritesTracked([], dirty, flushing, doomed, {})
  {
  }

  lemma WaveImages(store: Store, ops: seq<StoreOp>, entries: seq<Entry>, epochs: nat, p: Progress, wave: seq<nat>,
                   doomed: set<Guid>)
    requires Ascending(entries, wave) && Avoids(entries, PutGuids(ops) * doomed) && Tracks(entries, epochs, p)
    requires Kept(entries, p.flushed, store) && (p.flushed == {} || ops == [])
    requires forall j :: 0 <= j < |wave| ==> ChildrenSettled(store, ops, doomed, p, entries[wave[j]].image)
    ensures WaveAnchors(store, ops, entries, wave)
  {
    hide ChildrenSettled, Anchor, Count, PutGuids;
    forall c | c in p.durableNow ensures c in store {
      var i :| i in p.flushed && i < |entries| && entries[i].guid == c;
      assert KeptAt(entries, p.flushed, store, entries[i].guid);
    }
    assert p.flushed == {} ==> p.durableNow == {};
    forall j | 0 <= j < |wave| ensures Anchor(store, ops, entries[wave[j]].image) {
      WaveAnchored(store, ops, doomed, p, entries[wave[j]].image);
    }
  }

  lemma KeptView(entries: seq<Entry>, p: Progress, store: Store, ops: seq<StoreOp>)
    requires Kept(entries, p.flushed, store) && (p.flushed == {} || ops == [])
    ensures Kept(entries, p.flushed, Fold(store, ops))
  {
  }

  lemma PutsOutside(view: Store, entries: seq<Entry>, wave: seq<nat>, statuses: seq<Status>)
    requires Ascending(entries, wave) && |statuses| == |wave|
    ensures ViewOutside(entries, view, Fold(view, PutsOf(Select(entries, wave), statuses)))
  {
    hide Fold, PutsOf, Everyone;
    var sel := Select(entries, wave);
    var puts := PutsOf(sel, statuses);
    forall k | 0 <= k < |puts| ensures puts[k].Put? && puts[k].guid in Everyone(entries) {
      var j := PutComesFrom(sel, statuses, k);
      WaveGuid(entries, wave, j);
    }
    forall g | g !in Everyone(entries)
      ensures (g in view <==> g in Fold(view, puts)) && (g in view ==> view[g] == Fold(view, puts)[g])
    {
      FoldPuts(view, puts, g);
    }
  }

  // ---------- steps of the wave loop ----------

  lemma AtFirst(entries: seq<Entry>, p: Progress, store: Store, d: Marks, f: Marks, view: Store, cache: Marks)
    requires p.flushed == {}
    ensures Kept(entries, p.flushed, store) && ViewOutside(entries, view, view)
    ensures SameOutside(entries, d, f, view, d, f, view) && Dated(entries, p.flushed, cache)
  {
  }

  lemma TrackedMore(ops: seq<StoreOp>, dirty: Marks, flushing: Marks, doomed: set<Guid>, ours: set<Guid>)
    requires WritesTracked(ops, dirty, flushing, doomed, {})
    ensures WritesTracked(ops, dirty, flushing, doomed, ours)
  {
  }

  /** Without interference a wave is exactly the entries that are ready now. */
  lemma WaveIsReady(b: Buffer, entries: seq<Entry>, epochs: nat, p: Progress, settled: set<Guid>, wave: seq<nat>,
                    d: Marks, f: Marks, view: Store)
    requires Tracks(entries, epochs, p) && Ascending(entries, wave)
    requires settled == SettledOutside(entries, d, f, view)
    requires SameOutside(entries, d, f, view, b.dirty, b.flushing, Fold(b.durable, b.ops))
    requires forall i :: 0 <= i < |entries| ==> (i in wave <==> i !in p.flushed && ReadyNow(b, p, entries[i].image))
    ensures WaveSet(wave) == ReadyIn(entries, settled, p.flushed)
  {
    hide Fold, Tracks, ReadyNow, SettledOutside, SameOutside, Ready;
    forall i | 0 <= i < |entries|
      ensures ReadyNow(b, p, entries[i].image) <==> Ready(entries, settled, p.flushed, i)
    {
      ReadyMatches(b, entries, epochs, p, settled, i, d, f, view);
    }
    assert forall i :: i in WaveSet(wave) <==> i in wave;
  }

  lemma TracksWithin(entries: seq<Entry>, epochs: nat, p: Progress)
    requires Tracks(entries, epochs, p)
    ensures p.flushed <= Indices(|entries|)
    ensures Unflushed(entries, p) != {} <==> p.flushed != Indices(|entries|)
  {
    hide Count, AtEpoch, Indices;
    if Unflushed(entries, p) == {} { assert Indices(|entries|) <= p.flushed; }
  }

  lemma WaveInside(entries: seq<Entry>, p: Progress, wave: seq<nat>)
    requires WaveOf(entries, p, wave)
    ensures WaveSet(wave) <= Indices(|entries|) && WaveSet(wave) !! p.flushed
    ensures wave == [] <==> WaveSet(wave) == {}
  {
    if wave != [] { assert wave[0] in WaveSet(wave); }
  }

  lemma WaveParts(done: set<nat>, wave: set<nat>, current: set<nat>, done': set<nat>, stale: set<nat>)
    requires stale == wave - current && done' == done + wave * current
    ensures done' + stale == done + wave
    ensures stale == {} <==> wave <= current
    ensures stale == {} ==> done' == done + wave && done' + stale == done'
  {
  }

  lemma StaleLeft(entries: seq<Entry>, done: set<nat>, wave: set<nat>, current: set<nat>, done': set<nat>)
    requires wave <= Indices(|entries|) && wave !! done && done' == done + wave * current && wave - current != {}
    ensures done' != Indices(|entries|)
  {
    var i :| i in wave - current;
    assert i in Indices(|entries|) && i !in done';
  }

  lemma AvoidsStill(entries: seq<Entry>, ops: seq<StoreOp>, ops': seq<StoreOp>, doomed: set<Guid>)
    requires Avoids(entries, PutGuids(ops) * doomed) && (ops' == ops || ops' == [])
    ensures Avoids(entries, PutGuids(ops') * doomed)
  {
    assert PutGuids([]) == {};
  }

  lemma ViewTrans(entries: seq<Entry>, a: Store, b: Store, c: Store)
    requires ViewOutside(entries, a, b) && ViewOutside(entries, b, c)
    ensures ViewOutside(entries, a, c)
  {
    hide Everyone;
  }

  lemma WaveShrinks(entries: seq<Entry>, p: Progress, wave: seq<nat>, p': Progress)
    requires WaveOf(entries, p, wave) && wave != [] && p'.flushed == p.flushed + WaveSet(wave)
    ensures Unflushed(entries, p') < Unflushed(entries, p)
  {
    hide Indices;
    assert wave[0] in WaveSet(wave) && wave[0] in Unflushed(entries, p);
  }

  lemma SameOutsideTrans(entries: seq<Entry>, d0: Marks, f0: Marks, view0: Store, d: Marks, f: Marks, view: Store,
                         d': Marks, f': Marks, view': Store, wave: seq<nat>)
    requires SameOutside(entries, d0, f0, view0, d, f, view) && Ascending(entries, wave)
    requires forall g :: g !in Everyone(entries) ==> (g in d' <==> g in d)
    requires forall g :: Tok(f', g) == Minus(Tok(f, g), Count(entries, WaveSet(wave), g))
    requires (forall g :: g in f ==> f[g] > 0) && (forall g :: g in f' ==> f'[g] > 0)
    requires ViewOutside(entries, view, view')
    ensures SameOutside(entries, d0, f0, view0, d', f', view')
  {
    forall g | g !in Everyone(entries) ensures Tok(f', g) == Tok(f, g) {
      assert At(entries, WaveSet(wave), g) == {};
    }
    assert forall g :: g in f <==> Tok(f, g) > 0;
    assert forall g :: g in f' <==> Tok(f', g) > 0;
  }
}
