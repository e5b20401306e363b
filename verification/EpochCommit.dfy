/**
 Committing a coalesced batch of checkpoint epochs: images in dependency order,
 then pending deletes, with everything that did not get through put back.
 */
module EpochCommit {
  import opened BlobStore
  import opened Waves
  import opened BufferManager
  import opened EpochWrites

  // ---------- writes ----------

  /** The waves a batch goes through when nothing disturbs it. */
  ghost function Undisturbed(entries: seq<Entry>, t: Table, view: Store): Ran {
    Run(entries, SettledOutside(entries, t.dirty, t.flushing, view), Current(entries, t.cache), {})
  }

  /** Waves until nothing is ready or an entry is stale. Without faults and interference, what is
      flushed and what is stale follow from the batch, the cache and what is settled outside. */
  method WriteEntries(b: Buffer, entries: seq<Entry>, epochs: nat, calm: bool, doomed: set<Guid>)
    returns (r: Try<bool>, p: Progress, stale: set<nat>)
    requires b.Counted() && EpochsBelow(entries, epochs) && (calm ==> AllCached(entries, b.cache))
    requires WritesTracked(b.ops, b.dirty, b.flushing, doomed, {}) && b.pendingDeletes.Keys <= doomed
    modifies b
    ensures b.Counted() && b.pendingDeletes.Keys <= doomed
    ensures old(b.points) <= b.points && DelsWithin(b.points, |old(b.points)|, DelGuids(old(b.ops)))
    ensures DelGuids(b.ops) <= DelGuids(old(b.ops)) && old(b.View()).Keys <= b.View().Keys
    ensures b.faults == old(b.faults) + if r.Fault? then 1 else 0
    ensures Tracks(entries, epochs, p) && Kept(entries, p.flushed, b.durable)
    ensures r.Fault? ==> WritesTracked(b.ops, b.dirty, b.flushing, doomed, Everyone(entries))
    ensures r.Fine? ==> WritesTracked(b.ops, b.dirty, b.flushing, doomed, {}) && (p.flushed == {} || b.ops == [])
    ensures r.Fine? ==> ViewOutside(entries, old(b.View()), b.View())
    ensures r.Fine? ==> (r.value <==> p.flushed != Indices(|entries|))
    ensures Anchored(old(b.durable), old(b.ops)) && Avoids(entries, PutGuids(old(b.ops)) * doomed) ==>
      Anchored(b.durable, b.ops) && PointsSafe(b.points, |old(b.points)|)
    ensures Rising(old(b.cache), b.cache) && CurrentAtFirst(entries, p.flushed, old(b.cache))
    ensures calm ==> r.Fine? && b.pendingDeletes == old(b.pendingDeletes)
    ensures calm ==> Ran(p.flushed, stale) == Undisturbed(entries, old(b.Now()), old(b.View()))
    ensures calm ==> TokensLeft(old(b.flushing), b.flushing, entries, p.flushed + stale)
  {
    hide Anchored, Fold, Everyone, Tracks, Count, Kept, Dated, ChildrenSettled, SettledOutside, Current, Ready,
         ReadyIn, Run, WaveSet, ReadyNow, SameOutside, Avoids, ViewOutside, WritesTracked, IsUnflushed, Indices,
         TokensLeft, PutGuids, DelGuids, Raced, PointsSafe, DelsWithin, Rising, CurrentAtFirst;
    stale := {};
    p := Begin(entries, epochs);
    ghost var t0, view0 := b.Now(), b.View();
    ghost var settled, current := SettledOutside(entries, t0.dirty, t0.flushing, view0), Current(entries, t0.cache);
    ghost var safe := Anchored(b.durable, b.ops) && Avoids(entries, PutGuids(b.ops) * doomed);
    AtFirst(entries, p, b.durable, t0.dirty, t0.flushing, view0, t0.cache);
    TokensAll(t0.flushing, entries);
    NoPointsYet(b.points, DelGuids(b.ops));
    RisingSame(b.cache);
    NoneAtFirst(entries, b.cache);
    while true
      invariant Working(b, entries, epochs, p, doomed) && b.pendingDeletes.Keys <= doomed && stale == {}
      invariant old(b.points) <= b.points && DelsWithin(b.points, |old(b.points)|, DelGuids(old(b.ops)))
      invariant DelGuids(b.ops) <= DelGuids(old(b.ops)) && view0.Keys <= b.View().Keys
      invariant (b.ops == old(b.ops) || b.ops == []) && b.faults == old(b.faults)
      invariant Rising(t0.cache, b.cache) && CurrentAtFirst(entries, p.flushed, t0.cache)
      invariant ViewOutside(entries, view0, b.View())
      invariant safe ==> Anchored(b.durable, b.ops) && PointsSafe(b.points, |old(b.points)|)
      invariant calm ==> SameOutside(entries, t0.dirty, t0.flushing, view0, b.dirty, b.flushing, b.View())
      invariant calm ==> b.cache == t0.cache && b.pendingDeletes == t0.pending
      invariant calm ==> Run(entries, settled, current, p.flushed) == Run(entries, settled, current, {})
      invariant calm ==> TokensLeft(t0.flushing, b.flushing, entries, p.flushed)
      decreases Unflushed(entries, p)
    {
      ghost var t := b.Now();
      var wave := NextWave(b, entries, p, calm, doomed);
      RaceKeeps(t, b.Now(), doomed);
      DatedRises(entries, p.flushed, t.cache, b.cache);
      RisingTrans(t0.cache, t.cache, b.cache);
      if wave.Fault? {
        TrackedMore(b.ops, b.dirty, b.flushing, doomed, Everyone(entries));
        return Fault, p, stale;
      }
      WaveInside(entries, p, wave.value);
      if calm {
        WaveIsReady(b, entries, epochs, p, settled, wave.value, t0.dirty, t0.flushing, view0);
        RunStep(entries, settled, current, p.flushed);
      }
      if wave.value == [] {
        TracksWithin(entries, epochs, p);
        assert p.flushed + stale == p.flushed;
        return Fine(Unflushed(entries, p) != {}), p, stale;
      }
      ghost var was, now, view := p, b.Now(), b.View();
      ghost var points, ops := b.points, b.ops;
      if safe { AvoidsStill(entries, old(b.ops), b.ops, doomed); }
      var left, p' := FlushWave(b, entries, epochs, p, wave.value, calm, doomed);
      DelsJoin(points, b.points, |old(b.points)|, DelGuids(ops), DelGuids(old(b.ops)));
      RisingTrans(t0.cache, now.cache, b.cache);
      if safe { PointsJoin(points, b.points, |old(b.points)|); }
      p := p';
      if left.Fault? { return Fault, p, stale; }
      stale := left.value;
      CurrentGrows(entries, was.flushed, WaveSet(wave.value), t0.cache, now.cache);
      NothingIssued(b.durable);
      ViewTrans(entries, view0, view, b.durable);
      WaveParts(was.flushed, WaveSet(wave.value), Current(entries, now.cache), p.flushed, stale);
      if calm { TokensSpent(t0.flushing, now.flushing, b.flushing, entries, was.flushed, WaveSet(wave.value)); }
      if stale != {} {
        StaleLeft(entries, was.flushed, WaveSet(wave.value), Current(entries, now.cache), p.flushed);
        return Fine(true), p, stale;
      }
      WaveShrinks(entries, was, wave.value, p);
      if calm {
        SameOutsideTrans(entries, t0.dirty, t0.flushing, view0, now.dirty, now.flushing, view,
                         b.dirty, b.flushing, b.durable, wave.value);
      }
    }
  }

  /** What is flushed was current from the start, if no image was newer than the cache then. */
  ghost predicate CurrentAtFirst(entries: seq<Entry>, flushed: set<nat>, cache: Marks) {
    Dated(entries, Indices(|entries|), cache) ==> flushed <= Current(entries, cache)
  }

  lemma NoneAtFirst(entries: seq<Entry>, cache: Marks)
    ensures CurrentAtFirst(entries, {}, cache)
  {
  }

  lemma CurrentGrows(entries: seq<Entry>, done: set<nat>, wave: set<nat>, cache: Marks, cache': Marks)
    requires CurrentAtFirst(entries, done, cache) && Rising(cache, cache')
    ensures CurrentAtFirst(entries, done + wave * Current(entries, cache'), cache)
  {
    hide Dated, Current, Rising, Indices;
    if Dated(entries, Indices(|entries|), cache) { CurrentSince(entries, cache, cache'); }
  }

  /** Each of these entries has given up its reference, and nothing else has. */
  ghost predicate TokensLeft(flushing: Marks, flushing': Marks, entries: seq<Entry>, done: set<nat>) {
    forall g :: Tok(flushing', g) == Minus(Tok(flushing, g), Count(entries, done, g))
  }

  lemma TokensAll(flushing: Marks, entries: seq<Entry>)
    ensures TokensLeft(flushing, flushing, entries, {})
  {
    assert forall g :: At(entries, {}, g) == {};
  }

  lemma TokensSpent(f0: Marks, f: Marks, f': Marks, entries: seq<Entry>, done: set<nat>, wave: set<nat>)
    requires TokensLeft(f0, f, entries, done) && done !! wave
    requires forall g :: Tok(f', g) == Minus(Tok(f, g), Count(entries, wave, g))
    ensures TokensLeft(f0, f', entries, done + wave)
  {
    hide Count;
    forall g ensures Tok(f', g) == Minus(Tok(f0, g), Count(entries, done + wave, g)) {
      CountSplit(entries, done, wave, g);
    }
  }

  // ---------- epochs ----------

  /** A drained image; the frame of a sound one can be searched for its children. */
  datatype Drained = Drained(guid: Guid, seqno: nat, image: Image, sound: bool)

  /** What one planner round drained: images to write, and blobs to delete after them. */
  datatype Epoch = Epoch(entries: seq<Drained>, pending: Marks)

  function Tag(drained: seq<Drained>, k: nat): (r: seq<Entry>)
    ensures |r| == |drained|
  {
    seq(|drained|, i requires 0 <= i < |drained| => Entry(k, drained[i].guid, drained[i].seqno, drained[i].image))
  }

  /** The entries of all epochs, in order, tagged with their epoch. */
  function Batch(epochs: seq<Epoch>): seq<Entry> {
    if epochs == [] then [] else Batch(epochs[..|epochs| - 1]) + Tag(epochs[|epochs| - 1].entries, |epochs| - 1)
  }

  lemma {:induction false} BatchEpochs(epochs: seq<Epoch>)
    ensures EpochsBelow(Batch(epochs), |epochs|)
    decreases |epochs|
  {
    if epochs != [] { BatchEpochs(epochs[..|epochs| - 1]); }
  }

  predicate AllSound(epochs: seq<Epoch>) {
    forall k :: 0 <= k < |epochs| ==> forall i :: 0 <= i < |epochs[k].entries| ==> epochs[k].entries[i].sound
  }

  function AllPending(epochs: seq<Epoch>): set<Guid> { set k, g | 0 <= k < |epochs| && g in epochs[k].pending :: g }

  /** Gathers the batch; a frame whose children cannot be read fails it. */
  method CollectEntries(epochs: seq<Epoch>) returns (entries: seq<Entry>, failed: bool)
    ensures entries == Batch(epochs)
    ensures failed <==> !AllSound(epochs)
  {
    entries, failed := [], false;
    for k := 0 to |epochs|
      invariant entries == Batch(epochs[..k])
      invariant failed <==> !AllSound(epochs[..k])
    {
      assert epochs[..k + 1][..k] == epochs[..k];
      var drained := epochs[k].entries;
      for i := 0 to |drained|
        invariant entries == Batch(epochs[..k]) + Tag(drained, k)[..i]
        invariant failed <==> !AllSound(epochs[..k]) || exists j :: 0 <= j < i && !drained[j].sound
      {
        if !drained[i].sound { failed := true; }
        entries := entries + [Entry(k, drained[i].guid, drained[i].seqno, drained[i].image)];
      }
    }
    assert epochs[..|epochs|] == epochs;
  }

  // ---------- putting back ----------

  /** The mark restored for a guid is that of its last entry: the map keeps one per guid. */
  ghost predicate LastMarks(entries: seq<Entry>, at: set<nat>, marks: Marks) {
    && marks.Keys == GuidsOf(entries, at)
    && forall g :: g in marks ==> LastMark(entries, at, g, marks[g])
  }

  ghost predicate LastMark(entries: seq<Entry>, at: set<nat>, g: Guid, seqno: nat) {
    exists i :: i in at && i < |entries| && entries[i].guid == g && entries[i].seqno == seqno
             && forall j :: j in at && j < |entries| && entries[j].guid == g ==> j <= i
  }

  method CollectMarks(entries: seq<Entry>, at: set<nat>) returns (marks: Marks)
    requires at <= Indices(|entries|)
    ensures LastMarks(entries, at, marks)
  {
    hide Indices;
    marks := map[];
    assert at * Indices(0) == {};
    for k := 0 to |entries|
      invariant LastMarks(entries, at * Indices(k), marks)
    {
      var next := at * Indices(k + 1);
      if k in at {
        assert next == at * Indices(k) + {k};
        MarkLast(entries, at * Indices(k), k, marks);
        marks := marks[entries[k].guid := entries[k].seqno];
      } else {
        assert next == at * Indices(k);
      }
    }
    assert at * Indices(|entries|) == at;
  }

  lemma MarkLast(entries: seq<Entry>, at: set<nat>, k: nat, marks: Marks)
    requires k < |entries| && LastMarks(entries, at, marks) && forall i :: i in at ==> i < k
    ensures LastMarks(entries, at + {k}, marks[entries[k].guid := entries[k].seqno])
  {
    var g0, all := entries[k].guid, at + {k};
    var marks' := marks[g0 := entries[k].seqno];
    assert GuidsOf(entries, all) == GuidsOf(entries, at) + {g0};
    forall g | g in marks' ensures LastMark(entries, all, g, marks'[g]) {
      if g == g0 {
        assert k in all && entries[k].guid == g0;
      } else {
        var i :| i in at && i < |entries| && entries[i].guid == g && entries[i].seqno == marks[g]
              && forall j :: j in at && j < |entries| && entries[j].guid == g ==> j <= i;
        assert i in all;
      }
    }
  }

  /** Dirty again, with a mark no later than that of one of its entries. */
  ghost predicate Marked(entries: seq<Entry>, dirty: Marks, g: Guid) {
    g in dirty && exists j :: 0 <= j < |entries| && entries[j].guid == g && dirty[g] <= entries[j].seqno
  }

  /** Marked dirty again, no later than the last of its entries among `at`, or queued for deletion. */
  ghost predicate PutBack(entries: seq<Entry>, at: set<nat>, dirty: Marks, pending: Marks, g: Guid) {
    g in pending || (g in dirty && exists seqno :: LastMark(entries, at, g, seqno) && dirty[g] <= seqno)
  }

  lemma PutBackIsMarked(entries: seq<Entry>, at: set<nat>, dirty: Marks, pending: Marks, g: Guid)
    requires PutBack(entries, at, dirty, pending, g)
    ensures g in pending || Marked(entries, dirty, g)
  {
  }

  method RestoreEntries(b: Buffer, entries: seq<Entry>, at: set<nat>, ghost doomed: set<Guid>, ghost ours: set<Guid>)
    requires b.Counted() && at <= Indices(|entries|) && b.pendingDeletes.Keys <= doomed
    requires WritesTracked(b.ops, b.dirty, b.flushing, doomed, ours) && ours <= GuidsOf(entries, at)
    modifies b`dirty, b`flushing
    ensures b.Counted() && WritesTracked(b.ops, b.dirty, b.flushing, doomed, {})
    ensures forall i :: i in at && i < |entries| ==> PutBack(entries, at, b.dirty, b.pendingDeletes, entries[i].guid)
    ensures forall g :: g in b.dirty ==> g in old(b.dirty) || g in GuidsOf(entries, at)
    ensures forall g :: g in old(b.dirty) ==> g in b.dirty && b.dirty[g] <= old(b.dirty)[g]
    ensures forall g :: Tok(b.flushing, g) == Less(old(Tok(b.flushing, g)), g in GuidsOf(entries, at))
  {
    hide LastMark, Indices, Merged, PutGuids;
    var marks := CollectMarks(entries, at);
    MergedLow(b.dirty, marks - b.pendingDeletes.Keys);
    b.RestoreDirty(marks);
    assert forall g :: g in b.flushing <==> Tok(b.flushing, g) > 0;
    forall i | i in at && i < |entries| ensures PutBack(entries, at, b.dirty, b.pendingDeletes, entries[i].guid) {
      var g := entries[i].guid;
      assert g in GuidsOf(entries, at);
      assert LastMark(entries, at, g, marks[g]);
    }
  }

  method RestoreAllPending(b: Buffer, epochs: seq<Epoch>)
    modifies b`pendingDeletes
    ensures forall g :: g in AllPending(epochs) ==> g in b.pendingDeletes
    ensures b.pendingDeletes.Keys <= old(b.pendingDeletes.Keys) + AllPending(epochs)
    ensures forall g :: g in old(b.pendingDeletes) ==> g in b.pendingDeletes
  {
    var all: Marks := map[];
    for k := 0 to |epochs|
      invariant forall i, g :: 0 <= i < k && g in epochs[i].pending ==> g in all
      invariant all.Keys <= AllPending(epochs)
    {
      all := all + epochs[k].pending;
    }
    MergedLow(b.pendingDeletes, all);
    b.RestorePendingDeletes(all);
  }

  // ---------- deletes ----------

  /** No durable image refers to any of the blobs. */
  predicate NoneRefers(store: Store, guids: set<Guid>) { forall h :: h in store ==> store[h].children !! guids }

  /** Crash points are safe so far, if no image refers to a blob whose delete was issued. */
  ghost predicate DelSafe(store: Store, ops: seq<StoreOp>, points: seq<Point>, from: nat) {
    NoneRefers(store, DelGuids(ops)) ==> Anchored(store, ops) && PointsSafe(points, from)
  }

  /** The first crash point of the deletes shows the store as they found it, and is there as soon as
      one of them was issued. */
  ghost predicate Begun(points: seq<Point>, from: nat, store: Store, ops: seq<StoreOp>, ops': seq<StoreOp>) {
    && from <= |points| && (ops' != ops ==> from < |points|)
    && (from < |points| ==> points[from].store == store)
  }

  method ExecuteDelete(b: Buffer, g: Guid, ghost from: nat, calm: bool) returns (ok: bool)
    requires PutGuids(b.ops) == {} && from <= |b.points|
    modifies b`ops, b`points, b`faults
    ensures calm ==> ok
    ensures b.faults == old(b.faults) + if ok then 0 else 1
    ensures PutGuids(b.ops) == {} && DelsWithin(b.points, |old(b.points)|, DelGuids(b.ops))
    ensures ok ==> b.points == old(b.points) + [Point(b.durable, b.ops)]
    ensures forall x :: x in DelGuids(b.ops) <==> x in DelGuids(old(b.ops)) || (ok && x == g)
    ensures !ok ==> b.ops == old(b.ops) && b.points == old(b.points)
    ensures old(b.ops) <= b.ops
    ensures DelSafe(b.durable, old(b.ops), old(b.points), from) ==> DelSafe(b.durable, b.ops, b.points, from)
  {
    hide Anchored, PutGuids, DelGuids, Unreferenced, NoneRefers;
    OpsAppend(b.ops, Del(g));
    DelNext(b.durable, b.ops, g);
    ok := b.ExecutePendingDelete(g, calm);
  }

  lemma DelNext(store: Store, ops: seq<StoreOp>, g: Guid)
    requires PutGuids(ops) == {}
    ensures NoneRefers(store, DelGuids(ops + [Del(g)])) ==>
      NoneRefers(store, DelGuids(ops)) && Unreferenced(store, ops, g)
  {
    OpsAppend(ops, Del(g));
    PutsListed(ops);
  }

  method ExecuteEpochDeletes(b: Buffer, pending: Marks, ghost from: nat, calm: bool) returns (failed: Marks)
    requires PutGuids(b.ops) == {} && from <= |b.points|
    modifies b`ops, b`points, b`faults
    ensures b.faults == old(b.faults) + |failed|
    ensures PutGuids(b.ops) == {} && old(b.points) <= b.points && DelsWithin(b.points, |old(b.points)|, DelGuids(b.ops))
    ensures forall x :: x in failed ==> x in pending
    ensures forall x :: x in DelGuids(b.ops) <==> x in DelGuids(old(b.ops)) || (x in pending && x !in failed)
    ensures (forall x :: x in pending ==> x in failed) ==> b.ops == old(b.ops)
    ensures old(b.ops) <= b.ops
    ensures Begun(b.points, |old(b.points)|, b.durable, old(b.ops), b.ops)
    ensures calm ==> forall x :: x !in failed
    ensures DelSafe(b.durable, old(b.ops), old(b.points), from) ==> DelSafe(b.durable, b.ops, b.points, from)
  {
    hide PutGuids, DelGuids, DelSafe, Parts, DelsWithin, AlsoDels, Begun;
    failed := map[];
    var todo := pending.Keys;
    ghost var done: set<Guid> := {};
    PartsStart(pending.Keys);
    NoPointsYet(b.points, DelGuids(b.ops));
    NoDelsYet(b.ops);
    NotBegun(b.points, b.durable, b.ops);
    assert |failed| == 0;
    while todo != {}
      invariant Parts(pending.Keys, done, failed.Keys, todo) && b.faults == old(b.faults) + |failed|
      invariant PutGuids(b.ops) == {} && old(b.points) <= b.points
      invariant DelsWithin(b.points, |old(b.points)|, DelGuids(b.ops))
      invariant AlsoDels(old(b.ops), b.ops, done)
      invariant (done == {} ==> b.ops == old(b.ops)) && old(b.ops) <= b.ops
      invariant Begun(b.points, |old(b.points)|, b.durable, old(b.ops), b.ops)
      invariant calm ==> failed.Keys == {}
      invariant DelSafe(b.durable, old(b.ops), old(b.points), from) ==> DelSafe(b.durable, b.ops, b.points, from)
      decreases |todo|
    {
      var g :| g in todo;
      PartsStep(pending.Keys, done, failed.Keys, todo, g);
      FailedNext(failed, g, pending[g]);
      todo := todo - {g};
      ghost var points, ops := b.points, b.ops;
      var ok := ExecuteDelete(b, g, from, calm);
      DelsGrow(points, b.points, |old(b.points)|, DelGuids(ops), DelGuids(b.ops));
      AlsoNext(old(b.ops), ops, b.ops, done, g, ok);
      BegunNext(points, b.points, |old(b.points)|, b.durable, old(b.ops), ops, b.ops);
      if ok {
        done := done + {g};
      } else {
        failed := failed[g := pending[g]];
      }
    }
    PartsEnd(pending.Keys, done, failed.Keys);
    AlsoEnd(old(b.ops), b.ops, done, pending, failed);
  }

  /** Deletes of these blobs came on top. */
  ghost predicate AlsoDels(ops: seq<StoreOp>, ops': seq<StoreOp>, done: set<Guid>) {
    forall x :: x in DelGuids(ops') <==> x in DelGuids(ops) || x in done
  }

  lemma NoDelsYet(ops: seq<StoreOp>)
    ensures AlsoDels(ops, ops, {})
  {
  }

  lemma AlsoNext(ops: seq<StoreOp>, mid: seq<StoreOp>, ops': seq<StoreOp>, done: set<Guid>, g: Guid, ok: bool)
    requires AlsoDels(ops, mid, done)
    requires forall x :: x in DelGuids(ops') <==> x in DelGuids(mid) || (ok && x == g)
    ensures AlsoDels(ops, ops', if ok then done + {g} else done)
  {
    hide DelGuids;
  }

  lemma AlsoEnd(ops: seq<StoreOp>, ops': seq<StoreOp>, done: set<Guid>, pending: Marks, failed: Marks)
    requires AlsoDels(ops, ops', done) && forall x :: x in done <==> x in pending.Keys && x !in failed.Keys
    ensures forall x :: x in DelGuids(ops') <==> x in DelGuids(ops) || (x in pending && x !in failed)
  {
    hide DelGuids;
  }

  lemma FailedNext(failed: Marks, g: Guid, seqno: nat)
    requires g !in failed
    ensures failed[g := seqno].Keys == failed.Keys + {g} && |failed[g := seqno]| == |failed| + 1
  {
  }

  lemma BegunNext(points: seq<Point>, points': seq<Point>, from: nat, store: Store, a: seq<StoreOp>, b: seq<StoreOp>,
                  c: seq<StoreOp>)
    requires Begun(points, from, store, a, b)
    requires (points' == points && c == b) || points' == points + [Point(store, c)]
    ensures Begun(points', from, store, a, c)
  {
  }

  lemma NoPointsYet(points: seq<Point>, guids: set<Guid>)
    ensures PointsSafe(points, |points|) && DelsWithin(points, |points|, guids)
  {
  }

  lemma DelsJoin(points: seq<Point>, points': seq<Point>, from: nat, guids: set<Guid>, guids': set<Guid>)
    requires points <= points' && DelsWithin(points, from, guids') && DelsWithin(points', |points|, guids)
    requires guids <= guids'
    ensures DelsWithin(points', from, guids')
  {
    hide DelGuids;
  }

  lemma DelsGrow(points: seq<Point>, points': seq<Point>, from: nat, guids: set<Guid>, guids': set<Guid>)
    requires points <= points' && DelsWithin(points, from, guids) && DelsWithin(points', |points|, guids')
    requires guids <= guids'
    ensures DelsWithin(points', from, guids')
  {
    hide DelGuids;
  }

  ghost predicate Parts(all: set<Guid>, done: set<Guid>, failed: set<Guid>, todo: set<Guid>) {
    done !! todo && failed !! todo && done !! failed && done + failed + todo == all
  }

  lemma PartsStart(all: set<Guid>)
    ensures Parts(all, {}, {}, all)
  {
  }

  lemma PartsStep(all: set<Guid>, done: set<Guid>, failed: set<Guid>, todo: set<Guid>, g: Guid)
    requires Parts(all, done, failed, todo) && g in todo
    ensures Parts(all, done + {g}, failed, todo - {g}) && Parts(all, done, failed + {g}, todo - {g})
    ensures g in all && g !in failed
  {
  }

  lemma PartsEnd(all: set<Guid>, done: set<Guid>, failed: set<Guid>)
    requires Parts(all, done, failed, {})
    ensures forall x :: x in done <==> x in all && x !in failed
    ensures forall x :: x in failed ==> x in all
    ensures (forall x :: x in all ==> x in failed) ==> done == {}
  {
  }

  lemma PutsListed(ops: seq<StoreOp>)
    ensures forall i :: 0 <= i < |ops| && ops[i].Put? ==> ops[i].guid in PutGuids(ops)
  {
  }

  lemma Shorter(failed: Marks, pending: Marks)
    requires failed.Keys <= pending.Keys
    ensures |failed| <= |pending|
    ensures |failed| == |pending| <==> failed.Keys == pending.Keys
  {
    assert pending.Keys == failed.Keys + (pending.Keys - failed.Keys);
  }

  /** Each pending delete of an epoch was executed, or failed and is queued again. */
  ghost predicate EpochDone(pending: Marks, failed: Marks, queued: Marks, deleted: set<Guid>) {
    && failed.Keys <= pending.Keys && failed.Keys <= queued.Keys
    && pending.Keys - failed.Keys <= deleted
  }

  /** One epoch's deletes, failures queued again. */
  method ExecuteEpoch(b: Buffer, pending: Marks, ghost from: nat, calm: bool) returns (failed: Marks)
    requires PutGuids(b.ops) == {} && from <= |b.points|
    modifies b`ops, b`points, b`pendingDeletes, b`faults
    ensures b.faults == old(b.faults) + |failed|
    ensures PutGuids(b.ops) == {} && old(b.points) <= b.points && DelsWithin(b.points, |old(b.points)|, DelGuids(b.ops))
    ensures EpochDone(pending, failed, b.pendingDeletes, DelGuids(b.ops))
    ensures DelGuids(old(b.ops)) <= DelGuids(b.ops) <= DelGuids(old(b.ops)) + pending.Keys
    ensures Queued(old(b.pendingDeletes), b.pendingDeletes, pending.Keys)
    ensures |failed| <= |pending| && (|failed| == |pending| ==> b.ops == old(b.ops))
    ensures old(b.ops) <= b.ops && (|failed| < |pending| ==> b.ops != [])
    ensures Begun(b.points, |old(b.points)|, b.durable, old(b.ops), b.ops)
    ensures calm ==> b.pendingDeletes == old(b.pendingDeletes) && failed.Keys == {}
    ensures DelSafe(b.durable, old(b.ops), old(b.points), from) ==> DelSafe(b.durable, b.ops, b.points, from)
  {
    hide DelSafe, PutGuids, DelGuids, Merged, DelsWithin, Queued;
    failed := ExecuteEpochDeletes(b, pending, from, calm);
    Shorter(failed, pending);
    if |failed| < |pending| { SomeDeleted(pending, failed, b.ops); }
    QueuedSame(b.pendingDeletes, pending.Keys);
    QueuedMerged(b.pendingDeletes, failed, pending.Keys);
    if failed.Keys != {} { b.RestorePendingDeletes(failed); }
  }

  lemma SomeDeleted(pending: Marks, failed: Marks, ops: seq<StoreOp>)
    requires failed.Keys <= pending.Keys && failed.Keys != pending.Keys
    requires forall x :: x in pending && x !in failed ==> x in DelGuids(ops)
    ensures ops != []
  {
    assert !(pending.Keys <= failed.Keys);
    var x :| x in pending.Keys && x !in failed.Keys;
    assert x in DelGuids(ops);
  }

  lemma QueuedMerged(queued: Marks, failed: Marks, extra: set<Guid>)
    requires failed.Keys <= extra
    ensures Queued(queued, Merged(queued, failed), extra) && failed.Keys <= Merged(queued, failed).Keys
  {
    MergedLow(queued, failed);
  }

  ghost predicate DoneUpTo(epochs: seq<Epoch>, failedBy: seq<Marks>, queued: Marks, deleted: set<Guid>) {
    && |failedBy| <= |epochs|
    && forall i :: 0 <= i < |failedBy| ==> EpochDone(epochs[i].pending, failedBy[i], queued, deleted)
  }

  lemma DoneNext(epochs: seq<Epoch>, failedBy: seq<Marks>, queued: Marks, deleted: set<Guid>, queued': Marks,
                 deleted': set<Guid>, failed: Marks)
    requires DoneUpTo(epochs, failedBy, queued, deleted) && |failedBy| < |epochs|
    requires queued.Keys <= queued'.Keys && deleted <= deleted'
    requires EpochDone(epochs[|failedBy|].pending, failed, queued', deleted')
    ensures DoneUpTo(epochs, failedBy + [failed], queued', deleted')
  {
    hide EpochDone;
    forall i | 0 <= i < |failedBy| ensures EpochDone(epochs[i].pending, failedBy[i], queued', deleted') {
      DoneStays(epochs[i].pending, failedBy[i], queued, deleted, queued', deleted');
    }
  }

  /** More is queued, and only from `extra`. */
  ghost predicate Queued(queued: Marks, queued': Marks, extra: set<Guid>) {
    queued.Keys <= queued'.Keys && queued'.Keys <= queued.Keys + extra
  }

  lemma QueuedTrans(a: Marks, b: Marks, c: Marks, extra: set<Guid>, more: set<Guid>)
    requires Queued(a, b, extra) && Queued(b, c, more) && more <= extra
    ensures Queued(a, c, extra)
  {
  }

  lemma QueuedSame(a: Marks, extra: set<Guid>)
    ensures Queued(a, a, extra)
  {
  }

  /** How many deletes failed. */
  function Total(failedBy: seq<Marks>): nat {
    if failedBy == [] then 0 else Total(failedBy[..|failedBy| - 1]) + |failedBy[|failedBy| - 1]|
  }

  lemma TotalMore(failedBy: seq<Marks>, failed: Marks)
    ensures Total(failedBy + [failed]) == Total(failedBy) + |failed|
  {
    assert (failedBy + [failed])[..|failedBy|] == failedBy;
  }

  predicate NoFailures(failedBy: seq<Marks>) { forall i :: 0 <= i < |failedBy| ==> failedBy[i].Keys == {} }

  /** Executes the pending deletes of every epoch, in order. */
  method ExecuteDeletes(b: Buffer, epochs: seq<Epoch>, ghost from: nat, calm: bool)
    returns (failedBy: seq<Marks>, applied: nat)
    requires PutGuids(b.ops) == {} && from <= |b.points|
    modifies b`ops, b`points, b`pendingDeletes, b`faults
    ensures |failedBy| == |epochs| && PutGuids(b.ops) == {} && b.faults == old(b.faults) + Total(failedBy)
    ensures applied > 0 ==> b.ops != []
    ensures old(b.points) <= b.points && DelsWithin(b.points, |old(b.points)|, DelGuids(b.ops))
    ensures DoneUpTo(epochs, failedBy, b.pendingDeletes, DelGuids(b.ops))
    ensures DelGuids(old(b.ops)) <= DelGuids(b.ops) <= DelGuids(old(b.ops)) + AllPending(epochs)
    ensures Queued(old(b.pendingDeletes), b.pendingDeletes, AllPending(epochs))
    ensures applied == 0 ==> b.ops == old(b.ops)
    ensures Begun(b.points, |old(b.points)|, b.durable, old(b.ops), b.ops)
    ensures calm ==> b.pendingDeletes == old(b.pendingDeletes) && NoFailures(failedBy)
    ensures DelSafe(b.durable, old(b.ops), old(b.points), from) ==> DelSafe(b.durable, b.ops, b.points, from)
  {
    hide PutGuids, DelGuids, AllPending, DelSafe, EpochDone, DoneUpTo, Queued, DelsWithin, Begun;
    NotBegun(b.points, b.durable, b.ops);
    failedBy, applied := [], 0;
    NoneDone(epochs, b.pendingDeletes, DelGuids(b.ops));
    QueuedSame(b.pendingDeletes, AllPending(epochs));
    NoPointsYet(b.points, DelGuids(b.ops));
    for k := 0 to |epochs|
      invariant |failedBy| == k && PutGuids(b.ops) == {} && b.faults == old(b.faults) + Total(failedBy)
      invariant applied > 0 ==> b.ops != []
      invariant old(b.points) <= b.points && DelsWithin(b.points, |old(b.points)|, DelGuids(b.ops))
      invariant DoneUpTo(epochs, failedBy, b.pendingDeletes, DelGuids(b.ops))
      invariant DelGuids(old(b.ops)) <= DelGuids(b.ops) <= DelGuids(old(b.ops)) + AllPending(epochs)
      invariant Queued(old(b.pendingDeletes), b.pendingDeletes, AllPending(epochs))
      invariant applied == 0 ==> b.ops == old(b.ops)
      invariant Begun(b.points, |old(b.points)|, b.durable, old(b.ops), b.ops)
      invariant calm ==> b.pendingDeletes == old(b.pendingDeletes) && NoFailures(failedBy)
      invariant DelSafe(b.durable, old(b.ops), old(b.points), from) ==> DelSafe(b.durable, b.ops, b.points, from)
    {
      PendingOf(epochs, k);
      ghost var queued, deleted, points, ops := b.pendingDeletes, DelGuids(b.ops), b.points, b.ops;
      var failed := ExecuteEpoch(b, epochs[k].pending, from, calm);
      QueuedGrows(queued, b.pendingDeletes, epochs[k].pending.Keys);
      DoneNext(epochs, failedBy, queued, deleted, b.pendingDeletes, DelGuids(b.ops), failed);
      QueuedTrans(old(b.pendingDeletes), queued, b.pendingDeletes, AllPending(epochs), epochs[k].pending.Keys);
      DelsGrow(points, b.points, |old(b.points)|, deleted, DelGuids(b.ops));
      BegunJoin(points, b.points, |old(b.points)|, b.durable, old(b.ops), ops, b.ops);
      TotalMore(failedBy, failed);
      applied := applied + (|epochs[k].pending| - |failed|);
      failedBy := failedBy + [failed];
    }
  }

  lemma NotBegun(points: seq<Point>, store: Store, ops: seq<StoreOp>)
    ensures Begun(points, |points|, store, ops, ops)
  {
  }

  lemma BegunJoin(points: seq<Point>, points': seq<Point>, from: nat, store: Store, a: seq<StoreOp>, b: seq<StoreOp>,
                  c: seq<StoreOp>)
    requires Begun(points, from, store, a, b) && Begun(points', |points|, store, b, c) && points <= points'
    ensures Begun(points', from, store, a, c)
  {
  }

  lemma QueuedGrows(a: Marks, b: Marks, extra: set<Guid>)
    requires Queued(a, b, extra)
    ensures a.Keys <= b.Keys
  {
  }

  lemma NoneDone(epochs: seq<Epoch>, queued: Marks, deleted: set<Guid>)
    ensures DoneUpTo(epochs, [], queued, deleted)
  {
  }

  lemma PointsJoin(points: seq<Point>, points': seq<Point>, from: nat)
    requires points <= points' && PointsSafe(points, from) && PointsSafe(points', |points|)
    ensures PointsSafe(points', from)
  {
    hide Anchored;
  }

  lemma PendingOf(epochs: seq<Epoch>, k: nat)
    requires k < |epochs|
    ensures epochs[k].pending.Keys <= AllPending(epochs)
  {
  }

  lemma PendingFrom(epochs: seq<Epoch>, g: Guid) returns (k: nat)
    requires g in AllPending(epochs)
    ensures k < |epochs| && g in epochs[k].pending
  {
    k :| k < |epochs| && g in epochs[k].pending;
  }

  lemma DoneAt(epochs: seq<Epoch>, failedBy: seq<Marks>, queued: Marks, deleted: set<Guid>, k: nat, g: Guid)
    requires DoneUpTo(epochs, failedBy, queued, deleted) && k < |failedBy| && g in epochs[k].pending
    ensures if g in failedBy[k] then g in queued else g in deleted
  {
    assert EpochDone(epochs[k].pending, failedBy[k], queued, deleted);
  }

  lemma DoneStays(pending: Marks, failed: Marks, queued: Marks, deleted: set<Guid>, queued': Marks, deleted': set<Guid>)
    requires EpochDone(pending, failed, queued, deleted) && queued.Keys <= queued'.Keys && deleted <= deleted'
    ensures EpochDone(pending, failed, queued', deleted')
  {
  }

  /** Deletes that were executed but whose flush failed are queued again. */
  method RestoreApplied(b: Buffer, epochs: seq<Epoch>, failedBy: seq<Marks>)
    requires |failedBy| == |epochs|
    modifies b`pendingDeletes
    ensures forall k, g :: 0 <= k < |epochs| && g in epochs[k].pending && g !in failedBy[k] ==> g in b.pendingDeletes
    ensures b.pendingDeletes.Keys <= old(b.pendingDeletes.Keys) + AllPending(epochs)
    ensures forall g :: g in old(b.pendingDeletes) ==> g in b.pendingDeletes
  {
    var all: Marks := map[];
    for k := 0 to |epochs|
      invariant forall i, g :: 0 <= i < k && g in epochs[i].pending && g !in failedBy[i] ==> g in all
      invariant all.Keys <= AllPending(epochs)
    {
      all := all + (epochs[k].pending - failedBy[k].Keys);
    }
    MergedLow(b.pendingDeletes, all);
    b.RestorePendingDeletes(all);
  }

  // ---------- the commit ----------

  /** Durable with the newest image written, deleted by one of the epochs, marked dirty again, or
      queued for deletion. */
  ghost predicate EntryKept(s: Stand, epochs: seq<Epoch>, entries: seq<Entry>, flushed: set<nat>, i: nat)
    requires i < |entries|
  {
    var g := entries[i].guid;
    || (i in flushed && KeptAt(entries, flushed, s.store, g))
    || (g in AllPending(epochs) && DeleteKept(s, g))
    || Marked(entries, s.table.dirty, g)
    || g in s.table.pending
  }

  /** Gone from the durable store, or still queued. */
  ghost predicate DeleteKept(s: Stand, g: Guid) {
    (g !in s.store && s.ops == []) || g in s.table.pending
  }

  /** Nothing an epoch drained is lost. */
  ghost predicate AllKept(s: Stand, epochs: seq<Epoch>, flushed: set<nat>) {
    && (forall i :: 0 <= i < |Batch(epochs)| ==> EntryKept(s, epochs, Batch(epochs), flushed, i))
    && (forall g :: g in AllPending(epochs) ==> DeleteKept(s, g))
  }

  /** What is reported as flushed is durable, with the newest image flushed, or was deleted after. */
  ghost predicate FlushedKept(store: Store, entries: seq<Entry>, flushed: set<nat>, executed: set<Guid>) {
    forall i :: i in flushed && i < |entries| ==>
      entries[i].guid in executed || KeptAt(entries, flushed, store, entries[i].guid)
  }

  lemma KeptIsFlushed(store: Store, entries: seq<Entry>, flushed: set<nat>)
    requires Kept(entries, flushed, store)
    ensures FlushedKept(store, entries, flushed, {})
  {
  }

  lemma FlushedStays(store: Store, store': Store, entries: seq<Entry>, flushed: set<nat>, executed: set<Guid>)
    requires Kept(entries, flushed, store) && Untouched(store, store', executed)
    ensures FlushedKept(store', entries, flushed, executed)
  {
    forall i | i in flushed && i < |entries| && entries[i].guid !in executed
      ensures KeptAt(entries, flushed, store', entries[i].guid)
    {
      assert KeptAt(entries, flushed, store, entries[i].guid);
    }
  }

  /** Only these blobs changed. */
  ghost predicate Untouched(store: Store, store': Store, executed: set<Guid>) {
    forall g :: g in store && g !in executed ==> g in store' && store'[g] == store[g]
  }

  /** Every return path: nothing drained is lost, no delete runs before every image is flushed, and
      outstanding writes stay tracked. `left` is the store when the deletes begin, `phase` the crash
      points recorded by then: crash points before are safe if no image names a blob that is on its
      way out with a write outstanding, and all of them if no image in `left` names a deleted blob. */
  method CommitEpochBatch(b: Buffer, epochs: seq<Epoch>, calm: bool, doomed: set<Guid>)
    returns (okBy: seq<bool>, error: bool, flushed: set<nat>, stale: set<nat>, executed: set<Guid>,
             ghost failedBy: seq<Marks>, ghost left: Store, ghost phase: nat)
    requires b.Counted() && b.pendingDeletes.Keys <= doomed && AllPending(epochs) <= doomed
    requires WritesTracked(b.ops, b.dirty, b.flushing, doomed, {})
    requires calm ==> AllCached(Batch(epochs), b.cache) && AllSound(epochs)
    modifies b
    ensures Answered(epochs, okBy, error, flushed, executed, failedBy, b.ops, b.faults - old(b.faults))
    ensures b.Counted() && b.pendingDeletes.Keys <= doomed && WritesTracked(b.ops, b.dirty, b.flushing, doomed, {})
    ensures AllKept(b.Standing(), epochs, flushed) && flushed <= Indices(|Batch(epochs)|)
    ensures FlushedKept(b.durable, Batch(epochs), flushed, executed)
    ensures CurrentAtFirst(Batch(epochs), flushed, old(b.cache))
    ensures executed <= AllPending(epochs) && (executed != {} ==> flushed == Indices(|Batch(epochs)|))
    ensures old(b.View()).Keys <= b.View().Keys + executed && DelGuids(b.ops) <= DelGuids(old(b.ops)) + executed
    ensures old(b.points) <= b.points && |old(b.points)| <= phase <= |b.points|
    ensures DelsWithin(b.points[..phase], |old(b.points)|, DelGuids(old(b.ops)))
    ensures DelsWithin(b.points, phase, executed)
    ensures |okBy| == |epochs| && old(b.faults) <= b.faults
    ensures flushed == Indices(|Batch(epochs)|) ==> Truthful(b.durable, b.ops, epochs, okBy, executed)
    ensures executed != {} ==> Kept(Batch(epochs), flushed, left) && ViewOutside(Batch(epochs), old(b.View()), left)
    ensures executed != {} ==> phase < |b.points| && b.points[phase].store == left
    ensures Anchored(old(b.durable), old(b.ops)) && Avoids(Batch(epochs), PutGuids(old(b.ops)) * doomed) ==>
      && PointsSafe(b.points[..phase], |old(b.points)|)
      && (NoneRefers(left, executed) ==> Anchored(b.durable, b.ops) && PointsSafe(b.points, |old(b.points)|))
    ensures calm ==> b.pendingDeletes.Keys <= old(b.pendingDeletes).Keys + AllPending(epochs)
    ensures calm ==> forall k :: 0 <= k < |epochs| ==> okBy[k]
    ensures calm ==> Ran(flushed, stale) == Undisturbed(Batch(epochs), old(b.Now()), old(b.View()))
    ensures calm ==> TokensGiven(old(b.flushing), b.flushing, Batch(epochs), Ran(flushed, stale))
  {
    hide Anchored, Fold, Kept, Avoids, ViewOutside, WritesTracked, Indices, Batch, PutGuids, DelGuids, AllPending,
         Undisturbed, NoneRefers, Truthful, AllKept, DelsWithin, PointsSafe, TokensGiven, AllCached, FlushedKept,
         CurrentAtFirst, Untouched, AllSound, DoneUpTo, Total;
    flushed, stale, executed, failedBy := {}, {}, {}, [];
    left, phase := b.durable, |b.points|;
    var entries, failed := CollectEntries(epochs);
    if failed {
      okBy, error := seq(|epochs|, _ => false), true;
      NothingFlushed(entries, b.durable);
      KeptIsFlushed(b.durable, entries, flushed);
      NoneAtFirst(entries, b.cache);
      NoPointsYet(b.points, DelGuids(b.ops));
      NoPointsYet(b.points, executed);
      AllPoints(b.points);
      GiveBack(b, epochs, Indices(|entries|), flushed, doomed, {});
      NoneOk(b.durable, b.ops, epochs, okBy, executed);
      return;
    }
    var go;
    go, okBy, error, flushed, stale := WritePhase(b, epochs, entries, calm, doomed);
    left, phase := b.durable, |b.points|;
    AllPoints(b.points);
    NoPointsYet(b.points, executed);
    KeptIsFlushed(b.durable, entries, flushed);
    if !go {
      if flushed == Indices(|entries|) { NoneOk(b.durable, b.ops, epochs, okBy, executed); }
      return;
    }
    ghost var points := b.points;
    NothingIssued(b.durable);
    okBy, executed, failedBy := DeletePhase(b, epochs, flushed, |old(b.points)|, calm, doomed);
    assert b.points[..phase] == points;
    FlushedStays(left, b.durable, entries, flushed, executed);
  }

  /** What the epochs are told. After an unreadable frame or a fault of the writes every one of them
      gets an error; when nothing failed but entries are left, none does; after the deletes an epoch
      gets one exactly when one of its own deletes failed or the flush that follows them did. */
  ghost predicate Answered(epochs: seq<Epoch>, okBy: seq<bool>, error: bool, flushed: set<nat>, executed: set<Guid>,
                           failedBy: seq<Marks>, ops: seq<StoreOp>, faults: int) {
    && |okBy| == |epochs|
    && (error ==> (!AllSound(epochs) || faults > 0) && executed == {} && forall k :: 0 <= k < |okBy| ==> !okBy[k])
    && (!error ==> AllSound(epochs))
    && (!error && flushed != Indices(|Batch(epochs)|) ==> faults == 0 && forall k :: 0 <= k < |okBy| ==> okBy[k])
    && (!error && flushed == Indices(|Batch(epochs)|) ==>
          Deleted(epochs, okBy, executed, failedBy, ops) && faults == Total(failedBy) + if ops == [] then 0 else 1)
  }

  /** Each pending delete was executed or failed, and an epoch is fine when none of its own failed and
      everything executed is synced. */
  ghost predicate Deleted(epochs: seq<Epoch>, okBy: seq<bool>, executed: set<Guid>, failedBy: seq<Marks>,
                          ops: seq<StoreOp>) {
    && |okBy| == |failedBy| == |epochs|
    && (forall k :: 0 <= k < |epochs| ==>
          failedBy[k].Keys <= epochs[k].pending.Keys && epochs[k].pending.Keys - failedBy[k].Keys <= executed)
    && (forall k :: 0 <= k < |epochs| ==> (okBy[k] <==> failedBy[k].Keys == {} && ops == []))
  }

  /** The writes, and the restore when they did not all get through; `go` when the deletes are next. */
  method WritePhase(b: Buffer, epochs: seq<Epoch>, entries: seq<Entry>, calm: bool, doomed: set<Guid>)
    returns (go: bool, okBy: seq<bool>, error: bool, flushed: set<nat>, stale: set<nat>)
    requires b.Counted() && b.pendingDeletes.Keys <= doomed && AllPending(epochs) <= doomed && entries == Batch(epochs)
    requires WritesTracked(b.ops, b.dirty, b.flushing, doomed, {})
    requires calm ==> AllCached(entries, b.cache)
    modifies b
    ensures b.Counted() && b.pendingDeletes.Keys <= doomed && WritesTracked(b.ops, b.dirty, b.flushing, doomed, {})
    ensures old(b.points) <= b.points && DelsWithin(b.points, |old(b.points)|, DelGuids(old(b.ops)))
    ensures DelGuids(b.ops) <= DelGuids(old(b.ops)) && old(b.View()).Keys <= b.View().Keys
    ensures flushed <= Indices(|entries|) && Kept(entries, flushed, b.durable)
    ensures CurrentAtFirst(entries, flushed, old(b.cache))
    ensures go ==> flushed == Indices(|entries|) && b.ops == []
    ensures go ==> ViewOutside(entries, old(b.View()), b.durable)
    ensures b.faults == old(b.faults) + if error then 1 else 0
    ensures !go ==> AllKept(b.Standing(), epochs, flushed) && |okBy| == |epochs|
    ensures error ==> !go && forall k :: 0 <= k < |okBy| ==> !okBy[k]
    ensures !go && !error ==> flushed != Indices(|entries|) && forall k :: 0 <= k < |okBy| ==> okBy[k]
    ensures Anchored(old(b.durable), old(b.ops)) && Avoids(entries, PutGuids(old(b.ops)) * doomed) ==>
      Anchored(b.durable, b.ops) && PointsSafe(b.points, |old(b.points)|)
    ensures calm ==> b.pendingDeletes.Keys <= old(b.pendingDeletes).Keys + AllPending(epochs)
    ensures calm && !go ==> forall k :: 0 <= k < |epochs| ==> okBy[k]
    ensures calm ==> Ran(flushed, stale) == Undisturbed(entries, old(b.Now()), old(b.View()))
    ensures calm ==> TokensGiven(old(b.flushing), b.flushing, entries, Ran(flushed, stale))
  {
    hide Anchored, Fold, Tracks, Count, Kept, Avoids, ViewOutside, WritesTracked, Indices, Batch, PutGuids, DelGuids,
         AllPending, Undisturbed, Given, Tok, AllKept, DelsWithin, PointsSafe, TokensLeft, TokensGiven, AllCached,
         Everyone, CurrentAtFirst;
    go, okBy, error, flushed, stale := false, seq(|epochs|, _ => false), false, {}, {};
    BatchEpochs(epochs);
    EveryoneIs(entries);
    NoneAtFirst(entries, b.cache);
    if entries == [] {
      NoEntries(entries, b.Now(), b.View());
      TokensNone(b.flushing, entries);
      NoPointsYet(b.points, DelGuids(b.ops));
      go := b.FlushInner(calm);
      error := !go;
      NothingFlushed(entries, b.durable);
      NothingIssued(b.durable);
      ViewSame(entries, b.durable);
      DelsJoin(old(b.points), b.points, |old(b.points)|, {}, DelGuids(old(b.ops)));
      NothingTracked(b.dirty, b.flushing, doomed);
      if !go { GiveBack(b, epochs, Indices(|entries|), flushed, doomed, {}); }
      return;
    }
    ghost var flushing := b.flushing;
    var report, p, found := WriteEntries(b, entries, |epochs|, calm, doomed);
    flushed, stale := p.flushed, found;
    TracksWithin(entries, |epochs|, p);
    ghost var between := b.flushing;
    if report.Fault? {
      GiveBack(b, epochs, Indices(|entries|), flushed, doomed, Everyone(entries));
      error := true;
    } else if report.value {
      GiveBack(b, epochs, Unflushed(entries, p), flushed, doomed, {});
      if calm { TokensDone(flushing, between, b.flushing, entries, Ran(flushed, stale)); }
      okBy := seq(|epochs|, _ => true);
    } else {
      AllFlushed(b, entries, p);
      if calm { TokensFull(flushing, b.flushing, entries, Ran(flushed, stale)); }
      go := true;
    }
  }

  lemma EveryoneIs(entries: seq<Entry>)
    ensures Everyone(entries) == GuidsOf(entries, Indices(|entries|))
  {
  }

  /** The references of a batch that was written and restored. */
  ghost predicate TokensGiven(flushing: Marks, flushing': Marks, entries: seq<Entry>, ran: Ran) {
    forall g :: Tok(flushing', g) == Minus(Tok(flushing, g), Given(entries, ran, g))
  }

  /** Puts back the entries in `at` and every pending delete. */
  method GiveBack(b: Buffer, epochs: seq<Epoch>, at: set<nat>, ghost flushed: set<nat>, ghost doomed: set<Guid>,
                  ghost ours: set<Guid>)
    requires b.Counted() && b.pendingDeletes.Keys <= doomed && AllPending(epochs) <= doomed
    requires at <= Indices(|Batch(epochs)|) && Indices(|Batch(epochs)|) - flushed <= at
    requires WritesTracked(b.ops, b.dirty, b.flushing, doomed, ours) && ours <= GuidsOf(Batch(epochs), at)
    requires Kept(Batch(epochs), flushed, b.durable)
    modifies b`dirty, b`flushing, b`pendingDeletes
    ensures b.Counted() && b.pendingDeletes.Keys <= doomed && WritesTracked(b.ops, b.dirty, b.flushing, doomed, {})
    ensures AllKept(b.Standing(), epochs, flushed)
    ensures b.pendingDeletes.Keys <= old(b.pendingDeletes).Keys + AllPending(epochs)
    ensures forall g :: Tok(b.flushing, g) == Less(old(Tok(b.flushing, g)), g in GuidsOf(Batch(epochs), at))
  {
    hide Kept, KeptAt, WritesTracked, Indices, AllPending, PutBack, Marked, Tok, Batch;
    RestoreEntries(b, Batch(epochs), at, doomed, ours);
    forall i | i in at && i < |Batch(epochs)|
      ensures Batch(epochs)[i].guid in b.pendingDeletes || Marked(Batch(epochs), b.dirty, Batch(epochs)[i].guid)
    {
      PutBackIsMarked(Batch(epochs), at, b.dirty, b.pendingDeletes, Batch(epochs)[i].guid);
    }
    RestoreAllPending(b, epochs);
    BackIsKept(b, epochs, Batch(epochs), flushed, at);
  }

  /** An epoch reported without an error, in a batch that was flushed, has its deletes done and synced. */
  ghost predicate Truthful(store: Store, ops: seq<StoreOp>, epochs: seq<Epoch>, okBy: seq<bool>, executed: set<Guid>) {
    forall k, g :: 0 <= k < |epochs| && k < |okBy| && okBy[k] && g in epochs[k].pending ==>
      g in executed && g !in store && ops == []
  }

  lemma NoneOk(store: Store, ops: seq<StoreOp>, epochs: seq<Epoch>, okBy: seq<bool>, executed: set<Guid>)
    requires forall k :: 0 <= k < |okBy| ==> !okBy[k]
    ensures Truthful(store, ops, epochs, okBy, executed)
  {
  }

  /** The delete phase: all images are durable. */
  method DeletePhase(b: Buffer, epochs: seq<Epoch>, flushed: set<nat>, ghost from: nat, calm: bool, doomed: set<Guid>)
    returns (okBy: seq<bool>, executed: set<Guid>, ghost failedBy: seq<Marks>)
    requires b.Counted() && flushed == Indices(|Batch(epochs)|) && Kept(Batch(epochs), flushed, b.durable)
    requires b.ops == [] && b.pendingDeletes.Keys <= doomed && AllPending(epochs) <= doomed && from <= |b.points|
    modifies b`ops, b`points, b`pendingDeletes, b`durable, b`faults
    ensures Deleted(epochs, okBy, executed, failedBy, b.ops)
    ensures b.faults == old(b.faults) + Total(failedBy) + if b.ops == [] then 0 else 1
    ensures b.pendingDeletes.Keys <= doomed && WritesTracked(b.ops, b.dirty, b.flushing, doomed, {})
    ensures AllKept(b.Standing(), epochs, flushed) && executed <= AllPending(epochs)
    ensures b.pendingDeletes.Keys <= old(b.pendingDeletes).Keys + AllPending(epochs)
    ensures old(b.durable).Keys <= b.View().Keys + executed && DelGuids(b.ops) <= executed
    ensures Untouched(old(b.durable), b.durable, executed)
    ensures old(b.points) <= b.points && DelsWithin(b.points, |old(b.points)|, executed)
    ensures executed != {} ==> |old(b.points)| < |b.points| && b.points[|old(b.points)|].store == old(b.durable)
    ensures Anchored(old(b.durable), []) && PointsSafe(old(b.points), from) && NoneRefers(old(b.durable), executed) ==>
      Anchored(b.durable, b.ops) && PointsSafe(b.points, from)
    ensures |okBy| == |epochs| && (calm ==> forall k :: 0 <= k < |epochs| ==> okBy[k])
    ensures Truthful(b.durable, b.ops, epochs, okBy, executed)
  {
    hide Anchored, Fold, Kept, KeptAt, Indices, Batch, DelGuids, AllPending, DoneUpTo, EpochDone, NoneRefers,
         PointsSafe, Truthful, AllKept, DelsWithin, Untouched, Total, Deleted;
    NothingIssued(b.durable);
    var failing, applied := ExecuteDeletes(b, epochs, from, calm);
    failedBy := failing;
    executed := DelGuids(b.ops);
    okBy := seq(|epochs|, k requires 0 <= k < |epochs| => failing[k].Keys == {});
    ghost var store, ops, queued, points := b.durable, b.ops, b.pendingDeletes, b.points;
    DelsLeave(store, ops);
    if applied > 0 {
      var ok := b.FlushInner(calm);
      NothingIssued(b.durable);
      DelsMore(points, b.points, |old(b.points)|, executed);
      if PointsSafe(points, from) && PointsSafe(b.points, |points|) { PointsJoin(points, b.points, from); }
      if !ok {
        RestoreApplied(b, epochs, failing);
        okBy := seq(|epochs|, _ => false);
        NoneOk(b.durable, b.ops, epochs, okBy, executed);
      }
    }
    forall g | g in AllPending(epochs) ensures DeleteKept(b.Standing(), g) {
      var k := PendingFrom(epochs, g);
      DoneAt(epochs, failedBy, queued, executed, k, g);
    }
    StillKept(b, epochs, flushed, store, executed);
    DeletedAll(epochs, okBy, executed, failedBy, queued, b.ops);
    if b.ops == [] { TruthfulDone(b.durable, b.ops, epochs, failedBy, okBy, queued, executed); }
  }

  lemma DeletedAll(epochs: seq<Epoch>, okBy: seq<bool>, executed: set<Guid>, failedBy: seq<Marks>, queued: Marks,
                   ops: seq<StoreOp>)
    requires DoneUpTo(epochs, failedBy, queued, executed) && |okBy| == |failedBy| == |epochs|
    requires forall k :: 0 <= k < |epochs| ==> (okBy[k] <==> failedBy[k].Keys == {} && ops == [])
    ensures Deleted(epochs, okBy, executed, failedBy, ops)
  {
    forall k | 0 <= k < |epochs|
      ensures failedBy[k].Keys <= epochs[k].pending.Keys && epochs[k].pending.Keys - failedBy[k].Keys <= executed
    {
      assert EpochDone(epochs[k].pending, failedBy[k], queued, executed);
    }
  }

  lemma DelsLeave(store: Store, ops: seq<StoreOp>)
    requires PutGuids(ops) == {}
    ensures forall g :: g in Fold(store, ops) <==> g in store && g !in DelGuids(ops)
    ensures Untouched(store, Fold(store, ops), DelGuids(ops)) && Untouched(store, store, DelGuids(ops))
  {
    hide Fold, DelGuids;
    forall g ensures g in Fold(store, ops) <==> g in store && g !in DelGuids(ops) { FoldUnwritten(store, ops, g); }
    forall g | g in Fold(store, ops) ensures Fold(store, ops)[g] == store[g] { FoldUnwritten(store, ops, g); }
  }

  lemma DelsMore(points: seq<Point>, points': seq<Point>, from: nat, guids: set<Guid>)
    requires points <= points' && DelsWithin(points, from, guids) && DelsWithin(points', |points|, {})
    ensures DelsWithin(points', from, guids)
  {
    hide DelGuids;
  }

  lemma TruthfulDone(store: Store, ops: seq<StoreOp>, epochs: seq<Epoch>, failedBy: seq<Marks>, okBy: seq<bool>,
                     queued: Marks, executed: set<Guid>)
    requires DoneUpTo(epochs, failedBy, queued, executed) && |failedBy| == |okBy| == |epochs| && ops == []
    requires forall k :: 0 <= k < |okBy| && okBy[k] ==> failedBy[k].Keys == {}
    requires forall g :: g in store ==> g !in executed
    ensures Truthful(store, ops, epochs, okBy, executed)
  {
    hide EpochDone;
    forall k, g | 0 <= k < |epochs| && k < |okBy| && okBy[k] && g in epochs[k].pending
      ensures g in executed && g !in store
    {
      DoneAt(epochs, failedBy, queued, executed, k, g);
      assert g !in failedBy[k].Keys;
    }
  }

  // ---------- steps of the commit ----------

  /** What the batch leaves refers to no pending delete if neither its images do nor those outside. */
  lemma ImagesReferNot(epochs: seq<Epoch>, view: Store, left: Store)
    requires Kept(Batch(epochs), Indices(|Batch(epochs)|), left) && ViewOutside(Batch(epochs), view, left)
    requires forall h :: h in view && h !in Everyone(Batch(epochs)) ==> view[h].children !! AllPending(epochs)
    requires forall i :: 0 <= i < |Batch(epochs)| && NewestOf(Batch(epochs), i) ==>
      Batch(epochs)[i].image.children !! AllPending(epochs)
    ensures NoneRefers(left, AllPending(epochs))
  {
    hide Batch, AllPending, Everyone, Kept, NewestOf;
    var entries := Batch(epochs);
    forall h | h in left ensures left[h].children !! AllPending(epochs) {
      if h in Everyone(entries) {
        var j := NewestLeft(entries, left, h);
      } else {
        assert h in view && view[h] == left[h];
      }
    }
  }

  lemma NewestLeft(entries: seq<Entry>, left: Store, h: Guid) returns (j: nat)
    requires Kept(entries, Indices(|entries|), left) && h in Everyone(entries)
    ensures j < |entries| && h in left && left[h] == entries[j].image && NewestOf(entries, j)
  {
    var i :| i in Indices(|entries|) && i < |entries| && entries[i].guid == h;
    assert KeptAt(entries, Indices(|entries|), left, entries[i].guid);
    j :| j in Indices(|entries|) && j < |entries| && entries[j].guid == h && left[h] == entries[j].image
      && NoNewer(entries, Indices(|entries|), h, entries[j].image.stamp);
  }

  /** No entry of the batch holds a newer image of this blob. */
  predicate NewestOf(entries: seq<Entry>, i: nat)
    requires i < |entries|
  {
    NoNewer(entries, Indices(|entries|), entries[i].guid, entries[i].image.stamp)
  }

  /** A parent that drops its child: the image of one epoch still names it, the next deletes it. */
  function Unlinking(p: Guid, c: Guid): seq<Epoch> {
    [ Epoch([Drained(p, 1, Image({c}, 1), true)], map[]),
      Epoch([Drained(p, 2, Image({}, 2), true)], map[c := 2]) ]
  }

  lemma UnlinkingBatch(p: Guid, c: Guid)
    ensures Batch(Unlinking(p, c)) == [Entry(0, p, 1, Image({c}, 1)), Entry(1, p, 2, Image({}, 2))]
    ensures AllPending(Unlinking(p, c)) == {c}
  {
    var epochs := Unlinking(p, c);
    var once := [epochs[0]];
    assert epochs[..1] == once && once[..0] == [] && Batch(once[..0]) == [];
    assert Batch(once) == [] + Tag(epochs[0].entries, 0);
    assert Batch(epochs) == Batch(once) + Tag(epochs[1].entries, 1);
    assert c in epochs[1].pending && epochs[0].pending == map[];
  }

  /** Images of one blob that were all current at one time have one version. */
  lemma OneVersion(entries: seq<Entry>, cache: Marks, i: nat, j: nat)
    requires Indices(|entries|) <= Current(entries, cache)
    requires i < |entries| && j < |entries| && entries[i].guid == entries[j].guid
    ensures entries[i].image.stamp == entries[j].image.stamp
  {
    assert i in Indices(|entries|) && j in Indices(|entries|);
  }

  /** No image is newer than the cache, and two images of one blob differ in version. */
  ghost predicate TwoVersions(entries: seq<Entry>, cache: Marks) {
    && Dated(entries, Indices(|entries|), cache)
    && exists i, j :: Differ(entries, i, j)
  }

  predicate Differ(entries: seq<Entry>, i: nat, j: nat) {
    && i < |entries| && j < |entries|
    && entries[i].guid == entries[j].guid && entries[i].image.stamp != entries[j].image.stamp
  }

  /** Such a batch is never flushed whole, so none of its deletes run. */
  lemma TwoVersionsDefer(entries: seq<Entry>, cache: Marks, flushed: set<nat>)
    requires TwoVersions(entries, cache) && CurrentAtFirst(entries, flushed, cache)
    ensures flushed != Indices(|entries|)
  {
    hide Dated;
    var i, j :| Differ(entries, i, j);
    if Indices(|entries|) <= Current(entries, cache) { OneVersion(entries, cache, i, j); }
  }

  lemma UnlinkingVersions(p: Guid, c: Guid, cache: Marks)
    requires p in cache && cache[p] >= 2
    ensures TwoVersions(Batch(Unlinking(p, c)), cache)
  {
    hide Batch;
    UnlinkingBatch(p, c);
    assert Differ(Batch(Unlinking(p, c)), 0, 1);
  }

  /** Whatever happens meanwhile, the child stays until a later batch. */
  method UnlinkingDefers(b: Buffer, p: Guid, c: Guid, doomed: set<Guid>) returns (executed: set<Guid>)
    requires b.Counted() && b.pendingDeletes.Keys <= doomed && c in doomed
    requires WritesTracked(b.ops, b.dirty, b.flushing, doomed, {})
    requires p in b.cache && b.cache[p] >= 2 && c in b.View()
    modifies b
    ensures executed == {} && c in b.View() && c in b.pendingDeletes
  {
    hide Batch, AllPending, Fold, WritesTracked, CurrentAtFirst, Anchored, TwoVersions, FlushedKept, Truthful, Indices,
         EntryKept;
    UnlinkingBatch(p, c);
    UnlinkingVersions(p, c, b.cache);
    var okBy, error, flushed, stale;
    ghost var failedBy: seq<Marks>, left, phase, cache := [], b.durable, 0, b.cache;
    okBy, error, flushed, stale, executed, failedBy, left, phase := CommitEpochBatch(b, Unlinking(p, c), false, doomed);
    TwoVersionsDefer(Batch(Unlinking(p, c)), cache, flushed);
    NothingIssued(b.durable);
    assert DeleteKept(b.Standing(), c);
  }

  lemma AllPoints(points: seq<Point>)
    ensures points[..|points|] == points
  {
  }

  lemma StillKept(b: Buffer, epochs: seq<Epoch>, flushed: set<nat>, store: Store, executed: set<Guid>)
    requires Kept(Batch(epochs), flushed, store) && flushed == Indices(|Batch(epochs)|)
    requires executed <= AllPending(epochs)
    requires Untouched(store, b.durable, executed)
    requires forall g :: g in AllPending(epochs) ==> DeleteKept(b.Standing(), g)
    ensures AllKept(b.Standing(), epochs, flushed)
  {
    hide Batch, DeleteKept, AllPending, Marked, Indices;
    var entries := Batch(epochs);
    forall i | 0 <= i < |entries| ensures EntryKept(b.Standing(), epochs, entries, flushed, i) {
      assert KeptAt(entries, flushed, store, entries[i].guid);
    }
  }

  lemma BackIsKept(b: Buffer, epochs: seq<Epoch>, entries: seq<Entry>, flushed: set<nat>, at: set<nat>)
    requires entries == Batch(epochs) && Kept(entries, flushed, b.durable) && Indices(|entries|) - flushed <= at
    requires forall i :: i in at && i < |entries| ==>
      entries[i].guid in b.pendingDeletes || Marked(entries, b.dirty, entries[i].guid)
    requires forall g :: g in AllPending(epochs) ==> g in b.pendingDeletes
    ensures AllKept(b.Standing(), epochs, flushed)
  {
    hide Marked, KeptAt, Batch;
  }

  lemma NoEntries(entries: seq<Entry>, t: Table, view: Store)
    requires entries == []
    ensures Indices(|entries|) == {} && Undisturbed(entries, t, view) == Ran({}, {})
  {
  }

  lemma TokensNone(flushing: Marks, entries: seq<Entry>)
    requires entries == []
    ensures TokensGiven(flushing, flushing, entries, Ran({}, {}))
  {
    assert forall g :: At(entries, {}, g) == {};
  }

  lemma NothingFlushed(entries: seq<Entry>, store: Store)
    ensures Kept(entries, {}, store)
  {
  }

  lemma ViewSame(entries: seq<Entry>, view: Store)
    ensures ViewOutside(entries, view, view)
  {
  }

  lemma AllFlushed(b: Buffer, entries: seq<Entry>, p: Progress)
    requires p.flushed == Indices(|entries|) && entries != [] && (p.flushed == {} || b.ops == [])
    ensures b.ops == [] && Fold(b.durable, b.ops) == b.durable
  {
    assert 0 in p.flushed;
  }

  /** Restoring after a deferral gives up one more reference of each guid that is left. */
  lemma TokensDone(f: Marks, f': Marks, f'': Marks, entries: seq<Entry>, ran: Ran)
    requires ran.flushed <= Indices(|entries|) && TokensLeft(f, f', entries, ran.flushed + ran.stale)
    requires forall g :: Tok(f'', g) == Less(Tok(f', g), g in GuidsOf(entries, Indices(|entries|) - ran.flushed))
    ensures TokensGiven(f, f'', entries, ran)
  {
    hide Tok, Count, Indices;
    forall g ensures Tok(f'', g) == Minus(Tok(f, g), Given(entries, ran, g)) { OneBack(entries, ran.flushed, g); }
  }

  lemma TokensFull(f: Marks, f': Marks, entries: seq<Entry>, ran: Ran)
    requires ran.flushed == Indices(|entries|) && TokensLeft(f, f', entries, ran.flushed + ran.stale)
    ensures TokensGiven(f, f', entries, ran)
  {
    hide Tok, Indices;
    assert forall g :: At(entries, Indices(|entries|) - ran.flushed, g) == {};
  }

  lemma OneBack(entries: seq<Entry>, flushed: set<nat>, g: Guid)
    ensures Restored(entries, flushed, g) == if g in GuidsOf(entries, Indices(|entries|) - flushed) then 1 else 0
  {
    SomeCounted(entries, Indices(|entries|) - flushed, g);
  }

  // ---------- the worker ----------

  /** One batch of a run of the worker. */
  datatype Done = Done(before: Stand, after: Stand, faults: nat, error: bool, flushed: set<nat>, executed: set<Guid>,
                       failedBy: seq<Marks>, left: Store)

  /** What a batch leaves: nothing drained is lost, deletes ran only on a batch that was flushed whole,
      and an epoch reported without an error has its deletes done. */
  ghost predicate BatchDone(epochs: seq<Epoch>, report: seq<bool>, done: Done) {
    && Answered(epochs, report, done.error, done.flushed, done.executed, done.failedBy, done.after.ops, done.faults)
    && |report| == |epochs| && AllKept(done.after, epochs, done.flushed)
    && FlushedKept(done.after.store, Batch(epochs), done.flushed, done.executed)
    && done.executed <= AllPending(epochs)
    && (done.executed != {} ==>
          && done.flushed == Indices(|Batch(epochs)|) && Kept(Batch(epochs), done.flushed, done.left)
          && ViewOutside(Batch(epochs), Fold(done.before.store, done.before.ops), done.left))
    && (done.flushed == Indices(|Batch(epochs)|) ==>
          Truthful(done.after.store, done.after.ops, epochs, report, done.executed))
  }

  /** No image names a blob that is on its way out with a write outstanding, or one that is deleted. */
  ghost predicate Harmless(epochs: seq<Epoch>, done: Done, doomed: set<Guid>) {
    && Avoids(Batch(epochs), PutGuids(done.before.ops) * doomed)
    && NoneRefers(done.left, done.executed)
  }

  /** Between two batches other threads touch the bookkeeping and nobody the store. */
  ghost predicate Follows(was: Stand, now: Stand, doomed: set<Guid>) {
    Raced(was.table, now.table, doomed) && now.store == was.store && now.ops == was.ops
  }

  /** Where the worker stands after `k` batches. */
  function After(start: Stand, dones: seq<Done>, k: nat): Stand
    requires k <= |dones|
  {
    if k == 0 then start else dones[k - 1].after
  }

  ghost predicate Chained(start: Stand, dones: seq<Done>, doomed: set<Guid>) {
    forall k :: 0 <= k < |dones| ==> Follows(After(start, dones, k), dones[k].before, doomed)
  }

  /** The I/O worker: batch after batch. Each does what one commit promises, and if all are harmless
      every crash point of the whole run is safe. */
  method RunWorker(b: Buffer, batches: seq<seq<Epoch>>, doomed: set<Guid>)
    returns (reports: seq<seq<bool>>, ghost dones: seq<Done>)
    requires b.Counted() && b.pendingDeletes.Keys <= doomed && WritesTracked(b.ops, b.dirty, b.flushing, doomed, {})
    requires forall k :: 0 <= k < |batches| ==> AllPending(batches[k]) <= doomed
    modifies b
    ensures b.Counted() && b.pendingDeletes.Keys <= doomed && WritesTracked(b.ops, b.dirty, b.flushing, doomed, {})
    ensures |reports| == |dones| == |batches| && Chained(old(b.Standing()), dones, doomed)
    ensures b.Standing() == After(old(b.Standing()), dones, |dones|)
    ensures forall k :: 0 <= k < |batches| ==> BatchDone(batches[k], reports[k], dones[k])
    ensures old(b.View()).Keys <= b.View().Keys + doomed && old(b.points) <= b.points
    ensures Anchored(old(b.durable), old(b.ops)) && AllHarmless(batches, dones, doomed) ==>
      Anchored(b.durable, b.ops) && PointsSafe(b.points, |old(b.points)|)
  {
    hide Fold, WritesTracked, AllPending, Anchored, PointsSafe, BatchDone, Harmless, Raced, DelsWithin, Chained;
    reports, dones := [], [];
    NoPointsYet(b.points, {});
    NoneChained(b.Standing(), doomed);
    for k := 0 to |batches|
      invariant b.Counted() && b.pendingDeletes.Keys <= doomed && WritesTracked(b.ops, b.dirty, b.flushing, doomed, {})
      invariant |reports| == |dones| == k && Chained(old(b.Standing()), dones, doomed)
      invariant b.Standing() == After(old(b.Standing()), dones, |dones|)
      invariant forall j :: 0 <= j < k ==> BatchDone(batches[j], reports[j], dones[j])
      invariant old(b.View()).Keys <= b.View().Keys + doomed && old(b.points) <= b.points
      invariant Anchored(old(b.durable), old(b.ops)) && AllHarmless(batches[..k], dones, doomed) ==>
        Anchored(b.durable, b.ops) && PointsSafe(b.points, |old(b.points)|)
    {
      ghost var points := b.points;
      var report, done := WorkOnce(b, batches[k], doomed);
      ChainedMore(old(b.Standing()), dones, done, doomed);
      if AllHarmless(batches[..k + 1], dones + [done], doomed) { HarmlessPrefix(batches, dones, done, k, doomed); }
      if PointsSafe(points, |old(b.points)|) && PointsSafe(b.points, |points|) {
        PointsJoin(points, b.points, |old(b.points)|);
      }
      reports, dones := reports + [report], dones + [done];
    }
    assert batches[..|batches|] == batches;
  }

  ghost predicate AllHarmless(batches: seq<seq<Epoch>>, dones: seq<Done>, doomed: set<Guid>) {
    |batches| == |dones| && forall k :: 0 <= k < |batches| ==> Harmless(batches[k], dones[k], doomed)
  }

  /** Other threads, then one batch. */
  method WorkOnce(b: Buffer, epochs: seq<Epoch>, doomed: set<Guid>) returns (report: seq<bool>, ghost done: Done)
    requires b.Counted() && b.pendingDeletes.Keys <= doomed && WritesTracked(b.ops, b.dirty, b.flushing, doomed, {})
    requires AllPending(epochs) <= doomed
    modifies b
    ensures b.Counted() && b.pendingDeletes.Keys <= doomed && WritesTracked(b.ops, b.dirty, b.flushing, doomed, {})
    ensures Follows(old(b.Standing()), done.before, doomed) && done.after == b.Standing()
    ensures BatchDone(epochs, report, done)
    ensures old(b.View()).Keys <= b.View().Keys + doomed && old(b.points) <= b.points
    ensures Anchored(old(b.durable), old(b.ops)) && Harmless(epochs, done, doomed) ==>
      Anchored(b.durable, b.ops) && PointsSafe(b.points, |old(b.points)|)
  {
    hide Fold, WritesTracked, AllPending, Anchored, PointsSafe, AllKept, DelsWithin, Truthful, Kept, ViewOutside,
         Indices, Batch, FlushedKept, NoneRefers, Avoids, PutGuids, Raced, CurrentAtFirst, Answered;
    ghost var was := b.Now();
    b.Race(false, doomed);
    RaceKeeps(was, b.Now(), doomed);
    StillTracked(b.ops, was, b.Now(), doomed, {});
    ghost var before := b.Standing();
    var error, flushed, stale, executed;
    ghost var failedBy: seq<Marks>, left, phase, faults := [], b.durable, 0, b.faults;
    report, error, flushed, stale, executed, failedBy, left, phase := CommitEpochBatch(b, epochs, false, doomed);
    done := Done(before, b.Standing(), b.faults - faults, error, flushed, executed, failedBy, left);
  }

  lemma NoneChained(start: Stand, doomed: set<Guid>)
    ensures Chained(start, [], doomed)
  {
  }

  lemma ChainedMore(start: Stand, dones: seq<Done>, done: Done, doomed: set<Guid>)
    requires Chained(start, dones, doomed)
    requires Follows(After(start, dones, |dones|), done.before, doomed)
    ensures Chained(start, dones + [done], doomed)
  {
    hide Follows;
    var all := dones + [done];
    forall k | 0 <= k < |all| ensures Follows(After(start, all, k), all[k].before, doomed) {
      assert After(start, all, k) == After(start, dones, k);
    }
  }

  lemma HarmlessPrefix(batches: seq<seq<Epoch>>, dones: seq<Done>, done: Done, k: nat, doomed: set<Guid>)
    requires |dones| == k < |batches| && AllHarmless(batches[..k + 1], dones + [done], doomed)
    ensures AllHarmless(batches[..k], dones, doomed) && Harmless(batches[k], done, doomed)
  {
  }

  // ---------- references that are given up too seldom or too often ----------

  /** Two epochs with an image of the same blob, whose child is nowhere. */
  function TwiceBlocked(g: Guid, c: Guid): seq<Epoch> {
    var e := Drained(g, 1, Image({c}, 0), true);
    [Epoch([e], map[]), Epoch([e], map[])]
  }

  lemma TwiceBlockedBatch(g: Guid, c: Guid)
    ensures Batch(TwiceBlocked(g, c)) == [Entry(0, g, 1, Image({c}, 0)), Entry(1, g, 1, Image({c}, 0))]
  {
    var epochs, drained := TwiceBlocked(g, c), [Drained(g, 1, Image({c}, 0), true)];
    var once: seq<Epoch> := [Epoch(drained, map[])];
    assert epochs[..1] == once && once[..0] == [];
    assert Batch(once[..0]) == [] && Batch(once) == [] + Tag(drained, 0);
    assert Batch(epochs) == Batch(once) + Tag(drained, 1);
  }

  lemma TwiceBlockedGiven(g: Guid, c: Guid, t: Table, view: Store)
    requires g != c && c !in view
    ensures var entries := Batch(TwiceBlocked(g, c));
            && Undisturbed(entries, t, view) == Ran({}, {})
            && Given(entries, Ran({}, {}), g) == 1 && Owned(entries, g) == 2
  {
    hide Batch;
    TwiceBlockedBatch(g, c);
    var entries := Batch(TwiceBlocked(g, c));
    var settled := SettledOutside(entries, t.dirty, t.flushing, view);
    forall i | 0 <= i < |entries| ensures !Ready(entries, settled, {}, i) {
      assert c in entries[i].image.children && c !in settled && c !in GuidsOf(entries, {});
    }
    assert ReadyIn(entries, settled, {}) == {};
    assert Indices(2) == {0, 1} && Indices(|entries|) - {} == {0, 1};
    assert At(entries, {0, 1}, g) == {0, 1} && At(entries, {}, g) == {};
  }

  /** Committing it, with its two references and no other, leaves one of them behind. */
  method RepeatedGuidLeaks(b: Buffer, g: Guid, c: Guid)
    requires b.Counted() && Tok(b.flushing, g) == 2 && g in b.cache && b.pendingDeletes == map[]
    requires g != c && b.ops == [] && c !in b.durable
    modifies b
    ensures Tok(b.flushing, g) == 1
  {
    hide Batch, Fold, Given, Owned, Undisturbed, Anchored;
    NothingIssued(b.durable);
    TwiceBlockedBatch(g, c);
    TwiceBlockedGiven(g, c, b.Now(), b.View());
    assert PutGuids(b.ops) == {};
    var okBy, error, flushed, stale, executed, failedBy, left, phase :=
      CommitEpochBatch(b, TwiceBlocked(g, c), true, {});
  }

  /** One epoch with one image of one blob. */
  function Single(g: Guid, image: Image): seq<Epoch> { [Epoch([Drained(g, 1, image, true)], map[])] }

  lemma SingleBatch(g: Guid, image: Image)
    ensures Batch(Single(g, image)) == [Entry(0, g, 1, image)]
  {
    var epochs := Single(g, image);
    assert epochs[..0] == [] && Batch(epochs[..0]) == [];
    assert Batch(epochs) == [] + Tag(epochs[0].entries, 0);
  }

  lemma SingleStale(g: Guid, t: Table, view: Store)
    requires g in t.cache && t.cache[g] != 0
    ensures var entries := Batch(Single(g, Image({}, 0)));
            && Undisturbed(entries, t, view) == Ran({}, {0})
            && Given(entries, Ran({}, {0}), g) == 2 && Owned(entries, g) == 1
  {
    hide Batch;
    SingleBatch(g, Image({}, 0));
    var entries := Batch(Single(g, Image({}, 0)));
    var settled, current := SettledOutside(entries, t.dirty, t.flushing, view), Current(entries, t.cache);
    assert Indices(1) == {0};
    assert ReadyIn(entries, settled, {}) == {0} && current == {};
    assert At(entries, {0}, g) == {0} && {} + {0} == {0} && {0} - {} == {0};
  }

  /** Committing an image that a later epoch has superseded gives up that epoch's reference too. */
  method StaleReleasesTwice(b: Buffer, g: Guid)
    requires b.Counted() && Tok(b.flushing, g) == 2 && g in b.cache && b.cache[g] != 0 && b.pendingDeletes == map[]
    requires b.ops == []
    modifies b
    ensures Tok(b.flushing, g) == 0
  {
    hide Batch, Fold, Given, Owned, Undisturbed, Anchored;
    NothingIssued(b.durable);
    SingleBatch(g, Image({}, 0));
    SingleStale(g, b.Now(), b.View());
    assert PutGuids(b.ops) == {};
    var okBy, error, flushed, stale, executed, failedBy, left, phase :=
      CommitEpochBatch(b, Single(g, Image({}, 0)), true, {});
  }

  /** Two epochs with a parent and its child; the child changed in between. */
  function ChildChanged(g: Guid, c: Guid): seq<Epoch> {
    [ Epoch([Drained(c, 1, Image({}, 0), true), Drained(g, 1, Image({c}, 0), true)], map[]),
      Epoch([Drained(c, 2, Image({}, 1), true), Drained(g, 2, Image({c}, 1), true)], map[]) ]
  }

  lemma ChildChangedBatch(g: Guid, c: Guid)
    ensures Batch(ChildChanged(g, c)) == [Entry(0, c, 1, Image({}, 0)), Entry(0, g, 1, Image({c}, 0)),
                                          Entry(1, c, 2, Image({}, 1)), Entry(1, g, 2, Image({c}, 1))]
    ensures AllPending(ChildChanged(g, c)) == {}
  {
    var epochs := ChildChanged(g, c);
    var once := [epochs[0]];
    assert epochs[..1] == once && once[..0] == [] && Batch(once[..0]) == [];
    assert Batch(once) == [] + Tag(epochs[0].entries, 0);
    assert Batch(epochs) == Batch(once) + Tag(epochs[1].entries, 1);
  }

  lemma ChildChangedReady(g: Guid, c: Guid, settled: set<Guid>)
    requires g != c && c !in settled
    ensures ReadyIn(Batch(ChildChanged(g, c)), settled, {}) == {0, 2}
  {
    hide Batch;
    ChildChangedBatch(g, c);
    var entries := Batch(ChildChanged(g, c));
    assert c !in GuidsOf(entries, {}) && c in entries[1].image.children && c in entries[3].image.children;
    assert forall i :: i in ReadyIn(entries, settled, {}) <==> i == 0 || i == 2;
  }

  lemma ChildChangedCurrent(g: Guid, c: Guid, cache: Marks)
    requires g in cache && c in cache && cache[g] == cache[c] == 1
    ensures Current(Batch(ChildChanged(g, c)), cache) == {2, 3}
  {
    hide Batch;
    ChildChangedBatch(g, c);
    assert forall i :: i in Current(Batch(ChildChanged(g, c)), cache) <==> i == 2 || i == 3;
  }

  lemma ChildChangedRuns(g: Guid, c: Guid, t: Table, view: Store)
    requires g != c && g in t.cache && c in t.cache && t.cache[g] == t.cache[c] == 1
    ensures Undisturbed(Batch(ChildChanged(g, c)), t, view) == Ran({2}, {0})
  {
    hide Batch, ReadyIn, Current, Run, Indices;
    ChildChangedBatch(g, c);
    var entries := Batch(ChildChanged(g, c));
    var settled, current := SettledOutside(entries, t.dirty, t.flushing, view), Current(entries, t.cache);
    assert 0 in Indices(|entries|) && entries[0].guid == c && c in Everyone(entries);
    ChildChangedReady(g, c, settled);
    ChildChangedCurrent(g, c, t.cache);
    RunStep(entries, settled, current, {});
    assert {} + {0, 2} * {2, 3} == {2} && {0, 2} - {2, 3} == {0};
  }

  lemma ChildChangedAt(g: Guid, c: Guid, at: set<nat>)
    requires g != c && at <= {0, 1, 2, 3}
    ensures Count(Batch(ChildChanged(g, c)), at, g) == |at * {1, 3}|
    ensures Count(Batch(ChildChanged(g, c)), at, c) == |at * {0, 2}|
  {
    hide Batch;
    ChildChangedBatch(g, c);
    assert At(Batch(ChildChanged(g, c)), at, g) == at * {1, 3};
    assert At(Batch(ChildChanged(g, c)), at, c) == at * {0, 2};
  }

  lemma FourIndices()
    ensures Indices(4) == {0, 1, 2, 3} && Indices(4) - {2} == {0, 1, 3}
  {
  }

  lemma ChildChangedGiven(g: Guid, c: Guid)
    requires g != c
    ensures var entries := Batch(ChildChanged(g, c));
            && Given(entries, Ran({2}, {0}), g) == 1 && Owned(entries, g) == 2
            && Given(entries, Ran({2}, {0}), c) == 3 && Owned(entries, c) == 2
  {
    hide Batch, Count, Indices;
    ChildChangedBatch(g, c);
    FourIndices();
    ChildChangedAt(g, c, {0, 1, 2, 3});
    ChildChangedAt(g, c, {0, 2});
    ChildChangedAt(g, c, {0, 1, 3});
    assert {0, 1, 2, 3} * {1, 3} == {1, 3} && {0, 1, 2, 3} * {0, 2} == {0, 2} && {2} + {0} == {0, 2};
    assert {0, 2} * {1, 3} == {} && {0, 2} * {0, 2} == {0, 2};
    assert {0, 1, 3} * {1, 3} == {1, 3} && {0, 1, 3} * {0, 2} == {0};
  }

  /** Committing them loses a reference to the child that another epoch holds, and leaves one to the
      parent behind although nothing is blocked. */
  method StaleChildLeaks(b: Buffer, g: Guid, c: Guid)
    requires b.Counted() && Tok(b.flushing, g) == 2 && Tok(b.flushing, c) == 3 && b.pendingDeletes == map[]
    requires g != c && b.ops == [] && g in b.cache && c in b.cache && b.cache[g] == b.cache[c] == 1
    modifies b
    ensures Tok(b.flushing, g) == 1 && Tok(b.flushing, c) == 0
  {
    hide Batch, Fold, Given, Owned, Undisturbed, Anchored;
    ChildChangedBatch(g, c);
    ChildChangedRuns(g, c, b.Now(), b.View());
    ChildChangedGiven(g, c);
    assert PutGuids(b.ops) == {};
    var okBy, error, flushed, stale, executed, failedBy, left, phase :=
      CommitEpochBatch(b, ChildChanged(g, c), true, {});
  }
}
