/**
 What the checkpoint I/O worker uses of the buffer manager: dirty marks, flushing
 references, pending deletes, content versions of cached images, and the store
 underneath with its crash points.
 */
module BufferManager {
  import CheckpointProtocol
  import opened BlobStore
  import opened Waves

  datatype Try<+T> = Fine(value: T) | Fault

  datatype Status = Written | Stale

  type Marks = map<Guid, nat>

  /** A moment at which a crash may strike: what is flushed, and what is outstanding. */
  datatype Point = Point(store: Store, ops: seq<StoreOp>)

  ghost predicate PointsSafe(points: seq<Point>, from: nat) {
    forall i :: from <= i < |points| ==> Anchored(points[i].store, points[i].ops)
  }

  /** Only these blobs were being deleted at any of the points. */
  ghost predicate DelsWithin(points: seq<Point>, from: nat, guids: set<Guid>) {
    forall i :: from <= i < |points| ==> DelGuids(points[i].ops) <= guids
  }

  /** Flushing references held on a blob. */
  function Tok(flushing: Marks, g: Guid): nat { if g in flushing then flushing[g] else 0 }

  /** One less, down to zero. */
  function Less(n: nat, taken: bool): nat { if taken && n > 0 then n - 1 else n }

  /** `k` less, down to zero. */
  function Minus(n: nat, k: nat): nat { if k <= n then n - k else 0 }

  predicate IsUnflushed(dirty: Marks, flushing: Marks, g: Guid) { g in dirty || g in flushing }

  /** A blob with an outstanding write is still marked, on its way out, or one of `ours`. */
  ghost predicate WritesTracked(ops: seq<StoreOp>, dirty: Marks, flushing: Marks, doomed: set<Guid>, ours: set<Guid>) {
    forall g :: g in PutGuids(ops) ==> IsUnflushed(dirty, flushing, g) || g in doomed || g in ours
  }

  /** The bookkeeping that other threads share with the worker. */
  datatype Table = Table(dirty: Marks, flushing: Marks, pending: Marks, cache: Marks)

  /** Everything that the worker leaves for those after it. */
  datatype Stand = Stand(table: Table, store: Store, ops: seq<StoreOp>)

  /** What other threads may do meanwhile: only a blob that is on its way out loses its mark, and
      content versions only rise. */
  ghost predicate Raced(was: Table, now: Table, doomed: set<Guid>) {
    && (forall g :: IsUnflushed(was.dirty, was.flushing, g) ==> IsUnflushed(now.dirty, now.flushing, g) || g in doomed)
    && (forall g :: g in now.flushing ==> now.flushing[g] > 0)
    && now.pending.Keys <= was.pending.Keys + doomed
    && Rising(was.cache, now.cache)
  }

  ghost predicate Rising(cache: Marks, cache': Marks) {
    forall g :: g in cache' ==> g in cache && cache[g] <= cache'[g]
  }

  /** The lower of a blob's mark and `seqno`. */
  function MinMark(marks: Marks, g: Guid, seqno: nat): nat {
    if g in marks && marks[g] < seqno then marks[g] else seqno
  }

  /** Both sets of marks, the lower where they meet. */
  function Merged(marks: Marks, more: Marks): Marks {
    map g | g in marks.Keys + more.Keys :: if g in more then MinMark(marks, g, more[g]) else marks[g]
  }

  /** The entry's image is still the cached one. */
  predicate IsCurrent(cache: Marks, entry: Entry) { entry.guid in cache && cache[entry.guid] == entry.image.stamp }

  /** The entries of a wave, in order. */
  function Select(entries: seq<Entry>, wave: seq<nat>): (r: seq<Entry>)
    requires forall j :: 0 <= j < |wave| ==> wave[j] < |entries|
    ensures |r| == |wave|
  {
    seq(|wave|, j requires 0 <= j < |wave| => entries[wave[j]])
  }

  function Times(wave: seq<Entry>, g: Guid): nat {
    if wave == [] then 0 else Times(wave[..|wave| - 1], g) + if wave[|wave| - 1].guid == g then 1 else 0
  }

  function PutsOf(wave: seq<Entry>, statuses: seq<Status>): seq<StoreOp>
    requires |wave| == |statuses|
  {
    if wave == [] then []
    else
      var front, last := PutsOf(wave[..|wave| - 1], statuses[..|wave| - 1]), wave[|wave| - 1];
      if statuses[|wave| - 1] == Written then front + [Put(last.guid, last.image)] else front
  }

  /** Every issued write comes from a written entry of the wave. */
  lemma {:induction false} PutComesFrom(wave: seq<Entry>, statuses: seq<Status>, k: nat) returns (j: nat)
    requires |wave| == |statuses| && k < |PutsOf(wave, statuses)|
    ensures j < |wave| && statuses[j] == Written && PutsOf(wave, statuses)[k] == Put(wave[j].guid, wave[j].image)
    decreases |wave|
  {
    var n := |wave| - 1;
    if k < |PutsOf(wave[..n], statuses[..n])| {
      j := PutComesFrom(wave[..n], statuses[..n], k);
    } else {
      j := n;
    }
  }

  /** Every written entry of the wave is issued. */
  lemma {:induction false} PutIsIssued(wave: seq<Entry>, statuses: seq<Status>, j: nat) returns (k: nat)
    requires |wave| == |statuses| && j < |wave| && statuses[j] == Written
    ensures k < |PutsOf(wave, statuses)| && PutsOf(wave, statuses)[k] == Put(wave[j].guid, wave[j].image)
    decreases |wave|
  {
    var n := |wave| - 1;
    if j < n {
      k := PutIsIssued(wave[..n], statuses[..n], j);
    } else {
      k := |PutsOf(wave[..n], statuses[..n])|;
    }
  }

  /** Writes of anchored images keep the store anchored. */
  lemma PutAnchored(store: Store, ops: seq<StoreOp>, g: Guid, image: Image)
    requires Anchored(store, ops) && Anchor(store, ops, image)
    ensures Anchored(store, ops + [Put(g, image)])
    ensures forall other: Image :: Anchor(store, ops, other) ==> Anchor(store, ops + [Put(g, image)], other)
  {
    OpsAppend(ops, Put(g, image));
  }

  lemma DelAnchored(store: Store, ops: seq<StoreOp>, g: Guid)
    requires Anchored(store, ops)
    requires forall h :: h in store ==> g !in store[h].children
    requires forall i :: 0 <= i < |ops| && ops[i].Put? ==> g !in ops[i].image.children
    ensures Anchored(store, ops + [Del(g)])
  {
    OpsAppend(ops, Del(g));
  }

  class Buffer {
    var dirty: Marks
    var flushing: Marks
    var pendingDeletes: Marks
    var cache: Marks
    var durable: Store
    var ops: seq<StoreOp>
    ghost var points: seq<Point>
    ghost var faults: nat   // operations of the store or the cache that failed

    ghost predicate Counted()
      reads this
    {
      forall g :: g in flushing ==> flushing[g] > 0
    }

    ghost function Now(): Table
      reads this
    {
      Table(dirty, flushing, pendingDeletes, cache)
    }

    ghost function Standing(): Stand
      reads this
    {
      Stand(Now(), durable, ops)
    }

    /** What the store shows, flushed or not. */
    ghost function View(): Store
      reads this
    {
      Fold(durable, ops)
    }

    /** `mark_dirty`: a blob that has no cached image or is queued for deletion gets no mark. */
    method MarkDirty(g: Guid, seqno: nat)
      modifies this`dirty
      ensures dirty == if g in cache && g !in pendingDeletes then Merged(old(dirty), map[g := seqno]) else old(dirty)
    {
      if g in cache && g !in pendingDeletes {
        dirty := dirty[g := MinMark(dirty, g, seqno)];
      }
    }

    /** `mark_for_delete`: queues the delete and forgets the image and every mark and reference. */
    method MarkForDelete(g: Guid, seqno: nat)
      modifies this`dirty, this`flushing, this`pendingDeletes, this`cache
      ensures pendingDeletes == Merged(old(pendingDeletes), map[g := seqno])
      ensures dirty == old(dirty) - {g} && flushing == old(flushing) - {g} && cache == old(cache) - {g}
    {
      pendingDeletes := pendingDeletes[g := MinMark(pendingDeletes, g, seqno)];
      dirty, flushing, cache := dirty - {g}, flushing - {g}, cache - {g};
    }

    /** Writers change and mark blobs, doomed blobs are queued for deletion, and later rounds drain
        marks into flushing references and pick deletes up. */
    method Race(calm: bool, doomed: set<Guid>)
      requires Counted()
      modifies this`dirty, this`flushing, this`pendingDeletes, this`cache
      ensures Raced(old(Now()), Now(), doomed) && Counted()
      ensures calm ==> Now() == old(Now())
    {
      if calm { return; }
      var steps: int := *;
      while steps > 0
        invariant Raced(old(Now()), Now(), doomed)
      {
        steps := steps - 1;
        var g: int, seqno: int := *, *;
        if g < 0 || seqno < 0 { break; }
        if {
          case g in cache => cache := cache[g := cache[g] + 1];
          case true => MarkDirty(g, seqno);
          case g in doomed => MarkForDelete(g, seqno);
          case g in dirty => dirty, flushing := dirty - {g}, flushing[g := Tok(flushing, g) + 1];
          case true => pendingDeletes := pendingDeletes - {g};
        }
      }
    }

    /** `store_has_blob`: reads may fail. */
    method StoreHas(g: Guid, calm: bool) returns (r: Try<bool>)
      modifies this`faults
      ensures faults == old(faults) + if r.Fault? then 1 else 0
      ensures r.Fine? ==> r.value == (g in Fold(durable, ops))
      ensures calm ==> r.Fine?
    {
      if !calm {
        if * {
          faults := faults + 1;
          return Fault;
        }
      }
      r := Fine(g in Fold(durable, ops));
    }

    method RemoveOneFlushing(g: Guid)
      requires Counted()
      modifies this`flushing
      ensures Counted()
      ensures forall x :: Tok(flushing, x) == Less(old(Tok(flushing, x)), x == g)
    {
      if g in flushing {
        var n := flushing[g] - 1;
        flushing := if n == 0 then flushing - {g} else flushing[g := n];
      }
    }

    /** Drops one reference, and the dirty mark unless a later writer renewed it or the mark stands
        for a structural change. */
    method RetireWriteThrough(g: Guid, seqno: nat)
      requires Counted()
      modifies this`dirty, this`flushing
      ensures Counted()
      ensures forall x :: Tok(flushing, x) == Less(old(Tok(flushing, x)), x == g)
      ensures var hit := seqno != 0xFFFF_FFFF_FFFF_FFFF && g in old(dirty) && old(dirty)[g] == seqno;
              dirty == if hit then old(dirty) - {g} else old(dirty)
    {
      if seqno != CheckpointProtocol.STRUCTURAL_SEQ && g in dirty && dirty[g] == seqno { dirty := dirty - {g}; }
      RemoveOneFlushing(g);
    }

    method IssueWrites(wave: seq<Entry>, statuses: seq<Status>, calm: bool) returns (ok: bool)
      requires |wave| == |statuses|
      modifies this`ops, this`points, this`faults
      ensures faults == old(faults) + if ok then 0 else 1
      ensures ok ==> ops == old(ops) + PutsOf(wave, statuses)
      ensures calm ==> ok
      ensures old(points) <= points && DelsWithin(points, |old(points)|, DelGuids(old(ops)))
      ensures DelGuids(ops) == DelGuids(old(ops)) && old(View()).Keys <= View().Keys
      ensures forall g :: g in PutGuids(ops) ==>
        g in PutGuids(old(ops)) || exists j :: 0 <= j < |wave| && wave[j].guid == g
      ensures Anchored(durable, old(ops)) ==>
        (forall j :: 0 <= j < |wave| ==> Anchor(durable, old(ops), wave[j].image)) ==>
        Anchored(durable, ops) && PointsSafe(points, |old(points)|)
    {
      hide Anchored, Anchor, PutGuids, DelGuids, Fold;
      ghost var safe := Anchored(durable, ops) && forall j :: 0 <= j < |wave| ==> Anchor(durable, ops, wave[j].image);
      assert wave[..0] == [];
      assert PutsOf(wave[..0], statuses[..0]) == [];
      for k := 0 to |wave|
        invariant ops == old(ops) + PutsOf(wave[..k], statuses[..k])
        invariant faults == old(faults)
        invariant old(points) <= points && DelsWithin(points, |old(points)|, DelGuids(old(ops)))
        invariant DelGuids(ops) == DelGuids(old(ops)) && old(View()).Keys <= View().Keys
        invariant forall g :: g in PutGuids(ops) ==>
          g in PutGuids(old(ops)) || exists j :: 0 <= j < |wave| && wave[j].guid == g
        invariant safe ==> Anchored(durable, ops) && PointsSafe(points, |old(points)|)
        invariant safe ==> forall j :: 0 <= j < |wave| ==> Anchor(durable, ops, wave[j].image)
      {
        if !calm {
          if * {
            faults := faults + 1;
            return false;
          }
        }
        assert wave[..k + 1][..k] == wave[..k] && statuses[..k + 1][..k] == statuses[..k];
        if statuses[k] == Written {
          if safe { PutAnchored(durable, ops, wave[k].guid, wave[k].image); }
          OpsAppend(ops, Put(wave[k].guid, wave[k].image));
          PutShows(durable, ops, wave[k].guid, wave[k].image);
          ops := ops + [Put(wave[k].guid, wave[k].image)];
          points := points + [Point(durable, ops)];
        }
      }
      assert wave[..|wave|] == wave && statuses[..|wave|] == statuses;
      ok := true;
    }

    method RetireAll(wave: seq<Entry>)
      requires Counted()
      modifies this`dirty, this`flushing
      ensures Counted()
      ensures forall g :: Tok(flushing, g) == Minus(old(Tok(flushing, g)), Times(wave, g))
      ensures forall g :: (forall j :: 0 <= j < |wave| ==> wave[j].guid != g) ==> (g in dirty <==> g in old(dirty))
    {
      for k := 0 to |wave|
        invariant Counted()
        invariant forall g :: Tok(flushing, g) == Minus(old(Tok(flushing, g)), Times(wave[..k], g))
        invariant forall g :: (forall j :: 0 <= j < |wave| ==> wave[j].guid != g) ==> (g in dirty <==> g in old(dirty))
      {
        assert wave[..k + 1][..k] == wave[..k];
        RetireWriteThrough(wave[k].guid, wave[k].seqno);
      }
      assert wave[..|wave|] == wave;
    }

    /** Which entries are still current; one whose image left the cache is an error. */
    method CheckCurrent(wave: seq<Entry>, calm: bool) returns (r: Try<seq<Status>>)
      requires calm ==> forall j :: 0 <= j < |wave| ==> wave[j].guid in cache
      modifies this`faults
      ensures faults == old(faults) + if r.Fault? then 1 else 0
      ensures calm ==> r.Fine?
      ensures r.Fine? ==> |r.value| == |wave| && forall j :: 0 <= j < |wave| ==>
        wave[j].guid in cache && (r.value[j] == Written <==> IsCurrent(cache, wave[j]))
    {
      var statuses: seq<Status> := [];
      for k := 0 to |wave|
        invariant faults == old(faults)
        invariant |statuses| == k && forall j :: 0 <= j < k ==>
          wave[j].guid in cache && (statuses[j] == Written <==> IsCurrent(cache, wave[j]))
      {
        if wave[k].guid !in cache {
          faults := faults + 1;
          return Fault;
        }
        statuses := statuses + [if IsCurrent(cache, wave[k]) then Written else Stale];
      }
      r := Fine(statuses);
    }

    /** Pushes a wave to the store. On an error some writes may have been issued and nothing is
        retired; otherwise every entry gives up a reference, stale ones included. */
    method WriteThroughBatch(wave: seq<Entry>, calm: bool) returns (r: Try<seq<Status>>)
      requires Counted() && (calm ==> forall j :: 0 <= j < |wave| ==> wave[j].guid in cache)
      modifies this`dirty, this`flushing, this`ops, this`points, this`faults
      ensures faults == old(faults) + if r.Fault? then 1 else 0
      ensures Counted() && old(points) <= points && DelsWithin(points, |old(points)|, DelGuids(old(ops)))
      ensures DelGuids(ops) == DelGuids(old(ops)) && old(View()).Keys <= View().Keys
      ensures r.Fault? ==> dirty == old(dirty) && flushing == old(flushing)
      ensures r.Fine? ==> |r.value| == |wave| && ops == old(ops) + PutsOf(wave, r.value)
      ensures r.Fine? ==> forall j :: 0 <= j < |wave| ==>
        wave[j].guid in cache && (r.value[j] == Written <==> IsCurrent(cache, wave[j]))
      ensures r.Fine? ==> forall g :: Tok(flushing, g) == Minus(old(Tok(flushing, g)), Times(wave, g))
      ensures forall g :: (forall j :: 0 <= j < |wave| ==> wave[j].guid != g) ==> (g in dirty <==> g in old(dirty))
      ensures calm ==> r.Fine?
      ensures forall g :: g in PutGuids(ops) ==>
        g in PutGuids(old(ops)) || exists j :: 0 <= j < |wave| && wave[j].guid == g
      ensures Anchored(durable, old(ops)) ==>
        (forall j :: 0 <= j < |wave| ==> Anchor(durable, old(ops), wave[j].image)) ==>
        Anchored(durable, ops) && PointsSafe(points, |old(points)|)
    {
      hide Anchored, Anchor, PutGuids, DelGuids, PutsOf, Times, Fold;
      r := CheckCurrent(wave, calm);
      if r.Fault? { return; }
      var ok := IssueWrites(wave, r.value, calm);
      if !ok { return Fault; }
      RetireAll(wave);
    }

    method FlushInner(calm: bool) returns (ok: bool)
      modifies this`durable, this`ops, this`points, this`faults
      ensures faults == old(faults) + if ok then 0 else 1
      ensures calm ==> ok
      ensures ok ==> durable == Fold(old(durable), old(ops)) && ops == []
      ensures !ok ==> durable == old(durable) && ops == old(ops)
      ensures old(points) <= points && DelsWithin(points, |old(points)|, {}) && View() == old(View())
      ensures Anchored(old(durable), old(ops)) ==> Anchored(durable, ops) && PointsSafe(points, |old(points)|)
    {
      hide Anchored, Fold, DelGuids;
      NothingIssued(Fold(durable, ops));
      if !calm {
        if * {
          faults := faults + 1;
          return false;
        }
      }
      if Anchored(durable, ops) { FlushAnchored(durable, ops); }
      durable, ops := Fold(durable, ops), [];
      points := points + [Point(durable, ops)];
      ok := true;
    }

    /** Puts marks back, keeping the lower of two; a blob queued for deletion gets none. */
    method RestoreDirty(failed: Marks)
      requires Counted()
      modifies this`dirty, this`flushing
      ensures Counted()
      ensures dirty == Merged(old(dirty), failed - pendingDeletes.Keys)
      ensures forall g :: Tok(flushing, g) == Less(old(Tok(flushing, g)), g in failed)
    {
      hide Merged, MinMark, Without;
      var todo := failed.Keys;
      MergeNone(dirty, failed, pendingDeletes.Keys);
      while todo != {}
        invariant todo <= failed.Keys && Counted()
        invariant dirty == Merged(old(dirty), Without(failed, pendingDeletes.Keys, todo))
        invariant forall g :: Tok(flushing, g) == Less(old(Tok(flushing, g)), g in failed && g !in todo)
        decreases |todo|
      {
        var g :| g in todo;
        MergeStep(old(dirty), failed, pendingDeletes.Keys, todo, g);
        todo := todo - {g};
        RemoveOneFlushing(g);
        if g !in pendingDeletes {
          dirty := dirty[g := MinMark(dirty, g, failed[g])];
        }
      }
      WithoutAny(failed, pendingDeletes.Keys);
    }

    method RestorePendingDeletes(entries: Marks)
      modifies this`pendingDeletes
      ensures pendingDeletes == Merged(old(pendingDeletes), entries)
    {
      hide Merged, MinMark, Without;
      var todo := entries.Keys;
      MergeNone(pendingDeletes, entries, {});
      while todo != {}
        invariant todo <= entries.Keys
        invariant pendingDeletes == Merged(old(pendingDeletes), Without(entries, {}, todo))
        decreases |todo|
      {
        var g :| g in todo;
        MergeStep(old(pendingDeletes), entries, {}, todo, g);
        todo := todo - {g};
        pendingDeletes := pendingDeletes[g := MinMark(pendingDeletes, g, entries[g])];
      }
      WithoutAny(entries, {});
      assert entries - {} == entries;
    }

    /** Removes a blob from the store's manifest; durable with the next flush. */
    method ExecutePendingDelete(g: Guid, calm: bool) returns (ok: bool)
      modifies this`ops, this`points, this`faults
      ensures faults == old(faults) + if ok then 0 else 1
      ensures calm ==> ok
      ensures ok ==> ops == old(ops) + [Del(g)] && points == old(points) + [Point(durable, ops)]
      ensures !ok ==> ops == old(ops) && points == old(points)
      ensures Anchored(durable, old(ops)) && Unreferenced(durable, old(ops), g) ==>
        Anchored(durable, ops) && PointsSafe(points, |old(points)|)
    {
      hide Anchored;
      if !calm {
        if * {
          faults := faults + 1;
          return false;
        }
      }
      if Anchored(durable, ops) && Unreferenced(durable, ops, g) { DelAnchored(durable, ops, g); }
      ops := ops + [Del(g)];
      points := points + [Point(durable, ops)];
      ok := true;
    }
  }

  /** No image, durable or on its way, refers to the blob. */
  predicate Unreferenced(store: Store, ops: seq<StoreOp>, g: Guid) {
    && (forall h :: h in store ==> g !in store[h].children)
    && (forall i :: 0 <= i < |ops| && ops[i].Put? ==> g !in ops[i].image.children)
  }

  function Without(marks: Marks, skip: set<Guid>, todo: set<Guid>): Marks { marks - skip - todo }

  lemma MergeNone(marks: Marks, more: Marks, skip: set<Guid>)
    ensures Merged(marks, Without(more, skip, more.Keys)) == marks
  {
  }

  lemma WithoutAny(marks: Marks, skip: set<Guid>)
    ensures Without(marks, skip, {}) == marks - skip
  {
    assert Without(marks, skip, {}) == marks - skip;
  }

  /** One more of the marks in `more`, unless it is to be skipped. */
  lemma MergeStep(marks: Marks, more: Marks, skip: set<Guid>, todo: set<Guid>, g: Guid)
    requires g in todo && g in more
    ensures var now, next := Merged(marks, Without(more, skip, todo)), Merged(marks, Without(more, skip, todo - {g}));
            next == if g in skip then now else now[g := MinMark(now, g, more[g])]
  {
    var part, part' := Without(more, skip, todo), Without(more, skip, todo - {g});
    if g in skip {
      assert part' == part;
    } else {
      assert part' == part[g := more[g]];
    }
  }

  /** Merging keeps every mark or lowers it, and takes in the others no later than asked. */
  lemma MergedLow(marks: Marks, more: Marks)
    ensures forall g :: g in Merged(marks, more) <==> g in marks || g in more
    ensures forall g :: g in marks ==> Merged(marks, more)[g] <= marks[g]
    ensures forall g :: g in more ==> Merged(marks, more)[g] <= more[g]
  {
  }

  lemma PutShows(store: Store, ops: seq<StoreOp>, g: Guid, image: Image)
    ensures Fold(store, ops + [Put(g, image)]) == Fold(store, ops)[g := image]
  {
    assert (ops + [Put(g, image)])[..|ops|] == ops;
  }

  lemma NothingIssued(store: Store)
    ensures Fold(store, []) == store && DelGuids([]) == {}
  {
  }
}
