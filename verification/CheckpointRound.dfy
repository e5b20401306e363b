/**
 The checkpoint planner: rounds that drain dirty blobs and pending deletes into
 epochs, a bounded pipeline of epochs in flight, and the truncation gate.
 */
module CheckpointRound {
  import opened BlobStore
  import opened BufferManager

  /** What the planner keeps of an epoch until the I/O worker reports it. */
  datatype PendingEpoch = PendingEpoch(id: nat, snap: Marks, pending: Marks)

  datatype Completion = Waiting | Reported(ok: bool) | Dropped

  /** What a round did to the marks, the log and the I/O queue, in order. */
  datatype Act =
    | Snapshotted(dirty: Marks, pending: Marks, cache: Marks, upTo: nat)
    | WalFlushed(upTo: nat)
    | Cloned(cache: Marks, merged: nat, needsFlush: bool)
    | EpochSent(epoch: PendingEpoch, watermark: nat)
    | Truncated(dirty: Marks, flushing: Marks, pending: Marks, inFlight: nat)

  /** Drained and not queued for deletion. */
  function SnapOf(shot: Act): Marks
    requires shot.Snapshotted?
  {
    shot.dirty - shot.pending.Keys
  }

  /** The drained blobs whose content version moved between the snapshot and the clone. */
  function StaleOf(shot: Act, clone: Act): Marks
    requires shot.Snapshotted? && clone.Cloned?
  {
    map g | g in SnapOf(shot) && !(g in shot.cache && g in clone.cache && shot.cache[g] == clone.cache[g]) ::
      SnapOf(shot)[g]
  }

  /** What the epoch writes: everything drained that is not stale. */
  function FreshOf(shot: Act, clone: Act): Marks
    requires shot.Snapshotted? && clone.Cloned?
  {
    SnapOf(shot) - StaleOf(shot, clone).Keys
  }

  /** What it deletes: everything pending, unless an image was stale. */
  function DeletesOf(shot: Act, clone: Act): Marks
    requires shot.Snapshotted? && clone.Cloned?
  {
    if StaleOf(shot, clone).Keys == {} then shot.pending else map[]
  }

  /** There is something to write, delete or flush, or blobs were merged. */
  predicate Due(shot: Act, clone: Act)
    requires shot.Snapshotted? && clone.Cloned?
  {
    FreshOf(shot, clone).Keys != {} || DeletesOf(shot, clone).Keys != {} || clone.merged > 0 || clone.needsFlush
  }

  /** An epoch holds what its snapshot and its clone say, and is sent after the log was flushed up to
      the watermark of the snapshot; the log is truncated only when nothing is dirty, in flight or
      pending. */
  predicate Disciplined(acts: seq<Act>) {
    && (forall i :: 0 <= i < |acts| && acts[i].EpochSent? ==>
          i > 2 && MaySend(acts[i - 3], acts[i - 2], acts[i - 1], acts[i]))
    && (forall i :: 0 <= i < |acts| && acts[i].Truncated? ==>
          acts[i].dirty == map[] && acts[i].flushing == map[] && acts[i].pending == map[] && acts[i].inFlight == 0)
  }

  predicate MaySend(shot: Act, flush: Act, clone: Act, act: Act)
    requires act.EpochSent?
  {
    && shot.Snapshotted? && shot.upTo == act.watermark && flush == WalFlushed(act.watermark) && clone.Cloned?
    && act.epoch.snap == FreshOf(shot, clone) && act.epoch.pending == DeletesOf(shot, clone)
  }

  /** A round that went through: one snapshot, the log flushed up to it, the clones, and then an epoch
      exactly when one is due. */
  ghost predicate Completed(acts: seq<Act>, from: nat, p: nat, inFlight: seq<PendingEpoch>) {
    && from <= p && p + 2 < |acts| && acts[p].Snapshotted? && acts[p + 1] == WalFlushed(acts[p].upTo)
    && acts[p + 2].Cloned?
    && (forall i :: from <= i < |acts| && acts[i].Snapshotted? ==> i == p)
    && (if Due(acts[p], acts[p + 2]) then
          && |acts| == p + 4 && acts[p + 3].EpochSent? && inFlight != []
          && inFlight[|inFlight| - 1] == acts[p + 3].epoch
          && acts[p + 3].epoch.snap == FreshOf(acts[p], acts[p + 2])
          && acts[p + 3].epoch.pending == DeletesOf(acts[p], acts[p + 2])
        else forall i :: from <= i < |acts| ==> !acts[i].EpochSent?)
  }

  lemma DisciplinedMore(acts: seq<Act>, act: Act)
    requires Disciplined(acts)
    requires act.EpochSent? ==>
      |acts| > 2 && MaySend(acts[|acts| - 3], acts[|acts| - 2], acts[|acts| - 1], act)
    requires act.Truncated? ==> act.dirty == map[] && act.flushing == map[] && act.pending == map[] && act.inFlight == 0
    ensures Disciplined(acts + [act])
  {
    hide MaySend;
  }

  /** Some of these marks, as they are. */
  predicate Part(some: Marks, marks: Marks) { forall g :: g in some ==> g in marks && some[g] == marks[g] }

  /** Every one of these marks is still set, no later, or its blob is queued for deletion, and every
      one of these deletes is queued. */
  ghost predicate Holds(dirty: Marks, pendingDeletes: Marks, snap: Marks, pending: Marks) {
    && (forall g :: g in snap ==> g in pendingDeletes || (g in dirty && dirty[g] <= snap[g]))
    && (forall g :: g in pending ==> g in pendingDeletes && pendingDeletes[g] <= pending[g])
  }

  lemma HoldsTrans(d: Marks, q: Marks, d': Marks, q': Marks, snap: Marks, pending: Marks)
    requires Holds(d', q', d, q) && Holds(d, q, snap, pending)
    ensures Holds(d', q', snap, pending)
  {
  }

  lemma HoldsItself(d: Marks, q: Marks)
    ensures Holds(d, q, d, q)
  {
  }

  lemma HoldsMerged(d: Marks, q: Marks, snap: Marks, pending: Marks)
    ensures var q' := Merged(q, pending);
            var d' := Merged(d, snap - q'.Keys);
            Holds(d', q', d, q) && Holds(d', q', snap, pending)
  {
    MergedLow(q, pending);
    MergedLow(d, snap - Merged(q, pending).Keys);
  }

  class Planner {
    const bm: Buffer
    const maxInFlight: nat
    var inFlight: seq<PendingEpoch>
    var completion: map<nat, Completion>
    var nextId: nat
    var queuedWork: nat
    var needsCheckpoint: bool
    ghost var acts: seq<Act>
    ghost var failures: nat   // errors of the log, the cache, the queue to the worker, or its reports

    ghost predicate Valid()
      reads this, bm
    {
      && bm.Counted() && maxInFlight >= 1 && |inFlight| <= maxInFlight
      && (forall i :: 0 <= i < |inFlight| ==> inFlight[i].id in completion)
      && (forall id :: id in completion ==> id < nextId)
      && Disciplined(acts)
    }

    constructor (bm: Buffer, maxInFlight: nat)
      requires bm.Counted()
      ensures Valid() && this.bm == bm && inFlight == [] && acts == []
    {
      this.bm, this.maxInFlight := bm, if maxInFlight == 0 then 1 else maxInFlight;
      inFlight, completion, nextId, queuedWork, needsCheckpoint, acts, failures := [], map[], 0, 0, false, [], 0;
    }

    /** Writers, maintenance and the I/O worker run. A mark goes away only when its blob is queued for
        deletion: retiring a write removes none (`CheckpointSteps.RetireKeepsDirty`). */
    method Yield()
      requires Valid()
      modifies bm`dirty, bm`flushing, bm`pendingDeletes, bm`cache
      modifies this`completion, this`queuedWork, this`needsCheckpoint
      ensures Valid() && completion.Keys == old(completion.Keys)
      ensures old(needsCheckpoint) ==> needsCheckpoint
      ensures Holds(bm.dirty, bm.pendingDeletes, old(bm.dirty), old(bm.pendingDeletes))
      ensures forall id :: id in old(completion) && !old(completion)[id].Waiting? ==>
        completion[id] == old(completion)[id]
    {
      hide Disciplined, Holds, Merged;
      var steps: int := *;
      HoldsItself(bm.dirty, bm.pendingDeletes);
      while steps > 0
        invariant Valid() && completion.Keys == old(completion.Keys) && (old(needsCheckpoint) ==> needsCheckpoint)
        invariant Holds(bm.dirty, bm.pendingDeletes, old(bm.dirty), old(bm.pendingDeletes))
        invariant forall id :: id in old(completion) && !old(completion)[id].Waiting? ==>
          completion[id] == old(completion)[id]
      {
        steps := steps - 1;
        var g: int, n: int := *, *;
        if g < 0 || n < 0 { break; }
        ghost var d, q := bm.dirty, bm.pendingDeletes;
        HoldsItself(d, q);
        if {
          case g in bm.cache => bm.cache := bm.cache[g := bm.cache[g] + 1];
          case true => bm.cache := bm.cache[g := n];
          case true =>
            HoldsMarked(d, q, g, n);
            bm.MarkDirty(g, n);
          case true =>
            HoldsDeleted(d, q, g, n);
            bm.MarkForDelete(g, n);
          case true => RestoreEpoch(map[g := n], map[]);
          case true => RestoreEpoch(map[], map[g := n]);
          case true => bm.flushing := bm.flushing[g := Tok(bm.flushing, g) + 1];
          case true => bm.RemoveOneFlushing(g);
          case true => queuedWork, needsCheckpoint := queuedWork + 1, true;
          case n in completion && completion[n].Waiting? => completion := completion[n := Reported(g == 0)];
          case n in completion && completion[n].Waiting? => completion := completion[n := Dropped];
        }
        HoldsTrans(d, q, bm.dirty, bm.pendingDeletes, old(bm.dirty), old(bm.pendingDeletes));
      }
    }

    /** Reported by the worker, or handed back. */
    ghost predicate Settled(e: PendingEpoch)
      reads this, bm
    {
      (e.id in completion && completion[e.id].Reported?) || Holds(bm.dirty, bm.pendingDeletes, e.snap, e.pending)
    }

    /** Where an epoch that was in flight is now. */
    ghost predicate Accounted(e: PendingEpoch)
      reads this, bm
    {
      e in inFlight || Settled(e)
    }

    method RestoreEpoch(snap: Marks, pending: Marks)
      requires Valid()
      modifies bm`dirty, bm`flushing, bm`pendingDeletes
      ensures Valid() && Holds(bm.dirty, bm.pendingDeletes, snap, pending)
      ensures Holds(bm.dirty, bm.pendingDeletes, old(bm.dirty), old(bm.pendingDeletes))
      ensures bm.pendingDeletes == Merged(old(bm.pendingDeletes), pending)
      ensures bm.dirty == Merged(old(bm.dirty), snap - bm.pendingDeletes.Keys)
      ensures forall g :: Tok(bm.flushing, g) == Less(old(Tok(bm.flushing, g)), g in snap)
    {
      hide Holds, Merged, Disciplined;
      HoldsMerged(bm.dirty, bm.pendingDeletes, snap, pending);
      bm.RestorePendingDeletes(pending);
      bm.RestoreDirty(snap);
    }

    method MaybeTruncate()
      requires Valid()
      modifies this`acts, this`needsCheckpoint
      ensures Valid()
      ensures var clear := && inFlight == [] && old(needsCheckpoint)
                           && bm.dirty == map[] && bm.flushing == map[] && bm.pendingDeletes == map[];
              && acts == old(acts) + (if clear then [Truncated(map[], map[], map[], 0)] else [])
              && needsCheckpoint == (old(needsCheckpoint) && !clear)
    {
      assert acts + [] == acts;
      if inFlight != [] || !needsCheckpoint { return; }
      if bm.dirty == map[] && bm.flushing == map[] && bm.pendingDeletes == map[] {
        needsCheckpoint := false;
        DisciplinedMore(acts, Truncated(bm.dirty, bm.flushing, bm.pendingDeletes, |inFlight|));
        acts := acts + [Truncated(bm.dirty, bm.flushing, bm.pendingDeletes, |inFlight|)];
      }
    }

    /** Retires reported epochs in the order they were sent, up to the first that still runs. */
    method ReapReady() returns (ok: bool)
      requires Valid()
      modifies this, bm`dirty, bm`flushing, bm`pendingDeletes
      ensures Valid() && completion == old(completion) && nextId == old(nextId) && queuedWork == old(queuedWork)
      ensures Holds(bm.dirty, bm.pendingDeletes, old(bm.dirty), old(bm.pendingDeletes))
      ensures forall i :: 0 <= i < |old(inFlight)| ==> Accounted(old(inFlight)[i])
      ensures ok ==> Steady(old(inFlight)) && (inFlight == [] || completion[inFlight[0].id].Waiting?)
      ensures |inFlight| <= |old(inFlight)| && inFlight == old(inFlight)[|old(inFlight)| - |inFlight|..]
      ensures old(acts) <= acts && NoSnapshot(acts, |old(acts)|) && NoneSent(acts, |old(acts)|)
      ensures Reaped(old(acts), acts, ok && inFlight == [] && old(needsCheckpoint), bm.dirty, bm.flushing,
                     bm.pendingDeletes)
      ensures ok && needsCheckpoint && inFlight == [] ==>
        bm.dirty != map[] || bm.flushing != map[] || bm.pendingDeletes != map[]
      ensures old(failures) <= failures && (ok <==> failures == old(failures))
    {
      hide Holds, Disciplined;
      assert acts + [] == acts;
      ghost var was := inFlight;
      ghost var k := 0;
      HoldsItself(bm.dirty, bm.pendingDeletes);
      while inFlight != []
        invariant Valid() && completion == old(completion) && nextId == old(nextId) && queuedWork == old(queuedWork)
        invariant k <= |was| && inFlight == was[k..] && acts == old(acts) && failures == old(failures)
        invariant needsCheckpoint == old(needsCheckpoint)
        invariant bm.dirty == old(bm.dirty) && bm.pendingDeletes == old(bm.pendingDeletes)
        invariant bm.flushing == old(bm.flushing)
        invariant forall i :: 0 <= i < k ==> was[i].id in completion && completion[was[i].id].Reported?
        decreases |inFlight|
      {
        var front := inFlight[0];
        match completion[front.id] {
          case Waiting =>
            Remaining(was, k);
            break;
          case Reported(fine) =>
            inFlight := inFlight[1..];
            k := k + 1;
            if !fine {
              Remaining(was, k);
              failures := failures + 1;
              return false;
            }
          case Dropped =>
            inFlight := inFlight[1..];
            Remaining(was, k + 1);
            failures := failures + 1;
            RestoreEpoch(front.snap, front.pending);
            return false;
        }
      }
      Remaining(was, k);
      MaybeTruncate();
      ok := true;
    }

    /** Waits for the oldest epoch. */
    method WaitOne() returns (ok: bool)
      requires Valid()
      modifies this, bm`dirty, bm`flushing, bm`pendingDeletes, bm`cache
      ensures Valid() && acts == old(acts) && nextId == old(nextId) && (old(needsCheckpoint) ==> needsCheckpoint)
      ensures old(failures) <= failures && (ok <==> failures == old(failures))
      ensures Holds(bm.dirty, bm.pendingDeletes, old(bm.dirty), old(bm.pendingDeletes))
      ensures inFlight == if old(inFlight) == [] then [] else old(inFlight)[1..]
      ensures old(inFlight) != [] ==>
        Settled(old(inFlight)[0]) && old(inFlight)[0].id in completion && !completion[old(inFlight)[0].id].Waiting?
      ensures old(inFlight) != [] ==> (ok <==> completion[old(inFlight)[0].id] == Reported(true))
      ensures old(inFlight) == [] ==> ok
      ensures forall i :: 0 <= i < |old(inFlight)| ==> Accounted(old(inFlight)[i])
      ensures ok ==> Steady(old(inFlight))
      ensures forall id :: id in old(completion) && !old(completion)[id].Waiting? ==>
        id in completion && completion[id] == old(completion)[id]
    {
      hide Holds, Disciplined;
      HoldsItself(bm.dirty, bm.pendingDeletes);
      if inFlight == [] { return true; }
      var front := inFlight[0];
      Remaining(inFlight, 1);
      inFlight := inFlight[1..];
      Yield();
      if completion[front.id].Reported? {
        if !completion[front.id].ok { failures := failures + 1; }
        return completion[front.id].ok;
      }
      failures := failures + 1;
      completion := completion[front.id := Dropped];
      ghost var d, q := bm.dirty, bm.pendingDeletes;
      RestoreEpoch(front.snap, front.pending);
      HoldsTrans(d, q, bm.dirty, bm.pendingDeletes, old(bm.dirty), old(bm.pendingDeletes));
      ok := false;
    }

    /** Waits for every epoch in flight: each is reported or handed back, and it succeeds exactly when
        each was reported without an error. */
    method Drain() returns (ok: bool)
      requires Valid()
      modifies this, bm`dirty, bm`flushing, bm`pendingDeletes, bm`cache
      ensures Valid() && inFlight == []
      ensures Holds(bm.dirty, bm.pendingDeletes, old(bm.dirty), old(bm.pendingDeletes))
      ensures forall i :: 0 <= i < |old(inFlight)| ==> Settled(old(inFlight)[i])
      ensures ok <==> forall i :: 0 <= i < |old(inFlight)| ==> Succeeded(completion, old(inFlight)[i])
      ensures ok && needsCheckpoint ==> bm.dirty != map[] || bm.flushing != map[] || bm.pendingDeletes != map[]
      ensures old(needsCheckpoint) && !needsCheckpoint ==> acts == old(acts) + [Truncated(map[], map[], map[], 0)]
    {
      hide Holds, Disciplined;
      ghost var was := inFlight;
      ghost var k := 0;
      HoldsItself(bm.dirty, bm.pendingDeletes);
      ok := true;
      while inFlight != []
        invariant Valid() && k <= |was| && inFlight == was[k..]
        invariant acts == old(acts) && (old(needsCheckpoint) ==> needsCheckpoint)
        invariant Holds(bm.dirty, bm.pendingDeletes, old(bm.dirty), old(bm.pendingDeletes))
        invariant forall i :: 0 <= i < k ==>
          Settled(was[i]) && was[i].id in completion && !completion[was[i].id].Waiting?
        invariant ok <==> forall i :: 0 <= i < k ==> Succeeded(completion, was[i])
        decreases |inFlight|
      {
        ghost var d, q := bm.dirty, bm.pendingDeletes;
        ghost var reports := completion;
        var fine := WaitOne();
        HoldsTrans(d, q, bm.dirty, bm.pendingDeletes, old(bm.dirty), old(bm.pendingDeletes));
        forall i | 0 <= i < k ensures Settled(was[i]) {
          if !(was[i].id in reports && reports[was[i].id].Reported?) {
            HoldsTrans(d, q, bm.dirty, bm.pendingDeletes, was[i].snap, was[i].pending);
          }
        }
        SameOutcome(reports, completion, was, k);
        ok := ok && fine;
        k := k + 1;
      }
      if ok { MaybeTruncate(); }
    }

    /** Takes all dirty marks and pending deletes, under the exclusive commit gate. A dirty blob that
        is queued for deletion needs no write. */
    method Snapshot() returns (snap: Marks, pending: Marks, upTo: nat)
      requires Valid()
      modifies bm`dirty, bm`flushing, bm`pendingDeletes, this`acts
      ensures Valid() && bm.dirty == map[] && bm.pendingDeletes == map[]
      ensures pending == old(bm.pendingDeletes) && snap == old(bm.dirty) - pending.Keys && upTo == queuedWork
      ensures acts == old(acts) + [Snapshotted(old(bm.dirty), old(bm.pendingDeletes), bm.cache, upTo)]
      ensures forall g :: Tok(bm.flushing, g) == old(Tok(bm.flushing, g)) + if g in snap then 1 else 0
    {
      hide Disciplined;
      pending, upTo := bm.pendingDeletes, queuedWork;
      DisciplinedMore(acts, Snapshotted(bm.dirty, pending, bm.cache, upTo));
      acts := acts + [Snapshotted(bm.dirty, pending, bm.cache, upTo)];
      snap := DrainMarks();
      bm.dirty, bm.pendingDeletes := map[], map[];
    }

    method DrainMarks() returns (snap: Marks)
      requires bm.Counted()
      modifies bm`flushing
      ensures bm.Counted() && snap == bm.dirty - bm.pendingDeletes.Keys
      ensures forall g :: Tok(bm.flushing, g) == old(Tok(bm.flushing, g)) + if g in snap then 1 else 0
    {
      snap := map[];
      var todo := bm.dirty.Keys;
      while todo != {}
        invariant todo <= bm.dirty.Keys && bm.Counted()
        invariant forall g :: g in snap <==> g in bm.dirty && g !in todo && g !in bm.pendingDeletes
        invariant forall g :: g in snap ==> snap[g] == bm.dirty[g]
        invariant forall g :: Tok(bm.flushing, g) == old(Tok(bm.flushing, g)) + if g in snap then 1 else 0
        decreases |todo|
      {
        var g :| g in todo;
        todo := todo - {g};
        if g !in bm.pendingDeletes {
          bm.flushing := bm.flushing[g := Tok(bm.flushing, g) + 1];
          snap := snap[g := bm.dirty[g]];
        }
      }
      assert snap == bm.dirty - bm.pendingDeletes.Keys;
    }

    /** The content versions of the drained blobs; one without a cached image is an error. */
    method CaptureVersions(snap: Marks) returns (r: Try<Marks>)
      ensures r.Fine? <==> snap.Keys <= bm.cache.Keys
      ensures r.Fine? ==> r.value.Keys == snap.Keys && forall g :: g in snap ==> r.value[g] == bm.cache[g]
    {
      var versions: Marks := map[];
      var todo := snap.Keys;
      while todo != {}
        invariant todo <= snap.Keys && snap.Keys - todo <= bm.cache.Keys
        invariant versions.Keys == snap.Keys - todo && forall g :: g in versions ==> versions[g] == bm.cache[g]
        decreases |todo|
      {
        var g :| g in todo;
        if g !in bm.cache { return Fault; }
        todo := todo - {g};
        versions := versions[g := bm.cache[g]];
      }
      r := Fine(versions);
    }

    /** Clones the images whose content version is still the captured one; the others are stale. One
        that has left the cache is an error. */
    method CloneVersioned(snap: Marks, versions: Marks) returns (r: Try<Marks>)
      requires versions.Keys == snap.Keys
      ensures r.Fine? <==> snap.Keys <= bm.cache.Keys
      ensures r.Fine? ==> forall g :: g in r.value <==> g in snap && bm.cache[g] != versions[g]
      ensures r.Fine? ==> forall g :: g in r.value ==> r.value[g] == snap[g]
    {
      var stale: Marks := map[];
      var todo := snap.Keys;
      while todo != {}
        invariant todo <= snap.Keys && snap.Keys - todo <= bm.cache.Keys
        invariant forall g :: g in stale <==> g in snap && g !in todo && bm.cache[g] != versions[g]
        invariant forall g :: g in stale ==> stale[g] == snap[g]
        decreases |todo|
      {
        var g :| g in todo;
        if g !in bm.cache { return Fault; }
        todo := todo - {g};
        if bm.cache[g] != versions[g] { stale := stale[g := snap[g]]; }
      }
      r := Fine(stale);
    }

    /** An epoch sent since `from` is still in flight. */
    ghost predicate SentAt(from: nat, i: int)
      reads this
    {
      from <= i < |acts| && acts[i].EpochSent? && acts[i].epoch in inFlight
    }

    ghost predicate Carried(from: nat, g: Guid, seqno: nat)
      reads this
    {
      exists i :: SentAt(from, i) && Carries(acts[i].epoch, g, seqno)
    }

    ghost predicate CarriedDelete(from: nat, g: Guid)
      reads this
    {
      exists i :: SentAt(from, i) && g in acts[i].epoch.pending
    }

    /** Each mark and each delete is with the buffer manager or went out with an epoch sent since. */
    ghost predicate RoundKept(marks: Marks, deletes: Marks, from: nat)
      reads this, bm
    {
      && (forall g :: g in marks ==>
            g in bm.pendingDeletes || (g in bm.dirty && bm.dirty[g] <= marks[g]) || Carried(from, g, marks[g]))
      && (forall g :: g in deletes ==> g in bm.pendingDeletes || CarriedDelete(from, g))
    }

    lemma HeldIsKept(marks: Marks, deletes: Marks, from: nat)
      requires Holds(bm.dirty, bm.pendingDeletes, marks, deletes)
      ensures RoundKept(marks, deletes, from)
    {
    }

    /** What was held before the snapshot is kept like what the snapshot took. */
    lemma KeptBefore(d: Marks, q: Marks, marks: Marks, deletes: Marks, from: nat)
      requires Holds(d, q, marks, deletes) && RoundKept(d, q, from)
      ensures RoundKept(marks, deletes, from)
    {
      forall g | g in marks
        ensures g in bm.pendingDeletes || (g in bm.dirty && bm.dirty[g] <= marks[g]) || Carried(from, g, marks[g])
      {
        if g in q {
          if g !in bm.pendingDeletes {
            var i :| SentAt(from, i) && g in acts[i].epoch.pending;
            assert Carries(acts[i].epoch, g, marks[g]);
          }
        } else if Carried(from, g, d[g]) {
          var i :| SentAt(from, i) && Carries(acts[i].epoch, g, d[g]);
          assert Carries(acts[i].epoch, g, marks[g]);
        }
      }
    }

    /** Every epoch in flight before is still in flight or was reported. */
    ghost predicate Steady(was: seq<PendingEpoch>)
      reads this
    {
      forall i :: 0 <= i < |was| ==> was[i] in inFlight || (was[i].id in completion && completion[was[i].id].Reported?)
    }

    /** From the snapshot on: whatever fails, what was drained goes back. Other threads run while the
        log is flushed. */
    method Submit(merged: nat, storeDirty: bool) returns (ok: bool)
      requires Valid() && |inFlight| < maxInFlight
      modifies this, bm`dirty, bm`flushing, bm`pendingDeletes, bm`cache
      ensures Valid() && RoundKept(old(bm.dirty), old(bm.pendingDeletes), |old(acts)|)
      ensures old(acts) <= acts && |acts| > |old(acts)| && NoSnapshot(acts, |old(acts)| + 1)
      ensures acts[|old(acts)|] ==
        Snapshotted(old(bm.dirty), old(bm.pendingDeletes), old(bm.cache), old(queuedWork))
      ensures old(failures) <= failures && (ok <==> failures == old(failures))
      ensures ok ==> Completed(acts, |old(acts)|, |old(acts)|, inFlight)
      ensures old(inFlight) <= inFlight && |inFlight| <= |old(inFlight)| + 1
      ensures completion.Keys >= old(completion).Keys
      ensures forall id :: id in old(completion) && !old(completion)[id].Waiting? ==>
        completion[id] == old(completion)[id]
    {
      hide Disciplined, Tok, Holds, RoundKept, Completed;
      var snap, pending, upTo := Snapshot();
      ghost var from, dirty := |old(acts)|, old(bm.dirty);
      var versions := CaptureVersions(snap);
      if versions.Fault? {
        failures := failures + 1;
        RestoreEpoch(snap, pending);
        GoneBack(dirty, snap, pending, from);
        return false;
      }
      Yield();
      ok := Ship(snap, pending, versions.value, upTo, merged, storeDirty, from);
    }

    /** The log flush, the clones, and the epoch. */
    method Ship(snap: Marks, pending: Marks, versions: Marks, upTo: nat, merged: nat, storeDirty: bool, ghost from: nat)
      returns (ok: bool)
      requires Valid() && |inFlight| < maxInFlight
      requires |acts| == from + 1 && acts[from].Snapshotted? && acts[from].upTo == upTo && acts[from].pending == pending
      requires snap == SnapOf(acts[from]) && Captured(snap, versions, acts[from].cache)
      modifies this, bm`dirty, bm`flushing, bm`pendingDeletes
      ensures Valid() && RoundKept(old(acts)[from].dirty, pending, from)
      ensures old(failures) <= failures && (ok <==> failures == old(failures))
      ensures ok ==> Completed(acts, from, from, inFlight)
      ensures old(acts) <= acts && NoSnapshot(acts, from + 1)
      ensures old(inFlight) <= inFlight && |inFlight| <= |old(inFlight)| + 1
      ensures completion.Keys >= old(completion).Keys
      ensures forall id :: id in old(completion) ==> completion[id] == old(completion)[id]
    {
      hide Disciplined, Tok, Holds, RoundKept, StaleOf, FreshOf, DeletesOf, Due, Completed;
      ghost var shot := acts[from];
      var flushed: bool := *;
      if !flushed {
        failures := failures + 1;
        RestoreEpoch(snap, pending);
        GoneBack(shot.dirty, snap, pending, from);
        return false;
      }
      DisciplinedMore(acts, WalFlushed(upTo));
      acts := acts + [WalFlushed(upTo)];
      ok := ShipClones(snap, pending, versions, upTo, merged, storeDirty, from);
    }

    /** The clones and the epoch, once the log is flushed. */
    method ShipClones(snap: Marks, pending: Marks, versions: Marks, upTo: nat, merged: nat, storeDirty: bool,
                      ghost from: nat)
      returns (ok: bool)
      requires Valid() && |inFlight| < maxInFlight
      requires |acts| == from + 2 && acts[from].Snapshotted? && acts[from].upTo == upTo && acts[from].pending == pending
      requires acts[from + 1] == WalFlushed(upTo)
      requires snap == SnapOf(acts[from]) && Captured(snap, versions, acts[from].cache)
      modifies this, bm`dirty, bm`flushing, bm`pendingDeletes
      ensures Valid() && RoundKept(old(acts)[from].dirty, pending, from)
      ensures old(failures) <= failures && (ok <==> failures == old(failures))
      ensures ok ==> Completed(acts, from, from, inFlight)
      ensures old(acts) <= acts && NoSnapshot(acts, from + 1)
      ensures old(inFlight) <= inFlight && |inFlight| <= |old(inFlight)| + 1
      ensures completion.Keys >= old(completion).Keys
      ensures forall id :: id in old(completion) ==> completion[id] == old(completion)[id]
    {
      hide Disciplined, Tok, Holds, RoundKept, StaleOf, FreshOf, DeletesOf, Due, Completed;
      ghost var shot := acts[from];
      var stale := CloneVersioned(snap, versions);
      if stale.Fault? {
        failures := failures + 1;
        RestoreEpoch(snap, pending);
        GoneBack(shot.dirty, snap, pending, from);
        return false;
      }
      ghost var clone := Cloned(bm.cache, merged, inFlight == [] && storeDirty);
      StaleIs(shot, clone, versions, stale.value);
      DisciplinedMore(acts, clone);
      acts := acts + [clone];
      ghost var was, before, id := acts, inFlight, nextId;
      ok := Dispatch(snap, pending, stale.value, upTo, merged, storeDirty, shot);
      if ok { CompletedNow(was, acts, from, before, inFlight, id); }
      SnapshotKept(shot.dirty, snap, pending, from);
    }

    /** All that a snapshot took is back. */
    lemma GoneBack(dirty: Marks, snap: Marks, pending: Marks, from: nat)
      requires snap == dirty - pending.Keys && Holds(bm.dirty, bm.pendingDeletes, snap, pending)
      ensures RoundKept(dirty, pending, from)
    {
      HeldIsKept(snap, pending, from);
      SnapshotKept(dirty, snap, pending, from);
    }

    lemma SnapshotKept(dirty: Marks, snap: Marks, pending: Marks, from: nat)
      requires snap == dirty - pending.Keys && RoundKept(snap, pending, from)
      ensures RoundKept(dirty, pending, from)
    {
      forall g | g in dirty
        ensures g in bm.pendingDeletes || (g in bm.dirty && bm.dirty[g] <= dirty[g]) || Carried(from, g, dirty[g])
      {
        if g in pending {
          if g !in bm.pendingDeletes {
            var i :| SentAt(from, i) && g in acts[i].epoch.pending;
            assert Carries(acts[i].epoch, g, dirty[g]);
          }
        } else {
          assert g in snap && snap[g] == dirty[g];
        }
      }
    }

    /** Puts stale images back, with the deletes that would follow them. */
    method ReturnStale(snap: Marks, pending: Marks, stale: Marks) returns (current: Marks, rest: Marks)
      requires Valid() && Part(stale, snap)
      modifies bm`dirty, bm`flushing, bm`pendingDeletes
      ensures Valid() && current == snap - stale.Keys && rest == if stale.Keys == {} then pending else map[]
      ensures Holds(bm.dirty, bm.pendingDeletes, snap - current.Keys, pending - rest.Keys)
      ensures Holds(bm.dirty, bm.pendingDeletes, old(bm.dirty), old(bm.pendingDeletes))
    {
      hide Disciplined, Tok, Merged;
      current, rest := snap - stale.Keys, pending;
      if stale.Keys != {} {
        MergedLow(bm.dirty, stale - bm.pendingDeletes.Keys);
        bm.RestoreDirty(stale);
        MergedLow(bm.pendingDeletes, pending);
        bm.RestorePendingDeletes(pending);
        rest := map[];
      }
    }

    /** Puts stale images back and sends the rest. */
    method Dispatch(snap: Marks, pending: Marks, stale: Marks, upTo: nat, merged: nat, storeDirty: bool,
                    ghost shot: Act)
      returns (ok: bool)
      requires Valid() && |inFlight| < maxInFlight && Part(stale, snap)
      requires |acts| > 2 && acts[|acts| - 3] == shot && acts[|acts| - 2] == WalFlushed(upTo)
      requires shot.Snapshotted? && shot.upTo == upTo && shot.pending == pending && snap == SnapOf(shot)
      requires acts[|acts| - 1] == Cloned(bm.cache, merged, inFlight == [] && storeDirty)
      requires stale == StaleOf(shot, acts[|acts| - 1])
      modifies this, bm`dirty, bm`flushing, bm`pendingDeletes
      ensures Valid() && forall from: nat :: from <= |old(acts)| ==> RoundKept(snap, pending, from)
      ensures old(failures) <= failures && (ok <==> failures == old(failures))
      ensures var clone := old(acts)[|old(acts)| - 1];
              var epoch := PendingEpoch(old(nextId), FreshOf(shot, clone), DeletesOf(shot, clone));
              if Due(shot, clone) && ok
              then acts == old(acts) + [EpochSent(epoch, upTo)] && inFlight == old(inFlight) + [epoch]
              else old(acts) <= acts && NoneSent(acts, |old(acts)|) && inFlight == old(inFlight)
      ensures old(acts) <= acts && NoSnapshot(acts, |old(acts)|)
      ensures completion.Keys >= old(completion).Keys
      ensures forall id :: id in old(completion) ==> completion[id] == old(completion)[id]
    {
      hide Disciplined, Tok, Holds, RoundKept, StaleOf, SnapOf;
      ghost var clone := acts[|acts| - 1];
      var current, rest := ReturnStale(snap, pending, stale);
      ghost var d, q, n := bm.dirty, bm.pendingDeletes, |acts|;
      if current.Keys == {} && rest.Keys == {} && merged == 0 && !(inFlight == [] && storeDirty) {
        HoldsItself(d, q);
        MaybeTruncate();
        ok := true;
      } else {
        ok := Send(current, rest, upTo);
      }
      forall from: nat | from <= n ensures RoundKept(snap, pending, from) {
        PartsKept(d, q, snap, pending, current, rest, from, n);
      }
    }

    /** What stale images and their deletes were put back for, and what was sent or put back after. */
    lemma PartsKept(d: Marks, q: Marks, snap: Marks, pending: Marks, current: Marks, rest: Marks, from: nat, n: nat)
      requires Holds(d, q, snap - current.Keys, pending - rest.Keys) && Holds(bm.dirty, bm.pendingDeletes, d, q)
      requires Part(current, snap) && Part(rest, pending) && from <= n <= |acts|
      requires Holds(bm.dirty, bm.pendingDeletes, current, rest)
            || (current.Keys == {} && rest.Keys == {})
            || (n < |acts| && acts[n].EpochSent? && acts[n].epoch in inFlight && acts[n].epoch.snap == current
                && acts[n].epoch.pending == rest)
      ensures RoundKept(snap, pending, from)
    {
      HoldsTrans(d, q, bm.dirty, bm.pendingDeletes, snap - current.Keys, pending - rest.Keys);
      forall g | g in snap
        ensures g in bm.pendingDeletes || (g in bm.dirty && bm.dirty[g] <= snap[g]) || Carried(from, g, snap[g])
      {
        if g in current {
          assert current[g] == snap[g];
        } else {
          assert g in snap - current.Keys;
        }
      }
      forall g | g in pending ensures g in bm.pendingDeletes || CarriedDelete(from, g) {
        if g !in rest { assert g in pending - rest.Keys; }
      }
    }

    method Send(snap: Marks, pending: Marks, upTo: nat) returns (ok: bool)
      requires Valid() && |inFlight| < maxInFlight
      requires |acts| > 2
      requires MaySend(acts[|acts| - 3], acts[|acts| - 2], acts[|acts| - 1],
                       EpochSent(PendingEpoch(nextId, snap, pending), upTo))
      modifies this, bm`dirty, bm`flushing, bm`pendingDeletes
      ensures Valid() && Holds(bm.dirty, bm.pendingDeletes, old(bm.dirty), old(bm.pendingDeletes))
      ensures !ok ==>
        Holds(bm.dirty, bm.pendingDeletes, snap, pending) && inFlight == old(inFlight) && acts == old(acts)
      ensures ok ==> inFlight == old(inFlight) + [PendingEpoch(old(nextId), snap, pending)]
      ensures ok ==> acts == old(acts) + [EpochSent(PendingEpoch(old(nextId), snap, pending), upTo)]
      ensures old(failures) <= failures && (ok <==> failures == old(failures))
      ensures completion.Keys >= old(completion).Keys
      ensures forall id :: id in old(completion) ==> completion[id] == old(completion)[id]
    {
      hide Disciplined, Holds, MaySend, Tok;
      HoldsItself(bm.dirty, bm.pendingDeletes);
      ok := *;
      if !ok {
        failures := failures + 1;
        RestoreEpoch(snap, pending);
        return;
      }
      var epoch := PendingEpoch(nextId, snap, pending);
      completion := completion[nextId := Waiting];
      nextId := nextId + 1;
      inFlight := inFlight + [epoch];
      DisciplinedMore(acts, EpochSent(epoch, upTo));
      acts := acts + [EpochSent(epoch, upTo)];
    }

    /** Reaps what is reported, and waits for the oldest epoch when too many are in flight. */
    method MakeRoom() returns (ok: bool)
      requires Valid()
      modifies this, bm`dirty, bm`flushing, bm`pendingDeletes, bm`cache
      ensures Valid() && Holds(bm.dirty, bm.pendingDeletes, old(bm.dirty), old(bm.pendingDeletes))
      ensures forall i :: 0 <= i < |old(inFlight)| ==> Accounted(old(inFlight)[i])
      ensures old(failures) <= failures && (ok <==> failures == old(failures))
      ensures ok ==> Steady(old(inFlight)) && |inFlight| < maxInFlight
      ensures old(acts) <= acts && NoSnapshot(acts, |old(acts)|) && NoneSent(acts, |old(acts)|)
    {
      hide Disciplined, Holds, Reaped;
      ok := ReapReady();
      if !ok { return; }
      ghost var d, q := bm.dirty, bm.pendingDeletes;
      if |inFlight| >= maxInFlight {
        ok := WaitOne();
        HoldsTrans(d, q, bm.dirty, bm.pendingDeletes, old(bm.dirty), old(bm.pendingDeletes));
      }
    }

    /** One planner round. Whatever path it takes, no mark and no delete that was there at its start,
        or that its snapshot took, is lost, and neither is an epoch that was in flight. */
    method RunRound() returns (ok: bool)
      requires Valid()
      modifies this, bm`dirty, bm`flushing, bm`pendingDeletes, bm`cache
      ensures Valid() && old(acts) <= acts && RoundKept(old(bm.dirty), old(bm.pendingDeletes), |old(acts)|)
      ensures forall i :: |old(acts)| <= i < |acts| && acts[i].Snapshotted? ==>
        RoundKept(acts[i].dirty, acts[i].pending, |old(acts)|)
      ensures forall i :: 0 <= i < |old(inFlight)| ==> Accounted(old(inFlight)[i])
      ensures ok <==> failures == old(failures)
      ensures ok ==> exists p: nat :: Completed(acts, |old(acts)|, p, inFlight)
    {
      hide Disciplined, Holds, RoundKept, Completed;
      ghost var was, from, d0, q0 := inFlight, |acts|, bm.dirty, bm.pendingDeletes;
      ok := MakeRoom();
      HeldIsKept(d0, q0, from);
      if !ok { return; }
      assert Steady(was);
      ghost var d, q := bm.dirty, bm.pendingDeletes;
      Yield();
      HoldsTrans(d, q, bm.dirty, bm.pendingDeletes, d0, q0);
      d, q := bm.dirty, bm.pendingDeletes;
      ghost var at := |acts|;
      var merged: int, storeDirty: bool := *, *;
      ok := Submit(if merged < 0 then 0 else merged, storeDirty);
      if ok { CompletedSince(acts, from, at, inFlight); }
      KeptSince(d, q, at, from);
      KeptBefore(d, q, d0, q0, from);
    }

    lemma KeptSince(marks: Marks, deletes: Marks, at: nat, from: nat)
      requires RoundKept(marks, deletes, at) && from <= at
      ensures RoundKept(marks, deletes, from)
    {
      forall g, seqno | Carried(at, g, seqno) ensures Carried(from, g, seqno) {
        var i :| SentAt(at, i) && Carries(acts[i].epoch, g, seqno);
      }
      forall g | CarriedDelete(at, g) ensures CarriedDelete(from, g) {
        var i :| SentAt(at, i) && g in acts[i].epoch.pending;
      }
    }
  }

  predicate Succeeded(completion: map<nat, Completion>, epoch: PendingEpoch) {
    epoch.id in completion && completion[epoch.id] == Reported(true)
  }

  lemma SameOutcome(reports: map<nat, Completion>, reports': map<nat, Completion>, was: seq<PendingEpoch>, k: nat)
    requires k <= |was| && forall i :: 0 <= i < k ==> was[i].id in reports && !reports[was[i].id].Waiting?
    requires forall id :: id in reports && !reports[id].Waiting? ==> id in reports' && reports'[id] == reports[id]
    ensures forall i :: 0 <= i < k ==>
      && was[i].id in reports' && !reports'[was[i].id].Waiting?
      && (Succeeded(reports', was[i]) <==> Succeeded(reports, was[i]))
  {
  }

  /** The epoch writes the blob at a mark no later, or deletes it. */
  predicate Carries(epoch: PendingEpoch, g: Guid, seqno: nat) {
    (g in epoch.snap && epoch.snap[g] <= seqno) || g in epoch.pending
  }

  predicate NoneSent(acts: seq<Act>, from: nat) { forall i :: from <= i < |acts| ==> !acts[i].EpochSent? }

  lemma CompletedNow(was: seq<Act>, acts: seq<Act>, from: nat, before: seq<PendingEpoch>, inFlight: seq<PendingEpoch>,
                     id: nat)
    requires |was| == from + 3 && was[from].Snapshotted? && was[from + 1] == WalFlushed(was[from].upTo)
    requires was[from + 2].Cloned? && was <= acts && NoSnapshot(acts, from + 1)
    requires var epoch := PendingEpoch(id, FreshOf(was[from], was[from + 2]), DeletesOf(was[from], was[from + 2]));
             if Due(was[from], was[from + 2])
             then acts == was + [EpochSent(epoch, was[from].upTo)] && inFlight == before + [epoch]
             else NoneSent(acts, |was|)
    ensures Completed(acts, from, from, inFlight)
  {
    hide FreshOf, DeletesOf, Due;
    forall i | from <= i < |was| ensures !acts[i].EpochSent? { assert acts[i] == was[i]; }
  }

  lemma CompletedSince(acts: seq<Act>, from: nat, at: nat, inFlight: seq<PendingEpoch>)
    requires Completed(acts, at, at, inFlight) && from <= at
    requires forall i :: from <= i < at ==> !acts[i].Snapshotted? && !acts[i].EpochSent?
    ensures Completed(acts, from, at, inFlight)
  {
    hide FreshOf, DeletesOf, Due;
  }

  /** The captured versions are those of the cache at the snapshot. */
  predicate Captured(snap: Marks, versions: Marks, cache: Marks) {
    versions.Keys == snap.Keys && forall g :: g in snap ==> g in cache && versions[g] == cache[g]
  }

  lemma StaleIs(shot: Act, clone: Act, versions: Marks, stale: Marks)
    requires shot.Snapshotted? && clone.Cloned? && Captured(SnapOf(shot), versions, shot.cache)
    requires SnapOf(shot).Keys <= clone.cache.Keys
    requires forall g :: g in stale <==> g in SnapOf(shot) && clone.cache[g] != versions[g]
    requires forall g :: g in stale ==> stale[g] == SnapOf(shot)[g]
    ensures stale == StaleOf(shot, clone)
  {
  }

  /** The log is truncated exactly when nothing is in flight, marked, flushing or queued. */
  ghost predicate Reaped(was: seq<Act>, acts: seq<Act>, idle: bool, dirty: Marks, flushing: Marks, pending: Marks) {
    acts == was + if idle && dirty == map[] && flushing == map[] && pending == map[]
                  then [Truncated(map[], map[], map[], 0)]
                  else []
  }

  predicate NoSnapshot(acts: seq<Act>, from: nat) { forall i :: from <= i < |acts| ==> !acts[i].Snapshotted? }

  lemma HoldsMarked(d: Marks, q: Marks, g: Guid, seqno: nat)
    ensures Holds(Merged(d, map[g := seqno]), q, d, q)
  {
    MergedLow(d, map[g := seqno]);
  }

  lemma HoldsDeleted(d: Marks, q: Marks, g: Guid, seqno: nat)
    ensures Holds(d - {g}, Merged(q, map[g := seqno]), d, q)
  {
    MergedLow(q, map[g := seqno]);
  }

  lemma Remaining(was: seq<PendingEpoch>, k: nat)
    requires k <= |was|
    ensures forall i :: k <= i < |was| ==> was[i] in was[k..]
  {
    forall i | k <= i < |was| ensures was[i] in was[k..] { assert was[k..][i - k] == was[i]; }
  }
}
