/** Main results about every run of the durability protocol. */
module CrashRecovery {
  import opened RedoLog
  import opened CheckpointProtocol
  import opened CheckpointInvariant
  import opened CheckpointSteps

  lemma BeginKeeps(s: State, t: nat, ops: seq<Op>, s': State)
    requires Inv(s) && BeginStep(s, t, ops, s')
    ensures Inv(s')
  {
    hide CacheInv, WriterInv, HeldInv, TokenInv, StoreInv, IoInv, CoverInv;
    BeginShape(s, t, ops, s');
    BeginCache(s, t, ops, s');
    BeginTokens(s, t, ops, s');
    BeginIo(s, t, ops, s');
  }

  lemma AbandonKeeps(s: State, t: nat, s': State)
    requires Inv(s) && AbandonStep(s, t, s')
    ensures Inv(s')
  {
    hide CacheInv, WriterInv, HeldInv, TokenInv, StoreInv, IoInv, CoverInv;
    AbandonShape(s, t, s');
    AbandonCache(s, t, s');
    AbandonIo(s, t, s');
  }

  lemma MutateKeeps(s: State, t: nat, s': State)
    requires Inv(s) && MutateStep(s, t, s')
    ensures Inv(s')
  {
    hide CacheInv, WriterInv, HeldInv, TokenInv, StoreInv, IoInv, CoverInv;
    MutateShape(s, t, s');
    MutateCache(s, t, s');
    MutateTokens(s, t, s');
    var op := s.writers[t].ops[s.writers[t].mutated];
    AppendHistHeld(s, op.key.blob, ApplyOp(op.key.blob, Cached(s, op.key.blob), op));
    MutateIo(s, t, s');
  }

  lemma MarkKeeps(s: State, t: nat, s': State)
    requires Inv(s) && MarkStep(s, t, s')
    ensures Inv(s')
  {
    hide CacheInv, WriterInv, HeldInv, TokenInv, StoreInv, IoInv, CoverInv;
    MarkShape(s, t, s');
    MarkCache(s, t, s');
    MarkTokens(s, t, s');
    MarkIo(s, t, s');
  }

  lemma SubmitKeeps(s: State, t: nat, s': State)
    requires Inv(s) && SubmitStep(s, t, s')
    ensures Inv(s')
  {
    hide CacheInv, WriterInv, HeldInv, TokenInv, StoreInv, IoInv, CoverInv;
    SubmitShape(s, t, s');
    SubmitCache(s, t, s');
    SubmitHeld(s, t, s');
    SubmitStore(s, t, s');
    SubmitIo(s, t, s');
  }

  lemma TouchKeeps(s: State, b: Guid, s': State)
    requires Inv(s) && TouchStep(s, b, s')
    ensures Inv(s')
  {
    hide CacheInv, WriterInv, HeldInv, TokenInv, StoreInv, IoInv, CoverInv;
    AppendHistShape(s, b, s');
    SameContentCache(s.log, s.writers, s.hist, b);
    AppendHistHeld(s, b, Cached(s, b));
    SameContentIo(s, b, s');
  }

  lemma CompactKeeps(s: State, b: Guid, s': State)
    requires Inv(s) && CompactStep(s, b, s')
    ensures Inv(s')
  {
    hide CacheInv, WriterInv, HeldInv, TokenInv, StoreInv, IoInv, CoverInv;
    AppendHistShape(s, b, s');
    SameContentCache(s.log, s.writers, s.hist, b);
    AppendHistHeld(s, b, Cached(s, b));
    CompactTokens(s, b, s');
    SameContentIo(s, b, s');
  }

  lemma WalKeeps(s: State, e: Event, s': State)
    requires Inv(s) && (e.WalSync? || e.WalFlushed?) && Next(s, e, s')
    ensures Inv(s')
  {
    hide CacheInv, WriterInv, HeldInv, TokenInv, StoreInv, IoInv, CoverInv;
    SyncHeld(s, s');
    SyncStore(s, s'.synced);
    CoverSame(s, s');
  }

  lemma SnapshotKeeps(s: State, s': State)
    requires Inv(s) && SnapshotStep(s, s')
    ensures Inv(s')
  {
    hide CacheInv, WriterInv, HeldInv, TokenInv, StoreInv, IoInv, CoverInv;
    SnapshotShape(s, s');
    SnapshotHeld(s, s');
    SnapshotTokens(s, s');
    SnapshotSameIo(s, s');
    SnapshotIo(s, s');
  }

  lemma CloneKeeps(s: State, id: Id, s': State)
    requires Inv(s) && CloneStep(s, id, s')
    ensures Inv(s')
  {
    hide CacheInv, WriterInv, HeldInv, TokenInv, StoreInv, IoInv, CoverInv;
    MovedShape(s, s');
    CloneHeld(s, id, s');
    RestoreTokens(s.nextSeq, s.writers, s.dirty, s.held, map[], s'.dirty, s'.held);
    PlannerIo(s, s');
  }

  lemma RoundFailedKeeps(s: State, s': State)
    requires Inv(s) && RoundFailedStep(s, s')
    ensures Inv(s')
  {
    hide CacheInv, WriterInv, HeldInv, TokenInv, StoreInv, IoInv, CoverInv;
    var gone := map id | id in s.held && InRound(s.held[id]) :: s.held[id];
    RestoredDirty(s, gone, s'.dirty);
    MovedShape(s, s');
    LeaveRoundHeld(s, s');
    RestoreTokens(s.nextSeq, s.writers, s.dirty, s.held, gone, s'.dirty, s'.held);
    PlannerIo(s, s');
  }

  lemma ShipKeeps(s: State, s': State)
    requires Inv(s) && ShipStep(s, s')
    ensures Inv(s')
  {
    hide CacheInv, WriterInv, HeldInv, TokenInv, StoreInv, IoInv, CoverInv;
    var gone := map id | id in s.held && s.held[id].stage.StaleClaim? :: s.held[id];
    RestoredDirty(s, gone, s'.dirty);
    MovedShape(s, s');
    LeaveRoundHeld(s, s');
    RestoreTokens(s.nextSeq, s.writers, s.dirty, s.held, gone, s'.dirty, s'.held);
    PlannerIo(s, s');
  }

  lemma PickKeeps(s: State, ids: set<Id>, s': State)
    requires Inv(s) && PickStep(s, ids, s')
    ensures Inv(s')
  {
    hide CacheInv, WriterInv, HeldInv, TokenInv, StoreInv, IoInv, CoverInv;
    MovedShape(s, s');
    MovedHeld(s, s');
    RestoreTokens(s.nextSeq, s.writers, s.dirty, s.held, map[], s'.dirty, s'.held);
    PickIo(s, ids, s');
  }

  lemma ValidateKeeps(s: State, id: Id, s': State)
    requires Inv(s) && ValidateStep(s, id, s')
    ensures Inv(s')
  {
    hide CacheInv, WriterInv, HeldInv, TokenInv, StoreInv, IoInv, CoverInv;
    MovedShape(s, s');
    MovedHeld(s, s');
    RestoreTokens(s.nextSeq, s.writers, s.dirty, s.held, map[], s'.dirty, s'.held);
    ValidateIo(s, id, s');
  }

  lemma LandKeeps(s: State, id: Id, s': State)
    requires Inv(s) && LandStep(s, id, s')
    ensures Inv(s')
  {
    hide CacheInv, WriterInv, HeldInv, TokenInv, StoreInv, IoInv, CoverInv;
    MovedShape(s, s');
    MovedHeld(s, s');
    RestoreTokens(s.nextSeq, s.writers, s.dirty, s.held, map[], s'.dirty, s'.held);
    LandStore(s, id, s');
    LandIo(s, id, s');
  }

  lemma RetireKeeps(s: State, id: Id, s': State)
    requires Inv(s) && RetireStep(s, id, s')
    ensures Inv(s')
  {
    hide CacheInv, WriterInv, HeldInv, TokenInv, StoreInv, IoInv, CoverInv;
    RetireKeepsDirty(s, id, s');
    MovedShape(s, s');
    MovedHeld(s, s');
    RestoreTokens(s.nextSeq, s.writers, s.dirty, s.held, map[], s'.dirty, s'.held);
    RetireIo(s, id, s');
  }

  lemma StoreFlushKeeps(s: State, s': State)
    requires Inv(s) && StoreFlushStep(s, s')
    ensures Inv(s')
  {
    hide CacheInv, WriterInv, HeldInv, TokenInv, StoreInv, IoInv, CoverInv;
    FlushMoves(s, s');
    MovedShape(s, s');
    MovedHeld(s, s');
    RestoreTokens(s.nextSeq, s.writers, s.dirty, s.held, map[], s'.dirty, s'.held);
    FlushStore(s, s');
    FlushIo(s, s');
  }

  lemma BatchFailedKeeps(s: State, s': State)
    requires Inv(s) && BatchFailedStep(s, s')
    ensures Inv(s')
  {
    hide CacheInv, WriterInv, HeldInv, TokenInv, StoreInv, IoInv, CoverInv;
    var gone := map id | id in s.held && InIo(s.held[id]) :: s.held[id];
    RestoredDirty(s, gone, s'.dirty);
    MovedShape(s, s');
    MovedHeld(s, s');
    RestoreTokens(s.nextSeq, s.writers, s.dirty, s.held, gone, s'.dirty, s'.held);
    BatchOverIo(s, s');
  }

  lemma BatchEndKeeps(s: State, s': State)
    requires Inv(s) && BatchEndStep(s, s')
    ensures Inv(s')
  {
    hide CacheInv, WriterInv, HeldInv, TokenInv, StoreInv, IoInv, CoverInv;
    var gone := map id | id in s.held && InIo(s.held[id]) && !s.held[id].stage.Flushed? :: s.held[id];
    RestoredDirty(s, gone, s'.dirty);
    MovedShape(s, s');
    MovedHeld(s, s');
    RestoreTokens(s.nextSeq, s.writers, s.dirty, s.held, gone, s'.dirty, s'.held);
    BatchOverIo(s, s');
  }

  lemma TruncateKeeps(s: State, s': State)
    requires Inv(s) && TruncateStep(s, s')
    ensures Inv(s')
  {
    hide CacheInv, WriterInv, HeldInv, TokenInv, StoreInv, IoInv, CoverInv;
    TruncateRest(s, s');
    TruncateStore(s, s');
    CoverSame(s, s');
  }

  lemma NextKeeps(s: State, e: Event, s': State)
    requires Inv(s) && Next(s, e, s')
    ensures Inv(s')
  {
    hide Inv;
    match e
    case Begin(t, ops) => BeginKeeps(s, t, ops, s');
    case Abandon(t) => AbandonKeeps(s, t, s');
    case Mutate(t) => MutateKeeps(s, t, s');
    case Mark(t) => MarkKeeps(s, t, s');
    case Submit(t) => SubmitKeeps(s, t, s');
    case Touch(b) => TouchKeeps(s, b, s');
    case Compact(b) => CompactKeeps(s, b, s');
    case WalSync(n) => WalKeeps(s, e, s');
    case Snapshot => SnapshotKeeps(s, s');
    case WalFlushed => WalKeeps(s, e, s');
    case RoundFailed => RoundFailedKeeps(s, s');
    case Clone(id) => CloneKeeps(s, id, s');
    case Ship => ShipKeeps(s, s');
    case Pick(ids) => PickKeeps(s, ids, s');
    case Validate(id) => ValidateKeeps(s, id, s');
    case Land(id) => LandKeeps(s, id, s');
    case Retire(id) => RetireKeeps(s, id, s');
    case StoreFlush => StoreFlushKeeps(s, s');
    case BatchFailed => BatchFailedKeeps(s, s');
    case BatchEnd => BatchEndKeeps(s, s');
    case Truncate => TruncateKeeps(s, s');
  }

  // ---------- runs ----------

  /** `trace` is a run: it starts in an initial state and each state follows by one step. */
  ghost predicate Run(trace: seq<State>, events: seq<Event>) {
    && |trace| == |events| + 1
    && Init(trace[0])
    && (forall i :: 0 <= i < |events| ==> Shaped(trace[i]) && Next(trace[i], events[i], trace[i + 1]))
  }

  lemma {:induction false} RunInv(trace: seq<State>, events: seq<Event>, i: nat)
    requires Run(trace, events) && i < |trace|
    ensures Inv(trace[i])
  {
    hide Inv, Next;
    if i == 0 {
      InitInv(trace[0]);
    } else {
      RunInv(trace, events, i - 1);
      NextKeeps(trace[i - 1], events[i - 1], trace[i]);
    }
  }

  /** What a crash may leave of blob `b`: its flushed image or any later write. */
  predicate MaySurvive(s: State, b: Guid, img: Image) {
    || (b in s.durable && img == s.durable[b])
    || (b in s.limbo && img in s.limbo[b])
  }

  /** Crash recovery: crash in any state of any run, keep any prefix of the log that holds the
      synced records, keep any surviving image of each blob. Replaying the kept records that were
      not truncated gives exactly the images after that many whole records: every key reads as the
      last kept operation on it wrote it. */
  lemma CrashRecovers(trace: seq<State>, events: seq<Event>, i: nat, kept: nat, b: Guid, img: Image)
    requires Run(trace, events) && i < |trace| && trace[i].synced <= kept <= |trace[i].log|
    requires b in trace[i].hist && MaySurvive(trace[i], b, img)
    ensures trace[i].base <= kept
    ensures Redo(b, Flat(trace[i].log[trace[i].base..kept]), img) == ImageAt(b, trace[i].log, kept)
    ensures forall k: Key :: k.blob == b ==>
      ReadsAs(Redo(b, Flat(trace[i].log[trace[i].base..kept]), img), trace[i].log, kept, k)
  {
    var s := trace[i];
    WalBeforeData(trace, events, i, b, img);
    var n :| s.base <= n <= s.synced && img == ImageAt(b, s.log, n);
    ReplayAbsorbs(b, s.log, s.base, n, kept);
    forall k: Key | k.blob == b ensures ReadsAs(ImageAt(b, s.log, kept), s.log, kept, k) {
      ImageReads(b, s.log, kept, k);
    }
  }

  /** In every reachable state the cache reads, at each key that no writer works on, as the last logged
      operation on it wrote it. */
  lemma CacheReads(trace: seq<State>, events: seq<Event>, i: nat, k: Key)
    requires Run(trace, events) && i < |trace| && k.blob in trace[i].hist && Free(trace[i].writers, k)
    ensures trace[i].hist[k.blob] != []
    ensures ReadsAs(Last(trace[i].hist[k.blob]), trace[i].log, |trace[i].log|, k)
  {
    hide ReadsAs;
    RunInv(trace, events, i);
    var s := trace[i];
    ImageReads(k.blob, s.log, |s.log|, k);
    SameReads(Logged(s.log, k.blob), Last(s.hist[k.blob]), s.log, |s.log|, k);
  }

  lemma SameReads(x: Image, y: Image, log: seq<Record>, n: nat, k: Key)
    requires n <= |log| && ReadsAs(x, log, n, k) && At(x, k) == At(y, k)
    ensures ReadsAs(y, log, n, k)
  {
  }

  /** WAL before data: every image a crash may leave holds the effects of a number of whole
      records that are all synced, and of at least the truncated ones. */
  lemma WalBeforeData(trace: seq<State>, events: seq<Event>, i: nat, b: Guid, img: Image)
    requires Run(trace, events) && i < |trace| && MaySurvive(trace[i], b, img)
    ensures trace[i].base <= trace[i].synced <= |trace[i].log|
    ensures exists n :: trace[i].base <= n <= trace[i].synced && img == ImageAt(b, trace[i].log, n)
  {
    RunInv(trace, events, i);
    var s := trace[i];
    if !(b in s.durable && img == s.durable[b]) {
      var j :| 0 <= j < |s.limbo[b]| && s.limbo[b][j] == img;
    }
    assert Reflects(s.base, s.synced, s.log, b, img);
  }

  /** Safe truncation: when a run drops the WAL, every blob's durable image already holds all of it. */
  lemma TruncationIsSafe(trace: seq<State>, events: seq<Event>, i: nat, b: Guid)
    requires Run(trace, events) && i < |events| && events[i].Truncate? && b in trace[i].hist
    ensures trace[i].limbo[b] == [] && trace[i].durable[b] == Logged(trace[i].log, b)
  {
    RunInv(trace, events, i);
    assert Next(trace[i], events[i], trace[i + 1]);
    DrainedIsDurable(trace[i], b);
  }

  /** Nothing is lost: in every reachable state a blob is durable, or still to be written. */
  lemma NothingLost(trace: seq<State>, events: seq<Event>, i: nat, b: Guid)
    requires Run(trace, events) && i < |trace| && b in trace[i].hist
    ensures Covered(trace[i], b)
  {
    RunInv(trace, events, i);
  }
}
