/**
 Submitters, checkpoint flushes and the journal worker, interleaved step by step.
 An acknowledged synchronous append is synced, and a flush up to a watermark
 leaves every record accepted before it synced, as long as appends are
 asynchronous or enter the channel in the order of their work ids.
 */
module GroupCommit {
  import opened Bytes
  import opened Journal

  type Tid = nat

  /** A submitter inside the commit gate. */
  datatype Submit =
    | HasId(id: nat, bytes: Bytes, sync: bool)   // took a work id, not sent yet
    | Sent(id: nat)                              // sent, watermark not raised yet

  /** A caller of `flush_up_to`. */
  datatype Wait =
    | Watermark(observed: nat)
    | Queued(observed: nat)
    | Returned(observed: nat, channel: bool)   // through the channel, or early

  /** `sent` is every command ever sent; the first `handled` are done, and everything the first
      `durable` of them put in the log has been synced. */
  datatype State = State(
    next: nat, queued: nat, flushed: nat, disk: Disk,
    sent: seq<Command>, handled: nat, durable: nat,
    submits: map<Tid, Submit>, waits: map<Tid, Wait>, acked: set<nat>)

  /** How appends are made: never synchronous, sent in the order of their ids, or anyhow. */
  datatype Mode = Async | InOrder | Free

  datatype Event =
    | TakeId(t: Tid, bytes: Bytes, sync: bool)
    | Send(t: Tid)
    | Accept(t: Tid)
    | ReadWatermark(c: Tid)
    | FlushEarly(c: Tid)
    | FlushSend(c: Tid)
    | TruncateSend(c: Tid)
    | WorkBatch(k: nat)
    | WorkFlush
    | WorkTruncate

  function IdsOf(cmds: seq<Command>): set<nat> { set i | 0 <= i < |cmds| && cmds[i].Append? :: cmds[i].id }

  predicate Upto(n: nat, ids: set<nat>) { forall id :: 1 <= id <= n ==> id in ids }

  predicate Below(n: nat, ids: set<nat>) { forall id :: 1 <= id < n ==> id in ids }

  function AppendAll(d: Disk, batch: seq<Command>): (r: Disk)
    requires AllAppends(batch)
    ensures Contents(r) == Contents(d) + Joined(batch) && r.synced == d.synced
  {
    if batch == [] then
      assert Contents(d) + [] == Contents(d);
      d
    else
      var front := AppendAll(d, batch[..|batch| - 1]);
      assert Contents(front) + batch[|batch| - 1].bytes
          == Contents(d) + (Joined(batch[..|batch| - 1]) + batch[|batch| - 1].bytes);
      AppendDisk(front, batch[|batch| - 1].bytes)
  }

  // ---------- steps ----------

  predicate DoTakeId(mode: Mode, s: State, t: Tid, bytes: Bytes, sync: bool, s': State) {
    && t !in s.submits && (mode.Async? ==> !sync)
    && s' == s.(next := s.next + 1, submits := s.submits[t := HasId(s.next + 1, bytes, sync)])
  }

  predicate DoSend(mode: Mode, s: State, t: Tid, s': State) {
    && t in s.submits && s.submits[t].HasId?
    && (mode.InOrder? ==> Below(s.submits[t].id, IdsOf(s.sent)))
    && var HasId(id, bytes, sync) := s.submits[t];
       s' == s.(sent := s.sent + [Append(id, bytes, sync)], submits := s.submits[t := Sent(id)])
  }

  predicate DoAccept(s: State, t: Tid, s': State) {
    && t in s.submits && s.submits[t].Sent?
    && s' == s.(queued := Max(s.queued, s.submits[t].id), submits := s.submits - {t})
  }

  /** Under the exclusive gate: no submitter is inside. */
  predicate DoReadWatermark(s: State, c: Tid, s': State) {
    && s.submits == map[] && c !in s.waits
    && s' == s.(waits := s.waits[c := Watermark(s.queued)])
  }

  predicate DoFlushEarly(s: State, c: Tid, s': State) {
    && c in s.waits && s.waits[c].Watermark? && s.waits[c].observed <= s.flushed
    && s' == s.(waits := s.waits[c := Returned(s.waits[c].observed, false)])
  }

  predicate DoFlushSend(s: State, c: Tid, s': State) {
    && c in s.waits && s.waits[c].Watermark? && s.waits[c].observed > s.flushed
    && var w := s.waits[c].observed;
       s' == s.(sent := s.sent + [Flush(w, c)], waits := s.waits[c := Queued(w)])
  }

  predicate DoTruncateSend(s: State, c: Tid, s': State) { s' == s.(sent := s.sent + [Truncate(c)]) }

  /** The worker gathers the next `k` appends, writes them, and syncs if one of them asks. */
  predicate DoWorkBatch(s: State, k: nat, s': State) {
    && 1 <= k && s.handled + k <= |s.sent| && AllAppends(s.sent[s.handled..s.handled + k])
    && var batch := s.sent[s.handled..s.handled + k];
       var disk := AppendAll(s.disk, batch);
       s' == if NeedsSync(batch)
             then s.(disk := FlushDisk(disk), handled := s.handled + k, durable := s.handled + k,
                     flushed := Max(s.flushed, MaxId(batch)), acked := s.acked + SyncIds(batch))
             else s.(disk := disk, handled := s.handled + k)
  }

  predicate DoWorkFlush(s: State, s': State) {
    && s.handled < |s.sent| && s.sent[s.handled].Flush?
    && var Flush(upTo, c) := s.sent[s.handled];
       s' == s.(disk := FlushDisk(s.disk), handled := s.handled + 1, durable := s.handled + 1,
                flushed := Max(s.flushed, upTo), waits := s.waits[c := Returned(upTo, true)])
  }

  predicate DoWorkTruncate(s: State, s': State) {
    && s.handled < |s.sent| && s.sent[s.handled].Truncate? && DiskValid(s.disk)
    && s' == s.(disk := TruncateDisk(s.disk), handled := s.handled + 1, durable := s.handled + 1)
  }

  predicate Next(mode: Mode, s: State, e: Event, s': State) {
    match e
    case TakeId(t, bytes, sync) => DoTakeId(mode, s, t, bytes, sync, s')
    case Send(t) => DoSend(mode, s, t, s')
    case Accept(t) => DoAccept(s, t, s')
    case ReadWatermark(c) => DoReadWatermark(s, c, s')
    case FlushEarly(c) => DoFlushEarly(s, c, s')
    case FlushSend(c) => DoFlushSend(s, c, s')
    case TruncateSend(c) => DoTruncateSend(s, c, s')
    case WorkBatch(k) => DoWorkBatch(s, k, s')
    case WorkFlush => DoWorkFlush(s, s')
    case WorkTruncate => DoWorkTruncate(s, s')
  }

  /** A log opened with leftover records: they count as work id 1, not known to be synced. */
  ghost predicate Init(header: Bytes, s: State) {
    && |header| == FILE_HEADER_SIZE
    && s.handled == |s.sent| && s.durable == 0
    && s.disk.synced == header && s.disk.pending == []
    && s.submits == map[] && s.waits == map[] && s.acked == {} && s.flushed == 0
    && s.next == s.queued == |s.sent|
    && (s.sent == [] || exists bytes :: s.sent == [Append(1, bytes, false)])
    && s.disk.file == After(header, s.sent)
  }

  // ---------- invariant ----------

  ghost predicate DiskInv(header: Bytes, disk: Disk, sent: seq<Command>, handled: nat, durable: nat) {
    && |header| == FILE_HEADER_SIZE && header <= disk.file && DiskValid(disk)
    && durable <= handled <= |sent|
    && Contents(disk) == After(header, sent[..handled])
    && disk.synced == After(header, sent[..durable])
  }

  predicate Held(submits: map<Tid, Submit>, id: nat) {
    exists t :: t in submits && submits[t].HasId? && submits[t].id == id
  }

  predicate Inside(submits: map<Tid, Submit>, id: nat) { exists t :: t in submits && submits[t].id == id }

  /** Every id handed out was sent or is about to be; once its submitter is out, the watermark
      covers it. */
  ghost predicate IdInv(next: nat, queued: nat, sent: seq<Command>, submits: map<Tid, Submit>) {
    && queued <= next
    && (forall id :: 1 <= id <= next ==> id in IdsOf(sent) || Held(submits, id))
    && (forall id :: 1 <= id <= next ==> id <= queued || Inside(submits, id))
    && (forall t :: t in submits ==> 1 <= submits[t].id <= next)
    && (forall t :: t in submits && submits[t].Sent? ==> submits[t].id in IdsOf(sent))
  }

  /** Everything up to a watermark was sent, and before the flush that names it. */
  ghost predicate WaitInv(mode: Mode, sent: seq<Command>, durable: nat, waits: map<Tid, Wait>) {
    && durable <= |sent|
    && (forall c :: c in waits ==> Upto(waits[c].observed, IdsOf(sent)))
    && (forall c :: c in waits && waits[c].Returned? && (waits[c].channel || !mode.Free?) ==>
          Upto(waits[c].observed, IdsOf(sent[..durable])))
    && (forall p :: 0 <= p < |sent| && sent[p].Flush? ==> Upto(sent[p].upTo, IdsOf(sent[..p])))
  }

  ghost predicate ModeInv(mode: Mode, sent: seq<Command>, submits: map<Tid, Submit>) {
    match mode
    case Async =>
      && (forall p :: 0 <= p < |sent| && sent[p].Append? ==> !sent[p].sync)
      && (forall t :: t in submits && submits[t].HasId? ==> !submits[t].sync)
    case InOrder => forall p :: 0 <= p < |sent| && sent[p].Append? ==> Below(sent[p].id, IdsOf(sent[..p]))
    case Free => true
  }

  ghost predicate FlushedInv(mode: Mode, sent: seq<Command>, durable: nat, flushed: nat, acked: set<nat>) {
    && durable <= |sent| && acked <= IdsOf(sent[..durable])
    && (mode.Free? || Upto(flushed, IdsOf(sent[..durable])))
  }

  ghost predicate Inv(mode: Mode, header: Bytes, s: State) {
    && DiskInv(header, s.disk, s.sent, s.handled, s.durable)
    && IdInv(s.next, s.queued, s.sent, s.submits)
    && ModeInv(mode, s.sent, s.submits)
    && WaitInv(mode, s.sent, s.durable, s.waits)
    && FlushedInv(mode, s.sent, s.durable, s.flushed, s.acked)
    && (forall id :: id in IdsOf(s.sent) ==> id >= 1)
  }

  // ---------- ids ----------

  lemma IdsMono(cmds: seq<Command>, i: nat, j: nat)
    requires i <= j <= |cmds|
    ensures IdsOf(cmds[..i]) <= IdsOf(cmds[..j])
  {
    forall id | id in IdsOf(cmds[..i]) ensures id in IdsOf(cmds[..j]) {
      var p :| 0 <= p < i && cmds[..i][p].Append? && cmds[..i][p].id == id;
      assert cmds[..j][p].id == id;
    }
  }

  lemma IdsMonoAll(cmds: seq<Command>, i: nat)
    requires i <= |cmds|
    ensures IdsOf(cmds[..i]) <= IdsOf(cmds)
  {
    IdsMono(cmds, i, |cmds|);
    assert cmds[..|cmds|] == cmds;
  }

  lemma IdsAppend(cmds: seq<Command>, c: Command)
    ensures IdsOf(cmds + [c]) == IdsOf(cmds) + (if c.Append? then {c.id} else {})
    ensures forall i :: 0 <= i <= |cmds| ==> (cmds + [c])[..i] == cmds[..i]
  {
    var all := cmds + [c];
    forall id | id in IdsOf(cmds) ensures id in IdsOf(all) {
      var p :| 0 <= p < |cmds| && cmds[p].Append? && cmds[p].id == id;
      assert all[p].id == id;
    }
    if c.Append? { assert all[|cmds|].id == c.id; }
  }

  lemma MaxCovered(sent: seq<Command>, lo: nat, hi: nat)
    requires lo <= hi <= |sent| && AllAppends(sent[lo..hi])
    requires forall p :: 0 <= p < |sent| && sent[p].Append? ==> Below(sent[p].id, IdsOf(sent[..p]))
    ensures Upto(MaxId(sent[lo..hi]), IdsOf(sent[..hi]))
  {
    var batch, m := sent[lo..hi], MaxId(sent[lo..hi]);
    if m > 0 {
      var i :| 0 <= i < |batch| && batch[i].id == m;
      assert sent[lo + i] == batch[i] && sent[..hi][lo + i] == batch[i];
      IdsMono(sent, lo + i, hi);
    }
  }

  lemma SyncIdsIn(sent: seq<Command>, lo: nat, hi: nat)
    requires lo <= hi <= |sent| && AllAppends(sent[lo..hi])
    ensures SyncIds(sent[lo..hi]) <= IdsOf(sent[..hi])
  {
    var batch := sent[lo..hi];
    forall id | id in SyncIds(batch) ensures id in IdsOf(sent[..hi]) {
      var i :| 0 <= i < |batch| && batch[i].sync && batch[i].id == id;
      assert sent[..hi][lo + i] == batch[i];
    }
  }

  // ---------- preservation ----------

  lemma InitInv(mode: Mode, header: Bytes, s: State)
    requires Init(header, s)
    ensures Inv(mode, header, s)
  {
    assert s.sent[..0] == [] && s.sent[..s.handled] == s.sent;
    assert Contents(s.disk) == s.disk.file;
    AfterHasHeader(header, s.sent);
    if s.sent != [] { assert s.sent[0].id in IdsOf(s.sent); }
  }

  lemma TakeIdKeeps(mode: Mode, header: Bytes, s: State, t: Tid, bytes: Bytes, sync: bool, s': State)
    requires Inv(mode, header, s) && DoTakeId(mode, s, t, bytes, sync, s')
    ensures Inv(mode, header, s')
  {
    hide DiskInv, WaitInv, FlushedInv, IdsOf;
    forall id | 1 <= id <= s'.next && id !in IdsOf(s.sent) ensures Held(s'.submits, id) {
      if id == s'.next {
        assert s'.submits[t].id == id;
      } else {
        var u :| u in s.submits && s.submits[u].HasId? && s.submits[u].id == id;
        assert s'.submits[u] == s.submits[u];
      }
    }
    forall id | 1 <= id <= s'.next && id > s.queued ensures Inside(s'.submits, id) {
      if id == s'.next {
        assert s'.submits[t].id == id;
      } else {
        assert Inside(s.submits, id);
        var u :| u in s.submits && s.submits[u].id == id;
        assert s'.submits[u] == s.submits[u];
      }
    }
  }

  lemma SentMore(mode: Mode, header: Bytes, s: State, c: Command)
    requires DiskInv(header, s.disk, s.sent, s.handled, s.durable)
    requires WaitInv(mode, s.sent, s.durable, s.waits) && FlushedInv(mode, s.sent, s.durable, s.flushed, s.acked)
    requires c.Flush? ==> Upto(c.upTo, IdsOf(s.sent))
    ensures DiskInv(header, s.disk, s.sent + [c], s.handled, s.durable)
    ensures WaitInv(mode, s.sent + [c], s.durable, s.waits)
    ensures FlushedInv(mode, s.sent + [c], s.durable, s.flushed, s.acked)
  {
    hide IdsOf, After;
    IdsAppend(s.sent, c);
    var all := s.sent + [c];
    assert all[..s.handled] == s.sent[..s.handled] && all[..s.durable] == s.sent[..s.durable];
    forall p | 0 <= p < |all| && all[p].Flush? ensures Upto(all[p].upTo, IdsOf(all[..p])) {
      assert all[..p] == s.sent[..p];
      if p == |s.sent| { assert s.sent[..p] == s.sent; }
    }
  }

  lemma ModeMore(mode: Mode, sent: seq<Command>, submits: map<Tid, Submit>, submits': map<Tid, Submit>, c: Command)
    requires ModeInv(mode, sent, submits)
    requires forall t :: t in submits' && submits'[t].HasId? ==> t in submits && submits[t] == submits'[t]
    requires c.Append? && mode.Async? ==> !c.sync
    requires c.Append? && mode.InOrder? ==> Below(c.id, IdsOf(sent))
    ensures ModeInv(mode, sent + [c], submits')
  {
    hide IdsOf;
    var all := sent + [c];
    assert forall p :: 0 <= p < |sent| ==> all[p] == sent[p] && all[..p] == sent[..p];
    assert all[..|sent|] == sent;
  }

  lemma SendKeeps(mode: Mode, header: Bytes, s: State, t: Tid, s': State)
    requires Inv(mode, header, s) && DoSend(mode, s, t, s')
    ensures Inv(mode, header, s')
  {
    hide DiskInv, WaitInv, FlushedInv, ModeInv, IdsOf;
    var HasId(id, bytes, sync) := s.submits[t];
    var c := Append(id, bytes, sync);
    SentMore(mode, header, s, c);
    IdsAppend(s.sent, c);
    SendMode(mode, s, t);
    ModeMore(mode, s.sent, s.submits, s'.submits, c);
    forall i | 1 <= i <= s.next && i !in IdsOf(s'.sent) ensures Held(s'.submits, i) {
      var u :| u in s.submits && s.submits[u].HasId? && s.submits[u].id == i;
      assert s'.submits[u] == s.submits[u];
    }
    forall i | 1 <= i <= s.next && i > s.queued ensures Inside(s'.submits, i) {
      assert Inside(s.submits, i);
      var u :| u in s.submits && s.submits[u].id == i;
      assert s'.submits[u].id == i;
    }
  }

  lemma SendMode(mode: Mode, s: State, t: Tid)
    requires ModeInv(mode, s.sent, s.submits) && t in s.submits && s.submits[t].HasId?
    ensures mode.Async? ==> !s.submits[t].sync
  {
  }

  lemma AcceptKeeps(mode: Mode, header: Bytes, s: State, t: Tid, s': State)
    requires Inv(mode, header, s) && DoAccept(s, t, s')
    ensures Inv(mode, header, s')
  {
    hide DiskInv, WaitInv, FlushedInv, IdsOf;
    forall i | 1 <= i <= s.next && i !in IdsOf(s.sent) ensures Held(s'.submits, i) {
      var u :| u in s.submits && s.submits[u].HasId? && s.submits[u].id == i;
      assert s'.submits[u] == s.submits[u];
    }
    forall i | 1 <= i <= s.next && i > s'.queued ensures Inside(s'.submits, i) {
      assert Inside(s.submits, i);
      var u :| u in s.submits && s.submits[u].id == i;
      assert s'.submits[u] == s.submits[u];
    }
  }

  /** With the gate held exclusively, the watermark is the last id handed out and all are sent. */
  lemma WatermarkCoversAll(mode: Mode, header: Bytes, s: State, c: Tid, s': State)
    requires Inv(mode, header, s) && DoReadWatermark(s, c, s')
    ensures s'.waits[c] == Watermark(s.next) && Upto(s.next, IdsOf(s.sent))
  {
    hide DiskInv, WaitInv, FlushedInv, ModeInv, IdsOf;
    assert s.next >= 1 ==> s.next <= s.queued || Inside(s.submits, s.next);
  }

  lemma WatermarkKeeps(mode: Mode, header: Bytes, s: State, c: Tid, s': State)
    requires Inv(mode, header, s) && DoReadWatermark(s, c, s')
    ensures Inv(mode, header, s')
  {
    WatermarkCoversAll(mode, header, s, c, s');
    hide DiskInv, FlushedInv, ModeInv, IdsOf, IdInv;
  }

  lemma FlushEarlyKeeps(mode: Mode, header: Bytes, s: State, c: Tid, s': State)
    requires Inv(mode, header, s) && DoFlushEarly(s, c, s')
    ensures Inv(mode, header, s')
  {
    hide DiskInv, ModeInv, IdsOf, IdInv;
  }

  lemma FlushSendKeeps(mode: Mode, header: Bytes, s: State, c: Tid, s': State)
    requires Inv(mode, header, s) && DoFlushSend(s, c, s')
    ensures Inv(mode, header, s')
  {
    hide DiskInv, FlushedInv, ModeInv, IdsOf;
    var cmd := Flush(s.waits[c].observed, c);
    SentMore(mode, header, s, cmd);
    IdsAppend(s.sent, cmd);
    ModeMore(mode, s.sent, s.submits, s.submits, cmd);
  }

  lemma TruncateSendKeeps(mode: Mode, header: Bytes, s: State, c: Tid, s': State)
    requires Inv(mode, header, s) && DoTruncateSend(s, c, s')
    ensures Inv(mode, header, s')
  {
    hide DiskInv, WaitInv, FlushedInv, ModeInv, IdsOf;
    SentMore(mode, header, s, Truncate(c));
    IdsAppend(s.sent, Truncate(c));
    ModeMore(mode, s.sent, s.submits, s.submits, Truncate(c));
  }

  /** More of the same commands is durable. */
  lemma DurableMore(mode: Mode, s: State, durable: nat)
    requires WaitInv(mode, s.sent, s.durable, s.waits) && FlushedInv(mode, s.sent, s.durable, s.flushed, s.acked)
    requires s.durable <= durable <= |s.sent|
    ensures WaitInv(mode, s.sent, durable, s.waits) && FlushedInv(mode, s.sent, durable, s.flushed, s.acked)
  {
    hide IdsOf;
    IdsMono(s.sent, s.durable, durable);
  }

  lemma BatchDisk(header: Bytes, s: State, k: nat)
    requires DiskInv(header, s.disk, s.sent, s.handled, s.durable) && s.handled + k <= |s.sent|
    requires AllAppends(s.sent[s.handled..s.handled + k])
    ensures var disk := AppendAll(s.disk, s.sent[s.handled..s.handled + k]);
            && DiskInv(header, disk, s.sent, s.handled + k, s.durable)
            && DiskInv(header, FlushDisk(disk), s.sent, s.handled + k, s.handled + k)
  {
    hide After, Joined;
    var batch := s.sent[s.handled..s.handled + k];
    assert s.sent[..s.handled + k] == s.sent[..s.handled] + batch;
    AfterAppends(header, s.sent[..s.handled], batch);
    KeepsHeader(header, s.disk, batch);
  }

  lemma {:induction false} KeepsHeader(header: Bytes, d: Disk, batch: seq<Command>)
    requires header <= d.file && AllAppends(batch)
    ensures header <= AppendAll(d, batch).file
    decreases |batch|
  {
    if batch != [] { KeepsHeader(header, d, batch[..|batch| - 1]); }
  }

  lemma WorkBatchKeeps(mode: Mode, header: Bytes, s: State, k: nat, s': State)
    requires Inv(mode, header, s) && DoWorkBatch(s, k, s')
    ensures Inv(mode, header, s')
  {
    hide IdInv, WaitInv, AppendAll, IdsOf, MaxId, SyncIds, After;
    var batch := s.sent[s.handled..s.handled + k];
    BatchDisk(header, s, k);
    if NeedsSync(batch) {
      DurableMore(mode, s, s.handled + k);
      if !mode.Free? {
        SyncedMode(mode, s, k);
        MaxCovered(s.sent, s.handled, s.handled + k);
      }
      SyncIdsIn(s.sent, s.handled, s.handled + k);
    }
  }

  lemma SyncedMode(mode: Mode, s: State, k: nat)
    requires ModeInv(mode, s.sent, s.submits) && !mode.Free? && s.handled + k <= |s.sent|
    requires AllAppends(s.sent[s.handled..s.handled + k]) && NeedsSync(s.sent[s.handled..s.handled + k])
    ensures mode.InOrder?
  {
    var batch := s.sent[s.handled..s.handled + k];
    var i :| 0 <= i < |batch| && batch[i].sync;
    assert s.sent[s.handled + i].sync;
  }

  lemma WorkFlushKeeps(mode: Mode, header: Bytes, s: State, s': State)
    requires Inv(mode, header, s) && DoWorkFlush(s, s')
    ensures Inv(mode, header, s')
  {
    hide IdInv, ModeInv, IdsOf;
    assert s.sent[..s.handled + 1][..s.handled] == s.sent[..s.handled];
    DurableMore(mode, s, s.handled + 1);
    IdsMono(s.sent, s.handled, s.handled + 1);
    IdsMonoAll(s.sent, s.handled);
  }

  lemma WorkTruncateKeeps(mode: Mode, header: Bytes, s: State, s': State)
    requires Inv(mode, header, s) && DoWorkTruncate(s, s')
    ensures Inv(mode, header, s')
  {
    hide IdInv, ModeInv, IdsOf, WaitInv, FlushedInv;
    assert s.sent[..s.handled + 1][..s.handled] == s.sent[..s.handled];
    DurableMore(mode, s, s.handled + 1);
    assert s'.disk.file + [] == s'.disk.file;
  }

  lemma NextKeeps(mode: Mode, header: Bytes, s: State, e: Event, s': State)
    requires Inv(mode, header, s) && Next(mode, s, e, s')
    ensures Inv(mode, header, s')
  {
    hide Inv, DoTakeId, DoSend, DoAccept, DoReadWatermark, DoFlushEarly, DoFlushSend, DoTruncateSend,
         DoWorkBatch, DoWorkFlush, DoWorkTruncate;
    match e
    case TakeId(t, bytes, sync) => TakeIdKeeps(mode, header, s, t, bytes, sync, s');
    case Send(t) => SendKeeps(mode, header, s, t, s');
    case Accept(t) => AcceptKeeps(mode, header, s, t, s');
    case ReadWatermark(c) => WatermarkKeeps(mode, header, s, c, s');
    case FlushEarly(c) => FlushEarlyKeeps(mode, header, s, c, s');
    case FlushSend(c) => FlushSendKeeps(mode, header, s, c, s');
    case TruncateSend(c) => TruncateSendKeeps(mode, header, s, c, s');
    case WorkBatch(k) => WorkBatchKeeps(mode, header, s, k, s');
    case WorkFlush => WorkFlushKeeps(mode, header, s, s');
    case WorkTruncate => WorkTruncateKeeps(mode, header, s, s');
  }

  // ---------- whole runs ----------

  ghost predicate Run(mode: Mode, header: Bytes, states: seq<State>, events: seq<Event>) {
    && |states| == |events| + 1
    && Init(header, states[0])
    && forall i :: 0 <= i < |events| ==> Next(mode, states[i], events[i], states[i + 1])
  }

  lemma {:induction false} RunInv(mode: Mode, header: Bytes, states: seq<State>, events: seq<Event>, i: nat)
    requires Run(mode, header, states, events) && i < |states|
    ensures Inv(mode, header, states[i])
    decreases i
  {
    hide Inv, Next, Init;
    if i == 0 {
      InitInv(mode, header, states[0]);
    } else {
      RunInv(mode, header, states, events, i - 1);
      NextKeeps(mode, header, states[i - 1], events[i - 1], states[i]);
    }
  }

  /** In every state of every run the log is what the handled commands say, in the order sent, and
      its synced part is what a prefix of them says. */
  lemma ChannelOrder(mode: Mode, header: Bytes, states: seq<State>, events: seq<Event>, i: nat)
    requires Run(mode, header, states, events) && i < |states|
    ensures var s := states[i];
            && s.durable <= s.handled <= |s.sent|
            && Contents(s.disk) == After(header, s.sent[..s.handled])
            && s.disk.synced == After(header, s.sent[..s.durable])
  {
    RunInv(mode, header, states, events, i);
  }

  /** An acknowledged synchronous append is among the commands whose records were synced. */
  lemma AckIsDurable(mode: Mode, header: Bytes, states: seq<State>, events: seq<Event>, i: nat, id: nat)
    requires Run(mode, header, states, events) && i < |states|
    requires id in states[i].acked
    ensures states[i].durable <= |states[i].sent| && id in IdsOf(states[i].sent[..states[i].durable])
  {
    RunInv(mode, header, states, events, i);
  }

  /** When `flush_up_to` returns, every record up to its watermark has been synced: after a flush
      through the channel always, on the early return unless synchronous appends overtake. */
  lemma FlushBarrier(mode: Mode, header: Bytes, states: seq<State>, events: seq<Event>, i: nat, c: Tid)
    requires Run(mode, header, states, events) && i < |states|
    requires c in states[i].waits && states[i].waits[c].Returned? && (states[i].waits[c].channel || !mode.Free?)
    ensures var s := states[i];
            s.durable <= |s.sent| && Upto(s.waits[c].observed, IdsOf(s.sent[..s.durable]))
  {
    RunInv(mode, header, states, events, i);
  }

  // ---------- answers ----------

  /** The flush of this caller is sent and not handled yet. */
  predicate Asks(sent: seq<Command>, handled: nat, c: Tid, upTo: nat) {
    exists p :: handled <= p < |sent| && sent[p] == Flush(upTo, c)
  }

  /** Every synchronous append that was handled is acknowledged, and a caller waits for the worker only
      while its flush is in the channel. */
  ghost predicate Served(s: State) {
    && s.handled <= |s.sent|
    && (forall p :: 0 <= p < s.handled && s.sent[p].Append? && s.sent[p].sync ==> s.sent[p].id in s.acked)
    && (forall c :: c in s.waits && s.waits[c].Queued? ==> Asks(s.sent, s.handled, c, s.waits[c].observed))
  }

  lemma AsksMore(sent: seq<Command>, handled: nat, cmd: Command)
    ensures forall c, w :: Asks(sent, handled, c, w) ==> Asks(sent + [cmd], handled, c, w)
  {
    forall c, w | Asks(sent, handled, c, w) ensures Asks(sent + [cmd], handled, c, w) {
      var p :| handled <= p < |sent| && sent[p] == Flush(w, c);
      assert (sent + [cmd])[p] == Flush(w, c);
    }
  }

  lemma AsksLater(sent: seq<Command>, handled: nat, handled': nat, c: Tid, w: nat)
    requires Asks(sent, handled, c, w) && handled' <= |sent|
    requires forall p :: handled <= p < handled' ==> sent[p] != Flush(w, c)
    ensures Asks(sent, handled', c, w)
  {
  }

  lemma BatchServed(s: State, k: nat, s': State)
    requires Served(s) && DoWorkBatch(s, k, s')
    ensures Served(s')
  {
    hide AppendAll, NeedsSync, FlushDisk, MaxId;
    var batch := s.sent[s.handled..s.handled + k];
    forall p | 0 <= p < s'.handled && s.sent[p].Append? && s.sent[p].sync ensures s.sent[p].id in s'.acked {
      if p >= s.handled {
        assert batch[p - s.handled] == s.sent[p];
        SyncIsNeeded(batch);
      }
    }
    forall c | c in s.waits && s.waits[c].Queued? ensures Asks(s.sent, s'.handled, c, s.waits[c].observed) {
      assert forall p :: s.handled <= p < s'.handled ==> s.sent[p] == batch[p - s.handled];
      AsksLater(s.sent, s.handled, s'.handled, c, s.waits[c].observed);
    }
  }

  lemma ControlServed(s: State, s': State)
    requires Served(s) && (DoWorkFlush(s, s') || DoWorkTruncate(s, s'))
    ensures Served(s')
  {
    hide FlushDisk, TruncateDisk, DiskValid;
    forall c | c in s'.waits && s'.waits[c].Queued? ensures Asks(s'.sent, s'.handled, c, s'.waits[c].observed) {
      assert c in s.waits && s.waits[c] == s'.waits[c];
      AsksLater(s.sent, s.handled, s'.handled, c, s.waits[c].observed);
    }
  }

  lemma SendServed(s: State, c: Tid, s': State)
    requires Served(s) && DoFlushSend(s, c, s')
    ensures Served(s')
  {
    AsksMore(s.sent, s.handled, Flush(s.waits[c].observed, c));
    assert s'.sent[|s.sent|] == Flush(s.waits[c].observed, c);
  }

  lemma NextServed(mode: Mode, s: State, e: Event, s': State)
    requires Served(s) && Next(mode, s, e, s')
    ensures Served(s')
  {
    hide DoWorkBatch, DoWorkFlush, DoWorkTruncate, DoFlushSend, Asks;
    match e
    case WorkBatch(k) => BatchServed(s, k, s');
    case WorkFlush => ControlServed(s, s');
    case WorkTruncate => ControlServed(s, s');
    case FlushSend(c) => SendServed(s, c, s');
    case Send(t) => AsksMore(s.sent, s.handled, s'.sent[|s.sent|]);
    case TruncateSend(c) => AsksMore(s.sent, s.handled, Truncate(c));
    case _ =>
  }

  lemma {:induction false} RunServed(mode: Mode, header: Bytes, states: seq<State>, events: seq<Event>, i: nat)
    requires Run(mode, header, states, events) && i < |states|
    ensures Served(states[i])
    decreases i
  {
    hide Served, Next;
    if i == 0 {
      StartServed(header, states[0]);
    } else {
      RunServed(mode, header, states, events, i - 1);
      NextServed(mode, states[i - 1], events[i - 1], states[i]);
    }
  }

  lemma StartServed(header: Bytes, s: State)
    requires Init(header, s)
    ensures Served(s)
  {
  }

  /** Once the worker has handled all that was sent, nobody is left waiting for it: every synchronous
      append is acknowledged and every flush has returned. */
  lemma EveryoneIsAnswered(mode: Mode, header: Bytes, states: seq<State>, events: seq<Event>, i: nat)
    requires Run(mode, header, states, events) && i < |states| && states[i].handled == |states[i].sent|
    ensures var s := states[i];
            && (forall p :: 0 <= p < |s.sent| && s.sent[p].Append? && s.sent[p].sync ==> s.sent[p].id in s.acked)
            && (forall c :: c in s.waits ==> !s.waits[c].Queued?)
  {
    RunServed(mode, header, states, events, i);
  }

  /** A watermark read while the gate is held exclusively covers every record accepted so far. */
  lemma WatermarkIsComplete(mode: Mode, header: Bytes, states: seq<State>, events: seq<Event>, i: nat)
    requires Run(mode, header, states, events) && i < |events| && events[i].ReadWatermark?
    ensures var c := events[i].c;
            && c in states[i + 1].waits && states[i + 1].waits[c] == Watermark(states[i].next)
            && Upto(states[i].next, IdsOf(states[i].sent))
  {
    hide Inv;
    RunInv(mode, header, states, events, i);
    assert Next(mode, states[i], events[i], states[i + 1]);
    WatermarkCoversAll(mode, header, states[i], events[i].c, states[i + 1]);
  }

  // ---------- synchronous appends sent out of order ----------

  function Example(header: Bytes, next: nat, queued: nat, flushed: nat, sent: seq<Command>, handled: nat,
                   submits: map<Tid, Submit>, waits: map<Tid, Wait>, acked: set<nat>): State
  {
    State(next, queued, flushed, Disk(header, header, []), sent, handled, handled, submits, waits, acked)
  }

  function OutOfOrder(header: Bytes): seq<State> {
    var a, b := Append(1, [], true), Append(2, [], true);
    var h1, h2 := HasId(1, [], true), HasId(2, [], true);
    [ Example(header, 0, 0, 0, [], 0, map[], map[], {}),
      Example(header, 1, 0, 0, [], 0, map[1 := h1], map[], {}),
      Example(header, 2, 0, 0, [], 0, map[1 := h1, 2 := h2], map[], {}),
      Example(header, 2, 0, 0, [b], 0, map[1 := h1, 2 := Sent(2)], map[], {}),
      Example(header, 2, 0, 2, [b], 1, map[1 := h1, 2 := Sent(2)], map[], {2}),
      Example(header, 2, 0, 2, [b, a], 1, map[1 := Sent(1), 2 := Sent(2)], map[], {2}),
      Example(header, 2, 1, 2, [b, a], 1, map[2 := Sent(2)], map[], {2}),
      Example(header, 2, 2, 2, [b, a], 1, map[], map[], {2}),
      Example(header, 2, 2, 2, [b, a], 1, map[], map[9 := Watermark(2)], {2}),
      Example(header, 2, 2, 2, [b, a], 1, map[], map[9 := Returned(2, false)], {2}) ]
  }

  const OUT_OF_ORDER_EVENTS: seq<Event> :=
    [ TakeId(1, [], true), TakeId(2, [], true), Send(2), WorkBatch(1), Send(1), Accept(1), Accept(2),
      ReadWatermark(9), FlushEarly(9) ]

  lemma BatchOfTwo(header: Bytes)
    ensures DoWorkBatch(OutOfOrder(header)[3], 1, OutOfOrder(header)[4])
  {
    var b := Append(2, [], true);
    var s := OutOfOrder(header)[3];
    assert s.sent[0..1] == [b];
    assert [b][..0] == [] && [b][0].sync;
    assert header + [] == header;
    assert SyncIds([b]) == {2} by { assert [b][0].id in SyncIds([b]); }
    assert MaxId([b]) == 2;
    assert AppendAll(s.disk, [b]) == s.disk;
  }

  lemma OutOfOrderRuns(header: Bytes, i: nat)
    requires i < |OUT_OF_ORDER_EVENTS|
    ensures Next(Free, OutOfOrder(header)[i], OUT_OF_ORDER_EVENTS[i], OutOfOrder(header)[i + 1])
  {
    hide DoWorkBatch;
    BatchOfTwo(header);
    var a, b := HasId(1, [], true), HasId(2, [], true);
    assert map[1 := a][2 := b] == map[1 := a, 2 := b];
    assert [] + [Append(2, [], true)] == [Append(2, [], true)];
  }

  /** Ids are taken before the channel send. Two synchronous submitters that send in the other
      order let `flush_up_to` return with an accepted record still unsynced. */
  lemma BarrierNeedsOrder(header: Bytes)
    requires |header| == FILE_HEADER_SIZE
    ensures Run(Free, header, OutOfOrder(header), OUT_OF_ORDER_EVENTS)
    ensures var s := OutOfOrder(header)[9];
            s.waits[9] == Returned(2, false) && s.sent[1].id == 1 && 1 !in IdsOf(s.sent[..s.durable])
  {
    hide Next;
    forall i | 0 <= i < |OUT_OF_ORDER_EVENTS|
      ensures Next(Free, OutOfOrder(header)[i], OUT_OF_ORDER_EVENTS[i], OutOfOrder(header)[i + 1])
    {
      OutOfOrderRuns(header, i);
    }
  }

  /** At this state the caller of `flush_up_to`, if it has returned, finds its records synced. */
  ghost predicate BarrierAt(states: seq<State>, i: nat, c: Tid) {
    i < |states| && c in states[i].waits && states[i].waits[c].Returned? ==>
      var s := states[i];
      s.durable <= |s.sent| && Upto(s.waits[c].observed, IdsOf(s.sent[..s.durable]))
  }

  ghost predicate Barrier(mode: Mode, header: Bytes) {
    forall states: seq<State>, events: seq<Event>, i: nat, c: Tid ::
      Run(mode, header, states, events) ==> BarrierAt(states, i, c)
  }

  /** `flush_up_to` is a barrier in every run exactly when no synchronous append can overtake another. */
  lemma BarrierIff(mode: Mode, header: Bytes)
    requires |header| == FILE_HEADER_SIZE
    ensures Barrier(mode, header) <==> !mode.Free?
  {
    hide Run;
    if mode.Free? {
      BarrierNeedsOrder(header);
      assert !BarrierAt(OutOfOrder(header), 9, 9) by { MissedAt(header); }
    } else {
      forall states: seq<State>, events: seq<Event>, i: nat, c: Tid | Run(mode, header, states, events)
        ensures BarrierAt(states, i, c)
      {
        if i < |states| && c in states[i].waits && states[i].waits[c].Returned? {
          FlushBarrier(mode, header, states, events, i, c);
        }
      }
    }
  }

  lemma MissedAt(header: Bytes)
    requires 1 !in IdsOf(OutOfOrder(header)[9].sent[..OutOfOrder(header)[9].durable])
    ensures !BarrierAt(OutOfOrder(header), 9, 9)
  {
    hide IdsOf;
    var s := OutOfOrder(header)[9];
    assert s.waits[9] == Returned(2, false);
    assert !Upto(2, IdsOf(s.sent[..s.durable]));
  }

  // ---------- when an early return is a barrier ----------

  /** Every work id is used once. */
  ghost predicate UniqueIds(s: State) {
    && (forall p, q :: 0 <= p < q < |s.sent| && s.sent[p].Append? && s.sent[q].Append? ==> s.sent[p].id != s.sent[q].id)
    && (forall p :: 0 <= p < |s.sent| && s.sent[p].Append? ==> s.sent[p].id <= s.next)
    && (forall t :: t in s.submits && s.submits[t].HasId? ==> Unsent(s, s.submits[t].id))
    && (forall t, u :: t in s.submits && u in s.submits && t != u && s.submits[t].HasId? && s.submits[u].HasId? ==>
          s.submits[t].id != s.submits[u].id)
  }

  predicate Unsent(s: State, id: nat) {
    id <= s.next && forall p :: 0 <= p < |s.sent| && s.sent[p].Append? ==> s.sent[p].id != id
  }

  lemma NextUnique(mode: Mode, s: State, e: Event, s': State)
    requires UniqueIds(s) && Next(mode, s, e, s')
    ensures UniqueIds(s')
  {
    hide AppendAll, FlushDisk, TruncateDisk, MaxId, SyncIds, NeedsSync, AllAppends, DiskValid;
  }

  lemma {:induction false} RunUnique(mode: Mode, header: Bytes, states: seq<State>, events: seq<Event>, i: nat)
    requires Run(mode, header, states, events) && i < |states|
    ensures UniqueIds(states[i])
    decreases i
  {
    hide UniqueIds, Next;
    if i == 0 {
      FirstUnique(header, states[0]);
    } else {
      RunUnique(mode, header, states, events, i - 1);
      NextUnique(mode, states[i - 1], events[i - 1], states[i]);
    }
  }

  lemma FirstUnique(header: Bytes, s: State)
    requires Init(header, s)
    ensures UniqueIds(s)
  {
  }

  /** No append at or below the watermark is still waiting for its sync. */
  predicate NoneOvertaken(s: State, upTo: nat) {
    forall p :: 0 <= p < |s.sent| && s.durable <= p && s.sent[p].Append? ==> s.sent[p].id > upTo
  }

  lemma SyncedIff(s: State, upTo: nat)
    requires UniqueIds(s) && s.durable <= |s.sent| && Upto(upTo, IdsOf(s.sent))
    requires forall id :: id in IdsOf(s.sent) ==> id >= 1
    ensures Upto(upTo, IdsOf(s.sent[..s.durable])) <==> NoneOvertaken(s, upTo)
  {
    if NoneOvertaken(s, upTo) {
      forall id | 1 <= id <= upTo ensures id in IdsOf(s.sent[..s.durable]) {
        assert id in IdsOf(s.sent);
        var p :| 0 <= p < |s.sent| && s.sent[p].Append? && s.sent[p].id == id;
        assert s.sent[..s.durable][p] == s.sent[p];
      }
    } else {
      var p :| 0 <= p < |s.sent| && s.durable <= p && s.sent[p].Append? && s.sent[p].id <= upTo;
      assert s.sent[p].id in IdsOf(s.sent);
      assert s.sent[p].id !in IdsOf(s.sent[..s.durable]);
    }
  }

  /** In any run, with appends sent in any order, an early return is a barrier exactly when nothing at
      or below its watermark was overtaken and is still unsynced. */
  lemma EarlyReturnIff(mode: Mode, header: Bytes, states: seq<State>, events: seq<Event>, i: nat)
    requires Run(mode, header, states, events) && i < |events| && events[i].FlushEarly?
    ensures events[i].c in states[i].waits
    ensures BarrierAt(states, i + 1, events[i].c) <==> NoneOvertaken(states[i], states[i].waits[events[i].c].observed)
  {
    hide UniqueIds, IdsOf, NoneOvertaken;
    RunUnique(mode, header, states, events, i);
    RunInv(mode, header, states, events, i);
    assert Next(mode, states[i], events[i], states[i + 1]);
    SyncedIff(states[i], states[i].waits[events[i].c].observed);
  }
}
