/**
 The log writer and the group-commit worker. Commands are handled in the order
 they were sent, whatever runs of appends the worker gathers into one write.
 */
module Journal {
  import opened Bytes

  // ---------- log file ----------

  const FILE_HEADER_SIZE: nat := 32
  const AUTO_FLUSH_THRESHOLD: nat := 65536
  const GROUP_COMMIT_MAX_BYTES: nat := 262144

  /** `file` is what the OS holds, `synced` what survives power loss, `pending` what neither has. */
  datatype Disk = Disk(file: Bytes, synced: Bytes, pending: Bytes)

  function Contents(d: Disk): Bytes { d.file + d.pending }

  predicate DiskValid(d: Disk) { |d.file| >= FILE_HEADER_SIZE && |d.synced| >= FILE_HEADER_SIZE }

  function DrainDisk(d: Disk): (r: Disk)
    ensures Contents(r) == Contents(d) && r.synced == d.synced && r.pending == []
  {
    Disk(d.file + d.pending, d.synced, [])
  }

  function FlushDisk(d: Disk): (r: Disk)
    ensures Contents(r) == Contents(d) == r.synced
  {
    Disk(d.file + d.pending, d.file + d.pending, [])
  }

  function AppendDisk(d: Disk, record: Bytes): (r: Disk)
    ensures Contents(r) == Contents(d) + record && r.synced == d.synced
    ensures |r.pending| < AUTO_FLUSH_THRESHOLD
  {
    var staged := Disk(d.file, d.synced, d.pending + record);
    if |staged.pending| >= AUTO_FLUSH_THRESHOLD then DrainDisk(staged) else staged
  }

  function TruncateDisk(d: Disk): (r: Disk)
    requires DiskValid(d)
    ensures Contents(r) == r.synced == d.file[..FILE_HEADER_SIZE]
  {
    Disk(d.file[..FILE_HEADER_SIZE], d.file[..FILE_HEADER_SIZE], [])
  }

  class WalWriter {
    var file: Bytes
    var synced: Bytes
    var pending: Bytes
    var bytesWritten: nat

    ghost function View(): Disk
      reads this
    {
      Disk(file, synced, pending)
    }

    ghost predicate Valid()
      reads this
    {
      DiskValid(View()) && bytesWritten == |file|
    }

    constructor (header: Bytes)
      requires |header| == FILE_HEADER_SIZE
      ensures Valid() && View() == Disk(header, header, []) && bytesWritten == 32
    {
      file, synced, pending, bytesWritten := header, header, [], FILE_HEADER_SIZE;
    }

    method DrainToOs()
      requires Valid()
      modifies this
      ensures Valid() && View() == DrainDisk(old(View()))
    {
      if pending == [] {
        assert file + pending == file;
        return;
      }
      file := file + pending;
      bytesWritten := bytesWritten + |pending|;
      pending := [];
    }

    /** Buffered below the threshold, handed to the OS above it; never synced by itself. */
    method AppendEncoded(record: Bytes)
      requires Valid()
      modifies this
      ensures Valid() && View() == AppendDisk(old(View()), record) && synced == old(synced)
      ensures if |old(pending)| + |record| < 65536 then file == old(file) && pending == old(pending) + record
              else file == old(file) + old(pending) + record && pending == []
    {
      pending := pending + record;
      if |pending| >= AUTO_FLUSH_THRESHOLD { DrainToOs(); }
    }

    method Flush()
      requires Valid()
      modifies this
      ensures Valid() && View() == FlushDisk(old(View()))
      ensures file == old(file) + old(pending) && synced == file && pending == []
    {
      DrainToOs();
      synced := file;
    }

    method Truncate()
      requires Valid()
      modifies this
      ensures Valid() && View() == TruncateDisk(old(View()))
      ensures |old(file)| >= 32 && file == old(file)[..32] && synced == file && pending == [] && bytesWritten == 32
    {
      pending := [];
      file := file[..FILE_HEADER_SIZE];
      synced := file;
      bytesWritten := FILE_HEADER_SIZE;
    }
  }

  // ---------- commands ----------

  datatype Command =
    | Append(id: nat, bytes: Bytes, sync: bool)
    | Flush(upTo: nat, who: nat)
    | Truncate(who: nat)

  predicate AllAppends(cmds: seq<Command>) { forall i :: 0 <= i < |cmds| ==> cmds[i].Append? }

  function Joined(cmds: seq<Command>): Bytes
    requires AllAppends(cmds)
  {
    if cmds == [] then [] else Joined(cmds[..|cmds| - 1]) + cmds[|cmds| - 1].bytes
  }

  function MaxId(cmds: seq<Command>): (m: nat)
    requires AllAppends(cmds)
    ensures forall i :: 0 <= i < |cmds| ==> cmds[i].id <= m
    ensures m == 0 || exists i :: 0 <= i < |cmds| && cmds[i].id == m
  {
    if cmds == [] then 0
    else
      var front, last := cmds[..|cmds| - 1], cmds[|cmds| - 1];
      var m := MaxId(front);
      assert forall i :: 0 <= i < |front| ==> front[i] == cmds[i];
      if m > last.id then m else last.id
  }

  /** What the log holds after `cmds`, in the order they were sent. */
  function After(header: Bytes, cmds: seq<Command>): Bytes {
    if cmds == [] then header
    else match cmds[|cmds| - 1]
         case Append(_, bytes, _) => After(header, cmds[..|cmds| - 1]) + bytes
         case Flush(_, _) => After(header, cmds[..|cmds| - 1])
         case Truncate(_) => header
  }

  /** The bytes of the appends, in order. */
  function AppendedBytes(cmds: seq<Command>): Bytes {
    if cmds == [] then []
    else AppendedBytes(cmds[..|cmds| - 1]) + if cmds[|cmds| - 1].Append? then cmds[|cmds| - 1].bytes else []
  }

  /** A log is its header and the appends since the last truncate. */
  lemma {:induction false} AfterTruncate(header: Bytes, before: seq<Command>, who: nat, cmds: seq<Command>)
    requires forall i :: 0 <= i < |cmds| ==> !cmds[i].Truncate?
    ensures After(header, before + [Truncate(who)] + cmds) == header + AppendedBytes(cmds)
    ensures After(header, cmds) == header + AppendedBytes(cmds)
    decreases |cmds|
  {
    var all := before + [Truncate(who)] + cmds;
    if cmds == [] {
      assert all[|all| - 1] == Truncate(who);
    } else {
      var n := |cmds| - 1;
      AfterTruncate(header, before, who, cmds[..n]);
      assert all[..|all| - 1] == before + [Truncate(who)] + cmds[..n] && all[|all| - 1] == cmds[n];
    }
  }

  lemma {:induction false} AfterAppends(header: Bytes, cmds: seq<Command>, batch: seq<Command>)
    requires AllAppends(batch)
    ensures After(header, cmds + batch) == After(header, cmds) + Joined(batch)
    decreases |batch|
  {
    if batch == [] {
      assert cmds + batch == cmds;
    } else {
      assert (cmds + batch)[..|cmds + batch| - 1] == cmds + batch[..|batch| - 1];
      AfterAppends(header, cmds, batch[..|batch| - 1]);
    }
  }

  lemma {:induction false} AfterHasHeader(header: Bytes, cmds: seq<Command>)
    ensures header <= After(header, cmds)
    decreases |cmds|
  {
    if cmds != [] { AfterHasHeader(header, cmds[..|cmds| - 1]); }
  }

  // ---------- worker ----------

  predicate NeedsSync(batch: seq<Command>)
    requires AllAppends(batch)
  {
    exists i :: 0 <= i < |batch| && batch[i].sync
  }

  function SyncIds(batch: seq<Command>): set<nat>
    requires AllAppends(batch)
  {
    set i | 0 <= i < |batch| && batch[i].sync :: batch[i].id
  }

  class Worker {
    const header: Bytes
    const writer: WalWriter
    var channel: seq<Command>
    var backlog: seq<Command>
    var writtenWork: nat
    var flushedWork: nat
    var acked: set<nat>
    ghost var handled: seq<Command>

    /** Everything handled is in the log, in order. */
    ghost predicate Valid()
      reads this, writer
    {
      && writer.Valid() && |header| == FILE_HEADER_SIZE
      && header <= writer.file
      && |backlog| <= 1
      && Contents(writer.View()) == After(header, handled)
    }

    constructor (header: Bytes, cmds: seq<Command>)
      requires |header| == FILE_HEADER_SIZE
      ensures Valid() && fresh(writer) && channel == cmds && backlog == [] && handled == [] && acked == {}
    {
      this.header := header;
      writer := new WalWriter(header);
      channel, backlog, writtenWork, flushedWork, acked, handled := cmds, [], 0, 0, {}, [];
      new;
      assert header + [] == header;
    }

    /** Appends the records of a batch one by one. */
    method WriteAll(batch: seq<Command>) returns (writtenSeq: nat)
      requires Valid() && AllAppends(batch)
      modifies writer
      ensures writer.Valid() && header <= writer.file
      ensures Contents(writer.View()) == After(header, handled + batch)
      ensures writer.synced == old(writer.synced) && writtenSeq == MaxId(batch)
    {
      hide After, Contents, DiskValid, AppendDisk, Joined, MaxId;
      writtenSeq := 0;
      assert batch[..0] == [] && batch[..|batch|] == batch;
      NoneJoined();
      AfterAppends(header, handled, batch);
      for i := 0 to |batch|
        invariant writer.Valid() && header <= writer.file
        invariant Contents(writer.View()) == After(header, handled) + Joined(batch[..i])
        invariant writer.synced == old(writer.synced)
        invariant writtenSeq == MaxId(batch[..i])
      {
        JoinedNext(batch, i);
        AppendKeepsHeader(header, writer.View(), batch[i].bytes);
        writer.AppendEncoded(batch[i].bytes);
        writtenSeq := Max(writtenSeq, batch[i].id);
      }
    }

    /** Writes a batch, then syncs once if any of its records asks for it. */
    method WriteAppendBatch(batch: seq<Command>, needsSync: bool)
      requires Valid() && AllAppends(batch) && needsSync == NeedsSync(batch)
      modifies this, writer
      ensures Valid() && handled == old(handled) + batch
      ensures channel == old(channel) && backlog == old(backlog) && acked == old(acked)
      ensures writer.synced == if needsSync then After(header, handled) else old(writer.synced)
      ensures flushedWork == if needsSync then Max(old(flushedWork), MaxId(batch)) else old(flushedWork)
      ensures writtenWork == Max(old(writtenWork), MaxId(batch))
    {
      hide After, MaxId, NeedsSync;
      var writtenSeq := WriteAll(batch);
      handled := handled + batch;
      if writtenSeq != 0 { writtenWork := Max(writtenWork, writtenSeq); }
      if needsSync {
        writer.Flush();
        flushedWork := Max(flushedWork, MaxId(batch));
      }
    }

    /** Gathers appends behind the first one until bytes, time (`late`) or another kind of
        command stops it; that other command waits in the backlog. */
    method ProcessAppendBatch(first: Command) returns (ghost batch: seq<Command>, ghost late: bool)
      requires Valid() && first.Append? && backlog == []
      modifies this, writer
      ensures Valid()
      ensures handled + backlog + channel == old(handled) + [first] + old(channel)
      ensures AllAppends(batch) && batch != [] && handled == old(handled) + batch
      ensures acked == old(acked) + SyncIds(batch)
      ensures NeedsSync(batch) ==> writer.synced == After(header, handled)
      ensures |batch| > 1 ==> |Joined(batch[..|batch| - 1])| < 262144
      ensures !late && backlog == [] && |Joined(batch)| < 262144 ==> channel == []
      ensures Counters(batch, old(flushedWork), flushedWork, old(writtenWork), writtenWork)
    {
      hide After, MaxId, NeedsSync, SyncIds;
      late := false;
      var run := [first];
      var needsSync := first.sync;
      var bytes := |first.bytes|;
      SyncOne(first);
      JoinedOne(first);
      while bytes < GROUP_COMMIT_MAX_BYTES && channel != []
        modifies this
        invariant AllAppends(run) && run != [] && needsSync == NeedsSync(run)
        invariant run + channel == [first] + old(channel)
        invariant bytes == |Joined(run)| && (|run| > 1 ==> |Joined(run[..|run| - 1])| < 262144)
        invariant backlog == [] && handled == old(handled) && acked == old(acked)
        invariant flushedWork == old(flushedWork) && writtenWork == old(writtenWork) && !late
        decreases |channel|
      {
        var expired: bool := *;
        if expired {
          late := true;
          break;
        }
        var next := channel[0];
        assert run + channel == run + [next] + channel[1..];
        channel := channel[1..];
        if !next.Append? {
          backlog := [next];
          break;
        }
        bytes := bytes + |next.bytes|;
        needsSync := needsSync || next.sync;
        SyncGrows(run, next);
        JoinedMore(run, next);
        run := run + [next];
      }
      WriteAppendBatch(run, needsSync);
      acked := acked + SyncIds(run);
      batch := run;
      assert backlog == [] ==> run + backlog + channel == run + channel;
      assert run + backlog + channel == [first] + old(channel);
      assert handled + backlog + channel == old(handled) + (run + backlog + channel);
    }

    method HandleAppend(cmd: Command)
      requires Valid() && backlog == [] && cmd.Append?
      modifies this, writer
      ensures Valid()
      ensures handled + backlog + channel == old(handled) + [cmd] + old(channel)
      ensures |handled| > |old(handled)| && old(handled) <= handled && old(acked) <= acked
      ensures Acknowledged(old(handled))
      ensures Counters(handled[|old(handled)|..], old(flushedWork), flushedWork, old(writtenWork), writtenWork)
    {
      hide After, Counters;
      ghost var batch, late := ProcessAppendBatch(cmd);
      assert handled[|old(handled)|..] == batch;
      forall i | |old(handled)| <= i < |handled| && handled[i].Append? && handled[i].sync
        ensures handled[i].id in acked && writer.synced == After(header, handled)
      {
        assert handled[i] == batch[i - |old(handled)|];
      }
    }

    /** Every synchronous append handled since `before` is acknowledged, and all handled so far
        is synced. */
    ghost predicate Acknowledged(before: seq<Command>)
      reads this, writer
    {
      forall i :: |before| <= i < |handled| && handled[i].Append? && handled[i].sync ==>
        handled[i].id in acked && writer.synced == After(header, handled)
    }

    /** One turn of the worker: the backlog first, then the channel. */
    method HandleNext()
      requires Valid() && backlog + channel != []
      modifies this, writer
      ensures Valid()
      ensures handled + backlog + channel == old(handled + backlog + channel)
      ensures |handled| > |old(handled)| && old(handled) <= handled && old(acked) <= acked
      ensures Acknowledged(old(handled))
      ensures Counters(handled[|old(handled)|..], old(flushedWork), flushedWork, old(writtenWork), writtenWork)
    {
      hide After, Acknowledged, Counters;
      ghost var all := handled + backlog + channel;
      var cmd;
      if backlog != [] {
        cmd := backlog[0];
        backlog := backlog[1..];
      } else {
        cmd := channel[0];
        channel := channel[1..];
      }
      assert all == handled + [cmd] + channel;
      if cmd.Append? {
        HandleAppend(cmd);
      } else {
        HandleControl(cmd);
        assert handled[|old(handled)|..] == [cmd];
      }
    }

    method HandleControl(cmd: Command)
      requires Valid() && backlog == [] && !cmd.Append?
      modifies this, writer
      ensures Valid()
      ensures handled == old(handled) + [cmd] && backlog == [] && channel == old(channel) && acked == old(acked)
      ensures Acknowledged(old(handled))
      ensures writer.synced == After(header, handled)
      ensures Counters([cmd], old(flushedWork), flushedWork, old(writtenWork), writtenWork)
    {
      assert (handled + [cmd])[..|handled|] == handled;
      match cmd {
        case Flush(upTo, _) =>
          writer.Flush();
          flushedWork := Max(flushedWork, upTo);
        case Truncate(_) =>
          writer.Truncate();
      }
      handled := handled + [cmd];
    }

    /** The worker loop: the log ends as if every command had been handled alone, in order. */
    method RunWorker()
      requires Valid()
      modifies this, writer
      ensures Valid()
      ensures handled == old(handled + backlog + channel) && backlog == [] && channel == []
      ensures Contents(writer.View()) == After(header, old(handled + backlog + channel))
      ensures forall i :: |old(handled)| <= i < |handled| && handled[i].Append? && handled[i].sync ==>
        handled[i].id in acked
      ensures old(flushedWork) <= flushedWork && old(writtenWork) <= writtenWork
      ensures forall i :: |old(handled)| <= i < |handled| ==> Reflected(handled[i], flushedWork, writtenWork)
      ensures Reached(handled, |old(handled)|, old(flushedWork), flushedWork)
    {
      hide After, Counters, Reached, Reflected;
      NotReached(handled, |handled|, flushedWork);
      while backlog + channel != []
        invariant Valid() && old(handled) <= handled
        invariant handled + backlog + channel == old(handled + backlog + channel)
        invariant forall i :: |old(handled)| <= i < |handled| && handled[i].Append? && handled[i].sync ==>
          handled[i].id in acked
        invariant old(flushedWork) <= flushedWork && old(writtenWork) <= writtenWork
        invariant forall i :: |old(handled)| <= i < |handled| ==> Reflected(handled[i], flushedWork, writtenWork)
        invariant Reached(handled, |old(handled)|, old(flushedWork), flushedWork)
        decreases |backlog| + |channel|
      {
        ghost var n := |handled + backlog + channel|;
        ghost var before, ids := handled, acked;
        ghost var f, w := flushedWork, writtenWork;
        HandleNext();
        CountersReflect(before, handled, |old(handled)|, old(flushedWork), f, flushedWork, w, writtenWork);
        assert |handled + backlog + channel| == n;
        assert forall i :: 0 <= i < |before| ==> handled[i] == before[i];
      }
    }
  }

  function Max(a: nat, b: nat): nat { if a > b then a else b }

  /** The two counters after one turn: a batch of appends raises the written one to its largest id, and
      the flushed one too if it was synced; a flush raises the flushed one to its watermark. */
  predicate Counters(done: seq<Command>, flushed: nat, flushed': nat, written: nat, written': nat) {
    if done != [] && AllAppends(done) then
      && written' == Max(written, MaxId(done))
      && flushed' == if NeedsSync(done) then Max(flushed, MaxId(done)) else flushed
    else
      && |done| == 1 && written' == written
      && flushed' == if done[0].Flush? then Max(flushed, done[0].upTo) else flushed
  }

  /** A command's id or watermark is in the counters. */
  predicate Reflected(cmd: Command, flushed: nat, written: nat) {
    match cmd
    case Append(id, _, sync) => id <= written && (sync ==> id <= flushed)
    case Flush(upTo, _) => upTo <= flushed
    case Truncate(_) => true
  }

  /** The counter stands where it was, or at the id or watermark of a command handled since. */
  ghost predicate Reached(handled: seq<Command>, from: nat, was: nat, now: nat) {
    || now == was
    || (exists i :: from <= i < |handled| && handled[i].Append? && handled[i].id == now)
    || (exists i :: from <= i < |handled| && handled[i].Flush? && handled[i].upTo == now)
  }

  lemma NotReached(handled: seq<Command>, from: nat, now: nat)
    ensures Reached(handled, from, now, now)
  {
  }

  lemma CountersReflect(before: seq<Command>, handled: seq<Command>, from: nat, was: nat, f: nat, f': nat, w: nat,
                        w': nat)
    requires from <= |before| < |handled| && before <= handled && Counters(handled[|before|..], f, f', w, w')
    requires forall i :: from <= i < |before| ==> Reflected(before[i], f, w)
    requires Reached(before, from, was, f)
    ensures f <= f' && w <= w' && forall i :: from <= i < |handled| ==> Reflected(handled[i], f', w')
    ensures Reached(handled, from, was, f')
  {
    hide NeedsSync;
    var done := handled[|before|..];
    assert forall i :: 0 <= i < |before| ==> handled[i] == before[i];
    assert forall i :: 0 <= i < |done| ==> handled[|before| + i] == done[i];
    if AllAppends(done) {
      SyncIsNeeded(done);
      if f' != f {
        var i :| 0 <= i < |done| && done[i].id == MaxId(done);
        assert handled[|before| + i].id == f';
      }
    }
    forall i | from <= i < |handled| ensures Reflected(handled[i], f', w') {
      if i >= |before| { assert handled[i] == done[i - |before|]; }
    }
  }

  lemma SyncIsNeeded(batch: seq<Command>)
    requires AllAppends(batch)
    ensures forall i :: 0 <= i < |batch| && batch[i].sync ==> NeedsSync(batch)
  {
  }

  lemma NoneJoined()
    ensures Joined([]) == [] && MaxId([]) == 0
  {
  }

  lemma JoinedOne(cmd: Command)
    requires cmd.Append?
    ensures Joined([cmd]) == cmd.bytes
  {
    assert [cmd][..0] == [] && Joined([cmd]) == Joined([]) + cmd.bytes;
  }

  lemma JoinedMore(batch: seq<Command>, next: Command)
    requires AllAppends(batch) && next.Append?
    ensures Joined(batch + [next]) == Joined(batch) + next.bytes && (batch + [next])[..|batch|] == batch
  {
  }

  lemma JoinedNext(batch: seq<Command>, i: nat)
    requires i < |batch| && AllAppends(batch)
    ensures Joined(batch[..i + 1]) == Joined(batch[..i]) + batch[i].bytes
    ensures MaxId(batch[..i + 1]) == Max(MaxId(batch[..i]), batch[i].id)
  {
    assert batch[..i + 1][..i] == batch[..i];
  }

  lemma AppendKeepsHeader(header: Bytes, d: Disk, record: Bytes)
    requires header <= d.file
    ensures header <= AppendDisk(d, record).file
    ensures Contents(AppendDisk(d, record)) == Contents(d) + record && AppendDisk(d, record).synced == d.synced
  {
  }

  lemma SyncOne(cmd: Command)
    requires cmd.Append?
    ensures NeedsSync([cmd]) == cmd.sync
  {
    if cmd.sync { assert [cmd][0].sync; }
  }

  lemma SyncGrows(batch: seq<Command>, next: Command)
    requires AllAppends(batch) && next.Append?
    ensures AllAppends(batch + [next])
    ensures NeedsSync(batch + [next]) == (NeedsSync(batch) || next.sync)
  {
    var all := batch + [next];
    assert forall i :: 0 <= i < |batch| ==> all[i] == batch[i];
    if NeedsSync(batch) {
      var i :| 0 <= i < |batch| && batch[i].sync;
      assert all[i].sync;
    }
    if next.sync { assert all[|batch|].sync; }
  }
}
