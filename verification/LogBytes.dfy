/** The batch layer and the byte layer together: reserved sizes, and recovery from a cut log. */
module LogBytes {
  import opened Bytes
  import opened AtomicBatch
  import opened BatchApply
  import opened DbBatch
  import BatchReplay
  import Database
  import WalOps
  import WalFormat
  import WalReader

  // ---------- sizes ----------

  predicate Uniform(item: WalOps.Item) {
    item.Run? ==>
      forall i :: 0 <= i < |item.pairs| ==> |item.pairs[i].0| == item.keyLen && |item.pairs[i].1| == item.valueLen
  }

  lemma {:induction false} PairBytesSize(pairs: seq<(Bytes, Bytes)>, keyLen: nat, valueLen: nat)
    requires forall i :: 0 <= i < |pairs| ==> |pairs[i].0| == keyLen && |pairs[i].1| == valueLen
    ensures |WalFormat.PairBytes(pairs)| == |pairs| * (keyLen + valueLen)
    decreases |pairs|
  {
    if pairs != [] {
      PairBytesSize(pairs[1..], keyLen, valueLen);
      assert |pairs| * (keyLen + valueLen) == (|pairs| - 1) * (keyLen + valueLen) + (keyLen + valueLen);
    }
  }

  lemma ItemBytes(item: WalOps.Item)
    requires Uniform(item)
    ensures |WalFormat.EncodeItem(item)| == ItemSize(item)
  {
    hide Le, WalFormat.PairBytes;
    if item.Run? { PairBytesSize(item.pairs, item.keyLen, item.valueLen); }
  }

  lemma {:induction false} ItemsBytes(items: seq<WalOps.Item>)
    requires forall i :: 0 <= i < |items| ==> Uniform(items[i])
    ensures |WalFormat.EncodeItems(items)| == ItemsSize(items)
    decreases |items|
  {
    hide WalFormat.EncodeItem, ItemSize, Uniform;
    if items != [] {
      ItemBytes(items[0]);
      ItemsBytes(items[1..]);
    }
  }

  lemma {:induction false} ItemsUniform(tree: nat, ops: seq<BatchOp>)
    ensures forall i :: 0 <= i < |ItemsOf(tree, ops)| ==> Uniform(ItemsOf(tree, ops)[i])
    decreases |ops|
  {
    if ops != [] {
      var n := Stretch(ops);
      StretchUniform(tree, ops);
      hide StretchItems, Stretch, Uniform;
      ItemsUniform(tree, ops[n..]);
    }
  }

  lemma StretchUniform(tree: nat, ops: seq<BatchOp>)
    requires ops != []
    ensures var items := StretchItems(tree, ops[..Stretch(ops)]); forall i :: 0 <= i < |items| ==> Uniform(items[i])
  {
  }

  /** The reservation made for a batch is exactly the size of the record that it becomes. */
  lemma ReservationIsExact(tree: nat, ops: seq<BatchOp>, seqno: nat, crc: WalFormat.Crc)
    ensures |WalFormat.Encode(WalFormat.Batch(seqno, tree, ItemsOf(tree, ops)), crc)| == RecordSize(ItemsOf(tree, ops))
  {
    hide Le, ItemsOf, WalFormat.EncodeItems, ItemsSize, WalFormat.Frame, Uniform;
    ItemsUniform(tree, ops);
    ItemsBytes(ItemsOf(tree, ops));
  }

  // ---------- multi-tree estimate ----------

  function PlainSize(op: BatchOp): nat {
    match op
    case Put(k, v) => 1 + 8 + 4 + |k| + 4 + |v|
    case PutIfAbsent(k, v) => 1 + 8 + 4 + |k| + 4 + |v|
    case CompareAndPut(k, _, v) => 1 + 8 + 4 + |k| + 4 + |v|
    case Delete(k) => 1 + 8 + 4 + |k|
    case DeleteIfVersion(k, _) => 1 + 8 + 4 + |k|
    case Rename(src, dst, _) => 1 + 8 + 4 + |src| + 4 + |dst| + 1
    case AssertVersion(_, _) => 0
    case AssertPrefixEmpty(_) => 0
  }

  function PlainSizes(ops: seq<BatchOp>): nat {
    if ops == [] then 0 else PlainSizes(ops[..|ops| - 1]) + PlainSize(ops[|ops| - 1])
  }

  lemma {:induction false} PlainConcat(xs: seq<BatchOp>, ys: seq<BatchOp>)
    ensures PlainSizes(xs + ys) == PlainSizes(xs) + PlainSizes(ys)
    decreases |ys|
  {
    hide PlainSize;
    if ys == [] {
      assert xs + ys == xs;
    } else {
      assert (xs + ys)[..|xs + ys| - 1] == xs + ys[..|ys| - 1];
      PlainConcat(xs, ys[..|ys| - 1]);
    }
  }

  lemma {:induction false} RunPlainSizes(run: seq<BatchOp>, keyLen: nat, valueLen: nat)
    requires AllInserts(run) && forall i :: 0 <= i < |run| ==> |run[i].key| == keyLen && |run[i].value| == valueLen
    ensures PlainSizes(run) == |run| * (17 + keyLen + valueLen)
    decreases |run|
  {
    if run != [] {
      RunPlainSizes(run[..|run| - 1], keyLen, valueLen);
      assert |run| * (17 + keyLen + valueLen) == (|run| - 1) * (17 + keyLen + valueLen) + (17 + keyLen + valueLen);
    }
  }

  lemma RunSaves(n: nat, w: nat)
    requires n >= 2
    ensures 21 + n * w <= n * (17 + w)
  {
    assert n * (17 + w) == n * 17 + n * w;
  }

  lemma StretchIsSmaller(tree: nat, ops: seq<BatchOp>)
    requires ops != []
    ensures ItemsSize(StretchItems(tree, ops[..Stretch(ops)])) <= PlainSizes(ops[..Stretch(ops)])
  {
    var run := ops[..Stretch(ops)];
    if InsertLike(ops[0]) {
      SizeOne(RunItem(tree, run));
      RunPlainSizes(run, |ops[0].key|, |ops[0].value|);
      if |run| > 1 { RunSaves(|run|, |ops[0].key| + |ops[0].value|); }
    } else {
      assert run == [ops[0]] && run[..0] == [];
      if EmitsWal(ops[0]) { SizeOne(WalOps.One(OpLog(tree, ops[0])[0])); }
    }
  }

  lemma {:induction false} ItemsAreSmaller(tree: nat, ops: seq<BatchOp>)
    ensures ItemsSize(ItemsOf(tree, ops)) <= PlainSizes(ops)
    decreases |ops|
  {
    hide Stretch, StretchItems, PlainSizes, ItemSize;
    if ops == [] {
      assert ItemsOf(tree, ops) == [];
    } else {
      var n := Stretch(ops);
      assert ops == ops[..n] + ops[n..];
      StretchIsSmaller(tree, ops);
      ItemsAreSmaller(tree, ops[n..]);
      PlainConcat(ops[..n], ops[n..]);
      SizeConcat(StretchItems(tree, ops[..n]), ItemsOf(tree, ops[n..]));
    }
  }

  function GroupsPlain(groups: seq<Group>): nat {
    if groups == [] then 0 else GroupsPlain(groups[..|groups| - 1]) + PlainSizes(groups[|groups| - 1].ops)
  }

  lemma {:induction false} GroupsAreSmaller(groups: seq<Group>)
    ensures ItemsSize(GroupsItems(groups)) <= GroupsPlain(groups)
    decreases |groups|
  {
    hide ItemsOf, PlainSizes;
    if groups != [] {
      var front, last := groups[..|groups| - 1], groups[|groups| - 1];
      GroupsAreSmaller(front);
      ItemsAreSmaller(last.tree, last.ops);
      SizeConcat(GroupsItems(front), ItemsOf(last.tree, last.ops));
    }
  }

  lemma {:induction false} GroupsUniform(groups: seq<Group>)
    ensures forall i :: 0 <= i < |GroupsItems(groups)| ==> Uniform(GroupsItems(groups)[i])
    decreases |groups|
  {
    hide ItemsOf, Uniform;
    if groups != [] {
      GroupsUniform(groups[..|groups| - 1]);
      ItemsUniform(groups[|groups| - 1].tree, groups[|groups| - 1].ops);
    }
  }

  lemma GroupsBytes(groups: seq<Group>, seqno: nat, tree: nat, crc: WalFormat.Crc)
    ensures |WalFormat.Encode(WalFormat.Batch(seqno, tree, GroupsItems(groups)), crc)|
         == RecordSize(GroupsItems(groups))
  {
    hide Le, GroupsItems, WalFormat.EncodeItems, ItemsSize, WalFormat.Frame, Uniform;
    GroupsUniform(groups);
    ItemsBytes(GroupsItems(groups));
  }

  /** The estimate for a multi-tree batch counts every insert as plain: never less than the record
      that the batch becomes. */
  method EncodedDbBatchRecordLen(groups: seq<Group>, ghost seqno: nat, ghost tree: nat, ghost crc: WalFormat.Crc)
    returns (len: nat)
    ensures len >= |WalFormat.Encode(WalFormat.Batch(seqno, tree, GroupsItems(groups)), crc)|
    ensures len == WalOps.RECORD_HEADER_SIZE + 12 + GroupsPlain(groups) + WalOps.RECORD_FOOTER_SIZE
  {
    hide ItemsOf, ItemsSize, GroupsItems, PlainSize, WalFormat.Encode;
    GroupsBytes(groups, seqno, tree, crc);
    len := WalOps.RECORD_HEADER_SIZE + 8 + 4;
    for g := 0 to |groups|
      invariant len == WalOps.RECORD_HEADER_SIZE + 12 + GroupsPlain(groups[..g])
    {
      var ops := groups[g].ops;
      for i := 0 to |ops|
        invariant len == WalOps.RECORD_HEADER_SIZE + 12 + GroupsPlain(groups[..g]) + PlainSizes(ops[..i])
      {
        assert ops[..i + 1][..i] == ops[..i];
        len := len + PlainSize(ops[i]);
      }
      assert ops[..|ops|] == ops && groups[..g + 1][..g] == groups[..g];
    }
    assert groups[..|groups|] == groups;
    GroupsAreSmaller(groups);
    len := len + WalOps.RECORD_FOOTER_SIZE;
  }

  // ---------- recovery from bytes ----------

  /** What replay makes of the operations that the scanner hands out. */
  function ReplayCalls(forest: BatchReplay.Forest, calls: seq<WalReader.Call>): BatchReplay.Replayed {
    if calls == [] then BatchReplay.Replayed(forest)
    else match ReplayCalls(forest, calls[..|calls| - 1])
         case ReplayError(fault) => BatchReplay.ReplayError(fault)
         case Replayed(f) =>
           var call := calls[|calls| - 1];
           match BatchReplay.ReplayOp(BatchReplay.At(f, call.op.tree), call.op, call.seqno)
           case Failed(fault) => BatchReplay.ReplayError(fault)
           case Done(t) => BatchReplay.Replayed(f[call.op.tree := t])
  }

  function AfterCalls(r: BatchReplay.Replayed, calls: seq<WalReader.Call>): BatchReplay.Replayed {
    if r.ReplayError? then r else ReplayCalls(r.forest, calls)
  }

  lemma {:induction false} ReplayCallsConcat(forest: BatchReplay.Forest, xs: seq<WalReader.Call>,
                                             ys: seq<WalReader.Call>)
    ensures ReplayCalls(forest, xs + ys) == AfterCalls(ReplayCalls(forest, xs), ys)
    decreases |ys|
  {
    hide BatchReplay.ReplayOp;
    if ys == [] {
      assert xs + ys == xs;
    } else {
      assert (xs + ys)[..|xs + ys| - 1] == xs + ys[..|ys| - 1];
      ReplayCallsConcat(forest, xs, ys[..|ys| - 1]);
    }
  }

  lemma {:induction false} CallsReplay(forest: BatchReplay.Forest, ops: seq<WalOps.WalOp>, base: nat, offset: nat)
    requires base + |ops| <= U64_LIMIT
    ensures ReplayCalls(forest, WalReader.CallsFor(ops, base, offset)) == BatchReplay.Replay(forest, ops, base)
    decreases |ops|
  {
    hide BatchReplay.ReplayOp, WalReader.CallsFor;
    if ops != [] {
      CallsReplay(forest, ops[..|ops| - 1], base, offset);
      CallsLast(ops, base, offset);
    }
  }

  lemma CallsLast(ops: seq<WalOps.WalOp>, base: nat, offset: nat)
    requires ops != [] && base + |ops| <= U64_LIMIT
    ensures var calls, n := WalReader.CallsFor(ops, base, offset), |ops| - 1;
            && calls[..n] == WalReader.CallsFor(ops[..n], base, offset)
            && calls[n].op == ops[n] && calls[n].seqno == base + n
  {
    assert (base + |ops| - 1) % U64_LIMIT == base + |ops| - 1;
  }

  /** Records of the log and the entries that carry them. */
  ghost predicate Carries(entries: seq<WalFormat.Entry>, log: seq<Database.LogRecord>) {
    && |entries| == |log|
    && forall i :: 0 <= i < |log| ==>
         && entries[i].seqno == log[i].base
         && WalFormat.EntryOps(entries[i]) == log[i].ops
         && log[i].base + |log[i].ops| <= U64_LIMIT
  }

  function AfterLog(r: BatchReplay.Replayed, log: seq<Database.LogRecord>): BatchReplay.Replayed {
    if r.ReplayError? then r else Database.ReplayLog(r.forest, log)
  }

  lemma {:induction false} ReplayLogFront(start: BatchReplay.Forest, log: seq<Database.LogRecord>)
    requires log != []
    ensures Database.ReplayLog(start, log) == AfterLog(BatchReplay.Replay(start, log[0].ops, log[0].base), log[1..])
    decreases |log|
  {
    hide BatchReplay.Replay;
    if |log| == 1 {
      assert log[..0] == [] && log[1..] == [];
      assert Database.ReplayLog(start, log[..0]) == BatchReplay.Replayed(start);
    } else {
      ReplayLogFront(start, log[..|log| - 1]);
      assert log[..|log| - 1][1..] == log[1..][..|log| - 2];
    }
  }

  lemma {:induction false} EntriesReplay(start: BatchReplay.Forest, entries: seq<WalFormat.Entry>,
                                         log: seq<Database.LogRecord>, offset: nat, crc: WalFormat.Crc)
    requires Carries(entries, log)
    ensures ReplayCalls(start, WalReader.CallsOf(entries, offset, crc)) == Database.ReplayLog(start, log)
    decreases |log|
  {
    hide WalFormat.Encode, WalFormat.EntryOps, ReplayCalls, Database.ReplayLog, BatchReplay.Replay, WalReader.CallsFor;
    if log == [] {
      NothingReplayed(start);
    } else {
      var e, next := entries[0], offset + |WalFormat.Encode(entries[0], crc)|;
      var here := WalReader.CallsFor(WalFormat.EntryOps(e), e.seqno, offset);
      ReplayLogFront(start, log);
      CallsReplay(start, log[0].ops, log[0].base, offset);
      ReplayCallsConcat(start, here, WalReader.CallsOf(entries[1..], next, crc));
      var r := BatchReplay.Replay(start, log[0].ops, log[0].base);
      if r.Replayed? { EntriesReplay(r.forest, entries[1..], log[1..], next, crc); }
    }
  }

  lemma NothingReplayed(start: BatchReplay.Forest)
    ensures ReplayCalls(start, []) == BatchReplay.Replayed(start) == Database.ReplayLog(start, [])
  {
  }

  /** Opening on a log cut anywhere after its header brings back the state that the records
      wholly inside the cut describe: a prefix of the history, batches all or nothing. */
  lemma CutLogRecovers(start: BatchReplay.Forest, h: WalReader.FileHeader, entries: seq<WalFormat.Entry>,
                       log: seq<Database.LogRecord>, crc: WalFormat.Crc, cut: nat)
    requires Carries(entries, log) && WalReader.WellFormed(entries) && WalFormat.CrcFits(crc)
    requires h.tree < U64_LIMIT && h.createdAt < U64_LIMIT
    requires WalReader.FILE_HEADER_SIZE <= cut <= |WalReader.LogFile(h, entries, crc)|
    ensures var w := WalReader.Whole(entries, crc, cut - WalReader.FILE_HEADER_SIZE);
            var bytes := WalReader.LogFile(h, entries, crc)[..cut];
            var scan := WalReader.ScanFrom(bytes[WalReader.FILE_HEADER_SIZE..], WalReader.FILE_HEADER_SIZE, crc);
            && scan.Scanned? && scan.records == w
            && ReplayCalls(start, scan.calls) == Database.ReplayLog(start, log[..w])
  {
    hide WalReader.Whole, WalReader.LogFile, WalReader.ScanFrom, WalReader.CallsOf, ReplayCalls, Database.ReplayLog,
         WalReader.WellFormed, WalFormat.CrcFits, WalReader.Stream, WalFormat.EntryOps;
    WalReader.TornTailTheorem(h, entries, crc, cut);
    var w := WalReader.Whole(entries, crc, cut - WalReader.FILE_HEADER_SIZE);
    EntriesReplay(start, entries[..w], log[..w], WalReader.FILE_HEADER_SIZE, crc);
  }
}
