/**
 What the decoder turns away. It accepts a record only if the bytes spell it, and
 replay ends with an error at the first record that is there but damaged.
 */
module WalDamage {
  import opened Bytes
  import opened WalOps
  import opened WalFormat
  import opened WalRoundTrip
  import opened WalReader

  // ---------- only encodings are accepted ----------

  lemma {:induction false} LeFromLe(bytes: Bytes)
    ensures Le(FromLe(bytes), |bytes|) == bytes
    decreases |bytes|
  {
    if bytes != [] {
      LeFromLe(bytes[1..]);
      assert FromLe(bytes) % 256 == bytes[0] && FromLe(bytes) / 256 == FromLe(bytes[1..]);
    }
  }

  lemma LeSpelled(body: Bytes, width: nat)
    requires ReadLe(body, width).Ok?
    ensures var p := ReadLe(body, width); body == Le(p.value, width) + p.rest
  {
    hide Le, FromLe;
    LeFromLe(body[..width]);
    assert body == body[..width] + body[width..];
  }

  lemma BytesSpelled(body: Bytes)
    requires ReadBytes(body).Ok?
    ensures var p := ReadBytes(body); body == WriteBytes(p.value) + p.rest
  {
    hide Le, FromLe;
    LeSpelled(body, 4);
    var n := ReadLe(body, 4);
    assert n.rest == n.rest[..n.value] + n.rest[n.value..];
    assert body == Le(n.value, 4) + (n.rest[..n.value] + n.rest[n.value..]);
  }

  /** The bytes are the body of the operation; any nonzero byte stands for a forced rename. */
  predicate SpellsOp(op: WalOp, bytes: Bytes) {
    if op.RenameObject? then
      var plain := OpBody(op);
      && |bytes| == |plain| && bytes[..|plain| - 1] == plain[..|plain| - 1]
      && (bytes[|plain| - 1] != 0 <==> op.force)
    else bytes == OpBody(op)
  }

  lemma InsertSpelled(body: Bytes)
    requires DecodeInsert(body).Ok?
    ensures var p := DecodeInsert(body); p.value.Insert? && body == OpBody(p.value) + p.rest
  {
    hide Le, ReadLe, ReadBytes, WriteBytes;
    var tree := ReadLe(body, 8);
    LeSpelled(body, 8);
    BytesSpelled(tree.rest);
    var key := ReadBytes(tree.rest);
    BytesSpelled(key.rest);
    var value := ReadBytes(key.rest);
    assert body == Le(tree.value, 8) + (WriteBytes(key.value) + (WriteBytes(value.value) + value.rest));
  }

  lemma EraseSpelled(body: Bytes)
    requires DecodeErase(body).Ok?
    ensures var p := DecodeErase(body); p.value.Erase? && body == OpBody(p.value) + p.rest
  {
    hide Le, ReadLe, ReadBytes, WriteBytes;
    var tree := ReadLe(body, 8);
    LeSpelled(body, 8);
    BytesSpelled(tree.rest);
    var key := ReadBytes(tree.rest);
    assert body == Le(tree.value, 8) + (WriteBytes(key.value) + key.rest);
  }

  lemma RenameSpelled(body: Bytes) returns (bytes: Bytes)
    requires DecodeRename(body).Ok?
    ensures var p := DecodeRename(body); p.value.RenameObject? && SpellsOp(p.value, bytes) && body == bytes + p.rest
  {
    hide Le, ReadLe, ReadBytes, WriteBytes;
    var tree := ReadLe(body, 8);
    LeSpelled(body, 8);
    BytesSpelled(tree.rest);
    var src := ReadBytes(tree.rest);
    BytesSpelled(src.rest);
    var dst := ReadBytes(src.rest);
    var front := Le(tree.value, 8) + WriteBytes(src.value) + WriteBytes(dst.value);
    bytes := front + dst.rest[..1];
    assert dst.rest == dst.rest[..1] + dst.rest[1..];
    assert body == bytes + dst.rest[1..];
    var op := DecodeRename(body).value;
    assert OpBody(op)[..|front|] == front && bytes[..|front|] == front;
  }

  lemma OpSpelled(ty: Byte, body: Bytes) returns (bytes: Bytes)
    requires DecodeOp(ty, body).Ok?
    ensures var p := DecodeOp(ty, body); Tag(p.value) == ty && SpellsOp(p.value, bytes) && body == bytes + p.rest
  {
    hide DecodeInsert, DecodeErase, DecodeRename, OpBody;
    if ty == TY_INSERT {
      InsertSpelled(body);
      bytes := OpBody(DecodeInsert(body).value);
    } else if ty == TY_ERASE {
      EraseSpelled(body);
      bytes := OpBody(DecodeErase(body).value);
    } else {
      bytes := RenameSpelled(body);
    }
  }

  lemma {:induction false} PairsSpelled(tree: nat, count: nat, keyLen: nat, valueLen: nat, body: Bytes)
    returns (pairs: seq<(Bytes, Bytes)>)
    requires DecodePairs(tree, count, keyLen, valueLen, body).Ok?
    ensures var p := DecodePairs(tree, count, keyLen, valueLen, body);
            |pairs| == count && RunOps(tree, pairs) == p.value && body == PairBytes(pairs) + p.rest
    ensures forall i :: 0 <= i < |pairs| ==> |pairs[i].0| == keyLen && |pairs[i].1| == valueLen
    decreases count
  {
    hide DecodePairs, PairBytes, RunOps;
    PairsUnfold(tree, count, keyLen, valueLen, body);
    if count == 0 {
      pairs := [];
      NoPairs(tree);
    } else {
      var key, value, r1 := body[..keyLen], body[keyLen..][..valueLen], body[keyLen..][valueLen..];
      var more := PairsSpelled(tree, count - 1, keyLen, valueLen, r1);
      pairs := [(key, value)] + more;
      PairsFirst(tree, key, value, more);
      assert body == key + value + r1;
    }
  }

  lemma PairsUnfold(tree: nat, count: nat, keyLen: nat, valueLen: nat, body: Bytes)
    requires DecodePairs(tree, count, keyLen, valueLen, body).Ok?
    ensures var p := DecodePairs(tree, count, keyLen, valueLen, body);
            if count == 0 then p == Ok([], body)
            else && keyLen <= |body| && valueLen <= |body[keyLen..]|
                 && var more := DecodePairs(tree, count - 1, keyLen, valueLen, body[keyLen..][valueLen..]);
                    && more.Ok?
                    && p == Ok([Insert(tree, body[..keyLen], body[keyLen..][..valueLen])] + more.value, more.rest)
  {
  }

  lemma NoPairs(tree: nat)
    ensures PairBytes([]) == [] && RunOps(tree, []) == []
  {
  }

  lemma PairsFirst(tree: nat, key: Bytes, value: Bytes, more: seq<(Bytes, Bytes)>)
    ensures PairBytes([(key, value)] + more) == key + value + PairBytes(more)
    ensures RunOps(tree, [(key, value)] + more) == [Insert(tree, key, value)] + RunOps(tree, more)
  {
    assert ([(key, value)] + more)[1..] == more;
  }

  /** The bytes are one item of a batch. */
  predicate SpellsItem(item: Item, bytes: Bytes) {
    match item
    case One(op) => bytes != [] && bytes[0] == Tag(op) && SpellsOp(op, bytes[1..])
    case Run(_, keyLen, valueLen, pairs) =>
      && bytes == EncodeItem(item) && pairs != []
      && forall i :: 0 <= i < |pairs| ==> |pairs[i].0| == keyLen && |pairs[i].1| == valueLen
  }

  lemma RunSpelled(body: Bytes, room: nat) returns (item: Item, bytes: Bytes)
    requires DecodeRun(body, room).Ok?
    ensures var p := DecodeRun(body, room);
            && item.Run? && SpellsItem(item, [TY_BATCH_INSERT_RUN] + bytes)
            && ItemOps(item) == p.value && body == bytes + p.rest
  {
    hide Le, ReadLe, DecodePairs, PairBytes;
    var tree := ReadLe(body, 8);
    LeSpelled(body, 8);
    var count := ReadLe(tree.rest, 4);
    LeSpelled(tree.rest, 4);
    var keyLen := ReadLe(count.rest, 4);
    LeSpelled(count.rest, 4);
    var valueLen := ReadLe(keyLen.rest, 4);
    LeSpelled(keyLen.rest, 4);
    var pairs := PairsSpelled(tree.value, count.value, keyLen.value, valueLen.value, valueLen.rest);
    item := Item.Run(tree.value, keyLen.value, valueLen.value, pairs);
    bytes := RunHead(tree.value, |pairs|, keyLen.value, valueLen.value) + PairBytes(pairs);
    assert EncodeItem(item) == [TY_BATCH_INSERT_RUN] + bytes;
    assert body == bytes + DecodeRun(body, room).rest;
  }

  lemma ItemSpelled(body: Bytes, room: nat) returns (item: Item, bytes: Bytes)
    requires DecodeItem(body, room).Ok?
    ensures var p := DecodeItem(body, room);
            SpellsItem(item, bytes) && ItemOps(item) == p.value && body == bytes + p.rest
  {
    hide DecodeRun, DecodeOp, SpellsOp, EncodeItem;
    var r0 := body[1..];
    assert body == [body[0]] + r0;
    if body[0] == TY_BATCH_INSERT_RUN {
      var run, more := RunSpelled(r0, room);
      item, bytes := run, [body[0]] + more;
    } else {
      var more := OpSpelled(body[0], r0);
      item, bytes := Item.One(DecodeOp(body[0], r0).value), [body[0]] + more;
      assert bytes[1..] == more;
    }
  }

  /** The bytes are these items, one after the other. */
  ghost predicate SpellsItems(items: seq<Item>, bytes: Bytes)
    decreases |items|
  {
    if items == [] then bytes == []
    else exists n :: 0 <= n <= |bytes| && SpellsItem(items[0], bytes[..n]) && SpellsItems(items[1..], bytes[n..])
  }

  lemma ItemsJoin(item: Item, first: Bytes, items: seq<Item>, more: Bytes)
    requires SpellsItem(item, first) && SpellsItems(items, more)
    ensures SpellsItems([item] + items, first + more) && Flat([item] + items) == ItemOps(item) + Flat(items)
  {
    hide SpellsItem;
    var all, bytes := [item] + items, first + more;
    assert all[1..] == items && bytes[..|first|] == first && bytes[|first|..] == more;
  }

  lemma {:induction false} ItemsSpelled(body: Bytes, room: nat) returns (items: seq<Item>, bytes: Bytes)
    requires DecodeItems(body, room).Ok?
    ensures var p := DecodeItems(body, room);
            SpellsItems(items, bytes) && Flat(items) == p.value && |p.value| == room && body == bytes + p.rest
    decreases room
  {
    hide DecodeItem, DecodeItems, SpellsItem, Flat, ItemOps;
    if room == 0 {
      items, bytes := [], [];
      NoItems(body);
    } else {
      var p := DecodeItem(body, room);
      ItemsUnfold(body, room);
      var item, first := ItemSpelled(body, room);
      var rest, more := ItemsSpelled(p.rest, room - |p.value|);
      ItemsJoin(item, first, rest, more);
      items, bytes := [item] + rest, first + more;
    }
  }

  lemma NoItems(body: Bytes)
    ensures DecodeItems(body, 0) == Ok([], body) && Flat([]) == [] && SpellsItems([], [])
  {
  }

  lemma ItemsUnfold(body: Bytes, room: nat)
    requires room > 0 && DecodeItems(body, room).Ok?
    ensures var p := DecodeItem(body, room);
            && p.Ok? && 1 <= |p.value| <= room
            && var more := DecodeItems(p.rest, room - |p.value|);
               more.Ok? && DecodeItems(body, room) == Ok(p.value + more.value, more.rest)
  {
    DecodeItemRoom(body, room);
  }

  /** The bytes are the body of the entry. */
  ghost predicate SpellsEntry(e: Entry, body: Bytes) {
    match e
    case Single(_, op) => SpellsOp(op, body)
    case Batch(_, tree, items) =>
      exists bytes :: body == Le(tree, 8) + Le(|Flat(items)|, 4) + bytes && SpellsItems(items, bytes)
  }

  lemma BodySpelled(ty: Byte, body: Bytes, seqno: nat) returns (e: Entry)
    requires DecodeBody(ty, body).Ok?
    ensures e.seqno == seqno && EntryTag(e) == ty && PayloadOf(e) == DecodeBody(ty, body).value && SpellsEntry(e, body)
  {
    hide DecodeOp, DecodeItems, Le, ReadLe, SpellsOp, SpellsItems, Flat;
    if ty == TY_BATCH {
      var tree := ReadLe(body, 8);
      LeSpelled(body, 8);
      var count := ReadLe(tree.rest, 4);
      LeSpelled(tree.rest, 4);
      var items, bytes := ItemsSpelled(count.rest, count.value);
      e := Batch(seqno, tree.value, items);
      assert count.rest == bytes + [] == bytes;
      assert body == Le(tree.value, 8) + Le(count.value, 4) + bytes;
    } else {
      var bytes := OpSpelled(ty, body);
      assert body == bytes + [] == bytes;
      e := Single(seqno, DecodeOp(ty, body).value);
    }
  }

  /** Whatever the decoder accepts is a frame with the right checksum around a body that spells the
      operations it reports. */
  lemma AcceptsOnlyRecords(buf: Bytes, crc: Crc) returns (e: Entry, body: Bytes)
    requires DecodeRecord(buf, crc).Record?
    ensures var r := DecodeRecord(buf, crc);
            && r.consumed <= |buf| && buf[..r.consumed] == Frame(r.seqno, EntryTag(e), body, crc)
            && e.seqno == r.seqno && PayloadOf(e) == r.payload && SpellsEntry(e, body)
  {
    hide FromLe, Le, DecodeBody, SpellsEntry, PayloadOf, EntryTag;
    var end := RECORD_HEADER_SIZE + FromLe(buf[4..8]);
    body := buf[RECORD_HEADER_SIZE..end];
    e := BodySpelled(buf[16], body, FromLe(buf[8..16]));
    LeFromLe(buf[..4]);
    LeFromLe(buf[4..8]);
    LeFromLe(buf[8..16]);
    LeFromLe(buf[end..end + 4]);
    HeaderParts(buf, end);
  }

  lemma HeaderParts(buf: Bytes, end: nat)
    requires RECORD_HEADER_SIZE <= end && end + 4 <= |buf|
    ensures buf[..end] == buf[..4] + buf[4..8] + buf[8..16] + [buf[16]] + buf[RECORD_HEADER_SIZE..end]
    ensures buf[..end + 4] == buf[..end] + buf[end..end + 4]
  {
  }

  // ---------- damaged records ----------

  const CRC_MISMATCH := "record CRC mismatch"

  /** As long as the record and with its magic and length, but the checksum does not cover the bytes. */
  ghost predicate Damaged(e: Entry, crc: Crc, bytes: Bytes) {
    var n := |Encode(e, crc)|;
    && |bytes| == n && bytes[..8] == Encode(e, crc)[..8]
    && crc(bytes[..n - 4]) != FromLe(bytes[n - 4..])
  }

  /** Damage behind the length is recognised, and not taken for a torn write. */
  lemma DamageIsRejected(e: Entry, crc: Crc, bytes: Bytes, rest: Bytes)
    requires EntryFits(e) && Damaged(e, crc, bytes)
    ensures DecodeRecord(bytes + rest, crc) == Rejected(CRC_MISMATCH)
  {
    hide Le, FromLe, DecodeBody, EntryBody, Frame, WalFormat.Header;
    var f, g := Encode(e, crc), bytes + rest;
    assert f + [] == f;
    FrameFields(e.seqno, EntryTag(e), EntryBody(e), crc, []);
    U32RoundTrip(RECORD_MAGIC);
    U32RoundTrip(|EntryBody(e)|);
    var end := |f| - 4;
    assert g[..4] == bytes[..8][..4] == f[..8][..4] == f[..4];
    assert g[4..8] == bytes[..8][4..] == f[..8][4..] == f[4..8];
    assert g[..end] == bytes[..end] && g[end..end + 4] == bytes[end..];
  }

  lemma {:induction false} StreamConcat(entries: seq<Entry>, crc: Crc, tail: Bytes, offset: nat)
    requires WellFormed(entries) && CrcFits(crc)
    ensures ScanFrom(Stream(entries, crc) + tail, offset, crc) ==
            match ScanFrom(tail, offset + |Stream(entries, crc)|, crc)
            case Corrupt(context, at) => Corrupt(context, at)
            case Scanned(calls, records, torn) =>
              Scanned(CallsOf(entries, offset, crc) + calls, |entries| + records, torn)
    decreases |entries|
  {
    hide Encode, ScanFrom, CallsFor, EntryFits, CrcFits, Stream, CallsOf, EntryOps;
    if entries == [] {
      NothingStreamed(crc, offset);
      assert Stream(entries, crc) + tail == tail;
      var scan := ScanFrom(tail, offset, crc);
      if scan.Scanned? { assert [] + scan.calls == scan.calls; }
    } else {
      StreamFirst(entries, crc);
      CallsFirst(entries, crc, offset);
      var e, more := entries[0], Stream(entries[1..], crc);
      assert Stream(entries, crc) + tail == Encode(e, crc) + (more + tail);
      assert EntryFits(entries[0]);
      ScanWhole(e, crc, more + tail, offset);
      StreamConcat(entries[1..], crc, tail, offset + |Encode(e, crc)|);
      CallsJoin(entries, crc, offset, ScanFrom(tail, offset + |Stream(entries, crc)|, crc));
    }
  }

  lemma NothingStreamed(crc: Crc, offset: nat)
    ensures Stream([], crc) == [] && CallsOf([], offset, crc) == []
  {
  }

  lemma CallsJoin(entries: seq<Entry>, crc: Crc, offset: nat, scan: Scan)
    requires entries != []
    ensures var here := CallsFor(EntryOps(entries[0]), entries[0].seqno, offset);
            var later := CallsOf(entries[1..], offset + |Encode(entries[0], crc)|, crc);
            scan.Scanned? ==> here + (later + scan.calls) == (here + later) + scan.calls
  {
  }

  /** A log whose records are whole up to one that is damaged: replay ends there with an error. */
  lemma DamageEndsReplay(entries: seq<Entry>, e: Entry, crc: Crc, bytes: Bytes, rest: Bytes)
    requires WellFormed(entries) && CrcFits(crc) && EntryFits(e) && Damaged(e, crc, bytes)
    ensures var log := Stream(entries, crc);
            ScanFrom(log + (bytes + rest), FILE_HEADER_SIZE, crc) == Corrupt(CRC_MISMATCH, FILE_HEADER_SIZE + |log|)
  {
    hide Encode, DecodeRecord, EntryFits, CrcFits, Damaged, WellFormed;
    DamageIsRejected(e, crc, bytes, rest);
    DamagedIsSome(e, crc, bytes);
    StreamConcat(entries, crc, bytes + rest, FILE_HEADER_SIZE);
  }

  lemma DamagedIsSome(e: Entry, crc: Crc, bytes: Bytes)
    requires Damaged(e, crc, bytes)
    ensures bytes != []
  {
  }

  // ---------- torn tails ----------

  /** Fewer bytes than a header, or than the record that the header announces. */
  predicate Short(rest: Bytes) {
    || |rest| < 17
    || (rest[..4] == [0x52, 0x45, 0x43, 0x52] && |rest| < 17 + FromLe(rest[4..8]) + 4)
  }

  /** A body is never rejected with one of the two messages that mean a torn tail. */
  lemma {:induction false} PairsContext(tree: nat, count: nat, keyLen: nat, valueLen: nat, body: Bytes)
    ensures var p := DecodePairs(tree, count, keyLen, valueLen, body); p.Bad? ==> !TornTail(p.context)
    decreases count
  {
    if count > 0 && |body| >= keyLen && |body[keyLen..]| >= valueLen {
      PairsContext(tree, count - 1, keyLen, valueLen, body[keyLen..][valueLen..]);
    }
  }

  lemma OpContext(ty: Byte, body: Bytes)
    ensures var p := DecodeOp(ty, body); p.Bad? ==> !TornTail(p.context)
  {
    hide FromLe;
  }

  lemma ItemContext(body: Bytes, room: nat)
    ensures var p := DecodeItem(body, room); p.Bad? ==> !TornTail(p.context)
  {
    hide FromLe, DecodeOp, DecodePairs;
    if body != [] {
      var r := body[1..];
      OpContext(body[0], r);
      if |r| >= 20 {
        var count, keyLen, valueLen := FromLe(r[8..][..4]), FromLe(r[8..][4..][..4]), FromLe(r[8..][4..][4..][..4]);
        PairsContext(FromLe(r[..8]), count, keyLen, valueLen, r[8..][4..][4..][4..]);
      }
    }
  }

  lemma {:induction false} ItemsContext(body: Bytes, room: nat)
    ensures var p := DecodeItems(body, room); p.Bad? ==> !TornTail(p.context)
    decreases room
  {
    hide DecodeItem, TornTail;
    if room > 0 {
      ItemContext(body, room);
      DecodeItemRoom(body, room);
      var p := DecodeItem(body, room);
      if p.Ok? { ItemsContext(p.rest, room - |p.value|); }
    }
  }

  lemma BodyContext(ty: Byte, body: Bytes)
    ensures var p := DecodeBody(ty, body); p.Bad? ==> !TornTail(p.context)
  {
    hide FromLe, DecodeOp, DecodeItems;
    OpContext(ty, body);
    if |body| >= 12 { ItemsContext(body[8..][4..], FromLe(body[8..][..4])); }
  }

  /** The decoder reports truncation exactly when bytes are missing. */
  lemma TornIffShort(rest: Bytes, crc: Crc)
    ensures (DecodeRecord(rest, crc).Rejected? && TornTail(DecodeRecord(rest, crc).context)) <==> Short(rest)
  {
    hide FromLe, Le, DecodeBody;
    Magic();
    if |rest| >= RECORD_HEADER_SIZE {
      var end := RECORD_HEADER_SIZE + FromLe(rest[4..8]);
      LeFromLe(rest[..4]);
      if |rest| >= end + 4 { BodyContext(rest[16], rest[RECORD_HEADER_SIZE..end]); }
    }
  }

  /** Why a record is turned away before its body is looked at, in the order of the tests. */
  lemma RejectsBecause(buf: Bytes, crc: Crc)
    ensures |buf| < 17 ==> DecodeRecord(buf, crc) == Rejected("record header truncated")
    ensures |buf| >= 17 && buf[..4] != [0x52, 0x45, 0x43, 0x52] ==>
      DecodeRecord(buf, crc) == Rejected("record magic mismatch")
    ensures |buf| >= 17 && buf[..4] == [0x52, 0x45, 0x43, 0x52] && |buf| < 21 + FromLe(buf[4..8]) ==>
      DecodeRecord(buf, crc) == Rejected("record body truncated")
    ensures |buf| >= 17 && buf[..4] == [0x52, 0x45, 0x43, 0x52] && |buf| >= 21 + FromLe(buf[4..8]) ==>
      var end := 17 + FromLe(buf[4..8]);
      var body := DecodeBody(buf[16], buf[17..end]);
      && (crc(buf[..end]) != FromLe(buf[end..end + 4]) ==> DecodeRecord(buf, crc) == Rejected("record CRC mismatch"))
      && (crc(buf[..end]) == FromLe(buf[end..end + 4]) && body.Bad? ==>
            DecodeRecord(buf, crc) == Rejected(body.context))
  {
    hide FromLe, Le, DecodeBody;
    Magic();
    if |buf| >= 17 { LeFromLe(buf[..4]); }
  }

  /** Why an item of a batch is turned away. */
  lemma ItemRejectsBecause(body: Bytes, room: nat)
    ensures body == [] ==> DecodeItem(body, room) == Bad("body truncated")
    ensures body != [] && body[0] == 10 ==> DecodeItem(body, room) == Bad("nested Batch is rejected")
    ensures body != [] && body[0] !in {0, 1, 5, 10, 11} ==> DecodeItem(body, room) == Bad("unknown WalOp variant tag")
    ensures |body| >= 13 && body[0] == 11 ==>
      var count := FromLe(body[9..13]);
      && (count == 0 ==> DecodeItem(body, room) == Bad("empty BatchInsertRun is rejected"))
      && (count > room && count > 0 ==> DecodeItem(body, room) == Bad("BatchInsertRun exceeds batch inner count"))
  {
    hide FromLe, DecodePairs;
    if |body| >= 13 { assert body[1..][8..][..4] == body[9..13]; }
  }

  /** A log file is opened exactly when it starts with the magic and format version 3. */
  lemma OpensIff(buf: Bytes)
    ensures DecodeFileHeader(buf).Header? <==> |buf| >= 32 && buf[..8] == [0x57, 0x41, 0x4C, 0x41, 3, 0, 0, 0]
    ensures DecodeFileHeader(buf).Header? ==>
      DecodeFileHeader(buf).header == FileHeader(FromLe(buf[8..16]), FromLe(buf[16..24]))
    ensures DecodeFileHeader(buf).BadHeader? ==>
      DecodeFileHeader(buf).context == if |buf| < 32 then "WAL file header truncated"
                                       else if buf[..4] != [0x57, 0x41, 0x4C, 0x41] then "WAL file magic mismatch"
                                       else "WAL file format version unsupported"
  {
    hide Le, FromLe;
    FileMagic();
    Small(3, 4);
    assert Le(FORMAT_VERSION, 4) == [3, 0, 0, 0];
    U32RoundTrip(FILE_MAGIC);
    U32RoundTrip(FORMAT_VERSION);
    if |buf| >= 32 {
      LeFromLe(buf[..4]);
      LeFromLe(buf[4..8]);
      assert buf[..8] == buf[..4] + buf[4..8] && buf[..8][..4] == buf[..4] && buf[..8][4..] == buf[4..8];
      var start: Bytes := [0x57, 0x41, 0x4C, 0x41, 3, 0, 0, 0];
      assert start[..4] == [0x57, 0x41, 0x4C, 0x41] && start[4..] == [3, 0, 0, 0];
    }
  }

  lemma Magic()
    ensures Le(RECORD_MAGIC, 4) == [0x52, 0x45, 0x43, 0x52] && FromLe([0x52, 0x45, 0x43, 0x52]) == RECORD_MAGIC
  {
    U32RoundTrip(RECORD_MAGIC);
    assert Le(0x52, 1) == [0x52] && Le(0x5243, 2) == [0x43, 0x52] && Le(0x52_4345, 3) == [0x45, 0x43, 0x52];
  }

  lemma ScanTorn(rest: Bytes, offset: nat, crc: Crc)
    requires ScanFrom(rest, offset, crc).Scanned? && ScanFrom(rest, offset, crc).tornTailAt.Some?
    ensures rest != []
    ensures var torn := ScanFrom(rest, offset, crc).tornTailAt;
            match DecodeRecord(rest, crc)
            case Rejected(context) => TornTail(context) && torn == Some(offset)
            case Record(_, _, consumed) =>
              && consumed <= |rest| && ScanFrom(rest[consumed..], offset + consumed, crc).Scanned?
              && ScanFrom(rest[consumed..], offset + consumed, crc).tornTailAt == torn
  {
    hide DecodeRecord, TornTail, CallsFor, PayloadOps;
    if DecodeRecord(rest, crc).Record? { DecodeConsumes(rest, crc); }
  }

  /** Replay stops without an error only at the end of the bytes, or where bytes are missing. */
  lemma {:induction false} TornTailIsShort(rest: Bytes, offset: nat, crc: Crc)
    requires ScanFrom(rest, offset, crc).Scanned? && ScanFrom(rest, offset, crc).tornTailAt.Some?
    ensures var at := ScanFrom(rest, offset, crc).tornTailAt.value;
            offset <= at < offset + |rest| && Short(rest[at - offset..])
    decreases |rest|
  {
    hide DecodeRecord, TornTail, Short, ScanFrom;
    ScanTorn(rest, offset, crc);
    TornIffShort(rest, crc);
    match DecodeRecord(rest, crc)
    case Rejected(_) => assert rest[0..] == rest;
    case Record(_, _, consumed) =>
      DecodeConsumes(rest, crc);
      TornTailIsShort(rest[consumed..], offset + consumed, crc);
      var at := ScanFrom(rest, offset, crc).tornTailAt.value;
      assert rest[consumed..][at - offset - consumed..] == rest[at - offset..];
  }

  // ---------- the bytes of the format ----------

  /** A record, byte by byte: header, body, and the checksum of both. */
  lemma RecordBytes(e: Entry, crc: Crc)
    requires e.seqno == 7 && |EntryBody(e)| < 256
    ensures var covered := [0x52, 0x45, 0x43, 0x52, |EntryBody(e)|, 0, 0, 0, 7, 0, 0, 0, 0, 0, 0, 0, EntryTag(e)]
                         + EntryBody(e);
            Encode(e, crc) == covered + Le(crc(covered), 4)
  {
    hide Le, EntryBody, EntryTag;
    Magic();
    Small(|EntryBody(e)|, 4);
    Small(7, 8);
    assert WalFormat.Header(7, EntryTag(e), |EntryBody(e)|) ==
           [0x52, 0x45, 0x43, 0x52, |EntryBody(e)|, 0, 0, 0, 7, 0, 0, 0, 0, 0, 0, 0, EntryTag(e)];
  }

  /** One body of each kind. */
  lemma BodyBytes()
    ensures EntryTag(Single(7, Insert(3, [1], [2, 2]))) == 0
    ensures EntryBody(Single(7, Insert(3, [1], [2, 2]))) ==
      [3, 0, 0, 0, 0, 0, 0, 0, 1, 0, 0, 0, 1, 2, 0, 0, 0, 2, 2]
    ensures EntryTag(Single(7, Erase(3, [1]))) == 1
    ensures EntryBody(Single(7, Erase(3, [1]))) == [3, 0, 0, 0, 0, 0, 0, 0, 1, 0, 0, 0, 1]
    ensures EntryTag(Single(7, RenameObject(3, [1], [2], true))) == 5
    ensures EntryBody(Single(7, RenameObject(3, [1], [2], true))) ==
      [3, 0, 0, 0, 0, 0, 0, 0, 1, 0, 0, 0, 1, 1, 0, 0, 0, 2, 1]
  {
    hide Le;
    Small(3, 8);
    Small(1, 4);
    Small(2, 4);
  }

  /** A batch with a run of two inserts. */
  lemma BatchBytes()
    ensures var e := Batch(7, 3, [Item.Run(3, 1, 1, [([1], [2]), ([4], [5])])]);
            && EntryTag(e) == 10
            && EntryBody(e) == [3, 0, 0, 0, 0, 0, 0, 0, 2, 0, 0, 0]
                             + [11, 3, 0, 0, 0, 0, 0, 0, 0, 2, 0, 0, 0, 1, 0, 0, 0, 1, 0, 0, 0]
                             + [1, 2, 4, 5]
  {
    hide Le, EncodeItems, Flat;
    Small(3, 8);
    Small(2, 4);
    RunBytes();
  }

  lemma RunBytes()
    ensures var items := [Item.Run(3, 1, 1, [([1], [2]), ([4], [5])])];
            && |Flat(items)| == 2
            && EncodeItems(items) ==
               [11, 3, 0, 0, 0, 0, 0, 0, 0, 2, 0, 0, 0, 1, 0, 0, 0, 1, 0, 0, 0] + [1, 2, 4, 5]
  {
    hide Le;
    Small(3, 8);
    Small(2, 4);
    Small(1, 4);
    var pairs: seq<(Bytes, Bytes)> := [([1], [2]), ([4], [5])];
    var item := Item.Run(3, 1, 1, pairs);
    PairsFirst(3, [1], [2], [([4], [5])]);
    PairsFirst(3, [4], [5], []);
    assert pairs == [([1], [2])] + [([4], [5])] && [([4], [5])] + [] == [([4], [5])];
    assert [item][1..] == [];
  }

  /** The file header, byte by byte. */
  lemma FileHeaderBytes()
    ensures EncodeFileHeader(FileHeader(3, 9)) ==
      [0x57, 0x41, 0x4C, 0x41, 3, 0, 0, 0] + [3, 0, 0, 0, 0, 0, 0, 0] + [9, 0, 0, 0, 0, 0, 0, 0]
      + [0, 0, 0, 0, 0, 0, 0, 0]
  {
    hide Le;
    Small(3, 4);
    Small(3, 8);
    Small(9, 8);
    Small(0, 8);
    FileMagic();
  }

  lemma FileMagic()
    ensures Le(FILE_MAGIC, 4) == [0x57, 0x41, 0x4C, 0x41]
  {
    assert Le(0x41, 1) == [0x41] && Le(0x414C, 2) == [0x4C, 0x41] && Le(0x41_4C41, 3) == [0x41, 0x4C, 0x41];
  }

  lemma Small(n: Byte, width: nat)
    requires width == 4 || width == 8
    ensures Le(n, width) == [n] + seq(width - 1, _ => 0)
  {
    Zeros(width - 1);
  }

  lemma {:induction false} Zeros(width: nat)
    ensures Le(0, width) == seq(width, _ => 0)
    decreases width
  {
    if width > 0 { Zeros(width - 1); }
  }
}
