/** Decoding undoes encoding, in any surroundings. */
module WalRoundTrip {
  import opened Bytes
  import opened WalOps
  import opened WalFormat

  lemma TakeFront(a: Bytes, b: Bytes)
    ensures Take(a + b, |a|) == Ok(a, b)
  {
    assert (a + b)[..|a|] == a && (a + b)[|a|..] == b;
  }

  lemma ReadU8Front(x: Byte, rest: Bytes)
    ensures ReadU8([x] + rest) == Ok(x, rest)
  {
    TakeFront([x], rest);
  }

  lemma ReadU32Front(n: nat, rest: Bytes)
    requires n < U32_LIMIT
    ensures ReadLe(Le(n, 4) + rest, 4) == Ok(n, rest)
  {
    hide FromLe, Le;
    TakeFront(Le(n, 4), rest);
    U32RoundTrip(n);
  }

  lemma ReadU64Front(n: nat, rest: Bytes)
    requires n < U64_LIMIT
    ensures ReadLe(Le(n, 8) + rest, 8) == Ok(n, rest)
  {
    hide FromLe, Le;
    TakeFront(Le(n, 8), rest);
    U64RoundTrip(n);
  }

  lemma ReadBytesFront(b: Bytes, rest: Bytes)
    requires |b| < U32_LIMIT
    ensures ReadBytes(WriteBytes(b) + rest) == Ok(b, rest)
  {
    hide FromLe, Le;
    assert WriteBytes(b) + rest == Le(|b|, 4) + (b + rest);
    ReadU32Front(|b|, b + rest);
    TakeFront(b, rest);
  }

  lemma OpRoundTrip(op: WalOp, rest: Bytes)
    requires OpFits(op)
    ensures DecodeOp(Tag(op), OpBody(op) + rest) == Ok(op, rest)
  {
    hide Le, WriteBytes, ReadBytes, ReadLe, ReadU8, Take;
    match op
    case Insert(tree, key, value) =>
      assert OpBody(op) + rest == Le(tree, 8) + (WriteBytes(key) + (WriteBytes(value) + rest));
      ReadU64Front(tree, WriteBytes(key) + (WriteBytes(value) + rest));
      ReadBytesFront(key, WriteBytes(value) + rest);
      ReadBytesFront(value, rest);
    case Erase(tree, key) =>
      assert OpBody(op) + rest == Le(tree, 8) + (WriteBytes(key) + rest);
      ReadU64Front(tree, WriteBytes(key) + rest);
      ReadBytesFront(key, rest);
    case RenameObject(tree, src, dst, force) =>
      var flag: Byte := if force then 1 else 0;
      assert OpBody(op) + rest == Le(tree, 8) + (WriteBytes(src) + (WriteBytes(dst) + ([flag] + rest)));
      ReadU64Front(tree, WriteBytes(src) + (WriteBytes(dst) + ([flag] + rest)));
      ReadBytesFront(src, WriteBytes(dst) + ([flag] + rest));
      ReadBytesFront(dst, [flag] + rest);
      ReadU8Front(flag, rest);
  }

  lemma {:induction false} PairsRoundTrip(tree: nat, keyLen: nat, valueLen: nat, pairs: seq<(Bytes, Bytes)>,
                                          rest: Bytes)
    requires forall i :: 0 <= i < |pairs| ==> |pairs[i].0| == keyLen && |pairs[i].1| == valueLen
    ensures DecodePairs(tree, |pairs|, keyLen, valueLen, PairBytes(pairs) + rest) == Ok(RunOps(tree, pairs), rest)
    decreases |pairs|
  {
    hide Take;
    if pairs == [] {
      assert PairBytes(pairs) + rest == rest;
    } else {
      var (key, value) := pairs[0];
      var tail := PairBytes(pairs[1..]) + rest;
      assert PairBytes(pairs) + rest == key + (value + tail);
      TakeFront(key, value + tail);
      TakeFront(value, tail);
      PairsRoundTrip(tree, keyLen, valueLen, pairs[1..], rest);
    }
  }

  lemma RunRoundTrip(item: Item, room: nat, rest: Bytes)
    requires item.Run? && ItemFits(item) && |item.pairs| <= room
    ensures DecodeRun(RunHead(item.tree, |item.pairs|, item.keyLen, item.valueLen) + PairBytes(item.pairs) + rest, room)
         == Ok(RunOps(item.tree, item.pairs), rest)
  {
    hide Le, ReadLe, PairBytes, DecodePairs;
    var Run(tree, keyLen, valueLen, pairs) := item;
    var r3 := PairBytes(pairs) + rest;
    var r2 := Le(valueLen, 4) + r3;
    var r1 := Le(keyLen, 4) + r2;
    var r0 := Le(|pairs|, 4) + r1;
    assert RunHead(tree, |pairs|, keyLen, valueLen) + PairBytes(pairs) + rest == Le(tree, 8) + r0;
    ReadU64Front(tree, r0);
    ReadU32Front(|pairs|, r1);
    ReadU32Front(keyLen, r2);
    ReadU32Front(valueLen, r3);
    PairsRoundTrip(tree, keyLen, valueLen, pairs, rest);
  }

  /** An item, compact or not, decodes to the plain operations it stands for. */
  lemma ItemRoundTrip(item: Item, room: nat, rest: Bytes)
    requires ItemFits(item) && |ItemOps(item)| <= room
    ensures DecodeItem(EncodeItem(item) + rest, room) == Ok(ItemOps(item), rest)
  {
    hide OpBody, RunHead, PairBytes, DecodeOp, DecodeRun, ReadU8;
    match item
    case One(op) =>
      assert EncodeItem(item) + rest == [Tag(op)] + (OpBody(op) + rest);
      ReadU8Front(Tag(op), OpBody(op) + rest);
      OpRoundTrip(op, rest);
    case Run(tree, keyLen, valueLen, pairs) =>
      var head := RunHead(tree, |pairs|, keyLen, valueLen);
      assert EncodeItem(item) + rest == [TY_BATCH_INSERT_RUN] + (head + PairBytes(pairs) + rest);
      ReadU8Front(TY_BATCH_INSERT_RUN, head + PairBytes(pairs) + rest);
      RunRoundTrip(item, room, rest);
  }

  lemma {:induction false} ItemsRoundTrip(items: seq<Item>, rest: Bytes)
    requires forall i :: 0 <= i < |items| ==> ItemFits(items[i])
    ensures DecodeItems(EncodeItems(items) + rest, |Flat(items)|) == Ok(Flat(items), rest)
    decreases |items|
  {
    hide EncodeItem, DecodeItem;
    if items == [] {
      assert EncodeItems(items) + rest == rest;
    } else {
      var tail := EncodeItems(items[1..]) + rest;
      assert EncodeItems(items) + rest == EncodeItem(items[0]) + tail;
      ItemRoundTrip(items[0], |Flat(items)|, tail);
      ItemSome(items[0]);
      ItemsRoundTrip(items[1..], rest);
      assert ItemOps(items[0]) + Flat(items[1..]) == Flat(items);
    }
  }

  lemma ItemSome(item: Item)
    requires ItemFits(item)
    ensures |ItemOps(item)| >= 1
  {
  }

  function PayloadOf(e: Entry): Payload {
    match e
    case Single(_, op) => Payload.One(op)
    case Batch(_, _, items) => Many(Flat(items))
  }

  lemma BodyRoundTrip(e: Entry)
    requires EntryFits(e)
    ensures DecodeBody(EntryTag(e), EntryBody(e)) == Ok(PayloadOf(e), [])
  {
    hide OpBody, EncodeItems, Le, DecodeOp, DecodeItems, ReadLe, Flat;
    match e
    case Single(_, op) =>
      assert OpBody(op) + [] == OpBody(op);
      OpRoundTrip(op, []);
    case Batch(_, tree, items) =>
      var r1 := EncodeItems(items) + [];
      assert EntryBody(e) == Le(tree, 8) + (Le(|Flat(items)|, 4) + r1);
      ReadU64Front(tree, Le(|Flat(items)|, 4) + r1);
      ReadU32Front(|Flat(items)|, r1);
      ItemsRoundTrip(items, []);
  }

  /** Where the fields of a frame are, whatever follows it. */
  lemma FrameFields(seqno: nat, ty: Byte, body: Bytes, crc: Crc, rest: Bytes)
    ensures var f := Frame(seqno, ty, body, crc) + rest;
            var end := RECORD_HEADER_SIZE + |body|;
            && f[..4] == Le(RECORD_MAGIC, 4) && f[4..8] == Le(|body|, 4) && f[8..16] == Le(seqno, 8) && f[16] == ty
            && f[RECORD_HEADER_SIZE..end] == body
            && f[..end] == Header(seqno, ty, |body|) + body
            && f[end..end + 4] == Le(crc(f[..end]), 4)
  {
    hide Le;
    var f := Frame(seqno, ty, body, crc) + rest;
    var end := RECORD_HEADER_SIZE + |body|;
    assert f[..end] == Header(seqno, ty, |body|) + body;
    assert f[..RECORD_HEADER_SIZE] == Header(seqno, ty, |body|);
    assert f[..4] == Header(seqno, ty, |body|)[..4];
  }

  /** Any entry, any trailing bytes: the same flat operations, sequence number and length. */
  lemma RecordRoundTrip(e: Entry, crc: Crc, rest: Bytes)
    requires EntryFits(e) && CrcFits(crc)
    ensures DecodeRecord(Encode(e, crc) + rest, crc) == Record(PayloadOf(e), e.seqno, |Encode(e, crc)|)
  {
    hide Le, FromLe, DecodeBody, EntryBody, Frame, Header;
    var body := EntryBody(e);
    FrameFields(e.seqno, EntryTag(e), body, crc, rest);
    var f := Encode(e, crc) + rest;
    U32RoundTrip(RECORD_MAGIC);
    U32RoundTrip(|body|);
    U64RoundTrip(e.seqno);
    assert crc(f[..RECORD_HEADER_SIZE + |body|]) < U32_LIMIT;
    U32RoundTrip(crc(f[..RECORD_HEADER_SIZE + |body|]));
    BodyRoundTrip(e);
  }

  /** An entry cut short is recognised as truncated, never as damaged. */
  lemma CutRecord(e: Entry, crc: Crc, n: nat)
    requires EntryFits(e) && n < |Encode(e, crc)|
    ensures DecodeRecord(Encode(e, crc)[..n], crc)
         == Rejected(if n < RECORD_HEADER_SIZE then HEADER_TRUNCATED else BODY_TRUNCATED)
  {
    hide Le, FromLe, DecodeBody, EntryBody, Frame, Header;
    var f := Encode(e, crc);
    assert f + [] == f;
    FrameFields(e.seqno, EntryTag(e), EntryBody(e), crc, []);
    U32RoundTrip(RECORD_MAGIC);
    U32RoundTrip(|EntryBody(e)|);
    if n >= RECORD_HEADER_SIZE {
      assert f[..n][..4] == f[..4] && f[..n][4..8] == f[4..8];
    }
  }
}
