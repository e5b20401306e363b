/** The codec at work: encoders that append to a buffer and patch it, decoders that move a cursor. */
module WalCodec {
  import opened Bytes
  import opened WalOps
  import opened WalFormat

  class Buffer {
    var bytes: Bytes

    constructor ()
      ensures bytes == []
    {
      bytes := [];
    }

    method Append(more: Bytes)
      modifies this
      ensures bytes == old(bytes) + more
    {
      bytes := bytes + more;
    }

    /** Overwrites four bytes in place. */
    method Patch(pos: nat, value: nat)
      requires pos + 4 <= |bytes|
      modifies this
      ensures bytes == old(bytes)[..pos] + Le(value, 4) + old(bytes)[pos + 4..]
    {
      bytes := bytes[..pos] + Le(value, 4) + bytes[pos + 4..];
    }

    method Truncate(len: nat)
      requires len <= |bytes|
      modifies this
      ensures bytes == old(bytes)[..len]
    {
      bytes := bytes[..len];
    }
  }

  method WriteBytesTo(out: Buffer, b: Bytes)
    modifies out
    ensures out.bytes == old(out.bytes) + WriteBytes(b)
  {
    out.Append(Le(|b|, 4));
    out.Append(b);
  }

  method WriteOpBody(out: Buffer, op: WalOp)
    modifies out
    ensures out.bytes == old(out.bytes) + OpBody(op)
  {
    hide Le, WriteBytes;
    out.Append(Le(op.tree, 8));
    match op {
      case Insert(_, key, value) =>
        WriteBytesTo(out, key);
        WriteBytesTo(out, value);
      case Erase(_, key) =>
        WriteBytesTo(out, key);
      case RenameObject(_, src, dst, force) =>
        WriteBytesTo(out, src);
        WriteBytesTo(out, dst);
        out.Append([if force then 1 else 0]);
    }
  }

  lemma PatchMiddle(a: Bytes, slot: Bytes, b: Bytes, value: nat)
    requires |slot| == 4
    ensures var all := a + slot + b; all[..|a|] + Le(value, 4) + all[|a| + 4..] == a + Le(value, 4) + b
  {
    var all := a + slot + b;
    assert all[..|a|] == a && all[|a| + 4..] == b;
  }

  const BLANK: Bytes := [0, 0, 0, 0]

  lemma HeaderParts(seqno: nat, ty: Byte, len: nat)
    ensures Header(seqno, ty, len) == Le(RECORD_MAGIC, 4) + Le(len, 4) + (Le(seqno, 8) + [ty])
  {
    hide Le;
  }

  /** Header, body, patched length, checksum over both. */
  method WriteSingleRecord(out: Buffer, seqno: nat, op: WalOp, crc: Crc)
    requires |OpBody(op)| < U32_LIMIT
    modifies out
    ensures out.bytes == old(out.bytes) + Encode(Single(seqno, op), crc)
  {
    hide Le, OpBody, Header;
    var start := |out.bytes|;
    ghost var before := out.bytes;
    out.Append(Le(RECORD_MAGIC, 4));
    var lenPos := |out.bytes|;
    out.Append(BLANK);
    out.Append(Le(seqno, 8));
    out.Append([Tag(op)]);
    var bodyStart := |out.bytes|;
    WriteOpBody(out, op);
    var bodyEnd := |out.bytes|;
    SinglePatched(before, seqno, Tag(op), OpBody(op));
    out.Patch(lenPos, bodyEnd - bodyStart);
    ghost var covered := Header(seqno, Tag(op), |OpBody(op)|) + OpBody(op);
    assert out.bytes == before + covered;
    Covered(before, covered, Le(crc(covered), 4));
    out.Append(Le(crc(out.bytes[start..bodyEnd]), 4));
  }

  lemma SinglePatched(before: Bytes, seqno: nat, ty: Byte, body: Bytes)
    ensures var all := before + Le(RECORD_MAGIC, 4) + BLANK + Le(seqno, 8) + [ty] + body;
            var pos := |before| + 4;
            all[..pos] + Le(|body|, 4) + all[pos + 4..] == before + (Header(seqno, ty, |body|) + body)
  {
    hide Le, Header;
    var front, tail := before + Le(RECORD_MAGIC, 4), Le(seqno, 8) + [ty] + body;
    Regroup(front + BLANK, Le(seqno, 8), [ty], body);
    PatchMiddle(front, BLANK, tail, |body|);
    HeaderParts(seqno, ty, |body|);
    Grouped(before, Le(RECORD_MAGIC, 4), Le(|body|, 4), Le(seqno, 8), [ty], body);
  }

  lemma Regroup(front: Bytes, a: Bytes, b: Bytes, c: Bytes)
    ensures front + a + b + c == front + (a + b + c)
  {
  }

  lemma Grouped(before: Bytes, a: Bytes, b: Bytes, c: Bytes, d: Bytes, body: Bytes)
    ensures before + a + b + (c + d + body) == before + (a + b + (c + d) + body)
  {
  }

  lemma {:induction false} EncodeItemsAppend(items: seq<Item>, item: Item)
    ensures EncodeItems(items + [item]) == EncodeItems(items) + EncodeItem(item)
    decreases |items|
  {
    hide EncodeItem;
    if items == [] {
      assert ([] + [item])[1..] == [];
      assert EncodeItems([]) == [];
    } else {
      assert (items + [item])[1..] == items[1..] + [item];
      EncodeItemsAppend(items[1..], item);
    }
  }

  lemma FlatAppend(items: seq<Item>, item: Item)
    ensures Flat(items + [item]) == Flat(items) + ItemOps(item)
  {
    FlatConcat(items, [item]);
    assert [item][1..] == [] && Flat([]) == [];
  }

  lemma {:induction false} PairBytesAppend(pairs: seq<(Bytes, Bytes)>, pair: (Bytes, Bytes))
    ensures PairBytes(pairs + [pair]) == PairBytes(pairs) + (pair.0 + pair.1)
    decreases |pairs|
  {
    if pairs == [] {
      assert ([] + [pair])[1..] == [];
      assert PairBytes([]) == [];
    } else {
      assert (pairs + [pair])[1..] == pairs[1..] + [pair];
      PairBytesAppend(pairs[1..], pair);
    }
  }

  method WriteRun(out: Buffer, tree: nat, keyLen: nat, valueLen: nat, pairs: seq<(Bytes, Bytes)>)
    modifies out
    ensures out.bytes == old(out.bytes) + EncodeItem(Run(tree, keyLen, valueLen, pairs))
  {
    hide PairBytes, Le;
    out.Append([TY_BATCH_INSERT_RUN]);
    out.Append(Le(tree, 8));
    out.Append(Le(|pairs|, 4));
    out.Append(Le(keyLen, 4));
    out.Append(Le(valueLen, 4));
    ghost var head := [TY_BATCH_INSERT_RUN] + RunHead(tree, |pairs|, keyLen, valueLen);
    assert out.bytes == old(out.bytes) + head;
    WritePairs(out, pairs);
  }

  method WritePairs(out: Buffer, pairs: seq<(Bytes, Bytes)>)
    modifies out
    ensures out.bytes == old(out.bytes) + PairBytes(pairs)
  {
    hide PairBytes;
    NoPairs(pairs);
    for i := 0 to |pairs|
      invariant out.bytes == old(out.bytes) + PairBytes(pairs[..i])
    {
      PairBytesAppend(pairs[..i], pairs[i]);
      assert pairs[..i + 1] == pairs[..i] + [pairs[i]];
      out.Append(pairs[i].0);
      out.Append(pairs[i].1);
    }
    assert pairs[..|pairs|] == pairs;
  }

  /** Builds a batch record at the end of a buffer; the count and the length are patched in when
      it finishes, and an encoder that is dropped unfinished takes its bytes back. */
  class BatchEncoder {
    const out: Buffer
    const start: nat
    const lenPos: nat
    const bodyStart: nat
    const countPos: nat
    var innerCount: nat
    var finished: bool

    ghost const before: Bytes
    ghost const seqno: nat
    ghost const tree: nat
    ghost var items: seq<Item>

    ghost predicate Valid()
      reads this, out
    {
      && !finished
      && start == |before| && lenPos == start + 4 && bodyStart == start + RECORD_HEADER_SIZE
      && countPos == bodyStart + 8
      && innerCount == |Flat(items)|
      && out.bytes == before + Open(seqno, tree) + EncodeItems(items)
    }

    constructor (buffer: Buffer, seqno: nat, tree: nat)
      modifies buffer
      ensures Valid() && out == buffer && items == [] && this.seqno == seqno && this.tree == tree
      ensures before == old(buffer.bytes)
    {
      hide Le, EncodeItems, Flat;
      before, this.seqno, this.tree, items := buffer.bytes, seqno, tree, [];
      out, start := buffer, |buffer.bytes|;
      lenPos, bodyStart := |buffer.bytes| + 4, |buffer.bytes| + RECORD_HEADER_SIZE;
      countPos := |buffer.bytes| + RECORD_HEADER_SIZE + 8;
      innerCount, finished := 0, false;
      new;
      buffer.Append(Le(RECORD_MAGIC, 4));
      buffer.Append(BLANK);
      buffer.Append(Le(seqno, 8));
      buffer.Append([TY_BATCH]);
      buffer.Append(Le(tree, 8));
      buffer.Append(BLANK);
      NoItems();
      assert buffer.bytes == before + Open(seqno, tree) + EncodeItems(items);
    }

    method PushOp(op: WalOp)
      requires Valid()
      modifies this, out
      ensures Valid() && items == old(items) + [Item.One(op)]
    {
      hide EncodeItems, Flat, Open;
      EncodeItemsAppend(items, Item.One(op));
      FlatAppend(items, Item.One(op));
      out.Append([Tag(op)]);
      WriteOpBody(out, op);
      innerCount := innerCount + 1;
      items := items + [Item.One(op)];
    }

    /** A run of one is a plain insert. */
    method PushInsertRun(tree: nat, keyLen: nat, valueLen: nat, pairs: seq<(Bytes, Bytes)>)
      requires Valid() && pairs != []
      modifies this, out
      ensures Valid()
      ensures items == old(items) + [if |pairs| == 1 then Item.One(Insert(tree, pairs[0].0, pairs[0].1))
                                     else Run(tree, keyLen, valueLen, pairs)]
    {
      hide EncodeItems, Flat, Open, EncodeItem;
      if |pairs| == 1 {
        PushOp(Insert(tree, pairs[0].0, pairs[0].1));
        return;
      }
      ghost var item := Run(tree, keyLen, valueLen, pairs);
      EncodeItemsAppend(items, item);
      FlatAppend(items, item);
      WriteRun(out, tree, keyLen, valueLen, pairs);
      innerCount := innerCount + |pairs|;
      items := items + [item];
    }

    /** The finished record is the encoding of everything pushed. */
    method Finish(crc: Crc) returns (count: nat)
      requires Valid() && |EntryBody(Batch(seqno, tree, items))| < U32_LIMIT
      modifies this, out
      ensures count == |Flat(items)| && finished && items == old(items)
      ensures out.bytes == before + Encode(Batch(seqno, tree, items), crc)
    {
      hide Le, EncodeItems, Flat, Header, Open, Counted, EntryBody, Encode;
      var bodyEnd := |out.bytes|;
      CountPatched(before, seqno, tree, EncodeItems(items), innerCount);
      out.Patch(countPos, innerCount);
      LenPatched(before, seqno, tree, EncodeItems(items), innerCount, bodyEnd - bodyStart);
      out.Patch(lenPos, bodyEnd - bodyStart);
      ghost var covered := Sealed(before, seqno, tree, items, crc);
      assert out.bytes == before + covered;
      out.Append(Le(crc(out.bytes[start..bodyEnd]), 4));
      finished := true;
      count := innerCount;
    }

    /** Leaves the buffer as it was before the encoder began. */
    method Drop()
      requires Valid()
      modifies out
      ensures out.bytes == before
    {
      hide EncodeItems, Flat, Open;
      assert out.bytes[..start] == before;
      out.Truncate(start);
    }
  }

  /** Header and body prefix with blank length and count. */
  function Open(seqno: nat, tree: nat): (r: Bytes)
    ensures |r| == RECORD_HEADER_SIZE + 12
  {
    Le(RECORD_MAGIC, 4) + BLANK + Le(seqno, 8) + [TY_BATCH] + Le(tree, 8) + BLANK
  }

  function Counted(seqno: nat, tree: nat, count: nat): (r: Bytes)
    ensures |r| == RECORD_HEADER_SIZE + 12
  {
    Le(RECORD_MAGIC, 4) + BLANK + Le(seqno, 8) + [TY_BATCH] + Le(tree, 8) + Le(count, 4)
  }

  lemma CountPatched(before: Bytes, seqno: nat, tree: nat, rest: Bytes, count: nat)
    ensures var all := before + Open(seqno, tree) + rest;
            var pos := |before| + RECORD_HEADER_SIZE + 8;
            all[..pos] + Le(count, 4) + all[pos + 4..] == before + Counted(seqno, tree, count) + rest
  {
    hide Le;
    var front := before + Le(RECORD_MAGIC, 4) + BLANK + Le(seqno, 8) + [TY_BATCH] + Le(tree, 8);
    assert before + Open(seqno, tree) + rest == front + BLANK + rest;
    PatchMiddle(front, BLANK, rest, count);
    assert front + Le(count, 4) + rest == before + Counted(seqno, tree, count) + rest;
  }

  lemma LenPatched(before: Bytes, seqno: nat, tree: nat, rest: Bytes, count: nat, len: nat)
    ensures var all := before + Counted(seqno, tree, count) + rest;
            var pos := |before| + 4;
            var patched := all[..pos] + Le(len, 4) + all[pos + 4..];
            patched == before + (Header(seqno, TY_BATCH, len) + (Le(tree, 8) + Le(count, 4) + rest))
  {
    hide Le, Header;
    var front := before + Le(RECORD_MAGIC, 4);
    var tail := Le(seqno, 8) + [TY_BATCH] + Le(tree, 8) + Le(count, 4) + rest;
    assert before + Counted(seqno, tree, count) + rest == front + BLANK + tail;
    PatchMiddle(front, BLANK, tail, len);
    HeaderParts(seqno, TY_BATCH, len);
    assert front + Le(len, 4) + tail == before + (Header(seqno, TY_BATCH, len) + (Le(tree, 8) + Le(count, 4) + rest));
  }

  /** What the checksum of a finished batch covers. */
  lemma Sealed(before: Bytes, seqno: nat, tree: nat, items: seq<Item>, crc: Crc) returns (covered: Bytes)
    ensures var len := |EntryBody(Batch(seqno, tree, items))|;
            && covered == Header(seqno, TY_BATCH, len) + (Le(tree, 8) + Le(|Flat(items)|, 4) + EncodeItems(items))
            && len == 12 + |EncodeItems(items)|
    ensures (before + covered)[|before|..|before| + |covered|] == covered
    ensures before + covered + Le(crc(covered), 4) == before + Encode(Batch(seqno, tree, items), crc)
  {
    hide Le, EncodeItems, Flat, Header;
    var body := EntryBody(Batch(seqno, tree, items));
    covered := Header(seqno, TY_BATCH, |body|) + body;
    Covered(before, covered, Le(crc(covered), 4));
  }

  lemma Covered(before: Bytes, covered: Bytes, sum: Bytes)
    ensures (before + covered)[|before|..|before| + |covered|] == covered
    ensures before + covered + sum == before + (covered + sum)
  {
  }

  lemma NoItems()
    ensures EncodeItems([]) == [] && Flat([]) == []
  {
  }

  lemma NoPairs(pairs: seq<(Bytes, Bytes)>)
    ensures PairBytes(pairs[..0]) == []
  {
  }

  // ---------- decoding ----------

  datatype Result<+T> = Good(value: T) | Fail(context: string)

  /** The bytes still to be read. */
  class Cursor {
    var body: Bytes

    constructor (bytes: Bytes)
      ensures body == bytes
    {
      body := bytes;
    }

    /** A read that gives what the format says, and moves past it unless it fails. */
    ghost predicate Reads<T>(spec: Parse<T>, r: Result<T>)
      reads this
    {
      match spec
      case Ok(value, rest) => r == Good(value) && body == rest
      case Bad(context) => r == Fail(context)
    }

    method Take(n: nat) returns (r: Result<Bytes>)
      modifies this
      ensures Reads(WalFormat.Take(old(body), n), r)
    {
      if |body| < n { return Fail("body truncated"); }
      r := Good(body[..n]);
      body := body[n..];
    }

    method ReadU8() returns (r: Result<Byte>)
      modifies this
      ensures Reads(WalFormat.ReadU8(old(body)), r)
    {
      var front := Take(1);
      if front.Fail? { return Fail(front.context); }
      r := Good(front.value[0]);
    }

    method ReadLe(width: nat) returns (r: Result<nat>)
      modifies this
      ensures Reads(WalFormat.ReadLe(old(body), width), r)
    {
      var front := Take(width);
      if front.Fail? { return Fail(front.context); }
      r := Good(FromLe(front.value));
    }

    method ReadBytes() returns (r: Result<Bytes>)
      modifies this
      ensures Reads(WalFormat.ReadBytes(old(body)), r)
    {
      hide WalFormat.ReadLe;
      var len := ReadLe(4);
      if len.Fail? { return Fail(len.context); }
      r := Take(len.value);
    }

    method DecodeOp(ty: Byte) returns (r: Result<WalOp>)
      modifies this
      ensures Reads(WalFormat.DecodeOp(ty, old(body)), r)
    {
      hide WalFormat.ReadLe, WalFormat.ReadBytes, WalFormat.ReadU8;
      if ty == TY_INSERT {
        var tree := ReadLe(8);
        if tree.Fail? { return Fail(tree.context); }
        var key := ReadBytes();
        if key.Fail? { return Fail(key.context); }
        var value := ReadBytes();
        if value.Fail? { return Fail(value.context); }
        r := Good(Insert(tree.value, key.value, value.value));
      } else if ty == TY_ERASE {
        var tree := ReadLe(8);
        if tree.Fail? { return Fail(tree.context); }
        var key := ReadBytes();
        if key.Fail? { return Fail(key.context); }
        r := Good(Erase(tree.value, key.value));
      } else if ty == TY_RENAME_OBJECT {
        var tree := ReadLe(8);
        if tree.Fail? { return Fail(tree.context); }
        var src := ReadBytes();
        if src.Fail? { return Fail(src.context); }
        var dst := ReadBytes();
        if dst.Fail? { return Fail(dst.context); }
        var force := ReadU8();
        if force.Fail? { return Fail(force.context); }
        r := Good(RenameObject(tree.value, src.value, dst.value, force.value != 0));
      } else {
        r := Fail("unknown WalOp variant tag");
      }
    }

    /** Expands a run into plain inserts, pushed onto `ops`. */
    method DecodeInsertRun(batchCount: nat, ops: seq<WalOp>) returns (r: Result<seq<WalOp>>)
      requires |ops| <= batchCount
      modifies this
      ensures match DecodeRun(old(body), batchCount - |ops|)
              case Ok(more, rest) => r == Good(ops + more) && body == rest
              case Bad(context) => r == Fail(context)
    {
      hide WalFormat.ReadLe;
      var tree := ReadLe(8);
      if tree.Fail? { return Fail(tree.context); }
      var count := ReadLe(4);
      if count.Fail? { return Fail(count.context); }
      if count.value == 0 { return Fail("empty BatchInsertRun is rejected"); }
      if |ops| + count.value > batchCount { return Fail("BatchInsertRun exceeds batch inner count"); }
      var keyLen := ReadLe(4);
      if keyLen.Fail? { return Fail(keyLen.context); }
      var valueLen := ReadLe(4);
      if valueLen.Fail? { return Fail(valueLen.context); }
      r := DecodePairLoop(tree.value, count.value, keyLen.value, valueLen.value, ops);
    }

    method DecodePairLoop(tree: nat, count: nat, keyLen: nat, valueLen: nat, ops: seq<WalOp>)
      returns (r: Result<seq<WalOp>>)
      modifies this
      ensures match DecodePairs(tree, count, keyLen, valueLen, old(body))
              case Ok(more, rest) => r == Good(ops + more) && body == rest
              case Bad(context) => r == Fail(context)
    {
      hide WalFormat.Take;
      ghost var spec := DecodePairs(tree, count, keyLen, valueLen, body);
      var all := ops;
      for i := 0 to count
        invariant match DecodePairs(tree, count - i, keyLen, valueLen, body)
                  case Ok(more, rest) => spec.Ok? && all + more == ops + spec.value && rest == spec.rest
                  case Bad(context) => spec == Bad(context)
      {
        var key := Take(keyLen);
        if key.Fail? { return Fail(key.context); }
        var value := Take(valueLen);
        if value.Fail? { return Fail(value.context); }
        all := all + [Insert(tree, key.value, value.value)];
      }
      assert all + [] == all;
      r := Good(all);
    }

    /** Inner operations of a batch, runs expanded, until the announced number is read. */
    method DecodeBatchBody() returns (r: Result<seq<WalOp>>)
      modifies this
      ensures Reads(DecodeBatch(old(body)), r)
    {
      hide WalFormat.ReadLe, DecodeItem;
      var tree := ReadLe(8);
      if tree.Fail? { return Fail(tree.context); }
      var count := ReadLe(4);
      if count.Fail? { return Fail(count.context); }
      ghost var spec := DecodeItems(body, count.value);
      var ops: seq<WalOp> := [];
      while |ops| < count.value
        invariant |ops| <= count.value
        invariant match DecodeItems(body, count.value - |ops|)
                  case Ok(more, rest) => spec.Ok? && ops + more == spec.value && rest == spec.rest
                  case Bad(context) => spec == Bad(context)
      {
        DecodeItemRoom(body, count.value - |ops|);
        var item := DecodeNext(count.value, ops);
        if item.Fail? { return Fail(item.context); }
        ops := item.value;
      }
      assert ops + [] == ops;
      r := Good(ops);
    }

    method DecodeNext(batchCount: nat, ops: seq<WalOp>) returns (r: Result<seq<WalOp>>)
      requires |ops| <= batchCount
      modifies this
      ensures match DecodeItem(old(body), batchCount - |ops|)
              case Ok(more, rest) => r == Good(ops + more) && body == rest
              case Bad(context) => r == Fail(context)
    {
      hide WalFormat.ReadU8, WalFormat.DecodeOp, DecodeRun;
      var ty := ReadU8();
      if ty.Fail? { return Fail(ty.context); }
      if ty.value == TY_BATCH { return Fail("nested Batch is rejected"); }
      if ty.value == TY_BATCH_INSERT_RUN {
        r := DecodeInsertRun(batchCount, ops);
      } else {
        var op := DecodeOp(ty.value);
        if op.Fail? { return Fail(op.context); }
        r := Good(ops + [op.value]);
      }
    }
  }

  method DecodeRecordBody(ty: Byte, body: Bytes) returns (r: Result<Payload>)
    ensures match DecodeBody(ty, body)
            case Ok(payload, _) => r == Good(payload)
            case Bad(context) => r == Fail(context)
  {
    hide DecodeBatch, WalFormat.DecodeOp;
    var cursor := new Cursor(body);
    if ty == TY_BATCH {
      var ops := cursor.DecodeBatchBody();
      if ops.Fail? { return Fail(ops.context); }
      r := Good(Many(ops.value));
    } else {
      var op := cursor.DecodeOp(ty);
      if op.Fail? { return Fail(op.context); }
      r := Good(Payload.One(op.value));
    }
    if cursor.body != [] { return Fail("trailing bytes after variant body"); }
  }

  method DecodeRecordAt(buf: Bytes, crc: Crc) returns (r: Decoded)
    ensures r == DecodeRecord(buf, crc)
    ensures r.Record? ==> Intact(buf, r.consumed, crc) && r.seqno == FromLe(buf[8..16])
  {
    hide FromLe, DecodeBody, Intact;
    if DecodeRecord(buf, crc).Record? { AcceptsOnlyIntact(buf, crc); }
    if |buf| < RECORD_HEADER_SIZE { return Rejected(HEADER_TRUNCATED); }
    if FromLe(buf[..4]) != RECORD_MAGIC { return Rejected("record magic mismatch"); }
    var bodyLen := FromLe(buf[4..8]);
    var seqno := FromLe(buf[8..16]);
    var total := RECORD_HEADER_SIZE + bodyLen + RECORD_FOOTER_SIZE;
    if |buf| < total { return Rejected(BODY_TRUNCATED); }
    var bodyEnd := RECORD_HEADER_SIZE + bodyLen;
    if crc(buf[..bodyEnd]) != FromLe(buf[bodyEnd..bodyEnd + 4]) { return Rejected("record CRC mismatch"); }
    var payload := DecodeRecordBody(buf[16], buf[RECORD_HEADER_SIZE..bodyEnd]);
    if payload.Fail? { return Rejected(payload.context); }
    r := Record(payload.value, seqno, total);
  }
}
