/** The byte format of the log: what a record is, and what a decoder makes of any bytes. */
module WalFormat {
  import opened Bytes
  import opened WalOps

  // ---------- encoding ----------

  const RECORD_MAGIC: nat := 0x5243_4552

  const TY_INSERT: Byte := 0
  const TY_ERASE: Byte := 1
  const TY_RENAME_OBJECT: Byte := 5
  const TY_BATCH: Byte := 10
  const TY_BATCH_INSERT_RUN: Byte := 11

  /** The checksum is any function from bytes to 32-bit values. */
  type Crc = Bytes -> nat

  function WriteBytes(b: Bytes): Bytes { Le(|b|, 4) + b }

  function Tag(op: WalOp): Byte {
    match op
    case Insert(_, _, _) => TY_INSERT
    case Erase(_, _) => TY_ERASE
    case RenameObject(_, _, _, _) => TY_RENAME_OBJECT
  }

  function OpBody(op: WalOp): Bytes {
    match op
    case Insert(tree, key, value) => Le(tree, 8) + WriteBytes(key) + WriteBytes(value)
    case Erase(tree, key) => Le(tree, 8) + WriteBytes(key)
    case RenameObject(tree, src, dst, force) =>
      Le(tree, 8) + WriteBytes(src) + WriteBytes(dst) + [if force then 1 else 0]
  }

  function PairBytes(pairs: seq<(Bytes, Bytes)>): Bytes {
    if pairs == [] then [] else pairs[0].0 + pairs[0].1 + PairBytes(pairs[1..])
  }

  function EncodeItem(item: Item): Bytes {
    match item
    case One(op) => [Tag(op)] + OpBody(op)
    case Run(tree, keyLen, valueLen, pairs) =>
      [TY_BATCH_INSERT_RUN] + RunHead(tree, |pairs|, keyLen, valueLen) + PairBytes(pairs)
  }

  function RunHead(tree: nat, count: nat, keyLen: nat, valueLen: nat): Bytes {
    Le(tree, 8) + Le(count, 4) + Le(keyLen, 4) + Le(valueLen, 4)
  }

  function EncodeItems(items: seq<Item>): Bytes {
    if items == [] then [] else EncodeItem(items[0]) + EncodeItems(items[1..])
  }

  /** A record as its writer means it. */
  datatype Entry = Single(seqno: nat, op: WalOp) | Batch(seqno: nat, tree: nat, items: seq<Item>)

  function EntryOps(e: Entry): seq<WalOp> {
    match e
    case Single(_, op) => [op]
    case Batch(_, _, items) => Flat(items)
  }

  function EntryTag(e: Entry): Byte { if e.Single? then Tag(e.op) else TY_BATCH }

  function EntryBody(e: Entry): Bytes {
    match e
    case Single(_, op) => OpBody(op)
    case Batch(_, tree, items) => Le(tree, 8) + Le(|Flat(items)|, 4) + EncodeItems(items)
  }

  function Header(seqno: nat, ty: Byte, len: nat): (r: Bytes)
    ensures |r| == RECORD_HEADER_SIZE
  {
    Le(RECORD_MAGIC, 4) + Le(len, 4) + Le(seqno, 8) + [ty]
  }

  function Frame(seqno: nat, ty: Byte, body: Bytes, crc: Crc): (r: Bytes)
    ensures |r| == RECORD_HEADER_SIZE + |body| + RECORD_FOOTER_SIZE
  {
    var covered := Header(seqno, ty, |body|) + body;
    covered + Le(crc(covered), 4)
  }

  function Encode(e: Entry, crc: Crc): (r: Bytes)
    ensures |r| == RECORD_HEADER_SIZE + |EntryBody(e)| + RECORD_FOOTER_SIZE
  {
    Frame(e.seqno, EntryTag(e), EntryBody(e), crc)
  }

  // ---------- what fits the format ----------

  predicate OpFits(op: WalOp) {
    match op
    case Insert(tree, key, value) => tree < U64_LIMIT && |key| < U32_LIMIT && |value| < U32_LIMIT
    case Erase(tree, key) => tree < U64_LIMIT && |key| < U32_LIMIT
    case RenameObject(tree, src, dst, _) => tree < U64_LIMIT && |src| < U32_LIMIT && |dst| < U32_LIMIT
  }

  predicate ItemFits(item: Item) {
    match item
    case One(op) => OpFits(op)
    case Run(tree, keyLen, valueLen, pairs) =>
      && tree < U64_LIMIT && 0 < |pairs| < U32_LIMIT && keyLen < U32_LIMIT && valueLen < U32_LIMIT
      && forall i :: 0 <= i < |pairs| ==> |pairs[i].0| == keyLen && |pairs[i].1| == valueLen
  }

  predicate EntryFits(e: Entry) {
    && e.seqno < U64_LIMIT
    && |EntryBody(e)| < U32_LIMIT
    && match e
       case Single(_, op) => OpFits(op)
       case Batch(_, tree, items) =>
         && tree < U64_LIMIT && |Flat(items)| < U32_LIMIT
         && forall i :: 0 <= i < |items| ==> ItemFits(items[i])
  }

  ghost predicate CrcFits(crc: Crc) { forall b :: crc(b) < U32_LIMIT }

  // ---------- decoding ----------

  datatype Parse<+T> = Ok(value: T, rest: Bytes) | Bad(context: string)

  function Take(body: Bytes, n: nat): Parse<Bytes> {
    if |body| < n then Bad("body truncated") else Ok(body[..n], body[n..])
  }

  function ReadU8(body: Bytes): Parse<Byte> {
    match Take(body, 1)
    case Bad(c) => Bad(c)
    case Ok(front, rest) => Ok(front[0], rest)
  }

  function ReadLe(body: Bytes, width: nat): Parse<nat> {
    match Take(body, width)
    case Bad(c) => Bad(c)
    case Ok(front, rest) => Ok(FromLe(front), rest)
  }

  function ReadBytes(body: Bytes): Parse<Bytes> {
    match ReadLe(body, 4)
    case Bad(c) => Bad(c)
    case Ok(n, rest) => Take(rest, n)
  }

  function DecodeInsert(body: Bytes): Parse<WalOp> {
    match ReadLe(body, 8)
    case Bad(c) => Bad(c)
    case Ok(tree, r0) =>
      match ReadBytes(r0)
      case Bad(c) => Bad(c)
      case Ok(key, r1) =>
        match ReadBytes(r1)
        case Bad(c) => Bad(c)
        case Ok(value, r2) => Ok(Insert(tree, key, value), r2)
  }

  function DecodeErase(body: Bytes): Parse<WalOp> {
    match ReadLe(body, 8)
    case Bad(c) => Bad(c)
    case Ok(tree, r0) =>
      match ReadBytes(r0)
      case Bad(c) => Bad(c)
      case Ok(key, r1) => Ok(Erase(tree, key), r1)
  }

  function DecodeRename(body: Bytes): Parse<WalOp> {
    match ReadLe(body, 8)
    case Bad(c) => Bad(c)
    case Ok(tree, r0) =>
      match ReadBytes(r0)
      case Bad(c) => Bad(c)
      case Ok(src, r1) =>
        match ReadBytes(r1)
        case Bad(c) => Bad(c)
        case Ok(dst, r2) =>
          match ReadU8(r2)
          case Bad(c) => Bad(c)
          case Ok(force, r3) => Ok(RenameObject(tree, src, dst, force != 0), r3)
  }

  function DecodeOp(ty: Byte, body: Bytes): Parse<WalOp> {
    if ty == TY_INSERT then DecodeInsert(body)
    else if ty == TY_ERASE then DecodeErase(body)
    else if ty == TY_RENAME_OBJECT then DecodeRename(body)
    else Bad("unknown WalOp variant tag")
  }

  function DecodePairs(tree: nat, count: nat, keyLen: nat, valueLen: nat, body: Bytes): Parse<seq<WalOp>> {
    if count == 0 then Ok([], body)
    else match Take(body, keyLen)
         case Bad(c) => Bad(c)
         case Ok(key, r0) =>
           match Take(r0, valueLen)
           case Bad(c) => Bad(c)
           case Ok(value, r1) =>
             match DecodePairs(tree, count - 1, keyLen, valueLen, r1)
             case Bad(c) => Bad(c)
             case Ok(ops, r2) => Ok([Insert(tree, key, value)] + ops, r2)
  }

  /** A run, when `room` more operations are expected. */
  function DecodeRun(body: Bytes, room: nat): Parse<seq<WalOp>> {
    match ReadLe(body, 8)
    case Bad(c) => Bad(c)
    case Ok(tree, r0) =>
      match ReadLe(r0, 4)
      case Bad(c) => Bad(c)
      case Ok(count, r1) =>
        if count == 0 then Bad("empty BatchInsertRun is rejected")
        else if count > room then Bad("BatchInsertRun exceeds batch inner count")
        else match ReadLe(r1, 4)
             case Bad(c) => Bad(c)
             case Ok(keyLen, r2) =>
               match ReadLe(r2, 4)
               case Bad(c) => Bad(c)
               case Ok(valueLen, r3) => DecodePairs(tree, count, keyLen, valueLen, r3)
  }

  /** The operations of the next item, when `room` more are expected. */
  function DecodeItem(body: Bytes, room: nat): Parse<seq<WalOp>> {
    match ReadU8(body)
    case Bad(c) => Bad(c)
    case Ok(ty, r0) =>
      if ty == TY_BATCH then Bad("nested Batch is rejected")
      else if ty == TY_BATCH_INSERT_RUN then DecodeRun(r0, room)
      else match DecodeOp(ty, r0)
           case Bad(c) => Bad(c)
           case Ok(op, r1) => Ok([op], r1)
  }

  /** Items until `room` operations are read. */
  function DecodeItems(body: Bytes, room: nat): Parse<seq<WalOp>>
    decreases room
  {
    if room == 0 then Ok([], body)
    else match DecodeItem(body, room)
         case Bad(c) => Bad(c)
         case Ok(ops, r0) =>
           DecodeItemRoom(body, room);
           match DecodeItems(r0, room - |ops|)
           case Bad(c) => Bad(c)
           case Ok(more, r1) => Ok(ops + more, r1)
  }

  lemma {:induction false} DecodePairsCount(tree: nat, count: nat, keyLen: nat, valueLen: nat, body: Bytes)
    ensures var p := DecodePairs(tree, count, keyLen, valueLen, body); p.Ok? ==> |p.value| == count
    decreases count
  {
    if count > 0 && |body| >= keyLen + valueLen {
      DecodePairsCount(tree, count - 1, keyLen, valueLen, body[keyLen..][valueLen..]);
    }
  }

  lemma DecodeItemRoom(body: Bytes, room: nat)
    requires room > 0
    ensures var p := DecodeItem(body, room); p.Ok? ==> 1 <= |p.value| <= room
  {
    hide FromLe;
    if DecodeItem(body, room).Ok? && body[0] == TY_BATCH_INSERT_RUN {
      var r := body[1..];
      var tree, count := FromLe(r[..8]), FromLe(r[8..][..4]);
      var keyLen, valueLen := FromLe(r[8..][4..][..4]), FromLe(r[8..][4..][4..][..4]);
      DecodePairsCount(tree, count, keyLen, valueLen, r[8..][4..][4..][4..]);
    }
  }

  datatype Payload = One(op: WalOp) | Many(ops: seq<WalOp>)

  function DecodeBatch(body: Bytes): Parse<seq<WalOp>> {
    match ReadLe(body, 8)
    case Bad(c) => Bad(c)
    case Ok(_, r0) =>
      match ReadLe(r0, 4)
      case Bad(c) => Bad(c)
      case Ok(count, r1) => DecodeItems(r1, count)
  }

  function DecodeBody(ty: Byte, body: Bytes): Parse<Payload> {
    if ty == TY_BATCH then
      match DecodeBatch(body)
      case Bad(c) => Bad(c)
      case Ok(ops, rest) => if rest != [] then Bad("trailing bytes after variant body") else Ok(Many(ops), rest)
    else
      match DecodeOp(ty, body)
      case Bad(c) => Bad(c)
      case Ok(op, rest) => if rest != [] then Bad("trailing bytes after variant body") else Ok(Payload.One(op), rest)
  }

  datatype Decoded = Record(payload: Payload, seqno: nat, consumed: nat) | Rejected(context: string)

  const HEADER_TRUNCATED := "record header truncated"
  const BODY_TRUNCATED := "record body truncated"

  /** The first `n` bytes start with the record magic and end with the checksum of all before it. */
  predicate Intact(buf: Bytes, n: nat, crc: Crc) {
    && 21 <= n <= |buf| && buf[..4] == [0x52, 0x45, 0x43, 0x52] && n == 21 + FromLe(buf[4..8])
    && crc(buf[..n - 4]) == FromLe(buf[n - 4..n])
  }

  function DecodeRecord(buf: Bytes, crc: Crc): Decoded {
    if |buf| < RECORD_HEADER_SIZE then Rejected(HEADER_TRUNCATED)
    else if FromLe(buf[..4]) != RECORD_MAGIC then Rejected("record magic mismatch")
    else
      var bodyEnd := RECORD_HEADER_SIZE + FromLe(buf[4..8]);
      if |buf| < bodyEnd + RECORD_FOOTER_SIZE then Rejected(BODY_TRUNCATED)
      else if crc(buf[..bodyEnd]) != FromLe(buf[bodyEnd..bodyEnd + 4]) then Rejected("record CRC mismatch")
      else match DecodeBody(buf[16], buf[RECORD_HEADER_SIZE..bodyEnd])
           case Bad(c) => Rejected(c)
           case Ok(payload, _) => Record(payload, FromLe(buf[8..16]), bodyEnd + RECORD_FOOTER_SIZE)
  }

  /** Only a record with its magic, its whole length and its checksum is accepted. */
  lemma AcceptsOnlyIntact(buf: Bytes, crc: Crc)
    requires DecodeRecord(buf, crc).Record?
    ensures Intact(buf, DecodeRecord(buf, crc).consumed, crc) && DecodeRecord(buf, crc).seqno == FromLe(buf[8..16])
  {
    hide DecodeBody;
    var m := buf[..4];
    var a: int, b: int, c: int, d: int := m[0], m[1], m[2], m[3];
    assert FromLe(m) == a + 256 * FromLe(m[1..]) && FromLe(m[1..]) == b + 256 * FromLe(m[1..][1..]);
    assert m[1..][1..][1..][1..] == [];
    assert FromLe(m[1..][1..]) == c + 256 * d;
  }
}
