/**
 The replay scanner. A log cut at any byte after its file header replays exactly
 the records that lie wholly inside the cut.
 */
module WalReader {
  import opened Bytes
  import opened WalOps
  import opened WalFormat
  import opened WalRoundTrip
  import WalCodec

  // ---------- file header ----------

  const FILE_MAGIC: nat := 0x414C_4157
  const FORMAT_VERSION: nat := 3
  const FILE_HEADER_SIZE: nat := 32

  datatype FileHeader = FileHeader(tree: nat, createdAt: nat)

  function EncodeFileHeader(h: FileHeader): (r: Bytes)
    ensures |r| == FILE_HEADER_SIZE
  {
    Le(FILE_MAGIC, 4) + Le(FORMAT_VERSION, 4) + Le(h.tree, 8) + Le(h.createdAt, 8) + Le(0, 8)
  }

  datatype HeaderResult = Header(header: FileHeader) | BadHeader(context: string)

  function DecodeFileHeader(buf: Bytes): HeaderResult {
    if |buf| < FILE_HEADER_SIZE then BadHeader("WAL file header truncated")
    else if FromLe(buf[..4]) != FILE_MAGIC then BadHeader("WAL file magic mismatch")
    else if FromLe(buf[4..8]) != FORMAT_VERSION then BadHeader("WAL file format version unsupported")
    else HeaderResult.Header(FileHeader(FromLe(buf[8..16]), FromLe(buf[16..24])))
  }

  lemma FileHeaderRoundTrip(h: FileHeader, rest: Bytes)
    requires h.tree < U64_LIMIT && h.createdAt < U64_LIMIT
    ensures DecodeFileHeader(EncodeFileHeader(h) + rest) == HeaderResult.Header(h)
  {
    hide Le, FromLe;
    var f := EncodeFileHeader(h) + rest;
    assert f[..4] == Le(FILE_MAGIC, 4) && f[4..8] == Le(FORMAT_VERSION, 4);
    assert f[8..16] == Le(h.tree, 8) && f[16..24] == Le(h.createdAt, 8);
    U32RoundTrip(FILE_MAGIC);
    U32RoundTrip(FORMAT_VERSION);
    U64RoundTrip(h.tree);
    U64RoundTrip(h.createdAt);
  }

  // ---------- scanning ----------

  /** One operation handed to replay. */
  datatype Call = Call(op: WalOp, seqno: nat, offset: nat)

  /** Inner operations get consecutive sequence numbers, wrapping at 64 bits. */
  function CallsFor(ops: seq<WalOp>, seqno: nat, offset: nat): (r: seq<Call>)
    ensures |r| == |ops|
  {
    seq(|ops|, i requires 0 <= i < |ops| => Call(ops[i], (seqno + i) % U64_LIMIT, offset))
  }

  function PayloadOps(p: Payload): seq<WalOp> { if p.One? then [p.op] else p.ops }

  function Highest(calls: seq<Call>): Option<nat> {
    if calls == [] then None
    else
      var last := calls[|calls| - 1].seqno;
      match Highest(calls[..|calls| - 1])
      case None => Some(last)
      case Some(h) => Some(if h > last then h else last)
  }

  lemma {:induction false} HighestIsMaximum(calls: seq<Call>)
    ensures Highest(calls).None? <==> calls == []
    ensures Highest(calls).Some? ==>
      && (forall i :: 0 <= i < |calls| ==> calls[i].seqno <= Highest(calls).value)
      && (exists i :: 0 <= i < |calls| && calls[i].seqno == Highest(calls).value)
    decreases |calls|
  {
    if calls != [] {
      var front := calls[..|calls| - 1];
      HighestIsMaximum(front);
      forall i | 0 <= i < |calls| - 1 ensures calls[i] == front[i] {}
      if front != [] && Highest(front).value > calls[|calls| - 1].seqno {
        var i :| 0 <= i < |front| && front[i].seqno == Highest(front).value;
        assert calls[i] == front[i];
      } else {
        assert calls[|calls| - 1].seqno == Highest(calls).value;
      }
    }
  }

  datatype Scan =
    | Scanned(calls: seq<Call>, records: nat, tornTailAt: Option<nat>)
    | Corrupt(context: string, offset: nat)

  predicate TornTail(context: string) { context == HEADER_TRUNCATED || context == BODY_TRUNCATED }

  /** What a scan of `rest`, found at `offset`, hands out. */
  function ScanFrom(rest: Bytes, offset: nat, crc: Crc): Scan
    decreases |rest|
  {
    if rest == [] then Scanned([], 0, None)
    else match DecodeRecord(rest, crc)
         case Rejected(context) => if TornTail(context) then Scanned([], 0, Some(offset)) else Corrupt(context, offset)
         case Record(payload, seqno, consumed) =>
           match ScanFrom(rest[consumed..], offset + consumed, crc)
           case Corrupt(context, at) => Corrupt(context, at)
           case Scanned(calls, records, torn) =>
             Scanned(CallsFor(PayloadOps(payload), seqno, offset) + calls, records + 1, torn)
  }

  datatype Replay =
    | Replayed(header: FileHeader, calls: seq<Call>, records: nat, highest: Option<nat>, tornTailAt: Option<nat>)
    | ReplayFailed(context: string, offset: nat)

  /** The scanner loop: it hands out what the format says and keeps the true highest number. */
  method ReplayBytes(bytes: Bytes, crc: Crc) returns (r: Replay)
    ensures |bytes| < FILE_HEADER_SIZE ==> r.ReplayFailed? && r.offset == 0
    ensures |bytes| >= FILE_HEADER_SIZE ==>
      match DecodeFileHeader(bytes[..FILE_HEADER_SIZE])
      case BadHeader(context) => r == ReplayFailed(context, 0)
      case Header(header) =>
        match ScanFrom(bytes[FILE_HEADER_SIZE..], FILE_HEADER_SIZE, crc)
        case Corrupt(context, offset) => r == ReplayFailed(context, offset)
        case Scanned(calls, records, torn) => r == Replayed(header, calls, records, Highest(calls), torn)
  {
    hide DecodeRecord, DecodeFileHeader, Highest, ScanFrom, Ahead, CallsFor, PayloadOps;
    if |bytes| < FILE_HEADER_SIZE { return ReplayFailed("WAL too short — missing file header", 0); }
    var h := DecodeFileHeader(bytes[..FILE_HEADER_SIZE]);
    if h.BadHeader? { return ReplayFailed(h.context, 0); }
    var offset, records, calls, highest := FILE_HEADER_SIZE, 0, [], None;
    ghost var spec := ScanFrom(bytes[FILE_HEADER_SIZE..], FILE_HEADER_SIZE, crc);
    AtStart(bytes[FILE_HEADER_SIZE..], FILE_HEADER_SIZE, crc);
    while offset < |bytes|
      invariant FILE_HEADER_SIZE <= offset <= |bytes|
      invariant highest == Highest(calls)
      invariant Ahead(spec, bytes[offset..], offset, crc, calls, records)
    {
      var decoded := WalCodec.DecodeRecordAt(bytes[offset..], crc);
      AheadStep(spec, bytes[offset..], offset, crc, calls, records);
      match decoded {
        case Record(payload, seqno, consumed) =>
          assert bytes[offset..][consumed..] == bytes[offset + consumed..];
          calls, highest := Deliver(calls, highest, PayloadOps(payload), seqno, offset);
          records := records + 1;
          offset := offset + consumed;
        case Rejected(context) =>
          if TornTail(context) { return Replayed(h.header, calls, records, highest, Some(offset)); }
          return ReplayFailed(context, offset);
      }
    }
    AtEnd(spec, bytes[offset..], offset, crc, calls, records);
    r := Replayed(h.header, calls, records, highest, None);
  }

  /** With `calls` delivered and `rest` to go, the whole scan comes to `spec`. */
  ghost predicate Ahead(spec: Scan, rest: Bytes, offset: nat, crc: Crc, calls: seq<Call>, records: nat) {
    match ScanFrom(rest, offset, crc)
    case Corrupt(c, at) => spec == Corrupt(c, at)
    case Scanned(more, n, torn) => spec == Scanned(calls + more, records + n, torn)
  }

  lemma AtStart(rest: Bytes, offset: nat, crc: Crc)
    ensures Ahead(ScanFrom(rest, offset, crc), rest, offset, crc, [], 0) && Highest([]) == None
  {
    hide ScanFrom;
    var spec := ScanFrom(rest, offset, crc);
    if spec.Scanned? { assert [] + spec.calls == spec.calls; }
  }

  lemma AtEnd(spec: Scan, rest: Bytes, offset: nat, crc: Crc, calls: seq<Call>, records: nat)
    requires Ahead(spec, rest, offset, crc, calls, records) && rest == []
    ensures spec == Scanned(calls, records, None)
  {
    assert calls + [] == calls;
  }

  lemma AheadStep(spec: Scan, rest: Bytes, offset: nat, crc: Crc, calls: seq<Call>, records: nat)
    requires Ahead(spec, rest, offset, crc, calls, records) && rest != []
    ensures match DecodeRecord(rest, crc)
            case Rejected(context) =>
              spec == if TornTail(context) then Scanned(calls, records, Some(offset)) else Corrupt(context, offset)
            case Record(payload, seqno, consumed) =>
              && 0 < consumed <= |rest|
              && Ahead(spec, rest[consumed..], offset + consumed, crc,
                       calls + CallsFor(PayloadOps(payload), seqno, offset), records + 1)
  {
    hide DecodeRecord, CallsFor, PayloadOps;
    match DecodeRecord(rest, crc)
    case Rejected(context) =>
      assert calls + [] == calls;
    case Record(payload, seqno, consumed) =>
      DecodeConsumes(rest, crc);
      var here := CallsFor(PayloadOps(payload), seqno, offset);
      var next := ScanFrom(rest[consumed..], offset + consumed, crc);
      if next.Scanned? { assert calls + (here + next.calls) == (calls + here) + next.calls; }
  }

  lemma DecodeConsumes(buf: Bytes, crc: Crc)
    requires DecodeRecord(buf, crc).Record?
    ensures 0 < DecodeRecord(buf, crc).consumed <= |buf|
  {
    hide FromLe, DecodeBody;
  }

  /** Hands out the operations of one record one by one. */
  method Deliver(calls: seq<Call>, highest: Option<nat>, ops: seq<WalOp>, seqno: nat, offset: nat)
    returns (calls': seq<Call>, highest': Option<nat>)
    requires highest == Highest(calls)
    ensures calls' == calls + CallsFor(ops, seqno, offset)
    ensures highest' == Highest(calls')
  {
    calls', highest' := calls, highest;
    for i := 0 to |ops|
      invariant calls' == calls + CallsFor(ops, seqno, offset)[..i]
      invariant highest' == Highest(calls')
    {
      var innerSeq := (seqno + i) % U64_LIMIT;
      ghost var before := calls';
      calls' := calls' + [Call(ops[i], innerSeq, offset)];
      assert calls'[..|calls'| - 1] == before;
      highest' := if highest'.None? then Some(innerSeq)
                  else Some(if highest'.value > innerSeq then highest'.value else innerSeq);
    }
  }

  // ---------- torn tails ----------

  function Stream(entries: seq<Entry>, crc: Crc): Bytes {
    if entries == [] then [] else Encode(entries[0], crc) + Stream(entries[1..], crc)
  }

  /** A log as the writer leaves it. */
  function LogFile(h: FileHeader, entries: seq<Entry>, crc: Crc): Bytes { EncodeFileHeader(h) + Stream(entries, crc) }

  ghost predicate WellFormed(entries: seq<Entry>) {
    forall i :: 0 <= i < |entries| ==> EntryFits(entries[i])
  }

  /** How many records lie wholly in the first `n` bytes of the stream. */
  function Whole(entries: seq<Entry>, crc: Crc, n: nat): (w: nat)
    ensures w <= |entries|
  {
    if entries == [] || n < |Encode(entries[0], crc)| then 0
    else Whole(entries[1..], crc, n - |Encode(entries[0], crc)|) + 1
  }

  function CallsOf(entries: seq<Entry>, offset: nat, crc: Crc): seq<Call> {
    if entries == [] then []
    else
      var later := CallsOf(entries[1..], offset + |Encode(entries[0], crc)|, crc);
      CallsFor(EntryOps(entries[0]), entries[0].seqno, offset) + later
  }

  lemma CutWithin(a: Bytes, b: Bytes, n: nat)
    requires n <= |a| + |b|
    ensures n <= |a| ==> (a + b)[..n] == a[..n]
    ensures n >= |a| ==> (a + b)[..n] == a + b[..n - |a|]
  {
  }

  lemma ScanWhole(e: Entry, crc: Crc, tail: Bytes, offset: nat)
    requires EntryFits(e) && CrcFits(crc)
    ensures ScanFrom(Encode(e, crc) + tail, offset, crc) ==
            match ScanFrom(tail, offset + |Encode(e, crc)|, crc)
            case Corrupt(context, at) => Corrupt(context, at)
            case Scanned(calls, records, torn) =>
              Scanned(CallsFor(EntryOps(e), e.seqno, offset) + calls, records + 1, torn)
  {
    hide Encode, DecodeRecord, EntryFits, CrcFits, EntryOps, PayloadOps, CallsFor;
    RecordRoundTrip(e, crc, tail);
    assert (Encode(e, crc) + tail)[|Encode(e, crc)|..] == tail;
    PayloadIsOps(e);
  }

  lemma ScanTorn(e: Entry, crc: Crc, n: nat, offset: nat)
    requires EntryFits(e) && 0 < n < |Encode(e, crc)|
    ensures ScanFrom(Encode(e, crc)[..n], offset, crc) == Scanned([], 0, Some(offset))
  {
    hide Encode, DecodeRecord, EntryFits;
    CutRecord(e, crc, n);
  }

  lemma UnfoldNone(entries: seq<Entry>, crc: Crc, n: nat, offset: nat)
    requires entries == [] || n < |Encode(entries[0], crc)|
    ensures Whole(entries, crc, n) == 0 && Stream(entries[..0], crc) == [] && CallsOf(entries[..0], offset, crc) == []
    ensures entries != [] ==> Stream(entries, crc) == Encode(entries[0], crc) + Stream(entries[1..], crc)
    ensures entries == [] ==> Stream(entries, crc) == []
  {
    hide Encode;
  }

  lemma StreamFirst(entries: seq<Entry>, crc: Crc)
    requires entries != []
    ensures Stream(entries, crc) == Encode(entries[0], crc) + Stream(entries[1..], crc)
  {
    hide Encode;
  }

  lemma CallsFirst(entries: seq<Entry>, crc: Crc, offset: nat)
    requires entries != []
    ensures CallsOf(entries, offset, crc)
         == CallsFor(EntryOps(entries[0]), entries[0].seqno, offset)
          + CallsOf(entries[1..], offset + |Encode(entries[0], crc)|, crc)
  {
    hide Encode, CallsFor, EntryOps;
  }

  lemma WholeFirst(entries: seq<Entry>, crc: Crc, n: nat)
    requires entries != [] && n >= |Encode(entries[0], crc)|
    ensures Whole(entries, crc, n) == Whole(entries[1..], crc, n - |Encode(entries[0], crc)|) + 1
  {
    hide Encode;
  }

  lemma UnfoldSome(entries: seq<Entry>, crc: Crc, n: nat, offset: nat)
    requires entries != [] && n >= |Encode(entries[0], crc)|
    ensures var e, rest := entries[0], entries[1..];
            var size := |Encode(e, crc)|;
            var k := Whole(rest, crc, n - size);
            && Stream(entries, crc) == Encode(e, crc) + Stream(rest, crc)
            && Whole(entries, crc, n) == k + 1
            && Stream(entries[..k + 1], crc) == Encode(e, crc) + Stream(rest[..k], crc)
            && CallsOf(entries[..k + 1], offset, crc)
               == CallsFor(EntryOps(e), e.seqno, offset) + CallsOf(rest[..k], offset + size, crc)
  {
    hide Encode, CallsFor, EntryOps, Stream, CallsOf, Whole;
    var k := Whole(entries[1..], crc, n - |Encode(entries[0], crc)|);
    var some := entries[..k + 1];
    assert some[1..] == entries[1..][..k] && some[0] == entries[0];
    StreamFirst(entries, crc);
    StreamFirst(some, crc);
    WholeFirst(entries, crc, n);
    CallsFirst(some, crc, offset);
  }

  /** The last whole record ends inside the cut, and the next one does not. */
  lemma {:induction false} WholeIsExact(entries: seq<Entry>, crc: Crc, n: nat)
    ensures var w := Whole(entries, crc, n);
            && |Stream(entries[..w], crc)| <= n
            && (w < |entries| ==> n < |Stream(entries[..w], crc)| + |Encode(entries[w], crc)|)
    decreases |entries|
  {
    hide Encode, Stream, Whole, CallsOf;
    if entries == [] || n < |Encode(entries[0], crc)| {
      UnfoldNone(entries, crc, n, 0);
    } else {
      UnfoldSome(entries, crc, n, 0);
      WholeIsExact(entries[1..], crc, n - |Encode(entries[0], crc)|);
    }
  }

  /** Scanning the first `n` bytes gives the whole records and the place of the torn one. */
  ghost predicate CutScans(entries: seq<Entry>, crc: Crc, n: nat, offset: nat)
    requires n <= |Stream(entries, crc)|
  {
    var w := Whole(entries, crc, n);
    var end := |Stream(entries[..w], crc)|;
    ScanFrom(Stream(entries, crc)[..n], offset, crc)
    == Scanned(CallsOf(entries[..w], offset, crc), w, if n == end then None else Some(offset + end))
  }

  lemma CutAtOnce(entries: seq<Entry>, crc: Crc, offset: nat)
    ensures CutScans(entries, crc, 0, offset)
  {
    hide Encode, ScanFrom, CallsFor, EntryOps;
    UnfoldNone(entries, crc, 0, offset);
    assert Stream(entries, crc)[..0] == [];
    ScanNothing(offset, crc);
  }

  lemma CutInFirst(entries: seq<Entry>, crc: Crc, n: nat, offset: nat)
    requires entries != [] && EntryFits(entries[0])
    requires 0 < n < |Encode(entries[0], crc)| && n <= |Stream(entries, crc)|
    ensures CutScans(entries, crc, n, offset)
  {
    hide Encode, ScanFrom, EntryFits, CallsFor, EntryOps, Stream, Whole, CallsOf;
    UnfoldNone(entries, crc, n, offset);
    CutWithin(Encode(entries[0], crc), Stream(entries[1..], crc), n);
    ScanTorn(entries[0], crc, n, offset);
  }

  lemma CutLater(entries: seq<Entry>, crc: Crc, n: nat, offset: nat)
    requires entries != [] && EntryFits(entries[0]) && CrcFits(crc)
    requires |Encode(entries[0], crc)| <= n <= |Encode(entries[0], crc)| + |Stream(entries[1..], crc)|
    requires CutScans(entries[1..], crc, n - |Encode(entries[0], crc)|, offset + |Encode(entries[0], crc)|)
    ensures n <= |Stream(entries, crc)| && CutScans(entries, crc, n, offset)
  {
    hide Encode, ScanFrom, EntryFits, CrcFits, CallsFor, EntryOps, Stream, Whole, CallsOf;
    var e, tail := entries[0], Stream(entries[1..], crc);
    UnfoldSome(entries, crc, n, offset);
    CutWithin(Encode(e, crc), tail, n);
    ScanWhole(e, crc, tail[..n - |Encode(e, crc)|], offset);
  }

  lemma {:induction false} ScanCut(entries: seq<Entry>, crc: Crc, n: nat, offset: nat)
    requires WellFormed(entries) && CrcFits(crc) && n <= |Stream(entries, crc)|
    ensures CutScans(entries, crc, n, offset)
    decreases |entries|
  {
    hide Encode, EntryFits, CrcFits, CutScans;
    if entries == [] || n == 0 {
      CutAtOnce(entries, crc, offset);
    } else if n < |Encode(entries[0], crc)| {
      CutInFirst(entries, crc, n, offset);
    } else {
      ScanCut(entries[1..], crc, n - |Encode(entries[0], crc)|, offset + |Encode(entries[0], crc)|);
      CutLater(entries, crc, n, offset);
    }
  }

  lemma ScanNothing(offset: nat, crc: Crc)
    ensures ScanFrom([], offset, crc) == Scanned([], 0, None)
  {
  }

  lemma PayloadIsOps(e: Entry)
    ensures PayloadOps(PayloadOf(e)) == EntryOps(e)
  {
  }

  /** A log cut at any byte at or after its file header: replay never fails, hands out every
      record wholly inside the cut and nothing of the next one, and reports where that starts. */
  lemma TornTailTheorem(h: FileHeader, entries: seq<Entry>, crc: Crc, cut: nat)
    requires h.tree < U64_LIMIT && h.createdAt < U64_LIMIT && WellFormed(entries) && CrcFits(crc)
    requires FILE_HEADER_SIZE <= cut <= |LogFile(h, entries, crc)|
    ensures var bytes := LogFile(h, entries, crc)[..cut];
            var w := Whole(entries, crc, cut - FILE_HEADER_SIZE);
            var end := FILE_HEADER_SIZE + |Stream(entries[..w], crc)|;
            && DecodeFileHeader(bytes[..FILE_HEADER_SIZE]) == HeaderResult.Header(h)
            && ScanFrom(bytes[FILE_HEADER_SIZE..], FILE_HEADER_SIZE, crc)
               == Scanned(CallsOf(entries[..w], FILE_HEADER_SIZE, crc), w, if cut == end then None else Some(end))
  {
    hide EncodeFileHeader, DecodeFileHeader, Stream, ScanFrom, Whole, CallsOf;
    var head, stream := EncodeFileHeader(h), Stream(entries, crc);
    var bytes := LogFile(h, entries, crc)[..cut];
    CutWithin(head, stream, cut);
    assert bytes[..FILE_HEADER_SIZE] == head + [] && bytes[FILE_HEADER_SIZE..] == stream[..cut - FILE_HEADER_SIZE];
    FileHeaderRoundTrip(h, []);
    ScanCut(entries, crc, cut - FILE_HEADER_SIZE, FILE_HEADER_SIZE);
  }

  // ---------- what is handed out ----------

  function OpsBefore(entries: seq<Entry>, n: nat): nat
    requires n <= |entries|
  {
    if n == 0 then 0 else |EntryOps(entries[0])| + OpsBefore(entries[1..], n - 1)
  }

  lemma OpsFirst(entries: seq<Entry>, n: nat)
    requires n <= |entries|
    ensures OpsBefore(entries, n) == if n == 0 then 0 else |EntryOps(entries[0])| + OpsBefore(entries[1..], n - 1)
  {
    hide EntryOps;
  }

  /** Call number `at` is `op`, under its own number modulo 2^64, from the record at `offset`. */
  ghost predicate CallIs(calls: seq<Call>, at: nat, op: WalOp, seqno: nat, offset: nat) {
    at < |calls| && calls[at].op == op && calls[at].seqno == seqno % 0x1_0000_0000_0000_0000
    && calls[at].offset == offset
  }

  lemma FirstCalls(ops: seq<WalOp>, seqno: nat, offset: nat, later: seq<Call>, j: nat)
    requires j < |ops|
    ensures CallIs(CallsFor(ops, seqno, offset) + later, j, ops[j], seqno + j, offset)
  {
  }

  lemma LaterCalls(first: seq<Call>, later: seq<Call>, at: nat, op: WalOp, seqno: nat, offset: nat)
    requires CallIs(later, at, op, seqno, offset)
    ensures CallIs(first + later, |first| + at, op, seqno, offset)
  {
    assert (first + later)[|first| + at] == later[at];
  }

  lemma CallsOfFirst(entries: seq<Entry>, crc: Crc, offset: nat, j: nat)
    requires entries != [] && j < |EntryOps(entries[0])|
    ensures CallIs(CallsOf(entries, offset, crc), j, EntryOps(entries[0])[j], entries[0].seqno + j, offset)
  {
    hide Encode, EntryOps, CallIs, CallsFor, CallsOf;
    CallsFirst(entries, crc, offset);
    FirstCalls(EntryOps(entries[0]), entries[0].seqno, offset,
               CallsOf(entries[1..], offset + |Encode(entries[0], crc)|, crc), j);
  }

  lemma CallsOfRest(entries: seq<Entry>, crc: Crc, offset: nat, at: nat, op: WalOp, seqno: nat, where: nat)
    requires entries != []
    requires CallIs(CallsOf(entries[1..], offset + |Encode(entries[0], crc)|, crc), at, op, seqno, where)
    ensures CallIs(CallsOf(entries, offset, crc), |EntryOps(entries[0])| + at, op, seqno, where)
  {
    hide Encode, EntryOps, CallIs, CallsFor, CallsOf;
    CallsFirst(entries, crc, offset);
    LaterCalls(CallsFor(EntryOps(entries[0]), entries[0].seqno, offset),
               CallsOf(entries[1..], offset + |Encode(entries[0], crc)|, crc), at, op, seqno, where);
  }

  lemma StreamPrefix(entries: seq<Entry>, crc: Crc, i: nat)
    requires 0 < i <= |entries|
    ensures |Stream(entries[..i], crc)| == |Encode(entries[0], crc)| + |Stream(entries[1..][..i - 1], crc)|
  {
    hide Encode, Stream;
    StreamFirst(entries[..i], crc);
    assert entries[..i][1..] == entries[1..][..i - 1];
  }

  /** Operation `j` of record `i` is handed out in its place, under the record's number plus `j`, with the
      record's offset. */
  ghost predicate Placed(entries: seq<Entry>, crc: Crc, offset: nat, i: nat, j: nat)
    requires i < |entries| && j < |EntryOps(entries[i])|
  {
    CallIs(CallsOf(entries, offset, crc), OpsBefore(entries, i) + j, EntryOps(entries[i])[j], entries[i].seqno + j,
           offset + |Stream(entries[..i], crc)|)
  }

  lemma PlacedFirst(entries: seq<Entry>, crc: Crc, offset: nat, j: nat)
    requires entries != [] && j < |EntryOps(entries[0])|
    ensures Placed(entries, crc, offset, 0, j)
  {
    hide Encode, EntryOps, CallIs, CallsFor, CallsOf, Stream, OpsBefore;
    OpsFirst(entries, 0);
    EmptyStream(crc);
    CallsOfFirst(entries, crc, offset, j);
  }

  lemma PlacedNext(entries: seq<Entry>, crc: Crc, offset: nat, i: nat, j: nat)
    requires 0 < i < |entries| && j < |EntryOps(entries[i])|
    requires Placed(entries[1..], crc, offset + |Encode(entries[0], crc)|, i - 1, j)
    ensures Placed(entries, crc, offset, i, j)
  {
    hide Encode, EntryOps, CallIs, CallsFor, CallsOf, Stream, OpsBefore, EntryBody;
    var rest := entries[1..];
    assert rest[i - 1] == entries[i];
    OpsFirst(entries, i);
    StreamPrefix(entries, crc, i);
    var at, where := OpsBefore(rest, i - 1) + j, offset + |Stream(entries[..i], crc)|;
    assert where == offset + |Encode(entries[0], crc)| + |Stream(rest[..i - 1], crc)|;
    CallsOfRest(entries, crc, offset, at, EntryOps(entries[i])[j], entries[i].seqno + j, where);
    assert OpsBefore(entries, i) + j == |EntryOps(entries[0])| + at;
  }

  lemma {:induction false} CallAt(entries: seq<Entry>, crc: Crc, offset: nat, i: nat, j: nat)
    requires i < |entries| && j < |EntryOps(entries[i])|
    ensures Placed(entries, crc, offset, i, j)
    decreases i
  {
    hide Encode, EntryOps, Placed;
    if i == 0 {
      PlacedFirst(entries, crc, offset, j);
    } else {
      CallAt(entries[1..], crc, offset + |Encode(entries[0], crc)|, i - 1, j);
      PlacedNext(entries, crc, offset, i, j);
    }
  }

  lemma EmptyStream(crc: Crc)
    ensures Stream([], crc) == []
  {
  }

  lemma NoCalls(crc: Crc, offset: nat)
    ensures CallsOf([], offset, crc) == []
  {
  }

  lemma {:induction false} CallsCount(entries: seq<Entry>, crc: Crc, offset: nat)
    ensures |CallsOf(entries, offset, crc)| == OpsBefore(entries, |entries|)
    decreases |entries|
  {
    hide Encode, EntryOps, CallsFor, CallsOf, OpsBefore;
    OpsFirst(entries, |entries|);
    if entries == [] {
      NoCalls(crc, offset);
    } else {
      CallsFirst(entries, crc, offset);
      CallsCount(entries[1..], crc, offset + |Encode(entries[0], crc)|);
    }
  }
}
