/** Slot-table entries of a blob frame, packed in 32 bits, and the node types they name. */
module SlotTable {
  const PAGE_SIZE: nat := 0x80000
  const DATA_AREA_START: nat := 0xB000
  const MAX_SLOTS: nat := 10240
  const SPILLOVER_RESERVATION: nat := 128

  const OFFSET_LIMIT: nat := 0x20000  // 17 bits of offset, in units of 8 bytes
  const TAG_LIMIT: nat := 0x8000      // 15 bits of node type or next free slot

  /** Node type codes: 0 is invalid, 1 to 8 are nodes. */
  type NodeType = t: nat | t <= 8 witness 0

  const INVALID: NodeType := 0
  const LEAF: NodeType := 1
  const PREFIX: NodeType := 2
  const BLOB: NodeType := 3
  const EMPTY_ROOT: NodeType := 8

  const SIZES: seq<nat> := [16, 128, 128, 24, 88, 456, 1032, 8]

  function SizeOf(t: NodeType): (n: nat)
    requires t != INVALID
    ensures n % 8 == 0 && 8 <= n <= 1032
  {
    SIZES[t - 1]
  }

  /** Each body has room for exactly the fields of its node: leaf header, inline prefix bytes, and the
      key, index and child arrays of the inner nodes. */
  lemma NodeSizes()
    ensures SizeOf(1) == 2 + 1 + 1 + 4 + 8
    ensures SizeOf(2) == 1 + 1 + 2 + 2 + 2 + 4 + 4 + 112
    ensures SizeOf(3) == 1 + 1 + 2 + 2 + 2 + 16 + 104
    ensures SizeOf(4) == 1 + 1 + 2 + 4 + 4 * 4
    ensures SizeOf(5) == 1 + 1 + 6 + 16 + 16 * 4
    ensures SizeOf(6) == 1 + 1 + 6 + 256 + 48 * 4
    ensures SizeOf(7) == 1 + 1 + 6 + 256 * 4
    ensures SizeOf(8) == 8
  {
  }

  /** Header, slot table and data area fill a page of 512 KiB; every offset and slot index has a code. */
  lemma FrameLayout()
    ensures DATA_AREA_START == 4096 + 4 * 10240 && MAX_SLOTS == 10240 && PAGE_SIZE == 512 * 1024
    ensures PAGE_SIZE <= 8 * OFFSET_LIMIT && MAX_SLOTS < TAG_LIMIT && OFFSET_LIMIT * TAG_LIMIT == 0x1_0000_0000
  {
  }

  datatype SlotEntry = SlotEntry(offsetDiv8: nat, tag: nat)

  predicate Packable(e: SlotEntry) { e.offsetDiv8 < OFFSET_LIMIT && e.tag < TAG_LIMIT }

  function Pack(e: SlotEntry): nat { e.tag * OFFSET_LIMIT + e.offsetDiv8 }

  function Unpack(raw: nat): SlotEntry { SlotEntry(raw % OFFSET_LIMIT, raw / OFFSET_LIMIT) }

  /** Packing loses nothing, and every packed entry fits 32 bits. */
  lemma PackRoundTrip(e: SlotEntry)
    requires Packable(e)
    ensures Unpack(Pack(e)) == e
    ensures Pack(e) < 0x1_0000_0000 && Pack(e) % 0x20000 == e.offsetDiv8 && Pack(e) / 0x20000 == e.tag
  {
  }
}
