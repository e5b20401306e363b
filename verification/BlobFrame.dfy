/**
 The allocator inside a blob frame: node bodies from per-type free lists or from
 the bump cursor, and raw extents from the bump cursor.
 */
module BlobFrame {
  import opened SlotTable

  /** A stretch of the data area: the body of a slot, or an extent when `slot` is 0. */
  datatype Region = Region(offset: nat, size: nat, slot: nat)

  /** What a slot is used for. */
  datatype Owner = Live(t: NodeType) | Freed(t: NodeType)

  datatype AllocError = InvalidRequest | OutOfSlots | OutOfSpace(need: nat, avail: nat)

  datatype AllocResult = Allocated(slot: nat) | AllocFailed(error: AllocError)

  datatype ExtentResult = Extent(offset: nat) | ExtentFailed(error: AllocError)

  // ---------- table ----------

  function TagAt(table: seq<nat>, slot: nat): nat
    requires 1 <= slot <= |table|
  {
    Unpack(table[slot - 1]).tag
  }

  function OffsetAt(table: seq<nat>, slot: nat): nat
    requires 1 <= slot <= |table|
  {
    Unpack(table[slot - 1]).offsetDiv8 * 8
  }

  // ---------- regions ----------

  /** The regions fill the data area from its start up to `end`, in order and 8-aligned. */
  predicate Tiled(regions: seq<Region>, end: nat) {
    if regions == [] then end == DATA_AREA_START
    else
      var last := regions[|regions| - 1];
      && last.size % 8 == 0 && last.offset + last.size == end
      && Tiled(regions[..|regions| - 1], last.offset)
  }

  lemma {:induction false} TiledAt(regions: seq<Region>, end: nat, i: nat)
    requires Tiled(regions, end) && i < |regions|
    ensures DATA_AREA_START <= regions[i].offset && regions[i].offset + regions[i].size <= end
    ensures regions[i].offset % 8 == 0 && regions[i].size % 8 == 0
    decreases |regions|
  {
    TiledEnd(regions, end);
    var front, last := regions[..|regions| - 1], regions[|regions| - 1];
    TiledEnd(front, last.offset);
    if i < |front| { TiledAt(front, last.offset, i); }
  }

  lemma {:induction false} TiledEnd(regions: seq<Region>, end: nat)
    requires Tiled(regions, end)
    ensures end >= DATA_AREA_START && end % 8 == 0
    decreases |regions|
  {
    if regions != [] { TiledEnd(regions[..|regions| - 1], regions[|regions| - 1].offset); }
  }

  /** Two regions never overlap. */
  lemma {:induction false} TiledDisjoint(regions: seq<Region>, end: nat, i: nat, j: nat)
    requires Tiled(regions, end) && i < j < |regions|
    ensures regions[i].offset + regions[i].size <= regions[j].offset
    decreases |regions|
  {
    var front, last := regions[..|regions| - 1], regions[|regions| - 1];
    if j < |front| {
      TiledDisjoint(front, last.offset, i, j);
    } else {
      TiledAt(front, last.offset, i);
    }
  }

  /** Every byte of the area in use lies in a region. */
  lemma {:induction false} TiledCovers(regions: seq<Region>, end: nat, x: nat) returns (i: nat)
    requires Tiled(regions, end) && DATA_AREA_START <= x < end
    ensures i < |regions| && regions[i].offset <= x < regions[i].offset + regions[i].size
    decreases |regions|
  {
    var front, last := regions[..|regions| - 1], regions[|regions| - 1];
    if x < last.offset {
      i := TiledCovers(front, last.offset, x);
    } else {
      i := |front|;
    }
  }

  /** Each slot has its own region, at the offset in its entry and of its type's size. */
  ghost predicate Placed(table: seq<nat>, owners: seq<Owner>, regions: seq<Region>, place: seq<nat>) {
    && |owners| == |table| == |place|
    && forall s :: 1 <= s <= |table| ==> PlacedAt(table, owners, regions, place, s)
  }

  ghost predicate PlacedAt(table: seq<nat>, owners: seq<Owner>, regions: seq<Region>, place: seq<nat>, s: nat)
    requires 1 <= s <= |table| && |owners| == |table| == |place|
  {
    && owners[s - 1].t != INVALID
    && place[s - 1] < |regions|
    && regions[place[s - 1]] == Region(OffsetAt(table, s), SizeOf(owners[s - 1].t), s)
  }

  lemma PlacedMore(table: seq<nat>, owners: seq<Owner>, regions: seq<Region>, place: seq<nat>, r: Region)
    requires Placed(table, owners, regions, place)
    ensures Placed(table, owners, regions + [r], place)
  {
    forall s | 1 <= s <= |table| ensures PlacedAt(table, owners, regions + [r], place, s) {
      assert PlacedAt(table, owners, regions, place, s);
    }
  }

  lemma PlacedNew(table: seq<nat>, owners: seq<Owner>, regions: seq<Region>, place: seq<nat>, t: NodeType, offset: nat)
    requires Placed(table, owners, regions, place) && t != INVALID
    requires offset % 8 == 0 && offset < PAGE_SIZE
    ensures Placed(table + [Pack(SlotEntry(offset / 8, t))], owners + [Live(t)],
                   regions + [Region(offset, SizeOf(t), |table| + 1)], place + [|regions|])
  {
    var e := SlotEntry(offset / 8, t);
    PackRoundTrip(e);
    var table', owners' := table + [Pack(e)], owners + [Live(t)];
    var regions', place' := regions + [Region(offset, SizeOf(t), |table| + 1)], place + [|regions|];
    forall s | 1 <= s <= |table'| ensures PlacedAt(table', owners', regions', place', s) {
      if s <= |table| { assert PlacedAt(table, owners, regions, place, s); }
    }
  }

  /** An entry rewritten in place with the same offset, for a type of the same size. */
  lemma PlacedRetag(table: seq<nat>, owners: seq<Owner>, regions: seq<Region>, place: seq<nat>, slot: nat,
                    owner: Owner, tag: nat)
    requires Placed(table, owners, regions, place) && 1 <= slot <= |table| && tag < TAG_LIMIT
    requires owner.t != INVALID && owners[slot - 1].t != INVALID && SizeOf(owner.t) == SizeOf(owners[slot - 1].t)
    requires OffsetAt(table, slot) / 8 < OFFSET_LIMIT
    ensures Placed(table[slot - 1 := Pack(SlotEntry(OffsetAt(table, slot) / 8, tag))], owners[slot - 1 := owner],
                   regions, place)
  {
    var e := SlotEntry(OffsetAt(table, slot) / 8, tag);
    PackRoundTrip(e);
    var table', owners' := table[slot - 1 := Pack(e)], owners[slot - 1 := owner];
    forall s | 1 <= s <= |table'| ensures PlacedAt(table', owners', regions, place, s) {
      assert PlacedAt(table, owners, regions, place, s);
    }
  }

  // ---------- free lists ----------

  /** Following next-free tags from `head` gives exactly `list`. */
  predicate Chain(table: seq<nat>, head: nat, list: seq<nat>)
    decreases |list|
  {
    if list == [] then head == 0
    else head == list[0] && 1 <= head <= |table| && Chain(table, TagAt(table, head), list[1..])
  }

  predicate NoDup(list: seq<nat>) { forall i, j :: 0 <= i < j < |list| ==> list[i] != list[j] }

  /** The list of type `t` is acyclic and holds exactly the slots freed with that type. */
  ghost predicate ListOk(table: seq<nat>, owners: seq<Owner>, head: nat, list: seq<nat>, t: NodeType) {
    && Chain(table, head, list) && NoDup(list)
    && forall s :: s in list <==> 1 <= s <= |owners| && owners[s - 1] == Freed(t)
  }

  lemma {:induction false} ChainFrame(table: seq<nat>, table': seq<nat>, head: nat, list: seq<nat>, slot: nat)
    requires Chain(table, head, list) && slot !in list && |table| <= |table'|
    requires forall i :: 0 <= i < |table| && i != slot - 1 ==> table'[i] == table[i]
    ensures Chain(table', head, list)
    decreases |list|
  {
    if list != [] { ChainFrame(table, table', TagAt(table, head), list[1..], slot); }
  }

  /** Lists of other types, when a slot changes hands between live and type `t`. */
  lemma OtherList(table: seq<nat>, owners: seq<Owner>, head: nat, list: seq<nat>, u: NodeType, slot: nat, raw: nat,
                  owner: Owner)
    requires |table| == |owners| && ListOk(table, owners, head, list, u) && 1 <= slot <= |table|
    requires owners[slot - 1] != Freed(u) && owner != Freed(u)
    ensures ListOk(table[slot - 1 := raw], owners[slot - 1 := owner], head, list, u)
  {
    ChainFrame(table, table[slot - 1 := raw], head, list, slot);
  }

  lemma PushList(table: seq<nat>, owners: seq<Owner>, head: nat, list: seq<nat>, t: NodeType, slot: nat, offset: nat)
    requires |table| == |owners| && ListOk(table, owners, head, list, t) && 1 <= slot <= |table| <= MAX_SLOTS
    requires owners[slot - 1] != Freed(t) && offset < OFFSET_LIMIT
    ensures head < TAG_LIMIT
    ensures ListOk(table[slot - 1 := Pack(SlotEntry(offset, head))], owners[slot - 1 := Freed(t)],
                   slot, [slot] + list, t)
  {
    var table' := table[slot - 1 := Pack(SlotEntry(offset, head))];
    PackRoundTrip(SlotEntry(offset, head));
    ChainFrame(table, table', head, list, slot);
    assert ([slot] + list)[1..] == list;
  }

  lemma PopList(table: seq<nat>, owners: seq<Owner>, head: nat, list: seq<nat>, t: NodeType, u: NodeType, raw: nat)
    requires |table| == |owners| && ListOk(table, owners, head, list, t) && head != 0
    ensures list != [] && head == list[0] && 1 <= head <= |table| && owners[head - 1] == Freed(t)
    ensures ListOk(table[head - 1 := raw], owners[head - 1 := Live(u)], TagAt(table, head), list[1..], t)
  {
    var rest := list[1..];
    assert list[0] in list;
    assert head !in rest;
    ChainFrame(table, table[head - 1 := raw], TagAt(table, head), rest, head);
    var owners' := owners[head - 1 := Live(u)];
    forall s ensures s in rest <==> 1 <= s <= |owners'| && owners'[s - 1] == Freed(t) {
      if s != head { assert s in rest <==> s in list; }
    }
  }

  /** A new slot is on no list. */
  lemma GrowList(table: seq<nat>, owners: seq<Owner>, head: nat, list: seq<nat>, t: NodeType, raw: nat, u: NodeType)
    requires |table| == |owners| && ListOk(table, owners, head, list, t)
    ensures ListOk(table + [raw], owners + [Live(u)], head, list, t)
  {
    ChainFrame(table, table + [raw], head, list, 0);
  }

  ghost predicate ListsOk(table: seq<nat>, owners: seq<Owner>, heads: seq<nat>, free: seq<seq<nat>>) {
    && |heads| == 8 && |free| == 8
    && forall i :: 0 <= i < 8 ==> ListOk(table, owners, heads[i], free[i], i + 1)
  }

  lemma ListsGrow(table: seq<nat>, owners: seq<Owner>, heads: seq<nat>, free: seq<seq<nat>>, raw: nat, t: NodeType)
    requires |table| == |owners| && ListsOk(table, owners, heads, free)
    ensures ListsOk(table + [raw], owners + [Live(t)], heads, free)
  {
    hide ListOk;
    forall i | 0 <= i < 8 ensures ListOk(table + [raw], owners + [Live(t)], heads[i], free[i], i + 1) {
      GrowList(table, owners, heads[i], free[i], i + 1, raw, t);
    }
  }

  lemma ListsPop(table: seq<nat>, owners: seq<Owner>, heads: seq<nat>, free: seq<seq<nat>>, u: NodeType, t: NodeType,
                 raw: nat)
    requires |table| == |owners| && ListsOk(table, owners, heads, free) && u != INVALID && heads[u - 1] != 0
    ensures var slot := heads[u - 1];
            && free[u - 1] != [] && 1 <= slot <= |table| && owners[slot - 1] == Freed(u)
            && ListsOk(table[slot - 1 := raw], owners[slot - 1 := Live(t)], heads[u - 1 := TagAt(table, slot)],
                       free[u - 1 := free[u - 1][1..]])
  {
    hide ListOk;
    var slot := heads[u - 1];
    assert ListOk(table, owners, heads[u - 1], free[u - 1], u);
    PopList(table, owners, slot, free[u - 1], u, t, raw);
    forall i | 0 <= i < 8 && i != u - 1
      ensures ListOk(table[slot - 1 := raw], owners[slot - 1 := Live(t)], heads[i], free[i], i + 1)
    {
      OtherList(table, owners, heads[i], free[i], i + 1, slot, raw, Live(t));
    }
  }

  lemma ListsPush(table: seq<nat>, owners: seq<Owner>, heads: seq<nat>, free: seq<seq<nat>>, t: NodeType, slot: nat,
                  offset: nat)
    requires |table| == |owners| && ListsOk(table, owners, heads, free) && t != INVALID
    requires 1 <= slot <= |table| <= MAX_SLOTS && owners[slot - 1].Live? && offset < OFFSET_LIMIT
    ensures heads[t - 1] < TAG_LIMIT
    ensures ListsOk(table[slot - 1 := Pack(SlotEntry(offset, heads[t - 1]))], owners[slot - 1 := Freed(t)],
                    heads[t - 1 := slot], free[t - 1 := [slot] + free[t - 1]])
  {
    hide ListOk;
    assert ListOk(table, owners, heads[t - 1], free[t - 1], t);
    PushList(table, owners, heads[t - 1], free[t - 1], t, slot, offset);
    var raw := Pack(SlotEntry(offset, heads[t - 1]));
    forall i | 0 <= i < 8 && i != t - 1
      ensures ListOk(table[slot - 1 := raw], owners[slot - 1 := Freed(t)], heads[i], free[i], i + 1)
    {
      OtherList(table, owners, heads[i], free[i], i + 1, slot, raw, Freed(t));
    }
  }

  /** The low byte of the slot's tag names a node type. */
  predicate Freeable(table: seq<nat>, slot: nat) {
    1 <= slot <= |table| && 1 <= TagAt(table, slot) % 256 <= 8
  }

  /** No assignment of slots to owners and lists fits the free-list heads. */
  ghost predicate Broken(table: seq<nat>, heads: seq<nat>) {
    forall owners, free :: !ListsOk(table, owners, heads, free)
  }

  lemma BrokenNow(table: seq<nat>, owners: seq<Owner>, heads: seq<nat>, free: seq<seq<nat>>)
    requires Broken(table, heads)
    ensures !ListsOk(table, owners, heads, free)
  {
  }

  /** Rewriting an entry does not take it off a list: whatever chain starts at the head runs into it. */
  lemma {:induction false} ChainReaches(table: seq<nat>, table': seq<nat>, head: nat, list: seq<nat>, list': seq<nat>,
                                        slot: nat)
    requires Chain(table, head, list) && Chain(table', head, list') && slot in list && |table| == |table'|
    requires forall i :: 0 <= i < |table| && i != slot - 1 ==> table'[i] == table[i]
    ensures slot in list'
    decreases |list|
  {
    if head != slot { ChainReaches(table, table', TagAt(table, head), list[1..], list'[1..], slot); }
  }

  /** A slot pushed while it is on a list puts it on two lists, or makes one of them a cycle. */
  lemma PushTwice(table: seq<nat>, owners: seq<Owner>, heads: seq<nat>, free: seq<seq<nat>>, slot: nat, u: NodeType)
    requires |table| == |owners| && ListsOk(table, owners, heads, free) && 1 <= slot <= |table| <= MAX_SLOTS
    requires owners[slot - 1].Freed? && owners[slot - 1].t != INVALID && u != INVALID
    requires Unpack(table[slot - 1]).offsetDiv8 < OFFSET_LIMIT
    ensures Broken(table[slot - 1 := Pack(SlotEntry(Unpack(table[slot - 1]).offsetDiv8, heads[u - 1]))],
                   heads[u - 1 := slot])
  {
    var t, e := owners[slot - 1].t, SlotEntry(Unpack(table[slot - 1]).offsetDiv8, heads[u - 1]);
    assert ListOk(table, owners, heads[t - 1], free[t - 1], t) && ListOk(table, owners, heads[u - 1], free[u - 1], u);
    HeadFits(table, owners, heads[u - 1], free[u - 1], u);
    PackRoundTrip(e);
    var table', heads' := table[slot - 1 := Pack(e)], heads[u - 1 := slot];
    forall owners': seq<Owner>, free': seq<seq<nat>> ensures !ListsOk(table', owners', heads', free') {
      if |free'| == 8 && Chain(table', heads'[t - 1], free'[t - 1]) && Chain(table', slot, free'[u - 1]) {
        if u == t {
          ChainReaches(table, table', heads[t - 1], free[t - 1], free'[t - 1][1..], slot);
          Twice(free'[t - 1], slot);
        } else {
          ChainReaches(table, table', heads[t - 1], free[t - 1], free'[t - 1], slot);
        }
        assert slot in free'[t - 1] && slot in free'[u - 1];
        assert || !ListOk(table', owners', heads'[t - 1], free'[t - 1], t)
               || !ListOk(table', owners', slot, free'[u - 1], u);
      }
      ListsAt(table', owners', heads', free', t);
      ListsAt(table', owners', heads', free', u);
    }
  }

  lemma ListsAt(table: seq<nat>, owners: seq<Owner>, heads: seq<nat>, free: seq<seq<nat>>, t: NodeType)
    requires |heads| == 8 && t != INVALID
    ensures ListsOk(table, owners, heads, free) ==> |free| == 8 && ListOk(table, owners, heads[t - 1], free[t - 1], t)
  {
  }

  lemma Twice(list: seq<nat>, slot: nat)
    requires list != [] && list[0] == slot && slot in list[1..]
    ensures !NoDup(list)
  {
    var k :| 0 <= k < |list[1..]| && list[1..][k] == slot;
    assert list[k + 1] == list[0];
  }

  lemma HeadFits(table: seq<nat>, owners: seq<Owner>, head: nat, list: seq<nat>, t: NodeType)
    requires ListOk(table, owners, head, list, t) && |table| <= MAX_SLOTS
    ensures head < TAG_LIMIT
  {
  }

  // ---------- blob count ----------

  function Blobs(owners: seq<Owner>): nat {
    if owners == [] then 0 else Blobs(owners[..|owners| - 1]) + if owners[|owners| - 1] == Live(BLOB) then 1 else 0
  }

  lemma {:induction false} BlobsUpdate(owners: seq<Owner>, i: nat, owner: Owner)
    requires i < |owners|
    ensures Blobs(owners[i := owner]) ==
      Blobs(owners) - (if owners[i] == Live(BLOB) then 1 else 0) + (if owner == Live(BLOB) then 1 else 0)
    decreases |owners|
  {
    var n := |owners| - 1;
    if i < n {
      assert owners[i := owner][..n] == owners[..n][i := owner];
      BlobsUpdate(owners[..n], i, owner);
    } else {
      assert owners[i := owner][..n] == owners[..n];
    }
  }

  /** Live slots carry their type in the tag. */
  ghost predicate TagsOk(table: seq<nat>, owners: seq<Owner>) {
    |table| == |owners| && forall i :: 0 <= i < |table| && owners[i].Live? ==> Unpack(table[i]).tag == owners[i].t
  }

  lemma TagsRetag(table: seq<nat>, owners: seq<Owner>, slot: nat, offset: nat, tag: nat, owner: Owner)
    requires TagsOk(table, owners) && 1 <= slot <= |table| && offset < OFFSET_LIMIT && tag < TAG_LIMIT
    requires owner.Live? ==> tag == owner.t
    ensures TagsOk(table[slot - 1 := Pack(SlotEntry(offset, tag))], owners[slot - 1 := owner])
  {
    PackRoundTrip(SlotEntry(offset, tag));
  }

  lemma TagsNew(table: seq<nat>, owners: seq<Owner>, offset: nat, t: NodeType)
    requires TagsOk(table, owners) && offset < OFFSET_LIMIT
    ensures TagsOk(table + [Pack(SlotEntry(offset, t))], owners + [Live(t)])
  {
    PackRoundTrip(SlotEntry(offset, t));
  }

  lemma BlobsNew(owners: seq<Owner>, owner: Owner)
    ensures Blobs(owners + [owner]) == Blobs(owners) + if owner == Live(BLOB) then 1 else 0
  {
    assert (owners + [owner])[..|owners|] == owners;
  }

  lemma TiledMore(regions: seq<Region>, end: nat, r: Region)
    requires Tiled(regions, end) && r.offset == end && r.size % 8 == 0
    ensures Tiled(regions + [r], end + r.size)
  {
    assert (regions + [r])[..|regions|] == regions;
  }

  /** An entry's offset is that of its region, inside the page and 8-aligned. */
  lemma SlotOffset(table: seq<nat>, owners: seq<Owner>, regions: seq<Region>, place: seq<nat>, end: nat, slot: nat)
    requires Placed(table, owners, regions, place) && Tiled(regions, end) && end <= PAGE_SIZE && 1 <= slot <= |table|
    ensures OffsetAt(table, slot) / 8 == Unpack(table[slot - 1]).offsetDiv8 < OFFSET_LIMIT
    ensures DATA_AREA_START <= OffsetAt(table, slot) && OffsetAt(table, slot) % 8 == 0
  {
    assert PlacedAt(table, owners, regions, place, slot);
    TiledAt(regions, end, place[slot - 1]);
  }

  /** Bodies of different slots do not overlap. */
  lemma BodiesDisjoint(table: seq<nat>, owners: seq<Owner>, regions: seq<Region>, place: seq<nat>, end: nat, a: nat,
                       b: nat)
    requires Placed(table, owners, regions, place) && Tiled(regions, end)
    requires 1 <= a <= |table| && 1 <= b <= |table| && a != b
    requires owners[a - 1].t != INVALID && owners[b - 1].t != INVALID
    ensures OffsetAt(table, a) + SizeOf(owners[a - 1].t) <= OffsetAt(table, b)
         || OffsetAt(table, b) + SizeOf(owners[b - 1].t) <= OffsetAt(table, a)
  {
    assert PlacedAt(table, owners, regions, place, a) && PlacedAt(table, owners, regions, place, b);
    var i, j := place[a - 1], place[b - 1];
    if i < j { TiledDisjoint(regions, end, i, j); }
    if j < i { TiledDisjoint(regions, end, j, i); }
  }

  // ---------- frame ----------

  function Align8(size: nat): nat { ((size + 7) % 0x1_0000_0000) / 8 * 8 }

  /** How much is wanted and how much is left, the reserved tail of 128 bytes not counted unless it may be used. */
  function NoRoom(used: nat, need: nat, tail: bool): AllocError
    requires used <= 524288
  {
    OutOfSpace(need, if tail then 524288 - used else if used > 524160 then 0 else 524160 - used)
  }

  class Frame {
    var slots: seq<nat>
    var spaceUsed: nat
    var numExtBlobs: nat
    var freeHead: seq<nat>
    var rootSlot: nat

    ghost var owners: seq<Owner>
    ghost var free: seq<seq<nat>>
    ghost var regions: seq<Region>
    ghost var place: seq<nat>
    ghost var dipped: bool   // a Blob body has used the reserved tail

    ghost predicate Valid()
      reads this
    {
      && Tiled(regions, spaceUsed) && spaceUsed <= PAGE_SIZE && |slots| <= MAX_SLOTS
      && |owners| == |slots| == |place| && |freeHead| == |free| == 8
      && Placed(slots, owners, regions, place) && TagsOk(slots, owners)
      && ListsOk(slots, owners, freeHead, free)
      && numExtBlobs == Blobs(owners)
      && (!dipped ==> spaceUsed <= PAGE_SIZE - SPILLOVER_RESERVATION)
    }

    /** A zeroed page: header, empty table, and the empty-tree sentinel in slot 1. */
    constructor ()
      ensures Valid() && slots == [Pack(SlotEntry(DATA_AREA_START / 8, EMPTY_ROOT))] && rootSlot == 1
      ensures owners == [Live(8)] && spaceUsed == 45064 && numExtBlobs == 0 && !dipped
    {
      slots, spaceUsed, numExtBlobs, freeHead, rootSlot := [], DATA_AREA_START, 0, [0, 0, 0, 0, 0, 0, 0, 0], 0;
      owners, free, regions, place, dipped := [], [[], [], [], [], [], [], [], []], [], [], false;
      new;
      NothingFree();
      var r := Bump(EMPTY_ROOT);
      rootSlot := r.slot;
    }

    /** Everything but one slot is as it was. */
    twostate predicate OnlySlot(slot: nat)
      reads this
    {
      && old(regions) <= regions && |old(owners)| <= |owners|
      && forall i :: 0 <= i < |old(owners)| && i != slot - 1 ==> owners[i] == old(owners)[i]
    }

    predicate BumpFits(t: NodeType)
      requires t != INVALID
      reads this
    {
      |slots| < MAX_SLOTS && spaceUsed + SizeOf(t) + (if t == BLOB then 0 else SPILLOVER_RESERVATION) <= PAGE_SIZE
    }

    /** A new slot with a body at the bump cursor; all but Blob keep clear of the reserved tail. */
    method Bump(t: NodeType) returns (r: AllocResult)
      requires Valid() && t != INVALID
      modifies this
      ensures Valid() && freeHead == old(freeHead) && rootSlot == old(rootSlot)
      ensures r.Allocated? <==>
        |old(slots)| < 10240 && old(spaceUsed) + SizeOf(t) + (if t == 3 then 0 else 128) <= 524288
      ensures r.Allocated? ==> r.slot == |old(slots)| + 1 && owners == old(owners) + [Live(t)] && OnlySlot(r.slot)
      ensures r.Allocated? ==>
        spaceUsed == old(spaceUsed) + SizeOf(t) && slots == old(slots) + [Pack(SlotEntry(old(spaceUsed) / 8, t))]
      ensures r.Allocated? ==> (dipped <==> old(dipped) || spaceUsed > PAGE_SIZE - SPILLOVER_RESERVATION)
      ensures r.AllocFailed? ==> Same()
      ensures r.AllocFailed? ==>
        r.error == if |slots| >= 10240 then OutOfSlots else NoRoom(spaceUsed, SizeOf(t), t == 3)
    {
      hide Placed, ListsOk, Tiled, TagsOk, Blobs;
      if |slots| >= MAX_SLOTS { return AllocFailed(OutOfSlots); }
      var raw := PAGE_SIZE - spaceUsed;
      var avail := if t == BLOB then raw else if raw < SPILLOVER_RESERVATION then 0 else raw - SPILLOVER_RESERVATION;
      if avail < SizeOf(t) { return AllocFailed(OutOfSpace(SizeOf(t), avail)); }
      var offset := spaceUsed;
      TiledEnd(regions, spaceUsed);
      PlacedNew(slots, owners, regions, place, t, offset);
      TagsNew(slots, owners, offset / 8, t);
      ListsGrow(slots, owners, freeHead, free, Pack(SlotEntry(offset / 8, t)), t);
      BlobsNew(owners, Live(t));
      TiledMore(regions, spaceUsed, Region(offset, SizeOf(t), |slots| + 1));
      place, regions := place + [|regions|], regions + [Region(offset, SizeOf(t), |slots| + 1)];
      slots, owners := slots + [Pack(SlotEntry(offset / 8, t))], owners + [Live(t)];
      spaceUsed := spaceUsed + SizeOf(t);
      if t == BLOB { numExtBlobs := numExtBlobs + 1; }
      dipped := dipped || spaceUsed > PAGE_SIZE - SPILLOVER_RESERVATION;
      r := Allocated(|slots|);
    }

    twostate predicate Same()
      reads this
    {
      && slots == old(slots) && spaceUsed == old(spaceUsed) && numExtBlobs == old(numExtBlobs)
      && freeHead == old(freeHead)
      && owners == old(owners) && regions == old(regions) && dipped == old(dipped) && rootSlot == old(rootSlot)
    }

    /** Reuses the first slot freed with type `u` for a node of type `t` of the same size. */
    method TakeFree(u: NodeType, t: NodeType) returns (slot: nat)
      requires Valid() && u != INVALID && t != INVALID && SizeOf(u) == SizeOf(t) && freeHead[u - 1] != 0
      modifies this
      ensures Valid() && slot == old(freeHead)[u - 1] && 1 <= slot <= |old(slots)| && old(owners)[slot - 1] == Freed(u)
      ensures owners == old(owners)[slot - 1 := Live(t)] && regions == old(regions) && OnlySlot(slot)
      ensures var e := Unpack(old(slots)[slot - 1]);
              && slots == old(slots)[slot - 1 := Pack(SlotEntry(e.offsetDiv8, t))]
              && freeHead == old(freeHead)[u - 1 := e.tag]
      ensures spaceUsed == old(spaceUsed) && dipped == old(dipped) && rootSlot == old(rootSlot)
    {
      hide Placed, ListsOk, Tiled, TagsOk, Blobs;
      slot := freeHead[u - 1];
      ListsPop(slots, owners, freeHead, free, u, t, 0);
      var e := Unpack(slots[slot - 1]);
      SlotOffset(slots, owners, regions, place, spaceUsed, slot);
      var raw := Pack(SlotEntry(e.offsetDiv8, t));
      ListsPop(slots, owners, freeHead, free, u, t, raw);
      PlacedRetag(slots, owners, regions, place, slot, Live(t), t);
      TagsRetag(slots, owners, slot, e.offsetDiv8, t, Live(t));
      BlobsUpdate(owners, slot - 1, Live(t));
      freeHead, free := freeHead[u - 1 := e.tag], free[u - 1 := free[u - 1][1..]];
      slots, owners := slots[slot - 1 := raw], owners[slot - 1 := Live(t)];
      if t == BLOB { numExtBlobs := numExtBlobs + 1; }
    }

    /** The same-type list, then the other list of 128-byte bodies, then the bump cursor. */
    method AllocNode(t: NodeType) returns (r: AllocResult)
      requires Valid()
      modifies this
      ensures Valid()
      ensures t == INVALID ==> r == AllocFailed(InvalidRequest)
      ensures r.Allocated? ==> 1 <= r.slot <= |owners| && owners[r.slot - 1] == Live(t) && OnlySlot(r.slot)
      ensures r.Allocated? ==> r.slot > |old(owners)| || old(owners)[r.slot - 1].Freed?
      ensures r.AllocFailed? ==> Same()
      ensures t != INVALID ==> (r.Allocated? <==>
        || old(freeHead)[t - 1] != 0 || old(BumpFits(t))
        || (t == BLOB && old(freeHead)[PREFIX - 1] != 0) || (t == PREFIX && old(freeHead)[BLOB - 1] != 0))
      ensures t == BLOB && |old(slots)| < MAX_SLOTS && !old(dipped) ==> r.Allocated?
      ensures t != INVALID && r.Allocated? ==>
        r.slot == if old(freeHead)[t - 1] != 0 then old(freeHead)[t - 1]
                  else if t == 3 && old(freeHead)[1] != 0 then old(freeHead)[1]
                  else if t == 2 && old(freeHead)[2] != 0 then old(freeHead)[2]
                  else |old(slots)| + 1
    {
      hide Placed, ListsOk, Tiled, TagsOk, Blobs;
      if t == INVALID { return AllocFailed(InvalidRequest); }
      if freeHead[t - 1] != 0 {
        var slot := TakeFree(t, t);
        return Allocated(slot);
      }
      if t == BLOB || t == PREFIX {
        var sibling := if t == BLOB then PREFIX else BLOB;
        if freeHead[sibling - 1] != 0 {
          var slot := TakeFree(sibling, t);
          return Allocated(slot);
        }
      }
      r := Bump(t);
    }

    /** Pushes a slot onto the list of the type that the low byte of its tag names; a slot outside the
        table, or whose tag names no type, is refused. A slot that is free already passes when its
        next-free index happens to look like a type, and that breaks the lists for good. */
    method FreeNode(slot: nat) returns (ok: bool)
      requires Valid()
      modifies this
      ensures ok <==> old(Freeable(slots, slot))
      ensures Valid() <==> !(ok && old(owners)[slot - 1].Freed?)
      ensures ok && old(owners)[slot - 1].Freed? ==> Broken(slots, freeHead)
      ensures ok ==> var t, e := old(TagAt(slots, slot)) % 256, Unpack(old(slots)[slot - 1]);
                     && slots == old(slots)[slot - 1 := Pack(SlotEntry(e.offsetDiv8, old(freeHead)[t - 1]))]
                     && freeHead == old(freeHead)[t - 1 := slot]
      ensures ok && old(owners)[slot - 1].Live? ==>
        && old(TagAt(slots, slot)) == old(owners)[slot - 1].t
        && owners == old(owners)[slot - 1 := Freed(old(owners)[slot - 1].t)]
      ensures !ok ==> Same()
      ensures spaceUsed == old(spaceUsed) && dipped == old(dipped) && rootSlot == old(rootSlot)
      ensures regions == old(regions)
    {
      hide Placed, ListsOk, Tiled, Blobs, Chain, Broken, TagsOk;
      if slot < 1 || slot > |slots| { return false; }
      var e := Unpack(slots[slot - 1]);
      if e.tag % 256 == 0 || e.tag % 256 > 8 { return false; }
      var t: NodeType := e.tag % 256;
      var head := freeHead[t - 1];
      PlacedType(slots, owners, regions, place, slot);
      SlotOffset(slots, owners, regions, place, spaceUsed, slot);
      var raw := Pack(SlotEntry(e.offsetDiv8, head));
      if owners[slot - 1].Live? {
        TagIsType(slots, owners, slot);
        ListsPush(slots, owners, freeHead, free, t, slot, e.offsetDiv8);
        PlacedRetag(slots, owners, regions, place, slot, Freed(t), head);
        TagsRetag(slots, owners, slot, e.offsetDiv8, head, Freed(t));
        BlobsUpdate(owners, slot - 1, Freed(t));
        free, owners := free[t - 1 := [slot] + free[t - 1]], owners[slot - 1 := Freed(t)];
      } else {
        PushTwice(slots, owners, freeHead, free, slot, t);
        BrokenNow(slots[slot - 1 := raw], owners, freeHead[t - 1 := slot], free);
      }
      freeHead := freeHead[t - 1 := slot];
      slots := slots[slot - 1 := raw];
      if t == BLOB && numExtBlobs > 0 { numExtBlobs := numExtBlobs - 1; }
      ok := true;
    }

    /** Raw bytes at the bump cursor, rounded up to 8 in 32-bit arithmetic. */
    method AllocExtent(size: nat) returns (r: ExtentResult)
      requires Valid() && size < 0x1_0000_0000
      modifies this
      ensures Valid() && slots == old(slots) && owners == old(owners) && freeHead == old(freeHead)
      ensures numExtBlobs == old(numExtBlobs)
      ensures size == 0 ==> r == ExtentFailed(InvalidRequest)
      ensures r.Extent? <==>
        size != 0 && (Align8(size) == 0 || old(spaceUsed) + Align8(size) + 128 <= 524288)
      ensures r.Extent? ==> r.offset == old(spaceUsed) && spaceUsed == old(spaceUsed) + Align8(size)
      ensures r.Extent? ==> regions == old(regions) + [Region(r.offset, Align8(size), 0)]
      ensures r.ExtentFailed? ==> Same()
      ensures r.ExtentFailed? && size != 0 ==> r.error == NoRoom(spaceUsed, Align8(size), false)
      ensures r.Extent? ==> (r.offset + size <= spaceUsed <==> size <= 0xFFFF_FFF8)
      ensures dipped == old(dipped)
    {
      hide Placed, ListsOk, Tiled, TagsOk, Blobs;
      if size == 0 { return ExtentFailed(InvalidRequest); }
      var aligned := Align8(size);
      var raw := PAGE_SIZE - spaceUsed;
      var avail := if raw < SPILLOVER_RESERVATION then 0 else raw - SPILLOVER_RESERVATION;
      if avail < aligned { return ExtentFailed(OutOfSpace(aligned, avail)); }
      var offset := spaceUsed;
      TiledMore(regions, spaceUsed, Region(offset, aligned, 0));
      PlacedMore(slots, owners, regions, place, Region(offset, aligned, 0));
      regions := regions + [Region(offset, aligned, 0)];
      spaceUsed := spaceUsed + aligned;
      r := Extent(offset);
    }
  }

  /** A slot freed twice, after another of its type: the second time it is taken for a node. */
  method DoubleFreeBreaks() returns (f: Frame)
    ensures fresh(f) && Broken(f.slots, f.freeHead)
  {
    hide Placed, ListsOk, Tiled, Blobs, TagsOk, Broken;
    f := new Frame();
    var a := f.Bump(LEAF);
    var b := f.Bump(LEAF);
    var ok := f.FreeNode(2);
    ok := f.FreeNode(3);
    ok := f.FreeNode(3);
  }

  /** Two requests just below 2^32 bytes are granted the same place. */
  method WrappedExtents(f: Frame) returns (a: ExtentResult, b: ExtentResult)
    requires f.Valid()
    modifies f
    ensures a == b == Extent(old(f.spaceUsed))
  {
    assert Align8(0xFFFF_FFF9) == 0;
    a := f.AllocExtent(0xFFFF_FFF9);
    b := f.AllocExtent(0xFFFF_FFF9);
  }

  lemma TagIsType(table: seq<nat>, owners: seq<Owner>, slot: nat)
    requires TagsOk(table, owners) && 1 <= slot <= |table| && owners[slot - 1].Live?
    ensures TagAt(table, slot) == owners[slot - 1].t
  {
  }

  lemma NothingFree()
    ensures ListsOk([], [], [0, 0, 0, 0, 0, 0, 0, 0], [[], [], [], [], [], [], [], []])
  {
  }

  lemma PlacedType(table: seq<nat>, owners: seq<Owner>, regions: seq<Region>, place: seq<nat>, slot: nat)
    requires Placed(table, owners, regions, place) && 1 <= slot <= |table|
    ensures owners[slot - 1].t != INVALID
  {
    assert PlacedAt(table, owners, regions, place, slot);
  }
}
