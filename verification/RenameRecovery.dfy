/**
 Crash recovery of a rename record. The record names both keys but carries no
 value, so its replay reads the surviving blob images. A crash may leave the
 image of each blob before or after the rename.
 */
module RenameRecovery {
  import opened RedoLog

  /** The cells of the two keys when the record was written. */
  predicate Renames(m: Image, src: Key, dst: Key, force: bool, seqno: nat) {
    && src in m && src != dst
    && (force || dst !in m)
    && (forall k :: k in m ==> m[k].version < seqno)
  }

  function Renamed(m: Image, src: Key, dst: Key, seqno: nat): Image
    requires src in m
  {
    (m - {src})[dst := Cell(m[src].value, seqno)]
  }

  /** Blobs in `landed` survive with the rename, the others without it. */
  function Survivor(m: Image, m': Image, landed: set<Guid>): Image {
    map k | k in m.Keys + m'.Keys && (if k.blob in landed then k in m' else k in m) ::
      if k.blob in landed then m'[k] else m[k]
  }

  /** Replay of the record: skipped when the source is missing, or when the destination is
      there and the rename is not forced. */
  function ReplayRename(m: Image, src: Key, dst: Key, force: bool, seqno: nat): Image {
    if src !in m then m
    else if !force && dst in m then m
    else Renamed(m, src, dst, seqno)
  }

  /** The record recovers exactly when both blobs survive on the same side of it, or the
      destination survived with it and the rename was forced. */
  lemma RenameRecoversIff(m: Image, src: Key, dst: Key, force: bool, seqno: nat, landed: set<Guid>)
    requires Renames(m, src, dst, force, seqno)
    ensures var after := Renamed(m, src, dst, seqno);
            ReplayRename(Survivor(m, after, landed), src, dst, force, seqno) == after
            <==> ((src.blob in landed) == (dst.blob in landed) || (force && dst.blob in landed))
    ensures var after := Renamed(m, src, dst, seqno);
            && src !in after && dst in after && after[dst].value == m[src].value && after[dst].version == seqno
            && forall k :: k != src && k != dst ==> At(after, k) == At(m, k)
  {
    var after := Renamed(m, src, dst, seqno);
    var image := Survivor(m, after, landed);
    var replayed := ReplayRename(image, src, dst, force, seqno);
    forall k | k != src && k != dst ensures At(image, k) == At(m, k) == At(after, k) {}
    assert At(image, src) == if src.blob in landed then Absent else Present(m[src]);
    assert At(image, dst) == if dst.blob in landed then At(after, dst) else At(m, dst);
    if (src.blob in landed) == (dst.blob in landed) || (force && dst.blob in landed) {
      forall k ensures At(replayed, k) == At(after, k) {}
      SameImage(replayed, after);
    } else if src.blob in landed {
      assert At(replayed, dst) == At(m, dst) != At(after, dst);
    } else {
      assert At(replayed, src) != At(after, src);
    }
  }

  lemma SameImage(x: Image, y: Image)
    requires forall k :: At(x, k) == At(y, k)
    ensures x == y
  {
    forall k | k in x ensures k in y && x[k] == y[k] { assert At(x, k) == At(y, k); }
    forall k | k in y ensures k in x { assert At(x, k) == At(y, k); }
    assert x.Keys == y.Keys;
  }

  /** A crash after the source blob landed and before the destination blob did: the value is
      gone under both names. */
  lemma RenameCanLoseTheValue()
    ensures var src, dst := Key(0, 7), Key(1, 7);
            var m: Image := map[src := Cell(42, 1)];
            && Renames(m, src, dst, true, 2)
            && ReplayRename(Survivor(m, Renamed(m, src, dst, 2), {0}), src, dst, true, 2) == map[]
  {
    var src, dst := Key(0, 7), Key(1, 7);
    var m: Image := map[src := Cell(42, 1)];
    var image := Survivor(m, Renamed(m, src, dst, 2), {0});
    assert forall k :: k in image ==> k == src || k == dst;
    assert src !in image && dst !in image;
    SameImage(image, map[]);
  }
}
