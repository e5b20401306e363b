/**
 Logical redo of put and erase operations over per-blob images.

 A key carries the blob that owns it: this is the fixed partition of keys to
 blobs under which the durability protocol is studied. A record is the list of
 primitive operations that one WAL record carries (one for put and delete,
 several for an atomic batch).
 */
module RedoLog {
  type Guid = nat

  datatype Key = Key(blob: Guid, name: nat)

  /** A stored value with the sequence number that wrote it. */
  datatype Cell = Cell(value: nat, version: nat)

  type Image = map<Key, Cell>

  datatype Op =
    | Put(key: Key, value: nat, seqno: nat)
    | Erase(key: Key, seqno: nat)

  type Record = seq<Op>

  datatype Lookup = Absent | Present(cell: Cell)

  function At(img: Image, k: Key): Lookup {
    if k in img then Present(img[k]) else Absent
  }

  /** The effect of one operation on the image of blob `b`. */
  function ApplyOp(b: Guid, img: Image, op: Op): Image {
    if op.key.blob != b then img
    else match op
         case Put(k, v, s) => img[k := Cell(v, s)]
         case Erase(k, _) => img - {k}
  }

  /** Redo `ops` in order over the image of blob `b`. */
  function Redo(b: Guid, ops: seq<Op>, img: Image): Image {
    if ops == [] then img
    else ApplyOp(b, Redo(b, ops[..|ops| - 1], img), ops[|ops| - 1])
  }

  /** All operations of a log, in order. */
  function Flat(log: seq<Record>): seq<Op> {
    if log == [] then [] else Flat(log[..|log| - 1]) + log[|log| - 1]
  }

  /** The image of blob `b` after the first `n` records of `log`. */
  function ImageAt(b: Guid, log: seq<Record>, n: nat): Image
    requires n <= |log|
  {
    Redo(b, Flat(log[..n]), map[])
  }

  predicate Touches(ops: seq<Op>, k: Key) {
    exists i :: 0 <= i < |ops| && ops[i].key == k
  }

  lemma {:induction false} RedoConcat(b: Guid, xs: seq<Op>, ys: seq<Op>, img: Image)
    ensures Redo(b, xs + ys, img) == Redo(b, ys, Redo(b, xs, img))
    decreases |ys|
  {
    if ys == [] {
      assert xs + ys == xs;
    } else {
      var n := |ys| - 1;
      assert (xs + ys)[..|xs| + n] == xs + ys[..n];
      RedoConcat(b, xs, ys[..n], img);
    }
  }

  lemma {:induction false} FlatConcat(xs: seq<Record>, ys: seq<Record>)
    ensures Flat(xs + ys) == Flat(xs) + Flat(ys)
    decreases |ys|
  {
    if ys == [] {
      assert xs + ys == xs;
    } else {
      var n := |ys| - 1;
      assert (xs + ys)[..|xs| + n] == xs + ys[..n];
      FlatConcat(xs, ys[..n]);
    }
  }

  /** Operations on other keys do not disturb a key. */
  lemma {:induction false} RedoUntouched(b: Guid, ops: seq<Op>, img: Image, k: Key)
    requires !Touches(ops, k)
    ensures At(Redo(b, ops, img), k) == At(img, k)
    decreases |ops|
  {
    if ops != [] {
      var n := |ops| - 1;
      assert ops[n].key != k;
      assert forall i :: 0 <= i < n ==> ops[..n][i] == ops[i];
      RedoUntouched(b, ops[..n], img, k);
    }
  }

  /** Two starting images that agree on a key keep agreeing; a touched key forgets the start. */
  lemma {:induction false} RedoAgrees(b: Guid, ops: seq<Op>, x: Image, y: Image, k: Key)
    requires k.blob == b
    requires Touches(ops, k) || At(x, k) == At(y, k)
    ensures At(Redo(b, ops, x), k) == At(Redo(b, ops, y), k)
    decreases |ops|
  {
    if ops != [] {
      var n := |ops| - 1;
      if ops[n].key != k {
        if Touches(ops, k) {
          var i :| 0 <= i < |ops| && ops[i].key == k;
          assert ops[..n][i].key == k;
        }
        RedoAgrees(b, ops[..n], x, y, k);
      }
    }
  }

  /** Images of blob `b` hold keys of blob `b` only. */
  predicate Owned(b: Guid, img: Image) {
    forall k :: k in img ==> k.blob == b
  }

  lemma {:induction false} RedoOwned(b: Guid, ops: seq<Op>, img: Image)
    requires Owned(b, img)
    ensures Owned(b, Redo(b, ops, img))
    decreases |ops|
  {
    if ops != [] { RedoOwned(b, ops[..|ops| - 1], img); }
  }

  lemma ImageAtOwned(b: Guid, log: seq<Record>, n: nat)
    requires n <= |log|
    ensures Owned(b, ImageAt(b, log, n))
  {
    RedoOwned(b, Flat(log[..n]), map[]);
  }

  lemma OwnedEqual(b: Guid, x: Image, y: Image)
    requires Owned(b, x) && Owned(b, y)
    requires forall k: Key :: k.blob == b ==> At(x, k) == At(y, k)
    ensures x == y
  {
    forall k | k in x ensures k in y && x[k] == y[k] { assert At(x, k) == At(y, k); }
    forall k | k in y ensures k in x { assert At(x, k) == At(y, k); }
    assert x.Keys == y.Keys;
  }

  /** Appending records leaves every earlier image where it was. */
  lemma ImageAtStable(b: Guid, log: seq<Record>, more: seq<Record>, n: nat)
    requires n <= |log|
    ensures ImageAt(b, log + more, n) == ImageAt(b, log, n)
  {
    assert (log + more)[..n] == log[..n];
  }

  lemma ImageAtSplit(b: Guid, log: seq<Record>, m: nat, n: nat)
    requires m <= n <= |log|
    ensures ImageAt(b, log, n) == Redo(b, Flat(log[m..n]), ImageAt(b, log, m))
  {
    assert log[..n] == log[..m] + log[m..n];
    FlatConcat(log[..m], log[m..n]);
    RedoConcat(b, Flat(log[..m]), Flat(log[m..n]), map[]);
  }

  /** Redo is idempotent over a later image: replaying the records `base..s` on top of an
      image that already holds the first `n` records (`base <= n <= s`) gives exactly the
      image after `s` records. */
  lemma ReplayAbsorbs(b: Guid, log: seq<Record>, base: nat, n: nat, s: nat)
    requires base <= n <= s <= |log|
    ensures Redo(b, Flat(log[base..s]), ImageAt(b, log, n)) == ImageAt(b, log, s)
  {
    var early, late := Flat(log[base..n]), Flat(log[n..s]);
    var start, mid := ImageAt(b, log, base), ImageAt(b, log, n);
    assert log[base..s] == log[base..n] + log[n..s];
    FlatConcat(log[base..n], log[n..s]);
    RedoConcat(b, early, late, mid);
    ImageAtSplit(b, log, base, n);
    ImageAtSplit(b, log, n, s);
    assert Redo(b, early, mid) == mid by {
      ImageAtOwned(b, log, n);
      RedoOwned(b, early, mid);
      forall k: Key | k.blob == b ensures At(Redo(b, early, mid), k) == At(mid, k) {
        if Touches(early, k) {
          RedoAgrees(b, early, mid, start, k);
        } else {
          RedoUntouched(b, early, mid, k);
        }
      }
      OwnedEqual(b, Redo(b, early, mid), mid);
    }
  }

  // ---------- what a key reads as ----------

  /** Operation `i` is the last one on `k`. */
  predicate LastIn(ops: Record, k: Key, i: nat) {
    i < |ops| && ops[i].key == k && forall j :: i < j < |ops| ==> ops[j].key != k
  }

  /** Operation `i` of record `r` is the last one on `k` among the first `n` records. */
  predicate LastOn(log: seq<Record>, n: nat, k: Key, r: nat, i: nat)
    requires n <= |log|
  {
    r < n && LastIn(log[r], k, i) && forall q :: r < q < n ==> !Touches(log[q], k)
  }

  predicate NeverOn(log: seq<Record>, n: nat, k: Key)
    requires n <= |log|
  {
    forall r :: 0 <= r < n ==> !Touches(log[r], k)
  }

  /** Value and number of a put, nothing after an erase. */
  predicate Shows(img: Image, op: Op) {
    match op
    case Put(k, value, seqno) => k in img && img[k].value == value && img[k].version == seqno
    case Erase(k, _) => k !in img
  }

  /** The key holds what the last operation on it wrote, and nothing if there was none. */
  ghost predicate ReadsAs(img: Image, log: seq<Record>, n: nat, k: Key)
    requires n <= |log|
  {
    && (forall r: nat, i: nat :: LastOn(log, n, k, r, i) ==> Shows(img, log[r][i]))
    && (NeverOn(log, n, k) ==> k !in img)
  }

  /** The effect of one record on one key. */
  ghost predicate Sets(before: Image, after: Image, ops: Record, k: Key) {
    && (forall i: nat :: LastIn(ops, k, i) ==> Shows(after, ops[i]))
    && (!Touches(ops, k) ==> At(after, k) == At(before, k))
  }

  lemma {:induction false} RedoSets(b: Guid, ops: Record, img: Image, k: Key)
    requires k.blob == b
    ensures Sets(img, Redo(b, ops, img), ops, k)
    decreases |ops|
  {
    if ops != [] {
      var n := |ops| - 1;
      var front := ops[..n];
      RedoSets(b, front, img, k);
      assert forall i :: 0 <= i < n ==> front[i] == ops[i];
      forall i: nat | LastIn(ops, k, i) ensures Shows(Redo(b, ops, img), ops[i]) {
        if i < n { assert LastIn(front, k, i); }
      }
      if !Touches(ops, k) { assert ops[n].key != k && !Touches(front, k); }
    }
  }

  /** The image after some records, key by key. */
  lemma {:induction false} ImageReads(b: Guid, log: seq<Record>, n: nat, k: Key)
    requires n <= |log| && k.blob == b
    ensures ReadsAs(ImageAt(b, log, n), log, n, k)
    decreases n
  {
    if n == 0 {
      assert log[..0] == [];
    } else {
      ImageReads(b, log, n - 1, k);
      ImageNext(b, log, n - 1);
      var before, after := ImageAt(b, log, n - 1), ImageAt(b, log, n);
      RedoSets(b, log[n - 1], before, k);
      ReadsNext(before, after, log, n - 1, k);
    }
  }

  lemma ImageNext(b: Guid, log: seq<Record>, n: nat)
    requires n < |log|
    ensures ImageAt(b, log, n + 1) == Redo(b, log[n], ImageAt(b, log, n))
  {
    assert log[..n + 1][..n] == log[..n];
    RedoConcat(b, Flat(log[..n]), log[n], map[]);
  }

  lemma ReadsNext(before: Image, after: Image, log: seq<Record>, n: nat, k: Key)
    requires n < |log| && ReadsAs(before, log, n, k) && Sets(before, after, log[n], k)
    ensures ReadsAs(after, log, n + 1, k)
  {
    hide Touches;
    forall r: nat, i: nat | LastOn(log, n + 1, k, r, i) ensures Shows(after, log[r][i]) {
      if r < n {
        assert LastOn(log, n, k, r, i) && !Touches(log[n], k);
        LastKey(log[r], k, i);
      }
    }
    if NeverOn(log, n + 1, k) { assert NeverOn(log, n, k) && !Touches(log[n], k); }
  }

  lemma LastKey(ops: Record, k: Key, i: nat)
    requires LastIn(ops, k, i)
    ensures i < |ops| && ops[i].key == k
  {
  }
}
