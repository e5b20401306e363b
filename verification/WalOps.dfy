/** Logical WAL operations, and the items in which a batch record carries them. */
module WalOps {
  import opened Bytes

  const RECORD_HEADER_SIZE: nat := 17
  const RECORD_FOOTER_SIZE: nat := 4

  datatype WalOp =
    | Insert(tree: nat, key: Bytes, value: Bytes)
    | Erase(tree: nat, key: Bytes)
    | RenameObject(tree: nat, src: Bytes, dst: Bytes, force: bool)

  /** One pushed item of a batch: a primitive operation, or a run of inserts whose keys and
      values each have one length. */
  datatype Item =
    | One(op: WalOp)
    | Run(tree: nat, keyLen: nat, valueLen: nat, pairs: seq<(Bytes, Bytes)>)

  function RunOps(tree: nat, pairs: seq<(Bytes, Bytes)>): (ops: seq<WalOp>)
    ensures |ops| == |pairs|
    ensures forall i :: 0 <= i < |pairs| ==> ops[i] == Insert(tree, pairs[i].0, pairs[i].1)
  {
    if pairs == [] then [] else [Insert(tree, pairs[0].0, pairs[0].1)] + RunOps(tree, pairs[1..])
  }

  function ItemOps(item: Item): seq<WalOp> {
    match item
    case One(op) => [op]
    case Run(tree, _, _, pairs) => RunOps(tree, pairs)
  }

  /** The primitive operations a list of items stands for. */
  function Flat(items: seq<Item>): seq<WalOp> {
    if items == [] then [] else ItemOps(items[0]) + Flat(items[1..])
  }

  lemma {:induction false} FlatConcat(xs: seq<Item>, ys: seq<Item>)
    ensures Flat(xs + ys) == Flat(xs) + Flat(ys)
    decreases |xs|
  {
    if xs == [] {
      assert xs + ys == ys;
    } else {
      assert (xs + ys)[1..] == xs[1..] + ys;
      FlatConcat(xs[1..], ys);
    }
  }
}
