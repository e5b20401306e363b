/**
 What a batch means to its caller, without running it: which operation fails with
 what, and what each key holds after a commit.
 */
module BatchMeaning {
  import opened Bytes
  import opened AtomicBatch
  import opened BatchApply
  import opened BatchReplay

  // ---------- lengths ----------

  lemma TwoBytes(n: nat)
    ensures FromLe(Le(n, 2)) == n % 65536
  {
    var low, high := n % 256, n / 256;
    assert Le(n, 2) == [low] + Le(high, 1) && Le(high, 1) == [high % 256] + Le(high / 256, 0);
    assert Le(n, 2)[1..] == [high % 256];
    assert FromLe([high % 256]) == high % 256;
  }

  /** A put is refused for its shape exactly when a length does not survive its two-byte field. */
  lemma ShapeIff(key: Bytes, value: Bytes)
    ensures InsertShape(key, value).None? <==>
      FromLe(Le(|key| + 1, 2)) == |key| + 1 && FromLe(Le(|value|, 2)) == |value|
  {
    hide Le, FromLe;
    TwoBytes(|key| + 1);
    TwoBytes(|value|);
  }

  /** A key of at most 65534 bytes and a value of at most 65535 bytes fit; the key is looked at first. */
  predicate ShapeFault(key: Bytes, value: Bytes, fault: Fault) {
    || (|key| > 65534 && fault == KeyTooLong(|key| + 1))
    || (|key| <= 65534 && |value| > 65535 && fault == ValueTooLong(|value|))
  }

  // ---------- faults ----------

  predicate Fits(key: Bytes, value: Bytes) { |key| <= 65534 && |value| <= 65535 }

  /** The operation fails on this tree, with this fault. */
  predicate Faults(tree: Tree, op: BatchOp, fault: Fault) {
    match op
    case Put(k, v) => ShapeFault(k, v, fault)
    case PutIfAbsent(k, v) => ShapeFault(k, v, fault) || (Fits(k, v) && k in tree && fault == GuardFailed)
    case CompareAndPut(k, e, v) =>
      ShapeFault(k, v, fault) || (Fits(k, v) && (k !in tree || tree[k].version != e) && fault == GuardFailed)
    case Delete(_) => false
    case DeleteIfVersion(k, e) => (k !in tree || tree[k].version != e) && fault == GuardFailed
    case AssertVersion(k, e) => (k !in tree || tree[k].version != e) && fault == GuardFailed
    case AssertPrefixEmpty(p) => (exists k :: k in tree && p <= k) && fault == GuardFailed
    case Rename(src, dst, force) =>
      || (src !in tree && fault == NotFound)
      || (src in tree && src != dst && !force && dst in tree && fault == DstExists)
      || (src in tree && src != dst && (force || dst !in tree) && ShapeFault(dst, tree[src].value, fault))
  }

  lemma StepFaults(tree: Tree, op: BatchOp, seqno: nat)
    ensures forall f :: Step(tree, op, seqno) == Failed(f) <==> Faults(tree, op, f)
  {
  }

  /** Operation `i` is the first to fail. */
  ghost predicate FirstFault(tree: Tree, ops: seq<BatchOp>, base: nat, i: nat, fault: Fault) {
    i < |ops| && Run(tree, ops[..i], base).Done? && Faults(Run(tree, ops[..i], base).tree, ops[i], fault)
  }

  lemma {:induction false} RunFaults(tree: Tree, ops: seq<BatchOp>, base: nat)
    ensures forall i: nat, f :: FirstFault(tree, ops, base, i, f) ==> Run(tree, ops, base) == Failed(f)
    ensures Run(tree, ops, base).Failed? ==>
      exists i: nat :: FirstFault(tree, ops, base, i, Run(tree, ops, base).fault)
    decreases |ops|
  {
    hide Faults, Step, WalCount;
    forall i: nat, f | FirstFault(tree, ops, base, i, f) ensures Run(tree, ops, base) == Failed(f) {
      RunNext(tree, ops, base, i);
      StepFaults(Run(tree, ops[..i], base).tree, ops[i], base + WalCount(ops[..i]));
      RunFailsEarly(tree, ops, base, i + 1);
    }
    if ops != [] && Run(tree, ops, base).Failed? {
      var n := |ops| - 1;
      var front := ops[..n];
      var f := Run(tree, ops, base).fault;
      if Run(tree, front, base).Failed? {
        RunFaults(tree, front, base);
        var i: nat :| FirstFault(tree, front, base, i, f);
        assert front[..i] == ops[..i] && front[i] == ops[i];
        assert FirstFault(tree, ops, base, i, f);
      } else {
        StepFaults(Run(tree, front, base).tree, ops[n], base + WalCount(front));
        assert FirstFault(tree, ops, base, n, f);
      }
    }
  }

  lemma RunNext(tree: Tree, ops: seq<BatchOp>, base: nat, i: nat)
    requires i < |ops| && Run(tree, ops[..i], base).Done?
    ensures Run(tree, ops[..i + 1], base)
         == Step(Run(tree, ops[..i], base).tree, ops[i], base + WalCount(ops[..i]))
  {
    assert ops[..i + 1][..i] == ops[..i];
  }

  // ---------- contents ----------

  predicate NeverWrites(ops: seq<BatchOp>, k: Bytes) { forall i :: 0 <= i < |ops| ==> k !in Writes(ops[i]) }

  /** Operation `i` is the last to write the key. */
  predicate LastWriter(ops: seq<BatchOp>, k: Bytes, i: nat) {
    i < |ops| && k in Writes(ops[i]) && forall j :: i < j < |ops| ==> k !in Writes(ops[j])
  }

  /** What the operation leaves at the key, given the tree before it and its number. */
  predicate Leaves(before: Tree, after: Tree, op: BatchOp, seqno: nat, k: Bytes) {
    match op
    case Put(_, v) => k in after && after[k].value == v && after[k].version == seqno
    case PutIfAbsent(_, v) => k in after && after[k].value == v && after[k].version == seqno
    case CompareAndPut(_, _, v) => k in after && after[k].value == v && after[k].version == seqno
    case Delete(_) => k !in after
    case DeleteIfVersion(_, _) => k !in after
    case AssertVersion(_, _) => true
    case AssertPrefixEmpty(_) => true
    case Rename(src, dst, _) =>
      if k == dst then src in before && k in after && after[k].value == before[src].value && after[k].version == seqno
      else k !in after
  }

  predicate SameAt(before: Tree, after: Tree, k: Bytes) {
    (k in before <==> k in after) && (k in before ==> before[k] == after[k])
  }

  /** After a commit the key holds what its last writer left, or what it held before. */
  ghost predicate BatchReads(before: Tree, after: Tree, ops: seq<BatchOp>, base: nat, k: Bytes) {
    && (NeverWrites(ops, k) ==> SameAt(before, after, k))
    && (forall i: nat :: LastWriter(ops, k, i) ==>
          && Run(before, ops[..i], base).Done?
          && Leaves(Run(before, ops[..i], base).tree, after, ops[i], base + WalCount(ops[..i]), k))
  }

  lemma StepLeaves(tree: Tree, op: BatchOp, seqno: nat, k: Bytes)
    requires Step(tree, op, seqno).Done?
    ensures k in Writes(op) ==> Leaves(tree, Step(tree, op, seqno).tree, op, seqno, k)
    ensures k !in Writes(op) ==> SameAt(tree, Step(tree, op, seqno).tree, k)
  {
  }

  lemma LeavesSame(before: Tree, after: Tree, later: Tree, op: BatchOp, seqno: nat, k: Bytes)
    requires Leaves(before, after, op, seqno, k) && SameAt(after, later, k)
    ensures Leaves(before, later, op, seqno, k)
  {
  }

  lemma ReadsStep(tree: Tree, mid: Tree, after: Tree, ops: seq<BatchOp>, base: nat, k: Bytes)
    requires ops != [] && Run(tree, ops[..|ops| - 1], base) == Done(mid)
    requires BatchReads(tree, mid, ops[..|ops| - 1], base, k)
    requires var last, seqno := ops[|ops| - 1], base + WalCount(ops[..|ops| - 1]);
             if k in Writes(last) then Leaves(mid, after, last, seqno, k) else SameAt(mid, after, k)
    ensures BatchReads(tree, after, ops, base, k)
  {
    hide Leaves, Run, WalCount, Writes;
    var n := |ops| - 1;
    var front := ops[..n];
    forall i: nat | LastWriter(ops, k, i)
      ensures Run(tree, ops[..i], base).Done?
      ensures Leaves(Run(tree, ops[..i], base).tree, after, ops[i], base + WalCount(ops[..i]), k)
    {
      if i < n {
        assert front[..i] == ops[..i] && front[i] == ops[i];
        assert forall j :: 0 <= j < n ==> front[j] == ops[j];
        assert LastWriter(front, k, i);
        LeavesSame(Run(tree, ops[..i], base).tree, mid, after, ops[i], base + WalCount(ops[..i]), k);
      }
    }
    if NeverWrites(ops, k) {
      assert forall j :: 0 <= j < n ==> front[j] == ops[j];
      assert NeverWrites(front, k) && k !in Writes(ops[n]);
    }
  }

  lemma {:induction false} RunReads(tree: Tree, ops: seq<BatchOp>, base: nat, k: Bytes)
    requires Run(tree, ops, base).Done?
    ensures BatchReads(tree, Run(tree, ops, base).tree, ops, base, k)
    decreases |ops|
  {
    hide Leaves, Step, WalCount, Writes;
    if ops != [] {
      hide BatchReads;
      var front := ops[..|ops| - 1];
      RunReads(tree, front, base, k);
      var mid := Run(tree, front, base).tree;
      StepLeaves(mid, ops[|ops| - 1], base + WalCount(front), k);
      ReadsStep(tree, mid, Run(tree, ops, base).tree, ops, base, k);
    }
  }
}
