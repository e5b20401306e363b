/**
 Applying a batch that passed preflight: same-shape inserts go to the tree
 walker as runs, everything else one by one, and every operation that consumes a
 sequence number pushes its log item.
 */
module BatchApply {
  import opened Bytes
  import opened AtomicBatch
  import WalOps

  // ---------- log of a batch ----------

  predicate InsertLike(op: BatchOp) { op.Put? || op.PutIfAbsent? || op.CompareAndPut? }

  predicate SameShape(a: BatchOp, b: BatchOp)
    requires InsertLike(a)
  {
    InsertLike(b) && |a.key| == |b.key| && |a.value| == |b.value|
  }

  /** End of the longest same-shape run that starts `ops`, given that it reaches `end`. */
  function ShapeRun(ops: seq<BatchOp>, end: nat): (r: nat)
    requires 1 <= end <= |ops| && InsertLike(ops[0])
    ensures end <= r <= |ops|
    ensures forall j :: end <= j < r ==> SameShape(ops[0], ops[j])
    ensures r == |ops| || !SameShape(ops[0], ops[r])
    decreases |ops| - end
  {
    if end < |ops| && SameShape(ops[0], ops[end]) then ShapeRun(ops, end + 1) else end
  }

  predicate AllInserts(ops: seq<BatchOp>) { forall i :: 0 <= i < |ops| ==> InsertLike(ops[i]) }

  function Pairs(ops: seq<BatchOp>): (r: seq<(Bytes, Bytes)>)
    requires AllInserts(ops)
  {
    seq(|ops|, i requires 0 <= i < |ops| => (ops[i].key, ops[i].value))
  }

  /** A run of one is pushed as a plain insert. */
  function RunItem(tree: nat, ops: seq<BatchOp>): WalOps.Item
    requires ops != [] && AllInserts(ops)
  {
    if |ops| == 1 then WalOps.One(WalOps.Insert(tree, ops[0].key, ops[0].value))
    else WalOps.Run(tree, |ops[0].key|, |ops[0].value|, Pairs(ops))
  }

  function OpLog(tree: nat, op: BatchOp): seq<WalOps.WalOp> {
    match op
    case Put(k, v) => [WalOps.Insert(tree, k, v)]
    case PutIfAbsent(k, v) => [WalOps.Insert(tree, k, v)]
    case CompareAndPut(k, _, v) => [WalOps.Insert(tree, k, v)]
    case Delete(k) => [WalOps.Erase(tree, k)]
    case DeleteIfVersion(k, _) => [WalOps.Erase(tree, k)]
    case AssertVersion(_, _) => []
    case AssertPrefixEmpty(_) => []
    case Rename(src, dst, force) => [WalOps.RenameObject(tree, src, dst, force)]
  }

  /** Primitive operations that `ops` put in the log. */
  function LogOf(tree: nat, ops: seq<BatchOp>): (r: seq<WalOps.WalOp>)
    ensures |r| == WalCount(ops)
  {
    if ops == [] then [] else LogOf(tree, ops[..|ops| - 1]) + OpLog(tree, ops[|ops| - 1])
  }

  /** A stretch is one same-shape run or one other operation. */
  function Stretch(ops: seq<BatchOp>): (n: nat)
    requires ops != []
    ensures 1 <= n <= |ops|
    ensures InsertLike(ops[0]) ==> AllInserts(ops[..n])
  {
    if InsertLike(ops[0]) then ShapeRun(ops, 1) else 1
  }

  function StretchItems(tree: nat, run: seq<BatchOp>): seq<WalOps.Item>
    requires run != [] && (InsertLike(run[0]) ==> AllInserts(run))
  {
    if InsertLike(run[0]) then [RunItem(tree, run)]
    else if EmitsWal(run[0]) then [WalOps.One(OpLog(tree, run[0])[0])]
    else []
  }

  /** The items pushed for `ops`. */
  function ItemsOf(tree: nat, ops: seq<BatchOp>): seq<WalOps.Item> {
    if ops == [] then []
    else
      var n := Stretch(ops);
      StretchItems(tree, ops[..n]) + ItemsOf(tree, ops[n..])
  }

  lemma {:induction false} LogConcat(tree: nat, xs: seq<BatchOp>, ys: seq<BatchOp>)
    ensures LogOf(tree, xs + ys) == LogOf(tree, xs) + LogOf(tree, ys)
    decreases |ys|
  {
    if ys == [] {
      assert xs + ys == xs;
    } else {
      assert (xs + ys)[..|xs + ys| - 1] == xs + ys[..|ys| - 1];
      LogConcat(tree, xs, ys[..|ys| - 1]);
    }
  }

  lemma {:induction false} InsertLog(tree: nat, ops: seq<BatchOp>)
    requires AllInserts(ops)
    ensures LogOf(tree, ops) == WalOps.RunOps(tree, Pairs(ops))
    decreases |ops|
  {
    hide WalCount, OpLog, WalOps.RunOps;
    if ops == [] {
      NoRunOps(tree);
    } else {
      var front, last := ops[..|ops| - 1], ops[|ops| - 1];
      InsertLog(tree, front);
      InsertOpLog(tree, last);
      assert Pairs(ops) == Pairs(front) + [(last.key, last.value)];
      RunOpsAppend(tree, Pairs(front), (last.key, last.value));
    }
  }

  lemma InsertOpLog(tree: nat, op: BatchOp)
    requires InsertLike(op)
    ensures OpLog(tree, op) == [WalOps.Insert(tree, op.key, op.value)]
  {
  }

  lemma NoRunOps(tree: nat)
    ensures LogOf(tree, []) == [] && WalOps.RunOps(tree, []) == []
  {
  }

  lemma RunOpsAppend(tree: nat, pairs: seq<(Bytes, Bytes)>, pair: (Bytes, Bytes))
    ensures WalOps.RunOps(tree, pairs + [pair]) == WalOps.RunOps(tree, pairs) + [WalOps.Insert(tree, pair.0, pair.1)]
  {
    var all, some := WalOps.RunOps(tree, pairs + [pair]), WalOps.RunOps(tree, pairs);
    assert forall i :: 0 <= i < |some| ==> all[i] == some[i];
  }

  lemma StretchLog(tree: nat, ops: seq<BatchOp>)
    requires ops != []
    ensures WalOps.Flat(StretchItems(tree, ops[..Stretch(ops)])) == LogOf(tree, ops[..Stretch(ops)])
  {
    var run := ops[..Stretch(ops)];
    if InsertLike(ops[0]) {
      InsertLog(tree, run);
      FlatOne(RunItem(tree, run));
    } else {
      assert run == [ops[0]] && run[..0] == [];
      if EmitsWal(ops[0]) { FlatOne(WalOps.One(OpLog(tree, ops[0])[0])); }
    }
  }

  lemma FlatOne(item: WalOps.Item)
    ensures WalOps.Flat([item]) == WalOps.ItemOps(item)
  {
    assert [item][1..] == [];
  }

  /** The pushed items expand to one primitive operation per sequence number, in order. */
  lemma {:induction false} ItemsLogEveryOp(tree: nat, ops: seq<BatchOp>)
    ensures WalOps.Flat(ItemsOf(tree, ops)) == LogOf(tree, ops)
    decreases |ops|
  {
    if ops != [] {
      var n := Stretch(ops);
      assert ops == ops[..n] + ops[n..];
      hide Stretch, StretchItems;
      LogConcat(tree, ops[..n], ops[n..]);
      ItemsLogEveryOp(tree, ops[n..]);
      StretchLog(tree, ops);
      WalOps.FlatConcat(StretchItems(tree, ops[..n]), ItemsOf(tree, ops[n..]));
    }
  }

  // ---------- batches as walker calls ----------

  datatype Condition = Always | IfAbsent | IfVersion(version: nat)

  datatype InsertItem = InsertItem(key: Bytes, value: Bytes, seqno: nat, condition: Condition)

  predicate Holds(tree: Tree, key: Bytes, condition: Condition) {
    match condition
    case Always => true
    case IfAbsent => key !in tree
    case IfVersion(v) => HasVersion(tree, key, v)
  }

  function InsertAll(tree: Tree, items: seq<InsertItem>): Outcome {
    if items == [] then Done(tree)
    else match InsertAll(tree, items[..|items| - 1])
         case Failed(fault) => Failed(fault)
         case Done(t) =>
           var item := items[|items| - 1];
           Insert(t, item.key, item.value, item.seqno, Holds(t, item.key, item.condition))
  }

  function ItemFor(op: BatchOp, seqno: nat): InsertItem
    requires InsertLike(op)
  {
    match op
    case Put(k, v) => InsertItem(k, v, seqno, Always)
    case PutIfAbsent(k, v) => InsertItem(k, v, seqno, IfAbsent)
    case CompareAndPut(k, e, v) => InsertItem(k, v, seqno, IfVersion(e))
  }

  function InsertItems(ops: seq<BatchOp>, firstSeq: nat): seq<InsertItem>
    requires AllInserts(ops)
  {
    seq(|ops|, i requires 0 <= i < |ops| => ItemFor(ops[i], firstSeq + i))
  }

  lemma InsertStep(tree: Tree, op: BatchOp, seqno: nat)
    requires InsertLike(op)
    ensures EmitsWal(op)
    ensures var item := ItemFor(op, seqno);
            && item.seqno == seqno
            && Step(tree, op, seqno) == Insert(tree, item.key, item.value, seqno, Holds(tree, item.key, item.condition))
  {
  }

  lemma {:induction false} InsertsRun(tree: Tree, ops: seq<BatchOp>, firstSeq: nat)
    requires AllInserts(ops)
    ensures WalCount(ops) == |ops|
    ensures InsertAll(tree, InsertItems(ops, firstSeq)) == Run(tree, ops, firstSeq)
    decreases |ops|
  {
    hide Step, Insert, Holds, ItemFor, InsertLike;
    if ops != [] {
      var front := ops[..|ops| - 1];
      InsertsRun(tree, front, firstSeq);
      assert InsertLike(ops[|ops| - 1]);
      InsertStep(map[], ops[|ops| - 1], firstSeq + |front|);
      if Run(tree, front, firstSeq).Done? {
        InsertStep(Run(tree, front, firstSeq).tree, ops[|ops| - 1], firstSeq + |front|);
      }
      assert InsertItems(ops, firstSeq)[..|ops| - 1] == InsertItems(front, firstSeq);
    }
  }

  lemma {:induction false} CountConcat(xs: seq<BatchOp>, ys: seq<BatchOp>)
    ensures WalCount(xs + ys) == WalCount(xs) + WalCount(ys)
    decreases |ys|
  {
    if ys == [] {
      assert xs + ys == xs;
    } else {
      assert (xs + ys)[..|xs + ys| - 1] == xs + ys[..|ys| - 1];
      CountConcat(xs, ys[..|ys| - 1]);
    }
  }

  function Then(r: Outcome, ops: seq<BatchOp>, base: nat): Outcome {
    match r
    case Failed(fault) => Failed(fault)
    case Done(t) => Run(t, ops, base)
  }

  lemma {:induction false} RunConcat(tree: Tree, xs: seq<BatchOp>, ys: seq<BatchOp>, base: nat)
    ensures Run(tree, xs + ys, base) == Then(Run(tree, xs, base), ys, base + WalCount(xs))
    decreases |ys|
  {
    hide Step;
    if ys == [] {
      assert xs + ys == xs;
    } else {
      var front := ys[..|ys| - 1];
      assert (xs + ys)[..|xs + ys| - 1] == xs + front;
      RunConcat(tree, xs, front, base);
      CountConcat(xs, front);
    }
  }

  lemma {:induction false} InsertAllConcat(tree: Tree, xs: seq<InsertItem>, ys: seq<InsertItem>)
    ensures InsertAll(tree, xs).Failed? ==> InsertAll(tree, xs + ys).Failed?
    ensures InsertAll(tree, xs).Done? ==> InsertAll(tree, xs + ys) == InsertAll(InsertAll(tree, xs).tree, ys)
    decreases |ys|
  {
    if ys == [] {
      assert xs + ys == xs;
    } else {
      assert (xs + ys)[..|xs + ys| - 1] == xs + ys[..|ys| - 1];
      InsertAllConcat(tree, xs, ys[..|ys| - 1]);
    }
  }

  lemma {:induction false} InsertedShapes(tree: Tree, items: seq<InsertItem>, i: nat)
    requires i < |items| && InsertAll(tree, items).Done?
    ensures InsertShape(items[i].key, items[i].value).None?
    decreases |items|
  {
    if i < |items| - 1 { InsertedShapes(tree, items[..|items| - 1], i); }
  }

  lemma NoInserts(tree: Tree, items: seq<InsertItem>)
    ensures InsertAll(tree, items[..0]) == Done(tree)
  {
  }

  datatype Walk = Applied(count: nat) | WalkError

  /** The tree as its walkers see it. */
  class Walker {
    var live: Tree

    constructor (tree: Tree)
      ensures live == tree
    {
      live := tree;
    }

    method EraseMulti(key: Bytes) returns (mutated: bool)
      modifies this
      ensures live == old(live) - {key}
      ensures mutated == (key in old(live))
    {
      mutated := key in live;
      live := live - {key};
    }

    method EraseIfVersion(key: Bytes, version: nat) returns (mutated: bool)
      modifies this
      ensures mutated == HasVersion(old(live), key, version)
      ensures live == if mutated then old(live) - {key} else old(live)
    {
      mutated := HasVersion(live, key, version);
      if mutated { live := live - {key}; }
    }

    method InsertMulti(key: Bytes, value: Bytes, seqno: nat) returns (ok: bool)
      modifies this
      ensures ok == InsertShape(key, value).None?
      ensures live == if ok then old(live)[key := Record(value, seqno)] else old(live)
    {
      ok := InsertShape(key, value).None?;
      if ok { live := live[key := Record(value, seqno)]; }
    }

    /** Inserts some non-empty prefix of `items` in order, as far as it stays within one blob. */
    method InsertBatch(items: seq<InsertItem>) returns (r: Walk)
      requires items != []
      modifies this
      ensures r.Applied? ==>
        1 <= r.count <= |items| && InsertAll(old(live), items[..r.count]) == Done(live)
      ensures r.WalkError? ==> InsertAll(old(live), items).Failed?
    {
      for i := 0 to |items|
        invariant forall j :: 0 <= j < i ==> InsertShape(items[j].key, items[j].value).None?
      {
        if InsertShape(items[i].key, items[i].value).Some? {
          if InsertAll(live, items).Done? { InsertedShapes(live, items, i); }
          return WalkError;
        }
      }
      var n := 0;
      while n < |items|
        invariant 0 <= n <= |items|
        invariant InsertAll(old(live), items[..n]) == Done(live)
      {
        var item := items[n];
        assert items[..n + 1][..n] == items[..n];
        if !Holds(live, item.key, item.condition) {
          assert items == items[..n + 1] + items[n + 1..];
          InsertAllConcat(old(live), items[..n + 1], items[n + 1..]);
          return WalkError;
        }
        live := live[item.key := Record(item.value, item.seqno)];
        n := n + 1;
        if * { break; }
      }
      r := Applied(n);
    }

    /** Feeds one run to the batch walker until all of it is in. */
    method ApplyInsertRun(ops: seq<BatchOp>, firstSeq: nat) returns (ok: bool)
      requires AllInserts(ops)
      modifies this
      ensures ok <==> Run(old(live), ops, firstSeq).Done?
      ensures ok ==> live == Run(old(live), ops, firstSeq).tree
    {
      hide InsertAll, Run, InsertItems, ItemFor;
      var items := InsertItems(ops, firstSeq);
      InsertsRun(live, ops, firstSeq);
      NoInserts(live, items);
      var applied := 0;
      while applied < |items|
        invariant 0 <= applied <= |items|
        invariant InsertAll(old(live), items[..applied]) == Done(live)
      {
        var rest := items[applied..];
        var walk := InsertBatch(rest);
        assert items == items[..applied] + rest;
        InsertAllConcat(old(live), items[..applied], rest);
        if walk.WalkError? { return false; }
        assert items[..applied + walk.count] == items[..applied] + rest[..walk.count];
        InsertAllConcat(old(live), items[..applied], rest[..walk.count]);
        applied := applied + walk.count;
      }
      assert items[..applied] == items;
      ok := true;
    }

    method ApplyRename(src: Bytes, dst: Bytes, force: bool, seqno: nat) returns (ok: bool)
      modifies this
      ensures ok <==> Step(old(live), Rename(src, dst, force), seqno).Done?
      ensures ok ==> live == Step(old(live), Rename(src, dst, force), seqno).tree
    {
      if src !in live { return false; }
      var value := live[src].value;
      if src == dst { return true; }
      if !force && dst in live { return false; }
      var _ := EraseMulti(src);
      ok := InsertMulti(dst, value, seqno);
    }

    /** One operation that is not an insert. */
    method ApplyOp(op: BatchOp, seqno: nat) returns (ok: bool)
      requires !InsertLike(op)
      modifies this
      ensures Step(old(live), op, seqno).Done? ==> ok && live == Step(old(live), op, seqno).tree
    {
      ok := true;
      match op {
        case Delete(key) => var _ := EraseMulti(key);
        case DeleteIfVersion(key, expected) => ok := EraseIfVersion(key, expected);
        case AssertVersion(_, _) =>
        case AssertPrefixEmpty(_) =>
        case Rename(src, dst, force) => ok := ApplyRename(src, dst, force, seqno);
      }
    }

    method ApplyStretch(tree: nat, run: seq<BatchOp>, seqno: nat) returns (ok: bool, items: seq<WalOps.Item>)
      requires run != [] && if InsertLike(run[0]) then AllInserts(run) else |run| == 1
      modifies this
      ensures Run(old(live), run, seqno).Done? ==>
        ok && live == Run(old(live), run, seqno).tree && items == StretchItems(tree, run)
    {
      items := [];
      if InsertLike(run[0]) {
        ok := ApplyInsertRun(run, seqno);
        items := [RunItem(tree, run)];
      } else {
        RunOne(live, run[0], seqno);
        assert run == [run[0]];
        ok := ApplyOp(run[0], seqno);
        if EmitsWal(run[0]) { items := [WalOps.One(OpLog(tree, run[0])[0])]; }
      }
    }

    /** A batch that its preflight lets through is applied without an error exit, leaves exactly
        the projected tree, and pushes the items that log every operation. */
    method ApplyBatch(tree: nat, ops: seq<BatchOp>, base: nat) returns (ok: bool, items: seq<WalOps.Item>)
      modifies this
      ensures Run(old(live), ops, base).Done? ==>
        ok && live == Run(old(live), ops, base).tree && items == ItemsOf(tree, ops)
    {
      hide *;
      items := [];
      var offset, i := 0, 0;
      ghost var good := Run(live, ops, base).Done?;
      assert ops[0..] == ops;
      NothingYet(live, ops, base);
      while i < |ops|
        invariant 0 <= i <= |ops|
        invariant offset == WalCount(ops[..i])
        invariant good ==> Run(old(live), ops[..i], base) == Done(live)
        invariant good ==> items + ItemsOf(tree, ops[i..]) == ItemsOf(tree, ops)
      {
        var n := NextStretch(ops, i, tree);
        if good { Advance(old(live), ops, base, i, n, live); }
        CountConcat(ops[..i], ops[i..i + n]);
        assert ops[..i + n] == ops[..i] + ops[i..i + n];
        StretchCount(ops[i..i + n]);
        var pushed;
        ok, pushed := ApplyStretch(tree, ops[i..i + n], base + offset);
        if !ok { return; }
        items := items + pushed;
        offset := offset + if InsertLike(ops[i]) then n else if EmitsWal(ops[i]) then 1 else 0;
        i := i + n;
      }
      assert ops[..i] == ops;
      NoItems(tree, ops[i..]);
      ok := true;
    }
  }

  lemma RunOne(tree: Tree, op: BatchOp, base: nat)
    ensures Run(tree, [op], base) == Step(tree, op, base)
    ensures WalCount([op]) == if EmitsWal(op) then 1 else 0
  {
    assert [op][..0] == [];
  }

  lemma StretchCount(run: seq<BatchOp>)
    requires run != [] && if InsertLike(run[0]) then AllInserts(run) else |run| == 1
    ensures WalCount(run) == if InsertLike(run[0]) then |run| else if EmitsWal(run[0]) then 1 else 0
  {
    if InsertLike(run[0]) { InsertsRun(map[], run, 0); } else { assert run[..0] == []; }
  }

  lemma NothingYet(tree: Tree, ops: seq<BatchOp>, base: nat)
    ensures WalCount(ops[..0]) == 0 && Run(tree, ops[..0], base) == Done(tree)
  {
  }

  lemma NoItems(tree: nat, ops: seq<BatchOp>)
    requires ops == []
    ensures ItemsOf(tree, ops) == [] && ItemsSize(ItemsOf(tree, ops)) == 0
  {
  }

  /** A run that gets through a prefix gets through the stretch after it. */
  lemma Advance(tree: Tree, ops: seq<BatchOp>, base: nat, i: nat, n: nat, mid: Tree)
    requires i + n <= |ops|
    requires Run(tree, ops, base).Done? && Run(tree, ops[..i], base) == Done(mid)
    ensures Run(mid, ops[i..i + n], base + WalCount(ops[..i])).Done?
    ensures Run(tree, ops[..i + n], base) == Run(mid, ops[i..i + n], base + WalCount(ops[..i]))
  {
    hide Run, WalCount;
    assert ops[..i + n] == ops[..i] + ops[i..i + n];
    RunConcat(tree, ops[..i], ops[i..i + n], base);
    if Run(tree, ops[..i + n], base).Failed? { RunFailsEarly(tree, ops, base, i + n); }
  }

  method NextStretch(ops: seq<BatchOp>, i: nat, ghost tree: nat) returns (n: nat)
    requires i < |ops|
    ensures 1 <= n <= |ops| - i
    ensures if InsertLike(ops[i]) then AllInserts(ops[i..i + n]) else n == 1
    ensures ItemsOf(tree, ops[i..]) == StretchItems(tree, ops[i..i + n]) + ItemsOf(tree, ops[i + n..])
  {
    n := 1;
    if InsertLike(ops[i]) { n := SameShapeRunLen(ops, i); }
    assert n == Stretch(ops[i..]);
    assert ops[i..][..n] == ops[i..i + n] && ops[i..][n..] == ops[i + n..];
  }

  method SameShapeRunLen(ops: seq<BatchOp>, start: nat) returns (n: nat)
    requires start < |ops| && InsertLike(ops[start])
    ensures 1 <= n <= |ops| - start
    ensures n == ShapeRun(ops[start..], 1)
    ensures AllInserts(ops[start..start + n])
  {
    var end := start + 1;
    while end < |ops| && SameShape(ops[start], ops[end])
      invariant start < end <= |ops|
      invariant ShapeRun(ops[start..], end - start) == ShapeRun(ops[start..], 1)
      invariant AllInserts(ops[start..end])
    {
      end := end + 1;
    }
    n := end - start;
  }

  // ---------- reservation ----------

  function OpSize(op: WalOps.WalOp): nat {
    match op
    case Insert(_, key, value) => 1 + 8 + 4 + |key| + 4 + |value|
    case Erase(_, key) => 1 + 8 + 4 + |key|
    case RenameObject(_, src, dst, _) => 1 + 8 + 4 + |src| + 4 + |dst| + 1
  }

  function ItemSize(item: WalOps.Item): nat {
    match item
    case One(op) => OpSize(op)
    case Run(_, keyLen, valueLen, pairs) => 1 + 8 + 4 + 4 + 4 + |pairs| * (keyLen + valueLen)
  }

  function ItemsSize(items: seq<WalOps.Item>): nat {
    if items == [] then 0 else ItemSize(items[0]) + ItemsSize(items[1..])
  }

  /** Bytes of the record that carries `items`. */
  function RecordSize(items: seq<WalOps.Item>): nat {
    WalOps.RECORD_HEADER_SIZE + 8 + 4 + ItemsSize(items) + WalOps.RECORD_FOOTER_SIZE
  }

  lemma {:induction false} SizeConcat(xs: seq<WalOps.Item>, ys: seq<WalOps.Item>)
    ensures ItemsSize(xs + ys) == ItemsSize(xs) + ItemsSize(ys)
    decreases |xs|
  {
    if xs == [] {
      assert xs + ys == ys;
    } else {
      assert (xs + ys)[1..] == xs[1..] + ys;
      SizeConcat(xs[1..], ys);
    }
  }

  lemma SizeOne(item: WalOps.Item)
    ensures ItemsSize([item]) == ItemSize(item)
  {
    assert [item][1..] == [];
  }

  method StretchLen(run: seq<BatchOp>, tree: nat) returns (len: nat)
    requires run != [] && if InsertLike(run[0]) then AllInserts(run) else |run| == 1
    ensures len == ItemsSize(StretchItems(tree, run))
  {
    if InsertLike(run[0]) {
      SizeOne(RunItem(tree, run));
      if |run| > 1 {
        len := 1 + 8 + 4 + 4 + 4 + |run| * (|run[0].key| + |run[0].value|);
      } else {
        len := 1 + 8 + 4 + |run[0].key| + 4 + |run[0].value|;
      }
    } else {
      if EmitsWal(run[0]) { SizeOne(WalOps.One(OpLog(tree, run[0])[0])); }
      match run[0] {
        case Delete(key) => len := 1 + 8 + 4 + |key|;
        case DeleteIfVersion(key, _) => len := 1 + 8 + 4 + |key|;
        case Rename(src, dst, _) => len := 1 + 8 + 4 + |src| + 4 + |dst| + 1;
        case AssertVersion(_, _) => len := 0;
        case AssertPrefixEmpty(_) => len := 0;
      }
    }
  }

  /** The size reserved before a batch is applied is the size its record takes. */
  method EncodedBatchRecordLen(ops: seq<BatchOp>, tree: nat) returns (len: nat)
    ensures len == RecordSize(ItemsOf(tree, ops))
  {
    hide ItemsOf, ItemsSize, StretchItems, InsertLike, AllInserts;
    len := WalOps.RECORD_HEADER_SIZE + (8 + 4) + WalOps.RECORD_FOOTER_SIZE;
    var i := 0;
    assert ops[0..] == ops;
    while i < |ops|
      invariant 0 <= i <= |ops|
      invariant len + ItemsSize(ItemsOf(tree, ops[i..])) == RecordSize(ItemsOf(tree, ops))
    {
      var n := NextStretch(ops, i, tree);
      SizeConcat(StretchItems(tree, ops[i..i + n]), ItemsOf(tree, ops[i + n..]));
      var more := StretchLen(ops[i..i + n], tree);
      len := len + more;
      i := i + n;
    }
    NoItems(tree, ops[i..]);
  }
}
