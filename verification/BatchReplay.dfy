/**
 Replay of logged operations, and its agreement with the live execution that
 logged them: contents always, record versions exactly up to the keys that a
 forced rename onto themselves leaves behind.
 */
module BatchReplay {
  import opened Bytes
  import opened AtomicBatch
  import opened BatchApply
  import WalOps

  type Forest = map<nat, Tree>

  datatype Replayed = Replayed(forest: Forest) | ReplayError(fault: Fault)

  function At(forest: Forest, tree: nat): Tree { if tree in forest then forest[tree] else map[] }

  /** One logged operation. A rename whose source is gone, or whose destination exists without
      `force`, is skipped. */
  function ReplayOp(tree: Tree, op: WalOps.WalOp, seqno: nat): Outcome {
    match op
    case Insert(_, key, value) => Insert(tree, key, value, seqno, true)
    case Erase(_, key) => Done(tree - {key})
    case RenameObject(_, src, dst, force) =>
      if src !in tree then Done(tree)
      else if !force && dst in tree then Done(tree)
      else Insert(tree - {src}, dst, tree[src].value, seqno, true)
  }

  /** Logged operations in order; the i-th carries sequence number `base + i`. */
  function Replay(forest: Forest, ops: seq<WalOps.WalOp>, base: nat): Replayed {
    if ops == [] then Replayed(forest)
    else match Replay(forest, ops[..|ops| - 1], base)
         case ReplayError(fault) => ReplayError(fault)
         case Replayed(f) =>
           var op := ops[|ops| - 1];
           match ReplayOp(At(f, op.tree), op, base + |ops| - 1)
           case Failed(fault) => ReplayError(fault)
           case Done(t) => Replayed(f[op.tree := t])
  }

  lemma {:induction false} ReplayConcat(forest: Forest, xs: seq<WalOps.WalOp>, ys: seq<WalOps.WalOp>, base: nat)
    requires Replay(forest, xs, base).Replayed?
    ensures Replay(forest, xs + ys, base) == Replay(Replay(forest, xs, base).forest, ys, base + |xs|)
    decreases |ys|
  {
    if ys == [] {
      assert xs + ys == xs;
    } else {
      assert (xs + ys)[..|xs + ys| - 1] == xs + ys[..|ys| - 1];
      ReplayConcat(forest, xs, ys[..|ys| - 1], base);
    }
  }

  /** A rename that an earlier pass replayed is skipped by the next one, unless it is a forced rename onto
      itself, which restamps its key every time. */
  lemma RenameReplaysOnce(tree: Tree, op: WalOps.WalOp, seqno: nat, again: nat)
    requires op.RenameObject? && ReplayOp(tree, op, seqno).Done?
    ensures var once := ReplayOp(tree, op, seqno).tree;
            ReplayOp(once, op, again) == Done(once)
            <==> !(op.src == op.dst && op.force && op.src in tree && again != seqno)
  {
    var once := ReplayOp(tree, op, seqno).tree;
    if op.src in tree && op.src == op.dst && op.force {
      assert once[op.src].version == seqno;
      assert again == seqno ==> (once - {op.src})[op.src := once[op.src]] == once;
      assert ReplayOp(once, op, again).tree[op.src].version == again;
    }
  }

  // ---------- agreement ----------

  /** Same keys, same values; versions may differ. */
  predicate SameValues(r: Tree, m: Tree) {
    r.Keys == m.Keys && forall k :: k in m ==> r[k].value == m[k].value
  }

  /** Keys whose records differ. */
  function Differ(r: Tree, m: Tree): set<Bytes> { set k | k in m && !(k in r && r[k] == m[k]) }

  predicate WellShaped(tree: Tree) { forall k :: k in tree ==> InsertShape(k, tree[k].value).None? }

  predicate VersionsBelow(tree: Tree, seqno: nat) { forall k :: k in tree ==> tree[k].version < seqno }

  predicate SelfRename(op: BatchOp) { op.Rename? && op.src == op.dst }

  /** Keys that an operation which got through writes or removes. */
  function Writes(op: BatchOp): set<Bytes> {
    match op
    case Put(k, _) => {k}
    case PutIfAbsent(k, _) => {k}
    case CompareAndPut(k, _, _) => {k}
    case Delete(k) => {k}
    case DeleteIfVersion(k, _) => {k}
    case AssertVersion(_, _) => {}
    case AssertPrefixEmpty(_) => {}
    case Rename(src, dst, _) => if src == dst then {} else {src, dst}
  }

  /** Keys left with a version of replay's own making: a forced rename onto itself does nothing
      live and stamps a new version in replay; any later write of the key heals it. */
  function Restamped(before: set<Bytes>, ops: seq<BatchOp>): set<Bytes> {
    if ops == [] then before
    else RestampedBy(Restamped(before, ops[..|ops| - 1]), ops[|ops| - 1])
  }

  function RestampedBy(before: set<Bytes>, op: BatchOp): set<Bytes> {
    if SelfRename(op) && op.force then before + {op.src} else before - Writes(op)
  }

  lemma StepKeeps(m: Tree, op: BatchOp, seqno: nat)
    requires Step(m, op, seqno).Done? && WellShaped(m) && VersionsBelow(m, seqno)
    ensures WellShaped(Step(m, op, seqno).tree)
    ensures VersionsBelow(Step(m, op, seqno).tree, seqno + if EmitsWal(op) then 1 else 0)
  {
  }

  lemma StepReplays(m: Tree, r: Tree, tree: nat, op: BatchOp, seqno: nat)
    requires EmitsWal(op) && Step(m, op, seqno).Done?
    requires SameValues(r, m) && WellShaped(m) && VersionsBelow(m, seqno)
    ensures ReplayOp(r, OpLog(tree, op)[0], seqno).Done?
    ensures SameValues(ReplayOp(r, OpLog(tree, op)[0], seqno).tree, Step(m, op, seqno).tree)
    ensures Differ(ReplayOp(r, OpLog(tree, op)[0], seqno).tree, Step(m, op, seqno).tree)
         == RestampedBy(Differ(r, m), op)
  {
    if op.Rename? && op.src == op.dst { assert WellShaped(m) && op.src in m; }
  }

  lemma AssertReplays(m: Tree, r: Tree, op: BatchOp, seqno: nat)
    requires !EmitsWal(op) && Step(m, op, seqno).Done? && SameValues(r, m)
    ensures Step(m, op, seqno).tree == m && RestampedBy(Differ(r, m), op) == Differ(r, m)
  {
  }

  /** A committed batch replays, on any forest that agrees on its tree, to what it did live. */
  lemma {:induction false} BatchReplays(m: Tree, f: Forest, tree: nat, ops: seq<BatchOp>, base: nat)
    requires Run(m, ops, base).Done?
    requires tree in f && SameValues(f[tree], m) && WellShaped(m) && VersionsBelow(m, base)
    ensures WellShaped(Run(m, ops, base).tree) && VersionsBelow(Run(m, ops, base).tree, base + WalCount(ops))
    ensures Replay(f, LogOf(tree, ops), base).Replayed?
    ensures var g := Replay(f, LogOf(tree, ops), base).forest;
            && tree in g && g == f[tree := g[tree]]
            && SameValues(g[tree], Run(m, ops, base).tree)
            && Differ(g[tree], Run(m, ops, base).tree) == Restamped(Differ(f[tree], m), ops)
    decreases |ops|
  {
    hide Step, Run, WalCount, LogOf, Replay, ReplayOp, SameValues, Differ, WellShaped, VersionsBelow, Restamped,
         RestampedBy, OpLog;
    if ops == [] {
      NothingToReplay(m, f, tree, base);
      assert f == f[tree := f[tree]];
    } else {
      var front, op := ops[..|ops| - 1], ops[|ops| - 1];
      RunLast(m, ops, base);
      BatchReplays(m, f, tree, front, base);
      var mid, g := Run(m, front, base).tree, Replay(f, LogOf(tree, front), base).forest;
      StepKeeps(mid, op, base + WalCount(front));
      RestampedLast(Differ(f[tree], m), ops);
      if EmitsWal(op) {
        StepReplays(mid, g[tree], tree, op, base + WalCount(front));
        LogLast(tree, ops);
        ReplayLast(f, LogOf(tree, front), OpLog(tree, op)[0], base);
      } else {
        AssertReplays(mid, g[tree], op, base + WalCount(front));
        LogNone(tree, ops);
      }
    }
  }

  lemma NothingToReplay(m: Tree, f: Forest, tree: nat, base: nat)
    ensures Run(m, [], base) == Done(m) && WalCount([]) == 0 && LogOf(tree, []) == []
    ensures Replay(f, [], base) == Replayed(f) && forall before :: Restamped(before, []) == before
  {
  }

  lemma RunLast(m: Tree, ops: seq<BatchOp>, base: nat)
    requires ops != [] && Run(m, ops, base).Done?
    ensures var front, op := ops[..|ops| - 1], ops[|ops| - 1];
            && Run(m, front, base).Done?
            && Run(m, ops, base) == Step(Run(m, front, base).tree, op, base + WalCount(front))
            && WalCount(ops) == WalCount(front) + if EmitsWal(op) then 1 else 0
  {
    hide Step;
  }

  lemma RestampedLast(before: set<Bytes>, ops: seq<BatchOp>)
    requires ops != []
    ensures Restamped(before, ops) == RestampedBy(Restamped(before, ops[..|ops| - 1]), ops[|ops| - 1])
  {
    hide RestampedBy;
  }

  lemma ReplayLast(f: Forest, log: seq<WalOps.WalOp>, op: WalOps.WalOp, base: nat)
    requires Replay(f, log, base).Replayed?
    requires ReplayOp(At(Replay(f, log, base).forest, op.tree), op, base + |log|).Done?
    ensures var g := Replay(f, log, base).forest;
            Replay(f, log + [op], base) == Replayed(g[op.tree := ReplayOp(At(g, op.tree), op, base + |log|).tree])
  {
    hide ReplayOp;
    assert (log + [op])[..|log|] == log;
  }

  lemma LogLast(tree: nat, ops: seq<BatchOp>)
    requires ops != [] && EmitsWal(ops[|ops| - 1])
    ensures |OpLog(tree, ops[|ops| - 1])| == 1
    ensures var op := OpLog(tree, ops[|ops| - 1])[0];
            && op.tree == tree
            && LogOf(tree, ops) == LogOf(tree, ops[..|ops| - 1]) + [op]
  {
  }

  lemma LogNone(tree: nat, ops: seq<BatchOp>)
    requires ops != [] && !EmitsWal(ops[|ops| - 1])
    ensures LogOf(tree, ops) == LogOf(tree, ops[..|ops| - 1])
  {
  }

  /** Replay reproduces every record of a batch, versions included, exactly when the batch leaves
      no key restamped. */
  lemma VersionsReplayIff(m: Tree, tree: nat, ops: seq<BatchOp>, base: nat)
    requires Run(m, ops, base).Done? && WellShaped(m) && VersionsBelow(m, base)
    ensures Replay(map[tree := m], LogOf(tree, ops), base) == Replayed(map[tree := Run(m, ops, base).tree])
       <==> Restamped({}, ops) == {}
  {
    assert Differ(m, m) == {};
    BatchReplays(m, map[tree := m], tree, ops, base);
    var g, live := Replay(map[tree := m], LogOf(tree, ops), base).forest, Run(m, ops, base).tree;
    assert g == map[tree := g[tree]];
    if Differ(g[tree], live) == {} {
      assert forall k :: k in live ==> k !in Differ(g[tree], live);
      assert g[tree] == live;
    }
  }

  /** A forced rename onto itself: the log brings the value back under another version. */
  lemma SelfRenameChangesVersion(key: Bytes, value: Bytes)
    requires InsertShape(key, value).None?
    ensures var m: Tree := map[key := Record(value, 1)];
            var ops := [Rename(key, key, true)];
            && Run(m, ops, 5) == Done(m)
            && Replay(map[0 := m], LogOf(0, ops), 5) == Replayed(map[0 := map[key := Record(value, 5)]])
  {
    var m: Tree := map[key := Record(value, 1)];
    var ops := [Rename(key, key, true)];
    var log := [WalOps.RenameObject(0, key, key, true)];
    assert ops[..0] == [] && log[..0] == [];
    assert LogOf(0, ops) == log;
    assert (m - {key})[key := Record(value, 5)] == map[key := Record(value, 5)];
    var f: Forest := map[0 := m];
    assert f[0 := map[key := Record(value, 5)]] == map[0 := map[key := Record(value, 5)]];
  }
}
