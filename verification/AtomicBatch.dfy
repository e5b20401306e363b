/**
 Atomic batches: the sequential meaning of a list of batch operations over a
 versioned map, and the overlay preflight that decides it without touching the
 live tree.
 */
module AtomicBatch {
  import opened Bytes

  datatype Record = Record(value: Bytes, version: nat)
  type Tree = map<Bytes, Record>

  datatype BatchOp =
    | Put(key: Bytes, value: Bytes)
    | PutIfAbsent(key: Bytes, value: Bytes)
    | CompareAndPut(key: Bytes, expected: nat, value: Bytes)
    | Delete(key: Bytes)
    | DeleteIfVersion(key: Bytes, expected: nat)
    | AssertVersion(key: Bytes, expected: nat)
    | AssertPrefixEmpty(prefix: Bytes)
    | Rename(src: Bytes, dst: Bytes, force: bool)

  predicate EmitsWal(op: BatchOp) { !op.AssertVersion? && !op.AssertPrefixEmpty? }

  /** Sequence numbers that `ops` consume. */
  function WalCount(ops: seq<BatchOp>): nat {
    if ops == [] then 0
    else WalCount(ops[..|ops| - 1]) + if EmitsWal(ops[|ops| - 1]) then 1 else 0
  }

  // ---------- sequential meaning ----------

  datatype Fault = GuardFailed | NotFound | DstExists | KeyTooLong(len: nat) | ValueTooLong(len: nat)

  datatype Outcome = Done(tree: Tree) | Failed(fault: Fault)

  const U16_MAX: nat := 0xFFFF

  /** Keys are stored with a terminator byte; both lengths must fit 16 bits. */
  function InsertShape(key: Bytes, value: Bytes): Option<Fault> {
    if |key| + 1 > U16_MAX then Some(KeyTooLong(|key| + 1))
    else if |value| > U16_MAX then Some(ValueTooLong(|value|))
    else None
  }

  predicate HasVersion(tree: Tree, key: Bytes, version: nat) { key in tree && tree[key].version == version }

  predicate PrefixEmpty(tree: Tree, prefix: Bytes) { forall k :: k in tree ==> !StartsWith(k, prefix) }

  function Insert(tree: Tree, key: Bytes, value: Bytes, seqno: nat, guard: bool): Outcome {
    match InsertShape(key, value)
    case Some(fault) => Failed(fault)
    case None => if guard then Done(tree[key := Record(value, seqno)]) else Failed(GuardFailed)
  }

  /** One operation, on the tree its predecessors left. */
  function Step(tree: Tree, op: BatchOp, seqno: nat): Outcome {
    match op
    case Put(k, v) => Insert(tree, k, v, seqno, true)
    case PutIfAbsent(k, v) => Insert(tree, k, v, seqno, k !in tree)
    case CompareAndPut(k, e, v) => Insert(tree, k, v, seqno, HasVersion(tree, k, e))
    case Delete(k) => Done(tree - {k})
    case DeleteIfVersion(k, e) => if HasVersion(tree, k, e) then Done(tree - {k}) else Failed(GuardFailed)
    case AssertVersion(k, e) => if HasVersion(tree, k, e) then Done(tree) else Failed(GuardFailed)
    case AssertPrefixEmpty(p) => if PrefixEmpty(tree, p) then Done(tree) else Failed(GuardFailed)
    case Rename(src, dst, force) =>
      if src !in tree then Failed(NotFound)
      else if src == dst then Done(tree)
      else if !force && dst in tree then Failed(DstExists)
      else Insert(tree - {src}, dst, tree[src].value, seqno, true)
  }

  /** All operations in order: the first failing one decides. */
  function Run(tree: Tree, ops: seq<BatchOp>, base: nat): Outcome {
    if ops == [] then Done(tree)
    else match Run(tree, ops[..|ops| - 1], base)
         case Failed(fault) => Failed(fault)
         case Done(t) => Step(t, ops[|ops| - 1], base + WalCount(ops[..|ops| - 1]))
  }

  lemma {:induction false} RunFailsEarly(tree: Tree, ops: seq<BatchOp>, base: nat, i: nat)
    requires i <= |ops| && Run(tree, ops[..i], base).Failed?
    ensures Run(tree, ops, base) == Run(tree, ops[..i], base)
    decreases |ops| - i
  {
    if i < |ops| {
      assert ops[..i + 1][..i] == ops[..i];
      RunFailsEarly(tree, ops, base, i + 1);
    } else {
      assert ops[..i] == ops;
    }
  }

  // ---------- overlay ----------

  type Overlay = map<Bytes, Option<Record>>

  /** The tree that an overlay on top of the live tree stands for. */
  function Project(live: Tree, overlay: Overlay): Tree {
    map k | k in live.Keys + overlay.Keys && (k in overlay ==> overlay[k].Some?) ::
      if k in overlay then overlay[k].value else live[k]
  }

  function ProjectedRecord(live: Tree, overlay: Overlay, key: Bytes): (r: Option<Record>)
    ensures r.Some? <==> key in Project(live, overlay)
    ensures r.Some? ==> r.value == Project(live, overlay)[key]
  {
    if key in overlay then overlay[key] else if key in live then Some(live[key]) else None
  }

  lemma ProjectNothing(live: Tree)
    ensures Project(live, map[]) == live
  {
  }

  lemma ProjectPut(live: Tree, overlay: Overlay, key: Bytes, rec: Record)
    ensures Project(live, overlay[key := Some(rec)]) == Project(live, overlay)[key := rec]
  {
  }

  lemma ProjectDelete(live: Tree, overlay: Overlay, key: Bytes)
    ensures Project(live, overlay[key := None]) == Project(live, overlay) - {key}
  {
  }

  /** Prefix emptiness from the overlay and a scan of the live keys. */
  method ProjectedPrefixEmpty(live: Tree, overlay: Overlay, prefix: Bytes) returns (empty: bool)
    ensures empty == PrefixEmpty(Project(live, overlay), prefix)
  {
    var staged := overlay.Keys;
    while staged != {}
      invariant staged <= overlay.Keys
      invariant forall k :: k in overlay && k !in staged && overlay[k].Some? ==> !StartsWith(k, prefix)
      decreases |staged|
    {
      var k :| k in staged;
      if overlay[k].Some? && StartsWith(k, prefix) {
        assert k in Project(live, overlay);
        return false;
      }
      staged := staged - {k};
    }
    var scan := set k | k in live && StartsWith(k, prefix);
    while scan != {}
      invariant scan <= live.Keys
      invariant forall k :: k in scan ==> StartsWith(k, prefix)
      invariant forall k :: k in live && StartsWith(k, prefix) && k !in scan ==> k in overlay && overlay[k].None?
      decreases |scan|
    {
      var k :| k in scan;
      if !(k in overlay && overlay[k].None?) {
        assert k in Project(live, overlay);
        return false;
      }
      scan := scan - {k};
    }
    return true;
  }

  // ---------- preflight ----------

  datatype Verdict = Commit | Refuse | Error(fault: Fault)

  function VerdictOf(r: Outcome): Verdict {
    match r
    case Done(_) => Commit
    case Failed(GuardFailed) => Refuse
    case Failed(fault) => Error(fault)
  }

  /** One operation against overlay and live tree; the overlay follows the sequential meaning. */
  method PreflightOp(live: Tree, overlay: Overlay, op: BatchOp, seqno: nat)
    returns (verdict: Verdict, overlay': Overlay)
    ensures verdict == VerdictOf(Step(Project(live, overlay), op, seqno))
    ensures verdict.Commit? ==> Project(live, overlay') == Step(Project(live, overlay), op, seqno).tree
  {
    overlay' := overlay;
    match op {
      case Put(key, value) =>
        if InsertShape(key, value).Some? { return Error(InsertShape(key, value).value), overlay'; }
        ProjectPut(live, overlay, key, Record(value, seqno));
        overlay' := overlay[key := Some(Record(value, seqno))];
      case PutIfAbsent(key, value) =>
        if InsertShape(key, value).Some? { return Error(InsertShape(key, value).value), overlay'; }
        if ProjectedRecord(live, overlay, key).Some? { return Refuse, overlay'; }
        ProjectPut(live, overlay, key, Record(value, seqno));
        overlay' := overlay[key := Some(Record(value, seqno))];
      case CompareAndPut(key, expected, value) =>
        if InsertShape(key, value).Some? { return Error(InsertShape(key, value).value), overlay'; }
        var rec := ProjectedRecord(live, overlay, key);
        if rec.None? || rec.value.version != expected { return Refuse, overlay'; }
        ProjectPut(live, overlay, key, Record(value, seqno));
        overlay' := overlay[key := Some(Record(value, seqno))];
      case Delete(key) =>
        ProjectDelete(live, overlay, key);
        overlay' := overlay[key := None];
      case DeleteIfVersion(key, expected) =>
        var rec := ProjectedRecord(live, overlay, key);
        if rec.None? || rec.value.version != expected { return Refuse, overlay'; }
        ProjectDelete(live, overlay, key);
        overlay' := overlay[key := None];
      case AssertVersion(key, expected) =>
        var rec := ProjectedRecord(live, overlay, key);
        if rec.None? || rec.value.version != expected { return Refuse, overlay'; }
      case AssertPrefixEmpty(prefix) =>
        var empty := ProjectedPrefixEmpty(live, overlay, prefix);
        if !empty { return Refuse, overlay'; }
      case Rename(src, dst, force) =>
        var rec := ProjectedRecord(live, overlay, src);
        if rec.None? { return Error(NotFound), overlay'; }
        if src == dst { return Commit, overlay'; }
        if !force && ProjectedRecord(live, overlay, dst).Some? { return Error(DstExists), overlay'; }
        if InsertShape(dst, rec.value.value).Some? { return Error(InsertShape(dst, rec.value.value).value), overlay'; }
        ProjectDelete(live, overlay, src);
        ProjectPut(live, overlay[src := None], dst, Record(rec.value.value, seqno));
        overlay' := overlay[src := None][dst := Some(Record(rec.value.value, seqno))];
    }
    verdict := Commit;
  }

  predicate GuardFree(ops: seq<BatchOp>) {
    forall i :: 0 <= i < |ops| ==> ops[i].Put? || ops[i].Delete?
  }

  /** Put-only and delete-only batches are checked for their shape alone. */
  method PreflightGuardFree(live: Tree, ops: seq<BatchOp>, base: nat) returns (verdict: Verdict)
    requires GuardFree(ops)
    ensures verdict == VerdictOf(Run(live, ops, base))
  {
    for i := 0 to |ops|
      invariant Run(live, ops[..i], base).Done?
    {
      assert ops[..i + 1][..i] == ops[..i];
      if ops[i].Put? && InsertShape(ops[i].key, ops[i].value).Some? {
        RunFailsEarly(live, ops, base, i + 1);
        return Error(InsertShape(ops[i].key, ops[i].value).value);
      }
    }
    assert ops[..|ops|] == ops;
    verdict := Commit;
  }

  /** The verdict of a batch is that of its sequential meaning, whichever path decides it. */
  method Preflight(live: Tree, ops: seq<BatchOp>, base: nat) returns (verdict: Verdict)
    ensures verdict == VerdictOf(Run(live, ops, base))
  {
    hide Step, Project;
    if GuardFree(ops) {
      verdict := PreflightGuardFree(live, ops, base);
      return;
    }
    var overlay: Overlay := map[];
    var offset := 0;
    ProjectNothing(live);
    for i := 0 to |ops|
      invariant offset == WalCount(ops[..i])
      invariant Run(live, ops[..i], base) == Done(Project(live, overlay))
    {
      assert ops[..i + 1][..i] == ops[..i];
      var v, overlay' := PreflightOp(live, overlay, ops[i], base + offset);
      if !v.Commit? {
        RunFailsEarly(live, ops, base, i + 1);
        return v;
      }
      overlay := overlay';
      if EmitsWal(ops[i]) { offset := offset + 1; }
    }
    assert ops[..|ops|] == ops;
    verdict := Commit;
  }
}
