/**
 The reference model of the batch fuzzer: a plain key-value map with a set of
 touched keys and no versions. Batches whose guards name versions read before the
 batch behave as this model says.
 */
module BatchOracle {
  import opened Bytes
  import opened AtomicBatch
  import opened BatchReplay

  type Model = map<Bytes, Bytes>

  datatype ModelOp =
    | MPut(key: Bytes, value: Bytes)
    | MDelete(key: Bytes)
    | MPutIfAbsent(key: Bytes, value: Bytes)
    | MCompareAndPutCurrent(key: Bytes, value: Bytes)
    | MDeleteIfCurrent(key: Bytes)
    | MAssertCurrent(key: Bytes)
    | MAssertStale(key: Bytes)
    | MAssertPrefixEmpty(prefix: Bytes)
    | MRename(src: Bytes, dst: Bytes, force: bool)

  datatype ModelState = Staged(staged: Model, touched: set<Bytes>) | ModelErr(fault: Fault)

  function Write(s: ModelState, key: Bytes, value: Bytes): ModelState
    requires s.Staged?
  {
    Staged(s.staged[key := value], s.touched + {key})
  }

  function ModelStep(model: Model, s: ModelState, op: ModelOp): ModelState
    requires s.Staged?
  {
    match op
    case MPut(k, v) => Write(s, k, v)
    case MDelete(k) => Staged(s.staged - {k}, s.touched + {k})
    case MPutIfAbsent(k, v) => if k in s.staged then ModelErr(GuardFailed) else Write(s, k, v)
    case MCompareAndPutCurrent(k, v) => if k !in model || k in s.touched then ModelErr(GuardFailed) else Write(s, k, v)
    case MDeleteIfCurrent(k) =>
      if k !in model || k in s.touched then ModelErr(GuardFailed) else Staged(s.staged - {k}, s.touched + {k})
    case MAssertCurrent(k) => if k !in model || k in s.touched then ModelErr(GuardFailed) else s
    case MAssertStale(_) => ModelErr(GuardFailed)
    case MAssertPrefixEmpty(p) => if exists k :: k in s.staged && StartsWith(k, p) then ModelErr(GuardFailed) else s
    case MRename(src, dst, force) =>
      if src !in s.staged then ModelErr(NotFound)
      else if src == dst then s
      else if !force && dst in s.staged then ModelErr(DstExists)
      else Staged((s.staged - {src})[dst := s.staged[src]], s.touched + {src, dst})
  }

  function ModelRun(model: Model, ops: seq<ModelOp>): ModelState {
    if ops == [] then Staged(model, {})
    else match ModelRun(model, ops[..|ops| - 1])
         case ModelErr(fault) => ModelErr(fault)
         case Staged(m, t) => ModelStep(model, Staged(m, t), ops[|ops| - 1])
  }

  // ---------- batches that the model stands for ----------

  const U64_MAX: nat := U64_LIMIT - 1

  function CurrentVersion(tree: Tree, key: Bytes): nat { if key in tree then tree[key].version else U64_MAX }

  function Concrete(tree: Tree, op: ModelOp): BatchOp {
    match op
    case MPut(k, v) => Put(k, v)
    case MDelete(k) => Delete(k)
    case MPutIfAbsent(k, v) => PutIfAbsent(k, v)
    case MCompareAndPutCurrent(k, v) => CompareAndPut(k, CurrentVersion(tree, k), v)
    case MDeleteIfCurrent(k) => DeleteIfVersion(k, CurrentVersion(tree, k))
    case MAssertCurrent(k) => AssertVersion(k, CurrentVersion(tree, k))
    case MAssertStale(k) => AssertVersion(k, U64_MAX)
    case MAssertPrefixEmpty(p) => AssertPrefixEmpty(p)
    case MRename(src, dst, force) => Rename(src, dst, force)
  }

  function ConcreteAll(tree: Tree, ops: seq<ModelOp>): (r: seq<BatchOp>)
    ensures |r| == |ops|
  {
    seq(|ops|, i requires 0 <= i < |ops| => Concrete(tree, ops[i]))
  }

  function Values(tree: Tree): Model { map k | k in tree :: tree[k].value }

  predicate Fits(op: ModelOp) {
    match op
    case MPut(k, v) => InsertShape(k, v).None?
    case MPutIfAbsent(k, v) => InsertShape(k, v).None?
    case MCompareAndPutCurrent(k, v) => InsertShape(k, v).None?
    case MRename(_, dst, _) => InsertShape(dst, []).None?
    case _ => true
  }

  predicate AllFit(ops: seq<ModelOp>) { forall i :: 0 <= i < |ops| ==> Fits(ops[i]) }

  /** Untouched keys hold their old record; touched keys hold a version of this batch. */
  ghost predicate Tracks(before: Tree, base: nat, now: Tree, s: ModelState) {
    && s.Staged?
    && s.staged == Values(now)
    && (forall k :: k !in s.touched ==> (k in now <==> k in before) && (k in now ==> now[k] == before[k]))
    && (forall k :: k in s.touched && k in now ==> base <= now[k].version)
  }

  lemma RenameTracks(before: Tree, base: nat, now: Tree, s: ModelState, op: ModelOp, seqno: nat)
    requires op.MRename? && Tracks(before, base, now, s) && Fits(op) && WellShaped(now)
    requires VersionsBelow(before, base) && base <= seqno < U64_MAX && VersionsBelow(now, seqno)
    ensures var next := ModelStep(Values(before), s, op);
            match Step(now, Concrete(before, op), seqno)
            case Done(t) => Tracks(before, base, t, next)
            case Failed(fault) => next == ModelErr(fault)
  {
    if op.src in now { assert InsertShape(op.src, now[op.src].value).None?; }
  }

  predicate MInserts(op: ModelOp) { op.MPut? || op.MPutIfAbsent? || op.MCompareAndPutCurrent? }

  lemma InsertTracks(before: Tree, base: nat, now: Tree, s: ModelState, op: ModelOp, seqno: nat)
    requires MInserts(op) && Tracks(before, base, now, s) && Fits(op) && WellShaped(now)
    requires VersionsBelow(before, base) && base <= seqno < U64_MAX && VersionsBelow(now, seqno)
    ensures var next := ModelStep(Values(before), s, op);
            match Step(now, Concrete(before, op), seqno)
            case Done(t) => Tracks(before, base, t, next)
            case Failed(fault) => next == ModelErr(fault)
  {
  }

  lemma OtherTracks(before: Tree, base: nat, now: Tree, s: ModelState, op: ModelOp, seqno: nat)
    requires !op.MRename? && !MInserts(op) && Tracks(before, base, now, s) && Fits(op) && WellShaped(now)
    requires VersionsBelow(before, base) && base <= seqno < U64_MAX && VersionsBelow(now, seqno)
    ensures var next := ModelStep(Values(before), s, op);
            match Step(now, Concrete(before, op), seqno)
            case Done(t) => Tracks(before, base, t, next)
            case Failed(fault) => next == ModelErr(fault)
  {
  }

  lemma StepTracks(before: Tree, base: nat, now: Tree, s: ModelState, op: ModelOp, seqno: nat)
    requires Tracks(before, base, now, s) && Fits(op) && WellShaped(now)
    requires VersionsBelow(before, base) && base <= seqno < U64_MAX && VersionsBelow(now, seqno)
    ensures var next := ModelStep(Values(before), s, op);
            match Step(now, Concrete(before, op), seqno)
            case Done(t) => Tracks(before, base, t, next)
            case Failed(fault) => next == ModelErr(fault)
  {
    hide Step, ModelStep, Concrete, Tracks, Fits;
    if op.MRename? {
      RenameTracks(before, base, now, s, op, seqno);
    } else if MInserts(op) {
      InsertTracks(before, base, now, s, op, seqno);
    } else {
      OtherTracks(before, base, now, s, op, seqno);
    }
  }

  /** Every batch with version guards read beforehand gives the model's verdict and contents. */
  lemma {:induction false} MatchesModel(tree: Tree, ops: seq<ModelOp>, base: nat)
    requires AllFit(ops) && WellShaped(tree) && VersionsBelow(tree, base)
    requires base + |ops| <= 0xFFFF_FFFF_FFFF_FFFF
    ensures WalCount(ConcreteAll(tree, ops)) <= |ops|
    ensures var s := ModelRun(Values(tree), ops);
            match Run(tree, ConcreteAll(tree, ops), base)
            case Done(t) =>
              Tracks(tree, base, t, s) && WellShaped(t) && VersionsBelow(t, base + WalCount(ConcreteAll(tree, ops)))
            case Failed(fault) => s == ModelErr(fault)
    decreases |ops|
  {
    hide Step, ModelStep, Concrete, Tracks, WellShaped, VersionsBelow, Fits;
    if ops == [] {
      StartTracks(tree, base);
    } else {
      var front, last := ops[..|ops| - 1], ops[|ops| - 1];
      MatchesModel(tree, front, base);
      assert ConcreteAll(tree, ops)[..|ops| - 1] == ConcreteAll(tree, front);
      match Run(tree, ConcreteAll(tree, front), base)
      case Failed(_) =>
      case Done(t) =>
        var s, seqno := ModelRun(Values(tree), front), base + WalCount(ConcreteAll(tree, front));
        StepTracks(tree, base, t, s, last, seqno);
        if Step(t, Concrete(tree, last), seqno).Done? { StepKeeps(t, Concrete(tree, last), seqno); }
        Staging(tree, base, t, s);
    }
  }

  lemma StartTracks(tree: Tree, base: nat)
    ensures Tracks(tree, base, tree, Staged(Values(tree), {}))
  {
  }

  lemma Staging(before: Tree, base: nat, now: Tree, s: ModelState)
    requires Tracks(before, base, now, s)
    ensures s.Staged?
  {
  }
}
