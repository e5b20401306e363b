/**
 A database handle over a live forest and its log. Its invariant is recovery: the
 log replayed on the starting forest gives the live contents. Every operation
 keeps it, except a rename to a key that is too long.
 */
module Database {
  import opened Bytes
  import opened AtomicBatch
  import opened BatchApply
  import opened BatchMeaning
  import opened BatchReplay
  import opened DbBatch
  import WalOps

  datatype LogRecord = LogRecord(base: nat, ops: seq<WalOps.WalOp>)

  function ReplayLog(start: Forest, log: seq<LogRecord>): Replayed {
    if log == [] then Replayed(start)
    else match ReplayLog(start, log[..|log| - 1])
         case ReplayError(fault) => ReplayError(fault)
         case Replayed(f) => Replay(f, log[|log| - 1].ops, log[|log| - 1].base)
  }

  /** Replay succeeds and gives the live contents; live records are older than `next`. */
  predicate Recovers(start: Forest, log: seq<LogRecord>, live: Forest, next: nat) {
    ReplayLog(start, log).Replayed? && Agrees(ReplayLog(start, log).forest, live, next)
  }

  function StaleAfter(start: Forest, log: seq<LogRecord>, live: Forest, tree: nat): set<Bytes> {
    match ReplayLog(start, log)
    case Replayed(f) => Stale(f, live, tree)
    case ReplayError(_) => {}
  }

  lemma ReplayLogAppend(start: Forest, log: seq<LogRecord>, rec: LogRecord)
    requires ReplayLog(start, log).Replayed?
    ensures ReplayLog(start, log + [rec]) == Replay(ReplayLog(start, log).forest, rec.ops, rec.base)
  {
    assert (log + [rec])[..|log|] == log;
  }

  /** Groups that ran and were logged as one record keep the log sufficient. */
  lemma Logged(start: Forest, log: seq<LogRecord>, live: Forest, next: nat, groups: seq<Group>)
    requires Recovers(start, log, live, next) && RunGroups(live, groups, next).AllDone?
    requires forall i :: 0 <= i < |groups| ==> groups[i].tree in live
    ensures var log' := log + [LogRecord(next, GroupsLog(groups))];
            var live' := RunGroups(live, groups, next).forest;
            && live'.Keys == live.Keys
            && Recovers(start, log', live', next + GroupsCount(groups))
            && forall t ::
                 StaleAfter(start, log', live', t) == Restamped(StaleAfter(start, log, live, t), OpsOn(groups, t))
  {
    hide RunGroups, Agrees, GroupsLog, GroupsCount, Stale, Restamped, OpsOn, Replay, ReplayLog;
    ReplayLogAppend(start, log, LogRecord(next, GroupsLog(groups)));
    GroupsReplay(live, ReplayLog(start, log).forest, groups, next);
  }

  /** The same for operations on one tree. */
  lemma LoggedOne(start: Forest, log: seq<LogRecord>, live: Forest, next: nat, tree: nat, ops: seq<BatchOp>)
    requires Recovers(start, log, live, next) && tree in live && Run(live[tree], ops, next).Done?
    ensures var log' := log + [LogRecord(next, LogOf(tree, ops))];
            var live' := live[tree := Run(live[tree], ops, next).tree];
            && Recovers(start, log', live', next + WalCount(ops))
            && forall t :: StaleAfter(start, log', live', t)
                        == Restamped(StaleAfter(start, log, live, t), if t == tree then ops else [])
  {
    hide Recovers, StaleAfter, Restamped, Run, LogOf, WalCount, OpsOn;
    var group := Group(tree, ops);
    assert [group][..0] == [];
    assert RunGroups(live, [], next) == AllDone(live) && GroupsLog([]) == [] && GroupsCount([]) == 0;
    assert GroupsLog([group]) == LogOf(tree, ops);
    Logged(start, log, live, next, [group]);
    forall t { OpsOnOne(group, t); }
  }

  lemma RecoversLater(start: Forest, log: seq<LogRecord>, live: Forest, next: nat, later: nat)
    requires Recovers(start, log, live, next) && next <= later
    ensures Recovers(start, log, live, later)
  {
    AgreesLater(ReplayLog(start, log).forest, live, next, later);
  }

  lemma {:induction false} OnlyAsserts(tree: Tree, ops: seq<BatchOp>, base: nat)
    requires WalCount(ops) == 0 && Run(tree, ops, base).Done?
    ensures Run(tree, ops, base).tree == tree
    ensures forall before :: Restamped(before, ops) == before
    decreases |ops|
  {
    if ops != [] { OnlyAsserts(tree, ops[..|ops| - 1], base); }
  }

  function RestampedOne(before: set<Bytes>, op: BatchOp): (r: set<Bytes>)
    ensures r == Restamped(before, [op])
  {
    assert [op][..0] == [];
    RestampedBy(before, op)
  }

  /** A rename that erases its source and then cannot insert its destination. */
  predicate LosesSource(tree: Tree, src: Bytes, dst: Bytes, force: bool) {
    src in tree && src != dst && (force || dst !in tree) && |dst| > 65534
  }

  /** A concrete one: the batch form refuses it, the single form loses the key. */
  lemma RenameCanLoseSource()
    ensures var tree: Tree := map[[1] := Record([], 1)];
            var dst := seq(65535, _ => 0);
            && LosesSource(tree, [1], dst, false)
            && Step(tree, AtomicBatch.Rename([1], dst, false), 2) == Failed(KeyTooLong(65536))
  {
    var dst: Bytes := seq(65535, _ => 0);
    assert |dst| == 65535 && |[1]| == 1;
  }

  datatype Reply = TreeDropped | Mutated | Unmutated | Failure(fault: Fault)

  datatype BatchReply = Committed | Refused | BatchFailure(fault: Fault) | TreeNotFound

  function PutOp(key: Bytes, value: Bytes, condition: Condition): (op: BatchOp)
    ensures InsertLike(op) && Writes(op) == {key} && op.value == value
  {
    match condition
    case Always => Put(key, value)
    case IfAbsent => PutIfAbsent(key, value)
    case IfVersion(v) => CompareAndPut(key, v, value)
  }

  function DeleteOp(key: Bytes, expected: Option<nat>): BatchOp {
    if expected.Some? then DeleteIfVersion(key, expected.value) else Delete(key)
  }

  function ReplyFor(r: Outcome): Reply {
    match r
    case Done(_) => Mutated
    case Failed(GuardFailed) => Unmutated
    case Failed(fault) => Failure(fault)
  }

  function BatchReplyFor(v: Verdict): BatchReply {
    match v
    case Commit => Committed
    case Refuse => Refused
    case Error(fault) => BatchFailure(fault)
  }

  /** What a put answers: an unconditional one that fits is stored under the next number. */
  ghost predicate PutAnswer(tree: Tree, key: Bytes, value: Bytes, condition: Condition, r: Reply) {
    if |key| > 65534 then r == Failure(KeyTooLong(|key| + 1))
    else if |value| > 65535 then r == Failure(ValueTooLong(|value|))
    else match condition
         case Always => r == Mutated
         case IfAbsent => r == if key in tree then Unmutated else Mutated
         case IfVersion(v) => r == if key in tree && tree[key].version == v then Mutated else Unmutated
  }

  /** What a batch answers: the first failing operation decides, a failed guard as a refusal and any
      other fault as an error. */
  ghost predicate BatchAnswer(tree: Tree, ops: seq<BatchOp>, base: nat, r: BatchReply) {
    && (forall i: nat, f :: FirstFault(tree, ops, base, i, f) ==>
          r == if f == GuardFailed then Refused else BatchFailure(f))
    && ((forall i: nat, f :: !FirstFault(tree, ops, base, i, f)) ==> r == Committed)
  }

  /** What a batch over several trees answers: the first group with a failing operation decides. */
  ghost predicate GroupsAnswer(live: Forest, groups: seq<Group>, base: nat, r: BatchReply) {
    && (forall i: nat, f :: FailsAlone(live, groups, base, i, f) ==>
          BatchAnswer(At(live, groups[i].tree), groups[i].ops, base + GroupsCount(groups[..i]), r))
    && ((forall i: nat, f :: !FailsAlone(live, groups, base, i, f)) ==> r == Committed)
  }

  /** What a commit over several trees leaves: each group on its own tree, all others as they were. */
  ghost predicate GroupsRead(live: Forest, live': Forest, groups: seq<Group>, base: nat) {
    && (forall i: nat, k: Bytes :: i < |groups| ==> GroupReads(live, live', groups, base, i, k))
    && (forall t :: (forall i :: 0 <= i < |groups| ==> groups[i].tree != t) ==> At(live', t) == At(live, t))
  }

  ghost predicate GroupReads(live: Forest, live': Forest, groups: seq<Group>, base: nat, i: nat, k: Bytes)
    requires i < |groups|
  {
    var t := groups[i].tree;
    BatchReads(At(live, t), At(live', t), groups[i].ops, base + GroupsCount(groups[..i]), k)
  }

  lemma GroupsReads(live: Forest, groups: seq<Group>, base: nat)
    requires DistinctTrees(groups) && RunGroups(live, groups, base).AllDone?
    ensures GroupsRead(live, RunGroups(live, groups, base).forest, groups, base)
  {
    hide RunGroups, BatchReads, GroupsCount, Run;
    GroupsAlone(live, groups, base);
    var f := RunGroups(live, groups, base).forest;
    forall i: nat, k: Bytes | i < |groups| ensures GroupReads(live, f, groups, base, i, k) {
      assert GroupOutcome(live, groups, base, i).Done?;
      RunReads(At(live, groups[i].tree), groups[i].ops, base + GroupsCount(groups[..i]), k);
    }
  }

  lemma GroupsAnswers(live: Forest, groups: seq<Group>, base: nat)
    requires DistinctTrees(groups)
    ensures GroupsAnswer(live, groups, base, BatchReplyFor(ForestVerdict(RunGroups(live, groups, base))))
  {
    hide RunGroups, BatchAnswer, GroupsCount, Run;
    GroupsAlone(live, groups, base);
    var r := BatchReplyFor(ForestVerdict(RunGroups(live, groups, base)));
    if RunGroups(live, groups, base).AllDone? {
      assert forall i :: 0 <= i < |groups| ==> GroupOutcome(live, groups, base, i).Done?;
    }
    forall i: nat, f | FailsAlone(live, groups, base, i, f)
      ensures BatchAnswer(At(live, groups[i].tree), groups[i].ops, base + GroupsCount(groups[..i]), r)
    {
      BatchAnswers(At(live, groups[i].tree), groups[i].ops, base + GroupsCount(groups[..i]));
      if RunGroups(live, groups, base).SomeFailed? {
        var j: nat :| FailsAlone(live, groups, base, j, RunGroups(live, groups, base).fault);
        assert j == i;
      }
    }
  }

  /** What a rename answers, when it does not lose its source. */
  ghost predicate RenameAnswer(tree: Tree, after: Tree, src: Bytes, dst: Bytes, force: bool, seqno: nat, r: Reply) {
    if src !in tree then r == Failure(NotFound) && after == tree
    else if src == dst then r == Unmutated && after == tree
    else if !force && dst in tree then r == Failure(DstExists) && after == tree
    else r == Mutated && after == (tree - {src})[dst := Record(tree[src].value, seqno)]
  }

  lemma BatchAnswers(tree: Tree, ops: seq<BatchOp>, base: nat)
    ensures BatchAnswer(tree, ops, base, BatchReplyFor(VerdictOf(Run(tree, ops, base))))
  {
    hide Run, FirstFault;
    RunFaults(tree, ops, base);
  }

  lemma RunSingle(tree: Tree, id: nat, op: BatchOp, seqno: nat)
    ensures Run(tree, [op], seqno) == Step(tree, op, seqno)
    ensures LogOf(id, [op]) == OpLog(id, op)
  {
    RunOne(tree, op, seqno);
    assert [op][..0] == [];
  }

  class Database {
    const start: Forest
    const catalog: map<Name, nat>
    var live: Forest
    var nextSeq: nat
    var log: seq<LogRecord>

    ghost predicate Valid()
      reads this
    {
      && Recovers(start, log, live, nextSeq)
      && (forall n :: n in catalog ==> catalog[n] in live)
      && (forall m, n :: m in catalog && n in catalog && catalog[m] == catalog[n] ==> m == n)
    }

    /** Keys of a tree that recovery brings back under another version. */
    ghost function StaleKeys(tree: nat): set<Bytes>
      reads this
    {
      StaleAfter(start, log, live, tree)
    }

    constructor (forest: Forest, names: map<Name, nat>, seqno: nat)
      requires forall t :: t in forest ==> WellShaped(forest[t]) && VersionsBelow(forest[t], seqno)
      requires forall n :: n in names ==> names[n] in forest
      requires forall m, n :: m in names && n in names && names[m] == names[n] ==> m == n
      ensures Valid() && live == forest && nextSeq == seqno && log == []
      ensures forall t :: StaleKeys(t) == {}
    {
      start, catalog, live, nextSeq, log := forest, names, forest, seqno, [];
    }

    /** `put`, `put_if_absent` and `compare_and_put`: logged when they mutate. */
    method PutConditional(tree: nat, key: Bytes, value: Bytes, condition: Condition) returns (r: Reply)
      requires Valid()
      modifies this
      ensures Valid()
      ensures tree !in old(live) ==> r == TreeDropped && live == old(live)
      ensures tree in old(live) ==>
        var outcome := Step(old(live)[tree], PutOp(key, value, condition), old(nextSeq));
        && r == ReplyFor(outcome)
        && live == if outcome.Done? then old(live)[tree := outcome.tree] else old(live)
      ensures tree in old(live) ==> PutAnswer(old(live)[tree], key, value, condition, r)
      ensures r == Mutated ==> tree in live && key in live[tree] && live[tree][key] == Record(value, old(nextSeq))
      ensures nextSeq == old(nextSeq) + if tree in old(live) then 1 else 0
      ensures log == old(log) + if r.Mutated? then [LogRecord(old(nextSeq), [WalOps.Insert(tree, key, value)])] else []
      ensures forall t :: StaleKeys(t) == old(StaleKeys(t)) - (if r.Mutated? && t == tree then {key} else {})
    {
      hide Recovers, StaleAfter, Restamped, Run, LogOf, WalCount;
      if tree !in live { return TreeDropped; }
      var seqno := nextSeq;
      nextSeq := nextSeq + 1;
      RecoversLater(start, log, live, seqno, nextSeq);
      if InsertShape(key, value).Some? { return Failure(InsertShape(key, value).value); }
      if !Holds(live[tree], key, condition) { return Unmutated; }
      ghost var op := PutOp(key, value, condition);
      LogOne(live[tree], tree, op, seqno);
      live := live[tree := live[tree][key := Record(value, seqno)]];
      log := log + [LogRecord(seqno, [WalOps.Insert(tree, key, value)])];
      r := Mutated;
    }

    lemma LogOne(before: Tree, tree: nat, op: BatchOp, seqno: nat)
      requires Recovers(start, log, live, seqno) && tree in live && before == live[tree]
      requires EmitsWal(op) && Step(before, op, seqno).Done?
      ensures var log' := log + [LogRecord(seqno, OpLog(tree, op))];
              var live' := live[tree := Step(before, op, seqno).tree];
              && Recovers(start, log', live', seqno + 1)
              && forall t :: StaleAfter(start, log', live', t) ==
                   (if t == tree then RestampedBy(StaleKeys(t), op) else StaleKeys(t))
    {
      hide Recovers, StaleAfter, Restamped, Run, LogOf, Step, RestampedBy, OpLog;
      RunSingle(before, tree, op, seqno);
      RunOne(before, op, seqno);
      LoggedOne(start, log, live, seqno, tree, [op]);
      forall t { NothingRestamped(StaleKeys(t)); }
      assert Restamped(StaleKeys(tree), [op]) == RestampedOne(StaleKeys(tree), op);
    }

    /** `delete` and `delete_if_version`: a delete that removes nothing is not logged. */
    method DeleteConditional(tree: nat, key: Bytes, expected: Option<nat>) returns (r: Reply)
      requires Valid()
      modifies this
      ensures Valid()
      ensures tree !in old(live) ==> r == TreeDropped && live == old(live)
      ensures tree in old(live) ==>
        && r == (if key in old(live)[tree] && (expected.Some? ==> old(live)[tree][key].version == expected.value)
                 then Mutated else Unmutated)
        && live == if r.Mutated? then old(live)[tree := old(live)[tree] - {key}] else old(live)
      ensures nextSeq == old(nextSeq) + if tree in old(live) then 1 else 0
      ensures log == old(log) + if r.Mutated? then [LogRecord(old(nextSeq), [WalOps.Erase(tree, key)])] else []
      ensures forall t :: StaleKeys(t) == old(StaleKeys(t)) - (if r.Mutated? && t == tree then {key} else {})
    {
      hide Recovers, StaleAfter, Restamped, Run, LogOf, WalCount;
      if tree !in live { return TreeDropped; }
      var seqno := nextSeq;
      nextSeq := nextSeq + 1;
      RecoversLater(start, log, live, seqno, nextSeq);
      if key !in live[tree] { return Unmutated; }
      if expected.Some? && live[tree][key].version != expected.value { return Unmutated; }
      LogOne(live[tree], tree, DeleteOp(key, expected), seqno);
      live := live[tree := live[tree] - {key}];
      log := log + [LogRecord(seqno, [WalOps.Erase(tree, key)])];
      r := Mutated;
    }

    /** A failing rename changes nothing and the log stays sufficient, unless the destination is
        too long: then the source is gone from the live tree and only the log still has it. */
    method Rename(tree: nat, src: Bytes, dst: Bytes, force: bool) returns (r: Reply)
      requires Valid()
      modifies this
      ensures tree !in old(live) ==> r == TreeDropped && live == old(live) && Valid()
      ensures tree in old(live) ==> (Valid() <==> !LosesSource(old(live)[tree], src, dst, force))
      ensures tree in old(live) && LosesSource(old(live)[tree], src, dst, force) ==>
        r.Failure? && live == old(live)[tree := old(live)[tree] - {src}]
      ensures tree in old(live) && !LosesSource(old(live)[tree], src, dst, force) ==>
        var outcome := Step(old(live)[tree], AtomicBatch.Rename(src, dst, force), old(nextSeq));
        && r == (if outcome.Done? && src == dst then Unmutated else ReplyFor(outcome))
        && live == if outcome.Done? then old(live)[tree := outcome.tree] else old(live)
      ensures tree in old(live) && LosesSource(old(live)[tree], src, dst, force) ==> r == Failure(KeyTooLong(|dst| + 1))
      ensures tree in old(live) && !LosesSource(old(live)[tree], src, dst, force) ==>
        tree in live && RenameAnswer(old(live)[tree], live[tree], src, dst, force, old(nextSeq), r)
      ensures tree in old(live) && !LosesSource(old(live)[tree], src, dst, force) ==>
        forall t :: StaleKeys(t) == old(StaleKeys(t)) - (if r.Mutated? && t == tree then {src, dst} else {})
      ensures nextSeq == old(nextSeq) + if tree in old(live) then 1 else 0
      ensures log == old(log) + if r.Mutated?
                                then [LogRecord(old(nextSeq), [WalOps.RenameObject(tree, src, dst, force)])]
                                else []
    {
      hide Recovers, StaleAfter, Restamped, Run, LogOf, WalCount;
      if tree !in live { return TreeDropped; }
      var seqno := nextSeq;
      nextSeq := nextSeq + 1;
      RecoversLater(start, log, live, seqno, nextSeq);
      if src !in live[tree] { return Failure(NotFound); }
      var value := live[tree][src].value;
      ghost var before := live[tree];
      ShapesHold(start, log, live, seqno, tree, src);
      if src == dst {
        assert live == live[tree := before];
        return Unmutated;
      }
      if !force && dst in live[tree] { return Failure(DstExists); }
      ghost var op := AtomicBatch.Rename(src, dst, force);
      if InsertShape(dst, value).None? { LogOne(before, tree, op, seqno); }
      live := live[tree := live[tree] - {src}];
      if InsertShape(dst, value).Some? {
        assert live[tree := before] == old(live);
        LostKey(start, log, live, tree, before, src, nextSeq);
        return Failure(InsertShape(dst, value).value);
      }
      live := live[tree := live[tree][dst := Record(value, seqno)]];
      assert live == old(live)[tree := Step(before, op, seqno).tree];
      log := log + [LogRecord(seqno, [WalOps.RenameObject(tree, src, dst, force)])];
      r := Mutated;
    }

    /** One atomic batch on one tree. */
    method Atomic(tree: nat, ops: seq<BatchOp>) returns (r: BatchReply)
      requires Valid()
      modifies this
      ensures Valid()
      ensures tree !in old(live) ==> r == TreeNotFound && live == old(live)
      ensures tree in old(live) ==>
        var outcome := Run(old(live)[tree], ops, old(nextSeq));
        && nextSeq == old(nextSeq) + WalCount(ops)
        && r == BatchReplyFor(VerdictOf(outcome))
        && live == if outcome.Done? then old(live)[tree := outcome.tree] else old(live)
      ensures tree in old(live) ==> BatchAnswer(old(live)[tree], ops, old(nextSeq), r)
      ensures r == Committed ==> tree in live && live == old(live)[tree := live[tree]]
      ensures r == Committed ==>
        forall k: Bytes :: BatchReads(old(live)[tree], live[tree], ops, old(nextSeq), k)
      ensures r != Committed ==> live == old(live)
      ensures tree !in old(live) ==> nextSeq == old(nextSeq)
      ensures log == old(log) + if r.Committed? && WalCount(ops) > 0
                                then [LogRecord(old(nextSeq), LogOf(tree, ops))]
                                else []
      ensures forall t :: t != tree || !r.Committed? ==> StaleKeys(t) == old(StaleKeys(t))
      ensures r.Committed? ==> StaleKeys(tree) == Restamped(old(StaleKeys(tree)), ops)
    {
      hide Recovers, StaleAfter, Restamped, Run, LogOf, WalCount, ItemsOf, BatchAnswer, BatchReads;
      if tree !in live { return TreeNotFound; }
      var base := nextSeq;
      BatchAnswers(live[tree], ops, base);
      ghost var outcome := Run(live[tree], ops, base);
      if outcome.Done? {
        forall k: Bytes ensures BatchReads(live[tree], outcome.tree, ops, base, k) {
          RunReads(live[tree], ops, base, k);
        }
      }
      nextSeq := nextSeq + WalCount(ops);
      RecoversLater(start, log, live, base, nextSeq);
      var verdict := Preflight(live[tree], ops, base);
      if !verdict.Commit? { return BatchReplyFor(verdict); }
      if WalCount(ops) == 0 {
        OnlyAsserts(live[tree], ops, base);
        assert live == live[tree := live[tree]];
        return Committed;
      }
      LoggedOne(start, log, live, base, tree, ops);
      forall t ensures Restamped(StaleAfter(start, log, live, t), []) == StaleAfter(start, log, live, t) {
        NothingRestamped(StaleAfter(start, log, live, t));
      }
      var walker := new Walker(live[tree]);
      var ok, items := walker.ApplyBatch(tree, ops, base);
      assert ok;
      ItemsLogEveryOp(tree, ops);
      live := live[tree := walker.live];
      log := log + [LogRecord(base, WalOps.Flat(items))];
      r := Committed;
    }

    /** One atomic batch over several trees, under one record. */
    method AtomicDb(pending: seq<Pending>) returns (r: BatchReply)
      requires Valid()
      modifies this
      ensures Valid()
      ensures !Known(pending, catalog) ==> r == TreeNotFound && live == old(live) && log == old(log)
      ensures !Known(pending, catalog) ==> nextSeq == old(nextSeq)
      ensures Known(pending, catalog) ==> exists groups ::
        && Groups(pending, catalog, groups)
        && nextSeq == old(nextSeq) + GroupsCount(groups)
        && r == BatchReplyFor(ForestVerdict(RunGroups(old(live), groups, old(nextSeq))))
        && GroupsAnswer(old(live), groups, old(nextSeq), r)
        && (if r == Committed then GroupsRead(old(live), live, groups, old(nextSeq)) else live == old(live))
        && live == (if r.Committed? then RunGroups(old(live), groups, old(nextSeq)).forest else old(live))
        && log == old(log) + (if r.Committed? && GroupsCount(groups) > 0
                              then [LogRecord(old(nextSeq), GroupsLog(groups))] else [])
        && forall t :: StaleKeys(t) ==
             if r.Committed? then Restamped(old(StaleKeys(t)), OpsOn(groups, t)) else old(StaleKeys(t))
    {
      hide Recovers, StaleAfter, Restamped, RunGroups, GroupsLog, GroupsItems, GroupsCount, Groups, OpsOn, GroupsAnswer,
           GroupsRead;
      var grouped := GroupBatchOps(pending, catalog);
      if grouped.None? { return TreeNotFound; }
      var groups := grouped.value;
      GroupTrees(pending, catalog, groups);
      var base := nextSeq;
      nextSeq := nextSeq + GroupsCount(groups);
      RecoversLater(start, log, live, base, nextSeq);
      GroupsAnswers(live, groups, base);
      if RunGroups(live, groups, base).AllDone? { GroupsReads(live, groups, base); }
      var verdict := PreflightGroups(live, groups, base);
      if !verdict.Commit? { return BatchReplyFor(verdict); }
      Logged(start, log, live, base, groups);
      if GroupsCount(groups) == 0 {
        NothingLogged(live, groups, base);
        forall t { NothingRestampedBy(groups, t); }
        return Committed;
      }
      var ok, live', items := ApplyGroups(live, groups, base);
      assert ok;
      GroupsItemsLog(groups);
      live := live';
      log := log + [LogRecord(base, WalOps.Flat(items))];
      r := Committed;
    }
  }

  lemma ShapesHold(start: Forest, log: seq<LogRecord>, live: Forest, next: nat, tree: nat, key: Bytes)
    requires Recovers(start, log, live, next) && tree in live && key in live[tree]
    ensures InsertShape(key, live[tree][key].value).None?
  {
    assert TreeAgrees(ReplayLog(start, log).forest[tree], live[tree], next);
  }

  lemma LostKey(start: Forest, log: seq<LogRecord>, live: Forest, tree: nat, before: Tree, key: Bytes, next: nat)
    requires tree in live && live[tree] == before - {key} && key in before
    requires Recovers(start, log, live[tree := before], next)
    ensures !Recovers(start, log, live, next)
  {
    var g := ReplayLog(start, log).forest;
    assert TreeAgrees(g[tree], live[tree := before][tree], next);
    assert key in g[tree] && key !in live[tree];
    assert tree in g ==> !TreeAgrees(g[tree], live[tree], next);
  }

  lemma GroupTrees(pending: seq<Pending>, catalog: map<Name, nat>, groups: seq<Group>)
    requires Groups(pending, catalog, groups)
    requires forall m, n :: m in catalog && n in catalog && catalog[m] == catalog[n] ==> m == n
    ensures DistinctTrees(groups)
    ensures forall i :: 0 <= i < |groups| ==> exists n :: n in catalog && groups[i].tree == catalog[n]
  {
    hide OpsFor;
    var names := Names(pending);
    forall i, j | 0 <= i < j < |groups| ensures groups[i].tree != groups[j].tree {
      assert names[i] != names[j];
    }
    forall i | 0 <= i < |groups| ensures exists n :: n in catalog && groups[i].tree == catalog[n] {
      assert names[i] in catalog;
    }
  }

  lemma {:induction false} NothingLogged(live: Forest, groups: seq<Group>, base: nat)
    requires GroupsCount(groups) == 0 && RunGroups(live, groups, base).AllDone?
    requires forall i :: 0 <= i < |groups| ==> groups[i].tree in live
    ensures RunGroups(live, groups, base).forest == live
    decreases |groups|
  {
    hide Run, WalCount;
    if groups != [] {
      var last := groups[|groups| - 1];
      NothingLogged(live, groups[..|groups| - 1], base);
      OnlyAsserts(live[last.tree], last.ops, base);
      assert live == live[last.tree := live[last.tree]];
    }
  }

  lemma {:induction false} OnlyAssertsRestamp(before: set<Bytes>, ops: seq<BatchOp>)
    requires WalCount(ops) == 0
    ensures Restamped(before, ops) == before
    decreases |ops|
  {
    if ops != [] { OnlyAssertsRestamp(before, ops[..|ops| - 1]); }
  }

  lemma {:induction false} CountOn(groups: seq<Group>, tree: nat)
    requires GroupsCount(groups) == 0
    ensures WalCount(OpsOn(groups, tree)) == 0
    decreases |groups|
  {
    if groups != [] {
      var front, last := groups[..|groups| - 1], groups[|groups| - 1];
      CountOn(front, tree);
      CountConcat(OpsOn(front, tree), if last.tree == tree then last.ops else []);
    }
  }

  lemma NothingRestampedBy(groups: seq<Group>, tree: nat)
    requires GroupsCount(groups) == 0
    ensures forall before :: Restamped(before, OpsOn(groups, tree)) == before
  {
    CountOn(groups, tree);
    forall before { OnlyAssertsRestamp(before, OpsOn(groups, tree)); }
  }
}
