/**
 Batches over several trees: pending operations are grouped by tree in order of
 first appearance, the groups share one record and one range of sequence numbers,
 and replay of that record gives every tree what its group did live.
 */
module DbBatch {
  import opened Bytes
  import opened AtomicBatch
  import opened BatchApply
  import opened BatchReplay
  import WalOps

  type Name = string

  datatype Group = Group(tree: nat, ops: seq<BatchOp>)

  // ---------- grouping ----------

  datatype Pending = Pending(name: Name, op: BatchOp)

  /** Tree names in order of first appearance. */
  function Names(pending: seq<Pending>): (names: seq<Name>)
    ensures forall i :: 0 <= i < |pending| ==> pending[i].name in names
    ensures forall n :: n in names ==> exists i :: 0 <= i < |pending| && pending[i].name == n
    ensures forall i, j :: 0 <= i < j < |names| ==> names[i] != names[j]
  {
    if pending == [] then []
    else
      var front, name := Names(pending[..|pending| - 1]), pending[|pending| - 1].name;
      assert forall i :: 0 <= i < |pending| - 1 ==> pending[i] == pending[..|pending| - 1][i];
      if name in front then front else front + [name]
  }

  /** The operations on one tree, in their pending order. */
  function OpsFor(pending: seq<Pending>, name: Name): seq<BatchOp> {
    if pending == [] then []
    else
      var front, last := OpsFor(pending[..|pending| - 1], name), pending[|pending| - 1];
      if last.name == name then front + [last.op] else front
  }

  predicate Known(pending: seq<Pending>, catalog: map<Name, nat>) {
    forall i :: 0 <= i < |pending| ==> pending[i].name in catalog
  }

  predicate Groups(pending: seq<Pending>, catalog: map<Name, nat>, groups: seq<Group>) {
    var names := Names(pending);
    && |groups| == |names|
    && forall i :: 0 <= i < |names| ==>
         names[i] in catalog && groups[i] == Group(catalog[names[i]], OpsFor(pending, names[i]))
  }

  lemma NoOpsYet(pending: seq<Pending>, name: Name)
    requires forall i :: 0 <= i < |pending| ==> pending[i].name != name
    ensures OpsFor(pending, name) == []
    decreases |pending|
  {
    if pending != [] { NoOpsYet(pending[..|pending| - 1], name); }
  }

  lemma OpsForOthers(front: seq<Pending>, item: Pending, name: Name)
    ensures OpsFor(front + [item], name) == OpsFor(front, name) + if item.name == name then [item.op] else []
    ensures Names(front + [item]) == if item.name in Names(front) then Names(front) else Names(front) + [item.name]
  {
    assert (front + [item])[..|front|] == front;
  }

  lemma JoinGroup(front: seq<Pending>, item: Pending, catalog: map<Name, nat>, groups: seq<Group>, g: nat)
    requires Groups(front, catalog, groups) && g < |groups| && Names(front)[g] == item.name
    ensures Names(front + [item]) == Names(front)
    ensures Groups(front + [item], catalog, groups[g := Group(groups[g].tree, groups[g].ops + [item.op])])
  {
    hide OpsFor, Names;
    forall i | 0 <= i < |groups| { OpsForOthers(front, item, Names(front)[i]); }
  }

  lemma NewGroup(front: seq<Pending>, item: Pending, catalog: map<Name, nat>, groups: seq<Group>)
    requires Groups(front, catalog, groups) && item.name in catalog && item.name !in Names(front)
    ensures Names(front + [item]) == Names(front) + [item.name]
    ensures Groups(front + [item], catalog, groups + [Group(catalog[item.name], [item.op])])
  {
    hide OpsFor, Names;
    OpsForOthers(front, item, item.name);
    NoOpsYet(front, item.name);
    forall i | 0 <= i < |groups| { OpsForOthers(front, item, Names(front)[i]); }
  }

  lemma NoGroups(catalog: map<Name, nat>)
    ensures Groups([], catalog, []) && Names([]) == []
  {
  }

  /** One group per tree name, holding exactly that tree's operations in order; a name missing
      from the catalog refuses the whole batch. */
  method GroupBatchOps(pending: seq<Pending>, catalog: map<Name, nat>) returns (r: Option<seq<Group>>)
    ensures r.Some? <==> Known(pending, catalog)
    ensures r.Some? ==> Groups(pending, catalog, r.value)
  {
    hide Groups, OpsFor, Names;
    var groups: seq<Group> := [];
    var groupByName: map<Name, nat> := map[];
    NoGroups(catalog);
    for p := 0 to |pending|
      invariant Known(pending[..p], catalog)
      invariant Groups(pending[..p], catalog, groups)
      invariant |Names(pending[..p])| == |groups|
      invariant forall n :: n in groupByName <==> n in Names(pending[..p])
      invariant forall n :: n in groupByName ==>
        groupByName[n] < |groups| && Names(pending[..p])[groupByName[n]] == n
    {
      var item := pending[p];
      assert pending[..p + 1] == pending[..p] + [item];
      if item.name in groupByName {
        var g := groupByName[item.name];
        JoinGroup(pending[..p], item, catalog, groups, g);
        groups := groups[g := Group(groups[g].tree, groups[g].ops + [item.op])];
      } else {
        if item.name !in catalog { return None; }
        NewGroup(pending[..p], item, catalog, groups);
        groupByName := groupByName[item.name := |groups|];
        groups := groups + [Group(catalog[item.name], [item.op])];
      }
    }
    assert pending[..|pending|] == pending;
    r := Some(groups);
  }

  // ---------- groups as one batch ----------

  datatype ForestOutcome = AllDone(forest: Forest) | SomeFailed(fault: Fault)

  function GroupsCount(groups: seq<Group>): nat {
    if groups == [] then 0 else GroupsCount(groups[..|groups| - 1]) + WalCount(groups[|groups| - 1].ops)
  }

  function GroupsLog(groups: seq<Group>): (r: seq<WalOps.WalOp>)
    ensures |r| == GroupsCount(groups)
  {
    if groups == [] then []
    else GroupsLog(groups[..|groups| - 1]) + LogOf(groups[|groups| - 1].tree, groups[|groups| - 1].ops)
  }

  /** The items that the groups push into their one record. */
  function GroupsItems(groups: seq<Group>): seq<WalOps.Item> {
    if groups == [] then []
    else GroupsItems(groups[..|groups| - 1]) + ItemsOf(groups[|groups| - 1].tree, groups[|groups| - 1].ops)
  }

  lemma {:induction false} GroupsItemsLog(groups: seq<Group>)
    ensures WalOps.Flat(GroupsItems(groups)) == GroupsLog(groups)
    decreases |groups|
  {
    hide ItemsOf, LogOf;
    if groups != [] {
      var front, last := groups[..|groups| - 1], groups[|groups| - 1];
      GroupsItemsLog(front);
      ItemsLogEveryOp(last.tree, last.ops);
      WalOps.FlatConcat(GroupsItems(front), ItemsOf(last.tree, last.ops));
    }
  }

  /** Groups in order, each starting where the sequence numbers of its predecessors end. */
  function RunGroups(forest: Forest, groups: seq<Group>, base: nat): ForestOutcome {
    if groups == [] then AllDone(forest)
    else match RunGroups(forest, groups[..|groups| - 1], base)
         case SomeFailed(fault) => SomeFailed(fault)
         case AllDone(f) => RunGroup(f, groups[|groups| - 1], base + GroupsCount(groups[..|groups| - 1]))
  }

  function RunGroup(forest: Forest, group: Group, base: nat): ForestOutcome {
    match Run(At(forest, group.tree), group.ops, base)
    case Failed(fault) => SomeFailed(fault)
    case Done(t) => AllDone(forest[group.tree := t])
  }

  predicate DistinctTrees(groups: seq<Group>) {
    forall i, j :: 0 <= i < j < |groups| ==> groups[i].tree != groups[j].tree
  }

  lemma {:induction false} GroupsLeaveOthers(forest: Forest, groups: seq<Group>, base: nat, tree: nat)
    requires forall i :: 0 <= i < |groups| ==> groups[i].tree != tree
    requires RunGroups(forest, groups, base).AllDone?
    ensures At(RunGroups(forest, groups, base).forest, tree) == At(forest, tree)
    decreases |groups|
  {
    hide Run;
    if groups != [] { GroupsLeaveOthers(forest, groups[..|groups| - 1], base, tree); }
  }

  lemma {:induction false} GroupsFailEarly(forest: Forest, groups: seq<Group>, base: nat, i: nat)
    requires i <= |groups| && RunGroups(forest, groups[..i], base).SomeFailed?
    ensures RunGroups(forest, groups, base) == RunGroups(forest, groups[..i], base)
    decreases |groups| - i
  {
    hide Run;
    if i < |groups| {
      assert groups[..i + 1][..i] == groups[..i];
      GroupsFailEarly(forest, groups, base, i + 1);
    } else {
      assert groups[..i] == groups;
    }
  }

  function ForestVerdict(r: ForestOutcome): Verdict {
    match r
    case AllDone(_) => Commit
    case SomeFailed(GuardFailed) => Refuse
    case SomeFailed(fault) => Error(fault)
  }

  /** Group by group against the live trees: the verdict of running all groups in order. */
  method PreflightGroups(live: Forest, groups: seq<Group>, base: nat) returns (verdict: Verdict)
    requires DistinctTrees(groups)
    ensures verdict == ForestVerdict(RunGroups(live, groups, base))
  {
    hide Run, WalCount;
    var groupBase := base;
    for i := 0 to |groups|
      invariant groupBase == base + GroupsCount(groups[..i])
      invariant RunGroups(live, groups[..i], base).AllDone?
    {
      assert groups[..i + 1][..i] == groups[..i];
      GroupsLeaveOthers(live, groups[..i], base, groups[i].tree);
      var v := Preflight(At(live, groups[i].tree), groups[i].ops, groupBase);
      if !v.Commit? {
        GroupsFailEarly(live, groups, base, i + 1);
        return v;
      }
      groupBase := groupBase + WalCount(groups[i].ops);
    }
    assert groups[..|groups|] == groups;
    verdict := Commit;
  }

  /** After a preflight that lets them through, all groups apply and push the log of all groups. */
  method ApplyGroups(live: Forest, groups: seq<Group>, base: nat)
    returns (ok: bool, live': Forest, items: seq<WalOps.Item>)
    ensures RunGroups(live, groups, base).AllDone? ==>
      ok && live' == RunGroups(live, groups, base).forest && items == GroupsItems(groups)
  {
    hide Run, WalCount, ItemsOf;
    live', items := live, [];
    var groupBase := base;
    ghost var good := RunGroups(live, groups, base).AllDone?;
    for i := 0 to |groups|
      invariant groupBase == base + GroupsCount(groups[..i])
      invariant good ==> RunGroups(live, groups[..i], base) == AllDone(live')
      invariant good ==> items == GroupsItems(groups[..i])
    {
      var group := groups[i];
      assert groups[..i + 1][..i] == groups[..i];
      if RunGroups(live, groups[..i + 1], base).SomeFailed? { GroupsFailEarly(live, groups, base, i + 1); }
      var walker := new Walker(At(live', group.tree));
      var pushed;
      ok, pushed := walker.ApplyBatch(group.tree, group.ops, groupBase);
      if !ok { return; }
      live' := live'[group.tree := walker.live];
      items := items + pushed;
      groupBase := groupBase + WalCount(group.ops);
    }
    assert groups[..|groups|] == groups;
    ok := true;
  }

  // ---------- replay ----------

  predicate TreeAgrees(r: Tree, m: Tree, next: nat) { SameValues(r, m) && WellShaped(m) && VersionsBelow(m, next) }

  /** A replayed forest stands for the live one. */
  predicate Agrees(replayed: Forest, live: Forest, next: nat) {
    && replayed.Keys == live.Keys
    && forall t :: t in live ==> TreeAgrees(replayed[t], live[t], next)
  }

  /** Keys of a tree whose replayed record has another version. */
  function Stale(replayed: Forest, live: Forest, tree: nat): set<Bytes> {
    Differ(At(replayed, tree), At(live, tree))
  }

  /** The operations that the groups hold for one tree. */
  function OpsOn(groups: seq<Group>, tree: nat): seq<BatchOp> {
    if groups == [] then []
    else
      var front, last := groups[..|groups| - 1], groups[|groups| - 1];
      OpsOn(front, tree) + if last.tree == tree then last.ops else []
  }

  lemma {:induction false} RestampedConcat(before: set<Bytes>, xs: seq<BatchOp>, ys: seq<BatchOp>)
    ensures Restamped(before, xs + ys) == Restamped(Restamped(before, xs), ys)
    decreases |ys|
  {
    if ys == [] {
      assert xs + ys == xs;
    } else {
      assert (xs + ys)[..|xs + ys| - 1] == xs + ys[..|ys| - 1];
      RestampedConcat(before, xs, ys[..|ys| - 1]);
    }
  }

  lemma AgreesLater(replayed: Forest, live: Forest, next: nat, later: nat)
    requires Agrees(replayed, live, next) && next <= later
    ensures Agrees(replayed, live, later)
  {
  }

  /** One group: the trees go on agreeing, and only the group's tree changes. */
  lemma GroupReplays(live: Forest, g: Forest, group: Group, base: nat)
    requires Agrees(g, live, base) && group.tree in live
    requires RunGroup(live, group, base).AllDone?
    ensures Replay(g, LogOf(group.tree, group.ops), base).Replayed?
    ensures var g' := Replay(g, LogOf(group.tree, group.ops), base).forest;
            var live' := RunGroup(live, group, base).forest;
            && live'.Keys == live.Keys
            && Agrees(g', live', base + WalCount(group.ops))
            && Follows(g, live, g', live', [group])
  {
    hide Run, WalCount, LogOf, Replay, SameValues, WellShaped, Restamped, Differ;
    assert TreeAgrees(g[group.tree], live[group.tree], base);
    BatchReplays(live[group.tree], g, group.tree, group.ops, base);
    forall t ensures OpsOn([group], t) == if t == group.tree then group.ops else [] { OpsOnOne(group, t); }
    forall t { NothingRestamped(Stale(g, live, t)); }
  }

  lemma OpsOnOne(group: Group, tree: nat)
    ensures OpsOn([group], tree) == if tree == group.tree then group.ops else []
  {
    assert [group][..0] == [];
  }

  lemma NothingRestamped(before: set<Bytes>)
    ensures Restamped(before, []) == before
  {
  }

  /** The keys with other versions change as the groups' operations say, tree by tree. */
  ghost predicate Follows(g: Forest, live: Forest, g': Forest, live': Forest, groups: seq<Group>) {
    forall t :: Stale(g', live', t) == Restamped(Stale(g, live, t), OpsOn(groups, t))
  }

  lemma FollowsNone(g: Forest, live: Forest)
    ensures Follows(g, live, g, live, [])
  {
  }

  lemma FollowsOn(g: Forest, live: Forest, g': Forest, live': Forest, g'': Forest, live'': Forest, groups: seq<Group>)
    requires groups != []
    requires Follows(g, live, g', live', groups[..|groups| - 1])
    requires Follows(g', live', g'', live'', [groups[|groups| - 1]])
    ensures Follows(g, live, g'', live'', groups)
  {
    hide Restamped, Stale;
    var front, last := groups[..|groups| - 1], groups[|groups| - 1];
    forall t ensures Stale(g'', live'', t) == Restamped(Stale(g, live, t), OpsOn(groups, t)) {
      OpsOnOne(last, t);
      RestampedConcat(Stale(g, live, t), OpsOn(front, t), OpsOn([last], t));
    }
  }

  /** The single record of a grouped batch replays to what all its groups did live. */
  lemma {:induction false} GroupsReplay(live: Forest, g: Forest, groups: seq<Group>, base: nat)
    requires Agrees(g, live, base) && RunGroups(live, groups, base).AllDone?
    requires forall i :: 0 <= i < |groups| ==> groups[i].tree in live
    ensures Replay(g, GroupsLog(groups), base).Replayed?
    ensures var g' := Replay(g, GroupsLog(groups), base).forest;
            var live' := RunGroups(live, groups, base).forest;
            && live'.Keys == live.Keys
            && Agrees(g', live', base + GroupsCount(groups))
            && Follows(g, live, g', live', groups)
    decreases |groups|
  {
    hide RunGroup, WalCount, LogOf, Agrees, Follows, ReplayOp;
    if groups == [] {
      FollowsNone(g, live);
    } else {
      var front, last := groups[..|groups| - 1], groups[|groups| - 1];
      GroupsReplay(live, g, front, base);
      var g', live' := Replay(g, GroupsLog(front), base).forest, RunGroups(live, front, base).forest;
      GroupReplays(live', g', last, base + GroupsCount(front));
      ReplayConcat(g, GroupsLog(front), LogOf(last.tree, last.ops), base);
      FollowsOn(g, live, g', live', Replay(g, GroupsLog(groups), base).forest, RunGroups(live, groups, base).forest,
                groups);
    }
  }

  // ---------- group by group ----------

  /** What group `i` does to its own live tree. */
  function GroupOutcome(live: Forest, groups: seq<Group>, base: nat, i: nat): Outcome
    requires i < |groups|
  {
    Run(At(live, groups[i].tree), groups[i].ops, base + GroupsCount(groups[..i]))
  }

  ghost predicate DoneAlone(live: Forest, groups: seq<Group>, base: nat, f: Forest) {
    && (forall i :: 0 <= i < |groups| ==>
          && GroupOutcome(live, groups, base, i).Done? && groups[i].tree in f
          && f[groups[i].tree] == GroupOutcome(live, groups, base, i).tree)
    && (forall t :: (forall i :: 0 <= i < |groups| ==> groups[i].tree != t) ==> At(f, t) == At(live, t))
  }

  /** Group `i` is the first to fail. */
  ghost predicate FailsAlone(live: Forest, groups: seq<Group>, base: nat, i: nat, fault: Fault) {
    && i < |groups| && GroupOutcome(live, groups, base, i) == Failed(fault)
    && forall j :: 0 <= j < i ==> GroupOutcome(live, groups, base, j).Done?
  }

  /** Running all groups is running each on its own tree; the first that fails decides. */
  ghost predicate EachAlone(live: Forest, groups: seq<Group>, base: nat, r: ForestOutcome) {
    match r
    case AllDone(f) => DoneAlone(live, groups, base, f)
    case SomeFailed(fault) => exists i: nat :: FailsAlone(live, groups, base, i, fault)
  }

  lemma SameOutcome(live: Forest, groups: seq<Group>, base: nat, i: nat)
    requires groups != [] && i < |groups| - 1
    ensures groups[..|groups| - 1][i] == groups[i]
    ensures GroupOutcome(live, groups[..|groups| - 1], base, i) == GroupOutcome(live, groups, base, i)
  {
    hide Run, GroupsCount;
    assert groups[..|groups| - 1][..i] == groups[..i];
  }

  lemma DoneMore(live: Forest, groups: seq<Group>, base: nat, f: Forest, t: Tree)
    requires groups != [] && DistinctTrees(groups) && DoneAlone(live, groups[..|groups| - 1], base, f)
    requires GroupOutcome(live, groups, base, |groups| - 1) == Done(t)
    ensures DoneAlone(live, groups, base, f[groups[|groups| - 1].tree := t])
  {
    hide GroupOutcome;
    var n := |groups| - 1;
    forall i | 0 <= i < n
      ensures groups[..n][i] == groups[i]
      ensures GroupOutcome(live, groups[..n], base, i) == GroupOutcome(live, groups, base, i)
    {
      SameOutcome(live, groups, base, i);
    }
  }

  lemma FailsMore(live: Forest, groups: seq<Group>, base: nat, i: nat, fault: Fault)
    requires groups != [] && FailsAlone(live, groups[..|groups| - 1], base, i, fault)
    ensures FailsAlone(live, groups, base, i, fault)
  {
    hide GroupOutcome;
    SameOutcome(live, groups, base, i);
    forall j | 0 <= j < i ensures GroupOutcome(live, groups, base, j).Done? { SameOutcome(live, groups, base, j); }
  }

  lemma FailsLast(live: Forest, groups: seq<Group>, base: nat, f: Forest, fault: Fault)
    requires groups != [] && DoneAlone(live, groups[..|groups| - 1], base, f)
    requires GroupOutcome(live, groups, base, |groups| - 1) == Failed(fault)
    ensures FailsAlone(live, groups, base, |groups| - 1, fault)
  {
    hide GroupOutcome;
    var n := |groups| - 1;
    forall j | 0 <= j < n ensures GroupOutcome(live, groups, base, j).Done? { SameOutcome(live, groups, base, j); }
  }

  lemma {:induction false} GroupsAlone(live: Forest, groups: seq<Group>, base: nat)
    requires DistinctTrees(groups)
    ensures EachAlone(live, groups, base, RunGroups(live, groups, base))
    decreases |groups|
  {
    hide Run, GroupsCount, FailsAlone;
    if groups != [] {
      var n := |groups| - 1;
      var front, last := groups[..n], groups[n];
      GroupsAlone(live, front, base);
      var r := RunGroups(live, front, base);
      match r
      case SomeFailed(fault) =>
        var i: nat :| FailsAlone(live, front, base, i, fault);
        FailsMore(live, groups, base, i, fault);
      case AllDone(f) =>
        assert At(f, last.tree) == At(live, last.tree);
        match GroupOutcome(live, groups, base, n)
        case Done(t) => DoneMore(live, groups, base, f, t);
        case Failed(fault) => FailsLast(live, groups, base, f, fault);
    }
  }
}
