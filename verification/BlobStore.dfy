/**
 The durable blob store as a crash sees it: what was flushed, plus any subset of
 the writes and deletes issued since. Blobs refer to child blobs.
 */
module BlobStore {
  type Guid = nat

  datatype Image = Image(children: set<Guid>, stamp: nat)

  type Store = map<Guid, Image>

  datatype StoreOp = Put(guid: Guid, image: Image) | Del(guid: Guid)

  function Apply(store: Store, op: StoreOp): Store {
    match op
    case Put(g, image) => store[g := image]
    case Del(g) => store - {g}
  }

  function Fold(store: Store, ops: seq<StoreOp>): Store {
    if ops == [] then store else Apply(Fold(store, ops[..|ops| - 1]), ops[|ops| - 1])
  }

  /** What a crash leaves when exactly the operations in `landed` reached the disk. */
  function Outcome(store: Store, ops: seq<StoreOp>, landed: set<nat>): Store {
    if ops == [] then store
    else
      var front, n := Outcome(store, ops[..|ops| - 1], landed), |ops| - 1;
      if n in landed then Apply(front, ops[n]) else front
  }

  /** Every blob that a durable blob refers to exists. */
  predicate Closed(store: Store) { forall g :: g in store ==> store[g].children <= store.Keys }

  function PutGuids(ops: seq<StoreOp>): set<Guid> { set i | 0 <= i < |ops| && ops[i].Put? :: ops[i].guid }

  function DelGuids(ops: seq<StoreOp>): set<Guid> { set i | 0 <= i < |ops| && ops[i].Del? :: ops[i].guid }

  /** Every image, durable or on its way, refers only to durable blobs that are not being deleted. */
  predicate Anchored(store: Store, ops: seq<StoreOp>) {
    && (forall g :: g in store ==> Anchor(store, ops, store[g]))
    && (forall i :: 0 <= i < |ops| && ops[i].Put? ==> Anchor(store, ops, ops[i].image))
  }

  predicate Anchor(store: Store, ops: seq<StoreOp>, image: Image) {
    image.children <= store.Keys && image.children !! DelGuids(ops)
  }

  // ---------- crash outcomes ----------

  lemma {:induction false} OutcomeShape(store: Store, ops: seq<StoreOp>, landed: set<nat>)
    ensures forall g :: g in store && g !in DelGuids(ops) ==> g in Outcome(store, ops, landed)
    ensures forall g :: g in Outcome(store, ops, landed) ==>
      || (g in store && Outcome(store, ops, landed)[g] == store[g])
      || (exists i :: 0 <= i < |ops| && ops[i] == Put(g, Outcome(store, ops, landed)[g]))
    decreases |ops|
  {
    if ops != [] {
      var front, n := ops[..|ops| - 1], |ops| - 1;
      OutcomeShape(store, front, landed);
      forall g | g in DelGuids(front) ensures g in DelGuids(ops) {
        var i :| 0 <= i < |front| && front[i].Del? && front[i].guid == g;
        assert ops[i] == front[i];
      }
      if ops[n].Del? { assert ops[n].guid in DelGuids(ops); }
      var m, m' := Outcome(store, front, landed), Outcome(store, ops, landed);
      forall g | g in m'
        ensures (g in store && m'[g] == store[g]) || (exists i :: 0 <= i < |ops| && ops[i] == Put(g, m'[g]))
      {
        if g in m && m'[g] == m[g] {
          if !(g in store && m[g] == store[g]) {
            var i :| 0 <= i < |front| && front[i] == Put(g, m[g]);
            assert ops[i] == front[i];
          }
        } else {
          assert ops[n] == Put(g, m'[g]);
        }
      }
    }
  }

  /** Whatever subset of the outstanding writes and deletes lands, nothing dangles. */
  lemma CrashClosed(store: Store, ops: seq<StoreOp>, landed: set<nat>)
    requires Anchored(store, ops)
    ensures Closed(Outcome(store, ops, landed))
  {
    hide Outcome;
    OutcomeShape(store, ops, landed);
    var m := Outcome(store, ops, landed);
    forall g | g in m ensures m[g].children <= m.Keys {
      assert Anchor(store, ops, m[g]);
    }
  }

  function Indices(n: nat): (r: set<nat>)
    ensures forall i :: i in r <==> 0 <= i < n
    ensures |r| == n
  {
    if n == 0 then {} else Indices(n - 1) + {n - 1}
  }

  lemma {:induction false} AllLanded(store: Store, ops: seq<StoreOp>, landed: set<nat>)
    requires forall i :: 0 <= i < |ops| ==> i in landed
    ensures Outcome(store, ops, landed) == Fold(store, ops)
    decreases |ops|
  {
    if ops != [] { AllLanded(store, ops[..|ops| - 1], landed); }
  }

  /** A flush makes everything issued durable, and what is durable is closed. */
  lemma FlushAnchored(store: Store, ops: seq<StoreOp>)
    requires Anchored(store, ops)
    ensures Anchored(Fold(store, ops), [])
  {
    hide Outcome, Fold, Anchored;
    var landed := Indices(|ops|);
    AllLanded(store, ops, landed);
    CrashClosed(store, ops, landed);
    ClosedIsAnchored(Fold(store, ops));
  }

  lemma ClosedIsAnchored(store: Store)
    requires Closed(store)
    ensures Anchored(store, [])
  {
    assert DelGuids([]) == {};
  }

  // ---------- folding ----------

  lemma {:induction false} FoldConcat(store: Store, xs: seq<StoreOp>, ys: seq<StoreOp>)
    ensures Fold(store, xs + ys) == Fold(Fold(store, xs), ys)
    decreases |ys|
  {
    if ys == [] {
      assert xs + ys == xs;
    } else {
      assert (xs + ys)[..|xs + ys| - 1] == xs + ys[..|ys| - 1];
      FoldConcat(store, xs, ys[..|ys| - 1]);
    }
  }

  lemma OpsAppend(ops: seq<StoreOp>, op: StoreOp)
    ensures PutGuids(ops + [op]) == PutGuids(ops) + (if op.Put? then {op.guid} else {})
    ensures DelGuids(ops + [op]) == DelGuids(ops) + (if op.Del? then {op.guid} else {})
  {
    var all := ops + [op];
    forall g | g in PutGuids(ops) ensures g in PutGuids(all) {
      var i :| 0 <= i < |ops| && ops[i].Put? && ops[i].guid == g;
      assert all[i] == ops[i];
    }
    forall g | g in DelGuids(ops) ensures g in DelGuids(all) {
      var i :| 0 <= i < |ops| && ops[i].Del? && ops[i].guid == g;
      assert all[i] == ops[i];
    }
    assert all[|ops|] == op;
  }

  /** A blob without an outstanding write is visible exactly when it is durable and not being deleted. */
  lemma {:induction false} FoldUnwritten(store: Store, ops: seq<StoreOp>, g: Guid)
    requires g !in PutGuids(ops)
    ensures g in Fold(store, ops) <==> g in store && g !in DelGuids(ops)
    ensures g in Fold(store, ops) ==> Fold(store, ops)[g] == store[g]
    decreases |ops|
  {
    if ops != [] {
      var front, op := ops[..|ops| - 1], ops[|ops| - 1];
      assert ops == front + [op];
      OpsAppend(front, op);
      FoldUnwritten(store, front, g);
    }
  }

  // ---------- deletes ----------

  function Dels(guids: seq<Guid>): (ops: seq<StoreOp>)
    ensures |ops| == |guids| && forall i :: 0 <= i < |guids| ==> ops[i] == Del(guids[i])
  {
    seq(|guids|, i requires 0 <= i < |guids| => Del(guids[i]))
  }

  predicate ClosedUnderDeletes(store: Store, guids: seq<Guid>) {
    forall g, c :: g in store && c in store[g].children && c in guids ==> g == c
  }

  ghost predicate EveryCrashClosed(store: Store, ops: seq<StoreOp>) {
    forall landed: set<nat> :: Closed(Outcome(store, ops, landed))
  }

  lemma {:induction false} DelsOutcome(store: Store, guids: seq<Guid>, landed: set<nat>)
    ensures Outcome(store, Dels(guids), landed) == store - (set i | 0 <= i < |guids| && i in landed :: guids[i])
    decreases |guids|
  {
    var gone := set i | 0 <= i < |guids| && i in landed :: guids[i];
    if guids == [] {
      assert Dels(guids) == [] && gone == {};
    } else {
      var front, n := guids[..|guids| - 1], |guids| - 1;
      DelsOutcome(store, front, landed);
      assert Dels(guids)[..n] == Dels(front);
      var before := set i | 0 <= i < |front| && i in landed :: front[i];
      assert gone == before + (if n in landed then {guids[n]} else {}) by {
        forall g | g in before ensures g in gone {
          var i :| 0 <= i < |front| && i in landed && front[i] == g;
          assert guids[i] == g;
        }
        if n in landed { assert guids[n] in gone; }
        forall g | g in gone ensures g in before + (if n in landed then {guids[n]} else {}) {
          var i :| 0 <= i < |guids| && i in landed && guids[i] == g;
          if i < n { assert front[i] == g; }
        }
      }
    }
  }

  /** On a closed store, deletes are safe at every crash point exactly when no other durable blob
      refers to a blob being deleted. */
  lemma DeletesClosedIff(store: Store, guids: seq<Guid>)
    requires Closed(store)
    ensures EveryCrashClosed(store, Dels(guids)) <==> ClosedUnderDeletes(store, guids)
  {
    hide Outcome;
    if ClosedUnderDeletes(store, guids) {
      forall landed: set<nat> ensures Closed(Outcome(store, Dels(guids), landed)) {
        DelsOutcome(store, guids, landed);
        var gone := set i | 0 <= i < |guids| && i in landed :: guids[i];
        assert forall g :: g in gone ==> g in guids;
      }
    } else {
      var g, c :| g in store && c in store[g].children && c in guids && g != c;
      var landed := set i | 0 <= i < |guids| && guids[i] == c;
      DelsOutcome(store, guids, landed);
      var gone := set i | 0 <= i < |guids| && i in landed :: guids[i];
      assert gone == {c} by {
        var i :| 0 <= i < |guids| && guids[i] == c;
        assert i in landed;
      }
      var m := Outcome(store, Dels(guids), landed);
      assert g in m && c in m[g].children && c !in m;
    }
  }
}
