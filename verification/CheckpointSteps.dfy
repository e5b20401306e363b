/** Every step of the durability protocol keeps the invariant. */
module CheckpointSteps {
  import opened RedoLog
  import opened CheckpointProtocol
  import opened CheckpointInvariant

  // ---------- cache ----------

  /** Blob `b` gets a new image that agrees with the old one on every key outside `op`. */
  lemma ContentAppend(hist: History, b: Guid, img: Image)
    requires HasContent(hist, b)
    ensures var hist' := hist[b := hist[b] + [img]];
            && Content(hist', b) == img
            && (forall c :: c != b && HasContent(hist, c) ==>
                  HasContent(hist', c) && Content(hist', c) == Content(hist, c))
  {
  }

  lemma BeginCache(s: State, t: nat, ops: seq<Op>, s': State)
    requires Shaped(s) && CacheInv(s.log, s.writers, s.hist) && BeginStep(s, t, ops, s')
    ensures CacheInv(s'.log, s'.writers, s'.hist)
  {
    forall u, k: Key | u in s'.writers && Touches(s'.writers[u].ops, k)
      ensures Ahead(s'.log, s'.writers[u], s'.hist, k)
    {
      if u == t {
        assert ops[..0] == [];
        assert Free(s.writers, k);
      } else {
        assert Ahead(s.log, s.writers[u], s.hist, k);
      }
    }
    forall k: Key | k.blob in s'.hist && Free(s'.writers, k)
      ensures At(Content(s'.hist, k.blob), k) == At(Logged(s'.log, k.blob), k)
    {
      forall u | u in s.writers ensures !Touches(s.writers[u].ops, k) { assert s'.writers[u] == s.writers[u]; }
    }
  }

  lemma OtherKeys(nextSeq: nat, writers: Writers, t: nat, j: nat, u: nat, k: Key)
    requires WriterInv(nextSeq, writers) && t in writers && u in writers && t != u
    requires j < |writers[t].ops| && Touches(writers[u].ops, k)
    ensures k != writers[t].ops[j].key
  {
    var i :| 0 <= i < |writers[u].ops| && writers[u].ops[i].key == k;
    assert writers[u].ops[i].key != writers[t].ops[j].key;
  }

  /** What one operation does to one key of its own blob. */
  lemma ApplyAt(b: Guid, x: Image, y: Image, op: Op, k: Key)
    requires k == op.key || At(x, k) == At(y, k)
    requires k.blob == b
    ensures At(ApplyOp(b, x, op), k) == At(ApplyOp(b, y, op), k)
    ensures k != op.key ==> At(ApplyOp(b, x, op), k) == At(x, k)
  {
  }

  lemma MutateAhead(s: State, t: nat, s': State, u: nat, k: Key)
    requires Shaped(s) && CacheInv(s.log, s.writers, s.hist) && WriterInv(s.nextSeq, s.writers) && MutateStep(s, t, s')
    requires u in s'.writers && Touches(s'.writers[u].ops, k)
    ensures Ahead(s'.log, s'.writers[u], s'.hist, k)
  {
    hide WriterInv;
    var w := s.writers[t];
    var op := w.ops[w.mutated];
    var b := op.key.blob;
    ContentAppend(s.hist, b, ApplyOp(b, Cached(s, b), op));
    assert Ahead(s.log, s.writers[u], s.hist, k);
    if u == t {
      assert w.ops[..w.mutated + 1][..w.mutated] == w.ops[..w.mutated];
      var redone := Redo(k.blob, w.ops[..w.mutated], Logged(s.log, k.blob));
      assert Redo(k.blob, w.ops[..w.mutated + 1], Logged(s.log, k.blob)) == ApplyOp(k.blob, redone, op);
      if k.blob == b { ApplyAt(b, Content(s.hist, b), redone, op, k); }
    } else {
      OtherKeys(s.nextSeq, s.writers, t, w.mutated, u, k);
      if k.blob == b { ApplyAt(b, Content(s.hist, b), Content(s.hist, b), op, k); }
    }
  }

  lemma MutateFree(s: State, t: nat, s': State, k: Key)
    requires Shaped(s) && CacheInv(s.log, s.writers, s.hist) && MutateStep(s, t, s')
    requires k.blob in s'.hist && Free(s'.writers, k)
    ensures At(Content(s'.hist, k.blob), k) == At(Logged(s'.log, k.blob), k)
  {
    var w := s.writers[t];
    var op := w.ops[w.mutated];
    ContentAppend(s.hist, op.key.blob, ApplyOp(op.key.blob, Cached(s, op.key.blob), op));
    forall u | u in s.writers ensures !Touches(s.writers[u].ops, k) {
      assert !Touches(s'.writers[u].ops, k);
    }
    assert Touches(w.ops, op.key);
  }

  lemma MutateCache(s: State, t: nat, s': State)
    requires Shaped(s) && CacheInv(s.log, s.writers, s.hist) && WriterInv(s.nextSeq, s.writers) && MutateStep(s, t, s')
    ensures CacheInv(s'.log, s'.writers, s'.hist)
  {
    hide WriterInv;
    forall u, k: Key | u in s'.writers && Touches(s'.writers[u].ops, k)
      ensures Ahead(s'.log, s'.writers[u], s'.hist, k)
    {
      MutateAhead(s, t, s', u, k);
    }
    forall k: Key | k.blob in s'.hist && Free(s'.writers, k)
      ensures At(Content(s'.hist, k.blob), k) == At(Logged(s'.log, k.blob), k)
    {
      MutateFree(s, t, s', k);
    }
  }

  lemma SubmitCache(s: State, t: nat, s': State)
    requires Shaped(s) && CacheInv(s.log, s.writers, s.hist) && WriterInv(s.nextSeq, s.writers) && SubmitStep(s, t, s')
    ensures CacheInv(s'.log, s'.writers, s'.hist)
  {
    var w := s.writers[t];
    forall b ensures Logged(s'.log, b) == Redo(b, w.ops, Logged(s.log, b)) {
      assert s'.log[..|s'.log|] == s'.log;
      assert s'.log[..|s.log|] == s.log == s.log[..|s.log|];
      RedoConcat(b, Flat(s.log), w.ops, map[]);
    }
    forall u, k: Key | u in s'.writers && Touches(s'.writers[u].ops, k)
      ensures Ahead(s'.log, s'.writers[u], s'.hist, k)
    {
      var v := s.writers[u];
      assert Ahead(s.log, v, s.hist, k);
      assert !Touches(w.ops, k);
      RedoUntouched(k.blob, w.ops, Logged(s.log, k.blob), k);
      RedoAgrees(k.blob, v.ops[..v.mutated], Logged(s.log, k.blob), Logged(s'.log, k.blob), k);
    }
    forall k: Key | k.blob in s'.hist && Free(s'.writers, k)
      ensures At(Content(s'.hist, k.blob), k) == At(Logged(s'.log, k.blob), k)
    {
      if Touches(w.ops, k) {
        assert Ahead(s.log, w, s.hist, k);
        assert w.ops[..w.mutated] == w.ops;
      } else {
        forall u | u in s.writers ensures !Touches(s.writers[u].ops, k) {
          if u != t { assert s'.writers[u] == s.writers[u]; }
        }
        RedoUntouched(k.blob, w.ops, Logged(s.log, k.blob), k);
      }
    }
  }

  /** A new version with the same content, as no-op writes and compaction leave it. */
  lemma SameContentCache(log: Log, writers: Writers, hist: History, b: Guid)
    requires CacheInv(log, writers, hist) && HasContent(hist, b)
    ensures CacheInv(log, writers, hist[b := hist[b] + [Content(hist, b)]])
  {
    var hist' := hist[b := hist[b] + [Content(hist, b)]];
    ContentAppend(hist, b, Content(hist, b));
    forall t, k: Key | t in writers && Touches(writers[t].ops, k) ensures Ahead(log, writers[t], hist', k) {
      assert Ahead(log, writers[t], hist, k);
    }
  }

  lemma MarkCache(s: State, t: nat, s': State)
    requires Shaped(s) && CacheInv(s.log, s.writers, s.hist) && MarkStep(s, t, s')
    ensures CacheInv(s'.log, s'.writers, s'.hist)
  {
    forall u, k: Key | u in s'.writers && Touches(s'.writers[u].ops, k)
      ensures Ahead(s'.log, s'.writers[u], s'.hist, k)
    {
      assert Ahead(s.log, s.writers[u], s.hist, k);
    }
    forall k: Key | k.blob in s'.hist && Free(s'.writers, k)
      ensures At(Content(s'.hist, k.blob), k) == At(Logged(s'.log, k.blob), k)
    {
      forall u | u in s.writers ensures !Touches(s.writers[u].ops, k) { assert !Touches(s'.writers[u].ops, k); }
    }
  }

  // ---------- claims ----------

  lemma AppendHistHeld(s: State, b: Guid, img: Image)
    requires HeldInv(s.base, s.synced, s.log, s.hist, s.rounds, s.round, s.held) && HasContent(s.hist, b)
    ensures HeldInv(s.base, s.synced, s.log, s.hist[b := s.hist[b] + [img]], s.rounds, s.round, s.held)
  {
  }

  lemma SubmitHeld(s: State, t: nat, s': State)
    requires HeldInv(s.base, s.synced, s.log, s.hist, s.rounds, s.round, s.held) && SubmitStep(s, t, s')
    ensures HeldInv(s'.base, s'.synced, s'.log, s'.hist, s'.rounds, s'.round, s'.held)
  {
    forall id | id in s'.held
      ensures HeldOk(s'.base, s'.synced, s'.log, s'.hist, s'.rounds, s'.round, id, s'.held[id])
    {
      var h := s.held[id];
      assert HeldOk(s.base, s.synced, s.log, s.hist, s.rounds, s.round, id, h);
      ImageAtStable(id.blob, s.log, [s.writers[t].ops], h.watermark);
    }
  }

  lemma ClaimsShape(s: State, id: Id)
    requires Shaped(s)
    ensures id in ClaimsOf(s) <==> id.round == s.rounds && id.blob in s.dirty
  {
    if id.round == s.rounds && id.blob in s.dirty { assert id == Id(s.rounds, id.blob); }
  }

  lemma HeldAt(s: State, id: Id)
    requires HeldInv(s.base, s.synced, s.log, s.hist, s.rounds, s.round, s.held) && id in s.held
    ensures HeldOk(s.base, s.synced, s.log, s.hist, s.rounds, s.round, id, s.held[id])
  {
  }

  lemma SyncHeld(s: State, s': State)
    requires HeldInv(s.base, s.synced, s.log, s.hist, s.rounds, s.round, s.held)
    requires s' == s.(synced := s'.synced, round := s'.round) && s.synced <= s'.synced <= |s.log|
    requires || s'.round == s.round
             || (s.round.Open? && s'.round == s.round.(walFlushed := true) && s.round.watermark <= s.synced)
    ensures HeldInv(s'.base, s'.synced, s'.log, s'.hist, s'.rounds, s'.round, s'.held)
  {
    forall id | id in s'.held
      ensures HeldOk(s'.base, s'.synced, s'.log, s'.hist, s'.rounds, s'.round, id, s'.held[id])
    {
      assert HeldOk(s.base, s.synced, s.log, s.hist, s.rounds, s.round, id, s.held[id]);
    }
  }

  /** While the gate is free the cache holds exactly what is logged. */
  lemma QuietIsLogged(s: State, b: Guid)
    requires CacheInv(s.log, s.writers, s.hist) && GateIsFree(s) && b in s.hist
    ensures HasContent(s.hist, b) && Content(s.hist, b) == Logged(s.log, b)
  {
    ImageAtOwned(b, s.log, |s.log|);
    assert Owned(b, s.hist[b][|s.hist[b]| - 1]);
    forall k: Key | k.blob == b ensures At(Content(s.hist, b), k) == At(Logged(s.log, b), k) {
      if t :| t in s.writers && Touches(s.writers[t].ops, k) {
        assert Ahead(s.log, s.writers[t], s.hist, k);
        assert s.writers[t].ops[..0] == [];
      } else {
        assert Free(s.writers, k);
      }
    }
    OwnedEqual(b, Content(s.hist, b), Logged(s.log, b));
  }

  lemma AbandonCache(s: State, t: nat, s': State)
    requires CacheInv(s.log, s.writers, s.hist) && AbandonStep(s, t, s')
    ensures CacheInv(s'.log, s'.writers, s'.hist)
  {
    forall u, k: Key | u in s'.writers && Touches(s'.writers[u].ops, k)
      ensures Ahead(s'.log, s'.writers[u], s'.hist, k)
    {
      assert Ahead(s.log, s.writers[u], s.hist, k);
    }
    forall k: Key | k.blob in s'.hist && Free(s'.writers, k)
      ensures At(Content(s'.hist, k.blob), k) == At(Logged(s'.log, k.blob), k)
    {
      if Touches(s.writers[t].ops, k) {
        assert Ahead(s.log, s.writers[t], s.hist, k);
        assert s.writers[t].ops[..0] == [];
      } else {
        forall u | u in s.writers ensures !Touches(s.writers[u].ops, k) {
          if u != t { assert s'.writers[u] == s.writers[u]; }
        }
      }
    }
  }

  lemma SnapshotHeld(s: State, s': State)
    requires Shaped(s) && CacheInv(s.log, s.writers, s.hist)
    requires HeldInv(s.base, s.synced, s.log, s.hist, s.rounds, s.round, s.held) && SnapshotStep(s, s')
    ensures HeldInv(s'.base, s'.synced, s'.log, s'.hist, s'.rounds, s'.round, s'.held)
  {
    hide CacheInv;
    forall id | id in s'.held
      ensures HeldOk(s'.base, s'.synced, s'.log, s'.hist, s'.rounds, s'.round, id, s'.held[id])
    {
      ClaimsShape(s, id);
      if id in ClaimsOf(s) {
        QuietIsLogged(s, id.blob);
      } else {
        assert HeldOk(s.base, s.synced, s.log, s.hist, s.rounds, s.round, id, s.held[id]);
      }
    }
  }

  /** Steps that only move claims between stages, or drop some. */
  predicate Moved(held: Claims, held': Claims) {
    forall id :: id in held' ==> id in held && held'[id].seqno == held[id].seqno
                                 && held'[id].version == held[id].version && held'[id].watermark == held[id].watermark
  }

  lemma CloneHeld(s: State, id: Id, s': State)
    requires Shaped(s) && HeldInv(s.base, s.synced, s.log, s.hist, s.rounds, s.round, s.held) && CloneStep(s, id, s')
    ensures HeldInv(s'.base, s'.synced, s'.log, s'.hist, s'.rounds, s'.round, s'.held)
  {
    assert HeldOk(s.base, s.synced, s.log, s.hist, s.rounds, s.round, id, s.held[id]);
  }

  lemma LeaveRoundHeld(s: State, s': State)
    requires HeldInv(s.base, s.synced, s.log, s.hist, s.rounds, s.round, s.held) && Moved(s.held, s'.held)
    requires s'.round == NoRound
    requires s'.base == s.base && s'.synced == s.synced && s'.log == s.log && s'.hist == s.hist && s'.rounds == s.rounds
    requires forall id :: id in s'.held ==>
      !InRound(s'.held[id]) && HasBytes(s.held[id]) && s'.held[id].image == s.held[id].image
    ensures HeldInv(s'.base, s'.synced, s'.log, s'.hist, s'.rounds, s'.round, s'.held)
  {
    forall id | id in s'.held
      ensures HeldOk(s'.base, s'.synced, s'.log, s'.hist, s'.rounds, s'.round, id, s'.held[id])
    {
      assert HeldOk(s.base, s.synced, s.log, s.hist, s.rounds, s.round, id, s.held[id]);
    }
  }

  lemma MovedHeld(s: State, s': State)
    requires HeldInv(s.base, s.synced, s.log, s.hist, s.rounds, s.round, s.held) && Moved(s.held, s'.held)
    requires s'.round == s.round
    requires s'.base == s.base && s'.synced == s.synced && s'.log == s.log && s'.hist == s.hist && s'.rounds == s.rounds
    requires forall id :: id in s'.held ==>
      (InRound(s'.held[id]) ==> s'.held[id] == s.held[id]) && s'.held[id].image == s.held[id].image
      && (HasBytes(s'.held[id]) ==> HasBytes(s.held[id]))
    ensures HeldInv(s'.base, s'.synced, s'.log, s'.hist, s'.rounds, s'.round, s'.held)
  {
    forall id | id in s'.held
      ensures HeldOk(s'.base, s'.synced, s'.log, s'.hist, s'.rounds, s'.round, id, s'.held[id])
    {
      assert HeldOk(s.base, s.synced, s.log, s.hist, s.rounds, s.round, id, s.held[id]);
    }
  }

  // ---------- tokens ----------

  lemma BeginTokens(s: State, t: nat, ops: seq<Op>, s': State)
    requires WriterInv(s.nextSeq, s.writers) && TokenInv(s.nextSeq, s.writers, s.dirty, s.held)
    requires BeginStep(s, t, ops, s')
    ensures TokenInv(s'.nextSeq, s'.writers, s'.dirty, s'.held)
  {
    forall b | b in s.dirty ensures !Unmarked(s'.writers[t], s.dirty[b]) { assert Numbered(s.nextSeq, s.dirty[b]); }
    forall id | id in s.held
      ensures !Unmarked(s'.writers[t], s.held[id].seqno)
    {
      assert Numbered(s.nextSeq, s.held[id].seqno);
    }
  }

  lemma MutateTokens(s: State, t: nat, s': State)
    requires Shaped(s) && WriterInv(s.nextSeq, s.writers) && TokenInv(s.nextSeq, s.writers, s.dirty, s.held)
    requires MutateStep(s, t, s')
    ensures TokenInv(s'.nextSeq, s'.writers, s'.dirty, s'.held)
  {
    forall u, x | u in s'.writers && Unmarked(s'.writers[u], x) ensures Unmarked(s.writers[u], x) {}
  }

  lemma MarkTokens(s: State, t: nat, s': State)
    requires Shaped(s) && WriterInv(s.nextSeq, s.writers) && TokenInv(s.nextSeq, s.writers, s.dirty, s.held)
    requires MarkStep(s, t, s')
    ensures TokenInv(s'.nextSeq, s'.writers, s'.dirty, s'.held)
  {
    var w := s.writers[t];
    var seqno := w.ops[w.marked].seqno;
    var b := w.ops[w.marked].key.blob;
    assert Unmarked(w, seqno);
    forall x | Unmarked(s'.writers[t], x) ensures Unmarked(w, x) && x != seqno {}
    forall u | u in s.writers && u != t ensures !Unmarked(s.writers[u], seqno) {}
  }

  lemma CompactTokens(s: State, b: Guid, s': State)
    requires Shaped(s) && WriterInv(s.nextSeq, s.writers) && TokenInv(s.nextSeq, s.writers, s.dirty, s.held)
    requires CompactStep(s, b, s')
    ensures TokenInv(s'.nextSeq, s'.writers, s'.dirty, s'.held)
  {
    forall t | t in s.writers ensures !Unmarked(s.writers[t], STRUCTURAL_SEQ) {}
  }

  /** Claims dropped or moved, tokens of the dropped ones possibly back in the dirty map. */
  lemma RestoreTokens(nextSeq: nat, writers: Writers, dirty: Dirty, held: Claims, gone: Claims, dirty': Dirty,
                      held': Claims)
    requires TokenInv(nextSeq, writers, dirty, held)
    requires Moved(held, held') && Restored(dirty, gone, dirty')
    requires forall id :: id in gone ==> id in held && gone[id] == held[id] && id !in held'
    ensures TokenInv(nextSeq, writers, dirty', held')
  {
    forall b | b in dirty'
      ensures Numbered(nextSeq, dirty'[b])
      ensures forall t :: t in writers ==> !Unmarked(writers[t], dirty'[b])
      ensures forall id :: id in held' && id.blob == b && dirty'[b] == held'[id].seqno ==>
        held'[id].seqno == STRUCTURAL_SEQ
    {
      if !(b in dirty && dirty'[b] == dirty[b]) {
        var g :| g in gone && g.blob == b && dirty'[b] == gone[g].seqno;
      }
    }
  }

  lemma DrainTokens(nextSeq: nat, writers: Writers, dirty: Dirty, held: Claims, claims: Claims, round: nat)
    requires TokenInv(nextSeq, writers, dirty, held)
    requires forall id :: id in claims ==> id.round == round && id.blob in dirty && claims[id].seqno == dirty[id.blob]
    ensures TokenInv(nextSeq, writers, map[], held + claims)
  {
    var held' := held + claims;
    forall i, j | i in held' && j in held' && i != j && i.blob == j.blob && held'[i].seqno == held'[j].seqno
      ensures held'[i].seqno == STRUCTURAL_SEQ
    {
      if i in claims && j in claims { assert false; }
    }
  }

  lemma SnapshotTokens(s: State, s': State)
    requires Shaped(s) && TokenInv(s.nextSeq, s.writers, s.dirty, s.held) && SnapshotStep(s, s')
    ensures TokenInv(s'.nextSeq, s'.writers, s'.dirty, s'.held)
  {
    forall id | id in ClaimsOf(s) ensures id.round == s.rounds && id.blob in s.dirty { ClaimsShape(s, id); }
    DrainTokens(s.nextSeq, s.writers, s.dirty, s.held, ClaimsOf(s), s.rounds);
  }

  // ---------- store ----------

  lemma ReflectsGrows(base: nat, synced: nat, log: Log, synced': nat, more: seq<Record>, b: Guid, img: Image)
    requires Reflects(base, synced, log, b, img) && synced <= synced' <= |log| + |more|
    ensures Reflects(base, synced', log + more, b, img)
  {
    var n :| base <= n <= synced && img == ImageAt(b, log, n);
    ImageAtStable(b, log, more, n);
  }

  lemma SubmitStore(s: State, t: nat, s': State)
    requires StoreInv(s.base, s.synced, s.log, s.durable, s.limbo) && s.synced <= |s.log| && SubmitStep(s, t, s')
    ensures StoreInv(s'.base, s'.synced, s'.log, s'.durable, s'.limbo)
  {
    forall b, img | Reflects(s.base, s.synced, s.log, b, img) ensures Reflects(s'.base, s'.synced, s'.log, b, img) {
      ReflectsGrows(s.base, s.synced, s.log, s.synced, [s.writers[t].ops], b, img);
    }
  }

  lemma SyncStore(s: State, n: nat)
    requires StoreInv(s.base, s.synced, s.log, s.durable, s.limbo) && s.synced <= n <= |s.log|
    ensures StoreInv(s.base, n, s.log, s.durable, s.limbo)
  {
    forall b, img | Reflects(s.base, s.synced, s.log, b, img) ensures Reflects(s.base, n, s.log, b, img) {
      assert s.log + [] == s.log;
      ReflectsGrows(s.base, s.synced, s.log, n, [], b, img);
    }
  }

  lemma HeldReflects(s: State, id: Id)
    requires HeldInv(s.base, s.synced, s.log, s.hist, s.rounds, s.round, s.held) && id in s.held && HasBytes(s.held[id])
    requires s.synced <= |s.log|
    ensures Reflects(s.base, s.synced, s.log, id.blob, s.held[id].image)
  {
    HeldAt(s, id);
  }

  lemma LandStore(s: State, id: Id, s': State)
    requires Shaped(s) && HeldInv(s.base, s.synced, s.log, s.hist, s.rounds, s.round, s.held) && LandStep(s, id, s')
    requires StoreInv(s.base, s.synced, s.log, s.durable, s.limbo)
    ensures StoreInv(s'.base, s'.synced, s'.log, s'.durable, s'.limbo)
  {
    hide HeldInv, Reflects;
    HeldReflects(s, id);
  }

  lemma FlushStore(s: State, s': State)
    requires Shaped(s) && StoreInv(s.base, s.synced, s.log, s.durable, s.limbo) && StoreFlushStep(s, s')
    ensures StoreInv(s'.base, s'.synced, s'.log, s'.durable, s'.limbo)
  {
    hide Reflects;
    forall b | b in s'.durable ensures Reflects(s'.base, s'.synced, s'.log, b, s'.durable[b]) {
      if s.limbo[b] != [] { assert Reflects(s.base, s.synced, s.log, b, s.limbo[b][|s.limbo[b]| - 1]); }
    }
  }

  /** With nothing dirty, claimed or owed, the durable image of every blob holds the whole log. */
  lemma DrainedIsDurable(s: State, b: Guid)
    requires Inv(s) && GateIsFree(s) && s.dirty == map[] && s.held == map[] && b in s.hist
    ensures s.limbo[b] == [] && s.durable[b] == Logged(s.log, b)
  {
    assert Covered(s, b);
    QuietIsLogged(s, b);
  }

  lemma TruncateStore(s: State, s': State)
    requires Inv(s) && TruncateStep(s, s')
    ensures StoreInv(s'.base, s'.synced, s'.log, s'.durable, s'.limbo)
  {
    forall b | b in s'.durable ensures s'.limbo[b] == [] && Reflects(s'.base, s'.synced, s'.log, b, s'.durable[b]) {
      DrainedIsDurable(s, b);
      assert s.durable[b] == ImageAt(b, s.log, |s.log|);
    }
  }

  // ---------- the I/O worker and coverage ----------

  ghost predicate StillPending(s: State, s': State) {
    forall b :: Pending(s.writers, s.dirty, s.held, b) ==> Pending(s'.writers, s'.dirty, s'.held, b)
  }

  predicate SameIo(held: Claims, held': Claims) {
    && (forall id :: id in held && InIo(held[id]) ==> id in held' && held'[id] == held[id])
    && (forall id :: id in held' && InIo(held'[id]) ==> id in held && InIo(held[id]))
  }

  /** Steps of writers and of the planner leave the worker's batch alone; content they change
      is pending again. */
  lemma OutsideIo(s: State, s': State)
    requires IoInv(s.hist, s.writers, s.dirty, s.held, s.limbo) && CoverInv(s)
    requires StillPending(s, s') && SameIo(s.held, s'.held)
    requires s'.durable == s.durable && s'.limbo == s.limbo && s'.hist.Keys == s.hist.Keys
    requires forall b :: HasContent(s'.hist, b) ==> HasContent(s.hist, b)
    requires forall b :: HasContent(s.hist, b) ==>
      && HasContent(s'.hist, b)
      && (Content(s'.hist, b) == Content(s.hist, b) || Pending(s'.writers, s'.dirty, s'.held, b))
    ensures IoInv(s'.hist, s'.writers, s'.dirty, s'.held, s'.limbo) && CoverInv(s')
  {
    hide CoverInv, Pending;
    OutsideCover(s, s');
  }

  lemma OutsideCover(s: State, s': State)
    requires CoverInv(s) && StillPending(s, s') && SameIo(s.held, s'.held)
    requires s'.durable == s.durable && s'.limbo == s.limbo && s'.hist.Keys == s.hist.Keys
    requires forall b :: HasContent(s.hist, b) ==>
      && HasContent(s'.hist, b)
      && (Content(s'.hist, b) == Content(s.hist, b) || Pending(s'.writers, s'.dirty, s'.held, b))
    ensures CoverInv(s')
  {
    hide Pending;
    forall b | b in s'.hist ensures Covered(s', b) {
      assert Covered(s, b);
      if Protected(s.hist, s.held, b) && !Pending(s'.writers, s'.dirty, s'.held, b) {
        var id :| id in s.held && id.blob == b && Protects(s.hist, s.held[id], b);
        assert Protects(s'.hist, s'.held[id], b);
      }
    }
  }

  lemma PendingKept(writers: Writers, dirty: Dirty, held: Claims, writers': Writers, dirty': Dirty, held': Claims,
                    b: Guid)
    requires Pending(writers, dirty, held, b)
    requires b in dirty ==> b in dirty' || exists id :: id in held' && id.blob == b && !InIo(held'[id])
    requires forall t :: t in writers && Owes(writers[t], b) ==> b in dirty' || (t in writers' && Owes(writers'[t], b))
    requires forall id :: id in held && id.blob == b && !InIo(held[id])
                          ==> b in dirty' || (id in held' && !InIo(held'[id]))
    ensures Pending(writers', dirty', held', b)
  {
  }

  lemma BeginIo(s: State, t: nat, ops: seq<Op>, s': State)
    requires IoInv(s.hist, s.writers, s.dirty, s.held, s.limbo) && CoverInv(s) && BeginStep(s, t, ops, s')
    ensures IoInv(s'.hist, s'.writers, s'.dirty, s'.held, s'.limbo) && CoverInv(s')
  {
    forall b | Pending(s.writers, s.dirty, s.held, b) ensures Pending(s'.writers, s'.dirty, s'.held, b) {
      PendingKept(s.writers, s.dirty, s.held, s'.writers, s'.dirty, s'.held, b);
    }
    OutsideIo(s, s');
  }

  lemma MutateIo(s: State, t: nat, s': State)
    requires Shaped(s) && IoInv(s.hist, s.writers, s.dirty, s.held, s.limbo) && CoverInv(s) && MutateStep(s, t, s')
    ensures IoInv(s'.hist, s'.writers, s'.dirty, s'.held, s'.limbo) && CoverInv(s')
  {
    forall b | Pending(s.writers, s.dirty, s.held, b) ensures Pending(s'.writers, s'.dirty, s'.held, b) {
      PendingKept(s.writers, s.dirty, s.held, s'.writers, s'.dirty, s'.held, b);
    }
    var w := s.writers[t];
    var op := w.ops[w.mutated];
    ContentAppend(s.hist, op.key.blob, ApplyOp(op.key.blob, Cached(s, op.key.blob), op));
    assert Owes(s'.writers[t], op.key.blob) || Content(s'.hist, op.key.blob) == Content(s.hist, op.key.blob);
    OutsideIo(s, s');
  }

  lemma AbandonIo(s: State, t: nat, s': State)
    requires Shaped(s) && IoInv(s.hist, s.writers, s.dirty, s.held, s.limbo) && CoverInv(s) && AbandonStep(s, t, s')
    ensures IoInv(s'.hist, s'.writers, s'.dirty, s'.held, s'.limbo) && CoverInv(s')
  {
    forall b | Pending(s.writers, s.dirty, s.held, b) ensures Pending(s'.writers, s'.dirty, s'.held, b) {
      assert !Owes(s.writers[t], b);
      PendingKept(s.writers, s.dirty, s.held, s'.writers, s'.dirty, s'.held, b);
    }
    OutsideIo(s, s');
  }

  lemma MarkIo(s: State, t: nat, s': State)
    requires Shaped(s) && IoInv(s.hist, s.writers, s.dirty, s.held, s.limbo) && CoverInv(s) && MarkStep(s, t, s')
    ensures IoInv(s'.hist, s'.writers, s'.dirty, s'.held, s'.limbo) && CoverInv(s')
  {
    forall b | Pending(s.writers, s.dirty, s.held, b) ensures Pending(s'.writers, s'.dirty, s'.held, b) {
      PendingKept(s.writers, s.dirty, s.held, s'.writers, s'.dirty, s'.held, b);
    }
    OutsideIo(s, s');
  }

  lemma SubmitIo(s: State, t: nat, s': State)
    requires Shaped(s) && IoInv(s.hist, s.writers, s.dirty, s.held, s.limbo) && CoverInv(s) && SubmitStep(s, t, s')
    ensures IoInv(s'.hist, s'.writers, s'.dirty, s'.held, s'.limbo) && CoverInv(s')
  {
    forall b | Pending(s.writers, s.dirty, s.held, b) ensures Pending(s'.writers, s'.dirty, s'.held, b) {
      assert !Owes(s.writers[t], b);
      PendingKept(s.writers, s.dirty, s.held, s'.writers, s'.dirty, s'.held, b);
    }
    OutsideIo(s, s');
  }

  /** Touch and Compact. */
  lemma SameContentIo(s: State, b: Guid, s': State)
    requires Shaped(s) && IoInv(s.hist, s.writers, s.dirty, s.held, s.limbo) && CoverInv(s) && b in s.hist
    requires s' == s.(hist := s.hist[b := s.hist[b] + [Cached(s, b)]], dirty := s'.dirty)
    requires s.dirty.Keys <= s'.dirty.Keys
    ensures IoInv(s'.hist, s'.writers, s'.dirty, s'.held, s'.limbo) && CoverInv(s')
  {
    forall c | Pending(s.writers, s.dirty, s.held, c) ensures Pending(s'.writers, s'.dirty, s'.held, c) {
      PendingKept(s.writers, s.dirty, s.held, s'.writers, s'.dirty, s'.held, c);
    }
    ContentAppend(s.hist, b, Cached(s, b));
    OutsideIo(s, s');
  }

  lemma SnapshotPending(s: State, s': State, b: Guid)
    requires Shaped(s) && SnapshotStep(s, s') && Pending(s.writers, s.dirty, s.held, b)
    ensures Pending(s'.writers, s'.dirty, s'.held, b)
  {
    if b in s.dirty {
      var id := Id(s.rounds, b);
      ClaimsShape(s, id);
      assert id in s'.held && !InIo(s'.held[id]);
    } else {
      var id :| id in s.held && id.blob == b && !InIo(s.held[id]);
      assert id in s'.held && !InIo(s'.held[id]);
    }
  }

  lemma SnapshotSameIo(s: State, s': State)
    requires Shaped(s) && SnapshotStep(s, s')
    requires HeldInv(s.base, s.synced, s.log, s.hist, s.rounds, s.round, s.held)
    ensures SameIo(s.held, s'.held)
  {
    hide HeldInv, ClaimsOf, SameIo, GateIsFree;
    forall id | id in s.held ensures id !in ClaimsOf(s) {
      ClaimsShape(s, id);
      HeldAt(s, id);
    }
    ClaimsAreNew(s);
    JoinedSameIo(s.held, ClaimsOf(s));
  }

  lemma ClaimsAreNew(s: State)
    requires Shaped(s)
    ensures forall id :: id in ClaimsOf(s) ==> !InIo(ClaimsOf(s)[id])
  {
  }

  lemma JoinedSameIo(held: Claims, claims: Claims)
    requires forall id :: id in held ==> id !in claims
    requires forall id :: id in claims ==> !InIo(claims[id])
    ensures SameIo(held, held + claims)
  {
  }

  lemma SnapshotIo(s: State, s': State)
    requires Shaped(s) && IoInv(s.hist, s.writers, s.dirty, s.held, s.limbo) && CoverInv(s) && SnapshotStep(s, s')
    requires SameIo(s.held, s'.held)
    ensures IoInv(s'.hist, s'.writers, s'.dirty, s'.held, s'.limbo) && CoverInv(s')
  {
    forall b | Pending(s.writers, s.dirty, s.held, b) ensures Pending(s'.writers, s'.dirty, s'.held, b) {
      SnapshotPending(s, s', b);
    }
    OutsideIo(s, s');
  }

  /** Clone, RoundFailed and Ship: claims move or return to the dirty map. */
  lemma PlannerIo(s: State, s': State)
    requires IoInv(s.hist, s.writers, s.dirty, s.held, s.limbo) && CoverInv(s)
    requires s'.hist == s.hist && s'.writers == s.writers && s'.durable == s.durable && s'.limbo == s.limbo
    requires s.dirty.Keys <= s'.dirty.Keys && SameIo(s.held, s'.held)
    requires forall id :: id in s.held && !InIo(s.held[id])
                          ==> id.blob in s'.dirty || (id in s'.held && !InIo(s'.held[id]))
    ensures IoInv(s'.hist, s'.writers, s'.dirty, s'.held, s'.limbo) && CoverInv(s')
  {
    forall b | Pending(s.writers, s.dirty, s.held, b) ensures Pending(s'.writers, s'.dirty, s'.held, b) {
      PendingKept(s.writers, s.dirty, s.held, s'.writers, s'.dirty, s'.held, b);
    }
    OutsideIo(s, s');
  }

  lemma PickIo(s: State, ids: set<Id>, s': State)
    requires IoInv(s.hist, s.writers, s.dirty, s.held, s.limbo) && CoverInv(s) && PickStep(s, ids, s')
    ensures IoInv(s'.hist, s'.writers, s'.dirty, s'.held, s'.limbo) && CoverInv(s')
  {
    forall b | b in s'.hist ensures Covered(s', b) {
      assert Covered(s, b);
      if && !Clean(s.hist, s.durable, s.limbo, b) && b !in s.dirty
         && !(exists t :: t in s.writers && Owes(s.writers[t], b)) {
        var id :| id in s.held && id.blob == b;
        assert id in s'.held && (!InIo(s'.held[id]) || Protects(s'.hist, s'.held[id], b));
      }
    }
  }

  /** A step of the worker that keeps every claim and what is pending, and changes one entry. */
  predicate OneMoved(held: Claims, id: Id, held': Claims) {
    && id in held && InIo(held[id]) && id in held' && held' == held[id := held'[id]]
    && InIo(held'[id]) && !held'[id].stage.Flushed?
    && held'[id].image == held[id].image && held'[id].version == held[id].version
  }

  lemma OneMovedPending(writers: Writers, dirty: Dirty, held: Claims, id: Id, held': Claims, b: Guid)
    requires OneMoved(held, id, held')
    ensures Pending(writers, dirty, held, b) <==> Pending(writers, dirty, held', b)
  {
    if Pending(writers, dirty, held, b) { PendingKept(writers, dirty, held, writers, dirty, held', b); }
    if Pending(writers, dirty, held', b) { PendingKept(writers, dirty, held', writers, dirty, held, b); }
  }

  lemma OneMovedProtected(hist: History, held: Claims, id: Id, held': Claims, b: Guid)
    requires OneMoved(held, id, held') && Protected(hist, held, b)
    requires Protects(hist, held[id], id.blob) ==> Protects(hist, held'[id], id.blob)
    ensures Protected(hist, held', b)
  {
    var i :| i in held && i.blob == b && Protects(hist, held[i], b);
    assert i in held' && Protects(hist, held'[i], b);
  }

  lemma OneMovedCurrent(s: State, id: Id, s': State)
    requires Current(s.hist, s.writers, s.dirty, s.held) && OneMoved(s.held, id, s'.held)
    requires s'.hist == s.hist && s'.writers == s.writers && s'.dirty == s.dirty
    requires || Writing(s.held[id])
             || (Writing(s'.held[id]) && HasContent(s.hist, id.blob) ==> s.held[id].image == Content(s.hist, id.blob))
    ensures Current(s'.hist, s'.writers, s'.dirty, s'.held)
  {
    forall j | j in s'.held && Writing(s'.held[j]) && HasContent(s'.hist, j.blob)
      ensures s'.held[j].image == Content(s'.hist, j.blob) || Pending(s'.writers, s'.dirty, s'.held, j.blob)
    {
      OneMovedPending(s.writers, s.dirty, s.held, id, s'.held, j.blob);
    }
  }

  lemma OneMovedCover(s: State, id: Id, s': State)
    requires CoverInv(s) && OneMoved(s.held, id, s'.held)
    requires s'.hist == s.hist && s'.writers == s.writers && s'.dirty == s.dirty && s'.durable == s.durable
    requires forall b :: b in s.hist && Clean(s.hist, s.durable, s.limbo, b) ==> Covered(s', b)
    requires Protects(s.hist, s.held[id], id.blob) ==> Protects(s.hist, s'.held[id], id.blob)
    ensures CoverInv(s')
  {
    forall b | b in s'.hist ensures Covered(s', b) {
      assert Covered(s, b);
      OneMovedPending(s.writers, s.dirty, s.held, id, s'.held, b);
      if Protected(s.hist, s.held, b) { OneMovedProtected(s.hist, s.held, id, s'.held, b); }
    }
  }

  lemma OneMovedNewest(held: Claims, id: Id, held': Claims)
    requires Newest(held) && OneMoved(held, id, held')
    requires Writing(held'[id]) ==> Writing(held[id]) || forall j :: j in held && j.blob == id.blob ==>
      held[j].version <= held[id].version
    ensures Newest(held')
  {
    forall i, j | i in held' && j in held' && i.blob == j.blob && Writing(held'[i]) && InIo(held'[j])
      ensures held'[j].version <= held'[i].version
    {
    }
  }

  lemma OneMovedTail(held: Claims, id: Id, held': Claims, limbo: map<Guid, seq<Image>>)
    requires Tail(held, limbo) && OneMoved(held, id, held')
    requires held'[id].stage.Landed? || held'[id].stage.Retired? ==> held[id].stage.Landed? || held[id].stage.Retired?
    ensures Tail(held', limbo)
  {
  }

  lemma ValidateNewest(s: State, id: Id)
    requires HeldInv(s.base, s.synced, s.log, s.hist, s.rounds, s.round, s.held) && id in s.held
    ensures forall j :: j in s.held && j.blob == id.blob ==> s.held[j].version < |s.hist[id.blob]|
  {
    forall j | j in s.held && j.blob == id.blob ensures s.held[j].version < |s.hist[id.blob]| {
      assert HeldOk(s.base, s.synced, s.log, s.hist, s.rounds, s.round, j, s.held[j]);
    }
  }

  lemma CleanStays(s: State, s': State)
    requires s'.hist == s.hist && s'.durable == s.durable && s'.limbo == s.limbo
    ensures forall b :: b in s.hist && Clean(s.hist, s.durable, s.limbo, b) ==> Covered(s', b)
  {
  }

  lemma ValidateIo(s: State, id: Id, s': State)
    requires Shaped(s) && IoInv(s.hist, s.writers, s.dirty, s.held, s.limbo) && CoverInv(s) && ValidateStep(s, id, s')
    requires HeldInv(s.base, s.synced, s.log, s.hist, s.rounds, s.round, s.held)
    ensures IoInv(s'.hist, s'.writers, s'.dirty, s'.held, s'.limbo) && CoverInv(s')
  {
    hide Newest, Tail, Current, CoverInv, HeldInv;
    HeldAt(s, id);
    ValidateNewest(s, id);
    OneMovedNewest(s.held, id, s'.held);
    OneMovedTail(s.held, id, s'.held, s.limbo);
    OneMovedCurrent(s, id, s');
    CleanStays(s, s');
    OneMovedCover(s, id, s');
  }

  lemma LandTail(s: State, id: Id, s': State)
    requires Shaped(s) && Newest(s.held) && Tail(s.held, s.limbo) && LandStep(s, id, s')
    requires HeldInv(s.base, s.synced, s.log, s.hist, s.rounds, s.round, s.held)
    ensures Tail(s'.held, s'.limbo)
  {
    hide HeldInv;
    HeldAt(s, id);
    forall j | j in s'.held && (s'.held[j].stage.Landed? || s'.held[j].stage.Retired?)
      ensures j.blob in s'.limbo && s'.limbo[j.blob] != [] && Last(s'.limbo[j.blob]) == s'.held[j].image
    {
      if j.blob == id.blob && j != id {
        HeldAt(s, j);
      }
    }
  }

  lemma LandClean(s: State, id: Id, s': State, b: Guid)
    requires Shaped(s) && Current(s.hist, s.writers, s.dirty, s.held) && LandStep(s, id, s')
    requires b in s.hist && Clean(s.hist, s.durable, s.limbo, b)
    ensures Covered(s', b)
  {
    if b == id.blob {
      OneMovedPending(s.writers, s.dirty, s.held, id, s'.held, b);
      assert s.held[id].image == Content(s.hist, b) ==> Protects(s'.hist, s'.held[id], b);
    }
  }

  lemma LandIo(s: State, id: Id, s': State)
    requires Shaped(s) && IoInv(s.hist, s.writers, s.dirty, s.held, s.limbo) && CoverInv(s) && LandStep(s, id, s')
    requires HeldInv(s.base, s.synced, s.log, s.hist, s.rounds, s.round, s.held)
    ensures IoInv(s'.hist, s'.writers, s'.dirty, s'.held, s'.limbo) && CoverInv(s')
  {
    hide Newest, Tail, Current, CoverInv, HeldInv;
    OneMovedNewest(s.held, id, s'.held);
    LandTail(s, id, s');
    OneMovedCurrent(s, id, s');
    forall b | b in s.hist && Clean(s.hist, s.durable, s.limbo, b) ensures Covered(s', b) { LandClean(s, id, s', b); }
    OneMovedCover(s, id, s');
  }

  /** The compare-and-set never removes a live mark: the token is held by the entry itself. */
  lemma RetireKeepsDirty(s: State, id: Id, s': State)
    requires TokenInv(s.nextSeq, s.writers, s.dirty, s.held) && RetireStep(s, id, s')
    ensures s'.dirty == s.dirty
  {
  }

  lemma RetireIo(s: State, id: Id, s': State)
    requires IoInv(s.hist, s.writers, s.dirty, s.held, s.limbo) && CoverInv(s) && RetireStep(s, id, s')
    requires s'.dirty == s.dirty
    ensures IoInv(s'.hist, s'.writers, s'.dirty, s'.held, s'.limbo) && CoverInv(s')
  {
    hide Newest, Tail, Current, CoverInv;
    OneMovedNewest(s.held, id, s'.held);
    OneMovedTail(s.held, id, s'.held, s.limbo);
    OneMovedCurrent(s, id, s');
    CleanStays(s, s');
    OneMovedCover(s, id, s');
  }

  lemma FlushPending(s: State, s': State, b: Guid)
    requires Shaped(s) && StoreFlushStep(s, s')
    ensures Pending(s.writers, s.dirty, s.held, b) <==> Pending(s'.writers, s'.dirty, s'.held, b)
  {
    hide Pending, Owes, Shaped;
    if Pending(s.writers, s.dirty, s.held, b) {
      PendingKept(s.writers, s.dirty, s.held, s'.writers, s'.dirty, s'.held, b);
    }
    if Pending(s'.writers, s'.dirty, s'.held, b) {
      PendingKept(s'.writers, s'.dirty, s'.held, s.writers, s.dirty, s.held, b);
    }
  }

  lemma FlushCovered(s: State, s': State, b: Guid)
    requires Shaped(s) && Tail(s.held, s.limbo) && StoreFlushStep(s, s') && b in s.hist && Covered(s, b)
    ensures Covered(s', b)
  {
    FlushPending(s, s', b);
    if Protected(s.hist, s.held, b) {
      var id :| id in s.held && id.blob == b && Protects(s.hist, s.held[id], b);
      if s.held[id].stage.Retired? {
        assert Clean(s'.hist, s'.durable, s'.limbo, b);
      } else {
        assert Protects(s'.hist, s'.held[id], b);
      }
    }
  }

  lemma FlushIo(s: State, s': State)
    requires Shaped(s) && IoInv(s.hist, s.writers, s.dirty, s.held, s.limbo) && CoverInv(s) && StoreFlushStep(s, s')
    ensures IoInv(s'.hist, s'.writers, s'.dirty, s'.held, s'.limbo) && CoverInv(s')
  {
    assert forall id :: id in s'.held ==> !Writing(s'.held[id]);
    forall b | b in s'.hist ensures Covered(s', b) { FlushCovered(s, s', b); }
  }

  /** BatchFailed and BatchEnd: whatever did not flush is dirty again. */
  lemma BatchOverIo(s: State, s': State)
    requires IoInv(s.hist, s.writers, s.dirty, s.held, s.limbo) && CoverInv(s)
    requires s'.hist == s.hist && s'.writers == s.writers && s'.durable == s.durable && s'.limbo == s.limbo
    requires s.dirty.Keys <= s'.dirty.Keys
    requires forall id :: id in s'.held ==> id in s.held && !InIo(s'.held[id])
    requires forall id :: id in s.held ==> if InIo(s.held[id]) then s.held[id].stage.Flushed? || id.blob in s'.dirty
                                           else id in s'.held && s'.held[id] == s.held[id]
    ensures IoInv(s'.hist, s'.writers, s'.dirty, s'.held, s'.limbo) && CoverInv(s')
  {
    forall b | b in s'.hist ensures Covered(s', b) {
      assert Covered(s, b);
      if Pending(s.writers, s.dirty, s.held, b) {
        PendingKept(s.writers, s.dirty, s.held, s'.writers, s'.dirty, s'.held, b);
      }
    }
  }

  // ---------- shape ----------

  lemma BeginShape(s: State, t: nat, ops: seq<Op>, s': State)
    requires Shaped(s) && WriterInv(s.nextSeq, s.writers) && BeginStep(s, t, ops, s')
    ensures Shaped(s') && WriterInv(s'.nextSeq, s'.writers)
  {
  }

  lemma AbandonShape(s: State, t: nat, s': State)
    requires Shaped(s) && WriterInv(s.nextSeq, s.writers) && TokenInv(s.nextSeq, s.writers, s.dirty, s.held)
    requires AbandonStep(s, t, s')
    ensures Shaped(s') && WriterInv(s'.nextSeq, s'.writers) && TokenInv(s'.nextSeq, s'.writers, s'.dirty, s'.held)
  {
  }

  lemma FlushMoves(s: State, s': State)
    requires Shaped(s) && StoreFlushStep(s, s')
    ensures Moved(s.held, s'.held)
    ensures forall id :: id in s'.held ==>
      (InRound(s'.held[id]) ==> s'.held[id] == s.held[id]) && s'.held[id].image == s.held[id].image
      && (HasBytes(s'.held[id]) ==> HasBytes(s.held[id]))
  {
  }

  lemma TruncateRest(s: State, s': State)
    requires Shaped(s) && TruncateStep(s, s')
    requires HeldInv(s.base, s.synced, s.log, s.hist, s.rounds, s.round, s.held)
    ensures Shaped(s') && HeldInv(s'.base, s'.synced, s'.log, s'.hist, s'.rounds, s'.round, s'.held)
  {
  }

  lemma MutateShape(s: State, t: nat, s': State)
    requires Shaped(s) && WriterInv(s.nextSeq, s.writers) && MutateStep(s, t, s')
    ensures Shaped(s') && WriterInv(s'.nextSeq, s'.writers)
  {
  }

  lemma MarkShape(s: State, t: nat, s': State)
    requires Shaped(s) && WriterInv(s.nextSeq, s.writers) && MarkStep(s, t, s')
    ensures Shaped(s') && WriterInv(s'.nextSeq, s'.writers)
  {
  }

  lemma SubmitShape(s: State, t: nat, s': State)
    requires Shaped(s) && WriterInv(s.nextSeq, s.writers) && TokenInv(s.nextSeq, s.writers, s.dirty, s.held)
    requires SubmitStep(s, t, s')
    ensures Shaped(s') && WriterInv(s'.nextSeq, s'.writers) && TokenInv(s'.nextSeq, s'.writers, s'.dirty, s'.held)
  {
  }

  lemma AppendHistShape(s: State, b: Guid, s': State)
    requires Shaped(s) && b in s.hist
    requires s' == s.(hist := s.hist[b := s.hist[b] + [Cached(s, b)]], dirty := s'.dirty)
    requires s'.dirty.Keys <= s.hist.Keys
    ensures Shaped(s')
  {
  }

  lemma SnapshotShape(s: State, s': State)
    requires Shaped(s) && SnapshotStep(s, s')
    ensures Shaped(s')
  {
    forall id | id in s'.held ensures id.blob in s'.hist { ClaimsShape(s, id); }
  }

  lemma MovedShape(s: State, s': State)
    requires Shaped(s) && Moved(s.held, s'.held) && s'.dirty.Keys <= s.hist.Keys
    requires s'.durable.Keys == s.durable.Keys && s'.limbo.Keys == s.limbo.Keys
    requires s' == s.(held := s'.held, dirty := s'.dirty, round := s'.round, durable := s'.durable, limbo := s'.limbo)
    ensures Shaped(s')
  {
  }

  lemma RestoredDirty(s: State, gone: Claims, dirty': Dirty)
    requires Shaped(s) && Restored(s.dirty, gone, dirty')
    requires forall id :: id in gone ==> id in s.held
    ensures dirty'.Keys <= s.hist.Keys && s.dirty.Keys <= dirty'.Keys
    ensures forall id :: id in gone ==> id.blob in dirty'
  {
    assert forall id :: id in gone ==> id.blob in (set i | i in gone :: i.blob);
  }

  lemma CoverSame(s: State, s': State)
    requires CoverInv(s) && s'.hist == s.hist && s'.writers == s.writers && s'.dirty == s.dirty
    requires s'.held == s.held && s'.durable == s.durable && s'.limbo == s.limbo
    ensures CoverInv(s')
  {
    forall b | b in s'.hist ensures Covered(s', b) { assert Covered(s, b); }
  }

  /** A round can begin, and the log can be truncated, while writers that only hold their numbers wait. */
  lemma GateAdmitsIff(s: State)
    requires Shaped(s)
    ensures (exists s' :: Next(s, Snapshot, s')) <==>
      s.round.NoRound? && forall t :: t in s.writers ==> s.writers[t].mutated == 0
    ensures (exists s' :: Next(s, Truncate, s')) <==>
      s.held == map[] && s.dirty == map[] && forall t :: t in s.writers ==> s.writers[t].mutated == 0
  {
    var begun := s.(held := s.held + ClaimsOf(s), dirty := map[], rounds := s.rounds + 1,
                    round := Open(|s.log|, false));
    var cut := s.(base := |s.log|, synced := |s.log|);
    if s.round.NoRound? && GateIsFree(s) { assert Next(s, Snapshot, begun); }
    if s.held == map[] && s.dirty == map[] && GateIsFree(s) { assert Next(s, Truncate, cut); }
  }

  // ---------- dirty marks ----------

  /** One blob is marked, with the lowest number since its mark appeared, and no other mark changes. */
  predicate MarkedLow(dirty: map<Guid, nat>, dirty': map<Guid, nat>, b: Guid, seqno: nat) {
    && dirty'.Keys == dirty.Keys + {b} && (forall x :: x in dirty && x != b ==> dirty'[x] == dirty[x])
    && dirty'[b] <= seqno && (b in dirty ==> dirty'[b] <= dirty[b])
    && (dirty'[b] == seqno || (b in dirty && dirty'[b] == dirty[b]))
  }

  /** A writer marks with the number of its operation, a compaction with the highest there is. */
  lemma MarksTheOldest(s: State, e: Event, s': State)
    requires Shaped(s) && Next(s, e, s')
    ensures e.Mark? ==>
      && e.t in s.writers && s.writers[e.t].marked < |s.writers[e.t].ops|
      && var op := s.writers[e.t].ops[s.writers[e.t].marked];
         MarkedLow(s.dirty, s'.dirty, op.key.blob, op.seqno)
    ensures e.Compact? ==> MarkedLow(s.dirty, s'.dirty, e.b, 0xFFFF_FFFF_FFFF_FFFF)
  {
  }

  /** A mutation waits for its mark unless it erased a key that was not there. */
  lemma OnlyNoopsGoUnmarked(s: State, t: nat, s': State)
    requires Shaped(s) && Next(s, Mutate(t), s')
    ensures t in s.writers && t in s'.writers && s.writers[t].mutated < |s.writers[t].ops|
    ensures var op := s.writers[t].ops[s.writers[t].mutated];
            && s'.writers[t].mutated == s.writers[t].mutated + 1 && op.key.blob in s.hist
            && (s'.writers[t].marked == s'.writers[t].mutated <==> op.Erase? && op.key !in Cached(s, op.key.blob))
  {
  }
}
