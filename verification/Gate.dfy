/**
 The shared/exclusive admission gate, one atomic operation per step, for any
 number of threads. The commit gate has the same body. Interleavings are
 sequentially consistent.
 */
module Gate {
  /** The top bit of the 64-bit state word; the bits below count shared holders. */
  const WRITE_BIT: nat := 0x8000_0000_0000_0000
  const COUNT_MASK: nat := WRITE_BIT - 1

  type Tid = nat

  /** Where a thread stands in `enter_shared` / `enter_exclusive`. */
  datatype Pc =
    | Outside
    | SharedLoaded(cur: nat)      // enter_shared has loaded the word
    | Shared
    | ExclusiveLoaded(cur: nat)   // enter_exclusive has loaded the word
    | Draining                    // write bit set, waiting for shared holders
    | Exclusive

  datatype State = State(word: nat, pcs: map<Tid, Pc>)

  function Bit(word: nat): nat { if word >= WRITE_BIT then 1 else 0 }
  function Count(word: nat): nat { word % WRITE_BIT }

  datatype Event =
    | LoadShared(t: Tid)
    | CasShared(t: Tid, spurious: bool)
    | LoadExclusive(t: Tid)
    | CasExclusive(t: Tid, spurious: bool)
    | DrainCheck(t: Tid)
    | LeaveShared(t: Tid)
    | LeaveExclusive(t: Tid)

  function Become(s: State, t: Tid, pc: Pc): State { s.(pcs := s.pcs[t := pc]) }

  predicate At(s: State, t: Tid, pc: Pc) { t in s.pcs && s.pcs[t] == pc }

  predicate Next(s: State, e: Event, s': State) {
    && e.t in s.pcs
    && var pc := s.pcs[e.t];
    match e
    case LoadShared(t) =>
      pc.Outside? && s' == Become(s, t, SharedLoaded(s.word))
    case CasShared(t, spurious) =>
      // A refused or failed attempt goes back to the top of the loop.
      && pc.SharedLoaded?
      && s' == if !spurious && Bit(pc.cur) == 0 && Count(pc.cur) != COUNT_MASK && s.word == pc.cur
               then Become(s.(word := pc.cur + 1), t, Shared)
               else Become(s, t, Outside)
    case LoadExclusive(t) =>
      pc.Outside? && s' == Become(s, t, ExclusiveLoaded(s.word))
    case CasExclusive(t, spurious) =>
      && pc.ExclusiveLoaded?
      && s' == if !spurious && Bit(pc.cur) == 0 && s.word == pc.cur
               then Become(s.(word := pc.cur + WRITE_BIT), t, Draining)
               else Become(s, t, Outside)
    case DrainCheck(t) =>
      pc.Draining? && s' == if Count(s.word) == 0 then Become(s, t, Exclusive) else s
    case LeaveShared(t) =>
      pc.Shared? && s.word > 0 && s' == Become(s.(word := s.word - 1), t, Outside)
    case LeaveExclusive(t) =>
      pc.Exclusive? && s' == Become(s.(word := 0), t, Outside)
  }

  predicate Init(s: State) {
    s.word == 0 && forall t :: t in s.pcs ==> s.pcs[t].Outside?
  }

  // ---------- the invariant ----------

  function SharedHolders(pcs: map<Tid, Pc>): set<Tid> { set t | t in pcs && pcs[t].Shared? }

  /** Threads that own the write bit. */
  function Owners(pcs: map<Tid, Pc>): set<Tid> { set t | t in pcs && (pcs[t].Draining? || pcs[t].Exclusive?) }

  /** The word is the write bit of its single owner plus the number of shared holders. */
  predicate Inv(s: State) {
    && |Owners(s.pcs)| <= 1
    && |SharedHolders(s.pcs)| <= COUNT_MASK
    && s.word == |Owners(s.pcs)| * WRITE_BIT + |SharedHolders(s.pcs)|
    && (forall t :: t in s.pcs && s.pcs[t].Exclusive? ==> SharedHolders(s.pcs) == {})
  }

  lemma Move(pcs: map<Tid, Pc>, t: Tid, pc: Pc)
    requires t in pcs
    ensures var pcs' := pcs[t := pc];
            && SharedHolders(pcs') == (if pc.Shared? then SharedHolders(pcs) + {t} else SharedHolders(pcs) - {t})
            && Owners(pcs') == (if pc.Draining? || pc.Exclusive? then Owners(pcs) + {t} else Owners(pcs) - {t})
  {
  }

  lemma OwnerUnique(s: State, t: Tid, u: Tid)
    requires Inv(s) && t in Owners(s.pcs) && u in Owners(s.pcs)
    ensures t == u
  {
    if t != u {
      assert {t, u} <= Owners(s.pcs);
      SubsetSize({t, u}, Owners(s.pcs));
    }
  }

  lemma {:induction false} SubsetSize<T>(a: set<T>, b: set<T>)
    requires a <= b
    ensures |a| <= |b|
    decreases a
  {
    if a != {} {
      var x :| x in a;
      SubsetSize(a - {x}, b - {x});
    }
  }

  lemma WordParts(s: State)
    requires Inv(s)
    ensures Count(s.word) == |SharedHolders(s.pcs)| && Bit(s.word) == |Owners(s.pcs)|
  {
  }

  lemma SharedKeeps(s: State, e: Event, s': State)
    requires Inv(s) && Next(s, e, s') && (e.LoadShared? || e.CasShared? || e.LeaveShared?)
    ensures Inv(s')
  {
    WordParts(s);
    Move(s.pcs, e.t, s'.pcs[e.t]);
    if s'.pcs[e.t].Shared? { assert Owners(s.pcs) == {}; }
    if e.LeaveShared? { assert e.t in SharedHolders(s.pcs); }
    assert Owners(s'.pcs) == Owners(s.pcs);
    forall u | u in s'.pcs && s'.pcs[u].Exclusive? ensures SharedHolders(s'.pcs) == {} {
      assert u in Owners(s.pcs);
    }
  }

  lemma EnterExclusiveKeeps(s: State, e: Event, s': State)
    requires Inv(s) && Next(s, e, s') && (e.LoadExclusive? || e.CasExclusive?)
    ensures Inv(s')
  {
    WordParts(s);
    Move(s.pcs, e.t, s'.pcs[e.t]);
    hide Owners, SharedHolders;
    NotHolding(s.pcs, e.t);
  }

  lemma NotHolding(pcs: map<Tid, Pc>, t: Tid)
    requires t in pcs && (pcs[t].Outside? || pcs[t].ExclusiveLoaded?)
    ensures SharedHolders(pcs) - {t} == SharedHolders(pcs) && Owners(pcs) - {t} == Owners(pcs) && t !in Owners(pcs)
    ensures forall u :: u in pcs && pcs[u].Exclusive? ==> u in Owners(pcs)
  {
  }

  lemma OwnerKeeps(s: State, e: Event, s': State)
    requires Inv(s) && Next(s, e, s') && (e.DrainCheck? || e.LeaveExclusive?)
    ensures Inv(s')
  {
    WordParts(s);
    Move(s.pcs, e.t, s'.pcs[e.t]);
    assert e.t in Owners(s.pcs);
    forall u | u in Owners(s.pcs) ensures u == e.t { OwnerUnique(s, e.t, u); }
    assert Owners(s.pcs) == {e.t};
    assert SharedHolders(s'.pcs) == SharedHolders(s.pcs);
  }

  lemma NextKeeps(s: State, e: Event, s': State)
    requires Inv(s) && Next(s, e, s')
    ensures Inv(s')
  {
    hide Inv;
    if e.LoadShared? || e.CasShared? || e.LeaveShared? {
      SharedKeeps(s, e, s');
    } else if e.LoadExclusive? || e.CasExclusive? {
      EnterExclusiveKeeps(s, e, s');
    } else {
      OwnerKeeps(s, e, s');
    }
  }

  ghost predicate Run(trace: seq<State>, events: seq<Event>) {
    && |trace| == |events| + 1
    && Init(trace[0])
    && (forall i :: 0 <= i < |events| ==> Next(trace[i], events[i], trace[i + 1]))
  }

  lemma {:induction false} RunInv(trace: seq<State>, events: seq<Event>, i: nat)
    requires Run(trace, events) && i < |trace|
    ensures Inv(trace[i])
  {
    if i == 0 {
      assert SharedHolders(trace[0].pcs) == {} && Owners(trace[0].pcs) == {};
    } else {
      RunInv(trace, events, i - 1);
      NextKeeps(trace[i - 1], events[i - 1], trace[i]);
    }
  }

  // ---------- main results ----------

  /** In every interleaving: the state word decomposes exactly, an exclusive holder is alone,
      and a shared holder can always leave without the count running below zero. */
  lemma GateIsSafe(trace: seq<State>, events: seq<Event>, i: nat, t: Tid, u: Tid)
    requires Run(trace, events) && i < |trace| && t in trace[i].pcs && u in trace[i].pcs
    ensures trace[i].word == |Owners(trace[i].pcs)| * WRITE_BIT + |SharedHolders(trace[i].pcs)|
    ensures trace[i].pcs[t].Exclusive? && u != t ==>
              !trace[i].pcs[u].Exclusive? && !trace[i].pcs[u].Draining? && !trace[i].pcs[u].Shared?
    ensures trace[i].pcs[t].Shared? ==> Count(trace[i].word) > 0
  {
    RunInv(trace, events, i);
    var s := trace[i];
    if s.pcs[t].Exclusive? && (s.pcs[u].Exclusive? || s.pcs[u].Draining?) { OwnerUnique(s, t, u); }
    if s.pcs[t].Exclusive? { assert u !in SharedHolders(s.pcs); }
    if s.pcs[t].Shared? { assert t in SharedHolders(s.pcs); }
  }

  /** Once the write bit is set no step raises the count, so the owner is not starved by newcomers. */
  lemma CountFallsWhileOwned(trace: seq<State>, events: seq<Event>, i: nat)
    requires Run(trace, events) && i < |events| && Bit(trace[i].word) == 1
    ensures Count(trace[i + 1].word) <= Count(trace[i].word)
    ensures Bit(trace[i + 1].word) == 1 || events[i].LeaveExclusive?
  {
    RunInv(trace, events, i);
    RunInv(trace, events, i + 1);
    var s, e, s' := trace[i], events[i], trace[i + 1];
    assert Next(s, e, s');
    Move(s.pcs, e.t, s'.pcs[e.t]);
    if e.LeaveShared? { assert e.t in SharedHolders(s.pcs); }
  }

  /** The blind `store(0)` on exit erases the write bit and nothing else. */
  lemma ExitLosesNoEntrant(trace: seq<State>, events: seq<Event>, i: nat)
    requires Run(trace, events) && i < |events| && events[i].LeaveExclusive?
    ensures trace[i].word == WRITE_BIT && SharedHolders(trace[i].pcs) == {}
    ensures SharedHolders(trace[i + 1].pcs) == {} && Owners(trace[i + 1].pcs) == {}
  {
    RunInv(trace, events, i);
    var s, e, s' := trace[i], events[i], trace[i + 1];
    assert Next(s, e, s');
    assert e.t in Owners(s.pcs);
    forall u | u in Owners(s.pcs) ensures u == e.t { OwnerUnique(s, e.t, u); }
    assert Owners(s.pcs) == {e.t};
    Move(s.pcs, e.t, Outside);
  }

  // ---------- getting in ----------

  /** A thread outside gets in: as a shared holder whenever the write bit is clear and nobody comes
      between, and exclusively when nobody else is in. While the bit is set shared attempts fail. */
  lemma EntersWhenFree(s: State, t: Tid)
    requires At(s, t, Outside) && Count(s.word) < COUNT_MASK
    ensures var loaded := Become(s, t, SharedLoaded(s.word));
            && Next(s, LoadShared(t), loaded)
            && (Bit(s.word) == 0 ==> Next(loaded, CasShared(t, false), State(s.word + 1, s.pcs[t := Shared])))
            && (Bit(s.word) == 1 ==> Next(loaded, CasShared(t, false), s))
    ensures s.word == 0 ==>
            var loaded := Become(s, t, ExclusiveLoaded(0));
            var draining := State(0x8000_0000_0000_0000, s.pcs[t := Draining]);
            && Next(s, LoadExclusive(t), loaded) && Next(loaded, CasExclusive(t, false), draining)
            && Next(draining, DrainCheck(t), draining.(pcs := s.pcs[t := Exclusive]))
            && Next(draining.(pcs := s.pcs[t := Exclusive]), LeaveExclusive(t), s)
  {
    assert s.pcs[t := Outside] == s.pcs;
    var loaded := Become(s, t, SharedLoaded(s.word));
    assert loaded.pcs[t := Outside] == s.pcs && loaded.pcs[t := Shared] == s.pcs[t := Shared];
    var exclusive := Become(s, t, ExclusiveLoaded(0));
    assert exclusive.pcs[t := Draining] == s.pcs[t := Draining];
    assert s.pcs[t := Draining][t := Exclusive] == s.pcs[t := Exclusive];
    assert s.pcs[t := Exclusive][t := Outside] == s.pcs;
  }
}
