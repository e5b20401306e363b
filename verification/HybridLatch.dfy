/**
 The three-mode latch on a cached blob, one atomic operation per step, for any
 number of threads. Interleavings are sequentially consistent and the version
 counter does not wrap.

 `hist` and the `lapped` flags are history variables: no step depends on them.
 */
module HybridLatch {
  const WRITER: nat := 0xFFFF_FFFF

  type Tid = nat
  type Content = nat

  datatype Pc =
    | Idle
    | OptLoaded(v: nat)                                     // version loaded, flag not checked yet
    | Reading(v: nat, seen: seq<Content>, lapped: bool)     // snapshot taken
    | FlagClear(v: nat, seen: seq<Content>, lapped: bool)   // validate saw no writer
    | Validated(v: nat, seen: seq<Content>, lapped: bool)   // validate returned true
    | SharedLoaded(cur: nat)
    | Shared
    | Exclusive
    | Bumped                                                // version bumped, flag not cleared yet

  datatype State = State(counter: nat, version: nat, content: Content, hist: seq<Content>, pcs: map<Tid, Pc>)

  datatype Event =
    | LoadVersion(t: Tid)
    | CheckFlag(t: Tid)
    | Read(t: Tid)
    | ValidateFlag(t: Tid)
    | ValidateVersion(t: Tid)
    | LoadShared(t: Tid)
    | CasShared(t: Tid, spurious: bool)
    | ReleaseShared(t: Tid)
    | CasExclusive(t: Tid, spurious: bool)
    | Write(t: Tid, content: Content)
    | BumpVersion(t: Tid)
    | ClearFlag(t: Tid)

  function Become(s: State, t: Tid, pc: Pc): State { s.(pcs := s.pcs[t := pc]) }

  /** A writer getting in laps every read that is under way. */
  function Lap(pcs: map<Tid, Pc>): map<Tid, Pc> {
    map t | t in pcs :: if pcs[t].Reading? then Reading(pcs[t].v, pcs[t].seen, true) else pcs[t]
  }

  predicate Next(s: State, e: Event, s': State) {
    && e.t in s.pcs
    && var pc := s.pcs[e.t];
    match e
    case LoadVersion(t) => (pc.Idle? || pc.Validated?) && s' == Become(s, t, OptLoaded(s.version))
    case CheckFlag(t) =>
      pc.OptLoaded? && s' == Become(s, t, if s.counter != WRITER then Reading(pc.v, [], false) else Idle)
    case Read(t) => pc.Reading? && s' == Become(s, t, Reading(pc.v, pc.seen + [s.content], pc.lapped))
    case ValidateFlag(t) =>
      pc.Reading? && s' == Become(s, t, if s.counter == WRITER then Idle else FlagClear(pc.v, pc.seen, pc.lapped))
    case ValidateVersion(t) =>
      pc.FlagClear? && s' == Become(s, t, if s.version == pc.v then Validated(pc.v, pc.seen, pc.lapped) else Idle)
    case LoadShared(t) => pc.Idle? && s' == Become(s, t, SharedLoaded(s.counter))
    case CasShared(t, spurious) =>
      && pc.SharedLoaded?
      && s' == if !spurious && pc.cur != WRITER && pc.cur < WRITER - 1 && s.counter == pc.cur
               then Become(s.(counter := pc.cur + 1), t, Shared)
               else Become(s, t, Idle)
    case ReleaseShared(t) => pc.Shared? && s.counter > 0 && s' == Become(s.(counter := s.counter - 1), t, Idle)
    case CasExclusive(t, spurious) =>
      && pc.Idle?
      && s' == if !spurious && s.counter == 0 then s.(counter := WRITER, pcs := Lap(s.pcs)[t := Exclusive]) else s
    case Write(t, content) => pc.Exclusive? && s' == s.(content := content)
    case BumpVersion(t) =>
      pc.Exclusive? && s' == Become(s.(version := s.version + 1, hist := s.hist + [s.content]), t, Bumped)
    case ClearFlag(t) => pc.Bumped? && s' == Become(s.(counter := 0), t, Idle)
  }

  predicate Init(s: State) {
    && s.counter == 0 && s.version == 0 && s.hist == [s.content]
    && forall t :: t in s.pcs ==> s.pcs[t].Idle?
  }

  // ---------- the invariant ----------

  function SharedHolders(pcs: map<Tid, Pc>): set<Tid> { set t | t in pcs && pcs[t].Shared? }
  function Writers(pcs: map<Tid, Pc>): set<Tid> { set t | t in pcs && (pcs[t].Exclusive? || pcs[t].Bumped?) }

  /** The counter is the writer flag of one writer, or the number of shared holders. */
  predicate CounterInv(s: State) {
    && |SharedHolders(s.pcs)| < WRITER
    && if Writers(s.pcs) == {} then s.counter == |SharedHolders(s.pcs)|
       else s.counter == WRITER && |Writers(s.pcs)| == 1 && SharedHolders(s.pcs) == {}
  }

  /** Outside an unbumped write the content is the one recorded for the current version. */
  predicate ContentInv(s: State) {
    && |s.hist| == s.version + 1
    && ((forall t :: t in s.pcs ==> !s.pcs[t].Exclusive?) ==> s.content == s.hist[s.version])
  }

  predicate AllAre(seen: seq<Content>, c: Content) {
    forall i :: 0 <= i < |seen| ==> seen[i] == c
  }

  predicate ReaderOk(s: State, pc: Pc)
    requires |s.hist| == s.version + 1
  {
    match pc
    case OptLoaded(v) => v <= s.version
    case Reading(v, seen, lapped) =>
      && v <= s.version
      && (!lapped ==> s.counter != WRITER && AllAre(seen, s.content))
      && (lapped && v == s.version ==> exists t :: t in s.pcs && s.pcs[t].Exclusive?)
    case FlagClear(v, seen, lapped) =>
      v <= s.version && (v == s.version ==> !lapped && AllAre(seen, s.hist[v]))
    case Validated(v, seen, lapped) =>
      v <= s.version && !lapped && AllAre(seen, s.hist[v])
    case _ => true
  }

  predicate Inv(s: State) {
    && CounterInv(s)
    && ContentInv(s)
    && (forall t :: t in s.pcs ==> ReaderOk(s, s.pcs[t]))
  }

  lemma Move(pcs: map<Tid, Pc>, t: Tid, pc: Pc)
    requires t in pcs
    ensures var pcs' := pcs[t := pc];
            && SharedHolders(pcs') == (if pc.Shared? then SharedHolders(pcs) + {t} else SharedHolders(pcs) - {t})
            && Writers(pcs') == (if pc.Exclusive? || pc.Bumped? then Writers(pcs) + {t} else Writers(pcs) - {t})
  {
  }

  lemma LapHolders(pcs: map<Tid, Pc>)
    ensures SharedHolders(Lap(pcs)) == SharedHolders(pcs) && Writers(Lap(pcs)) == Writers(pcs)
  {
  }

  lemma SoleWriter(s: State, t: Tid)
    requires CounterInv(s) && t in Writers(s.pcs)
    ensures Writers(s.pcs) == {t} && s.counter == WRITER
  {
    var rest := Writers(s.pcs) - {t};
    assert |rest| == 0;
    assert Writers(s.pcs) == {t} + rest;
  }

  lemma CounterKept(s: State, e: Event, s': State)
    requires CounterInv(s) && Next(s, e, s')
    ensures CounterInv(s')
  {
    var t := e.t;
    if t in Writers(s.pcs) { SoleWriter(s, t); }
    if e.CasExclusive? && s' != s {
      LapHolders(s.pcs);
      Move(Lap(s.pcs), t, Exclusive);
    } else if !e.Write? {
      Move(s.pcs, t, s'.pcs[t]);
    }
    if e.ReleaseShared? { assert t in SharedHolders(s.pcs); }
  }

  lemma ContentKept(s: State, e: Event, s': State)
    requires CounterInv(s) && ContentInv(s) && Next(s, e, s')
    ensures ContentInv(s')
  {
    var t := e.t;
    if t in Writers(s.pcs) {
      SoleWriter(s, t);
      forall u | u in s.pcs && s.pcs[u].Exclusive? ensures u == t { assert u in Writers(s.pcs); }
    }
    if s'.pcs != s.pcs && !e.CasExclusive? {
      forall u | u in s.pcs && s.pcs[u].Exclusive? && u != t ensures s'.pcs[u].Exclusive? {}
    }
    if e.CasExclusive? && s' != s { assert s'.pcs[t].Exclusive?; }
  }

  lemma ReadersKept(s: State, e: Event, s': State, u: Tid)
    requires Inv(s) && Next(s, e, s') && CounterInv(s') && ContentInv(s') && u in s'.pcs
    ensures ReaderOk(s', s'.pcs[u])
  {
    var t := e.t;
    assert ReaderOk(s, s.pcs[u]);
    if t in Writers(s.pcs) { SoleWriter(s, t); }
    if w :| w in s.pcs && s.pcs[w].Exclusive? {
      assert w in Writers(s.pcs);
      SoleWriter(s, w);
    }
  }

  lemma NextKeeps(s: State, e: Event, s': State)
    requires Inv(s) && Next(s, e, s')
    ensures Inv(s')
  {
    CounterKept(s, e, s');
    ContentKept(s, e, s');
    forall u | u in s'.pcs ensures ReaderOk(s', s'.pcs[u]) { ReadersKept(s, e, s', u); }
  }

  ghost predicate Run(trace: seq<State>, events: seq<Event>) {
    && |trace| == |events| + 1
    && Init(trace[0])
    && (forall i :: 0 <= i < |events| ==> Next(trace[i], events[i], trace[i + 1]))
  }

  lemma {:induction false} RunInv(trace: seq<State>, events: seq<Event>, i: nat)
    requires Run(trace, events) && i < |trace|
    ensures Inv(trace[i])
  {
    if i == 0 {
      assert SharedHolders(trace[0].pcs) == {} && Writers(trace[0].pcs) == {};
    } else {
      RunInv(trace, events, i - 1);
      NextKeeps(trace[i - 1], events[i - 1], trace[i]);
    }
  }

  // ---------- main results ----------

  /** Shared and exclusive access never overlap, and writers exclude each other. */
  lemma ModesExclude(trace: seq<State>, events: seq<Event>, i: nat, t: Tid, u: Tid)
    requires Run(trace, events) && i < |trace| && t in Writers(trace[i].pcs) && u in trace[i].pcs && u != t
    ensures !trace[i].pcs[u].Shared? && !trace[i].pcs[u].Exclusive? && !trace[i].pcs[u].Bumped?
  {
    RunInv(trace, events, i);
    SoleWriter(trace[i], t);
    assert u !in Writers(trace[i].pcs) && u !in SharedHolders(trace[i].pcs);
  }

  lemma {:induction false} HistoryGrows(trace: seq<State>, events: seq<Event>, i: nat, j: nat)
    requires Run(trace, events) && i <= j < |trace|
    ensures trace[i].hist <= trace[j].hist
    decreases j
  {
    if i < j {
      HistoryGrows(trace, events, i, j - 1);
      assert Next(trace[j - 1], events[j - 1], trace[j]);
    }
  }

  /** The version identifies the content: two writer-free moments with the same version hold
      the same bytes. Checkpoint cloning relies on this. */
  lemma VersionFixesContent(trace: seq<State>, events: seq<Event>, i: nat, j: nat)
    requires Run(trace, events) && i <= j < |trace|
    requires trace[i].counter != WRITER && trace[j].counter != WRITER && trace[i].version == trace[j].version
    ensures trace[i].content == trace[j].content
  {
    RunInv(trace, events, i);
    RunInv(trace, events, j);
    HistoryGrows(trace, events, i, j);
    forall k, t | k in {i, j} && t in trace[k].pcs ensures !trace[k].pcs[t].Exclusive? {
      if trace[k].pcs[t].Exclusive? {
        assert t in Writers(trace[k].pcs);
        SoleWriter(trace[k], t);
      }
    }
  }

  /** One optimistic read that ends in a true `validate`: the flag check of the snapshot is at
      `a`, that of the validation at `c`. */
  predicate ValidRead(trace: seq<State>, t: Tid, a: nat, c: nat, d: nat) {
    && a <= c < d < |trace|
    && (forall k :: a <= k < |trace| ==> t in trace[k].pcs)
    && (forall k :: a <= k <= c ==> trace[k].pcs[t].Reading?)
    && (forall k :: c < k < d ==> trace[k].pcs[t].FlagClear?)
    && trace[d].pcs[t].Validated?
  }

  lemma {:induction false} StillLapped(trace: seq<State>, events: seq<Event>, t: Tid, a: nat, k: nat, c: nat, d: nat,
                                       j: nat)
    requires Run(trace, events) && ValidRead(trace, t, a, c, d) && a <= k <= c && k <= j <= d
    requires trace[k].pcs[t].lapped
    ensures trace[j].pcs[t].Reading? || trace[j].pcs[t].FlagClear? || trace[j].pcs[t].Validated?
    ensures trace[j].pcs[t].lapped
    decreases j
  {
    if k < j {
      StillLapped(trace, events, t, a, k, c, d, j - 1);
      assert Next(trace[j - 1], events[j - 1], trace[j]);
    }
  }

  lemma {:induction false} SeenFixed(trace: seq<State>, events: seq<Event>, t: Tid, a: nat, c: nat, d: nat, j: nat)
    requires Run(trace, events) && ValidRead(trace, t, a, c, d) && c <= j <= d
    ensures trace[j].pcs[t].Reading? || trace[j].pcs[t].FlagClear? || trace[j].pcs[t].Validated?
    ensures trace[j].pcs[t].v == trace[c].pcs[t].v && trace[j].pcs[t].seen == trace[c].pcs[t].seen
    decreases j
  {
    if c < j {
      SeenFixed(trace, events, t, a, c, d, j - 1);
      assert Next(trace[j - 1], events[j - 1], trace[j]);
    }
  }

  lemma NeverLapped(trace: seq<State>, events: seq<Event>, t: Tid, a: nat, c: nat, d: nat, k: nat)
    requires Run(trace, events) && ValidRead(trace, t, a, c, d) && a <= k <= c
    ensures !trace[k].pcs[t].lapped
  {
    RunInv(trace, events, d);
    assert ReaderOk(trace[d], trace[d].pcs[t]);
    if trace[k].pcs[t].lapped { StillLapped(trace, events, t, a, k, c, d, d); }
  }

  lemma WriterFree(s: State)
    requires Inv(s) && s.counter != WRITER
    ensures Writers(s.pcs) == {} && s.content == s.hist[s.version]
  {
    assert forall u :: u in s.pcs && s.pcs[u].Exclusive? ==> u in Writers(s.pcs);
  }

  /** The step at which `validate` returns true sees the version of the snapshot. */
  lemma ValidateStep(s: State, e: Event, s': State, t: Tid)
    requires Next(s, e, s') && t in s.pcs && t in s'.pcs && !s.pcs[t].Validated? && s'.pcs[t].Validated?
    ensures s.pcs[t].FlagClear? && s.version == s.pcs[t].v == s'.pcs[t].v
    ensures s'.pcs[t].seen == s.pcs[t].seen && s'.hist == s.hist
  {
  }

  lemma SeenIsRecorded(s: State, t: Tid)
    requires Inv(s) && t in s.pcs && s.pcs[t].Validated?
    ensures s.pcs[t].v < |s.hist| && AllAre(s.pcs[t].seen, s.hist[s.pcs[t].v])
  {
    assert ReaderOk(s, s.pcs[t]);
  }

  lemma ReadingVersion(s: State, t: Tid)
    requires Inv(s) && t in s.pcs && s.pcs[t].Reading?
    ensures s.pcs[t].v <= s.version && |s.hist| == s.version + 1
  {
    assert ReaderOk(s, s.pcs[t]);
  }

  lemma ReadsOneContent(trace: seq<State>, events: seq<Event>, t: Tid, a: nat, c: nat, d: nat, k: nat)
    requires Run(trace, events) && ValidRead(trace, t, a, c, d) && a <= k <= c
    requires trace[k].counter != WRITER
    ensures AllAre(trace[d].pcs[t].seen, trace[k].content)
  {
    hide Next, Inv, ReaderOk, AllAre, Init;
    RunInv(trace, events, k);
    RunInv(trace, events, d);
    RunInv(trace, events, d - 1);
    SeenFixed(trace, events, t, a, c, d, d - 1);
    VersionFixed(trace, events, t, a, k, c);
    HistoryGrows(trace, events, k, d - 1);
    assert Next(trace[d - 1], events[d - 1], trace[d]);
    ValidateStep(trace[d - 1], events[d - 1], trace[d], t);
    WriterFree(trace[k]);
    ReadingVersion(trace[k], t);
    SeenIsRecorded(trace[d], t);
    HistoryLength(trace[d - 1]);
  }

  lemma HistoryLength(s: State)
    requires Inv(s)
    ensures |s.hist| == s.version + 1
  {
  }

  /** Optimistic reads: a true `validate` means that no writer held the latch at any moment
      between the two flag checks, and that everything read in between is that one content. */
  lemma ValidatedReadIsAtomic(trace: seq<State>, events: seq<Event>, t: Tid, a: nat, c: nat, d: nat, k: nat)
    requires Run(trace, events) && ValidRead(trace, t, a, c, d) && a <= k <= c
    ensures trace[k].counter != WRITER && Writers(trace[k].pcs) == {}
    ensures AllAre(trace[d].pcs[t].seen, trace[k].content)
  {
    RunInv(trace, events, k);
    NeverLapped(trace, events, t, a, c, d, k);
    assert ReaderOk(trace[k], trace[k].pcs[t]);
    assert forall u :: u in trace[k].pcs && trace[k].pcs[u].Exclusive? ==> u in Writers(trace[k].pcs);
    ReadsOneContent(trace, events, t, a, c, d, k);
  }

  lemma {:induction false} VersionFixed(trace: seq<State>, events: seq<Event>, t: Tid, a: nat, k: nat, c: nat)
    requires Run(trace, events) && a <= k <= c < |trace|
    requires forall j :: a <= j <= c ==> t in trace[j].pcs && trace[j].pcs[t].Reading?
    ensures trace[k].pcs[t].v == trace[c].pcs[t].v
    decreases c
  {
    if k < c {
      VersionFixed(trace, events, t, a, k, c - 1);
      assert Next(trace[c - 1], events[c - 1], trace[c]);
    }
  }

  // ---------- getting in ----------

  /** Undisturbed, every mode gets in: a writer and a shared holder when nobody holds the latch, and an
      optimistic read is validated with the content it saw. */
  lemma WriterGetsIn(s: State, t: Tid, content: Content)
    requires t in s.pcs && s.pcs[t] == Idle && s.counter == 0
    ensures var in0 := s.(counter := 0xFFFF_FFFF, pcs := Lap(s.pcs)[t := Exclusive]);
            var wrote := in0.(content := content);
            var bumped := wrote.(version := s.version + 1, hist := s.hist + [content], pcs := in0.pcs[t := Bumped]);
            && Next(s, CasExclusive(t, false), in0) && Next(in0, Write(t, content), wrote)
            && Next(wrote, BumpVersion(t), bumped)
            && Next(bumped, ClearFlag(t), bumped.(counter := 0, pcs := in0.pcs[t := Idle]))
  {
    var in0 := s.(counter := 0xFFFF_FFFF, pcs := Lap(s.pcs)[t := Exclusive]);
    assert in0.pcs[t := Bumped][t := Idle] == in0.pcs[t := Idle];
  }

  lemma ReaderGetsIn(s: State, t: Tid)
    requires t in s.pcs && s.pcs[t] == Idle && s.counter < 0xFFFF_FFFE
    ensures var loaded := Become(s, t, SharedLoaded(s.counter));
            var shared := State(s.counter + 1, s.version, s.content, s.hist, s.pcs[t := Shared]);
            && Next(s, LoadShared(t), loaded) && Next(loaded, CasShared(t, false), shared)
            && Next(shared, ReleaseShared(t), s)
  {
    assert s.pcs[t := Idle] == s.pcs;
    assert s.pcs[t := SharedLoaded(s.counter)][t := Shared] == s.pcs[t := Shared];
    assert s.pcs[t := Shared][t := Idle] == s.pcs;
  }

  lemma Again(s: State, t: Tid, p: Pc, q: Pc)
    ensures Become(Become(s, t, p), t, q) == Become(s, t, q)
  {
    assert s.pcs[t := p][t := q] == s.pcs[t := q];
  }

  lemma OptimisticReadSucceeds(s: State, t: Tid)
    requires t in s.pcs && s.pcs[t] == Idle && s.counter != 0xFFFF_FFFF
    ensures var loaded := Become(s, t, OptLoaded(s.version));
            var reading := Become(s, t, Reading(s.version, [], false));
            var read := Become(s, t, Reading(s.version, [s.content], false));
            var clear := Become(s, t, FlagClear(s.version, [s.content], false));
            && Next(s, LoadVersion(t), loaded) && Next(loaded, CheckFlag(t), reading) && Next(reading, Read(t), read)
            && Next(read, ValidateFlag(t), clear)
            && Next(clear, ValidateVersion(t), Become(s, t, Validated(s.version, [s.content], false)))
  {
    var v, one := s.version, [s.content];
    assert [] + one == one;
    Again(s, t, OptLoaded(v), Reading(v, [], false));
    Again(s, t, Reading(v, [], false), Reading(v, one, false));
    Again(s, t, Reading(v, one, false), FlagClear(v, one, false));
    Again(s, t, FlagClear(v, one, false), Validated(v, one, false));
  }
}
