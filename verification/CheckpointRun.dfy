/**
 One whole turn of the durability protocol: a put is logged, checkpointed, flushed
 to the store, and dropped from the log. Every kind of step on this way can be taken.
 */
module CheckpointRun {
  import opened RedoLog
  import opened CheckpointProtocol
  import opened CrashRecovery

  const KEY := Key(0, 7)
  const CLAIM := Id(0, 0)
  const BEFORE: Image := map[]
  const AFTER: Image := map[KEY := Cell(42, 1)]
  const RECORD: Record := [Put(KEY, 42, 1)]

  /** Logging: nothing is claimed or in the store yet. */
  function Logging(log: seq<Record>, synced: nat, writers: map<nat, Writer>, hist: seq<Image>,
                   dirty: map<Guid, nat>): State
  {
    State(log, 0, synced, if log == [] && writers == map[] then 1 else 2, writers, map[0 := hist], dirty, 0, NoRound,
          map[], map[0 := BEFORE], map[0 := []])
  }

  /** Checkpointing: the claim on its way to the store. */
  function Checkpointing(round: Round, held: map<Id, Held>, durable: Image, limbo: seq<Image>): State {
    State([RECORD], 0, 1, 2, map[], map[0 := [BEFORE, AFTER]], map[], 1, round, held, map[0 := durable],
          map[0 := limbo])
  }

  function Claimed(image: Image, stage: Stage): map<Id, Held> { map[CLAIM := Held(1, 1, 1, image, stage)] }

  const FIRST: seq<State> :=
    [ Logging([], 0, map[], [BEFORE], map[]),
      Logging([], 0, map[0 := Writer(RECORD, 0, 0)], [BEFORE], map[]),
      Logging([], 0, map[0 := Writer(RECORD, 1, 0)], [BEFORE, AFTER], map[]),
      Logging([], 0, map[0 := Writer(RECORD, 1, 1)], [BEFORE, AFTER], map[0 := 1]),
      Logging([RECORD], 0, map[], [BEFORE, AFTER], map[0 := 1]),
      Logging([RECORD], 1, map[], [BEFORE, AFTER], map[0 := 1]) ]

  const SECOND: seq<State> :=
    [ Checkpointing(Open(1, false), Claimed(map[], Todo), BEFORE, []),
      Checkpointing(Open(1, true), Claimed(map[], Todo), BEFORE, []),
      Checkpointing(Open(1, true), Claimed(AFTER, Cloned), BEFORE, []),
      Checkpointing(NoRound, Claimed(AFTER, Queued), BEFORE, []),
      Checkpointing(NoRound, Claimed(AFTER, Waiting), BEFORE, []),
      Checkpointing(NoRound, Claimed(AFTER, Checked), BEFORE, []),
      Checkpointing(NoRound, Claimed(AFTER, Landed), BEFORE, [AFTER]),
      Checkpointing(NoRound, Claimed(AFTER, Retired), BEFORE, [AFTER]),
      Checkpointing(NoRound, Claimed(AFTER, Flushed), AFTER, []),
      Checkpointing(NoRound, map[], AFTER, []) ]

  const LAST: State := Checkpointing(NoRound, map[], AFTER, []).(base := 1)

  const TURN: seq<State> := FIRST + SECOND + [LAST]

  const EVENTS: seq<Event> :=
    [ Begin(0, RECORD), Mutate(0), Mark(0), Submit(0), WalSync(1), Snapshot, WalFlushed, Clone(CLAIM), Ship,
      Pick({CLAIM}), Validate(CLAIM), Land(CLAIM), Retire(CLAIM), StoreFlush, BatchEnd, Truncate ]

  predicate Fresh(w: Writer) { w.marked <= w.mutated <= w.marked + 1 && w.mutated <= 1 }

  lemma LoggingShaped(log: seq<Record>, synced: nat, writers: map<nat, Writer>, hist: seq<Image>, dirty: map<Guid, nat>)
    requires synced <= |log| && hist != [] && dirty.Keys <= {0}
    requires writers == map[] || (writers.Keys == {0} && writers[0].ops == RECORD && Fresh(writers[0]))
    ensures Shaped(Logging(log, synced, writers, hist, dirty))
  {
  }

  lemma CheckpointingShaped(round: Round, held: map<Id, Held>, durable: Image, limbo: seq<Image>)
    requires held.Keys <= {CLAIM}
    ensures Shaped(Checkpointing(round, held, durable, limbo))
  {
  }

  lemma Begins()
    ensures Shaped(Logging([], 0, map[], [BEFORE], map[]))
    ensures Next(Logging([], 0, map[], [BEFORE], map[]), Begin(0, RECORD),
                 Logging([], 0, map[0 := Writer(RECORD, 0, 0)], [BEFORE], map[]))
  {
    LoggingShaped([], 0, map[], [BEFORE], map[]);
  }

  lemma Mutates()
    ensures Shaped(Logging([], 0, map[0 := Writer(RECORD, 0, 0)], [BEFORE], map[]))
    ensures Next(Logging([], 0, map[0 := Writer(RECORD, 0, 0)], [BEFORE], map[]), Mutate(0),
                 Logging([], 0, map[0 := Writer(RECORD, 1, 0)], [BEFORE, AFTER], map[]))
  {
    LoggingShaped([], 0, map[0 := Writer(RECORD, 0, 0)], [BEFORE], map[]);
    var s := Logging([], 0, map[0 := Writer(RECORD, 0, 0)], [BEFORE], map[]);
    assert s.hist[0] + [ApplyOp(0, Cached(s, 0), RECORD[0])] == [BEFORE, AFTER];
    assert s.hist[0 := [BEFORE, AFTER]] == map[0 := [BEFORE, AFTER]];
    assert s.writers[0 := Writer(RECORD, 1, 0)] == map[0 := Writer(RECORD, 1, 0)];
  }

  lemma Marks()
    ensures Shaped(Logging([], 0, map[0 := Writer(RECORD, 1, 0)], [BEFORE, AFTER], map[]))
    ensures Next(Logging([], 0, map[0 := Writer(RECORD, 1, 0)], [BEFORE, AFTER], map[]), Mark(0),
                 Logging([], 0, map[0 := Writer(RECORD, 1, 1)], [BEFORE, AFTER], map[0 := 1]))
  {
    LoggingShaped([], 0, map[0 := Writer(RECORD, 1, 0)], [BEFORE, AFTER], map[]);
    var s := Logging([], 0, map[0 := Writer(RECORD, 1, 0)], [BEFORE, AFTER], map[]);
    assert s.writers[0 := Writer(RECORD, 1, 1)] == map[0 := Writer(RECORD, 1, 1)];
    assert s.dirty[0 := 1] == map[0 := 1];
  }

  lemma Submits()
    ensures Shaped(Logging([], 0, map[0 := Writer(RECORD, 1, 1)], [BEFORE, AFTER], map[0 := 1]))
    ensures Next(Logging([], 0, map[0 := Writer(RECORD, 1, 1)], [BEFORE, AFTER], map[0 := 1]), Submit(0),
                 Logging([RECORD], 0, map[], [BEFORE, AFTER], map[0 := 1]))
  {
    LoggingShaped([], 0, map[0 := Writer(RECORD, 1, 1)], [BEFORE, AFTER], map[0 := 1]);
    var s := Logging([], 0, map[0 := Writer(RECORD, 1, 1)], [BEFORE, AFTER], map[0 := 1]);
    assert s.writers - {0} == map[] && [] + [RECORD] == [RECORD];
  }

  lemma Syncs()
    ensures Shaped(Logging([RECORD], 0, map[], [BEFORE, AFTER], map[0 := 1]))
    ensures Next(Logging([RECORD], 0, map[], [BEFORE, AFTER], map[0 := 1]), WalSync(1),
                 Logging([RECORD], 1, map[], [BEFORE, AFTER], map[0 := 1]))
  {
    LoggingShaped([RECORD], 0, map[], [BEFORE, AFTER], map[0 := 1]);
  }

  lemma Snapshots()
    ensures Shaped(Logging([RECORD], 1, map[], [BEFORE, AFTER], map[0 := 1]))
    ensures Next(Logging([RECORD], 1, map[], [BEFORE, AFTER], map[0 := 1]), Snapshot,
                 Checkpointing(Open(1, false), Claimed(map[], Todo), BEFORE, []))
  {
    LoggingShaped([RECORD], 1, map[], [BEFORE, AFTER], map[0 := 1]);
    var s := Logging([RECORD], 1, map[], [BEFORE, AFTER], map[0 := 1]);
    assert ClaimsOf(s) == Claimed(map[], Todo) && s.held + ClaimsOf(s) == Claimed(map[], Todo);
  }

  lemma FlushesLog()
    ensures Shaped(Checkpointing(Open(1, false), Claimed(map[], Todo), BEFORE, []))
    ensures Next(Checkpointing(Open(1, false), Claimed(map[], Todo), BEFORE, []), WalFlushed,
                 Checkpointing(Open(1, true), Claimed(map[], Todo), BEFORE, []))
  {
    CheckpointingShaped(Open(1, false), Claimed(map[], Todo), BEFORE, []);
  }

  lemma Clones()
    ensures Shaped(Checkpointing(Open(1, true), Claimed(map[], Todo), BEFORE, []))
    ensures Next(Checkpointing(Open(1, true), Claimed(map[], Todo), BEFORE, []), Clone(CLAIM),
                 Checkpointing(Open(1, true), Claimed(AFTER, Cloned), BEFORE, []))
  {
    CheckpointingShaped(Open(1, true), Claimed(map[], Todo), BEFORE, []);
    assert Claimed(map[], Todo)[CLAIM := Held(1, 1, 1, AFTER, Cloned)] == Claimed(AFTER, Cloned);
  }

  lemma Ships()
    ensures Shaped(Checkpointing(Open(1, true), Claimed(AFTER, Cloned), BEFORE, []))
    ensures Next(Checkpointing(Open(1, true), Claimed(AFTER, Cloned), BEFORE, []), Ship,
                 Checkpointing(NoRound, Claimed(AFTER, Queued), BEFORE, []))
  {
    hide ShipStep;
    ShipsSo();
  }

  lemma ShipsSo()
    ensures Shaped(Checkpointing(Open(1, true), Claimed(AFTER, Cloned), BEFORE, []))
    ensures ShipStep(Checkpointing(Open(1, true), Claimed(AFTER, Cloned), BEFORE, []),
                     Checkpointing(NoRound, Claimed(AFTER, Queued), BEFORE, []))
  {
    hide Shaped;
    CheckpointingShaped(Open(1, true), Claimed(AFTER, Cloned), BEFORE, []);
    var held := Claimed(AFTER, Cloned);
    StaleGone(held);
    ShippedAre(held);
  }

  lemma Picks()
    ensures Shaped(Checkpointing(NoRound, Claimed(AFTER, Queued), BEFORE, []))
    ensures Next(Checkpointing(NoRound, Claimed(AFTER, Queued), BEFORE, []), Pick({CLAIM}),
                 Checkpointing(NoRound, Claimed(AFTER, Waiting), BEFORE, []))
  {
    hide Shaped;
    CheckpointingShaped(NoRound, Claimed(AFTER, Queued), BEFORE, []);
    PickedAre(Claimed(AFTER, Queued), {CLAIM});
  }

  lemma Validates()
    ensures Shaped(Checkpointing(NoRound, Claimed(AFTER, Waiting), BEFORE, []))
    ensures Next(Checkpointing(NoRound, Claimed(AFTER, Waiting), BEFORE, []), Validate(CLAIM),
                 Checkpointing(NoRound, Claimed(AFTER, Checked), BEFORE, []))
  {
    CheckpointingShaped(NoRound, Claimed(AFTER, Waiting), BEFORE, []);
    assert Claimed(AFTER, Waiting)[CLAIM := Held(1, 1, 1, AFTER, Checked)] == Claimed(AFTER, Checked);
  }

  lemma Lands()
    ensures Shaped(Checkpointing(NoRound, Claimed(AFTER, Checked), BEFORE, []))
    ensures Next(Checkpointing(NoRound, Claimed(AFTER, Checked), BEFORE, []), Land(CLAIM),
                 Checkpointing(NoRound, Claimed(AFTER, Landed), BEFORE, [AFTER]))
  {
    CheckpointingShaped(NoRound, Claimed(AFTER, Checked), BEFORE, []);
    assert Claimed(AFTER, Checked)[CLAIM := Held(1, 1, 1, AFTER, Landed)] == Claimed(AFTER, Landed);
    assert [] + [AFTER] == [AFTER] && map[0 := []][0 := [AFTER]] == map[0 := [AFTER]];
  }

  lemma Retires()
    ensures Shaped(Checkpointing(NoRound, Claimed(AFTER, Landed), BEFORE, [AFTER]))
    ensures Next(Checkpointing(NoRound, Claimed(AFTER, Landed), BEFORE, [AFTER]), Retire(CLAIM),
                 Checkpointing(NoRound, Claimed(AFTER, Retired), BEFORE, [AFTER]))
  {
    CheckpointingShaped(NoRound, Claimed(AFTER, Landed), BEFORE, [AFTER]);
    assert Claimed(AFTER, Landed)[CLAIM := Held(1, 1, 1, AFTER, Retired)] == Claimed(AFTER, Retired);
  }

  lemma FlushesStore()
    ensures Shaped(Checkpointing(NoRound, Claimed(AFTER, Retired), BEFORE, [AFTER]))
    ensures Next(Checkpointing(NoRound, Claimed(AFTER, Retired), BEFORE, [AFTER]), StoreFlush,
                 Checkpointing(NoRound, Claimed(AFTER, Flushed), AFTER, []))
  {
    hide StoreFlushStep;
    FlushesStoreSo();
  }

  lemma FlushesStoreSo()
    ensures Shaped(Checkpointing(NoRound, Claimed(AFTER, Retired), BEFORE, [AFTER]))
    ensures StoreFlushStep(Checkpointing(NoRound, Claimed(AFTER, Retired), BEFORE, [AFTER]),
                           Checkpointing(NoRound, Claimed(AFTER, Flushed), AFTER, []))
  {
    hide Shaped, StoreFlushStep, Claimed;
    RetiredAreFlushed();
    CheckpointingShaped(NoRound, Claimed(AFTER, Retired), BEFORE, [AFTER]);
    StoreTakes();
    LimboEmpties();
    var s := Checkpointing(NoRound, Claimed(AFTER, Retired), BEFORE, [AFTER]);
    StoreFlushes(s, map[0 := AFTER], map[0 := []], Claimed(AFTER, Flushed));
  }

  lemma Ends()
    ensures Shaped(Checkpointing(NoRound, Claimed(AFTER, Flushed), AFTER, []))
    ensures Next(Checkpointing(NoRound, Claimed(AFTER, Flushed), AFTER, []), BatchEnd,
                 Checkpointing(NoRound, map[], AFTER, []))
  {
    hide BatchEndStep;
    EndsSo();
  }

  lemma EndsSo()
    ensures Shaped(Checkpointing(NoRound, Claimed(AFTER, Flushed), AFTER, []))
    ensures BatchEndStep(Checkpointing(NoRound, Claimed(AFTER, Flushed), AFTER, []),
                         Checkpointing(NoRound, map[], AFTER, []))
  {
    hide Shaped;
    CheckpointingShaped(NoRound, Claimed(AFTER, Flushed), AFTER, []);
    var held := Claimed(AFTER, Flushed);
    UnflushedGone(held);
    AllOutOfIo(held);
  }

  lemma Truncates()
    ensures Shaped(Checkpointing(NoRound, map[], AFTER, []))
    ensures Next(Checkpointing(NoRound, map[], AFTER, []), Truncate,
                 LAST)
  {
    CheckpointingShaped(NoRound, map[], AFTER, []);
  }

  lemma PickedAre(held: map<Id, Held>, ids: set<Id>)
    ensures var all := map id | id in held :: held[id].(stage := Waiting);
            held.Keys <= ids ==>
              (map id | id in held :: if id in ids then held[id].(stage := Waiting) else held[id]) == all
    ensures held == Claimed(AFTER, Queued) ==>
      (map id | id in held :: held[id].(stage := Waiting)) == Claimed(AFTER, Waiting)
  {
  }

  lemma ShippedAre(held: map<Id, Held>)
    ensures var now := map id | id in held && !held[id].stage.StaleClaim? ::
                         if held[id].stage.Cloned? then held[id].(stage := Queued) else held[id];
            held == Claimed(AFTER, Cloned) ==> now == Claimed(AFTER, Queued)
  {
  }

  lemma StaleGone(held: map<Id, Held>)
    ensures var gone := map id | id in held && held[id].stage.StaleClaim? :: held[id];
            (forall id :: id in held ==> !held[id].stage.StaleClaim?) ==> Restored(map[], gone, map[])
  {
  }

  lemma UnflushedGone(held: map<Id, Held>)
    ensures var gone := map id | id in held && InIo(held[id]) && !held[id].stage.Flushed? :: held[id];
            (forall id :: id in held ==> held[id].stage.Flushed?) ==> Restored(map[], gone, map[])
  {
  }

  lemma AllOutOfIo(held: map<Id, Held>)
    ensures (forall id :: id in held ==> InIo(held[id])) ==>
      (map id | id in held && !InIo(held[id]) :: held[id]) == map[]
  {
  }

  lemma StoreFlushes(s: State, durable: map<Guid, Image>, limbo: map<Guid, seq<Image>>, held: map<Id, Held>)
    requires Shaped(s) && forall id :: id in s.held ==> !s.held[id].stage.Checked? && !s.held[id].stage.Landed?
    requires durable == map b | b in s.durable :: if s.limbo[b] == [] then s.durable[b] else Last(s.limbo[b])
    requires limbo == map b | b in s.limbo :: []
    requires held == map id | id in s.held ::
                       if s.held[id].stage.Retired? then s.held[id].(stage := Flushed) else s.held[id]
    ensures StoreFlushStep(s, s.(durable := durable, limbo := limbo, held := held))
  {
  }

  lemma StoreTakes()
    ensures var durable, limbo := map[0 := BEFORE], map[0 := [AFTER]];
            (map b | b in durable :: if limbo[b] == [] then durable[b] else Last(limbo[b])) == map[0 := AFTER]
  {
  }

  lemma LimboEmpties()
    ensures var none: seq<Image> := [];
            (map b | b in map[0 := [AFTER]] :: none) == map[0 := none]
  {
  }

  lemma RetiredAreFlushed()
    ensures var held := Claimed(AFTER, Retired);
            var now := map id | id in held :: if held[id].stage.Retired? then held[id].(stage := Flushed) else held[id];
            now == Claimed(AFTER, Flushed) && held.Keys == {CLAIM} && held[CLAIM].stage == Retired
  {
  }

  lemma StartsFresh()
    ensures Init(FIRST[0])
  {
  }

  lemma Turns(i: nat)
    requires i < |EVENTS|
    ensures Shaped(TURN[i]) && Next(TURN[i], EVENTS[i], TURN[i + 1])
  {
    hide Next, Shaped, Logging, Checkpointing, Claimed;
    match i
    case 0 => Begins();
    case 1 => Mutates();
    case 2 => Marks();
    case 3 => Submits();
    case 4 => Syncs();
    case 5 => Snapshots();
    case 6 => FlushesLog();
    case 7 => Clones();
    case 8 => Ships();
    case 9 => Picks();
    case 10 => Validates();
    case 11 => Lands();
    case 12 => Retires();
    case 13 => FlushesStore();
    case 14 => Ends();
    case _ => Truncates();
  }

  /** After it the put is in the store, read by value and number, and gone from the log. */
  lemma FullTurn()
    ensures Run(TURN, EVENTS)
    ensures TURN[16].base == 1 && TURN[16].held == map[] && TURN[16].dirty == map[]
    ensures KEY in TURN[16].durable[0] && TURN[16].durable[0][KEY].value == 42 && TURN[16].durable[0][KEY].version == 1
  {
    hide Next, Shaped, Init, Logging;
    StartsFresh();
    forall i | 0 <= i < |EVENTS| ensures Shaped(TURN[i]) && Next(TURN[i], EVENTS[i], TURN[i + 1]) { Turns(i); }
  }
}
