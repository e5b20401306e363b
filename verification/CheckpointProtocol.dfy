/**
 The durability protocol as a step machine: foreground writers under the shared
 side of the commit gate, the checkpoint planner, the I/O worker, the WAL and
 the blob store, interleaved in any order and with failing writes and flushes.

 A blob's content is kept as the list of images it has gone through: the last
 one is the cached image and its index is the content version that the blob's
 latch hands out.
 */
module CheckpointProtocol {
  import opened RedoLog

  /** Dirty mark of purely structural rewrites, which have no WAL record. */
  const STRUCTURAL_SEQ: nat := 0xFFFF_FFFF_FFFF_FFFF

  /** A writer that has its sequence numbers: operations mutated in cache, then marked dirty. */
  datatype Writer = Writer(ops: seq<Op>, mutated: nat, marked: nat)

  /** One claim of a checkpoint round on one dirty blob. */
  datatype Id = Id(round: nat, blob: Guid)

  datatype Stage =
    | Todo          // drained and versioned, bytes not cloned yet
    | StaleClaim    // content version moved before the clone
    | Cloned        // bytes taken, epoch not shipped yet
    | Queued        // epoch shipped to the I/O worker
    | Waiting       // in the worker's batch
    | Checked       // content version confirmed, store write not landed
    | Landed        // store write submitted
    | Retired       // dirty and flushing bookkeeping retired
    | Flushed       // covered by a successful store flush
    | StaleSeen     // content version moved, nothing written
    | StaleRetired  // bookkeeping of a stale entry retired

  /** A drained dirty entry: sequence token, captured version, WAL watermark of its round. */
  datatype Held = Held(seqno: nat, version: nat, watermark: nat, image: Image, stage: Stage)

  datatype Round = NoRound | Open(watermark: nat, walFlushed: bool)

  datatype State = State(
    log: seq<Record>,               // every record ever submitted, in WAL order
    base: nat,                      // records dropped by truncation
    synced: nat,                    // records known to be durable
    nextSeq: nat,
    writers: map<nat, Writer>,
    hist: map<Guid, seq<Image>>,
    dirty: map<Guid, nat>,
    rounds: nat,
    round: Round,
    held: map<Id, Held>,
    durable: map<Guid, Image>,      // images covered by a successful store flush
    limbo: map<Guid, seq<Image>>    // later writes, any of which a crash may expose
  )

  predicate Shaped(s: State) {
    && s.base <= s.synced <= |s.log|
    && s.durable.Keys == s.hist.Keys && s.limbo.Keys == s.hist.Keys
    && (forall b :: b in s.hist ==> s.hist[b] != [])
    && s.dirty.Keys <= s.hist.Keys
    && (forall id :: id in s.held ==> id.blob in s.hist)
    && (forall t :: t in s.writers ==> WriterShaped(s, s.writers[t]))
  }

  predicate WriterShaped(s: State, w: Writer) {
    && w.marked <= w.mutated <= w.marked + 1
    && w.mutated <= |w.ops|
    && (forall i :: 0 <= i < |w.ops| ==> w.ops[i].key.blob in s.hist)
  }

  function Last<T>(xs: seq<T>): T
    requires xs != []
  {
    xs[|xs| - 1]
  }

  /** The content version a blob's latch currently hands out. */
  function Version(s: State, b: Guid): nat
    requires Shaped(s) && b in s.hist
  {
    |s.hist[b]| - 1
  }

  function Cached(s: State, b: Guid): Image
    requires Shaped(s) && b in s.hist
  {
    Last(s.hist[b])
  }

  predicate InRound(h: Held) { h.stage.Todo? || h.stage.StaleClaim? || h.stage.Cloned? }

  predicate InIo(h: Held) { !InRound(h) && !h.stage.Queued? }

  // ---------- foreground ----------

  datatype Event =
    | Begin(t: nat, ops: seq<Op>)
    | Abandon(t: nat)
    | Mutate(t: nat)
    | Mark(t: nat)
    | Submit(t: nat)
    | Touch(b: Guid)
    | Compact(b: Guid)
    | WalSync(upTo: nat)
    | Snapshot
    | WalFlushed
    | RoundFailed
    | Clone(id: Id)
    | Ship
    | Pick(ids: set<Id>)
    | Validate(id: Id)
    | Land(id: Id)
    | Retire(id: Id)
    | StoreFlush
    | BatchFailed
    | BatchEnd
    | Truncate

  /** Reserve sequence numbers, under the endpoint locks or the mutation gate that keep other writers
      off the same keys. The commit gate is entered later, before the first mutation. */
  predicate BeginStep(s: State, t: nat, ops: seq<Op>, s': State) {
    && t !in s.writers
    && ops != []
    && s.nextSeq + |ops| <= STRUCTURAL_SEQ
    && (forall i :: 0 <= i < |ops| ==> ops[i].key.blob in s.hist && ops[i].seqno == s.nextSeq + i)
    && (forall u, i, j :: u in s.writers && 0 <= i < |ops| && 0 <= j < |s.writers[u].ops|
                          ==> ops[i].key != s.writers[u].ops[j].key)
    && s' == s.(nextSeq := s.nextSeq + |ops|, writers := s.writers[t := Writer(ops, 0, 0)])
  }

  /** The commit gate may be held exclusively: nobody has started to mutate. Writers that have only
      reserved their numbers may still be waiting for the gate. */
  predicate GateIsFree(s: State) { forall t :: t in s.writers ==> s.writers[t].mutated == 0 }

  /** A failed guard gives up before anything is mutated; its numbers are burnt. */
  predicate AbandonStep(s: State, t: nat, s': State) {
    t in s.writers && s.writers[t].mutated == 0 && s' == s.(writers := s.writers - {t})
  }

  /** Apply the next operation to the cached blob under its exclusive latch. An erase of a
      missing key bumps the version but needs no dirty mark. */
  predicate MutateStep(s: State, t: nat, s': State)
    requires Shaped(s)
  {
    && t in s.writers
    && var w := s.writers[t];
    && w.marked == w.mutated < |w.ops|
    && var op := w.ops[w.mutated];
    && var b := op.key.blob;
    && b in s.hist
    && var img := ApplyOp(b, Cached(s, b), op);
    && var noop := op.Erase? && op.key !in Cached(s, b);
    && s' == s.(hist := s.hist[b := s.hist[b] + [img]],
                writers := s.writers[t := Writer(w.ops, w.mutated + 1, if noop then w.mutated + 1 else w.marked)])
  }

  function MinSeq(dirty: map<Guid, nat>, b: Guid, seqno: nat): nat {
    if b in dirty && dirty[b] <= seqno then dirty[b] else seqno
  }

  predicate MarkStep(s: State, t: nat, s': State)
    requires Shaped(s)
  {
    && t in s.writers
    && var w := s.writers[t];
    && w.marked < w.mutated <= |w.ops|
    && var op := w.ops[w.marked];
    && s' == s.(dirty := s.dirty[op.key.blob := MinSeq(s.dirty, op.key.blob, op.seqno)],
                writers := s.writers[t := Writer(w.ops, w.mutated, w.mutated)])
  }

  /** Submit the record and leave the gate. */
  predicate SubmitStep(s: State, t: nat, s': State) {
    && t in s.writers
    && s.writers[t].marked == |s.writers[t].ops|
    && s' == s.(log := s.log + [s.writers[t].ops], writers := s.writers - {t})
  }

  /** A no-op delete or failed guard takes the exclusive latch and changes nothing. */
  predicate TouchStep(s: State, b: Guid, s': State)
    requires Shaped(s)
  {
    && b in s.hist
    && s' == s.(hist := s.hist[b := s.hist[b] + [Cached(s, b)]])
  }

  /** Blob-local compaction: same logical content, structural dirty mark. */
  predicate CompactStep(s: State, b: Guid, s': State)
    requires Shaped(s)
  {
    && b in s.hist
    && s' == s.(hist := s.hist[b := s.hist[b] + [Cached(s, b)]],
                dirty := s.dirty[b := MinSeq(s.dirty, b, STRUCTURAL_SEQ)])
  }

  // ---------- planner ----------

  /** One claim per dirty blob, at the blob's present version. */
  function ClaimsOf(s: State): map<Id, Held>
    requires Shaped(s)
  {
    map id | id in (set b | b in s.dirty :: Id(s.rounds, b)) ::
      Held(s.dirty[id.blob], Version(s, id.blob), |s.log|, map[], Todo)
  }

  /** Under the exclusive side of the gate: drain dirty entries, capture versions and the
      WAL watermark. */
  predicate SnapshotStep(s: State, s': State)
    requires Shaped(s)
  {
    && GateIsFree(s)
    && s.round.NoRound?
    && s' == s.(held := s.held + ClaimsOf(s), dirty := map[], rounds := s.rounds + 1, round := Open(|s.log|, false))
  }

  /** Entries of `gone` put back: every blob stays marked, with one of the tokens at hand. */
  predicate Restored(dirty: map<Guid, nat>, gone: map<Id, Held>, dirty': map<Guid, nat>) {
    && dirty'.Keys == dirty.Keys + (set id | id in gone :: id.blob)
    && (forall b :: b in dirty' ==>
          || (b in dirty && dirty'[b] == dirty[b])
          || exists id :: id in gone && id.blob == b && dirty'[b] == gone[id].seqno)
  }

  predicate CloneStep(s: State, id: Id, s': State)
    requires Shaped(s)
  {
    && s.round.Open? && s.round.walFlushed
    && id in s.held && s.held[id].stage.Todo?
    && var h := s.held[id];
    && s' == s.(held := s.held[id :=
        if h.version == Version(s, id.blob) then h.(image := Cached(s, id.blob), stage := Cloned)
        else h.(stage := StaleClaim)])
  }

  predicate RoundFailedStep(s: State, s': State) {
    && s.round.Open?
    && var gone := map id | id in s.held && InRound(s.held[id]) :: s.held[id];
    && Restored(s.dirty, gone, s'.dirty)
    && s' == s.(held := s.held - gone.Keys, dirty := s'.dirty, round := NoRound)
  }

  predicate ShipStep(s: State, s': State) {
    && s.round.Open? && s.round.walFlushed
    && (forall id :: id in s.held ==> !s.held[id].stage.Todo?)
    && var gone := map id | id in s.held && s.held[id].stage.StaleClaim? :: s.held[id];
    && Restored(s.dirty, gone, s'.dirty)
    && s' == s.(held := map id | id in s.held && !s.held[id].stage.StaleClaim? ::
                   if s.held[id].stage.Cloned? then s.held[id].(stage := Queued) else s.held[id],
                dirty := s'.dirty, round := NoRound)
  }

  // ---------- I/O worker ----------

  predicate PickStep(s: State, ids: set<Id>, s': State) {
    && (forall id :: id in s.held ==> !InIo(s.held[id]))
    && (forall id :: id in ids ==> id in s.held && s.held[id].stage.Queued?)
    && s' == s.(held := map id | id in s.held ::
                  if id in ids then s.held[id].(stage := Waiting) else s.held[id])
  }

  predicate ValidateStep(s: State, id: Id, s': State)
    requires Shaped(s)
  {
    && id in s.held && s.held[id].stage.Waiting?
    && s' == s.(held := s.held[id := s.held[id].(stage :=
        if s.held[id].version == Version(s, id.blob) then Checked else StaleSeen)])
  }

  predicate LandStep(s: State, id: Id, s': State)
    requires Shaped(s)
  {
    && id in s.held && s.held[id].stage.Checked?
    && s' == s.(held := s.held[id := s.held[id].(stage := Landed)],
                limbo := s.limbo[id.blob := s.limbo[id.blob] + [s.held[id].image]])
  }

  /** Compare-and-set on the drained sequence: a dirty entry goes only if it still carries it. */
  predicate RetireStep(s: State, id: Id, s': State) {
    && id in s.held && (s.held[id].stage.Landed? || s.held[id].stage.StaleSeen?)
    && var h := s.held[id];
    && var hit := h.seqno != STRUCTURAL_SEQ && id.blob in s.dirty && s.dirty[id.blob] == h.seqno;
    && s' == s.(held := s.held[id := h.(stage := if h.stage.Landed? then Retired else StaleRetired)],
                dirty := if hit then s.dirty - {id.blob} else s.dirty)
  }

  predicate StoreFlushStep(s: State, s': State)
    requires Shaped(s)
  {
    && (forall id :: id in s.held ==> !s.held[id].stage.Checked? && !s.held[id].stage.Landed?)
    && s' == s.(durable := map b | b in s.durable ::
                  if s.limbo[b] == [] then s.durable[b] else Last(s.limbo[b]),
                limbo := map b | b in s.limbo :: [],
                held := map id | id in s.held ::
                  if s.held[id].stage.Retired? then s.held[id].(stage := Flushed) else s.held[id])
  }

  /** A store error: the worker restores every entry of the batch. */
  predicate BatchFailedStep(s: State, s': State) {
    && var gone := map id | id in s.held && InIo(s.held[id]) :: s.held[id];
    && Restored(s.dirty, gone, s'.dirty)
    && s' == s.(held := s.held - gone.Keys, dirty := s'.dirty)
  }

  /** Between waves: entries that did not flush go back, flushed ones are done. */
  predicate BatchEndStep(s: State, s': State) {
    && (forall id :: id in s.held && InIo(s.held[id]) ==>
          s.held[id].stage.Waiting? || s.held[id].stage.Flushed? || s.held[id].stage.StaleRetired?)
    && var gone := map id | id in s.held && InIo(s.held[id]) && !s.held[id].stage.Flushed? :: s.held[id];
    && Restored(s.dirty, gone, s'.dirty)
    && s' == s.(held := map id | id in s.held && !InIo(s.held[id]) :: s.held[id], dirty := s'.dirty)
  }

  /** Under the exclusive gate, with the pipeline drained and nothing dirty. */
  predicate TruncateStep(s: State, s': State) {
    && GateIsFree(s)
    && s.held == map[]
    && s.dirty == map[]
    && s' == s.(base := |s.log|, synced := |s.log|)
  }

  predicate Next(s: State, e: Event, s': State)
    requires Shaped(s)
  {
    match e
    case Begin(t, ops) => BeginStep(s, t, ops, s')
    case Abandon(t) => AbandonStep(s, t, s')
    case Mutate(t) => MutateStep(s, t, s')
    case Mark(t) => MarkStep(s, t, s')
    case Submit(t) => SubmitStep(s, t, s')
    case Touch(b) => TouchStep(s, b, s')
    case Compact(b) => CompactStep(s, b, s')
    case WalSync(n) => s.synced <= n <= |s.log| && s' == s.(synced := n)
    case Snapshot => SnapshotStep(s, s')
    case WalFlushed => s.round.Open? && s.round.watermark <= s.synced && s' == s.(round := s.round.(walFlushed := true))
    case RoundFailed => RoundFailedStep(s, s')
    case Clone(id) => CloneStep(s, id, s')
    case Ship => ShipStep(s, s')
    case Pick(ids) => PickStep(s, ids, s')
    case Validate(id) => ValidateStep(s, id, s')
    case Land(id) => LandStep(s, id, s')
    case Retire(id) => RetireStep(s, id, s')
    case StoreFlush => StoreFlushStep(s, s')
    case BatchFailed => BatchFailedStep(s, s')
    case BatchEnd => BatchEndStep(s, s')
    case Truncate => TruncateStep(s, s')
  }

  /** A freshly created store: every blob empty and durable, nothing logged. */
  predicate Init(s: State) {
    && s.log == [] && s.base == 0 && s.synced == 0 && s.nextSeq == 1
    && s.writers == map[] && s.dirty == map[] && s.held == map[] && s.round == NoRound
    && s.durable.Keys == s.hist.Keys && s.limbo.Keys == s.hist.Keys
    && (forall b :: b in s.hist ==> s.hist[b] == [map[]])
    && (forall b :: b in s.durable ==> s.durable[b] == map[])
    && (forall b :: b in s.limbo ==> s.limbo[b] == [])
  }
}
