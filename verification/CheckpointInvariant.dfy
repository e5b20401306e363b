/** The invariant of the durability protocol. */
module CheckpointInvariant {
  import opened RedoLog
  import opened CheckpointProtocol

  type Log = seq<Record>
  type Writers = map<nat, Writer>
  type History = map<Guid, seq<Image>>
  type Dirty = map<Guid, nat>
  type Claims = map<Id, Held>

  // ---------- cache ----------

  /** The image of `b` after everything logged so far. */
  function Logged(log: Log, b: Guid): Image { ImageAt(b, log, |log|) }

  predicate HasContent(hist: History, b: Guid) { b in hist && hist[b] != [] }

  function Content(hist: History, b: Guid): Image
    requires HasContent(hist, b)
  {
    Last(hist[b])
  }

  predicate Free(writers: Writers, k: Key) {
    forall t :: t in writers ==> !Touches(writers[t].ops, k)
  }

  /** What the cache holds for a key that writer `w` works on. */
  ghost predicate Ahead(log: Log, w: Writer, hist: History, k: Key) {
    && HasContent(hist, k.blob) && w.mutated <= |w.ops|
    && At(Content(hist, k.blob), k) == At(Redo(k.blob, w.ops[..w.mutated], Logged(log, k.blob)), k)
  }

  /** The cache runs ahead of the log only by what active writers have already applied. */
  ghost predicate CacheInv(log: Log, writers: Writers, hist: History) {
    && (forall b, v :: b in hist && 0 <= v < |hist[b]| ==> Owned(b, hist[b][v]))
    && (forall b :: b in hist ==> HasContent(hist, b))
    && (forall t, k: Key :: t in writers && Touches(writers[t].ops, k) ==> Ahead(log, writers[t], hist, k))
    && (forall k: Key :: k.blob in hist && Free(writers, k) ==>
          At(Content(hist, k.blob), k) == At(Logged(log, k.blob), k))
  }

  /** Writers hold disjoint keys and fresh, distinct sequence numbers. */
  predicate WriterInv(nextSeq: nat, writers: Writers) {
    && nextSeq <= STRUCTURAL_SEQ
    && (forall t, i :: t in writers && 0 <= i < |writers[t].ops| ==> writers[t].ops[i].seqno < nextSeq)
    && (forall t, i, j :: t in writers && 0 <= i < j < |writers[t].ops|
                          ==> writers[t].ops[i].seqno != writers[t].ops[j].seqno)
    && (forall t, u, i, j :: t in writers && u in writers && t != u
                             && 0 <= i < |writers[t].ops| && 0 <= j < |writers[u].ops|
                             ==> && writers[t].ops[i].key != writers[u].ops[j].key
                                 && writers[t].ops[i].seqno != writers[u].ops[j].seqno)
  }

  // ---------- claims and in-flight entries ----------

  predicate HasBytes(h: Held) { !h.stage.Todo? && !h.stage.StaleClaim? }

  predicate HeldOk(base: nat, synced: nat, log: Log, hist: History, rounds: nat, round: Round, id: Id, h: Held) {
    && id.round < rounds
    && HasContent(hist, id.blob)
    && h.version < |hist[id.blob]|
    && base <= h.watermark <= |log|
    && hist[id.blob][h.version] == ImageAt(id.blob, log, h.watermark)
    && (HasBytes(h) ==> h.image == hist[id.blob][h.version] && h.watermark <= synced)
    && (InRound(h) ==> round.Open? && h.watermark == round.watermark)
  }

  predicate HeldInv(base: nat, synced: nat, log: Log, hist: History, rounds: nat, round: Round, held: Claims) {
    && (forall id :: id in held ==> HeldOk(base, synced, log, hist, rounds, round, id, held[id]))
    && (round.Open? ==> round.watermark <= |log| && (round.walFlushed ==> round.watermark <= synced))
  }

  predicate Numbered(nextSeq: nat, seqno: nat) { seqno < nextSeq || seqno == STRUCTURAL_SEQ }

  /** `w` has not handed out this token yet. */
  predicate Unmarked(w: Writer, seqno: nat) {
    exists i :: w.marked <= i < |w.ops| && w.ops[i].seqno == seqno
  }

  /** Each WAL sequence token of a blob is in one place: a writer that has not marked yet,
      the dirty map, or one claim. */
  predicate TokenInv(nextSeq: nat, writers: Writers, dirty: Dirty, held: Claims) {
    && (forall b :: b in dirty ==> Numbered(nextSeq, dirty[b]))
    && (forall id :: id in held ==> Numbered(nextSeq, held[id].seqno))
    && (forall id :: id in held && id.blob in dirty && dirty[id.blob] == held[id].seqno
                     ==> held[id].seqno == STRUCTURAL_SEQ)
    && (forall i, j :: i in held && j in held && i != j && i.blob == j.blob && held[i].seqno == held[j].seqno
                       ==> held[i].seqno == STRUCTURAL_SEQ)
    && (forall t, b :: t in writers && b in dirty ==> !Unmarked(writers[t], dirty[b]))
    && (forall t, id :: t in writers && id in held ==> !Unmarked(writers[t], held[id].seqno))
  }

  // ---------- store ----------

  /** `img` is the image of `b` after some synced, not yet truncated number of records. */
  predicate Reflects(base: nat, synced: nat, log: Log, b: Guid, img: Image) {
    synced <= |log| && exists n :: base <= n <= synced && img == ImageAt(b, log, n)
  }

  predicate StoreInv(base: nat, synced: nat, log: Log, durable: map<Guid, Image>, limbo: map<Guid, seq<Image>>) {
    && (forall b :: b in durable ==> Reflects(base, synced, log, b, durable[b]))
    && (forall b, i :: b in limbo && 0 <= i < |limbo[b]| ==> Reflects(base, synced, log, b, limbo[b][i]))
  }

  predicate Writing(h: Held) { h.stage.Checked? || h.stage.Landed? || h.stage.Retired? }

  predicate Owes(w: Writer, b: Guid) {
    w.marked < w.mutated <= |w.ops| && w.ops[w.marked].key.blob == b
  }

  /** A later checkpoint batch will still look at `b`. */
  predicate Pending(writers: Writers, dirty: Dirty, held: Claims, b: Guid) {
    || b in dirty
    || (exists t :: t in writers && Owes(writers[t], b))
    || (exists id :: id in held && id.blob == b && !InIo(held[id]))
  }

  /** A version that was current at its check is the newest of its blob in the batch. */
  predicate Newest(held: Claims) {
    forall i, j :: i in held && j in held && i.blob == j.blob && Writing(held[i]) && InIo(held[j])
                   ==> held[j].version <= held[i].version
  }

  /** What landed last in limbo is the image of the entry being written. */
  predicate Tail(held: Claims, limbo: map<Guid, seq<Image>>) {
    forall id :: id in held && (held[id].stage.Landed? || held[id].stage.Retired?)
                 ==> id.blob in limbo && limbo[id.blob] != [] && Last(limbo[id.blob]) == held[id].image
  }

  /** An entry being written is current, or its blob will be written again. */
  predicate Current(hist: History, writers: Writers, dirty: Dirty, held: Claims) {
    forall id :: id in held && Writing(held[id]) && HasContent(hist, id.blob)
                 ==> held[id].image == Content(hist, id.blob) || Pending(writers, dirty, held, id.blob)
  }

  predicate IoInv(hist: History, writers: Writers, dirty: Dirty, held: Claims, limbo: map<Guid, seq<Image>>) {
    Newest(held) && Tail(held, limbo) && Current(hist, writers, dirty, held)
  }

  /** The durable image is the cached one and nothing is in limbo. */
  predicate Clean(hist: History, durable: map<Guid, Image>, limbo: map<Guid, seq<Image>>, b: Guid) {
    HasContent(hist, b) && b in limbo && b in durable && limbo[b] == [] && durable[b] == Content(hist, b)
  }

  predicate Protects(hist: History, h: Held, b: Guid) {
    && InIo(h) && !h.stage.Flushed?
    && (Writing(h) ==> HasContent(hist, b) && h.image == Content(hist, b))
  }

  predicate Protected(hist: History, held: Claims, b: Guid) {
    exists id :: id in held && id.blob == b && Protects(hist, held[id], b)
  }

  /** Nothing is lost: content that is not durable is dirty, owed by a writer, claimed, or in flight. */
  predicate Covered(s: State, b: Guid) {
    || Clean(s.hist, s.durable, s.limbo, b)
    || Pending(s.writers, s.dirty, s.held, b)
    || Protected(s.hist, s.held, b)
  }

  predicate CoverInv(s: State) {
    forall b :: b in s.hist ==> Covered(s, b)
  }

  ghost predicate Inv(s: State) {
    && Shaped(s)
    && CacheInv(s.log, s.writers, s.hist)
    && WriterInv(s.nextSeq, s.writers)
    && HeldInv(s.base, s.synced, s.log, s.hist, s.rounds, s.round, s.held)
    && TokenInv(s.nextSeq, s.writers, s.dirty, s.held)
    && StoreInv(s.base, s.synced, s.log, s.durable, s.limbo)
    && IoInv(s.hist, s.writers, s.dirty, s.held, s.limbo)
    && CoverInv(s)
  }

  lemma EmptyImage(b: Guid, log: Log)
    requires log == []
    ensures ImageAt(b, log, 0) == Logged(log, b) == map[]
  {
    assert log[..0] == [] == log[..|log|];
  }

  lemma InitInv(s: State)
    requires Init(s)
    ensures Inv(s)
  {
    forall b | b in s.durable ensures Reflects(s.base, s.synced, s.log, b, s.durable[b]) {
      EmptyImage(b, s.log);
    }
    forall k: Key | k.blob in s.hist ensures At(Content(s.hist, k.blob), k) == At(Logged(s.log, k.blob), k) {
      EmptyImage(k.blob, s.log);
    }
  }
}
