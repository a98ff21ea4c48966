/**
 * The indexing pass (apps/api/src/chain/indexer-pump.ts over generation.ts and
 * indexer.ts). A log whose transaction fails is passed over, and the checkpoint
 * moves on all the same.
 */
module IndexerPump {
  import opened Basics
  import opened Indexer
  import opened Generation
  import opened GenerationGate

  /** The live chain; its logs are listed in chain order. */
  datatype Chain = Chain(address: Address, tip: nat, logs: seq<Log>)

  datatype Config = Config(development: bool, start: nat, confirmations: nat, chunk: nat, windows: Windows)

  /** The logs of the blocks from `lo` to `hi`. */
  function LogsIn(logs: seq<Log>, lo: int, hi: int): seq<Log> {
    if logs == [] then []
    else
      var l := logs[|logs| - 1];
      LogsIn(logs[..|logs| - 1], lo, hi) + if lo <= l.block <= hi then [l] else []
  }

  predicate Ordered(logs: seq<Log>, tip: int) {
    logs == [] || (logs[|logs| - 1].block <= tip && Ordered(logs[..|logs| - 1], logs[|logs| - 1].block))
  }

  lemma {:induction false} LogsInEmpty(logs: seq<Log>, tip: int, lo: int, hi: int)
    requires Ordered(logs, tip) && (lo > hi || lo > tip)
    ensures LogsIn(logs, lo, hi) == []
  {
    if logs != [] { LogsInEmpty(logs[..|logs| - 1], logs[|logs| - 1].block, lo, hi); }
  }

  /** Consecutive ranges of blocks fetch consecutive logs. */
  lemma {:induction false} LogsInSplit(logs: seq<Log>, tip: int, lo: int, mid: int, hi: int)
    requires Ordered(logs, tip) && lo <= mid + 1 <= hi + 1
    ensures LogsIn(logs, lo, mid) + LogsIn(logs, mid + 1, hi) == LogsIn(logs, lo, hi)
  {
    if logs != [] {
      var l := logs[|logs| - 1];
      LogsInSplit(logs[..|logs| - 1], l.block, lo, mid, hi);
      if l.block <= mid { LogsInEmpty(logs[..|logs| - 1], l.block, mid + 1, hi); }
    }
  }

  /** New blocks do not change what the old ones hold. */
  lemma {:induction false} LogsInGrow(logs: seq<Log>, more: seq<Log>, lo: int, hi: int)
    requires forall i :: 0 <= i < |more| ==> more[i].block > hi
    ensures LogsIn(logs + more, lo, hi) == LogsIn(logs, lo, hi)
  {
    if more == [] {
      assert logs + more == logs;
    } else {
      assert (logs + more)[..|logs + more| - 1] == logs + more[..|more| - 1];
      LogsInGrow(logs, more[..|more| - 1], lo, hi);
    }
  }

  // ---- Ingesting twice ----

  lemma {:induction false} IngestConcat(m: Mirror, a: seq<Log>, b: seq<Log>, w: Windows)
    ensures IngestAll(m, a + b, w) == IngestAll(IngestAll(m, a, w), b, w)
  {
    if b == [] {
      assert a + b == a;
    } else {
      assert (a + b)[..|a + b| - 1] == a + b[..|b| - 1];
      IngestConcat(m, a, b[..|b| - 1], w);
    }
  }

  /** The mirror's ledger holds a row for this log. */
  predicate Known(m: Mirror, l: Log) {
    FindAt(m.ledger, SameLog(l.tx, l.index)).Some?
  }

  /** An outcome the contract's enum has; such a log is never rolled back. */
  predicate Bounded(l: Log) {
    match l.event
    case DisputeResolved(_, _, outcome) => outcome <= 2
    case DisputeFinalized(_, outcome, _) => outcome <= 2
    case _ => true
  }

  predicate AllBounded(logs: seq<Log>) {
    forall i :: 0 <= i < |logs| ==> Bounded(logs[i])
  }

  lemma LedgerOfIngest(m: Mirror, l: Log, w: Windows)
    ensures var n := Ingest(m, l, w);
      |m.ledger| <= |n.ledger| && forall i :: 0 <= i < |m.ledger| ==> n.ledger[i].log == m.ledger[i].log
  {
    if !Known(m, l) && !Throws(m, l.event) { LedgerOfApply(Recorded(m, l), l, w); }
  }

  lemma IngestKnows(m: Mirror, l: Log, w: Windows)
    requires Bounded(l)
    ensures Known(Ingest(m, l, w), l)
  {
    if !Known(m, l) {
      LedgerOfApply(Recorded(m, l), l, w);
      assert SameLog(l.tx, l.index)(Apply(Recorded(m, l), l, w).ledger[|m.ledger|]);
    }
  }

  lemma KnownStays(m: Mirror, l: Log, w: Windows, k: Log)
    requires Known(m, k)
    ensures Known(Ingest(m, l, w), k)
  {
    LedgerOfIngest(m, l, w);
    var i := FindAt(m.ledger, SameLog(k.tx, k.index)).value;
    assert SameLog(k.tx, k.index)(Ingest(m, l, w).ledger[i]);
  }

  lemma {:induction false} KnownAfter(m: Mirror, logs: seq<Log>, w: Windows, i: nat)
    requires i < |logs| && AllBounded(logs)
    ensures Known(IngestAll(m, logs, w), logs[i])
  {
    var n := |logs| - 1;
    if i < n {
      KnownAfter(m, logs[..n], w, i);
      KnownStays(IngestAll(m, logs[..n], w), logs[n], w, logs[i]);
    } else {
      IngestKnows(IngestAll(m, logs[..n], w), logs[n], w);
    }
  }

  lemma {:induction false} KnownIsSkipped(m: Mirror, logs: seq<Log>, w: Windows)
    requires forall i :: 0 <= i < |logs| ==> Known(m, logs[i])
    ensures IngestAll(m, logs, w) == m
  {
    if logs != [] {
      KnownIsSkipped(m, logs[..|logs| - 1], w);
      assert Known(m, logs[|logs| - 1]);
    }
  }

  lemma TailIsKnown(m: Mirror, a: seq<Log>, b: seq<Log>, w: Windows)
    requires AllBounded(a + b)
    ensures IngestAll(IngestAll(m, a + b, w), b, w) == IngestAll(m, a + b, w)
  {
    forall i | 0 <= i < |b|
      ensures Known(IngestAll(m, a + b, w), b[i])
    {
      KnownAfter(m, a + b, w, |a| + i);
    }
    KnownIsSkipped(IngestAll(m, a + b, w), b, w);
  }

  /**
   * A pass that starts again anywhere inside what was already ingested ends
   * with the mirror one uninterrupted pass would have left.
   */
  lemma ReplayIsHarmless(m: Mirror, a: seq<Log>, b: seq<Log>, c: seq<Log>, w: Windows)
    requires AllBounded(a + b)
    ensures IngestAll(IngestAll(m, a + b, w), b + c, w) == IngestAll(m, a + b + c, w)
  {
    TailIsKnown(m, a, b, w);
    IngestConcat(IngestAll(m, a + b, w), b, c, w);
    IngestConcat(m, a + b, c, w);
  }

  // ---- Logs that fail ----

  /** One transaction; when it fails the loop only logs it. */
  function Attempt(m: Mirror, l: Log, failed: bool, w: Windows): Mirror {
    if failed then m else Ingest(m, l, w)
  }

  /**
   * The logs told one by one, the first of them as the pass's `at`th; the
   * transactions at the positions `lost` fail.
   */
  function IngestSome(m: Mirror, logs: seq<Log>, at: nat, lost: set<nat>, w: Windows): Mirror
    decreases |logs|
  {
    if logs == [] then m else IngestSome(Attempt(m, logs[0], at in lost, w), logs[1..], at + 1, lost, w)
  }

  lemma {:induction false} IngestSomeFirst(m: Mirror, logs: seq<Log>, first: Log, rest: seq<Log>, at: nat, lost: set<nat>, w: Windows)
    requires logs == [first] + rest
    ensures IngestSome(m, logs, at, lost, w) == IngestSome(Attempt(m, first, at in lost, w), rest, at + 1, lost, w)
  {
    assert logs[1..] == rest;
  }

  lemma {:induction false} IngestSomeConcat(m: Mirror, a: seq<Log>, b: seq<Log>, at: nat, next: nat, lost: set<nat>, w: Windows)
    requires next == at + |a|
    ensures IngestSome(m, a + b, at, lost, w) == IngestSome(IngestSome(m, a, at, lost, w), b, next, lost, w)
    decreases |a|
  {
    if a == [] {
      assert a + b == b && at == next;
    } else {
      assert a + b == [a[0]] + (a[1..] + b);
      IngestSomeFirst(m, a + b, a[0], a[1..] + b, at, lost, w);
      IngestSomeFirst(m, a, a[0], a[1..], at, lost, w);
      IngestSomeConcat(Attempt(m, a[0], at in lost, w), a[1..], b, at + 1, next, lost, w);
    }
  }

  /** One more log behind the others. */
  lemma {:induction false} IngestSomeSnoc(m: Mirror, logs: seq<Log>, l: Log, at: nat, next: nat, lost: set<nat>, w: Windows)
    requires next == at + |logs|
    ensures IngestSome(m, logs + [l], at, lost, w) == Attempt(IngestSome(m, logs, at, lost, w), l, next in lost, w)
  {
    IngestSomeConcat(m, logs, [l], at, next, lost, w);
    assert [l][1..] == [];
  }

  /** Without a failure all logs are told. */
  lemma {:induction false} IngestSomeAll(m: Mirror, logs: seq<Log>, at: nat, next: nat, w: Windows)
    requires next == at + |logs|
    ensures IngestSome(m, logs, at, {}, w) == IngestAll(m, logs, w)
  {
    if logs != [] {
      var n := |logs| - 1;
      assert logs == logs[..n] + [logs[n]];
      IngestSomeAll(m, logs[..n], at, next - 1, w);
      IngestSomeSnoc(m, logs[..n], logs[n], at, next - 1, {}, w);
    }
  }

  // ---- One pass ----

  /** The first block ever indexed. */
  function First(cfg: Config): nat {
    if cfg.start < 1 then 1 else cfg.start
  }

  /** The height the pass reads back: never below the block before the deployment. */
  function Height(checkpoint: Option<Checkpoint>, cfg: Config): (h: nat)
    ensures h == First(cfg) - 1 || (checkpoint.Some? && h == checkpoint.value.lastBlock >= First(cfg))
  {
    var last := if checkpoint.Some? then checkpoint.value.lastBlock else 0;
    if last < First(cfg) then First(cfg) - 1 else last
  }

  function SafeTip(chain: Chain, cfg: Config): int {
    chain.tip - cfg.confirmations
  }

  function WriteCheckpoint(checkpoint: Option<Checkpoint>, block: nat): Option<Checkpoint> {
    Some(if checkpoint.Some? then checkpoint.value.(lastBlock := block) else Checkpoint(block, None))
  }

  /** The pass finds blocks to index. */
  predicate HasWork(db: Db, chain: Chain, cfg: Config) {
    Height(db.checkpoint, cfg) <= chain.tip && Height(db.checkpoint, cfg) < SafeTip(chain, cfg)
  }

  /** What the pass would fetch. */
  function Due(db: Db, chain: Chain, cfg: Config): seq<Log> {
    LogsIn(chain.logs, Height(db.checkpoint, cfg) + 1, SafeTip(chain, cfg))
  }

  /** How far an interrupted pass came: the checkpoint it wrote last, and how many logs it had attempted. */
  datatype Stop = Stop(block: nat, attempted: nat)

  predicate PossibleStop(db: Db, chain: Chain, cfg: Config, stop: Stop) {
    && Height(db.checkpoint, cfg) <= stop.block <= SafeTip(chain, cfg)
    && |LogsIn(chain.logs, Height(db.checkpoint, cfg) + 1, stop.block)| <= stop.attempted <= |Due(db, chain, cfg)|
  }

  /** What the pass attempted. */
  function Tried(db: Db, chain: Chain, cfg: Config, stop: Stop): seq<Log>
    requires PossibleStop(db, chain, cfg, stop)
  {
    Due(db, chain, cfg)[..stop.attempted]
  }

  /** A pass behind the gate, up to where it stopped; the transactions of the due logs at `lost` failed. */
  function Pass(db: Db, chain: Chain, cfg: Config, stop: Stop, lost: set<nat>): Db
    requires PossibleStop(db, chain, cfg, stop)
  {
    Db(IngestSome(db.mirror, Tried(db, chain, cfg, stop), 0, lost, cfg.windows),
       if stop.block == Height(db.checkpoint, cfg) then db.checkpoint else WriteCheckpoint(db.checkpoint, stop.block))
  }

  /** Where an uninterrupted pass stops. */
  function Whole(db: Db, chain: Chain, cfg: Config): (stop: Stop)
    requires HasWork(db, chain, cfg)
    ensures PossibleStop(db, chain, cfg, stop)
  {
    Stop(SafeTip(chain, cfg), |Due(db, chain, cfg)|)
  }

  function Halt(db: Db, chain: Chain, cfg: Config, stop: Option<Stop>): (s: Stop)
    requires HasWork(db, chain, cfg)
    ensures PossibleStop(db, chain, cfg, s)
  {
    if stop.Some? && PossibleStop(db, chain, cfg, stop.value) then stop.value else Whole(db, chain, cfg)
  }

  /** One poll: the gate, then every block not yet indexed that is deep enough, unless it dies at `stop`. */
  function Poll(db: Db, chain: Chain, cfg: Config, stop: Option<Stop>, lost: set<nat>): Db {
    var g := Gate(db, cfg.development, chain.address, chain.tip);
    if g.proceed && HasWork(g.db, chain, cfg) then Pass(g.db, chain, cfg, Halt(g.db, chain, cfg, stop), lost) else g.db
  }

  // ---- How far a poll goes ----

  /** The recorded chain is known, and its address differs or its height is above the tip. */
  predicate KnownGone(db: Db, chain: Chain) {
    db.checkpoint.Some? && db.checkpoint.value.address.Some?
    && (db.checkpoint.value.address.value != chain.address || db.checkpoint.value.lastBlock > chain.tip)
  }

  /** The height the blocks to index start above. */
  function StartsAbove(db: Db, chain: Chain): nat {
    if db.checkpoint.None? || KnownGone(db, chain) then 0 else db.checkpoint.value.lastBlock
  }

  /** The poll may index, and a block it has not indexed has its confirmations. */
  predicate MayIndex(db: Db, chain: Chain, cfg: Config) {
    && (KnownGone(db, chain) ==> cfg.development)
    && StartsAbove(db, chain) + cfg.confirmations < chain.tip
    && 1 + cfg.confirmations <= chain.tip && cfg.start + cfg.confirmations <= chain.tip
  }

  /**
   * No poll, wherever it dies, moves the checkpoint past a block without its
   * confirmations; one that comes through moves it to exactly the last block that
   * has them, and one that may not index leaves the height, or starts over at 0.
   */
  lemma PollHeight(db: Db, chain: Chain, cfg: Config, stop: Option<Stop>, lost: set<nat>)
    ensures var after := Poll(db, chain, cfg, stop, lost).checkpoint;
      && (MayIndex(db, chain, cfg) && stop.None? ==> after.Some? && after.value.lastBlock + cfg.confirmations == chain.tip)
      && (MayIndex(db, chain, cfg) && stop.Some? && after.Some? ==>
            after.value.lastBlock == StartsAbove(db, chain) || after.value.lastBlock + cfg.confirmations <= chain.tip)
      && (!MayIndex(db, chain, cfg) ==> after.Some? == db.checkpoint.Some?)
      && (!MayIndex(db, chain, cfg) && after.Some? ==>
            after.value.lastBlock == if cfg.development && KnownGone(db, chain) then 0 else db.checkpoint.value.lastBlock)
  {
  }

  // ---- The stored state ----

  function CountLinked(rows: seq<MilestoneRow>): nat {
    if rows == [] then 0 else CountLinked(rows[..|rows| - 1]) + if rows[|rows| - 1].onchainId.Some? then 1 else 0
  }

  /** How one chunk goes: its logs are fetched and the checkpoint is written, or one of the two throws. */
  datatype Fate = Fine | FetchFails | WriteFails

  /** A pass from block `from` that has written the checkpoint at `last` and attempted `tried`. */
  function Chunked(db: Db, from: nat, last: nat, tried: seq<Log>, lost: set<nat>, w: Windows): Db {
    Db(IngestSome(db.mirror, tried, 0, lost, w), if last < from then db.checkpoint else WriteCheckpoint(db.checkpoint, last))
  }

  /** One more chunk told, at its place among the due logs. */
  lemma ChunkedTells(db: Db, from: nat, last: nat, tried: seq<Log>, more: seq<Log>, at: nat, lost: set<nat>, w: Windows)
    requires at == |tried|
    ensures IngestSome(Chunked(db, from, last, tried, lost, w).mirror, more, at, lost, w)
      == Chunked(db, from, last, tried + more, lost, w).mirror
  {
    IngestSomeConcat(db.mirror, tried, more, 0, at, lost, w);
  }

  /** Where a loop over chunks may leave a pass: `tried` is what it attempted, the checkpoint covers the blocks up to `last`. */
  predicate Reached(chain: Chain, from: nat, safe: nat, last: nat, tried: seq<Log>) {
    && from <= last + 1 && last <= safe && tried <= LogsIn(chain.logs, from, safe)
    && |LogsIn(chain.logs, from, last)| <= |tried|
  }

  lemma ReachedIsPass(db: Db, chain: Chain, from: nat, safe: nat, last: nat, tried: seq<Log>, lost: set<nat>, cfg: Config)
    requires HasWork(db, chain, cfg) && from == Height(db.checkpoint, cfg) + 1 && safe == SafeTip(chain, cfg)
    requires Reached(chain, from, safe, last, tried)
    ensures var stop := Stop(last, |tried|);
      PossibleStop(db, chain, cfg, stop) && Pass(db, chain, cfg, stop, lost) == Chunked(db, from, last, tried, lost, cfg.windows)
  {
    var due := Due(db, chain, cfg);
    assert due == LogsIn(chain.logs, from, safe);
    assert LogsIn(chain.logs, Height(db.checkpoint, cfg) + 1, last) == LogsIn(chain.logs, from, last);
    assert Tried(db, chain, cfg, Stop(last, |tried|)) == tried;
  }

  lemma ChunkFits(chain: Chain, from: nat, done: nat, cursor: nat, last: nat, safe: nat)
    requires Ordered(chain.logs, chain.tip) && from <= cursor == done + 1 <= last <= safe
    ensures var told := LogsIn(chain.logs, from, done) + LogsIn(chain.logs, cursor, last);
      told == LogsIn(chain.logs, from, last) && told <= LogsIn(chain.logs, from, safe)
    ensures LogsIn(chain.logs, from, done) <= LogsIn(chain.logs, from, safe)
  {
    LogsInSplit(chain.logs, chain.tip, from, done, last);
    LogsInSplit(chain.logs, chain.tip, from, last, safe);
    LogsInSplit(chain.logs, chain.tip, from, done, safe);
  }

  /** The last block of the chunk that starts at `cursor`. */
  function ChunkEnd(cursor: nat, safe: nat, chunk: nat): int {
    if cursor + chunk - 1 < safe then cursor + chunk - 1 else safe
  }

  /** The last block below the first chunk that throws. */
  function Cleared(cursor: nat, safe: nat, chunk: nat, fate: nat -> Fate): (last: int)
    requires chunk > 0
    ensures cursor - 1 <= last
    decreases safe + 1 - cursor
  {
    if cursor > safe || fate(cursor) != Fine then cursor - 1 else Cleared(ChunkEnd(cursor, safe, chunk) + 1, safe, chunk, fate)
  }

  /** The last block whose logs are attempted: a chunk that fails at its checkpoint has been ingested. */
  function AttemptedTo(last: nat, safe: nat, chunk: nat, fate: nat -> Fate): int {
    if last < safe && fate(last + 1) == WriteFails then ChunkEnd(last + 1, safe, chunk) else last
  }

  lemma {:induction false} FineClearsAll(cursor: nat, safe: nat, chunk: nat, fate: nat -> Fate)
    requires chunk > 0 && cursor <= safe + 1 && forall block :: fate(block) == Fine
    ensures Cleared(cursor, safe, chunk, fate) == safe
    decreases safe + 1 - cursor
  {
    if cursor <= safe { FineClearsAll(ChunkEnd(cursor, safe, chunk) + 1, safe, chunk, fate); }
  }

  /** Where a poll dies whose chunks go as `fate` says. */
  function Died(db: Db, chain: Chain, cfg: Config, fate: nat -> Fate): Option<Stop>
    requires cfg.chunk > 0
  {
    var g := Gate(db, cfg.development, chain.address, chain.tip);
    if !g.proceed || !HasWork(g.db, chain, cfg) then None
    else
      var from, safe := Height(g.db.checkpoint, cfg) + 1, SafeTip(chain, cfg);
      var last := Cleared(from, safe, cfg.chunk, fate);
      Some(Stop(last, |LogsIn(chain.logs, from, AttemptedTo(last, safe, cfg.chunk, fate))|))
  }

  /** The tables, updated in place, and the pump that drives them. */
  class MirrorDb {
    var milestones: seq<MilestoneRow>
    var disputes: seq<DisputeRow>
    var projects: seq<ProjectRow>
    var users: seq<UserRow>
    var ledger: seq<LedgerRow>
    var checkpoint: Option<Checkpoint>

    constructor (m: Mirror)
      ensures Snapshot() == Db(m, None)
    {
      milestones, disputes, projects, users, ledger := m.milestones, m.disputes, m.projects, m.users, m.ledger;
      checkpoint := None;
    }

    function Snapshot(): Db
      reads this
    {
      Db(Mirror(milestones, disputes, projects, users, ledger), checkpoint)
    }

    method RecordGeneration(live: Address, lastBlock: nat)
      modifies this`checkpoint
      ensures checkpoint == Some(Checkpoint(if old(checkpoint).Some? then old(checkpoint).value.lastBlock else lastBlock, Some(live)))
    {
      if checkpoint.None? {
        checkpoint := Some(Checkpoint(lastBlock, Some(live)));
      } else {
        checkpoint := Some(checkpoint.value.(address := Some(live)));
      }
    }

    method ResetMilestones() returns (cleared: nat)
      modifies this`milestones
      ensures milestones == Map(ResetRow, old(milestones)) && cleared == CountLinked(old(milestones))
    {
      ghost var was := milestones;
      cleared := 0;
      var i := 0;
      while i < |milestones|
        invariant i <= |milestones| == |was| && cleared == CountLinked(was[..i])
        invariant forall k :: 0 <= k < i ==> milestones[k] == ResetRow(was[k])
        invariant forall k :: i <= k < |was| ==> milestones[k] == was[k]
      {
        assert was[..i + 1][..i] == was[..i];
        if milestones[i].onchainId.Some? {
          milestones := milestones[i := Blank(milestones[i])];
          cleared := cleared + 1;
        }
        i := i + 1;
      }
      assert was[..i] == was;
    }

    /** The rebuild, with the counts it logs. */
    method ResetMirrorForNewChain(live: Address) returns (cleared: nat, reopened: nat, dropped: nat)
      modifies this
      ensures Snapshot() == Rebuilt(old(Snapshot()), live)
      ensures cleared == CountLinked(old(milestones)) && reopened == |old(disputes)| && dropped == |old(ledger)|
    {
      cleared := ResetMilestones();
      reopened, dropped := |disputes|, |ledger|;
      disputes := Map(BlankDispute, disputes);
      ledger := [];
      users := Map(Unpaid, users);
      projects := Map(Reopen, projects);
      checkpoint := Some(Checkpoint(0, Some(live)));
    }

    method EnsureCurrentGeneration(development: bool, live: Address, tip: nat) returns (proceed: bool)
      modifies this
      ensures Gated(Snapshot(), proceed) == Gate(old(Snapshot()), development, live, tip)
    {
      match Detect(checkpoint, live, tip) {
        case Fresh => proceed := true;
        case Same => proceed := true;
        case Adopt =>
          RecordGeneration(live, checkpoint.value.lastBlock);
          proceed := true;
        case Changed(_) =>
          proceed := development;
          if development { var _, _, _ := ResetMirrorForNewChain(live); }
      }
    }

    /** Applies the logs one by one, in chain order; each is one transaction, and a failed one is only logged. */
    method IngestEvents(logs: seq<Log>, at: nat, lost: set<nat>, w: Windows)
      modifies this
      ensures Snapshot() == Db(IngestSome(old(Snapshot()).mirror, logs, at, lost, w), old(checkpoint))
    {
      ghost var was := Snapshot().mirror;
      var i, position := 0, at;
      while i < |logs|
        invariant i <= |logs| && position == at + i && checkpoint == old(checkpoint)
        invariant Snapshot().mirror == IngestSome(was, logs[..i], at, lost, w)
      {
        assert logs[..i + 1] == logs[..i] + [logs[i]];
        IngestSomeSnoc(was, logs[..i], logs[i], at, position, lost, w);
        var m := Attempt(Mirror(milestones, disputes, projects, users, ledger), logs[i], position in lost, w);
        milestones, disputes, projects, users, ledger := m.milestones, m.disputes, m.projects, m.users, m.ledger;
        i, position := i + 1, position + 1;
      }
      assert logs[..i] == logs;
    }

    /** Ingests a chunk's logs behind the `at` logs the pass attempted before. */
    method IngestChunk(logs: seq<Log>, at: nat, lost: set<nat>, w: Windows, ghost was: Db, ghost from: nat, ghost last: nat, ghost tried: seq<Log>)
      requires at == |tried| && Snapshot() == Chunked(was, from, last, tried, lost, w)
      modifies this
      ensures Snapshot() == Chunked(was, from, last, tried + logs, lost, w)
    {
      ChunkedTells(was, from, last, tried, logs, at, lost, w);
      IngestEvents(logs, at, lost, w);
    }

    /**
     * The chunks of at most `cfg.chunk` blocks from `from` to `safe`, with the
     * checkpoint written behind each; a chunk that throws ends the pass.
     */
    method IndexChunks(chain: Chain, from: nat, safe: nat, cfg: Config, fate: nat -> Fate, lost: set<nat>)
      returns (ghost last: nat, ghost tried: seq<Log>)
      requires cfg.chunk > 0 && Ordered(chain.logs, chain.tip) && 0 < from <= safe
      modifies this
      ensures Reached(chain, from, safe, last, tried)
      ensures last == Cleared(from, safe, cfg.chunk, fate)
      ensures tried == LogsIn(chain.logs, from, AttemptedTo(last, safe, cfg.chunk, fate))
      ensures Snapshot() == Chunked(old(Snapshot()), from, last, tried, lost, cfg.windows)
    {
      var cursor, at := from, 0;
      last, tried := from - 1, [];
      LogsInEmpty(chain.logs, chain.tip, from, last);
      while cursor <= safe
        invariant from <= cursor == last + 1 <= safe + 1
        invariant Cleared(from, safe, cfg.chunk, fate) == Cleared(cursor, safe, cfg.chunk, fate)
        invariant tried == LogsIn(chain.logs, from, last) && at == |tried|
        invariant Snapshot() == Chunked(old(Snapshot()), from, last, tried, lost, cfg.windows)
      {
        var through := ChunkEnd(cursor, safe, cfg.chunk);
        ChunkFits(chain, from, last, cursor, through, safe);
        if fate(cursor) == FetchFails { return; }
        var logs := LogsIn(chain.logs, cursor, through);
        IngestChunk(logs, at, lost, cfg.windows, old(Snapshot()), from, last, tried);
        tried, at := tried + logs, at + |logs|;
        if fate(cursor) == WriteFails { return; }
        checkpoint := WriteCheckpoint(checkpoint, through);
        cursor, last := through + 1, through;
      }
      assert last == safe;
    }

    /** One poll, which dies where the first chunk throws. */
    method RunIndexerTick(chain: Chain, cfg: Config, fate: nat -> Fate, lost: set<nat>)
      requires cfg.chunk > 0 && Ordered(chain.logs, chain.tip)
      modifies this
      ensures Snapshot() == Poll(old(Snapshot()), chain, cfg, Died(old(Snapshot()), chain, cfg, fate), lost)
      ensures (forall block :: fate(block) == Fine) ==> Snapshot() == Poll(old(Snapshot()), chain, cfg, None, lost)
      ensures checkpoint.Some? ==> (
        || checkpoint.value.lastBlock == 0
        || (old(checkpoint).Some? && checkpoint.value.lastBlock == old(checkpoint).value.lastBlock)
        || checkpoint.value.lastBlock + cfg.confirmations <= chain.tip)
      ensures (forall block :: fate(block) == Fine) && MayIndex(old(Snapshot()), chain, cfg) ==>
        checkpoint.Some? && checkpoint.value.lastBlock + cfg.confirmations == chain.tip
    {
      var proceed := EnsureCurrentGeneration(cfg.development, chain.address, chain.tip);
      if proceed && HasWork(Snapshot(), chain, cfg) {
        var from, safe := Height(checkpoint, cfg) + 1, SafeTip(chain, cfg);
        ghost var gated := Snapshot();
        ghost var last, tried;
        last, tried := IndexChunks(chain, from, safe, cfg, fate, lost);
        ReachedIsPass(gated, chain, from, safe, last, tried, lost, cfg);
        if forall block :: fate(block) == Fine { FineClearsAll(from, safe, cfg.chunk, fate); }
      }
      PollHeight(old(Snapshot()), chain, cfg, Died(old(Snapshot()), chain, cfg, fate), lost);
      PollHeight(old(Snapshot()), chain, cfg, None, lost);
    }
  }
}
