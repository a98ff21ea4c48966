/**
 * Whole runs of chain and indexer: blocks are mined, the chain is redeployed,
 * and polls rebuild, index, die on the way and lose logs.
 */
module PumpRuns {
  import opened Basics
  import opened Indexer
  import opened Generation
  import opened GenerationGate
  import opened IndexerPump

  // ---- What is deep ----

  lemma {:induction false} LogsInExactly(logs: seq<Log>, lo: int, hi: int, l: Log)
    ensures l in LogsIn(logs, lo, hi) <==> l in logs && lo <= l.block <= hi
  {
    if logs != [] {
      var n := |logs| - 1;
      LogsInExactly(logs[..n], lo, hi, l);
      assert l in logs <==> l in logs[..n] || l == logs[n];
    }
  }

  /** A log is deep when its block is at or after the first one and has the confirmations asked for on top of it. */
  lemma DeepExactly(chain: Chain, cfg: Config, l: Log)
    ensures l in Deep(chain, cfg) <==>
      l in chain.logs && l.block >= 1 && l.block >= cfg.start && l.block + cfg.confirmations <= chain.tip
  {
    LogsInExactly(chain.logs, First(cfg), SafeTip(chain, cfg), l);
  }

  // ---- What the ledger has been told ----

  /** Two logs the ledger takes for one. */
  predicate SameKey(a: Log, b: Log) {
    a.tx == b.tx && a.index == b.index
  }

  predicate Has(logs: seq<Log>, l: Log) {
    exists i :: 0 <= i < |logs| && SameKey(logs[i], l)
  }

  predicate KeyDistinct(logs: seq<Log>) {
    forall i, j :: 0 <= i < j < |logs| ==> !SameKey(logs[i], logs[j])
  }

  /** The recorded logs after one more transaction. */
  function Heard(seen: seq<Log>, l: Log, failed: bool): seq<Log> {
    if failed || Has(seen, l) then seen else seen + [l]
  }

  function Tell(seen: seq<Log>, logs: seq<Log>, at: nat, lost: set<nat>): seq<Log>
    decreases |logs|
  {
    if logs == [] then seen else Tell(Heard(seen, logs[0], at in lost), logs[1..], at + 1, lost)
  }

  /** The mirror is what its own ledger, told again in order, makes of `base`. */
  predicate Told(base: Mirror, m: Mirror, w: Windows) {
    base.ledger == [] && AllBounded(Logs(m.ledger)) && m == IngestAll(base, Logs(m.ledger), w)
  }

  lemma KnownIsHas(m: Mirror, l: Log)
    ensures Known(m, l) <==> Has(Logs(m.ledger), l)
  {
    if Known(m, l) {
      var i := FindAt(m.ledger, SameLog(l.tx, l.index)).value;
      assert SameKey(Logs(m.ledger)[i], l);
    }
  }

  lemma IngestOneMore(base: Mirror, logs: seq<Log>, l: Log, w: Windows)
    ensures IngestAll(base, logs + [l], w) == Ingest(IngestAll(base, logs, w), l, w)
  {
    assert (logs + [l])[..|logs + [l]| - 1] == logs;
  }

  lemma AttemptRecords(m: Mirror, l: Log, failed: bool, w: Windows)
    requires Bounded(l)
    ensures Logs(Attempt(m, l, failed, w).ledger) == Heard(Logs(m.ledger), l, failed)
    ensures failed || Has(Logs(m.ledger), l) ==> Attempt(m, l, failed, w) == m
  {
    KnownIsHas(m, l);
    LogsOfApply(m, l, w);
  }

  lemma AttemptTells(base: Mirror, m: Mirror, l: Log, failed: bool, w: Windows)
    requires Told(base, m, w) && Bounded(l)
    ensures Told(base, Attempt(m, l, failed, w), w)
  {
    AttemptRecords(m, l, failed, w);
    IngestOneMore(base, Logs(m.ledger), l, w);
  }

  /** Whatever fails, the ledger tells what the mirror shows. */
  lemma {:induction false} SomeTells(base: Mirror, m: Mirror, logs: seq<Log>, at: nat, lost: set<nat>, w: Windows)
    requires Told(base, m, w) && AllBounded(logs)
    ensures var n := IngestSome(m, logs, at, lost, w);
      Told(base, n, w) && Logs(n.ledger) == Tell(Logs(m.ledger), logs, at, lost)
    decreases |logs|
  {
    if logs != [] {
      AttemptTells(base, m, logs[0], at in lost, w);
      AttemptRecords(m, logs[0], at in lost, w);
      SomeTells(base, Attempt(m, logs[0], at in lost, w), logs[1..], at + 1, lost, w);
    }
  }

  /** A log whose key is new is recorded last. */
  lemma OneMoreRecorded(base: Mirror, init: seq<Log>, l: Log, w: Windows)
    requires Bounded(l) && Logs(IngestAll(base, init, w).ledger) == init && !Has(init, l)
    ensures Logs(IngestAll(base, init + [l], w).ledger) == init + [l]
  {
    IngestOneMore(base, init, l, w);
    AttemptRecords(IngestAll(base, init, w), l, false, w);
  }

  lemma LastIsNew(logs: seq<Log>, n: nat)
    requires KeyDistinct(logs) && n + 1 == |logs|
    ensures KeyDistinct(logs[..n]) && !Has(logs[..n], logs[n]) && logs == logs[..n] + [logs[n]]
  {
    forall i | 0 <= i < n
      ensures !SameKey(logs[..n][i], logs[n])
    {
      assert logs[..n][i] == logs[i];
    }
  }

  /** Logs with keys of their own are all recorded, in order. */
  lemma {:induction false} AllRecorded(base: Mirror, logs: seq<Log>, w: Windows)
    requires base.ledger == [] && AllBounded(logs) && KeyDistinct(logs)
    ensures Logs(IngestAll(base, logs, w).ledger) == logs
  {
    if logs != [] {
      var n := |logs| - 1;
      var init := logs[..n];
      LastIsNew(logs, n);
      AllRecorded(base, init, w);
      OneMoreRecorded(base, init, logs[n], w);
    }
  }

  // ---- When a pass with failures still keeps the order ----

  /** Nothing that was not there before is stored. */
  predicate NothingStored(seen: seq<Log>, tried: seq<Log>, at: nat, lost: set<nat>)
    decreases |tried|
  {
    tried == [] || ((at in lost || Has(seen, tried[0])) && NothingStored(seen, tried[1..], at + 1, lost))
  }

  /**
   * The first new log whose transaction fails, if one does, is not among the
   * `covered` logs below the checkpoint the pass writes, and nothing new is
   * stored behind it.
   */
  predicate Harmless(seen: seq<Log>, tried: seq<Log>, covered: nat, at: nat, lost: set<nat>)
    decreases |tried|
  {
    if tried == [] then true
    else if at in lost && !Has(seen, tried[0]) then covered == 0 && NothingStored(seen, tried[1..], at + 1, lost)
    else Harmless(Heard(seen, tried[0], at in lost), tried[1..], if covered == 0 then 0 else covered - 1, at + 1, lost)
  }

  lemma {:induction false} HarmlessWithoutLoss(seen: seq<Log>, tried: seq<Log>, covered: nat, at: nat)
    ensures Harmless(seen, tried, covered, at, {})
    decreases |tried|
  {
    if tried != [] {
      HarmlessWithoutLoss(Heard(seen, tried[0], false), tried[1..], if covered == 0 then 0 else covered - 1, at + 1);
    }
  }

  lemma {:induction false} TellAdds(seen: seq<Log>, tried: seq<Log>, at: nat, lost: set<nat>)
    ensures var t := Tell(seen, tried, at, lost);
      seen <= t && forall k :: |seen| <= k < |t| ==> t[k] in tried
    decreases |tried|
  {
    if tried != [] {
      var s := Heard(seen, tried[0], at in lost);
      TellAdds(s, tried[1..], at + 1, lost);
    }
  }

  lemma {:induction false} NothingStoredExactly(seen: seq<Log>, tried: seq<Log>, at: nat, lost: set<nat>)
    ensures Tell(seen, tried, at, lost) == seen <==> NothingStored(seen, tried, at, lost)
    decreases |tried|
  {
    if tried != [] {
      NothingStoredExactly(seen, tried[1..], at + 1, lost);
      TellAdds(Heard(seen, tried[0], at in lost), tried[1..], at + 1, lost);
    }
  }

  /** A log that is neither there nor told stays out. */
  lemma StaysOut(seen: seq<Log>, tried: seq<Log>, at: nat, lost: set<nat>, l: Log)
    requires !Has(seen, l) && !Has(tried, l)
    ensures !Has(Tell(seen, tried, at, lost), l)
  {
    TellAdds(seen, tried, at, lost);
    var t := Tell(seen, tried, at, lost);
    forall i | 0 <= i < |t|
      ensures !SameKey(t[i], l)
    {
      if i < |seen| { assert t[i] == seen[i]; } else { assert t[i] in tried; }
    }
  }

  /** In a list of distinct keys a prefix has exactly the logs at its positions. */
  lemma PrefixHas(all: seq<Log>, p: seq<Log>, k: nat)
    requires KeyDistinct(all) && p <= all && k < |all|
    ensures Has(p, all[k]) <==> k < |p|
  {
    if k < |p| { assert SameKey(p[k], all[k]); }
  }

  /** The recorded logs are the first ones of `all`, at least as far as `done` goes. */
  predicate Orderly(seen: seq<Log>, done: seq<Log>, all: seq<Log>) {
    seen <= all && done <= seen
  }

  /** One transaction that works, or was not needed, keeps the order and moves it on by one log. */
  lemma HeardKeepsOrder(seen: seq<Log>, done: seq<Log>, x: Log, all: seq<Log>, failed: bool)
    requires KeyDistinct(all) && done + [x] <= all && (failed ==> Has(seen, x))
    ensures Orderly(Heard(seen, x, failed), done + [x], all) <==> Orderly(seen, done, all)
  {
    assert all[|done|] == x;
    if seen <= all { PrefixHas(all, seen, |done|); }
    if Heard(seen, x, failed) <= all { PrefixHas(all, Heard(seen, x, failed), |done|); }
    if Orderly(Heard(seen, x, failed), done + [x], all) && !Has(seen, x) {
      assert all[|seen|] == x;
      assert seen == all[..|done|] == done;
    }
  }

  /** In a list of distinct keys no log stands on both sides of `x`. */
  lemma SidesApart(done: seq<Log>, x: Log, tried: seq<Log>, rest: seq<Log>, all: seq<Log>)
    requires all == done + [x] + tried + rest && KeyDistinct(all)
    ensures !Has(tried, x) && forall k :: 0 <= k < |done| ==> done[k] !in tried
  {
    forall k, i | 0 <= k <= |done| && 0 <= i < |tried|
      ensures !SameKey(tried[i], all[k])
    {
      assert all[|done| + 1 + i] == tried[i];
    }
    assert all[|done|] == x;
    forall k | 0 <= k < |done|
      ensures done[k] !in tried
    {
      assert all[k] == done[k];
    }
  }

  lemma SomethingAdded(seen: seq<Log>, t: seq<Log>, tried: seq<Log>)
    requires seen <= t && forall k :: |seen| <= k < |t| ==> t[k] in tried
    ensures seen == t || exists k :: 0 <= k < |t| && t[k] in tried
  {
    if |seen| < |t| { assert t[|seen|] in tried; }
  }

  /** A new log that fails keeps the order exactly when nothing is stored behind it and nothing beyond it is passed. */
  lemma FailureKeepsOrder(seen: seq<Log>, done: seq<Log>, x: Log, tried: seq<Log>, rest: seq<Log>, at: nat, lost: set<nat>, all: seq<Log>)
    requires all == done + [x] + tried + rest && KeyDistinct(all) && !Has(seen, x)
    ensures var t := Tell(seen, tried, at, lost);
      && !Has(t, x)
      && (Orderly(t, done, all) <==> Orderly(seen, done, all) && NothingStored(seen, tried, at, lost))
  {
    var t := Tell(seen, tried, at, lost);
    assert all[|done|] == x;
    SidesApart(done, x, tried, rest, all);
    StaysOut(seen, tried, at, lost, x);
    NothingStoredExactly(seen, tried, at, lost);
    TellAdds(seen, tried, at, lost);
    if Orderly(t, done, all) {
      PrefixHas(all, t, |done|);
      assert t == done;
      SomethingAdded(seen, t, tried);
    }
  }

  /** A pass behind `done` over `tried`, of which the first `covered` end up below the checkpoint. */
  predicate PassOrderly(t: seq<Log>, done: seq<Log>, tried: seq<Log>, covered: nat, all: seq<Log>)
    requires covered <= |tried|
  {
    Orderly(t, done + tried[..covered], all)
  }

  /** A pass leaves the order exactly when it found it and none of its failures was harmful. */
  lemma {:induction false} TellExact(seen: seq<Log>, done: seq<Log>, tried: seq<Log>, rest: seq<Log>, covered: nat, at: nat, lost: set<nat>,
                                     all: seq<Log>)
    requires all == done + tried + rest && KeyDistinct(all) && covered <= |tried|
    ensures PassOrderly(Tell(seen, tried, at, lost), done, tried, covered, all)
      <==> Orderly(seen, done, all) && Harmless(seen, tried, covered, at, lost)
    decreases |tried|
  {
    if tried == [] {
      assert done + tried[..covered] == done;
    } else {
      var x, tail := tried[0], tried[1..];
      assert all == done + [x] + tail + rest;
      if at in lost && !Has(seen, x) {
        FailureKeepsOrder(seen, done, x, tail, rest, at + 1, lost, all);
        FailedIsNotCovered(Tell(seen, tail, at + 1, lost), done, tried, covered, all);
      } else {
        var failed := at in lost;
        HeardKeepsOrder(seen, done, x, all, failed);
        var less := if covered == 0 then 0 else covered - 1;
        TellExact(Heard(seen, x, failed), done + [x], tail, rest, less, at + 1, lost, all);
        HeardStays(seen, x, failed, tail, at + 1, lost);
        CoveredShift(Tell(seen, tried, at, lost), done, tried, covered, less, all);
      }
    }
  }

  lemma CoveredIsThere(t: seq<Log>, done: seq<Log>, tried: seq<Log>, covered: nat, all: seq<Log>)
    requires 0 < covered <= |tried| && PassOrderly(t, done, tried, covered, all)
    ensures Has(t, tried[0])
  {
    assert t[|done|] == (done + tried[..covered])[|done|] == tried[0];
  }

  lemma FailedIsNotCovered(t: seq<Log>, done: seq<Log>, tried: seq<Log>, covered: nat, all: seq<Log>)
    requires tried != [] && covered <= |tried| && !Has(t, tried[0])
    ensures PassOrderly(t, done, tried, covered, all) <==> covered == 0 && Orderly(t, done, all)
  {
    if covered == 0 {
      assert done + tried[..covered] == done;
    } else if PassOrderly(t, done, tried, covered, all) {
      CoveredIsThere(t, done, tried, covered, all);
    }
  }

  lemma HeardStays(seen: seq<Log>, x: Log, failed: bool, tail: seq<Log>, at: nat, lost: set<nat>)
    requires failed ==> Has(seen, x)
    ensures Has(Tell(Heard(seen, x, failed), tail, at, lost), x)
  {
    var s := Heard(seen, x, failed);
    var t := Tell(s, tail, at, lost);
    TellAdds(s, tail, at, lost);
    if Has(seen, x) {
      var i :| 0 <= i < |seen| && SameKey(seen[i], x);
      assert SameKey(t[i], x);
    } else {
      assert SameKey(t[|seen|], x);
    }
  }

  lemma CoveredShift(t: seq<Log>, done: seq<Log>, tried: seq<Log>, covered: nat, less: nat, all: seq<Log>)
    requires tried != [] && covered <= |tried| && less == if covered == 0 then 0 else covered - 1
    requires KeyDistinct(all) && done + [tried[0]] <= all && Has(t, tried[0])
    ensures PassOrderly(t, done, tried, covered, all) <==> PassOrderly(t, done + [tried[0]], tried[1..], less, all)
  {
    if covered == 0 {
      assert done + tried[..covered] == done && done + [tried[0]] + tried[1..][..less] == done + [tried[0]];
      assert all[|done|] == tried[0];
      if t <= all { PrefixHas(all, t, |done|); }
    } else {
      assert done + tried[..covered] == done + [tried[0]] + tried[1..][..less];
    }
  }

  // ---- The world ----

  /** `base` is the mirror as the last rebuild left it; it is stored nowhere. */
  datatype World = World(chain: Chain, db: Db, base: Mirror)

  /** A transaction hash and log index name one log of the chain. */
  predicate ChainOk(chain: Chain) {
    Ordered(chain.logs, chain.tip) && AllBounded(chain.logs) && KeyDistinct(chain.logs)
  }

  /** Everything deep enough on the live chain. */
  function Deep(chain: Chain, cfg: Config): seq<Log> {
    LogsIn(chain.logs, First(cfg), SafeTip(chain, cfg))
  }

  /** What the checkpoint claims to have been indexed. */
  function Done(db: Db, chain: Chain, cfg: Config): seq<Log> {
    LogsIn(chain.logs, First(cfg), Height(db.checkpoint, cfg))
  }

  /** The checkpoint names no other chain and is deep enough. */
  predicate Marked(checkpoint: Option<Checkpoint>, chain: Chain, cfg: Config) {
    checkpoint.Some? ==> (
      && (checkpoint.value.address.Some? ==> checkpoint.value.address.value == chain.address)
      && (checkpoint.value.lastBlock == 0 || checkpoint.value.lastBlock <= SafeTip(chain, cfg)))
  }

  predicate NoneAbove(logs: seq<Log>, block: int) {
    forall i :: 0 <= i < |logs| ==> logs[i].block <= block
  }

  /** The mirror shows logs of the live chain, though perhaps not all and not in order. */
  predicate Belongs(w: World, cfg: Config) {
    && ChainOk(w.chain) && Told(w.base, w.db.mirror, cfg.windows)
    && Marked(w.db.checkpoint, w.chain, cfg)
    && NoneAbove(Logs(w.db.mirror.ledger), SafeTip(w.chain, cfg))
  }

  /** The ledger is the deep logs from the first one on, at least as far as the checkpoint claims. */
  predicate InStep(w: World, cfg: Config) {
    Orderly(Logs(w.db.mirror.ledger), Done(w.db, w.chain, cfg), Deep(w.chain, cfg))
  }

  /** The mirror still shows an earlier chain, and the gate can tell. */
  predicate Outlived(w: World, cfg: Config) {
    && ChainOk(w.chain) && Told(w.base, w.db.mirror, cfg.windows)
    && Replaced(w.db, w.chain.address, w.chain.tip)
  }

  /** The mirror is what a never-indexed database would be after hearing the deep logs once, in order. */
  predicate Right(w: World, cfg: Config) {
    w.db.mirror == IngestAll(w.base, Deep(w.chain, cfg), cfg.windows)
  }

  // ---- One poll ----

  /** A gate that finds another chain starts over from what the rebuild left. */
  predicate Rebuilds(w: World, cfg: Config) {
    cfg.development && Replaced(w.db, w.chain.address, w.chain.tip)
  }

  function Behind(w: World, cfg: Config): World {
    World(w.chain, Gate(w.db, cfg.development, w.chain.address, w.chain.tip).db,
          if Rebuilds(w, cfg) then Reset(w.db.mirror) else w.base)
  }

  function Polled(w: World, cfg: Config, stop: Option<Stop>, lost: set<nat>): World {
    Behind(w, cfg).(db := Poll(w.db, w.chain, cfg, stop, lost))
  }

  /** The poll gets past the gate and finds blocks to index. */
  predicate Indexes(w: World, cfg: Config) {
    Gate(w.db, cfg.development, w.chain.address, w.chain.tip).proceed && HasWork(Behind(w, cfg).db, w.chain, cfg)
  }

  /** How many of the attempted logs end up below the checkpoint. */
  function CoveredBy(db: Db, chain: Chain, cfg: Config, stop: Stop): nat {
    |LogsIn(chain.logs, Height(db.checkpoint, cfg) + 1, stop.block)|
  }

  predicate HarmlessPass(db: Db, chain: Chain, cfg: Config, stop: Stop, lost: set<nat>)
    requires PossibleStop(db, chain, cfg, stop)
  {
    Harmless(Logs(db.mirror.ledger), Tried(db, chain, cfg, stop), CoveredBy(db, chain, cfg, stop), 0, lost)
  }

  /** No log the ledger lacked failed below the checkpoint written, or before a new one that was stored. */
  predicate HarmlessPoll(w: World, cfg: Config, stop: Option<Stop>, lost: set<nat>) {
    var b := Behind(w, cfg);
    Indexes(w, cfg) ==> HarmlessPass(b.db, b.chain, cfg, Halt(b.db, b.chain, cfg, stop), lost)
  }

  lemma {:induction false} LogsInMember(logs: seq<Log>, lo: int, hi: int, i: nat)
    requires i < |LogsIn(logs, lo, hi)|
    ensures LogsIn(logs, lo, hi)[i] in logs && lo <= LogsIn(logs, lo, hi)[i].block <= hi
  {
    if logs != [] && i < |LogsIn(logs[..|logs| - 1], lo, hi)| { LogsInMember(logs[..|logs| - 1], lo, hi, i); }
  }

  lemma {:induction false} LogsInDistinct(logs: seq<Log>, lo: int, hi: int)
    requires KeyDistinct(logs)
    ensures KeyDistinct(LogsIn(logs, lo, hi))
  {
    if logs != [] {
      var n := |logs| - 1;
      var init := LogsIn(logs[..n], lo, hi);
      LogsInDistinct(logs[..n], lo, hi);
      forall i | 0 <= i < |init|
        ensures !SameKey(init[i], logs[n])
      {
        LogsInMember(logs[..n], lo, hi, i);
        var k :| 0 <= k < n && logs[..n][k] == init[i];
        assert logs[k] == init[i];
      }
    }
  }

  lemma BoundedIn(logs: seq<Log>, lo: int, hi: int)
    requires AllBounded(logs)
    ensures AllBounded(LogsIn(logs, lo, hi))
  {
    forall i | 0 <= i < |LogsIn(logs, lo, hi)|
      ensures Bounded(LogsIn(logs, lo, hi)[i])
    {
      LogsInMember(logs, lo, hi, i);
    }
  }

  /** The deep logs are what is done and what is due; a stop splits what is due. */
  lemma DoneAndDue(db: Db, chain: Chain, cfg: Config)
    requires ChainOk(chain) && HasWork(db, chain, cfg)
    ensures Deep(chain, cfg) == Done(db, chain, cfg) + Due(db, chain, cfg)
  {
    var h := Height(db.checkpoint, cfg);
    LogsInSplit(chain.logs, chain.tip, First(cfg), h, SafeTip(chain, cfg));
  }

  lemma StopSplits(db: Db, chain: Chain, cfg: Config, stop: Stop)
    requires ChainOk(chain) && PossibleStop(db, chain, cfg, stop)
    ensures var k := CoveredBy(db, chain, cfg, stop);
      && k <= |Tried(db, chain, cfg, stop)|
      && LogsIn(chain.logs, First(cfg), stop.block) == Done(db, chain, cfg) + Tried(db, chain, cfg, stop)[..k]
  {
    var h := Height(db.checkpoint, cfg);
    LogsInSplit(chain.logs, chain.tip, First(cfg), h, stop.block);
    LogsInSplit(chain.logs, chain.tip, h + 1, stop.block, SafeTip(chain, cfg));
  }

  lemma PassHeight(db: Db, chain: Chain, cfg: Config, stop: Stop, lost: set<nat>)
    requires PossibleStop(db, chain, cfg, stop)
    ensures Height(Pass(db, chain, cfg, stop, lost).checkpoint, cfg) == stop.block
  {
  }

  lemma PassTells(base: Mirror, db: Db, chain: Chain, cfg: Config, stop: Stop, lost: set<nat>)
    requires ChainOk(chain) && Told(base, db.mirror, cfg.windows) && PossibleStop(db, chain, cfg, stop)
    ensures var m := Pass(db, chain, cfg, stop, lost).mirror;
      Told(base, m, cfg.windows) && Logs(m.ledger) == Tell(Logs(db.mirror.ledger), Tried(db, chain, cfg, stop), 0, lost)
  {
    BoundedIn(chain.logs, Height(db.checkpoint, cfg) + 1, SafeTip(chain, cfg));
    SomeTells(base, db.mirror, Tried(db, chain, cfg, stop), 0, lost, cfg.windows);
  }

  lemma TriedAmongDeep(db: Db, chain: Chain, cfg: Config, stop: Stop) returns (rest: seq<Log>)
    requires ChainOk(chain) && HasWork(db, chain, cfg) && PossibleStop(db, chain, cfg, stop)
    ensures Deep(chain, cfg) == Done(db, chain, cfg) + Tried(db, chain, cfg, stop) + rest
  {
    DoneAndDue(db, chain, cfg);
    var due := Due(db, chain, cfg);
    rest := due[stop.attempted..];
    assert due == due[..stop.attempted] + rest;
  }

  lemma PassOrder(seen: seq<Log>, db: Db, chain: Chain, cfg: Config, stop: Stop, lost: set<nat>)
    requires ChainOk(chain) && HasWork(db, chain, cfg) && PossibleStop(db, chain, cfg, stop)
    ensures Orderly(Tell(seen, Tried(db, chain, cfg, stop), 0, lost), LogsIn(chain.logs, First(cfg), stop.block), Deep(chain, cfg))
      <==> (Orderly(seen, Done(db, chain, cfg), Deep(chain, cfg))
            && Harmless(seen, Tried(db, chain, cfg, stop), CoveredBy(db, chain, cfg, stop), 0, lost))
  {
    var rest := TriedAmongDeep(db, chain, cfg, stop);
    StopSplits(db, chain, cfg, stop);
    LogsInDistinct(chain.logs, First(cfg), SafeTip(chain, cfg));
    TellExact(seen, Done(db, chain, cfg), Tried(db, chain, cfg, stop), rest, CoveredBy(db, chain, cfg, stop), 0, lost, Deep(chain, cfg));
  }

  /** A pass keeps the ledger in step exactly when it was and no failure was harmful. */
  lemma PassExact(w: World, cfg: Config, stop: Stop, lost: set<nat>)
    requires ChainOk(w.chain) && Told(w.base, w.db.mirror, cfg.windows)
    requires HasWork(w.db, w.chain, cfg) && PossibleStop(w.db, w.chain, cfg, stop)
    ensures InStep(w.(db := Pass(w.db, w.chain, cfg, stop, lost)), cfg)
      <==> InStep(w, cfg) && HarmlessPass(w.db, w.chain, cfg, stop, lost)
  {
    PassTells(w.base, w.db, w.chain, cfg, stop, lost);
    PassHeight(w.db, w.chain, cfg, stop, lost);
    PassOrder(Logs(w.db.mirror.ledger), w.db, w.chain, cfg, stop, lost);
  }

  lemma TellStaysBelow(seen: seq<Log>, tried: seq<Log>, at: nat, lost: set<nat>, block: int)
    requires NoneAbove(seen, block) && NoneAbove(tried, block)
    ensures NoneAbove(Tell(seen, tried, at, lost), block)
  {
    TellAdds(seen, tried, at, lost);
    var t := Tell(seen, tried, at, lost);
    forall i | 0 <= i < |t|
      ensures t[i].block <= block
    {
      if i < |seen| { assert t[i] == seen[i]; } else { assert t[i] in tried; }
    }
  }

  lemma LogsInBelow(logs: seq<Log>, lo: int, hi: int)
    ensures NoneAbove(LogsIn(logs, lo, hi), hi)
  {
    forall i | 0 <= i < |LogsIn(logs, lo, hi)|
      ensures LogsIn(logs, lo, hi)[i].block <= hi
    {
      LogsInMember(logs, lo, hi, i);
    }
  }

  lemma PassStaysBelow(db: Db, chain: Chain, cfg: Config, stop: Stop, lost: set<nat>)
    requires PossibleStop(db, chain, cfg, stop) && NoneAbove(Logs(db.mirror.ledger), SafeTip(chain, cfg))
    ensures NoneAbove(Tell(Logs(db.mirror.ledger), Tried(db, chain, cfg, stop), 0, lost), SafeTip(chain, cfg))
  {
    LogsInBelow(chain.logs, Height(db.checkpoint, cfg) + 1, SafeTip(chain, cfg));
    var tried := Tried(db, chain, cfg, stop);
    assert tried == Due(db, chain, cfg)[..stop.attempted];
    TellStaysBelow(Logs(db.mirror.ledger), tried, 0, lost, SafeTip(chain, cfg));
  }

  lemma PassBelongs(w: World, cfg: Config, stop: Stop, lost: set<nat>)
    requires Belongs(w, cfg) && HasWork(w.db, w.chain, cfg) && PossibleStop(w.db, w.chain, cfg, stop)
    ensures Belongs(w.(db := Pass(w.db, w.chain, cfg, stop, lost)), cfg)
  {
    PassTells(w.base, w.db, w.chain, cfg, stop, lost);
    PassStaysBelow(w.db, w.chain, cfg, stop, lost);
  }

  /** A gate that lets a belonging mirror pass rebuilds nothing. */
  lemma GateKeeps(w: World, cfg: Config)
    requires Belongs(w, cfg)
    ensures !Replaced(w.db, w.chain.address, w.chain.tip) && Gate(w.db, cfg.development, w.chain.address, w.chain.tip).proceed
    ensures Behind(w, cfg).base == w.base && Behind(w, cfg).db.mirror == w.db.mirror
    ensures Belongs(Behind(w, cfg), cfg) && (InStep(Behind(w, cfg), cfg) <==> InStep(w, cfg))
  {
  }

  /** In development the gate turns a mirror that outlived its chain into one in step with the live chain. */
  lemma GateRestores(w: World, cfg: Config)
    requires Outlived(w, cfg) && cfg.development
    ensures Rebuilds(w, cfg) && Gate(w.db, true, w.chain.address, w.chain.tip).proceed
    ensures Belongs(Behind(w, cfg), cfg) && InStep(Behind(w, cfg), cfg)
  {
    LogsInEmpty(w.chain.logs, w.chain.tip, First(cfg), First(cfg) - 1);
    assert Logs(Reset(w.db.mirror).ledger) == [];
  }

  /** Behind the gate, a poll keeps the mirror with its chain, and in step exactly when no failure was harmful. */
  lemma PollBehind(w: World, cfg: Config, stop: Option<Stop>, lost: set<nat>)
    requires Belongs(Behind(w, cfg), cfg) && Gate(w.db, cfg.development, w.chain.address, w.chain.tip).proceed
    ensures var v := Polled(w, cfg, stop, lost);
      Belongs(v, cfg) && (InStep(v, cfg) <==> InStep(Behind(w, cfg), cfg) && HarmlessPoll(w, cfg, stop, lost))
  {
    var b := Behind(w, cfg);
    if HasWork(b.db, b.chain, cfg) {
      var s := Halt(b.db, b.chain, cfg, stop);
      PassBelongs(b, cfg, s, lost);
      PassExact(b, cfg, s, lost);
    }
  }

  /** A poll of a mirror with its chain, or in development of one without. */
  lemma PollExact(w: World, cfg: Config, stop: Option<Stop>, lost: set<nat>)
    requires Belongs(w, cfg) || (Outlived(w, cfg) && cfg.development)
    ensures var v := Polled(w, cfg, stop, lost);
      Belongs(v, cfg) && (InStep(v, cfg) <==> (Rebuilds(w, cfg) || InStep(w, cfg)) && HarmlessPoll(w, cfg, stop, lost))
  {
    if Outlived(w, cfg) { GateRestores(w, cfg); } else { GateKeeps(w, cfg); }
    PollBehind(w, cfg, stop, lost);
  }

  // ---- Moves ----

  datatype Move =
    | Mine(blocks: nat, logs: seq<Log>)
    | Redeploy(chain: Chain)
    | PollOnce(stop: Option<Stop>, lost: set<nat>)

  function Mined(chain: Chain, blocks: nat, logs: seq<Log>): Chain {
    Chain(chain.address, chain.tip + blocks, chain.logs + logs)
  }

  predicate CanMine(chain: Chain, blocks: nat, logs: seq<Log>) {
    ChainOk(Mined(chain, blocks, logs)) && forall i :: 0 <= i < |logs| ==> logs[i].block > chain.tip
  }

  /** One move of chain or indexer; a move that cannot happen changes nothing. */
  function Next(w: World, move: Move, cfg: Config): World {
    match move
    case Mine(blocks, logs) => if CanMine(w.chain, blocks, logs) then w.(chain := Mined(w.chain, blocks, logs)) else w
    case Redeploy(chain) => if ChainOk(chain) then w.(chain := chain) else w
    case PollOnce(stop, lost) => Polled(w, cfg, stop, lost)
  }

  function Run(w: World, moves: seq<Move>, cfg: Config): World {
    if moves == [] then w else Next(Run(w, moves[..|moves| - 1], cfg), moves[|moves| - 1], cfg)
  }

  /**
   * The gate can tell: a replaced chain differs from the recorded one by its
   * address or by a tip below the checkpoint, and does not grow past the
   * checkpoint before it is polled. Before anything was recorded any chain will do.
   */
  predicate Noticeable(w: World, move: Move) {
    match move
    case Mine(blocks, _) =>
      Replaced(w.db, w.chain.address, w.chain.tip) ==> Replaced(w.db, w.chain.address, w.chain.tip + blocks)
    case Redeploy(chain) =>
      Replaced(w.db, chain.address, chain.tip) || (w.db.checkpoint.None? && w.db.mirror.ledger == [])
    case PollOnce(_, _) => true
  }

  predicate AllNoticeable(w: World, moves: seq<Move>, cfg: Config) {
    moves == [] || (
      && AllNoticeable(w, moves[..|moves| - 1], cfg)
      && Noticeable(Run(w, moves[..|moves| - 1], cfg), moves[|moves| - 1]))
  }

  /** Since the last rebuild no poll lost a log harmfully. */
  predicate Intact(w: World, moves: seq<Move>, cfg: Config) {
    if moves == [] then true
    else
      var u, move := Run(w, moves[..|moves| - 1], cfg), moves[|moves| - 1];
      if move.PollOnce? then
        (Rebuilds(u, cfg) || Intact(w, moves[..|moves| - 1], cfg)) && HarmlessPoll(u, cfg, move.stop, move.lost)
      else Intact(w, moves[..|moves| - 1], cfg)
  }

  lemma DeepGrows(chain: Chain, blocks: nat, logs: seq<Log>, cfg: Config) returns (more: seq<Log>)
    requires ChainOk(chain) && CanMine(chain, blocks, logs)
    ensures Deep(Mined(chain, blocks, logs), cfg) == Deep(chain, cfg) + more
    ensures forall i :: 0 <= i < |more| ==> more[i].block > SafeTip(chain, cfg)
  {
    var grown := Mined(chain, blocks, logs);
    var safe := SafeTip(chain, cfg);
    LogsInGrow(chain.logs, logs, First(cfg), safe);
    var lo := if First(cfg) <= safe + 1 then safe + 1 else First(cfg);
    more := LogsIn(grown.logs, lo, SafeTip(grown, cfg));
    if First(cfg) <= safe + 1 {
      LogsInSplit(grown.logs, grown.tip, First(cfg), safe, SafeTip(grown, cfg));
    } else {
      LogsInEmpty(chain.logs, chain.tip, First(cfg), safe);
    }
    forall i | 0 <= i < |more|
      ensures more[i].block > safe
    {
      LogsInMember(grown.logs, lo, SafeTip(grown, cfg), i);
    }
  }

  lemma DoneStays(db: Db, chain: Chain, blocks: nat, logs: seq<Log>, cfg: Config)
    requires ChainOk(chain) && CanMine(chain, blocks, logs) && Marked(db.checkpoint, chain, cfg)
    ensures Done(db, Mined(chain, blocks, logs), cfg) == Done(db, chain, cfg)
  {
    var h := Height(db.checkpoint, cfg);
    if h < First(cfg) {
      LogsInEmpty(chain.logs, chain.tip, First(cfg), h);
      LogsInEmpty(chain.logs + logs, chain.tip + blocks, First(cfg), h);
    } else {
      LogsInGrow(chain.logs, logs, First(cfg), h);
    }
  }

  lemma NotPast(seen: seq<Log>, deep: seq<Log>, more: seq<Log>, block: int)
    requires forall i :: 0 <= i < |more| ==> more[i].block > block
    ensures seen <= deep + more && NoneAbove(seen, block) ==> |seen| <= |deep|
  {
    if seen <= deep + more && |seen| > |deep| {
      assert seen[|deep|] == (deep + more)[|deep|] == more[0];
    }
  }

  lemma OrderlyGrows(seen: seq<Log>, done: seq<Log>, deep: seq<Log>, more: seq<Log>, block: int)
    requires NoneAbove(seen, block) && forall i :: 0 <= i < |more| ==> more[i].block > block
    ensures Orderly(seen, done, deep + more) <==> Orderly(seen, done, deep)
  {
    NotPast(seen, deep, more, block);
  }

  lemma MineKeeps(w: World, blocks: nat, logs: seq<Log>, cfg: Config)
    requires Belongs(w, cfg) && CanMine(w.chain, blocks, logs)
    ensures var v := w.(chain := Mined(w.chain, blocks, logs));
      Belongs(v, cfg) && (InStep(v, cfg) <==> InStep(w, cfg))
  {
    var more := DeepGrows(w.chain, blocks, logs, cfg);
    DoneStays(w.db, w.chain, blocks, logs, cfg);
    OrderlyGrows(Logs(w.db.mirror.ledger), Done(w.db, w.chain, cfg), Deep(w.chain, cfg), more, SafeTip(w.chain, cfg));
  }

  lemma NothingRecorded(w: World, cfg: Config)
    requires ChainOk(w.chain) && Told(w.base, w.db.mirror, cfg.windows)
    requires w.db.checkpoint.None? && w.db.mirror.ledger == []
    ensures Belongs(w, cfg) && InStep(w, cfg)
  {
    LogsInEmpty(w.chain.logs, w.chain.tip, First(cfg), First(cfg) - 1);
    assert Logs(w.db.mirror.ledger) == [];
  }

  /** Where a run may be: with the live chain, in step exactly when intact, or known to have outlived it. */
  predicate Tracked(w: World, intact: bool, cfg: Config) {
    (Belongs(w, cfg) && (InStep(w, cfg) <==> intact)) || Outlived(w, cfg)
  }

  lemma MoveTracks(w: World, move: Move, intact: bool, cfg: Config)
    requires Tracked(w, intact, cfg) && Noticeable(w, move)
    ensures !move.PollOnce? ==> Tracked(Next(w, move, cfg), intact, cfg)
    ensures move.PollOnce? ==>
      Tracked(Next(w, move, cfg), (Rebuilds(w, cfg) || intact) && HarmlessPoll(w, cfg, move.stop, move.lost), cfg)
  {
    match move
    case Mine(blocks, logs) =>
      if CanMine(w.chain, blocks, logs) && !Outlived(w, cfg) { MineKeeps(w, blocks, logs, cfg); }
    case Redeploy(chain) =>
      var v := Next(w, move, cfg);
      if w.db.checkpoint.None? {
        NothingRecorded(w, cfg);
        NothingRecorded(v, cfg);
      }
    case PollOnce(stop, lost) =>
      if Outlived(w, cfg) && !cfg.development {
      } else {
        PollExact(w, cfg, stop, lost);
      }
  }

  /**
   * Along every run of mining, noticeable redeployments, and polls that die
   * anywhere and lose any logs, the mirror shows the live chain, in step exactly
   * when no harmful loss happened since the last rebuild, or the gate can tell
   * that it does not.
   */
  lemma {:induction false} RunFollows(w: World, moves: seq<Move>, cfg: Config)
    requires Belongs(w, cfg) && InStep(w, cfg) && AllNoticeable(w, moves, cfg)
    ensures Tracked(Run(w, moves, cfg), Intact(w, moves, cfg), cfg)
  {
    if moves != [] {
      var before, last := moves[..|moves| - 1], moves[|moves| - 1];
      RunFollows(w, before, cfg);
      MoveTracks(Run(w, before, cfg), last, Intact(w, before, cfg), cfg);
    }
  }

  // ---- The mirror and the live chain ----

  /** Where everything deep is claimed to be indexed, the mirror is right exactly when the ledger is in step. */
  lemma RightIsInStep(w: World, cfg: Config)
    requires ChainOk(w.chain) && Told(w.base, w.db.mirror, cfg.windows) && Done(w.db, w.chain, cfg) == Deep(w.chain, cfg)
    ensures Right(w, cfg) <==> InStep(w, cfg)
  {
    RightLedger(w, cfg);
    PrefixesOfEachOther(Logs(w.db.mirror.ledger), Deep(w.chain, cfg));
  }

  lemma PrefixesOfEachOther(a: seq<Log>, b: seq<Log>)
    ensures Orderly(a, b, b) <==> a == b
  {
  }

  lemma NoWorkIsDone(db: Db, chain: Chain, cfg: Config)
    requires ChainOk(chain) && Marked(db.checkpoint, chain, cfg) && !HasWork(db, chain, cfg)
    ensures Done(db, chain, cfg) == Deep(chain, cfg)
  {
    var h, safe := Height(db.checkpoint, cfg), SafeTip(chain, cfg);
    if h < First(cfg) {
      LogsInEmpty(chain.logs, chain.tip, First(cfg), h);
      LogsInEmpty(chain.logs, chain.tip, First(cfg), safe);
    } else {
      assert h == safe;
    }
  }

  /** A poll that comes through claims everything deep. */
  lemma PollClaimsAll(w: World, cfg: Config, lost: set<nat>)
    requires Belongs(Behind(w, cfg), cfg) && Gate(w.db, cfg.development, w.chain.address, w.chain.tip).proceed
    ensures Done(Polled(w, cfg, None, lost).db, w.chain, cfg) == Deep(w.chain, cfg)
  {
    var b := Behind(w, cfg);
    if HasWork(b.db, b.chain, cfg) {
      PassHeight(b.db, b.chain, cfg, Whole(b.db, b.chain, cfg), lost);
    } else {
      NoWorkIsDone(b.db, b.chain, cfg);
    }
  }

  /** A poll that comes through leaves the mirror right exactly when the ledger was in step and nothing was lost harmfully. */
  lemma PollIsRight(w: World, cfg: Config, lost: set<nat>)
    requires Belongs(w, cfg) || (Outlived(w, cfg) && cfg.development)
    ensures Right(Polled(w, cfg, None, lost), cfg) <==> InStep(Polled(w, cfg, None, lost), cfg)
  {
    if Outlived(w, cfg) { GateRestores(w, cfg); } else { GateKeeps(w, cfg); }
    PollClaimsAll(w, cfg, lost);
    PollBehind(w, cfg, None, lost);
    RightIsInStep(Polled(w, cfg, None, lost), cfg);
  }

  /** A database that never indexed, with a chain of its own. */
  predicate Untouched(w: World) {
    ChainOk(w.chain) && w.db == Db(w.base, None) && NeverIndexed(w.base) == w.base
  }

  lemma UntouchedIsTracked(w: World, cfg: Config)
    requires Untouched(w)
    ensures Belongs(w, cfg) && InStep(w, cfg) && Clean(w.db.mirror)
  {
    assert w.base.ledger == [];
    assert Logs(w.base.ledger) == [];
    ResetIdempotent(w.base);
    NothingRecorded(w, cfg);
  }

  // ---- Bases ----

  lemma {:induction false} SomeKeepsClean(m: Mirror, logs: seq<Log>, at: nat, lost: set<nat>, w: Windows)
    requires Clean(m)
    ensures Clean(IngestSome(m, logs, at, lost, w))
    decreases |logs|
  {
    if logs != [] {
      var t := Attempt(m, logs[0], at in lost, w);
      assert Clean(t) by { if at !in lost { IngestKeepsClean(m, logs[0], w); } }
      SomeKeepsClean(t, logs[1..], at + 1, lost, w);
    }
  }

  /** The mirror follows from its ledger, and no row without an onchain id carries anything of a chain. */
  predicate Honest(w: World, cfg: Config) {
    && ChainOk(w.chain) && Told(w.base, w.db.mirror, cfg.windows)
    && Clean(w.db.mirror) && NeverIndexed(w.base) == w.base
  }

  lemma RebuildIsHonest(w: World, cfg: Config)
    requires Honest(w, cfg)
    ensures Honest(Behind(w, cfg), cfg)
  {
    ResetIsNeverIndexed(w.db.mirror);
    ResetIdempotent(w.db.mirror);
    assert Logs(Reset(w.db.mirror).ledger) == [];
  }

  lemma PassIsHonest(w: World, cfg: Config, stop: Stop, lost: set<nat>)
    requires Honest(w, cfg) && PossibleStop(w.db, w.chain, cfg, stop)
    ensures Honest(w.(db := Pass(w.db, w.chain, cfg, stop, lost)), cfg)
  {
    PassTells(w.base, w.db, w.chain, cfg, stop, lost);
    SomeKeepsClean(w.db.mirror, Tried(w.db, w.chain, cfg, stop), 0, lost, cfg.windows);
  }

  lemma NextIsHonest(w: World, move: Move, cfg: Config)
    requires Honest(w, cfg)
    ensures Honest(Next(w, move, cfg), cfg)
  {
    if move.PollOnce? {
      var b := Behind(w, cfg);
      RebuildIsHonest(w, cfg);
      if Indexes(w, cfg) { PassIsHonest(b, cfg, Halt(b.db, b.chain, cfg, move.stop), move.lost); }
    }
  }

  lemma {:induction false} RunIsHonest(w: World, moves: seq<Move>, cfg: Config)
    requires Honest(w, cfg)
    ensures Honest(Run(w, moves, cfg), cfg)
  {
    if moves != [] {
      RunIsHonest(w, moves[..|moves| - 1], cfg);
      NextIsHonest(Run(w, moves[..|moves| - 1], cfg), moves[|moves| - 1], cfg);
    }
  }

  /** The poll rebuilds a mirror whose dead chain left marks among the human records. */
  predicate RebuildLeaks(w: World, move: Move, cfg: Config) {
    move.PollOnce? && Rebuilds(w, cfg) && LeaksAlong(w.base, Logs(w.db.mirror.ledger), cfg.windows)
  }

  predicate SomeRebuildLeaks(w: World, moves: seq<Move>, cfg: Config) {
    moves != [] && (
      || SomeRebuildLeaks(w, moves[..|moves| - 1], cfg)
      || RebuildLeaks(Run(w, moves[..|moves| - 1], cfg), moves[|moves| - 1], cfg))
  }

  lemma MoveKeepsBase(w: World, move: Move, cfg: Config)
    requires Honest(w, cfg)
    ensures !RebuildLeaks(w, move, cfg) ==> Next(w, move, cfg).base == w.base
    ensures Marks(Next(w, move, cfg).base) >= Marks(w.base) + if RebuildLeaks(w, move, cfg) then 1 else 0
  {
    if move.PollOnce? && Rebuilds(w, cfg) {
      var m, logs := w.db.mirror, Logs(w.db.mirror.ledger);
      ResetUndoesDeadChain(w.base, logs, cfg.windows);
      ResetIsNeverIndexed(m);
      RunHumans(w.base, logs, cfg.windows);
      MarksOfNeverIndexed(m);
    }
  }

  lemma {:induction false} RunBase(w: World, moves: seq<Move>, cfg: Config)
    requires Honest(w, cfg)
    ensures !SomeRebuildLeaks(w, moves, cfg) ==> Run(w, moves, cfg).base == w.base
    ensures Marks(Run(w, moves, cfg).base) >= Marks(w.base) + if SomeRebuildLeaks(w, moves, cfg) then 1 else 0
  {
    if moves != [] {
      RunIsHonest(w, moves[..|moves| - 1], cfg);
      RunBase(w, moves[..|moves| - 1], cfg);
      MoveKeepsBase(Run(w, moves[..|moves| - 1], cfg), moves[|moves| - 1], cfg);
    }
  }

  // ---- Main results ----

  lemma RunSnoc(w: World, moves: seq<Move>, move: Move, cfg: Config)
    ensures Run(w, moves + [move], cfg) == Next(Run(w, moves, cfg), move, cfg)
    ensures AllNoticeable(w, moves + [move], cfg) <==> AllNoticeable(w, moves, cfg) && Noticeable(Run(w, moves, cfg), move)
  {
    assert (moves + [move])[..|moves|] == moves;
  }

  /**
   * In development, after any run from a database that never indexed, with any
   * number of redeployments the gate can tell and of polls that died and lost
   * logs, take one more poll that comes through, though it may lose logs too.
   * The mirror is then what the base makes of the live chain's deep logs, told
   * once and in order, exactly when no poll since the last rebuild lost a log
   * harmfully; and the base is still the database the run began with exactly
   * when no rebuilt chain had left marks among the human records.
   */
  lemma MirrorShowsLiveChain(w: World, before: seq<Move>, lost: set<nat>, cfg: Config)
    requires Untouched(w) && cfg.development && AllNoticeable(w, before, cfg)
    ensures var moves := before + [PollOnce(None, lost)];
      var v := Run(w, moves, cfg);
      && (Right(v, cfg) <==> Intact(w, moves, cfg))
      && NeverIndexed(v.base) == v.base
      && (v.base == w.base <==> !SomeRebuildLeaks(w, moves, cfg))
  {
    var moves := before + [PollOnce(None, lost)];
    var u := Run(w, before, cfg);
    UntouchedIsTracked(w, cfg);
    RunSnoc(w, before, PollOnce(None, lost), cfg);
    RunFollows(w, before, cfg);
    RunFollows(w, moves, cfg);
    PollIsRight(u, cfg, lost);
    PollExact(u, cfg, None, lost);
    RunIsHonest(w, moves, cfg);
    RunBase(w, moves, cfg);
    BelongsIsNotOutlived(Run(w, moves, cfg), cfg);
  }

  lemma BelongsIsNotOutlived(w: World, cfg: Config)
    requires Belongs(w, cfg)
    ensures !Outlived(w, cfg)
  {
  }

  predicate LosesNothing(moves: seq<Move>) {
    forall i :: 0 <= i < |moves| && moves[i].PollOnce? ==> moves[i].lost == {}
  }

  /** Polls may die anywhere: while every transaction they attempt succeeds, the run is intact. */
  lemma {:induction false} LosslessIsIntact(w: World, moves: seq<Move>, cfg: Config)
    requires LosesNothing(moves)
    ensures Intact(w, moves, cfg)
  {
    if moves != [] {
      var before, move := moves[..|moves| - 1], moves[|moves| - 1];
      LosslessIsIntact(w, before, cfg);
      if move.PollOnce? { LosslessPoll(Run(w, before, cfg), cfg, move.stop); }
    }
  }

  lemma LosslessPoll(w: World, cfg: Config, stop: Option<Stop>)
    ensures HarmlessPoll(w, cfg, stop, {})
  {
    var b := Behind(w, cfg);
    if Indexes(w, cfg) {
      var s := Halt(b.db, b.chain, cfg, stop);
      HarmlessWithoutLoss(Logs(b.db.mirror.ledger), Tried(b.db, b.chain, cfg, s), CoveredBy(b.db, b.chain, cfg, s), 0);
    }
  }

  /** Without a redeployment no run rebuilds anything. */
  lemma {:induction false} NoRebuildWithoutRedeploy(w: World, moves: seq<Move>, cfg: Config)
    requires Belongs(w, cfg) && forall i :: 0 <= i < |moves| ==> !moves[i].Redeploy?
    ensures var v := Run(w, moves, cfg);
      Belongs(v, cfg) && v.base == w.base && Logs(w.db.mirror.ledger) <= Logs(v.db.mirror.ledger)
  {
    if moves != [] {
      NoRebuildWithoutRedeploy(w, moves[..|moves| - 1], cfg);
      StepWithoutRedeploy(Run(w, moves[..|moves| - 1], cfg), moves[|moves| - 1], cfg);
    }
  }

  lemma StepWithoutRedeploy(w: World, move: Move, cfg: Config)
    requires Belongs(w, cfg) && !move.Redeploy?
    ensures var v := Next(w, move, cfg);
      Belongs(v, cfg) && v.base == w.base && Logs(w.db.mirror.ledger) <= Logs(v.db.mirror.ledger)
  {
    match move
    case Mine(blocks, logs) =>
      if CanMine(w.chain, blocks, logs) { MineKeeps(w, blocks, logs, cfg); }
    case PollOnce(stop, lost) =>
      GateKeeps(w, cfg);
      PollBehind(w, cfg, stop, lost);
      OldLedgerStays(w.db, w.chain, cfg, stop, lost);
  }

  // ---- What a poll adds ----

  lemma PrefixInRange(logs: seq<Log>, lo: int, hi: int, tried: seq<Log>)
    requires tried <= LogsIn(logs, lo, hi)
    ensures forall l :: l in tried ==> l in logs && lo <= l.block <= hi
  {
    forall l | l in tried
      ensures l in logs && lo <= l.block <= hi
    {
      LogsInExactly(logs, lo, hi, l);
    }
  }

  lemma TriedInRange(db: Db, chain: Chain, cfg: Config, stop: Stop)
    requires PossibleStop(db, chain, cfg, stop)
    ensures forall l :: l in Tried(db, chain, cfg, stop) ==> l in chain.logs && Height(db.checkpoint, cfg) < l.block <= SafeTip(chain, cfg)
  {
    PrefixInRange(chain.logs, Height(db.checkpoint, cfg) + 1, SafeTip(chain, cfg), Tried(db, chain, cfg, stop));
  }

  lemma PassHears(base: Mirror, db: Db, chain: Chain, cfg: Config, stop: Stop, lost: set<nat>, k: nat)
    requires ChainOk(chain) && Told(base, db.mirror, cfg.windows) && PossibleStop(db, chain, cfg, stop)
    requires |db.mirror.ledger| <= k < |Pass(db, chain, cfg, stop, lost).mirror.ledger|
    ensures var l := Pass(db, chain, cfg, stop, lost).mirror.ledger[k].log;
      l in chain.logs && Height(db.checkpoint, cfg) < l.block <= SafeTip(chain, cfg)
  {
    PassTells(base, db, chain, cfg, stop, lost);
    TriedInRange(db, chain, cfg, stop);
    TellAdds(Logs(db.mirror.ledger), Tried(db, chain, cfg, stop), 0, lost);
    assert Logs(Pass(db, chain, cfg, stop, lost).mirror.ledger)[k] in Tried(db, chain, cfg, stop);
  }

  /** What a poll adds to the ledger is on the live chain, above the height, and has its confirmations. */
  lemma NewLogsAreConfirmed(w: World, cfg: Config, stop: Option<Stop>, lost: set<nat>, k: nat)
    requires ChainOk(w.chain) && Told(w.base, w.db.mirror, cfg.windows)
    requires |Behind(w, cfg).db.mirror.ledger| <= k < |Polled(w, cfg, stop, lost).db.mirror.ledger|
    ensures var l := Polled(w, cfg, stop, lost).db.mirror.ledger[k].log;
      && MayIndex(w.db, w.chain, cfg) && l in w.chain.logs
      && l.block > StartsAbove(w.db, w.chain) && l.block >= 1 && l.block >= cfg.start
      && l.block + cfg.confirmations <= w.chain.tip
  {
    var b := Behind(w, cfg);
    if Indexes(w, cfg) {
      assert Told(b.base, b.db.mirror, cfg.windows) by { if Rebuilds(w, cfg) { assert Logs(b.db.mirror.ledger) == []; } }
      PassHears(b.base, b.db, b.chain, cfg, Halt(b.db, b.chain, cfg, stop), lost, k);
    }
  }

  // ---- Replacements ----

  lemma {:induction false} SomeKeepsLedger(m: Mirror, logs: seq<Log>, at: nat, lost: set<nat>, w: Windows)
    ensures Logs(m.ledger) <= Logs(IngestSome(m, logs, at, lost, w).ledger)
    decreases |logs|
  {
    if logs != [] {
      LedgerOfIngest(m, logs[0], w);
      var t := Attempt(m, logs[0], at in lost, w);
      SomeKeepsLedger(t, logs[1..], at + 1, lost, w);
      PrefixTransitive(Logs(m.ledger), Logs(t.ledger), Logs(IngestSome(t, logs[1..], at + 1, lost, w).ledger));
    }
  }

  lemma PrefixTransitive(a: seq<Log>, b: seq<Log>, c: seq<Log>)
    requires a <= b <= c
    ensures a <= c
  {
  }

  /** A poll that does not rebuild keeps everything the ledger holds, whatever chain it came from. */
  lemma OldLedgerStays(db: Db, chain: Chain, cfg: Config, stop: Option<Stop>, lost: set<nat>)
    requires !(cfg.development && Replaced(db, chain.address, chain.tip))
    ensures Logs(db.mirror.ledger) <= Logs(Poll(db, chain, cfg, stop, lost).mirror.ledger)
  {
    var g := Gate(db, cfg.development, chain.address, chain.tip);
    assert g.db.mirror == db.mirror;
    if g.proceed && HasWork(g.db, chain, cfg) {
      var s := Halt(g.db, chain, cfg, stop);
      SomeKeepsLedger(db.mirror, Tried(g.db, chain, cfg, s), 0, lost, cfg.windows);
    }
  }

  predicate AllFrom(logs: seq<Log>, all: seq<Log>) {
    forall l :: l in logs ==> l in all
  }

  lemma TellFrom(done: seq<Log>, tried: seq<Log>, rest: seq<Log>, at: nat, lost: set<nat>, all: seq<Log>)
    requires all == done + tried + rest
    ensures AllFrom(Tell([], tried, at, lost), all)
  {
    TellAdds([], tried, at, lost);
  }

  lemma PassFromDeep(base: Mirror, db: Db, chain: Chain, cfg: Config, stop: Stop, lost: set<nat>)
    requires ChainOk(chain) && Told(base, db.mirror, cfg.windows) && Logs(db.mirror.ledger) == []
    requires HasWork(db, chain, cfg) && PossibleStop(db, chain, cfg, stop)
    ensures AllFrom(Logs(Pass(db, chain, cfg, stop, lost).mirror.ledger), Deep(chain, cfg))
  {
    var rest := TriedAmongDeep(db, chain, cfg, stop);
    PassTells(base, db, chain, cfg, stop, lost);
    TellFrom(Done(db, chain, cfg), Tried(db, chain, cfg, stop), rest, 0, lost, Deep(chain, cfg));
  }

  /** A poll that rebuilds starts over: the mirror follows from the rebuilt one by logs of the live chain only. */
  lemma OldLedgerGoes(w: World, cfg: Config, stop: Option<Stop>, lost: set<nat>)
    requires Outlived(w, cfg) && cfg.development
    ensures var v := Polled(w, cfg, stop, lost);
      v.base == Reset(w.db.mirror) && Belongs(v, cfg) && AllFrom(Logs(v.db.mirror.ledger), Deep(w.chain, cfg))
  {
    GateRestores(w, cfg);
    PollBehind(w, cfg, stop, lost);
    var b := Behind(w, cfg);
    assert Logs(b.db.mirror.ledger) == [];
    if HasWork(b.db, b.chain, cfg) { PassFromDeep(b.base, b.db, b.chain, cfg, Halt(b.db, b.chain, cfg, stop), lost); }
  }

  /**
   * A replacement the gate cannot tell: the poll indexes on top of what the
   * ledger holds. The mirror is right for the new chain exactly when the ledger
   * happens to be the beginning of the new chain's deep logs, as far as the
   * checkpoint claims, and nothing is lost harmfully; when there is nothing to
   * index, exactly when the ledger is the deep logs.
   */
  lemma UnnoticedReplacement(w: World, cfg: Config, lost: set<nat>)
    requires ChainOk(w.chain) && Told(w.base, w.db.mirror, cfg.windows) && !Replaced(w.db, w.chain.address, w.chain.tip)
    ensures var v := Polled(w, cfg, None, lost);
      Right(v, cfg) <==> if Indexes(w, cfg) then InStep(w, cfg) && HarmlessPoll(w, cfg, None, lost) else Logs(w.db.mirror.ledger) == Deep(w.chain, cfg)
  {
    var b, v := Behind(w, cfg), Polled(w, cfg, None, lost);
    assert b.base == w.base && b.db.mirror == w.db.mirror && Height(b.db.checkpoint, cfg) == Height(w.db.checkpoint, cfg);
    if Indexes(w, cfg) {
      var s := Whole(b.db, b.chain, cfg);
      PassTells(b.base, b.db, b.chain, cfg, s, lost);
      PassHeight(b.db, b.chain, cfg, s, lost);
      PassExact(b, cfg, s, lost);
      RightIsInStep(v, cfg);
    } else {
      RightLedger(v, cfg);
    }
  }

  lemma RightLedger(w: World, cfg: Config)
    requires ChainOk(w.chain) && Told(w.base, w.db.mirror, cfg.windows)
    ensures Right(w, cfg) <==> Logs(w.db.mirror.ledger) == Deep(w.chain, cfg)
  {
    LogsInDistinct(w.chain.logs, First(cfg), SafeTip(w.chain, cfg));
    BoundedIn(w.chain.logs, First(cfg), SafeTip(w.chain, cfg));
    AllRecorded(w.base, Deep(w.chain, cfg), cfg.windows);
  }

  // ---- Two small worlds ----

  function FirstLog(): Log {
    Log(1, 0, 1, 0, FeeWithdrawn(1))
  }

  /** A development chain of ten blocks with one log in it, and settings that index from block one. */
  function OneLogChain(): Chain {
    Chain(7, 10, [FirstLog()])
  }

  function SmallConfig(): Config {
    Config(true, 0, 1, 10, Windows(0, 0))
  }

  lemma OneLogIsDeep(tip: nat)
    requires tip >= 1
    ensures LogsIn([FirstLog()], 1, tip) == [FirstLog()]
  {
    assert [FirstLog()][..0] == [];
  }

  lemma OneLogTold(m: Mirror, w: Windows)
    requires m.ledger == []
    ensures IngestAll(m, [FirstLog()], w) == m.(ledger := [LedgerRow(FirstLog(), None)])
  {
    assert [FirstLog()][..0] == [];
    assert IngestAll(m, [], w) == m;
  }

  /** The mirror after the swallowed log, as long as only polls happen. */
  predicate Swallowed(w: World, m: Mirror) {
    && w.chain == OneLogChain() && w.db.mirror == m && w.db.checkpoint.Some?
    && w.db.checkpoint.value.lastBlock == 9 && w.db.checkpoint.value.address in {None, Some(7)}
  }

  /**
   * A log whose only transaction fails is lost for good: the checkpoint passes
   * it, no later poll changes the mirror, and the mirror is not what the deep
   * logs make of its base.
   */
  lemma {:induction false} SwallowedLogIsNeverRetried(m: Mirror, polls: seq<Move>)
    requires m.ledger == [] && forall i :: 0 <= i < |polls| ==> polls[i].PollOnce?
    ensures var w := World(OneLogChain(), Db(m, None), m);
      var v := Run(Polled(w, SmallConfig(), None, {0}), polls, SmallConfig());
      Swallowed(v, m) && IngestAll(m, Deep(v.chain, SmallConfig()), SmallConfig().windows) != v.db.mirror
  {
    var w, cfg := World(OneLogChain(), Db(m, None), m), SmallConfig();
    OneLogIsDeep(9);
    OneLogTold(m, cfg.windows);
    assert Deep(OneLogChain(), cfg) == [FirstLog()];
    if polls == [] {
      SwallowingPoll(m);
    } else {
      var u := Run(Polled(w, cfg, None, {0}), polls[..|polls| - 1], cfg);
      SwallowedLogIsNeverRetried(m, polls[..|polls| - 1]);
      SwallowedStays(u, m, polls[|polls| - 1]);
    }
  }

  lemma SwallowingPoll(m: Mirror)
    requires m.ledger == []
    ensures Swallowed(Polled(World(OneLogChain(), Db(m, None), m), SmallConfig(), None, {0}), m)
  {
    var db, chain, cfg := Db(m, None), OneLogChain(), SmallConfig();
    OneLogIsDeep(9);
    assert Due(db, chain, cfg) == [FirstLog()];
    var tried := Tried(db, chain, cfg, Whole(db, chain, cfg));
    assert tried == [FirstLog()];
    assert tried[1..] == [];
    assert IngestSome(m, tried, 0, {0}, cfg.windows) == IngestSome(m, [], 1, {0}, cfg.windows) == m;
  }

  lemma SwallowedStays(w: World, m: Mirror, move: Move)
    requires Swallowed(w, m) && move.PollOnce?
    ensures Swallowed(Next(w, move, SmallConfig()), m)
  {
    assert !HasWork(Behind(w, SmallConfig()).db, w.chain, SmallConfig());
  }

  /** The database after two polls of the one-log chain: its log is recorded, its address adopted. */
  function Adopted(m: Mirror): Db {
    Db(m.(ledger := [LedgerRow(FirstLog(), None)]), Some(Checkpoint(9, Some(7))))
  }

  lemma TwoPolls(m: Mirror)
    requires m.ledger == []
    ensures var cfg := SmallConfig();
      var w := World(OneLogChain(), Db(m, None), m);
      Polled(Polled(w, cfg, None, {}), cfg, None, {}) == World(OneLogChain(), Adopted(m), m)
  {
    var db, chain, cfg := Db(m, None), OneLogChain(), SmallConfig();
    OneLogIsDeep(9);
    OneLogTold(m, cfg.windows);
    assert Due(db, chain, cfg) == [FirstLog()];
    var tried := Tried(db, chain, cfg, Whole(db, chain, cfg));
    assert tried == [FirstLog()];
    IngestSomeAll(m, tried, 0, 1, cfg.windows);
    var v := Polled(World(chain, db, m), cfg, None, {});
    assert v == World(chain, Db(Adopted(m).mirror, Some(Checkpoint(9, None))), m);
    assert !HasWork(Behind(v, cfg).db, chain, cfg);
  }

  /**
   * A chain redeployed at the same address that has grown past the checkpoint
   * before the next poll: no poll ever drops the dead chain's log, and the
   * mirror is not what the empty new chain makes of its base.
   */
  lemma SameAddressGoesUnnoticed(m: Mirror, stop: Option<Stop>, lost: set<nat>)
    requires m.ledger == []
    ensures var cfg := SmallConfig();
      var w := World(Chain(7, 20, []), Adopted(m), m);
      var v := Polled(w, cfg, stop, lost);
      && !Replaced(w.db, w.chain.address, w.chain.tip)
      && FirstLog() in Logs(v.db.mirror.ledger) && !Right(v, cfg)
  {
    var cfg := SmallConfig();
    var w := World(Chain(7, 20, []), Adopted(m), m);
    OldLedgerStays(w.db, w.chain, cfg, stop, lost);
    assert Logs(w.db.mirror.ledger) == [FirstLog()];
    assert Logs(Polled(w, cfg, stop, lost).db.mirror.ledger)[0] == FirstLog();
    assert Deep(w.chain, cfg) == [];
    assert IngestAll(m, [], cfg.windows) == m;
  }
}
