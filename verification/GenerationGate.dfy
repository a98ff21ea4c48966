/**
 * Detecting that the chain under the mirror was replaced, and what the indexer
 * does about it (apps/api/src/chain/generation.ts). Contract addresses are only
 * compared, in lower case, so numbers stand for them.
 */
module GenerationGate {
  import opened Basics
  import opened Indexer
  import opened Generation

  type Address = nat

  datatype Checkpoint = Checkpoint(lastBlock: nat, address: Option<Address>)

  datatype Db = Db(mirror: Mirror, checkpoint: Option<Checkpoint>)

  datatype Signal = AddressSignal | HeightSignal

  datatype Verdict = Fresh | Adopt | Same | Changed(signals: seq<Signal>)

  datatype Gated = Gated(db: Db, proceed: bool)

  /** Compares the recorded generation with the live chain. */
  function Detect(checkpoint: Option<Checkpoint>, live: Address, tip: nat): Verdict {
    match checkpoint
    case None => Fresh
    case Some(cp) =>
      if cp.address.None? then Adopt
      else
        var signals := (if cp.address.value != live then [AddressSignal] else []) + (if cp.lastBlock > tip then [HeightSignal] else []);
        if signals == [] then Same else Changed(signals)
  }

  /** The database after the rebuild. */
  function Rebuilt(db: Db, live: Address): Db {
    Db(Reset(db.mirror), Some(Checkpoint(0, Some(live))))
  }

  /** The gate in front of every indexing pass: the database it leaves, and whether the pass may go on. */
  function Gate(db: Db, development: bool, live: Address, tip: nat): Gated {
    match Detect(db.checkpoint, live, tip)
    case Fresh => Gated(db, true)
    case Same => Gated(db, true)
    case Adopt => Gated(db.(checkpoint := Some(db.checkpoint.value.(address := Some(live)))), true)
    case Changed(_) => if development then Gated(Rebuilt(db, live), true) else Gated(db, false)
  }

  /** The recorded chain is known and is not the live one. */
  predicate Replaced(db: Db, live: Address, tip: nat) {
    && db.checkpoint.Some? && db.checkpoint.value.address.Some?
    && (db.checkpoint.value.address.value != live || db.checkpoint.value.lastBlock > tip)
  }

  /** The checkpoint names the live chain at a height the chain has. */
  predicate Current(db: Db, live: Address, tip: nat) {
    db.checkpoint.Some? && db.checkpoint.value.address == Some(live) && db.checkpoint.value.lastBlock <= tip
  }

  /** Each signal stands for one difference, and any difference is a changed generation. */
  lemma SignalsExactly(cp: Checkpoint, live: Address, tip: nat)
    requires cp.address.Some?
    ensures var v := Detect(Some(cp), live, tip);
      && (v == Same <==> cp.address == Some(live) && cp.lastBlock <= tip)
      && (v != Same ==> v.Changed? && v.signals != [])
      && (v.Changed? ==> (AddressSignal in v.signals <==> cp.address != Some(live)) && (HeightSignal in v.signals <==> cp.lastBlock > tip))
  {
  }

  /** What one call of the gate does to the database, by what is recorded. */
  lemma GateDecides(db: Db, development: bool, live: Address, tip: nat)
    ensures var g := Gate(db, development, live, tip);
      if db.checkpoint.None? || Current(db, live, tip) then g.proceed && g.db == db
      else if db.checkpoint.value.address.None? then
        g.proceed && g.db.mirror == db.mirror && g.db.checkpoint == Some(Checkpoint(db.checkpoint.value.lastBlock, Some(live)))
      else if development then g.proceed && g.db.mirror == Reset(db.mirror) && g.db.checkpoint == Some(Checkpoint(0, Some(live)))
      else !g.proceed && g.db == db
  {
  }

  /**
   * In development the gate always lets the pass go on, and from a recorded
   * address it leaves a checkpoint at the live address and not above the tip,
   * keeping the database exactly when it already had one.
   */
  lemma DevelopmentIsSound(db: Db, live: Address, tip: nat)
    requires db.checkpoint.Some? && db.checkpoint.value.address.Some?
    ensures var g := Gate(db, true, live, tip);
      && g.proceed && Current(g.db, live, tip)
      && (g.db == db <==> Current(db, live, tip))
      && (g.db != db ==> g.db.mirror == Reset(db.mirror))
  {
  }

  /**
   * Only an unrecorded address escapes the height check: it is adopted even
   * above the tip, and then a second call rebuilds. No third call ever changes anything.
   */
  lemma TwoCallsConverge(db: Db, development: bool, live: Address, tip: nat)
    ensures var once := Gate(db, development, live, tip).db;
      var twice := Gate(once, development, live, tip).db;
      && Gate(twice, development, live, tip).db == twice
      && (twice != once <==> (
        && development && db.checkpoint.Some? && db.checkpoint.value.address.None? && db.checkpoint.value.lastBlock > tip))
      && (development && db.checkpoint.Some? ==> Current(twice, live, tip))
  {
  }

  datatype Call = Call(live: Address, tip: nat)

  function GateAll(db: Db, development: bool, calls: seq<Call>): Db {
    if calls == [] then db
    else Gate(GateAll(db, development, calls[..|calls| - 1]), development, calls[|calls| - 1].live, calls[|calls| - 1].tip).db
  }

  /**
   * Outside development no sequence of calls touches the mirror or the height;
   * it fills a missing address with the first live one and refuses exactly the
   * replaced chains.
   */
  lemma {:induction false} ProductionNeverRebuilds(db: Db, calls: seq<Call>, live: Address, tip: nat)
    ensures var after := GateAll(db, false, calls);
      && after.mirror == db.mirror
      && after.checkpoint.Some? == db.checkpoint.Some?
      && (db.checkpoint.Some? ==>
        && after.checkpoint.value.lastBlock == db.checkpoint.value.lastBlock
        && after.checkpoint.value.address == (
          if db.checkpoint.value.address.None? && calls != [] then Some(calls[0].live) else db.checkpoint.value.address))
      && (Gate(after, false, live, tip).proceed <==> !Replaced(after, live, tip))
  {
    if calls != [] { ProductionNeverRebuilds(db, calls[..|calls| - 1], live, tip); }
  }
}
