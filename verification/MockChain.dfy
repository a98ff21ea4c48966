/**
 * The mock escrow chain (MockChainAdapter in apps/api/src/chain/adapter.ts). It
 * keeps no escrow state: every action derives the chain again from the mirror,
 * the ledger and two keys of the key-value store, and then emits events that
 * the ordinary ingest applies. A new log's random hash is stood for by its
 * block number, so that it never repeats.
 */
module MockChain {
  import opened Basics
  import opened Milestones
  import opened Indexer
  import Fees

  /** The settings; durations are in seconds, while the clock `now` is in milliseconds. */
  datatype Env = Env(feeBps: nat, minStake: nat, minScore: nat, minDuration: nat, windows: Windows)

  predicate EnvOk(env: Env) {
    env.feeBps <= 10_000 && env.minScore <= 100
  }

  datatype Arbiter = Arbiter(registered: bool, badge: nat, score: nat, stake: nat, unstaking: bool, locked: bool, since: nat)

  datatype Seat = Seat(wallet: Wallet, arbiter: Arbiter)

  /** What is stored: the database, the block counter (0 when absent) and the roster in insertion order. */
  datatype Store = Store(mirror: Mirror, kvBlock: nat, roster: seq<Seat>)

  datatype MockMilestone = MockMilestone(ref: Id, client: Wallet, freelancer: Wallet, amount: nat, status: Status)

  /** The chain as an action sees it. */
  datatype Chain = Chain(
    block: nat,
    feePot: int,
    nextMilestoneId: nat,
    nextBadge: nat,
    milestones: map<nat, MockMilestone>,
    roster: seq<Seat>)

  const FIRST_BLOCK: nat := 1_000_000
  const NO_CLIENT: Wallet := 0xdead
  const NO_FREELANCER: Wallet := 0xbeef

  // ---- Deriving the chain ----

  function Max(a: nat, b: nat): nat {
    if a < b then b else a
  }

  function MaxBlock(logs: seq<Log>): nat {
    if logs == [] then FIRST_BLOCK else Max(MaxBlock(logs[..|logs| - 1]), logs[|logs| - 1].block)
  }

  /** What an event adds to the fee pot. */
  function FeeChange(e: Event): int {
    match e
    case MilestoneReleased(_, _, fee) => fee
    case MilestoneSplit(_, _, _, fee) => fee
    case FeeWithdrawn(paid) => 0 - (paid as int)
    case _ => 0
  }

  function FeePot(logs: seq<Log>): int {
    if logs == [] then 0 else FeePot(logs[..|logs| - 1]) + FeeChange(logs[|logs| - 1].event)
  }

  function Join(projects: seq<ProjectRow>, users: seq<UserRow>, r: MilestoneRow): MockMilestone {
    var p := FindAt(projects, ProjectWithId(r.projectId));
    var c := if p.None? then None else FindAt(users, UserWithId(projects[p.value].clientId));
    var f := if p.None? then None else FindAt(users, UserWithId(projects[p.value].freelancerId));
    MockMilestone(r.id, if c.Some? then users[c.value].wallet else NO_CLIENT, if f.Some? then users[f.value].wallet else NO_FREELANCER,
                  r.amount, r.status)
  }

  /** The linked milestones, by onchain id. */
  function View(rows: seq<MilestoneRow>, projects: seq<ProjectRow>, users: seq<UserRow>): map<nat, MockMilestone> {
    if rows == [] then map[]
    else
      var r := rows[|rows| - 1];
      var rest := View(rows[..|rows| - 1], projects, users);
      if r.onchainId.Some? then rest[r.onchainId.value := Join(projects, users, r)] else rest
  }

  function MaxId(rows: seq<MilestoneRow>): nat {
    if rows == [] then 0
    else
      var r := rows[|rows| - 1];
      if r.onchainId.Some? then Max(MaxId(rows[..|rows| - 1]), r.onchainId.value) else MaxId(rows[..|rows| - 1])
  }

  function MaxBadge(roster: seq<Seat>): nat {
    if roster == [] then 0 else Max(MaxBadge(roster[..|roster| - 1]), roster[|roster| - 1].arbiter.badge)
  }

  function Block(s: Store): nat {
    Max(MaxBlock(Logs(s.mirror.ledger)), s.kvBlock)
  }

  function ViewOf(m: Mirror): map<nat, MockMilestone> {
    View(m.milestones, m.projects, m.users)
  }

  function Hydrate(s: Store): Chain {
    Chain(Block(s), FeePot(Logs(s.mirror.ledger)), MaxId(s.mirror.milestones) + 1, MaxBadge(s.roster) + 1, ViewOf(s.mirror), s.roster)
  }

  // ---- Actions ----

  datatype Outcome = Release | Refund | Split

  function OutcomeIndex(o: Outcome): nat {
    match o
    case Release => 0
    case Refund => 1
    case Split => 2
  }

  datatype Act =
    | Fund(ref: Option<Id>, client: Wallet, freelancer: Wallet, amount: nat)
    | Submit(id: nat, who: Wallet)
    | Approve(id: nat, who: Wallet)
    | Withdraw(id: nat, who: Wallet)
    | Cancel(id: nat, who: Wallet)
    | OpenDispute(id: nat, who: Wallet)
    | Resolve(id: nat, who: Wallet, outcome: Outcome, withinSla: bool)
    | Register(who: Wallet, stake: Option<nat>)
    | Deregister(who: Wallet)
    | WithdrawFees

  /** The position of a wallet on the roster. */
  function SeatOf(roster: seq<Seat>, w: Wallet): (i: Option<nat>)
    ensures i.Some? ==> i.value < |roster| && roster[i.value].wallet == w
    ensures i.None? ==> forall k :: 0 <= k < |roster| ==> roster[k].wallet != w
  {
    if roster == [] then None
    else if roster[|roster| - 1].wallet == w then Some(|roster| - 1)
    else SeatOf(roster[..|roster| - 1], w)
  }

  predicate IsRegistered(roster: seq<Seat>, w: Wallet) {
    SeatOf(roster, w).Some? && roster[SeatOf(roster, w).value].arbiter.registered
  }

  predicate Eligible(seat: Seat, m: MockMilestone, env: Env, now: nat) {
    && seat.arbiter.registered && !seat.arbiter.locked && !seat.arbiter.unstaking
    && seat.wallet != m.client && seat.wallet != m.freelancer
    && seat.arbiter.stake >= env.minStake
    && 1000 * (seat.arbiter.since + env.minDuration) <= now
  }

  /** The eligible wallets, in roster order. */
  function Pool(roster: seq<Seat>, m: MockMilestone, env: Env, now: nat): seq<Wallet> {
    if roster == [] then []
    else
      Pool(roster[..|roster| - 1], m, env, now)
      + if Eligible(roster[|roster| - 1], m, env, now) then [roster[|roster| - 1].wallet] else []
  }

  function Padded(panel: seq<Wallet>): (p: seq<Wallet>)
    requires |panel| <= 3
    ensures |p| == 3 && panel <= p && forall i :: |panel| <= i < 3 ==> p[i] == ZERO_WALLET
  {
    if |panel| == 3 then panel
    else if |panel| == 2 then panel + [ZERO_WALLET]
    else if |panel| == 1 then panel + [ZERO_WALLET, ZERO_WALLET]
    else [ZERO_WALLET, ZERO_WALLET, ZERO_WALLET]
  }

  /** The event that settles a dispute. */
  function Settlement(id: nat, amount: nat, outcome: Outcome, feeBps: nat): Event
    requires feeBps <= 10_000
  {
    Fees.FeeIsPart(amount, feeBps);
    Fees.FeeIsPart(amount / 2, feeBps);
    match outcome
    case Release => MilestoneReleased(id, amount - Fees.FeeOn(amount, feeBps), Fees.FeeOn(amount, feeBps))
    case Refund => MilestoneRefunded(id, amount)
    case Split => MilestoneSplit(id, amount / 2, amount / 2 - Fees.FeeOn(amount / 2, feeBps), Fees.FeeOn(amount / 2, feeBps))
  }

  /** The guard of an action; an action it refuses throws. (The fee pot is in fact never negative.) */
  predicate Allowed(c: Chain, act: Act, env: Env) {
    match act
    case Fund(_, _, _, _) => true
    case Submit(id, who) => id in c.milestones && c.milestones[id].status == Funded && c.milestones[id].freelancer == who
    case Approve(id, who) => id in c.milestones && c.milestones[id].status == Submitted && c.milestones[id].client == who
    case Withdraw(id, who) =>
      && id in c.milestones && c.milestones[id].status in {Released, ResolvedRelease, ResolvedSplit}
      && c.milestones[id].freelancer == who
    case Cancel(id, who) => id in c.milestones && c.milestones[id].status == Funded && c.milestones[id].client == who
    case OpenDispute(id, who) =>
      && id in c.milestones && c.milestones[id].status in {Funded, Submitted}
      && (c.milestones[id].client == who || c.milestones[id].freelancer == who)
    case Resolve(id, who, _, _) => id in c.milestones && c.milestones[id].status == Disputed && IsRegistered(c.roster, who)
    case Register(who, stake) => !IsRegistered(c.roster, who) && (stake.Some? ==> stake.value >= env.minStake)
    case Deregister(who) => IsRegistered(c.roster, who)
    case WithdrawFees => c.feePot >= 0
  }

  /** The events of an allowed action, in order. */
  function Plan(c: Chain, act: Act, env: Env, now: nat): seq<Event>
    requires EnvOk(env) && Allowed(c, act, env)
  {
    match act
    case Fund(ref, client, freelancer, amount) => [MilestoneFunded(c.nextMilestoneId, ref, client, freelancer, amount)]
    case Submit(id, _) => [MilestoneSubmitted(id)]
    case Approve(id, _) => [Settlement(id, c.milestones[id].amount, Release, env.feeBps)]
    case Withdraw(id, _) => [FundsWithdrawn(id, Settlement(id, c.milestones[id].amount, Release, env.feeBps).principal)]
    case Cancel(id, _) => [MilestoneCancelled(id, c.milestones[id].amount)]
    case OpenDispute(id, who) =>
      var panel := Take(Pool(c.roster, c.milestones[id], env, now), 3);
      [DisputeOpened(id, who), ArbitersSelected(id, 0, Padded(panel), |panel|)]
    case Resolve(id, who, outcome, _) =>
      var o := OutcomeIndex(outcome);
      [VoteRevealed(id, 0, who, o), DisputeFinalized(id, o, true), DisputeResolved(id, who, o),
       Settlement(id, c.milestones[id].amount, outcome, env.feeBps),
       LedgerOnly("TrustScoreUpdated", who), LedgerOnly("ScoreChanged", who)]
    case Register(who, _) => [LedgerOnly("ArbiterRegistered", who), LedgerOnly("StakeDeposited", who)]
    case Deregister(who) => [LedgerOnly("ArbiterDeregistered", who)]
    case WithdrawFees => [FeeWithdrawn(c.feePot / 2), FeeWithdrawn(c.feePot - c.feePot / 2)]
  }

  /** Replaces a wallet's entry, or appends it. */
  function Seated(roster: seq<Seat>, w: Wallet, a: Arbiter): seq<Seat> {
    match SeatOf(roster, w)
    case None => roster + [Seat(w, a)]
    case Some(i) => roster[i := Seat(w, a)]
  }

  function NewScore(score: nat, withinSla: bool): nat {
    if withinSla then score + 5 else if score < 10 then 0 else score - 10
  }

  /** The badge a wallet registers with: the one it already has, else the next. */
  function BadgeFor(c: Chain, w: Wallet): nat {
    match SeatOf(c.roster, w)
    case None => c.nextBadge
    case Some(i) => if c.roster[i].arbiter.badge == 0 then c.nextBadge else c.roster[i].arbiter.badge
  }

  function NewRoster(c: Chain, act: Act, env: Env, now: nat): seq<Seat>
    requires Allowed(c, act, env)
  {
    match act
    case Resolve(_, who, _, withinSla) =>
      var a := c.roster[SeatOf(c.roster, who).value].arbiter;
      var score := NewScore(a.score, withinSla);
      Seated(c.roster, who, a.(score := score, locked := score < env.minScore))
    case Register(who, stake) =>
      Seated(c.roster, who, Arbiter(true, BadgeFor(c, who), 100, if stake.Some? then stake.value else env.minStake, false, false, now / 1000))
    case Deregister(who) =>
      var a := c.roster[SeatOf(c.roster, who).value].arbiter;
      Seated(c.roster, who, a.(registered := false, stake := 0, unstaking := false, locked := false))
    case _ => c.roster
  }

  /** One emission on top of block `base`; `stored` is false when its ingest failed. */
  function Emit(s: Store, e: Event, base: nat, stored: bool, now: nat, w: Windows): Store {
    Store(if stored then Ingest(s.mirror, Log(base + 1, now, base + 1, 0, e), w) else s.mirror, base + 1, s.roster)
  }

  /**
   * The emissions of one action from its `i`th on, each numbered by its distance
   * from the block the action started at.
   */
  function EmitAll(s: Store, events: seq<Event>, base: nat, i: nat, lost: set<nat>, now: nat, w: Windows): Store
    decreases |events|
  {
    if events == [] then s
    else EmitAll(Emit(s, events[0], base, i !in lost, now, w), events[1..], base + 1, i + 1, lost, now, w)
  }

  /** One action; `lost` are the positions of the events whose ingest failed. */
  function Perform(s: Store, act: Act, env: Env, now: nat, lost: set<nat>): Store
    requires EnvOk(env)
  {
    var c := Hydrate(s);
    if !Allowed(c, act, env) then s
    else EmitAll(s, Plan(c, act, env, now), c.block, 0, lost, now, env.windows).(roster := NewRoster(c, act, env, now))
  }
}
