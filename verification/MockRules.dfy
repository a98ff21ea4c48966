/**
 * What the mock chain's rules mean for the people behind them: who may act when,
 * who gets which amount, who may sit on a panel, and what a ruling does to the
 * arbiter's entry (apps/api/src/chain/adapter.ts).
 */
module MockRules {
  import opened Basics
  import opened Milestones
  import opened Indexer
  import opened MockChain
  import opened MockRoster
  import Fees

  // ---- Who may act ----

  /** An action on this milestone by this wallet. */
  predicate On(act: Act, id: nat, who: Wallet) {
    match act
    case Submit(i, w) => i == id && w == who
    case Approve(i, w) => i == id && w == who
    case Withdraw(i, w) => i == id && w == who
    case Cancel(i, w) => i == id && w == who
    case OpenDispute(i, w) => i == id && w == who
    case Resolve(i, w, _, _) => i == id && w == who
    case _ => false
  }

  /** What each status leaves to each party; nobody else may do anything, except that any registered arbiter may rule. */
  predicate Offered(m: MockMilestone, act: Act, isArbiter: bool, who: Wallet) {
    var isClient, isFreelancer := who == m.client, who == m.freelancer;
    match m.status
    case Funded => (act.Submit? && isFreelancer) || (act.Cancel? && isClient) || (act.OpenDispute? && (isClient || isFreelancer))
    case Submitted => (act.Approve? && isClient) || (act.OpenDispute? && (isClient || isFreelancer))
    case Disputed => act.Resolve? && isArbiter
    case Released => act.Withdraw? && isFreelancer
    case ResolvedRelease => act.Withdraw? && isFreelancer
    case ResolvedSplit => act.Withdraw? && isFreelancer
    case ResolvedRefund => false
    case Cancelled => false
    case PendingFunding => false
  }

  /** An unlinked milestone allows nothing; a linked one exactly what its status offers to the wallet. */
  lemma StatusOffers(c: Chain, act: Act, env: Env, id: nat, who: Wallet)
    requires On(act, id, who)
    ensures Allowed(c, act, env) <==> id in c.milestones && Offered(c.milestones[id], act, IsRegistered(c.roster, who), who)
  {
  }

  /** An allowed action on a milestone plans an event that its status accepts; only a withdrawal moves no status. */
  lemma AllowedIsLegal(c: Chain, act: Act, env: Env, now: nat, id: nat, who: Wallet)
    requires EnvOk(env) && On(act, id, who) && Allowed(c, act, env)
    ensures var from := c.milestones[id].status;
      match act
      case Submit(_, _) => NextStatus(from, KSubmitted) == Some(Submitted)
      case Approve(_, _) => NextStatus(from, KReleased) == Some(Released)
      case Cancel(_, _) => NextStatus(from, KCancelled) == Some(Cancelled)
      case OpenDispute(_, _) => NextStatus(from, KDisputed) == Some(Disputed)
      case Resolve(_, _, Release, _) => NextStatus(from, KReleased) == Some(ResolvedRelease)
      case Resolve(_, _, Refund, _) => NextStatus(from, KRefunded) == Some(ResolvedRefund)
      case Resolve(_, _, Split, _) => NextStatus(from, KSplit) == Some(ResolvedSplit)
      case _ => from in {Released, ResolvedRelease, ResolvedSplit}
  {
  }

  /** On an untouched database the chain starts at block 1,000,000 with no milestone, no fee and no arbiter, and counts ids and badges from 1. */
  lemma FreshChain(s: Store)
    requires s.mirror.ledger == [] && s.kvBlock == 0 && s.roster == []
    requires forall i :: 0 <= i < |s.mirror.milestones| ==> s.mirror.milestones[i].onchainId.None?
    ensures Hydrate(s) == Chain(1_000_000, 0, 1, 1, map[], [])
  {
    NoLinkedRows(s.mirror.milestones, s.mirror.projects, s.mirror.users);
  }

  lemma {:induction false} NoLinkedRows(rows: seq<MilestoneRow>, projects: seq<ProjectRow>, users: seq<UserRow>)
    requires forall i :: 0 <= i < |rows| ==> rows[i].onchainId.None?
    ensures View(rows, projects, users) == map[] && MaxId(rows) == 0
  {
    if rows != [] { NoLinkedRows(rows[..|rows| - 1], projects, users); }
  }

  // ---- Who gets what ----

  /** The freelancer is released the amount less a floored fee. */
  predicate Releases(e: Event, id: nat, amount: nat, bps: nat) {
    e.MilestoneReleased? && e.milestone == id && e.principal + e.fee == amount && Fees.IsFee(e.fee, amount, bps)
  }

  /** Either party is given half, the freelancer's less a floored fee on that half; an odd wei stays behind. */
  predicate Splits(e: Event, id: nat, amount: nat, bps: nat) {
    && e.MilestoneSplit? && e.milestone == id && 2 * e.clientAmount <= amount <= 2 * e.clientAmount + 1
    && e.freelancerAmount + e.fee == e.clientAmount && Fees.IsFee(e.fee, e.clientAmount, bps)
  }

  /** What the money events of an action say, amount by amount. */
  lemma PlanPays(c: Chain, act: Act, env: Env, now: nat, id: nat, who: Wallet)
    requires EnvOk(env) && On(act, id, who) && Allowed(c, act, env)
    ensures var events, amount := Plan(c, act, env, now), c.milestones[id].amount;
      match act
      case Submit(_, _) => events == [MilestoneSubmitted(id)]
      case Approve(_, _) => |events| == 1 && Releases(events[0], id, amount, env.feeBps)
      case Withdraw(_, _) =>
        && |events| == 1 && events[0].FundsWithdrawn? && events[0].milestone == id
        && events[0].withdrawn <= amount && Fees.IsFee(amount - events[0].withdrawn, amount, env.feeBps)
      case Cancel(_, _) => events == [MilestoneCancelled(id, amount)]
      case OpenDispute(_, _) => |events| == 2 && events[0] == DisputeOpened(id, who) && events[1].ArbitersSelected?
      case Resolve(_, _, outcome, _) =>
        && |events| == 6
        && events[0] == VoteRevealed(id, 0, who, OutcomeIndex(outcome)) && events[1] == DisputeFinalized(id, OutcomeIndex(outcome), true)
        && events[2] == DisputeResolved(id, who, OutcomeIndex(outcome))
        && (outcome == Release ==> OutcomeIndex(outcome) == 0 && Releases(events[3], id, amount, env.feeBps))
        && (outcome == Refund ==> OutcomeIndex(outcome) == 1 && events[3] == MilestoneRefunded(id, amount))
        && (outcome == Split ==> OutcomeIndex(outcome) == 2 && Splits(events[3], id, amount, env.feeBps))
        && events[4] == LedgerOnly("TrustScoreUpdated", who) && events[5] == LedgerOnly("ScoreChanged", who)
      case _ => false
  {
    var amount := c.milestones[id].amount;
    var half := amount / 2;
    Fees.FeeIsFloor(Fees.FeeOn(amount, env.feeBps), amount, env.feeBps);
    Fees.FeeIsFloor(Fees.FeeOn(half, env.feeBps), half, env.feeBps);
    Fees.FeeIsPart(amount, env.feeBps);
    Fees.FeeIsPart(half, env.feeBps);
  }

  // ---- Who may sit ----

  /** Free to judge this milestone; the clock is in milliseconds, the registration and its minimum age in seconds. */
  predicate CanSit(seat: Seat, m: MockMilestone, env: Env, now: nat) {
    var a := seat.arbiter;
    && a.registered && !a.locked && !a.unstaking && a.stake >= env.minStake
    && now >= 1000 * a.since + 1000 * env.minDuration
    && seat.wallet !in {m.client, m.freelancer}
  }

  /** How many of the first `n` entries can sit. */
  function Sitting(roster: seq<Seat>, n: nat, m: MockMilestone, env: Env, now: nat): nat
    requires n <= |roster|
  {
    if n == 0 then 0 else Sitting(roster, n - 1, m, env, now) + if CanSit(roster[n - 1], m, env, now) then 1 else 0
  }

  /** The pool of a prefix is a prefix of the pool, one wallet for each entry that can sit. */
  lemma {:induction false} PoolPrefix(roster: seq<Seat>, m: MockMilestone, env: Env, now: nat, n: nat)
    requires n <= |roster|
    ensures |Pool(roster[..n], m, env, now)| == Sitting(roster, n, m, env, now)
    ensures Pool(roster[..n], m, env, now) <= Pool(roster, m, env, now)
    decreases |roster| - n, n
  {
    if n < |roster| {
      assert roster[..n + 1][..n] == roster[..n];
      PoolPrefix(roster, m, env, now, n + 1);
    } else {
      assert roster[..n] == roster;
      PoolCount(roster, m, env, now, n);
    }
  }

  lemma {:induction false} PoolCount(roster: seq<Seat>, m: MockMilestone, env: Env, now: nat, n: nat)
    requires n <= |roster|
    ensures |Pool(roster[..n], m, env, now)| == Sitting(roster, n, m, env, now)
  {
    if n > 0 {
      PoolCount(roster, m, env, now, n - 1);
      assert roster[..n][..n - 1] == roster[..n - 1];
    }
  }

  lemma {:induction false} NoTwice<T>(s: seq<T>, i: nat, j: nat)
    requires Distinct(s) && i < j < |s|
    ensures s[i] != s[j]
  {
    if i > 0 {
      NoTwice(s[1..], i - 1, j - 1);
    } else {
      assert s[j] == s[1..][j - 1];
    }
  }

  lemma TakenIsEarly<T>(pool: seq<T>, k: nat, w: T)
    requires Distinct(pool) && k < |pool| && pool[k] == w
    ensures w in Take(pool, 3) <==> k < 3
  {
    var early := Take(pool, 3);
    if k < 3 {
      assert early[k] == w;
    } else if w in early {
      var j: nat :| j < |early| && early[j] == w;
      NoTwice(pool, j, k);
    }
  }

  lemma PoolIsSitting(roster: seq<Seat>, m: MockMilestone, env: Env, now: nat, i: nat)
    requires RosterOk(roster, env.minScore) && i < |roster|
    ensures var pool, k := Pool(roster, m, env, now), Sitting(roster, i, m, env, now);
      if CanSit(roster[i], m, env, now) then k < |pool| && pool[k] == roster[i].wallet else roster[i].wallet !in pool
  {
    PoolPrefix(roster, m, env, now, i);
    PoolPrefix(roster, m, env, now, i + 1);
    assert roster[..i + 1][..i] == roster[..i];
    PoolSpec(roster, m, env, now, roster[i].wallet);
  }

  /** A wallet is drawn exactly when it can sit and fewer than three before it on the roster can. */
  lemma PanelIsFirstThree(roster: seq<Seat>, m: MockMilestone, env: Env, now: nat, i: nat)
    requires RosterOk(roster, env.minScore) && i < |roster|
    ensures roster[i].wallet in Take(Pool(roster, m, env, now), 3)
       <==> CanSit(roster[i], m, env, now) && Sitting(roster, i, m, env, now) < 3
  {
    PoolIsSitting(roster, m, env, now, i);
    PoolDistinct(roster, m, env, now);
    if CanSit(roster[i], m, env, now) { TakenIsEarly(Pool(roster, m, env, now), Sitting(roster, i, m, env, now), roster[i].wallet); }
  }

  // ---- What happens to an arbiter ----

  /** Five points up in time, ten down when late, never below zero; below the floor the entry locks, and nothing else changes. */
  predicate Rescored(a: Arbiter, b: Arbiter, withinSla: bool, minScore: nat) {
    && b == a.(score := b.score, locked := b.locked)
    && (withinSla ==> b.score == a.score + 5)
    && (!withinSla ==> b.score + 10 == a.score || (b.score == 0 && a.score < 10))
    && (b.locked <==> b.score < minScore)
  }

  /** A fresh record that keeps the badge a known wallet has; a new wallet gets one above all others. */
  predicate Enrolled(c: Chain, who: Wallet, b: Arbiter, stake: Option<nat>, env: Env, now: nat) {
    && b.registered && b.score == 100 && !b.unstaking && !b.locked && 1000 * b.since <= now < 1000 * (b.since + 1)
    && b.stake == (if stake.Some? then stake.value else env.minStake)
    && (forall i :: 0 <= i < |c.roster| && c.roster[i].wallet == who ==> b.badge == c.roster[i].arbiter.badge)
    && ((forall i :: 0 <= i < |c.roster| ==> c.roster[i].wallet != who) ==> forall i :: 0 <= i < |c.roster| ==> c.roster[i].arbiter.badge < b.badge)
  }

  /** Gone from service, with everything else it earned kept. */
  predicate Retired(a: Arbiter, b: Arbiter) {
    !b.registered && b.stake == 0 && !b.unstaking && !b.locked && b.badge == a.badge && b.score == a.score && b.since == a.since
  }

  /** Only the acting arbiter's entry changes, and only when it rules, registers or leaves. */
  lemma RosterMoves(c: Chain, act: Act, env: Env, now: nat)
    requires EnvOk(env) && Allowed(c, act, env) && RosterOk(c.roster, env.minScore) && c.nextBadge == MaxBadge(c.roster) + 1
    ensures var n := NewRoster(c, act, env, now);
      match act
      case Resolve(_, who, _, withinSla) =>
        && |n| == |c.roster|
        && forall i :: 0 <= i < |n| ==>
             if n[i].wallet == who then c.roster[i].wallet == who && Rescored(c.roster[i].arbiter, n[i].arbiter, withinSla, env.minScore)
             else n[i] == c.roster[i]
      case Register(who, stake) =>
        && (forall i :: 0 <= i < |n| ==> if n[i].wallet == who then Enrolled(c, who, n[i].arbiter, stake, env, now)
                                         else i < |c.roster| && n[i] == c.roster[i])
        && |c.roster| <= |n| && exists i :: 0 <= i < |n| && n[i].wallet == who
      case Deregister(who) =>
        && |n| == |c.roster|
        && forall i :: 0 <= i < |n| ==>
             if n[i].wallet == who then c.roster[i].wallet == who && Retired(c.roster[i].arbiter, n[i].arbiter) else n[i] == c.roster[i]
      case _ => n == c.roster
  {
    MaxBadgeBounds(c.roster);
    var n := NewRoster(c, act, env, now);
    match act
    case Register(who, stake) =>
      var i := SeatOf(c.roster, who);
      assert n[if i.Some? then i.value else |c.roster|].wallet == who;
    case _ =>
  }
}
