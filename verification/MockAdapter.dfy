/** The adapter object: every action reads the stored rows, checks its guard and emits (apps/api/src/chain/adapter.ts). */
module MockAdapter {
  import opened Basics
  import opened Milestones
  import opened Indexer
  import opened MockChain
  import opened MockRefinement
  import Fees
  import MockRuns

  lemma {:induction false} EmitAllReseat(s: Store, roster: seq<Seat>, events: seq<Event>, base: nat, i: nat, lost: set<nat>, now: nat,
                                         w: Windows)
    ensures EmitAll(s.(roster := roster), events, base, i, lost, now, w) == EmitAll(s, events, base, i, lost, now, w).(roster := roster)
    decreases |events|
  {
    if events != [] {
      EmitAllReseat(Emit(s, events[0], base, i !in lost, now, w), roster, events[1..], base + 1, i + 1, lost, now, w);
    }
  }

  lemma {:induction false} EmitAllConcat(s: Store, a: seq<Event>, b: seq<Event>, base: nat, i: nat, lost: set<nat>, now: nat, w: Windows)
    ensures EmitAll(EmitAll(s, a, base, i, lost, now, w), b, base + |a|, i + |a|, lost, now, w) == EmitAll(s, a + b, base, i, lost, now, w)
    decreases |a|
  {
    if a == [] {
      assert a + b == b;
    } else {
      assert (a + b)[1..] == a[1..] + b;
      EmitAllConcat(Emit(s, a[0], base, i !in lost, now, w), a[1..], b, base + 1, i + 1, lost, now, w);
    }
  }

  lemma {:induction false} EmitAllStep(s: Store, events: seq<Event>, k: nat, base: nat, i: nat, lost: set<nat>, now: nat, w: Windows)
    requires k < |events|
    ensures EmitAll(s, events[k..], base, i, lost, now, w)
      == EmitAll(Emit(s, events[k], base, i !in lost, now, w), events[k + 1..], base + 1, i + 1, lost, now, w)
  {
    assert events[k..][1..] == events[k + 1..];
  }

  predicate Ready(s: Store) {
    StoreOk(s) && FeePot(Logs(s.mirror.ledger)) >= 0
  }

  lemma PerformKeepsReady(s: Store, act: Act, env: Env, now: nat, lost: set<nat>)
    requires EnvOk(env) && Ready(s)
    ensures Ready(Perform(s, act, env, now, lost))
  {
    Refines(s, act, env, now, lost);
    MockRuns.DirectFeePot(Hydrate(s), act, env, now, lost, ActLink(s.mirror, act));
  }

  class MockChainAdapter {
    var mirror: Mirror
    var kvBlock: nat
    var roster: seq<Seat>
    const env: Env

    constructor (m: Mirror, e: Env)
      requires EnvOk(e) && MockRuns.Untouched(Store(m, 0, []))
      ensures Snapshot() == Store(m, 0, []) && env == e && Valid()
    {
      mirror, kvBlock, roster, env := m, 0, [], e;
      MockRuns.UntouchedIsSound(Store(m, 0, []), 0);
    }

    predicate Valid()
      reads this
    {
      EnvOk(env) && Ready(Snapshot())
    }

    function Snapshot(): Store
      reads this
    {
      Store(mirror, kvBlock, roster)
    }

    method Milestones() returns (v: map<nat, MockMilestone>, maxId: nat)
      ensures v == ViewOf(mirror) && maxId == MaxId(mirror.milestones)
    {
      var rows := mirror.milestones;
      v, maxId := map[], 0;
      var i := 0;
      while i < |rows|
        invariant i <= |rows| && v == View(rows[..i], mirror.projects, mirror.users) && maxId == MaxId(rows[..i])
      {
        assert rows[..i + 1][..i] == rows[..i];
        if rows[i].onchainId.Some? {
          v := v[rows[i].onchainId.value := Join(mirror.projects, mirror.users, rows[i])];
          maxId := Max(maxId, rows[i].onchainId.value);
        }
        i := i + 1;
      }
      assert rows[..i] == rows;
    }

    method Ledger() returns (pot: int, maxBlock: nat)
      ensures pot == FeePot(Logs(mirror.ledger)) && maxBlock == MaxBlock(Logs(mirror.ledger))
    {
      var logs := Logs(mirror.ledger);
      var accrued, withdrawn := 0, 0;
      maxBlock := FIRST_BLOCK;
      var i := 0;
      while i < |logs|
        invariant i <= |logs| && accrued - withdrawn == FeePot(logs[..i]) && maxBlock == MaxBlock(logs[..i])
      {
        assert logs[..i + 1][..i] == logs[..i];
        maxBlock := Max(maxBlock, logs[i].block);
        match logs[i].event {
          case MilestoneReleased(_, _, fee) => accrued := accrued + fee;
          case MilestoneSplit(_, _, _, fee) => accrued := accrued + fee;
          case FeeWithdrawn(paid) => withdrawn := withdrawn + paid;
          case _ =>
        }
        i := i + 1;
      }
      assert logs[..i] == logs;
      pot := accrued - withdrawn;
    }

    method LastBadge() returns (badge: nat)
      ensures badge == MaxBadge(roster)
    {
      badge := 0;
      var i := 0;
      while i < |roster|
        invariant i <= |roster| && badge == MaxBadge(roster[..i])
      {
        assert roster[..i + 1][..i] == roster[..i];
        badge := Max(badge, roster[i].arbiter.badge);
        i := i + 1;
      }
      assert roster[..i] == roster;
    }

    /** Derives the chain from what is stored. */
    method State() returns (c: Chain)
      ensures c == Hydrate(Snapshot())
    {
      var v, maxId := Milestones();
      var pot, maxBlock := Ledger();
      var badge := LastBadge();
      c := Chain(Max(maxBlock, kvBlock), pot, maxId + 1, badge + 1, v, roster);
    }

    /** Advances the block, then has the log ingested. */
    method EmitOne(e: Event, base: nat, stored: bool, now: nat)
      modifies this`mirror, this`kvBlock
      ensures Snapshot() == Emit(old(Snapshot()), e, base, stored, now, env.windows)
    {
      kvBlock := base + 1;
      if stored {
        mirror := Ingest(mirror, Log(base + 1, now, base + 1, 0, e), env.windows);
      }
    }

    /** Emits the events one after the other, the first of them as the action's `first`. */
    method EmitEach(events: seq<Event>, base: nat, first: nat, lost: set<nat>, now: nat)
      modifies this`mirror, this`kvBlock
      ensures Snapshot() == EmitAll(old(Snapshot()), events, base, first, lost, now, env.windows)
    {
      var i := 0;
      while i < |events|
        invariant i <= |events|
        invariant EmitAll(Snapshot(), events[i..], base + i, first + i, lost, now, env.windows)
          == EmitAll(old(Snapshot()), events, base, first, lost, now, env.windows)
      {
        EmitAllStep(Snapshot(), events, i, base + i, first + i, lost, now, env.windows);
        EmitOne(events[i], base + i, first + i !in lost, now);
        i := i + 1;
      }
    }

    method Fund(ref: Option<Id>, client: Wallet, freelancer: Wallet, amount: nat, now: nat, lost: set<nat>)
      requires Valid()
      modifies this`mirror, this`kvBlock
      ensures Valid()
      ensures Snapshot() == Perform(old(Snapshot()), Act.Fund(ref, client, freelancer, amount), env, now, lost)
    {
      PerformKeepsReady(Snapshot(), Act.Fund(ref, client, freelancer, amount), env, now, lost);
      var c := State();
      EmitEach([MilestoneFunded(c.nextMilestoneId, ref, client, freelancer, amount)], c.block, 0, lost, now);
    }

    method Submit(id: nat, who: Wallet, now: nat, lost: set<nat>) returns (ok: bool)
      requires Valid()
      modifies this`mirror, this`kvBlock
      ensures Valid() && ok == Allowed(old(Hydrate(Snapshot())), Act.Submit(id, who), env)
      ensures Snapshot() == Perform(old(Snapshot()), Act.Submit(id, who), env, now, lost)
    {
      PerformKeepsReady(Snapshot(), Act.Submit(id, who), env, now, lost);
      var c := State();
      ok := id in c.milestones && c.milestones[id].status == Funded && c.milestones[id].freelancer == who;
      if ok { EmitEach([MilestoneSubmitted(id)], c.block, 0, lost, now); }
    }

    method Approve(id: nat, who: Wallet, now: nat, lost: set<nat>) returns (ok: bool)
      requires Valid()
      modifies this`mirror, this`kvBlock
      ensures Valid() && ok == Allowed(old(Hydrate(Snapshot())), Act.Approve(id, who), env)
      ensures Snapshot() == Perform(old(Snapshot()), Act.Approve(id, who), env, now, lost)
    {
      PerformKeepsReady(Snapshot(), Act.Approve(id, who), env, now, lost);
      var c := State();
      ok := id in c.milestones && c.milestones[id].status == Submitted && c.milestones[id].client == who;
      if ok { EmitEach([Settlement(id, c.milestones[id].amount, Release, env.feeBps)], c.block, 0, lost, now); }
    }

    method Withdraw(id: nat, who: Wallet, now: nat, lost: set<nat>) returns (ok: bool)
      requires Valid()
      modifies this`mirror, this`kvBlock
      ensures Valid() && ok == Allowed(old(Hydrate(Snapshot())), Act.Withdraw(id, who), env)
      ensures Snapshot() == Perform(old(Snapshot()), Act.Withdraw(id, who), env, now, lost)
    {
      PerformKeepsReady(Snapshot(), Act.Withdraw(id, who), env, now, lost);
      var c := State();
      ok := id in c.milestones && c.milestones[id].status in {Released, ResolvedRelease, ResolvedSplit} && c.milestones[id].freelancer == who;
      if ok {
        var amount := c.milestones[id].amount;
        Fees.FeeIsPart(amount, env.feeBps);
        EmitEach([FundsWithdrawn(id, amount - Fees.FeeOn(amount, env.feeBps))], c.block, 0, lost, now);
      }
    }

    method Cancel(id: nat, who: Wallet, now: nat, lost: set<nat>) returns (ok: bool)
      requires Valid()
      modifies this`mirror, this`kvBlock
      ensures Valid() && ok == Allowed(old(Hydrate(Snapshot())), Act.Cancel(id, who), env)
      ensures Snapshot() == Perform(old(Snapshot()), Act.Cancel(id, who), env, now, lost)
    {
      PerformKeepsReady(Snapshot(), Act.Cancel(id, who), env, now, lost);
      var c := State();
      ok := id in c.milestones && c.milestones[id].status == Funded && c.milestones[id].client == who;
      if ok { EmitEach([MilestoneCancelled(id, c.milestones[id].amount)], c.block, 0, lost, now); }
    }

    /** The first three eligible wallets that are no party, in roster order. */
    method Panel(m: MockMilestone, now: nat) returns (panel: seq<Wallet>)
      ensures panel == Take(Pool(roster, m, env, now), 3)
    {
      var pool := [];
      var i := 0;
      while i < |roster|
        invariant i <= |roster| && pool == Pool(roster[..i], m, env, now)
      {
        assert roster[..i + 1][..i] == roster[..i];
        if Eligible(roster[i], m, env, now) { pool := pool + [roster[i].wallet]; }
        i := i + 1;
      }
      assert roster[..i] == roster;
      panel := if |pool| <= 3 then pool else pool[..3];
    }

    method OpenDispute(id: nat, who: Wallet, now: nat, lost: set<nat>) returns (ok: bool)
      requires Valid()
      modifies this`mirror, this`kvBlock
      ensures Valid() && ok == Allowed(old(Hydrate(Snapshot())), Act.OpenDispute(id, who), env)
      ensures Snapshot() == Perform(old(Snapshot()), Act.OpenDispute(id, who), env, now, lost)
    {
      PerformKeepsReady(Snapshot(), Act.OpenDispute(id, who), env, now, lost);
      var c := State();
      ok := id in c.milestones && c.milestones[id].status in {Funded, Submitted}
        && (c.milestones[id].client == who || c.milestones[id].freelancer == who);
      if ok {
        var panel := Panel(c.milestones[id], now);
        EmitEach([DisputeOpened(id, who), ArbitersSelected(id, 0, Padded(panel), |panel|)], c.block, 0, lost, now);
      }
    }

    method WithdrawFees(now: nat, lost: set<nat>)
      requires Valid()
      modifies this`mirror, this`kvBlock
      ensures Valid() && Snapshot() == Perform(old(Snapshot()), Act.WithdrawFees, env, now, lost)
    {
      PerformKeepsReady(Snapshot(), Act.WithdrawFees, env, now, lost);
      var c := State();
      var treasury := c.feePot / 2;
      EmitEach([FeeWithdrawn(treasury), FeeWithdrawn(c.feePot - treasury)], c.block, 0, lost, now);
    }

    method SaveArbiter(w: Wallet, a: Arbiter)
      modifies this`roster
      ensures roster == Seated(old(roster), w, a)
    {
      var i := SeatOf(roster, w);
      roster := if i.Some? then roster[i.value := Seat(w, a)] else roster + [Seat(w, a)];
    }

    method RegisterArbiter(who: Wallet, stake: Option<nat>, now: nat, lost: set<nat>) returns (ok: bool)
      requires Valid()
      modifies this`mirror, this`kvBlock, this`roster
      ensures Valid() && ok == Allowed(old(Hydrate(Snapshot())), Act.Register(who, stake), env)
      ensures Snapshot() == Perform(old(Snapshot()), Act.Register(who, stake), env, now, lost)
    {
      PerformKeepsReady(Snapshot(), Act.Register(who, stake), env, now, lost);
      ghost var was := Snapshot();
      var c := State();
      var deposit := if stake.Some? then stake.value else env.minStake;
      ok := !IsRegistered(c.roster, who) && deposit >= env.minStake;
      if ok {
        var i := SeatOf(c.roster, who);
        var badge := if i.Some? && c.roster[i.value].arbiter.badge != 0 then c.roster[i.value].arbiter.badge else c.nextBadge;
        SaveArbiter(who, Arbiter(true, badge, 100, deposit, false, false, now / 1000));
        EmitAllReseat(was, roster, [LedgerOnly("ArbiterRegistered", who), LedgerOnly("StakeDeposited", who)], c.block, 0, lost, now, env.windows);
        EmitEach([LedgerOnly("ArbiterRegistered", who), LedgerOnly("StakeDeposited", who)], c.block, 0, lost, now);
      }
    }

    method DeregisterArbiter(who: Wallet, now: nat, lost: set<nat>) returns (ok: bool)
      requires Valid()
      modifies this`mirror, this`kvBlock, this`roster
      ensures Valid() && ok == Allowed(old(Hydrate(Snapshot())), Act.Deregister(who), env)
      ensures Snapshot() == Perform(old(Snapshot()), Act.Deregister(who), env, now, lost)
    {
      PerformKeepsReady(Snapshot(), Act.Deregister(who), env, now, lost);
      ghost var was := Snapshot();
      var c := State();
      ok := IsRegistered(c.roster, who);
      if ok {
        var a := c.roster[SeatOf(c.roster, who).value].arbiter;
        SaveArbiter(who, a.(registered := false, stake := 0, unstaking := false, locked := false));
        EmitAllReseat(was, roster, [LedgerOnly("ArbiterDeregistered", who)], c.block, 0, lost, now, env.windows);
        EmitEach([LedgerOnly("ArbiterDeregistered", who)], c.block, 0, lost, now);
      }
    }

    /** Emits the last two events on a roster with the new score. */
    method Rescore(who: Wallet, a: Arbiter, scored: seq<Event>, base: nat, first: nat, lost: set<nat>, now: nat)
      modifies this`mirror, this`kvBlock, this`roster
      ensures Snapshot() == EmitAll(old(Snapshot()), scored, base, first, lost, now, env.windows).(roster := Seated(old(roster), who, a))
    {
      EmitAllReseat(Snapshot(), Seated(roster, who, a), scored, base, first, lost, now, env.windows);
      SaveArbiter(who, a);
      EmitEach(scored, base, first, lost, now);
    }

    /** The round's events and the settlement, then the new score, then the score's two events. */
    method Resolve(id: nat, who: Wallet, outcome: Outcome, withinSla: bool, now: nat, lost: set<nat>) returns (ok: bool)
      requires Valid()
      modifies this`mirror, this`kvBlock, this`roster
      ensures Valid() && ok == Allowed(old(Hydrate(Snapshot())), Act.Resolve(id, who, outcome, withinSla), env)
      ensures Snapshot() == Perform(old(Snapshot()), Act.Resolve(id, who, outcome, withinSla), env, now, lost)
    {
      PerformKeepsReady(Snapshot(), Act.Resolve(id, who, outcome, withinSla), env, now, lost);
      var c := State();
      ok := id in c.milestones && c.milestones[id].status == Disputed && IsRegistered(c.roster, who);
      if ok { ResolveDispute(c, id, who, outcome, withinSla, now, lost); }
    }

    method ResolveDispute(c: Chain, id: nat, who: Wallet, outcome: Outcome, withinSla: bool, now: nat, lost: set<nat>)
      requires EnvOk(env) && c == Hydrate(Snapshot()) && Allowed(c, Act.Resolve(id, who, outcome, withinSla), env)
      modifies this`mirror, this`kvBlock, this`roster
      ensures Snapshot() == Perform(old(Snapshot()), Act.Resolve(id, who, outcome, withinSla), env, now, lost)
    {
      var o := OutcomeIndex(outcome);
      var settled := [VoteRevealed(id, 0, who, o), DisputeFinalized(id, o, true), DisputeResolved(id, who, o),
                      Settlement(id, c.milestones[id].amount, outcome, env.feeBps)];
      var scored := [LedgerOnly("TrustScoreUpdated", who), LedgerOnly("ScoreChanged", who)];
      EmitAllConcat(Snapshot(), settled, scored, c.block, 0, lost, now, env.windows);
      assert settled + scored == Plan(c, Act.Resolve(id, who, outcome, withinSla), env, now);
      EmitEach(settled, c.block, 0, lost, now);
      var a := c.roster[SeatOf(c.roster, who).value].arbiter;
      var score := NewScore(a.score, withinSla);
      Rescore(who, a.(score := score, locked := score < env.minScore), scored, c.block + |settled|, 0 + |settled|, lost, now);
    }
  }
}
