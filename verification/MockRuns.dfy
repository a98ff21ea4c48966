/** What every run of the mock chain keeps: block numbers, money and settlements. */
module MockRuns {
  import opened Basics
  import opened Milestones
  import opened Indexer
  import opened MockChain
  import opened MockRefinement
  import Fees

  // ---- Block numbers ----

  /** The logs an action's events leave, from its `i`th on. */
  function Kept(events: seq<Event>, base: nat, i: nat, lost: set<nat>, now: nat): seq<Log>
    decreases |events|
  {
    if events == [] then []
    else OneKept(events[0], base, i, lost, now) + Kept(events[1..], base + 1, i + 1, lost, now)
  }

  function OneKept(e: Event, base: nat, i: nat, lost: set<nat>, now: nat): seq<Log> {
    if i in lost then [] else [Log(base + 1, now, base + 1, 0, e)]
  }

  lemma {:induction false} KeptCons(logs: seq<Log>, events: seq<Event>, base: nat, i: nat, lost: set<nat>, now: nat)
    requires events != []
    ensures logs + OneKept(events[0], base, i, lost, now) + Kept(events[1..], base + 1, i + 1, lost, now)
      == logs + Kept(events, base, i, lost, now)
  {
  }

  lemma EmitFacts(s: Store, e: Event, base: nat, i: nat, lost: set<nat>, now: nat, w: Windows)
    requires StoreOk(s) && base == Block(s) && Emittable(s.mirror, e)
    ensures var t := Emit(s, e, base, i !in lost, now, w);
      && StoreOk(t) && Block(t) == base + 1 == t.kvBlock
      && Logs(t.mirror.ledger) == Logs(s.mirror.ledger) + OneKept(e, base, i, lost, now)
  {
    EmitIsEmitted(s, e, base, i !in lost, now, w);
    EmittedBooks(s, Emit(s, e, base, i !in lost, now, w), e, base, i !in lost, now);
  }

  lemma {:induction false} EmitAllLedger(s: Store, events: seq<Event>, base: nat, i: nat, lost: set<nat>, now: nat, w: Windows)
    requires StoreOk(s) && base == Block(s) && Planned(s.mirror, events)
    ensures var t := EmitAll(s, events, base, i, lost, now, w);
      && Logs(t.mirror.ledger) == Logs(s.mirror.ledger) + Kept(events, base, i, lost, now)
      && t.kvBlock == if events == [] then s.kvBlock else base + |events|
    decreases |events|
  {
    if events == [] {
      assert Logs(s.mirror.ledger) + [] == Logs(s.mirror.ledger);
    } else {
      var t := Emit(s, events[0], base, i !in lost, now, w);
      EmitFacts(s, events[0], base, i, lost, now, w);
      SteadyIsPlanned(t.mirror, events[1..]);
      EmitAllLedger(t, events[1..], base + 1, i + 1, lost, now, w);
      KeptCons(Logs(s.mirror.ledger), events, base, i, lost, now);
    }
  }

  /** Every stored event of the plan is there under its own number, and nothing else is. */
  lemma {:induction false} KeptExactly(events: seq<Event>, base: nat, i: nat, lost: set<nat>, now: nat, l: Log, k: nat)
    requires l.block == base + 1 + k
    ensures l in Kept(events, base, i, lost, now) <==> (
      k < |events| && (i + k) !in lost && l == Log(l.block, now, l.block, 0, events[k]))
    decreases |events|
  {
    if events != [] {
      var rest := Kept(events[1..], base + 1, i + 1, lost, now);
      assert l in Kept(events, base, i, lost, now) <==> l in OneKept(events[0], base, i, lost, now) || l in rest;
      if k == 0 {
        KeptLater(events[1..], base + 1, i + 1, lost, now, l);
      } else {
        KeptExactly(events[1..], base + 1, i + 1, lost, now, l, k - 1);
        assert i + 1 + (k - 1) == i + k;
      }
    }
  }

  lemma {:induction false} KeptLater(events: seq<Event>, base: nat, i: nat, lost: set<nat>, now: nat, l: Log)
    requires l.block <= base
    ensures l !in Kept(events, base, i, lost, now)
    decreases |events|
  {
    if events != [] { KeptLater(events[1..], base + 1, i + 1, lost, now, l); }
  }

  /** Blocks strictly increase along the ledger. */
  predicate Increasing(logs: seq<Log>) {
    logs == [] || (Increasing(logs[..|logs| - 1]) && (|logs| > 1 ==> logs[|logs| - 2].block < logs[|logs| - 1].block))
  }

  lemma IncreasingAppend(logs: seq<Log>, l: Log)
    requires Increasing(logs) && MaxBlock(logs) < l.block
    ensures Increasing(logs + [l])
  {
    assert (logs + [l])[..|logs|] == logs;
    if logs != [] { assert MaxBlock(logs) >= logs[|logs| - 1].block; }
  }

  lemma OneReaches(logs: seq<Log>, e: Event, base: nat, i: nat, lost: set<nat>, now: nat)
    requires MaxBlock(logs) <= base
    ensures var more := logs + OneKept(e, base, i, lost, now);
      MaxBlock(more) <= base + 1 && (MaxBlock(more) == base + 1 <==> i !in lost)
  {
    if i in lost {
      assert logs + OneKept(e, base, i, lost, now) == logs;
    } else {
      AppendLog(logs, Log(base + 1, now, base + 1, 0, e));
    }
  }

  lemma OneIncreases(logs: seq<Log>, e: Event, base: nat, i: nat, lost: set<nat>, now: nat)
    requires Increasing(logs) && MaxBlock(logs) <= base
    ensures var more := logs + OneKept(e, base, i, lost, now);
      Increasing(more) && MaxBlock(more) <= base + 1
  {
    OneReaches(logs, e, base, i, lost, now);
    if i in lost {
      assert logs + OneKept(e, base, i, lost, now) == logs;
    } else {
      IncreasingAppend(logs, Log(base + 1, now, base + 1, 0, e));
    }
  }

  lemma {:induction false} KeptIncreases(logs: seq<Log>, all: seq<Log>, events: seq<Event>, base: nat, i: nat, lost: set<nat>, now: nat)
    requires Increasing(logs) && MaxBlock(logs) <= base && all == logs + Kept(events, base, i, lost, now)
    ensures Increasing(all)
    decreases |events|
  {
    if events == [] {
      assert all == logs;
    } else {
      OneIncreases(logs, events[0], base, i, lost, now);
      KeptCons(logs, events, base, i, lost, now);
      KeptIncreases(logs + OneKept(events[0], base, i, lost, now), all, events[1..], base + 1, i + 1, lost, now);
    }
  }

  lemma {:induction false} MaxOfKept(logs: seq<Log>, events: seq<Event>, base: nat, i: nat, lost: set<nat>, now: nat)
    requires MaxBlock(logs) <= base
    ensures MaxBlock(logs + Kept(events, base, i, lost, now)) <= base + |events|
    decreases |events|
  {
    if events == [] {
      assert logs + [] == logs;
    } else {
      OneReaches(logs, events[0], base, i, lost, now);
      MaxOfKept(logs + OneKept(events[0], base, i, lost, now), events[1..], base + 1, i + 1, lost, now);
      KeptCons(logs, events, base, i, lost, now);
    }
  }

  lemma {:induction false} KeptSnoc(events: seq<Event>, base: nat, i: nat, lost: set<nat>, now: nat, at: nat, last: nat)
    requires events != [] && at == base + |events| - 1 && last == i + |events| - 1
    ensures Kept(events, base, i, lost, now)
      == Kept(events[..|events| - 1], base, i, lost, now) + OneKept(events[|events| - 1], at, last, lost, now)
    decreases |events|
  {
    if |events| == 1 {
      assert at == base && last == i && events[1..] == [] && events[..0] == [];
    } else {
      KeptSnoc(events[1..], base + 1, i + 1, lost, now, at, last);
      assert events[1..][..|events| - 2] == events[..|events| - 1][1..];
    }
  }

  /** The ledger reaches the last number exactly when the last event was stored. */
  lemma {:induction false} KeptReaches(logs: seq<Log>, events: seq<Event>, base: nat, lost: set<nat>, now: nat, at: nat, last: nat)
    requires MaxBlock(logs) <= base && events != [] && at == base + |events| - 1 && last == |events| - 1
    ensures MaxBlock(logs + Kept(events, base, 0, lost, now)) == at + 1 <==> last !in lost
  {
    var init := events[..|events| - 1];
    MaxOfKept(logs, init, base, 0, lost, now);
    KeptSnoc(events, base, 0, lost, now, at, last);
    var some := logs + Kept(init, base, 0, lost, now);
    OneReaches(some, events[|events| - 1], at, last, lost, now);
    assert logs + Kept(events, base, 0, lost, now) == some + OneKept(events[|events| - 1], at, last, lost, now);
  }

  /** The store after a plan of emissions. */
  predicate Numbers(s: Store, t: Store, plan: seq<Event>, lost: set<nat>, now: nat)
    requires plan != []
  {
    && Logs(t.mirror.ledger) == Logs(s.mirror.ledger) + Kept(plan, Block(s), 0, lost, now)
    && Increasing(Logs(t.mirror.ledger))
    && t.kvBlock == Block(t) == Block(s) + |plan|
    && (MaxBlock(Logs(t.mirror.ledger)) == Block(t) <==> (|plan| - 1) !in lost)
  }

  lemma {:induction false} EmitAllNumbers(s: Store, plan: seq<Event>, lost: set<nat>, now: nat, w: Windows)
    requires StoreOk(s) && Planned(s.mirror, plan) && plan != [] && Increasing(Logs(s.mirror.ledger))
    ensures Numbers(s, EmitAll(s, plan, Block(s), 0, lost, now, w), plan, lost, now)
  {
    EmitAllLedger(s, plan, Block(s), 0, lost, now, w);
    var logs := Logs(s.mirror.ledger);
    var all := logs + Kept(plan, Block(s), 0, lost, now);
    KeptIncreases(logs, all, plan, Block(s), 0, lost, now);
    KeptReaches(logs, plan, Block(s), lost, now, Block(s) + |plan| - 1, |plan| - 1);
    MaxOfKept(Logs(s.mirror.ledger), plan, Block(s), 0, lost, now);
  }

  /**
   * The events of an allowed action take the next numbers without gap or
   * repeat. The counter alone gives the block afterwards; the ledger alone gives
   * it exactly when the action's last event was stored.
   */
  lemma {:induction false} BlocksAreConsecutive(s: Store, act: Act, env: Env, now: nat, lost: set<nat>)
    requires StoreOk(s) && EnvOk(env) && Allowed(Hydrate(s), act, env) && Increasing(Logs(s.mirror.ledger))
    ensures Plan(Hydrate(s), act, env, now) != []
    ensures Numbers(s, Perform(s, act, env, now, lost), Plan(Hydrate(s), act, env, now), lost, now)
  {
    PlanIsPlanned(s, act, env, now);
    EmitAllNumbers(s, Plan(Hydrate(s), act, env, now), lost, now, env.windows);
  }

  // ---- Money ----

  /** What an event takes out of the escrow: to a party or as the fee. */
  function Paid(e: Event): nat {
    match e
    case MilestoneReleased(_, principal, fee) => principal + fee
    case MilestoneRefunded(_, refunded) => refunded
    case MilestoneSplit(_, clientAmount, freelancerAmount, fee) => clientAmount + freelancerAmount + fee
    case MilestoneCancelled(_, refunded) => refunded
    case _ => 0
  }

  function PaidOut(logs: seq<Log>): nat {
    if logs == [] then 0 else PaidOut(logs[..|logs| - 1]) + Paid(logs[|logs| - 1].event)
  }

  /** The fundings that were linked to a milestone. */
  function FundedIn(ledger: seq<LedgerRow>): nat {
    if ledger == [] then 0 else FundedIn(ledger[..|ledger| - 1]) + FundedBy(ledger[|ledger| - 1])
  }

  function FundedBy(r: LedgerRow): nat {
    if r.log.event.MilestoneFunded? && r.project.Some? then r.log.event.amount else 0
  }

  /** What a milestone still holds; a split of an odd amount leaves one wei behind. */
  function Held(x: MockMilestone): nat {
    if IsLive(x.status) then x.amount else if x.status == ResolvedSplit then x.amount % 2 else 0
  }

  function HeldMap(v: map<nat, MockMilestone>): map<nat, int> {
    map id | id in v :: Held(v[id])
  }

  /** All that was funded is still held or was paid out. */
  ghost predicate Balanced(m: Mirror) {
    FundedIn(m.ledger) == MapSum(HeldMap(ViewOf(m))) + PaidOut(Logs(m.ledger))
  }

  predicate Settles(e: Event) {
    e.MilestoneReleased? || e.MilestoneRefunded? || e.MilestoneSplit? || e.MilestoneCancelled?
  }

  function Settlements(logs: seq<Log>, id: nat): nat {
    if logs == [] then 0
    else
      var e := logs[|logs| - 1].event;
      Settlements(logs[..|logs| - 1], id) + if Settles(e) && e.milestone == id then 1 else 0
  }

  predicate IsSettled(v: map<nat, MockMilestone>, id: nat) {
    id in v && IsTerminal(v[id].status)
  }

  /** The ledger settles a milestone once if it is terminal, and else never. */
  predicate SettledOnce(m: Mirror, id: nat) {
    Settlements(Logs(m.ledger), id) == if IsSettled(ViewOf(m), id) then 1 else 0
  }

  /** The event is legal where it is emitted, and pays what the milestone holds. */
  predicate Fits(v: map<nat, MockMilestone>, e: Event) {
    match e
    case MilestoneReleased(id, principal, fee) => id in v && v[id].status in {Submitted, Disputed} && principal + fee == v[id].amount
    case MilestoneRefunded(id, refunded) => id in v && v[id].status == Disputed && refunded == v[id].amount
    case MilestoneSplit(id, c, f, fee) => id in v && v[id].status == Disputed && c + f + fee == v[id].amount - v[id].amount % 2
    case MilestoneCancelled(id, refunded) => id in v && v[id].status == Funded && refunded == v[id].amount
    case _ => true
  }

  lemma HeldUpdate(v: map<nat, MockMilestone>, id: nat, x: MockMilestone)
    ensures MapSum(HeldMap(v[id := x])) == MapSum(HeldMap(v)) + Held(x) - if id in v then Held(v[id]) else 0
  {
    MapSumUpdate(HeldMap(v), id, Held(x));
    assert HeldMap(v[id := x]) == HeldMap(v)[id := Held(x)];
  }

  /** What a move takes out of a milestone. */
  function Drop(v: map<nat, MockMilestone>, id: nat, kind: Kind): int {
    if id in v && NextStatus(v[id].status, kind).Some? then
      Held(v[id]) - Held(v[id].(status := NextStatus(v[id].status, kind).value))
    else 0
  }

  lemma MovedDrops(v: map<nat, MockMilestone>, id: nat, kind: Kind)
    ensures MapSum(HeldMap(Moved(v, id, kind))) == MapSum(HeldMap(v)) - Drop(v, id, kind)
  {
    if id in v && NextStatus(v[id].status, kind).Some? {
      HeldUpdate(v, id, v[id].(status := NextStatus(v[id].status, kind).value));
    }
  }

  /** The milestone and the move of an event that moves one. */
  function MoveOf(e: Event): Option<(nat, Kind)> {
    match e
    case MilestoneSubmitted(id) => Some((id, KSubmitted))
    case MilestoneReleased(id, _, _) => Some((id, KReleased))
    case MilestoneRefunded(id, _) => Some((id, KRefunded))
    case MilestoneSplit(id, _, _, _) => Some((id, KSplit))
    case MilestoneCancelled(id, _) => Some((id, KCancelled))
    case DisputeOpened(id, _) => Some((id, KDisputed))
    case _ => None
  }

  lemma ShownIsMoved(v: map<nat, MockMilestone>, e: Event, link: Option<MockMilestone>)
    requires Steady(e)
    ensures Shown(v, e, link) == match MoveOf(e) case None => v case Some(t) => Moved(v, t.0, t.1)
  {
  }

  /** A fitting move takes exactly what the event pays. */
  lemma FitsDrops(v: map<nat, MockMilestone>, e: Event)
    requires Fits(v, e) && Steady(e)
    ensures Paid(e) == match MoveOf(e) case None => 0 case Some(t) => Drop(v, t.0, t.1)
  {
  }

  /** A fitting event takes out of the milestones exactly what it pays. */
  lemma ShownBalances(v: map<nat, MockMilestone>, e: Event, link: Option<MockMilestone>)
    requires Fits(v, e) && Steady(e)
    ensures MapSum(HeldMap(Shown(v, e, link))) == MapSum(HeldMap(v)) - Paid(e)
  {
    ShownIsMoved(v, e, link);
    FitsDrops(v, e);
    if MoveOf(e).Some? { MovedDrops(v, MoveOf(e).value.0, MoveOf(e).value.1); }
  }

  /** A fitting event settles its milestone exactly when its ledger entry counts as a settlement. */
  lemma ShownSettles(v: map<nat, MockMilestone>, e: Event, link: Option<MockMilestone>, id: nat)
    requires Fits(v, e) && Steady(e)
    ensures IsSettled(Shown(v, e, link), id) <==> IsSettled(v, id) || (Settles(e) && e.milestone == id)
    ensures Settles(e) ==> !IsSettled(v, e.milestone)
  {
    ShownIsMoved(v, e, link);
  }

  // ---- One emission ----

  lemma AppendSums(logs: seq<Log>, l: Log, id: nat)
    ensures PaidOut(logs + [l]) == PaidOut(logs) + Paid(l.event)
    ensures Settlements(logs + [l], id) == Settlements(logs, id) + if Settles(l.event) && l.event.milestone == id then 1 else 0
  {
    assert (logs + [l])[..|logs|] == logs;
  }

  lemma {:induction false} FundedSame(a: seq<LedgerRow>, b: seq<LedgerRow>)
    requires |a| == |b| && forall i :: 0 <= i < |a| ==> FundedBy(a[i]) == FundedBy(b[i])
    ensures FundedIn(a) == FundedIn(b)
  {
    if a != [] { FundedSame(a[..|a| - 1], b[..|b| - 1]); }
  }

  lemma FundedOfApply(m: Mirror, l: Log, w: Windows)
    requires !l.event.MilestoneFunded?
    ensures FundedIn(Apply(Recorded(m, l), l, w).ledger) == FundedIn(m.ledger)
  {
    var r, n := Recorded(m, l), Apply(Recorded(m, l), l, w);
    LedgerOfApply(r, l, w);
    forall i | 0 <= i < |r.ledger|
      ensures FundedBy(n.ledger[i]) == FundedBy(r.ledger[i])
    {
    }
    FundedSame(n.ledger, r.ledger);
    assert r.ledger[..|r.ledger| - 1] == m.ledger;
  }

  lemma FundedOfFunding(m: Mirror, l: Log)
    requires l.event.MilestoneFunded? && LinkOk(m.milestones) && l.event.milestone == MaxId(m.milestones) + 1
    ensures FundedIn(ApplyFunded(Recorded(m, l), l).ledger) == FundedIn(m.ledger) + if Agreement(m, l.event).Some? then l.event.amount else 0
  {
    var n := ApplyFunded(Recorded(m, l), l);
    NextIdIsFree(m.milestones);
    assert n.ledger[..|n.ledger| - 1] == m.ledger;
  }

  lemma FundedOfEmission(s: Store, e: Event, base: nat, now: nat, w: Windows)
    requires StoreOk(s) && base >= Block(s) && Emittable(s.mirror, e)
    ensures FundedIn(Emit(s, e, base, true, now, w).mirror.ledger)
      == FundedIn(s.mirror.ledger) + if e.MilestoneFunded? && Agreement(s.mirror, e).Some? then e.amount else 0
  {
    var l := Log(base + 1, now, base + 1, 0, e);
    StoredEmission(s, e, base, now, w);
    if e.MilestoneFunded? { FundedOfFunding(s.mirror, l); } else { FundedOfApply(s.mirror, l, w); }
  }

  lemma ShownEmission(m: Mirror, e: Event)
    requires Emittable(m, e) && Fits(ViewOf(m), e)
    ensures MapSum(HeldMap(Shown(ViewOf(m), e, Agreement(m, e)))) + Paid(e)
      == MapSum(HeldMap(ViewOf(m))) + if e.MilestoneFunded? && Agreement(m, e).Some? then e.amount else 0
  {
    if e.MilestoneFunded? {
      if Agreement(m, e).Some? {
        NextIdIsFree(m.milestones);
        ViewLookup(m.milestones, m.projects, m.users, e.milestone);
        HeldUpdate(ViewOf(m), e.milestone, Agreement(m, e).value);
      }
    } else {
      ShownBalances(ViewOf(m), e, Agreement(m, e));
    }
  }

  lemma EmissionBalances(s: Store, t: Store, e: Event, base: nat, stored: bool, now: nat)
    requires Emitted(s, t, e, base, stored, now) && Emittable(s.mirror, e) && Fits(ViewOf(s.mirror), e) && Balanced(s.mirror)
    requires stored ==> (
      FundedIn(t.mirror.ledger) == FundedIn(s.mirror.ledger) + if e.MilestoneFunded? && Agreement(s.mirror, e).Some? then e.amount else 0)
    ensures Balanced(t.mirror)
  {
    if stored {
      AppendSums(Logs(s.mirror.ledger), Log(base + 1, now, base + 1, 0, e), 0);
      ShownEmission(s.mirror, e);
    }
  }

  /** Whether the event settles the milestone, as a count. */
  function SettlesIt(e: Event, id: nat): nat {
    if Settles(e) && e.milestone == id then 1 else 0
  }

  lemma ShownSettlesOnce(m: Mirror, e: Event, id: nat)
    requires Emittable(m, e) && Fits(ViewOf(m), e)
    ensures (if IsSettled(Shown(ViewOf(m), e, Agreement(m, e)), id) then 1 else 0) == (if IsSettled(ViewOf(m), id) then 1 else 0) + SettlesIt(e, id)
  {
    if e.MilestoneFunded? {
      NextIdIsFree(m.milestones);
      ViewLookup(m.milestones, m.projects, m.users, e.milestone);
    } else {
      ShownSettles(ViewOf(m), e, Agreement(m, e), id);
    }
  }

  lemma EmissionSettlesOnce(s: Store, t: Store, e: Event, base: nat, stored: bool, now: nat, id: nat)
    requires Emitted(s, t, e, base, stored, now) && Emittable(s.mirror, e) && Fits(ViewOf(s.mirror), e) && SettledOnce(s.mirror, id)
    ensures SettledOnce(t.mirror, id)
  {
    if stored {
      AppendSums(Logs(s.mirror.ledger), Log(base + 1, now, base + 1, 0, e), id);
      ShownSettlesOnce(s.mirror, e, id);
    }
  }

  /** The books are in order: nothing is lost, and the milestone was settled at most once. */
  ghost predicate InOrder(m: Mirror, id: nat) {
    Balanced(m) && SettledOnce(m, id)
  }

  lemma EmitKeepsOrder(s: Store, e: Event, base: nat, stored: bool, now: nat, w: Windows, id: nat)
    requires StoreOk(s) && base >= Block(s) && Emittable(s.mirror, e) && Fits(ViewOf(s.mirror), e) && InOrder(s.mirror, id)
    ensures InOrder(Emit(s, e, base, stored, now, w).mirror, id)
  {
    EmitIsEmitted(s, e, base, stored, now, w);
    if stored { FundedOfEmission(s, e, base, now, w); }
    EmissionBalances(s, Emit(s, e, base, stored, now, w), e, base, stored, now);
    EmissionSettlesOnce(s, Emit(s, e, base, stored, now, w), e, base, stored, now, id);
  }

  // ---- Whole plans ----

  /** Events that settle nothing and fund nothing. */
  predicate AllNeutral(events: seq<Event>) {
    events == [] || (Steady(events[0]) && !Settles(events[0]) && AllNeutral(events[1..]))
  }

  /** Idle events, then at most one that moves money or a status, then neutral ones. */
  predicate AllFit(v: map<nat, MockMilestone>, events: seq<Event>)
    decreases |events|
  {
    events == [] || (Fits(v, events[0]) && if Idle(events[0]) then AllFit(v, events[1..]) else AllNeutral(events[1..]))
  }

  lemma {:induction false} NeutralFits(v: map<nat, MockMilestone>, events: seq<Event>)
    requires AllNeutral(events)
    ensures AllFit(v, events)
    decreases |events|
  {
    if events != [] { NeutralFits(v, events[1..]); }
  }

  lemma IdleShowsNothing(s: Store, t: Store, e: Event, base: nat, stored: bool, now: nat)
    requires Emitted(s, t, e, base, stored, now) && Idle(e)
    ensures ViewOf(t.mirror) == ViewOf(s.mirror)
  {
  }

  lemma {:induction false} EmitAllKeepsOrder(s: Store, events: seq<Event>, base: nat, i: nat, lost: set<nat>, now: nat, w: Windows, id: nat)
    requires StoreOk(s) && base == Block(s) && Planned(s.mirror, events) && AllFit(ViewOf(s.mirror), events) && InOrder(s.mirror, id)
    ensures InOrder(EmitAll(s, events, base, i, lost, now, w).mirror, id)
    decreases |events|
  {
    if events != [] {
      var stored := i !in lost;
      var t := Emit(s, events[0], base, stored, now, w);
      EmitFacts(s, events[0], base, i, lost, now, w);
      EmitKeepsOrder(s, events[0], base, stored, now, w, id);
      SteadyIsPlanned(t.mirror, events[1..]);
      if Idle(events[0]) {
        EmitIsEmitted(s, events[0], base, stored, now, w);
        IdleShowsNothing(s, t, events[0], base, stored, now);
      } else {
        NeutralFits(ViewOf(t.mirror), events[1..]);
      }
      EmitAllKeepsOrder(t, events[1..], base + 1, i + 1, lost, now, w, id);
    }
  }

  lemma {:induction false} IdlesFit(v: map<nat, MockMilestone>, idles: seq<Event>, rest: seq<Event>)
    requires AllIdle(idles) && AllFit(v, rest)
    ensures AllFit(v, idles + rest)
    decreases |idles|
  {
    if idles == [] {
      assert idles + rest == rest;
    } else {
      assert (idles + rest)[1..] == idles[1..] + rest;
      IdlesFit(v, idles[1..], rest);
    }
  }

  lemma {:induction false} IdlesAreNeutral(idles: seq<Event>)
    requires AllIdle(idles)
    ensures AllNeutral(idles)
  {
    if idles != [] { IdlesAreNeutral(idles[1..]); }
  }

  lemma SettlementFits(c: Chain, id: nat, outcome: Outcome, feeBps: nat)
    requires feeBps <= 10_000 && id in c.milestones
    requires c.milestones[id].status == Disputed || (c.milestones[id].status == Submitted && outcome == Release)
    ensures Fits(c.milestones, Settlement(id, c.milestones[id].amount, outcome, feeBps))
    ensures !Idle(Settlement(id, c.milestones[id].amount, outcome, feeBps))
  {
  }

  lemma {:induction false} PlanFits(c: Chain, act: Act, env: Env, now: nat)
    requires EnvOk(env) && Allowed(c, act, env)
    ensures AllFit(c.milestones, Plan(c, act, env, now))
  {
    var plan := Plan(c, act, env, now);
    match act
    case Approve(id, _) => SettlementFits(c, id, Release, env.feeBps);
    case OpenDispute(_, _) => assert plan[1..][1..] == [];
    case Register(_, _) => assert plan[1..][1..] == [];
    case WithdrawFees => assert plan[1..][1..] == [];
    case Resolve(id, who, outcome, _) =>
      ResolvePlan(c, act, env, now);
      SettlementFits(c, id, outcome, env.feeBps);
      var e := Settlement(id, c.milestones[id].amount, outcome, env.feeBps);
      IdlesAreNeutral(Scores(who));
      assert ([e] + Scores(who))[1..] == Scores(who);
      IdlesFit(c.milestones, Votes(id, who, OutcomeIndex(outcome)), [e] + Scores(who));
    case _ =>
  }

  /** No action, whatever of it fails to store, loses money or settles a milestone twice. */
  lemma {:induction false} PerformKeepsOrder(s: Store, act: Act, env: Env, now: nat, lost: set<nat>, id: nat)
    requires StoreOk(s) && EnvOk(env) && InOrder(s.mirror, id)
    ensures InOrder(Perform(s, act, env, now, lost).mirror, id)
  {
    if Allowed(Hydrate(s), act, env) {
      var plan := Plan(Hydrate(s), act, env, now);
      PlanIsPlanned(s, act, env, now);
      PlanFits(Hydrate(s), act, env, now);
      EmitAllKeepsOrder(s, plan, Block(s), 0, lost, now, env.windows, id);
    }
  }

  // ---- Runs ----

  datatype Step =
    | TakeAction(act: Act, now: nat, lost: set<nat>)
    | NewMilestone(id: Id, projectId: Id, amount: nat)

  function NewRow(id: Id, projectId: Id, amount: nat): MilestoneRow {
    MilestoneRow(id, projectId, amount, None, None, PendingFunding, None, None, None, None, None, None, None)
  }

  /** An action, or a milestone drawn up by people under an unused row id. */
  function Next(s: Store, step: Step, env: Env): Store
    requires EnvOk(env)
  {
    match step
    case TakeAction(act, now, lost) => Perform(s, act, env, now, lost)
    case NewMilestone(id, projectId, amount) =>
      if FindAt(s.mirror.milestones, HasId(id)).Some? then s
      else s.(mirror := s.mirror.(milestones := s.mirror.milestones + [NewRow(id, projectId, amount)]))
  }

  function Run(s: Store, steps: seq<Step>, env: Env): Store
    requires EnvOk(env)
  {
    if steps == [] then s else Next(Run(s, steps[..|steps| - 1], env), steps[|steps| - 1], env)
  }

  /** The same step of the simple escrow; `link` is the milestone a funding creates. */
  function DirectNext(c: Chain, step: Step, env: Env, link: Option<MockMilestone>): Chain
    requires EnvOk(env)
  {
    match step
    case TakeAction(act, now, lost) => Direct(c, act, env, now, lost, link)
    case NewMilestone(_, _, _) => c
  }

  function StepLink(m: Mirror, step: Step): Option<MockMilestone> {
    if step.TakeAction? then ActLink(m, step.act) else None
  }

  /** The milestones the fundings of a run create, step by step. */
  function Links(s: Store, steps: seq<Step>, env: Env): (links: seq<Option<MockMilestone>>)
    requires EnvOk(env)
    ensures |links| == |steps|
  {
    if steps == [] then []
    else Links(s, steps[..|steps| - 1], env) + [StepLink(Run(s, steps[..|steps| - 1], env).mirror, steps[|steps| - 1])]
  }

  function DirectRun(c: Chain, steps: seq<Step>, env: Env, links: seq<Option<MockMilestone>>): Chain
    requires EnvOk(env) && |links| == |steps|
  {
    if steps == [] then c
    else
      var n := |steps| - 1;
      DirectNext(DirectRun(c, steps[..n], env, links[..n]), steps[n], env, links[n])
  }

  lemma NewRowShowsNothing(s: Store, id: Id, projectId: Id, amount: nat)
    ensures var t := s.(mirror := s.mirror.(milestones := s.mirror.milestones + [NewRow(id, projectId, amount)]));
      && Hydrate(t) == Hydrate(s)
      && (StoreOk(s) ==> StoreOk(t))
  {
    var rows := s.mirror.milestones;
    assert (rows + [NewRow(id, projectId, amount)])[..|rows|] == rows;
  }

  lemma NextRefines(s: Store, step: Step, env: Env)
    requires StoreOk(s) && EnvOk(env)
    ensures StoreOk(Next(s, step, env))
    ensures Hydrate(Next(s, step, env)) == DirectNext(Hydrate(s), step, env, StepLink(s.mirror, step))
  {
    match step
    case TakeAction(act, now, lost) => Refines(s, act, env, now, lost);
    case NewMilestone(id, projectId, amount) => NewRowShowsNothing(s, id, projectId, amount);
  }

  /**
   * Over every run the chain derived from the stored rows is the book of the
   * simple escrow: block, fee pot, next milestone, next badge, milestones, roster.
   */
  lemma {:induction false} RunRefines(s: Store, steps: seq<Step>, env: Env)
    requires StoreOk(s) && EnvOk(env)
    ensures StoreOk(Run(s, steps, env))
    ensures Hydrate(Run(s, steps, env)) == DirectRun(Hydrate(s), steps, env, Links(s, steps, env))
  {
    if steps != [] {
      var n := |steps| - 1;
      RunRefines(s, steps[..n], env);
      NextRefines(Run(s, steps[..n], env), steps[n], env);
      assert Links(s, steps, env)[..n] == Links(s, steps[..n], env);
    }
  }

  lemma DirectFeePot(c: Chain, act: Act, env: Env, now: nat, lost: set<nat>, link: Option<MockMilestone>)
    requires EnvOk(env) && c.feePot >= 0
    ensures Direct(c, act, env, now, lost, link).feePot >= 0
  {
  }

  /** The two withdrawals add up to the pot, and when both are stored it is empty. */
  lemma WithdrawFeesEmptiesPot(s: Store, env: Env, now: nat, lost: set<nat>)
    requires StoreOk(s) && EnvOk(env) && Hydrate(s).feePot >= 0
    ensures var plan := Plan(Hydrate(s), WithdrawFees, env, now);
      && |plan| == 2 && plan[0].FeeWithdrawn? && plan[1].FeeWithdrawn?
      && plan[0].paid + plan[1].paid == Hydrate(s).feePot && 0 <= plan[1].paid - plan[0].paid <= 1
    ensures 0 !in lost && 1 !in lost ==> Hydrate(Perform(s, WithdrawFees, env, now, lost)).feePot == 0
  {
    Refines(s, WithdrawFees, env, now, lost);
  }

  /** A funding moves the next id on exactly when it was linked and stored; otherwise the id is given out again. */
  lemma FundingUsesItsId(s: Store, env: Env, now: nat, lost: set<nat>, act: Act)
    requires StoreOk(s) && EnvOk(env) && act.Fund?
    ensures var before, after := Hydrate(s), Hydrate(Perform(s, act, env, now, lost));
      && after.block == before.block + 1
      && (after.nextMilestoneId == before.nextMilestoneId + 1 <==> 0 !in lost && ActLink(s.mirror, act).Some?)
      && (after.nextMilestoneId != before.nextMilestoneId + 1 ==> after == before.(block := before.block + 1))
  {
    Refines(s, act, env, now, lost);
  }

  /** What a store keeps over every run. */
  ghost predicate Sound(s: Store, id: nat) {
    && StoreOk(s) && InOrder(s.mirror, id)
    && Increasing(Logs(s.mirror.ledger))
    && FeePot(Logs(s.mirror.ledger)) >= 0
  }

  lemma PerformKeepsSound(s: Store, act: Act, env: Env, now: nat, lost: set<nat>, id: nat)
    requires Sound(s, id) && EnvOk(env)
    ensures Sound(Perform(s, act, env, now, lost), id)
  {
    Refines(s, act, env, now, lost);
    PerformKeepsOrder(s, act, env, now, lost, id);
    DirectFeePot(Hydrate(s), act, env, now, lost, ActLink(s.mirror, act));
    if Allowed(Hydrate(s), act, env) { BlocksAreConsecutive(s, act, env, now, lost); }
  }

  /** A database no mock action has touched. */
  predicate Untouched(s: Store) {
    s.mirror.ledger == [] && LinkOk(s.mirror.milestones) && forall i :: 0 <= i < |s.mirror.milestones| ==> s.mirror.milestones[i].onchainId.None?
  }

  lemma {:induction false} UntouchedView(rows: seq<MilestoneRow>, ps: seq<ProjectRow>, us: seq<UserRow>)
    requires forall i :: 0 <= i < |rows| ==> rows[i].onchainId.None?
    ensures View(rows, ps, us) == map[] && MaxId(rows) == 0
  {
    if rows != [] { UntouchedView(rows[..|rows| - 1], ps, us); }
  }

  lemma UntouchedIsSound(s: Store, id: nat)
    requires Untouched(s)
    ensures Sound(s, id)
  {
    UntouchedView(s.mirror.milestones, s.mirror.projects, s.mirror.users);
    assert Logs(s.mirror.ledger) == [];
    assert HeldMap(ViewOf(s.mirror)) == map[];
  }

  /**
   * After any run from an untouched database everything funded is still held or
   * was paid out, the ledger settles no milestone twice, its blocks increase, and
   * the fee pot is not negative.
   */
  lemma {:induction false} RunIsSound(s: Store, steps: seq<Step>, env: Env, id: nat)
    requires Untouched(s) && EnvOk(env)
    ensures Sound(Run(s, steps, env), id)
  {
    if steps == [] {
      UntouchedIsSound(s, id);
    } else {
      var t := Run(s, steps[..|steps| - 1], env);
      var step := steps[|steps| - 1];
      RunIsSound(s, steps[..|steps| - 1], env, id);
      if step.TakeAction? {
        PerformKeepsSound(t, step.act, env, step.now, step.lost, id);
      } else {
        NewRowShowsNothing(t, step.id, step.projectId, step.amount);
      }
    }
  }

  // ---- What is held, in two parts ----

  function LockedMap(v: map<nat, MockMilestone>): map<nat, int> {
    map id | id in v :: if IsLive(v[id].status) then v[id].amount else 0
  }

  /** One for every split of an odd amount. */
  function OddMap(v: map<nat, MockMilestone>): map<nat, int> {
    map id | id in v :: if v[id].status == ResolvedSplit && v[id].amount % 2 == 1 then 1 else 0
  }

  /**
   * Conservation, spelled out: total funded is what unsettled milestones hold,
   * plus what was paid to parties and as fees, plus one wei per split of an odd amount.
   */
  lemma Conservation(s: Store, steps: seq<Step>, env: Env)
    requires Untouched(s) && EnvOk(env)
    ensures var m := Run(s, steps, env).mirror;
      FundedIn(m.ledger) == MapSum(LockedMap(ViewOf(m))) + PaidOut(Logs(m.ledger)) + MapSum(OddMap(ViewOf(m)))
  {
    RunIsSound(s, steps, env, 0);
    var v := ViewOf(Run(s, steps, env).mirror);
    MapSumAdd(LockedMap(v), OddMap(v), HeldMap(v));
  }
}
