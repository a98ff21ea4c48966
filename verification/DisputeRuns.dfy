/**
 * Whole runs of one dispute. The contract's calls drive the case; the gates of
 * the web surface are compared with the guards those calls check.
 */
module DisputeRuns {
  import opened Basics
  import opened Milestones
  import opened Arbitration
  import opened DisputeGates

  /** How money left the milestone. */
  datatype Payout = NoQuorum | Executed(outcome: nat)

  datatype Case = Case(
    id: nat,
    client: Address,
    freelancer: Address,
    status: Status,
    clock: nat,
    d: Dispute,
    payouts: seq<Payout>)

  datatype Rules = Rules(w: Windows, disputeFee: nat)

  datatype Act =
    | Tick(secs: nat)
    | Commit(round: nat, sender: Address, hash: Digest)
    | Reveal(round: nat, sender: Address, outcome: nat, salt: nat)
    | Resolve
    | ResolveAppeal
    | Finalize
    | OpenAppeal(sender: Address, value: nat, panel: seq<Address>, stakes: map<Address, nat>)

  function Tallied(c: Case): Case
    requires Shaped(c.d)
  {
    if NoQuorumRefund(c.d)
    then c.(d := Tally(c.d), status := ResolvedRefund, payouts := c.payouts + [NoQuorum])
    else c.(d := Tally(c.d))
  }

  function Lift(c: Case, r: Result<Dispute, Error>): Result<Case, Error> {
    match r
    case Ok(d) => Ok(c.(d := d))
    case Err(e) => Err(e)
  }

  /** One call, or the passing of time. */
  function Do(c: Case, a: Act, rules: Rules): Result<Case, Error>
    requires Shaped(c.d)
  {
    match a
    case Tick(secs) => Ok(c.(clock := c.clock + secs))
    case Commit(round, sender, hash) => Lift(c, CommitVote(c.d, round, sender, hash, c.clock))
    case Reveal(round, sender, outcome, salt) => Lift(c, RevealVote(c.d, c.id, round, sender, outcome, salt, c.clock))
    case Resolve =>
      (match TallyGuard(c.d, c.status, false, c.clock)
       case Some(e) => Err(e)
       case None => Ok(Tallied(c)))
    case ResolveAppeal =>
      (match TallyGuard(c.d, c.status, true, c.clock)
       case Some(e) => Err(e)
       case None => Ok(Tallied(c)))
    case Finalize =>
      (match FinalizeGuard(c.d, c.status, c.clock, rules.w.appeal)
       case Err(e) => Err(e)
       case Ok(winner) => Ok(c.(status := SettledStatus(winner), payouts := c.payouts + [Executed(winner)])))
    case OpenAppeal(sender, value, panel, stakes) =>
      Lift(c, Appeal(c.d, c.status, sender == c.client || sender == c.freelancer, value, rules.disputeFee,
                     panel, stakes, c.clock, rules.w))
  }

  /** The registry's draw never seats a party or one arbiter twice. */
  predicate FairDraw(a: Act, client: Address, freelancer: Address) {
    a.OpenAppeal? ==> ValidPanel(a.panel, client, freelancer)
  }

  predicate FairDraws(acts: seq<Act>, client: Address, freelancer: Address) {
    acts == [] || (FairDraw(acts[0], client, freelancer) && FairDraws(acts[1..], client, freelancer))
  }

  /** A reverted call changes nothing. */
  function Next(c: Case, a: Act, rules: Rules): (c': Case)
    requires Shaped(c.d)
    ensures Shaped(c'.d) && c'.id == c.id && c'.client == c.client && c'.freelancer == c.freelancer
  {
    match Do(c, a, rules)
    case Ok(c') => c'
    case Err(_) => c
  }

  function Run(c: Case, acts: seq<Act>, rules: Rules): (c': Case)
    requires Shaped(c.d)
    ensures Shaped(c'.d)
    decreases |acts|
  {
    if acts == [] then c else Run(Next(c, acts[0], rules), acts[1..], rules)
  }

  // ---- Invariant ----

  /** The status and the payouts fit the dispute. */
  ghost predicate MoneyOk(d: Dispute, status: Status, payouts: seq<Payout>)
    requires Shaped(d)
  {
    && StatusOk(d, status)
    && (status == Disputed ==> payouts == [])
    && (status != Disputed ==>
          || (payouts == [NoQuorum] && status == ResolvedRefund && d.round == 0 && !Quorate(Current(d)))
          || (Standing(d.rounds).Some? && payouts == [Executed(Standing(d.rounds).value)]))
  }

  ghost predicate CaseOk(c: Case) {
    DisputeOk(c.d, c.id, c.clock) && MoneyOk(c.d, c.status, c.payouts)
  }

  lemma VoteNextOk(c: Case, a: Act, rules: Rules)
    requires CaseOk(c) && (a.Commit? || a.Reveal?)
    ensures CaseOk(Next(c, a, rules))
  {
    if Do(c, a, rules).Ok? {
      match a
      case Commit(round, sender, hash) => CommitVoteOk(c.d, c.id, round, sender, hash, c.clock);
      case Reveal(round, sender, outcome, salt) => RevealVoteOk(c.d, c.id, round, sender, outcome, salt, c.clock);
    }
  }

  lemma TallyNextOk(c: Case, a: Act, rules: Rules)
    requires CaseOk(c) && (a.Resolve? || a.ResolveAppeal?)
    ensures CaseOk(Next(c, a, rules))
  {
    if Do(c, a, rules).Ok? { TallyOk(c.d, c.id, c.clock, a.ResolveAppeal?); }
  }

  lemma FinalizedMoneyOk(d: Dispute, payouts: seq<Payout>, winner: nat)
    requires Shaped(d) && MoneyOk(d, Disputed, payouts) && Current(d).resolved && winner == Current(d).winner
    requires Standing(d.rounds).Some? ==> winner == Standing(d.rounds).value
    ensures MoneyOk(d, SettledStatus(winner), payouts + [Executed(winner)])
  {
  }

  lemma FinalizeNextOk(c: Case, rules: Rules)
    requires CaseOk(c)
    ensures CaseOk(Next(c, Finalize, rules))
  {
    var guard := FinalizeGuard(c.d, c.status, c.clock, rules.w.appeal);
    if guard.Ok? { FinalizedMoneyOk(c.d, c.payouts, guard.value); }
  }

  lemma NextOk(c: Case, a: Act, rules: Rules)
    requires CaseOk(c) && FairDraw(a, c.client, c.freelancer)
    ensures CaseOk(Next(c, a, rules))
  {
    match a
    case Tick(secs) => TickOk(c.d, c.id, c.clock, c.clock + secs);
    case Commit(_, _, _) => VoteNextOk(c, a, rules);
    case Reveal(_, _, _, _) => VoteNextOk(c, a, rules);
    case Resolve => TallyNextOk(c, a, rules);
    case ResolveAppeal => TallyNextOk(c, a, rules);
    case Finalize => FinalizeNextOk(c, rules);
    case OpenAppeal(sender, value, panel, stakes) =>
      if Do(c, a, rules).Ok? {
        AppealOk(c.d, c.id, sender == c.client || sender == c.freelancer, value, rules.disputeFee, panel, stakes,
                 c.clock, rules.w, c.client, c.freelancer);
      }
  }

  lemma {:induction false} RunOk(c: Case, acts: seq<Act>, rules: Rules)
    requires CaseOk(c) && FairDraws(acts, c.client, c.freelancer)
    ensures CaseOk(Run(c, acts, rules))
    decreases |acts|
  {
    if acts != [] {
      NextOk(c, acts[0], rules);
      RunOk(Next(c, acts[0], rules), acts[1..], rules);
    }
  }

  function Opened(id: nat, client: Address, freelancer: Address, opener: Address, value: nat, panel: seq<Address>,
                  stakes: map<Address, nat>, now: nat, rules: Rules): Case {
    Case(id, client, freelancer, Disputed, now, Open(opener, value, panel, stakes, now, rules.w), [])
  }

  // ---- Gates against guards ----

  /** What the web surface reads: the round, and the milestone status only once the round is tallied. */
  function View(c: Case): RoundState
    requires Shaped(c.d)
  {
    var r := Current(c.d);
    RoundState(|r.arbiters|, r.commitCount, r.revealCount, r.tally, r.commitDeadline, r.revealDeadline, r.resolved, r.winner,
               Some(if r.resolved then Ordinal(c.status) else DISPUTED_STATUS))
  }

  /** What the gates need to know about a reachable case. */
  predicate GateFacts(c: Case) {
    && Shaped(c.d)
    && |Current(c.d).arbiters| > 0
    && Current(c.d).commitDeadline <= Current(c.d).revealDeadline
    && (Current(c.d).revealCount > 0 || Current(c.d).resolved ==> c.clock > Current(c.d).commitDeadline)
    && (!Current(c.d).resolved ==> c.status == Disputed)
    && (forall a :: a in Current(c.d).commits ==> a in Current(c.d).arbiters)
  }

  predicate CommitGateExact(c: Case, g: Gates, sender: Address, hash: Digest)
    requires Shaped(c.d)
  {
    var r := Current(c.d);
    CommitVote(c.d, c.d.round, sender, hash, c.clock).Ok? <==>
      g.canCommit && sender in r.arbiters && sender !in r.commits && hash != Zero
  }

  predicate RevealGateExact(c: Case, g: Gates, sender: Address, outcome: nat, salt: nat)
    requires Shaped(c.d)
  {
    var r := Current(c.d);
    RevealVote(c.d, c.id, c.d.round, sender, outcome, salt, c.clock).Ok? <==>
      g.canReveal && sender !in r.votes && outcome <= SPLIT && sender in r.commits
      && r.commits[sender] == Of(Ballot(outcome, salt, sender, c.id, c.d.round))
  }

  predicate AppealGateExact(c: Case, g: Gates, sender: Address, value: nat, panel: seq<Address>, stakes: map<Address, nat>,
                            rules: Rules)
    requires Shaped(c.d)
  {
    Do(c, OpenAppeal(sender, value, panel, stakes), rules).Ok? <==>
      g.appealOpen && (sender == c.client || sender == c.freelancer) && value >= rules.disputeFee
      && panel != [] && c.d.appealCount < MAX_APPEALS
  }

  ghost predicate GatesExact(c: Case, g: Gates, rules: Rules)
    requires Shaped(c.d)
  {
    && (forall sender, hash :: CommitGateExact(c, g, sender, hash))
    && (forall sender, outcome, salt :: RevealGateExact(c, g, sender, outcome, salt))
    && (Do(c, if c.d.round == 0 then Resolve else ResolveAppeal, rules).Ok? <==> g.canTally)
    && (Do(c, Finalize, rules).Ok? <==> g.canFinalize)
    && (forall sender, value, panel, stakes :: AppealGateExact(c, g, sender, value, panel, stakes, rules))
  }

  /**
   * In every reachable case each gate is open exactly when the contract accepts
   * the call from a caller entitled to make it. The one gate that says less is
   * the appeal: it does not know the limit of two appeals.
   */
  lemma GatesMatchGuards(c: Case, rules: Rules)
    requires GateFacts(c)
    ensures GatesExact(c, RoundGates(View(c), c.clock, rules.w.appeal), rules)
  {
    var g := RoundGates(View(c), c.clock, rules.w.appeal);
    forall sender, hash
      ensures CommitGateExact(c, g, sender, hash)
    {
    }
    forall sender, outcome, salt
      ensures RevealGateExact(c, g, sender, outcome, salt)
    {
    }
    forall sender, value, panel, stakes
      ensures AppealGateExact(c, g, sender, value, panel, stakes, rules)
    {
    }
  }

  /** The appeal gate offers an appeal the contract refuses whatever is sent exactly when both appeals are used up. */
  lemma AppealGateGap(c: Case, rules: Rules)
    requires GateFacts(c)
    requires RoundGates(View(c), c.clock, rules.w.appeal).appealOpen
    ensures (forall a: Act :: a.OpenAppeal? ==> Do(c, a, rules).Err?) <==> c.d.appealCount >= MAX_APPEALS
  {
    if c.d.appealCount < MAX_APPEALS {
      assert Do(c, OpenAppeal(c.client, rules.disputeFee, [1], map[]), rules).Ok?;
    }
  }

  /**
   * The countdown the surface shows ends at the last moment an appeal is accepted,
   * and is shown exactly for a tallied round; live means that the money is in dispute.
   */
  lemma AppealCountdown(c: Case, rules: Rules, t: nat)
    requires GateFacts(c)
    ensures var g := RoundGates(View(c), c.clock, rules.w.appeal);
      && (g.live <==> c.status == Disputed) && (g.appealEndsAt.Some? <==> Current(c.d).resolved)
      && (g.live && g.appealEndsAt.Some? && c.d.appealCount < 2 ==>
            (Do(c.(clock := t), OpenAppeal(c.client, rules.disputeFee, [1], map[]), rules).Ok? <==> t <= g.appealEndsAt.value))
  {
  }

  /** A failed status read closes no gate the contract would honour, and can mislead only after the payout. */
  lemma FailedReadHidesNothing(c: Case, rules: Rules)
    requires GateFacts(c)
    ensures var g := RoundGates(View(c), c.clock, rules.w.appeal);
      var blind := RoundGates(View(c).(milestoneStatus := None), c.clock, rules.w.appeal);
      && (g.canTally ==> blind.canTally) && (g.canFinalize ==> blind.canFinalize) && (g.appealOpen ==> blind.appealOpen)
      && (g != blind.(live := g.live) ==> c.status != Disputed)
  {
  }

  /** Something is offered exactly while the money is in dispute, and never two things that exclude each other. */
  lemma GatesPartition(c: Case, rules: Rules)
    requires GateFacts(c)
    ensures var g := RoundGates(View(c), c.clock, rules.w.appeal);
      && (g.canCommit || g.canReveal || g.canTally || g.canFinalize || g.appealOpen <==> c.status == Disputed)
      && !(g.canCommit && g.canReveal) && !(g.canCommit && g.canTally)
      && !(g.canFinalize && (g.canCommit || g.canReveal || g.canTally || g.appealOpen))
      && (Current(c.d).resolved && c.status == Disputed ==> (g.canFinalize <==> !g.appealOpen))
  {
  }

  /** Once offered, finalizing stays offered until someone finalizes. */
  lemma FinalizeStaysOffered(c: Case, a: Act, rules: Rules)
    requires GateFacts(c) && RoundGates(View(c), c.clock, rules.w.appeal).canFinalize
    ensures RoundGates(View(Next(c, a, rules)), Next(c, a, rules).clock, rules.w.appeal).canFinalize
         || (a == Finalize && Next(c, a, rules).status == SettledStatus(Current(c.d).winner))
  {
  }

  lemma ReachableGateFacts(c: Case)
    requires CaseOk(c)
    ensures GateFacts(c)
  {
  }

  // ---- What every run keeps ----

  lemma VotersPartition(votes: map<Address, nat>)
    requires forall a :: a in votes ==> votes[a] <= SPLIT
    ensures |Voters(votes, 0)| + |Voters(votes, 1)| + |Voters(votes, 2)| == |votes|
  {
    assert votes.Keys == Voters(votes, 0) + Voters(votes, 1) + Voters(votes, 2);
    assert Voters(votes, 0) !! Voters(votes, 1);
    assert Voters(votes, 0) + Voters(votes, 1) !! Voters(votes, 2);
    assert |votes| == |votes.Keys|;
  }

  ghost predicate Safe(e: Case, rules: Rules) {
    && Shaped(e.d)
    && var r := Current(e.d);
    && r.revealCount <= r.commitCount <= |r.arbiters| <= MAX_ARBITERS
    && |r.tally| == 3 && r.tally[0] + r.tally[1] + r.tally[2] == r.revealCount
    && (r.revealCount > 0 ==> !RoundGates(View(e), e.clock, rules.w.appeal).canCommit)
    && |e.d.rounds| <= 1 + MAX_APPEALS
    && |e.payouts| <= 1
    && (e.payouts == [] <==> e.status == Disputed)
    && (e.payouts == [NoQuorum] ==>
          e.d.round == 0 && r.revealCount < RequiredReveals(|r.arbiters|) && e.status == ResolvedRefund)
    && (forall o: nat :: e.payouts == [Executed(o)] ==> Standing(e.d.rounds) == Some(o) && e.status == SettledStatus(o))
  }

  lemma CaseIsSafe(e: Case, rules: Rules)
    requires CaseOk(e)
    ensures Safe(e, rules)
  {
    VotersPartition(Current(e.d).votes);
  }

  /**
   * Every run of every dispute: counts nest, the tally is the reveals, no reveal
   * precedes the end of the commit window, at most two appeals, and money leaves
   * at most once, by the no-quorum refund of an unappealed round or by executing
   * the ruling of the latest round that reached its quorum. At its end the gates
   * are the contract's guards.
   */
  lemma RunIsSafe(c: Case, value: nat, panel: seq<Address>, stakes: map<Address, nat>, rules: Rules, acts: seq<Act>)
    requires panel != [] && ValidPanel(panel, c.client, c.freelancer)
    requires c == Opened(c.id, c.client, c.freelancer, c.d.openedBy, value, panel, stakes, c.clock, rules)
    requires FairDraws(acts, c.client, c.freelancer)
    ensures Safe(Run(c, acts, rules), rules)
    ensures var e := Run(c, acts, rules); GatesExact(e, RoundGates(View(e), e.clock, rules.w.appeal), rules)
  {
    OpenOk(c.d.openedBy, value, panel, stakes, c.clock, rules.w, c.id, c.client, c.freelancer);
    RunOk(c, acts, rules);
    CaseIsSafe(Run(c, acts, rules), rules);
    ReachableGateFacts(Run(c, acts, rules));
    GatesMatchGuards(Run(c, acts, rules), rules);
  }

  /** Rounds only grow: commits freeze when their window closes, votes never change, a tallied round never changes. */
  predicate RoundGrows(r: Round, s: Round, clock: nat) {
    && s.arbiters == r.arbiters && s.weights == r.weights
    && s.commitDeadline == r.commitDeadline && s.revealDeadline == r.revealDeadline
    && (forall a :: a in r.commits ==> a in s.commits && s.commits[a] == r.commits[a])
    && (forall a :: a in r.votes ==> a in s.votes && s.votes[a] == r.votes[a])
    && (clock > r.commitDeadline ==> s.commits == r.commits)
    && (r.resolved ==> s == r)
  }

  predicate Grows(c: Case, e: Case) {
    && c.clock <= e.clock
    && |c.d.rounds| <= |e.d.rounds|
    && (forall k :: 0 <= k < |c.d.rounds| ==> RoundGrows(c.d.rounds[k], e.d.rounds[k], c.clock))
    && c.payouts <= e.payouts
    && (c.status != Disputed ==> e.status == c.status)
  }

  lemma SameGrows(c: Case, e: Case)
    requires c.clock <= e.clock && e.d.rounds == c.d.rounds && c.payouts <= e.payouts && (c.status != Disputed ==> e.status == c.status)
    ensures Grows(c, e)
  {
  }

  /** Only the current round is replaced, by one that grew. */
  lemma CurrentGrows(c: Case, d: Dispute, e: Case)
    requires Shaped(c.d) && Shaped(d) && d.round == c.d.round && d.rounds == c.d.rounds[c.d.round := Current(d)]
    requires RoundGrows(Current(c.d), Current(d), c.clock)
    requires e.d == d && e.clock == c.clock && c.payouts <= e.payouts && (c.status != Disputed ==> e.status == c.status)
    ensures Grows(c, e)
  {
    forall k | 0 <= k < |c.d.rounds|
      ensures RoundGrows(c.d.rounds[k], d.rounds[k], c.clock)
    {
    }
  }

  lemma CommitGrows(c: Case, a: Act, rules: Rules)
    requires Shaped(c.d) && a.Commit? && Do(c, a, rules).Ok?
    ensures Grows(c, Next(c, a, rules))
  {
    CurrentGrows(c, Next(c, a, rules).d, Next(c, a, rules));
  }

  lemma RevealGrows(c: Case, a: Act, rules: Rules)
    requires Shaped(c.d) && a.Reveal? && Do(c, a, rules).Ok?
    ensures Grows(c, Next(c, a, rules))
  {
    CurrentGrows(c, Next(c, a, rules).d, Next(c, a, rules));
  }

  lemma TallyGrows(c: Case, a: Act, rules: Rules)
    requires Shaped(c.d) && (a.Resolve? || a.ResolveAppeal?) && Do(c, a, rules).Ok?
    ensures Grows(c, Next(c, a, rules))
  {
    CurrentGrows(c, Tally(c.d), Next(c, a, rules));
  }

  lemma AppealGrows(c: Case, a: Act, rules: Rules)
    requires Shaped(c.d) && a.OpenAppeal? && Do(c, a, rules).Ok?
    ensures Grows(c, Next(c, a, rules))
  {
    var e := Next(c, a, rules);
    forall k | 0 <= k < |c.d.rounds|
      ensures e.d.rounds[k] == c.d.rounds[k]
    {
    }
  }

  lemma NextGrows(c: Case, a: Act, rules: Rules)
    requires Shaped(c.d)
    ensures Grows(c, Next(c, a, rules))
  {
    if Do(c, a, rules).Err? {
      SameGrows(c, c);
    } else {
      match a
      case Tick(_) => SameGrows(c, Next(c, a, rules));
      case Finalize => SameGrows(c, Next(c, a, rules));
      case Commit(_, _, _) => CommitGrows(c, a, rules);
      case Reveal(_, _, _, _) => RevealGrows(c, a, rules);
      case Resolve => TallyGrows(c, a, rules);
      case ResolveAppeal => TallyGrows(c, a, rules);
      case OpenAppeal(_, _, _, _) => AppealGrows(c, a, rules);
    }
  }

  lemma GrowsTransitive(c: Case, e: Case, f: Case)
    requires Grows(c, e) && Grows(e, f)
    ensures Grows(c, f)
  {
    forall k | 0 <= k < |c.d.rounds|
      ensures RoundGrows(c.d.rounds[k], f.d.rounds[k], c.clock)
    {
      assert RoundGrows(c.d.rounds[k], e.d.rounds[k], c.clock);
      assert RoundGrows(e.d.rounds[k], f.d.rounds[k], e.clock);
    }
  }

  /** Over any run, what was committed, revealed, tallied or paid is never rewritten. */
  lemma {:induction false} RunGrows(c: Case, acts: seq<Act>, rules: Rules)
    requires Shaped(c.d)
    ensures Grows(c, Run(c, acts, rules))
    decreases |acts|
  {
    if acts != [] {
      NextGrows(c, acts[0], rules);
      RunGrows(Next(c, acts[0], rules), acts[1..], rules);
      GrowsTransitive(c, Next(c, acts[0], rules), Run(c, acts, rules));
    }
  }

  lemma {:induction false} EarlierAt(rounds: seq<Round>, id: nat, k: nat)
    requires EarlierOk(rounds, id) && k < |rounds|
    ensures RoundOk(rounds[k], id, k)
  {
    var n := |rounds| - 1;
    if k < n { EarlierAt(rounds[..n], id, k); }
  }

  lemma RoundAt(d: Dispute, id: nat, earlier: seq<Round>, k: nat)
    requires Shaped(d) && earlier == d.rounds[..d.round] && EarlierOk(earlier, id) && RoundOk(Current(d), id, d.round) && k < |d.rounds|
    ensures RoundOk(d.rounds[k], id, k)
  {
    if k < d.round {
      EarlierAt(earlier, id, k);
      assert earlier[k] == d.rounds[k];
    } else {
      assert d.rounds[k] == Current(d);
    }
  }

  lemma {:induction false} RunKeepsId(c: Case, acts: seq<Act>, rules: Rules)
    requires Shaped(c.d)
    ensures Run(c, acts, rules).id == c.id
    decreases |acts|
  {
    if acts != [] { RunKeepsId(Next(c, acts[0], rules), acts[1..], rules); }
  }

  /**
   * A commit binds: whatever happens afterwards, in this round or in appeals, the
   * only vote that can ever be counted for an arbiter who committed is the one its
   * hash was made of, for this very milestone and round.
   */
  lemma CommitBinds(c: Case, acts: seq<Act>, rules: Rules, k: nat, a: Address)
    requires CaseOk(c) && FairDraws(acts, c.client, c.freelancer)
    requires k < |c.d.rounds| && a in c.d.rounds[k].commits
    ensures var hash := c.d.rounds[k].commits[a];
      var e := Run(c, acts, rules);
      k < |e.d.rounds| && (a in e.d.rounds[k].votes ==>
        hash.Of? && hash.ballot == Ballot(e.d.rounds[k].votes[a], hash.ballot.salt, a, c.id, k))
  {
    var e := Run(c, acts, rules);
    RunOk(c, acts, rules);
    RunGrows(c, acts, rules);
    RunKeepsId(c, acts, rules);
    assert RoundGrows(c.d.rounds[k], e.d.rounds[k], c.clock);
    RoundAt(e.d, e.id, e.d.rounds[..e.d.round], k);
  }

  // ---- Progress ----

  lemma TallyEventually(c: Case, rules: Rules)
    requires GateFacts(c) && !Current(c.d).resolved && c.clock > Current(c.d).revealDeadline
    ensures var e := Next(c, if c.d.round == 0 then Resolve else ResolveAppeal, rules);
      Current(e.d).resolved && Current(e.d).revealDeadline == Current(c.d).revealDeadline && e.clock == c.clock
  {
  }

  lemma FinalizeEventually(c: Case, rules: Rules)
    requires Shaped(c.d) && Current(c.d).resolved && c.clock > Current(c.d).revealDeadline + rules.w.appeal
    ensures Next(c, Finalize, rules).status != Disputed
  {
  }

  lemma RunStep(c: Case, a: Act, rest: seq<Act>, rules: Rules)
    requires Shaped(c.d)
    ensures Run(c, [a] + rest, rules) == Run(Next(c, a, rules), rest, rules)
  {
    assert ([a] + rest)[1..] == rest;
  }

  /** A disputed milestone can always be settled by anyone at all: wait, tally, wait, finalize. */
  lemma AlwaysSettles(c: Case, rules: Rules) returns (acts: seq<Act>)
    requires CaseOk(c)
    ensures |acts| <= 4 && (forall a :: a in acts ==> a.Tick? || a.Resolve? || a.ResolveAppeal? || a.Finalize?)
    ensures Run(c, acts, rules).status != Disputed
  {
    ReachableGateFacts(c);
    var wait := Tick(Current(c.d).revealDeadline + rules.w.appeal + 1);
    var tally := if c.d.round == 0 then Resolve else ResolveAppeal;
    var c1 := Next(c, wait, rules);
    if Current(c.d).resolved {
      FinalizeEventually(c1, rules);
      acts := [wait] + ([Finalize] + []);
      RunStep(c1, Finalize, [], rules);
      RunStep(c, wait, [Finalize] + [], rules);
    } else {
      TallyEventually(c1, rules);
      var c2 := Next(c1, tally, rules);
      FinalizeEventually(c2, rules);
      acts := [wait] + ([tally] + ([Finalize] + []));
      RunStep(c2, Finalize, [], rules);
      RunStep(c1, tally, [Finalize] + [], rules);
      RunStep(c, wait, [tally] + ([Finalize] + []), rules);
    }
  }

  // ---- The appeal gate's gap is reached ----

  function TenSeconds(): Rules {
    Rules(Windows(10, 10, 10), 0)
  }

  /** One arbiter, seated at second 0. */
  function SmallCase(): Case {
    Opened(9, 1, 2, 1, 0, [3], map[], 0, TenSeconds())
  }

  /** Decided, and still open to an appeal. */
  predicate Appealable(c: Case, appeals: nat) {
    && Shaped(c.d) && c.client == 1 && c.status == Disputed && c.d.appealCount == appeals
    && Current(c.d).resolved && c.clock <= Current(c.d).revealDeadline + 10
  }

  lemma FirstRuling() returns (acts: seq<Act>)
    ensures Appealable(Run(SmallCase(), acts, TenSeconds()), 0) && FairDraws(acts, 1, 2)
  {
    var rules := TenSeconds();
    var ballot := Of(Ballot(RELEASE, 5, 3, 9, 0));
    var c0 := SmallCase();
    var c1 := Next(c0, Commit(0, 3, ballot), rules);
    assert Current(c1.d) == Committed(Current(c0.d), 3, ballot);
    var c2 := Next(c1, Tick(11), rules);
    var c3 := Next(c2, Reveal(0, 3, RELEASE, 5), rules);
    assert Current(c3.d) == Revealed(Current(c2.d), 3, RELEASE);
    var c4 := Next(c3, Resolve, rules);
    assert Current(c4.d).resolved && c4.status == Disputed && c4.clock == 11;
    acts := [Commit(0, 3, ballot)] + ([Tick(11)] + ([Reveal(0, 3, RELEASE, 5)] + ([Resolve] + [])));
    RunStep(c3, Resolve, [], rules);
    RunStep(c2, Reveal(0, 3, RELEASE, 5), [Resolve] + [], rules);
    RunStep(c1, Tick(11), [Reveal(0, 3, RELEASE, 5)] + ([Resolve] + []), rules);
    RunStep(c0, Commit(0, 3, ballot), [Tick(11)] + ([Reveal(0, 3, RELEASE, 5)] + ([Resolve] + [])), rules);
    NoAppealsIsFair(acts);
  }

  lemma {:induction false} NoAppealsIsFair(acts: seq<Act>)
    requires forall i :: 0 <= i < |acts| ==> !acts[i].OpenAppeal?
    ensures FairDraws(acts, 1, 2)
  {
    if acts != [] { NoAppealsIsFair(acts[1..]); }
  }

  /** An appeal nobody votes in leaves the case open to the next one. */
  function AppealActs(): seq<Act> {
    [OpenAppeal(1, 0, [3], map[])] + ([Tick(21)] + ([ResolveAppeal] + []))
  }

  lemma AppealOnce(c: Case, appeals: nat)
    requires Appealable(c, appeals) && appeals < MAX_APPEALS
    ensures Appealable(Run(c, AppealActs(), TenSeconds()), appeals + 1)
  {
    var rules := TenSeconds();
    var a := OpenAppeal(1, 0, [3], map[]);
    var c1 := Next(c, a, rules);
    assert c1.d.round == c.d.round + 1 && Current(c1.d) == StartRound([3], map[], c.clock, rules.w);
    var c2 := Next(c1, Tick(21), rules);
    assert c2.clock == Current(c2.d).revealDeadline + 1;
    var c3 := Next(c2, ResolveAppeal, rules);
    RunStep(c2, ResolveAppeal, [], rules);
    RunStep(c1, Tick(21), [ResolveAppeal] + [], rules);
    RunStep(c, a, [Tick(21)] + ([ResolveAppeal] + []), rules);
  }

  lemma {:induction false} RunConcat(c: Case, a: seq<Act>, b: seq<Act>, rules: Rules)
    requires Shaped(c.d)
    ensures Run(c, a + b, rules) == Run(Run(c, a, rules), b, rules)
    decreases |a|
  {
    if a == [] {
      assert a + b == b;
    } else {
      assert a + b == [a[0]] + (a[1..] + b);
      RunStep(c, a[0], a[1..] + b, rules);
      RunConcat(Next(c, a[0], rules), a[1..], b, rules);
    }
  }

  lemma {:induction false} FairConcat(a: seq<Act>, b: seq<Act>)
    requires FairDraws(a, 1, 2) && FairDraws(b, 1, 2)
    ensures FairDraws(a + b, 1, 2)
    decreases |a|
  {
    if a == [] {
      assert a + b == b;
    } else {
      assert (a + b)[1..] == a[1..] + b;
      FairConcat(a[1..], b);
    }
  }

  lemma AppealActsFair()
    ensures FairDraws(AppealActs(), 1, 2)
  {
    var rest := [Tick(21)] + ([ResolveAppeal] + []);
    NoAppealsIsFair(rest);
    assert AppealActs()[1..] == rest;
    assert Distinct([3]) && [3][1..] == [];
  }

  /** A run after which the web surface offers an appeal that the contract refuses from anyone, whatever is sent. */
  lemma AppealGateGapReached() returns (acts: seq<Act>)
    ensures FairDraws(acts, 1, 2)
    ensures var c, rules := Run(SmallCase(), acts, TenSeconds()), TenSeconds();
      RoundGates(View(c), c.clock, rules.w.appeal).appealOpen && forall a: Act :: a.OpenAppeal? ==> Do(c, a, rules).Err?
  {
    var first := FirstRuling();
    var c1 := Run(SmallCase(), first, TenSeconds());
    AppealOnce(c1, 0);
    AppealOnce(Run(c1, AppealActs(), TenSeconds()), 1);
    RunConcat(c1, AppealActs(), AppealActs(), TenSeconds());
    RunConcat(SmallCase(), first, AppealActs() + AppealActs(), TenSeconds());
    AppealActsFair();
    FairConcat(AppealActs(), AppealActs());
    FairConcat(first, AppealActs() + AppealActs());
    acts := first + (AppealActs() + AppealActs());
  }
}
