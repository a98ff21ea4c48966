/**
 * The contract's dispute and its mirror, side by side: the events each call of the
 * contract emits (apps/contracts/contracts/Escrow.sol), heard by the appliers of
 * apps/api/src/chain/indexer.ts.
 */
module DisputeMirror {
  import opened Basics
  import opened Milestones
  import opened Indexer
  import A = Arbitration
  import R = DisputeRuns
  import MockChain
  import MockRoster
  import Generation

  // ---- What the mirror shows ----

  datatype Pair = Pair(milestone: MilestoneRow, dispute: DisputeRow)

  /** The two rows of the milestone with this onchain id. */
  function Seen(m: Mirror, id: nat): Option<Pair> {
    match FindAt(m.milestones, HasOnchainId(id))
    case None => None
    case Some(k) =>
      match FindAt(m.disputes, DisputeOf(m.milestones[k].id))
      case None => None
      case Some(i) => Some(Pair(m.milestones[k], m.disputes[i]))
  }

  /** The counts a round's key shows; without reveals there is no key. */
  predicate TallyShown(tally: map<nat, seq<nat>>, j: nat, counts: seq<nat>) {
    if j in tally then tally[j] == counts else counts == [0, 0, 0]
  }

  /** The counts of every round so far, and of no other. */
  ghost predicate TalliesShown(tally: map<nat, seq<nat>>, rounds: seq<A.Round>) {
    && (forall j: nat :: j < |rounds| ==> TallyShown(tally, j, rounds[j].tally))
    && (forall j: nat :: j in tally ==> j < |rounds|)
  }

  /** The row shows the dispute: its rounds, seats, votes, deadlines and ruling; times are in milliseconds. */
  ghost predicate Shows(d: DisputeRow, c: R.Case) {
    && A.Shaped(c.d)
    && var r := A.Current(c.d);
    && d.round == c.d.round && d.appealCount == c.d.appealCount && d.selected == r.arbiters
    && (forall a :: a in d.committed <==> a in r.commits) && (forall a :: a in d.revealed <==> a in r.votes)
    && TalliesShown(d.tally, c.d.rounds)
    && d.commitDeadline == Some(1000 * r.commitDeadline) && d.revealDeadline == Some(1000 * r.revealDeadline)
    && d.phase == (if r.resolved then ResolvedPhase else if r.revealCount > 0 then RevealPhase else CommitPhase)
    && (r.resolved ==> d.outcome == Some(r.winner))
    && (d.finalized <==> r.resolved && A.Decides(r.revealCount, |r.arbiters|))
    && (d.status == Resolved <==> c.status != Disputed)
  }

  ghost predicate Mirrors(m: Mirror, c: R.Case) {
    Seen(m, c.id).Some? && Seen(m, c.id).value.milestone.status == c.status && Shows(Seen(m, c.id).value.dispute, c)
  }

  // ---- What the contract emits ----

  /** What the settlement event and its receipt carry besides the outcome. */
  datatype Extras = Extras(caller: Wallet, principal: nat, fee: nat, toClient: nat)

  /** The event that settles a milestone by a ruling. */
  function Settlement(id: nat, winner: nat, x: Extras): Event {
    if winner == 0 then MilestoneReleased(id, x.principal, x.fee)
    else if winner == 1 then MilestoneRefunded(id, x.toClient)
    else MilestoneSplit(id, x.toClient, x.principal, x.fee)
  }

  /** The events of a call, in order; a reverted call and the passing of time emit none. */
  function Emitted(c: R.Case, a: R.Act, rules: R.Rules, x: Extras): seq<Event>
    requires A.Shaped(c.d)
  {
    if R.Do(c, a, rules).Err? then []
    else
      var e := R.Next(c, a, rules);
      var r := A.Current(e.d);
      match a
      case Tick(_) => []
      case Commit(_, sender, _) => [VoteCommitted(c.id, sender)]
      case Reveal(round, sender, outcome, _) => [VoteRevealed(c.id, round, sender, outcome)]
      case Resolve =>
        if A.Decides(r.revealCount, |r.arbiters|) then [DisputeFinalized(c.id, r.winner, true)]
        else [DisputeFinalized(c.id, 1, false), NoQuorumFallback(c.id)]
      case ResolveAppeal => [DisputeFinalized(c.id, r.winner, A.Decides(r.revealCount, |r.arbiters|)), AppealResolved(c.id)]
      case Finalize => [Settlement(c.id, r.winner, x), DisputeResolved(c.id, x.caller, r.winner)]
      case OpenAppeal(_, _, panel, _) =>
        [AppealOpened(c.id, e.d.round), ArbitersSelected(c.id, e.d.round, if |panel| <= 3 then MockChain.Padded(panel) else [], |panel|)]
  }

  /** The events of one transaction, heard in order. */
  function Hear(m: Mirror, events: seq<Event>, time: nat, tx: nat, index: nat, w: Windows): Mirror
    decreases |events|
  {
    if events == [] then m else Hear(Ingest(m, Log(tx, time, tx, index, events[0]), w), events[1..], time, tx, index + 1, w)
  }

  /** No recorded log carries this transaction at this index or behind it. */
  predicate Fresh(m: Mirror, tx: nat, index: nat) {
    forall k :: 0 <= k < |m.ledger| ==> m.ledger[k].log.tx < tx || (m.ledger[k].log.tx == tx && m.ledger[k].log.index < index)
  }

  lemma FreshIsNew(m: Mirror, l: Log, w: Windows)
    requires Fresh(m, l.tx, l.index) && !Throws(m, l.event)
    ensures Ingest(m, l, w) == Apply(Recorded(m, l), l, w)
    ensures Fresh(Ingest(m, l, w), l.tx, l.index + 1)
  {
    LedgerOfApply(Recorded(m, l), l, w);
  }

  // ---- What one event does to the two rows ----

  lemma {:induction false} FindAgrees<T>(a: seq<T>, b: seq<T>, p: T -> bool)
    requires |a| == |b| && forall i :: 0 <= i < |a| ==> p(a[i]) == p(b[i])
    ensures Find(a, p) == Find(b, p)
  {
    if a != [] {
      var n := |a| - 1;
      FindAgrees(a[..n], b[..n], p);
    }
  }

  lemma {:induction false} SeenAfter(m: Mirror, n: Mirror, id: nat, k: nat, i: nat, r: MilestoneRow, d: DisputeRow)
    requires FindAt(m.milestones, HasOnchainId(id)) == Some(k) && FindAt(m.disputes, DisputeOf(m.milestones[k].id)) == Some(i)
    requires n.milestones == m.milestones[k := r] && n.disputes == m.disputes[i := d]
    requires r.onchainId == m.milestones[k].onchainId && r.id == m.milestones[k].id && d.milestoneId == m.disputes[i].milestoneId
    ensures Seen(n, id) == Some(Pair(r, d))
  {
    FindAgrees(m.milestones, n.milestones, HasOnchainId(id));
    FindAgrees(m.disputes, n.disputes, DisputeOf(r.id));
  }

  predicate IsRound(e: Event, id: nat) {
    match e
    case ArbitersSelected(i, _, _, _) => i == id
    case VoteCommitted(i, _) => i == id
    case VoteRevealed(i, _, _, _) => i == id
    case DisputeResolved(i, _, outcome) => i == id && outcome <= 2
    case DisputeFinalized(i, outcome, _) => i == id && outcome <= 2
    case AppealOpened(i, _) => i == id
    case AppealResolved(i) => i == id
    case _ => false
  }

  lemma HearRound(m: Mirror, l: Log, id: nat, w: Windows)
    requires Fresh(m, l.tx, l.index) && Seen(m, id).Some? && IsRound(l.event, id)
    ensures var n := Ingest(m, l, w);
      Fresh(n, l.tx, l.index + 1)
      && Seen(n, id) == Some(Pair(Seen(m, id).value.milestone, RoundUpdate(Seen(m, id).value.dispute, l, w)))
  {
    FreshIsNew(m, l, w);
    var k := FindAt(m.milestones, HasOnchainId(id)).value;
    var i := FindAt(m.disputes, DisputeOf(m.milestones[k].id)).value;
    SeenAfter(m, Ingest(m, l, w), id, k, i, m.milestones[k], RoundUpdate(m.disputes[i], l, w));
  }

  /** Column by column: which log a row's stamps come from, and what no round event touches. */
  lemma StampsExactly(d: DisputeRow, l: Log, w: Windows)
    ensures var n, settles := RoundUpdate(d, l, w), l.event.DisputeResolved? || l.event.NoQuorumFallback?;
      && n.finalizedAt == (if l.event.DisputeFinalized? then Some(l.time) else d.finalizedAt)
      && n.resolvedAt == (if settles then Some(l.time) else d.resolvedAt)
      && n.resolutionTx == (if settles then Some(l.tx) else d.resolutionTx)
      && n.resolvedArbiter == (if l.event.DisputeResolved? then Some(l.event.arbiter) else d.resolvedArbiter)
      && n.milestoneId == d.milestoneId && n.projectId == d.projectId && n.openedBy == d.openedBy && n.reason == d.reason
  {
  }

  predicate SeenSettled(m: Mirror, n: Mirror, id: nat, status: Status) {
    && Seen(m, id).Some? && Seen(n, id).Some?
    && Seen(n, id).value.dispute == Seen(m, id).value.dispute && Seen(n, id).value.milestone.status == status
  }

  lemma SettledRowSeen(m: Mirror, n: Mirror, id: nat, kind: Kind, l: Log)
    requires Seen(m, id).Some? && Legal(m, id, kind).Some? && n.disputes == m.disputes
    requires var t := Legal(m, id, kind).value; n.milestones == m.milestones[t.0 := Settle(m.milestones[t.0], t.1, l)]
    ensures SeenSettled(m, n, id, Legal(m, id, kind).value.1)
  {
    var k := FindAt(m.milestones, HasOnchainId(id)).value;
    var i := FindAt(m.disputes, DisputeOf(m.milestones[k].id)).value;
    SeenAfter(m, n, id, k, i, n.milestones[k], m.disputes[i]);
  }

  lemma PaidRowSeen(m: Mirror, l: Log, id: nat, kind: Kind, amount: nat, fee: nat)
    requires Seen(m, id).Some? && Legal(m, id, kind).Some?
    ensures SeenSettled(m, ApplyPaid(m, l, id, kind, amount, fee), id, Legal(m, id, kind).value.1)
  {
    SettledRowSeen(m, ApplyPaid(m, l, id, kind, amount, fee), id, kind, l);
  }

  lemma ReturnedRowSeen(m: Mirror, l: Log, id: nat, kind: Kind)
    requires Seen(m, id).Some? && Legal(m, id, kind).Some?
    ensures SeenSettled(m, ApplyReturned(m, l, id, kind), id, Legal(m, id, kind).value.1)
  {
    SettledRowSeen(m, ApplyReturned(m, l, id, kind), id, kind, l);
  }

  lemma HearSettlement(m: Mirror, l: Log, id: nat, winner: nat, x: Extras, w: Windows)
    requires Fresh(m, l.tx, l.index) && Seen(m, id).Some? && l.event == Settlement(id, winner, x)
    requires Seen(m, id).value.milestone.status == Disputed
    ensures var n := Ingest(m, l, w);
      && Fresh(n, l.tx, l.index + 1)
      && SeenSettled(m, n, id, if winner == 0 then ResolvedRelease else if winner == 1 then ResolvedRefund else ResolvedSplit)
  {
    FreshIsNew(m, l, w);
    var r := Recorded(m, l);
    assert Seen(r, id) == Seen(m, id);
    if winner == 0 {
      PaidRowSeen(r, l, id, KReleased, x.principal, x.fee);
    } else if winner == 1 {
      ReturnedRowSeen(r, l, id, KRefunded);
    } else {
      PaidRowSeen(r, l, id, KSplit, x.principal, x.fee);
    }
  }

  lemma HearNoQuorum(m: Mirror, l: Log, id: nat, w: Windows)
    requires Fresh(m, l.tx, l.index) && Seen(m, id).Some? && l.event == NoQuorumFallback(id)
    requires Seen(m, id).value.milestone.status == Disputed
    ensures var n := Ingest(m, l, w);
      && Fresh(n, l.tx, l.index + 1) && Seen(n, id).Some?
      && Seen(n, id).value.dispute == RoundUpdate(Seen(m, id).value.dispute, l, w)
      && Seen(n, id).value.milestone.status == ResolvedRefund
  {
    FreshIsNew(m, l, w);
    var n := Ingest(m, l, w);
    var k := FindAt(m.milestones, HasOnchainId(id)).value;
    var i := FindAt(m.disputes, DisputeOf(m.milestones[k].id)).value;
    SeenAfter(m, n, id, k, i, n.milestones[k], RoundUpdate(m.disputes[i], l, w));
  }

  lemma HearOne(m: Mirror, e: Event, time: nat, tx: nat, index: nat, w: Windows)
    ensures Hear(m, [e], time, tx, index, w) == Ingest(m, Log(tx, time, tx, index, e), w)
  {
    assert [e][1..] == [];
  }

  lemma HearTwo(m: Mirror, e: Event, f: Event, time: nat, tx: nat, i: nat, j: nat, w: Windows)
    requires j == i + 1
    ensures Hear(m, [e, f], time, tx, i, w) == Ingest(Ingest(m, Log(tx, time, tx, i, e), w), Log(tx, time, tx, j, f), w)
  {
    assert [e, f][1..] == [f];
    HearOne(Ingest(m, Log(tx, time, tx, i, e), w), f, time, tx, j, w);
  }

  // ---- What each call does to the dispute row ----

  /** Nobody acted under the zero address. */
  predicate Named(c: R.Case) {
    A.Shaped(c.d) && ZERO_WALLET !in A.Current(c.d).commits && ZERO_WALLET !in A.Current(c.d).votes
  }

  lemma Listed(ws: seq<Wallet>, w: Wallet)
    requires ZERO_WALLET !in ws
    ensures forall a :: a in Add(NonZero(ws), w) <==> a in ws || a == w
  {
    MockRoster.NonZeroLength(ws);
  }

  lemma CommitShown(d: DisputeRow, c: R.Case, a: R.Act, rules: R.Rules, l: Log, w: Windows)
    requires Shows(d, c) && Named(c) && a.Commit? && R.Do(c, a, rules).Ok? && l.event == VoteCommitted(c.id, a.sender)
    ensures Shows(RoundUpdate(d, l, w), R.Next(c, a, rules))
  {
    var e := R.Next(c, a, rules);
    A.CommitExactly(c.d, a.round, a.sender, a.hash, c.clock);
    Listed(d.committed, a.sender);
    SameTallies(c.d, e.d, d.tally);
  }

  /** Only the current round is another one, with the same counts. */
  lemma SameTallies(d: A.Dispute, e: A.Dispute, tally: map<nat, seq<nat>>)
    requires A.Shaped(d) && A.Shaped(e) && e.round == d.round && TalliesShown(tally, d.rounds)
    requires forall k :: 0 <= k < d.round ==> e.rounds[k] == d.rounds[k]
    requires A.Current(e).tally == A.Current(d).tally
    ensures TalliesShown(tally, e.rounds)
  {
    forall j: nat | j < |e.rounds|
      ensures TallyShown(tally, j, e.rounds[j].tally)
    {
      if j < d.round { assert e.rounds[j] == d.rounds[j]; } else { assert e.rounds[j] == A.Current(e) && d.rounds[j] == A.Current(d); }
    }
  }

  lemma BumpShown(tally: map<nat, seq<nat>>, round: nat, outcome: nat, counts: seq<nat>, after: seq<nat>)
    requires TallyShown(tally, round, counts) && |counts| == |after| == 3 && outcome <= 2
    requires forall o :: 0 <= o < 3 ==> after[o] == counts[o] + if o == outcome then 1 else 0
    ensures TallyShown(Bump(tally, round, outcome), round, after)
    ensures forall j: nat, other :: j != round ==> (TallyShown(Bump(tally, round, outcome), j, other) <==> TallyShown(tally, j, other))
  {
    assert Bump(tally, round, outcome)[round] == after;
  }

  lemma RevealTallies(d: A.Dispute, e: A.Dispute, outcome: nat, tally: map<nat, seq<nat>>)
    requires A.SameButRound(d, e) && TalliesShown(tally, d.rounds) && outcome <= 2
    requires forall o :: 0 <= o < 3 ==> A.Current(e).tally[o] == A.Current(d).tally[o] + if o == outcome then 1 else 0
    ensures TalliesShown(Bump(tally, d.round, outcome), e.rounds)
  {
    var counts, after := A.Current(d).tally, A.Current(e).tally;
    assert d.rounds[d.round] == A.Current(d) && e.rounds[d.round] == A.Current(e);
    BumpShown(tally, d.round, outcome, counts, after);
    forall j: nat | j < |e.rounds|
      ensures TallyShown(Bump(tally, d.round, outcome), j, e.rounds[j].tally)
    {
      if j != d.round { assert e.rounds[j] == d.rounds[j]; }
    }
  }

  lemma RevealShown(d: DisputeRow, c: R.Case, a: R.Act, rules: R.Rules, l: Log, w: Windows)
    requires Shows(d, c) && Named(c) && a.Reveal? && R.Do(c, a, rules).Ok? && l.event == VoteRevealed(c.id, a.round, a.sender, a.outcome)
    ensures Shows(RoundUpdate(d, l, w), R.Next(c, a, rules))
  {
    var e := R.Next(c, a, rules);
    A.RevealExactly(c.d, c.id, a.round, a.sender, a.outcome, a.salt, c.clock);
    Listed(d.revealed, a.sender);
    RevealTallies(c.d, e.d, a.outcome, d.tally);
  }

  /** The tally itself, before what a first round without a quorum adds. */
  lemma TallyIsShown(d: DisputeRow, c: R.Case, l: Log, w: Windows)
    requires Shows(d, c) && Named(c) && c.status == Disputed && !A.Current(c.d).resolved
    requires l.event == DisputeFinalized(c.id, A.Current(A.Tally(c.d)).winner, A.Decides(A.Current(c.d).revealCount, |A.Current(c.d).arbiters|))
    ensures Shows(RoundUpdate(d, l, w), c.(d := A.Tally(c.d)))
  {
    var e := A.Tally(c.d);
    A.TallyExactly(c.d, Disputed, false, 0);
    SameTallies(c.d, e, d.tally);
  }

  lemma NoQuorumShown(d: DisputeRow, c: R.Case, l: Log, w: Windows)
    requires Shows(d, c) && A.Current(c.d).resolved && A.Current(c.d).winner == 1
    requires !A.Decides(A.Current(c.d).revealCount, |A.Current(c.d).arbiters|) && l.event == NoQuorumFallback(c.id)
    ensures Shows(RoundUpdate(d, l, w), c.(status := ResolvedRefund, payouts := c.payouts + [R.NoQuorum]))
  {
  }

  lemma FinalizedShown(d: DisputeRow, c: R.Case, a: R.Act, rules: R.Rules, l: Log, w: Windows)
    requires Shows(d, c) && Named(c) && a.Finalize? && R.Do(c, a, rules).Ok?
    requires l.event.DisputeResolved? && l.event.milestone == c.id && l.event.outcome == A.Current(c.d).winner
    ensures Shows(RoundUpdate(d, l, w), R.Next(c, a, rules))
    ensures var winner := A.Current(c.d).winner;
      R.Next(c, a, rules).status == if winner == 0 then ResolvedRelease else if winner == 1 then ResolvedRefund else ResolvedSplit
  {
  }

  lemma AppealTallies(rounds: seq<A.Round>, more: seq<A.Round>, tally: map<nat, seq<nat>>)
    requires TalliesShown(tally, rounds) && |more| == |rounds| + 1 && more[..|rounds|] == rounds && more[|rounds|].tally == [0, 0, 0]
    ensures TalliesShown(tally, more)
  {
    forall j: nat | j < |more|
      ensures TallyShown(tally, j, more[j].tally)
    {
      if j < |rounds| { assert more[j] == more[..|rounds|][j] == rounds[j]; }
    }
  }

  /** The row after the two events of an appeal. */
  predicate IsReopened(d: DisputeRow, n: DisputeRow, round: nat, panel: seq<Wallet>, commit: nat, revealing: nat) {
    && n.round == round && n.appealCount == d.appealCount + 1 && n.selected == panel && n.committed == [] && n.revealed == []
    && n.tally == d.tally && n.commitDeadline == Some(1000 * commit) && n.revealDeadline == Some(1000 * revealing)
    && n.phase == CommitPhase && !n.finalized && n.status == Open
  }

  lemma AppealRow(d: DisputeRow, id: nat, round: nat, panel: seq<Wallet>, clock: nat, first: Log, second: Log, w: Windows)
    requires |panel| <= 3 && ZERO_WALLET !in panel && first.event == AppealOpened(id, round) && second.time == 1000 * clock
    requires second.event == ArbitersSelected(id, round, MockChain.Padded(panel), |panel|)
    ensures IsReopened(d, RoundUpdate(RoundUpdate(d, first, w), second, w), round, panel, clock + w.commit, clock + w.commit + w.revealing)
  {
    MockRoster.PanelInMirror(panel);
  }

  lemma ReopenedShows(d: DisputeRow, n: DisputeRow, c: R.Case, e: R.Case, panel: seq<Wallet>, stakes: map<A.Address, nat>, w: A.Windows)
    requires Shows(d, c) && c.status == e.status == Disputed && A.Shaped(e.d)
    requires |e.d.rounds| == |c.d.rounds| + 1 && e.d.rounds[..|c.d.rounds|] == c.d.rounds && e.d.appealCount == c.d.appealCount + 1
    requires A.FreshRound(A.Current(e.d), panel, stakes, c.clock, w) && panel != []
    requires IsReopened(d, n, c.d.round + 1, panel, c.clock + w.commit, c.clock + w.commit + w.revealing)
    ensures Shows(n, e)
  {
    assert e.d.rounds[|c.d.rounds|] == A.Current(e.d);
    AppealTallies(c.d.rounds, e.d.rounds, d.tally);
  }

  lemma AppealShown(d: DisputeRow, c: R.Case, a: R.Act, rules: R.Rules, first: Log, second: Log, w: Windows)
    requires Shows(d, c) && a.OpenAppeal? && R.Do(c, a, rules).Ok? && |a.panel| <= 3 && ZERO_WALLET !in a.panel
    requires first.event == AppealOpened(c.id, c.d.round + 1)
    requires second.event == ArbitersSelected(c.id, c.d.round + 1, MockChain.Padded(a.panel), |a.panel|) && second.time == 1000 * c.clock
    requires w == Windows(rules.w.commit, rules.w.revealing)
    ensures Shows(RoundUpdate(RoundUpdate(d, first, w), second, w), R.Next(c, a, rules))
  {
    var e := R.Next(c, a, rules);
    A.AppealExactly(c.d, c.status, a.sender == c.client || a.sender == c.freelancer, a.value, rules.disputeFee, a.panel, a.stakes, c.clock, rules.w);
    AppealRow(d, c.id, c.d.round + 1, a.panel, c.clock, first, second, w);
    ReopenedShows(d, RoundUpdate(RoundUpdate(d, first, w), second, w), c, e, a.panel, a.stakes, rules.w);
  }

  // ---- One call ----

  lemma {:induction false} StandingBounded(rounds: seq<A.Round>)
    requires forall r :: r in rounds ==> |r.tally| == 3
    ensures A.Standing(rounds).Some? ==> A.Standing(rounds).value <= 2
  {
    if rounds != [] {
      A.RulingIsValid(rounds[|rounds| - 1].tally);
      StandingBounded(rounds[..|rounds| - 1]);
    }
  }

  lemma WinnerBounded(d: A.Dispute)
    requires A.Shaped(d) && A.Current(d).resolved
    requires A.Current(d).winner == if A.Standing(d.rounds).Some? then A.Standing(d.rounds).value else A.REFUND
    ensures A.Current(d).winner <= 2
  {
    StandingBounded(d.rounds);
  }

  /** The state before a call: the mirror shows the case, and the transaction is a new one. */
  ghost predicate Synced(m: Mirror, c: R.Case, tx: nat) {
    Mirrors(m, c) && Named(c) && Fresh(m, tx, 0)
  }

  /** The mirror after a call: it shows the new case, and the next transaction is a new one. */
  ghost predicate Follows(m: Mirror, c: R.Case, tx: nat) {
    Mirrors(m, c) && Fresh(m, tx + 1, 0)
  }

  lemma HearVote(m: Mirror, c: R.Case, a: R.Act, rules: R.Rules, tx: nat, w: Windows, x: Extras)
    requires Synced(m, c, tx) && (a.Commit? || a.Reveal?) && R.Do(c, a, rules).Ok?
    ensures Follows(Hear(m, Emitted(c, a, rules, x), 1000 * c.clock, tx, 0, w), R.Next(c, a, rules), tx)
  {
    var e := if a.Commit? then VoteCommitted(c.id, a.sender) else VoteRevealed(c.id, a.round, a.sender, a.outcome);
    var l := Log(tx, 1000 * c.clock, tx, 0, e);
    HearOne(m, e, 1000 * c.clock, tx, 0, w);
    HearRound(m, l, c.id, w);
    if a.Commit? { CommitShown(Seen(m, c.id).value.dispute, c, a, rules, l, w); } else { RevealShown(Seen(m, c.id).value.dispute, c, a, rules, l, w); }
  }

  /** The tallied case `t`, and the log that says so. */
  predicate IsTallied(c: R.Case, t: R.Case, l: Log, quorum: bool) {
    && A.Shaped(c.d) && c.status == Disputed && !A.Current(c.d).resolved && t == c.(d := A.Tally(c.d)) && A.Shaped(t.d)
    && A.Current(t.d).resolved && A.Current(t.d).winner <= 2
    && quorum == A.Decides(A.Current(t.d).revealCount, |A.Current(t.d).arbiters|)
    && l.event == DisputeFinalized(c.id, A.Current(t.d).winner, quorum)
  }

  lemma HearTally(m: Mirror, c: R.Case, t: R.Case, l: Log, quorum: bool, w: Windows)
    requires Mirrors(m, c) && Named(c) && Fresh(m, l.tx, l.index) && IsTallied(c, t, l, quorum)
    ensures Mirrors(Ingest(m, l, w), t) && Fresh(Ingest(m, l, w), l.tx, l.index + 1)
  {
    A.TallyExactly(c.d, Disputed, false, 0);
    HearRound(m, l, c.id, w);
    TallyIsShown(Seen(m, c.id).value.dispute, c, l, w);
  }

  lemma HearFallback(m: Mirror, c: R.Case, l: Log, w: Windows)
    requires Mirrors(m, c) && Fresh(m, l.tx, l.index) && l.event == NoQuorumFallback(c.id) && c.status == Disputed
    requires A.Current(c.d).resolved && A.Current(c.d).winner == 1 && !A.Decides(A.Current(c.d).revealCount, |A.Current(c.d).arbiters|)
    ensures Follows(Ingest(m, l, w), c.(status := ResolvedRefund, payouts := c.payouts + [R.NoQuorum]), l.tx)
  {
    HearNoQuorum(m, l, c.id, w);
    NoQuorumShown(Seen(m, c.id).value.dispute, c, l, w);
  }

  /** The mirror after both logs of a first round that never reached its quorum. */
  lemma HearUndecided(m: Mirror, c: R.Case, t: R.Case, k: Log, l: Log, w: Windows)
    requires Mirrors(m, c) && Named(c) && Fresh(m, k.tx, 0) && k.index == 0 && l.tx == k.tx && l.index == 1
    requires IsTallied(c, t, k, false) && A.Current(t.d).winner == 1 && l.event == NoQuorumFallback(c.id)
    ensures Follows(Ingest(Ingest(m, k, w), l, w), t.(status := ResolvedRefund, payouts := t.payouts + [R.NoQuorum]), l.tx)
  {
    HearTally(m, c, t, k, false, w);
    HearFallback(Ingest(m, k, w), t, l, w);
  }

  /** The mirror after both logs of an appeal's tally. */
  lemma HearKept(m: Mirror, c: R.Case, t: R.Case, k: Log, quorum: bool, l: Log, w: Windows)
    requires Mirrors(m, c) && Named(c) && Fresh(m, k.tx, 0) && k.index == 0 && l.tx == k.tx && l.index == 1
    requires IsTallied(c, t, k, quorum) && l.event == AppealResolved(c.id)
    ensures Follows(Ingest(Ingest(m, k, w), l, w), t, l.tx)
  {
    HearTally(m, c, t, k, quorum, w);
    HearRound(Ingest(m, k, w), l, c.id, w);
  }

  /** What a tally call emits and makes of the case. */
  lemma TallyEmits(c: R.Case, a: R.Act, rules: R.Rules, x: Extras)
    requires A.Shaped(c.d) && (a.Resolve? || a.ResolveAppeal?) && R.Do(c, a, rules).Ok?
    ensures c.status == Disputed && !A.Current(c.d).resolved && (a.Resolve? <==> c.d.round == 0)
    ensures var r, decides := A.Current(A.Tally(c.d)), A.Decides(A.Current(c.d).revealCount, |A.Current(c.d).arbiters|);
      && Emitted(c, a, rules, x) == (
        if a.ResolveAppeal? then [DisputeFinalized(c.id, r.winner, A.Decides(r.revealCount, |r.arbiters|)), AppealResolved(c.id)]
        else if decides then [DisputeFinalized(c.id, r.winner, true)] else [DisputeFinalized(c.id, 1, false), NoQuorumFallback(c.id)])
      && R.Next(c, a, rules) == (
        if a.Resolve? && !decides then c.(d := A.Tally(c.d), status := ResolvedRefund, payouts := c.payouts + [R.NoQuorum])
        else c.(d := A.Tally(c.d)))
  {
    A.TallyExactly(c.d, c.status, a.ResolveAppeal?, c.clock);
  }

  /** Two logs of one transaction, heard one after the other. */
  lemma BothHeard(m: Mirror, e: Event, f: Event, time: nat, tx: nat, w: Windows, next: R.Case)
    requires Follows(Ingest(Ingest(m, Log(tx, time, tx, 0, e), w), Log(tx, time, tx, 1, f), w), next, tx)
    ensures Follows(Hear(m, [e, f], time, tx, 0, w), next, tx)
  {
    HearTwo(m, e, f, time, tx, 0, 1, w);
  }

  lemma TallyHeard(m: Mirror, c: R.Case, t: R.Case, tx: nat, w: Windows, quorum: bool, k: Log)
    requires Synced(m, c, tx) && k.tx == tx && k.index == 0 && IsTallied(c, t, k, quorum) && k.block == tx && k.time == 1000 * c.clock
    ensures Follows(Hear(m, [k.event], k.time, tx, 0, w), t, tx)
    ensures Follows(Hear(m, [k.event, AppealResolved(c.id)], k.time, tx, 0, w), t, tx)
    ensures !quorum && A.Current(t.d).winner == 1 ==>
      Follows(Hear(m, [k.event, NoQuorumFallback(c.id)], k.time, tx, 0, w), t.(status := ResolvedRefund, payouts := t.payouts + [R.NoQuorum]), tx)
  {
    HearOne(m, k.event, k.time, tx, 0, w);
    HearTally(m, c, t, k, quorum, w);
    HearKept(m, c, t, k, quorum, Log(tx, k.time, tx, 1, AppealResolved(c.id)), w);
    BothHeard(m, k.event, AppealResolved(c.id), k.time, tx, w, t);
    if !quorum && A.Current(t.d).winner == 1 {
      HearUndecided(m, c, t, k, Log(tx, k.time, tx, 1, NoQuorumFallback(c.id)), w);
      BothHeard(m, k.event, NoQuorumFallback(c.id), k.time, tx, w, t.(status := ResolvedRefund, payouts := t.payouts + [R.NoQuorum]));
    }
  }

  lemma HearTallyCall(m: Mirror, c: R.Case, a: R.Act, rules: R.Rules, tx: nat, w: Windows, x: Extras)
    requires Synced(m, c, tx) && (a.Resolve? || a.ResolveAppeal?) && R.Do(c, a, rules).Ok? && A.Current(A.Tally(c.d)).winner <= 2
    ensures Follows(Hear(m, Emitted(c, a, rules, x), 1000 * c.clock, tx, 0, w), R.Next(c, a, rules), tx)
  {
    var t := c.(d := A.Tally(c.d));
    var r := A.Current(t.d);
    var quorum := A.Decides(r.revealCount, |r.arbiters|);
    A.TallyExactly(c.d, Disputed, a.ResolveAppeal?, c.clock);
    TallyEmits(c, a, rules, x);
    TallyHeard(m, c, t, tx, w, quorum, Log(tx, 1000 * c.clock, tx, 0, DisputeFinalized(c.id, r.winner, quorum)));
  }

  lemma FinalizeEmits(c: R.Case, rules: R.Rules, x: Extras)
    requires A.Shaped(c.d) && R.Do(c, R.Finalize, rules).Ok?
    ensures var winner := A.Current(c.d).winner;
      c.status == Disputed && Emitted(c, R.Finalize, rules, x) == [Settlement(c.id, winner, x), DisputeResolved(c.id, x.caller, winner)]
  {
  }

  lemma HearFinalized(m: Mirror, c: R.Case, rules: R.Rules, k: Log, l: Log, w: Windows, x: Extras)
    requires Mirrors(m, c) && Named(c) && Fresh(m, k.tx, 0) && k.index == 0 && l.tx == k.tx && l.index == 1
    requires R.Do(c, R.Finalize, rules).Ok? && A.Current(c.d).winner <= 2 && c.status == Disputed
    requires k.event == Settlement(c.id, A.Current(c.d).winner, x) && l.event == DisputeResolved(c.id, x.caller, A.Current(c.d).winner)
    ensures Follows(Ingest(Ingest(m, k, w), l, w), R.Next(c, R.Finalize, rules), l.tx)
  {
    HearSettlement(m, k, c.id, A.Current(c.d).winner, x, w);
    HearRound(Ingest(m, k, w), l, c.id, w);
    FinalizedShown(Seen(m, c.id).value.dispute, c, R.Finalize, rules, l, w);
  }

  lemma HearFinalize(m: Mirror, c: R.Case, rules: R.Rules, tx: nat, w: Windows, x: Extras)
    requires Synced(m, c, tx) && R.Do(c, R.Finalize, rules).Ok? && A.Current(c.d).winner <= 2
    ensures Follows(Hear(m, Emitted(c, R.Finalize, rules, x), 1000 * c.clock, tx, 0, w), R.Next(c, R.Finalize, rules), tx)
  {
    var winner, time := A.Current(c.d).winner, 1000 * c.clock;
    var e, f := Settlement(c.id, winner, x), DisputeResolved(c.id, x.caller, winner);
    FinalizeEmits(c, rules, x);
    HearFinalized(m, c, rules, Log(tx, time, tx, 0, e), Log(tx, time, tx, 1, f), w, x);
    BothHeard(m, e, f, time, tx, w, R.Next(c, R.Finalize, rules));
  }

  lemma AppealEmits(c: R.Case, a: R.Act, rules: R.Rules, x: Extras)
    requires A.Shaped(c.d) && a.OpenAppeal? && R.Do(c, a, rules).Ok? && |a.panel| <= 3
    ensures Emitted(c, a, rules, x)
      == [AppealOpened(c.id, c.d.round + 1), ArbitersSelected(c.id, c.d.round + 1, MockChain.Padded(a.panel), |a.panel|)]
    ensures c.status == Disputed == R.Next(c, a, rules).status
  {
  }

  lemma HearAppealed(m: Mirror, c: R.Case, a: R.Act, rules: R.Rules, k: Log, l: Log, w: Windows)
    requires Mirrors(m, c) && Fresh(m, k.tx, 0) && k.index == 0 && l.tx == k.tx && l.index == 1 && l.time == 1000 * c.clock
    requires a.OpenAppeal? && R.Do(c, a, rules).Ok? && |a.panel| <= 3 && ZERO_WALLET !in a.panel && R.Next(c, a, rules).status == c.status
    requires k.event == AppealOpened(c.id, c.d.round + 1)
    requires l.event == ArbitersSelected(c.id, c.d.round + 1, MockChain.Padded(a.panel), |a.panel|)
    requires w == Windows(rules.w.commit, rules.w.revealing)
    ensures Follows(Ingest(Ingest(m, k, w), l, w), R.Next(c, a, rules), l.tx)
  {
    HearRound(m, k, c.id, w);
    HearRound(Ingest(m, k, w), l, c.id, w);
    AppealShown(Seen(m, c.id).value.dispute, c, a, rules, k, l, w);
  }

  lemma AppealHeard(m: Mirror, c: R.Case, a: R.Act, rules: R.Rules, tx: nat, w: Windows, e: Event, f: Event)
    requires Mirrors(m, c) && Fresh(m, tx, 0) && a.OpenAppeal? && R.Do(c, a, rules).Ok? && |a.panel| <= 3 && ZERO_WALLET !in a.panel
    requires w == Windows(rules.w.commit, rules.w.revealing) && R.Next(c, a, rules).status == c.status
    requires e == AppealOpened(c.id, c.d.round + 1)
    requires f == ArbitersSelected(c.id, c.d.round + 1, MockChain.Padded(a.panel), |a.panel|)
    ensures Follows(Hear(m, [e, f], 1000 * c.clock, tx, 0, w), R.Next(c, a, rules), tx)
  {
    var time := 1000 * c.clock;
    HearAppealed(m, c, a, rules, Log(tx, time, tx, 0, e), Log(tx, time, tx, 1, f), w);
    BothHeard(m, e, f, time, tx, w, R.Next(c, a, rules));
  }

  lemma HearAppeal(m: Mirror, c: R.Case, a: R.Act, rules: R.Rules, tx: nat, w: Windows, x: Extras)
    requires Synced(m, c, tx) && a.OpenAppeal? && R.Do(c, a, rules).Ok? && |a.panel| <= 3 && ZERO_WALLET !in a.panel
    requires w == Windows(rules.w.commit, rules.w.revealing)
    ensures Follows(Hear(m, Emitted(c, a, rules, x), 1000 * c.clock, tx, 0, w), R.Next(c, a, rules), tx)
  {
    AppealEmits(c, a, rules, x);
    AppealHeard(m, c, a, rules, tx, w, AppealOpened(c.id, c.d.round + 1),
                ArbitersSelected(c.id, c.d.round + 1, MockChain.Padded(a.panel), |a.panel|));
  }

  // ---- Whole runs ----

  /** A call and what else its settlement would carry. */
  datatype Call = Call(act: R.Act, extras: Extras)

  /** The draw is fair and the registry knows no zero address. */
  predicate Drawn(a: R.Act, client: A.Address, freelancer: A.Address) {
    R.FairDraw(a, client, freelancer) && (a.OpenAppeal? ==> ZERO_WALLET !in a.panel)
  }

  predicate AllDrawn(calls: seq<Call>, client: A.Address, freelancer: A.Address) {
    forall i :: 0 <= i < |calls| ==> Drawn(calls[i].act, client, freelancer)
  }

  function Acts(calls: seq<Call>): seq<R.Act> {
    if calls == [] then [] else Acts(calls[..|calls| - 1]) + [calls[|calls| - 1].act]
  }

  /** The indexer's windows are the ones the contract was deployed with. */
  function WindowsOf(rules: R.Rules): Windows {
    Windows(rules.w.commit, rules.w.revealing)
  }

  /** The case, the mirror beside it, and the number of the next transaction. */
  datatype Sight = Sight(state: R.Case, mirror: Mirror, tx: nat)

  /** One call, and its transaction heard: the block's timestamp is the contract's clock. */
  function Watch(s: Sight, call: Call, rules: R.Rules): (t: Sight)
    requires A.Shaped(s.state.d)
    ensures A.Shaped(t.state.d) && t.state == R.Next(s.state, call.act, rules)
  {
    var events := Emitted(s.state, call.act, rules, call.extras);
    Sight(R.Next(s.state, call.act, rules), Hear(s.mirror, events, 1000 * s.state.clock, s.tx, 0, WindowsOf(rules)), s.tx + 1)
  }

  /** The step of a run. */
  function WatchOf(rules: R.Rules): (Sight, Call) -> Sight {
    (s: Sight, call: Call) => if A.Shaped(s.state.d) then Watch(s, call, rules) else s
  }

  /** The sight after a run. */
  function WatchAll(s: Sight, calls: seq<Call>, rules: R.Rules): Sight {
    Fold(s, calls, WatchOf(rules))
  }

  predicate NoZeroSeat(c: R.Case) {
    A.Shaped(c.d) && ZERO_WALLET !in A.Current(c.d).arbiters
  }

  lemma SeatsStayNonZero(c: R.Case, a: R.Act, rules: R.Rules)
    requires NoZeroSeat(c) && Drawn(a, c.client, c.freelancer)
    ensures NoZeroSeat(R.Next(c, a, rules))
  {
  }

  lemma CaseIsNamed(c: R.Case)
    requires R.CaseOk(c) && NoZeroSeat(c)
    ensures Named(c)
  {
  }

  lemma FreshLater(m: Mirror, tx: nat)
    requires Fresh(m, tx, 0)
    ensures Fresh(m, tx + 1, 0)
  {
  }

  lemma HearNothing(m: Mirror, c: R.Case, a: R.Act, rules: R.Rules, tx: nat, w: Windows, x: Extras)
    requires Mirrors(m, c) && Fresh(m, tx, 0) && (a.Tick? || R.Do(c, a, rules).Err?)
    ensures Follows(Hear(m, Emitted(c, a, rules, x), 1000 * c.clock, tx, 0, w), R.Next(c, a, rules), tx)
  {
    FreshLater(m, tx);
  }

  lemma WinnerOfDispute(d: A.Dispute, id: nat, clock: nat)
    requires A.DisputeOk(d, id, clock) && A.Current(d).resolved
    ensures A.Current(d).winner <= 2
  {
    WinnerBounded(d);
  }

  /** One call, accepted or refused, or the passing of time. */
  lemma HearCall(m: Mirror, c: R.Case, a: R.Act, rules: R.Rules, tx: nat, x: Extras)
    requires Synced(m, c, tx) && Drawn(a, c.client, c.freelancer)
    requires (a.Resolve? || a.ResolveAppeal?) && R.Do(c, a, rules).Ok? ==> A.Current(A.Tally(c.d)).winner <= 2
    requires a.Finalize? && R.Do(c, a, rules).Ok? ==> A.Current(c.d).winner <= 2
    ensures Follows(Hear(m, Emitted(c, a, rules, x), 1000 * c.clock, tx, 0, WindowsOf(rules)), R.Next(c, a, rules), tx)
  {
    var w := WindowsOf(rules);
    if a.Tick? || R.Do(c, a, rules).Err? {
      HearNothing(m, c, a, rules, tx, w, x);
    } else {
      match a
      case Commit(_, _, _) => HearVote(m, c, a, rules, tx, w, x);
      case Reveal(_, _, _, _) => HearVote(m, c, a, rules, tx, w, x);
      case Resolve => HearTallyCall(m, c, a, rules, tx, w, x);
      case ResolveAppeal => HearTallyCall(m, c, a, rules, tx, w, x);
      case Finalize => HearFinalize(m, c, rules, tx, w, x);
      case OpenAppeal(_, _, _, _) => HearAppeal(m, c, a, rules, tx, w, x);
    }
  }

  lemma TallyNames(d: A.Dispute, id: nat, clock: nat, viaAppeal: bool)
    requires A.DisputeOk(d, id, clock) && A.StatusOk(d, Disputed) && A.TallyGuard(d, Disputed, viaAppeal, clock) == None
    ensures A.Current(A.Tally(d)).winner <= 2
  {
    A.TallyOk(d, id, clock, viaAppeal);
    WinnerOfDispute(A.Tally(d), id, clock);
  }

  /** What lets each call be carried out. */
  lemma GuardOfCall(c: R.Case, a: R.Act, rules: R.Rules)
    requires A.Shaped(c.d) && R.Do(c, a, rules).Ok?
    ensures a.Resolve? || a.ResolveAppeal? ==> c.status == Disputed && A.TallyGuard(c.d, Disputed, a.ResolveAppeal?, c.clock) == None
    ensures a.Finalize? ==> A.Current(c.d).resolved
  {
  }

  lemma WinnersStayNamed(c: R.Case, a: R.Act, rules: R.Rules)
    requires R.CaseOk(c) && R.Do(c, a, rules).Ok?
    ensures a.Resolve? || a.ResolveAppeal? ==> A.Current(A.Tally(c.d)).winner <= 2
    ensures a.Finalize? ==> A.Current(c.d).winner <= 2
  {
    GuardOfCall(c, a, rules);
    if a.Resolve? || a.ResolveAppeal? {
      TallyNames(c.d, c.id, c.clock, a.ResolveAppeal?);
    } else if a.Finalize? {
      WinnerOfDispute(c.d, c.id, c.clock);
    }
  }

  /** What a run starts from and every step keeps. */
  ghost predicate InStep(s: Sight) {
    R.CaseOk(s.state) && NoZeroSeat(s.state) && Mirrors(s.mirror, s.state) && Fresh(s.mirror, s.tx, 0)
  }

  lemma CaseStaysOk(c: R.Case, a: R.Act, rules: R.Rules)
    requires R.CaseOk(c) && NoZeroSeat(c) && Drawn(a, c.client, c.freelancer)
    ensures R.CaseOk(R.Next(c, a, rules)) && NoZeroSeat(R.Next(c, a, rules))
  {
    R.NextOk(c, a, rules);
    SeatsStayNonZero(c, a, rules);
  }

  lemma StepHeard(s: Sight, call: Call, rules: R.Rules)
    requires InStep(s) && Drawn(call.act, s.state.client, s.state.freelancer)
    ensures Follows(Watch(s, call, rules).mirror, Watch(s, call, rules).state, s.tx)
  {
    CaseIsNamed(s.state);
    if R.Do(s.state, call.act, rules).Ok? { WinnersStayNamed(s.state, call.act, rules); }
    HearCall(s.mirror, s.state, call.act, rules, s.tx, call.extras);
  }

  lemma Joined(t: Sight, tx: nat)
    requires R.CaseOk(t.state) && NoZeroSeat(t.state) && Follows(t.mirror, t.state, tx) && t.tx == tx + 1
    ensures InStep(t)
  {
  }

  /** One call, and the mirror hears what it emits. */
  lemma StepFollows(s: Sight, call: Call, rules: R.Rules)
    requires InStep(s) && Drawn(call.act, s.state.client, s.state.freelancer)
    ensures InStep(Watch(s, call, rules))
  {
    StepHeard(s, call, rules);
    CaseStaysOk(s.state, call.act, rules);
    Joined(Watch(s, call, rules), s.tx);
  }

  /** In step, with these parties. */
  ghost predicate StaysInStep(s: Sight, client: A.Address, freelancer: A.Address) {
    InStep(s) && s.state.client == client && s.state.freelancer == freelancer
  }

  lemma StepStays(s: Sight, call: Call, rules: R.Rules, client: A.Address, freelancer: A.Address)
    requires StaysInStep(s, client, freelancer) && Drawn(call.act, client, freelancer)
    ensures StaysInStep(WatchOf(rules)(s, call), client, freelancer)
  {
    StepFollows(s, call, rules);
  }

  lemma AllStayInStep(s: Sight, calls: seq<Call>, rules: R.Rules, client: A.Address, freelancer: A.Address)
    requires StaysInStep(s, client, freelancer) && AllDrawn(calls, client, freelancer)
    ensures StaysInStep(WatchAll(s, calls, rules), client, freelancer)
  {
    var inv, allowed := (t: Sight) => StaysInStep(t, client, freelancer), (call: Call) => Drawn(call.act, client, freelancer);
    forall t, call | inv(t) && allowed(call)
      ensures inv(WatchOf(rules)(t, call))
    {
      StepStays(t, call, rules, client, freelancer);
    }
    FoldKeeps(s, calls, WatchOf(rules), inv, allowed);
  }

  /** The case of a sight is the one the contract's run leads to. */
  lemma {:induction false} RunSnoc(c: R.Case, acts: seq<R.Act>, a: R.Act, rules: R.Rules)
    requires A.Shaped(c.d)
    ensures R.Run(c, acts + [a], rules) == R.Next(R.Run(c, acts, rules), a, rules)
    decreases |acts|
  {
    if acts == [] {
      assert ([a])[1..] == [] && acts + [a] == [a];
    } else {
      assert (acts + [a])[1..] == acts[1..] + [a];
      RunSnoc(R.Next(c, acts[0], rules), acts[1..], a, rules);
    }
  }

  lemma {:induction false} WatchedCase(s: Sight, calls: seq<Call>, rules: R.Rules)
    requires A.Shaped(s.state.d)
    ensures WatchAll(s, calls, rules).state == R.Run(s.state, Acts(calls), rules)
    decreases |calls|
  {
    if calls != [] {
      var before, last := calls[..|calls| - 1], calls[|calls| - 1];
      WatchedCase(s, before, rules);
      RunSnoc(s.state, Acts(before), last.act, rules);
    }
  }

  /**
   * Over every run of a dispute the mirror shows the contract's case: its status,
   * rounds, seats, votes, counts, deadlines and ruling, appeals included.
   */
  lemma MirrorFollowsRun(s: Sight, calls: seq<Call>, rules: R.Rules)
    requires InStep(s) && AllDrawn(calls, s.state.client, s.state.freelancer)
    ensures Mirrors(WatchAll(s, calls, rules).mirror, R.Run(s.state, Acts(calls), rules))
  {
    AllStayInStep(s, calls, rules, s.state.client, s.state.freelancer);
    WatchedCase(s, calls, rules);
  }

  // ---- The opening ----

  /** The two events that open a dispute. */
  function Opening(id: nat, opener: Wallet, panel: seq<Wallet>): seq<Event>
    requires |panel| <= 3
  {
    [DisputeOpened(id, opener), ArbitersSelected(id, 0, MockChain.Padded(panel), |panel|)]
  }

  /** A row on which no round was ever played. */
  predicate Unplayed(d: DisputeRow) {
    && d.appealCount == 0 && !d.finalized && d.status != Resolved
    && (forall j: nat :: j in d.tally ==> j == 0 && d.tally[j] == [0, 0, 0])
  }

  /** The row on which the mirror will show the dispute, if it writes one. */
  predicate HasUnplayedRow(m: Mirror, id: nat, opener: Wallet) {
    match Seen(m, id)
    case None => FindAt(m.users, UserWithWallet(opener)).Some?
    case Some(p) => Unplayed(p.dispute)
  }

  /** The row after the panel of round 0 is known. */
  predicate IsStarted(d: DisputeRow, n: DisputeRow, panel: seq<Wallet>, commit: nat, revealing: nat) {
    && n.round == 0 && n.appealCount == d.appealCount && n.selected == panel && n.committed == [] && n.revealed == []
    && n.tally == d.tally && n.commitDeadline == Some(1000 * commit) && n.revealDeadline == Some(1000 * revealing)
    && n.phase == CommitPhase && n.finalized == d.finalized && n.status == d.status
  }

  lemma StartedRow(d: DisputeRow, id: nat, panel: seq<Wallet>, clock: nat, l: Log, w: Windows)
    requires |panel| <= 3 && ZERO_WALLET !in panel && l.time == 1000 * clock
    requires l.event == ArbitersSelected(id, 0, MockChain.Padded(panel), |panel|)
    ensures IsStarted(d, RoundUpdate(d, l, w), panel, clock + w.commit, clock + w.commit + w.revealing)
  {
    MockRoster.PanelInMirror(panel);
  }

  /** The started row shows the opened case exactly when no round was played on it before. */
  lemma StartedShows(d: DisputeRow, n: DisputeRow, c: R.Case, panel: seq<Wallet>, stakes: map<A.Address, nat>, w: A.Windows)
    requires A.Shaped(c.d) && |c.d.rounds| == 1 && c.d.appealCount == 0 && c.status == Disputed
    requires A.FreshRound(A.Current(c.d), panel, stakes, c.clock, w) && panel != []
    requires IsStarted(d, n, panel, c.clock + w.commit, c.clock + w.commit + w.revealing)
    ensures Shows(n, c) <==> Unplayed(d)
  {
    var r := A.Current(c.d);
    assert c.d.rounds[0] == r;
  }

  /** The mirror has the milestone, in a status it can be disputed from. */
  predicate Disputable(m: Mirror, id: nat) {
    var k := FindAt(m.milestones, HasOnchainId(id));
    k.Some? && m.milestones[k.value].status in {Funded, Submitted}
  }

  predicate OpensRow(m: Mirror, n: Mirror, id: nat, opener: Wallet) {
    && (Seen(n, id).Some? <==> Seen(m, id).Some? || FindAt(m.users, UserWithWallet(opener)).Some?)
    && (Seen(n, id).Some? ==>
          Seen(n, id).value.milestone.status == Disputed && (Unplayed(Seen(n, id).value.dispute) <==> HasUnplayedRow(m, id, opener)))
  }

  lemma {:induction false} FindAppended<T>(rows: seq<T>, r: T, p: T -> bool)
    requires p(r)
    ensures Find(rows + [r], p) == Some(|rows|)
  {
  }

  /** A dispute row that is there is kept. */
  lemma KeptRow(m: Mirror, l: Log, id: nat, opener: Wallet)
    requires l.event == DisputeOpened(id, opener) && Disputable(m, id) && Seen(m, id).Some?
    ensures var p := Seen(ApplyDisputeOpened(m, l), id);
      p.Some? && p.value.milestone.status == Disputed && p.value.dispute == Seen(m, id).value.dispute
  {
    var n := ApplyDisputeOpened(m, l);
    var k := FindAt(m.milestones, HasOnchainId(id)).value;
    var i := FindAt(m.disputes, DisputeOf(m.milestones[k].id)).value;
    SeenAfter(m, n, id, k, i, n.milestones[k], m.disputes[i]);
  }

  /** The row an opening writes is the milestone's and the opener's, and nobody has acted on it. */
  predicate IsWritten(p: Pair, users: seq<UserRow>, opener: Wallet) {
    && p.milestone.status == Disputed && Generation.Unruled(p.dispute, p.dispute)
    && p.dispute.milestoneId == p.milestone.id && p.dispute.projectId == p.milestone.projectId && p.dispute.reason.Some?
    && exists u :: 0 <= u < |users| && users[u].id == p.dispute.openedBy && users[u].wallet == opener
  }

  lemma WrittenRow(m: Mirror, l: Log, id: nat, opener: Wallet)
    requires l.event == DisputeOpened(id, opener) && Disputable(m, id) && Seen(m, id).None? && FindAt(m.users, UserWithWallet(opener)).Some?
    ensures Seen(ApplyDisputeOpened(m, l), id).Some? && IsWritten(Seen(ApplyDisputeOpened(m, l), id).value, m.users, opener)
  {
    var n := ApplyDisputeOpened(m, l);
    var k, u := FindAt(m.milestones, HasOnchainId(id)).value, FindAt(m.users, UserWithWallet(opener)).value;
    FindAgrees(m.milestones, n.milestones, HasOnchainId(id));
    FindAppended(m.disputes, n.disputes[|m.disputes|], DisputeOf(m.milestones[k].id));
    assert m.users[u].id == n.disputes[|m.disputes|].openedBy;
  }

  lemma UnwrittenRow(m: Mirror, l: Log, id: nat, opener: Wallet)
    requires l.event == DisputeOpened(id, opener) && Disputable(m, id) && Seen(m, id).None? && FindAt(m.users, UserWithWallet(opener)).None?
    ensures Seen(ApplyDisputeOpened(m, l), id).None?
  {
    FindAgrees(m.milestones, ApplyDisputeOpened(m, l).milestones, HasOnchainId(id));
  }

  /** The first event moves the milestone, and writes a dispute row when there is none and the opener is known. */
  lemma OpenedRow(m: Mirror, l: Log, id: nat, opener: Wallet)
    requires l.event == DisputeOpened(id, opener) && Disputable(m, id)
    ensures OpensRow(m, ApplyDisputeOpened(m, l), id, opener)
  {
    if Seen(m, id).Some? {
      KeptRow(m, l, id, opener);
    } else if FindAt(m.users, UserWithWallet(opener)).Some? {
      WrittenRow(m, l, id, opener);
    } else {
      UnwrittenRow(m, l, id, opener);
    }
  }

  /** Hearing the first event of an opening. */
  lemma HearOpened(m: Mirror, l: Log, id: nat, opener: Wallet, w: Windows)
    requires Fresh(m, l.tx, l.index) && l.event == DisputeOpened(id, opener) && Disputable(m, id)
    ensures Fresh(Ingest(m, l, w), l.tx, l.index + 1) && OpensRow(m, Ingest(m, l, w), id, opener)
  {
    FreshIsNew(m, l, w);
    OpenedRow(Recorded(m, l), l, id, opener);
    assert Seen(Recorded(m, l), id) == Seen(m, id);
  }

  /** Without a dispute row the panel is not shown. */
  lemma HearUnseen(m: Mirror, l: Log, id: nat, w: Windows)
    requires Fresh(m, l.tx, l.index) && l.event.ArbitersSelected? && l.event.milestone == id && Seen(m, id).None?
    ensures Seen(Ingest(m, l, w), id).None?
  {
    FreshIsNew(m, l, w);
  }

  /** The first event's mirror, and whether the second one's shows the opened case. */
  lemma HearPanel(m: Mirror, l: Log, c: R.Case, panel: seq<Wallet>, stakes: map<A.Address, nat>, rules: R.Rules)
    requires Fresh(m, l.tx, l.index) && |panel| <= 3 && panel != [] && ZERO_WALLET !in panel && l.time == 1000 * c.clock
    requires l.event == ArbitersSelected(c.id, 0, MockChain.Padded(panel), |panel|)
    requires Seen(m, c.id).Some? ==> Seen(m, c.id).value.milestone.status == Disputed
    requires A.Shaped(c.d) && |c.d.rounds| == 1 && c.d.appealCount == 0 && c.status == Disputed
    requires A.FreshRound(A.Current(c.d), panel, stakes, c.clock, rules.w)
    ensures Mirrors(Ingest(m, l, WindowsOf(rules)), c) <==> Seen(m, c.id).Some? && Unplayed(Seen(m, c.id).value.dispute)
  {
    var w := WindowsOf(rules);
    if Seen(m, c.id).Some? {
      var d := Seen(m, c.id).value.dispute;
      HearRound(m, l, c.id, w);
      StartedRow(d, c.id, panel, c.clock, l, w);
      StartedShows(d, RoundUpdate(d, l, w), c, panel, stakes, rules.w);
    } else {
      HearUnseen(m, l, c.id, w);
    }
  }

  /** The opening's two logs. */
  lemma HearOpening(m: Mirror, c: R.Case, opener: Wallet, panel: seq<Wallet>, stakes: map<A.Address, nat>, rules: R.Rules, k: Log, l: Log)
    requires Disputable(m, c.id) && Fresh(m, k.tx, 0) && k.index == 0 && l.tx == k.tx && l.index == 1 && l.time == 1000 * c.clock
    requires |panel| <= 3 && panel != [] && ZERO_WALLET !in panel
    requires k.event == DisputeOpened(c.id, opener) && l.event == ArbitersSelected(c.id, 0, MockChain.Padded(panel), |panel|)
    requires A.Shaped(c.d) && |c.d.rounds| == 1 && c.d.appealCount == 0 && c.status == Disputed
    requires A.FreshRound(A.Current(c.d), panel, stakes, c.clock, rules.w)
    ensures var w := WindowsOf(rules); var n := Ingest(Ingest(m, k, w), l, w);
      (Mirrors(n, c) <==> HasUnplayedRow(m, c.id, opener)) && Fresh(n, l.tx + 1, 0)
  {
    var w := WindowsOf(rules);
    HearOpened(m, k, c.id, opener, w);
    HearPanel(Ingest(m, k, w), l, c, panel, stakes, rules);
    FreshIsNew(Ingest(m, k, w), l, w);
  }

  /**
   * The mirror shows the opened case exactly when the milestone's dispute row is
   * unplayed, or there is none and the opener is a known user.
   */
  lemma OpeningShown(m: Mirror, c: R.Case, value: nat, panel: seq<Wallet>, stakes: map<A.Address, nat>, rules: R.Rules, tx: nat)
    requires Disputable(m, c.id) && Fresh(m, tx, 0) && |panel| <= 3 && panel != [] && ZERO_WALLET !in panel
    requires c == R.Opened(c.id, c.client, c.freelancer, c.d.openedBy, value, panel, stakes, c.clock, rules)
    ensures var n := Hear(m, Opening(c.id, c.d.openedBy, panel), 1000 * c.clock, tx, 0, WindowsOf(rules));
      (Mirrors(n, c) <==> HasUnplayedRow(m, c.id, c.d.openedBy)) && Fresh(n, tx + 1, 0)
  {
    var opener, time, w := c.d.openedBy, 1000 * c.clock, WindowsOf(rules);
    var e, f := DisputeOpened(c.id, opener), ArbitersSelected(c.id, 0, MockChain.Padded(panel), |panel|);
    A.OpenExactly(opener, value, panel, stakes, c.clock, rules.w);
    HearTwo(m, e, f, time, tx, 0, 1, w);
    HearOpening(m, c, opener, panel, stakes, rules, Log(tx, time, tx, 0, e), Log(tx, time, tx, 1, f));
  }

  /** From the opening on, whatever the run: the mirror shows the contract's case after the last call. */
  lemma DisputeIsMirrored(m: Mirror, c: R.Case, value: nat, panel: seq<Wallet>, stakes: map<A.Address, nat>, rules: R.Rules,
                          calls: seq<Call>, tx: nat)
    requires Disputable(m, c.id) && Fresh(m, tx, 0) && HasUnplayedRow(m, c.id, c.d.openedBy)
    requires panel != [] && ZERO_WALLET !in panel && A.ValidPanel(panel, c.client, c.freelancer)
    requires c == R.Opened(c.id, c.client, c.freelancer, c.d.openedBy, value, panel, stakes, c.clock, rules)
    requires AllDrawn(calls, c.client, c.freelancer)
    ensures var n := Hear(m, Opening(c.id, c.d.openedBy, panel), 1000 * c.clock, tx, 0, WindowsOf(rules));
      Mirrors(WatchAll(Sight(c, n, tx + 1), calls, rules).mirror, R.Run(c, Acts(calls), rules))
  {
    A.OpenOk(c.d.openedBy, value, panel, stakes, c.clock, rules.w, c.id, c.client, c.freelancer);
    OpeningShown(m, c, value, panel, stakes, rules, tx);
    MirrorFollowsRun(Sight(c, Hear(m, Opening(c.id, c.d.openedBy, panel), 1000 * c.clock, tx, 0, WindowsOf(rules)), tx + 1), calls, rules);
  }
}
