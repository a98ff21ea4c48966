/**
 * One dispute as the escrow contract runs it: commit, reveal, tally, appeal and
 * finalize (apps/contracts/contracts/Escrow.sol). A call either returns the new
 * dispute or the error it reverts with.
 */
module Arbitration {
  import opened Basics
  import opened Milestones

  type Address = nat

  const ZERO_ADDRESS: Address := 0

  const RELEASE: nat := 0
  const REFUND: nat := 1
  const SPLIT: nat := 2

  const QUORUM: nat := 2
  const MAX_ARBITERS: nat := 3
  const MAX_APPEALS: nat := 2

  /** What an arbiter hashes. */
  datatype Ballot = Ballot(outcome: nat, salt: nat, arbiter: Address, milestone: nat, round: nat)

  /** A commit hash: the digest of one ballot, some other 32 bytes, or zero. */
  datatype Digest = Zero | Of(ballot: Ballot) | Other(bits: nat)

  datatype Round = Round(
    arbiters: seq<Address>,
    weights: map<Address, nat>,
    commits: map<Address, Digest>,
    votes: map<Address, nat>,
    commitCount: nat,
    revealCount: nat,
    tally: seq<nat>,
    commitDeadline: nat,
    revealDeadline: nat,
    resolved: bool,
    winner: nat)

  datatype Dispute = Dispute(
    openedBy: Address,
    fee: nat,
    round: nat,
    appealCount: nat,
    settledOutcome: nat,
    settledArbiters: seq<Address>,
    rounds: seq<Round>)

  datatype Windows = Windows(commit: nat, revealing: nat, appeal: nat)

  datatype Error =
    | NotDisputed
    | NotParty
    | NotSelectedArbiter
    | ArbitrationAlreadyResolved
    | CommitDeadlinePassed
    | AlreadyCommitted
    | EmptyCommit
    | CommitDeadlineNotPassed
    | RevealWindowClosed
    | AlreadyRevealed
    | InvalidOutcome
    | CommitMismatch
    | AppealAlreadyOpen
    | RevealWindowOpen
    | WrongPhase
    | AppealWindowOpen
    | AppealWindowClosed
    | AppealLimitReached
    | DisputeFeeTooLow
    | NotEnoughArbiters

  // ---- Rounds ----

  function RequiredReveals(seats: nat): nat {
    if seats < QUORUM then seats else QUORUM
  }

  /** The outcome with strictly the most votes; a tie is a split. */
  function Ruling(tally: seq<nat>): nat
    requires |tally| == 3
  {
    if tally[RELEASE] > tally[REFUND] && tally[RELEASE] > tally[SPLIT] then RELEASE
    else if tally[REFUND] > tally[RELEASE] && tally[REFUND] > tally[SPLIT] then REFUND
    else SPLIT
  }

  /** The contract's two passes over the tally: best index, then tie detection. */
  method WinningOutcome(tally: seq<nat>) returns (winner: nat)
    requires |tally| == 3
    ensures winner == Ruling(tally)
  {
    var best := 0;
    for i := 1 to 3
      invariant best < i
      invariant forall j :: 0 <= j < i ==> tally[j] <= tally[best]
    {
      if tally[i] > tally[best] { best := i; }
    }
    var ties := 0;
    for i := 0 to 3
      invariant 0 <= ties <= i
      invariant ties == |set j | 0 <= j < i && tally[j] == tally[best]|
    {
      assert (set j | 0 <= j < i + 1 && tally[j] == tally[best])
          == (set j | 0 <= j < i && tally[j] == tally[best]) + (if tally[i] == tally[best] then {i} else {});
      if tally[i] == tally[best] { ties := ties + 1; }
    }
    var tied := set j | 0 <= j < 3 && tally[j] == tally[best];
    assert best in tied;
    if ties > 1 {
      assert tied - {best} != {};
      var other :| other in tied - {best};
      return SPLIT;
    }
    forall j | 0 <= j < 3 && j != best
      ensures tally[j] < tally[best]
    {
      if tally[j] == tally[best] {
        SubsetSize({best, j}, tied);
      }
    }
    return best;
  }

  lemma {:induction false} SubsetSize<T>(a: set<T>, b: set<T>)
    requires a <= b
    ensures |a| <= |b|
    decreases a
  {
    if a != {} {
      var x :| x in a;
      SubsetSize(a - {x}, b - {x});
    }
  }

  predicate Quorate(r: Round) {
    r.revealCount >= RequiredReveals(|r.arbiters|)
  }

  /** A fresh round over `panel`; the stake weights are a snapshot, zero counting as one. */
  function StartRound(panel: seq<Address>, stakes: map<Address, nat>, now: nat, w: Windows): Round {
    Round(panel, map a | a in panel :: (if a in stakes && stakes[a] != 0 then stakes[a] else 1),
          map[], map[], 0, 0, [0, 0, 0], now + w.commit, now + w.commit + w.revealing, false, 0)
  }

  /** Up to three distinct arbiters, none of them a party. */
  predicate ValidPanel(panel: seq<Address>, client: Address, freelancer: Address) {
    && |panel| <= MAX_ARBITERS
    && Distinct(panel)
    && client !in panel && freelancer !in panel
  }

  // ---- Calls ----

  function Open(opener: Address, value: nat, panel: seq<Address>, stakes: map<Address, nat>, now: nat, w: Windows): Dispute {
    Dispute(opener, value, 0, 0, 0, [], [StartRound(panel, stakes, now, w)])
  }

  predicate Shaped(d: Dispute) {
    d.round + 1 == |d.rounds| && forall r :: r in d.rounds ==> |r.tally| == 3
  }

  function Current(d: Dispute): Round
    requires Shaped(d)
  {
    d.rounds[d.round]
  }

  function WithCurrent(d: Dispute, r: Round): Dispute
    requires Shaped(d)
  {
    d.(rounds := d.rounds[d.round := r])
  }

  function Committed(r: Round, sender: Address, hash: Digest): Round {
    r.(commits := r.commits[sender := hash], commitCount := r.commitCount + 1)
  }

  function Revealed(r: Round, sender: Address, outcome: nat): Round
    requires |r.tally| == 3 && outcome <= SPLIT
  {
    r.(votes := r.votes[sender := outcome], revealCount := r.revealCount + 1,
       tally := r.tally[outcome := r.tally[outcome] + 1])
  }

  function CommitVote(d: Dispute, round: nat, sender: Address, hash: Digest, now: nat): Result<Dispute, Error>
    requires Shaped(d)
  {
    var r := Current(d);
    if round != d.round then Err(NotDisputed)
    else if r.resolved then Err(ArbitrationAlreadyResolved)
    else if sender !in r.arbiters then Err(NotSelectedArbiter)
    else if now > r.commitDeadline then Err(CommitDeadlinePassed)
    else if sender in r.commits then Err(AlreadyCommitted)
    else if hash == Zero then Err(EmptyCommit)
    else Ok(WithCurrent(d, Committed(r, sender, hash)))
  }

  function RevealVote(d: Dispute, id: nat, round: nat, sender: Address, outcome: nat, salt: nat, now: nat)
    : Result<Dispute, Error>
    requires Shaped(d)
  {
    var r := Current(d);
    if round != d.round then Err(NotDisputed)
    else if r.resolved then Err(ArbitrationAlreadyResolved)
    else if sender !in r.arbiters then Err(NotSelectedArbiter)
    else if now <= r.commitDeadline then Err(CommitDeadlineNotPassed)
    else if now > r.revealDeadline then Err(RevealWindowClosed)
    else if sender in r.votes then Err(AlreadyRevealed)
    else if outcome > SPLIT then Err(InvalidOutcome)
    else if sender !in r.commits || r.commits[sender] != Of(Ballot(outcome, salt, sender, id, round)) then Err(CommitMismatch)
    else Ok(WithCurrent(d, Revealed(r, sender, outcome)))
  }

  /** The guard the two tally calls share; appeal rounds go through `resolveAppeal`, round 0 through `resolveDispute`. */
  function TallyGuard(d: Dispute, status: Status, viaAppeal: bool, now: nat): Option<Error>
    requires Shaped(d)
  {
    var r := Current(d);
    if status != Disputed then Some(NotDisputed)
    else if (d.round != 0) != viaAppeal then Some(AppealAlreadyOpen)
    else if r.resolved then Some(ArbitrationAlreadyResolved)
    else if now <= r.revealDeadline && r.revealCount < |r.arbiters| then Some(RevealWindowOpen)
    else None
  }

  /** The tally: an undecided appeal keeps the standing ruling; an undecided first round is a refund. */
  function Tally(d: Dispute): Dispute
    requires Shaped(d)
  {
    var r := Current(d);
    if !Quorate(r) then
      WithCurrent(d, r.(resolved := true, winner := if d.round > 0 then d.settledOutcome else REFUND))
    else
      var ruling := Ruling(r.tally);
      WithCurrent(d, r.(resolved := true, winner := ruling)).(settledOutcome := ruling, settledArbiters := r.arbiters)
  }

  /** The tally itself settles the milestone: round 0 without a quorum. */
  predicate NoQuorumRefund(d: Dispute)
    requires Shaped(d)
  {
    d.round == 0 && !Quorate(Current(d))
  }

  /** The outcome `finalizeDispute` executes. */
  function FinalizeGuard(d: Dispute, status: Status, now: nat, appealWindow: nat): Result<nat, Error>
    requires Shaped(d)
  {
    var r := Current(d);
    if status != Disputed then Err(NotDisputed)
    else if !r.resolved then Err(WrongPhase)
    else if now <= r.revealDeadline + appealWindow then Err(AppealWindowOpen)
    else Ok(r.winner)
  }

  function Appeal(d: Dispute, status: Status, isParty: bool, value: nat, disputeFee: nat,
                  panel: seq<Address>, stakes: map<Address, nat>, now: nat, w: Windows): Result<Dispute, Error>
    requires Shaped(d)
  {
    var r := Current(d);
    if !isParty then Err(NotParty)
    else if status != Disputed then Err(NotDisputed)
    else if value < disputeFee then Err(DisputeFeeTooLow)
    else if !r.resolved then Err(WrongPhase)
    else if now > r.revealDeadline + w.appeal then Err(AppealWindowClosed)
    else if d.appealCount >= MAX_APPEALS then Err(AppealLimitReached)
    else if panel == [] then Err(NotEnoughArbiters)
    else Ok(d.(round := d.round + 1, appealCount := d.appealCount + 1, fee := d.fee + value,
               rounds := d.rounds + [StartRound(panel, stakes, now, w)]))
  }

  /** The settled status an executed outcome leads to. */
  function SettledStatus(winner: nat): Status {
    if winner == RELEASE then ResolvedRelease else if winner == REFUND then ResolvedRefund else ResolvedSplit
  }

  // ---- What every reachable dispute satisfies ----

  /** The arbiters whose revealed vote is `o`. */
  function Voters(votes: map<Address, nat>, o: nat): set<Address> {
    set a | a in votes && votes[a] == o
  }

  ghost predicate RoundOk(r: Round, id: nat, k: nat) {
    && 1 <= |r.arbiters| <= MAX_ARBITERS
    && Distinct(r.arbiters)
    && (forall a :: a in r.arbiters ==> a in r.weights && r.weights[a] >= 1)
    && (forall a :: a in r.commits ==> a in r.arbiters)
    && Faithful(r, id, k)
    && r.revealCount == |r.votes| <= |r.commits| == r.commitCount <= |r.arbiters|
    && Counted(r)
    && r.commitDeadline <= r.revealDeadline
  }

  /** Every revealed vote is the one its commit hash bound. */
  ghost predicate Faithful(r: Round, id: nat, k: nat) {
    forall a :: a in r.votes ==>
      && a in r.commits
      && r.votes[a] <= SPLIT
      && r.commits[a].Of?
      && r.commits[a].ballot == Ballot(r.votes[a], r.commits[a].ballot.salt, a, id, k)
  }

  /** The tally counts the revealed votes. */
  ghost predicate Counted(r: Round) {
    |r.tally| == 3 && forall o :: 0 <= o < 3 ==> r.tally[o] == |Voters(r.votes, o)|
  }

  /** Nobody reveals while a commit is still possible, and nothing is tallied before every reveal is in or late. */
  predicate Timely(r: Round, clock: nat) {
    && (r.revealCount > 0 || r.resolved ==> clock > r.commitDeadline)
    && (r.resolved ==> clock > r.revealDeadline || r.revealCount == |r.arbiters|)
  }

  /** The outcome of the latest round that reached its quorum. */
  function Standing(rounds: seq<Round>): Option<nat>
    requires forall r :: r in rounds ==> |r.tally| == 3
  {
    if rounds == [] then None
    else
      var r := rounds[|rounds| - 1];
      if r.resolved && Quorate(r) then Some(Ruling(r.tally)) else Standing(rounds[..|rounds| - 1])
  }

  /** The superseded rounds: each one sound and tallied. */
  ghost predicate EarlierOk(rounds: seq<Round>, id: nat) {
    rounds == [] ||
    (var k := |rounds| - 1; RoundOk(rounds[k], id, k) && rounds[k].resolved && EarlierOk(rounds[..k], id))
  }

  ghost predicate DisputeOk(d: Dispute, id: nat, clock: nat) {
    && Shaped(d)
    && d.round == d.appealCount <= MAX_APPEALS
    && EarlierOk(d.rounds[..d.round], id)
    && RoundOk(Current(d), id, d.round)
    && Timely(Current(d), clock)
    && (d.round > 0 ==> Standing(d.rounds[..d.round]).Some?)
    && (Standing(d.rounds).Some? ==> d.settledOutcome == Standing(d.rounds).value)
    && (Current(d).resolved ==>
          Current(d).winner == if Standing(d.rounds).Some? then Standing(d.rounds).value else REFUND)
  }

  /** Ties the dispute to its milestone: the money stays put exactly until a final step is taken. */
  ghost predicate StatusOk(d: Dispute, status: Status)
    requires Shaped(d)
  {
    && (status == Disputed ==> Current(d).resolved ==> Standing(d.rounds).Some?)
    && (status != Disputed ==> Current(d).resolved && status == SettledStatus(Current(d).winner))
  }

  lemma StandingAppend(rounds: seq<Round>, r: Round)
    requires forall x :: x in rounds ==> |x.tally| == 3
    requires |r.tally| == 3
    ensures Standing(rounds + [r]) == if r.resolved && Quorate(r) then Some(Ruling(r.tally)) else Standing(rounds)
  {
    assert (rounds + [r])[..|rounds|] == rounds;
  }

  /** Replacing the current round by an unresolved one leaves the standing ruling to the earlier rounds. */
  lemma StandingOfCurrent(d: Dispute, r: Round)
    requires Shaped(d) && |r.tally| == 3
    ensures Standing(WithCurrent(d, r).rounds)
         == if r.resolved && Quorate(r) then Some(Ruling(r.tally)) else Standing(d.rounds[..d.round])
    ensures WithCurrent(d, r).rounds[..d.round] == d.rounds[..d.round]
  {
    assert WithCurrent(d, r).rounds == d.rounds[..d.round] + [r];
    StandingAppend(d.rounds[..d.round], r);
  }

  lemma RulingIsValid(tally: seq<nat>)
    requires |tally| == 3
    ensures Ruling(tally) <= SPLIT
    ensures Ruling(tally) != SPLIT ==> forall o :: 0 <= o < 3 && o != Ruling(tally) ==> tally[o] < tally[Ruling(tally)]
    ensures Ruling(tally) == SPLIT ==>
      (forall o :: 0 <= o < 2 ==> tally[o] < tally[SPLIT]) || tally[RELEASE] == tally[REFUND]
      || (exists o :: 0 <= o < 2 && tally[o] == tally[SPLIT])
  {
  }

  // ---- What each call asks and leaves ----

  /** A condition under which a call is refused, and the error it is refused with. */
  type Check = (bool, Error)

  /** The error of the first check that holds. */
  function FirstOf(checks: seq<Check>): Option<Error> {
    if checks == [] then None else if checks[0].0 then Some(checks[0].1) else FirstOf(checks[1..])
  }

  lemma FirstCons(check: Check, rest: seq<Check>)
    ensures FirstOf([check] + rest) == if check.0 then Some(check.1) else FirstOf(rest)
  {
    assert ([check] + rest)[1..] == rest;
  }

  lemma FirstOfThree(u: Check, v: Check, w: Check)
    ensures FirstOf([u, v, w]) ==
      if u.0 then Some(u.1) else if v.0 then Some(v.1) else if w.0 then Some(w.1) else None
  {
    FirstCons(u, [v, w]);
    assert [u] + [v, w] == [u, v, w];
    FirstCons(v, [w]);
    assert [v] + [w] == [v, w];
    FirstCons(w, []);
    assert [w] + [] == [w];
  }

  lemma FirstOfFour(t: Check, u: Check, v: Check, w: Check)
    ensures FirstOf([t, u, v, w]) ==
      if t.0 then Some(t.1) else if u.0 then Some(u.1) else if v.0 then Some(v.1) else if w.0 then Some(w.1) else None
  {
    FirstCons(t, [u, v, w]);
    assert [t] + [u, v, w] == [t, u, v, w];
    FirstOfThree(u, v, w);
  }

  lemma FirstOfSix(r: Check, s: Check, t: Check, u: Check, v: Check, w: Check)
    ensures FirstOf([r, s, t, u, v, w]) ==
      if r.0 then Some(r.1) else if s.0 then Some(s.1) else if t.0 then Some(t.1)
      else if u.0 then Some(u.1) else if v.0 then Some(v.1) else if w.0 then Some(w.1) else None
  {
    FirstCons(r, [s, t, u, v, w]);
    assert [r] + [s, t, u, v, w] == [r, s, t, u, v, w];
    FirstCons(s, [t, u, v, w]);
    assert [s] + [t, u, v, w] == [s, t, u, v, w];
    FirstOfFour(t, u, v, w);
  }

  lemma FirstOfSeven(q: Check, r: Check, s: Check, t: Check, u: Check, v: Check, w: Check)
    ensures FirstOf([q, r, s, t, u, v, w]) ==
      if q.0 then Some(q.1) else if r.0 then Some(r.1) else if s.0 then Some(s.1) else if t.0 then Some(t.1)
      else if u.0 then Some(u.1) else if v.0 then Some(v.1) else if w.0 then Some(w.1) else None
  {
    FirstCons(q, [r, s, t, u, v, w]);
    assert [q] + [r, s, t, u, v, w] == [q, r, s, t, u, v, w];
    FirstOfSix(r, s, t, u, v, w);
  }

  lemma FirstOfEight(p: Check, q: Check, r: Check, s: Check, t: Check, u: Check, v: Check, w: Check)
    ensures FirstOf([p, q, r, s, t, u, v, w]) ==
      if p.0 then Some(p.1) else if q.0 then Some(q.1) else if r.0 then Some(r.1) else if s.0 then Some(s.1)
      else if t.0 then Some(t.1) else if u.0 then Some(u.1) else if v.0 then Some(v.1) else if w.0 then Some(w.1) else None
  {
    FirstCons(p, [q, r, s, t, u, v, w]);
    assert [p] + [q, r, s, t, u, v, w] == [p, q, r, s, t, u, v, w];
    FirstOfSeven(q, r, s, t, u, v, w);
  }

  function Refusal<T>(r: Result<T, Error>): Option<Error> {
    match r case Ok(_) => None case Err(e) => Some(e)
  }

  /** Two disputes that differ in their current round only. */
  predicate SameButRound(d: Dispute, e: Dispute) {
    Shaped(d) && Shaped(e) && e == d.(rounds := d.rounds[d.round := Current(e)])
  }

  /** A commit is refused for the first of six reasons; else it leaves the sender's hash, one more commit, and all else as it was. */
  lemma CommitExactly(d: Dispute, round: nat, sender: Address, hash: Digest, now: nat)
    requires Shaped(d)
    ensures var r := Current(d);
      Refusal(CommitVote(d, round, sender, hash, now)) == FirstOf([
        (round != d.round, NotDisputed), (r.resolved, ArbitrationAlreadyResolved), (sender !in r.arbiters, NotSelectedArbiter),
        (now > r.commitDeadline, CommitDeadlinePassed), (sender in r.commits, AlreadyCommitted), (hash == Zero, EmptyCommit)])
    ensures CommitVote(d, round, sender, hash, now).Ok? ==>
      var r, e := Current(d), CommitVote(d, round, sender, hash, now).value;
      && SameButRound(d, e)
      && Current(e).commits.Keys == r.commits.Keys + {sender} && Current(e).commits[sender] == hash
      && (forall a :: a in r.commits ==> Current(e).commits[a] == r.commits[a])
      && Current(e).commitCount == r.commitCount + 1
      && Current(e).(commits := r.commits, commitCount := r.commitCount) == r
  {
    var r := Current(d);
    FirstOfSix((round != d.round, NotDisputed), (r.resolved, ArbitrationAlreadyResolved), (sender !in r.arbiters, NotSelectedArbiter),
               (now > r.commitDeadline, CommitDeadlinePassed), (sender in r.commits, AlreadyCommitted), (hash == Zero, EmptyCommit));
  }

  /** A reveal is refused for the first of eight reasons; else it leaves the sender's vote, counted once, and all else as it was. */
  lemma RevealExactly(d: Dispute, id: nat, round: nat, sender: Address, outcome: nat, salt: nat, now: nat)
    requires Shaped(d)
    ensures var r := Current(d);
      Refusal(RevealVote(d, id, round, sender, outcome, salt, now)) == FirstOf([
        (round != d.round, NotDisputed), (r.resolved, ArbitrationAlreadyResolved), (sender !in r.arbiters, NotSelectedArbiter),
        (now <= r.commitDeadline, CommitDeadlineNotPassed), (now > r.revealDeadline, RevealWindowClosed), (sender in r.votes, AlreadyRevealed),
        (outcome > 2, InvalidOutcome), (sender !in r.commits || r.commits[sender] != Of(Ballot(outcome, salt, sender, id, round)), CommitMismatch)])
    ensures RevealVote(d, id, round, sender, outcome, salt, now).Ok? ==>
      var r, e := Current(d), RevealVote(d, id, round, sender, outcome, salt, now).value;
      && SameButRound(d, e)
      && Current(e).votes.Keys == r.votes.Keys + {sender} && Current(e).votes[sender] == outcome
      && (forall a :: a in r.votes && a != sender ==> Current(e).votes[a] == r.votes[a])
      && Current(e).revealCount == r.revealCount + 1
      && |Current(e).tally| == 3 && (forall o :: 0 <= o < 3 ==> Current(e).tally[o] == r.tally[o] + if o == outcome then 1 else 0)
      && Current(e).(votes := r.votes, revealCount := r.revealCount, tally := r.tally) == r
  {
    var r := Current(d);
    FirstOfEight(
      (round != d.round, NotDisputed), (r.resolved, ArbitrationAlreadyResolved), (sender !in r.arbiters, NotSelectedArbiter),
      (now <= r.commitDeadline, CommitDeadlineNotPassed), (now > r.revealDeadline, RevealWindowClosed), (sender in r.votes, AlreadyRevealed),
      (outcome > 2, InvalidOutcome), (sender !in r.commits || r.commits[sender] != Of(Ballot(outcome, salt, sender, id, round)), CommitMismatch));
  }

  /** The strict majority among the three counts, or a split. */
  predicate Majority(tally: seq<nat>, winner: nat)
    requires |tally| == 3
  {
    && winner <= 2
    && (winner == 0 <==> tally[0] > tally[1] && tally[0] > tally[2])
    && (winner == 1 <==> tally[1] > tally[0] && tally[1] > tally[2])
  }

  /** Enough reveals to decide: two, or everybody on a one-seat panel. */
  predicate Decides(revealed: nat, seats: nat) {
    revealed >= 2 || revealed >= seats
  }

  /**
   * A tally is refused for the first of four reasons. It decides by majority when
   * enough was revealed, and puts that ruling and its panel on record; otherwise
   * an appeal keeps the ruling on record, and a first round is a refund.
   */
  lemma TallyExactly(d: Dispute, status: Status, viaAppeal: bool, now: nat)
    requires Shaped(d)
    ensures var r := Current(d);
      TallyGuard(d, status, viaAppeal, now) == FirstOf([
        (status != Disputed, NotDisputed), (viaAppeal != (d.round > 0), AppealAlreadyOpen), (r.resolved, ArbitrationAlreadyResolved),
        (now <= r.revealDeadline && r.revealCount < |r.arbiters|, RevealWindowOpen)])
    ensures var r, e := Current(d), Tally(d);
      && Shaped(e) && e.round == d.round && e.openedBy == d.openedBy && e.fee == d.fee && e.appealCount == d.appealCount
      && (forall k :: 0 <= k < d.round ==> e.rounds[k] == d.rounds[k])
      && Current(e).resolved && Current(e).(resolved := r.resolved, winner := r.winner) == r
      && (Decides(r.revealCount, |r.arbiters|) ==>
            Majority(r.tally, Current(e).winner) && e.settledOutcome == Current(e).winner && e.settledArbiters == r.arbiters)
      && (!Decides(r.revealCount, |r.arbiters|) ==>
            && e.settledOutcome == d.settledOutcome && e.settledArbiters == d.settledArbiters
            && Current(e).winner == if d.round > 0 then d.settledOutcome else 1)
    ensures NoQuorumRefund(d) <==> d.round == 0 && !Decides(Current(d).revealCount, |Current(d).arbiters|)
  {
    var r := Current(d);
    FirstOfFour((status != Disputed, NotDisputed), (viaAppeal != (d.round > 0), AppealAlreadyOpen), (r.resolved, ArbitrationAlreadyResolved),
                (now <= r.revealDeadline && r.revealCount < |r.arbiters|, RevealWindowOpen));
  }

  lemma FinalizeExactly(d: Dispute, status: Status, now: nat, appealWindow: nat)
    requires Shaped(d)
    ensures var r := Current(d);
      && Refusal(FinalizeGuard(d, status, now, appealWindow)) == FirstOf([
        (status != Disputed, NotDisputed), (!r.resolved, WrongPhase), (now <= r.revealDeadline + appealWindow, AppealWindowOpen)])
      && (FinalizeGuard(d, status, now, appealWindow).Ok? ==> FinalizeGuard(d, status, now, appealWindow).value == r.winner)
  {
    var r := Current(d);
    FirstOfThree((status != Disputed, NotDisputed), (!r.resolved, WrongPhase), (now <= r.revealDeadline + appealWindow, AppealWindowOpen));
  }

  /**
   * An appeal is refused for the first of seven reasons; else it adds its fee to
   * the pot and a fresh round to the rounds there were.
   */
  lemma AppealExactly(d: Dispute, status: Status, isParty: bool, value: nat, disputeFee: nat, panel: seq<Address>,
                      stakes: map<Address, nat>, now: nat, w: Windows)
    requires Shaped(d)
    ensures var r := Current(d);
      Refusal(Appeal(d, status, isParty, value, disputeFee, panel, stakes, now, w)) == FirstOf([
        (!isParty, NotParty), (status != Disputed, NotDisputed), (value < disputeFee, DisputeFeeTooLow), (!r.resolved, WrongPhase),
        (now > r.revealDeadline + w.appeal, AppealWindowClosed), (d.appealCount >= 2, AppealLimitReached), (panel == [], NotEnoughArbiters)])
    ensures Appeal(d, status, isParty, value, disputeFee, panel, stakes, now, w).Ok? ==>
      var e := Appeal(d, status, isParty, value, disputeFee, panel, stakes, now, w).value;
      && Shaped(e) && |e.rounds| == |d.rounds| + 1 && e.rounds[..d.round + 1] == d.rounds
      && e.openedBy == d.openedBy && e.fee == d.fee + value && e.appealCount == d.appealCount + 1
      && e.settledOutcome == d.settledOutcome && e.settledArbiters == d.settledArbiters
      && FreshRound(Current(e), panel, stakes, now, w)
  {
    var r := Current(d);
    FirstOfSeven((!isParty, NotParty), (status != Disputed, NotDisputed), (value < disputeFee, DisputeFeeTooLow), (!r.resolved, WrongPhase),
                 (now > r.revealDeadline + w.appeal, AppealWindowClosed), (d.appealCount >= 2, AppealLimitReached),
                 (panel == [], NotEnoughArbiters));
  }

  /**
   * A round nobody has acted in: the commit window comes first and the reveal
   * window after it, and every seat weighs its stake, or one wei without one.
   */
  ghost predicate FreshRound(r: Round, panel: seq<Address>, stakes: map<Address, nat>, now: nat, w: Windows) {
    && r.arbiters == panel && r.commits == map[] && r.votes == map[] && r.commitCount == 0 && r.revealCount == 0
    && r.tally == [0, 0, 0] && !r.resolved
    && r.commitDeadline == now + w.commit && r.revealDeadline == r.commitDeadline + w.revealing
    && (forall a :: a in r.weights <==> a in panel)
    && (forall a :: a in panel && a in stakes && stakes[a] > 0 ==> r.weights[a] == stakes[a])
    && (forall a :: a in panel && (a in stakes ==> stakes[a] == 0) ==> r.weights[a] == 1)
  }

  lemma OpenExactly(opener: Address, value: nat, panel: seq<Address>, stakes: map<Address, nat>, now: nat, w: Windows)
    ensures var d := Open(opener, value, panel, stakes, now, w);
      && Shaped(d) && |d.rounds| == 1 && FreshRound(Current(d), panel, stakes, now, w)
      && d.openedBy == opener && d.fee == value && d.appealCount == 0
  {
  }

  /** When things may happen to a round that started at `now`: commits, then reveals, then the tally. */
  lemma Timetable(opener: Address, value: nat, panel: seq<Address>, stakes: map<Address, nat>, now: nat, w: Windows,
                  sender: Address, hash: Digest, t: nat)
    requires sender in panel && hash != Zero
    ensures var d := Open(opener, value, panel, stakes, now, w);
      && (CommitVote(d, 0, sender, hash, t).Ok? <==> t <= now + w.commit)
      && (TallyGuard(d, Disputed, false, t) == None <==> t > now + w.commit + w.revealing)
      && (CommitVote(d, 0, sender, hash, now).Ok? && hash.Of? && hash.ballot.arbiter == sender && hash.ballot.round == 0 && hash.ballot.outcome <= 2 ==>
            (RevealVote(CommitVote(d, 0, sender, hash, now).value, hash.ballot.milestone, 0, sender, hash.ballot.outcome, hash.ballot.salt, t).Ok?
             <==> now + w.commit < t <= now + w.commit + w.revealing))
  {
  }

  // ---- Each call keeps the invariants ----

  lemma OpenOk(opener: Address, value: nat, panel: seq<Address>, stakes: map<Address, nat>, now: nat, w: Windows, id: nat,
               client: Address, freelancer: Address)
    requires panel != [] && ValidPanel(panel, client, freelancer)
    ensures DisputeOk(Open(opener, value, panel, stakes, now, w), id, now)
    ensures StatusOk(Open(opener, value, panel, stakes, now, w), Disputed)
  {
    StartRoundOk(panel, stakes, now, w, id, 0, client, freelancer);
  }

  lemma StartRoundOk(panel: seq<Address>, stakes: map<Address, nat>, now: nat, w: Windows, id: nat, k: nat,
                     client: Address, freelancer: Address)
    requires panel != [] && ValidPanel(panel, client, freelancer)
    ensures RoundOk(StartRound(panel, stakes, now, w), id, k) && Timely(StartRound(panel, stakes, now, w), now)
  {
    assert forall o :: 0 <= o < 3 ==> Voters(map[], o) == {};
  }

  lemma TickOk(d: Dispute, id: nat, clock: nat, now: nat)
    requires DisputeOk(d, id, clock) && clock <= now
    ensures DisputeOk(d, id, now)
  {
  }

  /** A map whose keys are among the elements of `s` has at most |s| of them. */
  lemma {:induction false} KeysBounded(keys: set<Address>, s: seq<Address>)
    requires forall a :: a in keys ==> a in s
    ensures |keys| <= |s|
  {
    if s != [] {
      KeysBounded(keys - {s[0]}, s[1..]);
      assert |keys - {s[0]}| >= |keys| - 1;
    } else {
      assert keys == {};
    }
  }

  lemma AddKey<V>(m: map<Address, V>, k: Address, v: V)
    requires k !in m
    ensures |m[k := v]| == |m| + 1
  {
    assert m[k := v].Keys == m.Keys + {k};
  }

  lemma CommittedOk(r: Round, id: nat, k: nat, sender: Address, hash: Digest)
    requires RoundOk(r, id, k) && sender in r.arbiters && sender !in r.commits
    ensures RoundOk(Committed(r, sender, hash), id, k)
  {
    var r' := Committed(r, sender, hash);
    AddKey(r.commits, sender, hash);
    KeysBounded(r'.commits.Keys, r.arbiters);
  }

  lemma VotersAdd(votes: map<Address, nat>, sender: Address, outcome: nat, o: nat)
    requires sender !in votes
    ensures |Voters(votes[sender := outcome], o)| == |Voters(votes, o)| + if o == outcome then 1 else 0
  {
    if o == outcome {
      assert Voters(votes[sender := outcome], o) == Voters(votes, o) + {sender};
    } else {
      assert Voters(votes[sender := outcome], o) == Voters(votes, o);
    }
  }

  lemma RevealedCounted(r: Round, sender: Address, outcome: nat)
    requires Counted(r) && sender !in r.votes && outcome <= SPLIT
    ensures Counted(Revealed(r, sender, outcome))
  {
    VotersAdd(r.votes, sender, outcome, 0);
    VotersAdd(r.votes, sender, outcome, 1);
    VotersAdd(r.votes, sender, outcome, 2);
  }

  lemma RevealedOk(r: Round, id: nat, k: nat, sender: Address, outcome: nat, salt: nat)
    requires RoundOk(r, id, k) && sender in r.commits && sender !in r.votes && outcome <= SPLIT
    requires r.commits[sender] == Of(Ballot(outcome, salt, sender, id, k))
    ensures RoundOk(Revealed(r, sender, outcome), id, k)
  {
    RevealedCounted(r, sender, outcome);
    AddKey(r.votes, sender, outcome);
    SubsetSize(r.votes.Keys + {sender}, r.commits.Keys);
  }

  /** Swapping in an untallied current round keeps a dispute sound. */
  lemma UntalliedOk(d: Dispute, r: Round, id: nat, now: nat)
    requires DisputeOk(d, id, now) && !Current(d).resolved
    requires RoundOk(r, id, d.round) && Timely(r, now) && !r.resolved
    ensures DisputeOk(WithCurrent(d, r), id, now) && Standing(WithCurrent(d, r).rounds) == Standing(d.rounds)
  {
    StandingOfCurrent(d, r);
    StandingOfCurrent(d, Current(d));
    assert WithCurrent(d, Current(d)) == d;
  }

  lemma CommitVoteOk(d: Dispute, id: nat, round: nat, sender: Address, hash: Digest, now: nat)
    requires DisputeOk(d, id, now)
    requires CommitVote(d, round, sender, hash, now).Ok?
    ensures var d' := CommitVote(d, round, sender, hash, now).value;
      DisputeOk(d', id, now) && !Current(d').resolved && Standing(d'.rounds) == Standing(d.rounds)
  {
    CommittedOk(Current(d), id, d.round, sender, hash);
    UntalliedOk(d, Committed(Current(d), sender, hash), id, now);
  }

  lemma RevealVoteOk(d: Dispute, id: nat, round: nat, sender: Address, outcome: nat, salt: nat, now: nat)
    requires DisputeOk(d, id, now)
    requires RevealVote(d, id, round, sender, outcome, salt, now).Ok?
    ensures var d' := RevealVote(d, id, round, sender, outcome, salt, now).value;
      DisputeOk(d', id, now) && !Current(d').resolved && Standing(d'.rounds) == Standing(d.rounds)
  {
    RevealedOk(Current(d), id, d.round, sender, outcome, salt);
    UntalliedOk(d, Revealed(Current(d), sender, outcome), id, now);
  }

  lemma TalliedRoundOk(r: Round, id: nat, k: nat, winner: nat)
    requires RoundOk(r, id, k)
    ensures RoundOk(r.(resolved := true, winner := winner), id, k)
  {
  }

  /** What a tally does to the standing ruling. */
  lemma TallyStanding(d: Dispute)
    requires Shaped(d) && !Current(d).resolved
    ensures Shaped(Tally(d)) && Tally(d).rounds[..d.round] == d.rounds[..d.round]
    ensures Standing(d.rounds) == Standing(d.rounds[..d.round])
    ensures Standing(Tally(d).rounds) == if Quorate(Current(d)) then Some(Ruling(Current(d).tally)) else Standing(d.rounds)
  {
    var r := Current(d);
    var r' := Current(Tally(d));
    assert Tally(d).rounds == WithCurrent(d, r').rounds;
    StandingOfCurrent(d, r');
    StandingOfCurrent(d, r);
    assert WithCurrent(d, r) == d;
  }

  /** A tally resolves the round; afterwards the dispute awaits finalization unless the tally was the no-quorum refund. */
  lemma TallyOk(d: Dispute, id: nat, now: nat, viaAppeal: bool)
    requires DisputeOk(d, id, now) && StatusOk(d, Disputed)
    requires TallyGuard(d, Disputed, viaAppeal, now) == None
    ensures DisputeOk(Tally(d), id, now) && Current(Tally(d)).resolved
    ensures StatusOk(Tally(d), if NoQuorumRefund(d) then ResolvedRefund else Disputed)
    ensures Standing(Tally(d).rounds) == if Quorate(Current(d)) then Some(Ruling(Current(d).tally)) else Standing(d.rounds)
  {
    TallyStanding(d);
    TalliedRoundOk(Current(d), id, d.round, Current(Tally(d)).winner);
  }

  lemma AppealOk(d: Dispute, id: nat, isParty: bool, value: nat, disputeFee: nat, panel: seq<Address>,
                 stakes: map<Address, nat>, now: nat, w: Windows, client: Address, freelancer: Address)
    requires DisputeOk(d, id, now) && StatusOk(d, Disputed)
    requires ValidPanel(panel, client, freelancer)
    requires Appeal(d, Disputed, isParty, value, disputeFee, panel, stakes, now, w).Ok?
    ensures var d' := Appeal(d, Disputed, isParty, value, disputeFee, panel, stakes, now, w).value;
      && DisputeOk(d', id, now) && StatusOk(d', Disputed)
      && Standing(d'.rounds) == Standing(d.rounds)
  {
    var d' := Appeal(d, Disputed, isParty, value, disputeFee, panel, stakes, now, w).value;
    StartRoundOk(panel, stakes, now, w, id, d'.round, client, freelancer);
    StandingAppend(d.rounds, StartRound(panel, stakes, now, w));
    assert d'.rounds[..d'.round] == d.rounds;
  }
}
