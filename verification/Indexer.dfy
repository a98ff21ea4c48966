/**
 * The database mirror and the event ingest that fills it
 * (apps/api/src/chain/indexer.ts, apps/api/src/db/schema.ts). Identifiers and
 * wallets are only ever compared, so numbers stand for them; wallets are lower case.
 */
module Indexer {
  import opened Basics
  import opened Milestones

  type Id = nat
  type Wallet = nat

  datatype Soft = SoftSubmitted | ChangesRequested

  datatype MilestoneRow = MilestoneRow(
    id: Id,
    projectId: Id,
    amount: nat,
    softStatus: Option<Soft>,
    onchainId: Option<nat>,
    status: Status,
    fundedTx: Option<nat>,
    fundedAt: Option<nat>,
    submittedAt: Option<nat>,
    settledAt: Option<nat>,
    settlementTx: Option<nat>,
    withdrawnAt: Option<nat>,
    withdrawTx: Option<nat>)

  datatype DisputeStatus = Open | Agreed | Assigned | Resolved

  datatype Phase = NoPhase | CommitPhase | RevealPhase | ResolvedPhase

  datatype DisputeRow = DisputeRow(
    milestoneId: Id,
    projectId: Id,
    openedBy: Id,
    reason: Option<string>,
    status: DisputeStatus,
    round: nat,
    phase: Phase,
    selected: seq<Wallet>,
    commitDeadline: Option<nat>,
    revealDeadline: Option<nat>,
    appealCount: nat,
    tally: map<nat, seq<nat>>,
    revealed: seq<Wallet>,
    committed: seq<Wallet>,
    finalized: bool,
    finalizedAt: Option<nat>,
    resolvedArbiter: Option<Wallet>,
    outcome: Option<nat>,
    resolutionTx: Option<nat>,
    resolvedAt: Option<nat>)

  datatype ProjectStatus = Active | Completed | ProjectCancelled

  datatype ProjectRow = ProjectRow(id: Id, clientId: Id, freelancerId: Id, status: ProjectStatus)

  datatype UserRow = UserRow(id: Id, wallet: Wallet, earned: nat, paid: nat, asClient: nat, asFreelancer: nat)

  datatype Event =
    | MilestoneFunded(milestone: nat, ref: Option<Id>, client: Wallet, freelancer: Wallet, amount: nat)
    | MilestoneSubmitted(milestone: nat)
    | MilestoneReleased(milestone: nat, principal: nat, fee: nat)
    | MilestoneRefunded(milestone: nat, refunded: nat)
    | MilestoneSplit(milestone: nat, clientAmount: nat, freelancerAmount: nat, fee: nat)
    | MilestoneCancelled(milestone: nat, refunded: nat)
    | FundsWithdrawn(milestone: nat, withdrawn: nat)
    | DisputeOpened(milestone: nat, opener: Wallet)
    | ArbitersSelected(milestone: nat, round: nat, arbiters: seq<Wallet>, count: nat)
    | VoteCommitted(milestone: nat, arbiter: Wallet)
    | VoteRevealed(milestone: nat, round: nat, arbiter: Wallet, outcome: nat)
    | DisputeResolved(milestone: nat, arbiter: Wallet, outcome: nat)
    | DisputeFinalized(milestone: nat, outcome: nat, quorumMet: bool)
    | NoQuorumFallback(milestone: nat)
    | AppealOpened(milestone: nat, newRound: nat)
    | AppealResolved(milestone: nat)
    | FeeWithdrawn(paid: nat)
    | LedgerOnly(name: string, who: Wallet)

  datatype Log = Log(block: nat, time: nat, tx: nat, index: nat, event: Event)

  /** A ledger row; `project` is filled in only for a funding that was linked. */
  datatype LedgerRow = LedgerRow(log: Log, project: Option<Id>)

  datatype Windows = Windows(commit: nat, revealing: nat)

  datatype Mirror = Mirror(
    milestones: seq<MilestoneRow>,
    disputes: seq<DisputeRow>,
    projects: seq<ProjectRow>,
    users: seq<UserRow>,
    ledger: seq<LedgerRow>)

  // ---- Looking rows up ----

  /** The position of a row that satisfies `p`. */
  function Find<T>(rows: seq<T>, p: T -> bool): Option<nat> {
    if rows == [] then None
    else if p(rows[|rows| - 1]) then Some(|rows| - 1)
    else Find(rows[..|rows| - 1], p)
  }

  lemma {:induction false} FindSpec<T>(rows: seq<T>, p: T -> bool)
    ensures Find(rows, p).Some? ==> Find(rows, p).value < |rows| && p(rows[Find(rows, p).value])
    ensures Find(rows, p).None? ==> forall i :: 0 <= i < |rows| ==> !p(rows[i])
  {
    if rows != [] {
      var n := |rows| - 1;
      FindSpec(rows[..n], p);
      if Find(rows, p).None? {
        forall i | 0 <= i < |rows|
          ensures !p(rows[i])
        {
          if i < n { assert rows[..n][i] == rows[i]; }
        }
      }
    }
  }

  function HasOnchainId(id: nat): MilestoneRow -> bool {
    (r: MilestoneRow) => r.onchainId == Some(id)
  }

  function HasId(id: Id): MilestoneRow -> bool {
    (r: MilestoneRow) => r.id == id
  }

  function DisputeOf(milestoneId: Id): DisputeRow -> bool {
    (r: DisputeRow) => r.milestoneId == milestoneId
  }

  function ProjectWithId(id: Id): ProjectRow -> bool {
    (r: ProjectRow) => r.id == id
  }

  function UserWithId(id: Id): UserRow -> bool {
    (r: UserRow) => r.id == id
  }

  function UserWithWallet(w: Wallet): UserRow -> bool {
    (r: UserRow) => r.wallet == w
  }

  function FindAt<T>(rows: seq<T>, p: T -> bool): (i: Option<nat>)
    ensures i.Some? ==> i.value < |rows| && p(rows[i.value])
    ensures i.None? ==> forall k :: 0 <= k < |rows| ==> !p(rows[k])
  {
    FindSpec(rows, p);
    Find(rows, p)
  }

  datatype Party = Party(client: Wallet, freelancer: Wallet)

  /** The wallets of a project's client and freelancer. */
  function ProjectWallets(projects: seq<ProjectRow>, users: seq<UserRow>, projectId: Id): Option<Party> {
    match FindAt(projects, ProjectWithId(projectId))
    case None => None
    case Some(p) =>
      var c := FindAt(users, UserWithId(projects[p].clientId));
      var f := FindAt(users, UserWithId(projects[p].freelancerId));
      if c.Some? && f.Some? then Some(Party(users[c.value].wallet, users[f.value].wallet)) else None
  }

  // ---- Updates ----

  function Terminal(rows: seq<MilestoneRow>, projectId: Id): bool {
    forall i :: 0 <= i < |rows| && rows[i].projectId == projectId ==> IsTerminal(rows[i].status)
  }

  function Earn(users: seq<UserRow>, id: Id, amount: nat): seq<UserRow> {
    seq(|users|, i requires 0 <= i < |users| => if users[i].id == id then users[i].(earned := users[i].earned + amount) else users[i])
  }

  function Pay(users: seq<UserRow>, id: Id, amount: nat): seq<UserRow> {
    seq(|users|, i requires 0 <= i < |users| => if users[i].id == id then users[i].(paid := users[i].paid + amount) else users[i])
  }

  function CountClient(users: seq<UserRow>, id: Id): seq<UserRow> {
    seq(|users|, i requires 0 <= i < |users| => if users[i].id == id then users[i].(asClient := users[i].asClient + 1) else users[i])
  }

  function CountFreelancer(users: seq<UserRow>, id: Id): seq<UserRow> {
    seq(|users|, i requires 0 <= i < |users| => if users[i].id == id then users[i].(asFreelancer := users[i].asFreelancer + 1) else users[i])
  }

  /** Folds a settlement into the derived user stats. */
  function AdjustStats(m: Mirror, projectId: Id, freelancerAmount: nat, outflow: nat): Mirror {
    match FindAt(m.projects, ProjectWithId(projectId))
    case None => m
    case Some(p) => m.(users := Pay(Earn(m.users, m.projects[p].freelancerId, freelancerAmount), m.projects[p].clientId, outflow))
  }

  /** Completes an active project once all its milestones are terminal. */
  function CompleteIfDone(m: Mirror, projectId: Id): Mirror {
    if !Terminal(m.milestones, projectId) then m
    else
      match FindAt(m.projects, ProjectWithId(projectId))
      case None => m
      case Some(p) =>
        if m.projects[p].status != Active then m
        else m.(projects := m.projects[p := m.projects[p].(status := Completed)],
                users := CountFreelancer(CountClient(m.users, m.projects[p].clientId), m.projects[p].freelancerId))
  }

  function SetMilestone(m: Mirror, i: nat, r: MilestoneRow): Mirror
    requires i < |m.milestones|
  {
    m.(milestones := m.milestones[i := r])
  }

  function SetDispute(m: Mirror, i: nat, r: DisputeRow): Mirror
    requires i < |m.disputes|
  {
    m.(disputes := m.disputes[i := r])
  }

  // ---- Appliers ----

  function ApplyFunded(m: Mirror, l: Log): Mirror
    requires l.event.MilestoneFunded?
  {
    var e := l.event;
    if e.ref == None then m
    else
      match FindAt(m.milestones, HasId(e.ref.value))
      case None => m
      case Some(i) =>
        var row := m.milestones[i];
        var wallets := ProjectWallets(m.projects, m.users, row.projectId);
        var holder := FindAt(m.milestones, HasOnchainId(e.milestone));
        if row.status != PendingFunding then m
        else if wallets != Some(Party(e.client, e.freelancer)) || row.amount != e.amount then m
        else if holder.Some? && holder.value != i then m
        else Linked(SetMilestone(m, i, row.(onchainId := Some(e.milestone), status := Funded,
                                            fundedTx := Some(l.tx), fundedAt := Some(l.time))), row.projectId)
  }

  /** Stamps the project on the ledger row just written. */
  function Linked(m: Mirror, projectId: Id): Mirror {
    if m.ledger == [] then m
    else m.(ledger := m.ledger[|m.ledger| - 1 := m.ledger[|m.ledger| - 1].(project := Some(projectId))])
  }

  function Settle(row: MilestoneRow, status: Status, l: Log): MilestoneRow {
    row.(status := status, settledAt := Some(l.time), settlementTx := Some(l.tx))
  }

  /** The milestone an event names and its next status, when the event is legal for it. */
  function Legal(m: Mirror, id: nat, kind: Kind): (r: Option<(nat, Status)>)
    ensures r.Some? ==> r.value.0 < |m.milestones| && m.milestones[r.value.0].onchainId == Some(id)
    ensures r.Some? ==> NextStatus(m.milestones[r.value.0].status, kind) == Some(r.value.1)
  {
    match FindAt(m.milestones, HasOnchainId(id))
    case None => None
    case Some(i) =>
      match NextStatus(m.milestones[i].status, kind)
      case None => None
      case Some(to) => Some((i, to))
  }

  function ApplySubmitted(m: Mirror, l: Log): Mirror
    requires l.event.MilestoneSubmitted?
  {
    match Legal(m, l.event.milestone, KSubmitted)
    case None => m
    case Some(t) =>
      SetMilestone(m, t.0, m.milestones[t.0].(status := t.1, submittedAt := Some(l.time), softStatus := Some(SoftSubmitted)))
  }

  /** A settlement without an outflow: cancelled, refunded. */
  function ApplyReturned(m: Mirror, l: Log, id: nat, kind: Kind): Mirror {
    match Legal(m, id, kind)
    case None => m
    case Some(t) => CompleteIfDone(SetMilestone(m, t.0, Settle(m.milestones[t.0], t.1, l)), m.milestones[t.0].projectId)
  }

  /** A settlement that pays the freelancer: released, split. */
  function ApplyPaid(m: Mirror, l: Log, id: nat, kind: Kind, freelancerAmount: nat, fee: nat): Mirror {
    match Legal(m, id, kind)
    case None => m
    case Some(t) =>
      var p := m.milestones[t.0].projectId;
      CompleteIfDone(AdjustStats(SetMilestone(m, t.0, Settle(m.milestones[t.0], t.1, l)), p, freelancerAmount, freelancerAmount + fee), p)
  }

  function ApplyWithdrawn(m: Mirror, l: Log): Mirror
    requires l.event.FundsWithdrawn?
  {
    match FindAt(m.milestones, HasOnchainId(l.event.milestone))
    case None => m
    case Some(i) => SetMilestone(m, i, m.milestones[i].(withdrawnAt := Some(l.time), withdrawTx := Some(l.tx)))
  }

  function NewDispute(milestoneId: Id, projectId: Id, openedBy: Id, reason: Option<string>): DisputeRow {
    DisputeRow(milestoneId, projectId, openedBy, reason, Open, 0, NoPhase, [], None, None, 0, map[], [], [], false, None, None, None, None, None)
  }

  function ApplyDisputeOpened(m: Mirror, l: Log): Mirror
    requires l.event.DisputeOpened?
  {
    match Legal(m, l.event.milestone, KDisputed)
    case None => m
    case Some(t) =>
      var row := m.milestones[t.0];
      var m1 := SetMilestone(m, t.0, row.(status := t.1));
      if FindAt(m.disputes, DisputeOf(row.id)).Some? then m1
      else
        match FindAt(m.users, UserWithWallet(l.event.opener))
        case None => m1
        case Some(u) =>
          m1.(disputes := m.disputes
                + [NewDispute(row.id, row.projectId, m.users[u].id, Some("Opened directly on-chain — no reason was recorded."))])
  }

  /** The dispute row of the milestone with this onchain id. */
  function DisputeAt(m: Mirror, id: nat): (i: Option<nat>)
    ensures i.Some? ==> i.value < |m.disputes|
  {
    match FindAt(m.milestones, HasOnchainId(id))
    case None => None
    case Some(k) => FindAt(m.disputes, DisputeOf(m.milestones[k].id))
  }

  function Add(ws: seq<Wallet>, w: Wallet): seq<Wallet> {
    if w in ws then ws else ws + [w]
  }

  function Bump(tally: map<nat, seq<nat>>, round: nat, outcome: nat): map<nat, seq<nat>> {
    var counts := if round in tally then tally[round] else [0, 0, 0];
    if outcome < |counts| then tally[round := counts[outcome := counts[outcome] + 1]] else tally[round := counts]
  }

  const ZERO_WALLET: Wallet := 0

  function NonZero(ws: seq<Wallet>): seq<Wallet> {
    if ws == [] then [] else (if ws[0] == ZERO_WALLET then [] else [ws[0]]) + NonZero(ws[1..])
  }

  /** What a round event writes on its dispute row. */
  function RoundUpdate(d: DisputeRow, l: Log, w: Windows): DisputeRow {
    match l.event
    case ArbitersSelected(_, round, arbiters, count) =>
      d.(phase := CommitPhase, round := round, selected := Take(NonZero(arbiters), count), committed := [], revealed := [],
         commitDeadline := Some(l.time + 1000 * w.commit), revealDeadline := Some(l.time + 1000 * w.commit + 1000 * w.revealing))
    case VoteCommitted(_, arbiter) => d.(committed := Add(NonZero(d.committed), arbiter))
    case VoteRevealed(_, round, arbiter, outcome) =>
      d.(revealed := Add(NonZero(d.revealed), arbiter), tally := Bump(d.tally, round, outcome), phase := RevealPhase)
    case DisputeResolved(_, arbiter, outcome) =>
      d.(status := Resolved, outcome := Some(outcome), resolvedArbiter := Some(arbiter), resolutionTx := Some(l.tx),
         resolvedAt := Some(l.time))
    case DisputeFinalized(_, outcome, quorumMet) =>
      d.(phase := ResolvedPhase, outcome := Some(outcome), finalized := quorumMet, finalizedAt := Some(l.time))
    case NoQuorumFallback(_) =>
      d.(phase := ResolvedPhase, finalized := false, status := Resolved, outcome := Some(1), resolvedAt := Some(l.time),
         resolutionTx := Some(l.tx))
    case AppealOpened(_, newRound) => d.(round := newRound, appealCount := d.appealCount + 1, status := Open, finalized := false)
    case _ => d
  }

  function ApplyRound(m: Mirror, l: Log, id: nat, w: Windows): Mirror {
    match DisputeAt(m, id)
    case None => m
    case Some(i) => SetDispute(m, i, RoundUpdate(m.disputes[i], l, w))
  }

  /** The no-quorum fallback settles the milestone too; it needs a dispute row and a legal transition. */
  function ApplyNoQuorum(m: Mirror, l: Log, w: Windows): Mirror
    requires l.event.NoQuorumFallback?
  {
    match DisputeAt(m, l.event.milestone)
    case None => m
    case Some(i) =>
      match Legal(m, l.event.milestone, KNoQuorum)
      case None => m
      case Some(t) =>
        var settled := CompleteIfDone(SetMilestone(m, t.0, Settle(m.milestones[t.0], t.1, l)), m.milestones[t.0].projectId);
        settled.(disputes := m.disputes[i := RoundUpdate(m.disputes[i], l, w)])
  }

  /** An outcome ordinal the enum does not know throws, once the row it names is found. */
  predicate Throws(m: Mirror, e: Event) {
    match e
    case DisputeResolved(id, _, outcome) => outcome > 2 && FindAt(m.milestones, HasOnchainId(id)).Some?
    case DisputeFinalized(id, outcome, _) => outcome > 2 && DisputeAt(m, id).Some?
    case _ => false
  }

  function Apply(m: Mirror, l: Log, w: Windows): Mirror {
    match l.event
    case MilestoneFunded(_, _, _, _, _) => ApplyFunded(m, l)
    case MilestoneSubmitted(_) => ApplySubmitted(m, l)
    case MilestoneReleased(id, principal, fee) => ApplyPaid(m, l, id, KReleased, principal, fee)
    case MilestoneRefunded(id, _) => ApplyReturned(m, l, id, KRefunded)
    case MilestoneSplit(id, _, freelancerAmount, fee) => ApplyPaid(m, l, id, KSplit, freelancerAmount, fee)
    case MilestoneCancelled(id, _) => ApplyReturned(m, l, id, KCancelled)
    case FundsWithdrawn(_, _) => ApplyWithdrawn(m, l)
    case DisputeOpened(_, _) => ApplyDisputeOpened(m, l)
    case NoQuorumFallback(_) => ApplyNoQuorum(m, l, w)
    case ArbitersSelected(id, _, _, _) => ApplyRound(m, l, id, w)
    case VoteCommitted(id, _) => ApplyRound(m, l, id, w)
    case VoteRevealed(id, _, _, _) => ApplyRound(m, l, id, w)
    case DisputeResolved(id, _, _) => ApplyRound(m, l, id, w)
    case DisputeFinalized(id, _, _) => ApplyRound(m, l, id, w)
    case AppealOpened(id, _) => ApplyRound(m, l, id, w)
    case _ => m
  }

  function SameLog(tx: nat, index: nat): LedgerRow -> bool {
    (r: LedgerRow) => r.log.tx == tx && r.log.index == index
  }

  function Recorded(m: Mirror, l: Log): Mirror {
    m.(ledger := m.ledger + [LedgerRow(l, None)])
  }

  /** One log, in one transaction: a duplicate is skipped, and a throw rolls everything back. */
  function Ingest(m: Mirror, l: Log, w: Windows): Mirror {
    if FindAt(m.ledger, SameLog(l.tx, l.index)).Some? then m
    else if Throws(m, l.event) then m
    else Apply(Recorded(m, l), l, w)
  }

  function IngestAll(m: Mirror, logs: seq<Log>, w: Windows): Mirror {
    if logs == [] then m else Ingest(IngestAll(m, logs[..|logs| - 1], w), logs[|logs| - 1], w)
  }

  /** Ingesting a log twice is ingesting it once. */
  lemma IngestIdempotent(m: Mirror, l: Log, w: Windows)
    ensures Ingest(Ingest(m, l, w), l, w) == Ingest(m, l, w)
  {
    if FindAt(m.ledger, SameLog(l.tx, l.index)).None? && !Throws(m, l.event) {
      var n := Ingest(m, l, w);
      LedgerOfApply(Recorded(m, l), l, w);
      assert SameLog(l.tx, l.index)(n.ledger[|m.ledger|]);
    }
  }

  lemma LedgerOfPaid(m: Mirror, l: Log, id: nat, kind: Kind, freelancerAmount: nat, fee: nat)
    ensures ApplyPaid(m, l, id, kind, freelancerAmount, fee).ledger == m.ledger
  {
  }

  lemma LedgerOfReturned(m: Mirror, l: Log, id: nat, kind: Kind)
    ensures ApplyReturned(m, l, id, kind).ledger == m.ledger
  {
  }

  lemma LedgerOfNoQuorum(m: Mirror, l: Log, w: Windows)
    requires l.event.NoQuorumFallback?
    ensures ApplyNoQuorum(m, l, w).ledger == m.ledger
  {
  }

  lemma LedgerOfOthers(m: Mirror, l: Log, w: Windows)
    requires !l.event.MilestoneFunded?
    ensures Apply(m, l, w).ledger == m.ledger
  {
    match l.event
    case MilestoneReleased(id, principal, fee) => LedgerOfPaid(m, l, id, KReleased, principal, fee);
    case MilestoneRefunded(id, _) => LedgerOfReturned(m, l, id, KRefunded);
    case MilestoneSplit(id, _, freelancerAmount, fee) => LedgerOfPaid(m, l, id, KSplit, freelancerAmount, fee);
    case MilestoneCancelled(id, _) => LedgerOfReturned(m, l, id, KCancelled);
    case NoQuorumFallback(_) => LedgerOfNoQuorum(m, l, w);
    case _ =>
  }

  /** Applying an event never loses, reorders or rewrites what the ledger recorded. */
  lemma LedgerOfApply(m: Mirror, l: Log, w: Windows)
    ensures |Apply(m, l, w).ledger| == |m.ledger|
    ensures forall i :: 0 <= i < |m.ledger| ==> Apply(m, l, w).ledger[i].log == m.ledger[i].log
    ensures forall i :: 0 <= i < |m.ledger| - 1 ==> Apply(m, l, w).ledger[i] == m.ledger[i]
  {
    if !l.event.MilestoneFunded? { LedgerOfOthers(m, l, w); }
  }

  /** The recorded logs, in the order they were recorded. */
  function Logs(ledger: seq<LedgerRow>): (logs: seq<Log>)
    ensures |logs| == |ledger| && forall i :: 0 <= i < |ledger| ==> logs[i] == ledger[i].log
  {
    seq(|ledger|, i requires 0 <= i < |ledger| => ledger[i].log)
  }

  lemma LogsOfApply(m: Mirror, l: Log, w: Windows)
    ensures Logs(Apply(Recorded(m, l), l, w).ledger) == Logs(m.ledger) + [l]
  {
    LedgerOfApply(Recorded(m, l), l, w);
  }

  /** What one log may do to one row: only linked rows change, and an id once claimed stays. */
  predicate RowEvolves(r: MilestoneRow, s: MilestoneRow) {
    s == r || (
      && s.id == r.id && s.projectId == r.projectId && s.amount == r.amount
      && s.onchainId.Some?
      && (r.onchainId.Some? && r.status != PendingFunding ==> s.onchainId == r.onchainId)
      && (r.onchainId.None? ==> r.status == PendingFunding && s.status == Funded)
      && (r.status == s.status || exists k :: NextStatus(r.status, k) == Some(s.status)))
  }

  predicate RowsEvolve(m: Mirror, n: Mirror) {
    |n.milestones| == |m.milestones| && forall i :: 0 <= i < |m.milestones| ==> RowEvolves(m.milestones[i], n.milestones[i])
  }

  lemma RowsEvolveOne(m: Mirror, n: Mirror, i: nat)
    requires i < |m.milestones| && |n.milestones| == |m.milestones|
    requires n.milestones == m.milestones[i := n.milestones[i]] && RowEvolves(m.milestones[i], n.milestones[i])
    ensures RowsEvolve(m, n)
  {
  }

  lemma FundedEvolves(m: Mirror, l: Log)
    requires l.event.MilestoneFunded?
    ensures RowsEvolve(m, ApplyFunded(m, l))
  {
    var n := ApplyFunded(m, l);
    if n.milestones != m.milestones {
      var i := FindAt(m.milestones, HasId(l.event.ref.value)).value;
      assert NextStatus(m.milestones[i].status, KFunded) == Some(n.milestones[i].status);
      RowsEvolveOne(m, n, i);
    }
  }

  lemma SubmittedEvolves(m: Mirror, l: Log)
    requires l.event.MilestoneSubmitted?
    ensures RowsEvolve(m, ApplySubmitted(m, l))
  {
    if Legal(m, l.event.milestone, KSubmitted).Some? {
      RowsEvolveOne(m, ApplySubmitted(m, l), Legal(m, l.event.milestone, KSubmitted).value.0);
    }
  }

  lemma ReturnedEvolves(m: Mirror, l: Log, id: nat, kind: Kind)
    ensures RowsEvolve(m, ApplyReturned(m, l, id, kind))
  {
    if Legal(m, id, kind).Some? {
      RowsEvolveOne(m, ApplyReturned(m, l, id, kind), Legal(m, id, kind).value.0);
    }
  }

  lemma PaidEvolves(m: Mirror, l: Log, id: nat, kind: Kind, freelancerAmount: nat, fee: nat)
    ensures RowsEvolve(m, ApplyPaid(m, l, id, kind, freelancerAmount, fee))
  {
    if Legal(m, id, kind).Some? {
      RowsEvolveOne(m, ApplyPaid(m, l, id, kind, freelancerAmount, fee), Legal(m, id, kind).value.0);
    }
  }

  lemma WithdrawnEvolves(m: Mirror, l: Log)
    requires l.event.FundsWithdrawn?
    ensures RowsEvolve(m, ApplyWithdrawn(m, l))
  {
    var i := FindAt(m.milestones, HasOnchainId(l.event.milestone));
    if i.Some? { RowsEvolveOne(m, ApplyWithdrawn(m, l), i.value); }
  }

  lemma DisputeOpenedEvolves(m: Mirror, l: Log)
    requires l.event.DisputeOpened?
    ensures RowsEvolve(m, ApplyDisputeOpened(m, l))
  {
    if Legal(m, l.event.milestone, KDisputed).Some? {
      RowsEvolveOne(m, ApplyDisputeOpened(m, l), Legal(m, l.event.milestone, KDisputed).value.0);
    }
  }

  lemma NoQuorumEvolves(m: Mirror, l: Log, w: Windows)
    requires l.event.NoQuorumFallback?
    ensures RowsEvolve(m, ApplyNoQuorum(m, l, w))
  {
    if DisputeAt(m, l.event.milestone).Some? && Legal(m, l.event.milestone, KNoQuorum).Some? {
      RowsEvolveOne(m, ApplyNoQuorum(m, l, w), Legal(m, l.event.milestone, KNoQuorum).value.0);
    }
  }

  /**
   * A new log is dropped, with everything it would have written, exactly when it
   * names an outcome other than release, refund and split for a row that is there.
   */
  lemma DroppedExactly(m: Mirror, l: Log, w: Windows)
    requires FindAt(m.ledger, SameLog(l.tx, l.index)).None?
    ensures var dropped :=
        || (l.event.DisputeResolved? && l.event.outcome !in {0, 1, 2} && FindAt(m.milestones, HasOnchainId(l.event.milestone)).Some?)
        || (l.event.DisputeFinalized? && l.event.outcome !in {0, 1, 2} && DisputeAt(m, l.event.milestone).Some?);
      if dropped then Ingest(m, l, w) == m else |Ingest(m, l, w).ledger| == |m.ledger| + 1
  {
    LedgerOfApply(Recorded(m, l), l, w);
  }

  lemma ApplyEvolves(m: Mirror, l: Log, w: Windows)
    ensures RowsEvolve(m, Apply(m, l, w))
  {
    match l.event
    case MilestoneFunded(_, _, _, _, _) => FundedEvolves(m, l);
    case MilestoneSubmitted(_) => SubmittedEvolves(m, l);
    case MilestoneReleased(id, principal, fee) => PaidEvolves(m, l, id, KReleased, principal, fee);
    case MilestoneRefunded(id, _) => ReturnedEvolves(m, l, id, KRefunded);
    case MilestoneSplit(id, _, freelancerAmount, fee) => PaidEvolves(m, l, id, KSplit, freelancerAmount, fee);
    case MilestoneCancelled(id, _) => ReturnedEvolves(m, l, id, KCancelled);
    case NoQuorumFallback(_) => NoQuorumEvolves(m, l, w);
    case FundsWithdrawn(_, _) => WithdrawnEvolves(m, l);
    case DisputeOpened(_, _) => DisputeOpenedEvolves(m, l);
    case _ => assert Apply(m, l, w).milestones == m.milestones;
  }

  lemma IngestEvolves(m: Mirror, l: Log, w: Windows)
    ensures RowsEvolve(m, Ingest(m, l, w))
  {
    ApplyEvolves(Recorded(m, l), l, w);
  }
}
