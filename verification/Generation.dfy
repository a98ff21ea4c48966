/**
 * Is the mirror still pointed at a chain that exists? Detection, the rebuild and
 * the per-tick gate (apps/api/src/chain/generation.ts).
 */
module Generation {
  import opened Basics
  import opened Milestones
  import opened Indexer

  // ---- The rebuild ----

  /** A milestone row as if no chain had ever spoken of it. */
  function Blank(r: MilestoneRow): MilestoneRow {
    MilestoneRow(r.id, r.projectId, r.amount, r.softStatus, None, PendingFunding, None, None, None, None, None, None, None)
  }

  function BlankDispute(d: DisputeRow): DisputeRow {
    NewDispute(d.milestoneId, d.projectId, d.openedBy, d.reason)
  }

  function Reopen(p: ProjectRow): ProjectRow {
    if p.status == Completed then p.(status := Active) else p
  }

  function Unpaid(u: UserRow): UserRow {
    UserRow(u.id, u.wallet, 0, 0, 0, 0)
  }

  function Map<A, B>(f: A -> B, s: seq<A>): (t: seq<B>)
    ensures |t| == |s| && forall i :: 0 <= i < |s| ==> t[i] == f(s[i])
  {
    seq(|s|, i requires 0 <= i < |s| => f(s[i]))
  }

  /** The same human records on a mirror that never indexed a chain. */
  function NeverIndexed(m: Mirror): Mirror {
    Mirror(Map(Blank, m.milestones), Map(BlankDispute, m.disputes), Map(Reopen, m.projects), Map(Unpaid, m.users), [])
  }

  function ResetRow(r: MilestoneRow): MilestoneRow {
    if r.onchainId.Some? then Blank(r) else r
  }

  /** The rebuild touches only rows that claim an onchain id. */
  function Reset(m: Mirror): Mirror {
    Mirror(Map(ResetRow, m.milestones), Map(BlankDispute, m.disputes), Map(Reopen, m.projects), Map(Unpaid, m.users), [])
  }

  /** Rows without an onchain id carry no chain columns. */
  predicate Clean(m: Mirror) {
    forall i :: 0 <= i < |m.milestones| && m.milestones[i].onchainId.None? ==> m.milestones[i] == Blank(m.milestones[i])
  }

  /** On a clean mirror the rebuild leaves exactly a never-indexed mirror with the same human records. */
  lemma ResetIsNeverIndexed(m: Mirror)
    ensures Clean(m) <==> Reset(m) == NeverIndexed(m)
  {
    var a, b := Map(ResetRow, m.milestones), Map(Blank, m.milestones);
    if Reset(m) == NeverIndexed(m) {
      forall i | 0 <= i < |m.milestones| && m.milestones[i].onchainId.None?
        ensures m.milestones[i] == Blank(m.milestones[i])
      {
        assert a[i] == b[i];
      }
    }
  }

  lemma ResetIdempotent(m: Mirror)
    ensures Reset(Reset(m)) == Reset(m)
    ensures NeverIndexed(NeverIndexed(m)) == NeverIndexed(m) == NeverIndexed(Reset(m))
    ensures Clean(NeverIndexed(m))
  {
  }

  /** The row before and after: everything people entered is kept and every chain column is empty. */
  predicate Unchained(r: MilestoneRow, n: MilestoneRow) {
    && n.id == r.id && n.projectId == r.projectId && n.amount == r.amount && n.softStatus == r.softStatus
    && n.onchainId == None && n.status == PendingFunding && n.fundedTx == None && n.fundedAt == None && n.submittedAt == None
    && n.settledAt == None && n.settlementTx == None && n.withdrawnAt == None && n.withdrawTx == None
  }

  predicate Unruled(d: DisputeRow, n: DisputeRow) {
    && n.milestoneId == d.milestoneId && n.projectId == d.projectId && n.openedBy == d.openedBy && n.reason == d.reason
    && n.status == Open && n.round == 0 && n.phase == NoPhase && n.selected == [] && n.commitDeadline == None && n.revealDeadline == None
    && n.appealCount == 0 && n.tally == map[] && n.revealed == [] && n.committed == [] && !n.finalized && n.finalizedAt == None
    && n.resolvedArbiter == None && n.outcome == None && n.resolutionTx == None && n.resolvedAt == None
  }

  predicate Resumed(p: ProjectRow, n: ProjectRow) {
    && n.id == p.id && n.clientId == p.clientId && n.freelancerId == p.freelancerId
    && (n.status == Active <==> p.status == Active || p.status == Completed) && (n.status == Active || n.status == p.status)
  }

  predicate Uncounted(u: UserRow, n: UserRow) {
    n.id == u.id && n.wallet == u.wallet && n.earned == 0 && n.paid == 0 && n.asClient == 0 && n.asFreelancer == 0
  }

  /** Column by column: a linked milestone, every dispute, every project and every user lose what the chain wrote, and the ledger is gone. */
  lemma RebuiltColumns(m: Mirror)
    ensures var n := Reset(m);
      && |n.milestones| == |m.milestones| && |n.disputes| == |m.disputes| && |n.projects| == |m.projects| && |n.users| == |m.users|
      && (forall i :: 0 <= i < |m.milestones| ==>
            if m.milestones[i].onchainId.Some? then Unchained(m.milestones[i], n.milestones[i]) else n.milestones[i] == m.milestones[i])
      && (forall i :: 0 <= i < |m.disputes| ==> Unruled(m.disputes[i], n.disputes[i]))
      && (forall i :: 0 <= i < |m.projects| ==> Resumed(m.projects[i], n.projects[i]))
      && (forall i :: 0 <= i < |m.users| ==> Uncounted(m.users[i], n.users[i]))
      && n.ledger == []
  {
  }

  /** After the rebuild no row can collide with an id of the new chain. */
  lemma NoIdSurvives(m: Mirror, id: nat)
    ensures FindAt(Reset(m).milestones, HasOnchainId(id)).None?
  {
  }

  lemma IngestKeepsClean(m: Mirror, l: Log, w: Windows)
    requires Clean(m)
    ensures Clean(Ingest(m, l, w))
  {
    IngestEvolves(m, l, w);
    var n := Ingest(m, l, w);
    forall i | 0 <= i < |n.milestones| && n.milestones[i].onchainId.None?
      ensures n.milestones[i] == Blank(n.milestones[i])
    {
      assert RowEvolves(m.milestones[i], n.milestones[i]);
    }
  }

  lemma {:induction false} IngestAllKeepsClean(m: Mirror, logs: seq<Log>, w: Windows)
    requires Clean(m)
    ensures Clean(IngestAll(m, logs, w))
  {
    if logs != [] {
      IngestAllKeepsClean(m, logs[..|logs| - 1], w);
      IngestKeepsClean(IngestAll(m, logs[..|logs| - 1], w), logs[|logs| - 1], w);
    }
  }

  /** Whatever the dead chain did, replaying the new chain on the rebuilt mirror is replaying it on a never-indexed one. */
  lemma ReplayAfterReset(m: Mirror, oldChain: seq<Log>, newChain: seq<Log>, w: Windows)
    requires Clean(m)
    ensures var dead := IngestAll(m, oldChain, w);
      IngestAll(Reset(dead), newChain, w) == IngestAll(NeverIndexed(dead), newChain, w)
  {
    IngestAllKeepsClean(m, oldChain, w);
    ResetIsNeverIndexed(IngestAll(m, oldChain, w));
  }

  // ---- What the rebuild cannot take back ----

  /**
   * Applying the event leaves a mark among the human records: a submission stamps the soft
   * status, and a dispute opened from a known wallet creates a dispute row.
   */
  predicate ApplyLeaks(m: Mirror, e: Event) {
    match e
    case MilestoneSubmitted(id) =>
      Legal(m, id, KSubmitted).Some? && m.milestones[Legal(m, id, KSubmitted).value.0].softStatus != Some(SoftSubmitted)
    case DisputeOpened(id, opener) =>
      && Legal(m, id, KDisputed).Some?
      && FindAt(m.disputes, DisputeOf(m.milestones[Legal(m, id, KDisputed).value.0].id)).None?
      && FindAt(m.users, UserWithWallet(opener)).Some?
    case _ => false
  }

  /** A new log that leaves such a mark. */
  predicate Leaks(m: Mirror, l: Log) {
    FindAt(m.ledger, SameLog(l.tx, l.index)).None? && ApplyLeaks(m, l.event)
  }

  function SoftSubmittedRows(rows: seq<MilestoneRow>): nat {
    if rows == [] then 0
    else SoftSubmittedRows(rows[..|rows| - 1]) + if rows[|rows| - 1].softStatus == Some(SoftSubmitted) then 1 else 0
  }

  /** Grows with every leak and with nothing else. */
  function Marks(m: Mirror): nat {
    SoftSubmittedRows(m.milestones) + |m.disputes|
  }

  lemma {:induction false} SoftSame(a: seq<MilestoneRow>, b: seq<MilestoneRow>)
    requires |a| == |b| && forall i :: 0 <= i < |a| ==> a[i].softStatus == b[i].softStatus
    ensures SoftSubmittedRows(a) == SoftSubmittedRows(b)
  {
    if a != [] { SoftSame(a[..|a| - 1], b[..|b| - 1]); }
  }

  lemma {:induction false} SoftStamp(a: seq<MilestoneRow>, i: nat, r: MilestoneRow)
    requires i < |a| && r.softStatus == Some(SoftSubmitted)
    ensures SoftSubmittedRows(a[i := r]) == SoftSubmittedRows(a) + if a[i].softStatus == Some(SoftSubmitted) then 0 else 1
  {
    var n := |a| - 1;
    if i == n {
      assert a[i := r][..n] == a[..n];
    } else {
      assert a[i := r][..n] == a[..n][i := r];
      SoftStamp(a[..n], i, r);
    }
  }

  lemma MarksOfNeverIndexed(m: Mirror)
    ensures Marks(NeverIndexed(m)) == Marks(m)
  {
    SoftSame(m.milestones, Map(Blank, m.milestones));
  }

  /** Nothing human differs between two mirrors. */
  predicate SameHumans(m: Mirror, n: Mirror) {
    && |n.milestones| == |m.milestones| && (forall i :: 0 <= i < |m.milestones| ==> Blank(n.milestones[i]) == Blank(m.milestones[i]))
    && |n.disputes| == |m.disputes| && (forall i :: 0 <= i < |m.disputes| ==> BlankDispute(n.disputes[i]) == BlankDispute(m.disputes[i]))
    && |n.projects| == |m.projects| && (forall i :: 0 <= i < |m.projects| ==> Reopen(n.projects[i]) == Reopen(m.projects[i]))
    && |n.users| == |m.users| && (forall i :: 0 <= i < |m.users| ==> Unpaid(n.users[i]) == Unpaid(m.users[i]))
  }

  lemma SameHumansExactly(m: Mirror, n: Mirror)
    ensures SameHumans(m, n) <==> NeverIndexed(m) == NeverIndexed(n)
  {
    if NeverIndexed(m) == NeverIndexed(n) {
      assert Map(Blank, m.milestones) == Map(Blank, n.milestones);
      assert Map(BlankDispute, m.disputes) == Map(BlankDispute, n.disputes);
      assert Map(Reopen, m.projects) == Map(Reopen, n.projects);
      assert Map(Unpaid, m.users) == Map(Unpaid, n.users);
    }
  }

  lemma HumansTransitive(m: Mirror, n: Mirror, o: Mirror)
    requires SameHumans(m, n) && SameHumans(n, o)
    ensures SameHumans(m, o)
  {
  }

  lemma HumansOfMilestone(m: Mirror, i: nat, r: MilestoneRow)
    requires i < |m.milestones| && Blank(r) == Blank(m.milestones[i])
    ensures SameHumans(m, SetMilestone(m, i, r))
  {
  }

  lemma HumansOfStats(m: Mirror, projectId: Id, freelancerAmount: nat, outflow: nat)
    ensures SameHumans(m, AdjustStats(m, projectId, freelancerAmount, outflow))
  {
  }

  lemma HumansOfCompletion(m: Mirror, projectId: Id)
    ensures SameHumans(m, CompleteIfDone(m, projectId))
  {
  }

  lemma HumansOfSettlement(m: Mirror, i: nat, r: MilestoneRow, projectId: Id)
    requires i < |m.milestones| && Blank(r) == Blank(m.milestones[i])
    ensures SameHumans(m, CompleteIfDone(SetMilestone(m, i, r), projectId))
  {
    HumansOfMilestone(m, i, r);
    HumansOfCompletion(SetMilestone(m, i, r), projectId);
    HumansTransitive(m, SetMilestone(m, i, r), CompleteIfDone(SetMilestone(m, i, r), projectId));
  }

  lemma HumansOfPaid(m: Mirror, l: Log, id: nat, kind: Kind, freelancerAmount: nat, fee: nat)
    ensures SameHumans(m, ApplyPaid(m, l, id, kind, freelancerAmount, fee))
  {
    var t := Legal(m, id, kind);
    if t.Some? {
      var p := m.milestones[t.value.0].projectId;
      var n1 := SetMilestone(m, t.value.0, Settle(m.milestones[t.value.0], t.value.1, l));
      var n2 := AdjustStats(n1, p, freelancerAmount, freelancerAmount + fee);
      HumansOfMilestone(m, t.value.0, Settle(m.milestones[t.value.0], t.value.1, l));
      HumansOfStats(n1, p, freelancerAmount, freelancerAmount + fee);
      HumansOfCompletion(n2, p);
      HumansTransitive(m, n1, n2);
      HumansTransitive(m, n2, CompleteIfDone(n2, p));
    }
  }

  lemma HumansOfReturned(m: Mirror, l: Log, id: nat, kind: Kind)
    ensures SameHumans(m, ApplyReturned(m, l, id, kind))
  {
    var t := Legal(m, id, kind);
    if t.Some? {
      HumansOfSettlement(m, t.value.0, Settle(m.milestones[t.value.0], t.value.1, l), m.milestones[t.value.0].projectId);
    }
  }

  lemma HumansOfRoundUpdate(d: DisputeRow, l: Log, w: Windows)
    ensures BlankDispute(RoundUpdate(d, l, w)) == BlankDispute(d)
  {
  }

  lemma HumansOfRound(m: Mirror, l: Log, id: nat, w: Windows)
    ensures SameHumans(m, ApplyRound(m, l, id, w))
  {
    var i := DisputeAt(m, id);
    if i.Some? { HumansOfRoundUpdate(m.disputes[i.value], l, w); }
  }

  lemma HumansOfNoQuorum(m: Mirror, l: Log, w: Windows)
    requires l.event.NoQuorumFallback?
    ensures SameHumans(m, ApplyNoQuorum(m, l, w))
  {
    var i := DisputeAt(m, l.event.milestone);
    var t := Legal(m, l.event.milestone, KNoQuorum);
    if i.Some? && t.Some? {
      var settled := CompleteIfDone(SetMilestone(m, t.value.0, Settle(m.milestones[t.value.0], t.value.1, l)), m.milestones[t.value.0].projectId);
      HumansOfSettlement(m, t.value.0, Settle(m.milestones[t.value.0], t.value.1, l), m.milestones[t.value.0].projectId);
      HumansOfRoundUpdate(m.disputes[i.value], l, w);
    }
  }

  lemma HumansOfFunded(m: Mirror, l: Log)
    requires l.event.MilestoneFunded?
    ensures SameHumans(m, ApplyFunded(m, l))
  {
  }

  lemma HumansOfWithdrawn(m: Mirror, l: Log)
    requires l.event.FundsWithdrawn?
    ensures SameHumans(m, ApplyWithdrawn(m, l))
  {
  }

  /** The events that move money or link a milestone. */
  predicate IsMoney(e: Event) {
    e.MilestoneFunded? || e.MilestoneReleased? || e.MilestoneRefunded? || e.MilestoneSplit? || e.MilestoneCancelled? || e.FundsWithdrawn?
  }

  lemma HumansOfMoney(m: Mirror, l: Log, w: Windows)
    requires IsMoney(l.event)
    ensures SameHumans(m, Apply(m, l, w))
  {
    match l.event
    case MilestoneFunded(_, _, _, _, _) => HumansOfFunded(m, l);
    case MilestoneReleased(id, principal, fee) => HumansOfPaid(m, l, id, KReleased, principal, fee);
    case MilestoneRefunded(id, _) => HumansOfReturned(m, l, id, KRefunded);
    case MilestoneSplit(id, _, freelancerAmount, fee) => HumansOfPaid(m, l, id, KSplit, freelancerAmount, fee);
    case MilestoneCancelled(id, _) => HumansOfReturned(m, l, id, KCancelled);
    case FundsWithdrawn(_, _) => HumansOfWithdrawn(m, l);
  }

  lemma HumansOfRounds(m: Mirror, l: Log, w: Windows)
    requires !IsMoney(l.event) && !l.event.MilestoneSubmitted? && !l.event.DisputeOpened?
    ensures SameHumans(m, Apply(m, l, w))
  {
    match l.event
    case NoQuorumFallback(_) => HumansOfNoQuorum(m, l, w);
    case ArbitersSelected(id, _, _, _) => HumansOfRound(m, l, id, w);
    case VoteCommitted(id, _) => HumansOfRound(m, l, id, w);
    case VoteRevealed(id, _, _, _) => HumansOfRound(m, l, id, w);
    case DisputeResolved(id, _, _) => HumansOfRound(m, l, id, w);
    case DisputeFinalized(id, _, _) => HumansOfRound(m, l, id, w);
    case AppealOpened(id, _) => HumansOfRound(m, l, id, w);
    case _ =>
  }

  /** Every event but the two leaking ones leaves the human records alone. */
  lemma HumansOfApply(m: Mirror, l: Log, w: Windows)
    requires !l.event.MilestoneSubmitted? && !l.event.DisputeOpened?
    ensures SameHumans(m, Apply(m, l, w))
  {
    if IsMoney(l.event) { HumansOfMoney(m, l, w); } else { HumansOfRounds(m, l, w); }
  }

  lemma HumansOfSubmitted(m: Mirror, l: Log)
    requires l.event.MilestoneSubmitted?
    ensures var t := Legal(m, l.event.milestone, KSubmitted);
      var leaks := t.Some? && m.milestones[t.value.0].softStatus != Some(SoftSubmitted);
      && (!leaks ==> SameHumans(m, ApplySubmitted(m, l)))
      && Marks(ApplySubmitted(m, l)) == Marks(m) + if leaks then 1 else 0
  {
    var t := Legal(m, l.event.milestone, KSubmitted);
    if t.Some? { SoftStamp(m.milestones, t.value.0, ApplySubmitted(m, l).milestones[t.value.0]); }
  }

  lemma HumansOfDisputeOpened(m: Mirror, l: Log)
    requires l.event.DisputeOpened?
    ensures var t := Legal(m, l.event.milestone, KDisputed);
      var leaks := t.Some? && FindAt(m.disputes, DisputeOf(m.milestones[t.value.0].id)).None?
        && FindAt(m.users, UserWithWallet(l.event.opener)).Some?;
      && (!leaks ==> SameHumans(m, ApplyDisputeOpened(m, l)))
      && Marks(ApplyDisputeOpened(m, l)) == Marks(m) + if leaks then 1 else 0
  {
    SoftSame(m.milestones, ApplyDisputeOpened(m, l).milestones);
  }

  lemma MarksOfSame(m: Mirror, n: Mirror)
    requires SameHumans(m, n)
    ensures Marks(m) == Marks(n)
  {
    forall i | 0 <= i < |m.milestones|
      ensures m.milestones[i].softStatus == n.milestones[i].softStatus
    {
      assert Blank(n.milestones[i]) == Blank(m.milestones[i]);
    }
    SoftSame(m.milestones, n.milestones);
  }

  lemma ApplyHumans(m: Mirror, l: Log, w: Windows)
    ensures !ApplyLeaks(m, l.event) ==> SameHumans(m, Apply(m, l, w))
    ensures Marks(Apply(m, l, w)) == Marks(m) + if ApplyLeaks(m, l.event) then 1 else 0
  {
    match l.event
    case MilestoneSubmitted(_) => HumansOfSubmitted(m, l);
    case DisputeOpened(_, _) => HumansOfDisputeOpened(m, l);
    case _ => HumansOfApply(m, l, w); MarksOfSame(m, Apply(m, l, w));
  }

  /** Recording a log changes nothing the human records are judged by. */
  lemma RecordedIsSame(m: Mirror, l: Log, n: Mirror)
    ensures ApplyLeaks(Recorded(m, l), l.event) <==> ApplyLeaks(m, l.event)
    ensures Marks(Recorded(m, l)) == Marks(m) && (SameHumans(Recorded(m, l), n) <==> SameHumans(m, n))
  {
  }

  lemma LeaksAreStored(m: Mirror, l: Log, w: Windows)
    requires Leaks(m, l)
    ensures Ingest(m, l, w) == Apply(Recorded(m, l), l, w)
  {
  }

  lemma IngestHumans(m: Mirror, l: Log, w: Windows)
    ensures !Leaks(m, l) ==> SameHumans(m, Ingest(m, l, w))
    ensures Marks(Ingest(m, l, w)) == Marks(m) + if Leaks(m, l) then 1 else 0
  {
    var n := Apply(Recorded(m, l), l, w);
    ApplyHumans(Recorded(m, l), l, w);
    RecordedIsSame(m, l, n);
    if Leaks(m, l) { LeaksAreStored(m, l, w); }
  }

  /** Some log of the run leaked. */
  predicate LeaksAlong(m: Mirror, logs: seq<Log>, w: Windows) {
    logs != [] && (LeaksAlong(m, logs[..|logs| - 1], w) || Leaks(IngestAll(m, logs[..|logs| - 1], w), logs[|logs| - 1]))
  }

  lemma {:induction false} RunHumans(m: Mirror, logs: seq<Log>, w: Windows)
    ensures !LeaksAlong(m, logs, w) ==> SameHumans(m, IngestAll(m, logs, w))
    ensures Marks(IngestAll(m, logs, w)) >= Marks(m) + if LeaksAlong(m, logs, w) then 1 else 0
  {
    if logs != [] {
      var n := IngestAll(m, logs[..|logs| - 1], w);
      RunHumans(m, logs[..|logs| - 1], w);
      IngestHumans(n, logs[|logs| - 1], w);
      if !LeaksAlong(m, logs, w) { HumansTransitive(m, n, IngestAll(m, logs, w)); }
    }
  }

  /**
   * The rebuild undoes a whole dead chain, leaving the never-indexed mirror it
   * started from, exactly when no log of that chain leaked: it clears neither
   * the soft status a submission stamped nor a dispute row the chain created.
   */
  lemma ResetUndoesDeadChain(m: Mirror, deadChain: seq<Log>, w: Windows)
    requires NeverIndexed(m) == m
    ensures Reset(IngestAll(m, deadChain, w)) == m <==> !LeaksAlong(m, deadChain, w)
  {
    var dead := IngestAll(m, deadChain, w);
    ResetIdempotent(m);
    IngestAllKeepsClean(m, deadChain, w);
    ResetIsNeverIndexed(dead);
    RunHumans(m, deadChain, w);
    SameHumansExactly(m, dead);
    MarksOfNeverIndexed(dead);
  }

  // ---- A dead chain the rebuild does not undo ----

  /** One project of two users, with one milestone that waits for its funding. */
  function AgreedMirror(): Mirror {
    Mirror([MilestoneRow(10, 20, 100, None, None, PendingFunding, None, None, None, None, None, None, None)], [],
           [ProjectRow(20, 30, 31, Active)], [UserRow(30, 1, 0, 0, 0, 0), UserRow(31, 2, 0, 0, 0, 0)], [])
  }

  function FundingLog(): Log {
    Log(1, 5, 1, 0, MilestoneFunded(1, Some(10), 1, 2, 100))
  }

  function SubmissionLog(): Log {
    Log(2, 6, 2, 0, MilestoneSubmitted(1))
  }

  function FundedRow(): MilestoneRow {
    MilestoneRow(10, 20, 100, None, Some(1), Funded, Some(1), Some(5), None, None, None, None, None)
  }

  lemma AgreedWallets()
    ensures ProjectWallets(AgreedMirror().projects, AgreedMirror().users, 20) == Some(Party(1, 2))
  {
    var m := AgreedMirror();
    assert m.users[..1] == [m.users[0]];
    assert ProjectWithId(20)(m.projects[0]);
    assert UserWithId(30)(m.users[0]) && UserWithId(31)(m.users[1]);
    assert FindAt(m.users, UserWithId(30)) == Some(0);
    assert FindAt(m.users, UserWithId(31)) == Some(1);
  }

  lemma FundingLinks(w: Windows)
    ensures var n := Ingest(AgreedMirror(), FundingLog(), w);
      n.milestones == [FundedRow()] && |n.ledger| == 1 && n.ledger[0].log == FundingLog()
  {
    var m := AgreedMirror();
    AgreedWallets();
    assert HasId(10)(m.milestones[0]);
    assert FindAt(m.milestones, HasId(10)) == Some(0);
    assert FindAt(m.milestones, HasOnchainId(1)) == None;
  }

  lemma SubmissionStamps(m: Mirror, w: Windows)
    requires m.milestones == [FundedRow()] && |m.ledger| == 1 && m.ledger[0].log == FundingLog()
    ensures Ingest(m, SubmissionLog(), w).milestones == [FundedRow().(status := Submitted, submittedAt := Some(6), softStatus := Some(SoftSubmitted))]
  {
    assert HasOnchainId(1)(m.milestones[0]);
    assert FindAt(m.milestones, HasOnchainId(1)) == Some(0);
    assert FindAt(m.ledger, SameLog(2, 0)) == None;
  }

  /** A funding and a submission on the dead chain: the rebuild keeps the stamp of the submission. */
  lemma RebuildKeepsStamp(w: Windows)
    ensures NeverIndexed(AgreedMirror()) == AgreedMirror()
    ensures Reset(IngestAll(AgreedMirror(), [FundingLog(), SubmissionLog()], w)) != AgreedMirror()
    ensures LeaksAlong(AgreedMirror(), [FundingLog(), SubmissionLog()], w)
  {
    var m, logs := AgreedMirror(), [FundingLog(), SubmissionLog()];
    assert Map(Blank, m.milestones) == m.milestones && Map(Reopen, m.projects) == m.projects && Map(Unpaid, m.users) == m.users;
    assert logs[..1] == [FundingLog()] && [FundingLog()][..0] == [];
    var n := Ingest(m, FundingLog(), w);
    assert IngestAll(m, [FundingLog()], w) == n by { assert IngestAll(m, [], w) == m; }
    FundingLinks(w);
    SubmissionStamps(n, w);
    assert IngestAll(m, logs, w) == Ingest(n, SubmissionLog(), w);
    assert Reset(IngestAll(m, logs, w)).milestones[0].softStatus == Some(SoftSubmitted);
    ResetUndoesDeadChain(m, logs, w);
  }
}
