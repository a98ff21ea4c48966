/**
 * What the ingest makes of users and projects: lifetime totals, completed
 * projects and their counters (adjustStats and completeProjectIfDone in
 * apps/api/src/chain/indexer.ts).
 */
module MirrorTotals {
  import opened Basics
  import opened Milestones
  import opened Indexer
  import opened Generation

  // ---- Lifetime totals ----

  /** The ledger has no row for this log yet. */
  predicate IsNew(m: Mirror, l: Log) {
    forall i :: 0 <= i < |m.ledger| ==> m.ledger[i].log.tx != l.tx || m.ledger[i].log.index != l.index
  }

  /** The project whose milestone carries this onchain id, if the milestone has one of these statuses. */
  function ProjectIn(m: Mirror, id: nat, statuses: set<Status>): Option<ProjectRow> {
    match FindAt(m.milestones, HasOnchainId(id))
    case None => None
    case Some(i) =>
      if m.milestones[i].status !in statuses then None
      else
        match FindAt(m.projects, ProjectWithId(m.milestones[i].projectId))
        case None => None
        case Some(p) => Some(m.projects[p])
  }

  /** What a log earns a user: the principal of a release, or its half of a split, of a milestone of one of its projects as freelancer. */
  function Earns(m: Mirror, l: Log, user: Id): nat {
    if !IsNew(m, l) then 0
    else
      match l.event
      case MilestoneReleased(id, principal, _) =>
        var p := ProjectIn(m, id, {Submitted, Disputed});
        if p.Some? && p.value.freelancerId == user then principal else 0
      case MilestoneSplit(id, _, half, _) =>
        var p := ProjectIn(m, id, {Disputed});
        if p.Some? && p.value.freelancerId == user then half else 0
      case _ => 0
  }

  /** What it costs a user: the same and the fee, for its projects as client. */
  function Costs(m: Mirror, l: Log, user: Id): nat {
    if !IsNew(m, l) then 0
    else
      match l.event
      case MilestoneReleased(id, principal, fee) =>
        var p := ProjectIn(m, id, {Submitted, Disputed});
        if p.Some? && p.value.clientId == user then principal + fee else 0
      case MilestoneSplit(id, _, half, fee) =>
        var p := ProjectIn(m, id, {Disputed});
        if p.Some? && p.value.clientId == user then half + fee else 0
      case _ => 0
  }

  function EarnedOver(m: Mirror, logs: seq<Log>, w: Windows, user: Id): nat {
    if logs == [] then 0
    else EarnedOver(m, logs[..|logs| - 1], w, user) + Earns(IngestAll(m, logs[..|logs| - 1], w), logs[|logs| - 1], user)
  }

  function CostOver(m: Mirror, logs: seq<Log>, w: Windows, user: Id): nat {
    if logs == [] then 0
    else CostOver(m, logs[..|logs| - 1], w, user) + Costs(IngestAll(m, logs[..|logs| - 1], w), logs[|logs| - 1], user)
  }

  /** The same users, each with so much more earned and paid. */
  predicate Totals(us: seq<UserRow>, vs: seq<UserRow>, earned: Id -> nat, paid: Id -> nat) {
    |vs| == |us| && forall i :: 0 <= i < |us| ==>
      && vs[i].id == us[i].id && vs[i].wallet == us[i].wallet
      && vs[i].earned == us[i].earned + earned(us[i].id) && vs[i].paid == us[i].paid + paid(us[i].id)
  }

  lemma TotalsOfCompletion(m: Mirror, projectId: Id)
    ensures Totals(m.users, CompleteIfDone(m, projectId).users, u => 0, u => 0)
  {
  }

  lemma TotalsOfPaid(m: Mirror, l: Log, id: nat, kind: Kind, statuses: set<Status>, amount: nat, fee: nat)
    requires forall s :: NextStatus(s, kind).Some? <==> s in statuses
    ensures var p := ProjectIn(m, id, statuses);
      Totals(m.users, ApplyPaid(m, l, id, kind, amount, fee).users,
             u => if p.Some? && p.value.freelancerId == u then amount else 0,
             u => if p.Some? && p.value.clientId == u then amount + fee else 0)
  {
    var t := Legal(m, id, kind);
    if t.Some? {
      var project := m.milestones[t.value.0].projectId;
      var n1 := SetMilestone(m, t.value.0, Settle(m.milestones[t.value.0], t.value.1, l));
      TotalsOfCompletion(AdjustStats(n1, project, amount, amount + fee), project);
    }
  }

  lemma TotalsOfReturned(m: Mirror, l: Log, id: nat, kind: Kind)
    ensures Totals(m.users, ApplyReturned(m, l, id, kind).users, u => 0, u => 0)
  {
    var t := Legal(m, id, kind);
    if t.Some? {
      TotalsOfCompletion(SetMilestone(m, t.value.0, Settle(m.milestones[t.value.0], t.value.1, l)), m.milestones[t.value.0].projectId);
    }
  }

  lemma TotalsOfNoQuorum(m: Mirror, l: Log, w: Windows)
    requires l.event.NoQuorumFallback?
    ensures Totals(m.users, ApplyNoQuorum(m, l, w).users, u => 0, u => 0)
  {
    var t := Legal(m, l.event.milestone, KNoQuorum);
    if DisputeAt(m, l.event.milestone).Some? && t.Some? {
      TotalsOfCompletion(SetMilestone(m, t.value.0, Settle(m.milestones[t.value.0], t.value.1, l)), m.milestones[t.value.0].projectId);
    }
  }

  lemma UsersStay(m: Mirror, l: Log, w: Windows)
    requires !l.event.MilestoneReleased? && !l.event.MilestoneSplit? && !l.event.MilestoneRefunded? && !l.event.MilestoneCancelled?
    requires !l.event.NoQuorumFallback?
    ensures Apply(m, l, w).users == m.users
  {
  }

  lemma TotalsOfOthers(m: Mirror, l: Log, w: Windows)
    requires !l.event.MilestoneReleased? && !l.event.MilestoneSplit?
    ensures Totals(m.users, Apply(m, l, w).users, u => 0, u => 0)
  {
    match l.event
    case MilestoneRefunded(id, _) => TotalsOfReturned(m, l, id, KRefunded);
    case MilestoneCancelled(id, _) => TotalsOfReturned(m, l, id, KCancelled);
    case NoQuorumFallback(_) => TotalsOfNoQuorum(m, l, w);
    case _ => UsersStay(m, l, w);
  }

  /** One user before and after a log. */
  predicate Credited(m: Mirror, l: Log, u: UserRow, v: UserRow) {
    v.id == u.id && v.wallet == u.wallet && v.earned == u.earned + Earns(m, l, u.id) && v.paid == u.paid + Costs(m, l, u.id)
  }

  predicate AllCredited(m: Mirror, l: Log, n: Mirror) {
    |n.users| == |m.users| && forall i :: 0 <= i < |m.users| ==> Credited(m, l, m.users[i], n.users[i])
  }

  lemma KnownIsOld(m: Mirror, l: Log)
    ensures FindAt(m.ledger, SameLog(l.tx, l.index)).None? <==> IsNew(m, l)
  {
    if FindAt(m.ledger, SameLog(l.tx, l.index)).Some? {
      assert SameLog(l.tx, l.index)(m.ledger[FindAt(m.ledger, SameLog(l.tx, l.index)).value]);
    } else {
      forall i | 0 <= i < |m.ledger|
        ensures m.ledger[i].log.tx != l.tx || m.ledger[i].log.index != l.index
      {
        assert !SameLog(l.tx, l.index)(m.ledger[i]);
      }
    }
  }

  lemma IngestCredits(m: Mirror, l: Log, w: Windows)
    ensures AllCredited(m, l, Ingest(m, l, w))
  {
    var r := Recorded(m, l);
    KnownIsOld(m, l);
    if IsNew(m, l) && !Throws(m, l.event) {
      match l.event
      case MilestoneReleased(id, principal, fee) =>
        assert ProjectIn(r, id, {Submitted, Disputed}) == ProjectIn(m, id, {Submitted, Disputed});
        TotalsOfPaid(r, l, id, KReleased, {Submitted, Disputed}, principal, fee);
      case MilestoneSplit(id, _, half, fee) =>
        assert ProjectIn(r, id, {Disputed}) == ProjectIn(m, id, {Disputed});
        TotalsOfPaid(r, l, id, KSplit, {Disputed}, half, fee);
      case _ => TotalsOfOthers(r, l, w);
    }
  }

  /**
   * After any logs each user has earned what the releases and splits of its
   * projects as freelancer brought, and paid what those of its projects as client
   * cost, fees included; nothing else moves either total.
   */
  lemma {:induction false} TotalsAreTheLogs(m: Mirror, logs: seq<Log>, w: Windows, i: nat)
    requires i < |m.users|
    ensures var n := IngestAll(m, logs, w);
      && |n.users| == |m.users| && n.users[i].id == m.users[i].id && n.users[i].wallet == m.users[i].wallet
      && n.users[i].earned == m.users[i].earned + EarnedOver(m, logs, w, m.users[i].id)
      && n.users[i].paid == m.users[i].paid + CostOver(m, logs, w, m.users[i].id)
  {
    if logs != [] {
      var before := IngestAll(m, logs[..|logs| - 1], w);
      TotalsAreTheLogs(m, logs[..|logs| - 1], w, i);
      IngestCredits(before, logs[|logs| - 1], w);
      assert Credited(before, logs[|logs| - 1], before.users[i], IngestAll(m, logs, w).users[i]);
    }
  }

  // ---- Completed projects ----

  /** How many completed projects satisfy `p`. */
  function CompletedWith(projects: seq<ProjectRow>, p: ProjectRow -> bool): nat {
    if projects == [] then 0
    else
      var last := projects[|projects| - 1];
      CompletedWith(projects[..|projects| - 1], p) + if last.status == Completed && p(last) then 1 else 0
  }

  function OfClient(user: Id): ProjectRow -> bool {
    (p: ProjectRow) => p.clientId == user
  }

  function OfFreelancer(user: Id): ProjectRow -> bool {
    (p: ProjectRow) => p.freelancerId == user
  }

  /** Every user's counters say how many of its projects are completed. */
  predicate Counted(m: Mirror) {
    forall i :: 0 <= i < |m.users| ==>
      && m.users[i].asClient == CompletedWith(m.projects, OfClient(m.users[i].id))
      && m.users[i].asFreelancer == CompletedWith(m.projects, OfFreelancer(m.users[i].id))
  }

  /** The row a lookup by id gives. */
  predicate Found(projects: seq<ProjectRow>, p: nat) {
    p < |projects| && FindAt(projects, ProjectWithId(projects[p].id)) == Some(p)
  }

  predicate AllSettled(rows: seq<MilestoneRow>, projectId: Id) {
    forall i :: 0 <= i < |rows| && rows[i].projectId == projectId ==>
      rows[i].status in {Released, ResolvedRelease, ResolvedRefund, ResolvedSplit, Cancelled}
  }

  predicate HasMilestone(rows: seq<MilestoneRow>, projectId: Id) {
    exists i :: 0 <= i < |rows| && rows[i].projectId == projectId
  }

  /** A project with milestones is completed exactly when they are all settled, unless people cancelled it. */
  predicate CompletedExactly(m: Mirror, p: nat)
    requires p < |m.projects|
  {
    && (m.projects[p].status == Completed ==> AllSettled(m.milestones, m.projects[p].id))
    && (m.projects[p].status == Active && HasMilestone(m.milestones, m.projects[p].id) ==> !AllSettled(m.milestones, m.projects[p].id))
  }

  predicate CompletionOk(m: Mirror) {
    Counted(m) && forall p :: 0 <= p < |m.projects| && Found(m.projects, p) ==> CompletedExactly(m, p)
  }

  lemma {:induction false} CompletedUpdate(projects: seq<ProjectRow>, i: nat, p: ProjectRow -> bool, q: ProjectRow)
    requires i < |projects| && projects[i].status == Active && q == projects[i].(status := Completed) && p(q) == p(projects[i])
    ensures CompletedWith(projects[i := q], p) == CompletedWith(projects, p) + if p(q) then 1 else 0
  {
    var n := |projects| - 1;
    if i == n {
      assert projects[i := q][..n] == projects[..n];
    } else {
      assert projects[i := q][..n] == projects[..n][i := q];
      CompletedUpdate(projects[..n], i, p, q);
    }
  }

  /** The rows but one are as they were, and that one stays in its project. */
  predicate OneRow(m: Mirror, n: Mirror, i: nat)
    requires i < |m.milestones|
  {
    && |n.milestones| == |m.milestones| && n.milestones == m.milestones[i := n.milestones[i]]
    && n.milestones[i].projectId == m.milestones[i].projectId
  }

  lemma SettledElsewhere(m: Mirror, n: Mirror, i: nat, projectId: Id)
    requires i < |m.milestones| && OneRow(m, n, i) && projectId != m.milestones[i].projectId
    ensures AllSettled(n.milestones, projectId) <==> AllSettled(m.milestones, projectId)
    ensures HasMilestone(n.milestones, projectId) <==> HasMilestone(m.milestones, projectId)
  {
    if HasMilestone(n.milestones, projectId) {
      var k :| 0 <= k < |n.milestones| && n.milestones[k].projectId == projectId;
      assert m.milestones[k].projectId == projectId;
    }
    if HasMilestone(m.milestones, projectId) {
      var k :| 0 <= k < |m.milestones| && m.milestones[k].projectId == projectId;
      assert n.milestones[k].projectId == projectId;
    }
    if AllSettled(n.milestones, projectId) {
      forall k | 0 <= k < |m.milestones| && m.milestones[k].projectId == projectId
        ensures m.milestones[k].status in {Released, ResolvedRelease, ResolvedRefund, ResolvedSplit, Cancelled}
      {
        assert n.milestones[k] == m.milestones[k];
      }
    }
    if AllSettled(m.milestones, projectId) {
      forall k | 0 <= k < |n.milestones| && n.milestones[k].projectId == projectId
        ensures n.milestones[k].status in {Released, ResolvedRelease, ResolvedRefund, ResolvedSplit, Cancelled}
      {
        assert n.milestones[k] == m.milestones[k];
      }
    }
  }

  /** A live row that stays live completes nothing. */
  lemma LiveKeepsCompletion(m: Mirror, n: Mirror, i: nat)
    requires CompletionOk(m) && i < |m.milestones| && OneRow(m, n, i)
    requires n.projects == m.projects && n.users == m.users
    requires !IsTerminal(m.milestones[i].status) && !IsTerminal(n.milestones[i].status)
    ensures CompletionOk(n)
  {
    forall p | 0 <= p < |n.projects| && Found(n.projects, p)
      ensures CompletedExactly(n, p)
    {
      if n.projects[p].id != m.milestones[i].projectId {
        SettledElsewhere(m, n, i, n.projects[p].id);
        assert CompletedExactly(m, p);
      } else {
        assert CompletedExactly(m, p);
        assert !AllSettled(m.milestones, m.projects[p].id);
        assert !AllSettled(n.milestones, n.projects[p].id);
      }
    }
  }

  /** Only the human part and the totals of users may differ. */
  predicate SameCounters(us: seq<UserRow>, vs: seq<UserRow>) {
    |us| == |vs| && forall i :: 0 <= i < |us| ==> us[i].id == vs[i].id && us[i].asClient == vs[i].asClient && us[i].asFreelancer == vs[i].asFreelancer
  }

  lemma CountedAfter(m: Mirror, n: Mirror, p: nat)
    requires Counted(m) && p < |m.projects| && m.projects[p].status == Active
    requires n.projects == m.projects[p := m.projects[p].(status := Completed)]
    requires n.users == CountFreelancer(CountClient(m.users, m.projects[p].clientId), m.projects[p].freelancerId)
    ensures Counted(n)
  {
    var q := m.projects[p].(status := Completed);
    forall i | 0 <= i < |n.users|
      ensures n.users[i].asClient == CompletedWith(n.projects, OfClient(n.users[i].id))
      ensures n.users[i].asFreelancer == CompletedWith(n.projects, OfFreelancer(n.users[i].id))
    {
      CompletedUpdate(m.projects, p, OfClient(n.users[i].id), q);
      CompletedUpdate(m.projects, p, OfFreelancer(n.users[i].id), q);
    }
  }

  lemma {:induction false} FindByIds(ps: seq<ProjectRow>, qs: seq<ProjectRow>, id: Id)
    requires |ps| == |qs| && forall i :: 0 <= i < |ps| ==> ps[i].id == qs[i].id
    ensures Find(ps, ProjectWithId(id)) == Find(qs, ProjectWithId(id))
  {
    if ps != [] { FindByIds(ps[..|ps| - 1], qs[..|qs| - 1], id); }
  }

  lemma LiveIsNotSettled(m: Mirror, i: nat, projectId: Id)
    requires i < |m.milestones| && m.milestones[i].projectId == projectId && !IsTerminal(m.milestones[i].status)
    ensures !AllSettled(m.milestones, projectId) && HasMilestone(m.milestones, projectId)
  {
  }

  lemma CompleteOther(m: Mirror, s: Mirror, i: nat, n: Mirror, p: nat)
    requires i < |m.milestones| && OneRow(m, s, i) && s.projects == m.projects && n == CompleteIfDone(s, m.milestones[i].projectId)
    requires p < |m.projects| && CompletedExactly(m, p) && m.projects[p].id != m.milestones[i].projectId
    ensures p < |n.projects| && CompletedExactly(n, p)
  {
    SettledElsewhere(m, s, i, m.projects[p].id);
  }

  lemma CompleteThis(m: Mirror, s: Mirror, i: nat, n: Mirror, p: nat)
    requires i < |m.milestones| && OneRow(m, s, i) && s.projects == m.projects && n == CompleteIfDone(s, m.milestones[i].projectId)
    requires !IsTerminal(m.milestones[i].status)
    requires Found(m.projects, p) && CompletedExactly(m, p) && m.projects[p].id == m.milestones[i].projectId
    ensures p < |n.projects| && CompletedExactly(n, p)
  {
    var projectId := m.milestones[i].projectId;
    LiveIsNotSettled(m, i, projectId);
    assert n.milestones == s.milestones;
    assert Terminal(s.milestones, projectId) <==> AllSettled(s.milestones, projectId);
  }

  lemma SettleKeepsCounted(s: Mirror, projectId: Id)
    requires Counted(s)
    ensures Counted(CompleteIfDone(s, projectId))
  {
    var p := FindAt(s.projects, ProjectWithId(projectId));
    if Terminal(s.milestones, projectId) && p.Some? && s.projects[p.value].status == Active {
      CountedAfter(s, CompleteIfDone(s, projectId), p.value);
    }
  }

  /** Settling a live row completes its project exactly when it was the last one. */
  lemma SettleKeepsCompletion(m: Mirror, s: Mirror, i: nat)
    requires CompletionOk(m) && i < |m.milestones| && OneRow(m, s, i)
    requires s.projects == m.projects && SameCounters(m.users, s.users) && !IsTerminal(m.milestones[i].status)
    ensures CompletionOk(CompleteIfDone(s, m.milestones[i].projectId))
  {
    var n := CompleteIfDone(s, m.milestones[i].projectId);
    SettleKeepsCounted(s, m.milestones[i].projectId);
    forall p | 0 <= p < |n.projects| && Found(n.projects, p)
      ensures CompletedExactly(n, p)
    {
      FindByIds(m.projects, n.projects, n.projects[p].id);
      assert Found(m.projects, p) && CompletedExactly(m, p);
      if n.projects[p].id == m.milestones[i].projectId { CompleteThis(m, s, i, n, p); } else { CompleteOther(m, s, i, n, p); }
    }
  }

  /** No event of the table moves a settled milestone. */
  lemma LegalIsLive(m: Mirror, id: nat, kind: Kind)
    requires Legal(m, id, kind).Some?
    ensures !IsTerminal(m.milestones[Legal(m, id, kind).value.0].status)
  {
  }

  lemma PaidKeepsCompletion(m: Mirror, l: Log, id: nat, kind: Kind, amount: nat, fee: nat)
    requires CompletionOk(m)
    ensures CompletionOk(ApplyPaid(m, l, id, kind, amount, fee))
  {
    var t := Legal(m, id, kind);
    if t.Some? {
      LegalIsLive(m, id, kind);
      var s := SetMilestone(m, t.value.0, Settle(m.milestones[t.value.0], t.value.1, l));
      SettleKeepsCompletion(m, AdjustStats(s, m.milestones[t.value.0].projectId, amount, amount + fee), t.value.0);
    }
  }

  lemma ReturnedKeepsCompletion(m: Mirror, l: Log, id: nat, kind: Kind)
    requires CompletionOk(m)
    ensures CompletionOk(ApplyReturned(m, l, id, kind))
  {
    var t := Legal(m, id, kind);
    if t.Some? {
      LegalIsLive(m, id, kind);
      SettleKeepsCompletion(m, SetMilestone(m, t.value.0, Settle(m.milestones[t.value.0], t.value.1, l)), t.value.0);
    }
  }

  /** What completion depends on is the same. */
  lemma SameCompletion(m: Mirror, n: Mirror)
    requires CompletionOk(m) && n.milestones == m.milestones && n.projects == m.projects && n.users == m.users
    ensures CompletionOk(n)
  {
    forall p | 0 <= p < |n.projects| && Found(n.projects, p)
      ensures CompletedExactly(n, p)
    {
      assert CompletedExactly(m, p);
    }
  }

  lemma NoQuorumKeepsCompletion(m: Mirror, l: Log, w: Windows)
    requires CompletionOk(m) && l.event.NoQuorumFallback?
    ensures CompletionOk(ApplyNoQuorum(m, l, w))
  {
    var t := Legal(m, l.event.milestone, KNoQuorum);
    if DisputeAt(m, l.event.milestone).Some? && t.Some? {
      ReturnedKeepsCompletion(m, l, l.event.milestone, KNoQuorum);
      SameCompletion(ApplyReturned(m, l, l.event.milestone, KNoQuorum), ApplyNoQuorum(m, l, w));
    }
  }

  lemma FundedKeepsCompletion(m: Mirror, l: Log)
    requires CompletionOk(m) && l.event.MilestoneFunded?
    ensures CompletionOk(ApplyFunded(m, l))
  {
    var n := ApplyFunded(m, l);
    if n.milestones == m.milestones {
      SameCompletion(m, n);
    } else {
      LiveKeepsCompletion(m, n, FindAt(m.milestones, HasId(l.event.ref.value)).value);
    }
  }

  lemma MovedKeepsCompletion(m: Mirror, l: Log)
    requires CompletionOk(m) && (l.event.MilestoneSubmitted? || l.event.DisputeOpened?)
    ensures l.event.MilestoneSubmitted? ==> CompletionOk(ApplySubmitted(m, l))
    ensures l.event.DisputeOpened? ==> CompletionOk(ApplyDisputeOpened(m, l))
  {
    var kind := if l.event.MilestoneSubmitted? then KSubmitted else KDisputed;
    var t := Legal(m, l.event.milestone, kind);
    if t.Some? {
      LegalIsLive(m, l.event.milestone, kind);
      if l.event.MilestoneSubmitted? {
        LiveKeepsCompletion(m, ApplySubmitted(m, l), t.value.0);
      } else {
        LiveKeepsCompletion(m, ApplyDisputeOpened(m, l), t.value.0);
      }
    }
  }

  lemma WithdrawnKeepsCompletion(m: Mirror, l: Log)
    requires CompletionOk(m) && l.event.FundsWithdrawn?
    ensures CompletionOk(ApplyWithdrawn(m, l))
  {
    var n := ApplyWithdrawn(m, l);
    forall p | 0 <= p < |n.projects| && Found(n.projects, p)
      ensures CompletedExactly(n, p)
    {
      assert CompletedExactly(m, p);
      StatusesDecide(m.milestones, n.milestones, m.projects[p].id);
    }
  }

  lemma StatusesDecide(a: seq<MilestoneRow>, b: seq<MilestoneRow>, projectId: Id)
    requires |a| == |b| && forall i :: 0 <= i < |a| ==> a[i].projectId == b[i].projectId && a[i].status == b[i].status
    ensures AllSettled(a, projectId) <==> AllSettled(b, projectId)
    ensures HasMilestone(a, projectId) <==> HasMilestone(b, projectId)
  {
    if HasMilestone(a, projectId) {
      var k :| 0 <= k < |a| && a[k].projectId == projectId;
      assert b[k].projectId == projectId;
    }
    if HasMilestone(b, projectId) {
      var k :| 0 <= k < |b| && b[k].projectId == projectId;
      assert a[k].projectId == projectId;
    }
  }

  /** The events that settle or link a milestone. */
  predicate Moves(e: Event) {
    match e
    case MilestoneFunded(_, _, _, _, _) => true
    case MilestoneSubmitted(_) => true
    case MilestoneReleased(_, _, _) => true
    case MilestoneRefunded(_, _) => true
    case MilestoneSplit(_, _, _, _) => true
    case MilestoneCancelled(_, _) => true
    case DisputeOpened(_, _) => true
    case NoQuorumFallback(_) => true
    case FundsWithdrawn(_, _) => true
    case _ => false
  }

  lemma OthersKeepCompletion(m: Mirror, l: Log, w: Windows)
    requires CompletionOk(m) && !Moves(l.event)
    ensures CompletionOk(Apply(m, l, w))
  {
    SameCompletion(m, Apply(m, l, w));
  }

  lemma ApplyKeepsCompletion(m: Mirror, l: Log, w: Windows)
    requires CompletionOk(m)
    ensures CompletionOk(Apply(m, l, w))
  {
    match l.event
    case MilestoneFunded(_, _, _, _, _) => FundedKeepsCompletion(m, l);
    case MilestoneSubmitted(_) => MovedKeepsCompletion(m, l);
    case DisputeOpened(_, _) => MovedKeepsCompletion(m, l);
    case MilestoneReleased(id, principal, fee) => PaidKeepsCompletion(m, l, id, KReleased, principal, fee);
    case MilestoneSplit(id, _, half, fee) => PaidKeepsCompletion(m, l, id, KSplit, half, fee);
    case MilestoneRefunded(id, _) => ReturnedKeepsCompletion(m, l, id, KRefunded);
    case MilestoneCancelled(id, _) => ReturnedKeepsCompletion(m, l, id, KCancelled);
    case NoQuorumFallback(_) => NoQuorumKeepsCompletion(m, l, w);
    case FundsWithdrawn(_, _) => WithdrawnKeepsCompletion(m, l);
    case _ => OthersKeepCompletion(m, l, w);
  }

  lemma IngestKeepsCompletion(m: Mirror, l: Log, w: Windows)
    requires CompletionOk(m)
    ensures CompletionOk(Ingest(m, l, w))
  {
    SameCompletion(m, Recorded(m, l));
    ApplyKeepsCompletion(Recorded(m, l), l, w);
  }

  lemma {:induction false} NoneCompleted(projects: seq<ProjectRow>, p: ProjectRow -> bool)
    requires forall i :: 0 <= i < |projects| ==> projects[i].status != Completed
    ensures CompletedWith(projects, p) == 0
  {
    if projects != [] { NoneCompleted(projects[..|projects| - 1], p); }
  }

  lemma NeverIndexedIsOpen(m: Mirror)
    requires NeverIndexed(m) == m
    ensures CompletionOk(m)
  {
    assert Map(Reopen, m.projects) == m.projects && Map(Unpaid, m.users) == m.users && Map(Blank, m.milestones) == m.milestones;
    forall i | 0 <= i < |m.projects|
      ensures m.projects[i].status != Completed
    {
      assert m.projects[i] == Reopen(m.projects[i]);
    }
    forall i | 0 <= i < |m.users|
      ensures m.users[i].asClient == CompletedWith(m.projects, OfClient(m.users[i].id))
      ensures m.users[i].asFreelancer == CompletedWith(m.projects, OfFreelancer(m.users[i].id))
    {
      assert m.users[i] == Unpaid(m.users[i]);
      NoneCompleted(m.projects, OfClient(m.users[i].id));
      NoneCompleted(m.projects, OfFreelancer(m.users[i].id));
    }
    forall p | 0 <= p < |m.projects|
      ensures CompletedExactly(m, p)
    {
      if HasMilestone(m.milestones, m.projects[p].id) {
        var k :| 0 <= k < |m.milestones| && m.milestones[k].projectId == m.projects[p].id;
        assert m.milestones[k] == Blank(m.milestones[k]);
      }
    }
  }

  /**
   * Whatever logs a never-indexed database hears, a project with milestones is
   * completed exactly when all of them are settled, unless people cancelled it,
   * and every user's counters say how many of its projects are completed.
   */
  lemma {:induction false} CompletionFollows(m: Mirror, logs: seq<Log>, w: Windows)
    requires NeverIndexed(m) == m
    ensures CompletionOk(IngestAll(m, logs, w))
  {
    if logs == [] {
      NeverIndexedIsOpen(m);
    } else {
      CompletionFollows(m, logs[..|logs| - 1], w);
      IngestKeepsCompletion(IngestAll(m, logs[..|logs| - 1], w), logs[|logs| - 1], w);
    }
  }
}
