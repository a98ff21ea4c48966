/**
 * Every chain column of a mirrored milestone is on its ledger: whatever logs are
 * ingested, a stamp points to a recorded log of the right kind that names the
 * milestone (the appliers of apps/api/src/chain/indexer.ts).
 */
module MirrorReceipts {
  import opened Basics
  import opened Milestones
  import opened Indexer
  import opened Generation

  predicate FundedBy(r: MilestoneRow, l: Log) {
    && l.event.MilestoneFunded? && r.onchainId == Some(l.event.milestone) && l.event.ref == Some(r.id) && l.event.amount == r.amount
    && r.fundedTx == Some(l.tx) && r.fundedAt == Some(l.time)
  }

  predicate SubmittedBy(r: MilestoneRow, l: Log) {
    l.event.MilestoneSubmitted? && r.onchainId == Some(l.event.milestone) && r.submittedAt == Some(l.time)
  }

  predicate DisputedBy(r: MilestoneRow, l: Log) {
    l.event.DisputeOpened? && r.onchainId == Some(l.event.milestone)
  }

  /** The log that ended the milestone, for the status it ended in. */
  predicate SettledBy(r: MilestoneRow, l: Log) {
    && r.settledAt == Some(l.time) && r.settlementTx == Some(l.tx)
    && match r.status
       case Released => l.event.MilestoneReleased? && r.onchainId == Some(l.event.milestone)
       case ResolvedRelease => l.event.MilestoneReleased? && r.onchainId == Some(l.event.milestone)
       case ResolvedSplit => l.event.MilestoneSplit? && r.onchainId == Some(l.event.milestone)
       case ResolvedRefund => (l.event.MilestoneRefunded? || l.event.NoQuorumFallback?) && r.onchainId == Some(l.event.milestone)
       case Cancelled => (l.event.MilestoneRefunded? || l.event.MilestoneCancelled?) && r.onchainId == Some(l.event.milestone)
       case _ => false
  }

  predicate WithdrawnBy(r: MilestoneRow, l: Log) {
    l.event.FundsWithdrawn? && r.onchainId == Some(l.event.milestone) && r.withdrawnAt == Some(l.time) && r.withdrawTx == Some(l.tx)
  }

  predicate AnyFunded(r: MilestoneRow, logs: seq<Log>) {
    exists k :: 0 <= k < |logs| && FundedBy(r, logs[k])
  }

  predicate AnySubmitted(r: MilestoneRow, logs: seq<Log>) {
    exists k :: 0 <= k < |logs| && SubmittedBy(r, logs[k])
  }

  predicate AnyDisputed(r: MilestoneRow, logs: seq<Log>) {
    exists k :: 0 <= k < |logs| && DisputedBy(r, logs[k])
  }

  predicate AnySettled(r: MilestoneRow, logs: seq<Log>) {
    exists k :: 0 <= k < |logs| && SettledBy(r, logs[k])
  }

  predicate AnyWithdrawn(r: MilestoneRow, logs: seq<Log>) {
    exists k :: 0 <= k < |logs| && WithdrawnBy(r, logs[k])
  }

  /** What a row shows of the chain, and where the ledger says it. */
  predicate Receipted(r: MilestoneRow, logs: seq<Log>) {
    && (r.onchainId.None? <==> r.status == PendingFunding)
    && (r.onchainId.None? ==>
          && r.fundedTx.None? && r.fundedAt.None? && r.submittedAt.None? && r.settledAt.None? && r.settlementTx.None?
          && r.withdrawnAt.None? && r.withdrawTx.None?)
    && (r.onchainId.Some? ==> AnyFunded(r, logs))
    && (r.status in {Submitted, Released} ==> r.submittedAt.Some?)
    && (r.submittedAt.Some? ==> AnySubmitted(r, logs) && r.softStatus == Some(SoftSubmitted))
    && (r.status in {Disputed, ResolvedRelease, ResolvedRefund, ResolvedSplit} ==> AnyDisputed(r, logs))
    && (r.settledAt.Some? <==> r.status in {Released, ResolvedRelease, ResolvedRefund, ResolvedSplit, Cancelled})
    && (r.settledAt.Some? <==> r.settlementTx.Some?)
    && (r.settledAt.Some? ==> AnySettled(r, logs))
    && (r.withdrawnAt.Some? <==> r.withdrawTx.Some?)
    && (r.withdrawnAt.Some? ==> AnyWithdrawn(r, logs))
  }

  predicate AllReceipted(m: Mirror) {
    forall i :: 0 <= i < |m.milestones| ==> Receipted(m.milestones[i], Logs(m.ledger))
  }

  // ---- Receipts last ----

  lemma FundedLasts(r: MilestoneRow, s: MilestoneRow, logs: seq<Log>, l: Log)
    requires s.id == r.id && s.amount == r.amount && s.onchainId == r.onchainId && s.fundedTx == r.fundedTx && s.fundedAt == r.fundedAt
    ensures AnyFunded(r, logs) ==> AnyFunded(s, logs + [l])
  {
    if AnyFunded(r, logs) {
      var k :| 0 <= k < |logs| && FundedBy(r, logs[k]);
      assert FundedBy(s, (logs + [l])[k]);
    }
  }

  lemma SubmittedLasts(r: MilestoneRow, s: MilestoneRow, logs: seq<Log>, l: Log)
    requires s.onchainId == r.onchainId && s.submittedAt == r.submittedAt
    ensures AnySubmitted(r, logs) ==> AnySubmitted(s, logs + [l])
  {
    if AnySubmitted(r, logs) {
      var k :| 0 <= k < |logs| && SubmittedBy(r, logs[k]);
      assert SubmittedBy(s, (logs + [l])[k]);
    }
  }

  lemma DisputedLasts(r: MilestoneRow, s: MilestoneRow, logs: seq<Log>, l: Log)
    requires s.onchainId == r.onchainId
    ensures AnyDisputed(r, logs) ==> AnyDisputed(s, logs + [l])
  {
    if AnyDisputed(r, logs) {
      var k :| 0 <= k < |logs| && DisputedBy(r, logs[k]);
      assert DisputedBy(s, (logs + [l])[k]);
    }
  }

  lemma SettledLasts(r: MilestoneRow, s: MilestoneRow, logs: seq<Log>, l: Log)
    requires s.onchainId == r.onchainId && s.status == r.status && s.settledAt == r.settledAt && s.settlementTx == r.settlementTx
    ensures AnySettled(r, logs) ==> AnySettled(s, logs + [l])
  {
    if AnySettled(r, logs) {
      var k :| 0 <= k < |logs| && SettledBy(r, logs[k]);
      assert SettledBy(s, (logs + [l])[k]);
    }
  }

  lemma WithdrawnLasts(r: MilestoneRow, s: MilestoneRow, logs: seq<Log>, l: Log)
    requires s.onchainId == r.onchainId && s.withdrawnAt == r.withdrawnAt && s.withdrawTx == r.withdrawTx
    ensures AnyWithdrawn(r, logs) ==> AnyWithdrawn(s, logs + [l])
  {
    if AnyWithdrawn(r, logs) {
      var k :| 0 <= k < |logs| && WithdrawnBy(r, logs[k]);
      assert WithdrawnBy(s, (logs + [l])[k]);
    }
  }

  lemma ReceiptLasts(r: MilestoneRow, logs: seq<Log>, l: Log)
    requires Receipted(r, logs)
    ensures Receipted(r, logs + [l])
  {
    FundedLasts(r, r, logs, l);
    SubmittedLasts(r, r, logs, l);
    DisputedLasts(r, r, logs, l);
    SettledLasts(r, r, logs, l);
    WithdrawnLasts(r, r, logs, l);
  }

  /** The ledger grew by one log, and of the rows at most the `i`th changed. */
  predicate Heard(m: Mirror, n: Mirror, l: Log, i: nat) {
    && Logs(n.ledger) == Logs(m.ledger) + [l] && |n.milestones| == |m.milestones|
    && forall k :: 0 <= k < |m.milestones| && k != i ==> n.milestones[k] == m.milestones[k]
  }

  lemma OneChanged(m: Mirror, n: Mirror, l: Log, i: nat)
    requires AllReceipted(m) && Heard(m, n, l, i)
    requires i < |n.milestones| ==> Receipted(n.milestones[i], Logs(m.ledger) + [l])
    ensures AllReceipted(n)
  {
    forall k | 0 <= k < |n.milestones|
      ensures Receipted(n.milestones[k], Logs(n.ledger))
    {
      if k != i { ReceiptLasts(m.milestones[k], Logs(m.ledger), l); }
    }
  }

  // ---- Each change of a row ----

  lemma FundedRow(r: MilestoneRow, s: MilestoneRow, logs: seq<Log>, l: Log)
    requires Receipted(r, logs) && r.status == PendingFunding && l.event.MilestoneFunded?
    requires l.event.ref == Some(r.id) && l.event.amount == r.amount
    requires s == r.(onchainId := Some(l.event.milestone), status := Funded, fundedTx := Some(l.tx), fundedAt := Some(l.time))
    ensures Receipted(s, logs + [l])
  {
    assert FundedBy(s, (logs + [l])[|logs|]);
  }

  lemma SubmittedRow(r: MilestoneRow, s: MilestoneRow, logs: seq<Log>, l: Log)
    requires Receipted(r, logs) && r.status == Funded && l.event.MilestoneSubmitted? && r.onchainId == Some(l.event.milestone)
    requires s == r.(status := Submitted, submittedAt := Some(l.time), softStatus := Some(SoftSubmitted))
    ensures Receipted(s, logs + [l])
  {
    FundedLasts(r, s, logs, l);
    WithdrawnLasts(r, s, logs, l);
    assert SubmittedBy(s, (logs + [l])[|logs|]);
  }

  lemma DisputedRow(r: MilestoneRow, s: MilestoneRow, logs: seq<Log>, l: Log)
    requires Receipted(r, logs) && r.status in {Funded, Submitted} && l.event.DisputeOpened? && r.onchainId == Some(l.event.milestone)
    requires s == r.(status := Disputed)
    ensures Receipted(s, logs + [l])
  {
    FundedLasts(r, s, logs, l);
    SubmittedLasts(r, s, logs, l);
    WithdrawnLasts(r, s, logs, l);
    assert DisputedBy(s, (logs + [l])[|logs|]);
  }

  lemma SettledRow(r: MilestoneRow, s: MilestoneRow, logs: seq<Log>, l: Log, kind: Kind)
    requires Receipted(r, logs) && r.status != PendingFunding && NextStatus(r.status, kind) == Some(s.status)
    requires match kind
      case KReleased => l.event.MilestoneReleased? && r.onchainId == Some(l.event.milestone)
      case KRefunded => l.event.MilestoneRefunded? && r.onchainId == Some(l.event.milestone)
      case KSplit => l.event.MilestoneSplit? && r.onchainId == Some(l.event.milestone)
      case KCancelled => l.event.MilestoneCancelled? && r.onchainId == Some(l.event.milestone)
      case KNoQuorum => l.event.NoQuorumFallback? && r.onchainId == Some(l.event.milestone)
      case _ => false
    requires s == r.(status := s.status, settledAt := Some(l.time), settlementTx := Some(l.tx))
    ensures Receipted(s, logs + [l])
  {
    FundedLasts(r, s, logs, l);
    SubmittedLasts(r, s, logs, l);
    DisputedLasts(r, s, logs, l);
    WithdrawnLasts(r, s, logs, l);
    assert SettledBy(s, (logs + [l])[|logs|]);
  }

  lemma WithdrawnRow(r: MilestoneRow, s: MilestoneRow, logs: seq<Log>, l: Log)
    requires Receipted(r, logs) && l.event.FundsWithdrawn? && r.onchainId == Some(l.event.milestone)
    requires s == r.(withdrawnAt := Some(l.time), withdrawTx := Some(l.tx))
    ensures Receipted(s, logs + [l])
  {
    FundedLasts(r, s, logs, l);
    SubmittedLasts(r, s, logs, l);
    DisputedLasts(r, s, logs, l);
    SettledLasts(r, s, logs, l);
    assert WithdrawnBy(s, (logs + [l])[|logs|]);
  }

  // ---- Each event ----

  /** The log was recorded and one row, or none, was replaced. */
  predicate Replaced(m: Mirror, n: Mirror, l: Log, i: nat, r: MilestoneRow)
    requires i < |m.milestones|
  {
    Logs(n.ledger) == Logs(m.ledger) + [l] && n.milestones == m.milestones[i := r]
  }

  lemma ReplacedRow(m: Mirror, n: Mirror, l: Log, i: nat, r: MilestoneRow)
    requires AllReceipted(m) && i < |m.milestones| && Replaced(m, n, l, i, r) && Receipted(r, Logs(m.ledger) + [l])
    ensures AllReceipted(n)
  {
    OneChanged(m, n, l, i);
  }

  lemma NoRow(m: Mirror, n: Mirror, l: Log)
    requires AllReceipted(m) && Logs(n.ledger) == Logs(m.ledger) + [l] && n.milestones == m.milestones
    ensures AllReceipted(n)
  {
    OneChanged(m, n, l, |m.milestones|);
  }

  lemma SettledReceipted(m: Mirror, n: Mirror, l: Log, id: nat, kind: Kind)
    requires AllReceipted(m) && Logs(n.ledger) == Logs(m.ledger) + [l]
    requires match kind
      case KReleased => l.event.MilestoneReleased? && id == l.event.milestone
      case KRefunded => l.event.MilestoneRefunded? && id == l.event.milestone
      case KSplit => l.event.MilestoneSplit? && id == l.event.milestone
      case KCancelled => l.event.MilestoneCancelled? && id == l.event.milestone
      case KNoQuorum => l.event.NoQuorumFallback? && id == l.event.milestone
      case _ => false
    requires var t := Legal(m, id, kind);
      n.milestones == m.milestones
      || (t.Some? && n.milestones == m.milestones[t.value.0 := Settle(m.milestones[t.value.0], t.value.1, l)])
    ensures AllReceipted(n)
  {
    var t := Legal(m, id, kind);
    if n.milestones == m.milestones {
      NoRow(m, n, l);
    } else {
      var r := m.milestones[t.value.0];
      assert Receipted(r, Logs(m.ledger));
      SettledRow(r, Settle(r, t.value.1, l), Logs(m.ledger), l, kind);
      ReplacedRow(m, n, l, t.value.0, Settle(r, t.value.1, l));
    }
  }

  /** `n` is what a new log makes of `m`. */
  predicate Applied(m: Mirror, n: Mirror, l: Log, w: Windows) {
    n == Apply(Recorded(m, l), l, w) && Logs(n.ledger) == Logs(m.ledger) + [l]
  }

  lemma PaidReceipted(m: Mirror, n: Mirror, l: Log, w: Windows)
    requires AllReceipted(m) && Applied(m, n, l, w) && (l.event.MilestoneReleased? || l.event.MilestoneSplit?)
    ensures AllReceipted(n)
  {
    var kind := if l.event.MilestoneReleased? then KReleased else KSplit;
    assert Legal(Recorded(m, l), l.event.milestone, kind) == Legal(m, l.event.milestone, kind);
    SettledReceipted(m, n, l, l.event.milestone, kind);
  }

  lemma ReturnedReceipted(m: Mirror, n: Mirror, l: Log, w: Windows)
    requires AllReceipted(m) && Applied(m, n, l, w) && (l.event.MilestoneRefunded? || l.event.MilestoneCancelled?)
    ensures AllReceipted(n)
  {
    var kind := if l.event.MilestoneRefunded? then KRefunded else KCancelled;
    assert Legal(Recorded(m, l), l.event.milestone, kind) == Legal(m, l.event.milestone, kind);
    SettledReceipted(m, n, l, l.event.milestone, kind);
  }

  lemma NoQuorumReceipted(m: Mirror, n: Mirror, l: Log, w: Windows)
    requires AllReceipted(m) && Applied(m, n, l, w) && l.event.NoQuorumFallback?
    ensures AllReceipted(n)
  {
    assert Legal(Recorded(m, l), l.event.milestone, KNoQuorum) == Legal(m, l.event.milestone, KNoQuorum);
    SettledReceipted(m, n, l, l.event.milestone, KNoQuorum);
  }

  lemma FundedReceipted(m: Mirror, n: Mirror, l: Log, w: Windows)
    requires AllReceipted(m) && Applied(m, n, l, w) && l.event.MilestoneFunded?
    ensures AllReceipted(n)
  {
    if n.milestones == m.milestones {
      NoRow(m, n, l);
    } else {
      var i := FindAt(m.milestones, HasId(l.event.ref.value)).value;
      FundedRow(m.milestones[i], n.milestones[i], Logs(m.ledger), l);
      ReplacedRow(m, n, l, i, n.milestones[i]);
    }
  }

  lemma SubmittedReceipted(m: Mirror, n: Mirror, l: Log, w: Windows)
    requires AllReceipted(m) && Applied(m, n, l, w) && l.event.MilestoneSubmitted?
    ensures AllReceipted(n)
  {
    var t := Legal(m, l.event.milestone, KSubmitted);
    assert Legal(Recorded(m, l), l.event.milestone, KSubmitted) == t;
    if t.None? {
      NoRow(m, n, l);
    } else {
      SubmittedRow(m.milestones[t.value.0], n.milestones[t.value.0], Logs(m.ledger), l);
      ReplacedRow(m, n, l, t.value.0, n.milestones[t.value.0]);
    }
  }

  lemma DisputedReceipted(m: Mirror, n: Mirror, l: Log, w: Windows)
    requires AllReceipted(m) && Applied(m, n, l, w) && l.event.DisputeOpened?
    ensures AllReceipted(n)
  {
    var t := Legal(m, l.event.milestone, KDisputed);
    assert Legal(Recorded(m, l), l.event.milestone, KDisputed) == t;
    if t.None? {
      NoRow(m, n, l);
    } else {
      DisputedRow(m.milestones[t.value.0], n.milestones[t.value.0], Logs(m.ledger), l);
      ReplacedRow(m, n, l, t.value.0, n.milestones[t.value.0]);
    }
  }

  lemma WithdrawnReceipted(m: Mirror, n: Mirror, l: Log, w: Windows)
    requires AllReceipted(m) && Applied(m, n, l, w) && l.event.FundsWithdrawn?
    ensures AllReceipted(n)
  {
    var i := FindAt(m.milestones, HasOnchainId(l.event.milestone));
    if i.None? {
      NoRow(m, n, l);
    } else {
      WithdrawnRow(m.milestones[i.value], n.milestones[i.value], Logs(m.ledger), l);
      ReplacedRow(m, n, l, i.value, n.milestones[i.value]);
    }
  }

  /** The events that write on milestone rows. */
  predicate Writes(e: Event) {
    match e
    case MilestoneFunded(_, _, _, _, _) => true
    case MilestoneSubmitted(_) => true
    case MilestoneReleased(_, _, _) => true
    case MilestoneRefunded(_, _) => true
    case MilestoneSplit(_, _, _, _) => true
    case MilestoneCancelled(_, _) => true
    case DisputeOpened(_, _) => true
    case NoQuorumFallback(_) => true
    case FundsWithdrawn(_, _) => true
    case _ => false
  }

  lemma OthersReceipted(m: Mirror, n: Mirror, l: Log, w: Windows)
    requires AllReceipted(m) && Applied(m, n, l, w) && !Writes(l.event)
    ensures AllReceipted(n)
  {
    NoRow(m, n, l);
  }

  lemma AppliedReceipted(m: Mirror, n: Mirror, l: Log, w: Windows)
    requires AllReceipted(m) && Applied(m, n, l, w)
    ensures AllReceipted(n)
  {
    match l.event
    case MilestoneFunded(_, _, _, _, _) => FundedReceipted(m, n, l, w);
    case MilestoneSubmitted(_) => SubmittedReceipted(m, n, l, w);
    case MilestoneReleased(_, _, _) => PaidReceipted(m, n, l, w);
    case MilestoneSplit(_, _, _, _) => PaidReceipted(m, n, l, w);
    case MilestoneRefunded(_, _) => ReturnedReceipted(m, n, l, w);
    case MilestoneCancelled(_, _) => ReturnedReceipted(m, n, l, w);
    case DisputeOpened(_, _) => DisputedReceipted(m, n, l, w);
    case NoQuorumFallback(_) => NoQuorumReceipted(m, n, l, w);
    case FundsWithdrawn(_, _) => WithdrawnReceipted(m, n, l, w);
    case _ => OthersReceipted(m, n, l, w);
  }

  /**
   * Whatever logs a never-indexed database hears: a row waits for its funding
   * exactly while no chain column is set; it is settled exactly when it carries a
   * settlement stamp; and every stamp is the hash and time of a recorded log that
   * names the milestone and says just that.
   */
  lemma {:induction false} ReceiptsFollow(m: Mirror, logs: seq<Log>, w: Windows)
    requires NeverIndexed(m) == m
    ensures AllReceipted(IngestAll(m, logs, w))
  {
    if logs == [] {
      assert Map(Blank, m.milestones) == m.milestones;
      forall i | 0 <= i < |m.milestones|
        ensures Receipted(m.milestones[i], Logs(m.ledger))
      {
        assert m.milestones[i] == Blank(m.milestones[i]);
      }
    } else {
      var before, l := IngestAll(m, logs[..|logs| - 1], w), logs[|logs| - 1];
      var n := Ingest(before, l, w);
      ReceiptsFollow(m, logs[..|logs| - 1], w);
      if n != before {
        LogsOfApply(before, l, w);
        AppliedReceipted(before, n, l, w);
      }
    }
  }
}
