/** Milestone statuses and the transitions an event may cause (apps/api/src/domain/state-machine.ts). */
module Milestones {
  import opened Basics

  datatype Status =
    | PendingFunding
    | Funded
    | Submitted
    | Disputed
    | Released
    | ResolvedRelease
    | ResolvedRefund
    | ResolvedSplit
    | Cancelled

  /** The contract's ordinal of a status. */
  function Ordinal(s: Status): nat {
    match s
    case PendingFunding => 0
    case Funded => 1
    case Submitted => 2
    case Disputed => 3
    case Released => 4
    case ResolvedRelease => 5
    case ResolvedRefund => 6
    case ResolvedSplit => 7
    case Cancelled => 8
  }

  /** No further money movement is possible for the milestone. */
  predicate IsTerminal(s: Status) {
    s in {Released, ResolvedRelease, ResolvedRefund, ResolvedSplit, Cancelled}
  }

  /** The amount is locked in escrow. */
  predicate IsLive(s: Status) {
    s in {Funded, Submitted, Disputed}
  }

  /** The milestone has been in arbitration. */
  predicate IsArbitrated(s: Status) {
    s in {Disputed, ResolvedRelease, ResolvedRefund, ResolvedSplit}
  }

  /** One legal step of the escrow contract. */
  predicate Step(a: Status, b: Status) {
    match a
    case Funded => b in {Submitted, Disputed, Cancelled}
    case Submitted => b in {Released, Disputed}
    case Disputed => b in {ResolvedRelease, ResolvedRefund, ResolvedSplit}
    case _ => false
  }

  /** Every status a milestone of status `a` may have later. */
  predicate Later(a: Status, b: Status) {
    a == b || Step(a, b) || (a == Funded && IsTerminal(b)) || (a == Submitted && IsArbitrated(b))
  }

  lemma LaterIsReachability(a: Status, b: Status, c: Status)
    ensures Later(a, a)
    ensures Step(a, b) ==> Later(a, b)
    ensures Later(a, b) && Later(b, c) ==> Later(a, c)
    ensures IsTerminal(a) && Later(a, b) ==> a == b
    ensures IsArbitrated(a) && Later(a, b) ==> IsArbitrated(b)
  {
  }

  // ---- The mirror's transition table ----

  /** The events that move a milestone. */
  datatype Kind =
    | KFunded
    | KSubmitted
    | KDisputed
    | KReleased
    | KRefunded
    | KSplit
    | KCancelled
    | KNoQuorum

  /** The status after a legal event; None is drift. */
  function NextStatus(from: Status, event: Kind): Option<Status> {
    match event
    case KFunded => if from == PendingFunding then Some(Funded) else None
    case KSubmitted => if from == Funded then Some(Submitted) else None
    case KDisputed => if from == Funded || from == Submitted then Some(Disputed) else None
    case KReleased =>
      if from == Submitted then Some(Released) else if from == Disputed then Some(ResolvedRelease) else None
    case KRefunded =>
      if from == Funded then Some(Cancelled) else if from == Disputed then Some(ResolvedRefund) else None
    case KSplit => if from == Disputed then Some(ResolvedSplit) else None
    case KCancelled => if from == PendingFunding || from == Funded then Some(Cancelled) else None
    case KNoQuorum => if from == Disputed then Some(ResolvedRefund) else None
  }

  /** On funded milestones the mirror's table is the contract's step relation, and nothing leaves a terminal status. */
  lemma TableMatchesContract(a: Status, b: Status)
    ensures a != PendingFunding ==> (Step(a, b) <==> exists k :: NextStatus(a, k) == Some(b))
    ensures IsTerminal(a) ==> forall k :: NextStatus(a, k) == None
  {
    if Step(a, b) {
      var k := match b
        case Submitted => KSubmitted
        case Disputed => KDisputed
        case Cancelled => KCancelled
        case Released => KReleased
        case ResolvedRelease => KReleased
        case ResolvedRefund => KRefunded
        case _ => KSplit;
      assert NextStatus(a, k) == Some(b);
    }
  }
}
