/** The gates of the dispute surface (apps/web/lib/dispute-round.ts, apps/web/lib/contracts.ts). */
module DisputeGates {
  import opened Basics

  const DISPUTED_STATUS: nat := 3

  /** One live read of a round; `milestoneStatus` is None when that read failed. */
  datatype RoundState = RoundState(
    arbiterCount: nat,
    commitCount: nat,
    revealCount: nat,
    tally: seq<nat>,
    commitDeadline: nat,
    revealDeadline: nat,
    resolved: bool,
    winningOutcome: nat,
    milestoneStatus: Option<nat>)

  datatype Gates = Gates(
    live: bool,
    canCommit: bool,
    canReveal: bool,
    canTally: bool,
    canFinalize: bool,
    appealEndsAt: Option<nat>,
    appealOpen: bool)

  predicate CommitWindowOpen(now: nat, commitDeadline: nat) {
    now <= commitDeadline
  }

  predicate RevealWindowOpen(now: nat, commitDeadline: nat, revealDeadline: nat) {
    now > commitDeadline && now <= revealDeadline
  }

  predicate TallyOpen(round: RoundState, now: nat) {
    if round.resolved || round.arbiterCount == 0 then false
    else if now > round.revealDeadline then true
    else round.revealCount >= round.arbiterCount
  }

  predicate CanFinalize(resolved: bool, appealEndsAt: Option<nat>, live: bool, now: nat) {
    resolved && live && appealEndsAt.Some? && now > appealEndsAt.value
  }

  /** A failed read counts as still disputed. */
  predicate DisputeLive(status: Option<nat>) {
    status.None? || status.value == DISPUTED_STATUS
  }

  function RoundGates(round: RoundState, now: nat, appealWindow: nat): Gates {
    var live := DisputeLive(round.milestoneStatus);
    var appealEndsAt := if round.resolved then Some(round.revealDeadline + appealWindow) else None;
    Gates(
      live,
      !round.resolved && CommitWindowOpen(now, round.commitDeadline),
      !round.resolved && RevealWindowOpen(now, round.commitDeadline, round.revealDeadline),
      live && TallyOpen(round, now),
      CanFinalize(round.resolved, appealEndsAt, live, now),
      appealEndsAt,
      live && appealEndsAt.Some? && now <= appealEndsAt.value)
  }

  // ---- The per-arbiter hint ----

  datatype Phase = CommitPhase | RevealPhase | ResolvedPhase

  datatype Hint = DoCommit | DoReveal | Wait | Nothing

  function DerivePhase(resolved: bool, now: nat, commitDeadline: nat): Phase {
    if resolved then ResolvedPhase else if now < commitDeadline then CommitPhase else RevealPhase
  }

  function ArbiterNeedsAction(phase: Phase, selected: bool, hasCommitted: bool, hasRevealed: bool): Hint {
    if !selected then Nothing
    else if hasRevealed then Wait
    else if phase == CommitPhase then (if hasCommitted then Wait else DoCommit)
    else if phase == RevealPhase then (if !hasCommitted then Nothing else DoReveal)
    else Wait
  }

  /**
   * The hint and the gates drift apart in exactly two places: at the commit
   * deadline itself, which the phase already calls reveal, and after the reveal
   * deadline, where the hint still asks for a reveal. Nothing is asked of those
   * who are not seated or missed the commit; all others wait.
   */
  lemma HintExact(round: RoundState, now: nat, appealWindow: nat, hasCommitted: bool, hasRevealed: bool)
    requires round.commitDeadline <= round.revealDeadline
    ensures var g := RoundGates(round, now, appealWindow);
      var hint := ArbiterNeedsAction(DerivePhase(round.resolved, now, round.commitDeadline), true, hasCommitted, hasRevealed);
      && (hint == DoCommit <==> g.canCommit && !hasCommitted && !hasRevealed && now != round.commitDeadline)
      && ((hint == DoReveal && !g.canReveal) <==>
          (!round.resolved && hasCommitted && !hasRevealed && (now == round.commitDeadline || now > round.revealDeadline)))
      && (g.canReveal && hasCommitted && !hasRevealed ==> hint == DoReveal)
      && (hint == Nothing <==> !round.resolved && now >= round.commitDeadline && !hasCommitted && !hasRevealed)
      && (hasRevealed || round.resolved || (now < round.commitDeadline && hasCommitted) ==> hint == Wait)
      && ArbiterNeedsAction(DerivePhase(round.resolved, now, round.commitDeadline), false, hasCommitted, hasRevealed) == Nothing
  {
  }
}
