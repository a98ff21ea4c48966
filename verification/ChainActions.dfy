/**
 * The one in-flight wallet write (apps/web/lib/chain-actions.ts). Every panel
 * calls `run` on one shared store; between two awaits a call runs alone.
 */
module ChainActions {
  import opened Basics

  datatype Phase = Idle | Signing | Mining | Indexing | Done

  predicate IsBusy(p: Phase) {
    p != Idle && p != Done
  }

  /** The relay may sponsor a call only if it moves no value in either direction. */
  predicate CanRelayGasless(value: Option<nat>, userPaid: bool) {
    !userPaid && (value == None || value == Some(0))
  }

  const POLL_SLEEP: nat := 1100
  const POLL_LIMIT: nat := 45_000

  /** Where a call is waiting. */
  datatype Wait =
    | ForRelay(expects: bool)
    | ForWallet(expects: bool)
    | ForReceipt(expects: bool)
    | ForSettle
    | ForPollSleep(started: nat, passes: nat, wakeAt: nat)
    | ForView(started: nat, passes: nat)

  datatype Receipt = Success | Reverted | Pending

  /** The store, the calls in flight, and the passes of each finished indexing loop. */
  datatype World = World(phase: Phase, txHash: Option<nat>, calls: map<nat, Wait>, now: nat, loops: seq<nat>)

  datatype Step =
    | Elapse(ms: nat)
    | Start(call: nat, hasAddress: bool, value: Option<nat>, userPaid: bool, sponsored: bool, expects: bool)
    | RelayFailed(call: nat)
    | Sent(call: nat, hash: nat)
    | Mined(call: nat, receipt: Receipt)
    | Settled(call: nat)
    | Slept(call: nat)
    | Viewed(call: nat, satisfied: bool)
    | Throws(call: nat)
    | Reset

  function Finish(w: World, call: nat, phase: Phase): World {
    w.(phase := phase, calls := w.calls - {call})
  }

  /** One step; a step that is not possible where the call waits changes nothing. */
  function Next(w: World, s: Step): World {
    match s
    case Elapse(ms) => w.(now := w.now + ms)
    case Start(call, hasAddress, value, userPaid, sponsored, expects) =>
      if call in w.calls || !hasAddress || IsBusy(w.phase) then w
      else w.(phase := Signing,
              calls := w.calls[call := if CanRelayGasless(value, userPaid) && sponsored then ForRelay(expects) else ForWallet(expects)])
    case RelayFailed(call) =>
      if call in w.calls && w.calls[call].ForRelay? then w.(calls := w.calls[call := ForWallet(w.calls[call].expects)]) else w
    case Sent(call, hash) =>
      if call in w.calls && (w.calls[call].ForRelay? || w.calls[call].ForWallet?)
      then w.(txHash := Some(hash), phase := Mining, calls := w.calls[call := ForReceipt(w.calls[call].expects)])
      else w
    case Mined(call, receipt) =>
      if call !in w.calls || !w.calls[call].ForReceipt? then w
      else if receipt == Reverted then Finish(w, call, Idle)
      else if receipt == Pending then Finish(w, call, Done)
      else if w.calls[call].expects
      then w.(phase := Indexing, calls := w.calls[call := ForPollSleep(w.now, 0, w.now + POLL_SLEEP)])
      else w.(calls := w.calls[call := ForSettle])
    case Settled(call) =>
      if call in w.calls && w.calls[call].ForSettle? then Finish(w, call, Done) else w
    case Slept(call) =>
      if call in w.calls && w.calls[call].ForPollSleep? && w.now >= w.calls[call].wakeAt
      then w.(calls := w.calls[call := ForView(w.calls[call].started, w.calls[call].passes)])
      else w
    case Viewed(call, satisfied) =>
      if call !in w.calls || !w.calls[call].ForView? then w
      else
        var passes := w.calls[call].passes + 1;
        if satisfied || w.now - w.calls[call].started > POLL_LIMIT
        then Finish(w, call, Done).(loops := w.loops + [passes])
        else w.(calls := w.calls[call := ForPollSleep(w.calls[call].started, passes, w.now + POLL_SLEEP)])
    case Throws(call) =>
      if call in w.calls && !w.calls[call].ForRelay? then Finish(w, call, Idle) else w
    case Reset => w.(phase := Idle, txHash := None)
  }

  // ---- Mutual exclusion ----

  function PhaseOf(wait: Wait): Phase {
    match wait
    case ForRelay(_) => Signing
    case ForWallet(_) => Signing
    case ForReceipt(_) => Mining
    case ForSettle => Mining
    case ForPollSleep(_, _, _) => Indexing
    case ForView(_, _) => Indexing
  }

  /** At most one call is in flight, and the shared phase is the one it is in. */
  ghost predicate Exclusive(w: World) {
    && (forall c, d :: c in w.calls && d in w.calls ==> c == d)
    && (forall c :: c in w.calls ==> w.phase == PhaseOf(w.calls[c]))
    && (w.calls == map[] ==> !IsBusy(w.phase))
  }

  /** Each pass has slept its full time, so the loop has made at most 40 passes while it is still going. */
  predicate Paced(now: nat, wait: Wait) {
    match wait
    case ForPollSleep(started, passes, wakeAt) => passes <= 40 && started + POLL_SLEEP * (passes + 1) <= wakeAt
    case ForView(started, passes) => passes <= 40 && started + POLL_SLEEP * (passes + 1) <= now
    case _ => true
  }

  ghost predicate PollsOk(w: World) {
    && (forall c :: c in w.calls ==> Paced(w.now, w.calls[c]))
    && (forall i :: 0 <= i < |w.loops| ==> 1 <= w.loops[i] <= 41)
  }

  /** A step keeps exclusion unless it is a reset while a call is in flight; that one always breaks it. */
  lemma StepKeepsExclusive(w: World, s: Step)
    requires Exclusive(w)
    ensures Exclusive(Next(w, s)) <==> !(s.Reset? && IsBusy(w.phase))
  {
    if s.Reset? && IsBusy(w.phase) {
      assert w.calls != map[];
      var c :| c in w.calls;
      assert PhaseOf(w.calls[c]) != Idle;
    }
  }

  lemma StepKeepsPolls(w: World, s: Step)
    requires PollsOk(w)
    ensures PollsOk(Next(w, s))
  {
  }

  /** The shared phase is busy exactly when a call is in flight. */
  lemma BusyExactly(w: World)
    requires Exclusive(w)
    ensures IsBusy(w.phase) <==> w.calls != map[]
    ensures |w.calls| <= 1
  {
    if w.calls != map[] {
      var c :| c in w.calls;
      assert w.calls.Keys == {c};
      assert |w.calls| == |w.calls.Keys|;
    }
  }

  function Run(w: World, steps: seq<Step>): World
    decreases |steps|
  {
    if steps == [] then w else Run(Next(w, steps[0]), steps[1..])
  }

  /** No step of the run is a reset while a call is in flight. */
  predicate ResetsWhenFree(w: World, steps: seq<Step>)
    decreases |steps|
  {
    steps == [] || (!(steps[0].Reset? && IsBusy(w.phase)) && ResetsWhenFree(Next(w, steps[0]), steps[1..]))
  }

  /** For any number of panels and any interleaving: exclusion holds to the end, and every indexing loop took at most 41 passes. */
  lemma {:induction false} RunsStayExclusive(w: World, steps: seq<Step>)
    requires Exclusive(w) && PollsOk(w) && ResetsWhenFree(w, steps)
    ensures Exclusive(Run(w, steps)) && PollsOk(Run(w, steps)) && |Run(w, steps).calls| <= 1
    decreases |steps|
  {
    if steps == [] {
      BusyExactly(w);
    } else {
      StepKeepsExclusive(w, steps[0]);
      StepKeepsPolls(w, steps[0]);
      RunsStayExclusive(Next(w, steps[0]), steps[1..]);
    }
  }

  /** A start while a call is in flight is refused and changes nothing at all. */
  lemma RefusedStart(w: World, s: Step)
    requires Exclusive(w) && s.Start? && w.calls != map[]
    ensures Next(w, s) == w
  {
    BusyExactly(w);
  }

  /** Value never leaves through the relay: a call waiting for it carries none and is not user-paid. */
  lemma RelayMovesNoValue(w: World, s: Step)
    requires s.Start? && s.call !in w.calls && s.call in Next(w, s).calls && Next(w, s).calls[s.call].ForRelay?
    ensures !s.userPaid && (s.value.None? || s.value.value == 0)
  {
  }

  /** What a call can wait for next, and what it takes to get there. */
  lemma WaitMoves(w: World, s: Step, call: nat)
    requires call in w.calls && call in Next(w, s).calls && Next(w, s).calls[call] != w.calls[call]
    ensures var b := Next(w, s).calls[call];
      match w.calls[call]
      case ForRelay(expects) => (s == RelayFailed(call) && b == ForWallet(expects)) || (s.Sent? && s.call == call && b == ForReceipt(expects))
      case ForWallet(expects) => s.Sent? && s.call == call && b == ForReceipt(expects)
      case ForReceipt(expects) => s == Mined(call, Success) && b == if expects then ForPollSleep(w.now, 0, w.now + 1100) else ForSettle
      case ForSettle => false
      case ForPollSleep(started, passes, wakeAt) => s == Slept(call) && w.now >= wakeAt && b == ForView(started, passes)
      case ForView(started, passes) =>
        s == Viewed(call, false) && w.now - started <= 45_000 && b == ForPollSleep(started, passes + 1, w.now + 1100)
  {
  }

  /** How a call ends: done after it settled or timed out, idle after it failed; the hash stays for the panels to show. */
  lemma CallEnds(w: World, s: Step, call: nat)
    requires call in w.calls && call !in Next(w, s).calls
    ensures var n := Next(w, s);
      && n.calls == w.calls - {call} && n.txHash == w.txHash
      && match s
         case Mined(_, receipt) => w.calls[call].ForReceipt? && receipt != Success && n.phase == (if receipt == Pending then Done else Idle)
         case Settled(_) => w.calls[call].ForSettle? && n.phase == Done
         case Viewed(_, satisfied) =>
           && w.calls[call].ForView? && n.phase == Done && (satisfied || w.now - w.calls[call].started > 45_000)
           && n.loops == w.loops + [w.calls[call].passes + 1]
         case Throws(_) => !w.calls[call].ForRelay? && n.phase == Idle
         case _ => false
  {
  }

  /** A call starts exactly on a free store with an address; it waits for the relay exactly when it is sponsored and moves no value. */
  lemma CallStarts(w: World, s: Step, call: nat)
    requires call !in w.calls
    ensures call in Next(w, s).calls <==> s.Start? && s.call == call && s.hasAddress && w.phase in {Idle, Done}
    ensures call in Next(w, s).calls ==> Next(w, s).phase == Signing && Next(w, s).txHash == w.txHash
    ensures call in Next(w, s).calls && s.sponsored && !s.userPaid && (s.value == None || s.value == Some(0)) ==>
      Next(w, s).calls[call] == ForRelay(s.expects)
    ensures call in Next(w, s).calls && !(s.sponsored && !s.userPaid && (s.value == None || s.value == Some(0))) ==>
      Next(w, s).calls[call] == ForWallet(s.expects)
  {
  }

  /** A relay that fails leaves the call to the wallet, and a failure anywhere else frees the store. */
  lemma FailureFrees(w: World, call: nat)
    requires Exclusive(w) && call in w.calls
    ensures var v := if w.calls[call].ForRelay? then Next(w, RelayFailed(call)) else w;
      && call in v.calls && v.phase == w.phase && v.txHash == w.txHash
      && (w.calls[call].ForRelay? ==> v.calls[call] == ForWallet(w.calls[call].expects))
      && Next(v, Throws(call)).calls == map[] && Next(v, Throws(call)).phase == Idle
  {
  }

  lemma RunStep(w: World, s: Step, rest: seq<Step>)
    ensures Run(w, [s] + rest) == Run(Next(w, s), rest)
  {
    assert ([s] + rest)[1..] == rest;
  }

  /** The undisturbed call: signed, mined, and shown by the indexer on the first look, or settled after a while without one. */
  lemma UndisturbedCall(w: World, call: nat, hash: nat, expects: bool)
    requires call !in w.calls && w.phase in {Idle, Done}
    ensures var sent := [Start(call, true, None, true, false, expects), Sent(call, hash), Mined(call, Success)];
      var n := Run(w, sent + if expects then [Elapse(1100), Slept(call), Viewed(call, true)] else [Settled(call)]);
      && n.phase == Done && n.txHash == Some(hash) && n.calls == w.calls
      && n.loops == w.loops + (if expects then [1] else [])
  {
    var a, b, c := Start(call, true, None, true, false, expects), Sent(call, hash), Mined(call, Success);
    var rest := if expects then [Elapse(1100), Slept(call), Viewed(call, true)] else [Settled(call)];
    assert [a, b, c] + rest == [a] + ([b] + ([c] + rest));
    RunStep(w, a, [b] + ([c] + rest));
    var w1 := Next(w, a);
    RunStep(w1, b, [c] + rest);
    var w2 := Next(w1, b);
    RunStep(w2, c, rest);
    UndisturbedEnd(Next(w2, c), call, hash, expects);
  }

  lemma UndisturbedEnd(w: World, call: nat, hash: nat, expects: bool)
    requires call in w.calls && w.txHash == Some(hash)
    requires w.calls[call] == if expects then ForPollSleep(w.now, 0, w.now + 1100) else ForSettle
    ensures var n := Run(w, if expects then [Elapse(1100), Slept(call), Viewed(call, true)] else [Settled(call)]);
      n.phase == Done && n.txHash == Some(hash) && n.calls == w.calls - {call} && n.loops == w.loops + (if expects then [1] else [])
  {
    if expects {
      SeenAtOnce(w, call, w.now);
    } else {
      RunStep(w, Settled(call), []);
      assert [Settled(call)] == [Settled(call)] + [];
    }
  }

  lemma SeenAtOnce(w: World, call: nat, started: nat)
    requires call in w.calls && w.now == started && w.calls[call] == ForPollSleep(started, 0, started + 1100)
    ensures var n := Run(w, [Elapse(1100), Slept(call), Viewed(call, true)]);
      n.phase == Done && n.txHash == w.txHash && n.calls == w.calls - {call} && n.loops == w.loops + [1]
  {
    var d, e, f := Elapse(1100), Slept(call), Viewed(call, true);
    var w1 := Next(w, d);
    var w2 := Next(w1, e);
    assert w2.calls == w.calls[call := ForView(started, 0)];
    assert w.calls[call := ForView(started, 0)] - {call} == w.calls - {call};
    assert [d, e, f] == [d] + ([e] + ([f] + []));
    RunStep(w, d, [e] + ([f] + []));
    RunStep(w1, e, [f] + []);
    RunStep(w2, f, []);
  }

  function Fresh(): World {
    World(Idle, None, map[], 0, [])
  }

  /** A reset between two clicks lets a second signature out while the first is still pending. */
  lemma ResetInFlightDoubles(hash: nat)
    ensures var w := Run(Fresh(), [Start(0, true, None, true, false, false), Reset, Start(1, true, None, true, false, false)]);
      0 in w.calls && 1 in w.calls
  {
    var a, b, c := Start(0, true, None, true, false, false), Reset, Start(1, true, None, true, false, false);
    var w1 := Next(Fresh(), a);
    var w2 := Next(w1, b);
    assert [a, b, c][1..] == [b, c] && [b, c][1..] == [c] && [c][1..] == [];
    assert Run(Fresh(), [a, b, c]) == Run(w1, [b, c]) == Run(w2, [c]) == Run(Next(w2, c), []);
  }

  // ---- The store itself ----

  /** The shared store with the segments of `run` between its awaits. */
  class ChainTx {
    var phase: Phase
    var txHash: Option<nat>
    ghost var calls: map<nat, Wait>

    constructor ()
      ensures phase == Idle && txHash == None && calls == map[]
    {
      phase, txHash, calls := Idle, None, map[];
    }

    ghost function Snapshot(now: nat, loops: seq<nat>): World
      reads this
    {
      World(phase, txHash, calls, now, loops)
    }

    /** The start of `run`, up to its first await. */
    method Begin(call: nat, hasAddress: bool, value: Option<nat>, userPaid: bool, sponsored: bool, expects: bool, ghost now: nat)
      returns (started: bool)
      requires call !in calls
      modifies this
      ensures Snapshot(now, []) == Next(old(Snapshot(now, [])), Start(call, hasAddress, value, userPaid, sponsored, expects))
      ensures started <==> hasAddress && !IsBusy(old(phase))
    {
      if !hasAddress { return false; }
      if IsBusy(phase) { return false; }
      phase := Signing;
      calls := calls[call := if CanRelayGasless(value, userPaid) && sponsored then ForRelay(expects) else ForWallet(expects)];
      return true;
    }

    method OnHash(call: nat, hash: nat, ghost now: nat)
      requires call in calls && (calls[call].ForRelay? || calls[call].ForWallet?)
      modifies this
      ensures Snapshot(now, []) == Next(old(Snapshot(now, [])), Sent(call, hash))
    {
      txHash := Some(hash);
      phase := Mining;
      calls := calls[call := ForReceipt(calls[call].expects)];
    }

    method OnReceipt(call: nat, receipt: Receipt, expects: bool, now: nat)
      requires call in calls && calls[call] == ForReceipt(expects)
      modifies this
      ensures Snapshot(now, []) == Next(old(Snapshot(now, [])), Mined(call, receipt))
    {
      if receipt == Reverted {
        phase := Idle;
        calls := calls - {call};
        return;
      }
      if receipt == Pending {
        phase := Done;
        calls := calls - {call};
        return;
      }
      if expects {
        phase := Indexing;
        calls := calls[call := ForPollSleep(now, 0, now + POLL_SLEEP)];
      } else {
        calls := calls[call := ForSettle];
      }
    }

    /** The polling loop, with `views` the outcomes and `waits` the lengths of its passes. */
    method Poll(call: nat, views: seq<bool>, waits: seq<nat>, now: nat) returns (passes: nat)
      requires call in calls && calls[call] == ForPollSleep(now, 0, now + POLL_SLEEP)
      requires |views| == |waits| >= 41 && forall i :: 0 <= i < |waits| ==> waits[i] >= POLL_SLEEP
      modifies this
      ensures phase == Done && calls == old(calls) - {call} && txHash == old(txHash)
      ensures 1 <= passes <= 41
      ensures views[passes - 1] || Elapsed(waits[..passes]) > POLL_LIMIT
      ensures forall i :: 0 <= i < passes - 1 ==> GoesOn(views, waits, i)
    {
      var spent := 0;
      passes := 0;
      while true
        invariant passes <= 40 && spent == Elapsed(waits[..passes]) && spent >= POLL_SLEEP * passes
        invariant spent <= POLL_LIMIT && phase == old(phase) && calls == old(calls) && txHash == old(txHash)
        invariant forall i :: 0 <= i < passes ==> GoesOn(views, waits, i)
        decreases 41 - passes
      {
        assert waits[..passes + 1] == waits[..passes] + [waits[passes]];
        ElapsedSnoc(waits[..passes], waits[passes]);
        spent := spent + waits[passes];
        passes := passes + 1;
        if views[passes - 1] { break; }
        if spent > POLL_LIMIT { break; }
        assert GoesOn(views, waits, passes - 1);
      }
      phase := Done;
      calls := calls - {call};
    }

    /** Unguarded: callers keep it away from a busy store by disabling their buttons. */
    method ResetStore(ghost now: nat)
      modifies this
      ensures Snapshot(now, []) == Next(old(Snapshot(now, [])), Reset)
    {
      phase, txHash := Idle, None;
    }
  }

  /** A pass that neither saw what it waited for nor ran out of time. */
  predicate GoesOn(views: seq<bool>, waits: seq<nat>, i: nat)
    requires i < |views| && i < |waits|
  {
    !views[i] && Elapsed(waits[..i + 1]) <= POLL_LIMIT
  }

  function Elapsed(waits: seq<nat>): nat {
    if waits == [] then 0 else Elapsed(waits[..|waits| - 1]) + waits[|waits| - 1]
  }

  lemma ElapsedSnoc(waits: seq<nat>, t: nat)
    ensures Elapsed(waits + [t]) == Elapsed(waits) + t
  {
    assert (waits + [t])[..|waits|] == waits;
  }
}
