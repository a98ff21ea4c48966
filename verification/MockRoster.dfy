/** The mock registry: badges, scores, locks and the panels drawn from it. */
module MockRoster {
  import opened Basics
  import opened Indexer
  import opened MockChain
  import opened MockRuns
  import opened MockRefinement

  /** One entry per wallet, one badge per entry, and a registered arbiter is locked exactly below the score floor. */
  predicate RosterOk(roster: seq<Seat>, minScore: nat) {
    && (forall i, j :: 0 <= i < j < |roster| ==> roster[i].wallet != roster[j].wallet && roster[i].arbiter.badge != roster[j].arbiter.badge)
    && (forall i :: 0 <= i < |roster| ==> roster[i].arbiter.badge > 0)
    && (forall i :: 0 <= i < |roster| && roster[i].arbiter.registered ==> (roster[i].arbiter.locked <==> roster[i].arbiter.score < minScore))
  }

  lemma {:induction false} MaxBadgeBounds(roster: seq<Seat>)
    ensures forall i :: 0 <= i < |roster| ==> roster[i].arbiter.badge <= MaxBadge(roster)
  {
    if roster != [] { MaxBadgeBounds(roster[..|roster| - 1]); }
  }

  lemma SeatedOk(roster: seq<Seat>, w: Wallet, a: Arbiter, minScore: nat)
    requires RosterOk(roster, minScore) && a.badge > 0
    requires a.registered ==> (a.locked <==> a.score < minScore)
    requires a.badge == match SeatOf(roster, w) case None => MaxBadge(roster) + 1 case Some(i) => roster[i].arbiter.badge
    ensures RosterOk(Seated(roster, w, a), minScore)
  {
    MaxBadgeBounds(roster);
    var after := Seated(roster, w, a);
    forall i, j | 0 <= i < j < |after|
      ensures after[i].wallet != after[j].wallet && after[i].arbiter.badge != after[j].arbiter.badge
    {
    }
  }

  /** Every action keeps the roster in order. */
  lemma RosterStaysOk(c: Chain, act: Act, env: Env, now: nat)
    requires EnvOk(env) && Allowed(c, act, env) && RosterOk(c.roster, env.minScore) && c.nextBadge == MaxBadge(c.roster) + 1
    ensures RosterOk(NewRoster(c, act, env, now), env.minScore)
  {
    match act
    case Resolve(_, who, _, withinSla) =>
      var a := c.roster[SeatOf(c.roster, who).value].arbiter;
      var score := NewScore(a.score, withinSla);
      SeatedOk(c.roster, who, a.(score := score, locked := score < env.minScore), env.minScore);
    case Register(who, stake) =>
      var deposit := if stake.Some? then stake.value else env.minStake;
      SeatedOk(c.roster, who, Arbiter(true, BadgeFor(c, who), 100, deposit, false, false, now / 1000), env.minScore);
    case Deregister(who) =>
      var a := c.roster[SeatOf(c.roster, who).value].arbiter;
      SeatedOk(c.roster, who, a.(registered := false, stake := 0, unstaking := false, locked := false), env.minScore);
    case _ =>
  }

  /** Every entry of `a` is in `b`, in its place and with its badge. */
  predicate SameEntries(a: seq<Seat>, b: seq<Seat>) {
    |a| <= |b| && forall i :: 0 <= i < |a| ==> b[i].wallet == a[i].wallet && b[i].arbiter.badge == a[i].arbiter.badge
  }

  lemma EntriesStay(c: Chain, act: Act, env: Env, now: nat)
    requires EnvOk(env) && Allowed(c, act, env) && RosterOk(c.roster, env.minScore)
    ensures SameEntries(c.roster, NewRoster(c, act, env, now))
  {
  }

  lemma {:induction false} EmitAllRoster(s: Store, events: seq<Event>, base: nat, i: nat, lost: set<nat>, now: nat, w: Windows)
    ensures EmitAll(s, events, base, i, lost, now, w).roster == s.roster
    decreases |events|
  {
    if events != [] { EmitAllRoster(Emit(s, events[0], base, i !in lost, now, w), events[1..], base + 1, i + 1, lost, now, w); }
  }

  lemma PerformRoster(s: Store, act: Act, env: Env, now: nat, lost: set<nat>)
    requires EnvOk(env)
    ensures Perform(s, act, env, now, lost).roster
      == if Allowed(Hydrate(s), act, env) then NewRoster(Hydrate(s), act, env, now) else s.roster
  {
  }

  /** Over every run badges stay unique, a wallet's badge never changes, and locks follow scores. */
  lemma {:induction false} RunKeepsRoster(s: Store, steps: seq<Step>, env: Env)
    requires EnvOk(env) && RosterOk(s.roster, env.minScore)
    ensures RosterOk(Run(s, steps, env).roster, env.minScore)
    ensures SameEntries(s.roster, Run(s, steps, env).roster)
  {
    if steps != [] {
      var t, step := Run(s, steps[..|steps| - 1], env), steps[|steps| - 1];
      RunKeepsRoster(s, steps[..|steps| - 1], env);
      if step.TakeAction? {
        PerformRoster(t, step.act, env, step.now, step.lost);
        if Allowed(Hydrate(t), step.act, env) {
          RosterStaysOk(Hydrate(t), step.act, env, step.now);
          EntriesStay(Hydrate(t), step.act, env, step.now);
        }
      }
    }
  }

  // ---- Panels ----

  lemma {:induction false} PoolSpec(roster: seq<Seat>, m: MockMilestone, env: Env, now: nat, w: Wallet)
    ensures w in Pool(roster, m, env, now) <==> exists i :: 0 <= i < |roster| && roster[i].wallet == w && Eligible(roster[i], m, env, now)
  {
    if roster != [] {
      var n := |roster| - 1;
      PoolSpec(roster[..n], m, env, now, w);
      if w in Pool(roster[..n], m, env, now) {
        var i :| 0 <= i < n && roster[..n][i].wallet == w && Eligible(roster[..n][i], m, env, now);
        assert roster[i].wallet == w;
      }
      if i :| 0 <= i < |roster| && roster[i].wallet == w && Eligible(roster[i], m, env, now) {
        if i < n { assert roster[..n][i] == roster[i]; }
      }
    }
  }

  lemma {:induction false} PoolDistinct(roster: seq<Seat>, m: MockMilestone, env: Env, now: nat)
    requires forall i, j :: 0 <= i < j < |roster| ==> roster[i].wallet != roster[j].wallet
    ensures Distinct(Pool(roster, m, env, now))
  {
    if roster != [] {
      var n := |roster| - 1;
      PoolDistinct(roster[..n], m, env, now);
      PoolSpec(roster[..n], m, env, now, roster[n].wallet);
      if Eligible(roster[n], m, env, now) {
        DistinctSnoc(Pool(roster[..n], m, env, now), roster[n].wallet);
      } else {
        assert Pool(roster, m, env, now) == Pool(roster[..n], m, env, now);
      }
    }
  }

  /** A panel is as many distinct, eligible wallets that are no party as there are, up to three, padded with zeros. */
  lemma PanelIsFair(roster: seq<Seat>, m: MockMilestone, env: Env, now: nat)
    requires RosterOk(roster, env.minScore)
    ensures var pool := Pool(roster, m, env, now);
      var panel := Take(pool, 3);
      && |panel| == (if |pool| < 3 then |pool| else 3) && Distinct(panel)
      && (forall w :: w in panel ==> w != m.client && w != m.freelancer)
      && (forall w :: w in panel ==> exists i :: 0 <= i < |roster| && roster[i].wallet == w && Eligible(roster[i], m, env, now))
  {
    var pool := Pool(roster, m, env, now);
    var panel := Take(pool, 3);
    PoolDistinct(roster, m, env, now);
    DistinctTake(pool, 3);
    forall w | w in panel
      ensures exists i :: 0 <= i < |roster| && roster[i].wallet == w && Eligible(roster[i], m, env, now)
    {
      assert w in pool;
      PoolSpec(roster, m, env, now, w);
    }
    forall w | w in panel
      ensures w != m.client && w != m.freelancer
    {
      var i :| 0 <= i < |roster| && roster[i].wallet == w && Eligible(roster[i], m, env, now);
    }
  }

  lemma {:induction false} NonZeroLength(ws: seq<Wallet>)
    ensures |NonZero(ws)| <= |ws| && (|NonZero(ws)| == |ws| <==> ZERO_WALLET !in ws)
    ensures ZERO_WALLET !in ws ==> NonZero(ws) == ws
  {
    if ws != [] { NonZeroLength(ws[1..]); }
  }

  lemma {:induction false} NonZeroAppend(a: seq<Wallet>, b: seq<Wallet>)
    ensures NonZero(a + b) == NonZero(a) + NonZero(b)
  {
    if a == [] {
      assert a + b == b;
    } else {
      assert (a + b)[1..] == a[1..] + b;
      NonZeroAppend(a[1..], b);
    }
  }

  lemma {:induction false} ZerosVanish(ws: seq<Wallet>)
    requires forall i :: 0 <= i < |ws| ==> ws[i] == ZERO_WALLET
    ensures NonZero(ws) == []
  {
    if ws != [] { ZerosVanish(ws[1..]); }
  }

  /** The mirror's dispute row lists exactly the panel, unless the zero wallet sits on it. */
  lemma PanelInMirror(panel: seq<Wallet>)
    requires |panel| <= 3
    ensures Take(NonZero(Padded(panel)), |panel|) == panel <==> 0 !in panel
  {
    var pad := Padded(panel)[|panel|..];
    assert Padded(panel) == panel + pad;
    NonZeroAppend(panel, pad);
    ZerosVanish(pad);
    NonZeroLength(panel);
    assert NonZero(panel) + [] == NonZero(panel);
  }
}
