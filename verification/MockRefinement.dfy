/**
 * The mock chain, derived again for every action, behaves like an escrow that
 * simply keeps its fields and updates them in place.
 */
module MockRefinement {
  import opened Basics
  import opened Milestones
  import opened Indexer
  import opened MockChain
  import Fees
  import Generation

  // ---- The view of the linked milestones ----

  /** The view holds exactly the linked rows. */
  lemma {:induction false} ViewLookup(rows: seq<MilestoneRow>, projects: seq<ProjectRow>, users: seq<UserRow>, id: nat)
    ensures var i := Find(rows, HasOnchainId(id));
      && (id in View(rows, projects, users) <==> i.Some?)
      && (i.Some? ==> i.value < |rows| && View(rows, projects, users)[id] == Join(projects, users, rows[i.value]))
  {
    if rows != [] { ViewLookup(rows[..|rows| - 1], projects, users, id); }
  }

  lemma {:induction false} FindSame<T>(a: seq<T>, b: seq<T>, p: T -> bool)
    requires |a| == |b| && forall i :: 0 <= i < |a| ==> p(a[i]) == p(b[i])
    ensures Find(a, p) == Find(b, p)
  {
    if a != [] { FindSame(a[..|a| - 1], b[..|b| - 1], p); }
  }

  /** Rows that agree on their keys. */
  predicate SameProjects(a: seq<ProjectRow>, b: seq<ProjectRow>) {
    |a| == |b| && forall i :: 0 <= i < |a| ==> a[i].id == b[i].id && a[i].clientId == b[i].clientId && a[i].freelancerId == b[i].freelancerId
  }

  predicate SameUsers(a: seq<UserRow>, b: seq<UserRow>) {
    |a| == |b| && forall i :: 0 <= i < |a| ==> a[i].id == b[i].id && a[i].wallet == b[i].wallet
  }

  lemma JoinSame(ps: seq<ProjectRow>, us: seq<UserRow>, qs: seq<ProjectRow>, vs: seq<UserRow>, r: MilestoneRow)
    requires SameProjects(ps, qs) && SameUsers(us, vs)
    ensures Join(ps, us, r) == Join(qs, vs, r)
  {
    FindSame(ps, qs, ProjectWithId(r.projectId));
    var p := FindAt(ps, ProjectWithId(r.projectId));
    if p.Some? {
      FindSame(us, vs, UserWithId(ps[p.value].clientId));
      FindSame(us, vs, UserWithId(ps[p.value].freelancerId));
    }
  }

  /** Changing a linked row's status changes its entry and nothing else. */
  lemma ViewStatus(rows: seq<MilestoneRow>, ps: seq<ProjectRow>, us: seq<UserRow>, qs: seq<ProjectRow>, vs: seq<UserRow>,
                   i: nat, r: MilestoneRow, id: nat)
    requires SameProjects(ps, qs) && SameUsers(us, vs)
    requires Find(rows, HasOnchainId(id)) == Some(i) && i < |rows|
    requires r.onchainId == rows[i].onchainId && r.id == rows[i].id && r.projectId == rows[i].projectId && r.amount == rows[i].amount
    ensures id in View(rows, ps, us)
    ensures View(rows[i := r], qs, vs) == View(rows, ps, us)[id := View(rows, ps, us)[id].(status := r.status)]
  {
    FindSpec(rows, HasOnchainId(id));
    ViewLookup(rows, ps, us, id);
    var v := View(rows, ps, us);
    var n, u := View(rows[i := r], qs, vs), v[id := v[id].(status := r.status)];
    forall k: nat
      ensures k in n <==> k in u
      ensures k in u ==> n[k] == u[k]
    {
      ViewLookup(rows, ps, us, k);
      ViewLookup(rows[i := r], qs, vs, k);
      FindSame(rows, rows[i := r], HasOnchainId(k));
      FindSpec(rows, HasOnchainId(k));
      if k in v {
        var j := Find(rows, HasOnchainId(k)).value;
        JoinSame(ps, us, qs, vs, rows[i := r][j]);
      }
    }
    assert n == u;
  }

  /** An unlinked row that claims a new id adds one entry. */
  lemma ViewLink(rows: seq<MilestoneRow>, ps: seq<ProjectRow>, us: seq<UserRow>, i: nat, r: MilestoneRow, id: nat)
    requires i < |rows| && rows[i].onchainId.None? && r.onchainId == Some(id) && Find(rows, HasOnchainId(id)).None?
    ensures View(rows[i := r], ps, us) == View(rows, ps, us)[id := Join(ps, us, r)]
  {
    var v := View(rows, ps, us);
    var n, u := View(rows[i := r], ps, us), v[id := Join(ps, us, r)];
    FindSpec(rows, HasOnchainId(id));
    forall k: nat
      ensures k in n <==> k in u
      ensures k in u ==> n[k] == u[k]
    {
      ViewLookup(rows, ps, us, k);
      ViewLookup(rows[i := r], ps, us, k);
      FindSpec(rows, HasOnchainId(k));
      FindSpec(rows[i := r], HasOnchainId(k));
      if k == id {
        assert HasOnchainId(k)(rows[i := r][i]);
        assert Find(rows[i := r], HasOnchainId(k)) == Some(i);
      } else {
        FindSame(rows, rows[i := r], HasOnchainId(k));
      }
    }
    assert n == u;
  }

  lemma {:induction false} MaxIdSpec(rows: seq<MilestoneRow>)
    ensures forall i :: 0 <= i < |rows| && rows[i].onchainId.Some? ==> rows[i].onchainId.value <= MaxId(rows)
    ensures MaxId(rows) == 0 || exists i :: 0 <= i < |rows| && rows[i].onchainId == Some(MaxId(rows))
  {
    if rows != [] { MaxIdSpec(rows[..|rows| - 1]); }
  }

  lemma MaxIdLink(rows: seq<MilestoneRow>, i: nat, r: MilestoneRow)
    requires i < |rows| && r.onchainId == Some(MaxId(rows) + 1)
    ensures MaxId(rows[i := r]) == MaxId(rows) + 1
  {
    MaxIdSpec(rows);
    MaxIdSpec(rows[i := r]);
    assert rows[i := r][i] == r;
  }

  lemma MaxIdSame(a: seq<MilestoneRow>, b: seq<MilestoneRow>)
    requires |a| == |b| && forall i :: 0 <= i < |a| ==> a[i].onchainId == b[i].onchainId
    ensures MaxId(a) == MaxId(b)
  {
    MaxIdSpec(a);
    MaxIdSpec(b);
  }

  lemma NextIdIsFree(rows: seq<MilestoneRow>)
    ensures Find(rows, HasOnchainId(MaxId(rows) + 1)).None?
  {
    MaxIdSpec(rows);
    FindSpec(rows, HasOnchainId(MaxId(rows) + 1));
  }

  // ---- What one event does to the view ----

  /** A milestone of the simple escrow takes the status an event moves it to. */
  function Moved(v: map<nat, MockMilestone>, id: nat, kind: Kind): map<nat, MockMilestone> {
    if id in v && NextStatus(v[id].status, kind).Some? then v[id := v[id].(status := NextStatus(v[id].status, kind).value)] else v
  }

  /** The milestone a funding creates: its row waits, and payer, payee and amount are the project's. */
  function Agreement(m: Mirror, e: Event): Option<MockMilestone> {
    match e
    case MilestoneFunded(_, ref, client, freelancer, amount) =>
      if ref.None? || FindAt(m.milestones, HasId(ref.value)).None? then None
      else
        var row := m.milestones[FindAt(m.milestones, HasId(ref.value)).value];
        if row.status == PendingFunding && row.amount == amount
           && ProjectWallets(m.projects, m.users, row.projectId) == Some(Party(client, freelancer))
        then Some(MockMilestone(ref.value, client, freelancer, amount, Funded))
        else None
    case _ => None
  }

  function Shown(v: map<nat, MockMilestone>, e: Event, link: Option<MockMilestone>): map<nat, MockMilestone> {
    match e
    case MilestoneFunded(id, _, _, _, _) => if link.Some? then v[id := link.value] else v
    case MilestoneSubmitted(id) => Moved(v, id, KSubmitted)
    case MilestoneReleased(id, _, _) => Moved(v, id, KReleased)
    case MilestoneRefunded(id, _) => Moved(v, id, KRefunded)
    case MilestoneSplit(id, _, _, _) => Moved(v, id, KSplit)
    case MilestoneCancelled(id, _) => Moved(v, id, KCancelled)
    case DisputeOpened(id, _) => Moved(v, id, KDisputed)
    case _ => v
  }

  /** Exactly the rows that wait for funding carry no onchain id. */
  predicate LinkOk(rows: seq<MilestoneRow>) {
    rows == [] || (RowLinkOk(rows[|rows| - 1]) && LinkOk(rows[..|rows| - 1]))
  }

  predicate RowLinkOk(r: MilestoneRow) {
    r.onchainId.None? <==> r.status == PendingFunding
  }

  lemma {:induction false} LinkOkAt(rows: seq<MilestoneRow>, i: nat)
    requires LinkOk(rows) && i < |rows|
    ensures RowLinkOk(rows[i])
  {
    if i < |rows| - 1 { LinkOkAt(rows[..|rows| - 1], i); }
  }

  lemma {:induction false} LinkOkEvolves(a: seq<MilestoneRow>, b: seq<MilestoneRow>)
    requires LinkOk(a) && |a| == |b| && forall i :: 0 <= i < |a| ==> RowEvolves(a[i], b[i])
    ensures LinkOk(b)
  {
    if a != [] {
      var n := |a| - 1;
      assert RowEvolves(a[n], b[n]);
      LinkOkEvolves(a[..n], b[..n]);
    }
  }

  /** What a step of the mirror may do to the view and to the ids. */
  predicate Stepped(m: Mirror, n: Mirror, v: map<nat, MockMilestone>) {
    ViewOf(n) == v && MaxId(n.milestones) == MaxId(m.milestones)
  }

  lemma LegalRow(m: Mirror, n: Mirror, id: nat, kind: Kind)
    requires Legal(m, id, kind).Some? ==>
      var t := Legal(m, id, kind).value;
      && |n.milestones| == |m.milestones| && n.milestones == m.milestones[t.0 := n.milestones[t.0]]
      && n.milestones[t.0].onchainId == m.milestones[t.0].onchainId && n.milestones[t.0].id == m.milestones[t.0].id
      && n.milestones[t.0].projectId == m.milestones[t.0].projectId && n.milestones[t.0].amount == m.milestones[t.0].amount
      && n.milestones[t.0].status == t.1
    requires Legal(m, id, kind).None? ==> n.milestones == m.milestones
    requires SameProjects(m.projects, n.projects) && SameUsers(m.users, n.users)
    ensures Stepped(m, n, Moved(ViewOf(m), id, kind))
  {
    ViewLookup(m.milestones, m.projects, m.users, id);
    MaxIdSame(m.milestones, n.milestones);
    if Legal(m, id, kind).Some? {
      var t := Legal(m, id, kind).value;
      ViewStatus(m.milestones, m.projects, m.users, n.projects, n.users, t.0, n.milestones[t.0], id);
    } else {
      ViewSame(m.milestones, m.projects, m.users, n.projects, n.users);
    }
  }

  lemma {:induction false} ViewSame(rows: seq<MilestoneRow>, ps: seq<ProjectRow>, us: seq<UserRow>, qs: seq<ProjectRow>, vs: seq<UserRow>)
    requires SameProjects(ps, qs) && SameUsers(us, vs)
    ensures View(rows, ps, us) == View(rows, qs, vs)
  {
    if rows != [] {
      ViewSame(rows[..|rows| - 1], ps, us, qs, vs);
      JoinSame(ps, us, qs, vs, rows[|rows| - 1]);
    }
  }

  lemma KeysOfStats(m: Mirror, projectId: Id, freelancerAmount: nat, outflow: nat)
    ensures var n := AdjustStats(m, projectId, freelancerAmount, outflow);
      n.projects == m.projects && SameUsers(m.users, n.users) && n.milestones == m.milestones
  {
  }

  lemma KeysOfCompletion(m: Mirror, projectId: Id)
    ensures var n := CompleteIfDone(m, projectId);
      SameProjects(m.projects, n.projects) && SameUsers(m.users, n.users) && n.milestones == m.milestones
  {
  }

  lemma ShowPaid(m: Mirror, l: Log, id: nat, kind: Kind, freelancerAmount: nat, fee: nat)
    ensures Stepped(m, ApplyPaid(m, l, id, kind, freelancerAmount, fee), Moved(ViewOf(m), id, kind))
  {
    var n := ApplyPaid(m, l, id, kind, freelancerAmount, fee);
    var t := Legal(m, id, kind);
    if t.Some? {
      var p := m.milestones[t.value.0].projectId;
      var set1 := SetMilestone(m, t.value.0, Settle(m.milestones[t.value.0], t.value.1, l));
      KeysOfStats(set1, p, freelancerAmount, freelancerAmount + fee);
      KeysOfCompletion(AdjustStats(set1, p, freelancerAmount, freelancerAmount + fee), p);
    }
    LegalRow(m, n, id, kind);
  }

  lemma ShowReturned(m: Mirror, l: Log, id: nat, kind: Kind)
    ensures Stepped(m, ApplyReturned(m, l, id, kind), Moved(ViewOf(m), id, kind))
  {
    var t := Legal(m, id, kind);
    if t.Some? {
      KeysOfCompletion(SetMilestone(m, t.value.0, Settle(m.milestones[t.value.0], t.value.1, l)), m.milestones[t.value.0].projectId);
    }
    LegalRow(m, ApplyReturned(m, l, id, kind), id, kind);
  }

  lemma ShowSubmitted(m: Mirror, l: Log)
    requires l.event.MilestoneSubmitted?
    ensures Stepped(m, ApplySubmitted(m, l), Moved(ViewOf(m), l.event.milestone, KSubmitted))
  {
    LegalRow(m, ApplySubmitted(m, l), l.event.milestone, KSubmitted);
  }

  lemma ShowDisputeOpened(m: Mirror, l: Log)
    requires l.event.DisputeOpened?
    ensures Stepped(m, ApplyDisputeOpened(m, l), Moved(ViewOf(m), l.event.milestone, KDisputed))
  {
    LegalRow(m, ApplyDisputeOpened(m, l), l.event.milestone, KDisputed);
  }

  lemma ShowWithdrawn(m: Mirror, l: Log)
    requires l.event.FundsWithdrawn?
    ensures Stepped(m, ApplyWithdrawn(m, l), ViewOf(m))
  {
    var i := FindAt(m.milestones, HasOnchainId(l.event.milestone));
    if i.Some? {
      var n := ApplyWithdrawn(m, l);
      MaxIdSame(m.milestones, n.milestones);
      ViewStatus(m.milestones, m.projects, m.users, n.projects, n.users, i.value, n.milestones[i.value], l.event.milestone);
      ViewLookup(m.milestones, m.projects, m.users, l.event.milestone);
    }
  }

  lemma ShowRound(m: Mirror, l: Log, id: nat, w: Windows)
    ensures Stepped(m, ApplyRound(m, l, id, w), ViewOf(m))
  {
  }

  lemma ShowFunded(m: Mirror, l: Log)
    requires l.event.MilestoneFunded? && l.event.milestone == MaxId(m.milestones) + 1 && LinkOk(m.milestones)
    ensures var link := Agreement(m, l.event);
      var n := ApplyFunded(m, l);
      && ViewOf(n) == Shown(ViewOf(m), l.event, link)
      && MaxId(n.milestones) == if link.Some? then MaxId(m.milestones) + 1 else MaxId(m.milestones)
  {
    NextIdIsFree(m.milestones);
    if Agreement(m, l.event).Some? {
      var i := FindAt(m.milestones, HasId(l.event.ref.value)).value;
      LinkOkAt(m.milestones, i);
      var n := ApplyFunded(m, l);
      assert n.milestones == m.milestones[i := n.milestones[i]];
      ViewLink(m.milestones, m.projects, m.users, i, n.milestones[i], l.event.milestone);
      MaxIdLink(m.milestones, i, n.milestones[i]);
    }
  }

  /** Every event the mock emits shows in the derived chain exactly as the simple escrow would book it. */
  lemma ShowApply(m: Mirror, l: Log, w: Windows)
    requires !l.event.NoQuorumFallback? && !l.event.MilestoneFunded?
    ensures Stepped(m, Apply(m, l, w), Shown(ViewOf(m), l.event, None))
  {
    match l.event
    case MilestoneSubmitted(_) => ShowSubmitted(m, l);
    case MilestoneReleased(id, principal, fee) => ShowPaid(m, l, id, KReleased, principal, fee);
    case MilestoneRefunded(id, _) => ShowReturned(m, l, id, KRefunded);
    case MilestoneSplit(id, _, freelancerAmount, fee) => ShowPaid(m, l, id, KSplit, freelancerAmount, fee);
    case MilestoneCancelled(id, _) => ShowReturned(m, l, id, KCancelled);
    case DisputeOpened(_, _) => ShowDisputeOpened(m, l);
    case FundsWithdrawn(_, _) => ShowWithdrawn(m, l);
    case ArbitersSelected(id, _, _, _) => ShowRound(m, l, id, w);
    case VoteCommitted(id, _) => ShowRound(m, l, id, w);
    case VoteRevealed(id, _, _, _) => ShowRound(m, l, id, w);
    case DisputeResolved(id, _, _) => ShowRound(m, l, id, w);
    case DisputeFinalized(id, _, _) => ShowRound(m, l, id, w);
    case AppealOpened(id, _) => ShowRound(m, l, id, w);
    case _ =>
  }

  // ---- One emission ----

  predicate Numbered(logs: seq<Log>) {
    logs == [] || (logs[|logs| - 1].tx == logs[|logs| - 1].block && logs[|logs| - 1].index == 0 && Numbered(logs[..|logs| - 1]))
  }

  lemma {:induction false} NumberedAt(logs: seq<Log>, i: nat)
    requires Numbered(logs) && i < |logs|
    ensures logs[i].tx == logs[i].block <= MaxBlock(logs) && logs[i].index == 0
  {
    if i < |logs| - 1 { NumberedAt(logs[..|logs| - 1], i); }
  }

  /** Linked rows are the funded ones, and the ledger holds emitted logs only. */
  predicate StoreOk(s: Store) {
    LinkOk(s.mirror.milestones) && Numbered(Logs(s.mirror.ledger))
  }

  /** The mock emits no fallback, no unknown outcome, and funds under the next id. */
  predicate Emittable(m: Mirror, e: Event) {
    match e
    case NoQuorumFallback(_) => false
    case MilestoneFunded(id, _, _, _, _) => id == MaxId(m.milestones) + 1
    case DisputeResolved(_, _, outcome) => outcome <= 2
    case DisputeFinalized(_, outcome, _) => outcome <= 2
    case _ => true
  }

  /** A log of a new block is no duplicate. */
  lemma NewBlockIsNew(s: Store, base: nat)
    requires StoreOk(s) && base >= Block(s)
    ensures FindAt(s.mirror.ledger, SameLog(base + 1, 0)).None?
  {
    var i := FindAt(s.mirror.ledger, SameLog(base + 1, 0));
    if i.Some? { NumberedAt(Logs(s.mirror.ledger), i.value); }
  }

  /** A stored emission is applied to the mirror and appended to the ledger. */
  lemma StoredEmission(s: Store, e: Event, base: nat, now: nat, w: Windows)
    requires StoreOk(s) && base >= Block(s) && Emittable(s.mirror, e)
    ensures var l := Log(base + 1, now, base + 1, 0, e);
      && Ingest(s.mirror, l, w) == Apply(Recorded(s.mirror, l), l, w)
      && Logs(Ingest(s.mirror, l, w).ledger) == Logs(s.mirror.ledger) + [l]
  {
    NewBlockIsNew(s, base);
    LogsOfApply(s.mirror, Log(base + 1, now, base + 1, 0, e), w);
  }

  lemma AppendLog(logs: seq<Log>, l: Log)
    ensures MaxBlock(logs + [l]) == Max(MaxBlock(logs), l.block)
    ensures FeePot(logs + [l]) == FeePot(logs) + FeeChange(l.event)
    ensures Numbered(logs) && l.tx == l.block && l.index == 0 ==> Numbered(logs + [l])
  {
    assert (logs + [l])[..|logs + [l]| - 1] == logs;
  }

  lemma LinkStays(m: Mirror, l: Log, w: Windows)
    requires LinkOk(m.milestones)
    ensures LinkOk(Ingest(m, l, w).milestones)
  {
    IngestEvolves(m, l, w);
    LinkOkEvolves(m.milestones, Ingest(m, l, w).milestones);
  }

  /** The simple escrow's book after one event. */
  function Booked(c: Chain, e: Event, stored: bool, link: Option<MockMilestone>): Chain {
    if !stored then c.(block := c.block + 1)
    else c.(block := c.block + 1, feePot := c.feePot + FeeChange(e), milestones := Shown(c.milestones, e, link),
            nextMilestoneId := if e.MilestoneFunded? && link.Some? then c.nextMilestoneId + 1 else c.nextMilestoneId)
  }

  lemma ShowIngest(s: Store, e: Event, base: nat, now: nat, w: Windows)
    requires StoreOk(s) && base >= Block(s) && Emittable(s.mirror, e)
    ensures var n := Ingest(s.mirror, Log(base + 1, now, base + 1, 0, e), w);
      var link := Agreement(s.mirror, e);
      && ViewOf(n) == Shown(ViewOf(s.mirror), e, link)
      && MaxId(n.milestones) == if e.MilestoneFunded? && link.Some? then MaxId(s.mirror.milestones) + 1 else MaxId(s.mirror.milestones)
  {
    var l := Log(base + 1, now, base + 1, 0, e);
    var r := Recorded(s.mirror, l);
    StoredEmission(s, e, base, now, w);
    if e.MilestoneFunded? {
      assert Agreement(r, e) == Agreement(s.mirror, e);
      ShowFunded(r, l);
    } else {
      ShowApply(r, l, w);
    }
  }

  /** What an emission makes of the store, and what that shows. */
  predicate Emitted(s: Store, t: Store, e: Event, base: nat, stored: bool, now: nat) {
    && t.kvBlock == base + 1 && t.roster == s.roster && StoreOk(t)
    && (!stored ==> t.mirror == s.mirror)
    && (stored ==>
      && Logs(t.mirror.ledger) == Logs(s.mirror.ledger) + [Log(base + 1, now, base + 1, 0, e)]
      && ViewOf(t.mirror) == Shown(ViewOf(s.mirror), e, Agreement(s.mirror, e))
      && MaxId(t.mirror.milestones) == MaxId(s.mirror.milestones) + if e.MilestoneFunded? && Agreement(s.mirror, e).Some? then 1 else 0)
  }

  lemma EmitIsEmitted(s: Store, e: Event, base: nat, stored: bool, now: nat, w: Windows)
    requires StoreOk(s) && base >= Block(s) && Emittable(s.mirror, e)
    ensures Emitted(s, Emit(s, e, base, stored, now, w), e, base, stored, now)
  {
    if stored {
      var l := Log(base + 1, now, base + 1, 0, e);
      StoredEmission(s, e, base, now, w);
      AppendLog(Logs(s.mirror.ledger), l);
      LinkStays(s.mirror, l, w);
      ShowIngest(s, e, base, now, w);
    }
  }

  lemma EmittedBooks(s: Store, t: Store, e: Event, base: nat, stored: bool, now: nat)
    requires Emitted(s, t, e, base, stored, now) && base == Block(s)
    ensures Hydrate(t) == Booked(Hydrate(s), e, stored, Agreement(s.mirror, e))
  {
    if stored { AppendLog(Logs(s.mirror.ledger), Log(base + 1, now, base + 1, 0, e)); }
  }

  /** Only the first event of a plan can be a funding. */
  function BookAll(c: Chain, events: seq<Event>, i: nat, lost: set<nat>, link: Option<MockMilestone>): Chain
    decreases |events|
  {
    if events == [] then c else BookAll(Booked(c, events[0], i !in lost, link), events[1..], i + 1, lost, None)
  }

  /** An event that can follow another one in a plan. */
  predicate Steady(e: Event) {
    match e
    case NoQuorumFallback(_) => false
    case MilestoneFunded(_, _, _, _, _) => false
    case DisputeResolved(_, _, outcome) => outcome <= 2
    case DisputeFinalized(_, outcome, _) => outcome <= 2
    case _ => true
  }

  predicate AllSteady(events: seq<Event>) {
    events == [] || (Steady(events[0]) && AllSteady(events[1..]))
  }

  predicate Planned(m: Mirror, events: seq<Event>) {
    events == [] || (Emittable(m, events[0]) && AllSteady(events[1..]))
  }

  function LinkOf(m: Mirror, events: seq<Event>): Option<MockMilestone> {
    if events == [] then None else Agreement(m, events[0])
  }

  lemma SteadyIsPlanned(m: Mirror, events: seq<Event>)
    requires AllSteady(events)
    ensures Planned(m, events) && LinkOf(m, events) == None
  {
  }

  lemma EmitShows(s: Store, c: Chain, e: Event, base: nat, stored: bool, now: nat, w: Windows, d: Chain)
    requires StoreOk(s) && c == Hydrate(s) && base == c.block && Emittable(s.mirror, e)
    requires d == Booked(c, e, stored, Agreement(s.mirror, e))
    ensures StoreOk(Emit(s, e, base, stored, now, w)) && Hydrate(Emit(s, e, base, stored, now, w)) == d && d.block == base + 1
  {
    EmitIsEmitted(s, e, base, stored, now, w);
    EmittedBooks(s, Emit(s, e, base, stored, now, w), e, base, stored, now);
  }

  /** The emissions of a whole plan, numbered by distance, book what the simple escrow books one after the other. */
  lemma {:induction false} EmitAllBooks(s: Store, c: Chain, events: seq<Event>, base: nat, i: nat, lost: set<nat>, now: nat, w: Windows)
    requires StoreOk(s) && c == Hydrate(s) && base == c.block && Planned(s.mirror, events)
    ensures var t := EmitAll(s, events, base, i, lost, now, w);
      StoreOk(t) && Hydrate(t) == BookAll(c, events, i, lost, LinkOf(s.mirror, events))
    decreases |events|
  {
    if events != [] {
      var stored := i !in lost;
      var t := Emit(s, events[0], base, stored, now, w);
      var d := Booked(c, events[0], stored, Agreement(s.mirror, events[0]));
      EmitShows(s, c, events[0], base, stored, now, w, d);
      SteadyIsPlanned(t.mirror, events[1..]);
      EmitAllBooks(t, d, events[1..], base + 1, i + 1, lost, now, w);
    }
  }

  // ---- Whole actions ----

  /** What an action makes of the simple escrow's book when the events at `lost` are not stored. */
  function Direct(c: Chain, act: Act, env: Env, now: nat, lost: set<nat>, link: Option<MockMilestone>): Chain
    requires EnvOk(env)
  {
    if !Allowed(c, act, env) then c
    else
      match act
      case Fund(_, _, _, _) =>
        if 0 in lost || link.None? then c.(block := c.block + 1)
        else c.(block := c.block + 1, nextMilestoneId := c.nextMilestoneId + 1,
                milestones := c.milestones[c.nextMilestoneId := link.value])
      case Submit(id, _) => Advance(c, id, Submitted, 0, 0 !in lost, 1)
      case Approve(id, _) => Advance(c, id, Released, Fees.FeeOn(c.milestones[id].amount, env.feeBps), 0 !in lost, 1)
      case Withdraw(_, _) => c.(block := c.block + 1)
      case Cancel(id, _) => Advance(c, id, Cancelled, 0, 0 !in lost, 1)
      case OpenDispute(id, _) => Advance(c, id, Disputed, 0, 0 !in lost, 2)
      case Resolve(id, _, outcome, _) =>
        Reseat(Advance(c, id, Resolution(outcome), ResolutionFee(c.milestones[id].amount, outcome, env.feeBps), 3 !in lost, 6),
               NewRoster(c, act, env, now))
      case Register(who, _) => Reseat(c.(block := c.block + 2), NewRoster(c, act, env, now))
      case Deregister(_) => Reseat(c.(block := c.block + 1), NewRoster(c, act, env, now))
      case WithdrawFees =>
        c.(block := c.block + 2,
           feePot := c.feePot - (if 0 in lost then 0 else c.feePot / 2) - if 1 in lost then 0 else c.feePot - c.feePot / 2)
  }

  function Resolution(outcome: Outcome): Status {
    match outcome
    case Release => ResolvedRelease
    case Refund => ResolvedRefund
    case Split => ResolvedSplit
  }

  /** A refund pays no fee, and a split pays it on the freelancer's half only. */
  function ResolutionFee(amount: nat, outcome: Outcome, feeBps: nat): nat {
    match outcome
    case Release => Fees.FeeOn(amount, feeBps)
    case Refund => 0
    case Split => Fees.FeeOn(amount / 2, feeBps)
  }

  /** The book after `blocks` blocks, one of which moved the milestone and took the fee. */
  function Advance(c: Chain, id: nat, status: Status, fee: nat, stored: bool, blocks: nat): Chain
    requires id in c.milestones
  {
    if stored then c.(block := c.block + blocks, feePot := c.feePot + fee, milestones := c.milestones[id := c.milestones[id].(status := status)])
    else c.(block := c.block + blocks)
  }

  function Reseat(c: Chain, roster: seq<Seat>): Chain {
    c.(roster := roster, nextBadge := MaxBadge(roster) + 1)
  }

  /** The funding an action would link. */
  function ActLink(m: Mirror, act: Act): Option<MockMilestone> {
    match act
    case Fund(ref, client, freelancer, amount) => Agreement(m, MilestoneFunded(MaxId(m.milestones) + 1, ref, client, freelancer, amount))
    case _ => None
  }

  lemma SteadyCons(e: Event, rest: seq<Event>)
    requires Steady(e) && AllSteady(rest)
    ensures AllSteady([e] + rest)
  {
    assert ([e] + rest)[1..] == rest;
  }

  lemma {:induction false} BookCons(c: Chain, e: Event, rest: seq<Event>, i: nat, lost: set<nat>, link: Option<MockMilestone>)
    ensures BookAll(c, [e] + rest, i, lost, link) == BookAll(Booked(c, e, i !in lost, link), rest, i + 1, lost, None)
  {
    assert ([e] + rest)[1..] == rest;
  }

  lemma {:induction false} BookOne(c: Chain, e: Event, i: nat, lost: set<nat>, link: Option<MockMilestone>)
    ensures BookAll(c, [e], i, lost, link) == Booked(c, e, i !in lost, link)
  {
    assert [e] + [] == [e];
    BookCons(c, e, [], i, lost, link);
  }

  lemma {:induction false} BookTwo(c: Chain, e: Event, f: Event, lost: set<nat>)
    ensures BookAll(c, [e, f], 0, lost, None) == Booked(Booked(c, e, 0 !in lost, None), f, 1 !in lost, None)
  {
    assert [e, f] == [e] + [f];
    BookCons(c, e, [f], 0, lost, None);
    BookOne(Booked(c, e, 0 !in lost, None), f, 1, lost, None);
  }

  /** An event that only takes a block. */
  predicate Idle(e: Event) {
    Steady(e) && match e
      case ArbitersSelected(_, _, _, _) => true
      case VoteRevealed(_, _, _, _) => true
      case DisputeFinalized(_, _, _) => true
      case DisputeResolved(_, _, _) => true
      case FundsWithdrawn(_, _) => true
      case LedgerOnly(_, _) => true
      case _ => false
  }

  function Wait(c: Chain, blocks: nat): Chain {
    c.(block := c.block + blocks)
  }

  lemma BookIdle(c: Chain, e: Event, stored: bool)
    requires Idle(e)
    ensures Booked(c, e, stored, None) == Wait(c, 1)
  {
  }

  predicate AllIdle(events: seq<Event>) {
    events == [] || (Idle(events[0]) && AllIdle(events[1..]))
  }

  lemma {:induction false} BookIdles(c: Chain, events: seq<Event>, rest: seq<Event>, i: nat, lost: set<nat>)
    requires AllIdle(events)
    ensures BookAll(c, events + rest, i, lost, None) == BookAll(Wait(c, |events|), rest, i + |events|, lost, None)
    decreases |events|
  {
    if events == [] {
      assert events + rest == rest;
    } else {
      assert events + rest == [events[0]] + (events[1..] + rest);
      BookCons(c, events[0], events[1..] + rest, i, lost, None);
      BookIdle(c, events[0], i !in lost);
      BookIdles(Wait(c, 1), events[1..], rest, i + 1, lost);
    }
  }

  lemma IdlesAreSteady(events: seq<Event>, rest: seq<Event>)
    requires AllIdle(events) && AllSteady(rest)
    ensures AllSteady(events + rest)
    decreases |events|
  {
    if events == [] {
      assert events + rest == rest;
    } else {
      assert events + rest == [events[0]] + (events[1..] + rest);
      IdlesAreSteady(events[1..], rest);
      SteadyCons(events[0], events[1..] + rest);
    }
  }

  // ---- Each action on its own ----

  lemma SettlementIsSteady(id: nat, amount: nat, outcome: Outcome, feeBps: nat)
    requires feeBps <= 10_000
    ensures Steady(Settlement(id, amount, outcome, feeBps))
    ensures FeeChange(Settlement(id, amount, outcome, feeBps)) == ResolutionFee(amount, outcome, feeBps)
  {
  }

  lemma OneEvent(e: Event)
    ensures AllSteady([e]) <==> Steady(e)
    ensures AllIdle([e]) <==> Idle(e)
  {
    assert AllSteady([]) && AllIdle([]);
  }

  predicate Simple(act: Act) {
    act.Fund? || act.Submit? || act.Approve? || act.Withdraw? || act.Cancel? || act.Deregister?
  }

  /** Booking the plan and replacing the roster is the direct update. */
  predicate PlanIsDirect(c: Chain, act: Act, env: Env, now: nat, lost: set<nat>, link: Option<MockMilestone>)
    requires EnvOk(env) && Allowed(c, act, env)
  {
    Reseat(BookAll(c, Plan(c, act, env, now), 0, lost, link), NewRoster(c, act, env, now)) == Direct(c, act, env, now, lost, link)
  }

  lemma {:induction false} SimpleIsDirect(c: Chain, act: Act, env: Env, now: nat, lost: set<nat>, link: Option<MockMilestone>)
    requires EnvOk(env) && Allowed(c, act, env) && Simple(act) && (link.Some? ==> act.Fund?) && c.nextBadge == MaxBadge(c.roster) + 1
    ensures PlanIsDirect(c, act, env, now, lost, link)
  {
    BookOne(c, Plan(c, act, env, now)[0], 0, lost, link);
    if act.Approve? { SettlementIsSteady(act.id, c.milestones[act.id].amount, Release, env.feeBps); }
  }

  lemma {:induction false} DisputeIsDirect(c: Chain, act: Act, env: Env, now: nat, lost: set<nat>)
    requires EnvOk(env) && Allowed(c, act, env) && act.OpenDispute? && c.nextBadge == MaxBadge(c.roster) + 1
    ensures PlanIsDirect(c, act, env, now, lost, None)
  {
    var plan := Plan(c, act, env, now);
    BookTwo(c, plan[0], plan[1], lost);
  }

  lemma {:induction false} BookRegistration(c: Chain, who: Wallet, lost: set<nat>)
    ensures BookAll(c, [LedgerOnly("ArbiterRegistered", who), LedgerOnly("StakeDeposited", who)], 0, lost, None) == Wait(c, 2)
  {
    var e, f := LedgerOnly("ArbiterRegistered", who), LedgerOnly("StakeDeposited", who);
    BookTwo(c, e, f, lost);
    BookIdle(c, e, 0 !in lost);
    BookIdle(Wait(c, 1), f, 1 !in lost);
  }

  lemma {:induction false} RegisterIsDirect(c: Chain, act: Act, env: Env, now: nat, lost: set<nat>)
    requires EnvOk(env) && Allowed(c, act, env) && act.Register?
    ensures PlanIsDirect(c, act, env, now, lost, None)
  {
    BookRegistration(c, act.who, lost);
    assert Plan(c, act, env, now) == [LedgerOnly("ArbiterRegistered", act.who), LedgerOnly("StakeDeposited", act.who)];
  }

  lemma {:induction false} WithdrawFeesIsDirect(c: Chain, act: Act, env: Env, now: nat, lost: set<nat>)
    requires EnvOk(env) && Allowed(c, act, env) && act.WithdrawFees? && c.nextBadge == MaxBadge(c.roster) + 1
    ensures PlanIsDirect(c, act, env, now, lost, None)
  {
    var plan := Plan(c, act, env, now);
    BookTwo(c, plan[0], plan[1], lost);
  }

  function Votes(id: nat, who: Wallet, o: nat): seq<Event> {
    [VoteRevealed(id, 0, who, o), DisputeFinalized(id, o, true), DisputeResolved(id, who, o)]
  }

  function Scores(who: Wallet): seq<Event> {
    [LedgerOnly("TrustScoreUpdated", who), LedgerOnly("ScoreChanged", who)]
  }

  lemma ResolvePlan(c: Chain, act: Act, env: Env, now: nat)
    requires EnvOk(env) && Allowed(c, act, env) && act.Resolve?
    ensures var o := OutcomeIndex(act.outcome);
      && Plan(c, act, env, now)
         == Votes(act.id, act.who, o) + ([Settlement(act.id, c.milestones[act.id].amount, act.outcome, env.feeBps)] + Scores(act.who))
      && AllIdle(Votes(act.id, act.who, o)) && AllIdle(Scores(act.who))
  {
    var v := Votes(act.id, act.who, OutcomeIndex(act.outcome));
    assert AllIdle(v[1..][1..]) by { assert v[1..][1..] == [v[2]]; OneEvent(v[2]); }
    assert Scores(act.who)[1..] == [LedgerOnly("ScoreChanged", act.who)];
    OneEvent(LedgerOnly("ScoreChanged", act.who));
  }

  lemma BookSettlement(c: Chain, id: nat, outcome: Outcome, feeBps: nat, stored: bool, blocks: nat)
    requires feeBps <= 10_000 && id in c.milestones && c.milestones[id].status == Disputed
    ensures Wait(Booked(c, Settlement(id, c.milestones[id].amount, outcome, feeBps), stored, None), blocks)
      == Advance(c, id, Resolution(outcome), ResolutionFee(c.milestones[id].amount, outcome, feeBps), stored, blocks + 1)
  {
    SettlementIsSteady(id, c.milestones[id].amount, outcome, feeBps);
  }

  lemma {:induction false} BookResolve(c: Chain, votes: seq<Event>, e: Event, scores: seq<Event>, lost: set<nat>)
    requires AllIdle(votes) && AllIdle(scores)
    ensures BookAll(c, votes + ([e] + scores), 0, lost, None)
      == Wait(Booked(Wait(c, |votes|), e, |votes| !in lost, None), |scores|)
  {
    BookIdles(c, votes, [e] + scores, 0, lost);
    var d := Wait(c, |votes|);
    BookCons(d, e, scores, |votes|, lost, None);
    assert scores + [] == scores;
    BookIdles(Booked(d, e, |votes| !in lost, None), scores, [], |votes| + 1, lost);
  }

  lemma {:induction false} ResolveIsDirect(c: Chain, act: Act, env: Env, now: nat, lost: set<nat>)
    requires EnvOk(env) && Allowed(c, act, env) && act.Resolve?
    ensures PlanIsDirect(c, act, env, now, lost, None)
  {
    var amount := c.milestones[act.id].amount;
    ResolvePlan(c, act, env, now);
    BookResolve(c, Votes(act.id, act.who, OutcomeIndex(act.outcome)), Settlement(act.id, amount, act.outcome, env.feeBps), Scores(act.who), lost);
    BookSettlement(Wait(c, 3), act.id, act.outcome, env.feeBps, 3 !in lost, 2);
  }

  lemma {:induction false} AnyIsDirect(c: Chain, act: Act, env: Env, now: nat, lost: set<nat>, link: Option<MockMilestone>)
    requires EnvOk(env) && Allowed(c, act, env) && (link.Some? ==> act.Fund?) && c.nextBadge == MaxBadge(c.roster) + 1
    ensures PlanIsDirect(c, act, env, now, lost, link)
  {
    match act
    case OpenDispute(_, _) => DisputeIsDirect(c, act, env, now, lost);
    case Resolve(_, _, _, _) => ResolveIsDirect(c, act, env, now, lost);
    case Register(_, _) => RegisterIsDirect(c, act, env, now, lost);
    case WithdrawFees => WithdrawFeesIsDirect(c, act, env, now, lost);
    case _ => SimpleIsDirect(c, act, env, now, lost, link);
  }

  lemma {:induction false} PlanIsPlanned(s: Store, act: Act, env: Env, now: nat)
    requires EnvOk(env) && Allowed(Hydrate(s), act, env)
    ensures Planned(s.mirror, Plan(Hydrate(s), act, env, now))
    ensures LinkOf(s.mirror, Plan(Hydrate(s), act, env, now)) == ActLink(s.mirror, act)
  {
    var c := Hydrate(s);
    var plan := Plan(c, act, env, now);
    match act
    case Resolve(id, who, outcome, _) =>
      ResolvePlan(c, act, env, now);
      var e := Settlement(id, c.milestones[id].amount, outcome, env.feeBps);
      SettlementIsSteady(id, c.milestones[id].amount, outcome, env.feeBps);
      IdlesAreSteady(Scores(who), []);
      assert Scores(who) + [] == Scores(who);
      SteadyCons(e, Scores(who));
      IdlesAreSteady(Votes(id, who, OutcomeIndex(outcome)), [e] + Scores(who));
    case OpenDispute(_, _) => assert plan[1..] == [plan[1]]; OneEvent(plan[1]);
    case Register(_, _) => assert plan[1..] == [plan[1]]; OneEvent(plan[1]);
    case WithdrawFees => assert plan[1..] == [plan[1]]; OneEvent(plan[1]);
    case _ =>
  }

  lemma ReseatStore(t: Store, roster: seq<Seat>)
    ensures Hydrate(t.(roster := roster)) == Reseat(Hydrate(t), roster)
    ensures StoreOk(t) ==> StoreOk(t.(roster := roster))
  {
  }

  lemma {:induction false} ReseatBooks(s: Store, t: Store, u: Store, act: Act, env: Env, now: nat, lost: set<nat>)
    requires EnvOk(env) && Allowed(Hydrate(s), act, env) && StoreOk(t)
    requires Hydrate(t) == BookAll(Hydrate(s), Plan(Hydrate(s), act, env, now), 0, lost, ActLink(s.mirror, act))
    requires u == t.(roster := NewRoster(Hydrate(s), act, env, now))
    ensures StoreOk(u) && Hydrate(u) == Direct(Hydrate(s), act, env, now, lost, ActLink(s.mirror, act))
  {
    ReseatStore(t, NewRoster(Hydrate(s), act, env, now));
    AnyIsDirect(Hydrate(s), act, env, now, lost, ActLink(s.mirror, act));
  }

  /**
   * The action on stored rows, shown by deriving the chain again, is the direct
   * update of the chain shown before, whichever of its events failed to store.
   */
  lemma {:induction false} Refines(s: Store, act: Act, env: Env, now: nat, lost: set<nat>)
    requires StoreOk(s) && EnvOk(env)
    ensures StoreOk(Perform(s, act, env, now, lost))
    ensures Hydrate(Perform(s, act, env, now, lost)) == Direct(Hydrate(s), act, env, now, lost, ActLink(s.mirror, act))
  {
    if Allowed(Hydrate(s), act, env) {
      var plan := Plan(Hydrate(s), act, env, now);
      PlanIsPlanned(s, act, env, now);
      EmitAllBooks(s, Hydrate(s), plan, Block(s), 0, lost, now, env.windows);
      ReseatBooks(s, EmitAll(s, plan, Block(s), 0, lost, now, env.windows), Perform(s, act, env, now, lost), act, env, now, lost);
    }
  }
}
