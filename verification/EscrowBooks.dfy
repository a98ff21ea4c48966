/** The escrow contract's balance sheet: what it owes to whom (apps/contracts/contracts/Escrow.sol). */
module EscrowBooks {
  import opened Basics
  import opened Milestones
  import opened Arbitration
  import opened Fees

  const MAX_FEE_BPS: nat := 500

  /** Wallet-funded milestones carry this job reference. */
  const NO_JOB: nat := 0

  datatype Milestone = Milestone(
    client: Address,
    freelancer: Address,
    amount: nat,
    feeBps: nat,
    status: Status,
    claimable: nat,
    job: nat,
    dispute: Option<Dispute>)

  datatype Budget = Budget(locked: nat, reserved: nat, paidOut: nat, locker: Address)

  const EMPTY_BUDGET := Budget(0, 0, 0, 0)

  // ---- Milestones ----

  predicate PaysOut(s: Status) {
    s in {Released, ResolvedRelease, ResolvedSplit}
  }

  /** A dispute whose round can be tallied and paid. */
  predicate Wired(d: Dispute) {
    Shaped(d) && Distinct(Current(d).arbiters) && forall a :: a in Current(d).arbiters ==> a in Current(d).weights
  }

  predicate MilestoneOk(m: Milestone) {
    && 0 < m.amount
    && m.feeBps <= MAX_FEE_BPS
    && m.status != PendingFunding
    && (m.claimable > 0 ==> PaysOut(m.status))
    && (m.dispute.Some? <==> IsArbitrated(m.status))
    && (m.dispute.Some? ==> Wired(m.dispute.value) && (IsTerminal(m.status) ==> Current(m.dispute.value).resolved))
  }

  /** What the contract still owes on account of one milestone. */
  function Owed(m: Milestone): int {
    (if IsLive(m.status) then m.amount else 0) + m.claimable
    + (if m.status == Disputed && m.dispute.Some? then m.dispute.value.fee else 0)
  }

  /** The part of a job's reservation one milestone accounts for. */
  function Share(m: Milestone, job: nat): int {
    if IsLive(m.status) && m.job == job then m.amount else 0
  }

  ghost function ShareOf(job: nat): Milestone -> int {
    m => Share(m, job)
  }

  ghost function OwedOf(): Milestone -> int {
    m => Owed(m)
  }

  ghost function Total(ms: seq<Milestone>, f: Milestone -> int): int {
    if ms == [] then 0 else f(ms[0]) + Total(ms[1..], f)
  }

  lemma {:induction false} TotalUpdate(ms: seq<Milestone>, i: nat, m: Milestone, f: Milestone -> int)
    requires i < |ms|
    ensures Total(ms[i := m], f) == Total(ms, f) - f(ms[i]) + f(m)
  {
    if i == 0 {
      assert ms[0 := m][1..] == ms[1..];
    } else {
      assert ms[i := m][1..] == ms[1..][i - 1 := m];
      TotalUpdate(ms[1..], i - 1, m, f);
    }
  }

  lemma {:induction false} TotalAppend(ms: seq<Milestone>, m: Milestone, f: Milestone -> int)
    ensures Total(ms + [m], f) == Total(ms, f) + f(m)
  {
    if ms != [] {
      assert (ms + [m])[1..] == ms[1..] + [m];
      TotalAppend(ms[1..], m, f);
    }
  }

  /** No single reservation exceeds the sum. */
  lemma {:induction false} TotalCovers(ms: seq<Milestone>, i: nat, job: nat)
    requires i < |ms|
    ensures 0 <= Share(ms[i], job) <= Total(ms, ShareOf(job))
  {
    TotalIsNonNegative(ms, job);
    if i > 0 {
      TotalCovers(ms[1..], i - 1, job);
    } else {
      TotalIsNonNegative(ms[1..], job);
    }
  }

  lemma {:induction false} TotalIsNonNegative(ms: seq<Milestone>, job: nat)
    ensures 0 <= Total(ms, ShareOf(job))
  {
    if ms != [] {
      TotalIsNonNegative(ms[1..], job);
    }
  }

  // ---- Job budgets ----

  function BudgetOf(budgets: map<nat, Budget>, job: nat): Budget {
    if job in budgets then budgets[job] else EMPTY_BUDGET
  }

  /** What may still be drawn or unlocked. */
  function Free(b: Budget): int {
    b.locked - (b.paidOut + b.reserved)
  }

  ghost function FreeOf(budgets: map<nat, Budget>): map<nat, int> {
    map j | j in budgets :: Free(budgets[j])
  }

  predicate BudgetOk(b: Budget) {
    b.reserved + b.paidOut <= b.locked
  }

  lemma FreeOfUpdate(budgets: map<nat, Budget>, job: nat, b: Budget)
    ensures FreeOf(budgets[job := b]) == FreeOf(budgets)[job := Free(b)]
  {
    var l, r := FreeOf(budgets[job := b]), FreeOf(budgets)[job := Free(b)];
    assert l.Keys == r.Keys;
    forall j | j in l
      ensures l[j] == r[j]
    {
    }
  }

  lemma FreeSumStep(budgets: map<nat, Budget>, free: map<nat, int>, job: nat, b: Budget)
    requires free == FreeOf(budgets)[job := Free(b)]
    ensures MapSum(free) == MapSum(FreeOf(budgets)) + Free(b) - Free(BudgetOf(budgets, job))
  {
    MapSumUpdate(FreeOf(budgets), job, Free(b));
  }

  lemma FreeUpdate(budgets: map<nat, Budget>, job: nat, b: Budget)
    ensures MapSum(FreeOf(budgets[job := b])) == MapSum(FreeOf(budgets)) + Free(b) - Free(BudgetOf(budgets, job))
  {
    FreeOfUpdate(budgets, job, b);
    FreeSumStep(budgets, FreeOf(budgets[job := b]), job, b);
  }

  /** A settled milestone leaves its job's reservation; its whole amount is earmarked or gone. */
  function SettleBudget(budgets: map<nat, Budget>, m: Milestone): map<nat, Budget>
    requires m.job != NO_JOB ==> m.amount <= BudgetOf(budgets, m.job).reserved
  {
    if m.job == NO_JOB then budgets
    else budgets[m.job := Settled(BudgetOf(budgets, m.job), m.amount)]
  }

  /** The milestone's amount has left its job's reservation, which held it; every other job's sheet is as it was. */
  ghost predicate Settles(was: map<nat, Budget>, next: map<nat, Budget>, m: Milestone) {
    if m.job == 0 then next == was
    else
      var b := BudgetOf(was, m.job);
      && m.amount <= b.reserved
      && next == was[m.job := Budget(b.locked, b.reserved - m.amount, b.paidOut + m.amount, b.locker)]
  }

  // ---- The whole sheet ----

  ghost predicate MilestonesOk(ms: seq<Milestone>) {
    forall i :: 0 <= i < |ms| ==> MilestoneOk(ms[i])
  }

  ghost predicate BudgetsOk(budgets: map<nat, Budget>) {
    forall j :: j in budgets ==> BudgetOk(budgets[j])
  }

  /** Every job's reservation is the sum of its live milestones. */
  ghost predicate Backed(ms: seq<Milestone>, budgets: map<nat, Budget>) {
    forall j: nat :: j != NO_JOB ==> BudgetOf(budgets, j).reserved == Total(ms, ShareOf(j))
  }

  ghost function Liabilities(ms: seq<Milestone>, budgets: map<nat, Budget>, fees: int, pool: int, credits: int): int {
    Total(ms, OwedOf()) + MapSum(FreeOf(budgets)) + fees + pool + credits
  }

  ghost predicate BooksOk(ms: seq<Milestone>, budgets: map<nat, Budget>) {
    MilestonesOk(ms) && BudgetsOk(budgets) && Backed(ms, budgets)
  }

  lemma EmptyMapSum(m: map<Address, int>)
    requires |m| == 0
    ensures MapSum(m) == 0
  {
  }

  lemma EmptyBooks(ms: seq<Milestone>, budgets: map<nat, Budget>)
    requires |ms| == 0 && |budgets| == 0
    ensures BooksOk(ms, budgets)
    ensures forall fees, pool, credits :: Liabilities(ms, budgets, fees, pool, credits) == fees + pool + credits
  {
    assert FreeOf(budgets) == map[];
    EmptyMapSum(FreeOf(budgets));
  }

  lemma HistoryOfUpdate(ms: seq<Milestone>, i: nat, m: Milestone)
    requires i < |ms| && Evolves(ms[i], m)
    ensures History(ms, ms[i := m])
  {
  }

  lemma MilestonesUpdate(ms: seq<Milestone>, i: nat, m: Milestone)
    requires MilestonesOk(ms) && i < |ms| && MilestoneOk(m)
    ensures MilestonesOk(ms[i := m])
  {
    var ns := ms[i := m];
    forall k | 0 <= k < |ns|
      ensures MilestoneOk(ns[k])
    {
      if k != i { assert ns[k] == ms[k]; }
    }
  }

  /** Changing a live milestone without settling it leaves every reservation as it was. */
  lemma BooksReplace(ms: seq<Milestone>, budgets: map<nat, Budget>, i: nat, m: Milestone)
    requires BooksOk(ms, budgets) && i < |ms| && MilestoneOk(m) && Evolves(ms[i], m)
    requires IsLive(ms[i].status) == IsLive(m.status)
    ensures BooksOk(ms[i := m], budgets) && History(ms, ms[i := m])
    ensures Total(ms[i := m], OwedOf()) == Total(ms, OwedOf()) - Owed(ms[i]) + Owed(m)
  {
    TotalUpdate(ms, i, m, OwedOf());
    MilestonesUpdate(ms, i, m);
    HistoryOfUpdate(ms, i, m);
    forall j: nat | j != NO_JOB
      ensures BudgetOf(budgets, j).reserved == Total(ms[i := m], ShareOf(j))
    {
      TotalUpdate(ms, i, m, ShareOf(j));
    }
  }

  /** A live milestone's amount is part of its job's reservation, so settling it can never underflow. */
  lemma ReservationCovers(ms: seq<Milestone>, budgets: map<nat, Budget>, i: nat)
    requires Backed(ms, budgets) && i < |ms| && IsLive(ms[i].status)
    ensures ms[i].job != NO_JOB ==> ms[i].amount <= BudgetOf(budgets, ms[i].job).reserved
  {
    TotalCovers(ms, i, ms[i].job);
  }

  lemma SettleBacked(ms: seq<Milestone>, budgets: map<nat, Budget>, i: nat, m: Milestone)
    requires Backed(ms, budgets) && i < |ms| && IsLive(ms[i].status) && !IsLive(m.status)
    requires ms[i].job != NO_JOB ==> ms[i].amount <= BudgetOf(budgets, ms[i].job).reserved
    ensures Backed(ms[i := m], SettleBudget(budgets, ms[i]))
  {
    forall j: nat | j != NO_JOB
      ensures BudgetOf(SettleBudget(budgets, ms[i]), j).reserved == Total(ms[i := m], ShareOf(j))
    {
      TotalUpdate(ms, i, m, ShareOf(j));
    }
  }

  function Settled(b: Budget, amount: nat): Budget
    requires amount <= b.reserved
  {
    b.(reserved := b.reserved - amount, paidOut := b.paidOut + amount)
  }

  lemma SettleFree(budgets: map<nat, Budget>, m: Milestone)
    requires BudgetsOk(budgets)
    requires m.job != NO_JOB ==> m.amount <= BudgetOf(budgets, m.job).reserved
    ensures MapSum(FreeOf(SettleBudget(budgets, m))) == MapSum(FreeOf(budgets))
  {
    if m.job != NO_JOB {
      FreeUpdate(budgets, m.job, Settled(BudgetOf(budgets, m.job), m.amount));
    }
  }

  lemma SettleBudgetsOk(budgets: map<nat, Budget>, m: Milestone)
    requires BudgetsOk(budgets)
    requires m.job != NO_JOB ==> m.amount <= BudgetOf(budgets, m.job).reserved
    ensures BudgetsOk(SettleBudget(budgets, m))
  {
    if m.job != NO_JOB {
      assert BudgetOk(BudgetOf(budgets, m.job));
    }
  }

  /** Settling a live milestone: its reservation is released and no job's free balance moves. */
  lemma BooksSettle(ms: seq<Milestone>, budgets: map<nat, Budget>, i: nat, m: Milestone)
    requires BooksOk(ms, budgets) && i < |ms| && MilestoneOk(m) && Evolves(ms[i], m)
    requires IsLive(ms[i].status) && !IsLive(m.status)
    ensures ms[i].job != NO_JOB ==> ms[i].amount <= BudgetOf(budgets, ms[i].job).reserved
    ensures BooksOk(ms[i := m], SettleBudget(budgets, ms[i])) && History(ms, ms[i := m])
    ensures MapSum(FreeOf(SettleBudget(budgets, ms[i]))) == MapSum(FreeOf(budgets))
    ensures Total(ms[i := m], OwedOf()) == Total(ms, OwedOf()) - Owed(ms[i]) + Owed(m)
  {
    ReservationCovers(ms, budgets, i);
    TotalUpdate(ms, i, m, OwedOf());
    MilestonesUpdate(ms, i, m);
    HistoryOfUpdate(ms, i, m);
    SettleBacked(ms, budgets, i, m);
    SettleFree(budgets, ms[i]);
    SettleBudgetsOk(budgets, ms[i]);
  }

  function NewMilestone(client: Address, freelancer: Address, amount: nat, feeBps: nat, job: nat): Milestone {
    Milestone(client, freelancer, amount, feeBps, Funded, 0, job, None)
  }

  /** A milestone as its funding creates it. */
  predicate IsNew(m: Milestone, client: Address, freelancer: Address, amount: nat, feeBps: nat, job: nat) {
    && m.client == client && m.freelancer == freelancer && m.amount == amount && m.feeBps == feeBps && m.job == job
    && m.status == Funded && m.claimable == 0 && m.dispute.None?
  }

  lemma MilestonesAppend(ms: seq<Milestone>, more: seq<Milestone>)
    requires MilestonesOk(ms) && MilestonesOk(more)
    ensures MilestonesOk(ms + more) && History(ms, ms + more)
  {
    forall k | 0 <= k < |ms + more|
      ensures MilestoneOk((ms + more)[k])
    {
    }
    forall k | 0 <= k < |ms|
      ensures Evolves(ms[k], (ms + more)[k])
    {
    }
  }

  lemma {:induction false} TotalConcat(ms: seq<Milestone>, more: seq<Milestone>, f: Milestone -> int)
    ensures Total(ms + more, f) == Total(ms, f) + Total(more, f)
  {
    if ms == [] {
      assert ms + more == more;
    } else {
      assert (ms + more)[1..] == ms[1..] + more;
      TotalConcat(ms[1..], more, f);
    }
  }

  /** Fresh milestones of one job. */
  predicate FreshBatch(more: seq<Milestone>, job: nat) {
    forall k :: 0 <= k < |more| ==> MilestoneOk(more[k]) && more[k].status == Funded && more[k].job == job
  }

  lemma {:induction false} BatchTotals(more: seq<Milestone>, job: nat, j: nat)
    requires FreshBatch(more, job)
    ensures 0 <= Total(more, OwedOf())
    ensures Total(more, ShareOf(j)) == if j == job then Total(more, OwedOf()) else 0
  {
    if more != [] {
      BatchTotals(more[1..], job, j);
    }
  }

  /** Drawing milestones from a job's budget, whose new balance sheet is `b`. */
  lemma BooksDraw(ms: seq<Milestone>, budgets: map<nat, Budget>, more: seq<Milestone>, job: nat, b: Budget)
    requires BooksOk(ms, budgets) && FreshBatch(more, job) && BudgetOk(b)
    requires job != NO_JOB ==> b.reserved == BudgetOf(budgets, job).reserved + Total(more, OwedOf())
    ensures BooksOk(ms + more, budgets[job := b]) && History(ms, ms + more)
    ensures Total(ms + more, OwedOf()) == Total(ms, OwedOf()) + Total(more, OwedOf())
    ensures MapSum(FreeOf(budgets[job := b])) == MapSum(FreeOf(budgets)) + Free(b) - Free(BudgetOf(budgets, job))
  {
    TotalConcat(ms, more, OwedOf());
    MilestonesAppend(ms, more);
    FreeUpdate(budgets, job, b);
    forall j: nat | j != NO_JOB
      ensures BudgetOf(budgets[job := b], j).reserved == Total(ms + more, ShareOf(j))
    {
      TotalConcat(ms, more, ShareOf(j));
      BatchTotals(more, job, j);
    }
  }

  /** A wallet-funded milestone touches no budget. */
  lemma BooksAppend(ms: seq<Milestone>, budgets: map<nat, Budget>, m: Milestone)
    requires BooksOk(ms, budgets) && FreshBatch([m], NO_JOB)
    ensures BooksOk(ms + [m], budgets) && History(ms, ms + [m])
    ensures Total(ms + [m], OwedOf()) == Total(ms, OwedOf()) + Owed(m)
  {
    TotalAppend(ms, m, OwedOf());
    MilestonesAppend(ms, [m]);
    forall j: nat | j != NO_JOB
      ensures BudgetOf(budgets, j).reserved == Total(ms + [m], ShareOf(j))
    {
      TotalAppend(ms, m, ShareOf(j));
      assert BudgetOf(budgets, j).reserved == Total(ms, ShareOf(j));
      assert [m][0] == m && ShareOf(j)(m) == 0;
    }
  }

  /** Changing one budget without touching its reservation. */
  lemma BooksBudget(ms: seq<Milestone>, budgets: map<nat, Budget>, job: nat, b: Budget)
    requires BooksOk(ms, budgets) && BudgetOk(b) && b.reserved == BudgetOf(budgets, job).reserved
    ensures BooksOk(ms, budgets[job := b])
    ensures MapSum(FreeOf(budgets[job := b])) == MapSum(FreeOf(budgets)) + Free(b) - Free(BudgetOf(budgets, job))
  {
    FreeUpdate(budgets, job, b);
    forall j: nat | j != NO_JOB
      ensures BudgetOf(budgets[job := b], j).reserved == Total(ms, ShareOf(j))
    {
      assert BudgetOf(budgets, j).reserved == Total(ms, ShareOf(j));
    }
  }

  // ---- Payments ----

  type Payment = (Address, nat)

  function PaidTotal(pays: seq<Payment>): nat {
    if pays == [] then 0 else PaidTotal(pays[..|pays| - 1]) + pays[|pays| - 1].1
  }

  /** The wei that actually leave: payments whose recipient takes the push. */
  function Pushed(pays: seq<Payment>, accepts: set<Address>): nat {
    if pays == [] then 0
    else
      var p := pays[|pays| - 1];
      Pushed(pays[..|pays| - 1], accepts) + if p.0 in accepts then p.1 else 0
  }

  function CreditOf(credit: map<Address, int>, who: Address): int {
    if who in credit then credit[who] else 0
  }

  /** The rest is held as credit. */
  function Held(credit: map<Address, int>, pays: seq<Payment>, accepts: set<Address>): map<Address, int> {
    if pays == [] then credit
    else
      var p := pays[|pays| - 1];
      var c := Held(credit, pays[..|pays| - 1], accepts);
      if p.0 in accepts || p.1 == 0 then c else c[p.0 := CreditOf(c, p.0) + p.1]
  }

  /** What was sent to each address once the others are paid. */
  function Sent(sent: map<Address, int>, pays: seq<Payment>, accepts: set<Address>): map<Address, int> {
    if pays == [] then sent
    else
      var p := pays[|pays| - 1];
      var c := Sent(sent, pays[..|pays| - 1], accepts);
      if p.0 in accepts && p.1 != 0 then c[p.0 := CreditOf(c, p.0) + p.1] else c
  }

  /** What a list of payments gives one address. */
  function Due(pays: seq<Payment>, a: Address): nat {
    if pays == [] then 0
    else Due(pays[..|pays| - 1], a) + if pays[|pays| - 1].0 == a then pays[|pays| - 1].1 else 0
  }

  /** Between two states of the books `a` got `due`: sent if it takes payments, held as credit if not. */
  predicate Gets(credit: map<Address, int>, sent: map<Address, int>, credit': map<Address, int>, sent': map<Address, int>,
                 accepts: set<Address>, a: Address, due: nat) {
    && CreditOf(sent', a) == CreditOf(sent, a) + (if a in accepts then due else 0)
    && CreditOf(credit', a) == CreditOf(credit, a) + (if a in accepts then 0 else due)
  }

  lemma {:induction false} PaymentsReach(credit: map<Address, int>, sent: map<Address, int>, pays: seq<Payment>, accepts: set<Address>, a: Address)
    ensures Gets(credit, sent, Held(credit, pays, accepts), Sent(sent, pays, accepts), accepts, a, Due(pays, a))
  {
    if pays != [] { PaymentsReach(credit, sent, pays[..|pays| - 1], accepts, a); }
  }

  /** What leaves the contract is what is sent. */
  lemma {:induction false} SentTotal(sent: map<Address, int>, pays: seq<Payment>, accepts: set<Address>)
    ensures MapSum(Sent(sent, pays, accepts)) == MapSum(sent) + Pushed(pays, accepts)
  {
    if pays != [] {
      var rest := pays[..|pays| - 1];
      var p := pays[|pays| - 1];
      SentTotal(sent, rest, accepts);
      var c := Sent(sent, rest, accepts);
      MapSumUpdate(c, p.0, CreditOf(c, p.0) + p.1);
    }
  }

  lemma {:induction false} HeldTotal(credit: map<Address, int>, pays: seq<Payment>, accepts: set<Address>)
    ensures MapSum(Held(credit, pays, accepts)) == MapSum(credit) + PaidTotal(pays) - Pushed(pays, accepts)
  {
    if pays != [] {
      var rest := pays[..|pays| - 1];
      var p := pays[|pays| - 1];
      HeldTotal(credit, rest, accepts);
      var c := Held(credit, rest, accepts);
      MapSumUpdate(c, p.0, CreditOf(c, p.0) + p.1);
    }
  }

  lemma {:induction false} HeldNonNegative(credit: map<Address, int>, pays: seq<Payment>, accepts: set<Address>)
    requires forall a :: a in credit ==> credit[a] >= 0
    ensures forall a :: a in Held(credit, pays, accepts) ==> Held(credit, pays, accepts)[a] >= 0
  {
    if pays != [] {
      HeldNonNegative(credit, pays[..|pays| - 1], accepts);
    }
  }

  lemma SentSnoc(pays: seq<Payment>, p: Payment, sent: map<Address, int>, accepts: set<Address>)
    ensures Sent(sent, pays + [p], accepts) == var c := Sent(sent, pays, accepts);
      if p.0 in accepts && p.1 != 0 then c[p.0 := CreditOf(c, p.0) + p.1] else c
  {
    assert (pays + [p])[..|pays|] == pays;
  }

  lemma PaymentsSnoc(pays: seq<Payment>, p: Payment, credit: map<Address, int>, accepts: set<Address>)
    ensures PaidTotal(pays + [p]) == PaidTotal(pays) + p.1
    ensures Pushed(pays + [p], accepts) == Pushed(pays, accepts) + if p.0 in accepts then p.1 else 0
    ensures Held(credit, pays + [p], accepts) == var c := Held(credit, pays, accepts);
      if p.0 in accepts || p.1 == 0 then c else c[p.0 := CreditOf(c, p.0) + p.1]
  {
    assert (pays + [p])[..|pays|] == pays;
  }

  // ---- Arbiter shares ----

  predicate Won(r: Round, a: Address, winner: nat) {
    a in r.votes && r.votes[a] == winner
  }

  function WeightOf(r: Round, a: Address): nat {
    if a in r.weights then r.weights[a] else 0
  }

  /** The stake behind the winning votes among `arbiters`. */
  function WinningWeight(r: Round, arbiters: seq<Address>, winner: nat): nat {
    if arbiters == [] then 0
    else
      var a := arbiters[|arbiters| - 1];
      WinningWeight(r, arbiters[..|arbiters| - 1], winner) + if Won(r, a, winner) then WeightOf(r, a) else 0
  }

  function ShareOfPot(r: Round, a: Address, pot: nat, total: nat): nat
    requires total > 0
  {
    pot * WeightOf(r, a) / total
  }

  /** The non-zero shares of the winning, payable arbiters, in panel order. */
  function Shares(r: Round, arbiters: seq<Address>, payable: set<Address>, winner: nat, pot: nat, total: nat): seq<Payment>
    requires total > 0
  {
    if arbiters == [] then []
    else
      var a := arbiters[|arbiters| - 1];
      Shares(r, arbiters[..|arbiters| - 1], payable, winner, pot, total)
      + if a in payable && Won(r, a, winner) && ShareOfPot(r, a, pot, total) > 0 then [(a, ShareOfPot(r, a, pot, total))] else []
  }

  lemma FloorShare(pot: nat, weight: nat, total: nat)
    requires total > 0
    ensures var s := pot * weight / total; s * total <= pot * weight < s * total + total
  {
  }

  /** One more arbiter of the panel. */
  lemma SharesNext(r: Round, i: nat, payable: set<Address>, winner: nat, pot: nat, total: nat)
    requires total > 0 && i < |r.arbiters|
    ensures Shares(r, r.arbiters[..i + 1], payable, winner, pot, total)
         == Shares(r, r.arbiters[..i], payable, winner, pot, total)
            + (var a := r.arbiters[i];
               if a in payable && Won(r, a, winner) && ShareOfPot(r, a, pot, total) > 0 then [(a, ShareOfPot(r, a, pot, total))]
               else [])
  {
    assert r.arbiters[..i + 1][..i] == r.arbiters[..i];
  }

  /** What one more arbiter adds to the payments. */
  function Taken(r: Round, a: Address, payable: set<Address>, winner: nat, pot: nat, total: nat): nat
    requires total > 0
  {
    if a in payable && Won(r, a, winner) then ShareOfPot(r, a, pot, total) else 0
  }

  lemma SharesSnoc(r: Round, arbiters: seq<Address>, payable: set<Address>, winner: nat, pot: nat, total: nat)
    requires total > 0 && arbiters != []
    ensures PaidTotal(Shares(r, arbiters, payable, winner, pot, total))
         == PaidTotal(Shares(r, arbiters[..|arbiters| - 1], payable, winner, pot, total))
            + Taken(r, arbiters[|arbiters| - 1], payable, winner, pot, total)
  {
    var a := arbiters[|arbiters| - 1];
    var paid := Shares(r, arbiters[..|arbiters| - 1], payable, winner, pot, total);
    PaymentsSnoc(paid, (a, ShareOfPot(r, a, pot, total)), map[], {});
    assert paid + [] == paid;
  }

  lemma TakenBounded(r: Round, a: Address, payable: set<Address>, winner: nat, pot: nat, total: nat)
    requires total > 0
    ensures Taken(r, a, payable, winner, pot, total) * total <= pot * (if Won(r, a, winner) then WeightOf(r, a) else 0)
  {
    FloorShare(pot, WeightOf(r, a), total);
  }

  /** The shares never exceed the pot's part that the weights stand for. */
  lemma {:induction false} SharesBounded(r: Round, arbiters: seq<Address>, payable: set<Address>, winner: nat, pot: nat, total: nat)
    requires total > 0
    ensures PaidTotal(Shares(r, arbiters, payable, winner, pot, total)) * total <= pot * WinningWeight(r, arbiters, winner)
  {
    if arbiters != [] {
      var rest := arbiters[..|arbiters| - 1];
      var a := arbiters[|arbiters| - 1];
      SharesBounded(r, rest, payable, winner, pot, total);
      SharesSnoc(r, arbiters, payable, winner, pot, total);
      TakenBounded(r, a, payable, winner, pot, total);
      AddBounds(PaidTotal(Shares(r, rest, payable, winner, pot, total)), Taken(r, a, payable, winner, pot, total), total,
                WinningWeight(r, rest, winner), if Won(r, a, winner) then WeightOf(r, a) else 0, pot);
    }
  }

  lemma AddBounds(paid: nat, taken: nat, total: nat, weight: nat, more: nat, pot: nat)
    requires paid * total <= pot * weight && taken * total <= pot * more
    ensures (paid + taken) * total <= pot * (weight + more)
  {
    assert (paid + taken) * total == paid * total + taken * total;
    assert pot * (weight + more) == pot * weight + pot * more;
  }

  lemma CancelTotal(paid: nat, pot: nat, total: nat, weight: nat)
    requires paid * total <= pot * weight && weight <= total && total > 0
    ensures paid <= pot
  {
    TimesMonotone(weight, total, pot);
    if paid > pot {
      TimesMonotone(pot + 1, paid, total);
    }
  }

  /** What the arbiters are paid never exceeds the pot. */
  lemma SharesFit(r: Round, arbiters: seq<Address>, payable: set<Address>, winner: nat, pot: nat, total: nat)
    requires total > 0 && WinningWeight(r, arbiters, winner) <= total
    ensures PaidTotal(Shares(r, arbiters, payable, winner, pot, total)) <= pot
  {
    SharesBounded(r, arbiters, payable, winner, pot, total);
    CancelTotal(PaidTotal(Shares(r, arbiters, payable, winner, pot, total)), pot, total, WinningWeight(r, arbiters, winner));
  }

  function WinnerCount(r: Round, arbiters: seq<Address>, winner: nat): nat {
    if arbiters == [] then 0
    else WinnerCount(r, arbiters[..|arbiters| - 1], winner) + if Won(r, arbiters[|arbiters| - 1], winner) then 1 else 0
  }

  /** Winners of that weight were paid all but less than one wei each. */
  predicate NearlyAll(pot: nat, weight: nat, paid: nat, n: nat, total: nat) {
    pot * weight <= (paid + n) * total && (n > 0 ==> pot * weight < (paid + n) * total)
  }

  lemma AddShortfall(paid: nat, n: nat, taken: nat, total: nat, weight: nat, more: nat, pot: nat)
    requires NearlyAll(pot, weight, paid, n, total) && pot * more < taken * total + total
    ensures NearlyAll(pot, weight + more, paid + taken, n + 1, total)
  {
    assert (paid + taken + (n + 1)) * total == (paid + n) * total + taken * total + total;
    assert pot * (weight + more) == pot * weight + pot * more;
  }

  /** When every winner is payable, rounding loses less than one wei per winner. */
  lemma {:induction false} SharesNearlyAll(r: Round, arbiters: seq<Address>, payable: set<Address>, winner: nat, pot: nat, total: nat)
    requires total > 0 && forall a :: a in arbiters ==> a in payable
    ensures NearlyAll(pot, WinningWeight(r, arbiters, winner), PaidTotal(Shares(r, arbiters, payable, winner, pot, total)),
                      WinnerCount(r, arbiters, winner), total)
  {
    if arbiters != [] {
      var rest := arbiters[..|arbiters| - 1];
      var a := arbiters[|arbiters| - 1];
      SharesNearlyAll(r, rest, payable, winner, pot, total);
      SharesSnoc(r, arbiters, payable, winner, pot, total);
      if Won(r, a, winner) {
        FloorShare(pot, WeightOf(r, a), total);
        AddShortfall(PaidTotal(Shares(r, rest, payable, winner, pot, total)), WinnerCount(r, rest, winner),
                     Taken(r, a, payable, winner, pot, total), total, WinningWeight(r, rest, winner), WeightOf(r, a), pot);
      }
    }
  }

  /** The dust of a fully payable pot is smaller than the number of winners. */
  lemma DustIsSmall(r: Round, arbiters: seq<Address>, payable: set<Address>, winner: nat, pot: nat)
    requires WinningWeight(r, arbiters, winner) > 0 && forall a :: a in arbiters ==> a in payable
    ensures var paid := PaidTotal(Shares(r, arbiters, payable, winner, pot, WinningWeight(r, arbiters, winner)));
      paid <= pot < paid + WinnerCount(r, arbiters, winner)
  {
    var total := WinningWeight(r, arbiters, winner);
    SharesFit(r, arbiters, payable, winner, pot, total);
    SharesNearlyAll(r, arbiters, payable, winner, pot, total);
    WeightNeedsWinner(r, arbiters, winner);
    var bound := PaidTotal(Shares(r, arbiters, payable, winner, pot, total)) + WinnerCount(r, arbiters, winner);
    if pot >= bound {
      TimesMonotone(bound, pot, total);
    }
  }

  lemma {:induction false} WeightNeedsWinner(r: Round, arbiters: seq<Address>, winner: nat)
    ensures WinningWeight(r, arbiters, winner) > 0 ==> WinnerCount(r, arbiters, winner) > 0
  {
    if arbiters != [] {
      WeightNeedsWinner(r, arbiters[..|arbiters| - 1], winner);
    }
  }

  /** What a ruling does with the amount. */
  datatype Award = Award(toFreelancer: nat, toClient: nat, fee: nat)

  function AwardOf(amount: nat, feeBps: nat, winner: nat): Award
    requires feeBps <= MAX_FEE_BPS
  {
    if winner == RELEASE then
      FeeIsPart(amount, feeBps);
      Award(amount - FeeOn(amount, feeBps), 0, FeeOn(amount, feeBps))
    else if winner == REFUND then Award(0, amount, 0)
    else
      FeeIsPart(amount / 2, feeBps);
      Award(amount / 2 - FeeOn(amount / 2, feeBps), amount - amount / 2, FeeOn(amount / 2, feeBps))
  }

  /** Every ruling distributes the amount to the last wei, and the fee is at most a twentieth of it. */
  lemma AwardIsExact(amount: nat, feeBps: nat, winner: nat)
    requires feeBps <= MAX_FEE_BPS
    ensures var a := AwardOf(amount, feeBps, winner);
      a.toFreelancer + a.toClient + a.fee == amount && 20 * a.fee <= amount
  {
  }

  function Panel(r: Round): set<Address> {
    set a | a in r.arbiters
  }

  /** The milestone fee of a ruling goes to the arbiters who voted for it. */
  function FeeShares(r: Round, winner: nat, fee: nat): seq<Payment> {
    var total := WinningWeight(r, r.arbiters, winner);
    if total == 0 then [] else Shares(r, r.arbiters, Panel(r), winner, fee, total)
  }

  /** The reward pot goes to the same arbiters, as far as they are still registered. */
  function RewardShares(r: Round, registered: set<Address>, winner: nat, pot: nat): seq<Payment> {
    var total := WinningWeight(r, r.arbiters, winner);
    Shares(r, r.arbiters, registered, winner, pot, if total == 0 then 1 else total)
  }

  lemma {:induction false} NoWeightNoShares(r: Round, arbiters: seq<Address>, payable: set<Address>, winner: nat, pot: nat)
    requires WinningWeight(r, arbiters, winner) == 0
    ensures Shares(r, arbiters, payable, winner, pot, 1) == []
  {
    if arbiters != [] {
      NoWeightNoShares(r, arbiters[..|arbiters| - 1], payable, winner, pot);
    }
  }

  lemma PotsSuffice(r: Round, registered: set<Address>, winner: nat, fee: nat, pot: nat)
    ensures PaidTotal(FeeShares(r, winner, fee)) <= fee
    ensures PaidTotal(RewardShares(r, registered, winner, pot)) <= pot
  {
    var total := WinningWeight(r, r.arbiters, winner);
    if total == 0 {
      NoWeightNoShares(r, r.arbiters, registered, winner, pot);
    } else {
      SharesFit(r, r.arbiters, Panel(r), winner, fee, total);
      SharesFit(r, r.arbiters, registered, winner, pot, total);
    }
  }

  /** The refunds of a first round that never reached its quorum. */
  function NoQuorumRefunds(m: Milestone): seq<Payment>
    requires m.dispute.Some?
  {
    [(m.dispute.value.openedBy, m.dispute.value.fee), (m.client, m.amount)]
  }

  lemma PaidTotalOfPair(p: Payment, q: Payment)
    ensures PaidTotal([p, q]) == p.1 + q.1 && PaidTotal([p]) == p.1
  {
    PaymentsSnoc([], p, map[], {});
    PaymentsSnoc([p], q, map[], {});
    assert [] + [p] == [p] && [p] + [q] == [p, q];
  }

  /** The refunds give back all that a disputed milestone still owes. */
  lemma RefundsAreOwed(m: Milestone)
    requires MilestoneOk(m) && m.status == Disputed
    ensures PaidTotal(NoQuorumRefunds(m)) == Owed(m)
  {
    PaidTotalOfPair(NoQuorumRefunds(m)[0], NoQuorumRefunds(m)[1]);
  }

  function Paid(m: Milestone, winner: nat): Milestone
    requires m.feeBps <= MAX_FEE_BPS
  {
    m.(status := SettledStatus(winner), claimable := AwardOf(m.amount, m.feeBps, winner).toFreelancer)
  }

  function ClientPayment(m: Milestone, winner: nat): seq<Payment>
    requires m.feeBps <= MAX_FEE_BPS
  {
    [(m.client, AwardOf(m.amount, m.feeBps, winner).toClient)]
  }

  /** The protocol's top-up: at most the pool, the set reward and a tenth of the amount. */
  function Subsidy(pool: int, reward: nat, amount: nat): int {
    var s := if pool < reward then pool else reward;
    if s > amount / 10 then amount / 10 else s
  }

  lemma PaidIsOk(m: Milestone, winner: nat)
    requires MilestoneOk(m) && m.status == Disputed && Current(m.dispute.value).resolved
    ensures MilestoneOk(Paid(m, winner)) && Evolves(m, Paid(m, winner))
    ensures Owed(Paid(m, winner)) == AwardOf(m.amount, m.feeBps, winner).toFreelancer
  {
  }

  lemma TalliedIsOk(m: Milestone)
    requires MilestoneOk(m) && m.status == Disputed
    ensures var n := m.(dispute := Some(Tally(m.dispute.value)));
      MilestoneOk(n) && Evolves(m, n) && Owed(n) == Owed(m)
    ensures var n := m.(dispute := Some(Tally(m.dispute.value)), status := ResolvedRefund);
      MilestoneOk(n) && Evolves(m, n) && Owed(n) == 0
  {
    var d := Tally(m.dispute.value);
    assert forall r :: r in d.rounds ==> r in m.dispute.value.rounds || r == Current(d);
  }

  /** Pushing or holding a list of payments moves the balance and the credits by exactly its total. */
  lemma PaymentsBalance(credit: map<Address, int>, pays: seq<Payment>, accepts: set<Address>)
    requires forall a :: a in credit ==> credit[a] >= 0
    ensures MapSum(Held(credit, pays, accepts)) == MapSum(credit) + PaidTotal(pays) - Pushed(pays, accepts)
    ensures forall a :: a in Held(credit, pays, accepts) ==> Held(credit, pays, accepts)[a] >= 0
  {
    HeldTotal(credit, pays, accepts);
    HeldNonNegative(credit, pays, accepts);
  }

  // ---- Who gets what ----

  /** The stake of those among `arbiters` who voted for a ruling. */
  ghost function StakeOf(r: Round, arbiters: seq<Address>, winner: nat): map<Address, int> {
    map a | a in arbiters && a in r.votes && r.votes[a] == winner :: (if a in r.weights then r.weights[a] else 0)
  }

  ghost function StakeBehind(r: Round, winner: nat): map<Address, int> {
    StakeOf(r, r.arbiters, winner)
  }

  lemma DistinctLast(s: seq<Address>, n: nat)
    requires Distinct(s) && n < |s|
    ensures Distinct(s[..n]) && s[n] !in s[..n]
    decreases |s|
  {
    if n > 0 {
      assert s[..n][1..] == s[1..][..n - 1];
      DistinctLast(s[1..], n - 1);
    }
  }

  lemma StakeSnoc(r: Round, rest: seq<Address>, a: Address, winner: nat)
    requires a !in rest
    ensures MapSum(StakeOf(r, rest + [a], winner)) == MapSum(StakeOf(r, rest, winner)) + if Won(r, a, winner) then WeightOf(r, a) else 0
  {
    var before, after := StakeOf(r, rest, winner), StakeOf(r, rest + [a], winner);
    if Won(r, a, winner) {
      assert after == before[a := WeightOf(r, a)];
      MapSumUpdate(before, a, WeightOf(r, a));
    } else {
      assert after == before;
    }
  }

  lemma {:induction false} WeightIsStake(r: Round, arbiters: seq<Address>, winner: nat)
    requires Distinct(arbiters)
    ensures WinningWeight(r, arbiters, winner) == MapSum(StakeOf(r, arbiters, winner))
  {
    if arbiters == [] {
      assert StakeOf(r, arbiters, winner) == map[];
    } else {
      var n := |arbiters| - 1;
      DistinctLast(arbiters, n);
      WeightIsStake(r, arbiters[..n], winner);
      StakeSnoc(r, arbiters[..n], arbiters[n], winner);
      assert arbiters == arbiters[..n] + [arbiters[n]];
    }
  }

  /** A pot shared by stake among those who voted for the ruling: everybody's floor. */
  ghost function ShareDue(r: Round, winner: nat, pot: nat, a: Address): nat {
    var total := MapSum(StakeBehind(r, winner));
    if a in StakeBehind(r, winner) && total > 0 && StakeBehind(r, winner)[a] >= 0 then pot * StakeBehind(r, winner)[a] / total else 0
  }

  lemma DueSnoc(pays: seq<Payment>, p: Payment, a: Address)
    ensures Due(pays + [p], a) == Due(pays, a) + if p.0 == a then p.1 else 0
  {
    assert (pays + [p])[..|pays|] == pays;
  }

  lemma {:induction false} DueOfShares(r: Round, arbiters: seq<Address>, payable: set<Address>, winner: nat, pot: nat, total: nat, a: Address)
    requires total > 0 && Distinct(arbiters)
    ensures Due(Shares(r, arbiters, payable, winner, pot, total), a)
         == if a in arbiters && a in payable && Won(r, a, winner) then ShareOfPot(r, a, pot, total) else 0
  {
    if arbiters != [] {
      var n := |arbiters| - 1;
      DistinctLast(arbiters, n);
      DueOfShares(r, arbiters[..n], payable, winner, pot, total, a);
      assert arbiters == arbiters[..n] + [arbiters[n]];
      var paid := Shares(r, arbiters[..n], payable, winner, pot, total);
      DueSnoc(paid, (arbiters[n], ShareOfPot(r, arbiters[n], pot, total)), a);
      assert paid + [] == paid;
    }
  }

  lemma DueOfPot(r: Round, payable: set<Address>, winner: nat, pot: nat, total: nat, a: Address)
    requires Distinct(r.arbiters) && total == WinningWeight(r, r.arbiters, winner)
    ensures Due(Shares(r, r.arbiters, payable, winner, pot, if total == 0 then 1 else total), a)
         == if a in payable then ShareDue(r, winner, pot, a) else 0
  {
    WeightIsStake(r, r.arbiters, winner);
    if total == 0 {
      NoWeightNoShares(r, r.arbiters, payable, winner, pot);
    } else {
      DueOfShares(r, r.arbiters, payable, winner, pot, total, a);
    }
  }

  /** Everybody's part of a shared pot, among those who can be paid. */
  ghost function ShareMap(r: Round, arbiters: seq<Address>, payable: set<Address>, winner: nat, pot: nat, total: nat): map<Address, int>
    requires total > 0
  {
    map a | a in arbiters && a in payable :: if Won(r, a, winner) then ShareOfPot(r, a, pot, total) else 0
  }

  lemma ShareMapSnoc(r: Round, rest: seq<Address>, a: Address, payable: set<Address>, winner: nat, pot: nat, total: nat)
    requires total > 0 && a !in rest
    ensures MapSum(ShareMap(r, rest + [a], payable, winner, pot, total))
         == MapSum(ShareMap(r, rest, payable, winner, pot, total)) + Taken(r, a, payable, winner, pot, total)
  {
    var before, after := ShareMap(r, rest, payable, winner, pot, total), ShareMap(r, rest + [a], payable, winner, pot, total);
    if a in payable {
      assert after == before[a := Taken(r, a, payable, winner, pot, total)];
      MapSumUpdate(before, a, Taken(r, a, payable, winner, pot, total));
    } else {
      assert after == before;
    }
  }

  lemma {:induction false} SharesTotal(r: Round, arbiters: seq<Address>, payable: set<Address>, winner: nat, pot: nat, total: nat)
    requires total > 0 && Distinct(arbiters)
    ensures PaidTotal(Shares(r, arbiters, payable, winner, pot, total)) == MapSum(ShareMap(r, arbiters, payable, winner, pot, total))
  {
    if arbiters == [] {
      assert ShareMap(r, arbiters, payable, winner, pot, total) == map[];
    } else {
      var n := |arbiters| - 1;
      DistinctLast(arbiters, n);
      SharesTotal(r, arbiters[..n], payable, winner, pot, total);
      SharesSnoc(r, arbiters, payable, winner, pot, total);
      ShareMapSnoc(r, arbiters[..n], arbiters[n], payable, winner, pot, total);
      assert arbiters == arbiters[..n] + [arbiters[n]];
    }
  }

  /** The parts of a pot shared by stake among those of `payable` who voted for the ruling. */
  ghost function PartsOf(r: Round, payable: set<Address>, winner: nat, pot: nat): map<Address, int> {
    map a | a in r.arbiters && a in payable :: ShareDue(r, winner, pot, a)
  }

  lemma PartIsShare(r: Round, winner: nat, pot: nat, total: nat, divisor: nat, a: Address)
    requires a in r.arbiters && total == WinningWeight(r, r.arbiters, winner) == MapSum(StakeBehind(r, winner))
    requires divisor == if total == 0 then 1 else total
    ensures ShareDue(r, winner, pot, a) == if Won(r, a, winner) then ShareOfPot(r, a, pot, divisor) else 0
  {
    if total == 0 && Won(r, a, winner) { WeightlessIsNothing(r, r.arbiters, winner, a); }
  }

  lemma PartsTotal(r: Round, payable: set<Address>, winner: nat, pot: nat, total: nat)
    requires Distinct(r.arbiters) && total == WinningWeight(r, r.arbiters, winner)
    ensures PaidTotal(Shares(r, r.arbiters, payable, winner, pot, if total == 0 then 1 else total)) == MapSum(PartsOf(r, payable, winner, pot))
  {
    var divisor := if total == 0 then 1 else total;
    SharesTotal(r, r.arbiters, payable, winner, pot, divisor);
    WeightIsStake(r, r.arbiters, winner);
    var parts, shares := PartsOf(r, payable, winner, pot), ShareMap(r, r.arbiters, payable, winner, pot, divisor);
    forall a | a in parts
      ensures parts[a] == shares[a]
    {
      PartIsShare(r, winner, pot, total, divisor, a);
    }
    assert parts == shares;
  }

  lemma {:induction false} WeightlessIsNothing(r: Round, arbiters: seq<Address>, winner: nat, a: Address)
    requires WinningWeight(r, arbiters, winner) == 0 && a in arbiters && Won(r, a, winner)
    ensures WeightOf(r, a) == 0
  {
    var n := |arbiters| - 1;
    if arbiters[n] != a { WeightlessIsNothing(r, arbiters[..n], winner, a); }
  }

  /** What a ruling takes off the client: all, nothing, or half of it without the odd wei. */
  function TakenFromClient(amount: nat, winner: nat): nat {
    if winner == 0 then amount else if winner == 1 then 0 else amount / 2
  }

  lemma AwardByRuling(amount: nat, feeBps: nat, winner: nat)
    requires feeBps <= MAX_FEE_BPS
    ensures var a := AwardOf(amount, feeBps, winner);
      && a.toClient == amount - TakenFromClient(amount, winner)
      && a.toFreelancer + a.fee == TakenFromClient(amount, winner)
      && IsFee(a.fee, TakenFromClient(amount, winner), feeBps)
  {
    FeeIsFloor(FeeOn(TakenFromClient(amount, winner), feeBps), TakenFromClient(amount, winner), feeBps);
  }

  /** The milestone after a ruling was executed: settled by its outcome, the freelancer's part less the fee claimable. */
  predicate Ruled(m: Milestone, n: Milestone, winner: nat) {
    && n == m.(status := n.status, claimable := n.claimable)
    && n.status == (if winner == 0 then ResolvedRelease else if winner == 1 then ResolvedRefund else ResolvedSplit)
    && n.claimable <= TakenFromClient(m.amount, winner)
    && IsFee(TakenFromClient(m.amount, winner) - n.claimable, TakenFromClient(m.amount, winner), m.feeBps)
  }

  /** The opener's and appellants' fees, topped up by at most the pool, the set reward and a tenth of the amount. */
  predicate IsPot(pot: nat, fees: nat, pool: int, reward: nat, amount: nat) {
    var extra := pot - fees;
    && extra <= pool && extra <= reward && 10 * extra <= amount
    && (extra == pool || extra == reward || 10 * (extra + 1) > amount)
  }

  lemma SubsidyIsLeast(fees: nat, pool: int, reward: nat, amount: nat)
    requires pool >= 0
    ensures Subsidy(pool, reward, amount) >= 0 && IsPot(fees + Subsidy(pool, reward, amount), fees, pool, reward, amount)
  {
  }

  /** What one address is due when a ruling is executed: as client, for the milestone fee, and as a registered arbiter for the pot. */
  ghost function RulingDue(m: Milestone, winner: nat, fee: nat, pot: nat, registered: set<Address>, a: Address): nat
    requires m.dispute.Some? && Shaped(m.dispute.value)
  {
    var r := Current(m.dispute.value);
    (if a == m.client then m.amount - TakenFromClient(m.amount, winner) else 0)
    + ShareDue(r, winner, fee, a) + (if a in registered then ShareDue(r, winner, pot, a) else 0)
  }

  /** Two payments, possibly to one address. */
  function PairDue(to: Address, amount: nat, other: Address, rest: nat, a: Address): nat {
    (if a == to then amount else 0) + if a == other then rest else 0
  }

  lemma DueOfOne(p: Payment, a: Address)
    ensures Due([p], a) == if p.0 == a then p.1 else 0
  {
    DueSnoc([], p, a);
    assert [] + [p] == [p];
  }

  /** Without a quorum the client gets the amount back, and the opener the fee. */
  function RefundDue(m: Milestone, a: Address): nat
    requires m.dispute.Some?
  {
    (if a == m.client then m.amount else 0) + if a == m.dispute.value.openedBy then m.dispute.value.fee else 0
  }

  lemma RefundsReach(m: Milestone, a: Address)
    requires m.dispute.Some?
    ensures Due(NoQuorumRefunds(m), a) == RefundDue(m, a)
  {
    var p, q := (m.dispute.value.openedBy, m.dispute.value.fee), (m.client, m.amount);
    DueOfOne(p, a);
    DueSnoc([p], q, a);
    assert [p] + [q] == NoQuorumRefunds(m);
  }

  /** The three payouts of a ruling together. */
  lemma RulingReaches(m: Milestone, registered: set<Address>, pot: nat, a: Address)
    requires m.dispute.Some? && Wired(m.dispute.value) && m.feeBps <= MAX_FEE_BPS
    ensures var r := Current(m.dispute.value);
      var fee := AwardOf(m.amount, m.feeBps, r.winner).fee;
      Due(FeeShares(r, r.winner, fee), a) + Due(ClientPayment(m, r.winner), a) + Due(RewardShares(r, registered, r.winner, pot), a)
        == RulingDue(m, r.winner, fee, pot, registered, a)
  {
    var r := Current(m.dispute.value);
    var fee := AwardOf(m.amount, m.feeBps, r.winner).fee;
    var total := WinningWeight(r, r.arbiters, r.winner);
    AwardByRuling(m.amount, m.feeBps, r.winner);
    DueOfOne(ClientPayment(m, r.winner)[0], a);
    DueOfPot(r, Panel(r), r.winner, fee, total, a);
    DueOfPot(r, registered, r.winner, pot, total, a);
    if total == 0 { NoWeightNoShares(r, r.arbiters, Panel(r), r.winner, fee); }
  }

  /** Three lists of payments, one after the other. */
  lemma ThreeReach(credit: map<Address, int>, sent: map<Address, int>, p: seq<Payment>, q: seq<Payment>, r: seq<Payment>,
                   accepts: set<Address>, a: Address)
    ensures Gets(credit, sent, Held(Held(Held(credit, p, accepts), q, accepts), r, accepts),
                 Sent(Sent(Sent(sent, p, accepts), q, accepts), r, accepts), accepts, a, Due(p, a) + Due(q, a) + Due(r, a))
  {
    PaymentsReach(credit, sent, p, accepts, a);
    PaymentsReach(Held(credit, p, accepts), Sent(sent, p, accepts), q, accepts, a);
    PaymentsReach(Held(Held(credit, p, accepts), q, accepts), Sent(Sent(sent, p, accepts), q, accepts), r, accepts, a);
  }

  // ---- History ----

  /** What may happen to one milestone over time. */
  predicate Evolves(m: Milestone, n: Milestone) {
    && n.client == m.client && n.freelancer == m.freelancer && n.amount == m.amount && n.feeBps == m.feeBps && n.job == m.job
    && Later(m.status, n.status)
    && (IsTerminal(m.status) ==> n.claimable == m.claimable || n.claimable == 0)
  }

  ghost predicate History(ms: seq<Milestone>, ns: seq<Milestone>) {
    |ms| <= |ns| && forall i :: 0 <= i < |ms| ==> Evolves(ms[i], ns[i])
  }

  /**
   * Between any two points of any run: a settled milestone never changes status
   * again, and one that was disputed is never approved or cancelled.
   */
  lemma HistoryTransitive(ms: seq<Milestone>, ns: seq<Milestone>, os: seq<Milestone>)
    requires History(ms, ns) && History(ns, os)
    ensures History(ms, os)
    ensures forall i :: 0 <= i < |ms| && IsTerminal(ms[i].status) ==> os[i].status == ms[i].status
    ensures forall i :: 0 <= i < |ms| && IsArbitrated(ms[i].status) ==> IsArbitrated(os[i].status)
  {
    forall i | 0 <= i < |ms|
      ensures Evolves(ms[i], os[i])
    {
      assert Evolves(ms[i], ns[i]) && Evolves(ns[i], os[i]);
      LaterIsReachability(ms[i].status, ns[i].status, os[i].status);
    }
  }
}
