/**
 * The escrow contract (apps/contracts/contracts/Escrow.sol). Every external call
 * is one method: it returns whether the call went through, and a call that
 * reverts changes nothing. `accepts` is the set of recipients that take a pushed
 * payment; `now` is the block timestamp.
 */
module Escrow {
  import opened Basics
  import opened Milestones
  import opened Arbitration
  import opened ArbiterDraw
  import opened EscrowBooks
  import opened Fees

  class Escrow {
    var balance: int
    var milestones: seq<Milestone>
    var budgets: map<nat, Budget>
    var accruedFees: int
    var rewardPool: int
    var credit: map<Address, int>
    var totalCredit: int
    /** What each address was sent so far. */
    var sent: map<Address, int>
    var feeBps: nat
    var disputeFee: nat
    var disputeReward: nat
    var treasury: Address
    var sponsorshipWallet: Address
    const owner: Address
    const windows: Windows

    /** The balance is exactly what the contract owes. */
    ghost predicate Solvent()
      reads this
    {
      balance == Liabilities(milestones, budgets, accruedFees, rewardPool, totalCredit)
    }

    ghost predicate CreditOk()
      reads this
    {
      totalCredit == MapSum(credit) && forall a :: a in credit ==> credit[a] >= 0
    }

    ghost predicate Valid()
      reads this
    {
      && BooksOk(milestones, budgets)
      && CreditOk()
      && feeBps <= MAX_FEE_BPS && accruedFees >= 0 && rewardPool >= 0
      && Solvent()
    }

    constructor (owner: Address, feeBps: nat, disputeFee: nat, treasury: Address, windows: Windows)
      requires feeBps <= MAX_FEE_BPS
      ensures Valid() && milestones == [] && balance == 0 && sent == map[]
    {
      this.owner, this.feeBps, this.disputeFee, this.windows := owner, feeBps, disputeFee, windows;
      this.treasury, this.sponsorshipWallet, this.disputeReward := treasury, treasury, 0;
      balance, milestones, budgets, accruedFees, rewardPool := 0, [], map[], 0, 0;
      credit, totalCredit, sent := map[], 0, map[];
      new;
      assert sent == map[];
      assert Valid() by { NewIsValid(); }
    }

    /** A new contract owes nothing. */
    lemma NewIsValid()
      requires milestones == [] && budgets == map[] && balance == accruedFees == rewardPool == totalCredit == 0
      requires credit == map[] && feeBps <= MAX_FEE_BPS
      ensures Valid()
    {
      EmptyBooks(milestones, budgets);
      EmptyMapSum(credit);
    }

    predicate Known(id: nat)
      reads this
    {
      1 <= id <= |milestones|
    }

    function At(id: nat): Milestone
      requires Known(id)
      reads this
    {
      milestones[id - 1]
    }

    // ---- Funding ----

    /** The checks every new milestone passes. */
    static predicate Fundable(client: Address, freelancer: Address, amount: nat) {
      amount != 0 && freelancer != ZERO_ADDRESS && freelancer != client
    }

    /** Ids count from one. */
    method Fund(sender: Address, freelancer: Address, value: nat) returns (ok: bool, id: nat)
      requires Valid()
      modifies this`milestones, this`balance
      ensures Valid() && History(old(milestones), milestones)
      ensures !ok ==> unchanged(this)
      ensures ok <==> value != 0 && freelancer != 0 && freelancer != sender
      ensures ok ==> id == old(|milestones|) + 1 && Known(id) && milestones == old(milestones) + [At(id)]
      ensures ok ==> IsNew(At(id), sender, freelancer, value, feeBps, 0) && balance == old(balance) + value
    {
      id := |milestones| + 1;
      if !Fundable(sender, freelancer, value) { return false, id; }
      var m := NewMilestone(sender, freelancer, value, feeBps, NO_JOB);
      BooksAppend(milestones, budgets, m);
      milestones, balance := milestones + [m], balance + value;
      return true, id;
    }

    /** A spent key may be locked again, by its first locker only. */
    method LockBudget(sender: Address, job: nat, value: nat) returns (ok: bool)
      requires Valid()
      modifies this`budgets, this`balance
      ensures Valid() && History(old(milestones), milestones)
      ensures !ok ==> unchanged(this)
      ensures ok <==> value != 0 && (BudgetOf(old(budgets), job).locked != 0 ==>
        BudgetOf(old(budgets), job).paidOut == BudgetOf(old(budgets), job).locked && BudgetOf(old(budgets), job).locker == sender)
      ensures ok ==> budgets == old(budgets)[job := Budget(value, 0, 0, sender)]
      ensures ok ==> balance == old(balance) + value && milestones == old(milestones)
    {
      var b := BudgetOf(budgets, job);
      if value == 0 { return false; }
      if b.locked != 0 {
        if b.paidOut != b.locked { return false; }
        if b.locker != sender { return false; }
      }
      assert BudgetOk(b);
      BooksBudget(milestones, budgets, job, Budget(value, b.reserved, 0, sender));
      budgets := budgets[job := Budget(value, b.reserved, 0, sender)];
      balance := balance + value;
      return true;
    }

    method FundFromCredit(sender: Address, job: nat, freelancer: Address, amount: nat) returns (ok: bool)
      requires Valid()
      modifies this`milestones, this`budgets
      ensures Valid() && History(old(milestones), milestones)
      ensures !ok ==> unchanged(this)
      ensures var b := BudgetOf(old(budgets), job);
        ok <==> (b.locker != 0 && sender == b.locker && b.paidOut + b.reserved + amount <= b.locked
                 && amount != 0 && freelancer != 0 && freelancer != sender)
      ensures ok ==> |milestones| == old(|milestones|) + 1 && old(milestones) <= milestones
      ensures ok ==> IsNew(milestones[old(|milestones|)], sender, freelancer, amount, feeBps, job) && balance == old(balance)
      ensures ok ==> var b := BudgetOf(old(budgets), job);
        budgets == old(budgets)[job := Budget(b.locked, b.reserved + amount, b.paidOut, b.locker)]
    {
      var b := BudgetOf(budgets, job);
      if b.locker == ZERO_ADDRESS || sender != b.locker || amount > Free(b) || !Fundable(sender, freelancer, amount) {
        return false;
      }
      var m := NewMilestone(sender, freelancer, amount, feeBps, job);
      assert Total([m], OwedOf()) == amount;
      var drawn := b.(reserved := b.reserved + amount);
      BooksDraw(milestones, budgets, [m], job, drawn);
      milestones, budgets := milestones + [m], budgets[job := drawn];
      return true;
    }

    /** The milestones of one award. */
    static function Batch(client: Address, freelancers: seq<Address>, amounts: seq<nat>, feeBps: nat, job: nat): (ms: seq<Milestone>)
      requires |freelancers| == |amounts|
      ensures |ms| == |amounts|
    {
      if amounts == [] then []
      else
        var n := |amounts| - 1;
        Batch(client, freelancers[..n], amounts[..n], feeBps, job) + [NewMilestone(client, freelancers[n], amounts[n], feeBps, job)]
    }

    static lemma {:induction false} BatchAt(client: Address, freelancers: seq<Address>, amounts: seq<nat>, feeBps: nat, job: nat, i: nat)
      requires |freelancers| == |amounts| && i < |amounts|
      ensures IsNew(Batch(client, freelancers, amounts, feeBps, job)[i], client, freelancers[i], amounts[i], feeBps, job)
      decreases |amounts|
    {
      var n := |amounts| - 1;
      if i < n { BatchAt(client, freelancers[..n], amounts[..n], feeBps, job, i); }
    }

    /** The milestones from `from` on are those of one award. */
    static ghost predicate AreAwarded(ms: seq<Milestone>, from: nat, client: Address, freelancers: seq<Address>, amounts: seq<nat>, feeBps: nat, job: nat)
      requires |freelancers| == |amounts|
    {
      |ms| == from + |amounts|
      && forall i :: 0 <= i < |amounts| ==> IsNew(ms[from + i], client, freelancers[i], amounts[i], feeBps, job)
    }

    static lemma BatchIsAwarded(before: seq<Milestone>, client: Address, freelancers: seq<Address>, amounts: seq<nat>, feeBps: nat, job: nat)
      requires |freelancers| == |amounts|
      ensures AreAwarded(before + Batch(client, freelancers, amounts, feeBps, job), |before|, client, freelancers, amounts, feeBps, job)
    {
      forall i | 0 <= i < |amounts|
        ensures IsNew((before + Batch(client, freelancers, amounts, feeBps, job))[|before| + i], client, freelancers[i], amounts[i], feeBps, job)
      {
        BatchAt(client, freelancers, amounts, feeBps, job, i);
      }
    }

    static predicate BatchFundable(client: Address, freelancers: seq<Address>, amounts: seq<nat>) {
      && |amounts| > 0 && |freelancers| == |amounts|
      && forall i :: 0 <= i < |amounts| ==> Fundable(client, freelancers[i], amounts[i])
    }

    /** One more milestone of a batch. */
    static lemma BatchNext(client: Address, freelancers: seq<Address>, amounts: seq<nat>, feeBps: nat, job: nat, i: nat)
      requires |freelancers| == |amounts| && i < |amounts|
      ensures Batch(client, freelancers[..i + 1], amounts[..i + 1], feeBps, job)
        == Batch(client, freelancers[..i], amounts[..i], feeBps, job) + [NewMilestone(client, freelancers[i], amounts[i], feeBps, job)]
      ensures Sum(amounts[..i + 1]) == Sum(amounts[..i]) + amounts[i]
    {
      assert amounts[..i + 1][..i] == amounts[..i] && freelancers[..i + 1][..i] == freelancers[..i];
      assert amounts[..i + 1] == amounts[..i] + [amounts[i]];
      SumAppend(amounts[..i], [amounts[i]]);
    }

    /** Milestones ready to be drawn, worth `total`. */
    static ghost predicate Drawable(created: seq<Milestone>, job: nat, total: int) {
      FreshBatch(created, job) && Total(created, OwedOf()) == total
    }

    static lemma DrawableNext(created: seq<Milestone>, job: nat, total: int, m: Milestone)
      requires Drawable(created, job, total) && FreshBatch([m], job) && Owed(m) == m.amount
      ensures Drawable(created + [m], job, total + m.amount)
    {
      TotalAppend(created, m, OwedOf());
      assert [m][0] == m;
    }

    /** What the loop over the batch has built from its first `i` entries. */
    static ghost predicate Built(created: seq<Milestone>, total: nat, refused: bool, client: Address, freelancers: seq<Address>,
                                 amounts: seq<nat>, feeBps: nat, job: nat, i: nat)
      requires |freelancers| == |amounts| && i <= |amounts|
    {
      && created == Batch(client, freelancers[..i], amounts[..i], feeBps, job) && total == Sum(amounts[..i])
      && (refused <==> exists k :: 0 <= k < i && !Fundable(client, freelancers[k], amounts[k]))
      && (!refused ==> Drawable(created, job, total))
    }

    static lemma BuiltNext(created: seq<Milestone>, total: nat, refused: bool, client: Address, freelancers: seq<Address>,
                           amounts: seq<nat>, feeBps: nat, job: nat, i: nat)
      requires |freelancers| == |amounts| && i < |amounts| && feeBps <= MAX_FEE_BPS
      requires Built(created, total, refused, client, freelancers, amounts, feeBps, job, i)
      ensures Built(created + [NewMilestone(client, freelancers[i], amounts[i], feeBps, job)], total + amounts[i],
                    refused || !Fundable(client, freelancers[i], amounts[i]), client, freelancers, amounts, feeBps, job, i + 1)
    {
      BatchNext(client, freelancers, amounts, feeBps, job, i);
      if !refused && Fundable(client, freelancers[i], amounts[i]) {
        DrawableNext(created, job, total, NewMilestone(client, freelancers[i], amounts[i], feeBps, job));
      }
    }

    /** The loop over the batch: the milestones to create and their total. */
    static method BuildBatch(client: Address, freelancers: seq<Address>, amounts: seq<nat>, feeBps: nat, job: nat)
      returns (created: seq<Milestone>, total: nat, refused: bool)
      requires |freelancers| == |amounts| && feeBps <= MAX_FEE_BPS
      ensures created == Batch(client, freelancers, amounts, feeBps, job) && total == Sum(amounts)
      ensures refused <==> exists k :: 0 <= k < |amounts| && !Fundable(client, freelancers[k], amounts[k])
      ensures !refused ==> Drawable(created, job, total)
    {
      created, total, refused := [], 0, false;
      for i := 0 to |amounts|
        invariant Built(created, total, refused, client, freelancers, amounts, feeBps, job, i)
      {
        BuiltNext(created, total, refused, client, freelancers, amounts, feeBps, job, i);
        created := created + [NewMilestone(client, freelancers[i], amounts[i], feeBps, job)];
        total, refused := total + amounts[i], refused || !Fundable(client, freelancers[i], amounts[i]);
      }
      assert amounts[..|amounts|] == amounts && freelancers[..|amounts|] == freelancers;
    }

    /** Drawing a batch keeps the books and owes `value` more; the first draw for a job locks exactly the batch. */
    static lemma DrawKeepsBooks(ms: seq<Milestone>, budgets: map<nat, Budget>, created: seq<Milestone>, job: nat, b: Budget, next: Budget,
                                total: nat, value: nat, fees: int, pool: int, held: int)
      requires BooksOk(ms, budgets) && Drawable(created, job, total) && b == BudgetOf(budgets, job)
      requires if b.locked == 0 then value == total else value == 0 && total <= Free(b)
      requires next.locked == (if b.locked == 0 then total else b.locked) && next.reserved == b.reserved + total && next.paidOut == b.paidOut
      ensures BooksOk(ms + created, budgets[job := next]) && History(ms, ms + created)
      ensures Liabilities(ms + created, budgets[job := next], fees, pool, held) == Liabilities(ms, budgets, fees, pool, held) + value
    {
      assert BudgetOk(b);
      BooksDraw(ms, budgets, created, job, next);
    }

    /** Draws a batch worth `total`: the first for a job locks exactly that, a later one takes it from the free balance. */
    method DrawBatch(sender: Address, job: nat, created: seq<Milestone>, total: nat, value: nat) returns (ok: bool)
      requires Valid() && Drawable(created, job, total)
      modifies this`milestones, this`budgets, this`balance
      ensures Valid() && History(old(milestones), milestones)
      ensures !ok ==> unchanged(this)
      ensures var b := BudgetOf(old(budgets), job);
        ok <==> if b.locked == 0 then value == total else value == 0 && sender == b.locker && total <= Free(b)
      ensures ok ==> milestones == old(milestones) + created
      ensures ok ==> balance == old(balance) + value
      ensures ok ==> var b := BudgetOf(old(budgets), job);
        budgets == old(budgets)[job :=
          Budget(if b.locked == 0 then total else b.locked, b.reserved + total, b.paidOut, if b.locked == 0 then sender else b.locker)]
      ensures feeBps == old(feeBps)
    {
      var b := BudgetOf(budgets, job);
      if b.locked == 0 {
        if value != total { return false; }
      } else {
        if value != 0 || sender != b.locker || total > Free(b) { return false; }
      }
      var next := Budget(if b.locked == 0 then total else b.locked, b.reserved + total, b.paidOut, if b.locked == 0 then sender else b.locker);
      DrawKeepsBooks(milestones, budgets, created, job, b, next, total, value, accruedFees, rewardPool, totalCredit);
      milestones, budgets, balance := milestones + created, budgets[job := next], balance + value;
      return true;
    }

    /**
     * The award: a first call for a job locks exactly the batch total; a later one
     * draws it from the free balance. All or nothing.
     */
    method FundAllFromCredit(sender: Address, job: nat, freelancers: seq<Address>, amounts: seq<nat>, value: nat)
      returns (ok: bool)
      requires Valid()
      modifies this`milestones, this`budgets, this`balance
      ensures Valid() && History(old(milestones), milestones)
      ensures !ok ==> unchanged(this)
      ensures ok <==> (
        && |amounts| > 0 && |freelancers| == |amounts|
        && (forall i :: 0 <= i < |amounts| ==> amounts[i] != 0 && freelancers[i] != 0 && freelancers[i] != sender)
        && var b := BudgetOf(old(budgets), job);
           if b.locked == 0 then value == Sum(amounts)
           else value == 0 && sender == b.locker && b.paidOut + b.reserved + Sum(amounts) <= b.locked)
      ensures ok ==> old(milestones) <= milestones && balance == old(balance) + value
      ensures ok ==> AreAwarded(milestones, old(|milestones|), sender, freelancers, amounts, feeBps, job)
      ensures ok ==> Sum(amounts) >= 0 && var b := BudgetOf(old(budgets), job);
        budgets == old(budgets)[job := Budget(if b.locked == 0 then Sum(amounts) else b.locked, b.reserved + Sum(amounts), b.paidOut,
                                              if b.locked == 0 then sender else b.locker)]
    {
      if |amounts| == 0 || |freelancers| != |amounts| { return false; }
      var created, total, refused := BuildBatch(sender, freelancers, amounts, feeBps, job);
      if refused { return false; }
      BatchIsAwarded(milestones, sender, freelancers, amounts, feeBps, job);
      ok := DrawBatch(sender, job, created, total, value);
    }

    method UnlockBudget(sender: Address, job: nat, amount: nat, accepts: set<Address>) returns (ok: bool)
      requires Valid()
      modifies this`budgets, this`balance, this`sent
      ensures Valid() && History(old(milestones), milestones)
      ensures !ok ==> unchanged(this)
      ensures var b := BudgetOf(old(budgets), job);
        ok <==> b.locker != 0 && sender == b.locker && amount != 0 && b.paidOut + b.reserved + amount <= b.locked && sender in accepts
      ensures ok ==> Paid1(old(balance), old(sent), sender, amount)
      ensures ok ==> var b := BudgetOf(old(budgets), job);
        budgets == old(budgets)[job := Budget(b.locked, b.reserved, b.paidOut + amount, b.locker)]
    {
      var b := BudgetOf(budgets, job);
      if b.locker == ZERO_ADDRESS || sender != b.locker || amount == 0 || amount > Free(b) || sender !in accepts {
        return false;
      }
      BooksBudget(milestones, budgets, job, b.(paidOut := b.paidOut + amount));
      budgets := budgets[job := b.(paidOut := b.paidOut + amount)];
      Pay(sender, amount);
      return true;
    }

    /** One payment went out, to `to` and nobody else. */
    predicate Paid1(was: int, before: map<Address, int>, to: Address, amount: nat)
      reads this
    {
      balance == was - amount && sent == before[to := CreditOf(before, to) + amount]
    }

    /** Pushes a payment that the recipient takes. */
    method Pay(to: Address, amount: nat)
      modifies this`balance, this`sent
      ensures Paid1(old(balance), old(sent), to, amount)
    {
      balance, sent := balance - amount, sent[to := CreditOf(sent, to) + amount];
    }

    // ---- Happy path ----

    method Submit(sender: Address, id: nat) returns (ok: bool)
      requires Valid()
      modifies this`milestones
      ensures Valid() && History(old(milestones), milestones)
      ensures !ok ==> unchanged(this)
      ensures ok <==> old(Known(id)) && sender == old(At(id)).freelancer && old(At(id)).status == Funded
      ensures ok ==> milestones == old(milestones)[id - 1 := old(At(id)).(status := Submitted)] && balance == old(balance)
    {
      if !Known(id) || sender != At(id).freelancer || At(id).status != Funded { return false; }
      BooksReplace(milestones, budgets, id - 1, At(id).(status := Submitted));
      milestones := milestones[id - 1 := At(id).(status := Submitted)];
      return true;
    }

    /** What the contract owes on account of milestones and budgets. */
    ghost function Owing(): int
      reads this
    {
      Total(milestones, OwedOf()) + MapSum(FreeOf(budgets))
    }

    /** A live milestone ends as `n`, and its budget with it. */
    method Settle(id: nat, n: Milestone)
      requires BooksOk(milestones, budgets) && Known(id) && IsLive(At(id).status) && !IsLive(n.status)
      requires MilestoneOk(n) && Evolves(At(id), n)
      modifies this`milestones, this`budgets
      ensures BooksOk(milestones, budgets) && History(old(milestones), milestones)
      ensures milestones == old(milestones)[id - 1 := n] && Settles(old(budgets), budgets, old(At(id)))
      ensures Owing() == old(Owing()) - Owed(old(At(id))) + Owed(n)
    {
      BooksSettle(milestones, budgets, id - 1, n);
      milestones, budgets := milestones[id - 1 := n], SettleBudget(budgets, At(id));
    }

    method Approve(sender: Address, id: nat) returns (ok: bool)
      requires Valid()
      modifies this`milestones, this`budgets, this`accruedFees
      ensures Valid() && History(old(milestones), milestones)
      ensures !ok ==> unchanged(this)
      ensures ok <==> old(Known(id)) && sender == old(At(id)).client && old(At(id)).status == Submitted
      ensures ok ==> var m := old(At(id));
        && accruedFees >= old(accruedFees) && IsFee(accruedFees - old(accruedFees), m.amount, m.feeBps)
        && accruedFees - old(accruedFees) <= m.amount
        && milestones == old(milestones)[id - 1 := m.(status := Released, claimable := m.amount - (accruedFees - old(accruedFees)))]
        && Settles(old(budgets), budgets, m)
    {
      if !Known(id) || sender != At(id).client || At(id).status != Submitted { return false; }
      var m := At(id);
      assert MilestoneOk(m);
      var fee := FeeOn(m.amount, m.feeBps);
      FeeIsPart(m.amount, m.feeBps);
      FeeIsFloor(fee, m.amount, m.feeBps);
      Settle(id, m.(status := Released, claimable := m.amount - fee));
      accruedFees := accruedFees + fee;
      return true;
    }

    method WithdrawMilestone(sender: Address, id: nat, accepts: set<Address>) returns (ok: bool)
      requires Valid()
      modifies this`milestones, this`balance, this`sent
      ensures Valid() && History(old(milestones), milestones)
      ensures !ok ==> unchanged(this)
      ensures ok <==> (old(Known(id)) && sender == old(At(id)).freelancer && old(At(id)).claimable != 0 && sender in accepts
                       && old(At(id)).status in {Released, ResolvedRelease, ResolvedSplit})
      ensures ok ==> milestones == old(milestones)[id - 1 := old(At(id)).(claimable := 0)]
      ensures ok ==> Paid1(old(balance), old(sent), old(At(id)).freelancer, old(At(id)).claimable)
    {
      if !Known(id) || sender != At(id).freelancer || !PaysOut(At(id).status) || At(id).claimable == 0 || sender !in accepts {
        return false;
      }
      var m := At(id);
      BooksReplace(milestones, budgets, id - 1, m.(claimable := 0));
      milestones := milestones[id - 1 := m.(claimable := 0)];
      Pay(m.freelancer, m.claimable);
      return true;
    }

    method Cancel(sender: Address, id: nat, accepts: set<Address>) returns (ok: bool)
      requires Valid()
      modifies this`milestones, this`budgets, this`balance, this`sent
      ensures Valid() && History(old(milestones), milestones)
      ensures !ok ==> unchanged(this)
      ensures ok <==> old(Known(id)) && sender == old(At(id)).client && old(At(id)).status == Funded && sender in accepts
      ensures ok ==> milestones == old(milestones)[id - 1 := old(At(id)).(status := Cancelled)]
      ensures ok ==> Paid1(old(balance), old(sent), old(At(id)).client, old(At(id)).amount)
      ensures ok ==> Settles(old(budgets), budgets, old(At(id)))
    {
      if !Known(id) || sender != At(id).client || At(id).status != Funded || sender !in accepts { return false; }
      var m := At(id);
      Settle(id, m.(status := Cancelled));
      Pay(m.client, m.amount);
      return true;
    }

    // ---- Disputes ----

    /** Puts a live milestone in dispute, against the opener's fee. */
    method OpenCase(id: nat, d: Dispute)
      requires Valid() && Known(id) && At(id).status in {Funded, Submitted} && Wired(d)
      modifies this`milestones, this`balance
      ensures Valid() && History(old(milestones), milestones)
      ensures balance == old(balance) + d.fee
      ensures milestones == old(milestones)[id - 1 := old(At(id)).(status := Disputed, dispute := Some(d))]
    {
      var m := At(id);
      assert MilestoneOk(m);
      var n := m.(status := Disputed, dispute := Some(d));
      BooksReplace(milestones, budgets, id - 1, n);
      milestones, balance := milestones[id - 1 := n], balance + d.fee;
    }

    /** Opens the dispute and staffs its first round, or reverts when nobody can judge; `preferred` is the agreed panel, zeros for none. */
    method OpenDispute(sender: Address, id: nat, value: nat, preferred: seq<Address>, reg: Registry, now: nat)
      returns (ok: bool, panel: seq<Address>)
      requires Valid() && |preferred| == MAX_ARBITERS
      modifies this`milestones, this`balance
      ensures Valid() && History(old(milestones), milestones)
      ensures !ok ==> unchanged(this)
      ensures old(Known(id)) ==> Staffed(panel, preferred, reg, old(At(id)).client, old(At(id)).freelancer)
      ensures ok <==> (old(Known(id)) && (sender == old(At(id)).client || sender == old(At(id)).freelancer)
                       && old(At(id)).status in {Funded, Submitted} && value >= disputeFee && panel != [])
      ensures ok ==> balance == old(balance) + value && milestones == old(milestones)[id - 1 :=
        old(At(id)).(status := Disputed, dispute := Some(Open(sender, value, panel, reg.stakes, now, windows)))]
    {
      panel := [];
      if !Known(id) { return false, panel; }
      var m := At(id);
      panel := Staff(preferred, reg, m.client, m.freelancer);
      if (sender != m.client && sender != m.freelancer) || m.status !in {Funded, Submitted} || value < disputeFee || panel == [] {
        return false, panel;
      }
      OpenCase(id, Open(sender, value, panel, reg.stakes, now, windows));
      return true, panel;
    }

    method Commit(sender: Address, id: nat, round: nat, hash: Digest, now: nat) returns (ok: bool)
      requires Valid()
      modifies this`milestones
      ensures Valid() && History(old(milestones), milestones)
      ensures !ok ==> unchanged(this)
      ensures ok <==> (old(Known(id)) && old(At(id)).dispute.Some? && Shaped(old(At(id)).dispute.value)
                       && CommitVote(old(At(id)).dispute.value, round, sender, hash, now).Ok?)
      ensures ok ==> balance == old(balance) && milestones == old(milestones)[id - 1 :=
        old(At(id)).(dispute := Some(CommitVote(old(At(id)).dispute.value, round, sender, hash, now).value))]
    {
      if !Known(id) || At(id).dispute.None? { return false; }
      var m := At(id);
      assert MilestoneOk(m);
      var d := CommitVote(m.dispute.value, round, sender, hash, now);
      if d.Err? { return false; }
      BooksReplace(milestones, budgets, id - 1, m.(dispute := Some(d.value)));
      milestones := milestones[id - 1 := m.(dispute := Some(d.value))];
      return true;
    }

    method Reveal(sender: Address, id: nat, round: nat, outcome: nat, salt: nat, now: nat) returns (ok: bool)
      requires Valid()
      modifies this`milestones
      ensures Valid() && History(old(milestones), milestones)
      ensures !ok ==> unchanged(this)
      ensures ok <==> (old(Known(id)) && old(At(id)).dispute.Some? && Shaped(old(At(id)).dispute.value)
                       && RevealVote(old(At(id)).dispute.value, id, round, sender, outcome, salt, now).Ok?)
      ensures ok ==> balance == old(balance) && milestones == old(milestones)[id - 1 :=
        old(At(id)).(dispute := Some(RevealVote(old(At(id)).dispute.value, id, round, sender, outcome, salt, now).value))]
    {
      if !Known(id) || At(id).dispute.None? { return false; }
      var m := At(id);
      assert MilestoneOk(m);
      var d := RevealVote(m.dispute.value, id, round, sender, outcome, salt, now);
      if d.Err? { return false; }
      BooksReplace(milestones, budgets, id - 1, m.(dispute := Some(d.value)));
      milestones := milestones[id - 1 := m.(dispute := Some(d.value))];
      return true;
    }

    /** Puts the next state of a dispute in place, against what was paid for it. */
    method Proceed(id: nat, d: Dispute, value: nat)
      requires Valid() && Known(id) && At(id).status == Disputed && At(id).dispute.Some?
      requires Wired(d) && d.fee == At(id).dispute.value.fee + value
      modifies this`milestones, this`balance
      ensures Valid() && History(old(milestones), milestones)
      ensures balance == old(balance) + value && milestones == old(milestones)[id - 1 := old(At(id)).(dispute := Some(d))]
    {
      var m := At(id);
      assert MilestoneOk(m);
      BooksReplace(milestones, budgets, id - 1, m.(dispute := Some(d)));
      milestones, balance := milestones[id - 1 := m.(dispute := Some(d))], balance + value;
    }

    /** An appeal draws its panel afresh. */
    method OpenAppeal(sender: Address, id: nat, value: nat, reg: Registry, now: nat) returns (ok: bool, panel: seq<Address>)
      requires Valid()
      modifies this`milestones, this`balance
      ensures Valid() && History(old(milestones), milestones)
      ensures !ok ==> unchanged(this)
      ensures old(Known(id)) ==> Staffed(panel, [ZERO_ADDRESS, ZERO_ADDRESS, ZERO_ADDRESS], reg, old(At(id)).client, old(At(id)).freelancer)
      ensures ok <==> (old(Known(id)) && old(At(id)).dispute.Some? && Shaped(old(At(id)).dispute.value)
                       && Appeal(old(At(id)).dispute.value, old(At(id)).status, sender == old(At(id)).client || sender == old(At(id)).freelancer,
                                 value, disputeFee, panel, reg.stakes, now, windows).Ok?)
      ensures ok ==> balance == old(balance) + value && milestones == old(milestones)[id - 1 :=
        old(At(id)).(dispute := Some(Appeal(old(At(id)).dispute.value, old(At(id)).status, sender == old(At(id)).client || sender == old(At(id)).freelancer,
                                 value, disputeFee, panel, reg.stakes, now, windows).value))]
    {
      panel := [];
      if !Known(id) { return false, panel; }
      var m := At(id);
      panel := Staff([ZERO_ADDRESS, ZERO_ADDRESS, ZERO_ADDRESS], reg, m.client, m.freelancer);
      if m.dispute.None? { return false, panel; }
      assert MilestoneOk(m);
      var d := Appeal(m.dispute.value, m.status, sender == m.client || sender == m.freelancer, value, disputeFee, panel, reg.stakes, now, windows);
      if d.Err? { return false, panel; }
      Proceed(id, d.value, value);
      return true, panel;
    }

    // ---- Pushing payments ----

    /** A payment that cannot be pushed is held as credit, so one recipient never blocks the others. */
    method PayOrCredit(to: Address, amount: nat, accepts: set<Address>)
      modifies this`balance, this`credit, this`totalCredit, this`sent
      ensures balance == old(balance) - if to in accepts then amount else 0
      ensures totalCredit == old(totalCredit) + if to in accepts then 0 else amount
      ensures sent == if to in accepts && amount != 0 then old(sent)[to := CreditOf(old(sent), to) + amount] else old(sent)
      ensures credit == if to in accepts || amount == 0 then old(credit) else old(credit)[to := CreditOf(old(credit), to) + amount]
    {
      if amount == 0 { return; }
      if to in accepts {
        Pay(to, amount);
        return;
      }
      credit := credit[to := CreditOf(credit, to) + amount];
      totalCredit := totalCredit + amount;
    }

    /** Pays each winning, payable arbiter its share and reports what was paid. */
    method PayArbiters(r: Round, payable: set<Address>, winner: nat, pot: nat, total: nat, accepts: set<Address>)
      returns (paid: seq<Payment>, used: nat)
      requires total > 0
      modifies this`balance, this`credit, this`totalCredit, this`sent
      ensures paid == Shares(r, r.arbiters, payable, winner, pot, total) && used == PaidTotal(paid)
      ensures balance == old(balance) - Pushed(paid, accepts)
      ensures totalCredit == old(totalCredit) + PaidTotal(paid) - Pushed(paid, accepts)
      ensures credit == Held(old(credit), paid, accepts) && sent == Sent(old(sent), paid, accepts)
    {
      paid, used := [], 0;
      for i := 0 to |r.arbiters|
        invariant paid == Shares(r, r.arbiters[..i], payable, winner, pot, total) && used == PaidTotal(paid)
        invariant balance == old(balance) - Pushed(paid, accepts)
        invariant totalCredit == old(totalCredit) + PaidTotal(paid) - Pushed(paid, accepts)
        invariant credit == Held(old(credit), paid, accepts) && sent == Sent(old(sent), paid, accepts)
      {
        var a := r.arbiters[i];
        SharesNext(r, i, payable, winner, pot, total);
        if a in payable && Won(r, a, winner) {
          var share := ShareOfPot(r, a, pot, total);
          if share > 0 {
            PaymentsSnoc(paid, (a, share), old(credit), accepts);
            SentSnoc(paid, (a, share), old(sent), accepts);
            PayOrCredit(a, share, accepts);
            paid, used := paid + [(a, share)], used + share;
          }
        }
      }
      assert r.arbiters[..|r.arbiters|] == r.arbiters;
    }

    /** The stake behind the winning votes. */
    method TotalWeight(r: Round, winner: nat) returns (total: nat)
      ensures total == WinningWeight(r, r.arbiters, winner)
    {
      total := 0;
      for i := 0 to |r.arbiters|
        invariant total == WinningWeight(r, r.arbiters[..i], winner)
      {
        assert r.arbiters[..i + 1][..i] == r.arbiters[..i];
        var a := r.arbiters[i];
        if Won(r, a, winner) { total := total + WeightOf(r, a); }
      }
      assert r.arbiters[..|r.arbiters|] == r.arbiters;
    }

    // ---- Tally and payout ----

    /** The tallied round, with the milestone still in dispute. */
    method RecordRuling(id: nat)
      requires Valid() && Known(id) && At(id).status == Disputed && At(id).dispute.Some? && Shaped(At(id).dispute.value)
      modifies this`milestones
      ensures Valid() && History(old(milestones), milestones)
      ensures milestones == old(milestones)[id - 1 := old(At(id)).(dispute := Some(Tally(old(At(id)).dispute.value)))]
    {
      var n := At(id).(dispute := Some(Tally(At(id).dispute.value)));
      assert MilestoneOk(At(id));
      TalliedIsOk(At(id));
      BooksReplace(milestones, budgets, id - 1, n);
      milestones := milestones[id - 1 := n];
    }

    /** The first round without a quorum: the client and the opener get their money back. */
    method RefundRound(id: nat, accepts: set<Address>)
      requires Valid() && Known(id) && At(id).status == Disputed && At(id).dispute.Some? && Shaped(At(id).dispute.value)
      modifies this`milestones, this`budgets, this`balance, this`credit, this`totalCredit, this`sent
      ensures Valid() && History(old(milestones), milestones)
      ensures milestones == old(milestones)[id - 1 :=
        old(At(id)).(dispute := Some(Tally(old(At(id)).dispute.value)), status := ResolvedRefund)]
      ensures Transferred(old(balance), old(credit), old(sent), NoQuorumRefunds(old(At(id))), accepts)
      ensures Settles(old(budgets), budgets, old(At(id)))
    {
      var m := At(id);
      var n := m.(dispute := Some(Tally(m.dispute.value)), status := ResolvedRefund);
      assert MilestoneOk(m);
      TalliedIsOk(m);
      Settle(id, n);
      RefundsAreOwed(m);
      PayAll(NoQuorumRefunds(m), accepts);
    }

    /** The two tally calls: `resolveDispute` for the first round, `resolveAppeal` for a later one. */
    method TallyRound(id: nat, viaAppeal: bool, now: nat, accepts: set<Address>) returns (ok: bool)
      requires Valid()
      modifies this`milestones, this`budgets, this`balance, this`credit, this`totalCredit, this`sent
      ensures Valid() && History(old(milestones), milestones)
      ensures !ok ==> unchanged(this)
      ensures ok <==> (old(Known(id)) && old(At(id)).dispute.Some? && Shaped(old(At(id)).dispute.value)
                       && TallyGuard(old(At(id)).dispute.value, old(At(id)).status, viaAppeal, now) == None)
      ensures ok && !NoQuorumRefund(old(At(id)).dispute.value) ==>
        milestones == old(milestones)[id - 1 := old(At(id)).(dispute := Some(Tally(old(At(id)).dispute.value)))]
      ensures ok && !NoQuorumRefund(old(At(id)).dispute.value) ==> balance == old(balance) && credit == old(credit)
      ensures ok && NoQuorumRefund(old(At(id)).dispute.value) ==> milestones == old(milestones)[id - 1 :=
        old(At(id)).(dispute := Some(Tally(old(At(id)).dispute.value)), status := ResolvedRefund)]
      ensures ok && !NoQuorumRefund(old(At(id)).dispute.value) ==> sent == old(sent)
      ensures ok && NoQuorumRefund(old(At(id)).dispute.value) ==> (
        && balance == old(balance) - (MapSum(sent) - MapSum(old(sent)))
        && forall a :: Gets(old(credit), old(sent), credit, sent, accepts, a, RefundDue(old(At(id)), a)))
      ensures ok ==> if NoQuorumRefund(old(At(id)).dispute.value) then Settles(old(budgets), budgets, old(At(id))) else budgets == old(budgets)
    {
      if !Known(id) || At(id).dispute.None? { return false; }
      var m := At(id);
      assert MilestoneOk(m);
      var d := m.dispute.value;
      if TallyGuard(d, m.status, viaAppeal, now).Some? { return false; }
      if NoQuorumRefund(d) {
        ghost var held, before := credit, sent;
        RefundRound(id, accepts);
        SentTotal(before, NoQuorumRefunds(m), accepts);
        forall a
          ensures Gets(held, before, credit, sent, accepts, a, RefundDue(m, a))
        {
          PaymentsReach(held, before, NoQuorumRefunds(m), accepts, a);
          RefundsReach(m, a);
        }
      } else {
        RecordRuling(id);
      }
      return true;
    }

    /** The balance and the credits after `pays` were pushed or held. */
    ghost predicate Transferred(was: int, held: map<Address, int>, before: map<Address, int>, pays: seq<Payment>, accepts: set<Address>)
      reads this
    {
      balance == was - Pushed(pays, accepts) && credit == Held(held, pays, accepts) && sent == Sent(before, pays, accepts)
    }

    method PayAll(pays: seq<Payment>, accepts: set<Address>)
      requires CreditOk()
      modifies this`balance, this`credit, this`totalCredit, this`sent
      ensures CreditOk()
      ensures Transferred(old(balance), old(credit), old(sent), pays, accepts)
      ensures totalCredit == old(totalCredit) + PaidTotal(pays) - Pushed(pays, accepts)
    {
      for i := 0 to |pays|
        invariant Transferred(old(balance), old(credit), old(sent), pays[..i], accepts)
        invariant totalCredit == old(totalCredit) + PaidTotal(pays[..i]) - Pushed(pays[..i], accepts)
      {
        assert pays[..i + 1] == pays[..i] + [pays[i]];
        PaymentsSnoc(pays[..i], pays[i], old(credit), accepts);
        SentSnoc(pays[..i], pays[i], old(sent), accepts);
        PayOrCredit(pays[i].0, pays[i].1, accepts);
      }
      assert pays[..|pays|] == pays;
      PaymentsBalance(old(credit), pays, accepts);
    }

    /** The milestone fee goes to the resolving majority; without one, and for the dust, it stays with the protocol. */
    method PayArbiterFee(r: Round, winner: nat, fee: nat, accepts: set<Address>)
      modifies this`balance, this`credit, this`totalCredit, this`sent, this`accruedFees
      ensures Transferred(old(balance), old(credit), old(sent), FeeShares(r, winner, fee), accepts)
      ensures totalCredit == old(totalCredit) + PaidTotal(FeeShares(r, winner, fee)) - Pushed(FeeShares(r, winner, fee), accepts)
      ensures accruedFees == old(accruedFees) + fee - PaidTotal(FeeShares(r, winner, fee))
    {
      var total := TotalWeight(r, winner);
      if total == 0 {
        accruedFees := accruedFees + fee;
        return;
      }
      var paid, used := PayArbiters(r, Panel(r), winner, fee, total, accepts);
      accruedFees := accruedFees + (fee - used);
    }

    /** The reward pot: the opener's and appellants' fees plus the subsidy; the dust stays in the pool. */
    method DistributeRewards(r: Round, registered: set<Address>, winner: nat, fee: nat, amount: nat, accepts: set<Address>)
      requires rewardPool >= 0
      modifies this`balance, this`credit, this`totalCredit, this`sent, this`rewardPool
      ensures var pot := fee + Subsidy(old(rewardPool), disputeReward, amount);
        && Transferred(old(balance), old(credit), old(sent), RewardShares(r, registered, winner, pot), accepts)
        && totalCredit == old(totalCredit) + PaidTotal(RewardShares(r, registered, winner, pot))
                          - Pushed(RewardShares(r, registered, winner, pot), accepts)
        && rewardPool == old(rewardPool) + fee - PaidTotal(RewardShares(r, registered, winner, pot))
    {
      var total := TotalWeight(r, winner);
      if total == 0 { total := 1; }
      var subsidy := if rewardPool < disputeReward then rewardPool else disputeReward;
      if subsidy > amount / 10 { subsidy := amount / 10; }
      rewardPool := rewardPool - subsidy;
      var pot := fee + subsidy;
      var paid, used := PayArbiters(r, registered, winner, pot, total, accepts);
      rewardPool := rewardPool + (pot - used);
    }

    /** The settling itself: the milestone, its budget and the three payouts. */
    method SettleDispute(id: nat, registered: set<Address>, accepts: set<Address>)
      requires Valid() && Known(id) && At(id).status == Disputed && At(id).dispute.Some?
      requires Shaped(At(id).dispute.value) && Current(At(id).dispute.value).resolved && At(id).feeBps <= MAX_FEE_BPS
      modifies this`milestones, this`budgets, this`balance, this`credit, this`totalCredit, this`sent, this`accruedFees, this`rewardPool
      ensures Valid() && History(old(milestones), milestones)
      ensures milestones == old(milestones)[id - 1 := Paid(old(At(id)), Current(old(At(id)).dispute.value).winner)]
      ensures PayoutDone(old(At(id)), old(balance), old(credit), old(sent), old(accruedFees), old(rewardPool), registered, accepts)
      ensures Settles(old(budgets), budgets, old(At(id)))
    {
      var m := At(id);
      assert MilestoneOk(m);
      var winner := Current(m.dispute.value).winner;
      PaidIsOk(m, winner);
      AwardIsExact(m.amount, m.feeBps, winner);
      Settle(id, Paid(m, winner));
      PayOut(m, registered, accepts);
    }

    /** Executes the standing ruling; `pot` is the reward pot that was shared. */
    method FinalizeDispute(id: nat, now: nat, registered: set<Address>, accepts: set<Address>) returns (ok: bool, ghost pot: nat)
      requires Valid()
      modifies this`milestones, this`budgets, this`balance, this`credit, this`totalCredit, this`sent, this`accruedFees, this`rewardPool
      ensures Valid() && History(old(milestones), milestones)
      ensures !ok ==> unchanged(this)
      ensures ok <==> (old(Known(id)) && old(At(id)).dispute.Some? && Shaped(old(At(id)).dispute.value)
                       && FinalizeGuard(old(At(id)).dispute.value, old(At(id)).status, now, windows.appeal).Ok?)
      ensures ok ==> Known(id) && milestones == old(milestones)[id - 1 := At(id)] && Settles(old(budgets), budgets, old(At(id)))
      ensures ok ==> Executes(old(At(id)), At(id), pot, old(credit), old(sent), old(balance), old(accruedFees), old(rewardPool), registered, accepts)
    {
      pot := 0;
      if !Known(id) || At(id).dispute.None? { return false, 0; }
      var m := At(id);
      assert MilestoneOk(m);
      var d := m.dispute.value;
      if FinalizeGuard(d, m.status, now, windows.appeal).Err? { return false, 0; }
      ghost var held, before, was, fees, pool := credit, sent, balance, accruedFees, rewardPool;
      SettleDispute(id, registered, accepts);
      pot := d.fee + Subsidy(pool, disputeReward, m.amount);
      PayoutExecutes(m, pot, held, before, was, fees, pool, registered, accepts);
      return true, pot;
    }

    /** What the contract holds beyond fees, pool and credits. */
    function Unallocated(): int
      reads this
    {
      balance - accruedFees - rewardPool - totalCredit
    }

    method PayOut(m: Milestone, registered: set<Address>, accepts: set<Address>)
      requires m.dispute.Some? && Shaped(m.dispute.value) && m.feeBps <= MAX_FEE_BPS
      requires CreditOk() && rewardPool >= 0 && accruedFees >= 0
      modifies this`balance, this`credit, this`totalCredit, this`sent, this`accruedFees, this`rewardPool
      ensures CreditOk() && rewardPool >= 0 && accruedFees >= 0
      ensures PayoutDone(m, old(balance), old(credit), old(sent), old(accruedFees), old(rewardPool), registered, accepts)
      ensures var award := AwardOf(m.amount, m.feeBps, Current(m.dispute.value).winner);
        Unallocated() == old(Unallocated()) - award.toClient - award.fee - m.dispute.value.fee
    {
      var d := m.dispute.value;
      var r := Current(d);
      var award := AwardOf(m.amount, m.feeBps, r.winner);
      ghost var pot := d.fee + Subsidy(rewardPool, disputeReward, m.amount);
      PotsSuffice(r, registered, r.winner, award.fee, pot);
      PaymentsBalance(credit, FeeShares(r, r.winner, award.fee), accepts);
      PayArbiterFee(r, r.winner, award.fee, accepts);
      PaidTotalOfPair(ClientPayment(m, r.winner)[0], ClientPayment(m, r.winner)[0]);
      PayAll(ClientPayment(m, r.winner), accepts);
      PaymentsBalance(credit, RewardShares(r, registered, r.winner, pot), accepts);
      DistributeRewards(r, registered, r.winner, d.fee, m.amount, accepts);
    }

    /** The three payouts of a finalized dispute, in order, and what stays in the contract. */
    ghost predicate PayoutDone(m: Milestone, was: int, held: map<Address, int>, before: map<Address, int>, fees: int, pool: int,
                               registered: set<Address>, accepts: set<Address>)
      requires m.dispute.Some? && Shaped(m.dispute.value) && m.feeBps <= MAX_FEE_BPS && pool >= 0
      reads this
    {
      var r := Current(m.dispute.value);
      var award := AwardOf(m.amount, m.feeBps, r.winner);
      var toArbiters := FeeShares(r, r.winner, award.fee);
      var toClient := ClientPayment(m, r.winner);
      var rewards := RewardShares(r, registered, r.winner, m.dispute.value.fee + Subsidy(pool, disputeReward, m.amount));
      && balance == was - Pushed(toArbiters, accepts) - Pushed(toClient, accepts) - Pushed(rewards, accepts)
      && credit == Held(Held(Held(held, toArbiters, accepts), toClient, accepts), rewards, accepts)
      && sent == Sent(Sent(Sent(before, toArbiters, accepts), toClient, accepts), rewards, accepts)
      && accruedFees == fees + award.fee - PaidTotal(toArbiters)
      && rewardPool == pool + m.dispute.value.fee - PaidTotal(rewards)
    }

    /**
     * From `m` to `n` the ruling was executed: the milestone is settled by its
     * outcome; the client gets back what the ruling leaves it, everybody who voted
     * for the ruling a part of the milestone's fee by stake, and those of them still
     * registered a part of the pot; what is left of the fee and of the pot stays.
     */
    ghost predicate Executes(m: Milestone, n: Milestone, pot: nat, held: map<Address, int>, before: map<Address, int>, was: int,
                             fees: int, pool: int, registered: set<Address>, accepts: set<Address>)
      requires m.dispute.Some? && Shaped(m.dispute.value) && m.feeBps <= MAX_FEE_BPS
      reads this
    {
      var r := Current(m.dispute.value);
      && Ruled(m, n, r.winner)
      && IsPot(pot, m.dispute.value.fee, pool, disputeReward, m.amount)
      && (var fee := TakenFromClient(m.amount, r.winner) - n.claimable;
          && (forall a :: Gets(held, before, credit, sent, accepts, a, RulingDue(m, r.winner, fee, pot, registered, a)))
          && accruedFees == fees + fee - MapSum(PartsOf(r, Panel(r), r.winner, fee)))
      && rewardPool == pool + m.dispute.value.fee - MapSum(PartsOf(r, registered, r.winner, pot))
      && balance == was - (MapSum(sent) - MapSum(before))
    }

    lemma PayoutExecutes(m: Milestone, pot: nat, held: map<Address, int>, before: map<Address, int>, was: int, fees: int, pool: int,
                         registered: set<Address>, accepts: set<Address>)
      requires m.dispute.Some? && Wired(m.dispute.value) && m.feeBps <= MAX_FEE_BPS && pool >= 0
      requires pot == m.dispute.value.fee + Subsidy(pool, disputeReward, m.amount)
      requires PayoutDone(m, was, held, before, fees, pool, registered, accepts)
      ensures Executes(m, Paid(m, Current(m.dispute.value).winner), pot, held, before, was, fees, pool, registered, accepts)
    {
      var r := Current(m.dispute.value);
      var fee := AwardOf(m.amount, m.feeBps, r.winner).fee;
      var toArbiters, toClient, rewards := FeeShares(r, r.winner, fee), ClientPayment(m, r.winner), RewardShares(r, registered, r.winner, pot);
      AwardByRuling(m.amount, m.feeBps, r.winner);
      SubsidyIsLeast(m.dispute.value.fee, pool, disputeReward, m.amount);
      forall a
        ensures Gets(held, before, credit, sent, accepts, a, RulingDue(m, r.winner, fee, pot, registered, a))
      {
        ThreeReach(held, before, toArbiters, toClient, rewards, accepts, a);
        RulingReaches(m, registered, pot, a);
      }
      SentTotal(before, toArbiters, accepts);
      SentTotal(Sent(before, toArbiters, accepts), toClient, accepts);
      SentTotal(Sent(Sent(before, toArbiters, accepts), toClient, accepts), rewards, accepts);
      var total := WinningWeight(r, r.arbiters, r.winner);
      PartsTotal(r, Panel(r), r.winner, fee, total);
      PartsTotal(r, registered, r.winner, pot, total);
      if total == 0 { NoWeightNoShares(r, r.arbiters, Panel(r), r.winner, fee); }
    }

    // ---- Fees, rewards and credits ----

    /** Fees leave in two halves; the odd wei goes to the sponsorship wallet. */
    method WithdrawFees(sender: Address, accepts: set<Address>) returns (ok: bool, toTreasury: int, toSponsor: int)
      requires Valid()
      modifies this`balance, this`accruedFees, this`sent
      ensures Valid() && milestones == old(milestones) && budgets == old(budgets)
      ensures !ok ==> unchanged(this)
      ensures ok <==> (sender == owner && old(accruedFees) != 0 && (toTreasury == 0 || treasury in accepts)
                       && (if sponsorshipWallet == ZERO_ADDRESS then treasury else sponsorshipWallet) in accepts)
      ensures toTreasury + toSponsor == old(accruedFees) && 0 <= toSponsor - toTreasury <= 1
      ensures ok ==> accruedFees == 0 && balance == old(balance) - old(accruedFees)
      ensures ok ==> var sponsor := if sponsorshipWallet == 0 then treasury else sponsorshipWallet;
        toTreasury >= 0 && forall a :: CreditOf(sent, a) == CreditOf(old(sent), a) + PairDue(treasury, toTreasury, sponsor, toSponsor, a)
    {
      toTreasury := accruedFees / 2;
      toSponsor := accruedFees - toTreasury;
      if sender != owner || accruedFees == 0 { return false, toTreasury, toSponsor; }
      var sponsor := if sponsorshipWallet == ZERO_ADDRESS then treasury else sponsorshipWallet;
      if (toTreasury != 0 && treasury !in accepts) || sponsor !in accepts { return false, toTreasury, toSponsor; }
      accruedFees := 0;
      if toTreasury != 0 { Pay(treasury, toTreasury); }
      Pay(sponsor, toSponsor);
      return true, toTreasury, toSponsor;
    }

    method DepositRewards(value: nat) returns (ok: bool)
      requires Valid()
      modifies this`rewardPool, this`balance
      ensures Valid() && milestones == old(milestones) && budgets == old(budgets)
      ensures !ok ==> unchanged(this)
      ensures ok <==> value != 0
      ensures ok ==> rewardPool == old(rewardPool) + value && balance == old(balance) + value
    {
      if value == 0 { return false; }
      rewardPool, balance := rewardPool + value, balance + value;
      return true;
    }

    method SweepRewardPool(sender: Address, accepts: set<Address>) returns (ok: bool)
      requires Valid()
      modifies this`rewardPool, this`balance, this`sent
      ensures Valid() && milestones == old(milestones) && budgets == old(budgets)
      ensures !ok ==> unchanged(this)
      ensures ok <==> sender == owner && old(rewardPool) != 0 && treasury in accepts
      ensures ok ==> rewardPool == 0 && old(rewardPool) > 0 && Paid1(old(balance), old(sent), treasury, old(rewardPool))
    {
      if sender != owner || rewardPool == 0 || treasury !in accepts { return false; }
      var amount := rewardPool;
      rewardPool := 0;
      Pay(treasury, amount);
      return true;
    }

    method WithdrawCredit(sender: Address, accepts: set<Address>) returns (ok: bool)
      requires Valid()
      modifies this`credit, this`totalCredit, this`balance, this`sent
      ensures Valid() && milestones == old(milestones) && budgets == old(budgets)
      ensures !ok ==> unchanged(this)
      ensures ok <==> CreditOf(old(credit), sender) != 0 && sender in accepts
      ensures ok ==> credit == old(credit)[sender := 0] && sender in old(credit) && old(credit)[sender] > 0
      ensures ok ==> Paid1(old(balance), old(sent), sender, old(credit)[sender])
    {
      var amount := CreditOf(credit, sender);
      if amount == 0 || sender !in accepts { return false; }
      MapSumUpdate(credit, sender, 0);
      credit, totalCredit := credit[sender := 0], totalCredit - amount;
      Pay(sender, amount);
      return true;
    }

    method SetFeeBps(sender: Address, newFeeBps: nat) returns (ok: bool)
      requires Valid()
      modifies this`feeBps
      ensures Valid()
      ensures ok <==> sender == owner && newFeeBps <= 500
      ensures feeBps == if ok then newFeeBps else old(feeBps)
    {
      if sender != owner || newFeeBps > MAX_FEE_BPS { return false; }
      feeBps := newFeeBps;
      return true;
    }
  }
}
