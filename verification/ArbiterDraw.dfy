/** How a round is staffed: the agreed panel, or a walk over the registry's roster (Escrow._startRound, _selectArbiters). */
module ArbiterDraw {
  import opened Basics
  import opened Arbitration

  // ---- Greatest common divisors ----

  function Gcd(a: nat, b: nat): nat
    decreases b
  {
    if b == 0 then a else Gcd(b, a % b)
  }

  method ComputeGcd(a: nat, b: nat) returns (g: nat)
    ensures g == Gcd(a, b)
  {
    var x, y := a, b;
    while y != 0
      invariant Gcd(x, y) == Gcd(a, b)
      decreases y
    {
      x, y := y, x % y;
    }
    return x;
  }

  lemma BezoutStep(a: int, q: int, r: int, b: int, u: int, v: int)
    requires a == q * b + r
    ensures v * a + (u - v * q) * b == u * b + v * r
  {
    assert v * (q * b + r) == v * (q * b) + v * r;
    assert (u - v * q) * b == u * b - (v * q) * b;
    assert v * (q * b) == (v * q) * b;
  }

  lemma {:induction false} Bezout(a: nat, b: nat) returns (x: int, y: int)
    ensures x * a + y * b == Gcd(a, b)
    decreases b
  {
    if b == 0 {
      x, y := 1, 0;
    } else {
      var u, v := Bezout(b, a % b);
      BezoutStep(a, a / b, a % b, b, u, v);
      x, y := v, u - v * (a / b);
    }
  }

  lemma FromQuotient(a: nat, q: nat, r: nat, b: nat, g: nat, s: nat, t: nat)
    requires a == q * b + r && b == s * g && r == t * g
    ensures a == (q * s + t) * g
  {
    assert (q * s) * g == q * (s * g);
  }

  lemma {:induction false} GcdDivides(a: nat, b: nat) returns (s: nat, t: nat)
    ensures a == s * Gcd(a, b) && b == t * Gcd(a, b)
    decreases b
  {
    if b == 0 {
      s, t := 1, 0;
    } else {
      var u, v := GcdDivides(b, a % b);
      FromQuotient(a, a / b, a % b, b, Gcd(b, a % b), u, v);
      s, t := a / b * u + v, u;
    }
  }

  lemma Regroup(a: int, b: int, c: int)
    ensures a * (b * c) == b * (a * c)
  {
  }

  lemma Spread(a: int, b: int, c: int)
    ensures a * (b + c) == a * b + a * c
  {
  }

  /** If `len` divides `k * stride` and shares no factor with `stride`, it divides `k`. */
  lemma DivisorOfProduct(k: int, stride: nat, len: nat, q: int) returns (m: int)
    requires Gcd(stride, len) == 1 && k * stride == len * q
    ensures k == len * m
  {
    var x, y := Bezout(stride, len);
    Spread(k, x * stride, y * len);
    Regroup(k, x, stride);
    Regroup(x, len, q);
    Regroup(k, y, len);
    Regroup(y, k, len);
    Regroup(len, k, y);
    m := x * q + k * y;
    Spread(len, x * q, k * y);
    assert len * (k * y) == k * (y * len) by { Regroup(len, k, y); assert len * y == y * len; }
  }

  lemma SmallMod(a: nat, b: nat)
    requires a < b
    ensures a % b == a
  {
  }

  lemma PredecessorIsCoprime(len: nat)
    requires len >= 2
    ensures Gcd(len - 1, len) == 1
  {
    SmallMod(len - 1, len);
    assert Gcd(len - 1, len) == Gcd(len, len - 1);
    if len > 2 {
      assert len % (len - 1) == 1 by { OverByOne(len - 1); }
      assert Gcd(len, len - 1) == Gcd(len - 1, 1) == Gcd(1, 0);
    } else {
      assert Gcd(2, 1) == Gcd(1, 0);
    }
  }

  lemma OverByOne(d: nat)
    requires d >= 2
    ensures (d + 1) % d == 1
  {
    assert (d + 1) / d == 1;
  }

  // ---- The walk ----

  function Slot(start: nat, stride: nat, len: nat, k: nat): (slot: nat)
    requires len > 0
    ensures slot < len
  {
    (start + k * stride) % len
  }

  lemma SameRemainder(a: nat, b: nat, len: nat) returns (q: int)
    requires len > 0 && a % len == b % len
    ensures b - a == len * q
  {
    q := b / len - a / len;
    assert a == len * (a / len) + a % len && b == len * (b / len) + b % len;
    Spread(len, b / len, -(a / len));
  }

  lemma MultipleIsLarge(len: nat, m: int)
    requires len > 0
    ensures len * m <= 0 || len * m >= len
  {
    if m >= 1 { assert len * m == len + len * (m - 1); }
  }

  lemma NoShortPeriod(k: nat, stride: nat, len: nat, q: int)
    requires Gcd(stride, len) == 1 && 0 < k < len
    ensures k * stride != len * q
  {
    if k * stride == len * q {
      var m := DivisorOfProduct(k, stride, len, q);
      MultipleIsLarge(len, m);
    }
  }

  lemma Gap(i: nat, j: nat, stride: nat)
    ensures (j - i) * stride == j * stride - i * stride
  {
  }

  lemma ResiduesDiffer(a: nat, b: nat, k: nat, stride: nat, len: nat)
    requires Gcd(stride, len) == 1 && 0 < k < len && b - a == k * stride
    ensures a % len != b % len
  {
    if a % len == b % len {
      var q := SameRemainder(a, b, len);
      NoShortPeriod(k, stride, len, q);
    }
  }

  lemma SlotsDiffer(start: nat, stride: nat, len: nat, i: nat, j: nat)
    requires Gcd(stride, len) == 1 && i < j < len
    ensures Slot(start, stride, len, i) != Slot(start, stride, len, j)
  {
    Gap(i, j, stride);
    ResiduesDiffer(start + i * stride, start + j * stride, j - i, stride, len);
  }

  ghost function Visited(start: nat, stride: nat, len: nat, n: nat): set<nat>
    requires len > 0
  {
    set k | 0 <= k < n :: Slot(start, stride, len, k)
  }

  lemma {:induction false} VisitedSize(start: nat, stride: nat, len: nat, n: nat)
    requires Gcd(stride, len) == 1 && n <= len && len > 0
    ensures |Visited(start, stride, len, n)| == n
  {
    if n > 0 {
      VisitedSize(start, stride, len, n - 1);
      forall k | 0 <= k < n - 1
        ensures Slot(start, stride, len, k) != Slot(start, stride, len, n - 1)
      {
        SlotsDiffer(start, stride, len, k, n - 1);
      }
      assert Visited(start, stride, len, n) == Visited(start, stride, len, n - 1) + {Slot(start, stride, len, n - 1)};
    } else {
      assert Visited(start, stride, len, 0) == {};
    }
  }

  function Below(n: nat): set<nat> {
    if n == 0 then {} else Below(n - 1) + {n - 1}
  }

  lemma {:induction false} BelowIsRange(n: nat)
    ensures |Below(n)| == n && forall s: nat :: s in Below(n) <==> s < n
  {
    if n > 0 { BelowIsRange(n - 1); }
  }

  lemma SubsetOfSameSize<T>(a: set<T>, b: set<T>)
    requires a <= b && |a| == |b|
    ensures a == b
  {
    if a != b {
      var x :| x in b && x !in a;
      SubsetSize(a, b - {x});
    }
  }

  /** A walk whose stride is coprime to the roster's length visits every slot in one pass. */
  lemma WalkCoversRoster(start: nat, stride: nat, len: nat, slot: nat)
    requires Gcd(stride, len) == 1 && slot < len
    ensures exists k: nat :: k < len && Slot(start, stride, len, k) == slot
  {
    VisitedSize(start, stride, len, len);
    BelowIsRange(len);
    SubsetOfSameSize(Visited(start, stride, len, len), Below(len));
    assert slot in Visited(start, stride, len, len);
  }

  // ---- Selection ----

  /** Who may be drawn. */
  function Candidates(roster: seq<Address>, client: Address, freelancer: Address, eligible: set<Address>): set<Address> {
    set a | a in roster && a != 0 && a != client && a != freelancer && a in eligible
  }

  function Members(s: seq<Address>): set<Address> {
    set a | a in s
  }

  lemma {:induction false} DistinctSize(s: seq<Address>)
    requires Distinct(s)
    ensures |Members(s)| == |s|
  {
    if s == [] {
      assert Members(s) == {};
    } else {
      DistinctSize(s[1..]);
      assert Members(s) == Members(s[1..]) + {s[0]};
    }
  }

  function Min(a: nat, b: nat): nat {
    if a < b then a else b
  }

  /** The strides the search tries: the seed's own, then one more each time, around the range 1 to len - 1. */
  function NthStride(seed: nat, len: nat, n: nat): nat
    requires len >= 2
  {
    (seed + n) % (len - 1) + 1
  }

  lemma NextStride(seed: nat, len: nat, n: nat)
    requires len >= 2
    ensures NthStride(seed, len, n) % (len - 1) + 1 == NthStride(seed, len, n + 1)
  {
    ModSuccessor(seed + n, len - 1);
  }

  lemma ModSuccessor(x: nat, m: nat)
    requires m > 0
    ensures (x % m + 1) % m == (x + 1) % m
  {
    var q, r := x / m, x % m;
    assert x == q * m + r;
    if r + 1 < m {
      RemainderIs(x + 1, m, q, r + 1);
      SmallMod(r + 1, m);
    } else {
      assert (q + 1) * m == q * m + m;
      RemainderIs(x + 1, m, q + 1, 0);
      RemainderIs(m, m, 1, 0);
    }
  }

  lemma RemainderIs(x: nat, m: nat, q: nat, r: nat)
    requires x == q * m + r && r < m
    ensures x % m == r
  {
    Spread(m, q, -(x / m));
    MultipleIsLarge(m, q - x / m);
    MultipleIsLarge(m, x / m - q);
    assert m * (q - x / m) == x % m - r && m * (x / m - q) == r - x % m;
  }

  /** The first of the tried strides that shares no factor with the length. */
  ghost predicate FirstCoprime(seed: nat, len: nat, stride: nat, tries: nat) {
    if len < 2 then stride == 1
    else
      && stride == NthStride(seed, len, tries) && Gcd(stride, len) == 1
      && forall j: nat :: j < tries ==> Gcd(NthStride(seed, len, j), len) != 1
  }

  /** A stride the walk can use: the seed's own, moved on until it is coprime to the length. */
  method CoprimeStride(seed: nat, len: nat) returns (stride: nat, ghost tries: nat)
    requires len > 0
    ensures Gcd(stride, len) == 1 && FirstCoprime(seed, len, stride, tries)
  {
    stride, tries := if len == 1 then 1 else seed % (len - 1) + 1, 0;
    if len > 1 { PredecessorIsCoprime(len); }
    var g := ComputeGcd(stride, len);
    while g != 1
      invariant g == Gcd(stride, len)
      invariant len == 1 ==> stride == 1
      invariant len > 1 ==> 1 <= stride <= len - 1 && stride == NthStride(seed, len, tries)
      invariant len > 1 ==> forall j: nat :: j < tries ==> Gcd(NthStride(seed, len, j), len) != 1
      decreases len - stride
    {
      SmallMod(stride, len - 1);
      NextStride(seed, len, tries);
      stride, tries := stride % (len - 1) + 1, tries + 1;
      g := ComputeGcd(stride, len);
    }
  }

  /** Those of `wanted` that come first in the line, each once, in the order they come; `visits` are their places. */
  ghost predicate PicksInOrder(line: seq<Address>, wanted: set<Address>, picked: seq<Address>, visits: seq<nat>) {
    && |visits| == |picked| && Distinct(picked)
    && (forall j :: 0 <= j < |visits| ==> visits[j] < |line| && picked[j] == line[visits[j]] && picked[j] in wanted)
    && (forall j, k :: 0 <= j < |visits| && 0 <= k < visits[j] && line[k] in wanted ==> line[k] in picked[..j])
  }

  /** Everybody wanted among the first `n` of the line is picked. */
  ghost predicate Passed(line: seq<Address>, wanted: set<Address>, picked: seq<Address>, n: nat)
    requires n <= |line|
  {
    forall k :: 0 <= k < n && line[k] in wanted ==> line[k] in picked
  }

  lemma PickNext(line: seq<Address>, wanted: set<Address>, picked: seq<Address>, visits: seq<nat>, n: nat)
    requires PicksInOrder(line, wanted, picked, visits) && n < |line| && Passed(line, wanted, picked, n)
    requires line[n] in wanted && line[n] !in picked
    ensures PicksInOrder(line, wanted, picked + [line[n]], visits + [n]) && Passed(line, wanted, picked + [line[n]], n + 1)
  {
    DistinctSnoc(picked, line[n]);
    var more, seen := picked + [line[n]], visits + [n];
    forall j, k | 0 <= j < |seen| && 0 <= k < seen[j] && line[k] in wanted
      ensures line[k] in more[..j]
    {
      if j < |visits| { assert more[..j] == picked[..j]; } else { assert more[..j] == picked; }
    }
  }

  /** The slots of the roster in the order the walk visits them, three times around. */
  ghost function Walk(roster: seq<Address>, start: nat, stride: nat): (line: seq<Address>)
    ensures |line| == 3 * |roster|
    ensures forall k :: 0 <= k < |line| ==> line[k] == roster[(start + k * stride) % |roster|]
  {
    seq(3 * |roster|, k requires 0 <= k < 3 * |roster| => roster[(start + k * stride) % |roster|])
  }

  /** The draw a seed makes: up to three candidates, in the order the seed's walk meets them. */
  ghost predicate DrawnBy(seed: nat, roster: seq<Address>, candidates: set<Address>, picked: seq<Address>) {
    && |picked| == Min(3, |candidates|)
    && (roster == [] || exists stride: nat, tries: nat, visits ::
         FirstCoprime(seed, |roster|, stride, tries) && PicksInOrder(Walk(roster, seed % |roster|, stride), candidates, picked, visits))
  }

  /** When the walk is over, everybody who can be drawn is. */
  lemma WalkPicksAll(roster: seq<Address>, start: nat, stride: nat, candidates: set<Address>, picked: seq<Address>)
    requires roster != [] && Gcd(stride, |roster|) == 1 && (forall a :: a in candidates ==> a in roster)
    requires Distinct(picked) && (forall a :: a in picked ==> a in candidates)
    requires Passed(Walk(roster, start, stride), candidates, picked, 3 * |roster|)
    ensures |picked| == |candidates|
  {
    var line := Walk(roster, start, stride);
    DistinctSize(picked);
    forall a | a in candidates
      ensures a in Members(picked)
    {
      var slot :| 0 <= slot < |roster| && roster[slot] == a;
      WalkCoversRoster(start, stride, |roster|, slot);
      var k: nat :| k < |roster| && Slot(start, stride, |roster|, k) == slot;
      assert line[k] == a;
    }
    assert Members(picked) == candidates;
  }

  /**
   * The draw: whatever the seed, it seats distinct eligible outsiders, and as
   * many of them as the roster has, up to three; and the seed decides which.
   */
  method SelectArbiters(roster: seq<Address>, seed: nat, client: Address, freelancer: Address, eligible: set<Address>)
    returns (picked: seq<Address>)
    ensures Distinct(picked) && forall a :: a in picked ==> a in Candidates(roster, client, freelancer, eligible)
    ensures |picked| == Min(MAX_ARBITERS, |Candidates(roster, client, freelancer, eligible)|)
    ensures DrawnBy(seed, roster, Candidates(roster, client, freelancer, eligible), picked)
  {
    picked := [];
    var len := |roster|;
    ghost var candidates := Candidates(roster, client, freelancer, eligible);
    if len == 0 {
      assert candidates == {};
      return;
    }
    var start := seed % len;
    ghost var tries;
    var stride;
    stride, tries := CoprimeStride(seed, len);
    ghost var line := Walk(roster, start, stride);
    ghost var visits: seq<nat> := [];
    var scanned := 0;
    while |picked| < MAX_ARBITERS && scanned < len * 3
      invariant scanned <= len * 3 && |picked| <= MAX_ARBITERS
      invariant PicksInOrder(line, candidates, picked, visits) && Passed(line, candidates, picked, scanned)
      decreases len * 3 - scanned
    {
      var candidate := roster[Slot(start, stride, len, scanned)];
      if candidate != ZERO_ADDRESS && candidate != client && candidate != freelancer && candidate !in picked
        && candidate in eligible
      {
        PickNext(line, candidates, picked, visits, scanned);
        picked := picked + [candidate];
        visits := visits + [scanned];
      }
      scanned := scanned + 1;
    }
    if |picked| < MAX_ARBITERS {
      WalkPicksAll(roster, start, stride, candidates, picked);
    } else {
      DistinctSize(picked);
      SubsetSize(Members(picked), candidates);
    }
  }

  /** Who a locked panel may seat: an eligible outsider. */
  predicate Seatable(nominee: Address, client: Address, freelancer: Address, eligible: set<Address>) {
    nominee != ZERO_ADDRESS && nominee != client && nominee != freelancer && nominee in eligible
  }

  /** What the contract reads from the registry, and the seed it draws with. */
  datatype Registry = Registry(roster: seq<Address>, eligible: set<Address>, stakes: map<Address, nat>, seed: nat)

  /** The nominees of an agreed panel that can be seated. */
  function Seatables(preferred: seq<Address>, reg: Registry, client: Address, freelancer: Address): set<Address> {
    set a | a in preferred && a != 0 && a != client && a != freelancer && a in reg.eligible
  }

  /**
   * A staffed round. An agreed panel is binding: as long as one nominee can be
   * seated, exactly the seatable nominees are, in the order agreed; otherwise the
   * seed draws as many as the roster has candidates, up to three.
   */
  ghost predicate Staffed(picked: seq<Address>, preferred: seq<Address>, reg: Registry, client: Address, freelancer: Address) {
    && ValidPanel(picked, client, freelancer) && ZERO_ADDRESS !in picked
    && if Seatables(preferred, reg, client, freelancer) != {} then
         && (forall a :: a in picked <==> a in Seatables(preferred, reg, client, freelancer))
         && exists visits :: PicksInOrder(preferred, Seatables(preferred, reg, client, freelancer), picked, visits)
       else
         && (forall a :: a in picked ==> a in Candidates(reg.roster, client, freelancer, reg.eligible))
         && DrawnBy(reg.seed, reg.roster, Candidates(reg.roster, client, freelancer, reg.eligible), picked)
  }

  lemma AllPicked(line: seq<Address>, wanted: set<Address>, picked: seq<Address>)
    requires Passed(line, wanted, picked, |line|) && forall a :: a in wanted ==> a in line
    ensures wanted <= Members(picked)
  {
  }

  method Staff(preferred: seq<Address>, reg: Registry, client: Address, freelancer: Address) returns (picked: seq<Address>)
    requires |preferred| == MAX_ARBITERS
    ensures Staffed(picked, preferred, reg, client, freelancer)
  {
    picked := [];
    ghost var wanted, visits: seq<nat> := Seatables(preferred, reg, client, freelancer), [];
    for i := 0 to MAX_ARBITERS
      invariant |picked| <= i
      invariant PicksInOrder(preferred, wanted, picked, visits) && Passed(preferred, wanted, picked, i)
    {
      var nominee := preferred[i];
      if Seatable(nominee, client, freelancer, reg.eligible) && nominee !in picked {
        PickNext(preferred, wanted, picked, visits, i);
        picked := picked + [nominee];
        visits := visits + [i];
      }
    }
    if picked == [] {
      AllPicked(preferred, wanted, picked);
      picked := SelectArbiters(reg.roster, reg.seed, client, freelancer, reg.eligible);
    } else {
      assert picked[0] in wanted;
    }
  }
}
