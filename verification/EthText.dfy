/** Decimal ETH text and wei (apps/web/lib/format.ts). */
module EthText {
  import opened Basics

  // ---- Digit strings ----

  predicate IsDigit(c: char) {
    '0' <= c <= '9'
  }

  predicate AllDigits(s: string) {
    forall i :: 0 <= i < |s| ==> IsDigit(s[i])
  }

  function DigitOf(d: nat): char
    requires d < 10
  {
    '0' + d as char
  }

  function ValueOf(c: char): nat {
    if IsDigit(c) then (c - '0') as nat else 0
  }

  /** The number a digit string denotes. */
  function Value(s: string): nat {
    if s == "" then 0 else 10 * Value(s[..|s| - 1]) + ValueOf(s[|s| - 1])
  }

  /** A number in decimal, without leading zeros. */
  function Text(n: nat): string {
    if n < 10 then [DigitOf(n)] else Text(n / 10) + [DigitOf(n % 10)]
  }

  function Pow10(k: nat): nat {
    if k == 0 then 1 else 10 * Pow10(k - 1)
  }

  function PadEnd(s: string, n: nat): string {
    if |s| >= n then s else s + Zeros(n - |s|)
  }

  /** Without trailing zeros. */
  function DropTrailing(s: string): string {
    if s != "" && s[|s| - 1] == '0' then DropTrailing(s[..|s| - 1]) else s
  }

  /** Without leading zeros, but never empty. */
  function DropLeading(s: string): string {
    if s == "" then "0"
    else if s[0] == '0' then DropLeading(s[1..])
    else s
  }

  // ---- Parsing ----

  predicate IsSpace(c: char) {
    var u := c as int;
    9 <= u <= 13 || 0x2000 <= u <= 0x200A || u in {32, 0xA0, 0x1680, 0x2028, 0x2029, 0x202F, 0x205F, 0x3000, 0xFEFF}
  }

  function TrimStart(s: string): string {
    if s != "" && IsSpace(s[0]) then TrimStart(s[1..]) else s
  }

  function TrimEnd(s: string): string {
    if s != "" && IsSpace(s[|s| - 1]) then TrimEnd(s[..|s| - 1]) else s
  }

  function Trim(s: string): string {
    TrimEnd(TrimStart(s))
  }

  function DigitPrefix(s: string): (n: nat)
    ensures n <= |s|
  {
    if s != "" && IsDigit(s[0]) then 1 + DigitPrefix(s[1..]) else 0
  }

  datatype Parts = Parts(whole: string, frac: string)

  /** The pattern: digits, then optionally a point and more digits. */
  function Match(s: string): Option<Parts> {
    var n := DigitPrefix(s);
    if n == |s| then Some(Parts(s, ""))
    else if s[n] == '.' && AllDigits(s[n + 1..]) then Some(Parts(s[..n], s[n + 1..]))
    else None
  }

  const DECIMALS: nat := 18

  const ONE_ETH: nat := 1_000_000_000_000_000_000

  /** The first 18 fraction digits, filled up with zeros. */
  function Scaled(frac: string): string {
    PadEnd(Take(frac, DECIMALS), DECIMALS)
  }

  function EthToWei(eth: string): nat {
    match Match(Trim(eth))
    case None => 0
    case Some(p) => Value(p.whole) * ONE_ETH + Value(Scaled(p.frac))
  }

  // ---- Printing ----

  function Tail(wei: nat): string {
    PadStart(Text(wei % ONE_ETH), DECIMALS)
  }

  function Signed(neg: bool, num: string): string {
    if neg then "-" + num else num
  }

  function Abs(n: int): nat {
    if n < 0 then -n else n
  }

  /** `wei` is None for a missing or unreadable amount. */
  function FormatEth(wei: Option<int>, maxDecimals: int): string {
    match wei
    case None => "—"
    case Some(big) =>
      var neg := big < 0;
      var abs := Abs(big);
      var whole := Text(abs / ONE_ETH);
      var tail := Tail(abs);
      if tail == Zeros(DECIMALS) then Signed(neg, whole)
      else if maxDecimals < DECIMALS then
        var kept := DropTrailing(Take(tail, if maxDecimals < 0 then 0 else maxDecimals));
        Signed(neg, if kept != "" then whole + "." + kept else whole)
      else Signed(neg, whole + "." + DropTrailing(tail))
  }

  // ---- Facts about digit strings ----

  lemma PowPositive(k: nat)
    ensures Pow10(k) > 0
  {
  }

  lemma {:induction false} PowAdd(a: nat, b: nat)
    ensures Pow10(a + b) == Pow10(a) * Pow10(b)
  {
    if a > 0 {
      PowAdd(a - 1, b);
      assert 10 * (Pow10(a - 1) * Pow10(b)) == 10 * Pow10(a - 1) * Pow10(b);
    }
  }

  lemma ValueSnoc(s: string, c: char)
    ensures Value(s + [c]) == 10 * Value(s) + ValueOf(c)
  {
    assert (s + [c])[..|s|] == s;
  }

  lemma {:induction false} ValueConcat(s: string, t: string)
    ensures Value(s + t) == Value(s) * Pow10(|t|) + Value(t)
  {
    if t == "" {
      assert s + t == s;
    } else {
      var u := t[..|t| - 1];
      var c := t[|t| - 1];
      assert s + t == (s + u) + [c] && t == u + [c];
      ValueSnoc(s + u, c);
      ValueSnoc(u, c);
      ValueConcat(s, u);
      Factor(Value(s), Pow10(|u|), Value(u), ValueOf(c));
    }
  }

  lemma Factor(a: int, p: int, b: int, c: int)
    ensures 10 * (a * p + b) + c == a * (10 * p) + (10 * b + c)
  {
  }

  lemma {:induction false} ValueBound(s: string)
    ensures Value(s) < Pow10(|s|)
  {
    if s != "" { ValueBound(s[..|s| - 1]); }
  }

  lemma {:induction false} ZerosShape(k: nat)
    ensures |Zeros(k)| == k && AllDigits(Zeros(k)) && Value(Zeros(k)) == 0
    ensures forall i :: 0 <= i < k ==> Zeros(k)[i] == '0'
  {
    if k > 0 {
      ZerosShape(k - 1);
      ValueSnoc(Zeros(k - 1), '0');
    }
  }

  lemma ZerosThen(k: nat, s: string)
    ensures |Zeros(k) + s| == k + |s| && Value(Zeros(k) + s) == Value(s)
    ensures AllDigits(s) ==> AllDigits(Zeros(k) + s)
  {
    ZerosShape(k);
    ValueConcat(Zeros(k), s);
    var z := Value(Zeros(k));
    assert z == 0;
    assert z * Pow10(|s|) == 0;
  }

  lemma PadStartShape(s: string, n: nat)
    requires |s| <= n
    ensures |PadStart(s, n)| == n && Value(PadStart(s, n)) == Value(s)
    ensures AllDigits(s) ==> AllDigits(PadStart(s, n))
  {
    ZerosThen(n - |s|, s);
    if |s| == n { assert s == Zeros(0) + s; }
  }

  lemma PadEndShape(s: string, n: nat)
    requires |s| <= n
    ensures PadEnd(s, n) == s + Zeros(n - |s|) && |PadEnd(s, n)| == n
    ensures Value(PadEnd(s, n)) == Value(s) * Pow10(n - |s|)
    ensures AllDigits(s) ==> AllDigits(PadEnd(s, n))
  {
    var z := Zeros(n - |s|);
    ZerosShape(n - |s|);
    ValueConcat(s, z);
    if |s| == n { assert z == "" && s == s + z; }
  }

  /** Equally long digit strings with the same value are equal. */
  lemma {:induction false} ValueInjective(s: string, t: string)
    requires AllDigits(s) && AllDigits(t) && |s| == |t| && Value(s) == Value(t)
    ensures s == t
  {
    if s != "" {
      var n := |s| - 1;
      assert s[n] == t[n] && Value(s[..n]) == Value(t[..n]);
      ValueInjective(s[..n], t[..n]);
      assert s == s[..n] + [s[n]] && t == t[..n] + [t[n]];
    }
  }

  lemma DigitRoundTrip(d: nat)
    requires d < 10
    ensures IsDigit(DigitOf(d)) && ValueOf(DigitOf(d)) == d
    ensures DigitOf(d) == '0' <==> d == 0
  {
  }

  lemma DigitTextValue(d: nat)
    requires d < 10
    ensures Value([DigitOf(d)]) == d
  {
    DigitRoundTrip(d);
    assert [DigitOf(d)][..0] == "";
  }

  lemma {:induction false} TextShape(n: nat)
    ensures Text(n) != "" && AllDigits(Text(n)) && Value(Text(n)) == n
    ensures Text(n)[0] == '0' <==> n == 0
  {
    if n < 10 {
      DigitRoundTrip(n);
      DigitTextValue(n);
    } else {
      TextShape(n / 10);
      DigitRoundTrip(n % 10);
      ValueSnoc(Text(n / 10), DigitOf(n % 10));
    }
  }

  lemma {:induction false} TextLength(n: nat, k: nat)
    requires n < Pow10(k) && k > 0
    ensures |Text(n)| <= k
  {
    if n >= 10 {
      TextLength(n / 10, k - 1);
    }
  }

  lemma LeadingZero(s: string)
    ensures Value("0" + s) == Value(s)
  {
    ValueConcat("0", s);
    assert Value("0") == 0 by { DigitTextValue(0); }
  }

  /** Dropping leading zeros is what printing the value does. */
  lemma {:induction false} TextOfValue(s: string)
    requires AllDigits(s)
    ensures Text(Value(s)) == DropLeading(s)
    decreases |s|
  {
    if s != "" {
      if s[0] == '0' {
        assert s == "0" + s[1..];
        LeadingZero(s[1..]);
        TextOfValue(s[1..]);
      } else {
        TextOfPositive(s);
      }
    }
  }

  lemma SplitLastDigit(v: nat, d: nat)
    requires d < 10
    ensures (10 * v + d) / 10 == v && (10 * v + d) % 10 == d
  {
  }

  lemma DigitOfValue(c: char)
    requires IsDigit(c)
    ensures ValueOf(c) < 10 && DigitOf(ValueOf(c)) == c
    ensures ValueOf(c) == 0 <==> c == '0'
  {
  }

  lemma {:induction false} TextOfPositive(s: string)
    requires AllDigits(s) && s != "" && s[0] != '0'
    ensures Text(Value(s)) == s && Value(s) > 0
    decreases |s|
  {
    var n := |s| - 1;
    var c := s[n];
    var t := s[..n];
    assert s == t + [c];
    ValueSnoc(t, c);
    DigitOfValue(c);
    SplitLastDigit(Value(t), ValueOf(c));
    if n > 0 {
      TextOfPositive(t);
    } else {
      assert t == "";
    }
  }

  lemma PadOneMore(d: string, t: string)
    requires |d| <= |t| && PadEnd(d, |t|) == t
    ensures PadEnd(d, |t| + 1) == t + "0"
  {
    assert d + (Zeros(|t| - |d|) + "0") == (d + Zeros(|t| - |d|)) + "0";
  }

  /** A text that does not end in a zero is no text of zeros. */
  lemma LastIsNoZero(s: string)
    requires s != "" && s[|s| - 1] != '0'
    ensures s != Zeros(|s|)
  {
    assert Zeros(|s|)[|s| - 1] == '0';
  }

  lemma ZeroBehind(t: string)
    ensures t + "0" == Zeros(|t| + 1) <==> t == Zeros(|t|)
  {
    var z := Zeros(|t|);
    assert Zeros(|t| + 1) == z + "0";
    assert (t + "0")[..|t|] == t && (z + "0")[..|t|] == z;
  }

  lemma {:induction false} DropTrailingEmpty(s: string)
    ensures DropTrailing(s) == "" <==> s == Zeros(|s|)
  {
    if s != "" {
      if s[|s| - 1] == '0' {
        var t := s[..|s| - 1];
        DropTrailingEmpty(t);
        ZeroBehind(t);
        assert s == t + "0";
      } else {
        LastIsNoZero(s);
      }
    }
  }

  lemma {:induction false} DropTrailingPads(s: string)
    ensures |DropTrailing(s)| <= |s| && PadEnd(DropTrailing(s), |s|) == s
    ensures AllDigits(s) ==> AllDigits(DropTrailing(s))
  {
    if s != "" && s[|s| - 1] == '0' {
      var t := s[..|s| - 1];
      DropTrailingPads(t);
      assert s == t + "0";
      PadOneMore(DropTrailing(t), t);
    }
  }

  lemma DropTrailingShape(s: string)
    ensures |DropTrailing(s)| <= |s| && PadEnd(DropTrailing(s), |s|) == s
    ensures AllDigits(s) ==> AllDigits(DropTrailing(s))
    ensures DropTrailing(s) == "" <==> s == Zeros(|s|)
  {
    DropTrailingPads(s);
    DropTrailingEmpty(s);
  }

  lemma {:induction false} DropTrailingIgnoresZeros(s: string, k: nat)
    ensures DropTrailing(s + Zeros(k)) == DropTrailing(s)
  {
    if k == 0 {
      assert s + Zeros(0) == s;
    } else {
      assert (s + Zeros(k))[..|s + Zeros(k)| - 1] == s + Zeros(k - 1);
      DropTrailingIgnoresZeros(s, k - 1);
    }
  }

  // ---- Matching what was printed ----

  lemma {:induction false} DigitPrefixOf(a: string, rest: string)
    requires AllDigits(a) && (rest == "" || !IsDigit(rest[0]))
    ensures DigitPrefix(a + rest) == |a|
    decreases |a|
  {
    if a == "" {
      assert a + rest == rest;
    } else {
      assert (a + rest)[1..] == a[1..] + rest;
      DigitPrefixOf(a[1..], rest);
    }
  }

  lemma MatchWhole(a: string)
    requires AllDigits(a)
    ensures Match(a) == Some(Parts(a, ""))
  {
    DigitPrefixOf(a, "");
    assert a + "" == a;
  }

  lemma MatchBoth(a: string, b: string)
    requires AllDigits(a) && AllDigits(b)
    ensures Match(a + "." + b) == Some(Parts(a, b))
  {
    var s := a + "." + b;
    assert s == a + ("." + b);
    DigitPrefixOf(a, "." + b);
    assert s[..|a|] == a && s[|a| + 1..] == b;
  }

  lemma {:induction false} DigitPrefixIsDigits(s: string)
    ensures AllDigits(s[..DigitPrefix(s)])
  {
    if s != "" && IsDigit(s[0]) {
      DigitPrefixIsDigits(s[1..]);
      var n := DigitPrefix(s);
      forall i | 0 <= i < n
        ensures IsDigit(s[..n][i])
      {
        if i > 0 { assert s[..n][i] == s[1..][..n - 1][i - 1]; }
      }
    }
  }

  lemma MatchIsDigits(s: string)
    requires Match(s).Some?
    ensures AllDigits(Match(s).value.whole) && AllDigits(Match(s).value.frac)
  {
    DigitPrefixIsDigits(s);
    assert s[..|s|] == s;
  }

  lemma TrimNoop(s: string)
    requires s == "" || (!IsSpace(s[0]) && !IsSpace(s[|s| - 1]))
    ensures Trim(s) == s
  {
  }

  lemma DigitsAreNotSpace(c: char)
    requires IsDigit(c) || c == '.' || c == '-'
    ensures !IsSpace(c)
  {
  }

  lemma PrintedTrim(s: string)
    requires s != "" && (IsDigit(s[0]) || s[0] == '-') && IsDigit(s[|s| - 1])
    ensures Trim(s) == s
  {
    DigitsAreNotSpace(s[0]);
    DigitsAreNotSpace(s[|s| - 1]);
    TrimNoop(s);
  }

  // ---- Reading back what was printed ----

  lemma OneEthIsPow()
    ensures Pow10(DECIMALS) == ONE_ETH
  {
    assert Pow10(6) == 1_000_000;
    PowAdd(6, 6);
    PowAdd(12, 6);
  }

  /** The 18 digits after the point. */
  lemma TailShape(w: nat)
    ensures |Tail(w)| == DECIMALS && AllDigits(Tail(w)) && Value(Tail(w)) == w % ONE_ETH
  {
    OneEthIsPow();
    TextShape(w % ONE_ETH);
    TextLength(w % ONE_ETH, DECIMALS);
    PadStartShape(Text(w % ONE_ETH), DECIMALS);
  }

  /** What the parser makes of a printed whole and fraction. */
  lemma ReadParts(a: string, b: string)
    requires a != "" && AllDigits(a) && AllDigits(b) && b != "" && |b| <= DECIMALS
    ensures EthToWei(a + "." + b) == Value(a) * ONE_ETH + Value(PadEnd(b, DECIMALS))
  {
    var s := a + "." + b;
    assert s[0] == a[0] && s[|s| - 1] == b[|b| - 1];
    PrintedTrim(s);
    MatchBoth(a, b);
  }

  lemma ScaledNothing()
    ensures Value(Scaled("")) == 0
  {
    PadEndShape("", DECIMALS);
    ZerosShape(DECIMALS);
    assert "" + Zeros(DECIMALS) == Zeros(DECIMALS);
  }

  lemma ReadWhole(a: string)
    requires a != "" && AllDigits(a)
    ensures EthToWei(a) == Value(a) * ONE_ETH
  {
    PrintedTrim(a);
    MatchWhole(a);
    ScaledNothing();
  }

  /** The digits printed after the point when `k` of the 18 may be shown. */
  function Kept(w: nat, k: nat): string {
    DropTrailing(Take(Tail(w), k))
  }

  lemma PrintedShape(w: nat, k: nat)
    requires k <= DECIMALS
    ensures var a := Text(w / ONE_ETH);
      FormatEth(Some(w), k) == if Kept(w, k) == "" then a else a + "." + Kept(w, k)
    ensures |Kept(w, k)| <= k && AllDigits(Kept(w, k))
    ensures Value(PadEnd(Kept(w, k), k)) == Value(Take(Tail(w), k))
  {
    TailShape(w);
    var t := Take(Tail(w), k);
    DropTrailingShape(t);
    assert |t| == k;
    if Tail(w) == Zeros(DECIMALS) {
      ZerosPrefix(DECIMALS, k);
    }
    if k == DECIMALS {
      assert t == Tail(w);
    }
  }

  lemma {:induction false} ZerosPrefix(n: nat, k: nat)
    requires k <= n
    ensures |Zeros(n)| == n && Take(Zeros(n), k) == Zeros(k)
  {
    ZerosShape(n);
    if k < n {
      ZerosPrefix(n - 1, k);
      assert Zeros(n)[..k] == Zeros(n - 1)[..k];
    }
  }

  /** What is printed reads back as its whole part and its kept digits. */
  lemma ReadKept(w: nat, k: nat)
    requires k <= DECIMALS
    ensures EthToWei(FormatEth(Some(w), k)) == w / ONE_ETH * ONE_ETH + Value(PadEnd(Kept(w, k), DECIMALS))
  {
    TextShape(w / ONE_ETH);
    PrintedShape(w, k);
    if Kept(w, k) == "" {
      ReadWhole(Text(w / ONE_ETH));
      ScaledNothing();
      assert Take("", DECIMALS) == "";
    } else {
      ReadParts(Text(w / ONE_ETH), Kept(w, k));
    }
  }

  lemma Associate(a: nat, b: nat, c: nat)
    ensures a * (b * c) == a * b * c
  {
  }

  lemma PadTwice(b: string, k: nat)
    requires |b| <= k <= DECIMALS
    ensures Value(PadEnd(b, DECIMALS)) == Value(PadEnd(b, k)) * Pow10(DECIMALS - k)
  {
    PadEndShape(b, k);
    PadEndShape(b, DECIMALS);
    PowAdd(k - |b|, DECIMALS - k);
    Associate(Value(b), Pow10(k - |b|), Pow10(DECIMALS - k));
    assert Pow10(DECIMALS - |b|) == Pow10(k - |b|) * Pow10(DECIMALS - k);
  }

  /** Printed with at most k decimals, an amount reads back cut off after k decimals. */
  lemma ReadPrinted(w: nat, k: nat)
    requires k <= DECIMALS
    ensures EthToWei(FormatEth(Some(w), k)) == w / ONE_ETH * ONE_ETH + Value(Take(Tail(w), k)) * Pow10(DECIMALS - k)
  {
    ReadKept(w, k);
    PrintedShape(w, k);
    PadTwice(Kept(w, k), k);
  }

  /** What a reader makes of an exactly printed amount. */
  function Reread(w: nat): nat {
    EthToWei(FormatEth(Some(w), DECIMALS))
  }

  /** Parsing inverts exact printing, for every amount. */
  lemma ReadBack(w: nat)
    ensures Reread(w) == w
  {
    ReadPrinted(w, DECIMALS);
    TailShape(w);
    assert Take(Tail(w), DECIMALS) == Tail(w);
  }

  lemma CutValue(t: string, k: nat)
    requires k <= |t|
    ensures Value(t[..k]) * Pow10(|t| - k) <= Value(t) < Value(t[..k]) * Pow10(|t| - k) + Pow10(|t| - k)
  {
    assert t == t[..k] + t[k..];
    ValueConcat(t[..k], t[k..]);
    ValueBound(t[k..]);
  }

  /** With fewer decimals the printed value never exceeds the amount and misses less than one unit of the last place. */
  lemma ReadTruncated(w: nat, k: nat)
    requires k < DECIMALS
    ensures var d := EthToWei(FormatEth(Some(w), k)); d <= w < d + Pow10(DECIMALS - k)
  {
    ReadPrinted(w, k);
    TailShape(w);
    CutTail(Tail(w), k);
    WholeAndRest(w, Value(Tail(w)));
  }

  lemma CutTail(t: string, k: nat)
    requires k < DECIMALS == |t|
    ensures var cut := Value(Take(t, k)) * Pow10(DECIMALS - k);
      cut <= Value(t) < cut + Pow10(DECIMALS - k)
  {
    CutValue(t, k);
  }

  lemma WholeAndRest(w: nat, rest: nat)
    requires rest == w % ONE_ETH
    ensures w == w / ONE_ETH * ONE_ETH + rest
  {
  }

  lemma PrintedEnds(w: nat)
    ensures var s := FormatEth(Some(w), DECIMALS); s != "" && IsDigit(s[0]) && IsDigit(s[|s| - 1])
  {
    PrintedShape(w, DECIMALS);
    TextShape(w / ONE_ETH);
  }

  lemma PrintedSign(w: int)
    requires w > 0
    ensures FormatEth(Some(-w), DECIMALS) == "-" + FormatEth(Some(w), DECIMALS)
  {
    assert Abs(-w) == Abs(w);
  }

  lemma MinusUnreadable(s: string)
    requires s != "" && IsDigit(s[|s| - 1])
    ensures EthToWei("-" + s) == 0
  {
    var t := "-" + s;
    assert t[|t| - 1] == s[|s| - 1];
    PrintedTrim(t);
  }

  /** A negative amount is printed with a sign the parser does not read. */
  lemma NegativeReadsZero(w: int)
    requires w > 0
    ensures EthToWei(FormatEth(Some(-w), DECIMALS)) == 0
  {
    PrintedEnds(w);
    PrintedSign(w);
    MinusUnreadable(FormatEth(Some(w), DECIMALS));
  }

  lemma {:induction false} DropTrailingTidy(s: string)
    ensures DropTrailing(s) != "" ==> DropTrailing(s)[|DropTrailing(s)| - 1] != '0'
  {
    if s != "" { DropTrailingTidy(s[..|s| - 1]); }
  }

  /** No zero that says nothing: `a` before the point, at most `k` digits `b` after it. */
  predicate TidyParts(s: string, a: string, b: string, k: nat) {
    && s == (if b == "" then a else a + "." + b)
    && a != "" && AllDigits(a) && (|a| > 1 ==> a[0] != '0')
    && AllDigits(b) && |b| <= k && (b != "" ==> b[|b| - 1] != '0')
  }

  ghost predicate Tidy(s: string, k: nat) {
    exists a, b :: TidyParts(s, a, b, k)
  }

  /** Any number of places is shown as one between 0 and 18. */
  lemma PlacesAreClamped(w: int, k: int)
    ensures FormatEth(Some(w), k) == FormatEth(Some(w), if k < 0 then 0 else if k > 18 then 18 else k)
  {
  }

  lemma TextIsTidy(n: nat)
    ensures Text(n) != "" && AllDigits(Text(n)) && (|Text(n)| > 1 ==> Text(n)[0] != '0')
  {
    TextShape(n);
  }

  lemma TidyAt(w: nat, k: nat)
    requires k <= DECIMALS
    ensures Tidy(FormatEth(Some(w), k), k)
  {
    var a, b := Text(w / ONE_ETH), Kept(w, k);
    PrintedShape(w, k);
    DropTrailingTidy(Take(Tail(w), k));
    TextIsTidy(w / ONE_ETH);
    assert TidyParts(FormatEth(Some(w), k), a, b, k);
  }

  /** Every printed amount is tidy. */
  lemma PrintedIsTidy(w: nat, k: int)
    ensures Tidy(FormatEth(Some(w), k), if k < 0 then 0 else if k > 18 then 18 else k)
  {
    PlacesAreClamped(w, k);
    TidyAt(w, if k < 0 then 0 else if k > 18 then 18 else k);
  }

  /** A negative amount is printed as its absolute value behind a sign. */
  lemma SignComesFirst(w: int, k: int)
    requires w > 0
    ensures FormatEth(Some(-w), k) == "-" + FormatEth(Some(w), k)
  {
    assert Abs(-w) == Abs(w);
  }

  // ---- Printing what was read ----

  /** 18 fraction digits kept, leading and trailing zeros dropped. */
  function Canonical(p: Parts): string {
    var b := DropTrailing(Take(p.frac, DECIMALS));
    if b == "" then DropLeading(p.whole) else DropLeading(p.whole) + "." + b
  }

  lemma DivModUnique(q: nat, r: nat)
    requires r < ONE_ETH
    ensures (q * ONE_ETH + r) / ONE_ETH == q && (q * ONE_ETH + r) % ONE_ETH == r
  {
  }

  lemma ScaledShape(frac: string)
    requires AllDigits(frac)
    ensures |Scaled(frac)| == DECIMALS && AllDigits(Scaled(frac)) && Value(Scaled(frac)) < ONE_ETH
    ensures DropTrailing(Scaled(frac)) == DropTrailing(Take(frac, DECIMALS))
  {
    var cut := Take(frac, DECIMALS);
    PadEndShape(cut, DECIMALS);
    OneEthIsPow();
    ValueBound(Scaled(frac));
    DropTrailingIgnoresZeros(cut, DECIMALS - |cut|);
  }

  lemma PartsRestored(p: Parts, w: nat)
    requires AllDigits(p.whole) && AllDigits(p.frac)
    requires w == Value(p.whole) * ONE_ETH + Value(Scaled(p.frac))
    ensures w / ONE_ETH == Value(p.whole) && Tail(w) == Scaled(p.frac)
  {
    ScaledShape(p.frac);
    DivModUnique(Value(p.whole), Value(Scaled(p.frac)));
    TailShape(w);
    ValueInjective(Tail(w), Scaled(p.frac));
  }

  lemma PrintParts(p: Parts, w: nat)
    requires AllDigits(p.whole) && AllDigits(p.frac)
    requires w == Value(p.whole) * ONE_ETH + Value(Scaled(p.frac))
    ensures FormatEth(Some(w), DECIMALS) == Canonical(p)
  {
    PartsRestored(p, w);
    ScaledShape(p.frac);
    TextOfValue(p.whole);
    PrintedShape(w, DECIMALS);
    assert Take(Tail(w), DECIMALS) == Tail(w);
  }

  /** Printing inverts parsing up to the canonical form, for every text the pattern accepts. */
  lemma PrintRead(s: string)
    requires Match(Trim(s)).Some?
    ensures FormatEth(Some(EthToWei(s)), DECIMALS) == Canonical(Match(Trim(s)).value)
  {
    MatchIsDigits(Trim(s));
    PrintParts(Match(Trim(s)).value, EthToWei(s));
  }

  // ---- Lifetime totals ----

  /** `decimals` is clamped to 0..17. */
  function StepOf(decimals: int): nat {
    Pow10(DECIMALS - (if decimals < 0 then 0 else if decimals > 17 then 17 else decimals))
  }

  lemma StepIsEven(decimals: int)
    ensures StepOf(decimals) > 0 && StepOf(decimals) % 2 == 0
  {
    PowPositive(DECIMALS - (if decimals < 0 then 0 else if decimals > 17 then 17 else decimals));
  }

  /** The step is one unit of the last place shown: a whole ether without places, ten wei at the most places, 17. */
  lemma StepIsLastPlace(decimals: int)
    ensures decimals <= 0 ==> StepOf(decimals) == 1_000_000_000_000_000_000
    ensures 0 <= decimals <= 17 ==> StepOf(decimals) * Pow10(decimals) == 1_000_000_000_000_000_000
    ensures decimals >= 17 ==> StepOf(decimals) == 10
  {
    OneEthIsPow();
    if 0 <= decimals <= 17 {
      var rest := DECIMALS - decimals;
      PowAdd(rest, decimals);
    }
    assert Pow10(0) == 1;
    assert Pow10(1) == 10;
  }

  function Rounded(abs: nat, step: nat): nat
    requires step > 0
  {
    (abs + step / 2) / step * step
  }

  function FormatEthSummary(wei: Option<int>, decimals: int): string {
    match wei
    case None => "—"
    case Some(big) =>
      if big == 0 then "0"
      else
        StepIsEven(decimals);
        SummaryAt(big < 0, Abs(big), StepOf(decimals))
  }

  /** A non-zero amount, rounded to the step unless that would lose it. */
  function SummaryAt(negative: bool, abs: nat, step: nat): string
    requires step > 0
  {
    var rounded: int := Rounded(abs, step);
    FormatEth(Some(if rounded == 0 then abs else if negative then -rounded else rounded), DECIMALS)
  }

  /** The value a lifetime total shows. */
  function Shown(w: nat, decimals: int): nat {
    EthToWei(FormatEthSummary(Some(w), decimals))
  }

  /** What a total shows for a given step. */
  function ShownAt(w: nat, step: nat): nat
    requires step > 0
  {
    if w < step / 2 then w else Rounded(w, step)
  }

  predicate Multiple(n: nat, q: nat, step: nat) {
    n == q * step
  }

  lemma RoundedBounds(w: nat, step: nat)
    requires step > 0 && step % 2 == 0
    ensures var r := Rounded(w, step);
      && Multiple(r, (w + step / 2) / step, step)
      && w - step / 2 < r <= w + step / 2
      && (r == 0 <==> w < step / 2)
  {
    var q := (w + step / 2) / step;
    assert w + step / 2 == q * step + (w + step / 2) % step;
    if q >= 1 { TimesMonotone(1, q, step); }
  }

  lemma ShownValue(w: nat, decimals: int)
    ensures StepOf(decimals) > 0 && Shown(w, decimals) == ShownAt(w, StepOf(decimals))
  {
    StepIsEven(decimals);
    RoundedBounds(w, StepOf(decimals));
    if w == 0 {
      assert "0" == Text(0);
      TextShape(0);
      ReadWhole("0");
    } else {
      ReadBack(w);
      ReadBack(Rounded(w, StepOf(decimals)));
    }
  }

  /** Exact below half a step, otherwise the nearest multiple of the step, ties going up; zero only for zero. */
  ghost predicate Nearest(w: nat, d: nat, step: nat) {
    && (w < step / 2 ==> d == w)
    && (w >= step / 2 ==> (exists q :: Multiple(d, q, step)) && w - step / 2 < d <= w + step / 2)
    && (d == 0 <==> w == 0)
  }

  lemma RestIsMultiple(q: nat, step: nat, p: nat, a: nat, t: nat)
    requires q * step == a * (p * step) + t
    ensures t == (q - a * p) * step
  {
    assert a * (p * step) == a * p * step;
  }

  lemma ZeroProduct(d: int, x: nat)
    requires x > 0 && d * x == 0
    ensures d == 0
  {
  }

  lemma Cancel(v: int, x: nat, e: int, y: nat)
    requires x > 0 && v * x == e * (x * y)
    ensures v == e * y
  {
    assert e * (x * y) == e * y * x;
    ZeroProduct(v - e * y, x);
  }

  lemma TensEndInZero(s: string, e: int, y: nat)
    requires s != "" && AllDigits(s) && Value(s) == e * (10 * y)
    ensures s[|s| - 1] == '0'
  {
    var v, d := Value(s[..|s| - 1]), ValueOf(s[|s| - 1]);
    assert e * (10 * y) == 10 * (e * y);
    DigitOfValue(s[|s| - 1]);
    assert d == 10 * (e * y - v);
  }

  /** A digit beyond the step's places is a zero. */
  lemma DigitBeyondStep(b: string, q: nat, whole: nat, rest: nat, d: nat)
    requires d < |b| <= DECIMALS && AllDigits(b) && Value(b) * Pow10(DECIMALS - |b|) == rest
    requires q * Pow10(DECIMALS - d) == whole * ONE_ETH + rest
    ensures b[|b| - 1] == '0'
  {
    var behind, more, places, fewer := DECIMALS - |b|, |b| - d, DECIMALS - d, |b| - d - 1;
    OneEthIsPow();
    PowAdd(d, places);
    PowAdd(behind, more);
    PowPositive(behind);
    RestIsMultiple(q, Pow10(places), Pow10(d), whole, rest);
    Cancel(Value(b), Pow10(behind), q - whole * Pow10(d), Pow10(more));
    TensEndInZero(b, q - whole * Pow10(d), Pow10(fewer));
  }

  /** An amount that is a multiple of a step is printed with no more places than the step has. */
  lemma StepBoundsPlaces(r: nat, q: nat, d: nat)
    requires d <= 17 && r == q * Pow10(DECIMALS - d)
    ensures |Kept(r, DECIMALS)| <= d
  {
    var b := Kept(r, DECIMALS);
    TailShape(r);
    PrintedShape(r, DECIMALS);
    assert Take(Tail(r), DECIMALS) == Tail(r);
    PadEndShape(b, DECIMALS);
    if |b| > d {
      DropTrailingTidy(Tail(r));
      DigitBeyondStep(b, q, r / ONE_ETH, r % ONE_ETH, d);
    }
  }

  /** A lifetime total of at least half a step shows no more places than asked for; every total is tidy. */
  lemma SummaryIsTidy(w: nat, decimals: int)
    ensures var d := if decimals < 0 then 0 else if decimals > 17 then 17 else decimals;
      Tidy(FormatEthSummary(Some(w), decimals), if w >= StepOf(decimals) / 2 then d else DECIMALS)
  {
    StepIsEven(decimals);
    var d, step := if decimals < 0 then 0 else if decimals > 17 then 17 else decimals, StepOf(decimals);
    if w == 0 {
      assert TidyParts("0", "0", "", DECIMALS);
    } else {
      var r := Rounded(w, step);
      RoundedBounds(w, step);
      if r == 0 {
        TidyAt(w, DECIMALS);
      } else {
        StepBoundsPlaces(r, (w + step / 2) / step, d);
        RoundedTidy(r, d);
      }
    }
  }

  lemma RoundedTidy(r: nat, d: nat)
    requires d <= 17 && |Kept(r, DECIMALS)| <= d
    ensures Tidy(FormatEth(Some(r), DECIMALS), d)
  {
    var a, b := Text(r / ONE_ETH), Kept(r, DECIMALS);
    PrintedShape(r, DECIMALS);
    DropTrailingTidy(Take(Tail(r), DECIMALS));
    TextIsTidy(r / ONE_ETH);
    assert TidyParts(FormatEth(Some(r), DECIMALS), a, b, d);
  }

  lemma ShownAtNearest(w: nat, step: nat)
    requires step > 0 && step % 2 == 0
    ensures Nearest(w, ShownAt(w, step), step)
  {
    RoundedBounds(w, step);
  }

  /** Every lifetime total is rounded to the nearest step. */
  lemma ShownIsNearest(w: nat, decimals: int)
    ensures Nearest(w, Shown(w, decimals), StepOf(decimals))
  {
    ShownValue(w, decimals);
    StepIsEven(decimals);
    ShownAtNearest(w, StepOf(decimals));
  }

  lemma DivMonotone(a: nat, b: nat, step: nat)
    requires a <= b && step > 0
    ensures a / step <= b / step
  {
    var p, q := a / step, b / step;
    assert a == p * step + a % step && b == q * step + b % step;
    if p > q { TimesMonotone(q + 1, p, step); }
  }

  lemma RoundedMonotone(v: nat, w: nat, step: nat)
    requires v <= w && step > 0
    ensures Rounded(v, step) <= Rounded(w, step)
  {
    DivMonotone(v + step / 2, w + step / 2, step);
    TimesMonotone((v + step / 2) / step, (w + step / 2) / step, step);
  }

  lemma ShownAtMonotone(v: nat, w: nat, step: nat)
    requires v <= w && step > 0 && step % 2 == 0
    ensures ShownAt(v, step) <= ShownAt(w, step)
  {
    RoundedMonotone(v, w, step);
    if v < step / 2 <= w {
      RoundedBounds(w, step);
      TimesMonotone(1, (w + step / 2) / step, step);
    }
  }

  /** A larger total never shows a smaller value. */
  lemma ShownIsMonotone(v: nat, w: nat, decimals: int)
    requires v <= w
    ensures Shown(v, decimals) <= Shown(w, decimals)
  {
    ShownValue(v, decimals);
    ShownValue(w, decimals);
    StepIsEven(decimals);
    ShownAtMonotone(v, w, StepOf(decimals));
  }

  /** The sign of a negative total is lost exactly when it is within half a step of zero. */
  lemma SummarySign(w: int, decimals: int)
    requires w > 0
    ensures FormatEthSummary(Some(-w), decimals)[0] != '-' <==> w < StepOf(decimals) / 2
    ensures w < StepOf(decimals) / 2 ==> FormatEthSummary(Some(-w), decimals) == FormatEthSummary(Some(w), decimals)
  {
    StepIsEven(decimals);
    var r := Rounded(w, StepOf(decimals));
    RoundedBounds(w, StepOf(decimals));
    SummaryParts(w, StepOf(decimals), r);
    assert Abs(-w) == w && Abs(w) == w;
    assert FormatEthSummary(Some(w), decimals) == SummaryAt(false, w, StepOf(decimals));
    assert FormatEthSummary(Some(-w), decimals) == SummaryAt(true, w, StepOf(decimals));
    PrintedEnds(w);
    if r > 0 { PrintedSign(r); }
  }

  lemma SummaryParts(w: nat, step: nat, r: int)
    requires step > 0 && r == Rounded(w, step)
    ensures SummaryAt(false, w, step) == FormatEth(Some(if r == 0 then w else r), DECIMALS)
    ensures SummaryAt(true, w, step) == FormatEth(Some(if r == 0 then w else -r), DECIMALS)
  {
  }
}
