/**
 * Single-use sign-in nonces (apps/api/src/auth/siwe.ts; EIP-4361, "Verifying a
 * signed Message"). Calls interleave at their awaits; the key-value store's
 * get-and-delete is one step.
 */
module SiweNonce {
  import opened Basics

  type Nonce = string

  datatype Config = Config(domain: string, chainId: nat, ttl: nat, maxAge: nat)

  /** What the verifier reads off a parsed message; a time that does not parse as a date is absent. */
  datatype Message = Message(
    domain: string,
    chainId: nat,
    version: string,
    issuedAt: Option<int>,
    expiration: Option<int>,
    notBefore: Option<int>,
    nonce: Nonce,
    address: nat)

  /** What happened to a nonce, and when (in milliseconds). */
  datatype Event =
    | Issued(nonce: Nonce, at: nat)
    | Consumed(nonce: Nonce, at: nat)
    | Verified(nonce: Nonce, at: nat)
    | Rejected(nonce: Nonce, at: nat)

  datatype World = World(kv: map<Nonce, nat>, now: nat, pending: map<nat, Wait>, log: seq<Event>)

  /** A verification between its awaits. */
  datatype Wait = ForStore(msg: Message) | ForSignature(msg: Message)

  datatype Step =
    | Elapse(ms: nat)
    | Issue(nonce: Nonce)
    | Begin(call: nat, msg: Option<Message>)
    | Consume(call: nat)
    | Recover(call: nat, recovered: Option<nat>)

  /** The checks made before the store is touched, in the source's order. */
  predicate Acceptable(msg: Message, cfg: Config, now: nat) {
    && msg.domain == cfg.domain
    && msg.chainId == cfg.chainId
    && msg.version == "1"
    && msg.issuedAt.Some?
    && now - msg.issuedAt.value <= 1000 * cfg.maxAge
    && (msg.expiration.Some? ==> msg.expiration.value >= now)
    && (msg.notBefore.Some? ==> msg.notBefore.value <= now + 30_000)
  }

  /** A stored nonce is live up to and including its expiry. */
  predicate Live(w: World, nonce: Nonce) {
    nonce in w.kv && w.now <= w.kv[nonce]
  }

  function Next(w: World, s: Step, cfg: Config): World {
    match s
    case Elapse(ms) => w.(now := w.now + ms)
    case Issue(nonce) => w.(kv := w.kv[nonce := w.now + 1000 * cfg.ttl], log := w.log + [Issued(nonce, w.now)])
    case Begin(call, msg) =>
      if call in w.pending || msg == None || !Acceptable(msg.value, cfg, w.now) then w
      else w.(pending := w.pending[call := ForStore(msg.value)])
    case Consume(call) =>
      if call !in w.pending || !w.pending[call].ForStore? then w
      else
        var msg := w.pending[call].msg;
        if Live(w, msg.nonce)
        then w.(kv := w.kv - {msg.nonce}, pending := w.pending[call := ForSignature(msg)], log := w.log + [Consumed(msg.nonce, w.now)])
        else w.(kv := w.kv - {msg.nonce}, pending := w.pending - {call})
    case Recover(call, recovered) =>
      if call !in w.pending || !w.pending[call].ForSignature? then w
      else
        var msg := w.pending[call].msg;
        var ok := recovered == Some(msg.address);
        w.(pending := w.pending - {call},
           log := w.log + [if ok then Verified(msg.nonce, w.now) else Rejected(msg.nonce, w.now)])
  }

  function Run(w: World, steps: seq<Step>, cfg: Config): World
    decreases |steps|
  {
    if steps == [] then w else Run(Next(w, steps[0], cfg), steps[1..], cfg)
  }

  // ---- Counting ----

  datatype Kind = KIssued | KConsumed | KVerified | KRejected

  function KindOf(e: Event): Kind {
    match e
    case Issued(_, _) => KIssued
    case Consumed(_, _) => KConsumed
    case Verified(_, _) => KVerified
    case Rejected(_, _) => KRejected
  }

  function Count(log: seq<Event>, kind: Kind, nonce: Nonce): nat {
    if log == [] then 0
    else
      var e := log[|log| - 1];
      Count(log[..|log| - 1], kind, nonce) + if KindOf(e) == kind && e.nonce == nonce then 1 else 0
  }

  lemma CountSnoc(log: seq<Event>, e: Event, kind: Kind, nonce: Nonce)
    ensures Count(log + [e], kind, nonce) == Count(log, kind, nonce) + if KindOf(e) == kind && e.nonce == nonce then 1 else 0
  {
    assert (log + [e])[..|log|] == log;
  }

  /** The verifications of a nonce that wait for their signature check. */
  function Waiting(pending: map<nat, Wait>, nonce: Nonce): set<nat> {
    set c | c in pending && pending[c].ForSignature? && pending[c].msg.nonce == nonce
  }

  /** A nonce is consumed no more often than issued, once less while it is stored; every consumption is verified, rejected or waiting. */
  ghost predicate Counted(w: World, nonce: Nonce) {
    && Count(w.log, KConsumed, nonce) + (if nonce in w.kv then 1 else 0) <= Count(w.log, KIssued, nonce)
    && Count(w.log, KVerified, nonce) + Count(w.log, KRejected, nonce) + |Waiting(w.pending, nonce)| == Count(w.log, KConsumed, nonce)
  }

  /** The expiry of a stored nonce was set by an issue on record. */
  ghost predicate Stored(w: World, ttl: nat) {
    forall n :: n in w.kv ==> exists k :: 0 <= k < |w.log| && IssuedFor(w.log[k], n, w.kv[n], ttl, w.now)
  }

  predicate IssuedFor(e: Event, nonce: Nonce, expiry: nat, ttl: nat, now: nat) {
    e.Issued? && e.nonce == nonce && e.at + 1000 * ttl == expiry && e.at <= now
  }

  predicate WithinTtl(issue: Event, e: Event, ttl: nat) {
    issue.Issued? && issue.nonce == e.nonce && issue.at <= e.at <= issue.at + 1000 * ttl
  }

  /** Every consumption happened within the lifetime of an earlier issue of that nonce. */
  ghost predicate Timely(log: seq<Event>, ttl: nat) {
    forall i :: 0 <= i < |log| && log[i].Consumed? ==> exists k :: 0 <= k < i && WithinTtl(log[k], log[i], ttl)
  }

  lemma CountsSnoc(log: seq<Event>, e: Event, nonce: Nonce)
    ensures forall kind :: Count(log + [e], kind, nonce) == Count(log, kind, nonce) + if KindOf(e) == kind && e.nonce == nonce then 1 else 0
  {
    forall kind
      ensures Count(log + [e], kind, nonce) == Count(log, kind, nonce) + if KindOf(e) == kind && e.nonce == nonce then 1 else 0
    {
      CountSnoc(log, e, kind, nonce);
    }
  }

  lemma WaitingMore(pending: map<nat, Wait>, call: nat, msg: Message, nonce: Nonce)
    requires call in pending && pending[call] == ForStore(msg)
    ensures |Waiting(pending[call := ForSignature(msg)], nonce)| == |Waiting(pending, nonce)| + if msg.nonce == nonce then 1 else 0
    ensures Waiting(pending - {call}, nonce) == Waiting(pending, nonce)
  {
    if msg.nonce == nonce {
      assert Waiting(pending[call := ForSignature(msg)], nonce) == Waiting(pending, nonce) + {call};
    } else {
      assert Waiting(pending[call := ForSignature(msg)], nonce) == Waiting(pending, nonce);
    }
  }

  lemma ConsumeKeepsCounted(w: World, call: nat, cfg: Config, nonce: Nonce)
    requires Counted(w, nonce) && call in w.pending && w.pending[call].ForStore?
    ensures Counted(Next(w, Consume(call), cfg), nonce)
  {
    var msg := w.pending[call].msg;
    WaitingMore(w.pending, call, msg, nonce);
    CountsSnoc(w.log, Consumed(msg.nonce, w.now), nonce);
  }

  lemma WaitingLess(pending: map<nat, Wait>, call: nat, nonce: Nonce)
    requires call in pending && pending[call].ForSignature?
    ensures |Waiting(pending - {call}, nonce)| == |Waiting(pending, nonce)| - if pending[call].msg.nonce == nonce then 1 else 0
  {
    if pending[call].msg.nonce == nonce {
      assert Waiting(pending, nonce) == Waiting(pending - {call}, nonce) + {call};
    } else {
      assert Waiting(pending - {call}, nonce) == Waiting(pending, nonce);
    }
  }

  lemma RecoverKeepsCounted(w: World, call: nat, recovered: Option<nat>, cfg: Config, nonce: Nonce)
    requires Counted(w, nonce) && call in w.pending && w.pending[call].ForSignature?
    ensures Counted(Next(w, Recover(call, recovered), cfg), nonce)
  {
    var msg := w.pending[call].msg;
    CountsSnoc(w.log, if recovered == Some(msg.address) then Verified(msg.nonce, w.now) else Rejected(msg.nonce, w.now), nonce);
    WaitingLess(w.pending, call, nonce);
  }

  lemma IssueKeepsCounted(w: World, n: Nonce, cfg: Config, nonce: Nonce)
    requires Counted(w, nonce)
    ensures Counted(Next(w, Issue(n), cfg), nonce)
  {
    CountsSnoc(w.log, Issued(n, w.now), nonce);
    assert Next(w, Issue(n), cfg).pending == w.pending;
  }

  lemma BeginKeepsCounted(w: World, call: nat, msg: Option<Message>, cfg: Config, nonce: Nonce)
    requires Counted(w, nonce)
    ensures Counted(Next(w, Begin(call, msg), cfg), nonce)
  {
    assert Waiting(Next(w, Begin(call, msg), cfg).pending, nonce) == Waiting(w.pending, nonce);
  }

  lemma StepKeepsCounted(w: World, s: Step, cfg: Config, nonce: Nonce)
    requires Counted(w, nonce)
    ensures Counted(Next(w, s, cfg), nonce)
  {
    match s
    case Elapse(_) =>
    case Issue(n) => IssueKeepsCounted(w, n, cfg, nonce);
    case Begin(call, msg) => BeginKeepsCounted(w, call, msg, cfg, nonce);
    case Consume(call) =>
      if call in w.pending && w.pending[call].ForStore? { ConsumeKeepsCounted(w, call, cfg, nonce); }
    case Recover(call, recovered) =>
      if call in w.pending && w.pending[call].ForSignature? { RecoverKeepsCounted(w, call, recovered, cfg, nonce); }
  }

  lemma StepKeepsTimely(w: World, s: Step, cfg: Config)
    requires Stored(w, cfg.ttl) && Timely(w.log, cfg.ttl)
    ensures Stored(Next(w, s, cfg), cfg.ttl) && Timely(Next(w, s, cfg).log, cfg.ttl)
  {
    var v := Next(w, s, cfg);
    forall n | n in v.kv
      ensures exists k :: 0 <= k < |v.log| && IssuedFor(v.log[k], n, v.kv[n], cfg.ttl, v.now)
    {
      if n in w.kv && v.kv[n] == w.kv[n] {
        var k :| 0 <= k < |w.log| && IssuedFor(w.log[k], n, w.kv[n], cfg.ttl, w.now);
        assert IssuedFor(v.log[k], n, v.kv[n], cfg.ttl, v.now);
      } else {
        assert IssuedFor(v.log[|w.log|], n, v.kv[n], cfg.ttl, v.now);
      }
    }
    forall i | 0 <= i < |v.log| && v.log[i].Consumed?
      ensures exists k :: 0 <= k < i && WithinTtl(v.log[k], v.log[i], cfg.ttl)
    {
      if i < |w.log| {
        assert v.log[i] == w.log[i];
        var k :| 0 <= k < i && WithinTtl(w.log[k], w.log[i], cfg.ttl);
        assert WithinTtl(v.log[k], v.log[i], cfg.ttl);
      } else {
        var n := v.log[i].nonce;
        var k :| 0 <= k < |w.log| && IssuedFor(w.log[k], n, w.kv[n], cfg.ttl, w.now);
        assert WithinTtl(v.log[k], v.log[i], cfg.ttl);
      }
    }
  }

  /**
   * Over every interleaving of issues, expiries and verifications: a nonce
   * verifies no more often than it was issued, and each verification, or
   * rejection, used up one consumption made within the lifetime of an issue.
   */
  lemma {:induction false} NonceIsSingleUse(w: World, steps: seq<Step>, cfg: Config, nonce: Nonce)
    requires Counted(w, nonce) && Stored(w, cfg.ttl) && Timely(w.log, cfg.ttl)
    ensures var e := Run(w, steps, cfg);
      && Count(e.log, KVerified, nonce) + Count(e.log, KRejected, nonce) <= Count(e.log, KConsumed, nonce)
      && Count(e.log, KConsumed, nonce) <= Count(e.log, KIssued, nonce)
      && Timely(e.log, cfg.ttl)
    decreases |steps|
  {
    if steps != [] {
      StepKeepsCounted(w, steps[0], cfg, nonce);
      StepKeepsTimely(w, steps[0], cfg);
      NonceIsSingleUse(Next(w, steps[0], cfg), steps[1..], cfg, nonce);
    }
  }

  /** Once a call waits for its signature check the nonce is gone, so no second call can get past the store with it until it is issued again. */
  lemma ConsumedIsGone(w: World, first: nat, second: nat, cfg: Config)
    requires first in w.pending && w.pending[first].ForStore?
    requires second in w.pending && w.pending[second].ForStore? && first != second
    requires w.pending[first].msg.nonce == w.pending[second].msg.nonce
    ensures second !in Next(Next(w, Consume(first), cfg), Consume(second), cfg).pending
  {
  }

  lemma RunTwo(w: World, a: Step, b: Step, cfg: Config)
    ensures Run(w, [a, b], cfg) == Next(Next(w, a, cfg), b, cfg)
  {
    assert [a, b][1..] == [b] && [b][1..] == [];
    assert Run(Next(w, a, cfg), [b], cfg) == Run(Next(Next(w, a, cfg), b, cfg), [], cfg);
  }

  lemma RunThree(w: World, a: Step, b: Step, c: Step, cfg: Config)
    ensures Run(w, [a, b, c], cfg) == Next(Next(Next(w, a, cfg), b, cfg), c, cfg)
  {
    assert [a, b, c][1..] == [b, c];
    RunTwo(Next(w, a, cfg), b, c, cfg);
  }

  /** A call nobody interrupts does to the store what the server's own code does, and records its outcome. */
  lemma UninterruptedCall(w: World, call: nat, msg: Message, recovered: Option<nat>, cfg: Config)
    requires call !in w.pending
    ensures var v, passes := Run(w, [Begin(call, Some(msg)), Consume(call), Recover(call, recovered)], cfg), Acceptable(msg, cfg, w.now);
      && v.now == w.now && v.pending == w.pending && v.kv == (if passes then w.kv - {msg.nonce} else w.kv)
      && v.log == w.log
                + (if !passes || msg.nonce !in w.kv || w.now > w.kv[msg.nonce] then []
                   else [Consumed(msg.nonce, w.now),
                         if recovered == Some(msg.address) then Verified(msg.nonce, w.now) else Rejected(msg.nonce, w.now)])
  {
    RunThree(w, Begin(call, Some(msg)), Consume(call), Recover(call, recovered), cfg);
    assert w.pending[call := ForStore(msg)] - {call} == w.pending;
    assert w.pending[call := ForStore(msg)][call := ForSignature(msg)] - {call} == w.pending;
    if Acceptable(msg, cfg, w.now) && Live(w, msg.nonce) {
      var outcome := if recovered == Some(msg.address) then Verified(msg.nonce, w.now) else Rejected(msg.nonce, w.now);
      assert w.log + [Consumed(msg.nonce, w.now)] + [outcome] == w.log + [Consumed(msg.nonce, w.now), outcome];
    }
  }

  /** A nonce issued a while ago signs its holder in exactly while its lifetime lasts and the message and the signature pass. */
  lemma FreshNonceSignsIn(w: World, call: nat, msg: Message, wait: nat, recovered: Option<nat>, cfg: Config)
    requires call !in w.pending
    ensures var u := Run(w, [Issue(msg.nonce), Elapse(wait)], cfg);
      var v := Run(u, [Begin(call, Some(msg)), Consume(call), Recover(call, recovered)], cfg);
      && u.now == w.now + wait
      && (Count(v.log, KVerified, msg.nonce) > Count(w.log, KVerified, msg.nonce)
          <==> Acceptable(msg, cfg, w.now + wait) && wait <= 1000 * cfg.ttl && recovered == Some(msg.address))
  {
    var u := Run(w, [Issue(msg.nonce), Elapse(wait)], cfg);
    RunTwo(w, Issue(msg.nonce), Elapse(wait), cfg);
    CountsSnoc(w.log, Issued(msg.nonce, w.now), msg.nonce);
    UninterruptedCall(u, call, msg, recovered, cfg);
    var v := Run(u, [Begin(call, Some(msg)), Consume(call), Recover(call, recovered)], cfg);
    if |v.log| == |u.log| + 2 {
      var consumed, last := v.log[|u.log|], v.log[|u.log| + 1];
      assert v.log == u.log + [consumed] + [last];
      CountsSnoc(u.log, consumed, msg.nonce);
      CountsSnoc(u.log + [consumed], last, msg.nonce);
    } else {
      assert v.log == u.log;
    }
  }

  // ---- The server's own code ----

  class Siwe {
    const cfg: Config
    var kv: map<Nonce, nat>

    constructor (cfg: Config)
      ensures this.cfg == cfg && kv == map[]
    {
      this.cfg, kv := cfg, map[];
    }

    method IssueNonce(nonce: Nonce, now: nat)
      modifies this
      ensures kv == old(kv)[nonce := now + 1000 * cfg.ttl]
    {
      kv := kv[nonce := now + 1000 * cfg.ttl];
    }

    /** The address, when every guard passes; `recovered` is the signer, if the signature decodes. */
    method VerifySiwe(parsed: Option<Message>, recovered: Option<nat>, now: nat) returns (address: Option<nat>)
      modifies this
      ensures address.Some? <==> (parsed.Some? && Acceptable(parsed.value, cfg, now)
                                  && parsed.value.nonce in old(kv) && now <= old(kv)[parsed.value.nonce]
                                  && recovered == Some(parsed.value.address))
      ensures address.Some? ==> address == recovered
      // a call that got as far as the store has used the nonce up, whatever it then returned
      ensures kv == if parsed.Some? && Acceptable(parsed.value, cfg, now) then old(kv) - {parsed.value.nonce} else old(kv)
    {
      if parsed.None? { return None; }
      var msg := parsed.value;
      if msg.domain != cfg.domain { return None; }
      if msg.chainId != cfg.chainId { return None; }
      if msg.version != "1" { return None; }
      if msg.issuedAt.None? { return None; }
      if now - msg.issuedAt.value > 1000 * cfg.maxAge { return None; }
      if msg.expiration.Some? && msg.expiration.value < now { return None; }
      if msg.notBefore.Some? && msg.notBefore.value > now + 30_000 { return None; }
      var stored := msg.nonce in kv && now <= kv[msg.nonce];
      kv := kv - {msg.nonce};
      if !stored { return None; }
      if recovered.None? || recovered.value != msg.address { return None; }
      return Some(msg.address);
    }
  }
}
