/** The retransmission timer of the discovery stage: when it is armed, how long its
    delays are, and how long an unanswered request lasts. */
module PppoeTimers {
  import opened Basics
  import opened PppoeTags
  import opened PppoeNode
  import opened PppoeInvariants

  predicate Pending(s: Session) {
    s.neg.Some? && s.neg.value.pending.Some?
  }

  /** A timer is armed if and only if the session is in one of the three waiting states and is
      not a server session that gave up and waits for the removal of its hook. */
  lemma TimerArmedIff(cfg: Config, c: Core, p: Ptr)
    requires CoreInv(cfg, c) && p in c.sess
    ensures var s := c.sess[p]; Pending(s) <==> TimerState(s.state) && !(s.state == SOffer && p in c.removing)
  {
    assert SessionFits(cfg, c.sess[p], p in c.removing);
  }

  /** The ticker never reaches its default branch, nor the one for PRIMED: whenever it
      runs it resends the last packet or asks for the removal of the hook. */
  lemma TickerActs(cfg: Config, c: Core, p: Ptr)
    requires CoreInv(cfg, c) && CoreSafe(c) && p in c.sess && Pending(c.sess[p])
    ensures
      var r := TimeoutStep(c, cfg, p);
      if c.sess[p].state == SOffer then r.out == [RemoveHook(p)] && !Pending(r.core.sess[p])
      else |r.out| >= 1 && r.out[0] == SendEther(DiscoveryPacket(cfg, c.sess[p].neg.value)) && Pending(r.core.sess[p])
  {
    ExpireFits(cfg, p, c.sess[p], p in c.removing);
  }

  // ----- back-off

  /** The session after its timer has fired `k` times with no packet in between. */
  function Expired(cfg: Config, p: Ptr, s: Session, k: nat): (r: Session)
    requires s.neg.Some?
    ensures r.neg.Some?
  {
    if k == 0 then s else ExpireSession(cfg, p, Expired(cfg, p, s, k - 1))
  }

  predicate JustSent(cfg: Config, s: Session) {
    s.neg.Some? && s.neg.value.pending == Some(cfg.initial) && s.neg.value.timeout == 2 * cfg.initial
  }

  function Min(a: nat, b: nat): nat {
    if a <= b then a else b
  }

  /** The same session, waiting for the answer to the same packet; only its timer differs. */
  ghost predicate StillWaits(s: Session, r: Session) {
    && s.neg.Some? && r.neg.Some?
    && r == s.(neg := Some(s.neg.value.(pending := r.neg.value.pending, timeout := r.neg.value.timeout)))
  }

  /** The delays before the firings number 0, 1, ..., k-1, added up. */
  function TotalDelay(cfg: Config, p: Ptr, s: Session, k: nat): nat
    requires s.neg.Some?
  {
    if k == 0 then 0
    else
      var n := Expired(cfg, p, s, k - 1).neg.value;
      TotalDelay(cfg, p, s, k - 1) + (if n.pending.Some? then n.pending.value else 0)
  }

  /** An unanswered PADI: delay number `k` is the initial one doubled `k` times, cut off
      at the limit, and the session stays in SINIT. */
  lemma {:induction false} InitBackoff(cfg: Config, p: Ptr, s: Session, k: nat)
    requires s.state == SInit && JustSent(cfg, s)
    ensures
      var r := Expired(cfg, p, s, k);
      && StillWaits(s, r)
      && r.neg.value.pending == Some(Min(cfg.initial * Pow2(k), cfg.limit))
      && r.neg.value.timeout == Min(cfg.initial * Pow2(k + 1), cfg.limit)
  {
    if k != 0 {
      InitBackoff(cfg, p, s, k - 1);
      DoubleDelay(cfg.initial, k - 1);
      DoubleDelay(cfg.initial, k);
    }
  }

  /** Whatever its delay was, an unanswered PADI keeps being sent. */
  lemma {:induction false} InitWaits(cfg: Config, p: Ptr, s: Session, k: nat)
    requires s.state == SInit && s.neg.Some?
    ensures StillWaits(s, Expired(cfg, p, s, k))
  {
    if k != 0 {
      InitWaits(cfg, p, s, k - 1);
    }
  }

  lemma DoubleDelay(a: nat, k: nat)
    ensures a * Pow2(k + 1) == 2 * (a * Pow2(k))
  {
    calc {
      a * Pow2(k + 1);
      a * (2 * Pow2(k));
      2 * (a * Pow2(k));
    }
  }

  /** As long as the doubled delay is within the limit an unanswered PADR is resent. */
  lemma {:induction false} RequestBackoff(cfg: Config, p: Ptr, s: Session, k: nat)
    requires s.state == SReq && JustSent(cfg, s)
    requires forall j :: 1 <= j <= k ==> Resends(cfg, j)
    ensures
      var r := Expired(cfg, p, s, k);
      && StillWaits(s, r)
      && r.neg.value.pending == Some(cfg.initial * Pow2(k))
      && r.neg.value.timeout == cfg.initial * Pow2(k + 1)
    ensures TotalDelay(cfg, p, s, k) == cfg.initial * Pow2(k) - cfg.initial
  {
    DoubleDelay(cfg.initial, k);
    if k != 0 {
      assert Resends(cfg, k);
      DoubleDelay(cfg.initial, k - 1);
      RequestBackoff(cfg, p, s, k - 1);
    }
  }

  /** Firing number `j` still resends the request: its doubled delay is within the limit. */
  predicate Resends(cfg: Config, j: nat) {
    cfg.initial * Pow2(j + 1) <= cfg.limit
  }

  /** The number of firings after which a request is given up: the first one whose
      doubled delay exceeds the limit. */
  function GiveUpAfter(cfg: Config, k: nat): (r: nat)
    requires k >= 1
    ensures r >= k && !Resends(cfg, r)
    ensures forall j :: k <= j < r ==> Resends(cfg, j)
    decreases cfg.limit - cfg.initial * Pow2(k)
  {
    DoubleDelay(cfg.initial, k);
    Positive(cfg.initial, Pow2(k));
    if !Resends(cfg, k) then k else GiveUpAfter(cfg, k + 1)
  }

  lemma Positive(a: nat, b: nat)
    requires a > 0 && b > 0
    ensures a * b > 0
  {
  }

  /** An unanswered PADR is resent until firing number K = floor(log2(limit/initial)),
      which reverts the session to a fresh PADI; all that takes less than the limit. */
  lemma RequestRevertsInTime(cfg: Config, p: Ptr, s: Session)
    requires s.state == SReq && JustSent(cfg, s)
    ensures
      var k := GiveUpAfter(cfg, 1);
      && (forall j :: 0 <= j < k ==> Expired(cfg, p, s, j).state == SReq)
      && Expired(cfg, p, s, k).state == SInit
      && Expired(cfg, p, s, k).neg.value.code == PADI
      && JustSent(cfg, Expired(cfg, p, s, k))
      && cfg.initial * Pow2(k) <= cfg.limit < cfg.initial * Pow2(k + 1)
      && TotalDelay(cfg, p, s, k) < cfg.limit
  {
    var k := GiveUpAfter(cfg, 1);
    forall j | 0 <= j < k ensures Expired(cfg, p, s, j).state == SReq {
      RequestBackoff(cfg, p, s, j);
    }
    RequestBackoff(cfg, p, s, k - 1);
    DoubleDelay(cfg.initial, k - 1);
    DoubleDelay(cfg.initial, k);
    if k == 1 {
      assert Pow2(1) == 2;
    } else {
      assert Resends(cfg, k - 1);
    }
  }
}
