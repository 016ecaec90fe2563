/** The retransmission timer in whole runs: what happens to a client session between two
    answers from its peer, whatever else the node is doing meanwhile. */
module PppoeTimerRuns {
  import opened Basics
  import opened PppoeTags
  import opened PppoeNode
  import opened PppoeInvariants
  import opened PppoeRuns
  import opened PppoeTimers

  // ----- which events concern a waiting client session

  ghost predicate Addressed(c: Core, ev: Event, p: Ptr, code: byte) {
    && ev.FromEther? && ev.pkt.frame == Discovery && ev.pkt.code == code
    && Addressee(c, FirstTag(ParseTags(TagArea(ev.pkt)), PTT_HOST_UNIQ)) == Some(p)
  }

  /** A PADS for a session in SREQ. */
  ghost predicate Confirmed(c: Core, ev: Event, p: Ptr)
    requires p in c.sess
  {
    c.sess[p].state == SReq && Addressed(c, ev, p, PADS)
  }

  /** A PADO for a session in SINIT, from an access concentrator it accepts. */
  ghost predicate Offered(c: Core, ev: Event, p: Ptr)
    requires p in c.sess
  {
    && c.sess[p].state == SInit && c.sess[p].neg.Some? && Addressed(c, ev, p, PADO)
    && AcceptsOffer(c.sess[p].neg.value, ParseTags(TagArea(ev.pkt)))
  }

  /** A PADR for a session in SOFFER. */
  ghost predicate Asked(c: Core, ev: Event, p: Ptr)
    requires p in c.sess
  {
    && c.sess[p].state == SOffer && ev.FromEther? && ev.pkt.frame == Discovery && ev.pkt.code == PADR
    && PadrTarget(c, ev.pkt) == Some(p)
  }

  predicate Waiting(st: SState) {
    st == SInit || st == SReq
  }

  lemma MessagesLeave(cfg: Config, c: Core, msg: InitMsg, taken: bool, p: Ptr)
    requires CoreSafe(c) && p in c.sess && TimerState(c.sess[p].state)
    ensures forall r: Result ::
      r in [ConnectStep(c, cfg, msg), OfferStep(c, cfg, msg), ServiceStep(c, cfg, msg),
            ListenStep(c, cfg, msg, taken).0]
      ==> p in r.core.sess && r.core.sess[p] == c.sess[p]
  {
  }

  lemma PadoLeaves(cfg: Config, c: Core, pkt: Packet, p: Ptr)
    requires CoreSafe(c) && p in c.sess && TimerState(c.sess[p].state) && c.sess[p].neg.Some?
    requires pkt.frame == Discovery && pkt.code == PADO
    requires !Offered(c, FromEther(pkt), p)
    ensures var c' := PadoStep(c, cfg, pkt).core; p in c'.sess && c'.sess[p] == c.sess[p]
  {
  }

  lemma PadrLeaves(cfg: Config, c: Core, pkt: Packet, p: Ptr)
    requires CoreSafe(c) && p in c.sess && TimerState(c.sess[p].state)
    requires PadrCanAllocate(c, pkt) && PadrTarget(c, pkt) != Some(p)
    ensures var c' := PadrStep(c, cfg, pkt).core; p in c'.sess && c'.sess[p] == c.sess[p]
  {
  }

  lemma PadsLeaves(c: Core, pkt: Packet, p: Ptr)
    requires CoreSafe(c) && p in c.sess && TimerState(c.sess[p].state)
    requires pkt.frame == Discovery && pkt.code == PADS
    requires !Confirmed(c, FromEther(pkt), p)
    ensures var c' := PadsStep(c, pkt).core; p in c'.sess && c'.sess[p] == c.sess[p]
  {
  }

  lemma DataLeaves(cfg: Config, c: Core, q: Ptr, pkt: Packet, p: Ptr)
    requires CoreSafe(c) && p in c.sess && TimerState(c.sess[p].state)
    ensures var c' := SessionDataStep(c, pkt).core; p in c'.sess && c'.sess[p] == c.sess[p]
    ensures q in c.sess ==>
      var c' := FromHookStep(c, cfg, q, pkt).core; p in c'.sess && c'.sess[p] == c.sess[p]
  {
  }

  lemma EtherLeaves(cfg: Config, c: Core, pkt: Packet, p: Ptr)
    requires CoreSafe(c) && p in c.sess && TimerState(c.sess[p].state) && c.sess[p].neg.Some?
    requires Enabled(c, FromEther(pkt)) && Common(FromEther(pkt))
    requires !Confirmed(c, FromEther(pkt), p) && !Offered(c, FromEther(pkt), p) && !Asked(c, FromEther(pkt), p)
    ensures var c' := CommonStep(c, cfg, FromEther(pkt)).core; p in c'.sess && c'.sess[p] == c.sess[p]
  {
    if pkt.frame == SessionData {
      DataLeaves(cfg, c, p, pkt, p);
    } else if pkt.frame == Discovery {
      if pkt.code == PADO { PadoLeaves(cfg, c, pkt, p); }
      else if pkt.code == PADR { PadrLeaves(cfg, c, pkt, p); }
      else if pkt.code == PADS { PadsLeaves(c, pkt, p); }
    }
  }

  lemma TimeoutLeaves(cfg: Config, c: Core, q: Ptr, p: Ptr)
    requires CoreSafe(c) && p in c.sess && q in c.sess && q != p
    requires c.sess[q].neg.Some? && c.sess[q].neg.value.pending.Some?
    ensures var c' := TimeoutStep(c, cfg, q).core; p in c'.sess && c'.sess[p] == c.sess[p]
  {
  }

  /** No other event changes a session whose negotiation is under way. */
  lemma OthersLeave(cfg: Config, n: Node, ev: Event, p: Ptr)
    requires Safe(n) && Enabled(n.core, ev) && p in n.core.sess && TimerState(n.core.sess[p].state)
    requires n.core.sess[p].neg.Some?
    requires ev != Timeout(p) && ev != Disconnect(p)
    requires !Confirmed(n.core, ev, p) && !Offered(n.core, ev, p) && !Asked(n.core, ev, p)
    ensures var c' := StepAfter(n, cfg, ev).node.core; p in c'.sess && c'.sess[p] == n.core.sess[p]
  {
    match ev
    case NewHook(name, at, q) =>
    case ConnectMsg(msg) => MessagesLeave(cfg, n.core, msg, false, p);
    case OfferMsg(msg) => MessagesLeave(cfg, n.core, msg, false, p);
    case ServiceMsg(msg) => MessagesLeave(cfg, n.core, msg, false, p);
    case ListenMsg(msg) =>
      MessagesLeave(cfg, n.core, msg, FindSvc(n.core, n.listeners, MessageName(msg)).Some?, p);
    case FromHook(q, pkt) => DataLeaves(cfg, n.core, q, pkt, p);
    case FromEther(pkt) =>
      if Common(ev) { EtherLeaves(cfg, n.core, pkt, p); }
    case Timeout(q) => TimeoutLeaves(cfg, n.core, q, p);
    case Disconnect(q) =>
    case OtherNodeTookSid(v) =>
  }

  // ----- runs

  /** How often the timer of `p` fires in events `i` up to `k`. */
  function Firings(evs: seq<Event>, p: Ptr, i: nat, k: nat): nat
    requires i <= k <= |evs|
    decreases k - i
  {
    if i == k then 0 else (if evs[i] == Timeout(p) then 1 else 0) + Firings(evs, p, i + 1, k)
  }

  /** One event of a run that neither removes nor answers the waiting session. */
  lemma WaitingStep(cfg: Config, ns: seq<Node>, evs: seq<Event>, p: Ptr, i: nat)
    requires Run(cfg, ns, evs) && Clean(ns, evs) && i < |evs|
    requires p in ns[i].core.sess && Waiting(ns[i].core.sess[p].state) && evs[i] != Disconnect(p)
    requires !Confirmed(ns[i].core, evs[i], p) && !Offered(ns[i].core, evs[i], p)
    ensures ns[i].core.sess[p].neg.Some? && p in ns[i + 1].core.sess
    ensures ns[i + 1].core.sess[p] ==
      if evs[i] == Timeout(p) then ExpireSession(cfg, p, ns[i].core.sess[p]) else ns[i].core.sess[p]
  {
    RunKeepsInv(cfg, ns, evs, i);
    var (n, ev) := (ns[i], evs[i]);
    assert Safe(n) && Enabled(n.core, ev) && ns[i + 1] == StepAfter(n, cfg, ev).node;
    assert SessionFits(cfg, n.core.sess[p], p in n.core.removing);
    if ev != Timeout(p) {
      OthersLeave(cfg, n, ev, p);
    }
  }

  /** In every state of a run the timer of a waiting client session is armed, with a delay
      between the initial one and the limit, and so is the next one. */
  lemma DelaysInRange(cfg: Config, ns: seq<Node>, evs: seq<Event>, p: Ptr, i: nat)
    requires Run(cfg, ns, evs) && Clean(ns, evs) && i <= |evs|
    requires p in ns[i].core.sess && Waiting(ns[i].core.sess[p].state)
    ensures var s := ns[i].core.sess[p];
      && Pending(s) && cfg.initial <= s.neg.value.pending.value <= cfg.limit
      && 2 * cfg.initial <= s.neg.value.timeout <= cfg.limit
  {
    RunKeepsInv(cfg, ns, evs, i);
    assert SessionFits(cfg, ns[i].core.sess[p], p in ns[i].core.removing);
  }

  /** The event does not answer or remove the session `p`, if that waits. */
  ghost predicate Unanswered(n: Node, ev: Event, p: Ptr) {
    ev != Disconnect(p) && (p in n.core.sess ==> !Confirmed(n.core, ev, p) && !Offered(n.core, ev, p))
  }

  /** If session `p` waits in `n`, it is in `n'` what the event's firing, if any, makes of it. */
  ghost predicate OnlyTimed(cfg: Config, n: Node, ev: Event, n': Node, p: Ptr) {
    p in n.core.sess && Waiting(n.core.sess[p].state) ==>
      && n.core.sess[p].neg.Some? && p in n'.core.sess
      && n'.core.sess[p] == if ev == Timeout(p) then ExpireSession(cfg, p, n.core.sess[p]) else n.core.sess[p]
  }

  lemma {:induction false} TimedIsExpired(cfg: Config, ns: seq<Node>, evs: seq<Event>, p: Ptr, i: nat, j: nat)
    requires i <= j <= |evs| && |ns| == |evs| + 1
    requires p in ns[i].core.sess && Waiting(ns[i].core.sess[p].state) && ns[i].core.sess[p].neg.Some?
    requires forall k :: i <= k < j ==> OnlyTimed(cfg, ns[k], evs[k], ns[k + 1], p)
    ensures p in ns[j].core.sess && Waiting(ns[j].core.sess[p].state)
    ensures ns[j].core.sess[p] == Expired(cfg, p, ns[i].core.sess[p], Firings(evs, p, i, j))
    decreases j - i
  {
    if i < j {
      TimedIsExpired(cfg, ns, evs, p, i, j - 1);
      assert OnlyTimed(cfg, ns[j - 1], evs[j - 1], ns[j - 1 + 1], p);
      FiringsSnoc(evs, p, i, j - 1);
    }
  }

  /** A waiting session that is neither answered nor removed is what its timer makes of it. */
  lemma UnansweredIsExpired(cfg: Config, ns: seq<Node>, evs: seq<Event>, p: Ptr, i: nat, j: nat)
    requires Run(cfg, ns, evs) && Clean(ns, evs) && i <= j <= |evs|
    requires p in ns[i].core.sess && Waiting(ns[i].core.sess[p].state)
    requires forall k :: i <= k < j ==> Unanswered(ns[k], evs[k], p)
    ensures p in ns[j].core.sess && Waiting(ns[j].core.sess[p].state) && ns[i].core.sess[p].neg.Some?
    ensures ns[j].core.sess[p] == Expired(cfg, p, ns[i].core.sess[p], Firings(evs, p, i, j))
  {
    DelaysInRange(cfg, ns, evs, p, i);
    forall k | i <= k < j ensures OnlyTimed(cfg, ns[k], evs[k], ns[k + 1], p) {
      assert Unanswered(ns[k], evs[k], p);
      if p in ns[k].core.sess && Waiting(ns[k].core.sess[p].state) {
        WaitingStep(cfg, ns, evs, p, k);
      }
    }
    TimedIsExpired(cfg, ns, evs, p, i, j);
  }

  lemma {:induction false} FiringsSnoc(evs: seq<Event>, p: Ptr, i: nat, k: nat)
    requires i <= k < |evs|
    ensures Firings(evs, p, i, k + 1) == Firings(evs, p, i, k) + if evs[k] == Timeout(p) then 1 else 0
    decreases k - i
  {
    if i < k {
      FiringsSnoc(evs, p, i + 1, k);
    }
  }

  /** An unanswered PADI in a run: after `k` firings the delay is the initial one doubled `k`
      times, cut off at the limit, and the same packet is sent each time. */
  lemma InitBacksOff(cfg: Config, ns: seq<Node>, evs: seq<Event>, p: Ptr, i: nat, j: nat)
    requires Run(cfg, ns, evs) && Clean(ns, evs) && i <= j <= |evs|
    requires p in ns[i].core.sess && ns[i].core.sess[p].state == SInit && JustSent(cfg, ns[i].core.sess[p])
    requires forall k :: i <= k < j ==> Unanswered(ns[k], evs[k], p)
    ensures p in ns[j].core.sess
    ensures
      var (s, s', k) := (ns[i].core.sess[p], ns[j].core.sess[p], Firings(evs, p, i, j));
      StillWaits(s, s') && s'.neg.value.pending == Some(Min(cfg.initial * Pow2(k), cfg.limit))
  {
    UnansweredIsExpired(cfg, ns, evs, p, i, j);
    InitBackoff(cfg, p, ns[i].core.sess[p], Firings(evs, p, i, j));
  }

  /** A fresh unanswered PADR in a run stays in SREQ, with the same packet and doubling delays,
      up to firing number floor(log2(limit/initial)), and is back at a fresh PADI after it. */
  lemma RequestBacksOff(cfg: Config, ns: seq<Node>, evs: seq<Event>, p: Ptr, i: nat, j: nat)
    requires Run(cfg, ns, evs) && Clean(ns, evs) && i <= j <= |evs|
    requires p in ns[i].core.sess && ns[i].core.sess[p].state == SReq && JustSent(cfg, ns[i].core.sess[p])
    requires forall k :: i <= k < j ==> Unanswered(ns[k], evs[k], p)
    ensures p in ns[j].core.sess
    ensures
      var (s, s', k) := (ns[i].core.sess[p], ns[j].core.sess[p], Firings(evs, p, i, j));
      && (k < GiveUpAfter(cfg, 1) ==> StillWaits(s, s') && s'.neg.value.pending == Some(cfg.initial * Pow2(k)))
      && (k == GiveUpAfter(cfg, 1) ==> s'.state == SInit && JustSent(cfg, s'))
  {
    var k := Firings(evs, p, i, j);
    UnansweredIsExpired(cfg, ns, evs, p, i, j);
    if k < GiveUpAfter(cfg, 1) {
      RequestBackoff(cfg, p, ns[i].core.sess[p], k);
    } else {
      RequestRevertsInTime(cfg, p, ns[i].core.sess[p]);
    }
  }

  /** Whatever its delay has grown to: a session in SREQ that gets no PADS and is not removed
      is back in SINIT, with a fresh PADI, after at most floor(log2(limit/initial)) firings. */
  lemma RequestReverts(cfg: Config, ns: seq<Node>, evs: seq<Event>, p: Ptr, i: nat, j: nat) returns (k: nat)
    requires Run(cfg, ns, evs) && Clean(ns, evs) && i <= j <= |evs|
    requires p in ns[i].core.sess && ns[i].core.sess[p].state == SReq
    requires forall k :: i <= k < j ==> Unconfirmed(ns[k], evs[k], p)
    requires Firings(evs, p, i, j) >= GiveUpAfter(cfg, 1)
    ensures i < k <= j && Firings(evs, p, i, k) <= GiveUpAfter(cfg, 1)
    ensures p in ns[k].core.sess && ns[k].core.sess[p].state == SInit && JustSent(cfg, ns[k].core.sess[p])
    ensures forall m :: i <= m < k ==> p in ns[m].core.sess && ns[m].core.sess[p].state == SReq
  {
    DelaysInRange(cfg, ns, evs, p, i);
    ExceedsLimit(cfg, ns[i].core.sess[p].neg.value.timeout);
    forall m | i <= m < j ensures RequestTimed(cfg, ns[m], evs[m], ns[m + 1], p) {
      RequestStep(cfg, ns, evs, p, m);
    }
    k := RevertsWithin(cfg, ns, evs, p, i, j, GiveUpAfter(cfg, 1));
  }

  lemma RequestStep(cfg: Config, ns: seq<Node>, evs: seq<Event>, p: Ptr, m: nat)
    requires Run(cfg, ns, evs) && Clean(ns, evs) && m < |evs| && Unconfirmed(ns[m], evs[m], p)
    ensures RequestTimed(cfg, ns[m], evs[m], ns[m + 1], p)
  {
    if p in ns[m].core.sess && ns[m].core.sess[p].state == SReq {
      WaitingStep(cfg, ns, evs, p, m);
    }
  }

  lemma ExceedsLimit(cfg: Config, timeout: nat)
    requires timeout >= 2 * cfg.initial
    ensures timeout * Pow2(GiveUpAfter(cfg, 1)) > cfg.limit
  {
    var b := GiveUpAfter(cfg, 1);
    MulMonotone(2 * cfg.initial, timeout, Pow2(b));
    Regroup(cfg.initial, Pow2(b));
    DoubleDelay(cfg.initial, b);
    assert !Resends(cfg, b);
  }

  /** The event neither confirms nor removes the session `p`. */
  ghost predicate Unconfirmed(n: Node, ev: Event, p: Ptr) {
    ev != Disconnect(p) && (p in n.core.sess ==> !Confirmed(n.core, ev, p))
  }

  /** The same for a session in SREQ only. */
  ghost predicate RequestTimed(cfg: Config, n: Node, ev: Event, n': Node, p: Ptr) {
    p in n.core.sess && n.core.sess[p].state == SReq ==> OnlyTimed(cfg, n, ev, n', p)
  }

  lemma MulMonotone(a: nat, b: nat, k: nat)
    requires a <= b
    ensures a * k <= b * k
  {
  }

  /** When `b` more doublings of the next delay exceed the limit, `b` firings are enough. */
  lemma {:induction false} RevertsWithin(
      cfg: Config, ns: seq<Node>, evs: seq<Event>, p: Ptr, i: nat, j: nat, b: nat) returns (k: nat)
    requires i <= j <= |evs| && |ns| == |evs| + 1 && b >= 1
    requires p in ns[i].core.sess && ns[i].core.sess[p].state == SReq && ns[i].core.sess[p].neg.Some?
    requires ns[i].core.sess[p].neg.value.timeout * Pow2(b) > cfg.limit
    requires forall k :: i <= k < j ==> RequestTimed(cfg, ns[k], evs[k], ns[k + 1], p)
    requires Firings(evs, p, i, j) >= b
    ensures i < k <= j && Firings(evs, p, i, k) <= b
    ensures p in ns[k].core.sess && ns[k].core.sess[p].state == SInit && JustSent(cfg, ns[k].core.sess[p])
    ensures forall m :: i <= m < k ==> p in ns[m].core.sess && ns[m].core.sess[p].state == SReq
    decreases j - i
  {
    assert RequestTimed(cfg, ns[i], evs[i], ns[i + 1], p);
    var t := ns[i].core.sess[p].neg.value.timeout;
    if evs[i] != Timeout(p) {
      k := RevertsWithin(cfg, ns, evs, p, i + 1, j, b);
    } else if 2 * t > cfg.limit {
      k := i + 1;
    } else {
      DoubleDelay(t, b - 1);
      Regroup(t, Pow2(b - 1));
      k := RevertsWithin(cfg, ns, evs, p, i + 1, j, b - 1);
    }
  }

  lemma Regroup(a: nat, b: nat)
    ensures (2 * a) * b == 2 * (a * b)
  {
  }
}
