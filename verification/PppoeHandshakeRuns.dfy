/** The handshake between two nodes that are busy with other sessions meanwhile: between its
    four packets anything may happen on either node that does not concern the two sessions. */
module PppoeHandshakeRuns {
  import opened Basics
  import opened PppoeTags
  import opened PppoeNode
  import opened PppoeInvariants
  import opened PppoeRuns
  import opened PppoeTimers
  import opened PppoeTimerRuns
  import opened PppoeHandshake

  // ----- the server side waits

  /** The event does not concern a server session `q` that waits for an answer to its offer. */
  ghost predicate Undisturbed(n: Node, ev: Event, q: Ptr) {
    ev != Timeout(q) && ev != Disconnect(q) && (q in n.core.sess ==> !Asked(n.core, ev, q))
  }

  ghost predicate LeavesOffer(n: Node, n': Node, q: Ptr) {
    q in n.core.sess && n.core.sess[q].state == SOffer ==> q in n'.core.sess && n'.core.sess[q] == n.core.sess[q]
  }

  lemma {:induction false} OfferChain(ns: seq<Node>, q: Ptr, i: nat, j: nat)
    requires i <= j < |ns| && q in ns[i].core.sess && ns[i].core.sess[q].state == SOffer
    requires forall k :: i <= k < j ==> LeavesOffer(ns[k], ns[k + 1], q)
    ensures q in ns[j].core.sess && ns[j].core.sess[q] == ns[i].core.sess[q]
    decreases j - i
  {
    if i < j {
      OfferChain(ns, q, i, j - 1);
      assert LeavesOffer(ns[j - 1], ns[j - 1 + 1], q);
    }
  }

  lemma OfferStep(cfg: Config, ns: seq<Node>, evs: seq<Event>, q: Ptr, k: nat)
    requires Run(cfg, ns, evs) && Clean(ns, evs) && k < |evs| && Undisturbed(ns[k], evs[k], q)
    ensures LeavesOffer(ns[k], ns[k + 1], q)
  {
    if q in ns[k].core.sess && ns[k].core.sess[q].state == SOffer {
      RunKeepsInv(cfg, ns, evs, k);
      assert Safe(ns[k]) && Enabled(ns[k].core, evs[k]) && ns[k + 1] == StepAfter(ns[k], cfg, evs[k]).node;
      assert SessionFits(cfg, ns[k].core.sess[q], q in ns[k].core.removing);
      OthersLeave(cfg, ns[k], evs[k], q);
    }
  }

  /** An offer stands as long as no event concerns it. */
  lemma OfferStands(cfg: Config, ns: seq<Node>, evs: seq<Event>, q: Ptr, i: nat, j: nat)
    requires Run(cfg, ns, evs) && Clean(ns, evs) && i <= j <= |evs|
    requires q in ns[i].core.sess && ns[i].core.sess[q].state == SOffer
    requires forall k :: i <= k < j ==> Undisturbed(ns[k], evs[k], q)
    ensures q in ns[j].core.sess && ns[j].core.sess[q] == ns[i].core.sess[q]
  {
    forall k | i <= k < j ensures LeavesOffer(ns[k], ns[k + 1], q) {
      assert Undisturbed(ns[k], evs[k], q);
      OfferStep(cfg, ns, evs, q, k);
    }
    OfferChain(ns, q, i, j);
  }

  // ----- the client side waits

  /** While a PADI is unanswered the timer may fire any number of times. */
  lemma CallStands(cfg: Config, ns: seq<Node>, evs: seq<Event>, p: Ptr, i: nat, j: nat)
    requires Run(cfg, ns, evs) && Clean(ns, evs) && i <= j <= |evs|
    requires p in ns[i].core.sess && ns[i].core.sess[p].state == SInit
    requires forall k :: i <= k < j ==> Unanswered(ns[k], evs[k], p)
    ensures p in ns[j].core.sess && StillWaits(ns[i].core.sess[p], ns[j].core.sess[p])
  {
    UnansweredIsExpired(cfg, ns, evs, p, i, j);
    InitWaits(cfg, p, ns[i].core.sess[p], Firings(evs, p, i, j));
  }

  /** While a PADR is unanswered it may fire until the client would give up. */
  lemma RequestStands(cfg: Config, ns: seq<Node>, evs: seq<Event>, p: Ptr, i: nat, j: nat)
    requires Run(cfg, ns, evs) && Clean(ns, evs) && i <= j <= |evs|
    requires p in ns[i].core.sess && ns[i].core.sess[p].state == SReq && JustSent(cfg, ns[i].core.sess[p])
    requires forall k :: i <= k < j ==> Unanswered(ns[k], evs[k], p)
    requires Firings(evs, p, i, j) < GiveUpAfter(cfg, 1)
    ensures p in ns[j].core.sess && StillWaits(ns[i].core.sess[p], ns[j].core.sess[p])
  {
    RequestBacksOff(cfg, ns, evs, p, i, j);
  }

  // ----- the exchange in two runs

  /** The timetable: the packets that are sent are received, in this order, at events `a1` and
      `a2` of the client node and `b1` and `b2` of the server node, and in between nothing
      concerns the two sessions. */
  ghost predicate Timetable(cfgA: Config, na: seq<Node>, ea: seq<Event>, p: Ptr, a0: nat, a1: nat, a2: nat,
                            cfgB: Config, nb: seq<Node>, eb: seq<Event>, q: Ptr, b1: nat, b2: nat)
  {
    && a0 <= a1 < a2 < |ea| == |na| - 1 && b1 < b2 < |eb| == |nb| - 1
    && (forall k :: a0 <= k < a1 || a1 < k < a2 ==> Unanswered(na[k], ea[k], p))
    && Firings(ea, p, a1 + 1, a2) < GiveUpAfter(cfgA, 1)
    && (forall k :: b1 < k < b2 ==> Undisturbed(nb[k], eb[k], q))
    && Sends(na[a0], p) && eb[b1] == FromHook(q, Last(cfgA, na[a0].core.sess[p]))
    && Sends(nb[b1 + 1], q) && ea[a1] == FromEther(Last(cfgB, nb[b1 + 1].core.sess[q]))
    && Sends(na[a1 + 1], p) && eb[b2] == FromEther(Last(cfgA, na[a1 + 1].core.sess[p]))
    && Sends(nb[b2 + 1], q) && ea[a2] == FromEther(Last(cfgB, nb[b2 + 1].core.sess[q]))
  }

  ghost predicate Sends(n: Node, p: Ptr) {
    p in n.core.sess && n.core.sess[p].neg.Some?
  }

  lemma StillCalling(cfg: Config, a: Core, a': Core, p: Ptr)
    requires Calling(cfg, a, p) && CoreInv(cfg, a') && p in a'.sess && StillWaits(a.sess[p], a'.sess[p])
    ensures Calling(cfg, a', p) && Last(cfg, a'.sess[p]) == Last(cfg, a.sess[p])
  {
  }

  lemma StillRequested(cfgA: Config, a: Core, a': Core, p: Ptr, cfgB: Config, b: Core, b': Core, q: Ptr)
    requires Requested(cfgA, a, p, cfgB, b, q)
    requires CoreInv(cfgA, a') && CoreSafe(a') && p in a'.sess && StillWaits(a.sess[p], a'.sess[p])
    requires CoreInv(cfgB, b') && CoreSafe(b') && q in b'.sess && b'.sess[q] == b.sess[q]
    ensures Requested(cfgA, a', p, cfgB, b', q) && Last(cfgA, a'.sess[p]) == Last(cfgA, a.sess[p])
  {
  }

  /** What a run gives for the shared state before and after one event. */
  ghost predicate Sound(cfg: Config, c: Core, c': Core) {
    CoreInv(cfg, c) && CoreSafe(c) && CoreInv(cfg, c') && CoreSafe(c')
  }

  lemma RunEvent(cfg: Config, ns: seq<Node>, evs: seq<Event>, i: nat)
    requires Run(cfg, ns, evs) && Clean(ns, evs) && i < |evs|
    ensures Sound(cfg, ns[i].core, ns[i + 1].core)
    ensures Safe(ns[i]) && Enabled(ns[i].core, evs[i]) && ns[i + 1] == StepAfter(ns[i], cfg, evs[i]).node
  {
    RunKeepsInv(cfg, ns, evs, i);
    RunKeepsInv(cfg, ns, evs, i + 1);
    CoreInvIsSafe(cfg, ns[i + 1].core);
  }

  lemma HookEvent(cfg: Config, ns: seq<Node>, evs: seq<Event>, i: nat, q: Ptr, pkt: Packet)
    requires Run(cfg, ns, evs) && Clean(ns, evs) && i < |evs| && evs[i] == FromHook(q, pkt)
    ensures Sound(cfg, ns[i].core, ns[i + 1].core) && q in ns[i].core.sess
    ensures ns[i + 1].core == FromHookStep(ns[i].core, cfg, q, pkt).core
  {
    RunEvent(cfg, ns, evs, i);
  }

  lemma EtherEvent(cfg: Config, ns: seq<Node>, evs: seq<Event>, i: nat, pkt: Packet)
    requires Run(cfg, ns, evs) && Clean(ns, evs) && i < |evs| && evs[i] == FromEther(pkt) && pkt.frame == Discovery
    ensures Sound(cfg, ns[i].core, ns[i + 1].core)
    ensures pkt.code == PADO ==> ns[i + 1].core == PadoStep(ns[i].core, cfg, pkt).core
    ensures pkt.code == PADR ==>
      PadrCanAllocate(ns[i].core, pkt) && ns[i + 1].core == PadrStep(ns[i].core, cfg, pkt).core
    ensures pkt.code == PADS ==> ns[i + 1].core == PadsStep(ns[i].core, pkt).core
  {
    RunEvent(cfg, ns, evs, i);
    EtherDispatch(cfg, ns[i], pkt);
  }

  lemma EtherDispatch(cfg: Config, n: Node, pkt: Packet)
    requires Safe(n) && Enabled(n.core, FromEther(pkt)) && pkt.frame == Discovery
    ensures var c := StepAfter(n, cfg, FromEther(pkt)).node.core;
      && (pkt.code == PADO ==> c == PadoStep(n.core, cfg, pkt).core)
      && (pkt.code == PADR ==> PadrCanAllocate(n.core, pkt) && c == PadrStep(n.core, cfg, pkt).core)
      && (pkt.code == PADS ==> c == PadsStep(n.core, pkt).core)
  {
  }

  lemma OfferAndRequest(cfgA: Config, a: Core, a': Core, p: Ptr, cfgB: Config, b: Core, b': Core, q: Ptr)
    requires Calling(cfgA, a, p) && Answering(cfgB, b, q) && CoreSafe(a)
    requires AcceptsOffer(a.sess[p].neg.value, [Ac(b.sess[q].neg.value.acName)])
    requires b' == FromHookStep(b, cfgB, q, Last(cfgA, a.sess[p])).core
    requires q in b'.sess && b'.sess[q].neg.Some?
    requires var pado := Last(cfgB, b'.sess[q]); pado.code == PADO ==> a' == PadoStep(a, cfgA, pado).core
    ensures Requested(cfgA, a', p, cfgB, b', q) && JustSent(cfgA, a'.sess[p])
  {
    var b1, a1 := FirstHalf(cfgA, a, p, cfgB, b, q);
  }

  lemma ConfirmAndJoin(cfgA: Config, a: Core, a': Core, p: Ptr, cfgB: Config, b: Core, b': Core, q: Ptr)
    requires Requested(cfgA, a, p, cfgB, b, q)
    requires var padr := Last(cfgA, a.sess[p]);
      padr.code == PADR ==> PadrCanAllocate(b, padr) && b' == PadrStep(b, cfgB, padr).core
    requires q in b'.sess && b'.sess[q].neg.Some?
    requires var pads := Last(cfgB, b'.sess[q]); pads.code == PADS ==> a' == PadsStep(a, pads).core
    ensures Established(cfgA, a', p, cfgB, b', q) && Established(cfgB, b', q, cfgA, a', p)
    ensures a'.sess[p].state == Connected && b'.sess[q].state == NewConnected
  {
    RequestTargets(cfgA, a, p, cfgB, b, q);
    var b2, a2 := SecondHalf(cfgA, a, p, cfgB, b, q);
  }

  lemma FirstHalfInRuns(cfgA: Config, na: seq<Node>, ea: seq<Event>, p: Ptr, a0: nat, a1: nat, a2: nat,
                        cfgB: Config, nb: seq<Node>, eb: seq<Event>, q: Ptr, b1: nat, b2: nat)
    requires Run(cfgA, na, ea) && Clean(na, ea) && Run(cfgB, nb, eb) && Clean(nb, eb)
    requires Timetable(cfgA, na, ea, p, a0, a1, a2, cfgB, nb, eb, q, b1, b2)
    requires Calling(cfgA, na[a0].core, p) && Answering(cfgB, nb[b1].core, q)
    requires AcceptsOffer(na[a0].core.sess[p].neg.value, [Ac(nb[b1].core.sess[q].neg.value.acName)])
    ensures Requested(cfgA, na[a1 + 1].core, p, cfgB, nb[b1 + 1].core, q)
    ensures JustSent(cfgA, na[a1 + 1].core.sess[p])
  {
    CallStands(cfgA, na, ea, p, a0, a1);
    HookEvent(cfgB, nb, eb, b1, q, Last(cfgA, na[a0].core.sess[p]));
    EtherEvent(cfgA, na, ea, a1, Last(cfgB, nb[b1 + 1].core.sess[q]));
    StillCalling(cfgA, na[a0].core, na[a1].core, p);
    OfferAndRequest(cfgA, na[a1].core, na[a1 + 1].core, p, cfgB, nb[b1].core, nb[b1 + 1].core, q);
  }

  lemma SecondHalfInRuns(cfgA: Config, na: seq<Node>, ea: seq<Event>, p: Ptr, a0: nat, a1: nat, a2: nat,
                         cfgB: Config, nb: seq<Node>, eb: seq<Event>, q: Ptr, b1: nat, b2: nat)
    requires Run(cfgA, na, ea) && Clean(na, ea) && Run(cfgB, nb, eb) && Clean(nb, eb)
    requires Timetable(cfgA, na, ea, p, a0, a1, a2, cfgB, nb, eb, q, b1, b2)
    requires Requested(cfgA, na[a1 + 1].core, p, cfgB, nb[b1 + 1].core, q)
    requires JustSent(cfgA, na[a1 + 1].core.sess[p])
    ensures Established(cfgA, na[a2 + 1].core, p, cfgB, nb[b2 + 1].core, q)
    ensures Established(cfgB, nb[b2 + 1].core, q, cfgA, na[a2 + 1].core, p)
    ensures na[a2 + 1].core.sess[p].state == Connected && nb[b2 + 1].core.sess[q].state == NewConnected
  {
    RequestStands(cfgA, na, ea, p, a1 + 1, a2);
    OfferStands(cfgB, nb, eb, q, b1 + 1, b2);
    EtherEvent(cfgB, nb, eb, b2, Last(cfgA, na[a1 + 1].core.sess[p]));
    EtherEvent(cfgA, na, ea, a2, Last(cfgB, nb[b2 + 1].core.sess[q]));
    StillRequested(cfgA, na[a1 + 1].core, na[a2].core, p, cfgB, nb[b1 + 1].core, nb[b2].core, q);
    ConfirmAndJoin(cfgA, na[a2].core, na[a2 + 1].core, p, cfgB, nb[b2].core, nb[b2 + 1].core, q);
  }

  /** The discovery packets in two runs with anything else in between: a timer of the client
      that fires, other sessions that come, talk and go.  The session is established, provided
      the client did not ask for another access concentrator. */
  lemma HandshakeInRuns(cfgA: Config, na: seq<Node>, ea: seq<Event>, p: Ptr, a0: nat, a1: nat, a2: nat,
                        cfgB: Config, nb: seq<Node>, eb: seq<Event>, q: Ptr, b1: nat, b2: nat)
    requires Run(cfgA, na, ea) && Clean(na, ea) && Run(cfgB, nb, eb) && Clean(nb, eb)
    requires Timetable(cfgA, na, ea, p, a0, a1, a2, cfgB, nb, eb, q, b1, b2)
    requires Calling(cfgA, na[a0].core, p) && Answering(cfgB, nb[b1].core, q)
    requires AcceptsOffer(na[a0].core.sess[p].neg.value, [Ac(nb[b1].core.sess[q].neg.value.acName)])
    ensures Established(cfgA, na[a2 + 1].core, p, cfgB, nb[b2 + 1].core, q)
    ensures Established(cfgB, nb[b2 + 1].core, q, cfgA, na[a2 + 1].core, p)
    ensures na[a2 + 1].core.sess[p].state == Connected && nb[b2 + 1].core.sess[q].state == NewConnected
  {
    FirstHalfInRuns(cfgA, na, ea, p, a0, a1, a2, cfgB, nb, eb, q, b1, b2);
    SecondHalfInRuns(cfgA, na, ea, p, a0, a1, a2, cfgB, nb, eb, q, b1, b2);
  }
}
