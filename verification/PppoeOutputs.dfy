/** What leaves the node: refused events leave no trace, sent packets are well formed and go
    out under the node's own address, and exactly the right sessions are reached or removed. */
module PppoeOutputs {
  import opened Basics
  import opened PppoeTags
  import opened PppoeNode
  import opened PppoeInvariants
  import opened PppoeRuns
  import opened PppoeHandshake

  // ----- refused events

  lemma RefusedMessage(cfg: Config, c: Core, msg: InitMsg, taken: bool)
    requires CoreSafe(c)
    ensures var r := ConnectStep(c, cfg, msg); r.err != EOK ==> r.core == c && r.out == []
    ensures var r := OfferStep(c, cfg, msg); r.err != EOK ==> r.core == c && r.out == []
    ensures var r := ServiceStep(c, cfg, msg); r.err != EOK ==> r.core == c && r.out == []
    ensures var (r, added) := ListenStep(c, cfg, msg, taken); r.err != EOK ==> r.core == c && r.out == [] && added.None?
  {
  }

  lemma RefusedDiscovery(cfg: Config, c: Core, pkt: Packet)
    requires CoreSafe(c)
    ensures var r := PadoStep(c, cfg, pkt); r.err != EOK ==> r.core == c && r.out == []
    ensures PadrCanAllocate(c, pkt) ==> var r := PadrStep(c, cfg, pkt); r.err != EOK ==> r.core == c && r.out == []
    ensures var r := PadsStep(c, pkt); r.err != EOK ==> r.core == c && r.out == []
    ensures var r := PadtStep(c, pkt); r.err != EOK ==> r.core == c && r.out == []
  {
  }

  lemma RefusedData(cfg: Config, c: Core, p: Ptr, pkt: Packet)
    requires CoreSafe(c)
    ensures p in c.sess ==> var r := FromHookStep(c, cfg, p, pkt); r.err != EOK ==> r.core == c && r.out == []
  {
  }

  lemma RefusedSessionData(c: Core, pkt: Packet)
    requires CoreSafe(c)
    ensures var r := SessionDataStep(c, pkt); r.err != EOK ==> r.core == c && r.out == []
  {
  }

  lemma RefusedTimeout(cfg: Config, c: Core, p: Ptr)
    requires CoreSafe(c) && p in c.sess && c.sess[p].neg.Some? && c.sess[p].neg.value.pending.Some?
    ensures TimeoutStep(c, cfg, p).err == EOK
  {
  }

  lemma RefusedEther(cfg: Config, c: Core, pkt: Packet)
    requires CoreSafe(c) && Enabled(c, FromEther(pkt)) && Common(FromEther(pkt))
    ensures var r := CommonStep(c, cfg, FromEther(pkt)); r.err != EOK ==> r.core == c && r.out == []
  {
    if pkt.frame == Discovery {
      RefusedDiscovery(cfg, c, pkt);
    } else if pkt.frame == SessionData {
      RefusedSessionData(c, pkt);
    }
  }

  lemma RefusedCommon(cfg: Config, c: Core, ev: Event)
    requires CoreSafe(c) && Enabled(c, ev) && Common(ev)
    ensures var r := CommonStep(c, cfg, ev); r.err != EOK ==> r.core == c && r.out == []
  {
    match ev
    case ConnectMsg(msg) => RefusedMessage(cfg, c, msg, false);
    case OfferMsg(msg) => RefusedMessage(cfg, c, msg, false);
    case ServiceMsg(msg) => RefusedMessage(cfg, c, msg, false);
    case FromHook(p, pkt) => RefusedData(cfg, c, p, pkt);
    case FromEther(pkt) => RefusedEther(cfg, c, pkt);
    case Timeout(p) => RefusedTimeout(cfg, c, p);
    case _ =>
  }

  /** An event answered with an error code changes nothing and sends nothing. */
  lemma RefusalLeavesNoTrace(cfg: Config, n: Node, ev: Event)
    requires Safe(n) && Enabled(n.core, ev)
    ensures var r := StepAfter(n, cfg, ev); r.err != EOK ==> r.node == n && r.out == []
  {
    if Common(ev) {
      RefusedCommon(cfg, n.core, ev);
    } else if ev.ListenMsg? {
      RefusedMessage(cfg, n.core, ev.msg, FindSvc(n.core, n.listeners, MessageName(ev.msg)).Some?);
    }
  }

  // ----- sent packets

  /** A packet for the wire comes from the node's own address and its length field agrees
      with its body; a discovery packet fits the frame. */
  predicate WellSent(cfg: Config, a: Action) {
    a.SendEther? ==>
      && a.pkt.src == cfg.mac
      && a.pkt.length == |a.pkt.body| % 0x1_0000
      && (a.pkt.frame == Discovery ==> |a.pkt.body| <= TAG_LIMIT && a.pkt.length == |a.pkt.body|)
      && a.pkt.frame != Foreign
  }

  ghost predicate AllWellSent(cfg: Config, out: seq<Action>) {
    forall a :: a in out ==> WellSent(cfg, a)
  }

  lemma DiscoverySent(cfg: Config, n: Neg)
    requires |n.payload| <= TAG_LIMIT
    ensures WellSent(cfg, SendEther(DiscoveryPacket(cfg, n)))
  {
  }

  lemma ConnectWellSent(cfg: Config, c: Core, msg: InitMsg)
    requires CoreSafe(c)
    ensures AllWellSent(cfg, ConnectStep(c, cfg, msg).out)
  {
    var r := ConnectStep(c, cfg, msg);
    if r.out != [] {
      var p := InitCheck(c, cfg, msg).ptr;
      DiscoverySent(cfg, r.core.sess[p].neg.value);
    }
  }

  lemma FromHookWellSent(cfg: Config, c: Core, p: Ptr, pkt: Packet)
    requires CoreSafe(c) && p in c.sess
    ensures AllWellSent(cfg, FromHookStep(c, cfg, p, pkt).out)
  {
    if c.sess[p].state == Primed && pkt.code == PADI {
      DiscoverySent(cfg, OfferSession(cfg, p, c.sess[p], pkt).neg.value);
    }
  }

  lemma PadoWellSent(cfg: Config, c: Core, pkt: Packet)
    requires CoreSafe(c)
    ensures AllWellSent(cfg, PadoStep(c, cfg, pkt).out)
  {
    var utag := FirstTag(ParseTags(TagArea(pkt)), PTT_HOST_UNIQ);
    if PadoStep(c, cfg, pkt).out != [] {
      var p := Addressee(c, utag).value;
      DiscoverySent(cfg, RequestSession(cfg, c.sess[p], pkt, utag.value).neg.value);
    }
  }

  lemma PadrWellSent(cfg: Config, c: Core, pkt: Packet)
    requires CoreSafe(c) && PadrCanAllocate(c, pkt)
    ensures AllWellSent(cfg, PadrStep(c, cfg, pkt).out)
  {
    var utag := FirstTag(ParseTags(TagArea(pkt)), PTT_AC_COOKIE);
    var target := PadrTarget(c, pkt);
    if target.Some? {
      var s := c.sess[target.value];
      if s.sid == 0 {
        var sid := NewSid(c).0;
        DiscoverySent(cfg, ConfirmSession(s, sid, sid, pkt, utag.value).neg.value);
      } else {
        DiscoverySent(cfg, ConfirmSession(s, s.sid, s.neg.value.sid, pkt, utag.value).neg.value);
      }
    }
  }

  lemma TimeoutWellSent(cfg: Config, c: Core, p: Ptr)
    requires SessionsFit(cfg, c) && CoreSafe(c) && p in c.sess
    requires c.sess[p].neg.Some? && c.sess[p].neg.value.pending.Some?
    ensures AllWellSent(cfg, TimeoutStep(c, cfg, p).out)
  {
    assert SessionFits(cfg, c.sess[p], p in c.removing);
    DiscoverySent(cfg, c.sess[p].neg.value);
    DiscoverySent(cfg, ExpireSession(cfg, p, c.sess[p]).neg.value);
  }

  lemma CommonWellSent(cfg: Config, c: Core, ev: Event)
    requires SessionsFit(cfg, c) && CoreSafe(c) && Enabled(c, ev) && Common(ev)
    ensures AllWellSent(cfg, CommonStep(c, cfg, ev).out)
  {
    match ev
    case ConnectMsg(msg) => ConnectWellSent(cfg, c, msg);
    case FromHook(p, pkt) => FromHookWellSent(cfg, c, p, pkt);
    case FromEther(pkt) =>
      if pkt.frame == Discovery {
        if pkt.code == PADO { PadoWellSent(cfg, c, pkt); }
        else if pkt.code == PADR { PadrWellSent(cfg, c, pkt); }
      }
    case Timeout(p) => TimeoutWellSent(cfg, c, p);
    case _ =>
  }

  /** Every packet that the node puts on the wire, in every reachable state, is well formed. */
  lemma SentPacketsWellFormed(cfg: Config, n: Node, ev: Event)
    requires Inv(cfg, n) && Safe(n) && Enabled(n.core, ev)
    ensures AllWellSent(cfg, StepAfter(n, cfg, ev).out)
  {
    if Common(ev) {
      CommonWellSent(cfg, n.core, ev);
    } else if ev.Disconnect? {
      FarewellWellSent(cfg, n.core.sess[ev.ptr]);
    }
  }

  lemma FarewellWellSent(cfg: Config, s: Session)
    ensures AllWellSent(cfg, Farewell(cfg, s))
  {
    assert |EncodeTag(RawTag(PTT_GEN_ERR, SIGNOFF))| == 18;
  }

  // ----- who is reached

  /** A PADI is forwarded, whole, to a listener that matches its service, if and only if it
      names a service and some listener matches it. */
  lemma PadiForwardedIff(cfg: Config, n: Node, pkt: Packet)
    requires Safe(n) && Enabled(n.core, FromEther(pkt)) && pkt.frame == Discovery && pkt.code == PADI
    ensures
      var r := StepAfter(n, cfg, FromEther(pkt));
      var wanted := WantedService(pkt);
      if wanted.Some? && exists p :: p in n.listeners && Matches(n.core.sess[p].neg.value.service, wanted.value.data)
      then
        && |r.out| == 1 && r.out[0].ForwardToHook? && r.out[0].pkt == pkt && r.out[0].ptr in n.listeners
        && Matches(n.core.sess[r.out[0].ptr].neg.value.service, wanted.value.data)
      else r.out == [] && r.err == ENETUNREACH
  {
  }

  /** A PADT asks for the removal of the connected session with its ID and its sender as
      peer, if there is one, and of no other. */
  lemma PadtRemovesIff(cfg: Config, c: Core, pkt: Packet)
    requires CoreInv(cfg, c) && CoreSafe(c)
    ensures
      var r := PadtStep(c, pkt);
      if exists p :: p in c.sess && Hashed(c.sess[p].state) && c.sess[p].sid == pkt.sid && c.sess[p].peer == pkt.src
      then
        && |r.out| == 1 && r.out[0].RemoveHook? && r.out[0].ptr in c.sess
        && var s := c.sess[r.out[0].ptr];
           Hashed(s.state) && s.sid == pkt.sid && s.peer == pkt.src && r.core.removing == c.removing + {r.out[0].ptr}
      else r.out == [] && r.core == c
  {
    FindSessionIsScan(cfg, c, pkt.sid, pkt.src);
    var r := FindSession(c, c.buckets[Sesshash(pkt.sid)], pkt.sid, pkt.src);
    if r.Some? {
      assert Placed(c.sess[r.value], Sesshash(pkt.sid));
    }
  }

  /** When one end of an established session goes away, its farewell reaches the other end
      and asks for the removal of exactly that session there. */
  lemma HangUp(cfgA: Config, a: Node, p: Ptr, cfgB: Config, b: Core, q: Ptr)
    requires Inv(cfgA, a) && Safe(a) && Established(cfgA, a.core, p, cfgB, b, q)
    ensures
      var gone := StepAfter(a, cfgA, Disconnect(p));
      && Inv(cfgA, gone.node) && p !in gone.node.core.sess
      && |gone.out| == 1 && gone.out[0].SendEther? && gone.out[0].pkt.dst == cfgB.mac
      && PadtStep(b, gone.out[0].pkt) == Result(b.(removing := b.removing + {q}), EOK, [RemoveHook(q)])
  {
    SessionBounds(cfgA, a.core, p);
    StepKeeps(cfgA, a, Disconnect(p));
  }
}
