/** What a node answers to each event, in terms of the bytes of the message or packet: which
    control messages are refused and why, who gets a PADI, which offers are taken, what of a
    data packet arrives, and how a session ends.  Numbers are those of RFC 2516. */
module PppoeAnswers {
  import opened Basics
  import opened PppoeTags
  import opened PppoeNode
  import opened PppoeInvariants
  import opened PppoeRuns
  import opened PppoeHandshake
  import opened PppoeOutputs
  import opened PppoeWire

  // ----- control messages

  /** The hook of that name is the one that is found. */
  lemma HookFound(hooks: seq<Hook>, k: Hook)
    requires HooksDiffer(hooks) && k in hooks
    ensures FindHook(hooks, k.name) == Some(k)
  {
  }

  /** Why a control message is refused, in the order of the checks: its sizes, an unknown hook,
      a hook without a session, a service that somebody listens for already, and a session in the
      wrong state. */
  lemma MessageAnswered(cfg: Config, n: Node, ev: Event, msg: InitMsg)
    requires Inv(cfg, n) && Safe(n)
    requires ev == ConnectMsg(msg) || ev == ListenMsg(msg) || ev == OfferMsg(msg) || ev == ServiceMsg(msg)
    ensures
      var e := StepAfter(n, cfg, ev).err;
      if !msg.headerFits || |msg.payload| > cfg.nameMax || |msg.payload| < msg.dataLen then e == EMSGSIZE
      else if forall k :: k in n.core.hooks ==> k.name != msg.hook then e == ENOENT
      else forall k | k in n.core.hooks && k.name == msg.hook ::
        if k.priv.None? then e == EINVAL
        else
          && k.priv.value in n.core.sess
          && var st := n.core.sess[k.priv.value].state;
             if ev.ListenMsg? && FindSvc(n.core, n.listeners, msg.payload[..msg.dataLen]).Some? then e == EEXIST
             else if ev.ServiceMsg? then e == (if st == Primed then EOK else EISCONN)
             else e == (if st == SNone then EOK else EISCONN)
  {
    forall k | k in n.core.hooks && k.name == msg.hook ensures FindHook(n.core.hooks, msg.hook) == Some(k) {
      HookFound(n.core.hooks, k);
    }
  }

  /** CONNECT data is a service, or the name of a concentrator, a backslash and a service ... */
  lemma NamesOfConnect(d: Name, i: nat)
    requires i <= |d| && (i < |d| ==> d[i] == 0x5c) && forall j :: 0 <= j < i ==> d[j] != 0x5c
    ensures SplitName(d) == if i < |d| then (d[..i], d[i + 1..]) else ([], d)
  {
    assert SplitPoint(d) == i;
  }

  /** ... and the session asks everybody for the service, with a PADI that bears its address. */
  lemma ConnectCalls(cfg: Config, c: Core, msg: InitMsg, p: Ptr, ac: Name, w: Name)
    requires CoreSafe(c) && HooksDiffer(c.hooks) && Hook(msg.hook, Some(p)) in c.hooks && p in c.sess
    requires ConnectStep(c, cfg, msg).err == EOK && msg.dataLen <= |msg.payload| <= cfg.nameMax
    requires SplitName(msg.payload[..msg.dataLen]) == (ac, w)
    ensures
      var (r, body) := (ConnectStep(c, cfg, msg),
                        ([0x01, 0x03, 0, 8] + PtrBytes(p)) + ([0x01, 0x01, |w| / 256, |w| % 256] + w));
      && |body| < 0x1_0000
      && r.out == [SendEther(Packet(Discovery, [0xff, 0xff, 0xff, 0xff, 0xff, 0xff], cfg.mac, 0x09, 0, |body|, body))]
      && p in r.core.sess && r.core.sess[p].state == SInit && r.core.sess[p].neg.Some?
      && r.core.sess[p].neg.value.acName == ac && r.core.sess[p].neg.value.service == w
  {
    HookFound(c.hooks, Hook(msg.hook, Some(p)));
    PadiBytes(p, FRESH_NEG.(acName := ac, service := w));
  }

  /** A name is taken if some listener has it, byte by byte up to the first zero. */
  lemma NameTakenIff(c: Core, ls: seq<Ptr>, d: Name)
    requires ListSafe(c, ls)
    ensures FindSvc(c, ls, d).Some? <==>
      exists p :: p in ls
        && |c.sess[p].neg.value.service| == |d|
        && forall i :: 0 <= i < |d| && 0 !in d[..i] ==> c.sess[p].neg.value.service[i] == d[i]
  {
    forall p | p in ls
      ensures SameName(c.sess[p].neg.value.service, d) <==>
        && |c.sess[p].neg.value.service| == |d|
        && forall i :: 0 <= i < |d| && 0 !in d[..i] ==> c.sess[p].neg.value.service[i] == d[i]
    {
      SameNameBytes(d, c.sess[p].neg.value.service);
    }
  }

  /** OFFER and SERVICE set the names that a server session advertises; LISTEN adds a listener
      for its data. */
  lemma NamesTaken(cfg: Config, n: Node, ev: Event, msg: InitMsg, p: Ptr)
    requires Inv(cfg, n) && Safe(n) && Hook(msg.hook, Some(p)) in n.core.hooks && p in n.core.sess
    requires ev == ListenMsg(msg) || ev == OfferMsg(msg) || ev == ServiceMsg(msg)
    requires StepAfter(n, cfg, ev).err == EOK && msg.dataLen <= |msg.payload|
    ensures
      var (r, d) := (StepAfter(n, cfg, ev), msg.payload[..msg.dataLen]);
      && r.out == [] && p in r.node.core.sess && r.node.core.sess[p].neg.Some?
      && var neg := r.node.core.sess[p].neg.value;
         && (ev.OfferMsg? ==> r.node.core.sess[p].state == Primed && neg.acName == d && |neg.service| == 0
                              && neg.sid == 0)
         && (ev.ServiceMsg? ==> r.node.core.sess[p].state == Primed && neg.service == d && n.core.sess[p].neg.Some?
                                && neg.acName == n.core.sess[p].neg.value.acName)
         && (ev.ListenMsg? ==> r.node.core.sess[p].state == Listening && neg.service == d
                               && r.node.listeners == [p] + n.listeners)
  {
    HookFound(n.core.hooks, Hook(msg.hook, Some(p)));
  }

  /** A PADI that names a service goes to the newest listener if that listens for everything or
      for this service. */
  lemma NewListenerServes(cfg: Config, n: Node, p: Ptr, rest: seq<Ptr>, pkt: Packet, wanted: Tag)
    requires Safe(n) && Enabled(n.core, FromEther(pkt)) && pkt.frame == Discovery && pkt.code == 0x09
    requires n.listeners == [p] + rest && p in n.core.sess && n.core.sess[p].neg.Some?
    requires FirstTag(ParseTags(TagArea(pkt)), 0x0101) == Some(wanted)
    ensures
      var (s, w) := (n.core.sess[p].neg.value.service, wanted.data);
      (|s| == 0 || (|s| == 1 && s[0] == 0x2a)
       || (|s| == |w| && forall i :: 0 <= i < |s| && 0 !in s[..i] ==> s[i] == w[i]))
      <==> StepAfter(n, cfg, FromEther(pkt)).out == [ForwardToHook(p, pkt)]
  {
    MatchRule(n.core.sess[p].neg.value.service, wanted.data);
  }

  // ----- the lists of tags in the answers

  function Opt(t: Option<Tag>): seq<Tag> {
    if t.Some? then [t.value] else []
  }

  lemma FoundAdded(ts: seq<Tag>, t: Option<Tag>)
    requires |ts| < 20
    ensures InsertFound(ts, t) == ts + Opt(t) && |InsertFound(ts, t)| <= |ts| + 1
  {
  }

  lemma ServiceAdded(ts: seq<Tag>, srv: Option<Tag>, s: Name)
    requires |ts| < 20
    ensures InsertService(ts, srv, s) ==
      ts + if (srv.None? || |srv.value.data| == 0) && |s| != 0 then [RawTag(0x0101, s)] else []
  {
  }

  /** The tags of an offer to any request that leaves room for them. */
  lemma OfferList(p: Ptr, n: Neg, ts: seq<Tag>)
    requires |RelayTags(ts)| <= 15
    ensures
      var srv := FirstTag(ts, 0x0101);
      OfferTags(p, n, ts) ==
        [RawTag(0x0102, n.acName)] + Opt(srv)
        + (if (srv.None? || |srv.value.data| == 0) && |n.service| != 0 then [RawTag(0x0101, n.service)] else [])
        + Opt(FirstTag(ts, 0x0103)) + [RawTag(0x0104, PtrBytes(p))] + RelayTags(ts)
  {
    var (srv, uniq) := (FirstTag(ts, PTT_SRV_NAME), FirstTag(ts, PTT_HOST_UNIQ));
    var l0 := [RawTag(PTT_AC_NAME, n.acName)];
    var l1 := InsertFound(l0, srv);
    FoundAdded(l0, srv);
    var l2 := InsertService(l1, srv, n.service);
    ServiceAdded(l1, srv, n.service);
    FoundAdded(l2, uniq);
    AllAppended(InsertTag(InsertFound(l2, uniq), RawTag(PTT_AC_COOKIE, PtrBytes(p))), RelayTags(ts));
  }

  /** The tags of a request, and of a confirmation. */
  lemma RequestList(n: Neg, utag: Tag, ts: seq<Tag>)
    requires |RelayTags(ts)| <= 16
    ensures RequestTags(n, utag, ts) ==
      [utag] + Opt(FirstTag(ts, 0x0104)) + Opt(FirstTag(ts, 0x0102)) + [RawTag(0x0101, n.service)] + RelayTags(ts)
  {
    var (cookie, ac) := (FirstTag(ts, PTT_AC_COOKIE), FirstTag(ts, PTT_AC_NAME));
    FoundAdded([utag], cookie);
    FoundAdded(InsertFound([utag], cookie), ac);
    var l := InsertTag(InsertFound(InsertFound([utag], cookie), ac), RawTag(PTT_SRV_NAME, n.service));
    AllAppended(l, RelayTags(ts));
  }

  lemma ConfirmList(n: Neg, utag: Tag, ts: seq<Tag>)
    requires |RelayTags(ts)| <= 16
    ensures ConfirmTags(n, utag, ts) ==
      [RawTag(0x0102, n.acName)] + Opt(FirstTag(ts, 0x0101)) + Opt(FirstTag(ts, 0x0103)) + [utag] + RelayTags(ts)
  {
    var (srv, uniq) := (FirstTag(ts, PTT_SRV_NAME), FirstTag(ts, PTT_HOST_UNIQ));
    var l0 := [RawTag(PTT_AC_NAME, n.acName)];
    FoundAdded(l0, srv);
    FoundAdded(InsertFound(l0, srv), uniq);
    AllAppended(InsertTag(InsertFound(InsertFound(l0, srv), uniq), utag), RelayTags(ts));
  }

  lemma AllAppended(ts: seq<Tag>, more: seq<Tag>)
    requires |ts| + |more| <= 20
    ensures InsertAll(ts, more) == ts + more
  {
    InsertAllAppends(ts, more);
    assert more[..|more|] == more;
  }

  // ----- offers, requests and confirmations

  /** An offer for a waiting client is taken if and only if the client asked for no concentrator
      by name, or the offer bears that name; else nothing happens. */
  lemma OfferTakenIff(cfg: Config, n: Node, pkt: Packet, p: Ptr, u: Tag, body: seq<byte>)
    requires Inv(cfg, n) && Safe(n) && Enabled(n.core, FromEther(pkt)) && pkt.frame == Discovery && pkt.code == 0x07
    requires FirstTag(ParseTags(TagArea(pkt)), 0x0103) == Some(u) && u.data == PtrBytes(p)
    requires p in n.core.sess && n.core.sess[p].state == SInit && n.core.sess[p].neg.Some?
    requires body == Payload(RequestTags(n.core.sess[p].neg.value, u, ParseTags(TagArea(pkt))))
    ensures
      var (r, neg) := (StepAfter(n, cfg, FromEther(pkt)), n.core.sess[p].neg.value);
      var (ac, t) := (neg.acName, FirstTag(ParseTags(TagArea(pkt)), 0x0102));
      r.err == EOK &&
      if |ac| == 0 || (t.Some? && |ac| == |t.value.data|
                       && forall i :: 0 <= i < |ac| && 0 !in ac[..i] ==> ac[i] == t.value.data[i])
      then
        && p in r.node.core.sess && r.node.core.sess[p].state == SReq && |body| <= 1494
        && r.out == [SendEther(Packet(Discovery, pkt.src, cfg.mac, 0x19, neg.sid, |body|, body))]
      else r.node == n && r.out == []
  {
    assert HasSession(n.core.hooks, p);
    PadoHandled(cfg, n, pkt);
    PadoDecides(cfg, n.core, pkt, p, u, body);
    var t := FirstTag(ParseTags(TagArea(pkt)), 0x0102);
    if t.Some? {
      SameNameBytes(n.core.sess[p].neg.value.acName, t.value.data);
    }
  }

  lemma PadoHandled(cfg: Config, n: Node, pkt: Packet)
    requires Safe(n) && Enabled(n.core, FromEther(pkt)) && pkt.frame == Discovery && pkt.code == 0x07
    ensures var r := PadoStep(n.core, cfg, pkt);
      StepAfter(n, cfg, FromEther(pkt)) == NodeResult(n.(core := r.core), r.err, r.out)
  {
  }

  lemma PadoDecides(cfg: Config, c: Core, pkt: Packet, p: Ptr, u: Tag, body: seq<byte>)
    requires CoreSafe(c) && HasSession(c.hooks, p) && p in c.sess
    requires FirstTag(ParseTags(TagArea(pkt)), 0x0103) == Some(u) && u.data == PtrBytes(p)
    requires c.sess[p].state == SInit && c.sess[p].neg.Some?
    requires body == Payload(RequestTags(c.sess[p].neg.value, u, ParseTags(TagArea(pkt))))
    ensures
      var (r, neg) := (PadoStep(c, cfg, pkt), c.sess[p].neg.value);
      var t := FirstTag(ParseTags(TagArea(pkt)), 0x0102);
      r.err == EOK &&
      if |neg.acName| == 0 || (t.Some? && SameName(neg.acName, t.value.data))
      then
        && p in r.core.sess && r.core.sess[p].state == SReq && |body| <= 1494
        && r.out == [SendEther(Packet(Discovery, pkt.src, cfg.mac, 0x19, neg.sid, |body|, body))]
      else r.core == c && r.out == []
  {
    PacketIs(cfg, RequestSession(cfg, c.sess[p], pkt, u).neg.value, body);
  }

  lemma PacketIs(cfg: Config, n: Neg, body: seq<byte>)
    requires n.payload == body && |body| <= 1494
    ensures DiscoveryPacket(cfg, n) == Packet(Discovery, n.peer, cfg.mac, n.code, n.sid, |body|, body)
  {
  }

  /** A server session that gets a PADI back from its hook offers to the sender, once; it takes
      nothing else, and neither does any session that is not connected. */
  lemma HookAnswered(cfg: Config, n: Node, p: Ptr, pkt: Packet, body: seq<byte>)
    requires Inv(cfg, n) && Safe(n) && Enabled(n.core, FromHook(p, pkt)) && !Hashed(n.core.sess[p].state)
    requires n.core.sess[p].neg.Some? ==>
      body == Payload(OfferTags(p, n.core.sess[p].neg.value, ParseTags(TagArea(pkt))))
    ensures
      var (r, s) := (StepAfter(n, cfg, FromHook(p, pkt)), n.core.sess[p]);
      if s.state == Primed && pkt.code == 0x09 then
        && s.neg.Some? && |body| <= 1494 && r.err == EOK
        && r.out == [SendEther(Packet(Discovery, pkt.src, cfg.mac, 0x07, s.neg.value.sid, |body|, body))]
        && p in r.node.core.sess && r.node.core.sess[p].state == SOffer
      else r == NodeResult(n, if s.state == Primed then EINVAL else ENETUNREACH, [])
  {
    assert SessionFits(cfg, n.core.sess[p], p in n.core.removing);
    HookHandled(cfg, n, p, pkt);
    if n.core.sess[p].state == Primed && pkt.code == 0x09 {
      OfferOnWire(cfg, n.core, p, pkt, body);
    }
  }

  lemma HookHandled(cfg: Config, n: Node, p: Ptr, pkt: Packet)
    requires Safe(n) && Enabled(n.core, FromHook(p, pkt))
    ensures var r := FromHookStep(n.core, cfg, p, pkt);
      StepAfter(n, cfg, FromHook(p, pkt)) == NodeResult(n.(core := r.core), r.err, r.out)
  {
  }

  lemma OfferOnWire(cfg: Config, c: Core, p: Ptr, pkt: Packet, body: seq<byte>)
    requires p in c.sess && c.sess[p].neg.Some? && c.sess[p].state == Primed && pkt.code == 0x09
    requires body == Payload(OfferTags(p, c.sess[p].neg.value, ParseTags(TagArea(pkt))))
    ensures
      var r := FromHookStep(c, cfg, p, pkt);
      && |body| <= 1494 && r.err == EOK
      && r.out == [SendEther(Packet(Discovery, pkt.src, cfg.mac, 0x07, c.sess[p].neg.value.sid, |body|, body))]
      && p in r.core.sess && r.core.sess[p].state == SOffer
  {
    PacketIs(cfg, OfferSession(cfg, p, c.sess[p], pkt).neg.value, body);
  }

  /** A request for a session that offered, or was confirmed, is confirmed with the ID of the
      session, an old one if it has one. */
  lemma RequestConfirmed(cfg: Config, c: Core, pkt: Packet, p: Ptr, u: Tag, body: seq<byte>)
    requires CoreInv(cfg, c) && CoreSafe(c) && PadrCanAllocate(c, pkt) && p in c.sess && c.sess[p].neg.Some?
    requires FirstTag(ParseTags(TagArea(pkt)), 0x0104) == Some(u) && u.data == PtrBytes(p)
    requires c.sess[p].state == SOffer || c.sess[p].state == NewConnected
    requires body == Payload(ConfirmTags(c.sess[p].neg.value, u, ParseTags(TagArea(pkt))))
    ensures
      var (r, s) := (PadrStep(c, cfg, pkt), c.sess[p]);
      && p in r.core.sess && r.core.sess[p].state == NewConnected && |body| <= 1494
      && (if s.sid != 0 then r.core.sess[p].sid == s.sid else 1 <= r.core.sess[p].sid <= 0xfffe)
      && r.out ==
           [SendEther(Packet(Discovery, s.neg.value.peer, cfg.mac, 0x65, r.core.sess[p].sid, |body|, body))]
  {
    SessionBounds(cfg, c, p);
    ConfirmOnWire(cfg, c, pkt, p, u, body);
  }

  lemma ConfirmOnWire(cfg: Config, c: Core, pkt: Packet, p: Ptr, u: Tag, body: seq<byte>)
    requires CoreSafe(c) && HasSession(c.hooks, p) && PadrCanAllocate(c, pkt) && p in c.sess && c.sess[p].neg.Some?
    requires FirstTag(ParseTags(TagArea(pkt)), 0x0104) == Some(u) && u.data == PtrBytes(p)
    requires c.sess[p].state == SOffer || c.sess[p].state == NewConnected
    requires c.sess[p].sid != 0 ==> c.sess[p].neg.value.sid == c.sess[p].sid
    requires body == Payload(ConfirmTags(c.sess[p].neg.value, u, ParseTags(TagArea(pkt))))
    ensures
      var (r, s) := (PadrStep(c, cfg, pkt), c.sess[p]);
      && p in r.core.sess && r.core.sess[p].state == NewConnected && |body| <= 1494
      && (if s.sid != 0 then r.core.sess[p].sid == s.sid else 1 <= r.core.sess[p].sid <= 0xfffe)
      && r.out ==
           [SendEther(Packet(Discovery, s.neg.value.peer, cfg.mac, 0x65, r.core.sess[p].sid, |body|, body))]
  {
    var s := c.sess[p];
    assert PadrTarget(c, pkt) == Some(p);
    if s.sid == 0 {
      var sid := NewSid(c).0;
      PacketIs(cfg, ConfirmSession(s, sid, sid, pkt, u).neg.value, body);
    } else {
      PacketIs(cfg, ConfirmSession(s, s.sid, s.sid, pkt, u).neg.value, body);
    }
  }

  /** A confirmation for a client that requested connects it, with the ID it bears, to the
      concentrator that the request went to. */
  lemma ConfirmationTaken(cfg: Config, c: Core, pkt: Packet, p: Ptr, u: Tag)
    requires CoreInv(cfg, c) && CoreSafe(c) && p in c.sess && c.sess[p].state == SReq && c.sess[p].neg.Some?
    requires FirstTag(ParseTags(TagArea(pkt)), 0x0103) == Some(u) && u.data == PtrBytes(p)
    ensures
      var r := PadsStep(c, pkt);
      && r.err == EOK && r.out == [] && p in r.core.sess && r.core.sess[p].state == Connected
      && r.core.sess[p].sid == pkt.sid && r.core.sess[p].peer == c.sess[p].neg.value.peer
      && r.core.sess[p].neg.None?
  {
    assert HasSession(c.hooks, p);
  }

  /** Packets that come at the wrong time, or to nobody, change and send nothing; only an offer
      to a client that has taken one is not an error. */
  lemma Unexpected(cfg: Config, n: Node, pkt: Packet, u: Option<Tag>)
    requires Inv(cfg, n) && Safe(n) && Enabled(n.core, FromEther(pkt)) && pkt.frame == Discovery
    requires pkt.code == 0x07 || pkt.code == 0x19 || pkt.code == 0x65
    requires u == FirstTag(ParseTags(TagArea(pkt)), if pkt.code == 0x19 then 0x0104 else 0x0103)
    ensures
      var r := StepAfter(n, cfg, FromEther(pkt));
      var to := if u.Some? && |u.value.data| == 8 then Some(PtrOf(u.value.data)) else None;
      if to.None? || to.value !in n.core.sess then r == NodeResult(n, ENETUNREACH, [])
      else
        var st := n.core.sess[to.value].state;
        && (pkt.code == 0x07 && (st == SReq || st == Connected) ==> r == NodeResult(n, EOK, []))
        && (pkt.code == 0x07 && st != SReq && st != Connected && st != SInit ==> r == NodeResult(n, ENETUNREACH, []))
        && (pkt.code == 0x19 && st != SOffer && st != NewConnected ==> r == NodeResult(n, ENETUNREACH, []))
        && (pkt.code == 0x65 && st != SReq ==> r == NodeResult(n, ENETUNREACH, []))
  {
    if u.Some? && |u.value.data| == 8 {
      var p := PtrOf(u.value.data);
      assert HasSession(n.core.hooks, p) <==> p in n.core.sess;
    }
  }

  lemma Unknown(cfg: Config, n: Node, pkt: Packet)
    requires Safe(n) && Enabled(n.core, FromEther(pkt))
    requires pkt.frame == Foreign
      || (pkt.frame == Discovery && pkt.code != 0x09 && pkt.code != 0x07 && pkt.code != 0x19 && pkt.code != 0x65
          && pkt.code != 0xa7)
    ensures StepAfter(n, cfg, FromEther(pkt)) == NodeResult(n, EPFNOSUPPORT, [])
  {
  }

  // ----- data

  /** Data for a session is cut to its length field, and refused if it is shorter; the first that
      arrives ends the negotiation. */
  lemma DataArrives(cfg: Config, n: Node, q: Ptr, pkt: Packet)
    requires Inv(cfg, n) && Safe(n) && q in n.core.sess && Hashed(n.core.sess[q].state) && pkt.frame == SessionData
    requires FindSession(n.core, n.core.buckets[Sesshash(pkt.sid)], pkt.sid, pkt.src) == Some(q)
    ensures
      var r := StepAfter(n, cfg, FromEther(pkt));
      if |pkt.body| < pkt.length then r == NodeResult(n, EMSGSIZE, [])
      else
        && r.err == EOK && r.out == [Deliver(q, pkt.body[..pkt.length])]
        && q in r.node.core.sess && r.node.core.sess[q].state == Connected
        && r.node.core.sess[q].neg.None?
  {
    DataHandled(cfg, n, pkt);
    assert SessionFits(cfg, n.core.sess[q], q in n.core.removing);
  }

  lemma DataHandled(cfg: Config, n: Node, pkt: Packet)
    requires Safe(n) && pkt.frame == SessionData
    ensures Enabled(n.core, FromEther(pkt))
    ensures var r := SessionDataStep(n.core, pkt);
      StepAfter(n, cfg, FromEther(pkt)) == NodeResult(n.(core := r.core), r.err, r.out)
  {
  }

  /** What an application sends over a session, less the bytes ff 03 in front. */
  lemma DataLeaves(cfg: Config, n: Node, p: Ptr, pkt: Packet)
    requires Inv(cfg, n) && Safe(n) && p in n.core.sess && Hashed(n.core.sess[p].state) && |pkt.body| < 0x1_0000
    ensures
      var s := n.core.sess[p];
      var d := if |pkt.body| >= 2 && pkt.body[0] == 0xff && pkt.body[1] == 0x03 then pkt.body[2..] else pkt.body;
      StepAfter(n, cfg, FromHook(p, pkt)) ==
        NodeResult(n, EOK, [SendEther(Packet(SessionData, s.peer, cfg.mac, 0, s.sid, |d|, d))])
  {
    DataSent(cfg, n.core, p, pkt);
  }

  // ----- the end of a session

  /** A session that goes away says so, with a PADT that holds the error tag "session closed" ... */
  lemma SaysGoodbye(cfg: Config, n: Node, p: Ptr)
    requires Inv(cfg, n) && Safe(n) && p in n.core.sess
    ensures
      var (s, out) := (n.core.sess[p], StepAfter(n, cfg, Disconnect(p)).out);
      if s.state == NewConnected || s.state == Connected then
        out == [SendEther(Packet(Discovery, s.peer, cfg.mac, 0xa7, s.sid, 18, [0x02, 0x03, 0, 14,
          0x73, 0x65, 0x73, 0x73, 0x69, 0x6f, 0x6e, 0x20, 0x63, 0x6c, 0x6f, 0x73, 0x65, 0x64]))]
      else out == []
  {
    assert SessionFits(cfg, n.core.sess[p], p in n.core.removing);
    FarewellIs(cfg, n.core.sess[p]);
  }

  lemma FarewellIs(cfg: Config, s: Session)
    ensures Farewell(cfg, s) ==
      if s.state == NewConnected || s.state == Connected then
        [SendEther(Packet(Discovery, s.peer, cfg.mac, 0xa7, s.hdrSid, 18, [0x02, 0x03, 0, 14,
          0x73, 0x65, 0x73, 0x73, 0x69, 0x6f, 0x6e, 0x20, 0x63, 0x6c, 0x6f, 0x73, 0x65, 0x64]))]
      else []
  {
    assert EncodeTag(RawTag(PTT_GEN_ERR, SIGNOFF)) == [0x02, 0x03, 0, 14] + SIGNOFF;
    assert [0x02, 0x03, 0, 14] + SIGNOFF == [0x02, 0x03, 0, 14,
      0x73, 0x65, 0x73, 0x73, 0x69, 0x6f, 0x6e, 0x20, 0x63, 0x6c, 0x6f, 0x73, 0x65, 0x64];
  }

  /** ... and at the other end, where the packet is received as any other, exactly that session is
      asked to go. */
  lemma GoodbyeArrives(cfgA: Config, a: Node, p: Ptr, cfgB: Config, b: Node, q: Ptr, pkt: Packet)
    requires Inv(cfgA, a) && Safe(a) && Inv(cfgB, b) && Safe(b) && Established(cfgA, a.core, p, cfgB, b.core, q)
    requires StepAfter(a, cfgA, Disconnect(p)).out == [SendEther(pkt)]
    ensures Enabled(b.core, FromEther(pkt))
    ensures StepAfter(b, cfgB, FromEther(pkt)) ==
      NodeResult(b.(core := b.core.(removing := b.core.removing + {q})), EOK, [RemoveHook(q)])
  {
    GoodbyeSent(cfgA, a, p, pkt);
    HangUp(cfgA, a, p, cfgB, b.core, q);
    PadtHandled(cfgB, b, pkt);
  }

  lemma GoodbyeSent(cfg: Config, n: Node, p: Ptr, pkt: Packet)
    requires Inv(cfg, n) && Safe(n) && p in n.core.sess && StepAfter(n, cfg, Disconnect(p)).out == [SendEther(pkt)]
    ensures pkt.frame == Discovery && pkt.code == 0xa7
  {
    SaysGoodbye(cfg, n, p);
  }

  lemma PadtHandled(cfg: Config, n: Node, pkt: Packet)
    requires Safe(n) && pkt.frame == Discovery && pkt.code == 0xa7
    ensures Enabled(n.core, FromEther(pkt))
    ensures var r := PadtStep(n.core, pkt);
      StepAfter(n, cfg, FromEther(pkt)) == NodeResult(n.(core := r.core), r.err, r.out)
  {
  }

  // ----- timeouts

  /** A timeout of a waiting client sends the last packet again; when an unanswered request is
      given up, a PADI for the same service follows at once. */
  lemma TimeoutSends(cfg: Config, n: Node, p: Ptr)
    requires Inv(cfg, n) && Safe(n) && Enabled(n.core, Timeout(p))
    ensures
      var (s, r) := (n.core.sess[p], StepAfter(n, cfg, Timeout(p)));
      && p in r.node.core.sess
      && var again := SendEther(Packet(Discovery, s.neg.value.peer, cfg.mac, s.neg.value.code, s.neg.value.sid,
                                       |s.neg.value.payload| % 0x1_0000, s.neg.value.payload));
         if s.state == SOffer then r.out == [RemoveHook(p)]
         else if s.state == SReq && r.node.core.sess[p].state == SInit then
           && |r.out| == 2 && r.out[0] == again && r.out[1].SendEther?
           && var (pkt, w) := (r.out[1].pkt, s.neg.value.service);
              && pkt.code == 0x09 && pkt.dst == [0xff, 0xff, 0xff, 0xff, 0xff, 0xff]
              && pkt.body == ([0x01, 0x03, 0, 8] + PtrBytes(p)) + ([0x01, 0x01, |w| / 256, |w| % 256] + w)
         else r.out == [again] && r.node.core.sess[p].state == s.state
  {
    assert SessionFits(cfg, n.core.sess[p], p in n.core.removing);
    PadiBytes(p, n.core.sess[p].neg.value);
  }
}
