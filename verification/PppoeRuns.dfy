/** Whole runs of the PPPoE node: the invariant in every reachable state, when the
    session index stays exact, and what a session may become. */
module PppoeRuns {
  import opened Basics
  import opened PppoeTags
  import opened PppoeNode
  import opened PppoeInvariants

  /** The event that breaks the index: a connected session whose peer assigned ID 0
      goes away, and the test `if (sp->Session_ID)` leaves it in its bucket. */
  predicate LeavesDangling(c: Core, ev: Event) {
    ev.Disconnect? && ev.ptr in c.sess && Hashed(c.sess[ev.ptr].state) && c.sess[ev.ptr].sid == 0
  }

  // ----- what a session may become

  predicate Edge(a: SState, b: SState) {
    || a == b
    || (a == SNone && (b == SInit || b == Listening || b == Primed))
    || (a == SInit && b == SReq)
    || (a == SReq && (b == SInit || b == Connected))
    || (a == Primed && b == SOffer)
    || (a == SOffer && b == NewConnected)
    || (a == NewConnected && b == Connected)
  }

  /** One event moves a session along one edge, never changes the side it is on, and
      leaves an assigned session ID and the peer it belongs to as they are. */
  ghost predicate Evolves(s: Session, s': Session) {
    && Edge(s.state, s'.state)
    && (s.role != Unused ==> s'.role == s.role)
    && (Hashed(s.state) ==> s'.sid == s.sid && s'.peer == s.peer && s'.hdrSid == s.hdrSid)
  }

  /** Section 5.4 of RFC 2516: a PADS that accepts a session carries a non-zero ID. */
  predicate PadsNonZero(ev: Event) {
    ev.FromEther? && ev.pkt.frame == Discovery && ev.pkt.code == PADS ==> ev.pkt.sid != 0
  }

  /** In the events common to both versions no session starts or stops listening, and
      one that becomes connected has an ID, unless its PADS gave it none. */
  ghost predicate CommonlyEvolves(c: Core, c': Core, p: Ptr, nonZero: bool)
    requires p in c.sess
  {
    && p in c'.sess
    && Evolves(c.sess[p], c'.sess[p])
    && (c.sess[p].state == Listening <==> c'.sess[p].state == Listening)
    && (Hashed(c'.sess[p].state) && !Hashed(c.sess[p].state) && nonZero ==> c'.sess[p].sid != 0)
  }

  lemma PadoEvolves(cfg: Config, c: Core, pkt: Packet, p: Ptr)
    requires SessionsFit(cfg, c) && CoreSafe(c) && p in c.sess
    ensures CommonlyEvolves(c, PadoStep(c, cfg, pkt).core, p, true)
  {
  }

  lemma PadrEvolves(cfg: Config, c: Core, pkt: Packet, p: Ptr)
    requires SessionsFit(cfg, c) && CoreSafe(c) && p in c.sess
    requires PadrCanAllocate(c, pkt)
    ensures CommonlyEvolves(c, PadrStep(c, cfg, pkt).core, p, true)
  {
    assert SessionFits(cfg, c.sess[p], p in c.removing);
  }

  lemma PadsEvolves(cfg: Config, c: Core, pkt: Packet, p: Ptr)
    requires SessionsFit(cfg, c) && CoreSafe(c) && p in c.sess
    ensures CommonlyEvolves(c, PadsStep(c, pkt).core, p, pkt.sid != 0)
  {
    assert SessionFits(cfg, c.sess[p], p in c.removing);
  }

  lemma SessionDataEvolves(cfg: Config, c: Core, pkt: Packet, p: Ptr)
    requires SessionsFit(cfg, c) && CoreSafe(c) && p in c.sess
    ensures CommonlyEvolves(c, SessionDataStep(c, pkt).core, p, true)
  {
  }

  lemma TimeoutEvolves(cfg: Config, c: Core, q: Ptr, p: Ptr)
    requires SessionsFit(cfg, c) && CoreSafe(c) && p in c.sess && q in c.sess
    requires c.sess[q].neg.Some? && c.sess[q].neg.value.pending.Some?
    ensures CommonlyEvolves(c, TimeoutStep(c, cfg, q).core, p, true)
  {
    ExpireFits(cfg, q, c.sess[q], q in c.removing);
  }

  lemma MessageEvolves(cfg: Config, c: Core, msg: InitMsg, p: Ptr)
    requires SessionsFit(cfg, c) && CoreSafe(c) && p in c.sess
    ensures CommonlyEvolves(c, ConnectStep(c, cfg, msg).core, p, true)
    ensures CommonlyEvolves(c, OfferStep(c, cfg, msg).core, p, true)
    ensures CommonlyEvolves(c, ServiceStep(c, cfg, msg).core, p, true)
  {
    var r := InitCheck(c, cfg, msg);
    if r.Found? {
      assert SessionFits(cfg, c.sess[r.ptr], r.ptr in c.removing);
    }
  }

  lemma FromHookEvolves(cfg: Config, c: Core, q: Ptr, pkt: Packet, p: Ptr)
    requires SessionsFit(cfg, c) && CoreSafe(c) && p in c.sess && q in c.sess
    ensures CommonlyEvolves(c, FromHookStep(c, cfg, q, pkt).core, p, true)
  {
    assert SessionFits(cfg, c.sess[q], q in c.removing);
  }

  lemma CommonStepEvolves(cfg: Config, c: Core, ev: Event, p: Ptr)
    requires SessionsFit(cfg, c) && CoreSafe(c) && Enabled(c, ev) && Common(ev) && p in c.sess
    ensures CommonlyEvolves(c, CommonStep(c, cfg, ev).core, p, PadsNonZero(ev))
  {
    match ev
    case NewHook(name, at, q) =>
    case ConnectMsg(msg) => MessageEvolves(cfg, c, msg, p);
    case OfferMsg(msg) => MessageEvolves(cfg, c, msg, p);
    case ServiceMsg(msg) => MessageEvolves(cfg, c, msg, p);
    case FromHook(q, pkt) => FromHookEvolves(cfg, c, q, pkt, p);
    case FromEther(pkt) =>
      if pkt.frame == SessionData {
        SessionDataEvolves(cfg, c, pkt, p);
      } else if pkt.frame == Discovery {
        if pkt.code == PADO { PadoEvolves(cfg, c, pkt, p); }
        else if pkt.code == PADR { PadrEvolves(cfg, c, pkt, p); }
        else if pkt.code == PADS { PadsEvolves(cfg, c, pkt, p); }
      }
    case Timeout(q) => TimeoutEvolves(cfg, c, q, p);
    case OtherNodeTookSid(v) =>
  }

  lemma DiscoveryAddsNothing(cfg: Config, c: Core, pkt: Packet, p: Ptr)
    requires CoreSafe(c) && p !in c.sess
    ensures p !in PadoStep(c, cfg, pkt).core.sess
    ensures PadrCanAllocate(c, pkt) ==> p !in PadrStep(c, cfg, pkt).core.sess
    ensures p !in PadsStep(c, pkt).core.sess
  {
  }

  lemma MessagesAddNothing(cfg: Config, c: Core, msg: InitMsg, p: Ptr)
    requires CoreSafe(c) && p !in c.sess
    ensures p !in ConnectStep(c, cfg, msg).core.sess
    ensures p !in OfferStep(c, cfg, msg).core.sess
    ensures p !in ServiceStep(c, cfg, msg).core.sess
  {
  }

  lemma SessionDataAddsNothing(c: Core, pkt: Packet, p: Ptr)
    requires CoreSafe(c) && p !in c.sess
    ensures p !in SessionDataStep(c, pkt).core.sess
  {
    var r := FindSession(c, c.buckets[Sesshash(pkt.sid)], pkt.sid, pkt.src);
    assert r.Some? ==> r.value in c.sess;
  }

  lemma FromHookAddsNothing(cfg: Config, c: Core, q: Ptr, pkt: Packet, p: Ptr)
    requires CoreSafe(c) && Enabled(c, FromHook(q, pkt)) && p !in c.sess
    ensures p !in FromHookStep(c, cfg, q, pkt).core.sess
  {
  }

  lemma EtherAddsNothing(cfg: Config, c: Core, pkt: Packet, p: Ptr)
    requires CoreSafe(c) && Enabled(c, FromEther(pkt)) && Common(FromEther(pkt)) && p !in c.sess
    ensures p !in CommonStep(c, cfg, FromEther(pkt)).core.sess
  {
    if pkt.frame == SessionData {
      SessionDataAddsNothing(c, pkt, p);
    } else if pkt.frame == Discovery {
      DiscoveryAddsNothing(cfg, c, pkt, p);
    }
  }

  /** Only NewHook adds a session, in its initial state. */
  lemma CommonStepAdds(cfg: Config, c: Core, ev: Event, p: Ptr)
    requires CoreSafe(c) && Enabled(c, ev) && Common(ev) && p !in c.sess
    ensures var c' := CommonStep(c, cfg, ev).core;
      p in c'.sess ==> ev.NewHook? && c'.sess[p] == ZERO_SESSION
  {
    match ev
    case NewHook(name, at, q) =>
    case ConnectMsg(msg) => MessagesAddNothing(cfg, c, msg, p);
    case OfferMsg(msg) => MessagesAddNothing(cfg, c, msg, p);
    case ServiceMsg(msg) => MessagesAddNothing(cfg, c, msg, p);
    case FromHook(q, pkt) => FromHookAddsNothing(cfg, c, q, pkt, p);
    case FromEther(pkt) => EtherAddsNothing(cfg, c, pkt, p);
    case Timeout(q) =>
    case OtherNodeTookSid(v) =>
  }

  // ----- single steps

  lemma ListenAfterKeeps(cfg: Config, n: Node, msg: InitMsg)
    requires Inv(cfg, n) && Safe(n)
    ensures Inv(cfg, StepAfter(n, cfg, ListenMsg(msg)).node)
  {
    var taken := FindSvc(n.core, n.listeners, MessageName(msg)).Some?;
    var (r, added) := ListenStep(n.core, cfg, msg, taken);
    var n' := Node(r.core, if added.Some? then [added.value] + n.listeners else n.listeners);
    assert StepAfter(n, cfg, ListenMsg(msg)).node == n';
    assert CoreInv(cfg, n'.core) by { ListenKeeps(cfg, n.core, msg, taken); }
    assert ListenersExact(n') by { NewListener(n, cfg, msg, taken); }
  }

  lemma NewListener(n: Node, cfg: Config, msg: InitMsg, taken: bool)
    requires ListenersExact(n) && CoreSafe(n.core)
    ensures var (r, added) := ListenStep(n.core, cfg, msg, taken);
      ListenersExact(Node(r.core, if added.Some? then [added.value] + n.listeners else n.listeners))
  {
    var (r, added) := ListenStep(n.core, cfg, msg, taken);
    if added.Some? {
      assert added.value !in n.listeners;
      DistinctCons(added.value, n.listeners);
    }
  }

  lemma DisconnectAfterKeeps(cfg: Config, n: Node, p: Ptr)
    requires Inv(cfg, n) && Safe(n) && p in n.core.sess
    requires !LeavesDangling(n.core, Disconnect(p))
    ensures Inv(cfg, DisconnectAfter(n, cfg, p).node)
  {
    var s := n.core.sess[p];
    var n' := DisconnectAfter(n, cfg, p).node;
    assert SessionFits(cfg, s, p in n.core.removing);
    assert CoreInv(cfg, n'.core) by {
      ForgetKeeps(cfg, n.core, p);
    }
    if s.state == Listening {
      WithoutMembers(n.listeners, p);
    }
  }

  /** Every event but one keeps the invariant. */
  lemma StepKeeps(cfg: Config, n: Node, ev: Event)
    requires Inv(cfg, n) && Safe(n) && Enabled(n.core, ev)
    requires !LeavesDangling(n.core, ev)
    ensures Inv(cfg, StepAfter(n, cfg, ev).node)
  {
    if Common(ev) {
      CommonStepKeeps(cfg, n.core, ev);
      forall p: Ptr
        ensures p in n.listeners <==>
          var c' := CommonStep(n.core, cfg, ev).core; p in c'.sess && c'.sess[p].state == Listening
      {
        if p in n.core.sess {
          CommonStepEvolves(cfg, n.core, ev, p);
        } else {
          CommonStepAdds(cfg, n.core, ev, p);
        }
      }
    } else if ev.ListenMsg? {
      ListenAfterKeeps(cfg, n, ev.msg);
    } else if ev.Disconnect? {
      DisconnectAfterKeeps(cfg, n, ev.ptr);
    }
  }

  lemma DanglingBreaksIndex(cfg: Config, n: Node, p: Ptr)
    requires IndexExact(n.core) && Safe(n) && LeavesDangling(n.core, Disconnect(p))
    ensures !IndexExact(DisconnectAfter(n, cfg, p).node.core)
  {
    var c' := DisconnectAfter(n, cfg, p).node.core;
    assert p in n.core.buckets[Sesshash(0)];
    assert p in c'.buckets[Sesshash(0)] && p !in c'.sess;
  }

  /** The index stays exact in a step if and only if the event does not remove a
      connected session that has ID 0. */
  lemma IndexExactIff(cfg: Config, n: Node, ev: Event)
    requires Inv(cfg, n) && Safe(n) && Enabled(n.core, ev)
    ensures IndexExact(StepAfter(n, cfg, ev).node.core) <==> !LeavesDangling(n.core, ev)
  {
    if LeavesDangling(n.core, ev) {
      DanglingBreaksIndex(cfg, n, ev.ptr);
    } else {
      StepKeeps(cfg, n, ev);
    }
  }

  lemma BucketsForget(c: Core, p: Ptr, h: nat)
    requires IndexExact(c) && p in c.sess && h < 0x100
    ensures var s := c.sess[p];
      var b := if s.state != Listening && s.sid != 0 then DelFromBucket(c.buckets, Sesshash(s.sid), p) else c.buckets;
      && |b| == 0x100
      && (p in b[h] <==> Hashed(s.state) && s.sid == 0 && h == Sesshash(0))
      && forall q :: q != p ==> (q in b[h] <==> q in c.buckets[h])
  {
    WithoutMembers(c.buckets[h], p);
    assert p in c.buckets[h] <==> Placed(c.sess[p], h);
  }

  /** A session that was disconnected is in no table of the node any more, and all other
      sessions keep their entries; the other end is told exactly when it was connected. */
  lemma DisconnectForgets(cfg: Config, n: Node, p: Ptr)
    requires ListenersExact(n) && Safe(n) && p in n.core.sess
    ensures var r := DisconnectAfter(n, cfg, p); var c := r.node.core;
      && p !in c.sess && p !in c.removing && p !in r.node.listeners && !HasSession(c.hooks, p)
      && (forall q :: q in n.core.sess && q != p ==> q in c.sess && c.sess[q] == n.core.sess[q])
      && (forall q :: q != p ==> (q in r.node.listeners <==> q in n.listeners))
      && (r.out == [] <==> !Hashed(n.core.sess[p].state))
  {
    WithoutMembers(n.listeners, p);
  }

  /** The buckets are the exception: there it stays when it was connected with ID 0. */
  lemma DisconnectLeavesBucketsIff(cfg: Config, n: Node, p: Ptr)
    requires IndexExact(n.core) && Safe(n) && p in n.core.sess
    ensures var b := DisconnectAfter(n, cfg, p).node.core.buckets;
      && |b| == 0x100
      && ((forall h :: 0 <= h < 0x100 ==> p !in b[h]) <==> !LeavesDangling(n.core, Disconnect(p)))
      && (forall q, h :: q != p && 0 <= h < 0x100 ==> (q in b[h] <==> q in n.core.buckets[h]))
  {
    var b := DisconnectAfter(n, cfg, p).node.core.buckets;
    BucketsForget(n.core, p, Sesshash(0));
    forall q, h | q != p && 0 <= h < 0x100 ensures q in b[h] <==> q in n.core.buckets[h] {
      BucketsForget(n.core, p, h);
    }
    forall h | 0 <= h < 0x100 ensures p in b[h] ==> LeavesDangling(n.core, Disconnect(p)) {
      BucketsForget(n.core, p, h);
    }
  }

  // ----- runs

  /** The node just after its constructor; the ID counter is shared with other nodes. */
  ghost predicate Initial(n: Node) {
    && n.core.hooks == [] && n.core.sess == map[] && n.core.removing == {} && n.listeners == []
    && |n.core.buckets| == 0x100 && (forall h :: 0 <= h < 0x100 ==> n.core.buckets[h] == [])
    && 1 <= n.core.nextSid
  }

  ghost predicate Run(cfg: Config, ns: seq<Node>, evs: seq<Event>) {
    && |ns| == |evs| + 1
    && Initial(ns[0])
    && forall i :: 0 <= i < |evs| ==>
         Safe(ns[i]) && Enabled(ns[i].core, evs[i]) && ns[i + 1] == StepAfter(ns[i], cfg, evs[i]).node
  }

  ghost predicate Clean(ns: seq<Node>, evs: seq<Event>)
    requires |ns| == |evs| + 1
  {
    forall i :: 0 <= i < |evs| ==> !LeavesDangling(ns[i].core, evs[i])
  }

  lemma {:induction false} RunKeepsInv(cfg: Config, ns: seq<Node>, evs: seq<Event>, i: nat)
    requires Run(cfg, ns, evs) && i <= |evs|
    requires forall j :: 0 <= j < i ==> !LeavesDangling(ns[j].core, evs[j])
    ensures Inv(cfg, ns[i])
  {
    if i != 0 {
      RunKeepsInv(cfg, ns, evs, i - 1);
      StepKeeps(cfg, ns[i - 1], evs[i - 1]);
    }
  }

  ghost function FirstDangling(ns: seq<Node>, evs: seq<Event>, i: nat): (k: nat)
    requires |ns| == |evs| + 1 && i < |evs| && LeavesDangling(ns[i].core, evs[i])
    ensures k < |evs| && LeavesDangling(ns[k].core, evs[k])
    ensures forall j :: 0 <= j < k ==> !LeavesDangling(ns[j].core, evs[j])
  {
    if j: nat :| j < i && LeavesDangling(ns[j].core, evs[j]) then FirstDangling(ns, evs, j) else i
  }

  lemma CleanRunIndexExact(cfg: Config, ns: seq<Node>, evs: seq<Event>)
    requires Run(cfg, ns, evs) && Clean(ns, evs)
    ensures forall i :: 0 <= i < |ns| ==> IndexExact(ns[i].core)
  {
    forall i | 0 <= i < |ns| ensures IndexExact(ns[i].core) {
      RunKeepsInv(cfg, ns, evs, i);
    }
  }

  /** In a run the index is exact in every state if and only if no event of the run
      removes a connected session with ID 0. */
  lemma RunIndexExactIff(cfg: Config, ns: seq<Node>, evs: seq<Event>)
    requires Run(cfg, ns, evs)
    ensures (forall i :: 0 <= i < |ns| ==> IndexExact(ns[i].core)) <==> Clean(ns, evs)
  {
    if Clean(ns, evs) {
      CleanRunIndexExact(cfg, ns, evs);
    } else {
      var i :| 0 <= i < |evs| && LeavesDangling(ns[i].core, evs[i]);
      var k := FirstDangling(ns, evs, i);
      RunKeepsInv(cfg, ns, evs, k);
      InvIsSafe(cfg, ns[k]);
      IndexExactIff(cfg, ns[k], evs[k]);
      assert !IndexExact(ns[k + 1].core);
    }
  }

  ghost predicate ConnectedNonZero(c: Core) {
    forall p :: p in c.sess && Hashed(c.sess[p].state) ==> c.sess[p].sid != 0
  }

  lemma StepKeepsNonZero(cfg: Config, n: Node, ev: Event)
    requires SessionsFit(cfg, n.core) && Safe(n) && Enabled(n.core, ev)
    requires ConnectedNonZero(n.core) && PadsNonZero(ev)
    ensures ConnectedNonZero(StepAfter(n, cfg, ev).node.core)
  {
    if Common(ev) {
      forall p | p in CommonStep(n.core, cfg, ev).core.sess
        ensures var s := CommonStep(n.core, cfg, ev).core.sess[p]; Hashed(s.state) ==> s.sid != 0
      {
        if p in n.core.sess {
          CommonStepEvolves(cfg, n.core, ev, p);
        } else {
          CommonStepAdds(cfg, n.core, ev, p);
        }
      }
    }
  }

  /** Under that rule of the RFC every run is clean, so every state has the invariant. */
  lemma {:induction false} RfcRunsAreClean(cfg: Config, ns: seq<Node>, evs: seq<Event>, i: nat)
    requires Run(cfg, ns, evs) && i <= |evs|
    requires forall j :: 0 <= j < |evs| ==> PadsNonZero(evs[j])
    ensures Inv(cfg, ns[i]) && ConnectedNonZero(ns[i].core)
    ensures i < |evs| ==> !LeavesDangling(ns[i].core, evs[i])
  {
    if i != 0 {
      RfcRunsAreClean(cfg, ns, evs, i - 1);
      StepKeeps(cfg, ns[i - 1], evs[i - 1]);
      StepKeepsNonZero(cfg, ns[i - 1], evs[i - 1]);
    }
  }

  // ----- lookups

  /** No session is on two lists, which is what lets all lists share one link field. */
  lemma OneListPerSession(cfg: Config, n: Node, p: Ptr, g: nat, h: nat)
    requires Inv(cfg, n) && g < 0x100 && h < 0x100
    ensures !(p in n.listeners && p in n.core.buckets[g])
    ensures p in n.core.buckets[g] && p in n.core.buckets[h] ==> g == h
  {
  }

  /** The bucket lookup finds a session exactly when a scan of all sessions would. */
  lemma FindSessionIsScan(cfg: Config, c: Core, sid: uint16, peer: Mac)
    requires CoreInv(cfg, c)
    ensures FindSession(c, c.buckets[Sesshash(sid)], sid, peer).Some? <==>
      exists p :: p in c.sess && Hashed(c.sess[p].state) && c.sess[p].sid == sid && c.sess[p].peer == peer
  {
    var r := FindSession(c, c.buckets[Sesshash(sid)], sid, peer);
    if p :| p in c.sess && Hashed(c.sess[p].state) && c.sess[p].sid == sid && c.sess[p].peer == peer {
      assert p in c.buckets[Sesshash(sid)];
    }
    if r.Some? {
      assert Placed(c.sess[r.value], Sesshash(sid));
    }
  }

  /** The `else` branch of session data, for a hashed session in another state, is dead. */
  lemma FoundSessionIsConnected(cfg: Config, c: Core, sid: uint16, peer: Mac)
    requires CoreInv(cfg, c) && FindSession(c, c.buckets[Sesshash(sid)], sid, peer).Some?
    ensures
      var s := c.sess[FindSession(c, c.buckets[Sesshash(sid)], sid, peer).value];
      Hashed(s.state) && (s.state == NewConnected ==> s.neg.value.pending.None?)
  {
    var r := FindSession(c, c.buckets[Sesshash(sid)], sid, peer);
    assert Placed(c.sess[r.value], Sesshash(sid));
  }

  lemma IdInUseIsScan(cfg: Config, c: Core, v: uint16)
    requires CoreInv(cfg, c) && CoreSafe(c)
    ensures IdInUse(c, v) <==> exists p :: p in c.sess && Hashed(c.sess[p].state) && c.sess[p].sid == v
  {
    if p :| p in c.sess && Hashed(c.sess[p].state) && c.sess[p].sid == v {
      assert p in c.buckets[Sesshash(v)];
    }
    if p :| p in c.buckets[Sesshash(v)] && c.sess[p].sid == v {
      assert Placed(c.sess[p], Sesshash(v));
    }
  }

  ghost function HoldersUpTo(c: Core, k: nat): set<Ptr> {
    set p | p in c.sess && 1 <= c.sess[p].sid <= k
  }

  lemma {:induction false} HoldersAreMany(c: Core, k: nat)
    requires CoreSafe(c) && k <= SID_MAX
    requires forall v: uint16 :: 1 <= v <= k ==> IdInUse(c, v)
    ensures |HoldersUpTo(c, k)| >= k
  {
    if k != 0 {
      HoldersAreMany(c, k - 1);
      assert IdInUse(c, k);
      var p :| p in c.buckets[Sesshash(k)] && c.sess[p].sid == k;
      assert HoldersUpTo(c, k) >= HoldersUpTo(c, k - 1) + {p};
      SubsetSize(HoldersUpTo(c, k - 1) + {p}, HoldersUpTo(c, k));
    }
  }

  /** With fewer than 65534 sessions the allocator always finds an ID. */
  lemma FewSessionsLeaveAnId(c: Core)
    requires CoreSafe(c) && |c.sess| < SID_MAX
    ensures SomeIdFree(c)
  {
    if !SomeIdFree(c) {
      HoldersAreMany(c, SID_MAX);
      SubsetSize(HoldersUpTo(c, SID_MAX), c.sess.Keys);
      assert false;
    }
  }

  // ----- what a session may become over a run

  lemma ListenEvolves(cfg: Config, n: Node, msg: InitMsg, p: Ptr)
    requires SessionsFit(cfg, n.core) && Safe(n) && p in n.core.sess
    ensures var c' := StepAfter(n, cfg, ListenMsg(msg)).node.core;
      p in c'.sess && Evolves(n.core.sess[p], c'.sess[p])
  {
    var taken := FindSvc(n.core, n.listeners, MessageName(msg)).Some?;
    var (r, added) := ListenStep(n.core, cfg, msg, taken);
    assert r.core.sess == if added.Some? then n.core.sess[added.value := r.core.sess[added.value]] else n.core.sess;
    if added.Some? {
      assert SessionFits(cfg, n.core.sess[added.value], added.value in n.core.removing);
    }
  }

  lemma StepEvolves(cfg: Config, n: Node, ev: Event, p: Ptr)
    requires SessionsFit(cfg, n.core) && Safe(n) && Enabled(n.core, ev)
    requires p in n.core.sess
    ensures var c' := StepAfter(n, cfg, ev).node.core;
      if ev == Disconnect(p) then p !in c'.sess
      else p in c'.sess && Evolves(n.core.sess[p], c'.sess[p])
  {
    if Common(ev) {
      CommonStepEvolves(cfg, n.core, ev, p);
    } else if ev.ListenMsg? {
      ListenEvolves(cfg, n, ev.msg, p);
    }
  }

  /** What no sequence of events changes while the session lives. */
  ghost predicate Persists(s: Session, s': Session) {
    && (s.state != SNone ==> s'.state != SNone)
    && (s.role != Unused ==> s'.role == s.role)
    && (Hashed(s.state) ==> Hashed(s'.state) && s'.sid == s.sid && s'.peer == s.peer)
  }

  lemma RunStepEvolves(cfg: Config, ns: seq<Node>, evs: seq<Event>, p: Ptr, k: nat)
    requires Run(cfg, ns, evs) && Clean(ns, evs) && k < |evs|
    requires p in ns[k].core.sess && evs[k] != Disconnect(p)
    ensures p in ns[k + 1].core.sess && Persists(ns[k].core.sess[p], ns[k + 1].core.sess[p])
  {
    RunKeepsInv(cfg, ns, evs, k);
    var (n, n') := (ns[k], ns[k + 1]);
    assert Safe(n) && Enabled(n.core, evs[k]) && n' == StepAfter(n, cfg, evs[k]).node;
    StepEvolves(cfg, n, evs[k], p);
    EvolvesPersists(n.core.sess[p], n'.core.sess[p]);
  }

  lemma EvolvesPersists(s: Session, s': Session)
    requires Evolves(s, s')
    ensures Persists(s, s')
  {
  }

  ghost predicate PersistsNext(n: Node, n': Node, p: Ptr) {
    p in n.core.sess ==> p in n'.core.sess && Persists(n.core.sess[p], n'.core.sess[p])
  }

  lemma {:induction false} PersistsChain(ns: seq<Node>, p: Ptr, i: nat, j: nat)
    requires i <= j < |ns| && p in ns[i].core.sess
    requires forall k :: i <= k < j ==> PersistsNext(ns[k], ns[k + 1], p)
    ensures p in ns[j].core.sess && Persists(ns[i].core.sess[p], ns[j].core.sess[p])
    decreases j
  {
    if i < j {
      PersistsChain(ns, p, i, j - 1);
      assert PersistsNext(ns[j - 1], ns[j - 1 + 1], p);
    }
  }

  /** Over a whole run a session keeps its side, never returns to SNONE, and once
      connected keeps its ID, however often the PADR is retried. */
  lemma RunEvolves(cfg: Config, ns: seq<Node>, evs: seq<Event>, p: Ptr, i: nat, j: nat)
    requires Run(cfg, ns, evs) && Clean(ns, evs) && i <= j <= |evs|
    requires p in ns[i].core.sess
    requires forall k :: i <= k < j ==> evs[k] != Disconnect(p)
    ensures p in ns[j].core.sess && Persists(ns[i].core.sess[p], ns[j].core.sess[p])
  {
    forall k | i <= k < j ensures PersistsNext(ns[k], ns[k + 1], p) {
      if p in ns[k].core.sess {
        RunStepEvolves(cfg, ns, evs, p, k);
      }
    }
    PersistsChain(ns, p, i, j);
  }

  /** IDs handed out by this node to live sessions are pairwise distinct in every state. */
  lemma RunServerSidsDistinct(cfg: Config, ns: seq<Node>, evs: seq<Event>, i: nat, p: Ptr, q: Ptr)
    requires Run(cfg, ns, evs) && Clean(ns, evs) && i <= |evs|
    requires p in ns[i].core.sess && q in ns[i].core.sess && p != q
    requires ns[i].core.sess[p].role == Server && ns[i].core.sess[q].role == Server
    requires Hashed(ns[i].core.sess[p].state)
    ensures 1 <= ns[i].core.sess[p].sid <= SID_MAX
    ensures ns[i].core.sess[p].sid != ns[i].core.sess[q].sid
  {
    RunKeepsInv(cfg, ns, evs, i);
    assert SessionFits(cfg, ns[i].core.sess[p], p in ns[i].core.removing);
  }
}
