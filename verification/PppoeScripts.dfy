/** Stretches of events that lead a node from one state to another: a client session that
    connects, and a server session that offers.  The example runs are made of them. */
module PppoeScripts {
  import opened Basics
  import opened PppoeTags
  import opened PppoeNode
  import opened PppoeInvariants
  import opened PppoeRuns
  import opened PppoeHandshake

  // ----- stretches

  /** One event after which no bucket holds a freed session. */
  ghost predicate Goes(cfg: Config, n: Node, ev: Event, n': Node) {
    Safe(n) && Enabled(n.core, ev) && !LeavesDangling(n.core, ev) && n' == StepAfter(n, cfg, ev).node
  }

  ghost predicate Stretch(cfg: Config, ns: seq<Node>, evs: seq<Event>) {
    && |ns| == |evs| + 1
    && forall i :: 0 <= i < |evs| ==> Goes(cfg, ns[i], evs[i], ns[i + 1])
  }

  lemma StretchIsRun(cfg: Config, ns: seq<Node>, evs: seq<Event>)
    requires Stretch(cfg, ns, evs) && Initial(ns[0])
    ensures Run(cfg, ns, evs) && Clean(ns, evs)
  {
    forall i | 0 <= i < |evs|
      ensures Safe(ns[i]) && Enabled(ns[i].core, evs[i]) && ns[i + 1] == StepAfter(ns[i], cfg, evs[i]).node
      ensures !LeavesDangling(ns[i].core, evs[i])
    {
      assert Goes(cfg, ns[i], evs[i], ns[i + 1]);
    }
  }

  /** A run goes on by one event. */
  lemma LongerRun(cfg: Config, ns: seq<Node>, evs: seq<Event>, ev: Event) returns (ms: seq<Node>)
    requires Run(cfg, ns, evs) && Safe(ns[|evs|]) && Enabled(ns[|evs|].core, ev)
    ensures Run(cfg, ms, evs + [ev]) && ms == ns + [StepAfter(ns[|evs|], cfg, ev).node]
  {
    ms := ns + [StepAfter(ns[|evs|], cfg, ev).node];
  }

  lemma JoinStretches(cfg: Config, ns: seq<Node>, evs: seq<Event>, ms: seq<Node>, fs: seq<Event>)
      returns (os: seq<Node>)
    requires Stretch(cfg, ns, evs) && Stretch(cfg, ms, fs) && ms[0] == ns[|evs|]
    ensures Stretch(cfg, os, evs + fs) && os[0] == ns[0] && os[|evs + fs|] == ms[|fs|]
  {
    os := ns + ms[1..];
    forall i | 0 <= i < |evs + fs| ensures Goes(cfg, os[i], (evs + fs)[i], os[i + 1]) {
      if i < |evs| {
        assert Goes(cfg, ns[i], evs[i], ns[i + 1]);
      } else {
        assert Goes(cfg, ms[i - |evs|], fs[i - |evs|], ms[i - |evs| + 1]);
      }
    }
  }

  lemma ThreeLinks(goes: (Node, Event, Node) -> bool, ns: seq<Node>, evs: seq<Event>)
    requires |ns| == 4 && |evs| == 3
    requires goes(ns[0], evs[0], ns[1]) && goes(ns[1], evs[1], ns[2]) && goes(ns[2], evs[2], ns[3])
    ensures forall i :: 0 <= i < 3 ==> goes(ns[i], evs[i], ns[i + 1])
  {
    forall i | 0 <= i < 3 ensures goes(ns[i], evs[i], ns[i + 1]) {
      if i == 0 {} else if i == 1 {} else {}
    }
  }

  lemma ThreeSteps(cfg: Config, n0: Node, n1: Node, n2: Node, n3: Node, e0: Event, e1: Event, e2: Event)
    requires Goes(cfg, n0, e0, n1) && Goes(cfg, n1, e1, n2) && Goes(cfg, n2, e2, n3)
    ensures Stretch(cfg, [n0, n1, n2, n3], [e0, e1, e2])
  {
    ThreeLinks((a, e, b) => Goes(cfg, a, e, b), [n0, n1, n2, n3], [e0, e1, e2]);
  }

  lemma LongerStretch(cfg: Config, ns: seq<Node>, evs: seq<Event>, ev: Event, n: Node)
    requires Stretch(cfg, ns, evs) && Goes(cfg, ns[|evs|], ev, n)
    ensures Stretch(cfg, ns + [n], evs + [ev])
  {
    var ms := ns + [n];
    forall i | 0 <= i <= |evs| ensures Goes(cfg, ms[i], (evs + [ev])[i], ms[i + 1]) {
      if i < |evs| {
        assert Goes(cfg, ns[i], evs[i], ns[i + 1]);
      }
    }
  }

  lemma FourSteps(cfg: Config, n0: Node, n1: Node, n2: Node, n3: Node, n4: Node,
                  e0: Event, e1: Event, e2: Event, e3: Event)
    requires Goes(cfg, n0, e0, n1) && Goes(cfg, n1, e1, n2) && Goes(cfg, n2, e2, n3) && Goes(cfg, n3, e3, n4)
    ensures Stretch(cfg, [n0, n1, n2, n3, n4], [e0, e1, e2, e3])
  {
    ThreeSteps(cfg, n0, n1, n2, n3, e0, e1, e2);
    LongerStretch(cfg, [n0, n1, n2, n3], [e0, e1, e2], e3, n4);
    assert [n0, n1, n2, n3] + [n4] == [n0, n1, n2, n3, n4] && [e0, e1, e2] + [e3] == [e0, e1, e2, e3];
  }

  lemma {:induction false} StretchKeeps(cfg: Config, ns: seq<Node>, evs: seq<Event>, i: nat)
    requires Stretch(cfg, ns, evs) && Inv(cfg, ns[0]) && i <= |evs|
    ensures Inv(cfg, ns[i])
  {
    if i != 0 {
      StretchKeeps(cfg, ns, evs, i - 1);
      assert Goes(cfg, ns[i - 1], evs[i - 1], ns[i - 1 + 1]);
      StepKeeps(cfg, ns[i - 1], evs[i - 1]);
    }
  }

  ghost predicate KeepsConnected(n: Node, n': Node, p: Ptr) {
    p in n.core.sess && Hashed(n.core.sess[p].state) ==>
      p in n'.core.sess && Hashed(n'.core.sess[p].state) && n'.core.sess[p].sid == n.core.sess[p].sid
  }

  lemma {:induction false} KeepsConnectedChain(ns: seq<Node>, p: Ptr, i: nat)
    requires i < |ns| && forall k :: 0 <= k < i ==> KeepsConnected(ns[k], ns[k + 1], p)
    ensures KeepsConnected(ns[0], ns[i], p)
  {
    if i != 0 {
      KeepsConnectedChain(ns, p, i - 1);
      assert KeepsConnected(ns[i - 1], ns[i - 1 + 1], p);
    }
  }

  /** A connected session that is not removed stays connected, with its ID. */
  lemma StaysConnected(cfg: Config, ns: seq<Node>, evs: seq<Event>, p: Ptr)
    requires Stretch(cfg, ns, evs) && Inv(cfg, ns[0]) && Disconnect(p) !in evs
    ensures KeepsConnected(ns[0], ns[|evs|], p)
  {
    forall k | 0 <= k < |evs| ensures KeepsConnected(ns[k], ns[k + 1], p) {
      StretchKeeps(cfg, ns, evs, k);
      EventKeepsConnected(cfg, ns[k], evs[k], ns[k + 1], p);
    }
    KeepsConnectedChain(ns, p, |evs|);
  }

  lemma EventKeepsConnected(cfg: Config, n: Node, ev: Event, n': Node, p: Ptr)
    requires Inv(cfg, n) && Goes(cfg, n, ev, n') && ev != Disconnect(p)
    ensures KeepsConnected(n, n', p)
  {
    if p in n.core.sess {
      StepEvolves(cfg, n, ev, p);
    }
  }

  lemma GoesOn(cfg: Config, n: Node, ev: Event) returns (n': Node)
    requires Inv(cfg, n) && Safe(n) && Enabled(n.core, ev) && !LeavesDangling(n.core, ev)
    ensures Goes(cfg, n, ev, n') && Inv(cfg, n') && Safe(n')
  {
    n' := StepAfter(n, cfg, ev).node;
    StepKeeps(cfg, n, ev);
    InvIsSafe(cfg, n');
  }

  lemma InitialHasInv(cfg: Config, n: Node)
    requires Initial(n)
    ensures Inv(cfg, n) && Safe(n)
  {
  }

  // ----- a new session, whose hook is linked first

  ghost predicate Fronted(cfg: Config, n: Node, name: string, p: Ptr) {
    && Inv(cfg, n) && Safe(n) && p in n.core.sess
    && n.core.hooks != [] && n.core.hooks[0] == Hook(name, Some(p))
  }

  /** A hook of that name and a session at that address may be added. */
  predicate Addable(n: Node, name: string, p: Ptr) {
    && name != HOOK_ETHERNET && name != HOOK_DEBUG && (forall k :: k in n.core.hooks ==> k.name != name)
    && p !in n.core.sess && p != NULL
  }

  lemma Hooked(cfg: Config, n: Node, name: string, p: Ptr) returns (n': Node)
    requires Inv(cfg, n) && Safe(n) && Addable(n, name, p)
    ensures Goes(cfg, n, NewHook(name, 0, p), n') && Fronted(cfg, n', name, p)
    ensures n'.core.hooks == [Hook(name, Some(p))] + n.core.hooks && n'.core.sess == n.core.sess[p := ZERO_SESSION]
    ensures n'.listeners == n.listeners
  {
    n' := GoesOn(cfg, n, NewHook(name, 0, p));
  }

  /** CONNECT and OFFER without data. */
  function Request(name: string): InitMsg {
    InitMsg(true, name, [], 0)
  }

  lemma RequestFinds(cfg: Config, n: Node, name: string, p: Ptr)
    requires Fronted(cfg, n, name, p)
    ensures InitCheck(n.core, cfg, Request(name)) == Found(p)
  {
  }

  // ----- a client session

  /** An answer of any access concentrator to the client session `p`. */
  function Reply(p: Ptr, code: byte, sid: uint16): Packet {
    Packet(Discovery, ZERO_MAC, ZERO_MAC, code, sid, |EncodeTag(Uniq(p))|, EncodeTag(Uniq(p)))
  }

  function Joining(name: string, p: Ptr, sid: uint16): seq<Event> {
    [NewHook(name, 0, p), ConnectMsg(Request(name)),
     FromEther(Reply(p, PADO, 0)), FromEther(Reply(p, PADS, sid))]
  }

  /** What a packet with this one tag is to a node. */
  lemma OneTag(pkt: Packet, t: Tag)
    requires pkt.body == EncodeTag(t) && pkt.length == |pkt.body|
    ensures ParseTags(TagArea(pkt)) == [t] && FirstTag([t], t.kind) == Some(t)
    ensures forall kinds :: SearchesInside(pkt, kinds)
  {
    assert TagArea(pkt) == EncodeTag(t) + [];
    EncodeTagThenParse(t, []);
    assert [t] + ParseTags([]) == [t];
    forall kinds ensures SearchesInside(pkt, kinds) {
      ShortLengthInside(pkt, kinds);
    }
  }

  lemma AddresseeIs(cfg: Config, n: Node, name: string, p: Ptr, t: Tag)
    requires Fronted(cfg, n, name, p) && t.data == PtrBytes(p)
    ensures Addressee(n.core, Some(t)) == Some(p)
  {
  }

  lemma Called(cfg: Config, n: Node, name: string, p: Ptr) returns (n': Node)
    requires Fronted(cfg, n, name, p) && n.core.sess[p].state == SNone
    ensures Goes(cfg, n, ConnectMsg(Request(name)), n') && Fronted(cfg, n', name, p) && n'.core.hooks == n.core.hooks
    ensures n'.core.sess[p].state == SInit && n'.core.sess[p].neg.Some? && n'.core.sess[p].neg.value.acName == []
  {
    RequestFinds(cfg, n, name, p);
    n' := GoesOn(cfg, n, ConnectMsg(Request(name)));
  }

  lemma DiscoveryDispatch(cfg: Config, n: Node, pkt: Packet)
    requires Safe(n) && Enabled(n.core, FromEther(pkt)) && pkt.frame == Discovery
    ensures pkt.code == PADO ==> StepAfter(n, cfg, FromEther(pkt)).node == n.(core := PadoStep(n.core, cfg, pkt).core)
    ensures pkt.code == PADS ==> StepAfter(n, cfg, FromEther(pkt)).node == n.(core := PadsStep(n.core, pkt).core)
  {
  }

  lemma OfferTaken(cfg: Config, n: Node, name: string, p: Ptr) returns (n': Node)
    requires Fronted(cfg, n, name, p)
    requires n.core.sess[p].state == SInit && n.core.sess[p].neg.Some? && n.core.sess[p].neg.value.acName == []
    ensures Goes(cfg, n, FromEther(Reply(p, PADO, 0)), n') && Fronted(cfg, n', name, p)
    ensures n'.core.hooks == n.core.hooks && n'.core.sess[p].state == SReq
  {
    var pkt := Reply(p, PADO, 0);
    OneTag(pkt, Uniq(p));
    AddresseeIs(cfg, n, name, p, Uniq(p));
    DiscoveryDispatch(cfg, n, pkt);
    PadoTaken(cfg, n.core, p, pkt, [Uniq(p)]);
    n' := GoesOn(cfg, n, FromEther(pkt));
  }

  lemma Confirmed(cfg: Config, n: Node, name: string, p: Ptr, sid: uint16) returns (n': Node)
    requires Fronted(cfg, n, name, p) && n.core.sess[p].state == SReq
    ensures Goes(cfg, n, FromEther(Reply(p, PADS, sid)), n') && Fronted(cfg, n', name, p)
    ensures n'.core.hooks == n.core.hooks && n'.core.sess[p].state == Connected && n'.core.sess[p].sid == sid
  {
    var pkt := Reply(p, PADS, sid);
    OneTag(pkt, Uniq(p));
    AddresseeIs(cfg, n, name, p, Uniq(p));
    DiscoveryDispatch(cfg, n, pkt);
    n' := GoesOn(cfg, n, FromEther(pkt));
  }

  /** A new client session is connected with any ID its peer chooses. */
  lemma Joins(cfg: Config, n: Node, name: string, p: Ptr, sid: uint16) returns (ns: seq<Node>)
    requires Inv(cfg, n) && Safe(n) && Addable(n, name, p)
    ensures Stretch(cfg, ns, Joining(name, p, sid)) && ns[0] == n && Fronted(cfg, ns[4], name, p)
    ensures ns[4].core.hooks == [Hook(name, Some(p))] + n.core.hooks
    ensures ns[4].core.sess[p].state == Connected && ns[4].core.sess[p].sid == sid
  {
    var n1 := Hooked(cfg, n, name, p);
    var n2 := Called(cfg, n1, name, p);
    var n3 := OfferTaken(cfg, n2, name, p);
    var n4 := Confirmed(cfg, n3, name, p, sid);
    ns := [n, n1, n2, n3, n4];
    FourSteps(cfg, n, n1, n2, n3, n4, NewHook(name, 0, p), ConnectMsg(Request(name)),
              FromEther(Reply(p, PADO, 0)), FromEther(Reply(p, PADS, sid)));
  }

  // ----- a server session

  function Padi(): Packet {
    Packet(Discovery, BROADCAST, ZERO_MAC, PADI, 0, 0, [])
  }

  function Offering(name: string, q: Ptr): seq<Event> {
    [NewHook(name, 0, q), OfferMsg(Request(name)), FromHook(q, Padi())]
  }

  lemma Opened(cfg: Config, n: Node, name: string, q: Ptr) returns (n': Node)
    requires Fronted(cfg, n, name, q) && n.core.sess[q] == ZERO_SESSION
    ensures Goes(cfg, n, OfferMsg(Request(name)), n') && Fronted(cfg, n', name, q) && n'.core.hooks == n.core.hooks
    ensures n'.core.sess[q].state == Primed && n'.core.sess[q].sid == 0
  {
    RequestFinds(cfg, n, name, q);
    n' := GoesOn(cfg, n, OfferMsg(Request(name)));
  }

  lemma OfferMade(cfg: Config, n: Node, name: string, q: Ptr) returns (n': Node)
    requires Fronted(cfg, n, name, q) && n.core.sess[q].state == Primed && n.core.sess[q].sid == 0
    ensures Goes(cfg, n, FromHook(q, Padi()), n') && Fronted(cfg, n', name, q) && n'.core.hooks == n.core.hooks
    ensures n'.core.sess[q].state == SOffer && n'.core.sess[q].sid == 0 && q !in n'.core.removing
  {
    assert SessionFits(cfg, n.core.sess[q], q in n.core.removing);
    ShortLengthInside(Padi(), OFFER_SEARCHES);
    n' := GoesOn(cfg, n, FromHook(q, Padi()));
  }

  /** A new server session gets a PADI from its hook and offers. */
  lemma Offers(cfg: Config, n: Node, name: string, q: Ptr) returns (ns: seq<Node>)
    requires Inv(cfg, n) && Safe(n) && Addable(n, name, q)
    ensures Stretch(cfg, ns, Offering(name, q)) && ns[0] == n && Fronted(cfg, ns[3], name, q)
    ensures ns[3].core.sess[q].state == SOffer && ns[3].core.sess[q].sid == 0 && q !in ns[3].core.removing
  {
    var n1 := Hooked(cfg, n, name, q);
    var n2 := Opened(cfg, n1, name, q);
    var n3 := OfferMade(cfg, n2, name, q);
    ns := [n, n1, n2, n3];
    ThreeSteps(cfg, n, n1, n2, n3, NewHook(name, 0, q), OfferMsg(Request(name)), FromHook(q, Padi()));
  }
}
