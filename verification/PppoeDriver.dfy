/** The node as the object the kernel has: its fields are updated in place by handlers
    with loops.  Each handler is proved to do exactly the step that `StepAfter` gives. */
module PppoeDriver {
  import opened Basics
  import opened PppoeTags
  import opened PppoeNode
  import opened PppoeInvariants
  import opened PppoeRuns
  import opened PppoeAllocator

  // ----- string and tag helpers

  /** Length test and `strncmp` of two counted strings. */
  method CompareNames(a: seq<byte>, b: seq<byte>) returns (same: bool)
    ensures same <==> SameName(a, b)
    ensures same <==> |a| == |b| && forall i :: 0 <= i < |a| && 0 !in a[..i] ==> a[i] == b[i]
  {
    SameNameBytes(a, b);
    if |a| != |b| {
      return false;
    }
    var i := 0;
    while i < |a|
      invariant i <= |a|
      invariant a[..i] == b[..i] && 0 !in a[..i]
    {
      if a[i] != b[i] {
        return false;
      }
      if a[i] == 0 {
        assert forall k :: i < k < |a| ==> a[..k][i] == 0;
        return true;
      }
      i := i + 1;
    }
    return true;
  }

  /** The search for the hook that a control message names. */
  method FindHookByName(hooks: seq<Hook>, name: string) returns (r: Option<Hook>)
    ensures r == FindHook(hooks, name)
  {
    var i := 0;
    assert hooks[0..] == hooks;
    while i < |hooks|
      invariant i <= |hooks|
      invariant FindHook(hooks, name) == FindHook(hooks[i..], name)
    {
      if hooks[i].name == name {
        return Some(hooks[i]);
      }
      assert hooks[i..][1..] == hooks[i + 1..];
      i := i + 1;
    }
    return None;
  }

  method LookupTag(pkt: Packet, kind: uint16) returns (t: Option<Tag>)
    requires SearchesInside(pkt, {kind})
    ensures t == FirstTag(ParseTags(TagArea(pkt)), kind)
  {
    var pt := GetTag(pkt.body, pkt.length, kind);
    if pt < 0 {
      t := None;
    } else {
      t := Some(TagAt(pkt.body, pt));
    }
  }

  method BuildPayload(tags: seq<Tag>) returns (payload: seq<byte>)
    requires |tags| <= NUMTAGS
    ensures payload == Payload(tags)
  {
    var cluster := new byte[2048](_ => 0);
    var kept, length := MakePacket(tags, cluster);
    payload := cluster[..length];
  }

  lemma {:induction false} InsertAllBounded(ts: seq<Tag>, more: seq<Tag>)
    requires |ts| <= NUMTAGS
    ensures |InsertAll(ts, more)| <= NUMTAGS
  {
    InsertAllAppends(ts, more);
  }

  /** The position of the AC-Name separator of CONNECT data. */
  method FindSeparator(data: seq<byte>) returns (i: nat)
    ensures i == SplitPoint(data)
  {
    i := 0;
    while i < |data|
      invariant i <= |data|
      invariant forall j :: 0 <= j < i ==> data[j] != BACKSLASH
    {
      if data[i] == BACKSLASH {
        break;
      }
      i := i + 1;
    }
  }

  // ----- the tag lists of the three answers

  method InsertLookedUp(tags: seq<Tag>, pkt: Packet, kind: uint16) returns (out: seq<Tag>, tag: Option<Tag>)
    requires SearchesInside(pkt, {kind})
    ensures tag == FirstTag(ParseTags(TagArea(pkt)), kind)
    ensures out == InsertFound(tags, tag)
    ensures |tags| <= NUMTAGS ==> |out| <= NUMTAGS
  {
    out := tags;
    tag := LookupTag(pkt, kind);
    if tag.Some? {
      out := InsertTag(tags, tag.value);
    }
  }

  method InsertRelayTags(tags: seq<Tag>, pkt: Packet) returns (out: seq<Tag>)
    requires SearchesInside(pkt, {PTT_EOL}) && |tags| <= NUMTAGS
    ensures out == InsertAll(tags, RelayTags(ParseTags(TagArea(pkt)))) && |out| <= NUMTAGS
  {
    InsertAllBounded(tags, RelayTags(ParseTags(TagArea(pkt))));
    out := ScanTags(tags, pkt.body, pkt.length);
  }

  method CollectOfferTags(p: Ptr, neg: Neg, pkt: Packet) returns (tags: seq<Tag>)
    requires SearchesInside(pkt, OFFER_SEARCHES)
    ensures tags == OfferTags(p, neg, ParseTags(TagArea(pkt))) && |tags| <= NUMTAGS
  {
    var tag;
    tags := [RawTag(PTT_AC_NAME, neg.acName)];
    tags, tag := InsertLookedUp(tags, pkt, PTT_SRV_NAME);
    if (tag.None? || tag.value.data == []) && neg.service != [] {
      tags := InsertTag(tags, RawTag(PTT_SRV_NAME, neg.service));
    }
    tags, tag := InsertLookedUp(tags, pkt, PTT_HOST_UNIQ);
    tags := InsertTag(tags, RawTag(PTT_AC_COOKIE, PtrBytes(p)));
    tags := InsertRelayTags(tags, pkt);
  }

  method CollectRequestTags(neg: Neg, utag: Tag, pkt: Packet) returns (tags: seq<Tag>)
    requires SearchesInside(pkt, REQUEST_SEARCHES)
    ensures tags == RequestTags(neg, utag, ParseTags(TagArea(pkt))) && |tags| <= NUMTAGS
  {
    var tag;
    tags := [utag];
    tags, tag := InsertLookedUp(tags, pkt, PTT_AC_COOKIE);
    tags, tag := InsertLookedUp(tags, pkt, PTT_AC_NAME);
    tags := InsertTag(tags, RawTag(PTT_SRV_NAME, neg.service));
    tags := InsertRelayTags(tags, pkt);
  }

  method CollectConfirmTags(neg: Neg, utag: Tag, pkt: Packet) returns (tags: seq<Tag>)
    requires SearchesInside(pkt, CONFIRM_SEARCHES)
    ensures tags == ConfirmTags(neg, utag, ParseTags(TagArea(pkt))) && |tags| <= NUMTAGS
  {
    var tag;
    tags := [RawTag(PTT_AC_NAME, neg.acName)];
    tags, tag := InsertLookedUp(tags, pkt, PTT_SRV_NAME);
    tags, tag := InsertLookedUp(tags, pkt, PTT_HOST_UNIQ);
    tags := InsertTag(tags, utag);
    tags := InsertRelayTags(tags, pkt);
  }

  /** One step of the search through the listeners. */
  lemma MatchSvcFrom(c: Core, ls: seq<Ptr>, i: nat, wanted: seq<byte>)
    requires ListSafe(c, ls) && i < |ls|
    ensures ls[i] in c.sess && c.sess[ls[i]].neg.Some?
    ensures MatchSvc(c, ls[i..], wanted) ==
      if Matches(c.sess[ls[i]].neg.value.service, wanted) then Some(ls[i]) else MatchSvc(c, ls[i + 1..], wanted)
  {
    assert ls[i] in ls && ls[i..][1..] == ls[i + 1..];
  }

  class PppoeDriver {
    const cfg: Config
    var hooks: seq<Hook>
    var sess: map<Ptr, Session>
    var listeners: seq<Ptr>
    var sesshash: seq<seq<Ptr>>
    var pppoeSid: uint16
    var removing: set<Ptr>

    ghost function Shared(): Core
      reads this
    {
      Core(hooks, sess, sesshash, pppoeSid, removing)
    }

    ghost function View(): Node
      reads this
    {
      Node(Shared(), listeners)
    }

    constructor (cfg: Config)
      ensures this.cfg == cfg && Initial(View()) && Inv(cfg, View())
    {
      this.cfg := cfg;
      hooks, sess, listeners, removing, pppoeSid := [], map[], [], {}, 1;
      sesshash := seq(0x100, _ => []);
    }

    // ----- lookups

    /** `pppoe_finduniq`. */
    method FindUniq(uniq: Ptr) returns (found: bool)
      ensures found <==> HasSession(hooks, uniq)
    {
      var i := 0;
      while i < |hooks|
        invariant i <= |hooks|
        invariant forall j :: 0 <= j < i ==> hooks[j].priv != Some(uniq)
      {
        if hooks[i].priv.Some? && hooks[i].priv.value == uniq {
          return true;
        }
        i := i + 1;
      }
      return false;
    }

    /** `pppoe_match_svc`. */
    method MatchService(wanted: seq<byte>) returns (r: Option<Ptr>)
      requires Safe(View())
      ensures r == MatchSvc(Shared(), listeners, wanted)
    {
      ghost var answer := MatchSvc(Shared(), listeners, wanted);
      var i := 0;
      assert listeners[0..] == listeners;
      while i < |listeners|
        invariant i <= |listeners|
        invariant answer == MatchSvc(Shared(), listeners[i..], wanted)
      {
        MatchSvcFrom(Shared(), listeners, i, wanted);
        var p := listeners[i];
        var service := sess[p].neg.value.service;
        if |service| == 0 || (|service| == 1 && service[0] == STAR) {
          assert Matches(service, wanted);
          return Some(p);
        }
        var same := CompareNames(service, wanted);
        if same {
          assert Matches(service, wanted);
          return Some(p);
        }
        assert !Matches(service, wanted);
        i := i + 1;
      }
      return None;
    }

    /** `pppoe_find_svc`. */
    method FindService(name: seq<byte>) returns (r: Option<Ptr>)
      requires Safe(View())
      ensures r == FindSvc(Shared(), listeners, name)
    {
      var i := 0;
      assert listeners[0..] == listeners;
      while i < |listeners|
        invariant i <= |listeners|
        invariant FindSvc(Shared(), listeners, name) == FindSvc(Shared(), listeners[i..], name)
      {
        var p := listeners[i];
        assert p in listeners;
        var same := CompareNames(sess[p].neg.value.service, name);
        if same {
          return Some(p);
        }
        assert listeners[i..][1..] == listeners[i + 1..];
        i := i + 1;
      }
      return None;
    }

    /** `pppoe_findsession`. */
    method FindBySid(sid: uint16, peer: Mac) returns (r: Option<Ptr>)
      requires CoreSafe(Shared())
      ensures r == FindSession(Shared(), sesshash[Sesshash(sid)], sid, peer)
    {
      var i := 0;
      var bucket := sesshash[Sesshash(sid)];
      assert bucket[0..] == bucket;
      while i < |bucket|
        invariant i <= |bucket|
        invariant FindSession(Shared(), bucket, sid, peer) == FindSession(Shared(), bucket[i..], sid, peer)
      {
        var p := bucket[i];
        assert p in bucket;
        if sess[p].sid == sid && sess[p].peer == peer {
          return Some(p);
        }
        assert bucket[i..][1..] == bucket[i + 1..];
        i := i + 1;
      }
      return None;
    }

    // ----- session identifiers

    /** Is the candidate ID in use?  The loop over one bucket in `pppoe_getnewsession`. */
    method SidTaken(val: uint16) returns (taken: bool)
      requires CoreSafe(Shared())
      ensures taken <==> IdInUse(Shared(), val)
    {
      var bucket := sesshash[Sesshash(val)];
      var i := 0;
      while i < |bucket|
        invariant i <= |bucket|
        invariant forall j :: 0 <= j < i ==> sess[bucket[j]].sid != val
      {
        assert bucket[i] in bucket;
        if sess[bucket[i]].sid == val {
          return true;
        }
        i := i + 1;
      }
      return false;
    }

    /** One turn of the loop in `pppoe_getnewsession`: the counter is advanced, with wrap
        and restart, and the candidate is looked up. */
    method TryNextSid() returns (val: uint16, taken: bool)
      requires CoreSafe(Shared())
      modifies this`pppoeSid
      ensures (val, pppoeSid) == Turn(old(pppoeSid)) && CoreSafe(Shared())
      ensures taken <==> IdInUse(Shared(), val)
      ensures !SomeIdFree(old(Shared())) ==> taken
    {
      ghost var c := Shared();
      val := pppoeSid;
      if val == 0xffff {
        pppoeSid := 1;
        val := 1;
      } else {
        pppoeSid := val + 1;
      }
      taken := SidTaken(val);
      assert Shared() == c.(nextSid := pppoeSid);
      SameIdsInUse(c, pppoeSid, val);
    }

    /** `pppoe_getnewsession`: candidates are tried until one is free; this ends because
        some ID is.  The session enters its bucket. */
    method GetNewSession(p: Ptr) returns (val: uint16)
      requires CoreSafe(Shared()) && SomeIdFree(Shared())
      modifies this`pppoeSid, this`sesshash
      ensures (val, pppoeSid) == NewSid(old(Shared()))
      ensures sesshash == AddToBucket(old(sesshash), Sesshash(val), p)
    {
      ghost var answer := NewSid(Shared());
      ghost var f: uint16 :| 1 <= f <= SID_MAX && !IdInUse(Shared(), f);
      var taken := true;
      val := 0;
      while taken
        invariant sesshash == old(sesshash)
        invariant CoreSafe(Shared()) && !IdInUse(Shared(), f)
        invariant taken ==> SomeIdFree(Shared()) && answer == NewSid(Shared())
        invariant !taken ==> (val, pppoeSid) == answer
        decreases taken, Distance(pppoeSid, f)
      {
        ghost var c := Shared();
        val, taken := TryNextSid();
        assert Shared() == c.(nextSid := pppoeSid);
        TurnMakesProgress(c, f);
      }
      sesshash := AddToBucket(sesshash, Sesshash(val), p);
    }

    // ----- control messages

    method CheckInit(msg: InitMsg) returns (r: Lookup)
      ensures r == InitCheck(Shared(), cfg, msg)
    {
      if !msg.headerFits || |msg.payload| > cfg.nameMax || |msg.payload| < msg.dataLen {
        return Refused(EMSGSIZE);
      }
      var hook := FindHookByName(hooks, msg.hook);
      if hook.None? {
        return Refused(ENOENT);
      }
      if hook.value.priv.None? {
        return Refused(EINVAL);
      }
      return Found(hook.value.priv.value);
    }

    /** `pppoe_start`. */
    method StartClient(p: Ptr) returns (out: seq<Action>)
      requires p in sess && sess[p].neg.Some?
      modifies this`sess
      ensures sess == old(sess)[p := Start(cfg, p, old(sess[p]))]
      ensures out == [SendEther(DiscoveryPacket(cfg, sess[p].neg.value))]
    {
      var neg := sess[p].neg.value;
      var tags: seq<Tag> := [];
      tags := InsertTag(tags, RawTag(PTT_HOST_UNIQ, PtrBytes(p)));
      tags := InsertTag(tags, RawTag(PTT_SRV_NAME, neg.service));
      assert tags == StartTags(p, neg);
      var payload := BuildPayload(tags);
      neg := neg.(peer := BROADCAST, code := PADI, payload := payload);
      neg := neg.(pending := Some(cfg.initial), timeout := 2 * cfg.initial);
      sess := sess[p := sess[p].(state := SInit, neg := Some(neg))];
      out := [SendEther(DiscoveryPacket(cfg, neg))];
    }

    method Connect(msg: InitMsg) returns (err: Errno, out: seq<Action>)
      requires CoreSafe(Shared())
      modifies this`sess
      ensures Result(Shared(), err, out) == ConnectStep(old(Shared()), cfg, msg)
    {
      var r := CheckInit(msg);
      if r.Refused? {
        return r.err, [];
      }
      InitCheckFound(Shared(), cfg, msg);
      var p := r.ptr;
      if sess[p].state != SNone {
        return EISCONN, [];
      }
      var data := msg.payload[..msg.dataLen];
      var i := FindSeparator(data);
      var ac: Name, service: Name := [], data;
      if i < |data| {
        ac, service := data[..i], data[i + 1..];
      }
      ghost var s0 := sess;
      sess := sess[p := sess[p].(neg := Some(FRESH_NEG.(acName := ac, service := service)), role := Client)];
      out := StartClient(p);
      assert sess == s0[p := sess[p]];
      err := EOK;
    }

    method Listen(msg: InitMsg) returns (err: Errno, out: seq<Action>)
      requires Safe(View())
      modifies this`sess, this`listeners
      ensures NodeResult(View(), err, out) == StepAfter(old(View()), cfg, ListenMsg(msg))
    {
      out := [];
      var r := CheckInit(msg);
      if r.Refused? {
        return r.err, [];
      }
      InitCheckFound(Shared(), cfg, msg);
      var p := r.ptr;
      var name := msg.payload[..msg.dataLen];
      var taken := FindService(name);
      if taken.Some? {
        return EEXIST, [];
      }
      if sess[p].state != SNone {
        return EISCONN, [];
      }
      var neg := FRESH_NEG.(service := name, code := PADT);
      sess := sess[p := sess[p].(state := Listening, neg := Some(neg), role := Listener)];
      listeners := [p] + listeners;
      err := EOK;
    }

    method Offer(msg: InitMsg) returns (err: Errno, out: seq<Action>)
      requires CoreSafe(Shared())
      modifies this`sess
      ensures Result(Shared(), err, out) == OfferStep(old(Shared()), cfg, msg)
    {
      var r := CheckInit(msg);
      if r.Refused? {
        return r.err, [];
      }
      InitCheckFound(Shared(), cfg, msg);
      var p := r.ptr;
      if sess[p].state != SNone {
        return EISCONN, [];
      }
      var neg := FRESH_NEG.(acName := msg.payload[..msg.dataLen], code := PADO);
      sess := sess[p := sess[p].(state := Primed, neg := Some(neg), role := Server)];
      return EOK, [];
    }

    method Service(msg: InitMsg) returns (err: Errno, out: seq<Action>)
      requires CoreSafe(Shared())
      modifies this`sess
      ensures Result(Shared(), err, out) == ServiceStep(old(Shared()), cfg, msg)
    {
      var r := CheckInit(msg);
      if r.Refused? {
        return r.err, [];
      }
      InitCheckFound(Shared(), cfg, msg);
      var p := r.ptr;
      if sess[p].state != Primed {
        return EISCONN, [];
      }
      assert Negotiating(sess[p].state);
      var neg := sess[p].neg.value;
      sess := sess[p := sess[p].(neg := Some(neg.(service := msg.payload[..msg.dataLen])))];
      return EOK, [];
    }

    // ----- ng_pppoe_rcvdata

    method ReceiveFromHook(p: Ptr, pkt: Packet) returns (err: Errno, out: seq<Action>)
      requires CoreSafe(Shared()) && p in sess && SearchesInside(pkt, HookSearches(sess[p], pkt))
      modifies this`sess
      ensures Result(Shared(), err, out) == FromHookStep(old(Shared()), cfg, p, pkt)
    {
      var s := sess[p];
      if s.state == NewConnected || s.state == Connected {
        var data := pkt.body;
        if |data| >= 2 && data[0] == ALL_STATIONS && data[1] == UNNUMBERED {
          data := data[2..];
        }
        return EOK, [SendEther(Packet(SessionData, s.peer, cfg.mac, 0, s.hdrSid, |data| % 0x1_0000, data))];
      } else if s.state == Primed {
        assert Negotiating(s.state);
        if pkt.code != PADI {
          return EINVAL, [];
        }
        var neg := s.neg.value.(pending := None, peer := pkt.src, timeout := 0, code := PADO);
        var tags := CollectOfferTags(p, s.neg.value, pkt);
        var payload := BuildPayload(tags);
        neg := neg.(payload := payload, pending := Some(cfg.offer));
        sess := sess[p := s.(state := SOffer, neg := Some(neg))];
        return EOK, [SendEther(DiscoveryPacket(cfg, neg))];
      } else {
        return ENETUNREACH, [];
      }
    }

    // ----- ng_pppoe_rcvdata_ether

    /** The hook named by the tag that a PADO, PADR or PADS returns to us. */
    method FindAddressee(utag: Option<Tag>) returns (r: Option<Ptr>)
      ensures r == Addressee(Shared(), utag)
    {
      if utag.None? || |utag.value.data| != PTR_SIZE {
        return None;
      }
      var found := FindUniq(PtrOf(utag.value.data));
      r := if found then Some(PtrOf(utag.value.data)) else None;
    }

    method ReceivePadi(pkt: Packet) returns (err: Errno, out: seq<Action>)
      requires Safe(View()) && pkt.frame == Discovery && pkt.code == PADI
      requires SearchesInside(pkt, {PTT_SRV_NAME})
      ensures NodeResult(View(), err, out) == StepAfter(View(), cfg, FromEther(pkt))
    {
      var tag := LookupTag(pkt, PTT_SRV_NAME);
      if tag.None? {
        return ENETUNREACH, [];
      }
      var hook := MatchService(tag.value.data);
      if hook.None? {
        return ENETUNREACH, [];
      }
      return EOK, [ForwardToHook(hook.value, pkt)];
    }

    method ReceivePado(pkt: Packet) returns (err: Errno, out: seq<Action>)
      requires CoreSafe(Shared()) && SearchesInside(pkt, PadoSearches(Shared(), pkt))
      modifies this`sess
      ensures Result(Shared(), err, out) == PadoStep(old(Shared()), cfg, pkt)
    {
      var utag := LookupTag(pkt, PTT_HOST_UNIQ);
      var hook := FindAddressee(utag);
      if hook.None? {
        return ENETUNREACH, [];
      }
      AddresseeHasSession(Shared(), utag);
      var p := hook.value;
      var s := sess[p];
      if s.state == SReq || s.state == Connected {
        return EOK, [];
      }
      if s.state != SInit {
        return ENETUNREACH, [];
      }
      assert Negotiating(s.state);
      var neg := s.neg.value;
      if |neg.acName| != 0 {
        var tag := LookupTag(pkt, PTT_AC_NAME);
        if tag.None? {
          return EOK, [];
        }
        var same := CompareNames(neg.acName, tag.value.data);
        if !same {
          return EOK, [];
        }
      }
      neg := neg.(pending := None, peer := pkt.src, timeout := 0, code := PADR);
      var tags := CollectRequestTags(s.neg.value, utag.value, pkt);
      var payload := BuildPayload(tags);
      neg := neg.(payload := payload, pending := Some(cfg.initial), timeout := 2 * cfg.initial);
      sess := sess[p := s.(state := SReq, neg := Some(neg))];
      return EOK, [SendEther(DiscoveryPacket(cfg, neg))];
    }

    method ReceivePadr(pkt: Packet) returns (err: Errno, out: seq<Action>)
      requires CoreSafe(Shared()) && PadrCanAllocate(Shared(), pkt)
      requires SearchesInside(pkt, PadrSearches(Shared(), pkt))
      modifies this`sess, this`sesshash, this`pppoeSid
      ensures Result(Shared(), err, out) == PadrStep(old(Shared()), cfg, pkt)
    {
      var utag := LookupTag(pkt, PTT_AC_COOKIE);
      var hook := FindAddressee(utag);
      if hook.None? {
        return ENETUNREACH, [];
      }
      AddresseeHasSession(Shared(), utag);
      var p := hook.value;
      var s := sess[p];
      if s.state == NewConnected {
        s := s.(state := SOffer);
      } else if s.state != SOffer {
        return ENETUNREACH, [];
      }
      assert PadrTarget(Shared(), pkt) == Some(p);
      assert Negotiating(sess[p].state);
      var neg := s.neg.value.(pending := None, code := PADS);
      if s.sid == 0 {
        var sid := GetNewSession(p);
        s := s.(sid := sid);
        neg := neg.(sid := sid);
      }
      neg := neg.(timeout := 0);
      var tags := CollectConfirmTags(s.neg.value, utag.value, pkt);
      var payload := BuildPayload(tags);
      neg := neg.(payload := payload);
      s := s.(state := NewConnected, neg := Some(neg), peer := neg.peer, hdrSid := neg.sid);
      assert s == ConfirmSession(sess[p], s.sid, neg.sid, pkt, utag.value);
      sess := sess[p := s];
      return EOK, [SendEther(DiscoveryPacket(cfg, neg))];
    }

    /** `pppoe_addsession`. */
    method AddSession(p: Ptr, sid: uint16)
      requires |sesshash| == 0x100
      modifies this`sesshash
      ensures sesshash == AddToBucket(old(sesshash), Sesshash(sid), p)
    {
      var hash := Sesshash(sid);
      sesshash := sesshash[hash := [p] + sesshash[hash]];
    }

    method ReceivePads(pkt: Packet) returns (err: Errno, out: seq<Action>)
      requires CoreSafe(Shared()) && SearchesInside(pkt, {PTT_HOST_UNIQ})
      modifies this`sess, this`sesshash
      ensures Result(Shared(), err, out) == PadsStep(old(Shared()), pkt)
    {
      var utag := LookupTag(pkt, PTT_HOST_UNIQ);
      var hook := FindAddressee(utag);
      if hook.None? {
        return ENETUNREACH, [];
      }
      AddresseeHasSession(Shared(), utag);
      var p := hook.value;
      var s := sess[p];
      if s.state != SReq {
        return ENETUNREACH, [];
      }
      assert Negotiating(s.state);
      AddSession(p, pkt.sid);
      s := s.(sid := pkt.sid, state := Connected, peer := s.neg.value.peer, hdrSid := pkt.sid, neg := None);
      sess := sess[p := s];
      return EOK, [];
    }

    method ReceivePadt(pkt: Packet) returns (err: Errno, out: seq<Action>)
      requires CoreSafe(Shared())
      modifies this`removing
      ensures Result(Shared(), err, out) == PadtStep(old(Shared()), pkt)
    {
      var found := FindBySid(pkt.sid, pkt.src);
      if found.None? {
        return ENETUNREACH, [];
      }
      removing := removing + {found.value};
      return EOK, [RemoveHook(found.value)];
    }

    method ReceiveSessionData(pkt: Packet) returns (err: Errno, out: seq<Action>)
      requires CoreSafe(Shared())
      modifies this`sess
      ensures Result(Shared(), err, out) == SessionDataStep(old(Shared()), pkt)
    {
      var found := FindBySid(pkt.sid, pkt.src);
      if found.None? {
        return ENETUNREACH, [];
      }
      var p := found.value;
      if |pkt.body| < pkt.length {
        return EMSGSIZE, [];
      }
      var data := pkt.body[..pkt.length];
      if sess[p].state != Connected {
        if sess[p].state == NewConnected {
          sess := sess[p := sess[p].(state := Connected, neg := None)];
        } else {
          return ENETUNREACH, [];
        }
      }
      return EOK, [Deliver(p, data)];
    }

    // ----- pppoe_ticker

    method Tick(p: Ptr) returns (err: Errno, out: seq<Action>)
      requires CoreSafe(Shared()) && p in sess && sess[p].neg.Some? && sess[p].neg.value.pending.Some?
      modifies this`sess, this`removing
      ensures Result(Shared(), err, out) == TimeoutStep(old(Shared()), cfg, p)
    {
      var s := sess[p];
      var neg := s.neg.value.(pending := None);
      err := EOK;
      if s.state == SInit || s.state == SReq {
        out := [SendEther(DiscoveryPacket(cfg, neg))];
        neg := neg.(pending := Some(neg.timeout));
        neg := neg.(timeout := 2 * neg.timeout);
        ghost var s0 := sess;
        sess := sess[p := s.(neg := Some(neg))];
        if neg.timeout > cfg.limit {
          if s.state == SReq {
            var started := StartClient(p);
            out := out + started;
          } else {
            sess := sess[p := s.(neg := Some(neg.(timeout := cfg.limit)))];
          }
        }
        assert sess == s0[p := sess[p]];
      } else {
        sess := sess[p := s.(neg := Some(neg))];
        out := [];
        if s.state == Primed || s.state == SOffer {
          removing := removing + {p};
          out := [RemoveHook(p)];
        }
      }
    }

    // ----- hooks

    method AddHook(name: string, at: nat, p: Ptr) returns (err: Errno, out: seq<Action>)
      requires at <= |hooks|
      modifies this`hooks, this`sess
      ensures Result(Shared(), err, out) == NewHookStep(old(Shared()), name, at, p)
    {
      if name == HOOK_ETHERNET || name == HOOK_DEBUG {
        hooks := InsertAt(hooks, at, Hook(name, None));
      } else {
        sess := sess[p := ZERO_SESSION];
        hooks := InsertAt(hooks, at, Hook(name, Some(p)));
      }
      return EOK, [];
    }

    /** `ng_pppoe_disconnect` for a session hook. */
    method Disconnected(p: Ptr) returns (err: Errno, out: seq<Action>)
      requires Safe(View()) && p in sess
      modifies this`hooks, this`sess, this`listeners, this`sesshash, this`removing
      ensures NodeResult(View(), err, out) == StepAfter(old(View()), cfg, Disconnect(p))
    {
      var s := sess[p];
      out := [];
      if s.state == Connected || s.state == NewConnected {
        var body := EncodeTag(RawTag(PTT_GEN_ERR, SIGNOFF));
        out := [SendEther(Packet(Discovery, s.peer, cfg.mac, PADT, s.hdrSid, |body|, body))];
      }
      if s.state == Listening {
        listeners := Without(listeners, p);
      } else if s.sid != 0 {
        var hash := Sesshash(s.sid);
        sesshash := sesshash[hash := Without(sesshash[hash], p)];
      }
      hooks := DropHook(hooks, p);
      sess := sess - {p};
      removing := removing - {p};
      err := EOK;
    }

    // ----- any event

    method HandleEther(pkt: Packet) returns (err: Errno, out: seq<Action>)
      requires Safe(View()) && Enabled(Shared(), FromEther(pkt))
      modifies this
      ensures NodeResult(View(), err, out) == StepAfter(old(View()), cfg, FromEther(pkt))
    {
      if pkt.frame == Discovery {
        EtherSearchesInside(Shared(), pkt);
      }
      if pkt.frame == Foreign {
        return EPFNOSUPPORT, [];
      } else if pkt.frame == SessionData {
        err, out := ReceiveSessionData(pkt);
      } else if pkt.code == PADI {
        err, out := ReceivePadi(pkt);
      } else if pkt.code == PADO {
        err, out := ReceivePado(pkt);
      } else if pkt.code == PADR {
        err, out := ReceivePadr(pkt);
      } else if pkt.code == PADS {
        err, out := ReceivePads(pkt);
      } else if pkt.code == PADT {
        err, out := ReceivePadt(pkt);
      } else {
        return EPFNOSUPPORT, [];
      }
    }

    /** Every handler does the step of the specification, and so keeps the invariant. */
    method Handle(ev: Event) returns (err: Errno, out: seq<Action>)
      requires Inv(cfg, View()) && Safe(View()) && Enabled(Shared(), ev)
      modifies this
      ensures NodeResult(View(), err, out) == StepAfter(old(View()), cfg, ev)
      ensures !LeavesDangling(old(Shared()), ev) ==> Inv(cfg, View()) && Safe(View())
    {
      ghost var n := View();
      match ev {
        case NewHook(name, at, p) => err, out := AddHook(name, at, p);
        case ConnectMsg(msg) => err, out := Connect(msg);
        case ListenMsg(msg) => err, out := Listen(msg);
        case OfferMsg(msg) => err, out := Offer(msg);
        case ServiceMsg(msg) => err, out := Service(msg);
        case FromHook(p, pkt) => err, out := ReceiveFromHook(p, pkt);
        case FromEther(pkt) => err, out := HandleEther(pkt);
        case Disconnect(p) => err, out := Disconnected(p);
        case Timeout(p) => err, out := Tick(p);
        case OtherNodeTookSid(v) => pppoeSid, err, out := v, EOK, [];
      }
      assert View() == StepAfter(n, cfg, ev).node;
      if !LeavesDangling(n.core, ev) {
        StepKeeps(cfg, n, ev);
        InvIsSafe(cfg, View());
      }
    }
  }
}
