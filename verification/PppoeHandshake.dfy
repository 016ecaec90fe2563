/** Two nodes at work: the four discovery packets, through the tag encoder of one node
    and the tag parser of the other, set up a session over which data then flows. */
module PppoeHandshake {
  import opened Basics
  import opened PppoeTags
  import opened PppoeNode
  import opened PppoeInvariants
  import opened PppoeRuns

  // ----- packets that carry all their tags

  lemma {:induction false} FitCountAll(ts: seq<Tag>, used: nat)
    requires used + |EncodeTags(ts)| <= TAG_LIMIT
    ensures FitCount(ts, used) == |ts|
    decreases ts
  {
    if ts != [] {
      FitCountAll(ts[1..], used + |EncodeTag(ts[0])|);
    }
  }

  lemma AllTagsSent(ts: seq<Tag>)
    requires |EncodeTags(ts)| <= TAG_LIMIT
    ensures ParseTags(Payload(ts)) == ts
  {
    FitCountAll(ts, 0);
    assert ts[..|ts|] == ts;
    ParseInvertsEncode(ts);
  }

  /** A sent packet whose tags fit is parsed by the receiver to the same tags. */
  lemma ReceivedTags(cfg: Config, n: Neg, ts: seq<Tag>)
    requires n.payload == Payload(ts) && FewShortTags(ts)
    ensures var pkt := DiscoveryPacket(cfg, n);
      pkt.length <= |pkt.body| && ParseTags(TagArea(pkt)) == ts
  {
    ShortTagsFit(ts);
    AllTagsSent(ts);
    var pkt := DiscoveryPacket(cfg, n);
    assert TagArea(pkt) == n.payload;
  }

  ghost predicate FewShortTags(ts: seq<Tag>) {
    |ts| <= 5 && forall t :: t in ts ==> |t.data| <= 0x100
  }

  lemma {:induction false} ShortTagsSize(ts: seq<Tag>)
    requires forall t :: t in ts ==> |t.data| <= 0x100
    ensures |EncodeTags(ts)| <= |ts| * (TAG_HEADER + 0x100)
  {
    if ts != [] {
      ShortTagsSize(ts[1..]);
    }
  }

  lemma ShortTagsFit(ts: seq<Tag>)
    requires FewShortTags(ts)
    ensures |EncodeTags(ts)| <= TAG_LIMIT
  {
    ShortTagsSize(ts);
  }

  lemma {:induction false} FirstTagAt(ts: seq<Tag>, i: nat)
    requires i < |ts| && forall j :: 0 <= j < i ==> ts[j].kind != ts[i].kind
    ensures FirstTag(ts, ts[i].kind) == Some(ts[i])
  {
    if i != 0 {
      FirstTagAt(ts[1..], i - 1);
    }
  }

  lemma {:induction false} NoRelayTags(ts: seq<Tag>)
    requires forall t :: t in ts ==> t.kind != PTT_EOL && t.kind != PTT_RELAY_SID
    ensures RelayTags(ts) == []
  {
    if ts != [] {
      assert ts[0] in ts;
      NoRelayTags(ts[1..]);
    }
  }

  function Ac(name: Name): Tag { RawTag(PTT_AC_NAME, name) }
  function Srv(name: Name): Tag { RawTag(PTT_SRV_NAME, name) }
  function Uniq(p: Ptr): Tag { RawTag(PTT_HOST_UNIQ, PtrBytes(p)) }
  function Cookie(p: Ptr): Tag { RawTag(PTT_AC_COOKIE, PtrBytes(p)) }

  /** The tags of the offer: the extra service only when none was requested. */
  function OfferedTags(ac: Name, wanted: Name, extra: Name, p: Ptr, q: Ptr): seq<Tag> {
    if wanted == [] && extra != [] then [Ac(ac), Srv(wanted), Srv(extra), Uniq(p), Cookie(q)]
    else [Ac(ac), Srv(wanted), Uniq(p), Cookie(q)]
  }

  function RequestedTags(ac: Name, wanted: Name, p: Ptr, q: Ptr): seq<Tag> {
    [Uniq(p), Cookie(q), Ac(ac), Srv(wanted)]
  }

  function ConfirmedTags(ac: Name, wanted: Name, p: Ptr, q: Ptr): seq<Tag> {
    [Ac(ac), Srv(wanted), Uniq(p), Cookie(q)]
  }

  lemma OfferTagsAre(nb: Neg, wanted: Name, p: Ptr, q: Ptr)
    requires |nb.acName| <= 0x100 && |wanted| <= 0x100 && |nb.service| <= 0x100
    ensures FewShortTags([Uniq(p), Srv(wanted)])
    ensures OfferTags(q, nb, [Uniq(p), Srv(wanted)]) == OfferedTags(nb.acName, wanted, nb.service, p, q)
  {
    var ts := [Uniq(p), Srv(wanted)];
    FirstTagAt(ts, 0);
    FirstTagAt(ts, 1);
    NoRelayTags(ts);
  }

  lemma OfferedTagsShort(ac: Name, wanted: Name, extra: Name, p: Ptr, q: Ptr)
    requires |ac| <= 0x100 && |wanted| <= 0x100 && |extra| <= 0x100
    ensures var ts := OfferedTags(ac, wanted, extra, p, q); FewShortTags(ts) && RelayTags(ts) == []
  {
    NoRelayTags(OfferedTags(ac, wanted, extra, p, q));
  }

  lemma OfferedTagsFound(ac: Name, wanted: Name, extra: Name, p: Ptr, q: Ptr)
    ensures var ts := OfferedTags(ac, wanted, extra, p, q);
      && FirstTag(ts, PTT_HOST_UNIQ) == Some(Uniq(p))
      && FirstTag(ts, PTT_AC_COOKIE) == Some(Cookie(q))
      && FirstTag(ts, PTT_AC_NAME) == Some(Ac(ac))
  {
    var ts := OfferedTags(ac, wanted, extra, p, q);
    FirstTagAt(ts, 0);
    FirstTagAt(ts, |ts| - 2);
    FirstTagAt(ts, |ts| - 1);
  }

  lemma RequestTagsAre(na: Neg, ac: Name, p: Ptr, q: Ptr, ts: seq<Tag>)
    requires FirstTag(ts, PTT_AC_COOKIE) == Some(Cookie(q)) && FirstTag(ts, PTT_AC_NAME) == Some(Ac(ac))
    requires RelayTags(ts) == []
    ensures RequestTags(na, Uniq(p), ts) == RequestedTags(ac, na.service, p, q)
  {
  }

  lemma ConfirmTagsAre(nb: Neg, wanted: Name, p: Ptr, q: Ptr)
    requires |nb.acName| <= 0x100 && |wanted| <= 0x100
    ensures var ts := RequestedTags(nb.acName, wanted, p, q);
      && FewShortTags(ts)
      && FirstTag(ts, PTT_AC_COOKIE) == Some(Cookie(q))
      && ConfirmTags(nb, Cookie(q), ts) == ConfirmedTags(nb.acName, wanted, p, q)
  {
    var ts := RequestedTags(nb.acName, wanted, p, q);
    FirstTagAt(ts, 0);
    FirstTagAt(ts, 1);
    FirstTagAt(ts, 3);
    NoRelayTags(ts);
  }

  lemma ConfirmedTagsName(ac: Name, wanted: Name, p: Ptr, q: Ptr)
    requires |ac| <= 0x100 && |wanted| <= 0x100
    ensures var ts := ConfirmedTags(ac, wanted, p, q);
      FewShortTags(ts) && FirstTag(ts, PTT_HOST_UNIQ) == Some(Uniq(p))
  {
    FirstTagAt(ConfirmedTags(ac, wanted, p, q), 2);
  }

  // ----- the four steps

  /** A client session that has sent its PADI. */
  ghost predicate Calling(cfg: Config, c: Core, p: Ptr) {
    && CoreInv(cfg, c) && p in c.sess
    && c.sess[p].state == SInit && c.sess[p].neg.Some?
    && c.sess[p].neg.value.code == PADI
    && c.sess[p].neg.value.payload == Payload(StartTags(p, c.sess[p].neg.value))
  }

  /** A server session opened by OFFER, not yet in contact with a client. */
  ghost predicate Answering(cfg: Config, c: Core, q: Ptr) {
    && CoreInv(cfg, c) && q in c.sess
    && c.sess[q].state == Primed && c.sess[q].neg.Some?
  }

  function Last(cfg: Config, s: Session): Packet
    requires s.neg.Some?
  {
    DiscoveryPacket(cfg, s.neg.value)
  }

  lemma SessionBounds(cfg: Config, c: Core, p: Ptr)
    requires CoreInv(cfg, c) && p in c.sess
    ensures SessionFits(cfg, c.sess[p], p in c.removing)
    ensures HasSession(c.hooks, p)
    ensures c.sess[p].neg.Some? ==> |c.sess[p].neg.value.acName| <= 0x100 && |c.sess[p].neg.value.service| <= 0x100
  {
  }

  lemma OfferSent(cfgB: Config, b: Core, q: Ptr, cfgA: Config, sa: Session, p: Ptr)
    requires Answering(cfgB, b, q)
    requires sa.neg.Some? && sa.neg.value.code == PADI
    requires sa.neg.value.payload == Payload(StartTags(p, sa.neg.value)) && |sa.neg.value.service| <= 0x100
    ensures var padi := Last(cfgA, sa);
      && padi.length <= |padi.body|
      && var s' := OfferSession(cfgB, q, b.sess[q], padi);
         && FromHookStep(b, cfgB, q, padi).core == Put(b, q, s')
         && CoreInv(cfgB, Put(b, q, s'))
         && s'.neg.value.payload ==
              Payload(OfferedTags(b.sess[q].neg.value.acName, sa.neg.value.service, b.sess[q].neg.value.service, p, q))
  {
    SessionBounds(cfgB, b, q);
    OfferTagsAre(b.sess[q].neg.value, sa.neg.value.service, p, q);
    ReceivedTags(cfgA, sa.neg.value, StartTags(p, sa.neg.value));
    FromHookKeeps(cfgB, b, q, Last(cfgA, sa));
  }

  /** A PADO addressed to a waiting client that takes it is answered. */
  lemma PadoTaken(cfg: Config, a: Core, p: Ptr, pado: Packet, ts: seq<Tag>)
    requires CoreSafe(a) && p in a.sess && HasSession(a.hooks, p) && a.sess[p].state == SInit && a.sess[p].neg.Some?
    requires pado.length <= |pado.body| && ParseTags(TagArea(pado)) == ts
    requires FirstTag(ts, PTT_HOST_UNIQ) == Some(Uniq(p)) && AcceptsOffer(a.sess[p].neg.value, ts)
    ensures PadoStep(a, cfg, pado).core == Put(a, p, RequestSession(cfg, a.sess[p], pado, Uniq(p)))
  {
  }

  lemma RequestMade(cfgA: Config, a: Core, p: Ptr, cfgB: Config, nb: Neg, extra: Name, q: Ptr)
    requires CoreSafe(a) && p in a.sess && HasSession(a.hooks, p) && a.sess[p].state == SInit && a.sess[p].neg.Some?
    requires nb.payload == Payload(OfferedTags(nb.acName, a.sess[p].neg.value.service, extra, p, q))
    requires |nb.acName| <= 0x100 && |extra| <= 0x100 && |a.sess[p].neg.value.service| <= 0x100
    requires AcceptsOffer(a.sess[p].neg.value, [Ac(nb.acName)])
    ensures var pado := DiscoveryPacket(cfgB, nb);
      && pado.length <= |pado.body|
      && var s' := RequestSession(cfgA, a.sess[p], pado, Uniq(p));
         && PadoStep(a, cfgA, pado).core == Put(a, p, s')
         && s'.neg.value.payload == Payload(RequestedTags(nb.acName, a.sess[p].neg.value.service, p, q))
  {
    var na := a.sess[p].neg.value;
    var ts := OfferedTags(nb.acName, na.service, extra, p, q);
    OfferedTagsShort(nb.acName, na.service, extra, p, q);
    OfferedTagsFound(nb.acName, na.service, extra, p, q);
    RequestTagsAre(na, nb.acName, p, q, ts);
    ReceivedTags(cfgB, nb, ts);
    AcceptsByName(na, ts, nb.acName);
    PadoTaken(cfgA, a, p, DiscoveryPacket(cfgB, nb), ts);
  }

  lemma AcceptsByName(n: Neg, ts: seq<Tag>, ac: Name)
    requires AcceptsOffer(n, [Ac(ac)]) && FirstTag(ts, PTT_AC_NAME) == Some(Ac(ac))
    ensures AcceptsOffer(n, ts)
  {
    FirstTagAt([Ac(ac)], 0);
  }

  /** The client's answer to an offer that reached it. */
  lemma RequestSent(cfgA: Config, a: Core, p: Ptr, cfgB: Config, sb: Session, extra: Name, q: Ptr)
    requires Calling(cfgA, a, p) && CoreSafe(a) && sb.neg.Some?
    requires sb.neg.value.payload ==
      Payload(OfferedTags(sb.neg.value.acName, a.sess[p].neg.value.service, extra, p, q))
    requires |sb.neg.value.acName| <= 0x100 && |extra| <= 0x100
    requires AcceptsOffer(a.sess[p].neg.value, [Ac(sb.neg.value.acName)])
    ensures var pado := Last(cfgB, sb);
      && pado.length <= |pado.body|
      && var s' := RequestSession(cfgA, a.sess[p], pado, Uniq(p));
         && PadoStep(a, cfgA, pado).core == Put(a, p, s')
         && CoreInv(cfgA, Put(a, p, s'))
         && s'.neg.value.payload == Payload(RequestedTags(sb.neg.value.acName, a.sess[p].neg.value.service, p, q))
  {
    SessionBounds(cfgA, a, p);
    RequestMade(cfgA, a, p, cfgB, sb.neg.value, extra, q);
    PadoKeeps(cfgA, a, Last(cfgB, sb));
  }

  /** The server's answer to a request that reached it. */
  lemma ConfirmSent(cfgB: Config, b: Core, q: Ptr, cfgA: Config, sa: Session, p: Ptr)
    requires CoreInv(cfgB, b) && CoreSafe(b) && q in b.sess && b.sess[q].state == SOffer && b.sess[q].sid == 0
    requires SomeIdFree(b) && b.sess[q].neg.Some? && sa.neg.Some? && |sa.neg.value.service| <= 0x100
    requires sa.neg.value.payload ==
      Payload(RequestedTags(b.sess[q].neg.value.acName, sa.neg.value.service, p, q))
    ensures var padr := Last(cfgA, sa);
      && padr.length <= |padr.body| && PadrCanAllocate(b, padr)
      && var (sid, next) := NewSid(b);
         var s' := ConfirmSession(b.sess[q], sid, sid, padr, Cookie(q));
         && PadrStep(b, cfgB, padr).core
            == Put(b.(buckets := AddToBucket(b.buckets, Sesshash(sid), q), nextSid := next), q, s')
         && CoreInv(cfgB, PadrStep(b, cfgB, padr).core)
         && s'.neg.value.payload ==
              Payload(ConfirmedTags(b.sess[q].neg.value.acName, sa.neg.value.service, p, q))
  {
    SessionBounds(cfgB, b, q);
    var (na, nb) := (sa.neg.value, b.sess[q].neg.value);
    ConfirmTagsAre(nb, na.service, p, q);
    ReceivedTags(cfgA, na, RequestedTags(nb.acName, na.service, p, q));
    var padr := Last(cfgA, sa);
    assert PadrTarget(b, padr) == Some(q);
    PadrKeeps(cfgB, b, padr);
  }

  lemma SessionJoined(cfgA: Config, a: Core, p: Ptr, cfgB: Config, sb: Session, wanted: Name, q: Ptr)
    requires CoreInv(cfgA, a) && CoreSafe(a) && p in a.sess && a.sess[p].state == SReq && a.sess[p].neg.Some?
    requires sb.neg.Some? && |sb.neg.value.acName| <= 0x100 && |wanted| <= 0x100
    requires sb.neg.value.payload == Payload(ConfirmedTags(sb.neg.value.acName, wanted, p, q))
    ensures var pads := Last(cfgB, sb);
      && pads.length <= |pads.body|
      && var sid := sb.neg.value.sid;
         && PadsStep(a, pads).core
            == Put(a.(buckets := AddToBucket(a.buckets, Sesshash(sid), p)), p, JoinSession(a.sess[p], sid))
         && CoreInv(cfgA, PadsStep(a, pads).core)
  {
    SessionBounds(cfgA, a, p);
    ConfirmedTagsName(sb.neg.value.acName, wanted, p, q);
    ReceivedTags(cfgB, sb.neg.value, ConfirmedTags(sb.neg.value.acName, wanted, p, q));
    PadsKeeps(cfgA, a, Last(cfgB, sb));
  }

  // ----- the whole exchange

  /** The states after the exchange PADI, PADO, PADR, PADS between a client and a server node. */
  ghost predicate Exchange(cfgA: Config, a: Core, p: Ptr, cfgB: Config, b: Core, q: Ptr,
                           b1: Core, a1: Core, b2: Core, a2: Core)
  {
    && CoreSafe(a) && CoreSafe(b) && CoreSafe(a1) && CoreSafe(b1)
    && p in a.sess && a.sess[p].neg.Some? && q in b.sess && b.sess[q].neg.Some?
    && Arrives(Last(cfgA, a.sess[p]))
    && b1 == FromHookStep(b, cfgB, q, Last(cfgA, a.sess[p])).core
    && q in b1.sess && b1.sess[q].neg.Some? && Arrives(Last(cfgB, b1.sess[q]))
    && a1 == PadoStep(a, cfgA, Last(cfgB, b1.sess[q])).core
    && p in a1.sess && a1.sess[p].neg.Some? && Arrives(Last(cfgA, a1.sess[p]))
    && PadrCanAllocate(b1, Last(cfgA, a1.sess[p]))
    && b2 == PadrStep(b1, cfgB, Last(cfgA, a1.sess[p])).core
    && q in b2.sess && b2.sess[q].neg.Some? && Arrives(Last(cfgB, b2.sess[q]))
    && a2 == PadsStep(a1, Last(cfgB, b2.sess[q])).core
  }

  predicate Arrives(pkt: Packet) {
    pkt.length <= |pkt.body|
  }

  /** What an established session is: both ends agree on its ID and know each other's
      address, and each end's lookup for the other's frames finds it. */
  ghost predicate Established(cfgA: Config, a: Core, p: Ptr, cfgB: Config, b: Core, q: Ptr) {
    && CoreInv(cfgA, a) && CoreInv(cfgB, b) && CoreSafe(a) && CoreSafe(b)
    && p in a.sess && q in b.sess
    && Hashed(a.sess[p].state) && Hashed(b.sess[q].state)
    && 1 <= a.sess[p].sid == b.sess[q].sid <= SID_MAX
    && a.sess[p].peer == cfgB.mac && b.sess[q].peer == cfgA.mac
    && FindSession(a, a.buckets[Sesshash(a.sess[p].sid)], a.sess[p].sid, cfgB.mac) == Some(p)
    && FindSession(b, b.buckets[Sesshash(b.sess[q].sid)], b.sess[q].sid, cfgA.mac) == Some(q)
  }

  /** Half way: the client's request is under way to a server session that offered. */
  ghost predicate Requested(cfgA: Config, a: Core, p: Ptr, cfgB: Config, b: Core, q: Ptr) {
    && CoreInv(cfgA, a) && CoreSafe(a) && p in a.sess && a.sess[p].state == SReq && a.sess[p].neg.Some?
    && CoreInv(cfgB, b) && CoreSafe(b) && q in b.sess && b.sess[q].state == SOffer && b.sess[q].neg.Some?
    && b.sess[q].sid == 0
    && a.sess[p].neg.value.peer == cfgB.mac && b.sess[q].neg.value.peer == cfgA.mac
    && a.sess[p].neg.value.code == PADR && b.sess[q].neg.value.code == PADO
    && a.sess[p].neg.value.payload ==
         Payload(RequestedTags(b.sess[q].neg.value.acName, a.sess[p].neg.value.service, p, q))
  }

  /** The request is for the session that offered; so it is accepted only if an ID is free. */
  lemma RequestTargets(cfgA: Config, a: Core, p: Ptr, cfgB: Config, b: Core, q: Ptr)
    requires Requested(cfgA, a, p, cfgB, b, q)
    ensures var padr := Last(cfgA, a.sess[p]);
      padr.code == PADR && PadrTarget(b, padr) == Some(q) && (PadrCanAllocate(b, padr) ==> SomeIdFree(b))
  {
    SessionBounds(cfgA, a, p);
    SessionBounds(cfgB, b, q);
    var (na, nb) := (a.sess[p].neg.value, b.sess[q].neg.value);
    ConfirmTagsAre(nb, na.service, p, q);
    ReceivedTags(cfgA, na, RequestedTags(nb.acName, na.service, p, q));
  }

  lemma FirstHalf(cfgA: Config, a: Core, p: Ptr, cfgB: Config, b: Core, q: Ptr) returns (b1: Core, a1: Core)
    requires Calling(cfgA, a, p) && Answering(cfgB, b, q) && CoreSafe(a)
    requires AcceptsOffer(a.sess[p].neg.value, [Ac(b.sess[q].neg.value.acName)])
    ensures Arrives(Last(cfgA, a.sess[p])) && b1 == FromHookStep(b, cfgB, q, Last(cfgA, a.sess[p])).core
    ensures q in b1.sess && b1.sess[q].neg.Some? && Arrives(Last(cfgB, b1.sess[q]))
    ensures a1 == PadoStep(a, cfgA, Last(cfgB, b1.sess[q])).core
    ensures b1 == Put(b, q, b1.sess[q]) && b1.sess[q].sid == b.sess[q].sid
    ensures Requested(cfgA, a1, p, cfgB, b1, q)
    ensures a1.sess[p].neg.value.pending == Some(cfgA.initial) && a1.sess[p].neg.value.timeout == 2 * cfgA.initial
  {
    SessionBounds(cfgA, a, p);
    SessionBounds(cfgB, b, q);
    var padi := Last(cfgA, a.sess[p]);
    OfferSent(cfgB, b, q, cfgA, a.sess[p], p);
    var sb := OfferSession(cfgB, q, b.sess[q], padi);
    b1 := Put(b, q, sb);
    RequestSent(cfgA, a, p, cfgB, sb, b.sess[q].neg.value.service, q);
    a1 := Put(a, p, RequestSession(cfgA, a.sess[p], Last(cfgB, sb), Uniq(p)));
    CoreInvIsSafe(cfgB, b1);
    CoreInvIsSafe(cfgA, a1);
  }

  lemma SecondHalf(cfgA: Config, a1: Core, p: Ptr, cfgB: Config, b1: Core, q: Ptr) returns (b2: Core, a2: Core)
    requires Requested(cfgA, a1, p, cfgB, b1, q) && SomeIdFree(b1)
    ensures Arrives(Last(cfgA, a1.sess[p])) && PadrCanAllocate(b1, Last(cfgA, a1.sess[p]))
    ensures b2 == PadrStep(b1, cfgB, Last(cfgA, a1.sess[p])).core
    ensures q in b2.sess && b2.sess[q].neg.Some? && Arrives(Last(cfgB, b2.sess[q]))
    ensures b2.sess[q].neg.value.code == PADS
    ensures a2 == PadsStep(a1, Last(cfgB, b2.sess[q])).core
    ensures Established(cfgA, a2, p, cfgB, b2, q) && Established(cfgB, b2, q, cfgA, a2, p)
    ensures a2.sess[p].state == Connected && b2.sess[q].state == NewConnected
  {
    SessionBounds(cfgA, a1, p);
    SessionBounds(cfgB, b1, q);
    var padr := Last(cfgA, a1.sess[p]);
    ConfirmSent(cfgB, b1, q, cfgA, a1.sess[p], p);
    var (sid, next) := NewSid(b1);
    var sb := ConfirmSession(b1.sess[q], sid, sid, padr, Cookie(q));
    b2 := Put(b1.(buckets := AddToBucket(b1.buckets, Sesshash(sid), q), nextSid := next), q, sb);
    SessionJoined(cfgA, a1, p, cfgB, sb, a1.sess[p].neg.value.service, q);
    a2 := Put(a1.(buckets := AddToBucket(a1.buckets, Sesshash(sid), p)), p, JoinSession(a1.sess[p], sid));
    CoreInvIsSafe(cfgB, b2);
    CoreInvIsSafe(cfgA, a2);
    FoundAtFront(b2, q, b1.buckets[Sesshash(sid)]);
    FoundAtFront(a2, p, a1.buckets[Sesshash(sid)]);
  }

  /** The exchange establishes a session, provided the server has an ID left and the
      client did not ask for another access concentrator. */
  lemma HandshakeEstablishes(cfgA: Config, a: Core, p: Ptr, cfgB: Config, b: Core, q: Ptr)
      returns (b1: Core, a1: Core, b2: Core, a2: Core)
    requires Calling(cfgA, a, p) && Answering(cfgB, b, q)
    requires CoreSafe(b) && SomeIdFree(b)
    requires AcceptsOffer(a.sess[p].neg.value, [Ac(b.sess[q].neg.value.acName)])
    ensures Exchange(cfgA, a, p, cfgB, b, q, b1, a1, b2, a2)
    ensures Established(cfgA, a2, p, cfgB, b2, q) && Established(cfgB, b2, q, cfgA, a2, p)
    ensures a2.sess[p].state == Connected && b2.sess[q].state == NewConnected
  {
    CoreInvIsSafe(cfgA, a);
    b1, a1 := FirstHalf(cfgA, a, p, cfgB, b, q);
    SameFreeIds(b, b1, q);
    b2, a2 := SecondHalf(cfgA, a1, p, cfgB, b1, q);
  }

  lemma SameFreeIds(b: Core, b1: Core, q: Ptr)
    requires CoreSafe(b) && CoreSafe(b1) && SomeIdFree(b)
    requires q in b.sess && q in b1.sess && b1 == Put(b, q, b1.sess[q]) && b1.sess[q].sid == b.sess[q].sid
    ensures SomeIdFree(b1)
  {
    var v: uint16 :| 1 <= v <= SID_MAX && !IdInUse(b, v);
    assert !IdInUse(b1, v);
  }

  lemma FoundAtFront(c: Core, p: Ptr, rest: seq<Ptr>)
    requires CoreSafe(c) && p in c.sess
    requires c.buckets[Sesshash(c.sess[p].sid)] == [p] + rest
    ensures FindSession(c, c.buckets[Sesshash(c.sess[p].sid)], c.sess[p].sid, c.sess[p].peer) == Some(p)
  {
  }

  lemma DataSent(cfgA: Config, a: Core, p: Ptr, pkt: Packet)
    requires CoreInv(cfgA, a) && p in a.sess && Hashed(a.sess[p].state)
    requires |pkt.body| < 0x1_0000
    ensures
      var data := StripPpp(pkt.body);
      FromHookStep(a, cfgA, p, pkt) == Result(a, EOK,
        [SendEther(Packet(SessionData, a.sess[p].peer, cfgA.mac, 0, a.sess[p].sid, |data|, data))])
  {
    SessionBounds(cfgA, a, p);
  }

  /** The receiving session once data has reached it. */
  function AfterData(s: Session): Session {
    if s.state == Connected then s else s.(state := Connected, neg := None)
  }

  lemma DataDelivered(b: Core, q: Ptr, frame: Packet)
    requires CoreSafe(b) && q in b.sess && Hashed(b.sess[q].state)
    requires FindSession(b, b.buckets[Sesshash(frame.sid)], frame.sid, frame.src) == Some(q)
    requires frame.length == |frame.body|
    ensures SessionDataStep(b, frame) == Result(Put(b, q, AfterData(b.sess[q])), EOK, [Deliver(q, frame.body)])
  {
    assert frame.body[..frame.length] == frame.body;
    assert b.sess[q := b.sess[q]] == b.sess;
  }

  lemma DataReceived(cfgB: Config, b: Core, q: Ptr, frame: Packet)
    requires CoreInv(cfgB, b) && CoreSafe(b) && q in b.sess && Hashed(b.sess[q].state)
    requires FindSession(b, b.buckets[Sesshash(frame.sid)], frame.sid, frame.src) == Some(q)
    requires frame.length == |frame.body|
    ensures
      var b' := Put(b, q, AfterData(b.sess[q]));
      && SessionDataStep(b, frame) == Result(b', EOK, [Deliver(q, frame.body)])
      && CoreInv(cfgB, b') && CoreSafe(b')
      && FindSession(b', b.buckets[Sesshash(frame.sid)], frame.sid, frame.src) == Some(q)
  {
    DataDelivered(b, q, frame);
    SessionDataKeeps(cfgB, b, frame);
    var b' := Put(b, q, AfterData(b.sess[q]));
    CoreInvIsSafe(cfgB, b');
    PutKeepsLookup(b, q, AfterData(b.sess[q]), b.buckets[Sesshash(frame.sid)], frame.sid, frame.src);
  }

  lemma PutKeepsLookup(b: Core, q: Ptr, s': Session, ps: seq<Ptr>, sid: uint16, peer: Mac)
    requires q in b.sess && s'.sid == b.sess[q].sid && s'.peer == b.sess[q].peer
    requires forall p :: p in ps ==> p in b.sess
    ensures FindSession(Put(b, q, s'), ps, sid, peer) == FindSession(b, ps, sid, peer)
  {
    FindSessionUnchanged(b, Put(b, q, s'), ps, sid, peer);
  }

  /** Over an established session what one side's application sends, less the PPP
      address and control bytes, is delivered to the other side's hook. */
  lemma DataFlows(cfgA: Config, a: Core, p: Ptr, cfgB: Config, b: Core, q: Ptr, pkt: Packet)
    requires Established(cfgA, a, p, cfgB, b, q)
    requires |pkt.body| < 0x1_0000
    ensures
      var sent := FromHookStep(a, cfgA, p, pkt);
      && sent.core == a && sent.err == EOK && |sent.out| == 1 && sent.out[0].SendEther?
      && sent.out[0].pkt.body == (
           if |pkt.body| >= 2 && pkt.body[0] == 0xff && pkt.body[1] == 0x03 then pkt.body[2..] else pkt.body)
      && var got := SessionDataStep(b, sent.out[0].pkt);
         && got.out == [Deliver(q, sent.out[0].pkt.body)]
         && q in got.core.sess && got.core.sess[q].state == Connected
         && Established(cfgA, a, p, cfgB, got.core, q)
  {
    DataSent(cfgA, a, p, pkt);
    DataReceived(cfgB, b, q, FromHookStep(a, cfgA, p, pkt).out[0].pkt);
  }

  lemma {:induction false} FindSessionUnchanged(c: Core, c': Core, ps: seq<Ptr>, sid: uint16, peer: Mac)
    requires forall p :: p in ps ==>
      p in c.sess && p in c'.sess && c'.sess[p].sid == c.sess[p].sid && c'.sess[p].peer == c.sess[p].peer
    ensures FindSession(c', ps, sid, peer) == FindSession(c, ps, sid, peer)
  {
    if ps != [] {
      FindSessionUnchanged(c, c', ps[1..], sid, peer);
    }
  }
}
