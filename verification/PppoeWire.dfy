/** What goes over the wire and when, on bytes: the packets of the handshake, the answers to
    control messages, the choice of an access concentrator, data, and the end of a session.
    Numbers are those of RFC 2516. */
module PppoeWire {
  import opened Basics
  import opened PppoeTags
  import opened PppoeNode
  import opened PppoeInvariants
  import opened PppoeRuns
  import opened PppoeHandshake

  // ----- the tag areas of the four packets

  lemma OneMoreTag(ts: seq<Tag>, e: seq<byte>, t: Tag)
    requires EncodeTags(ts) == e
    ensures EncodeTags(ts + [t]) == e + EncodeTag(t)
  {
    EncodeTagsConcat(ts, [t]);
    assert [t][1..] == [];
  }

  lemma PayloadIs(ts: seq<Tag>, e: seq<byte>)
    requires EncodeTags(ts) == e && |e| <= TAG_LIMIT
    ensures Payload(ts) == e
  {
    FitCountAll(ts, 0);
    assert ts[..|ts|] == ts;
  }

  lemma EncodedTwo(a: Tag, b: Tag)
    ensures EncodeTags([a, b]) == EncodeTag(a) + EncodeTag(b)
  {
    OneMoreTag([], [], a);
    OneMoreTag([a], EncodeTag(a), b);
    assert [] + [a] == [a] && [a] + [b] == [a, b];
  }

  lemma EncodedFour(a: Tag, b: Tag, c: Tag, d: Tag)
    ensures EncodeTags([a, b, c, d]) == EncodeTag(a) + EncodeTag(b) + EncodeTag(c) + EncodeTag(d)
  {
    EncodedTwo(a, b);
    OneMoreTag([a, b], EncodeTag(a) + EncodeTag(b), c);
    OneMoreTag([a, b, c], EncodeTag(a) + EncodeTag(b) + EncodeTag(c), d);
    assert [a, b] + [c] == [a, b, c] && [a, b, c] + [d] == [a, b, c, d];
  }

  lemma UniqBytes(p: Ptr)
    ensures EncodeTag(Uniq(p)) == [0x01, 0x03, 0, 8] + PtrBytes(p)
    ensures EncodeTag(Cookie(p)) == [0x01, 0x04, 0, 8] + PtrBytes(p)
  {
  }

  lemma NameBytes(s: Name)
    ensures EncodeTag(Ac(s)) == [0x01, 0x02, |s| / 256, |s| % 256] + s
    ensures EncodeTag(Srv(s)) == [0x01, 0x01, |s| / 256, |s| % 256] + s
  {
  }

  /** A PADI carries the address of its session and the service it asks for. */
  lemma PadiBytes(p: Ptr, n: Neg)
    requires |n.service| <= 0x100
    ensures Payload(StartTags(p, n)) ==
      ([0x01, 0x03, 0, 8] + PtrBytes(p)) + ([0x01, 0x01, |n.service| / 256, |n.service| % 256] + n.service)
  {
    UniqBytes(p);
    NameBytes(n.service);
    EncodedTwo(Uniq(p), Srv(n.service));
    PayloadIs(StartTags(p, n), EncodeTag(Uniq(p)) + EncodeTag(Srv(n.service)));
  }

  /** A PADO carries the name of the concentrator, the service asked for, and the addresses of
      the two sessions; before these another service, if none was asked for by name. */
  lemma PadoBytes(ac: Name, wanted: Name, extra: Name, p: Ptr, q: Ptr)
    requires |ac| <= 0x100 && |wanted| <= 0x100 && |extra| <= 0x100
    ensures
      var (a, w) := ([0x01, 0x02, |ac| / 256, |ac| % 256] + ac,
                     [0x01, 0x01, |wanted| / 256, |wanted| % 256] + wanted);
      var (x, u, c) := ([0x01, 0x01, |extra| / 256, |extra| % 256] + extra,
                        [0x01, 0x03, 0, 8] + PtrBytes(p), [0x01, 0x04, 0, 8] + PtrBytes(q));
      Payload(OfferedTags(ac, wanted, extra, p, q)) ==
        if |wanted| == 0 && |extra| != 0 then a + w + x + u + c else a + w + u + c
  {
    UniqBytes(p);
    UniqBytes(q);
    NameBytes(ac);
    NameBytes(wanted);
    NameBytes(extra);
    var (a, w, x, u, c) := (Ac(ac), Srv(wanted), Srv(extra), Uniq(p), Cookie(q));
    if wanted == [] && extra != [] {
      EncodedFour(a, w, x, u);
      OneMoreTag([a, w, x, u], EncodeTag(a) + EncodeTag(w) + EncodeTag(x) + EncodeTag(u), c);
      assert [a, w, x, u] + [c] == [a, w, x, u, c];
      PayloadIs([a, w, x, u, c], EncodeTag(a) + EncodeTag(w) + EncodeTag(x) + EncodeTag(u) + EncodeTag(c));
    } else {
      EncodedFour(a, w, u, c);
      PayloadIs([a, w, u, c], EncodeTag(a) + EncodeTag(w) + EncodeTag(u) + EncodeTag(c));
    }
  }

  /** A PADR carries both addresses, the name of the concentrator and the service. */
  lemma PadrBytes(ac: Name, wanted: Name, p: Ptr, q: Ptr)
    requires |ac| <= 0x100 && |wanted| <= 0x100
    ensures Payload(RequestedTags(ac, wanted, p, q)) ==
      ([0x01, 0x03, 0, 8] + PtrBytes(p)) + ([0x01, 0x04, 0, 8] + PtrBytes(q))
      + ([0x01, 0x02, |ac| / 256, |ac| % 256] + ac) + ([0x01, 0x01, |wanted| / 256, |wanted| % 256] + wanted)
  {
    UniqBytes(p);
    UniqBytes(q);
    NameBytes(ac);
    NameBytes(wanted);
    var (a, w, u, c) := (Ac(ac), Srv(wanted), Uniq(p), Cookie(q));
    EncodedFour(u, c, a, w);
    PayloadIs([u, c, a, w], EncodeTag(u) + EncodeTag(c) + EncodeTag(a) + EncodeTag(w));
  }

  /** A PADS carries the name of the concentrator, the service, and both addresses. */
  lemma PadsBytes(ac: Name, wanted: Name, p: Ptr, q: Ptr)
    requires |ac| <= 0x100 && |wanted| <= 0x100
    ensures Payload(ConfirmedTags(ac, wanted, p, q)) ==
      ([0x01, 0x02, |ac| / 256, |ac| % 256] + ac) + ([0x01, 0x01, |wanted| / 256, |wanted| % 256] + wanted)
      + ([0x01, 0x03, 0, 8] + PtrBytes(p)) + ([0x01, 0x04, 0, 8] + PtrBytes(q))
  {
    UniqBytes(p);
    UniqBytes(q);
    NameBytes(ac);
    NameBytes(wanted);
    var (a, w, u, c) := (Ac(ac), Srv(wanted), Uniq(p), Cookie(q));
    EncodedFour(a, w, u, c);
    PayloadIs([a, w, u, c], EncodeTag(a) + EncodeTag(w) + EncodeTag(u) + EncodeTag(c));
  }
}
