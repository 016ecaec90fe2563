/** The tag area of a PPPoE discovery packet: the encoder `make_packet`, the
    parsers `get_tag` and `scan_tags`, and the bounded tag list `insert_tag`. */
module PppoeTags {
  import opened Basics

  // Tag types of RFC 2516, Appendix A.
  const PTT_EOL: uint16 := 0x0000
  const PTT_SRV_NAME: uint16 := 0x0101
  const PTT_AC_NAME: uint16 := 0x0102
  const PTT_HOST_UNIQ: uint16 := 0x0103
  const PTT_AC_COOKIE: uint16 := 0x0104
  const PTT_RELAY_SID: uint16 := 0x0110
  const PTT_GEN_ERR: uint16 := 0x0203

  const NUMTAGS: nat := 20

  // ETHER_MAX_LEN (1518) less the frame check sequence (4) and the
  // Ethernet and PPPoE headers (14 + 6).
  const TAG_LIMIT: nat := 1494

  const TAG_HEADER: nat := 4

  datatype RawTag = RawTag(kind: uint16, data: seq<byte>)

  type Tag = t: RawTag | |t.data| < 0x1_0000 witness RawTag(0, [])

  // ----- the wire format

  function Be16(n: uint16): (s: seq<byte>)
    ensures |s| == 2
  {
    [n / 0x100, n % 0x100]
  }

  function ReadBe16(p: seq<byte>, i: nat): uint16
    requires i + 2 <= |p|
  {
    p[i] as int * 0x100 + p[i + 1] as int
  }

  function EncodeTag(t: Tag): (s: seq<byte>)
    ensures |s| == TAG_HEADER + |t.data|
  {
    Be16(t.kind) + Be16(|t.data|) + t.data
  }

  function EncodeTags(ts: seq<Tag>): seq<byte> {
    if ts == [] then [] else EncodeTag(ts[0]) + EncodeTags(ts[1..])
  }

  /** A complete tag starts at offset `i` of `p`. */
  predicate TagFits(p: seq<byte>, i: nat) {
    i + TAG_HEADER <= |p| && i + TAG_HEADER + ReadBe16(p, i + 2) <= |p|
  }

  function TagAt(p: seq<byte>, i: nat): Tag
    requires TagFits(p, i)
  {
    RawTag(ReadBe16(p, i), p[i + TAG_HEADER..i + TAG_HEADER + ReadBe16(p, i + 2)])
  }

  /** All complete tags from the front, up to the first one that does not fit. */
  function ParseTags(p: seq<byte>): seq<Tag> {
    if TagFits(p, 0) then
      var t := TagAt(p, 0);
      [t] + ParseTags(p[TAG_HEADER + |t.data|..])
    else []
  }

  function FirstTag(ts: seq<Tag>, kind: uint16): (r: Option<Tag>)
    ensures r.Some? ==> r.value in ts && r.value.kind == kind
    ensures r.None? ==> forall t :: t in ts ==> t.kind != kind
  {
    if ts == [] then None
    else if ts[0].kind == kind then Some(ts[0])
    else FirstTag(ts[1..], kind)
  }

  // ----- round trips

  lemma {:induction false} EncodeTagThenParse(t: Tag, rest: seq<byte>)
    ensures ParseTags(EncodeTag(t) + rest) == [t] + ParseTags(rest)
  {
    var p := EncodeTag(t) + rest;
    assert p[0] == t.kind / 0x100 && p[1] == t.kind % 0x100;
    assert p[2] == |t.data| / 0x100 && p[3] == |t.data| % 0x100;
    assert p[TAG_HEADER..TAG_HEADER + |t.data|] == t.data;
    assert p[TAG_HEADER + |t.data|..] == rest;
  }

  /** Parsing an encoded tag list gives the list back. */
  lemma {:induction false} ParseInvertsEncode(ts: seq<Tag>)
    ensures ParseTags(EncodeTags(ts)) == ts
  {
    if ts != [] {
      EncodeTagThenParse(ts[0], EncodeTags(ts[1..]));
      ParseInvertsEncode(ts[1..]);
    }
  }

  lemma EncodeTagAt(p: seq<byte>)
    requires TagFits(p, 0)
    ensures EncodeTag(TagAt(p, 0)) == p[..TAG_HEADER + ReadBe16(p, 2)]
  {
    var t := TagAt(p, 0);
    assert Be16(t.kind) == p[..2] && Be16(|t.data|) == p[2..4];
  }

  /** The same tags, by offset into the whole area. */
  function ParseFrom(p: seq<byte>, i: nat): seq<Tag>
    decreases |p| - i
  {
    if TagFits(p, i) then [TagAt(p, i)] + ParseFrom(p, i + TAG_HEADER + ReadBe16(p, i + 2)) else []
  }

  lemma {:induction false} ParseFromIsParse(p: seq<byte>, i: nat)
    requires i <= |p|
    ensures ParseFrom(p, i) == ParseTags(p[i..])
    decreases |p| - i
  {
    if TagFits(p, i) {
      ParseStep(p, i);
      ParseFromIsParse(p, i + TAG_HEADER + ReadBe16(p, i + 2));
    } else {
      SuffixFits(p, i);
    }
  }

  lemma SuffixFits(p: seq<byte>, i: nat)
    requires i <= |p|
    ensures TagFits(p[i..], 0) == TagFits(p, i)
  {
    if i + TAG_HEADER <= |p| {
      assert ReadBe16(p[i..], 2) == ReadBe16(p, i + 2);
    }
  }

  /** Parsing goes on behind each complete tag. */
  lemma ParseStep(p: seq<byte>, i: nat)
    requires TagFits(p, i)
    ensures ParseTags(p[i..]) == [TagAt(p, i)] + ParseTags(p[i + TAG_HEADER + ReadBe16(p, i + 2)..])
  {
    var n := TAG_HEADER + ReadBe16(p, i + 2);
    assert TagAt(p[i..], 0) == TagAt(p, i);
    assert p[i..][n..] == p[i + n..];
  }

  /** On arbitrary bytes the parsed tags are, byte for byte, a prefix of the
      input, and no complete tag starts where they end. */
  lemma {:induction false} ParseIsMaximalPrefix(p: seq<byte>)
    ensures EncodeTags(ParseTags(p)) <= p
    ensures !TagFits(p[|EncodeTags(ParseTags(p))|..], 0)
    decreases |p|
  {
    if TagFits(p, 0) {
      var t := TagAt(p, 0);
      var n := TAG_HEADER + |t.data|;
      ParseIsMaximalPrefix(p[n..]);
      EncodeTagAt(p);
      var rest := ParseTags(p[n..]);
      var m := |EncodeTags(rest)|;
      assert ParseTags(p) == [t] + rest && ([t] + rest)[1..] == rest;
      assert EncodeTags([t] + rest) == p[..n] + EncodeTags(rest);
      assert p[n..][m..] == p[n + m..];
    } else {
      assert p[0..] == p;
    }
  }

  lemma {:induction false} EncodeTagsConcat(a: seq<Tag>, b: seq<Tag>)
    ensures EncodeTags(a + b) == EncodeTags(a) + EncodeTags(b)
  {
    if a == [] {
      assert a + b == b;
    } else {
      assert (a + b)[1..] == a[1..] + b;
      EncodeTagsConcat(a[1..], b);
    }
  }

  lemma EncodeTagsSnoc(ts: seq<Tag>, k: nat)
    requires k < |ts|
    ensures EncodeTags(ts[..k + 1]) == EncodeTags(ts[..k]) + EncodeTag(ts[k])
  {
    assert ts[..k + 1] == ts[..k] + [ts[k]];
    EncodeTagsConcat(ts[..k], [ts[k]]);
  }

  // ----- the bytes themselves

  /** Where tag `k` starts: each tag before it takes four bytes and its data. */
  function TagOffset(ts: seq<Tag>, k: nat): nat
    requires k <= |ts|
  {
    if k == 0 then 0 else TagOffset(ts, k - 1) + 4 + |ts[k - 1].data|
  }

  lemma {:induction false} EncodedSize(ts: seq<Tag>, k: nat)
    requires k <= |ts|
    ensures |EncodeTags(ts[..k])| == TagOffset(ts, k)
  {
    if k != 0 {
      EncodedSize(ts, k - 1);
      EncodeTagsSnoc(ts, k - 1);
    }
  }

  lemma EncodedTagAt(ts: seq<Tag>, k: nat, p: seq<byte>, o: nat)
    requires k < |ts| && p == EncodeTags(ts) && o == TagOffset(ts, k)
    ensures var n := 4 + |ts[k].data|; o + n <= |p| && p[o..o + n] == EncodeTag(ts[k])
  {
    EncodedSize(ts, k);
    EncodeTagsSnoc(ts, k);
    EncodeTagsConcat(ts[..k + 1], ts[k + 1..]);
    assert ts == ts[..k + 1] + ts[k + 1..];
  }

  lemma EncodedTagIs(t: Tag)
    ensures
      var e := EncodeTag(t);
      && e[0] as int * 256 + e[1] as int == t.kind && e[2] as int * 256 + e[3] as int == |t.data|
      && e[4..] == t.data
  {
  }

  /** On the wire, in network byte order: two bytes type, two bytes length, and the data. */
  lemma WireFormat(ts: seq<Tag>, k: nat, p: seq<byte>, o: nat)
    requires k < |ts| && p == EncodeTags(ts) && o == TagOffset(ts, k)
    ensures
      var d := ts[k].data;
      && o + 4 + |d| <= |p|
      && p[o] as int * 256 + p[o + 1] as int == ts[k].kind && p[o + 2] as int * 256 + p[o + 3] as int == |d|
      && p[o + 4..o + 4 + |d|] == d
  {
    EncodedTagAt(ts, k, p, o);
    TagBytes(p, o, ts[k]);
  }

  lemma TagBytes(p: seq<byte>, o: nat, t: Tag)
    requires o + 4 + |t.data| <= |p| && p[o..o + 4 + |t.data|] == EncodeTag(t)
    ensures p[o] as int * 256 + p[o + 1] as int == t.kind && p[o + 2] as int * 256 + p[o + 3] as int == |t.data|
    ensures p[o + 4..o + 4 + |t.data|] == t.data
  {
    EncodedTagIs(t);
    PartOf(p, o, EncodeTag(t));
  }

  lemma PartOf(p: seq<byte>, o: nat, e: seq<byte>)
    requires |e| >= 4 && o + |e| <= |p| && p[o..o + |e|] == e
    ensures p[o] == e[0] && p[o + 1] == e[1] && p[o + 2] == e[2] && p[o + 3] == e[3]
    ensures p[o + 4..o + |e|] == e[4..]
  {
    var q := p[o..o + |e|];
    assert q[0] == p[o] && q[1] == p[o + 1] && q[2] == p[o + 2] && q[3] == p[o + 3];
    assert q[4..] == p[o + 4..o + |e|];
  }

  /** The same of the tags that are parsed from arbitrary bytes; behind the last of them no
      complete tag starts. */
  lemma ParsedFormat(p: seq<byte>, ts: seq<Tag>, k: nat, o: nat)
    requires ts == ParseTags(p) && k < |ts| && o == TagOffset(ts, k)
    ensures
      var d := ts[k].data;
      && o + 4 + |d| <= |p|
      && p[o] as int * 256 + p[o + 1] as int == ts[k].kind && p[o + 2] as int * 256 + p[o + 3] as int == |d|
      && p[o + 4..o + 4 + |d|] == d
  {
    var q := ParsedPrefix(p, ts);
    PrefixTag(q, ts, k, p, o);
    TagBytes(p, o, ts[k]);
  }

  lemma PrefixTag(q: seq<byte>, ts: seq<Tag>, k: nat, p: seq<byte>, o: nat)
    requires q == EncodeTags(ts) && q <= p && k < |ts| && o == TagOffset(ts, k)
    ensures var n := 4 + |ts[k].data|; o + n <= |p| && p[o..o + n] == EncodeTag(ts[k])
  {
    EncodedTagAt(ts, k, q, o);
    PartOfPrefix(q, p, o, 4 + |ts[k].data|);
  }

  lemma ParsedPrefix(p: seq<byte>, ts: seq<Tag>) returns (q: seq<byte>)
    requires ts == ParseTags(p)
    ensures q == EncodeTags(ts) && q <= p
  {
    q := EncodeTags(ts);
    ParseIsMaximalPrefix(p);
  }

  lemma PartOfPrefix(q: seq<byte>, p: seq<byte>, o: nat, n: nat)
    requires q <= p && o + n <= |q|
    ensures p[o..o + n] == q[o..o + n]
  {
  }

  lemma ParsedEnd(p: seq<byte>)
    ensures
      var o := TagOffset(ParseTags(p), |ParseTags(p)|);
      o <= |p| && (o + 4 > |p| || o + 4 + (p[o + 2] as int * 256 + p[o + 3] as int) > |p|)
  {
    var ts := ParseTags(p);
    ParseIsMaximalPrefix(p);
    EncodedSize(ts, |ts|);
    assert ts[..|ts|] == ts;
    SuffixFits(p, |EncodeTags(ts)|);
  }

  // ----- how far a walk over the tags goes

  /** What was received, `p`, of an area of declared length `length`. */
  function Received(p: seq<byte>, length: nat): seq<byte> {
    if length <= |p| then p[..length] else p
  }

  /** The walk of `get_tag` and `scan_tags` from offset `i`, over an area of which `p` was
      received: each tag header it looks at, and each tag it goes past or stops at, ends within
      the received bytes.  It stops at a tag of type `kind`. */
  predicate SearchInside(p: seq<byte>, length: nat, i: nat, kind: uint16)
    decreases length - i
  {
    i + TAG_HEADER <= length ==>
      && i + TAG_HEADER <= |p|
      && var next := i + TAG_HEADER + ReadBe16(p, i + 2);
         next <= length ==> next <= |p| && (ReadBe16(p, i) == kind || SearchInside(p, length, next, kind))
  }

  /** Behind the last complete tag, at `e`, the walk ends without leaving the received bytes: no
      header fits into the declared length, or the one received there tells of more than that. */
  predicate EndsInside(p: seq<byte>, length: nat, e: nat) {
    || e + TAG_HEADER > length
    || (e + TAG_HEADER <= |p| && e + TAG_HEADER + ReadBe16(p, e + 2) > length)
  }

  /** The offset behind the complete tags from `i` on. */
  function TagsEnd(p: seq<byte>, i: nat): nat
    decreases |p| - i
  {
    if TagFits(p, i) then TagsEnd(p, i + TAG_HEADER + ReadBe16(p, i + 2)) else i
  }

  lemma {:induction false} TagsEndIs(p: seq<byte>, i: nat)
    requires i <= |p|
    ensures TagsEnd(p, i) == i + |EncodeTags(ParseTags(p[i..]))|
    decreases |p| - i
  {
    if TagFits(p, i) {
      ParseStep(p, i);
      TagsEndIs(p, i + TAG_HEADER + ReadBe16(p, i + 2));
      EncodeTagsConcat([TagAt(p, i)], ParseTags(p[i + TAG_HEADER + ReadBe16(p, i + 2)..]));
    } else {
      SuffixFits(p, i);
    }
  }

  lemma {:induction false} SearchFromInsideIff(p: seq<byte>, length: nat, i: nat, kind: uint16)
    ensures SearchInside(p, length, i, kind) <==>
      length <= |p| || FirstTag(ParseFrom(p, i), kind).Some? || EndsInside(p, length, TagsEnd(p, i))
    decreases length - i
  {
    if i + TAG_HEADER <= length && i + TAG_HEADER <= |p| {
      var next := i + TAG_HEADER + ReadBe16(p, i + 2);
      FirstTagFrom(p, i, kind);
      if next <= length {
        SearchFromInsideIff(p, length, next, kind);
      }
    }
  }

  /** A search stays within the received bytes if and only if the declared length does, or a
      complete received tag has the wanted type, or the walk ends right behind these tags. */
  lemma SearchInsideIff(p: seq<byte>, length: nat, kind: uint16)
    ensures SearchInside(p, length, 0, kind) <==>
      length <= |p| || FirstTag(ParseTags(p), kind).Some? || EndsInside(p, length, |EncodeTags(ParseTags(p))|)
  {
    assert p[0..] == p;
    SearchFromInsideIff(p, length, 0, kind);
    ParseFromIsParse(p, 0);
    TagsEndIs(p, 0);
  }

  /** Without any received tags a search is inside only when no header fits. */
  lemma NothingReceived(length: nat, kind: uint16)
    ensures SearchInside([], length, 0, kind) <==> length < TAG_HEADER
  {
  }

  // ----- get_tag

  /** What the rest of the search will find, before and after one tag. */
  lemma FirstTagFrom(p: seq<byte>, i: nat, kind: uint16)
    ensures FirstTag(ParseFrom(p, i), kind) ==
      if !TagFits(p, i) then None
      else if ReadBe16(p, i) == kind then Some(TagAt(p, i))
      else FirstTag(ParseFrom(p, i + TAG_HEADER + ReadBe16(p, i + 2)), kind)
  {
    if TagFits(p, i) {
      var rest := ParseFrom(p, i + TAG_HEADER + ReadBe16(p, i + 2));
      assert ([TagAt(p, i)] + rest)[1..] == rest;
    }
  }

  /** One turn of a walk that stays inside agrees with the tags of the received bytes. */
  lemma WalkTurn(buf: seq<byte>, length: nat, i: nat, kind: uint16)
    requires i + TAG_HEADER <= length && SearchInside(buf, length, i, kind)
    ensures var p := Received(buf, length);
      && i + TAG_HEADER <= |p| && ReadBe16(p, i) == ReadBe16(buf, i) && ReadBe16(p, i + 2) == ReadBe16(buf, i + 2)
      && (TagFits(p, i) <==> i + TAG_HEADER + ReadBe16(buf, i + 2) <= length)
      && (TagFits(p, i) ==> TagFits(buf, i) && TagAt(p, i) == TagAt(buf, i))
  {
  }

  /** The tag at an offset, byte for byte. */
  lemma TagAtBytes(p: seq<byte>, i: nat)
    ensures TagFits(p, i) <==> i + 4 <= |p| && i + 4 + (p[i + 2] as int * 256 + p[i + 3] as int) <= |p|
    ensures TagFits(p, i) ==>
      var n := p[i + 2] as int * 256 + p[i + 3] as int;
      TagAt(p, i) == RawTag(p[i] as int * 256 + p[i + 1] as int, p[i + 4..i + 4 + n])
  {
  }

  /** `get_tag`: the offset of the first tag of type `kind` within the declared length, or -1.
      Only received bytes are read. */
  method GetTag(buf: seq<byte>, length: nat, kind: uint16) returns (pt: int)
    requires SearchInside(buf, length, 0, kind)
    ensures pt < 0 ==> FirstTag(ParseTags(Received(buf, length)), kind) == None
    ensures pt >= 0 ==>
      && TagFits(buf, pt)
      && FirstTag(ParseTags(Received(buf, length)), kind) == Some(TagAt(buf, pt))
      && buf[pt] as int * 256 + buf[pt + 1] as int == kind
      && var n := buf[pt + 2] as int * 256 + buf[pt + 3] as int;
         pt + 4 + n <= length && pt + 4 + n <= |buf| && TagAt(buf, pt).data == buf[pt + 4..pt + 4 + n]
  {
    ghost var p := Received(buf, length);
    ghost var answer := FirstTag(ParseTags(p), kind);
    pt := 0;
    assert p[0..] == p;
    ParseFromIsParse(p, 0);
    while pt + TAG_HEADER <= length
      invariant 0 <= pt <= length
      invariant SearchInside(buf, length, pt, kind)
      invariant answer == FirstTag(ParseFrom(p, pt), kind)
      decreases length - pt
    {
      WalkTurn(buf, length, pt, kind);
      FirstTagFrom(p, pt, kind);
      var ptn := pt + TAG_HEADER + ReadBe16(buf, pt + 2);
      if ptn > length {
        return -1;
      }
      if ReadBe16(buf, pt) == kind {
        TagAtBytes(buf, pt);
        return;
      }
      pt := ptn;
    }
    FirstTagFrom(p, pt, kind);
    return -1;
  }

  // ----- insert_tag and scan_tags

  /** `insert_tag`: a full list drops the tag. */
  function InsertTag(ts: seq<Tag>, t: Tag): seq<Tag> {
    if |ts| < NUMTAGS then ts + [t] else ts
  }

  function InsertAll(ts: seq<Tag>, more: seq<Tag>): seq<Tag>
    decreases more
  {
    if more == [] then ts else InsertAll(InsertTag(ts, more[0]), more[1..])
  }

  /** Inserting a list appends as much of it as the 20 slots allow. */
  lemma {:induction false} InsertAllAppends(ts: seq<Tag>, more: seq<Tag>)
    requires |ts| <= NUMTAGS
    ensures InsertAll(ts, more) ==
      ts + more[..if |more| <= NUMTAGS - |ts| then |more| else NUMTAGS - |ts|]
    decreases more
  {
    if more != [] {
      var now := InsertTag(ts, more[0]);
      InsertAllAppends(now, more[1..]);
      if |ts| < NUMTAGS {
        var room := if |more| <= NUMTAGS - |ts| then |more| else NUMTAGS - |ts|;
        assert more[..room][0] == more[0] && more[..room][1..] == more[1..][..room - 1];
        assert more[..room] == [more[0]] + more[1..][..room - 1];
        assert now + more[1..][..room - 1] == ts + more[..room];
      } else {
        assert now == ts && more[1..][..0] == more[..0];
      }
    }
  }

  function InsertFound(ts: seq<Tag>, t: Option<Tag>): seq<Tag> {
    if t.Some? then InsertTag(ts, t.value) else ts
  }

  /** The relay tags that an answer has to repeat: those before the end-of-list tag. */
  function RelayTags(ts: seq<Tag>): seq<Tag> {
    if ts == [] || ts[0].kind == PTT_EOL then []
    else if ts[0].kind == PTT_RELAY_SID then [ts[0]] + RelayTags(ts[1..])
    else RelayTags(ts[1..])
  }

  /** Without an end-of-list tag in front, the relay tags of two lists are those of each; a
      single tag is one exactly when its type is 0x0110; and the list ends at type 0. */
  lemma {:induction false} RelayTagsConcat(a: seq<Tag>, b: seq<Tag>)
    requires forall t :: t in a ==> t.kind != 0
    ensures RelayTags(a + b) == RelayTags(a) + RelayTags(b)
  {
    if a == [] {
      assert a + b == b;
    } else {
      assert a[0] in a && (a + b)[1..] == a[1..] + b;
      RelayTagsConcat(a[1..], b);
    }
  }

  lemma RelayTagsOfOne(t: Tag, rest: seq<Tag>)
    ensures RelayTags([t]) == if t.kind == 0x0110 then [t] else []
    ensures t.kind == 0 ==> RelayTags([t] + rest) == []
  {
    assert [t][1..] == [];
  }

  lemma RelayTagsFrom(p: seq<byte>, i: nat)
    ensures RelayTags(ParseFrom(p, i)) ==
      if !TagFits(p, i) || ReadBe16(p, i) == PTT_EOL then []
      else
        var rest := RelayTags(ParseFrom(p, i + TAG_HEADER + ReadBe16(p, i + 2)));
        if ReadBe16(p, i) == PTT_RELAY_SID then [TagAt(p, i)] + rest else rest
  {
    if TagFits(p, i) {
      var rest := ParseFrom(p, i + TAG_HEADER + ReadBe16(p, i + 2));
      assert ([TagAt(p, i)] + rest)[1..] == rest;
    }
  }

  lemma InsertAllStep(ts: seq<Tag>, t: Tag, more: seq<Tag>)
    ensures InsertAll(ts, [t] + more) == InsertAll(InsertTag(ts, t), more)
  {
    assert ([t] + more)[1..] == more;
  }

  /** What one turn of the scan does to the answer. */
  lemma ScanStep(out: seq<Tag>, p: seq<byte>, i: nat)
    ensures InsertAll(out, RelayTags(ParseFrom(p, i))) ==
      if !TagFits(p, i) || ReadBe16(p, i) == PTT_EOL then out
      else
        InsertAll(if ReadBe16(p, i) == PTT_RELAY_SID then InsertTag(out, TagAt(p, i)) else out,
          RelayTags(ParseFrom(p, i + TAG_HEADER + ReadBe16(p, i + 2))))
  {
    RelayTagsFrom(p, i);
    if TagFits(p, i) && ReadBe16(p, i) == PTT_RELAY_SID {
      InsertAllStep(out, TagAt(p, i), RelayTags(ParseFrom(p, i + TAG_HEADER + ReadBe16(p, i + 2))));
    }
  }

  /** `answer` is what the rest of the scan, from `i`, still makes of `out`; and it stays inside. */
  ghost predicate Leads(out: seq<Tag>, buf: seq<byte>, length: nat, i: nat, answer: seq<Tag>) {
    && SearchInside(buf, length, i, PTT_EOL)
    && answer == InsertAll(out, RelayTags(ParseFrom(Received(buf, length), i)))
  }

  /** The same as a function value, which keeps its meaning out of the proof of the loop. */
  type Progress = (seq<Tag>, nat) -> bool

  ghost predicate Tells(f: Progress, buf: seq<byte>, length: nat, answer: seq<Tag>) {
    forall out, i {:trigger Leads(out, buf, length, i, answer)} :: f(out, i) <==> Leads(out, buf, length, i, answer)
  }

  lemma ScanBegins(tags: seq<Tag>, buf: seq<byte>, length: nat) returns (f: Progress, answer: seq<Tag>)
    requires SearchInside(buf, length, 0, PTT_EOL)
    ensures answer == InsertAll(tags, RelayTags(ParseTags(Received(buf, length))))
    ensures Tells(f, buf, length, answer) && f(tags, 0)
  {
    var p := Received(buf, length);
    ParseFromIsParse(p, 0);
    assert p[0..] == p;
    answer := InsertAll(tags, RelayTags(ParseTags(p)));
    f := (out: seq<Tag>, i: nat) => Leads(out, buf, length, i, answer);
    assert Leads(tags, buf, length, 0, answer);
  }

  lemma ScanTurn(f: Progress, out: seq<Tag>, buf: seq<byte>, length: nat, i: nat, answer: seq<Tag>)
    requires Tells(f, buf, length, answer) && f(out, i) && i + TAG_HEADER <= length
    ensures i + TAG_HEADER <= |buf|
    ensures var next := i + TAG_HEADER + ReadBe16(buf, i + 2);
      if next > length || ReadBe16(buf, i) == PTT_EOL then answer == out
      else
        && TagFits(buf, i)
        && f(if ReadBe16(buf, i) == PTT_RELAY_SID then InsertTag(out, TagAt(buf, i)) else out, next)
  {
    assert Leads(out, buf, length, i, answer);
    WalkTurn(buf, length, i, PTT_EOL);
    ScanStep(out, Received(buf, length), i);
    var next := i + TAG_HEADER + ReadBe16(buf, i + 2);
    if next <= length && ReadBe16(buf, i) != PTT_EOL {
      assert Leads(if ReadBe16(buf, i) == PTT_RELAY_SID then InsertTag(out, TagAt(buf, i)) else out,
                   buf, length, next, answer);
    }
  }

  lemma ScanEnds(f: Progress, out: seq<Tag>, buf: seq<byte>, length: nat, i: nat, answer: seq<Tag>)
    requires Tells(f, buf, length, answer) && f(out, i) && i + TAG_HEADER > length
    ensures answer == out
  {
    assert Leads(out, buf, length, i, answer);
    ScanStep(out, Received(buf, length), i);
  }

  /** `scan_tags`: copy the relay tags of an incoming packet to the session's tags.  Only
      received bytes are read. */
  method ScanTags(tags: seq<Tag>, buf: seq<byte>, length: nat) returns (out: seq<Tag>)
    requires SearchInside(buf, length, 0, PTT_EOL)
    ensures out == InsertAll(tags, RelayTags(ParseTags(Received(buf, length))))
  {
    ghost var f, answer := ScanBegins(tags, buf, length);
    var pt := 0;
    out := tags;
    while pt + TAG_HEADER <= length
      invariant 0 <= pt <= length && f(out, pt)
      decreases length - pt
    {
      ScanTurn(f, out, buf, length, pt, answer);
      var ptn := pt + TAG_HEADER + ReadBe16(buf, pt + 2);
      if ptn > length {
        return;
      }
      var kind := ReadBe16(buf, pt);
      if kind == PTT_RELAY_SID {
        out := InsertTag(out, TagAt(buf, pt));
      } else if kind == PTT_EOL {
        return;
      }
      pt := ptn;
    }
    ScanEnds(f, out, buf, length, pt, answer);
  }

  // ----- make_packet

  /** How many tags of `ts`, after `used` bytes, fit into the frame. */
  function FitCount(ts: seq<Tag>, used: nat): (k: nat)
    ensures k <= |ts|
  {
    if ts == [] || used + |EncodeTag(ts[0])| > TAG_LIMIT then 0
    else 1 + FitCount(ts[1..], used + |EncodeTag(ts[0])|)
  }

  /** `FitCount` is the longest prefix that fits: it fits, and one more tag would not. */
  lemma {:induction false} FitCountIsLongest(ts: seq<Tag>, used: nat)
    requires used <= TAG_LIMIT
    ensures used + |EncodeTags(ts[..FitCount(ts, used)])| <= TAG_LIMIT
    ensures forall k :: FitCount(ts, used) < k <= |ts| ==> used + |EncodeTags(ts[..k])| > TAG_LIMIT
    decreases ts
  {
    if ts != [] {
      var n := |EncodeTag(ts[0])|;
      if used + n <= TAG_LIMIT {
        FitCountIsLongest(ts[1..], used + n);
      }
      forall k | 0 < k <= |ts|
        ensures |EncodeTags(ts[..k])| == n + |EncodeTags(ts[1..][..k - 1])|
      {
        assert ts[..k][1..] == ts[1..][..k - 1];
      }
    }
  }

  function Payload(ts: seq<Tag>): (p: seq<byte>)
    ensures |p| <= TAG_LIMIT
  {
    FitCountIsLongest(ts, 0);
    EncodeTags(ts[..FitCount(ts, 0)])
  }

  lemma {:induction false} FitCountStep(ts: seq<Tag>, k: nat)
    requires k < |ts| && |EncodeTags(ts[..k])| <= TAG_LIMIT
    ensures |EncodeTags(ts[..k])| + |EncodeTag(ts[k])| > TAG_LIMIT ==> FitCount(ts, 0) == k
    ensures |EncodeTags(ts[..k])| + |EncodeTag(ts[k])| <= TAG_LIMIT ==> FitCount(ts, 0) > k
  {
    FitCountIsLongest(ts, 0);
    EncodeTagsSnoc(ts, k);
    var f := FitCount(ts, 0);
    if f > k {
      assert ts[..f] == ts[..k + 1] + ts[k + 1..f];
      EncodeTagsConcat(ts[..k + 1], ts[k + 1..f]);
    }
  }

  method WriteTag(pkt: array<byte>, at: nat, t: Tag)
    requires at + |EncodeTag(t)| <= pkt.Length
    modifies pkt
    ensures pkt[..] == old(pkt[..at]) + EncodeTag(t) + old(pkt[at + |EncodeTag(t)|..])
  {
    var bytes := EncodeTag(t);
    forall i | 0 <= i < |bytes| {
      pkt[at + i] := bytes[i];
    }
    assert pkt[at..at + |bytes|] == bytes;
  }

  /** `make_packet`: write the tags into the packet buffer until one does not fit.
      No byte beyond the reported length is written, and the number of tags kept
      is the longest prefix that fits. */
  method MakePacket(tags: seq<Tag>, pkt: array<byte>) returns (numtags: nat, length: nat)
    requires |tags| <= NUMTAGS
    requires pkt.Length >= TAG_LIMIT
    modifies pkt
    ensures numtags == FitCount(tags, 0)
    ensures length == |Payload(tags)| <= TAG_LIMIT
    ensures pkt[..length] == Payload(tags)
    ensures pkt[length..] == old(pkt[length..])
  {
    length := 0;
    numtags := 0;
    while numtags < |tags|
      invariant numtags <= |tags|
      invariant numtags <= FitCount(tags, 0)
      invariant length == |EncodeTags(tags[..numtags])| <= TAG_LIMIT
      invariant pkt[..length] == EncodeTags(tags[..numtags])
      invariant pkt[length..] == old(pkt[..])[length..]
    {
      var t := tags[numtags];
      var tlen := TAG_HEADER + |t.data|;
      FitCountStep(tags, numtags);
      if length + tlen > TAG_LIMIT {
        break;
      }
      EncodeTagsSnoc(tags, numtags);
      ghost var before := pkt[..];
      WriteTag(pkt, length, t);
      assert pkt[..length + tlen] == pkt[..][..length + tlen] == before[..length] + EncodeTag(t);
      assert pkt[length + tlen..] == pkt[..][length + tlen..] == before[length + tlen..];
      assert before[length + tlen..] == before[length..][tlen..];
      length := length + tlen;
      numtags := numtags + 1;
    }
  }

  /** The tags that a payload keeps, byte for byte in network byte order. */
  lemma PayloadBytes(tags: seq<Tag>, kept: seq<Tag>, k: nat, p: seq<byte>, o: nat)
    requires kept == tags[..FitCount(tags, 0)] && k < |kept| && p == Payload(tags) && o == TagOffset(kept, k)
    ensures
      var d := kept[k].data;
      && o + 4 + |d| <= |p|
      && p[o] as int * 256 + p[o + 1] as int == kept[k].kind && p[o + 2] as int * 256 + p[o + 3] as int == |d|
      && p[o + 4..o + 4 + |d|] == d
  {
    WireFormat(kept, k, p, o);
  }

  /** How many tags a payload keeps: as many as fit into 1494 bytes. */
  lemma PayloadCount(tags: seq<Tag>)
    ensures TagOffset(tags, FitCount(tags, 0)) == |Payload(tags)| <= 1494
    ensures FitCount(tags, 0) < |tags| ==> TagOffset(tags, FitCount(tags, 0) + 1) > 1494
  {
    var f := FitCount(tags, 0);
    EncodedSize(tags, f);
    if f < |tags| {
      NextExceeds(tags, f);
      EncodedSize(tags, f + 1);
    }
  }

  lemma NextExceeds(tags: seq<Tag>, f: nat)
    requires f == FitCount(tags, 0) < |tags|
    ensures |EncodeTags(tags[..f + 1])| > TAG_LIMIT
  {
    FitCountIsLongest(tags, 0);
  }

  /** What `get_tag` finds in a packet built by `make_packet` is the first
      inserted tag of that type among those that fitted. */
  lemma {:induction false} PacketRoundTrip(tags: seq<Tag>, kind: uint16)
    ensures ParseTags(Payload(tags)) == tags[..FitCount(tags, 0)]
    ensures FirstTag(ParseTags(Payload(tags)), kind) == FirstTag(tags[..FitCount(tags, 0)], kind)
  {
    ParseInvertsEncode(tags[..FitCount(tags, 0)]);
  }
}
