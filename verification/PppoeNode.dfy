/** The PPPoE node: its state, the events it handles and, as pure functions, what
    each handler does to the state.  One event is one atomic step.  The version
    with a `listeners` list is `StepAfter`; the one that scans all hooks is
    `StepBefore`. */
module PppoeNode {
  import opened Basics
  import opened PppoeTags

  // A session pointer; its eight bytes travel in Host-Uniq and AC-Cookie tags.
  const PTR_SIZE: nat := 8
  type Ptr = p: nat | p < 0x1_0000_0000_0000_0000
  const NULL: Ptr := 0

  function Digits(n: nat, k: nat): (s: seq<byte>)
    ensures |s| == k
  {
    if k == 0 then [] else [n % 0x100] + Digits(n / 0x100, k - 1)
  }

  function Undigits(s: seq<byte>): nat {
    if s == [] then 0 else s[0] as int + 0x100 * Undigits(s[1..])
  }

  function Pow256(k: nat): (n: nat)
    ensures n > 0
  {
    if k == 0 then 1 else 0x100 * Pow256(k - 1)
  }

  /** Bytes and value of a pointer determine each other. */
  lemma {:induction false} UndigitsDigits(n: nat, k: nat)
    requires n < Pow256(k)
    ensures Undigits(Digits(n, k)) == n
  {
    if k != 0 {
      UndigitsDigits(n / 0x100, k - 1);
    }
  }

  lemma {:induction false} UndigitsBound(s: seq<byte>)
    ensures Undigits(s) < Pow256(|s|)
  {
    if s != [] {
      UndigitsBound(s[1..]);
    }
  }

  lemma PtrRange()
    ensures Pow256(PTR_SIZE) == 0x1_0000_0000_0000_0000
  {
    assert Pow256(4) == 0x1_0000_0000;
  }

  function PtrBytes(p: Ptr): (s: seq<byte>)
    ensures |s| == PTR_SIZE && PtrOf(s) == p
  {
    PtrRange();
    UndigitsDigits(p, PTR_SIZE);
    Digits(p, PTR_SIZE)
  }

  /** `union uniq`: tag bytes reinterpreted as a pointer. */
  function PtrOf(s: seq<byte>): Ptr
    requires |s| == PTR_SIZE
  {
    PtrRange();
    UndigitsBound(s);
    Undigits(s)
  }

  type Mac = m: seq<byte> | |m| == 6 witness [0, 0, 0, 0, 0, 0]
  const BROADCAST: Mac := [0xff, 0xff, 0xff, 0xff, 0xff, 0xff]
  const ZERO_MAC: Mac := [0, 0, 0, 0, 0, 0]

  type Name = s: seq<byte> | |s| < 0x1_0000

  datatype SState =
    SNone | Listening | SInit | Primed | SOffer | SReq | NewConnected | Connected | Dead

  /** A history variable: which control message opened the session.  No handler reads it. */
  datatype Role = Unused | Client | Server | Listener

  /** The negotiation block `sess_neg`; `pending` is the delay of its armed callout,
      and `peer`, `code`, `sid`, `payload` are the last packet it sent. */
  datatype Neg = Neg(
    timeout: nat, pending: Option<nat>,
    peer: Mac, code: byte, sid: uint16, payload: seq<byte>,
    service: Name, acName: Name)

  /** `sess_con`; `peer` and `hdrSid` are the fields of `pkt_hdr` used when connected. */
  datatype Session = Session(
    state: SState, sid: uint16, neg: Option<Neg>, peer: Mac, hdrSid: uint16, role: Role)

  /** A netgraph hook; the Ethernet and debug hooks have no session. */
  datatype Hook = Hook(name: string, priv: Option<Ptr>)

  /** What both versions share.  `removing` are the hooks whose removal has been
      requested from the framework and not yet carried out. */
  datatype Core = Core(
    hooks: seq<Hook>, sess: map<Ptr, Session>, buckets: seq<seq<Ptr>>,
    nextSid: uint16, removing: set<Ptr>)

  datatype Node = Node(core: Core, listeners: seq<Ptr>)

  /** The compile-time constants of ng_pppoe.h and the node's own address. */
  datatype RawConfig = RawConfig(initial: nat, limit: nat, offer: nat, nameMax: nat, mac: Mac)
  type Config = c: RawConfig | 0 < 2 * c.initial <= c.limit && c.nameMax <= 0x100
    witness RawConfig(1, 2, 1, 0, ZERO_MAC)

  const PADI: byte := 0x09
  const PADO: byte := 0x07
  const PADR: byte := 0x19
  const PADS: byte := 0x65
  const PADT: byte := 0xa7

  datatype Frame = Discovery | SessionData | Foreign

  datatype Packet = Packet(
    frame: Frame, dst: Mac, src: Mac, code: byte, sid: uint16, length: uint16, body: seq<byte>)

  datatype InitMsg = InitMsg(headerFits: bool, hook: string, payload: seq<byte>, dataLen: nat)

  datatype Event =
    | NewHook(name: string, at: nat, ptr: Ptr)
    | ConnectMsg(msg: InitMsg)
    | ListenMsg(msg: InitMsg)
    | OfferMsg(msg: InitMsg)
    | ServiceMsg(msg: InitMsg)
    | FromHook(ptr: Ptr, pkt: Packet)
    | FromEther(pkt: Packet)
    | Disconnect(ptr: Ptr)
    | Timeout(ptr: Ptr)
    | OtherNodeTookSid(next: uint16)

  datatype Errno =
    EOK | EMSGSIZE | ENOENT | EINVAL | EEXIST | EISCONN | ENETUNREACH | EPFNOSUPPORT

  datatype Action =
    | SendEther(pkt: Packet)
    | ForwardToHook(ptr: Ptr, pkt: Packet)
    | Deliver(ptr: Ptr, data: seq<byte>)
    | RemoveHook(ptr: Ptr)

  datatype Result = Result(core: Core, err: Errno, out: seq<Action>)
  datatype NodeResult = NodeResult(node: Node, err: Errno, out: seq<Action>)

  // ----- names

  /** The part of a byte string that `strncmp` looks at. */
  function UpToNul(s: seq<byte>): seq<byte> {
    if s == [] || s[0] == 0 then [] else [s[0]] + UpToNul(s[1..])
  }

  predicate SameName(a: seq<byte>, b: seq<byte>) {
    |a| == |b| && UpToNul(a) == UpToNul(b)
  }

  lemma {:induction false} UpToNulBytes(a: seq<byte>, b: seq<byte>)
    requires |a| == |b|
    ensures UpToNul(a) == UpToNul(b) <==> forall i :: 0 <= i < |a| && 0 !in a[..i] ==> a[i] == b[i]
    decreases |a|
  {
    if a != [] {
      assert 0 !in a[..0];
      if a[0] == b[0] == 0 {
        assert forall i :: 0 < i < |a| ==> a[..i][0] == 0;
      } else if a[0] == b[0] {
        UpToNulBytes(a[1..], b[1..]);
        assert UpToNul(a)[1..] == UpToNul(a[1..]) && UpToNul(b)[1..] == UpToNul(b[1..]);
        NextBytes(a, b);
      }
    }
  }

  lemma NextBytes(a: seq<byte>, b: seq<byte>)
    requires |a| == |b| > 0 && a[0] == b[0] != 0
    ensures (forall i :: 0 <= i < |a| && 0 !in a[..i] ==> a[i] == b[i]) <==>
      forall i :: 0 <= i < |a[1..]| && 0 !in a[1..][..i] ==> a[1..][i] == b[1..][i]
  {
    var (c, d) := (a[1..], b[1..]);
    forall i | 0 <= i < |c| ensures 0 !in c[..i] <==> 0 !in a[..i + 1] {
      assert a[..i + 1] == [a[0]] + c[..i];
    }
    if forall i :: 0 <= i < |a| && 0 !in a[..i] ==> a[i] == b[i] {
      forall i | 0 <= i < |c| && 0 !in c[..i] ensures c[i] == d[i] {
        assert a[i + 1] == b[i + 1];
      }
    }
    if forall i :: 0 <= i < |c| && 0 !in c[..i] ==> c[i] == d[i] {
      forall i | 0 <= i < |a| && 0 !in a[..i] ensures a[i] == b[i] {
        if i > 0 {
          assert 0 !in a[..(i - 1) + 1];
          assert c[i - 1] == d[i - 1];
        }
      }
    }
  }

  /** Names are the same if they have the same length and agree byte by byte up to the first
      zero. */
  lemma SameNameBytes(a: seq<byte>, b: seq<byte>)
    ensures SameName(a, b) <==> |a| == |b| && forall i :: 0 <= i < |a| && 0 !in a[..i] ==> a[i] == b[i]
  {
    if |a| == |b| {
      UpToNulBytes(a, b);
    }
  }

  const STAR: byte := 0x2a

  predicate Matches(service: seq<byte>, wanted: seq<byte>) {
    service == [] || service == [STAR] || SameName(service, wanted)
  }

  /** A listener for no name or for "*" gets every request, any other one those for its name. */
  lemma MatchRule(service: seq<byte>, wanted: seq<byte>)
    ensures Matches(service, wanted) <==>
      || |service| == 0
      || (|service| == 1 && service[0] == 0x2a)
      || (|service| == |wanted| && forall i :: 0 <= i < |service| && 0 !in service[..i] ==> service[i] == wanted[i])
  {
    SameNameBytes(service, wanted);
  }

  // ----- lists and the session hash

  predicate Hashed(st: SState) {
    st == NewConnected || st == Connected
  }

  predicate Negotiating(st: SState) {
    st != SNone && st != Connected && st != Dead
  }

  function Sesshash(x: uint16): (h: nat)
    ensures h < 0x100
  {
    var v := x as bv16;
    ((v ^ (v >> 8)) & 0xff) as nat
  }

  /** Following any list or any state to a session or its negotiation block is safe. */
  ghost predicate CoreSafe(c: Core) {
    && |c.buckets| == 0x100
    && (forall h, p :: 0 <= h < 0x100 && p in c.buckets[h] ==> p in c.sess)
    && (forall p :: p in c.sess && Negotiating(c.sess[p].state) ==> c.sess[p].neg.Some?)
    && (forall k :: k in c.hooks && k.priv.Some? ==> k.priv.value in c.sess)
    && 1 <= c.nextSid
  }

  ghost predicate ListSafe(c: Core, ls: seq<Ptr>) {
    forall p :: p in ls ==> p in c.sess && c.sess[p].neg.Some?
  }

  ghost predicate Safe(n: Node) {
    CoreSafe(n.core) && ListSafe(n.core, n.listeners)
  }

  function FindHook(hooks: seq<Hook>, name: string): (r: Option<Hook>)
    ensures r.Some? ==> r.value in hooks && r.value.name == name
    ensures r.None? ==> forall k :: k in hooks ==> k.name != name
  {
    if hooks == [] then None
    else if hooks[0].name == name then Some(hooks[0])
    else FindHook(hooks[1..], name)
  }

  /** `pppoe_finduniq`: the hook whose session has the given address. */
  predicate HasSession(hooks: seq<Hook>, p: Ptr) {
    exists i :: 0 <= i < |hooks| && hooks[i].priv == Some(p)
  }

  /** The first session of a list that satisfies the match rule for `wanted`. */
  ghost function MatchSvc(c: Core, ls: seq<Ptr>, wanted: seq<byte>): (r: Option<Ptr>)
    requires ListSafe(c, ls)
    ensures r.Some? ==> r.value in ls && Matches(c.sess[r.value].neg.value.service, wanted)
    ensures r.None? ==> forall p :: p in ls ==> !Matches(c.sess[p].neg.value.service, wanted)
  {
    if ls == [] then None
    else if Matches(c.sess[ls[0]].neg.value.service, wanted) then Some(ls[0])
    else MatchSvc(c, ls[1..], wanted)
  }

  ghost function FindSvc(c: Core, ls: seq<Ptr>, name: seq<byte>): (r: Option<Ptr>)
    requires ListSafe(c, ls)
    ensures r.Some? ==> r.value in ls && SameName(c.sess[r.value].neg.value.service, name)
    ensures r.None? ==> forall p :: p in ls ==> !SameName(c.sess[p].neg.value.service, name)
  {
    if ls == [] then None
    else if SameName(c.sess[ls[0]].neg.value.service, name) then Some(ls[0])
    else FindSvc(c, ls[1..], name)
  }

  /** The older version: scan all hooks, skipping those without a listening session. */
  predicate HookListens(c: Core, k: Hook) {
    k.priv.Some? && k.priv.value in c.sess && c.sess[k.priv.value].state == Listening
  }

  ghost function MatchSvcScan(c: Core, hooks: seq<Hook>, wanted: seq<byte>): (r: Option<Ptr>)
    requires CoreSafe(c)
    ensures r.Some? ==>
      exists k :: (k in hooks && HookListens(c, k) && k.priv == r
                   && Matches(c.sess[r.value].neg.value.service, wanted))
    ensures r.None? ==> forall k :: k in hooks && HookListens(c, k) ==>
      !Matches(c.sess[k.priv.value].neg.value.service, wanted)
  {
    if hooks == [] then None
    else if HookListens(c, hooks[0]) && Matches(c.sess[hooks[0].priv.value].neg.value.service, wanted)
    then hooks[0].priv
    else MatchSvcScan(c, hooks[1..], wanted)
  }

  ghost function FindSvcScan(c: Core, hooks: seq<Hook>, name: seq<byte>): (r: Option<Ptr>)
    requires CoreSafe(c)
    ensures r.Some? ==>
      exists k :: (k in hooks && HookListens(c, k) && k.priv == r
                   && SameName(c.sess[r.value].neg.value.service, name))
    ensures r.None? ==> forall k :: k in hooks && HookListens(c, k) ==>
      !SameName(c.sess[k.priv.value].neg.value.service, name)
  {
    if hooks == [] then None
    else if HookListens(c, hooks[0]) && SameName(c.sess[hooks[0].priv.value].neg.value.service, name)
    then hooks[0].priv
    else FindSvcScan(c, hooks[1..], name)
  }

  /** `pppoe_findsession`: the first session of the bucket with this ID and peer. */
  ghost function FindSession(c: Core, ps: seq<Ptr>, sid: uint16, peer: Mac): (r: Option<Ptr>)
    requires forall p :: p in ps ==> p in c.sess
    ensures r.Some? ==> r.value in ps && c.sess[r.value].sid == sid && c.sess[r.value].peer == peer
    ensures r.None? ==> forall p :: p in ps ==> !(c.sess[p].sid == sid && c.sess[p].peer == peer)
  {
    if ps == [] then None
    else if c.sess[ps[0]].sid == sid && c.sess[ps[0]].peer == peer then Some(ps[0])
    else FindSession(c, ps[1..], sid, peer)
  }

  // Each lookup returns the first that qualifies, in list order.

  lemma {:induction false} MatchSvcIsFirst(c: Core, ls: seq<Ptr>, i: nat, wanted: seq<byte>)
    requires ListSafe(c, ls) && i < |ls|
    requires Matches(c.sess[ls[i]].neg.value.service, wanted)
    requires forall j :: 0 <= j < i ==> !Matches(c.sess[ls[j]].neg.value.service, wanted)
    ensures MatchSvc(c, ls, wanted) == Some(ls[i])
  {
    if i != 0 {
      assert !Matches(c.sess[ls[0]].neg.value.service, wanted);
      MatchSvcIsFirst(c, ls[1..], i - 1, wanted);
    }
  }

  lemma {:induction false} FindSvcIsFirst(c: Core, ls: seq<Ptr>, i: nat, name: seq<byte>)
    requires ListSafe(c, ls) && i < |ls|
    requires SameName(c.sess[ls[i]].neg.value.service, name)
    requires forall j :: 0 <= j < i ==> !SameName(c.sess[ls[j]].neg.value.service, name)
    ensures FindSvc(c, ls, name) == Some(ls[i])
  {
    if i != 0 {
      assert !SameName(c.sess[ls[0]].neg.value.service, name);
      FindSvcIsFirst(c, ls[1..], i - 1, name);
    }
  }

  lemma {:induction false} MatchSvcScanIsFirst(c: Core, hooks: seq<Hook>, i: nat, wanted: seq<byte>)
    requires CoreSafe(c) && i < |hooks|
    requires HookListens(c, hooks[i]) && Matches(c.sess[hooks[i].priv.value].neg.value.service, wanted)
    requires forall j :: 0 <= j < i ==>
      !(HookListens(c, hooks[j]) && Matches(c.sess[hooks[j].priv.value].neg.value.service, wanted))
    ensures MatchSvcScan(c, hooks, wanted) == hooks[i].priv
  {
    if i != 0 {
      assert !(HookListens(c, hooks[0])
        && Matches(c.sess[hooks[0].priv.value].neg.value.service, wanted));
      MatchSvcScanIsFirst(c, hooks[1..], i - 1, wanted);
    }
  }

  lemma {:induction false} FindSvcScanIsFirst(c: Core, hooks: seq<Hook>, i: nat, name: seq<byte>)
    requires CoreSafe(c) && i < |hooks|
    requires HookListens(c, hooks[i]) && SameName(c.sess[hooks[i].priv.value].neg.value.service, name)
    requires forall j :: 0 <= j < i ==>
      !(HookListens(c, hooks[j]) && SameName(c.sess[hooks[j].priv.value].neg.value.service, name))
    ensures FindSvcScan(c, hooks, name) == hooks[i].priv
  {
    if i != 0 {
      assert !(HookListens(c, hooks[0])
        && SameName(c.sess[hooks[0].priv.value].neg.value.service, name));
      FindSvcScanIsFirst(c, hooks[1..], i - 1, name);
    }
  }

  lemma {:induction false} FindSessionIsFirst(c: Core, ps: seq<Ptr>, i: nat, sid: uint16, peer: Mac)
    requires (forall p :: p in ps ==> p in c.sess) && i < |ps|
    requires c.sess[ps[i]].sid == sid && c.sess[ps[i]].peer == peer
    requires forall j :: 0 <= j < i ==> !(c.sess[ps[j]].sid == sid && c.sess[ps[j]].peer == peer)
    ensures FindSession(c, ps, sid, peer) == Some(ps[i])
  {
    if i != 0 {
      assert !(c.sess[ps[0]].sid == sid && c.sess[ps[0]].peer == peer);
      FindSessionIsFirst(c, ps[1..], i - 1, sid, peer);
    }
  }

  function AddToBucket(buckets: seq<seq<Ptr>>, h: nat, p: Ptr): seq<seq<Ptr>>
    requires h < |buckets|
  {
    buckets[h := [p] + buckets[h]]
  }

  function DelFromBucket(buckets: seq<seq<Ptr>>, h: nat, p: Ptr): seq<seq<Ptr>>
    requires h < |buckets|
  {
    buckets[h := Without(buckets[h], p)]
  }

  // ----- session identifiers

  const SID_MAX: nat := 0xfffe

  ghost predicate IdInUse(c: Core, v: uint16)
    requires CoreSafe(c)
  {
    exists p :: p in c.buckets[Sesshash(v)] && c.sess[p].sid == v
  }

  ghost predicate SomeIdFree(c: Core)
    requires CoreSafe(c)
  {
    exists v: uint16 :: 1 <= v <= SID_MAX && !IdInUse(c, v)
  }

  ghost function LeastFree(c: Core, v: nat): (r: Option<uint16>)
    requires CoreSafe(c)
    ensures r.Some? ==> v <= r.value <= SID_MAX && !IdInUse(c, r.value)
    ensures r.Some? ==> forall w: uint16 :: v <= w < r.value ==> IdInUse(c, w)
    ensures r.None? ==> forall w: uint16 :: v <= w <= SID_MAX ==> IdInUse(c, w)
    decreases 0x1_0000 - v
  {
    if v > SID_MAX then None
    else if !IdInUse(c, v) then Some(v)
    else LeastFree(c, v + 1)
  }

  /** The ID handed out, and where the counter stands afterwards: the next free ID
      at or after the counter, and after a wrap the least free one.  When the wrap
      itself lands on a free 1, the counter is left at 1. */
  ghost function NewSid(c: Core): (r: (uint16, uint16))
    requires CoreSafe(c) && SomeIdFree(c)
    ensures 1 <= r.0 <= SID_MAX && !IdInUse(c, r.0) && 1 <= r.1
    ensures c.nextSid <= r.0 ==> forall w: uint16 :: c.nextSid <= w < r.0 ==> IdInUse(c, w)
    ensures r.0 < c.nextSid ==> forall w: uint16 :: 1 <= w < r.0 || c.nextSid <= w <= SID_MAX ==> IdInUse(c, w)
  {
    match LeastFree(c, c.nextSid)
    case Some(v) => (v, v + 1)
    case None =>
      if !IdInUse(c, 1) then (1, 1)
      else var v := LeastFree(c, 1).value; (v, v + 1)
  }

  // ----- control messages

  datatype Lookup = Found(ptr: Ptr) | Refused(err: Errno)

  /** The checks common to CONNECT, LISTEN, OFFER and SERVICE. */
  function InitCheck(c: Core, cfg: Config, msg: InitMsg): (r: Lookup) {
    if !msg.headerFits then Refused(EMSGSIZE)
    else if |msg.payload| > cfg.nameMax then Refused(EMSGSIZE)
    else if |msg.payload| < msg.dataLen then Refused(EMSGSIZE)
    else
      match FindHook(c.hooks, msg.hook)
      case None => Refused(ENOENT)
      case Some(k) => if k.priv.None? then Refused(EINVAL) else Found(k.priv.value)
  }

  lemma InitCheckFound(c: Core, cfg: Config, msg: InitMsg)
    requires CoreSafe(c) && InitCheck(c, cfg, msg).Found?
    ensures InitCheck(c, cfg, msg).ptr in c.sess
    ensures msg.dataLen <= |msg.payload| <= cfg.nameMax
  {
  }

  const FRESH_NEG: Neg := Neg(0, None, BROADCAST, 0, 0, [], [], [])

  const BACKSLASH: byte := 0x5c

  /** Where the first backslash is, or the length. */
  function SplitPoint(data: seq<byte>): (i: nat)
    ensures i <= |data|
    ensures i < |data| ==> data[i] == BACKSLASH
    ensures forall j :: 0 <= j < i ==> data[j] != BACKSLASH
  {
    if data == [] || data[0] == BACKSLASH then 0 else 1 + SplitPoint(data[1..])
  }

  /** CONNECT data is "AC-Name\Service" or just "Service". */
  function SplitName(data: Name): (r: (Name, Name)) {
    var i := SplitPoint(data);
    if i == |data| then ([], data) else (data[..i], data[i + 1..])
  }

  function Put(c: Core, p: Ptr, s: Session): Core {
    c.(sess := c.sess[p := s])
  }

  function DiscoveryPacket(cfg: Config, n: Neg): Packet {
    Packet(Discovery, n.peer, cfg.mac, n.code, n.sid, |n.payload| % 0x1_0000, n.payload)
  }

  function StartTags(p: Ptr, n: Neg): seq<Tag> {
    [RawTag(PTT_HOST_UNIQ, PtrBytes(p)), RawTag(PTT_SRV_NAME, n.service)]
  }

  /** `pppoe_start`. */
  function Start(cfg: Config, p: Ptr, s: Session): Session
    requires s.neg.Some?
  {
    var n := s.neg.value;
    s.(state := SInit, neg := Some(n.(
      peer := BROADCAST, code := PADI, payload := Payload(StartTags(p, n)),
      pending := Some(cfg.initial), timeout := 2 * cfg.initial)))
  }

  function ConnectStep(c: Core, cfg: Config, msg: InitMsg): Result
    requires forall k :: k in c.hooks && k.priv.Some? ==> k.priv.value in c.sess
  {
    match InitCheck(c, cfg, msg)
    case Refused(e) => Result(c, e, [])
    case Found(p) =>
      if c.sess[p].state != SNone then Result(c, EISCONN, [])
      else
        var (ac, service) := SplitName(msg.payload[..msg.dataLen]);
        var s := Start(cfg, p, c.sess[p].(
          neg := Some(FRESH_NEG.(acName := ac, service := service)), role := Client));
        Result(Put(c, p, s), EOK, [SendEther(DiscoveryPacket(cfg, s.neg.value))])
  }

  /** LISTEN, given whether the service lookup found another listener.  The second
      component is the session that starts to listen. */
  function ListenStep(c: Core, cfg: Config, msg: InitMsg, taken: bool): (Result, Option<Ptr>)
    requires forall k :: k in c.hooks && k.priv.Some? ==> k.priv.value in c.sess
  {
    match InitCheck(c, cfg, msg)
    case Refused(e) => (Result(c, e, []), None)
    case Found(p) =>
      if taken then (Result(c, EEXIST, []), None)
      else if c.sess[p].state != SNone then (Result(c, EISCONN, []), None)
      else
        var n := FRESH_NEG.(service := msg.payload[..msg.dataLen], code := PADT);
        (Result(Put(c, p, c.sess[p].(state := Listening, neg := Some(n), role := Listener)), EOK, []), Some(p))
  }

  function OfferStep(c: Core, cfg: Config, msg: InitMsg): Result
    requires forall k :: k in c.hooks && k.priv.Some? ==> k.priv.value in c.sess
  {
    match InitCheck(c, cfg, msg)
    case Refused(e) => Result(c, e, [])
    case Found(p) =>
      if c.sess[p].state != SNone then Result(c, EISCONN, [])
      else
        var n := FRESH_NEG.(acName := msg.payload[..msg.dataLen], code := PADO);
        Result(Put(c, p, c.sess[p].(state := Primed, neg := Some(n), role := Server)), EOK, [])
  }

  function ServiceStep(c: Core, cfg: Config, msg: InitMsg): Result
    requires forall k :: k in c.hooks && k.priv.Some? ==> k.priv.value in c.sess
    requires forall p :: p in c.sess && Negotiating(c.sess[p].state) ==> c.sess[p].neg.Some?
  {
    match InitCheck(c, cfg, msg)
    case Refused(e) => Result(c, e, [])
    case Found(p) =>
      var s := c.sess[p];
      if s.state != Primed then Result(c, EISCONN, [])
      else
        assert Negotiating(c.sess[p].state);
        Result(Put(c, p, s.(neg := Some(s.neg.value.(service := msg.payload[..msg.dataLen])))), EOK, [])
  }

  // ----- data from a session hook

  /** The tags of a packet lie within the declared length, and within what was received. */
  function TagArea(pkt: Packet): seq<byte> {
    Received(pkt.body, pkt.length)
  }

  /** Each of these searches through the tags stays within the received bytes. */
  predicate SearchesInside(pkt: Packet, kinds: set<uint16>) {
    forall k :: k in kinds ==> SearchInside(pkt.body, pkt.length, 0, k)
  }

  /** With an empty or absent service request the hook's extra service is advertised too. */
  function InsertService(tags: seq<Tag>, srv: Option<Tag>, service: Name): seq<Tag> {
    if (srv.None? || srv.value.data == []) && service != []
    then InsertTag(tags, RawTag(PTT_SRV_NAME, service)) else tags
  }

  function OfferTags(p: Ptr, n: Neg, ts: seq<Tag>): seq<Tag> {
    InsertAll(
      InsertTag(
        InsertFound(
          InsertService(
            InsertFound([RawTag(PTT_AC_NAME, n.acName)], FirstTag(ts, PTT_SRV_NAME)),
            FirstTag(ts, PTT_SRV_NAME), n.service),
          FirstTag(ts, PTT_HOST_UNIQ)),
        RawTag(PTT_AC_COOKIE, PtrBytes(p))),
      RelayTags(ts))
  }

  /** A primed session gets the PADI back from its hook and offers service. */
  function OfferSession(cfg: Config, p: Ptr, s: Session, pkt: Packet): Session
    requires s.neg.Some?
  {
    var n := s.neg.value;
    s.(state := SOffer, neg := Some(n.(
      peer := pkt.src, timeout := 0, code := PADO,
      payload := Payload(OfferTags(p, n, ParseTags(TagArea(pkt)))),
      pending := Some(cfg.offer))))
  }

  const ALL_STATIONS: byte := 0xff
  const UNNUMBERED: byte := 0x03

  /** PPP address and control bytes are removed. */
  function StripPpp(data: seq<byte>): seq<byte> {
    if |data| >= 2 && data[0] == ALL_STATIONS && data[1] == UNNUMBERED then data[2..] else data
  }

  function FromHookStep(c: Core, cfg: Config, p: Ptr, pkt: Packet): Result
    requires p in c.sess && (Negotiating(c.sess[p].state) ==> c.sess[p].neg.Some?)
  {
    var s := c.sess[p];
    if Hashed(s.state) then
      var data := StripPpp(pkt.body);
      Result(c, EOK, [SendEther(Packet(SessionData, s.peer, cfg.mac, 0, s.hdrSid, |data| % 0x1_0000, data))])
    else if s.state == Primed then
      if pkt.code != PADI then Result(c, EINVAL, [])
      else
        var s' := OfferSession(cfg, p, s, pkt);
        Result(Put(c, p, s'), EOK, [SendEther(DiscoveryPacket(cfg, s'.neg.value))])
    else Result(c, ENETUNREACH, [])
  }

  // ----- discovery packets from Ethernet

  function PadiStep(c: Core, pkt: Packet, wanted: Option<Tag>, target: Option<Ptr>): Result {
    if wanted.None? || target.None? then Result(c, ENETUNREACH, [])
    else Result(c, EOK, [ForwardToHook(target.value, pkt)])
  }

  /** The session a PADO, PADR or PADS answers, named by its own tag. */
  function Addressee(c: Core, uniq: Option<Tag>): (r: Option<Ptr>)
    ensures r.Some? ==> uniq.Some? && HasSession(c.hooks, r.value)
  {
    if uniq.Some? && |uniq.value.data| == PTR_SIZE && HasSession(c.hooks, PtrOf(uniq.value.data))
    then Some(PtrOf(uniq.value.data)) else None
  }

  lemma AddresseeHasSession(c: Core, uniq: Option<Tag>)
    requires CoreSafe(c) && Addressee(c, uniq).Some?
    ensures Addressee(c, uniq).value in c.sess
  {
  }

  /** If a specific access concentrator was asked for, the PADO has to come from it. */
  predicate AcceptsOffer(n: Neg, ts: seq<Tag>) {
    n.acName == [] ||
    (var t := FirstTag(ts, PTT_AC_NAME); t.Some? && SameName(n.acName, t.value.data))
  }

  function RequestTags(n: Neg, utag: Tag, ts: seq<Tag>): seq<Tag> {
    InsertAll(
      InsertTag(
        InsertFound(InsertFound([utag], FirstTag(ts, PTT_AC_COOKIE)), FirstTag(ts, PTT_AC_NAME)),
        RawTag(PTT_SRV_NAME, n.service)),
      RelayTags(ts))
  }

  function RequestSession(cfg: Config, s: Session, pkt: Packet, utag: Tag): Session
    requires s.neg.Some?
  {
    var n := s.neg.value;
    s.(state := SReq, neg := Some(n.(
      peer := pkt.src, code := PADR,
      payload := Payload(RequestTags(n, utag, ParseTags(TagArea(pkt)))),
      pending := Some(cfg.initial), timeout := 2 * cfg.initial)))
  }

  ghost function PadoStep(c: Core, cfg: Config, pkt: Packet): Result
    requires CoreSafe(c)
  {
    var ts := ParseTags(TagArea(pkt));
    var utag := FirstTag(ts, PTT_HOST_UNIQ);
    match Addressee(c, utag)
    case None => Result(c, ENETUNREACH, [])
    case Some(p) =>
      AddresseeHasSession(c, utag);
      var s := c.sess[p];
      if s.state == SReq || s.state == Connected then Result(c, EOK, [])
      else if s.state != SInit then Result(c, ENETUNREACH, [])
      else if !AcceptsOffer(s.neg.value, ts) then Result(c, EOK, [])
      else
        var s' := RequestSession(cfg, s, pkt, utag.value);
        Result(Put(c, p, s'), EOK, [SendEther(DiscoveryPacket(cfg, s'.neg.value))])
  }

  function ConfirmTags(n: Neg, utag: Tag, ts: seq<Tag>): seq<Tag> {
    InsertAll(
      InsertTag(
        InsertFound(
          InsertFound([RawTag(PTT_AC_NAME, n.acName)], FirstTag(ts, PTT_SRV_NAME)),
          FirstTag(ts, PTT_HOST_UNIQ)),
        utag),
      RelayTags(ts))
  }

  /** The server session once its ID is known: PADS is sent and kept for a resend. */
  function ConfirmSession(s: Session, sid: uint16, hdr: uint16, pkt: Packet, utag: Tag): Session
    requires s.neg.Some?
  {
    var n := s.neg.value.(
      pending := None, code := PADS, sid := hdr, timeout := 0,
      payload := Payload(ConfirmTags(s.neg.value, utag, ParseTags(TagArea(pkt)))));
    s.(state := NewConnected, sid := sid, neg := Some(n), peer := n.peer, hdrSid := n.sid)
  }

  /** The session a PADR would be for, if it is in a state to accept it. */
  function PadrTarget(c: Core, pkt: Packet): Option<Ptr>
  {
    var p := Addressee(c, FirstTag(ParseTags(TagArea(pkt)), PTT_AC_COOKIE));
    if p.Some? && p.value in c.sess
      && (c.sess[p.value].state == NewConnected || c.sess[p.value].state == SOffer)
    then p else None
  }

  /** A first PADR draws a session ID; with every ID taken the allocator would not return. */
  ghost predicate PadrCanAllocate(c: Core, pkt: Packet)
    requires CoreSafe(c)
  {
    var p := PadrTarget(c, pkt);
    p.Some? && c.sess[p.value].sid == 0 ==> SomeIdFree(c)
  }

  ghost function PadrStep(c: Core, cfg: Config, pkt: Packet): Result
    requires CoreSafe(c) && PadrCanAllocate(c, pkt)
  {
    var utag := FirstTag(ParseTags(TagArea(pkt)), PTT_AC_COOKIE);
    match PadrTarget(c, pkt)
    case None => Result(c, ENETUNREACH, [])
    case Some(p) =>
      var s := c.sess[p];
      if s.sid == 0 then
        var (sid, next) := NewSid(c);
        var s' := ConfirmSession(s, sid, sid, pkt, utag.value);
        var c' := c.(buckets := AddToBucket(c.buckets, Sesshash(sid), p), nextSid := next);
        Result(Put(c', p, s'), EOK, [SendEther(DiscoveryPacket(cfg, s'.neg.value))])
      else
        var s' := ConfirmSession(s, s.sid, s.neg.value.sid, pkt, utag.value);
        Result(Put(c, p, s'), EOK, [SendEther(DiscoveryPacket(cfg, s'.neg.value))])
  }

  /** The client session takes the ID of the PADS and drops its negotiation block. */
  function JoinSession(s: Session, sid: uint16): Session
    requires s.neg.Some?
  {
    s.(state := Connected, sid := sid, neg := None, peer := s.neg.value.peer, hdrSid := sid)
  }

  ghost function PadsStep(c: Core, pkt: Packet): Result
    requires CoreSafe(c)
  {
    var utag := FirstTag(ParseTags(TagArea(pkt)), PTT_HOST_UNIQ);
    match Addressee(c, utag)
    case None => Result(c, ENETUNREACH, [])
    case Some(p) =>
      AddresseeHasSession(c, utag);
      var s := c.sess[p];
      if s.state != SReq then Result(c, ENETUNREACH, [])
      else
        var s' := JoinSession(s, pkt.sid);
        var c' := c.(buckets := AddToBucket(c.buckets, Sesshash(pkt.sid), p));
        Result(Put(c', p, s'), EOK, [])
  }

  ghost function PadtStep(c: Core, pkt: Packet): Result
    requires CoreSafe(c)
  {
    match FindSession(c, c.buckets[Sesshash(pkt.sid)], pkt.sid, pkt.src)
    case None => Result(c, ENETUNREACH, [])
    case Some(p) => Result(c.(removing := c.removing + {p}), EOK, [RemoveHook(p)])
  }

  ghost function SessionDataStep(c: Core, pkt: Packet): Result
    requires CoreSafe(c)
  {
    match FindSession(c, c.buckets[Sesshash(pkt.sid)], pkt.sid, pkt.src)
    case None => Result(c, ENETUNREACH, [])
    case Some(p) =>
      if |pkt.body| < pkt.length then Result(c, EMSGSIZE, [])
      else
        var s := c.sess[p];
        var data := pkt.body[..pkt.length];
        if s.state == Connected then Result(c, EOK, [Deliver(p, data)])
        else if s.state == NewConnected then
          Result(Put(c, p, s.(state := Connected, neg := None)), EOK, [Deliver(p, data)])
        else Result(c, ENETUNREACH, [])
  }

  // ----- timer and hooks

  /** The callout has fired for the last packet sent: re-arm it with twice the delay,
      revert to PADI when the delay exceeds the limit, or give up. */
  function ExpireSession(cfg: Config, p: Ptr, s: Session): Session
    requires s.neg.Some?
  {
    var n := s.neg.value;
    var armed := s.(neg := Some(n.(pending := Some(n.timeout), timeout := 2 * n.timeout)));
    if s.state == SInit then
      if 2 * n.timeout <= cfg.limit then armed
      else s.(neg := Some(n.(pending := Some(n.timeout), timeout := cfg.limit)))
    else if s.state == SReq then
      if 2 * n.timeout <= cfg.limit then armed else Start(cfg, p, armed)
    else s.(neg := Some(n.(pending := None)))
  }

  ghost function TimeoutStep(c: Core, cfg: Config, p: Ptr): Result
    requires CoreSafe(c) && p in c.sess
    requires c.sess[p].neg.Some? && c.sess[p].neg.value.pending.Some?
  {
    var s := c.sess[p];
    var s' := ExpireSession(cfg, p, s);
    var resend := SendEther(DiscoveryPacket(cfg, s.neg.value));
    if s.state == SInit then Result(Put(c, p, s'), EOK, [resend])
    else if s.state == SReq then
      Result(Put(c, p, s'), EOK,
        if s'.state == SReq then [resend] else [resend, SendEther(DiscoveryPacket(cfg, s'.neg.value))])
    else if s.state == Primed || s.state == SOffer then
      Result(Put(c, p, s').(removing := c.removing + {p}), EOK, [RemoveHook(p)])
    else Result(Put(c, p, s'), EOK, [])
  }

  const HOOK_ETHERNET: string := "ethernet"
  const HOOK_DEBUG: string := "debug"

  const ZERO_SESSION: Session := Session(SNone, 0, None, ZERO_MAC, 0, Unused)

  function NewHookStep(c: Core, name: string, at: nat, p: Ptr): Result
    requires at <= |c.hooks|
  {
    if name == HOOK_ETHERNET || name == HOOK_DEBUG then
      Result(c.(hooks := InsertAt(c.hooks, at, Hook(name, None))), EOK, [])
    else
      Result(Put(c, p, ZERO_SESSION).(hooks := InsertAt(c.hooks, at, Hook(name, Some(p)))), EOK, [])
  }

  function DropHook(hooks: seq<Hook>, p: Ptr): (r: seq<Hook>)
    ensures forall k :: k in r <==> k in hooks && k.priv != Some(p)
  {
    if hooks == [] then []
    else if hooks[0].priv == Some(p) then DropHook(hooks[1..], p)
    else [hooks[0]] + DropHook(hooks[1..], p)
  }

  /** The session and its hook are gone. */
  function Forget(c: Core, p: Ptr): Core {
    c.(hooks := DropHook(c.hooks, p), sess := c.sess - {p}, removing := c.removing - {p})
  }

  const SIGNOFF: seq<byte> := [0x73, 0x65, 0x73, 0x73, 0x69, 0x6f, 0x6e, 0x20,
                              0x63, 0x6c, 0x6f, 0x73, 0x65, 0x64]

  function Farewell(cfg: Config, s: Session): seq<Action> {
    if Hashed(s.state) then
      var body := EncodeTag(RawTag(PTT_GEN_ERR, SIGNOFF));
      [SendEther(Packet(Discovery, s.peer, cfg.mac, PADT, s.hdrSid, |body|, body))]
    else []
  }

  // ----- the two versions

  /** Events both versions handle with the same code. */
  predicate Common(ev: Event) {
    !ev.ListenMsg? && !ev.Disconnect? && !(ev.FromEther? && ev.pkt.frame == Discovery && ev.pkt.code == PADI)
  }

  // ----- the searches through the tags of a packet

  /** A scan for relay tags goes as far as a search for the end-of-list tag. */
  const OFFER_SEARCHES: set<uint16> := {PTT_SRV_NAME, PTT_HOST_UNIQ, PTT_EOL}
  const REQUEST_SEARCHES: set<uint16> := {PTT_AC_COOKIE, PTT_AC_NAME, PTT_EOL}
  const CONFIRM_SEARCHES: set<uint16> := {PTT_SRV_NAME, PTT_HOST_UNIQ, PTT_EOL}

  function HookSearches(s: Session, pkt: Packet): set<uint16> {
    if s.state == Primed && pkt.code == PADI then OFFER_SEARCHES else {}
  }

  ghost function PadoSearches(c: Core, pkt: Packet): set<uint16>
    requires CoreSafe(c)
  {
    var ts := ParseTags(TagArea(pkt));
    match Addressee(c, FirstTag(ts, PTT_HOST_UNIQ))
    case None => {PTT_HOST_UNIQ}
    case Some(p) =>
      AddresseeHasSession(c, FirstTag(ts, PTT_HOST_UNIQ));
      var s := c.sess[p];
      if s.state != SInit then {PTT_HOST_UNIQ}
      else if !AcceptsOffer(s.neg.value, ts) then {PTT_HOST_UNIQ, PTT_AC_NAME}
      else {PTT_HOST_UNIQ} + REQUEST_SEARCHES
  }

  function PadrSearches(c: Core, pkt: Packet): set<uint16> {
    if PadrTarget(c, pkt).None? then {PTT_AC_COOKIE} else {PTT_AC_COOKIE} + CONFIRM_SEARCHES
  }

  /** The searches that the handler of a discovery packet makes. */
  ghost function EtherSearches(c: Core, pkt: Packet): set<uint16>
    requires CoreSafe(c)
  {
    if pkt.code == PADI then {PTT_SRV_NAME}
    else if pkt.code == PADO then PadoSearches(c, pkt)
    else if pkt.code == PADR then PadrSearches(c, pkt)
    else if pkt.code == PADS then {PTT_HOST_UNIQ}
    else {}
  }

  /** What the framework and the comments in the source guarantee of an event. */
  ghost predicate Enabled(c: Core, ev: Event)
    requires CoreSafe(c)
  {
    match ev
    case NewHook(name, at, p) =>
      && at <= |c.hooks|
      && (forall k :: k in c.hooks ==> k.name != name)
      && p !in c.sess && p != NULL
    case FromHook(p, pkt) => p in c.sess && SearchesInside(pkt, HookSearches(c.sess[p], pkt))
    case FromEther(pkt) =>
      pkt.frame == Discovery ==>
        && SearchesInside(pkt, EtherSearches(c, pkt))
        && (pkt.code == PADR ==> PadrCanAllocate(c, pkt))
    case Disconnect(p) => p in c.sess
    case Timeout(p) => p in c.sess && c.sess[p].neg.Some? && c.sess[p].neg.value.pending.Some?
    case OtherNodeTookSid(v) => 1 <= v
    case _ => true
  }

  lemma EtherSearchesInside(c: Core, pkt: Packet)
    requires CoreSafe(c) && Enabled(c, FromEther(pkt)) && pkt.frame == Discovery
    ensures SearchesInside(pkt, EtherSearches(c, pkt))
    ensures pkt.code == PADI ==> SearchesInside(pkt, {PTT_SRV_NAME})
    ensures pkt.code == PADO ==> SearchesInside(pkt, PadoSearches(c, pkt))
    ensures pkt.code == PADR ==> SearchesInside(pkt, PadrSearches(c, pkt))
    ensures pkt.code == PADS ==> SearchesInside(pkt, {PTT_HOST_UNIQ})
  {
  }

  /** A declared length within the received bytes is enough for any search. */
  lemma ShortLengthInside(pkt: Packet, kinds: set<uint16>)
    requires pkt.length <= |pkt.body|
    ensures SearchesInside(pkt, kinds)
  {
    forall k | k in kinds ensures SearchInside(pkt.body, pkt.length, 0, k) {
      SearchInsideIff(pkt.body, pkt.length, k);
    }
  }

  /** A packet that ends with its header, but declares a length that a tag header fits into, is
      searched beyond its end, in every state of the node. */
  lemma EmptyPacketIsLeft(c: Core, pkt: Packet)
    requires CoreSafe(c) && (pkt.code == PADI || pkt.code == PADO || pkt.code == PADR || pkt.code == PADS)
    requires pkt.body == [] && pkt.length >= TAG_HEADER
    ensures !SearchesInside(pkt, EtherSearches(c, pkt))
  {
    var k :| k in EtherSearches(c, pkt);
    NothingReceived(pkt.length, k);
  }

  ghost function CommonStep(c: Core, cfg: Config, ev: Event): Result
    requires CoreSafe(c) && Enabled(c, ev) && Common(ev)
  {
    match ev
    case NewHook(name, at, p) => NewHookStep(c, name, at, p)
    case ConnectMsg(msg) => ConnectStep(c, cfg, msg)
    case OfferMsg(msg) => OfferStep(c, cfg, msg)
    case ServiceMsg(msg) => ServiceStep(c, cfg, msg)
    case FromHook(p, pkt) => FromHookStep(c, cfg, p, pkt)
    case FromEther(pkt) =>
      (match pkt.frame
       case Discovery =>
         if pkt.code == PADO then PadoStep(c, cfg, pkt)
         else if pkt.code == PADR then PadrStep(c, cfg, pkt)
         else if pkt.code == PADS then PadsStep(c, pkt)
         else if pkt.code == PADT then PadtStep(c, pkt)
         else Result(c, EPFNOSUPPORT, [])
       case SessionData => SessionDataStep(c, pkt)
       case Foreign => Result(c, EPFNOSUPPORT, []))
    case Timeout(p) => TimeoutStep(c, cfg, p)
    case OtherNodeTookSid(v) => Result(c.(nextSid := v), EOK, [])
  }

  ghost function DisconnectAfter(n: Node, cfg: Config, p: Ptr): NodeResult
    requires Safe(n) && p in n.core.sess
  {
    var s := n.core.sess[p];
    var c := Forget(n.core, p);
    if s.state == Listening then
      NodeResult(Node(c, Without(n.listeners, p)), EOK, Farewell(cfg, s))
    else if s.sid != 0 then
      NodeResult(n.(core := c.(buckets := DelFromBucket(c.buckets, Sesshash(s.sid), p))), EOK, Farewell(cfg, s))
    else
      NodeResult(n.(core := c), EOK, Farewell(cfg, s))
  }

  ghost function DisconnectBefore(c: Core, cfg: Config, p: Ptr): Result
    requires CoreSafe(c) && p in c.sess
  {
    var s := c.sess[p];
    var c' := Forget(c, p);
    if s.sid != 0 then
      Result(c'.(buckets := DelFromBucket(c'.buckets, Sesshash(s.sid), p)), EOK, Farewell(cfg, s))
    else
      Result(c', EOK, Farewell(cfg, s))
  }

  function WantedService(pkt: Packet): Option<Tag>
  {
    FirstTag(ParseTags(TagArea(pkt)), PTT_SRV_NAME)
  }

  function MessageName(msg: InitMsg): seq<byte> {
    if msg.dataLen <= |msg.payload| then msg.payload[..msg.dataLen] else []
  }

  ghost function StepAfter(n: Node, cfg: Config, ev: Event): NodeResult
    requires Safe(n) && Enabled(n.core, ev)
  {
    if Common(ev) then
      var r := CommonStep(n.core, cfg, ev);
      NodeResult(n.(core := r.core), r.err, r.out)
    else match ev
    case ListenMsg(msg) =>
      var (r, added) := ListenStep(n.core, cfg, msg, FindSvc(n.core, n.listeners, MessageName(msg)).Some?);
      NodeResult(Node(r.core, if added.Some? then [added.value] + n.listeners else n.listeners), r.err, r.out)
    case FromEther(pkt) =>
      var wanted := WantedService(pkt);
      var target := if wanted.Some? then MatchSvc(n.core, n.listeners, wanted.value.data) else None;
      var r := PadiStep(n.core, pkt, wanted, target);
      NodeResult(n.(core := r.core), r.err, r.out)
    case Disconnect(p) => DisconnectAfter(n, cfg, p)
  }

  ghost function StepBefore(c: Core, cfg: Config, ev: Event): Result
    requires CoreSafe(c) && Enabled(c, ev)
  {
    if Common(ev) then CommonStep(c, cfg, ev)
    else match ev
    case ListenMsg(msg) =>
      ListenStep(c, cfg, msg, FindSvcScan(c, c.hooks, MessageName(msg)).Some?).0
    case FromEther(pkt) =>
      var wanted := WantedService(pkt);
      var target := if wanted.Some? then MatchSvcScan(c, c.hooks, wanted.value.data) else None;
      PadiStep(c, pkt, wanted, target)
    case Disconnect(p) => DisconnectBefore(c, cfg, p)
  }
}
