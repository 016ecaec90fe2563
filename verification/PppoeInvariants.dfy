/** What every event keeps: the session index, the listener names, the negotiation
    block and timer discipline, and the server session identifiers. */
module PppoeInvariants {
  import opened Basics
  import opened PppoeTags
  import opened PppoeNode

  predicate TimerState(st: SState) {
    st == SInit || st == SReq || st == SOffer
  }

  predicate RoleFits(r: Role, st: SState) {
    match r
    case Unused => st == SNone
    case Listener => st == Listening
    case Client => st == SInit || st == SReq || st == Connected
    case Server => st == Primed || st == SOffer || st == NewConnected || st == Connected
  }

  ghost predicate NegFits(cfg: Config, st: SState, n: Neg, removing: bool) {
    && |n.service| <= cfg.nameMax && |n.acName| <= cfg.nameMax
    && |n.payload| <= TAG_LIMIT
    && (n.pending.Some? ==> TimerState(st))
    && (st == SInit || st == SReq ==>
          && n.pending.Some? && cfg.initial <= n.pending.value <= cfg.limit
          && 2 * cfg.initial <= n.timeout <= cfg.limit)
    && (st == SOffer ==> if removing then n.pending.None? else n.pending == Some(cfg.offer))
  }

  ghost predicate SessionFits(cfg: Config, s: Session, removing: bool) {
    && RoleFits(s.role, s.state)
    && (s.neg.Some? <==> s.state != SNone && s.state != Connected)
    && (s.neg.Some? ==> NegFits(cfg, s.state, s.neg.value, removing))
    && (s.sid != 0 ==> Hashed(s.state))
    && (removing ==> s.state == SOffer || Hashed(s.state))
    && (Hashed(s.state) ==> s.hdrSid == s.sid)
    && (Hashed(s.state) && s.role == Server ==> 1 <= s.sid <= SID_MAX)
    && (s.state == NewConnected ==> s.neg.value.sid == s.sid && s.neg.value.peer == s.peer)
  }

  predicate Placed(s: Session, h: nat) {
    Hashed(s.state) && Sesshash(s.sid) == h
  }

  /** Bucket `h` holds exactly the connected sessions whose ID hashes to `h`, once each. */
  ghost predicate IndexExact(c: Core) {
    && |c.buckets| == 0x100
    && (forall h :: 0 <= h < 0x100 ==> Distinct(c.buckets[h]))
    && (forall h, p :: 0 <= h < 0x100 ==> (p in c.buckets[h] <==> p in c.sess && Placed(c.sess[p], h)))
  }

  ghost predicate HooksDiffer(hooks: seq<Hook>) {
    forall i, j :: 0 <= i < j < |hooks| ==>
      hooks[i].name != hooks[j].name && (hooks[i].priv.Some? ==> hooks[i].priv != hooks[j].priv)
  }

  /** Every session has exactly one hook, and hook names differ. */
  ghost predicate HooksExact(c: Core) {
    && HooksDiffer(c.hooks)
    && (forall k :: k in c.hooks && k.priv.Some? ==> k.priv.value in c.sess)
    && (forall p :: p in c.sess ==> HasSession(c.hooks, p))
  }

  ghost predicate ServerSidsDistinct(c: Core) {
    forall p, q :: p in c.sess && q in c.sess && p != q
      && c.sess[p].role == Server && c.sess[q].role == Server && c.sess[p].sid != 0
      ==> c.sess[p].sid != c.sess[q].sid
  }

  ghost predicate ListenerNamesDistinct(c: Core) {
    forall p, q :: p in c.sess && q in c.sess && p != q
      && c.sess[p].state == Listening && c.sess[q].state == Listening
      && c.sess[p].neg.Some? && c.sess[q].neg.Some?
      ==> !SameName(c.sess[p].neg.value.service, c.sess[q].neg.value.service)
  }

  ghost predicate SessionsFit(cfg: Config, c: Core) {
    forall p :: p in c.sess ==> SessionFits(cfg, c.sess[p], p in c.removing)
  }

  ghost predicate CoreInv(cfg: Config, c: Core) {
    && SessionsFit(cfg, c)
    && IndexExact(c)
    && HooksExact(c)
    && ServerSidsDistinct(c)
    && ListenerNamesDistinct(c)
    && 1 <= c.nextSid
    && c.removing <= c.sess.Keys
  }

  /** The listener list holds exactly the listening sessions, once each. */
  ghost predicate ListenersExact(n: Node) {
    && Distinct(n.listeners)
    && forall p :: p in n.listeners <==> p in n.core.sess && n.core.sess[p].state == Listening
  }

  ghost predicate Inv(cfg: Config, n: Node) {
    CoreInv(cfg, n.core) && ListenersExact(n)
  }

  lemma InvIsSafe(cfg: Config, n: Node)
    requires Inv(cfg, n)
    ensures Safe(n)
  {
  }

  lemma CoreInvIsSafe(cfg: Config, c: Core)
    requires CoreInv(cfg, c)
    ensures CoreSafe(c)
  {
  }

  // ----- one session changes

  /** A change to one session that moves it neither into nor out of any list. */
  ghost predicate StaysPut(s: Session, s': Session) {
    && Hashed(s.state) == Hashed(s'.state) && s'.sid == s.sid
    && (s.sid != 0 ==> s'.role == s.role)
    && s.state != Listening && s'.state != Listening
  }

  lemma PutKeeps(cfg: Config, c: Core, p: Ptr, s': Session)
    requires CoreInv(cfg, c) && p in c.sess
    requires SessionFits(cfg, s', p in c.removing) && StaysPut(c.sess[p], s')
    ensures CoreInv(cfg, Put(c, p, s'))
  {
    PutKeepsIndex(c, p, s');
    PutKeepsNames(c, p, s');
    PutKeepsSids(c, p, s');
  }

  lemma PutKeepsIndex(c: Core, p: Ptr, s': Session)
    requires IndexExact(c) && p in c.sess && Hashed(c.sess[p].state) == Hashed(s'.state) && s'.sid == c.sess[p].sid
    ensures IndexExact(Put(c, p, s'))
  {
  }

  lemma PutKeepsNames(c: Core, p: Ptr, s': Session)
    requires ListenerNamesDistinct(c) && p in c.sess && s'.state != Listening
    ensures ListenerNamesDistinct(Put(c, p, s'))
  {
  }

  lemma PutKeepsSids(c: Core, p: Ptr, s': Session)
    requires ServerSidsDistinct(c) && p in c.sess && s'.sid == c.sess[p].sid
    requires s'.sid != 0 ==> s'.role == c.sess[p].role
    ensures ServerSidsDistinct(Put(c, p, s'))
  {
  }

  lemma RemovingKeeps(cfg: Config, c: Core, p: Ptr)
    requires CoreInv(cfg, c) && p in c.sess && Hashed(c.sess[p].state)
    ensures CoreInv(cfg, c.(removing := c.removing + {p}))
  {
  }

  lemma IndexInsert(c: Core, p: Ptr, s': Session, next: uint16)
    requires IndexExact(c) && p in c.sess && !Hashed(c.sess[p].state) && Hashed(s'.state)
    ensures IndexExact(Put(c.(buckets := AddToBucket(c.buckets, Sesshash(s'.sid), p), nextSid := next), p, s'))
  {
    var h := Sesshash(s'.sid);
    assert p !in c.buckets[h];
    var b := AddToBucket(c.buckets, h, p);
    assert b[h] == [p] + c.buckets[h];
    assert forall i :: 0 <= i < 0x100 && i != h ==> b[i] == c.buckets[i];
    DistinctCons(p, c.buckets[h]);
  }

  lemma ServerSidsInsert(c: Core, p: Ptr, s': Session)
    requires CoreSafe(c) && IndexExact(c) && ServerSidsDistinct(c) && p in c.sess
    requires forall q :: q in c.sess && c.sess[q].sid != 0 ==> Hashed(c.sess[q].state)
    requires s'.role == Server ==> !IdInUse(c, s'.sid)
    ensures ServerSidsDistinct(Put(c, p, s'))
  {
    forall q | q in c.sess && q != p && c.sess[q].role == Server && c.sess[q].sid != 0 && s'.role == Server
      ensures c.sess[q].sid != s'.sid
    {
      assert q in c.buckets[Sesshash(c.sess[q].sid)];
    }
  }

  /** A session becomes connected and enters the bucket of its ID. */
  lemma HashKeeps(cfg: Config, c: Core, p: Ptr, s': Session, next: uint16)
    requires CoreInv(cfg, c) && p in c.sess && 1 <= next
    requires c.sess[p].state != Listening && !Hashed(c.sess[p].state)
    requires SessionFits(cfg, s', p in c.removing) && Hashed(s'.state)
    requires CoreSafe(c) && (s'.role == Server ==> !IdInUse(c, s'.sid))
    ensures CoreInv(cfg, Put(c.(buckets := AddToBucket(c.buckets, Sesshash(s'.sid), p), nextSid := next), p, s'))
  {
    IndexInsert(c, p, s', next);
    ServerSidsInsert(c, p, s');
  }

  // ----- what the handlers make of a single session

  lemma RequestFits(cfg: Config, s: Session, pkt: Packet, utag: Tag, rm: bool)
    requires SessionFits(cfg, s, rm) && s.state == SInit
    ensures SessionFits(cfg, RequestSession(cfg, s, pkt, utag), rm)
  {
  }

  lemma ConfirmFits(cfg: Config, s: Session, sid: uint16, hdr: uint16, pkt: Packet, utag: Tag, rm: bool)
    requires SessionFits(cfg, s, rm) && (s.state == SOffer || s.state == NewConnected)
    requires 1 <= sid <= SID_MAX && hdr == sid
    ensures SessionFits(cfg, ConfirmSession(s, sid, hdr, pkt, utag), rm)
  {
  }

  lemma JoinFits(cfg: Config, s: Session, sid: uint16, rm: bool)
    requires SessionFits(cfg, s, rm) && s.state == SReq
    ensures SessionFits(cfg, JoinSession(s, sid), rm)
  {
  }

  lemma ExpireFits(cfg: Config, p: Ptr, s: Session, rm: bool)
    requires SessionFits(cfg, s, rm) && s.neg.Some? && s.neg.value.pending.Some?
    ensures TimerState(s.state)
    ensures SessionFits(cfg, ExpireSession(cfg, p, s), rm || s.state == SOffer)
  {
  }

  // ----- one lemma for each event

  lemma ConnectKeeps(cfg: Config, c: Core, msg: InitMsg)
    requires CoreInv(cfg, c)
    ensures CoreInv(cfg, ConnectStep(c, cfg, msg).core)
  {
    var r := InitCheck(c, cfg, msg);
    if r.Found? && c.sess[r.ptr].state == SNone {
      PutKeeps(cfg, c, r.ptr, ConnectStep(c, cfg, msg).core.sess[r.ptr]);
    }
  }

  lemma OfferKeeps(cfg: Config, c: Core, msg: InitMsg)
    requires CoreInv(cfg, c)
    ensures CoreInv(cfg, OfferStep(c, cfg, msg).core)
  {
    var r := InitCheck(c, cfg, msg);
    if r.Found? && c.sess[r.ptr].state == SNone {
      PutKeeps(cfg, c, r.ptr, OfferStep(c, cfg, msg).core.sess[r.ptr]);
    }
  }

  lemma ServiceKeeps(cfg: Config, c: Core, msg: InitMsg)
    requires CoreInv(cfg, c)
    ensures CoreInv(cfg, ServiceStep(c, cfg, msg).core)
  {
    var r := InitCheck(c, cfg, msg);
    if r.Found? && c.sess[r.ptr].state == Primed {
      PutKeeps(cfg, c, r.ptr, ServiceStep(c, cfg, msg).core.sess[r.ptr]);
    }
  }

  lemma ListenKeeps(cfg: Config, c: Core, msg: InitMsg, taken: bool)
    requires CoreInv(cfg, c)
    requires !taken ==> forall q :: q in c.sess && c.sess[q].state == Listening ==>
      !SameName(c.sess[q].neg.value.service, MessageName(msg))
    ensures CoreInv(cfg, ListenStep(c, cfg, msg, taken).0.core)
  {
    var (r, added) := ListenStep(c, cfg, msg, taken);
    if added.Some? {
      var p := added.value;
      assert r.core.sess == c.sess[p := r.core.sess[p]];
      assert SessionFits(cfg, r.core.sess[p], p in c.removing);
      PutKeepsIndex(c, p, r.core.sess[p]);
      NewNameKeeps(c, p, r.core.sess[p]);
      PutKeepsSids(c, p, r.core.sess[p]);
    }
  }

  lemma NewNameKeeps(c: Core, p: Ptr, s': Session)
    requires ListenerNamesDistinct(c) && p in c.sess && s'.neg.Some?
    requires forall q :: q in c.sess && c.sess[q].state == Listening && c.sess[q].neg.Some? ==>
      !SameName(c.sess[q].neg.value.service, s'.neg.value.service)
    ensures ListenerNamesDistinct(Put(c, p, s'))
  {
  }

  lemma FromHookKeeps(cfg: Config, c: Core, p: Ptr, pkt: Packet)
    requires CoreInv(cfg, c) && p in c.sess
    ensures CoreInv(cfg, FromHookStep(c, cfg, p, pkt).core)
  {
    FromHookStepIs(cfg, c, p, pkt);
    if c.sess[p].state == Primed && pkt.code == PADI {
      PutKeeps(cfg, c, p, OfferSession(cfg, p, c.sess[p], pkt));
    }
  }

  lemma FromHookStepIs(cfg: Config, c: Core, p: Ptr, pkt: Packet)
    requires p in c.sess && (Negotiating(c.sess[p].state) ==> c.sess[p].neg.Some?)
    ensures FromHookStep(c, cfg, p, pkt).core ==
      if c.sess[p].state == Primed && pkt.code == PADI then Put(c, p, OfferSession(cfg, p, c.sess[p], pkt)) else c
  {
  }

  lemma PadoKeeps(cfg: Config, c: Core, pkt: Packet)
    requires CoreInv(cfg, c) && CoreSafe(c)
    ensures CoreInv(cfg, PadoStep(c, cfg, pkt).core)
  {
    var c' := PadoStep(c, cfg, pkt).core;
    if c' != c {
      var utag := FirstTag(ParseTags(TagArea(pkt)), PTT_HOST_UNIQ);
      var p := Addressee(c, utag).value;
      var s' := RequestSession(cfg, c.sess[p], pkt, utag.value);
      assert c' == Put(c, p, s');
      RequestFits(cfg, c.sess[p], pkt, utag.value, p in c.removing);
      PutKeeps(cfg, c, p, s');
    }
  }

  lemma PadrKeeps(cfg: Config, c: Core, pkt: Packet)
    requires CoreInv(cfg, c) && CoreSafe(c) && PadrCanAllocate(c, pkt)
    ensures CoreInv(cfg, PadrStep(c, cfg, pkt).core)
  {
    var target := PadrTarget(c, pkt);
    if target.Some? {
      var p := target.value;
      var s := c.sess[p];
      var utag := FirstTag(ParseTags(TagArea(pkt)), PTT_AC_COOKIE);
      if s.sid == 0 {
        var (sid, next) := NewSid(c);
        ConfirmFits(cfg, s, sid, sid, pkt, utag.value, p in c.removing);
        HashKeeps(cfg, c, p, ConfirmSession(s, sid, sid, pkt, utag.value), next);
      } else {
        ConfirmFits(cfg, s, s.sid, s.neg.value.sid, pkt, utag.value, p in c.removing);
        PutKeeps(cfg, c, p, ConfirmSession(s, s.sid, s.neg.value.sid, pkt, utag.value));
      }
    }
  }

  lemma PadsKeeps(cfg: Config, c: Core, pkt: Packet)
    requires CoreInv(cfg, c) && CoreSafe(c)
    ensures CoreInv(cfg, PadsStep(c, pkt).core)
  {
    var c' := PadsStep(c, pkt).core;
    if c' != c {
      var p := Addressee(c, FirstTag(ParseTags(TagArea(pkt)), PTT_HOST_UNIQ)).value;
      JoinFits(cfg, c.sess[p], pkt.sid, p in c.removing);
      HashKeeps(cfg, c, p, JoinSession(c.sess[p], pkt.sid), c.nextSid);
    }
  }

  lemma SessionDataKeeps(cfg: Config, c: Core, pkt: Packet)
    requires CoreInv(cfg, c) && CoreSafe(c)
    ensures CoreInv(cfg, SessionDataStep(c, pkt).core)
  {
    var r := FindSession(c, c.buckets[Sesshash(pkt.sid)], pkt.sid, pkt.src);
    if r.Some? && |pkt.body| >= pkt.length && c.sess[r.value].state == NewConnected {
      PutKeeps(cfg, c, r.value, c.sess[r.value].(state := Connected, neg := None));
    }
  }

  /** A session gives up: its timer is off and the removal of its hook is requested. */
  lemma GiveUpKeeps(cfg: Config, c: Core, p: Ptr, s': Session)
    requires CoreInv(cfg, c) && p in c.sess
    requires SessionFits(cfg, s', true) && StaysPut(c.sess[p], s')
    ensures CoreInv(cfg, Put(c, p, s').(removing := c.removing + {p}))
  {
    PutKeepsIndex(c, p, s');
    PutKeepsNames(c, p, s');
    PutKeepsSids(c, p, s');
  }

  lemma TimeoutKeeps(cfg: Config, c: Core, p: Ptr)
    requires CoreInv(cfg, c) && CoreSafe(c) && p in c.sess
    requires c.sess[p].neg.Some? && c.sess[p].neg.value.pending.Some?
    ensures CoreInv(cfg, TimeoutStep(c, cfg, p).core)
  {
    var s := c.sess[p];
    var s' := ExpireSession(cfg, p, s);
    ExpireFits(cfg, p, s, p in c.removing);
    if s.state == SOffer {
      GiveUpKeeps(cfg, c, p, s');
    } else {
      PutKeeps(cfg, c, p, s');
    }
  }

  lemma InsertAtHooks(hooks: seq<Hook>, at: nat, k: Hook)
    requires at <= |hooks|
    ensures forall x :: x in InsertAt(hooks, at, k) <==> x in hooks || x == k
  {
    var r := InsertAt(hooks, at, k);
    assert r[at] == k;
    forall i | 0 <= i < |hooks| ensures hooks[i] in r {
      assert hooks[i] == r[if i < at then i else i + 1];
    }
  }

  lemma InsertAtKeepsSessions(hooks: seq<Hook>, at: nat, k: Hook, p: Ptr)
    requires at <= |hooks| && (HasSession(hooks, p) || k.priv == Some(p))
    ensures HasSession(InsertAt(hooks, at, k), p)
  {
    var r := InsertAt(hooks, at, k);
    if HasSession(hooks, p) {
      var i :| 0 <= i < |hooks| && hooks[i].priv == Some(p);
      assert hooks[i] == r[if i < at then i else i + 1];
    } else {
      assert r[at] == k;
    }
  }

  lemma {:induction false} InsertAtDiffers(hooks: seq<Hook>, at: nat, k: Hook)
    requires HooksDiffer(hooks) && at <= |hooks|
    requires forall x :: x in hooks ==> x.name != k.name && (k.priv.Some? ==> x.priv != k.priv)
    ensures HooksDiffer(InsertAt(hooks, at, k))
  {
    if at == 0 {
      HooksDifferCons(k, hooks);
    } else {
      HooksDifferTail(hooks);
      InsertAtDiffers(hooks[1..], at - 1, k);
      InsertAtHooks(hooks[1..], at - 1, k);
      HooksDifferCons(hooks[0], InsertAt(hooks[1..], at - 1, k));
    }
  }

  lemma NewHookKeepsHooks(c: Core, at: nat, k: Hook)
    requires HooksExact(c) && at <= |c.hooks|
    requires forall x :: x in c.hooks ==> x.name != k.name
    requires k.priv.Some? ==> k.priv.value !in c.sess
    ensures
      var c' := c.(hooks := InsertAt(c.hooks, at, k));
      HooksExact(if k.priv.Some? then Put(c', k.priv.value, ZERO_SESSION) else c')
  {
    var hooks := InsertAt(c.hooks, at, k);
    InsertAtHooks(c.hooks, at, k);
    InsertAtDiffers(c.hooks, at, k);
    forall q: Ptr | q in c.sess || k.priv == Some(q) ensures HasSession(hooks, q) {
      InsertAtKeepsSessions(c.hooks, at, k, q);
    }
  }

  lemma NewHookKeeps(cfg: Config, c: Core, name: string, at: nat, p: Ptr)
    requires CoreInv(cfg, c) && CoreSafe(c) && Enabled(c, NewHook(name, at, p))
    ensures CoreInv(cfg, NewHookStep(c, name, at, p).core)
  {
    var special := name == HOOK_ETHERNET || name == HOOK_DEBUG;
    NewHookKeepsHooks(c, at, Hook(name, if special then None else Some(p)));
    var c1 := c.(hooks := InsertAt(c.hooks, at, Hook(name, if special then None else Some(p))));
    NewSessionKeeps(cfg, c1, p);
  }

  /** A new session is on no list and has no ID. */
  lemma NewSessionKeeps(cfg: Config, c: Core, p: Ptr)
    requires SessionsFit(cfg, c) && IndexExact(c) && p !in c.sess && c.removing <= c.sess.Keys
    requires ServerSidsDistinct(c) && ListenerNamesDistinct(c)
    ensures var c' := Put(c, p, ZERO_SESSION);
      SessionsFit(cfg, c') && IndexExact(c') && ServerSidsDistinct(c') && ListenerNamesDistinct(c')
  {
    assert SessionFits(cfg, ZERO_SESSION, false);
  }

  lemma HooksDifferCons(k: Hook, rest: seq<Hook>)
    requires HooksDiffer(rest)
    requires forall x :: x in rest ==> k.name != x.name && (k.priv.Some? ==> k.priv != x.priv)
    ensures HooksDiffer([k] + rest)
  {
  }

  lemma HooksDifferTail(hooks: seq<Hook>)
    requires HooksDiffer(hooks) && hooks != []
    ensures HooksDiffer(hooks[1..])
    ensures forall x :: x in hooks[1..] ==>
      hooks[0].name != x.name && (hooks[0].priv.Some? ==> hooks[0].priv != x.priv)
  {
    forall i | 0 <= i < |hooks[1..]| ensures hooks[1..][i] == hooks[i + 1] {
    }
  }

  lemma {:induction false} DropHookDiffers(hooks: seq<Hook>, p: Ptr)
    requires HooksDiffer(hooks)
    ensures HooksDiffer(DropHook(hooks, p))
  {
    if hooks != [] {
      HooksDifferTail(hooks);
      DropHookDiffers(hooks[1..], p);
      if hooks[0].priv != Some(p) {
        HooksDifferCons(hooks[0], DropHook(hooks[1..], p));
      }
    }
  }

  lemma DropHookKeepsSession(hooks: seq<Hook>, p: Ptr, q: Ptr)
    requires HasSession(hooks, q) && q != p
    ensures HasSession(DropHook(hooks, p), q)
  {
    var i :| 0 <= i < |hooks| && hooks[i].priv == Some(q);
    assert hooks[i] in DropHook(hooks, p);
  }

  /** When a session that is in a bucket is forgotten, it has to leave that bucket. */
  lemma ForgetKeeps(cfg: Config, c: Core, p: Ptr)
    requires CoreInv(cfg, c) && p in c.sess
    ensures !Hashed(c.sess[p].state) ==> CoreInv(cfg, Forget(c, p))
    ensures Hashed(c.sess[p].state) ==>
      CoreInv(cfg, Forget(c, p).(buckets := DelFromBucket(c.buckets, Sesshash(c.sess[p].sid), p)))
  {
    ForgetKeepsHooks(c, p);
    ForgetKeepsIndex(c, p);
  }

  lemma ForgetKeepsHooks(c: Core, p: Ptr)
    requires HooksExact(c) && p in c.sess
    ensures HooksExact(Forget(c, p))
  {
    var c' := Forget(c, p);
    DropHookDiffers(c.hooks, p);
    forall q: Ptr | q in c'.sess ensures HasSession(c'.hooks, q) {
      DropHookKeepsSession(c.hooks, p, q);
    }
  }

  lemma ForgetKeepsIndex(c: Core, p: Ptr)
    requires IndexExact(c) && p in c.sess
    ensures !Hashed(c.sess[p].state) ==> IndexExact(Forget(c, p))
    ensures Hashed(c.sess[p].state) ==>
      IndexExact(Forget(c, p).(buckets := DelFromBucket(c.buckets, Sesshash(c.sess[p].sid), p)))
  {
    var h := Sesshash(c.sess[p].sid);
    WithoutMembers(c.buckets[h], p);
    var b := DelFromBucket(c.buckets, h, p);
    assert forall i :: 0 <= i < 0x100 && i != h ==> b[i] == c.buckets[i];
    assert b[h] == Without(c.buckets[h], p);
  }

  lemma PadtKeeps(cfg: Config, c: Core, pkt: Packet)
    requires CoreInv(cfg, c) && CoreSafe(c)
    ensures CoreInv(cfg, PadtStep(c, pkt).core)
  {
    var r := FindSession(c, c.buckets[Sesshash(pkt.sid)], pkt.sid, pkt.src);
    if r.Some? {
      assert Placed(c.sess[r.value], Sesshash(pkt.sid));
      RemovingKeeps(cfg, c, r.value);
    }
  }

  // ----- all events

  lemma CommonStepKeeps(cfg: Config, c: Core, ev: Event)
    requires CoreInv(cfg, c) && CoreSafe(c) && Enabled(c, ev) && Common(ev)
    ensures CoreInv(cfg, CommonStep(c, cfg, ev).core)
  {
    match ev
    case NewHook(name, at, p) => NewHookKeeps(cfg, c, name, at, p);
    case ConnectMsg(msg) => ConnectKeeps(cfg, c, msg);
    case OfferMsg(msg) => OfferKeeps(cfg, c, msg);
    case ServiceMsg(msg) => ServiceKeeps(cfg, c, msg);
    case FromHook(p, pkt) => FromHookKeeps(cfg, c, p, pkt);
    case FromEther(pkt) =>
      if pkt.frame == SessionData {
        SessionDataKeeps(cfg, c, pkt);
      } else if pkt.frame == Discovery {
        if pkt.code == PADO { PadoKeeps(cfg, c, pkt); }
        else if pkt.code == PADR { PadrKeeps(cfg, c, pkt); }
        else if pkt.code == PADS { PadsKeeps(cfg, c, pkt); }
        else if pkt.code == PADT { PadtKeeps(cfg, c, pkt); }
      }
    case Timeout(p) => TimeoutKeeps(cfg, c, p);
    case OtherNodeTookSid(v) =>
  }
}
