/** Runs that show that the exceptions are real: a bucket that holds a freed session, a session
    that waits without a timer, a node on which the two versions choose different listeners,
    and a node that has no session ID left when a request comes in. */
module PppoeWitnesses {
  import opened Basics
  import opened PppoeTags
  import opened PppoeNode
  import opened PppoeInvariants
  import opened PppoeRuns
  import opened PppoeTimers
  import opened PppoeRefinement
  import opened PppoeAllocator
  import opened PppoeHandshake
  import opened PppoeScripts

  const P: Ptr := 7
  const Q: Ptr := 9
  const HOOK: string := "hook"

  // ----- a freed session in a bucket

  /** The peer of a client session confirms it with ID 0, and its hook is removed. */
  function Dangling(): seq<Event> {
    Joining(HOOK, P, 0) + [Disconnect(P)]
  }

  /** From any initial node these five events lead to an inexact index. */
  lemma DanglingRun(cfg: Config, n0: Node) returns (ns: seq<Node>)
    requires Initial(n0)
    ensures Run(cfg, ns, Dangling()) && ns[0] == n0
    ensures !Clean(ns, Dangling())
    ensures !IndexExact(ns[5].core)
  {
    InitialHasInv(cfg, n0);
    var joined := Joins(cfg, n0, HOOK, P, 0);
    StretchIsRun(cfg, joined, Joining(HOOK, P, 0));
    IndexExactIff(cfg, joined[4], Disconnect(P));
    ns := LongerRun(cfg, joined, Joining(HOOK, P, 0), Disconnect(P));
    assert ns[4] == joined[4] && Dangling()[4] == Disconnect(P);
    assert LeavesDangling(ns[4].core, Dangling()[4]);
  }

  // ----- a server session that gave up

  function GivingUp(): seq<Event> {
    Offering(HOOK, P) + [Timeout(P)]
  }

  lemma GaveUp(cfg: Config, n: Node) returns (n': Node)
    requires Inv(cfg, n) && Safe(n) && P in n.core.sess && n.core.sess[P].state == SOffer && P !in n.core.removing
    ensures Goes(cfg, n, Timeout(P), n') && Inv(cfg, n') && Safe(n')
    ensures P in n'.core.sess && n'.core.sess[P].state == SOffer && !Pending(n'.core.sess[P])
  {
    TimerArmedIff(cfg, n.core, P);
    n' := GoesOn(cfg, n, Timeout(P));
    TimerArmedIff(cfg, n'.core, P);
  }

  /** From any initial node these four events lead to a session in SOFFER without a timer. */
  lemma UnarmedRun(cfg: Config, n0: Node) returns (ns: seq<Node>)
    requires Initial(n0)
    ensures Run(cfg, ns, GivingUp()) && Clean(ns, GivingUp()) && ns[0] == n0
    ensures P in ns[4].core.sess && ns[4].core.sess[P].state == SOffer && !Pending(ns[4].core.sess[P])
  {
    InitialHasInv(cfg, n0);
    var offered := Offers(cfg, n0, HOOK, P);
    var n4 := GaveUp(cfg, offered[3]);
    LongerStretch(cfg, offered, Offering(HOOK, P), Timeout(P), n4);
    ns := offered + [n4];
    StretchIsRun(cfg, ns, GivingUp());
  }

  // ----- two listeners that match everything

  /** The second hook is linked behind the first. */
  function TwoListeners(): seq<Event> {
    [NewHook("one", 0, P), NewHook("two", 1, Q),
     ListenMsg(InitMsg(true, "one", [STAR], 1)), ListenMsg(Request("two"))]
  }

  lemma SecondHook(cfg: Config, n: Node) returns (n': Node)
    requires Inv(cfg, n) && Safe(n) && n.listeners == []
    requires n.core.hooks == [Hook("one", Some(P))] && n.core.sess == map[P := ZERO_SESSION]
    ensures Goes(cfg, n, TwoListeners()[1], n') && Inv(cfg, n') && Safe(n') && n'.listeners == []
    ensures n'.core.hooks == [Hook("one", Some(P)), Hook("two", Some(Q))]
    ensures n'.core.sess == map[P := ZERO_SESSION, Q := ZERO_SESSION]
  {
    n' := GoesOn(cfg, n, TwoListeners()[1]);
  }

  lemma FirstListens(cfg: Config, n: Node) returns (n': Node)
    requires cfg.nameMax >= 1 && Inv(cfg, n) && Safe(n) && n.listeners == []
    requires n.core.hooks == [Hook("one", Some(P)), Hook("two", Some(Q))]
    requires n.core.sess == map[P := ZERO_SESSION, Q := ZERO_SESSION]
    ensures Goes(cfg, n, TwoListeners()[2], n') && Inv(cfg, n') && Safe(n')
    ensures n'.listeners == [P] && n'.core.hooks == n.core.hooks
    ensures P in n'.core.sess && n'.core.sess[P].state == Listening && n'.core.sess[P].neg.value.service == [STAR]
    ensures Q in n'.core.sess && n'.core.sess[Q] == ZERO_SESSION
  {
    var ev := TwoListeners()[2];
    assert InitCheck(n.core, cfg, ev.msg) == Found(P);
    n' := GoesOn(cfg, n, ev);
  }

  lemma SecondListens(cfg: Config, n: Node) returns (n': Node)
    requires Inv(cfg, n) && Safe(n) && n.listeners == [P]
    requires n.core.hooks == [Hook("one", Some(P)), Hook("two", Some(Q))]
    requires P in n.core.sess && n.core.sess[P].state == Listening && n.core.sess[P].neg.value.service == [STAR]
    requires Q in n.core.sess && n.core.sess[Q] == ZERO_SESSION
    ensures Goes(cfg, n, TwoListeners()[3], n') && Inv(cfg, n') && Safe(n')
    ensures n'.listeners == [Q, P] && n'.core.hooks == n.core.hooks
    ensures P in n'.core.sess && n'.core.sess[P] == n.core.sess[P]
    ensures Q in n'.core.sess && n'.core.sess[Q].state == Listening && n'.core.sess[Q].neg.value.service == []
  {
    var ev := TwoListeners()[3];
    assert InitCheck(n.core, cfg, ev.msg) == Found(Q);
    assert FindSvc(n.core, [P], []) == None;
    n' := GoesOn(cfg, n, ev);
  }

  /** From any initial node these four events lead to one on which every PADI that names a
      service goes to one listener in the one version and to the other in the other. */
  lemma DifferentChoiceRun(cfg: Config, n0: Node) returns (ns: seq<Node>)
    requires Initial(n0) && cfg.nameMax >= 1
    ensures Run(cfg, ns, TwoListeners()) && Clean(ns, TwoListeners()) && ns[0] == n0
    ensures var n := ns[4];
      && Inv(cfg, n) && Safe(n)
      && forall wanted :: MatchSvc(n.core, n.listeners, wanted) == Some(Q)
                          && MatchSvcScan(n.core, n.core.hooks, wanted) == Some(P)
  {
    InitialHasInv(cfg, n0);
    var n1 := Hooked(cfg, n0, "one", P);
    var n2 := SecondHook(cfg, n1);
    var n3 := FirstListens(cfg, n2);
    var n4 := SecondListens(cfg, n3);
    TwoChoices(n4);
    ns := [n0, n1, n2, n3, n4];
    var evs := TwoListeners();
    FourSteps(cfg, n0, n1, n2, n3, n4, evs[0], evs[1], evs[2], evs[3]);
    StretchIsRun(cfg, ns, evs);
  }

  lemma TwoChoices(n: Node)
    requires Safe(n) && n.listeners == [Q, P] && n.core.hooks == [Hook("one", Some(P)), Hook("two", Some(Q))]
    requires P in n.core.sess && n.core.sess[P].state == Listening && n.core.sess[P].neg.value.service == [STAR]
    requires Q in n.core.sess && n.core.sess[Q].state == Listening && n.core.sess[Q].neg.value.service == []
    ensures forall wanted :: MatchSvc(n.core, n.listeners, wanted) == Some(Q)
                             && MatchSvcScan(n.core, n.core.hooks, wanted) == Some(P)
  {
    forall wanted
      ensures MatchSvc(n.core, n.listeners, wanted) == Some(Q)
      ensures MatchSvcScan(n.core, n.core.hooks, wanted) == Some(P)
    {
      MatchSvcIsFirst(n.core, n.listeners, 0, wanted);
      MatchSvcScanIsFirst(n.core, n.core.hooks, 0, wanted);
    }
  }

  // ----- no session ID left

  /** A different name for the hook of every session. */
  ghost predicate GoodNames(names: nat -> string) {
    && (forall j, k {:trigger names(j), names(k)} :: j < 0x1_0000 && k < 0x1_0000 && names(j) == names(k) ==> j == k)
    && (forall k :: names(k) != HOOK_ETHERNET && names(k) != HOOK_DEBUG)
  }

  /** Three characters are enough. */
  lemma SomeNames() returns (names: nat -> string)
    ensures GoodNames(names)
  {
    names := ThreeDigits;
    forall j: nat, k: nat | j < 0x1_0000 && k < 0x1_0000 && names(j) == names(k) ensures j == k {
      assert ThreeDigits(j) == ThreeDigits(k);
      DigitsDiffer(j / 0x1000 % 0x40, k / 0x1000 % 0x40, ThreeDigits(j)[0]);
      DigitsDiffer(j / 0x40 % 0x40, k / 0x40 % 0x40, ThreeDigits(j)[1]);
      DigitsDiffer(j % 0x40, k % 0x40, ThreeDigits(j)[2]);
      DigitsMake(j);
      DigitsMake(k);
    }
  }

  function ThreeDigits(k: nat): (name: string)
    ensures |name| == 3
  {
    [Digit(k / 0x1000 % 0x40), Digit(k / 0x40 % 0x40), Digit(k % 0x40)]
  }

  function Digit(d: nat): char
    requires d < 0x40
  {
    (0x30 + d) as char
  }

  lemma DigitsMake(k: nat)
    requires k < 0x1_0000
    ensures k == 0x1000 * (k / 0x1000 % 0x40) + 0x40 * (k / 0x40 % 0x40) + k % 0x40
  {
  }

  lemma DigitsDiffer(c: nat, d: nat, x: char)
    requires c < 0x40 && d < 0x40 && Digit(c) == x && Digit(d) == x
    ensures c == d
  {
    assert x as int == 0x30 + c == 0x30 + d;
  }

  /** IDs 1 to `k` are held by connected sessions, each at the address of the same number ... */
  ghost predicate Held(n: Node, k: nat) {
    forall p: Ptr :: 1 <= p <= k ==>
      p in n.core.sess && Hashed(n.core.sess[p].state) && n.core.sess[p].sid == p
  }

  /** ... and on the hook with its name. */
  ghost predicate Named(names: nat -> string, hooks: seq<Hook>, k: nat) {
    forall h :: h in hooks ==> h.priv.Some? && 1 <= h.priv.value <= k && h.name == names(h.priv.value)
  }

  lemma NextIsAddable(cfg: Config, names: nat -> string, n: Node, k: nat)
    requires GoodNames(names) && Inv(cfg, n) && k + 1 < 0x1_0000 && Named(names, n.core.hooks, k)
    ensures Addable(n, names(k + 1), k + 1)
  {
    forall h | h in n.core.hooks ensures h.name != names(k + 1) {
      assert h.name == names(h.priv.value);
    }
    assert (k + 1) in n.core.sess ==> HasSession(n.core.hooks, k + 1);
  }

  lemma StayHeld(cfg: Config, ns: seq<Node>, evs: seq<Event>, k: nat)
    requires Stretch(cfg, ns, evs) && Inv(cfg, ns[0]) && Held(ns[0], k)
    requires forall e :: e in evs ==> !e.Disconnect?
    ensures Held(ns[|evs|], k)
  {
    forall p: Ptr | 1 <= p <= k
      ensures p in ns[|evs|].core.sess && Hashed(ns[|evs|].core.sess[p].state) && ns[|evs|].core.sess[p].sid == p
    {
      StaysConnected(cfg, ns, evs, p);
    }
  }

  lemma OneMoreHeld(n: Node, k: nat)
    requires Held(n, k) && k + 1 < 0x1_0000
    requires (k + 1) in n.core.sess && Hashed(n.core.sess[k + 1].state) && n.core.sess[k + 1].sid == k + 1
    ensures Held(n, k + 1)
  {
  }

  lemma OneMoreNamed(names: nat -> string, hooks: seq<Hook>, k: nat)
    requires k + 1 < 0x1_0000 && Named(names, hooks, k)
    ensures Named(names, [Hook(names(k + 1), Some(k + 1))] + hooks, k + 1)
  {
  }

  /** One more session, held and named like the others. */
  lemma JoinsHeld(cfg: Config, n: Node, k: nat, name: string) returns (ns: seq<Node>)
    requires Inv(cfg, n) && Safe(n) && k < SID_MAX && Held(n, k) && Addable(n, name, k + 1)
    ensures Stretch(cfg, ns, Joining(name, k + 1, k + 1)) && ns[0] == n
    ensures Inv(cfg, ns[4]) && Safe(ns[4]) && Held(ns[4], k + 1)
    ensures ns[4].core.hooks == [Hook(name, Some(k + 1))] + n.core.hooks
  {
    ns := Joins(cfg, n, name, k + 1, k + 1);
    JoiningRemovesNone(name, k + 1, k + 1);
    StayHeld(cfg, ns, Joining(name, k + 1, k + 1), k);
    OneMoreHeld(ns[4], k);
  }

  lemma JoiningRemovesNone(name: string, p: Ptr, sid: uint16)
    ensures |Joining(name, p, sid)| == 4 && forall e :: e in Joining(name, p, sid) ==> !e.Disconnect?
  {
  }

  lemma FillOne(cfg: Config, names: nat -> string, n: Node, k: nat) returns (ns: seq<Node>)
    requires GoodNames(names) && Inv(cfg, n) && Safe(n) && k < SID_MAX && Held(n, k) && Named(names, n.core.hooks, k)
    ensures Stretch(cfg, ns, Joining(names(k + 1), k + 1, k + 1)) && ns[0] == n
    ensures Inv(cfg, ns[4]) && Safe(ns[4]) && Held(ns[4], k + 1) && Named(names, ns[4].core.hooks, k + 1)
  {
    NextIsAddable(cfg, names, n, k);
    ns := JoinsHeld(cfg, n, k, names(k + 1));
    OneMoreNamed(names, n.core.hooks, k);
  }

  /** A stretch of events after which the IDs from 1 to `k` are used up. */
  ghost predicate Fills(cfg: Config, names: nat -> string, ns: seq<Node>, evs: seq<Event>, k: nat)
    requires k < 0x1_0000
  {
    && Stretch(cfg, ns, evs) && Inv(cfg, ns[|evs|]) && Safe(ns[|evs|])
    && Held(ns[|evs|], k) && Named(names, ns[|evs|].core.hooks, k)
  }

  lemma FillMore(cfg: Config, names: nat -> string, before: seq<Node>, sofar: seq<Event>, k: nat)
      returns (ns: seq<Node>, evs: seq<Event>)
    requires GoodNames(names) && k < SID_MAX && Fills(cfg, names, before, sofar, k)
    ensures Fills(cfg, names, ns, evs, k + 1) && ns[0] == before[0]
  {
    var more := FillOne(cfg, names, before[|sofar|], k);
    evs := sofar + Joining(names(k + 1), k + 1, k + 1);
    ns := JoinStretches(cfg, before, sofar, more, Joining(names(k + 1), k + 1, k + 1));
  }

  lemma FillNone(cfg: Config, names: nat -> string, n0: Node)
    requires Initial(n0)
    ensures Fills(cfg, names, [n0], [], 0)
  {
    InitialHasInv(cfg, n0);
  }

  /** From any initial node some run uses up the IDs from 1 to `k`. */
  lemma {:induction false} FilledRun(cfg: Config, names: nat -> string, n0: Node, k: nat)
      returns (ns: seq<Node>, evs: seq<Event>)
    requires GoodNames(names) && Initial(n0) && k <= SID_MAX
    ensures Fills(cfg, names, ns, evs, k) && ns[0] == n0
  {
    if k == 0 {
      ns, evs := [n0], [];
      FillNone(cfg, names, n0);
    } else {
      ns, evs := FilledRun(cfg, names, n0, k - 1);
      ns, evs := FillMore(cfg, names, ns, evs, k - 1);
    }
  }

  const LAST: Ptr := 0xffff

  /** The request of a client that got the offer of server session LAST. */
  function Padr(): Packet {
    Packet(Discovery, ZERO_MAC, ZERO_MAC, PADR, 0, |EncodeTag(Cookie(LAST))|, EncodeTag(Cookie(LAST)))
  }

  lemma NoneFree(cfg: Config, n: Node)
    requires Inv(cfg, n) && Safe(n) && Held(n, SID_MAX)
    ensures !SomeIdFree(n.core)
  {
    forall v: uint16 | 1 <= v <= SID_MAX ensures IdInUse(n.core, v) {
      assert v in n.core.sess;
      IdInUseIsScan(cfg, n.core, v);
    }
  }

  /** From any initial node some run leads to one on which a first request meets a session that
      offered, while every candidate of the allocator, in whatever turn, is in use. */
  lemma NoIdLeftRun(cfg: Config, n0: Node) returns (ns: seq<Node>, evs: seq<Event>)
    requires Initial(n0)
    ensures Run(cfg, ns, evs) && Clean(ns, evs) && ns[0] == n0
    ensures Safe(ns[|evs|])
    ensures var c := ns[|evs|].core;
      && PadrTarget(c, Padr()) == Some(LAST) && SearchesInside(Padr(), EtherSearches(c, Padr()))
      && LAST in c.sess && c.sess[LAST].state == SOffer && c.sess[LAST].sid == 0
      && !SomeIdFree(c) && forall turn: nat :: IdInUse(c, Candidate(c.nextSid, turn))
  {
    var names := SomeNames();
    var filled, sofar := FilledRun(cfg, names, n0, SID_MAX);
    var n := filled[|sofar|];
    NextIsAddable(cfg, names, n, SID_MAX);
    var offered := Offers(cfg, n, names(LAST), LAST);
    StayHeld(cfg, offered, Offering(names(LAST), LAST), SID_MAX);
    NoneFree(cfg, offered[3]);
    RequestMeets(cfg, offered[3], names(LAST));
    AllocatorReturnsIff(offered[3].core);
    evs := sofar + Offering(names(LAST), LAST);
    ns := JoinStretches(cfg, filled, sofar, offered, Offering(names(LAST), LAST));
    StretchIsRun(cfg, ns, evs);
  }

  lemma RequestMeets(cfg: Config, n: Node, name: string)
    requires Fronted(cfg, n, name, LAST) && n.core.sess[LAST].state == SOffer
    ensures PadrTarget(n.core, Padr()) == Some(LAST)
    ensures SearchesInside(Padr(), EtherSearches(n.core, Padr()))
  {
    OneTag(Padr(), Cookie(LAST));
    AddresseeIs(cfg, n, name, LAST, Cookie(LAST));
  }
}
