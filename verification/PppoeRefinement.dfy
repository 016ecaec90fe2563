/** The version with a listener list against the version that scans all hooks. */
module PppoeRefinement {
  import opened Basics
  import opened PppoeTags
  import opened PppoeNode
  import opened PppoeInvariants
  import opened PppoeRuns

  lemma ListenerHasHook(cfg: Config, n: Node, p: Ptr) returns (k: Hook)
    requires Inv(cfg, n) && p in n.listeners
    ensures k in n.core.hooks && k.priv == Some(p) && HookListens(n.core, k)
  {
    var i :| 0 <= i < |n.core.hooks| && n.core.hooks[i].priv == Some(p);
    k := n.core.hooks[i];
  }

  /** Both versions find the same listener for a name: names are pairwise distinct. */
  lemma FindSvcAgrees(cfg: Config, n: Node, name: seq<byte>)
    requires Inv(cfg, n) && Safe(n)
    ensures FindSvc(n.core, n.listeners, name) == FindSvcScan(n.core, n.core.hooks, name)
  {
    var a := FindSvc(n.core, n.listeners, name);
    var b := FindSvcScan(n.core, n.core.hooks, name);
    if a.Some? {
      var k := ListenerHasHook(cfg, n, a.value);
    }
    if b.Some? {
      var k :| k in n.core.hooks && HookListens(n.core, k) && k.priv == b;
      assert b.value in n.listeners;
    }
  }

  /** A service request is matched in one version exactly when it is in the other. */
  lemma MatchSvcAgrees(cfg: Config, n: Node, wanted: seq<byte>)
    requires Inv(cfg, n) && Safe(n)
    ensures MatchSvc(n.core, n.listeners, wanted).Some? <==> MatchSvcScan(n.core, n.core.hooks, wanted).Some?
    ensures var b := MatchSvcScan(n.core, n.core.hooks, wanted);
      b.Some? ==> b.value in n.listeners && Matches(n.core.sess[b.value].neg.value.service, wanted)
  {
    var a := MatchSvc(n.core, n.listeners, wanted);
    var b := MatchSvcScan(n.core, n.core.hooks, wanted);
    if a.Some? {
      var k := ListenerHasHook(cfg, n, a.value);
    }
    if b.Some? {
      var k :| k in n.core.hooks && HookListens(n.core, k) && k.priv == b;
      assert b.value in n.listeners;
    }
  }

  // ----- which listener is chosen

  ghost predicate AtMostOneMatches(n: Node, wanted: seq<byte>)
    requires Safe(n)
  {
    forall p, q :: p in n.listeners && q in n.listeners
      && Matches(n.core.sess[p].neg.value.service, wanted) && Matches(n.core.sess[q].neg.value.service, wanted)
      ==> p == q
  }

  /** With at most one matching listener both versions choose the same. */
  lemma ChoiceAgrees(cfg: Config, n: Node, wanted: seq<byte>)
    requires Inv(cfg, n) && Safe(n) && AtMostOneMatches(n, wanted)
    ensures MatchSvc(n.core, n.listeners, wanted) == MatchSvcScan(n.core, n.core.hooks, wanted)
  {
    MatchSvcAgrees(cfg, n, wanted);
  }

  /** The node with its hooks in another order, which the framework determines. */
  function WithHooks(n: Node, hooks: seq<Hook>): Node {
    n.(core := n.core.(hooks := hooks))
  }

  function HookToFront(hooks: seq<Hook>, i: nat): seq<Hook>
    requires i < |hooks|
  {
    [hooks[i]] + RemoveAt(hooks, i)
  }

  lemma SameElements(hooks: seq<Hook>, i: nat)
    requires i < |hooks|
    ensures multiset(HookToFront(hooks, i)) == multiset(hooks)
    ensures forall k :: k in HookToFront(hooks, i) <==> k in hooks
  {
    assert hooks == hooks[..i] + [hooks[i]] + hooks[i + 1..];
    assert RemoveAt(hooks, i) == hooks[..i] + hooks[i + 1..];
    forall k ensures k in HookToFront(hooks, i) <==> k in hooks {
      assert k in multiset(HookToFront(hooks, i)) <==> k in multiset(hooks);
    }
  }

  lemma RestDiffers(hooks: seq<Hook>, i: nat)
    requires i < |hooks| && HooksDiffer(hooks)
    ensures HooksDiffer(RemoveAt(hooks, i))
    ensures forall k :: k in RemoveAt(hooks, i) ==>
      hooks[i].name != k.name && (hooks[i].priv.Some? ==> hooks[i].priv != k.priv)
  {
    var rest := RemoveAt(hooks, i);
    forall j, k | 0 <= j < k < |rest|
      ensures rest[j].name != rest[k].name && (rest[j].priv.Some? ==> rest[j].priv != rest[k].priv)
    {
      assert rest[j] == hooks[if j < i then j else j + 1] && rest[k] == hooks[if k < i then k else k + 1];
    }
    forall j | 0 <= j < |rest|
      ensures hooks[i].name != rest[j].name && (hooks[i].priv.Some? ==> hooks[i].priv != rest[j].priv)
    {
      assert rest[j] == hooks[if j < i then j else j + 1];
    }
  }

  lemma HookToFrontSame(hooks: seq<Hook>, i: nat)
    requires i < |hooks| && HooksDiffer(hooks)
    ensures var r := HookToFront(hooks, i);
      && HooksDiffer(r) && multiset(r) == multiset(hooks)
      && forall k :: k in r <==> k in hooks
  {
    SameElements(hooks, i);
    RestDiffers(hooks, i);
    HooksDifferCons(hooks[i], RemoveAt(hooks, i));
  }

  lemma SameHooksExact(c: Core, r: seq<Hook>)
    requires HooksExact(c) && HooksDiffer(r) && forall k :: k in r <==> k in c.hooks
    ensures HooksExact(c.(hooks := r))
  {
    forall p: Ptr | p in c.sess ensures HasSession(r, p) {
      var j :| 0 <= j < |c.hooks| && c.hooks[j].priv == Some(p);
      assert c.hooks[j] in r;
    }
  }

  lemma OtherHooksKeep(cfg: Config, n: Node, r: seq<Hook>)
    requires Inv(cfg, n) && HooksExact(n.core.(hooks := r))
    ensures Inv(cfg, WithHooks(n, r))
  {
    assert CoreInv(cfg, WithHooks(n, r).core);
  }

  lemma HookToFrontKeeps(cfg: Config, n: Node, i: nat)
    requires Inv(cfg, n) && i < |n.core.hooks|
    ensures Inv(cfg, WithHooks(n, HookToFront(n.core.hooks, i)))
  {
    HookToFrontSame(n.core.hooks, i);
    SameHooksExact(n.core, HookToFront(n.core.hooks, i));
    OtherHooksKeep(cfg, n, HookToFront(n.core.hooks, i));
  }

  lemma {:induction false} SameSessionsSameMatch(c: Core, c': Core, ls: seq<Ptr>, wanted: seq<byte>)
    requires ListSafe(c, ls) && c'.sess == c.sess
    ensures MatchSvc(c', ls, wanted) == MatchSvc(c, ls, wanted)
  {
    if ls != [] {
      SameSessionsSameMatch(c, c', ls[1..], wanted);
    }
  }

  /** The hook scan finds any matching listener when its hook is the first. */
  lemma HookFirst(cfg: Config, n: Node, wanted: seq<byte>, other: Ptr) returns (hooks: seq<Hook>)
    requires Inv(cfg, n) && Safe(n) && other in n.listeners
    requires Matches(n.core.sess[other].neg.value.service, wanted)
    ensures multiset(hooks) == multiset(n.core.hooks)
    ensures var m := WithHooks(n, hooks);
      Inv(cfg, m) && Safe(m) && MatchSvcScan(m.core, hooks, wanted) == Some(other)
  {
    var k := ListenerHasHook(cfg, n, other);
    var i :| 0 <= i < |n.core.hooks| && n.core.hooks[i] == k;
    hooks := HookToFront(n.core.hooks, i);
    HookToFrontSame(n.core.hooks, i);
    HookToFrontKeeps(cfg, n, i);
    InvIsSafe(cfg, WithHooks(n, hooks));
  }

  /** Of two matching listeners one is found first on the list; the other may have the first hook. */
  lemma ChoiceDiffers(cfg: Config, n: Node, wanted: seq<byte>) returns (hooks: seq<Hook>)
    requires Inv(cfg, n) && Safe(n) && !AtMostOneMatches(n, wanted)
    ensures multiset(hooks) == multiset(n.core.hooks)
    ensures var m := WithHooks(n, hooks);
      && Inv(cfg, m) && Safe(m)
      && MatchSvc(m.core, m.listeners, wanted) != MatchSvcScan(m.core, hooks, wanted)
  {
    var p, q :| p in n.listeners && q in n.listeners && p != q
      && Matches(n.core.sess[p].neg.value.service, wanted) && Matches(n.core.sess[q].neg.value.service, wanted);
    hooks := HookFirst(cfg, n, wanted, if MatchSvc(n.core, n.listeners, wanted) == Some(p) then q else p);
    SameSessionsSameMatch(n.core, WithHooks(n, hooks).core, n.listeners, wanted);
  }

  /** The same node with its hooks in another order. */
  ghost predicate Reordered(cfg: Config, n: Node, m: Node) {
    m == WithHooks(n, m.core.hooks) && multiset(m.core.hooks) == multiset(n.core.hooks) && Inv(cfg, m) && Safe(m)
  }

  ghost predicate SameChoice(n: Node, wanted: seq<byte>)
    requires Safe(n)
  {
    MatchSvc(n.core, n.listeners, wanted) == MatchSvcScan(n.core, n.core.hooks, wanted)
  }

  /** Whether the two versions choose the same listener whatever the order of the hooks
      depends on one thing: that no two listeners match. */
  lemma ChoiceAgreesIff(cfg: Config, n: Node, wanted: seq<byte>)
    requires Inv(cfg, n) && Safe(n)
    ensures AtMostOneMatches(n, wanted) <==> forall m | Reordered(cfg, n, m) :: SameChoice(m, wanted)
  {
    if AtMostOneMatches(n, wanted) {
      forall m | Reordered(cfg, n, m) ensures SameChoice(m, wanted) {
        ChoiceAgrees(cfg, m, wanted);
      }
    } else {
      var hooks := ChoiceDiffers(cfg, n, wanted);
      assert Reordered(cfg, n, WithHooks(n, hooks));
    }
  }

  /** The same actions, except that a PADI may go to another listener that matches it. */
  ghost predicate SameActions(n: Node, ev: Event, a: seq<Action>, b: seq<Action>)
    requires Safe(n)
  {
    || a == b
    || (&& |a| == 1 && |b| == 1 && a[0].ForwardToHook? && b[0].ForwardToHook? && a[0].pkt == b[0].pkt
        && ev.FromEther? && WantedService(ev.pkt).Some?
        && a[0].ptr in n.listeners && b[0].ptr in n.listeners
        && Matches(n.core.sess[a[0].ptr].neg.value.service, WantedService(ev.pkt).value.data)
        && Matches(n.core.sess[b[0].ptr].neg.value.service, WantedService(ev.pkt).value.data))
  }

  /** One event: same state, same error code, same actions up to the choice of listener. */
  lemma StepsAgree(cfg: Config, n: Node, ev: Event)
    requires Inv(cfg, n) && Safe(n) && Enabled(n.core, ev)
    ensures StepBefore(n.core, cfg, ev).core == StepAfter(n, cfg, ev).node.core
    ensures StepBefore(n.core, cfg, ev).err == StepAfter(n, cfg, ev).err
    ensures SameActions(n, ev, StepAfter(n, cfg, ev).out, StepBefore(n.core, cfg, ev).out)
  {
    if !Common(ev) {
      match ev
      case ListenMsg(msg) =>
        FindSvcAgrees(cfg, n, MessageName(msg));
      case FromEther(pkt) =>
        var wanted := WantedService(pkt);
        if wanted.Some? {
          MatchSvcAgrees(cfg, n, wanted.value.data);
        }
      case Disconnect(p) =>
        assert SessionFits(cfg, n.core.sess[p], p in n.core.removing);
    }
  }

  /** With at most one matching listener the actions are the same altogether. */
  lemma ActionsAgree(cfg: Config, n: Node, ev: Event)
    requires Inv(cfg, n) && Safe(n) && Enabled(n.core, ev)
    requires !Common(ev) && ev.FromEther? && WantedService(ev.pkt).Some? ==>
      AtMostOneMatches(n, WantedService(ev.pkt).value.data)
    ensures StepBefore(n.core, cfg, ev).out == StepAfter(n, cfg, ev).out
  {
    StepsAgree(cfg, n, ev);
    if !Common(ev) && ev.FromEther? && WantedService(ev.pkt).Some? {
      ChoiceAgrees(cfg, n, WantedService(ev.pkt).value.data);
    }
  }

  ghost predicate RunBefore(cfg: Config, cs: seq<Core>, evs: seq<Event>) {
    && |cs| == |evs| + 1
    && forall i :: 0 <= i < |evs| ==>
         CoreSafe(cs[i]) && Enabled(cs[i], evs[i]) && cs[i + 1] == StepBefore(cs[i], cfg, evs[i]).core
  }

  /** What the older version does with the event is what the later one did. */
  ghost predicate Agrees(cfg: Config, n: Node, ev: Event, n': Node) {
    && Safe(n) && Enabled(n.core, ev)
    && n'.core == StepBefore(n.core, cfg, ev).core
    && StepAfter(n, cfg, ev).err == StepBefore(n.core, cfg, ev).err
    && SameActions(n, ev, StepAfter(n, cfg, ev).out, StepBefore(n.core, cfg, ev).out)
  }

  lemma RunStepAgrees(cfg: Config, ns: seq<Node>, evs: seq<Event>, i: nat)
    requires Run(cfg, ns, evs) && Clean(ns, evs) && i < |evs|
    ensures Agrees(cfg, ns[i], evs[i], ns[i + 1])
  {
    RunKeepsInv(cfg, ns, evs, i);
    StepsAgree(cfg, ns[i], evs[i]);
  }

  lemma {:induction false} SameStates(cfg: Config, ns: seq<Node>, cs: seq<Core>, evs: seq<Event>, i: nat)
    requires |ns| == |evs| + 1 && RunBefore(cfg, cs, evs) && cs[0] == ns[0].core && i <= |evs|
    requires forall k :: 0 <= k < i ==> Agrees(cfg, ns[k], evs[k], ns[k + 1])
    ensures cs[i] == ns[i].core
  {
    if i != 0 {
      SameStates(cfg, ns, cs, evs, i - 1);
      assert Agrees(cfg, ns[i - 1], evs[i - 1], ns[i - 1 + 1]);
    }
  }

  /** On the same events, from the same start, the two versions go through the same
      states and answer with the same actions up to the choice of listener. */
  lemma RunsAgree(cfg: Config, ns: seq<Node>, cs: seq<Core>, evs: seq<Event>, i: nat)
    requires Run(cfg, ns, evs) && Clean(ns, evs)
    requires RunBefore(cfg, cs, evs) && cs[0] == ns[0].core
    requires i <= |evs|
    ensures cs[i] == ns[i].core
    ensures i < |evs| ==> Agrees(cfg, ns[i], evs[i], ns[i + 1])
  {
    forall k | 0 <= k < |evs| ensures Agrees(cfg, ns[k], evs[k], ns[k + 1]) {
      RunStepAgrees(cfg, ns, evs, k);
    }
    SameStates(cfg, ns, cs, evs, i);
  }
}
