/** The older node, which has no `listeners` list: it finds a listening session by scanning all
    hooks.  Only the three handlers that differ from `PppoeDriver` are here; each is proved to do
    the step that `StepBefore` gives. */
module PppoeScan {
  import opened Basics
  import opened PppoeTags
  import opened PppoeNode
  import opened PppoeDriver

  class ScanningNode {
    const cfg: Config
    var hooks: seq<Hook>
    var sess: map<Ptr, Session>
    var sesshash: seq<seq<Ptr>>
    var pppoeSid: uint16
    var removing: set<Ptr>

    ghost function View(): Core
      reads this
    {
      Core(hooks, sess, sesshash, pppoeSid, removing)
    }

    constructor (cfg: Config)
      ensures this.cfg == cfg && CoreSafe(View()) && hooks == [] && sess == map[]
    {
      this.cfg := cfg;
      hooks, sess, removing, pppoeSid := [], map[], {}, 1;
      sesshash := seq(0x100, _ => []);
    }

    /** `pppoe_match_svc`: hooks without a session and sessions not listening are skipped. */
    method MatchService(wanted: seq<byte>) returns (r: Option<Ptr>)
      requires CoreSafe(View())
      ensures r == MatchSvcScan(View(), hooks, wanted)
    {
      var i := 0;
      assert hooks[0..] == hooks;
      while i < |hooks|
        invariant i <= |hooks|
        invariant MatchSvcScan(View(), hooks, wanted) == MatchSvcScan(View(), hooks[i..], wanted)
      {
        var priv := hooks[i].priv;
        assert hooks[i] in hooks && hooks[i..][1..] == hooks[i + 1..];
        i := i + 1;
        if priv.None? || sess[priv.value].state != Listening {
          continue;
        }
        var service := sess[priv.value].neg.value.service;
        if |service| == 0 || (|service| == 1 && service[0] == STAR) {
          return priv;
        }
        var same := CompareNames(service, wanted);
        if same {
          return priv;
        }
      }
      return None;
    }

    /** `pppoe_find_svc`. */
    method FindService(name: seq<byte>) returns (r: Option<Ptr>)
      requires CoreSafe(View())
      ensures r == FindSvcScan(View(), hooks, name)
    {
      var i := 0;
      assert hooks[0..] == hooks;
      while i < |hooks|
        invariant i <= |hooks|
        invariant FindSvcScan(View(), hooks, name) == FindSvcScan(View(), hooks[i..], name)
      {
        var priv := hooks[i].priv;
        assert hooks[i] in hooks && hooks[i..][1..] == hooks[i + 1..];
        i := i + 1;
        if priv.None? || sess[priv.value].state != Listening {
          continue;
        }
        var same := CompareNames(sess[priv.value].neg.value.service, name);
        if same {
          return priv;
        }
      }
      return None;
    }

    method Listen(msg: InitMsg) returns (err: Errno, out: seq<Action>)
      requires CoreSafe(View())
      modifies this`sess
      ensures Result(View(), err, out) == StepBefore(old(View()), cfg, ListenMsg(msg))
    {
      out := [];
      if !msg.headerFits || |msg.payload| > cfg.nameMax || |msg.payload| < msg.dataLen {
        return EMSGSIZE, [];
      }
      var hook := FindHookByName(hooks, msg.hook);
      if hook.None? {
        return ENOENT, [];
      }
      if hook.value.priv.None? {
        return EINVAL, [];
      }
      var p := hook.value.priv.value;
      var name := msg.payload[..msg.dataLen];
      var taken := FindService(name);
      if taken.Some? {
        return EEXIST, [];
      }
      if sess[p].state != SNone {
        return EISCONN, [];
      }
      var neg := FRESH_NEG.(service := name, code := PADT);
      sess := sess[p := sess[p].(state := Listening, neg := Some(neg), role := Listener)];
      err := EOK;
    }

    method ReceivePadi(pkt: Packet) returns (err: Errno, out: seq<Action>)
      requires CoreSafe(View()) && pkt.frame == Discovery && pkt.code == PADI
      requires SearchesInside(pkt, {PTT_SRV_NAME})
      ensures Result(View(), err, out) == StepBefore(View(), cfg, FromEther(pkt))
    {
      var tag := LookupTag(pkt, PTT_SRV_NAME);
      if tag.None? {
        return ENETUNREACH, [];
      }
      var hook := MatchService(tag.value.data);
      if hook.None? {
        return ENETUNREACH, [];
      }
      return EOK, [ForwardToHook(hook.value, pkt)];
    }

    /** `ng_pppoe_disconnect` for a session hook. */
    method Disconnected(p: Ptr) returns (err: Errno, out: seq<Action>)
      requires CoreSafe(View()) && p in sess
      modifies this`hooks, this`sess, this`sesshash, this`removing
      ensures Result(View(), err, out) == StepBefore(old(View()), cfg, Disconnect(p))
    {
      var s := sess[p];
      out := [];
      if s.state == Connected || s.state == NewConnected {
        var body := EncodeTag(RawTag(PTT_GEN_ERR, SIGNOFF));
        out := [SendEther(Packet(Discovery, s.peer, cfg.mac, PADT, s.hdrSid, |body|, body))];
      }
      if s.sid != 0 {
        var hash := Sesshash(s.sid);
        sesshash := sesshash[hash := Without(sesshash[hash], p)];
      }
      hooks := DropHook(hooks, p);
      sess := sess - {p};
      removing := removing - {p};
      err := EOK;
    }
  }
}
