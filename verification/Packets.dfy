/** What the kernel does with a packet: which packets the live rule of a row matches, and where it sends them. */
module Packets {
  import opened Wrappers
  import opened Rules
  import opened Lockout
  import opened Firewall
  import opened BlockRules
  import opened BlockMirror
  import opened BlockFronts

  datatype Packet = Packet(
    protocol: string, src: string, dst: string, inIface: string, outIface: string, port: string)


  /** A live rule matches when all its matchers do; matchers outside the model never do. */
  predicate Matches(env: Env, r: LiveRule, p: Packet) {
    && r.extra == []
    && (r.protocol.Some? ==> r.protocol.value == p.protocol)
    && (r.src.Some? ==> env.contains(r.src.value, p.src)) && (r.dst.Some? ==> env.contains(r.dst.value, p.dst))
    && (r.inIface.Some? ==> r.inIface.value == p.inIface) && (r.outIface.Some? ==> r.outIface.value == p.outIface)
    && (r.dport.Some? ==> env.portIn(r.dport.value, p.port))
  }

  function FirstTarget(env: Env, rules: seq<LiveRule>, p: Packet): Option<Target> {
    if rules == [] then None
    else if Matches(env, rules[0], p) then Some(rules[0].target)
    else FirstTarget(env, rules[1..], p)
  }

  // ---------- what a row asks for ----------

  /** An address field that is absent or empty stands for every address. */
  predicate Within(env: Env, net: Option<string>, ip: string) {
    net == None || net == Some("") || env.contains(net.value, ip)
  }

  predicate OnPort(env: Env, port: Option<string>, p: string) {
    port == None || port == Some("") || env.portIn(port.value, p)
  }

  predicate OnIface(iface: Option<string>, name: string) {
    iface == None || iface == Some("") || iface == Some(name)
  }

  /** The packets a rule is about in a chain.  Both halves of a port forward are on the protocol of the rule: the first
      on the external port and interface, the second on exactly the target's address and port. */
  predicate Asked(env: Env, r: Rule, c: Chain, p: Packet) {
    match r
    case Forward(_, protocol, src, dst, dport) =>
      (protocol == "all" || protocol == p.protocol) && Within(env, src, p.src) && Within(env, dst, p.dst)
      && OnPort(env, dport, p.port)
    case Input(_, protocol, src, dport) =>
      (protocol == "all" || protocol == p.protocol) && Within(env, src, p.src) && OnPort(env, dport, p.port)
    case PortForward(protocol, ext, ip, port, iface) =>
      if c == PREROUTING then
        protocol == p.protocol && OnIface(iface, p.inIface) && (ext.Some? ==> env.portIn(ext.value, p.port))
      else protocol == p.protocol && env.contains(ip, p.dst) && (port.Some? ==> env.portIn(port.value, p.port))
    case Masquerade(src, out) => Within(env, src, p.src) && OnIface(out, p.outIface)
    case Snat(src, out, _) => Within(env, src, p.src) && OnIface(out, p.outIface)
    case ClientBlock(_, ip) => env.contains(ip, p.src)
  }

  /** Where those packets go. */
  function Sent(r: Rule, c: Chain): Target {
    match r
    case Forward(v, _, _, _, _) => Target.Jump(v)
    case Input(v, _, _, _) => Target.Jump(v)
    case PortForward(_, _, ip, port, _) => if c == PREROUTING then DnatTo(ip, port) else Target.Jump(ACCEPT)
    case Masquerade(_, _) => MasqueradeTarget
    case Snat(_, _, ip) => SnatTo(ip)
    case ClientBlock(_, _) => Target.Jump(DROP)
  }

  /** The rule printed for a row does what the row asks for. */
  lemma PrintedDoes(env: Env, row: Row, c: Chain, p: Packet)
    ensures Matches(env, Printed(row, c), p) <==> Asked(env, row.rule, c, p)
    ensures Printed(row, c).target == Sent(row.rule, c)
  {
  }

  /** The self-lockout guard's question is about a tcp packet to port 443 that no interface or destination rule
      concerns. */
  lemma GuardsPacket(env: Env, r: LiveRule, p: Packet)
    requires p.protocol == "tcp" && p.port == "443" && r.dst.None? && r.inIface.None? && r.outIface.None?
    ensures LiveMatches(env, r, p.src) <==> Matches(env, r, p)
  {
  }

  // ---------- blocked clients ----------

  lemma {:induction false} FirstAmong(env: Env, rules: seq<LiveRule>, p: Packet, c: Chain, k: nat)
    requires BlocksFirst(c, rules) && k < |rules| && rules[k].comment.BlockTag? && Matches(env, rules[k], p)
    requires forall r :: r in rules && r.comment.BlockTag? ==> r.target == Target.Jump(DROP)
    ensures FirstTarget(env, rules, p) == Some(Target.Jump(DROP))
  {
    hide Matches, OwnBlock;
    assert rules[0].comment.BlockTag?;
    assert rules[0] in rules;
    if !Matches(env, rules[0], p) {
      assert rules[1..][k - 1] == rules[k];
      FirstAmong(env, rules[1..], p, c, k - 1);
    }
  }

  /** A rule with a chain's own block tag is the rule of a client whose block is on. */
  lemma BlockIsOn(fw: Fw, c: Chain, r: LiveRule) returns (id: int)
    requires BlocksShown(fw) && c in {FORWARD, INPUT} && r in fw.live.At(c) && OwnBlock(c, r)
    ensures id in fw.table && fw.table[id].enabled && fw.table[id].rule.ClientBlock?
    ensures r == Printed(fw.table[id], c) && r.comment == TagOf(c, fw.table[id].rule.clientName)
  {
    hide Printed;
    var p := if c == INPUT then "-in:" else ":";
    var name := r.comment.rest[|p|..];
    assert p + name == r.comment.rest;
    assert r in BlocksOf(fw.live, c, name);
    assert Shown(fw.table, fw.live, name, c);
    id :| Blocking(fw.table, name, id);
    PrintedBlock(fw.table[id], c);
  }

  /** Packets of a blocked client are dropped in both chains, whatever stands behind the blocks. */
  lemma BlockedIsDropped(env: Env, fw: Fw, id: int, c: Chain, p: Packet)
    requires BlocksShown(fw) && c in {FORWARD, INPUT} && Fronted(fw.live, c)
    requires id in fw.table && fw.table[id].enabled && fw.table[id].rule.ClientBlock?
    requires env.contains(fw.table[id].rule.clientIp, p.src)
    ensures FirstTarget(env, fw.live.At(c), p) == Some(Target.Jump(DROP))
  {
    hide Printed, Matches, BlocksShown;
    var chain, row := fw.live.At(c), fw.table[id];
    PrintedDoes(env, row, c, p);
    OnIsLive(fw, id, c);
    var k :| 0 <= k < |chain| && chain[k] == Printed(row, c);
    forall r | r in chain && r.comment.BlockTag?
      ensures r.target == Target.Jump(DROP)
    {
      var i := BlockIsOn(fw, c, r);
      PrintedDoes(env, fw.table[i], c, p);
    }
    FirstAmong(env, chain, p, c, k);
  }

  lemma OnIsLive(fw: Fw, id: int, c: Chain)
    requires BlocksShown(fw) && c in {FORWARD, INPUT}
    requires id in fw.table && fw.table[id].enabled && fw.table[id].rule.ClientBlock?
    ensures Printed(fw.table[id], c) in fw.live.At(c) && Printed(fw.table[id], c).comment.BlockTag?
  {
    hide Printed;
    var name := fw.table[id].rule.clientName;
    PrintedBlock(fw.table[id], c);
    assert Shown(fw.table, fw.live, name, c) && Blocking(fw.table, name, id);
    assert Printed(fw.table[id], c) in BlocksOf(fw.live, c, name);
  }

  /** Along every run that starts with the blocks shown and in front: a client whose block is on has its packets
      dropped first of all, forwarded ones and those to the server; and once no block of the client is on, no rule in
      either chain carries its tag. */
  lemma BlockedAlongRuns(env: Env, fw: Fw, calls: seq<Call>, p: Packet, name: string)
    requires BlocksShown(fw) && Fronted(fw.live, FORWARD) && Fronted(fw.live, INPUT)
    ensures var t := Run(env, fw, calls);
            && (forall id :: id in t.table && t.table[id].enabled && t.table[id].rule.ClientBlock?
                             && env.contains(t.table[id].rule.clientIp, p.src) ==>
                  FirstTarget(env, t.live.forward, p) == FirstTarget(env, t.live.input, p) == Some(Target.Jump(DROP)))
            && ((forall id :: id in t.table && t.table[id].rule.ClientBlock? && t.table[id].rule.clientName == name ==>
                   !t.table[id].enabled) ==>
                  (forall r :: r in t.live.forward ==> r.comment != BlockTag(":" + name))
                  && (forall r :: r in t.live.input ==> r.comment != BlockTag("-in:" + name)))
  {
    hide BlocksShown, Fronted, Run, Matches;
    RunKeepsBlocks(env, fw, calls);
    RunKeepsFront(env, fw, calls, FORWARD);
    RunKeepsFront(env, fw, calls, INPUT);
    var t := Run(env, fw, calls);
    assert t.live.At(FORWARD) == t.live.forward && t.live.At(INPUT) == t.live.input;
    forall id | id in t.table && t.table[id].enabled && t.table[id].rule.ClientBlock?
                && env.contains(t.table[id].rule.clientIp, p.src)
      ensures FirstTarget(env, t.live.forward, p) == FirstTarget(env, t.live.input, p) == Some(Target.Jump(DROP))
    {
      BlockedIsDropped(env, t, id, FORWARD, p);
      BlockedIsDropped(env, t, id, INPUT, p);
    }
    if forall id :: id in t.table && t.table[id].rule.ClientBlock? && t.table[id].rule.clientName == name ==>
         !t.table[id].enabled {
      OffIsGone(t, name, FORWARD);
      OffIsGone(t, name, INPUT);
    }
  }

  lemma OffIsGone(fw: Fw, name: string, c: Chain)
    requires BlocksShown(fw) && c in {FORWARD, INPUT}
    requires forall id :: id in fw.table && fw.table[id].rule.ClientBlock? && fw.table[id].rule.clientName == name ==>
               !fw.table[id].enabled
    ensures forall r :: r in fw.live.At(c) ==> r.comment != BlockTag((if c == INPUT then "-in:" else ":") + name)
  {
    assert Shown(fw.table, fw.live, name, c);
    forall r | r in fw.live.At(c)
      ensures r.comment != TagOf(c, name)
    {
      assert HasTag(TagOf(c, name))(r) ==> r in BlocksOf(fw.live, c, name);
    }
  }
}
