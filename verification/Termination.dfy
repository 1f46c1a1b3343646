/**
 Floods end. A request of time-to-live t weighs f^t, where f exceeds the fan-out of every node and
 the number of nodes; a reply weighs one plus the number of nodes that would still take it. Every
 delivery lowers the total weight in the air, so a discovery and its retries cause a computable
 number of deliveries, replies included.
 */
module Termination {
  import opened SequenceNumbers
  import opened Aodv
  import opened Network
  import opened LoopFreedom
  import opened RecordFilter
  import opened SeekTimer
  import opened Sets

  // ---------- the weight in the air ----------

  function Power(f: nat, t: nat): (r: nat)
    ensures f >= 1 ==> r >= 1
  {
    if t == 0 then 1 else f * Power(f, t - 1)
  }

  /** `n` times `w`, kept away from the solver's nonlinear arithmetic. */
  function Copies(n: nat, w: nat): nat {
    if n == 0 then 0 else Copies(n - 1, w) + w
  }

  lemma {:induction false} CopiesIsProduct(n: nat, w: nat)
    ensures Copies(n, w) == n * w
  {
    if n > 0 {
      CopiesIsProduct(n - 1, w);
    }
  }

  lemma {:induction false} CopiesMonotone(a: nat, b: nat, w: nat, w': nat)
    requires a <= b && w <= w'
    ensures Copies(a, w) <= Copies(b, w')
  {
    if b > 0 {
      CopiesMonotone(if a == b then a - 1 else a, b - 1, w, w');
    }
  }

  lemma {:induction false} CopiesOfSum(n: nat, v: nat, w: nat)
    ensures Copies(n, v + w) == Copies(n, v) + Copies(n, w)
  {
    if n > 0 {
      CopiesOfSum(n - 1, v, w);
    }
  }

  ghost function Willing(nodes: map<Addr, Node>, m: Message): set<Addr> {
    set n | n in nodes && Accepts(nodes[n].table, m, m.cost)
  }

  ghost function PacketWeight(nodes: map<Addr, Node>, f: nat, p: Packet): nat {
    if p.msg.Rreq? then Power(f, p.ttl) else 1 + |Willing(nodes, p.msg)|
  }

  ghost function Potential(nodes: map<Addr, Node>, f: nat, air: seq<Packet>): nat {
    if air == [] then 0 else PacketWeight(nodes, f, air[0]) + Potential(nodes, f, air[1..])
  }

  lemma {:induction false} PotentialOfSum(nodes: map<Addr, Node>, f: nat, a: seq<Packet>, b: seq<Packet>)
    ensures Potential(nodes, f, a + b) == Potential(nodes, f, a) + Potential(nodes, f, b)
  {
    if a == [] {
      assert a + b == b;
    } else {
      assert (a + b)[1..] == a[1..] + b;
      PotentialOfSum(nodes, f, a[1..], b);
    }
  }

  lemma PotentialWithout(nodes: map<Addr, Node>, f: nat, air: seq<Packet>, i: nat)
    requires i < |air|
    ensures Potential(nodes, f, air) == Potential(nodes, f, Without(air, i)) + PacketWeight(nodes, f, air[i])
  {
    assert air == air[..i] + ([air[i]] + air[i + 1..]);
    PotentialOfSum(nodes, f, air[..i], [air[i]] + air[i + 1..]);
    PotentialOfSum(nodes, f, [air[i]], air[i + 1..]);
    PotentialOfSum(nodes, f, air[..i], air[i + 1..]);
    assert [air[i]][1..] == [];
  }

  lemma {:induction false} PotentialAtMost(nodes: map<Addr, Node>, f: nat, air: seq<Packet>, w: nat)
    requires forall p <- air :: PacketWeight(nodes, f, p) <= w
    ensures Potential(nodes, f, air) <= Copies(|air|, w)
  {
    if air != [] {
      assert air[0] in air && forall p <- air[1..] :: p in air;
      PotentialAtMost(nodes, f, air[1..], w);
    }
  }

  lemma {:induction false} PotentialShrinks(nodes: map<Addr, Node>, nodes': map<Addr, Node>, f: nat, air: seq<Packet>)
    requires forall p <- air :: PacketWeight(nodes', f, p) <= PacketWeight(nodes, f, p)
    ensures Potential(nodes', f, air) <= Potential(nodes, f, air)
  {
    if air != [] {
      assert air[0] in air;
      PotentialShrinks(nodes, nodes', f, air[1..]);
    }
  }

  // ---------- fan-out ----------

  /** The copies in the air after one flood or one forwarding: three broadcasts, each on every channel. */
  function FanOut(topo: Topology, n: Addr): nat {
    3 * (|Neighbours(topo, n, 0)| + |Neighbours(topo, n, 1)| + |Neighbours(topo, n, 2)|)
  }

  /** `fan` bounds the copies one transmission puts in the air. */
  ghost predicate Bounded(topo: Topology, s: Net, fan: nat) {
    forall n <- s.nodes :: FanOut(topo, n) <= fan
  }

  /** `f` can serve as the base of the weights. */
  ghost predicate Heavy(topo: Topology, s: Net, fan: nat, f: nat) {
    Bounded(topo, s, fan) && f > fan && f > |s.nodes| + 1
  }

  lemma ThreeFloods(topo: Topology, n: Addr, ttl: u8, m0: Message, m1: Message, m2: Message)
    ensures |Transmit(topo, n, [Broadcast(0, ttl, m0), Broadcast(1, ttl, m1), Broadcast(2, ttl, m2)])|
             == FanOut(topo, n)
  {
    ThreeBroadcasts(topo, n, ttl, m0, m1, m2);
  }

  // ---------- replies ----------

  lemma WillingShrinks(topo: Topology, s: Net, e: Event, s': Net, m: Message)
    requires Good(topo, s) && InRange(s) && Shaped(s, e, s') && Good(topo, s') && InRange(s')
    requires SmallMessage(m) && 1 <= m.Seqno()
    ensures Willing(s'.nodes, m) <= Willing(s.nodes, m)
  {
    forall n | n in Willing(s'.nodes, m) ensures n in Willing(s.nodes, m) {
      OrdinaryTable(topo, s, n);
      OrdinaryTable(topo, s', n);
      GuardIsRefusal(s.nodes[n].table, m, m.cost);
      GuardIsRefusal(s'.nodes[n].table, m, m.cost);
      if n !in Willing(s.nodes, m) {
        RefusalLasts(topo, s, e, s', n, m.About(), m.Seqno(), m.cost);
      }
    }
  }

  lemma WeightsShrink(topo: Topology, s: Net, e: Event, s': Net, f: nat, air: seq<Packet>)
    requires Good(topo, s) && InRange(s) && Shaped(s, e, s') && Good(topo, s') && InRange(s')
    requires forall p <- air :: p in s.air
    ensures Potential(s'.nodes, f, air) <= Potential(s.nodes, f, air)
  {
    forall p | p in air ensures PacketWeight(s'.nodes, f, p) <= PacketWeight(s.nodes, f, p) {
      assert GoodPacket(topo, s, p) && SmallMessage(p.msg);
      WillingShrinks(topo, s, e, s', p.msg);
      SubsetSize(Willing(s'.nodes, p.msg), Willing(s.nodes, p.msg));
    }
    PotentialShrinks(s.nodes, s'.nodes, f, air);
  }

  lemma WillingAtMost(nodes: map<Addr, Node>, m: Message)
    ensures |Willing(nodes, m)| <= |nodes|
  {
    SubsetSize(Willing(nodes, m), nodes.Keys);
  }

  ghost predicate Forwards(p: Packet, sends: seq<Send>) {
    p.msg.Rreq? && 1 < p.ttl && exists m: Message :: m.Rreq? && sends == OnEveryChannel(p.ttl - 1, m)
  }

  /** One unicast reply; a relayed one names the same route at the new cost. */
  ghost predicate Replies(nd: Node, p: Packet, link: real, sends: seq<Send>) {
    && |sends| == 1 && sends[0].Unicast? && sends[0].msg.Rrep?
    && (p.msg.Rrep? ==>
          && p.msg.dest != p.dst && Accepts(nd.table, p.msg, p.msg.cost + link)
          && sends[0].msg.dest == p.msg.dest && sends[0].msg.destSeqno == p.msg.destSeqno
          && sends[0].msg.cost == p.msg.cost + link)
  }

  ghost predicate Sent(nd: Node, p: Packet, link: real, r: Reaction) {
    || r.sends == []
    || Forwards(p, r.sends)
    || (Replies(nd, p, link, r.sends) && (p.msg.Rrep? ==> r.node.table == Adopt(nd.table, p, link)))
  }

  lemma AnswersSend(self: Addr, nd: Node, p: Packet, cost: real)
    requires p.msg.Rreq?
    ensures var sends := AnswerOrForward(self, nd, p, cost).sends;
            sends == [] || Forwards(p, sends) || Replies(nd, p, 0.0, sends)
  {
    var m := p.msg;
    var sends := AnswerOrForward(self, nd, p, cost).sends;
    var t := DropUnchannelled(nd.table, m.dest);
    if m.dest != self && !CanAnswer(t, m) && p.ttl > 1 {
      var wanted :=
        if m.dest in t && Int32(t[m.dest].seqno) > Int32(m.destSeqno) then t[m.dest].seqno else m.destSeqno;
      var m' := Rreq(m.id, m.dest, wanted, m.orig, m.origSeqno, Next(m.hcnt), cost, m.destOnly);
      assert m'.Rreq? && sends == OnEveryChannel(p.ttl - 1, m');
    }
  }

  /** What the sends of one reception look like: nothing, a forwarded request, or one reply. */
  lemma SendsOf(nd: Node, p: Packet, link: real)
    ensures Sent(nd, p, link, Receive(nd, p, link))
  {
    var m, cost := p.msg, p.msg.cost + link;
    if m.Rreq? && Receive(nd, p, link).sends != [] {
      var nd1 := nd.(records := Remember(nd.records, (m.orig, m.id), cost), table := Adopt(nd.table, p, link));
      assert Receive(nd, p, link) == AnswerOrForward(p.dst, nd1, p, cost);
      AnswersSend(p.dst, nd1, p, cost);
    }
  }

  /** A relayed reply is taken by fewer nodes than the one it continues. */
  lemma RelayLosesTaker(topo: Topology, s: Net, e: Event, s': Net, m': Message)
    requires Good(topo, s) && InRange(s) && Shaped(s, e, s') && Good(topo, s') && InRange(s')
    requires Enabled(s, e) && e.Deliver? && e.link >= 0.0 && s.air[e.i].msg.Rrep?
    requires var p := s.air[e.i];
             && Accepts(s.nodes[p.dst].table, p.msg, p.msg.cost + e.link)
             && m'.Rrep? && m'.dest == p.msg.dest && m'.destSeqno == p.msg.destSeqno && m'.cost == p.msg.cost + e.link
             && m'.dest in s'.nodes[p.dst].table && Taken(s'.nodes[p.dst].table[m'.dest], p, e.link)
    ensures |Willing(s'.nodes, m')| < |Willing(s.nodes, s.air[e.i].msg)|
  {
    var p := s.air[e.i];
    assert GoodPacket(topo, s, p) && SmallMessage(p.msg);
    WillingShrinks(topo, s, e, s', m');
    forall n | n in Willing(s.nodes, m') ensures n in Willing(s.nodes, p.msg) {
      OrdinaryTable(topo, s, n);
      GuardIsRefusal(s.nodes[n].table, m', m'.cost);
      GuardIsRefusal(s.nodes[n].table, p.msg, p.msg.cost);
    }
    OrdinaryTable(topo, s, p.dst);
    OrdinaryTable(topo, s', p.dst);
    GuardIsRefusal(s'.nodes[p.dst].table, m', m'.cost);
    assert p.dst !in Willing(s'.nodes, m') && p.dst in Willing(s.nodes, m');
    SubsetSize(Willing(s'.nodes, m'), Willing(s.nodes, p.msg));
  }

  // ---------- every delivery lowers the weight ----------

  lemma FanOutPotential(topo: Topology, nodes: map<Addr, Node>, f: nat, n: Addr, fan: nat, ttl: u8,
                        m0: Message, m1: Message, m2: Message)
    requires FanOut(topo, n) <= fan && m0.Rreq? && m1.Rreq? && m2.Rreq?
    ensures Potential(nodes, f,
             Transmit(topo, n, [Broadcast(0, ttl, m0), Broadcast(1, ttl, m1), Broadcast(2, ttl, m2)]))
            <= Copies(fan, Power(f, ttl))
  {
    var sends := [Broadcast(0, ttl, m0), Broadcast(1, ttl, m1), Broadcast(2, ttl, m2)];
    var copies := Transmit(topo, n, sends);
    forall p | p in copies ensures PacketWeight(nodes, f, p) <= Power(f, ttl) {
      TransmitMembers(topo, n, sends, p);
    }
    PotentialAtMost(nodes, f, copies, Power(f, ttl));
    ThreeFloods(topo, n, ttl, m0, m1, m2);
    CopiesMonotone(|copies|, fan, Power(f, ttl), Power(f, ttl));
  }

  lemma PowerGrows(f: nat, fan: nat, t: nat)
    requires f > fan && t >= 1
    ensures Copies(fan, Power(f, t - 1)) < Power(f, t) && f <= Power(f, t)
  {
    var w := Power(f, t - 1);
    CopiesIsProduct(f, w);
    CopiesMonotone(fan + 1, f, w, w);
    CopiesMonotone(f, f, 1, w);
    CopiesIsProduct(f, 1);
  }

  lemma OnePacket(topo: Topology, nodes: map<Addr, Node>, f: nat, n: Addr, send: Send)
    requires send.Unicast?
    ensures Potential(nodes, f, Transmit(topo, n, [send])) <= PacketWeight(nodes, f,
             Packet(n, send.to, send.channel, send.ttl, send.msg))
  {
    assert [send][1..] == [];
    var p := Packet(n, send.to, send.channel, send.ttl, send.msg);
    assert Transmit(topo, n, [send]) == (if send.to in Neighbours(topo, n, send.channel) then [p] else [])
        && [p][1..] == [];
  }

  lemma ForwardIsLighter(topo: Topology, nodes: map<Addr, Node>, f: nat, fan: nat, n: Addr, ttl: u8, m: Message)
    requires m.Rreq? && FanOut(topo, n) <= fan < f && 1 <= ttl
    ensures Potential(nodes, f, Transmit(topo, n, OnEveryChannel(ttl - 1, m))) < Power(f, ttl)
  {
    FanOutPotential(topo, nodes, f, n, fan, ttl - 1, m, m, m);
    PowerGrows(f, fan, ttl);
  }

  lemma AnswerIsLighter(topo: Topology, nodes: map<Addr, Node>, f: nat, nd: Node, p: Packet, link: real,
                        sends: seq<Send>)
    requires p.msg.Rreq? && Replies(nd, p, link, sends) && f > |nodes| + 1 && 1 <= p.ttl
    ensures Potential(nodes, f, Transmit(topo, p.dst, sends)) < Power(f, p.ttl)
  {
    assert sends == [sends[0]];
    OnePacket(topo, nodes, f, p.dst, sends[0]);
    WillingAtMost(nodes, sends[0].msg);
    PowerGrows(f, 0, p.ttl);
  }

  lemma RelayIsLighter(topo: Topology, s: Net, e: Event, s': Net, f: nat, sends: seq<Send>)
    requires Good(topo, s) && InRange(s) && Shaped(s, e, s') && Good(topo, s') && InRange(s')
    requires Enabled(s, e) && e.Deliver? && e.link >= 0.0 && s.air[e.i].msg.Rrep?
    requires Replies(s.nodes[s.air[e.i].dst], s.air[e.i], e.link, sends)
    requires s'.nodes[s.air[e.i].dst].table == Adopt(s.nodes[s.air[e.i].dst].table, s.air[e.i], e.link)
    ensures Potential(s'.nodes, f, Transmit(topo, s.air[e.i].dst, sends)) < PacketWeight(s.nodes, f, s.air[e.i])
  {
    var p := s.air[e.i];
    assert sends == [sends[0]];
    OnePacket(topo, s'.nodes, f, p.dst, sends[0]);
    OrdinaryTable(topo, s, p.dst);
    AdoptKeeps(s.nodes[p.dst].table, p, e.link);
    RelayLosesTaker(topo, s, e, s', sends[0].msg);
  }

  lemma SilenceIsLighter(topo: Topology, nodes: map<Addr, Node>, nodes': map<Addr, Node>, f: nat, n: Addr, p: Packet)
    requires f >= 1
    ensures Potential(nodes', f, Transmit(topo, n, [])) < PacketWeight(nodes, f, p)
  {
  }

  lemma TakerExtent(topo: Topology, s: Net, e: Event, s': Net, fan: nat, f: nat)
    requires Good(topo, s) && Shaped(s, e, s') && Enabled(s, e) && e.Deliver? && Heavy(topo, s, fan, f)
    ensures f > |s'.nodes| + 1 && FanOut(topo, s.air[e.i].dst) <= fan < f
    ensures s.air[e.i].msg.Rreq? ==> 1 <= s.air[e.i].ttl
  {
    assert GoodPacket(topo, s, s.air[e.i]);
    assert |s'.nodes| == |s'.nodes.Keys| == |s.nodes|;
  }

  /** What a reception sends weighs less than what it consumed. */
  lemma ReactionIsLighter(topo: Topology, s: Net, e: Event, s': Net, fan: nat, f: nat, r: Reaction)
    requires Good(topo, s) && InRange(s) && Shaped(s, e, s') && Good(topo, s') && InRange(s')
    requires Enabled(s, e) && e.Deliver? && e.link >= 0.0 && Heavy(topo, s, fan, f)
    requires Sent(s.nodes[s.air[e.i].dst], s.air[e.i], e.link, r) && s'.nodes[s.air[e.i].dst] == r.node
    ensures Potential(s'.nodes, f, Transmit(topo, s.air[e.i].dst, r.sends)) < PacketWeight(s.nodes, f, s.air[e.i])
  {
    hide Potential, Power, Transmit, Willing, Accepts, Adopt, Good, InRange, Shaped;
    var p := s.air[e.i];
    var nd := s.nodes[p.dst];
    TakerExtent(topo, s, e, s', fan, f);
    if Forwards(p, r.sends) {
      var m: Message :| m.Rreq? && r.sends == OnEveryChannel(p.ttl - 1, m);
      ForwardIsLighter(topo, s'.nodes, f, fan, p.dst, p.ttl, m);
    } else if r.sends == [] {
      SilenceIsLighter(topo, s.nodes, s'.nodes, f, p.dst, p);
    } else {
      if p.msg.Rreq? {
        AnswerIsLighter(topo, s'.nodes, f, nd, p, e.link, r.sends);
      } else {
        RelayIsLighter(topo, s, e, s', f, r.sends);
      }
    }
  }

  lemma DeliveryLowers(topo: Topology, s: Net, e: Event, s': Net, fan: nat, f: nat)
    requires Good(topo, s) && InRange(s) && Good(topo, s') && InRange(s') && Shaped(s, e, s')
    requires Enabled(s, e) && e.Deliver? && e.link >= 0.0 && Heavy(topo, s, fan, f)
    requires s' == React(topo, s, s.air[e.i].dst, Receive(s.nodes[s.air[e.i].dst], s.air[e.i], e.link),
             Without(s.air, e.i))
    ensures Potential(s'.nodes, f, s'.air) < Potential(s.nodes, f, s.air)
  {
    hide Potential, Power, Willing, Accepts, Adopt;
    var p := s.air[e.i];
    var r := Receive(s.nodes[p.dst], p, e.link);
    var rest, copies := Without(s.air, e.i), Transmit(topo, p.dst, r.sends);
    PotentialOfSum(s'.nodes, f, rest, copies);
    PotentialWithout(s.nodes, f, s.air, e.i);
    WeightsShrink(topo, s, e, s', f, rest);
    SendsOf(s.nodes[p.dst], p, e.link);
    ReactionIsLighter(topo, s, e, s', fan, f, r);
  }

  // ---------- whole runs ----------

  function SumPower(f: nat, ttls: seq<u8>): nat {
    if ttls == [] then 0 else SumPower(f, ttls[..|ttls| - 1]) + Power(f, ttls[|ttls| - 1])
  }

  /** The times-to-live of the floods a run starts. */
  function FloodTtls(es: seq<Event>): seq<u8> {
    if es == [] then [] else
      var e := es[|es| - 1];
      FloodTtls(es[..|es| - 1]) + (if e.Discovery? then [DISCOVERY_TTL] else if e.Rediscovery? then [e.ttl] else [])
  }

  function Deliveries(es: seq<Event>): nat {
    if es == [] then 0 else Deliveries(es[..|es| - 1]) + (if es[|es| - 1].Deliver? then 1 else 0)
  }

  predicate Started(e: Event) {
    e.Discovery? || e.Rediscovery?
  }

  lemma FloodRaises(topo: Topology, s: Net, e: Event, s': Net, fan: nat, f: nat, r: Reaction, ttl: u8)
    requires Good(topo, s) && InRange(s) && Good(topo, s') && InRange(s') && Shaped(s, e, s')
    requires Enabled(s, e) && Started(e) && Heavy(topo, s, fan, f)
    requires s' == React(topo, s, e.n, r, s.air)
    requires exists m0: Message, m1: Message, m2: Message ::
               m0.Rreq? && m1.Rreq? && m2.Rreq?
                   && r.sends == [Broadcast(0, ttl, m0), Broadcast(1, ttl, m1), Broadcast(2, ttl, m2)]
    ensures Potential(s'.nodes, f, s'.air) <= Potential(s.nodes, f, s.air) + Copies(fan, Power(f, ttl))
  {
    var m0: Message, m1: Message, m2: Message :|
      m0.Rreq? && m1.Rreq? && m2.Rreq?
          && r.sends == [Broadcast(0, ttl, m0), Broadcast(1, ttl, m1), Broadcast(2, ttl, m2)];
    PotentialOfSum(s'.nodes, f, s.air, Transmit(topo, e.n, r.sends));
    WeightsShrink(topo, s, e, s', f, s.air);
    FanOutPotential(topo, s'.nodes, f, e.n, fan, ttl, m0, m1, m2);
  }

  lemma FloodSends(self: Addr, nd: Node, dest: Addr, destSeqno: u32, ttl: u8, destOnly: bool)
    ensures exists m0: Message, m1: Message, m2: Message ::
              m0.Rreq? && m1.Rreq? && m2.Rreq?
              && Flood(self, nd, dest, destSeqno, ttl, destOnly) == [Broadcast(0, ttl, m0), Broadcast(1, ttl, m1),
                 Broadcast(2, ttl, m2)]
  {
    var m := Rreq(nd.rreqId, dest, destSeqno, self, PlusOne(nd.seqno), 0, 0.0, destOnly);
    var m1, m2 := m.(id := PlusOne(nd.rreqId)), m.(id := PlusOne(PlusOne(nd.rreqId)));
    assert m.Rreq? && m1.Rreq? && m2.Rreq?
        && Flood(self, nd, dest, destSeqno, ttl, destOnly) == [Broadcast(0, ttl, m), Broadcast(1, ttl, m1),
           Broadcast(2, ttl, m2)];
  }

  /** What a step may add to the weight in the air, less one for a delivery. */
  function Added(e: Event, fan: nat, f: nat): nat {
    if e.Discovery? then Copies(fan, Power(f, DISCOVERY_TTL)) else if e.Rediscovery? then Copies(fan, Power(f, e.ttl))
        else 0
  }

  lemma StepWeight(topo: Topology, s: Net, e: Event, s': Net, fan: nat, f: nat)
    requires Good(topo, s) && InRange(s) && Good(topo, s') && InRange(s') && Shaped(s, e, s')
    requires Enabled(s, e) && !e.Duplicate? && NonNegative(e) && Heavy(topo, s, fan, f) && s' == Apply(topo, s, e)
    ensures Potential(s'.nodes, f, s'.air) + (if e.Deliver? then 1 else 0) <= Potential(s.nodes, f, s.air)
             + Added(e, fan, f)
  {
    hide Potential, Power, Willing, Copies, Good, InRange, Shaped, Receive;
    match e
    case Discovery(n, dest, destOnly) =>
      var nd := s.nodes[n];
      FloodSends(n, nd, dest, if dest in nd.table then nd.table[dest].seqno else 0, DISCOVERY_TTL, destOnly);
      FloodRaises(topo, s, e, s', fan, f, Discover(n, nd, dest, destOnly), DISCOVERY_TTL);
    case Rediscovery(n, dest, destSeqno, ttl, destOnly) =>
      FloodSends(n, s.nodes[n], dest, destSeqno, ttl, destOnly);
      FloodRaises(topo, s, e, s', fan, f, Rediscover(n, s.nodes[n], dest, destSeqno, ttl, destOnly), ttl);
    case Deliver(_, _) =>
      DeliveryLowers(topo, s, e, s', fan, f);
    case Lose(i) =>
      PotentialWithout(s.nodes, f, s.air, i);
    case Expire(_, _) =>
      WeightsShrink(topo, s, e, s', f, s.air);
    case ForgetRecord(_, _) =>
      WeightsShrink(topo, s, e, s', f, s.air);
  }

  ghost predicate Weighed(s: Net, e: Event, s': Net, fan: nat, f: nat) {
    Potential(s'.nodes, f, s'.air) + (if e.Deliver? then 1 else 0) <= Potential(s.nodes, f, s.air) + Added(e, fan, f)
  }

  lemma {:induction false} KeysStay(ss: seq<Net>, k: nat)
    requires k < |ss| && forall i :: 0 <= i < |ss| - 1 ==> ss[i + 1].nodes.Keys == ss[i].nodes.Keys
    ensures ss[k].nodes.Keys == ss[0].nodes.Keys && |ss[k].nodes| == |ss[0].nodes|
  {
    if k > 0 {
      KeysStay(ss, k - 1);
      assert ss[k - 1 + 1].nodes.Keys == ss[k - 1].nodes.Keys;
    }
    assert |ss[k].nodes| == |ss[k].nodes.Keys| && |ss[0].nodes| == |ss[0].nodes.Keys|;
  }

  lemma NodesStay(topo: Topology, ss: seq<Net>, es: seq<Event>, k: nat)
    requires Proper(topo, ss, es) && k < |ss|
    ensures ss[k].nodes.Keys == ss[0].nodes.Keys && |ss[k].nodes| == |ss[0].nodes|
  {
    forall i | 0 <= i < |es| ensures ss[i + 1].nodes.Keys == ss[i].nodes.Keys {
      RunShape(topo, ss, es, i);
    }
    KeysStay(ss, k);
  }

  lemma RunWeighed(topo: Topology, ss: seq<Net>, es: seq<Event>, k: nat, fan: nat, f: nat)
    requires Proper(topo, ss, es) && k < |es| && InRange(ss[|es|])
    requires !es[k].Duplicate? && NonNegative(es[k]) && Heavy(topo, ss[0], fan, f)
    ensures Weighed(ss[k], es[k], ss[k + 1], fan, f)
  {
    var s, e, s' := ss[k], es[k], ss[k + 1];
    assert Good(topo, s) && InRange(s) && Shaped(s, e, s') by {
      RunShape(topo, ss, es, k);
    }
    assert Good(topo, s') && InRange(s') by {
      RunGood(topo, ss, es, k + 1);
      assert k + 1 < |es| ==> InRange(ss[k + 1]);
    }
    assert Heavy(topo, s, fan, f) by {
      NodesStay(topo, ss, es, k);
    }
    assert StepAt(topo, ss, es, k);
    StepWeight(topo, s, e, s', fan, f);
  }

  lemma AllWeighed(topo: Topology, ss: seq<Net>, es: seq<Event>, fan: nat, f: nat)
    requires Proper(topo, ss, es) && InRange(ss[|es|])
    requires forall e <- es :: NonNegative(e) && !e.Duplicate?
    requires Heavy(topo, ss[0], fan, f)
    ensures forall i :: 0 <= i < |es| ==> Weighed(ss[i], es[i], ss[i + 1], fan, f)
  {
    forall i | 0 <= i < |es| ensures Weighed(ss[i], es[i], ss[i + 1], fan, f) {
      assert es[i] in es;
      RunWeighed(topo, ss, es, i, fan, f);
    }
  }

  lemma {:induction false} TraceWeight(ss: seq<Net>, es: seq<Event>, k: nat, fan: nat, f: nat)
    requires |ss| == |es| + 1 && k < |ss| && ss[0].air == []
    requires forall i :: 0 <= i < |es| ==> Weighed(ss[i], es[i], ss[i + 1], fan, f)
    ensures Deliveries(es[..k]) + Potential(ss[k].nodes, f, ss[k].air) <= Copies(fan, SumPower(f, FloodTtls(es[..k])))
  {
    if k > 0 {
      TraceWeight(ss, es, k - 1, fan, f);
      assert Weighed(ss[k - 1], es[k - 1], ss[k - 1 + 1], fan, f);
      OneMoreFlood(fan, f, es[..k - 1], es[k - 1]);
      assert es[..k] == es[..k - 1] + [es[k - 1]];
    } else {
      assert es[..0] == [] && SumPower(f, FloodTtls([])) == 0;
      CopiesIsProduct(fan, 0);
    }
  }

  lemma OneMoreFlood(fan: nat, f: nat, es: seq<Event>, e: Event)
    ensures Copies(fan, SumPower(f, FloodTtls(es + [e]))) == Copies(fan, SumPower(f, FloodTtls(es))) + Added(e, fan, f)
    ensures Deliveries(es + [e]) == Deliveries(es) + (if e.Deliver? then 1 else 0)
  {
    assert (es + [e])[..|es|] == es;
    var ttls := FloodTtls(es);
    if Started(e) {
      var ttl := if e.Discovery? then DISCOVERY_TTL else e.ttl;
      assert (ttls + [ttl])[..|ttls|] == ttls;
      CopiesOfSum(fan, SumPower(f, ttls), Power(f, ttl));
    } else {
      assert FloodTtls(es + [e]) == ttls;
    }
  }

  /**
   The number of deliveries in a run, of requests and replies alike, is bounded by the floods it
   starts, whatever is lost or reordered and whatever expires.
   */
  lemma DeliveriesAreBounded(topo: Topology, ss: seq<Net>, es: seq<Event>, fan: nat)
    requires Proper(topo, ss, es) && InRange(ss[|es|])
    requires forall e <- es :: NonNegative(e) && !e.Duplicate?
    requires Bounded(topo, ss[0], fan)
    ensures Deliveries(es) <= fan * SumPower(fan + |ss[0].nodes| + 2, FloodTtls(es))
  {
    var f := fan + |ss[0].nodes| + 2;
    assert Heavy(topo, ss[0], fan, f);
    AllWeighed(topo, ss, es, fan, f);
    TraceWeight(ss, es, |es|, fan, f);
    assert es[..|es|] == es;
    CopiesIsProduct(fan, SumPower(f, FloodTtls(es)));
  }

  lemma {:induction false} SumOfPrefix(f: nat, a: seq<u8>, b: seq<u8>)
    requires a <= b
    ensures SumPower(f, a) <= SumPower(f, b)
  {
    if a != b {
      SumOfPrefix(f, a, b[..|b| - 1]);
    }
  }

  lemma PowerMonotone(f: nat, t: nat, u: nat)
    requires f >= 1 && t <= u
    ensures Power(f, t) <= Power(f, u)
  {
    if t < u {
      PowerMonotone(f, t, u - 1);
      CopiesIsProduct(f, Power(f, u - 1));
      CopiesMonotone(1, f, Power(f, u - 1), Power(f, u - 1));
      CopiesIsProduct(1, Power(f, u - 1));
    }
  }

  lemma SumOfThree(f: nat, a: u8, b: u8, c: u8)
    ensures SumPower(f, [a, b, c]) == Power(f, a) + Power(f, b) + Power(f, c)
  {
    assert [a, b, c][..2] == [a, b] && [a, b][..1] == [a] && [a][..0] == [];
    assert SumPower(f, [a, b]) == SumPower(f, [a]) + Power(f, b);
    assert SumPower(f, [a]) == SumPower(f, []) + Power(f, a);
  }

  lemma TwoRetries(expanding: bool)
    ensures var t: u8 := if expanding then NET_DIAMETER else DISCOVERY_TTL;
            Resends(Progress(0, DISCOVERY_TTL), expanding) == [t, t]
  {
    var t: u8 := if expanding then NET_DIAMETER else DISCOVERY_TTL;
    assert Resends(Progress(2, t), expanding) == [];
    assert Resends(Progress(1, t), expanding) == [t];
  }

  lemma RetrySum(f: nat, ttls: seq<u8>, expanding: bool)
    requires f >= 1 && ttls <= [DISCOVERY_TTL] + Resends(Progress(0, DISCOVERY_TTL), expanding)
    ensures SumPower(f, ttls) <= Power(f, DISCOVERY_TTL) + 2 * Power(f, NET_DIAMETER)
  {
    var t: u8 := if expanding then NET_DIAMETER else DISCOVERY_TTL;
    TwoRetries(expanding);
    SumOfPrefix(f, ttls, [DISCOVERY_TTL, t, t]);
    SumOfThree(f, DISCOVERY_TTL, t, t);
    PowerMonotone(f, t, NET_DIAMETER);
  }

  lemma Larger(n: nat, v: nat, w: nat)
    requires v <= w
    ensures n * v <= n * w
  {
    CopiesIsProduct(n, v);
    CopiesIsProduct(n, w);
    CopiesMonotone(n, n, v, w);
  }

  /** One flood of the first time-to-live and two that cross the whole network. */
  function RetryBudget(fan: nat, f: nat): nat {
    fan * (Power(f, DISCOVERY_TTL) + 2 * Power(f, NET_DIAMETER))
  }

  lemma WithinBudget(fan: nat, f: nat, ttls: seq<u8>, expanding: bool, count: nat)
    requires f >= 1 && ttls <= [DISCOVERY_TTL] + Resends(Progress(0, DISCOVERY_TTL), expanding)
    requires count <= fan * SumPower(f, ttls)
    ensures count <= RetryBudget(fan, f)
  {
    RetrySum(f, ttls, expanding);
    Larger(fan, SumPower(f, ttls), Power(f, DISCOVERY_TTL) + 2 * Power(f, NET_DIAMETER));
  }

  /** One discovery with all its retries. */
  lemma DiscoveryIsBounded(topo: Topology, ss: seq<Net>, es: seq<Event>, fan: nat, expanding: bool)
    requires Proper(topo, ss, es) && InRange(ss[|es|])
    requires forall e <- es :: NonNegative(e) && !e.Duplicate?
    requires Bounded(topo, ss[0], fan)
    requires FloodTtls(es) <= [DISCOVERY_TTL] + Resends(Progress(0, DISCOVERY_TTL), expanding)
    ensures var f := fan + |ss[0].nodes| + 2;
            Deliveries(es) <= RetryBudget(fan, f)
  {
    var f := fan + |ss[0].nodes| + 2;
    assert Deliveries(es) <= fan * SumPower(f, FloodTtls(es)) by {
      DeliveriesAreBounded(topo, ss, es, fan);
    }
    WithinBudget(fan, f, FloodTtls(es), expanding, Deliveries(es));
  }

  // ---------- hops and time-to-live ----------

  /** Hops travelled and hops left add up to the time-to-live the flood started with. */
  ghost predicate Conserved(p: Packet, ttls: seq<u8>) {
    p.msg.Rreq? ==> p.msg.hcnt + p.ttl in ttls
  }

  lemma ForwardConserves(nd: Node, p: Packet, link: real, send: Send)
    requires send in Receive(nd, p, link).sends && send.msg.Rreq? && p.msg.hcnt + p.ttl <= 0xFF
    ensures p.msg.Rreq? && send.msg.hcnt + send.ttl == p.msg.hcnt + p.ttl
  {
  }

  lemma DeliveryConserves(topo: Topology, s: Net, q: Packet, link: real, air: seq<Packet>, ttls: seq<u8>, p: Packet)
    requires q.dst in s.nodes && Conserved(q, ttls)
    requires p in React(topo, s, q.dst, Receive(s.nodes[q.dst], q, link), air).air && p !in air
    ensures Conserved(p, ttls)
  {
    hide Receive, Transmit;
    var r := Receive(s.nodes[q.dst], q, link);
    NewPackets(topo, s, q.dst, r, air, p);
    var send :| send in r.sends && Carries(topo, q.dst, send, p);
    if p.msg.Rreq? {
      ForwardKeepsIdentity(s.nodes[q.dst], q, link, send);
      ForwardConserves(s.nodes[q.dst], q, link, send);
    }
  }

  lemma FloodConserves(topo: Topology, s: Net, e: Event, p: Packet)
    requires Started(e) && Enabled(s, e) && p in Apply(topo, s, e).air && p !in s.air
    ensures Conserved(p, FloodTtls([e]))
  {
    var nd := s.nodes[e.n];
    var r := if e.Discovery? then Discover(e.n, nd, e.dest, e.destOnly)
             else Rediscover(e.n, nd, e.dest, e.destSeqno, e.ttl, e.destOnly);
    NewPackets(topo, s, e.n, r, s.air, p);
    assert [e][..0] == [];
  }

  ghost predicate Conserving(s: Net, e: Event, s': Net) {
    forall ttls: seq<u8> :: (forall p <- s.air :: Conserved(p, ttls)) ==> forall p <- s'.air ::
        Conserved(p, ttls + FloodTtls([e]))
  }

  lemma StepConserves(topo: Topology, s: Net, e: Event)
    requires Enabled(s, e)
    ensures Conserving(s, e, Apply(topo, s, e))
  {
    forall ttls: seq<u8>, p | (forall q <- s.air :: Conserved(q, ttls)) && p in Apply(topo, s, e).air
      ensures Conserved(p, ttls + FloodTtls([e]))
    {
      if p in s.air {
        assert Conserved(p, ttls);
      } else if e.Deliver? {
        DeliveryConserves(topo, s, s.air[e.i], e.link, Without(s.air, e.i), ttls, p);
      } else {
        FloodConserves(topo, s, e, p);
      }
    }
  }

  lemma {:induction false} TraceConserves(ss: seq<Net>, es: seq<Event>, k: nat)
    requires |ss| == |es| + 1 && k < |ss| && ss[0].air == []
    requires forall i :: 0 <= i < |es| ==> Conserving(ss[i], es[i], ss[i + 1])
    ensures forall p <- ss[k].air :: Conserved(p, FloodTtls(es[..k]))
  {
    if k > 0 {
      TraceConserves(ss, es, k - 1);
      assert es[..k][..k - 1] == es[..k - 1] && [es[k - 1]][..0] == [];
      assert FloodTtls(es[..k]) == FloodTtls(es[..k - 1]) + FloodTtls([es[k - 1]]);
      assert Conserving(ss[k - 1], es[k - 1], ss[k - 1 + 1]);
    }
  }

  /** Every request in the air was started by a flood whose time-to-live is its hop count plus its own. */
  lemma RunConserves(topo: Topology, ss: seq<Net>, es: seq<Event>, k: nat)
    requires Run(topo, ss, es) && ss[0].air == [] && k < |ss|
    ensures forall p <- ss[k].air :: p.msg.Rreq? ==> p.msg.hcnt + p.ttl in FloodTtls(es[..k])
  {
    forall i | 0 <= i < |es| ensures Conserving(ss[i], es[i], ss[i + 1]) {
      assert StepAt(topo, ss, es, i);
      StepConserves(topo, ss[i], es[i]);
    }
    TraceConserves(ss, es, k);
    assert forall p <- ss[k].air :: Conserved(p, FloodTtls(es[..k]));
  }

  /** No subtraction wraps as long as no flood starts with a time-to-live above the network diameter. */
  lemma LifeNeverWraps(topo: Topology, ss: seq<Net>, es: seq<Event>, k: nat, p: Packet)
    requires Proper(topo, ss, es) && k < |ss| && p in ss[k].air && p.msg.Rreq?
    requires forall ttl <- FloodTtls(es) :: ttl <= NET_DIAMETER
    ensures p.msg.hcnt < NET_DIAMETER
    ensures Life(Next(p.msg.hcnt)) == PATH_DISCOVERY_TIME - 2 * (p.msg.hcnt + 1) * NODE_TRAVERSAL_TIME
  {
    RunConserves(topo, ss, es, k);
    RunGood(topo, ss, es, k);
    assert GoodPacket(topo, ss[k], p);
    HopsWithinDiameter(p, es, k);
  }

  lemma HopsWithinDiameter(p: Packet, es: seq<Event>, k: nat)
    requires k <= |es| && p.msg.Rreq? && 1 <= p.ttl && p.msg.hcnt + p.ttl in FloodTtls(es[..k])
    requires forall ttl <- FloodTtls(es) :: ttl <= NET_DIAMETER
    ensures p.msg.hcnt < NET_DIAMETER
    ensures Life(Next(p.msg.hcnt)) == PATH_DISCOVERY_TIME - 2 * (p.msg.hcnt + 1) * NODE_TRAVERSAL_TIME
  {
    FloodPrefix(es, k);
    assert p.msg.hcnt + p.ttl in FloodTtls(es);
  }

  lemma {:induction false} FloodPrefix(es: seq<Event>, k: nat)
    requires k <= |es|
    ensures FloodTtls(es[..k]) <= FloodTtls(es)
  {
    if k < |es| {
      FloodPrefix(es[..|es| - 1], k);
      assert es[..|es| - 1][..k] == es[..k];
    } else {
      assert es[..k] == es;
    }
  }

  /** The diameter is the exact limit: one hop more and the lifetime wraps to almost fifty days. */
  lemma LifeWrapsBeyondDiameter(hops: u8)
    ensures Life(hops) <= PATH_DISCOVERY_TIME <==> hops <= NET_DIAMETER
  {
  }
}
