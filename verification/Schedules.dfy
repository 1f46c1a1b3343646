/**
 Runs put together one delivery at a time, for showing that something can happen: a packet known to
 be in the air is delivered next, and packets that no longer change anything are delivered at the
 end. What is in the air is known by membership only.
 */
module Schedules {
  import opened SequenceNumbers
  import opened Aodv
  import opened LoopFreedom
  import opened Network
  import opened Walks
  import opened Optimality

  // ---------- small numbers ----------

  const LOW: int := 100

  predicate LowNode(nd: Node) {
    nd.seqno < LOW && nd.rreqId < LOW && forall d <- nd.table :: nd.table[d].seqno < LOW
  }

  predicate LowMessage(m: Message) {
    m.destSeqno < LOW && m.Seqno() < LOW
  }

  /** All numbers are far below the half of their range. */
  ghost predicate LowNet(s: Net) {
    && (forall n <- s.nodes {:trigger LowNode(s.nodes[n])} :: LowNode(s.nodes[n]))
    && (forall p <- s.air {:trigger LowMessage(p.msg)} :: LowMessage(p.msg))
  }

  lemma LowInRange(s: Net)
    requires LowNet(s)
    ensures InRange(s)
  {
    forall n | n in s.nodes ensures LowNode(s.nodes[n]) {
    }
    forall p | p in s.air ensures SmallMessage(p.msg) {
      assert LowMessage(p.msg);
    }
  }

  function Unit(): Costs {
    (u: Addr, v: Addr, ch: int) => 1.0
  }

  /** Three nodes at power-up. */
  function ThreeNodes(): Net {
    Net(map[0 := FRESH_NODE, 1 := FRESH_NODE, 2 := FRESH_NODE], [])
  }

  // ---------- what is in the air ----------

  /** The packets of one broadcast. */
  predicate Spread(topo: Topology, n: Addr, ttl: u8, p: Packet) {
    p.src == n && p.ttl == ttl && Link(topo, n, p.dst, p.channel)
  }

  lemma FloodAir(topo: Topology, n: Addr, ttl: u8, m0: Message, m1: Message, m2: Message, p: Packet)
    ensures p in Transmit(topo, n, [Broadcast(0, ttl, m0), Broadcast(1, ttl, m1), Broadcast(2, ttl, m2)])
       <==> Spread(topo, n, ttl, p) && p.msg in {m0, m1, m2}
  {
    var sends := [Broadcast(0, ttl, m0), Broadcast(1, ttl, m1), Broadcast(2, ttl, m2)];
    TransmitMembers(topo, n, sends, p);
    if Spread(topo, n, ttl, p) && p.msg in {m0, m1, m2} {
      var j := if p.msg == m0 then 0 else if p.msg == m1 then 1 else 2;
      assert Carries(topo, n, sends[j], p);
    }
  }

  // ---------- schedules ----------

  /** A launch and then deliveries at fixed costs, all numbers being small. */
  ghost predicate Schedule(topo: Topology, c: Costs, ss: seq<Net>, es: seq<Event>) {
    && Run(topo, ss, es) && |es| >= 1 && Launches(es[0])
    && (forall i {:trigger LowNet(ss[i])} :: 0 <= i <= |es| ==> LowNet(ss[i]))
    && (forall i {:trigger Faithful(c, ss[i], es[i])} :: 1 <= i < |es| ==> es[i].Deliver? && Faithful(c, ss[i], es[i]))
  }

  lemma RunGrows(topo: Topology, ss: seq<Net>, es: seq<Event>, e: Event)
    requires Run(topo, ss, es) && Enabled(ss[|es|], e)
    ensures Run(topo, ss + [Apply(topo, ss[|es|], e)], es + [e])
  {
    hide Apply, Enabled;
    var ss', es' := ss + [Apply(topo, ss[|es|], e)], es + [e];
    forall i | 0 <= i < |es'| ensures StepAt(topo, ss', es', i) {
      if i < |es| {
        assert StepAt(topo, ss, es, i);
      }
    }
  }

  lemma Begin(topo: Topology, c: Costs, s: Net, e: Event) returns (ss: seq<Net>, es: seq<Event>)
    requires Launches(e) && Enabled(s, e) && LowNet(s) && LowNet(Apply(topo, s, e))
    ensures Schedule(topo, c, ss, es) && ss == [s, Apply(topo, s, e)] && es == [e]
  {
    ss, es := [s] + [Apply(topo, s, e)], [] + [e];
    assert Run(topo, [s], []);
    RunGrows(topo, [s], [], e);
  }

  /** The reaction keeps numbers small. */
  lemma LowReaction(topo: Topology, s: Net, n: Addr, r: Reaction, air: seq<Packet>)
    requires LowNet(s) && n in s.nodes && LowNode(r.node) && (forall send <- r.sends :: LowMessage(send.msg))
    requires forall q <- air :: q in s.air
    ensures LowNet(React(topo, s, n, r, air))
  {
    var s' := React(topo, s, n, r, air);
    forall p | p in s'.air ensures LowMessage(p.msg) {
      if p !in air {
        NewPackets(topo, s, n, r, air, p);
      } else {
        assert p in s.air;
      }
    }
    forall k | k in s'.nodes ensures LowNode(s'.nodes[k]) {
      assert k != n ==> LowNode(s.nodes[k]);
    }
  }

  /** The next delivery is that of a packet in the air. */
  lemma DeliverNext(topo: Topology, c: Costs, ss: seq<Net>, es: seq<Event>, p: Packet)
    returns (ss': seq<Net>, es': seq<Event>, air: seq<Packet>)
    requires Schedule(topo, c, ss, es) && p in ss[|es|].air && p.dst in ss[|es|].nodes
    requires var r := Receive(ss[|es|].nodes[p.dst], p, c(p.src, p.dst, p.channel));
             LowNode(r.node) && forall send <- r.sends :: LowMessage(send.msg)
    ensures Schedule(topo, c, ss', es') && Delivered(topo, ss[|es|], p, c(p.src, p.dst, p.channel), air, ss'[|es'|])
    ensures |es'| == |es| + 1 && es'[..|es|] == es && ss'[..|ss|] == ss
  {
    hide Receive, Transmit;
    var s := ss[|es|];
    var i :| 0 <= i < |s.air| && s.air[i] == p;
    var e := Deliver(i, c(p.src, p.dst, p.channel));
    air := Without(s.air, i);
    ss', es' := ss + [Apply(topo, s, e)], es + [e];
    RunGrows(topo, ss, es, e);
    assert LowNet(s);
    LowReaction(topo, s, p.dst, Receive(s.nodes[p.dst], p, e.link), air);
    ScheduleGrows(topo, c, ss, es, ss', es');
  }

  lemma ScheduleGrows(topo: Topology, c: Costs, ss: seq<Net>, es: seq<Event>, ss': seq<Net>, es': seq<Event>)
    requires Schedule(topo, c, ss, es) && Run(topo, ss', es') && |es'| == |es| + 1 && es'[..|es|] == es
             && ss'[..|ss|] == ss
    requires LowNet(ss'[|es'|]) && es'[|es|].Deliver? && Faithful(c, ss[|es|], es'[|es|])
    ensures Schedule(topo, c, ss', es')
  {
    hide Run, LowNet, Faithful;
    assert |ss| == |es| + 1 && |ss'| == |es'| + 1 by {
      LengthOfRun(topo, ss, es);
      LengthOfRun(topo, ss', es');
    }
    forall i | 0 <= i <= |es'| ensures LowNet(ss'[i]) {
      if i <= |es| {
        assert ss'[i] == ss[i];
      }
    }
    forall i | 1 <= i < |es'| ensures es'[i].Deliver? && Faithful(c, ss'[i], es'[i]) {
      assert ss'[i] == ss[i];
      if i < |es| {
        assert es'[i] == es[i];
        assert Faithful(c, ss[i], es[i]);
      }
    }
    assert es'[0] == es[0];
  }

  lemma LengthOfRun(topo: Topology, ss: seq<Net>, es: seq<Event>)
    requires Run(topo, ss, es)
    ensures |ss| == |es| + 1
  {
  }

  /** The receiver sends the request on: every neighbour has a copy coming. */
  lemma Relayed(topo: Topology, c: Costs, s: Net, p: Packet, air: seq<Packet>, s': Net, nd: Node, ttl: u8, m: Message)
    requires Delivered(topo, s, p, c(p.src, p.dst, p.channel), air, s')
    requires Receive(s.nodes[p.dst], p, c(p.src, p.dst, p.channel)) == Reaction(nd, OnEveryChannel(ttl, m))
    ensures s'.nodes == s.nodes[p.dst := nd]
    ensures forall q :: Spread(topo, p.dst, ttl, q) && q.msg == m ==> q in s'.air
    ensures forall q <- s'.air :: q in s.air || (Spread(topo, p.dst, ttl, q) && q.msg == m)
    ensures forall q <- s.air :: q == p || q in s'.air
  {
    hide Receive, Transmit;
    forall q ensures q in Transmit(topo, p.dst, OnEveryChannel(ttl, m)) <==> Spread(topo, p.dst, ttl, q) && q.msg == m {
      FloodAir(topo, p.dst, ttl, m, m, m, q);
    }
  }

  /** The receiver says nothing. */
  lemma Silent(topo: Topology, c: Costs, s: Net, p: Packet, air: seq<Packet>, s': Net, nd: Node)
    requires Delivered(topo, s, p, c(p.src, p.dst, p.channel), air, s')
    requires Receive(s.nodes[p.dst], p, c(p.src, p.dst, p.channel)) == Reaction(nd, [])
    ensures s'.nodes == s.nodes[p.dst := nd] && s'.air == air
  {
    hide Receive;
  }

  /** The receiver answers one node, which hears the answer if there is a link. */
  lemma Replied(topo: Topology, c: Costs, s: Net, p: Packet, air: seq<Packet>, s': Net, nd: Node, to: Addr, ch: int,
                ttl: u8, m: Message)
    requires Delivered(topo, s, p, c(p.src, p.dst, p.channel), air, s')
    requires Receive(s.nodes[p.dst], p, c(p.src, p.dst, p.channel)) == Reaction(nd, [Unicast(to, ch, ttl, m)])
    ensures s'.nodes == s.nodes[p.dst := nd]
    ensures to in Neighbours(topo, p.dst, ch) ==> Packet(p.dst, to, ch, ttl, m) in s'.air
    ensures forall q <- s'.air ::
             q in s.air || (q == Packet(p.dst, to, ch, ttl, m) && to in Neighbours(topo, p.dst, ch))
    ensures forall q <- s.air :: q == p || q in s'.air
  {
    hide Receive, Transmit;
    var sends := [Unicast(to, ch, ttl, m)];
    forall q ensures q in Transmit(topo, p.dst, sends) <==> Carries(topo, p.dst, sends[0], q) {
      TransmitMembers(topo, p.dst, sends, q);
    }
  }

  /** The start of a search: three requests for every neighbour. */
  lemma Launched(topo: Topology, s: Net, e: Event)
    requires Launches(e) && Enabled(s, e) && s.air == []
    ensures var s', id, m := Apply(topo, s, e), s.nodes[e.n].rreqId,
                             Rreq(s.nodes[e.n].rreqId, e.dest, Sought(s.nodes[e.n], e), e.n,
                                 PlusOne(s.nodes[e.n].seqno), 0, 0.0, e.destOnly);
            && s'.nodes == s.nodes[e.n := Launch(s.nodes[e.n], e).node]
            && (forall q :: q in s'.air <==>
                  Spread(topo, e.n, Radius(e), q)
                      && q.msg in {m, m.(id := PlusOne(id)), m.(id := PlusOne(PlusOne(id)))})
  {
    hide Transmit;
    var nd := s.nodes[e.n];
    LaunchFloods(nd, e);
    var m := Rreq(nd.rreqId, e.dest, Sought(nd, e), e.n, PlusOne(nd.seqno), 0, 0.0, e.destOnly);
    forall q ensures q in Transmit(topo, e.n, Launch(nd, e).sends) <==>
                       Spread(topo, e.n, Radius(e), q)
                       && q.msg in {m, m.(id := PlusOne(nd.rreqId)), m.(id := PlusOne(PlusOne(nd.rreqId)))}
    {
      FloodAir(topo, e.n, Radius(e), m, m.(id := PlusOne(nd.rreqId)), m.(id := PlusOne(PlusOne(nd.rreqId))), q);
    }
  }

  /** The same with small numbers, which stay small. */
  lemma LowLaunch(topo: Topology, s: Net, e: Event, nd: Node, m: Message)
    requires Launches(e) && Enabled(s, e) && s.air == [] && LowNet(s)
    requires s.nodes[e.n].seqno < LOW - 1 && Launch(s.nodes[e.n], e).node == nd && LowNode(nd) && LowMessage(m)
    requires m == Rreq(s.nodes[e.n].rreqId, e.dest, Sought(s.nodes[e.n], e), e.n, PlusOne(s.nodes[e.n].seqno), 0, 0.0,
                 e.destOnly)
    ensures LowNet(Apply(topo, s, e)) && Apply(topo, s, e).nodes == s.nodes[e.n := nd]
    ensures forall q :: Spread(topo, e.n, Radius(e), q) && q.msg == m ==> q in Apply(topo, s, e).air
    ensures forall q <- Apply(topo, s, e).air ::
              Spread(topo, e.n, Radius(e), q) && q.msg.Rreq? && q.msg.(id := m.id) == m
  {
    Launched(topo, s, e);
    hide Apply, Launch, Spread, LowNode;
    var s' := Apply(topo, s, e);
    forall n | n in s'.nodes ensures LowNode(s'.nodes[n]) {
      assert n in s.nodes && (n != e.n ==> LowNode(s.nodes[n]));
    }
  }

  lemma LengthOfSchedule(topo: Topology, c: Costs, ss: seq<Net>, es: seq<Event>)
    requires Schedule(topo, c, ss, es)
    ensures |ss| == |es| + 1 && |es| >= 1
  {
  }

  // ---------- one more delivery ----------

  /** The schedule continues with the delivery of `p`, after which the receiver is `nd`. */
  ghost predicate Grown(topo: Topology, c: Costs, ss: seq<Net>, es: seq<Event>, ss': seq<Net>, es': seq<Event>,
                        p: Packet, nd: Node) {
    && Schedule(topo, c, ss, es) && Schedule(topo, c, ss', es')
    && |ss| == |es| + 1 && |es'| == |es| + 1 && |ss'| == |es'| + 1 && es'[..|es|] == es && ss'[..|ss|] == ss
    && ss'[0] == ss[0] && es'[0] == es[0] && ss'[|es'|].nodes == ss[|es|].nodes[p.dst := nd]
    && (forall q <- ss[|es|].air :: q == p || q in ss'[|es'|].air)
  }

  lemma SendOn(topo: Topology, c: Costs, ss: seq<Net>, es: seq<Event>, p: Packet, nd: Node, ttl: u8, m: Message)
    returns (ss': seq<Net>, es': seq<Event>)
    requires Schedule(topo, c, ss, es) && p in ss[|es|].air && p.dst in ss[|es|].nodes && LowNode(nd) && LowMessage(m)
    requires Receive(ss[|es|].nodes[p.dst], p, c(p.src, p.dst, p.channel)) == Reaction(nd, OnEveryChannel(ttl, m))
    ensures Grown(topo, c, ss, es, ss', es', p, nd)
    ensures forall q :: Spread(topo, p.dst, ttl, q) && q.msg == m ==> q in ss'[|es'|].air
    ensures forall q <- ss'[|es'|].air :: q in ss[|es|].air || (Spread(topo, p.dst, ttl, q) && q.msg == m)
  {
    hide Receive, Schedule;
    LengthOfSchedule(topo, c, ss, es);
    var air;
    ss', es', air := DeliverNext(topo, c, ss, es, p);
    LengthOfSchedule(topo, c, ss', es');
    assert ss'[..|ss|][0] == ss[0] && es'[..|es|][0] == es[0];
    Relayed(topo, c, ss[|es|], p, air, ss'[|es'|], nd, ttl, m);
  }

  lemma SendBack(topo: Topology, c: Costs, ss: seq<Net>, es: seq<Event>, p: Packet, nd: Node, to: Addr, ch: int,
                 ttl: u8, m: Message)
    returns (ss': seq<Net>, es': seq<Event>)
    requires Schedule(topo, c, ss, es) && p in ss[|es|].air && p.dst in ss[|es|].nodes && LowNode(nd) && LowMessage(m)
    requires Receive(ss[|es|].nodes[p.dst], p, c(p.src, p.dst, p.channel)) == Reaction(nd, [Unicast(to, ch, ttl, m)])
    ensures Grown(topo, c, ss, es, ss', es', p, nd)
    ensures to in Neighbours(topo, p.dst, ch) ==> Packet(p.dst, to, ch, ttl, m) in ss'[|es'|].air
    ensures forall q <- ss'[|es'|].air ::
              q in ss[|es|].air || (q == Packet(p.dst, to, ch, ttl, m) && to in Neighbours(topo, p.dst, ch))
  {
    hide Receive, Schedule;
    LengthOfSchedule(topo, c, ss, es);
    var air;
    ss', es', air := DeliverNext(topo, c, ss, es, p);
    LengthOfSchedule(topo, c, ss', es');
    assert ss'[..|ss|][0] == ss[0] && es'[..|es|][0] == es[0];
    Replied(topo, c, ss[|es|], p, air, ss'[|es'|], nd, to, ch, ttl, m);
  }

  lemma SaySilent(topo: Topology, c: Costs, ss: seq<Net>, es: seq<Event>, p: Packet, nd: Node)
    returns (ss': seq<Net>, es': seq<Event>)
    requires Schedule(topo, c, ss, es) && p in ss[|es|].air && p.dst in ss[|es|].nodes && LowNode(nd)
    requires Receive(ss[|es|].nodes[p.dst], p, c(p.src, p.dst, p.channel)) == Reaction(nd, [])
    ensures Grown(topo, c, ss, es, ss', es', p, nd)
    ensures forall q <- ss'[|es'|].air :: q in ss[|es|].air
  {
    hide Receive, Schedule;
    LengthOfSchedule(topo, c, ss, es);
    var air;
    ss', es', air := DeliverNext(topo, c, ss, es, p);
    LengthOfSchedule(topo, c, ss', es');
    assert ss'[..|ss|][0] == ss[0] && es'[..|es|][0] == es[0];
    Silent(topo, c, ss[|es|], p, air, ss'[|es'|], nd);
  }

  lemma ScheduleIsProper(topo: Topology, c: Costs, ss: seq<Net>, es: seq<Event>)
    requires Schedule(topo, c, ss, es) && Initial(ss[0]) && Sensible(topo, ss[0].nodes.Keys)
    ensures Proper(topo, ss, es)
  {
    hide LowNet, InRange, Initial, Sensible, Faithful;
    forall i | 0 <= i < |es| ensures InRange(ss[i]) {
      assert LowNet(ss[i]);
      LowInRange(ss[i]);
    }
  }

  lemma ScheduleSearches(topo: Topology, c: Costs, ss: seq<Net>, es: seq<Event>, behind: nat)
    requires Schedule(topo, c, ss, es) && Sensible(topo, ss[0].nodes.Keys) && Ready(ss[0], es[0].n, behind)
             && NonNegativeCosts(c)
    ensures SearchRun(topo, c, ss, es, behind)
  {
    hide Sensible, Ready, LowNet, Apply;
    assert StepAt(topo, ss, es, 0);
  }

  // ---------- packets that change nothing ----------

  /** The addressee has no use for the packet. */
  predicate Dead(c: Costs, s: Net, p: Packet) {
    && p.dst in s.nodes && p.src != p.dst
    && (|| p.dst == (if p.msg.Rreq? then p.msg.orig else p.msg.dest)
        || !Accepts(s.nodes[p.dst].table, p.msg, p.msg.cost + c(p.src, p.dst, p.channel)))
  }

  /** Routes and numbers stay, and nothing is sent. */
  lemma DeadDelivery(nd: Node, p: Packet, link: real)
    requires p.dst == (if p.msg.Rreq? then p.msg.orig else p.msg.dest) || !Accepts(nd.table, p.msg, p.msg.cost + link)
    ensures var r := Receive(nd, p, link);
            r.node.table == nd.table && r.node.seqno == nd.seqno && r.node.rreqId == nd.rreqId && r.sends == []
  {
  }

  /** Two states with the same routes and numbers. */
  ghost predicate SameRoutes(s: Net, s': Net) {
    && s'.nodes.Keys == s.nodes.Keys
    && forall n <- s.nodes :: s'.nodes[n].table == s.nodes[n].table && s'.nodes[n].seqno == s.nodes[n].seqno
  }

  lemma StaysDead(c: Costs, s: Net, s': Net, p: Packet)
    requires SameRoutes(s, s')
    ensures Dead(c, s', p) == Dead(c, s, p)
  {
  }

  /** All dead packets are delivered one after the other; only answers may be left. */
  lemma {:induction false} Drain(topo: Topology, c: Costs, ss: seq<Net>, es: seq<Event>)
    returns (ss': seq<Net>, es': seq<Event>)
    requires Schedule(topo, c, ss, es)
    requires forall p <- ss[|es|].air :: Dead(c, ss[|es|], p) || p.msg.Rrep?
    ensures Schedule(topo, c, ss', es') && 1 <= |es| <= |es'| && |ss'| == |es'| + 1 && ss'[0] == ss[0]
             && es'[0] == es[0]
    ensures SameRoutes(ss[|es|], ss'[|es'|])
    ensures forall p <- ss'[|es'|].air :: p in ss[|es|].air && p.msg.Rrep? && !Dead(c, ss[|es|], p)
    decreases |ss[|es|].air|
  {
    LengthOfRun(topo, ss, es);
    var s := ss[|es|];
    if i :| 0 <= i < |s.air| && Dead(c, s, s.air[i]) {
      var ss1, es1 := DrainOne(topo, c, ss, es, i);
      forall p | p in ss1[|es1|].air ensures Dead(c, ss1[|es1|], p) || p.msg.Rrep? {
        StaysDead(c, s, ss1[|es1|], p);
      }
      hide Schedule, Dead;
      ss', es' := Drain(topo, c, ss1, es1);
      forall p | p in ss'[|es'|].air ensures p in s.air && p.msg.Rrep? && !Dead(c, s, p) {
        StaysDead(c, s, ss1[|es1|], p);
      }
    } else {
      ss', es' := ss, es;
    }
  }

  lemma HasMember(air: seq<Packet>)
    requires |air| > 0
    ensures exists p :: p in air
  {
    assert air[0] in air;
  }

  lemma NothingLeft(air: seq<Packet>)
    requires forall p :: p !in air
    ensures air == []
  {
    if |air| > 0 {
      HasMember(air);
      assert false;
    }
  }

  lemma DrainOne(topo: Topology, c: Costs, ss: seq<Net>, es: seq<Event>, i: nat)
    returns (ss': seq<Net>, es': seq<Event>)
    requires Schedule(topo, c, ss, es) && i < |ss[|es|].air| && Dead(c, ss[|es|], ss[|es|].air[i])
    ensures Schedule(topo, c, ss', es') && |es'| == |es| + 1 && |ss'| == |es'| + 1 && ss'[0] == ss[0] && es'[0] == es[0]
    ensures SameRoutes(ss[|es|], ss'[|es'|]) && ss'[|es'|].air == Without(ss[|es|].air, i)
  {
    hide Receive;
    LengthOfRun(topo, ss, es);
    var s := ss[|es|];
    var p := s.air[i];
    var e := Deliver(i, c(p.src, p.dst, p.channel));
    var r := Receive(s.nodes[p.dst], p, e.link);
    DeadDelivery(s.nodes[p.dst], p, e.link);
    assert LowNet(s) && LowNode(s.nodes[p.dst]);
    LowReaction(topo, s, p.dst, r, Without(s.air, i));
    RunGrows(topo, ss, es, e);
    ss', es' := ss + [Apply(topo, s, e)], es + [e];
    ScheduleGrows(topo, c, ss, es, ss', es');
  }

  // ---------- runs in which packets are lost ----------

  /** A run whose numbers stay small. */
  ghost predicate LowRun(topo: Topology, ss: seq<Net>, es: seq<Event>) {
    Run(topo, ss, es) && forall i {:trigger LowNet(ss[i])} :: 0 <= i <= |es| ==> LowNet(ss[i])
  }

  lemma LowStart(topo: Topology, s: Net) returns (ss: seq<Net>, es: seq<Event>)
    requires Initial(s)
    ensures LowRun(topo, ss, es) && es == [] && ss == [s]
  {
    ss, es := [s], [];
    assert LowNode(FRESH_NODE);
  }

  lemma LowRunIsProper(topo: Topology, ss: seq<Net>, es: seq<Event>)
    requires LowRun(topo, ss, es) && Initial(ss[0]) && Sensible(topo, ss[0].nodes.Keys)
    ensures Proper(topo, ss, es)
  {
    hide LowNet, InRange, Initial, Sensible;
    forall i | 0 <= i < |es| ensures InRange(ss[i]) {
      assert LowNet(ss[i]);
      LowInRange(ss[i]);
    }
  }

  lemma LowRunGrows(topo: Topology, ss: seq<Net>, es: seq<Event>, e: Event) returns (ss': seq<Net>, es': seq<Event>)
    requires LowRun(topo, ss, es) && Enabled(ss[|es|], e) && LowNet(Apply(topo, ss[|es|], e))
    ensures LowRun(topo, ss', es') && |es'| == |es| + 1 && |ss'| == |es'| + 1 && ss'[0] == ss[0]
             && ss'[|es|] == ss[|es|] && ss'[|es'|] == Apply(topo, ss[|es|], e)
  {
    hide LowNet, Apply, Enabled;
    LengthOfRun(topo, ss, es);
    RunGrows(topo, ss, es, e);
    ss', es' := ss + [Apply(topo, ss[|es|], e)], es + [e];
    forall i | 0 <= i <= |es'| ensures LowNet(ss'[i]) {
      if i <= |es| {
        assert ss'[i] == ss[i] && LowNet(ss[i]);
      }
    }
  }

  /** A packet in the air is delivered, and the numbers stay small. */
  lemma LowDelivery(topo: Topology, ss: seq<Net>, es: seq<Event>, p: Packet, link: real)
    returns (ss': seq<Net>, es': seq<Event>)
    requires LowRun(topo, ss, es) && p in ss[|es|].air && p.dst in ss[|es|].nodes
    requires var r := Receive(ss[|es|].nodes[p.dst], p, link);
             LowNode(r.node) && forall send <- r.sends :: LowMessage(send.msg)
    ensures LowRun(topo, ss', es') && |es'| == |es| + 1 && |ss'| == |es'| + 1 && ss'[0] == ss[0]
    ensures var r := Receive(ss[|es|].nodes[p.dst], p, link);
            && ss'[|es'|].nodes == ss[|es|].nodes[p.dst := r.node]
            && forall send <- r.sends, q: Packet :: Carries(topo, p.dst, send, q) ==> q in ss'[|es'|].air
  {
    hide Receive, Transmit, Carries, LowNode, LowMessage;
    LengthOfRun(topo, ss, es);
    var s := ss[|es|];
    var i :| 0 <= i < |s.air| && s.air[i] == p;
    var r := Receive(s.nodes[p.dst], p, link);
    assert LowNet(s);
    LowReaction(topo, s, p.dst, r, Without(s.air, i));
    forall q: Packet, send | send in r.sends && Carries(topo, p.dst, send, q)
      ensures q in Transmit(topo, p.dst, r.sends)
    {
      var j :| 0 <= j < |r.sends| && r.sends[j] == send;
      TransmitMembers(topo, p.dst, r.sends, q);
    }
    ss', es' := LowRunGrows(topo, ss, es, Deliver(i, link));
  }

  /** Everything in the air is lost. */
  lemma {:induction false} LoseAll(topo: Topology, ss: seq<Net>, es: seq<Event>)
    returns (ss': seq<Net>, es': seq<Event>)
    requires LowRun(topo, ss, es)
    ensures LowRun(topo, ss', es') && |ss'| == |es'| + 1 && ss'[0] == ss[0] && ss'[|es'|] == Net(ss[|es|].nodes, [])
    decreases |ss[|es|].air|
  {
    LengthOfRun(topo, ss, es);
    var s := ss[|es|];
    if s.air == [] {
      ss', es' := ss, es;
    } else {
      assert LowNet(s);
      var s1 := Apply(topo, s, Lose(0));
      forall p | p in s1.air ensures LowMessage(p.msg) {
        assert p in s.air;
      }
      forall n | n in s1.nodes ensures LowNode(s1.nodes[n]) {
        assert LowNode(s.nodes[n]);
      }
      var ss1, es1 := LowRunGrows(topo, ss, es, Lose(0));
      hide LowRun;
      ss', es' := LoseAll(topo, ss1, es1);
    }
  }
}
