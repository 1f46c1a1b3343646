/**
 A network of agents. Packets in the air form a bag, kept as a sequence any position of which may
 be delivered, lost or duplicated next; a broadcast puts one packet per neighbour and channel in the
 air, and a unicast one packet if its addressee is a neighbour on its channel.
 Reordering is therefore unrestricted, and losing packets at will covers links that come and go.
 */
module Network {
  import opened SequenceNumbers
  import opened Aodv

  /** The neighbours a broadcast on a channel reaches, per sender and channel. */
  type Topology = map<(Addr, int), seq<Addr>>

  datatype Net = Net(nodes: map<Addr, Node>, air: seq<Packet>)

  /** `Deliver` carries the link cost that `getCost` returns at that moment. */
  datatype Event =
    | Discovery(n: Addr, dest: Addr, destOnly: bool)
    | Rediscovery(n: Addr, dest: Addr, destSeqno: u32, ttl: u8, destOnly: bool)
    | Deliver(i: nat, link: real)
    | Lose(i: nat)
    | Duplicate(i: nat)
    | Expire(n: Addr, d: Addr)
    | ForgetRecord(n: Addr, key: Key)

  // ---------- transmission ----------

  predicate Channel(ch: int) {
    0 <= ch < CHANNELS
  }

  function Neighbours(topo: Topology, n: Addr, channel: int): seq<Addr> {
    if (n, channel) in topo then topo[(n, channel)] else []
  }

  /** One packet for every neighbour on a channel. */
  function OnChannel(topo: Topology, self: Addr, channel: int, ttl: u8, msg: Message): seq<Packet> {
    var to := Neighbours(topo, self, channel);
    seq(|to|, i requires 0 <= i < |to| => Packet(self, to[i], channel, ttl, msg))
  }

  /** A broadcast leaves on every interface, whatever channel was asked for. */
  function OnAir(topo: Topology, self: Addr, ttl: u8, msg: Message): seq<Packet> {
    OnChannel(topo, self, 0, ttl, msg) + OnChannel(topo, self, 1, ttl, msg) + OnChannel(topo, self, 2, ttl, msg)
  }

  /** A unicast to a node that does not hear its channel is lost at once. */
  function Packets(topo: Topology, self: Addr, send: Send): seq<Packet> {
    match send
    case Unicast(to, channel, ttl, msg) =>
      if to in Neighbours(topo, self, channel) then [Packet(self, to, channel, ttl, msg)] else []
    case Broadcast(_, ttl, msg) => OnAir(topo, self, ttl, msg)
  }

  function Transmit(topo: Topology, self: Addr, sends: seq<Send>): seq<Packet> {
    if sends == [] then [] else Packets(topo, self, sends[0]) + Transmit(topo, self, sends[1..])
  }

  predicate Carries(topo: Topology, self: Addr, send: Send, p: Packet) {
    && p.src == self && p.ttl == send.ttl && p.msg == send.msg && p.dst in Neighbours(topo, self, p.channel)
    && (if send.Unicast? then p.channel == send.channel && p.dst == send.to else Channel(p.channel))
  }

  lemma OnChannelMembers(topo: Topology, self: Addr, channel: int, ttl: u8, msg: Message, p: Packet)
    ensures p in OnChannel(topo, self, channel, ttl, msg) <==>
              p == Packet(self, p.dst, channel, ttl, msg) && p.dst in Neighbours(topo, self, channel)
  {
    var to := Neighbours(topo, self, channel);
    if i :| 0 <= i < |to| && to[i] == p.dst {
      assert OnChannel(topo, self, channel, ttl, msg)[i] == Packet(self, p.dst, channel, ttl, msg);
    }
  }

  lemma PacketsMembers(topo: Topology, self: Addr, send: Send, p: Packet)
    ensures p in Packets(topo, self, send) <==> Carries(topo, self, send, p)
  {
    hide OnChannel, Neighbours;
    if send.Broadcast? {
      OnChannelMembers(topo, self, 0, send.ttl, send.msg, p);
      OnChannelMembers(topo, self, 1, send.ttl, send.msg, p);
      OnChannelMembers(topo, self, 2, send.ttl, send.msg, p);
    }
  }

  /** Three broadcasts in a row, as every flood and every forwarding makes them. */
  lemma ThreeBroadcasts(topo: Topology, self: Addr, ttl: u8, m0: Message, m1: Message, m2: Message)
    ensures Transmit(topo, self, [Broadcast(0, ttl, m0), Broadcast(1, ttl, m1), Broadcast(2, ttl, m2)])
         == OnAir(topo, self, ttl, m0) + OnAir(topo, self, ttl, m1) + OnAir(topo, self, ttl, m2)
  {
    hide OnAir;
    var b0, b1, b2 := Broadcast(0, ttl, m0), Broadcast(1, ttl, m1), Broadcast(2, ttl, m2);
    assert [b2][1..] == [] && [b1, b2][1..] == [b2] && [b0, b1, b2][1..] == [b1, b2];
    assert Transmit(topo, self, [b2]) == OnAir(topo, self, ttl, m2);
    assert Transmit(topo, self, [b1, b2]) == OnAir(topo, self, ttl, m1) + OnAir(topo, self, ttl, m2);
  }

  lemma {:induction false} TransmitMembers(topo: Topology, self: Addr, sends: seq<Send>, p: Packet)
    ensures p in Transmit(topo, self, sends) <==> exists j :: 0 <= j < |sends| && Carries(topo, self, sends[j], p)
  {
    if sends != [] {
      TransmitMembers(topo, self, sends[1..], p);
      PacketsMembers(topo, self, sends[0], p);
      if p in Transmit(topo, self, sends[1..]) {
        var j :| 0 <= j < |sends[1..]| && Carries(topo, self, sends[1..][j], p);
        assert Carries(topo, self, sends[j + 1], p);
      }
      if j :| 0 <= j < |sends| && Carries(topo, self, sends[j], p) {
        if j > 0 {
          assert Carries(topo, self, sends[1..][j - 1], p);
        }
      }
    }
  }

  // ---------- steps ----------

  function Without(air: seq<Packet>, i: nat): seq<Packet>
    requires i < |air|
  {
    air[..i] + air[i + 1..]
  }

  predicate Enabled(s: Net, e: Event) {
    match e
    case Discovery(n, dest, _) => n in s.nodes && dest != n
    case Rediscovery(n, dest, _, ttl, _) => n in s.nodes && dest != n && 1 <= ttl
    case Deliver(i, _) => i < |s.air| && s.air[i].dst in s.nodes
    case Lose(i) => i < |s.air|
    case Duplicate(i) => i < |s.air|
    case Expire(n, d) => n in s.nodes && d in s.nodes[n].table && s.nodes[n].table[d].valid
    case ForgetRecord(n, _) => n in s.nodes
  }

  function React(topo: Topology, s: Net, n: Addr, r: Reaction, air: seq<Packet>): Net {
    Net(s.nodes[n := r.node], air + Transmit(topo, n, r.sends))
  }

  function Apply(topo: Topology, s: Net, e: Event): Net
    requires Enabled(s, e)
  {
    match e
    case Discovery(n, dest, destOnly) => React(topo, s, n, Discover(n, s.nodes[n], dest, destOnly), s.air)
    case Rediscovery(n, dest, destSeqno, ttl, destOnly) =>
      React(topo, s, n, Rediscover(n, s.nodes[n], dest, destSeqno, ttl, destOnly), s.air)
    case Deliver(i, link) =>
      var p := s.air[i];
      React(topo, s, p.dst, Receive(s.nodes[p.dst], p, link), Without(s.air, i))
    case Lose(i) => s.(air := Without(s.air, i))
    case Duplicate(i) => s.(air := s.air + [s.air[i]])
    case Expire(n, d) => s.(nodes := s.nodes[n := s.nodes[n].(table := ExpireRoute(s.nodes[n].table, d))])
    case ForgetRecord(n, key) => s.(nodes := s.nodes[n := s.nodes[n].(records := s.nodes[n].records - {key})])
  }

  /** What is in the air may be delivered, lost or doubled at any time, whatever its place. */
  lemma AirMeans(topo: Topology, s: Net, i: nat)
    requires i < |s.air|
    ensures Enabled(s, Lose(i)) && Enabled(s, Duplicate(i))
    ensures var lost := Apply(topo, s, Lose(i));
            lost.nodes == s.nodes && multiset(lost.air) == multiset(s.air) - multiset{s.air[i]}
    ensures var doubled := Apply(topo, s, Duplicate(i));
            doubled.nodes == s.nodes && multiset(doubled.air) == multiset(s.air) + multiset{s.air[i]}
    ensures s.air[i].dst in s.nodes ==> forall link: real ::
              var p := s.air[i];
              && Enabled(s, Deliver(i, link))
              && Apply(topo, s, Deliver(i, link)) ==
                   Net(s.nodes[p.dst := Receive(s.nodes[p.dst], p, link).node],
                       Apply(topo, s, Lose(i)).air + Transmit(topo, p.dst, Receive(s.nodes[p.dst], p, link).sends))
  {
    hide Receive, Transmit;
    assert s.air == s.air[..i] + [s.air[i]] + s.air[i + 1..];
  }

  /** A valid route may expire and a record may be forgotten at any time, and a node may look for any other. */
  lemma NodeMeans(topo: Topology, s: Net, n: Addr)
    requires n in s.nodes
    ensures forall d <- s.nodes[n].table :: s.nodes[n].table[d].valid ==>
              && Enabled(s, Expire(n, d))
              && Apply(topo, s, Expire(n, d)) ==
                   Net(s.nodes[n := s.nodes[n].(table := ExpireRoute(s.nodes[n].table, d))], s.air)
    ensures forall key: Key ::
              && Enabled(s, ForgetRecord(n, key))
              && Apply(topo, s, ForgetRecord(n, key)) ==
                   Net(s.nodes[n := s.nodes[n].(records := s.nodes[n].records - {key})], s.air)
    ensures forall d: Addr, destOnly: bool :: d != n ==>
              && Enabled(s, Discovery(n, d, destOnly))
              && var r := Discover(n, s.nodes[n], d, destOnly);
                 Apply(topo, s, Discovery(n, d, destOnly)) ==
                   Net(s.nodes[n := r.node], s.air + Transmit(topo, n, r.sends))
  {
    hide ExpireRoute, Discover, Transmit;
  }

  ghost predicate Initial(s: Net) {
    && s.air == []
    && forall n <- s.nodes :: s.nodes[n] == FRESH_NODE
  }

  /** Event `i` of a run leads from state `i` to the next one. */
  ghost predicate StepAt(topo: Topology, ss: seq<Net>, es: seq<Event>, i: nat) {
    i < |es| && i + 1 < |ss| && Enabled(ss[i], es[i]) && ss[i + 1] == Apply(topo, ss[i], es[i])
  }

  ghost predicate Run(topo: Topology, ss: seq<Net>, es: seq<Event>) {
    && |ss| == |es| + 1
    && forall i {:trigger StepAt(topo, ss, es, i)} :: 0 <= i < |es| ==> StepAt(topo, ss, es, i)
  }

  lemma RunStep(topo: Topology, ss: seq<Net>, es: seq<Event>, k: nat)
    requires Run(topo, ss, es) && k < |es|
    ensures |ss| == |es| + 1 && Enabled(ss[k], es[k]) && ss[k + 1] == Apply(topo, ss[k], es[k])
  {
    hide Apply, Enabled;
    assert StepAt(topo, ss, es, k);
  }

  // ---------- hypotheses ----------

  /** Every neighbour is another node of the network. */
  ghost predicate Sensible(topo: Topology, nodes: set<Addr>) {
    forall n: Addr, ch: int, v: Addr :: v in Neighbours(topo, n, ch) ==> v in nodes && v != n
  }

  predicate SmallMessage(m: Message) {
    m.destSeqno < HALF && m.Seqno() < HALF
  }

  /** No counter has reached the half of its range where the signed comparison turns over. */
  ghost predicate InRange(s: Net) {
    && (forall n <- s.nodes :: s.nodes[n].seqno < HALF - 1 && s.nodes[n].rreqId < RANGE - 3)
    && (forall n <- s.nodes, d <- s.nodes[n].table :: s.nodes[n].table[d].seqno < HALF - 1)
    && (forall p <- s.air :: SmallMessage(p.msg))
  }

  // ---------- what every step keeps ----------

  /** What `u` sends on a channel is heard by `v`. */
  predicate Link(topo: Topology, u: Addr, v: Addr, ch: int) {
    Channel(ch) && v in Neighbours(topo, u, ch)
  }

  ghost predicate GoodRoute(s: Net, n: Addr, d: Addr, r: Route) {
    d != n && 1 <= r.seqno && r.nextHop in s.nodes && r.nextHop != n && Channel(r.channel) && !r.flags.unidir
  }

  ghost predicate GoodPacket(topo: Topology, s: Net, p: Packet) {
    && p.src in s.nodes && p.dst in s.nodes && p.src != p.dst && Link(topo, p.src, p.dst, p.channel)
    && 1 <= p.msg.Seqno() && (p.msg.Rreq? ==> 1 <= p.ttl)
  }

  ghost predicate Good(topo: Topology, s: Net) {
    && Sensible(topo, s.nodes.Keys)
    && (forall n <- s.nodes :: 1 <= s.nodes[n].seqno)
    && (forall n <- s.nodes, d <- s.nodes[n].table :: GoodRoute(s, n, d, s.nodes[n].table[d]))
    && (forall p <- s.air :: GoodPacket(topo, s, p))
  }

  /** The number a route stands for: invalidating a route bumps the stored one. */
  function NetSeqno(r: Route): int {
    if r.valid then r.seqno else r.seqno - 1
  }

  /** The same route, perhaps invalidated. */
  predicate Kept(r: Route, r': Route) {
    && r'.cost == r.cost && r'.nextHop == r.nextHop && r'.hcnt == r.hcnt && r'.channel == r.channel
    && NetSeqno(r') == NetSeqno(r) && r'.flags.unidir == r.flags.unidir && (r'.valid ==> r' == r)
    && r.seqno <= r'.seqno
  }

  /** The route taken from `p` over a link of cost `link`. */
  predicate Taken(r: Route, p: Packet, link: real) {
    && r.valid && r.seqno == p.msg.Seqno() && r.nextHop == p.src && r.channel == p.channel
    && r.cost == p.msg.cost + link && r.hcnt == Next(p.msg.hcnt) && !r.flags.unidir
  }

  /** `m` offers a route to its sender, or the valid route its sender holds. */
  predicate Speaks(self: Addr, t: Table, m: Message) {
    var d := m.About();
    if d == self then m.cost == 0.0 && m.hcnt == 0
    else d in t && t[d].valid && t[d].seqno == m.Seqno() && t[d].cost == m.cost && t[d].hcnt == m.hcnt
  }

  /** Tables the handlers work on. */
  predicate Ordinarily(t: Table) {
    forall d <- t :: 1 <= t[d].seqno < HALF - 1 && t[d].channel != -1 && !t[d].flags.unidir
  }

  predicate TableKept(t: Table, t': Table, but: set<Addr>) {
    && (forall d <- t :: d in t')
    && (forall d <- t' :: d !in but ==> d in t && Kept(t[d], t'[d]))
  }

  lemma LinkBreakKeeps(t: Table, d: Addr)
    requires Ordinarily(t) && d in t
    ensures TableKept(t, LinkBreak(t, d), {})
  {
  }

  lemma AdoptKeeps(t: Table, p: Packet, link: real)
    requires Ordinarily(t)
    ensures var t' := Adopt(t, p, link); var d := p.msg.About();
            TableKept(t, t', {d}) && d in t' && Taken(t'[d], p, link)
  {
    var d := p.msg.About();
    if d in t {
      LinkBreakKeeps(t, d);
    }
  }

  /** A node answers only for itself or with a valid route of its own. */
  lemma AnswerSpeaks(self: Addr, nd: Node, p: Packet, link: real)
    requires p.msg.Rreq? && p.msg.orig != self && p.channel != -1
    requires p.msg.orig in nd.table && Taken(nd.table[p.msg.orig], p, link)
    requires forall d <- nd.table :: nd.table[d].channel != -1
    ensures var r := AnswerOrForward(self, nd, p, p.msg.cost + link);
            && r.node.table == nd.table
            && (r.node.seqno == nd.seqno || r.node.seqno == AnswerSeqno(nd.seqno, p.msg.destSeqno))
            && (forall send <- r.sends :: Speaks(self, nd.table, send.msg))
  {
  }

  lemma RequestTaken(nd: Node, nd1: Node, p: Packet, link: real)
    requires Ordinarily(nd.table) && p.channel != -1 && p.msg.Rreq? && p.msg.orig != p.dst
    requires Accepts(nd.table, p.msg, p.msg.cost + link)
    requires nd1.table == Adopt(nd.table, p, link) && nd1.seqno == nd.seqno
    ensures Received(nd, p, link, AnswerOrForward(p.dst, nd1, p, p.msg.cost + link))
  {
    AdoptKeeps(nd.table, p, link);
    AnswerSpeaks(p.dst, nd1, p, link);
  }

  lemma RequestReception(nd: Node, p: Packet, link: real)
    requires Ordinarily(nd.table) && p.channel != -1 && p.msg.Rreq?
    ensures Received(nd, p, link, RreqProcess(p.dst, nd, p, link))
  {
    var m, cost := p.msg, p.msg.cost + link;
    var r := RreqProcess(p.dst, nd, p, link);
    if m.orig == p.dst || p.src in nd.blacklist || Filtered(nd.records, (m.orig, m.id), cost)
        || !Accepts(nd.table, m, cost) {
      assert r.node.table == nd.table && r.sends == [] && r.node.seqno == nd.seqno;
    } else {
      var nd1 := nd.(records := Remember(nd.records, (m.orig, m.id), cost), table := Adopt(nd.table, p, link));
      assert r == AnswerOrForward(p.dst, nd1, p, cost);
      RequestTaken(nd, nd1, p, link);
    }
  }

  lemma ReplyReception(nd: Node, p: Packet, link: real)
    requires Ordinarily(nd.table) && p.msg.Rrep?
    ensures Received(nd, p, link, RrepProcess(p.dst, nd, p, link))
  {
    AdoptKeeps(nd.table, p, link);
  }

  /** One reception either leaves the table alone and says nothing, or takes the offered route. */
  lemma Reception(nd: Node, p: Packet, link: real)
    requires Ordinarily(nd.table) && p.channel != -1
    ensures Received(nd, p, link, Receive(nd, p, link))
  {
    if p.msg.Rreq? {
      RequestReception(nd, p, link);
    } else {
      ReplyReception(nd, p, link);
    }
  }

  ghost predicate Received(nd: Node, p: Packet, link: real, r: Reaction) {
    var d := p.msg.About();
    || (r.node.table == nd.table && r.sends == [] && r.node.seqno == nd.seqno)
    || (&& d != p.dst && Accepts(nd.table, p.msg, p.msg.cost + link)
        && r.node.table == Adopt(nd.table, p, link)
        && TableKept(nd.table, r.node.table, {d})
        && d in r.node.table && Taken(r.node.table[d], p, link)
        && (forall send <- r.sends :: Speaks(p.dst, r.node.table, send.msg))
        && (r.node.seqno == AnswerSeqno(nd.seqno, p.msg.destSeqno) || r.node.seqno == nd.seqno))
  }

  /** On which channels a reaction is sent, and in what form. */
  lemma ReactionSends(nd: Node, p: Packet, link: real, send: Send)
    requires Ordinarily(nd.table) && Channel(p.channel)
    requires forall d <- nd.table :: Channel(nd.table[d].channel) && nd.table[d].nextHop != p.dst
    requires p.src != p.dst && 1 <= p.msg.Seqno() && 1 <= nd.seqno
    requires send in Receive(nd, p, link).sends
    ensures Channel(send.channel) && 1 <= send.msg.Seqno()
    ensures send.msg.Rreq? ==> send.Broadcast? && 1 <= send.ttl
  {
    Reception(nd, p, link);
    if p.msg.Rrep? {
      var t := Adopt(nd.table, p, link);
      var rev := t[p.msg.orig];
      if p.msg.orig == p.msg.About() {
        assert rev.nextHop == p.src;
      } else {
        assert Kept(nd.table[p.msg.orig], rev);
      }
    } else if p.msg.dest != p.dst && CanAnswer(Adopt(nd.table, p, link), p.msg) {
      var t := Adopt(nd.table, p, link);
      if p.msg.dest != p.msg.orig {
        assert Kept(nd.table[p.msg.dest], t[p.msg.dest]);
      }
    }
  }

  /** The delivered packet behind a route that a step put in place of the old one. */
  predicate AdoptedBy(s: Net, e: Event, n: Addr, d: Addr, r: Route) {
    && e.Deliver? && e.i < |s.air| && n in s.nodes
    && s.air[e.i].dst == n && s.air[e.i].msg.About() == d && d != n
    && Accepts(s.nodes[n].table, s.air[e.i].msg, s.air[e.i].msg.cost + e.link)
    && Taken(r, s.air[e.i], e.link)
  }

  /** What one step does to the routes of one node. */
  ghost predicate NodeStep(s: Net, e: Event, s': Net, n: Addr)
    requires n in s.nodes && n in s'.nodes
  {
    var t, t' := s.nodes[n].table, s'.nodes[n].table;
    && (forall d <- t :: d in t')
    && (forall d <- t' :: (d in t && Kept(t[d], t'[d])) || AdoptedBy(s, e, n, d, t'[d]))
  }

  /** A step keeps routes or takes them from a delivered packet, and new packets speak the truth. */
  ghost predicate Shaped(s: Net, e: Event, s': Net) {
    && s'.nodes.Keys == s.nodes.Keys
    && (forall n <- s.nodes :: NodeStep(s, e, s', n))
    && (forall p <- s'.air :: p in s.air || (p.src in s'.nodes && Speaks(p.src, s'.nodes[p.src].table, p.msg)))
  }

  /** Only the sender of new packets changes, and they all carry one of its messages. */
  lemma NewPackets(topo: Topology, s: Net, n: Addr, r: Reaction, air: seq<Packet>, p: Packet)
    requires p in React(topo, s, n, r, air).air && p !in air
    ensures exists send :: send in r.sends && Carries(topo, n, send, p)
  {
    TransmitMembers(topo, n, r.sends, p);
    var j :| 0 <= j < |r.sends| && Carries(topo, n, r.sends[j], p);
    assert r.sends[j] in r.sends;
  }

  lemma FloodShape(topo: Topology, s: Net, e: Event)
    requires (e.Discovery? || e.Rediscovery?) && Enabled(s, e)
    requires s.nodes[e.n].seqno < HALF - 1
    ensures Shaped(s, e, Apply(topo, s, e))
  {
    var s' := Apply(topo, s, e);
    var nd := s.nodes[e.n];
    var r := if e.Discovery? then Discover(e.n, nd, e.dest, e.destOnly)
             else Rediscover(e.n, nd, e.dest, e.destSeqno, e.ttl, e.destOnly);
    forall p | p in s'.air && p !in s.air ensures p.src == e.n && Speaks(e.n, s'.nodes[e.n].table, p.msg) {
      NewPackets(topo, s, e.n, r, s.air, p);
    }
  }

  lemma DeliveryShape(topo: Topology, s: Net, e: Event)
    requires Good(topo, s) && InRange(s) && Enabled(s, e) && e.Deliver?
    ensures Shaped(s, e, Apply(topo, s, e))
  {
    var q := s.air[e.i];
    assert GoodPacket(topo, s, q);
    OrdinaryTable(topo, s, q.dst);
    Reception(s.nodes[q.dst], q, e.link);
    ReactionShape(topo, s, e, Receive(s.nodes[q.dst], q, e.link));
  }

  lemma ReactionShape(topo: Topology, s: Net, e: Event, r: Reaction)
    requires Enabled(s, e) && e.Deliver? && Received(s.nodes[s.air[e.i].dst], s.air[e.i], e.link, r)
    requires forall d <- s.nodes[s.air[e.i].dst].table :: s.nodes[s.air[e.i].dst].table[d].seqno < HALF
    ensures Shaped(s, e, React(topo, s, s.air[e.i].dst, r, Without(s.air, e.i)))
  {
    var n := s.air[e.i].dst;
    var s' := React(topo, s, n, r, Without(s.air, e.i));
    forall p | p in s'.air && p !in s.air ensures p.src == n && Speaks(n, s'.nodes[n].table, p.msg) {
      NewPackets(topo, s, n, r, Without(s.air, e.i), p);
    }
    assert NodeStep(s, e, s', n);
  }

  lemma ExpiryKeeps(t: Table, d: Addr)
    requires Ordinarily(t) && d in t
    ensures TableKept(t, ExpireRoute(t, d), {})
  {
    LinkBreakKeeps(t, d);
  }

  lemma ExpiryShape(topo: Topology, s: Net, e: Event)
    requires Good(topo, s) && InRange(s) && Enabled(s, e) && e.Expire?
    ensures Shaped(s, e, Apply(topo, s, e))
  {
    var s' := Apply(topo, s, e);
    OrdinaryTable(topo, s, e.n);
    ExpiryKeeps(s.nodes[e.n].table, e.d);
    assert s'.nodes[e.n].table == ExpireRoute(s.nodes[e.n].table, e.d);
    forall n | n in s.nodes ensures NodeStep(s, e, s', n) {
      assert n != e.n ==> s'.nodes[n] == s.nodes[n];
    }
  }

  lemma StepShape(topo: Topology, s: Net, e: Event)
    requires Good(topo, s) && InRange(s) && Enabled(s, e)
    ensures Shaped(s, e, Apply(topo, s, e))
  {
    match e
    case Discovery(_, _, _) => FloodShape(topo, s, e);
    case Rediscovery(_, _, _, _, _) => FloodShape(topo, s, e);
    case Deliver(_, _) => DeliveryShape(topo, s, e);
    case Expire(_, _) => ExpiryShape(topo, s, e);
    case Lose(_) =>
    case Duplicate(_) =>
    case ForgetRecord(_, _) =>
  }

  lemma OrdinaryTable(topo: Topology, s: Net, n: Addr)
    requires Good(topo, s) && InRange(s) && n in s.nodes
    ensures Ordinarily(s.nodes[n].table)
    ensures forall d <- s.nodes[n].table :: Channel(s.nodes[n].table[d].channel) && s.nodes[n].table[d].nextHop != n
  {
    forall d | d in s.nodes[n].table
      ensures 1 <= s.nodes[n].table[d].seqno < HALF - 1 && Channel(s.nodes[n].table[d].channel)
      ensures !s.nodes[n].table[d].flags.unidir && s.nodes[n].table[d].nextHop != n
    {
      assert GoodRoute(s, n, d, s.nodes[n].table[d]);
    }
  }

  lemma ReactionPacketGood(topo: Topology, s: Net, e: Event, p: Packet)
    requires e.Deliver? && Enabled(s, e) && Good(topo, s) && InRange(s)
    requires p in Apply(topo, s, e).air && p !in s.air
    ensures GoodPacket(topo, s, p)
  {
    var q := s.air[e.i];
    assert GoodPacket(topo, s, q);
    var nd := s.nodes[q.dst];
    var r := Receive(nd, q, e.link);
    OrdinaryTable(topo, s, q.dst);
    NewPackets(topo, s, q.dst, r, Without(s.air, e.i), p);
    var send :| send in r.sends && Carries(topo, q.dst, send, p);
    ReactionSends(nd, q, e.link, send);
  }

  lemma FloodPacketGood(topo: Topology, s: Net, e: Event, p: Packet)
    requires (e.Discovery? || e.Rediscovery?) && Enabled(s, e) && Good(topo, s) && InRange(s)
    requires p in Apply(topo, s, e).air && p !in s.air
    ensures GoodPacket(topo, s, p)
  {
    var nd := s.nodes[e.n];
    var r := if e.Discovery? then Discover(e.n, nd, e.dest, e.destOnly)
             else Rediscover(e.n, nd, e.dest, e.destSeqno, e.ttl, e.destOnly);
    NewPackets(topo, s, e.n, r, s.air, p);
  }

  /** Routes stay well formed across any step of this shape. */
  lemma RoutesStayGood(topo: Topology, s: Net, e: Event, s': Net, n: Addr, d: Addr)
    requires Good(topo, s) && Shaped(s, e, s')
    requires n in s'.nodes && d in s'.nodes[n].table
    ensures GoodRoute(s', n, d, s'.nodes[n].table[d])
  {
    assert NodeStep(s, e, s', n);
    if d in s.nodes[n].table && Kept(s.nodes[n].table[d], s'.nodes[n].table[d]) {
      assert GoodRoute(s, n, d, s.nodes[n].table[d]);
    } else {
      assert GoodPacket(topo, s, s.air[e.i]);
    }
  }

  lemma PacketsStayGood(topo: Topology, s: Net, e: Event, p: Packet)
    requires Enabled(s, e) && Good(topo, s) && InRange(s)
    requires p in Apply(topo, s, e).air
    ensures GoodPacket(topo, s, p)
  {
    if p in s.air {
    } else if e.Deliver? {
      ReactionPacketGood(topo, s, e, p);
    } else {
      FloodPacketGood(topo, s, e, p);
    }
  }

  lemma NumbersStayPositive(topo: Topology, s: Net, e: Event, n: Addr)
    requires Enabled(s, e) && Good(topo, s) && InRange(s)
    requires n in s.nodes
    ensures n in Apply(topo, s, e).nodes && 1 <= Apply(topo, s, e).nodes[n].seqno
  {
    if e.Deliver? && s.air[e.i].dst == n {
      assert GoodPacket(topo, s, s.air[e.i]);
      OrdinaryTable(topo, s, n);
      Reception(s.nodes[n], s.air[e.i], e.link);
    }
  }

  /** Well-formedness survives every step taken from a state whose counters are in range. */
  lemma StepGood(topo: Topology, s: Net, e: Event)
    requires Enabled(s, e) && Good(topo, s) && InRange(s)
    ensures Good(topo, Apply(topo, s, e))
  {
    StepShape(topo, s, e);
    StepGoodFrom(topo, s, e, Apply(topo, s, e));
  }

  lemma StepGoodFrom(topo: Topology, s: Net, e: Event, s': Net)
    requires Enabled(s, e) && Good(topo, s) && InRange(s) && s' == Apply(topo, s, e) && Shaped(s, e, s')
    ensures Good(topo, s')
  {
    forall n, d | n in s'.nodes && d in s'.nodes[n].table ensures GoodRoute(s', n, d, s'.nodes[n].table[d]) {
      RoutesStayGood(topo, s, e, s', n, d);
    }
    forall p | p in s'.air ensures GoodPacket(topo, s', p) {
      PacketsStayGood(topo, s, e, p);
    }
    forall n | n in s'.nodes ensures 1 <= s'.nodes[n].seqno {
      NumbersStayPositive(topo, s, e, n);
    }
  }
}
