/**
 Shortest paths. One fresh search that nobody but the destination answers, over links of fixed
 non-negative cost and without losses, leaves every node with the cheapest route to the
 originator among all walks that do not pass through the destination. A node that answers from its
 own table does not send the request on; the invariant keeps the set of these quiet nodes, and
 whoever answers, routes are no dearer than walks around them.
 */
module Optimality {
  import opened SequenceNumbers
  import opened Aodv
  import opened Network
  import opened Sets
  import opened Walks

  /** A discovery in progress: who looks for whom, how far, and the numbers of its three requests. */
  datatype Search = Search(orig: Addr, dest: Addr, seqno: u32, id: u32, ttl: u8, destOnly: bool) {
    function Ids(): set<u32> {
      {id, PlusOne(id), PlusOne(PlusOne(id))}
    }
  }

  // ---------- walks a flood can take ----------

  /** A walk along links that does not go on from the destination. */
  predicate Flooding(topo: Topology, dest: Addr, w: Walk) {
    w.Go? ==> Flooding(topo, dest, w.prefix) && w.prefix.End() != dest && Link(topo, w.prefix.End(), w.to, w.channel)
  }

  predicate Reaches(topo: Topology, f: Search, w: Walk, n: Addr) {
    Flooding(topo, f.dest, w) && w.Start() == f.orig && w.End() == n
  }

  ghost predicate NonNegativeCosts(c: Costs) {
    forall u, v, ch :: c(u, v, ch) >= 0.0
  }

  function Visits(w: Walk): set<Addr> {
    if w.At? then {w.n} else Visits(w.prefix) + {w.to}
  }

  predicate Simple(w: Walk) {
    w.Go? ==> Simple(w.prefix) && w.to !in Visits(w.prefix)
  }

  lemma {:induction false} SimpleSize(w: Walk)
    requires Simple(w)
    ensures |Visits(w)| == w.Length() + 1
  {
    if w.Go? {
      SimpleSize(w.prefix);
    }
  }

  // ---------- what one node knows of the search ----------

  predicate Has(nd: Node, f: Search) {
    f.orig in nd.table && nd.table[f.orig].valid && nd.table[f.orig].seqno == f.seqno
  }

  function Cost(nd: Node, f: Search): real
    requires Has(nd, f)
  {
    nd.table[f.orig].cost
  }

  /** A request of this search. */
  predicate Asks(f: Search, m: Message) {
    m.Rreq? && m.orig == f.orig && m.dest == f.dest && m.origSeqno == f.seqno && m.destOnly == f.destOnly
        && m.id in f.Ids()
  }

  predicate Numbered(f: Search) {
    1 <= f.seqno < HALF && f.orig != f.dest
  }

  /** The node's route to the originator is of this search or older, and its records agree with it. */
  ghost predicate NodeFits(nd: Node, f: Search) {
    && nd.blacklist == {}
    && (f.orig in nd.table ==>
          || NetSeqno(nd.table[f.orig]) < f.seqno
          || (Has(nd, f) && nd.table[f.orig].nextHop != f.dest))
    && (forall id <- f.Ids() :: (f.orig, id) in nd.records ==> Has(nd, f) && Cost(nd, f) <= nd.records[(f.orig, id)])
  }

  /** A node takes a request that is its first of the search or cheaper than its route. */
  predicate Improves(nd: Node, f: Search, cost: real) {
    Has(nd, f) ==> cost < Cost(nd, f)
  }

  predicate Forwarded(f: Search, p: Packet, cost: real, sends: seq<Send>, m: Message) {
    && Asks(f, m) && m.cost == cost && m.hcnt == Next(p.msg.hcnt)
    && p.ttl > 1 && sends == OnEveryChannel(p.ttl - 1, m)
  }

  /** The node answers the request from its table instead of sending it on. */
  predicate Itself(nd: Node, f: Search, p: Packet, link: real)
    requires p.msg.Rreq?
  {
    p.dst != f.dest && CanAnswer(DropUnchannelled(Adopt(nd.table, p, link), f.dest), p.msg)
  }

  ghost predicate Answered(f: Search, p: Packet, cost: real, sends: seq<Send>, itself: bool) {
    if p.dst == f.dest || itself || p.ttl <= 1 then forall send <- sends :: send.msg.Rrep? && send.msg.dest == f.dest
    else exists m: Message :: Forwarded(f, p, cost, sends, m)
  }

  lemma GuardIsImprovement(nd: Node, f: Search, m: Message, cost: real)
    requires Numbered(f) && NodeFits(nd, f) && Asks(f, m)
    ensures Accepts(nd.table, m, cost) <==> Improves(nd, f, cost)
    ensures Filtered(nd.records, (m.orig, m.id), cost) ==> !Improves(nd, f, cost)
  {
  }

  lemma TakingAnswers(nd: Node, f: Search, p: Packet, cost: real)
    requires Numbered(f) && Asks(f, p.msg)
    ensures var r := AnswerOrForward(p.dst, nd, p, cost);
            Answered(f, p, cost, r.sends, p.dst != f.dest && CanAnswer(DropUnchannelled(nd.table, f.dest), p.msg))
            && r.node.records == nd.records && r.node.blacklist == nd.blacklist
            && r.node.table == (if p.dst == f.dest then nd.table else DropUnchannelled(nd.table, f.dest))
  {
    var m := p.msg;
    var t := DropUnchannelled(nd.table, m.dest);
    if m.dest != p.dst && !CanAnswer(t, m) && p.ttl > 1 {
      var wanted :=
        if m.dest in t && Int32(t[m.dest].seqno) > Int32(m.destSeqno) then t[m.dest].seqno else m.destSeqno;
      var m' := Rreq(m.id, m.dest, wanted, m.orig, m.origSeqno, Next(m.hcnt), cost, m.destOnly);
      assert Forwarded(f, p, cost, AnswerOrForward(p.dst, nd, p, cost).sends, m');
    }
  }

  /** The effect of one request of the search on a node other than the originator. */
  ghost predicate Heard(nd: Node, f: Search, p: Packet, link: real, r: Reaction)
    requires p.msg.Rreq?
  {
    var cost := p.msg.cost + link;
    && NodeFits(r.node, f) && Has(r.node, f)
    && (if Improves(nd, f, cost) then Cost(r.node, f) == cost && Answered(f, p, cost, r.sends, Itself(nd, f, p, link))
        else Cost(r.node, f) == Cost(nd, f) && r.sends == [])
  }

  lemma RequestEffect(nd: Node, f: Search, p: Packet, link: real)
    requires Numbered(f) && NodeFits(nd, f) && Asks(f, p.msg)
    requires p.src != p.dst && p.src != f.dest && p.dst != f.orig
    ensures Heard(nd, f, p, link, Receive(nd, p, link))
  {
    var m, cost := p.msg, p.msg.cost + link;
    GuardIsImprovement(nd, f, m, cost);
    if Improves(nd, f, cost) {
      var nd1 := nd.(records := Remember(nd.records, (m.orig, m.id), cost), table := Adopt(nd.table, p, link));
      assert Receive(nd, p, link) == AnswerOrForward(p.dst, nd1, p, cost);
      TakingAnswers(nd1, f, p, cost);
    }
  }

  /** Replies are about the destination and leave routes to the originator alone. */
  lemma ReplyEffect(nd: Node, f: Search, p: Packet, link: real)
    requires Numbered(f) && NodeFits(nd, f) && p.msg.Rrep? && p.msg.dest == f.dest
    ensures var r := Receive(nd, p, link);
            && NodeFits(r.node, f) && (Has(r.node, f) <==> Has(nd, f))
               && (Has(nd, f) ==> Cost(r.node, f) == Cost(nd, f))
            && forall send <- r.sends :: send.msg.Rrep? && send.msg.dest == f.dest
  {
  }

  // ---------- what the network knows of the search ----------

  predicate Reached(s: Net, f: Search, n: Addr) {
    n == f.orig || (n in s.nodes && Has(s.nodes[n], f))
  }

  function Dist(s: Net, f: Search, n: Addr): real
    requires Reached(s, f, n)
  {
    if n == f.orig then 0.0 else Cost(s.nodes[n], f)
  }

  /** Each node of the walk is reached, at no more than the weight of the walk up to it. */
  ghost predicate Visited(c: Costs, s: Net, f: Search, w: Walk) {
    && Reached(s, f, w.End()) && Dist(s, f, w.End()) <= Weight(c, w)
    && (w.Go? ==> Visited(c, s, f, w.prefix))
  }

  lemma {:induction false} VisitedReached(c: Costs, s: Net, f: Search, w: Walk, n: Addr)
    requires NonNegativeCosts(c) && Visited(c, s, f, w) && n in Visits(w)
    ensures Reached(s, f, n) && Dist(s, f, n) <= Weight(c, w)
  {
    if w.Go? && n != w.to {
      VisitedReached(c, s, f, w.prefix, n);
    }
  }

  ghost predicate Carried(topo: Topology, c: Costs, s: Net, f: Search, p: Packet, w: Walk) {
    && Reaches(topo, f, w, p.src) && p.src != f.dest && Link(topo, p.src, p.dst, p.channel)
    && Simple(w) && Visits(w) <= s.nodes.Keys && Visited(c, s, f, w)
    && Weight(c, w) == p.msg.cost && w.Length() == p.msg.hcnt && p.ttl + w.Length() == f.ttl
  }

  ghost predicate PacketFits(topo: Topology, c: Costs, s: Net, f: Search, p: Packet) {
    if p.msg.Rrep? then p.msg.dest == f.dest
    else Asks(f, p.msg) && exists w :: Carried(topo, c, s, f, p, w)
  }

  /** The cost of a node's route is the weight of a walk. */
  ghost predicate Founded(topo: Topology, c: Costs, s: Net, f: Search, n: Addr) {
    n in s.nodes && Has(s.nodes[n], f) ==> exists w :: Reaches(topo, f, w, n) && Weight(c, w) == Cost(s.nodes[n], f)
  }

  /** The packet that will tell `v` of `u`'s current route. */
  predicate Pending(s: Net, f: Search, u: Addr, v: Addr, ch: int, p: Packet)
    requires Reached(s, f, u)
  {
    Asks(f, p.msg) && p.src == u && p.dst == v && p.channel == ch && p.msg.cost == Dist(s, f, u)
  }

  /** `v` knows of the way through `u`, or will hear of it. */
  ghost predicate Served(c: Costs, s: Net, f: Search, u: Addr, v: Addr, ch: int)
    requires Reached(s, f, u)
  {
    || (Reached(s, f, v) && Dist(s, f, v) <= Dist(s, f, u) + c(u, v, ch))
    || exists p :: p in s.air && Pending(s, f, u, v, ch, p)
  }

  /** A node that has something to tell its neighbours. */
  predicate Speaking(s: Net, f: Search, quiet: set<Addr>, u: Addr) {
    Reached(s, f, u) && u != f.dest && u !in quiet
  }

  ghost predicate Complete(topo: Topology, c: Costs, s: Net, f: Search, quiet: set<Addr>) {
    forall u, v, ch :: Speaking(s, f, quiet, u) && Link(topo, u, v, ch) && v != f.orig ==> Served(c, s, f, u, v, ch)
  }

  /** The network invariant of a search; `quiet` are the nodes that answered for their present route. */
  ghost predicate Searching(topo: Topology, c: Costs, s: Net, f: Search, quiet: set<Addr>) {
    && Sensible(topo, s.nodes.Keys) && f.orig in s.nodes
    && (forall n <- quiet :: n in s.nodes && n != f.orig && n != f.dest && Has(s.nodes[n], f))
    && (forall n <- s.nodes {:trigger NodeFits(s.nodes[n], f)} :: NodeFits(s.nodes[n], f))
    && (forall n <- s.nodes {:trigger Founded(topo, c, s, f, n)} :: Founded(topo, c, s, f, n))
    && (forall p <- s.air {:trigger PacketFits(topo, c, s, f, p)} :: PacketFits(topo, c, s, f, p))
    && Complete(topo, c, s, f, quiet)
  }

  /** Routes of the search only get cheaper. */
  ghost predicate Cheapened(s: Net, f: Search, s': Net) {
    && s'.nodes.Keys == s.nodes.Keys
    && forall n :: Reached(s, f, n) ==> Reached(s', f, n) && Dist(s', f, n) <= Dist(s, f, n)
  }

  lemma {:induction false} VisitedStays(c: Costs, s: Net, f: Search, s': Net, w: Walk)
    requires Visited(c, s, f, w) && Cheapened(s, f, s')
    ensures Visited(c, s', f, w)
  {
    if w.Go? {
      VisitedStays(c, s, f, s', w.prefix);
    }
  }

  lemma PacketStays(topo: Topology, c: Costs, s: Net, f: Search, s': Net, p: Packet)
    requires PacketFits(topo, c, s, f, p) && Cheapened(s, f, s')
    ensures PacketFits(topo, c, s', f, p)
  {
    if p.msg.Rreq? {
      var w :| Carried(topo, c, s, f, p, w);
      VisitedStays(c, s, f, s', w);
      assert Carried(topo, c, s', f, p, w);
    }
  }

  // ---------- optimality at rest ----------

  ghost predicate Quiescent(s: Net) {
    forall p <- s.air :: p.msg.Rrep?
  }

  /** The walk does not go on from a node in `quiet`. */
  predicate Avoids(quiet: set<Addr>, w: Walk) {
    w.Go? ==> Avoids(quiet, w.prefix) && w.prefix.End() !in quiet
  }

  lemma {:induction false} NoWalkIsCheaper(topo: Topology, c: Costs, s: Net, f: Search, quiet: set<Addr>, w: Walk)
    requires Searching(topo, c, s, f, quiet) && Quiescent(s) && NonNegativeCosts(c)
    requires Flooding(topo, f.dest, w) && w.Start() == f.orig && Avoids(quiet, w)
    ensures Reached(s, f, w.End()) && Dist(s, f, w.End()) <= Weight(c, w)
  {
    if w.Go? {
      NoWalkIsCheaper(topo, c, s, f, quiet, w.prefix);
      assert Speaking(s, f, quiet, w.prefix.End());
      assert w.to != f.orig ==> Served(c, s, f, w.prefix.End(), w.to, w.channel);
    }
    WeightNonNegative(c, w);
  }

  lemma {:induction false} WeightNonNegative(c: Costs, w: Walk)
    requires NonNegativeCosts(c)
    ensures Weight(c, w) >= 0.0
  {
    if w.Go? {
      WeightNonNegative(c, w.prefix);
    }
  }

  /** A node has a route exactly if some walk leads to it, and then the cheapest one. */
  ghost predicate Optimal(topo: Topology, c: Costs, s: Net, f: Search, n: Addr)
    requires n in s.nodes
  {
    && (Has(s.nodes[n], f) <==> exists w :: Reaches(topo, f, w, n))
    && (Has(s.nodes[n], f) ==>
          && (exists w :: Reaches(topo, f, w, n) && Weight(c, w) == Cost(s.nodes[n], f))
          && (forall w :: Reaches(topo, f, w, n) ==> Cost(s.nodes[n], f) <= Weight(c, w)))
  }

  /**
   A node's route has the weight of some walk, and no walk on which only the last node may have
   answered is cheaper.
   */
  ghost predicate OptimalAround(topo: Topology, c: Costs, s: Net, f: Search, quiet: set<Addr>, n: Addr)
    requires n in s.nodes
  {
    && (Has(s.nodes[n], f) ==> exists w :: Reaches(topo, f, w, n) && Weight(c, w) == Cost(s.nodes[n], f))
    && (forall w :: Reaches(topo, f, w, n) && Avoids(quiet, w) ==>
          Has(s.nodes[n], f) && Cost(s.nodes[n], f) <= Weight(c, w))
  }

  lemma RestIsOptimalAround(topo: Topology, c: Costs, s: Net, f: Search, quiet: set<Addr>, n: Addr)
    requires Searching(topo, c, s, f, quiet) && Quiescent(s) && NonNegativeCosts(c)
    requires n in s.nodes && n != f.orig
    ensures OptimalAround(topo, c, s, f, quiet, n)
  {
    assert Founded(topo, c, s, f, n);
    forall w | Reaches(topo, f, w, n) && Avoids(quiet, w)
      ensures Has(s.nodes[n], f) && Cost(s.nodes[n], f) <= Weight(c, w) {
      NoWalkIsCheaper(topo, c, s, f, quiet, w);
    }
  }

  lemma {:induction false} NobodyIsAvoided(w: Walk)
    ensures Avoids({}, w)
  {
    if w.Go? {
      NobodyIsAvoided(w.prefix);
    }
  }

  lemma RestIsOptimal(topo: Topology, c: Costs, s: Net, f: Search, n: Addr)
    requires Searching(topo, c, s, f, {}) && Quiescent(s) && NonNegativeCosts(c)
    requires n in s.nodes && n != f.orig
    ensures Optimal(topo, c, s, f, n)
  {
    RestIsOptimalAround(topo, c, s, f, {}, n);
    forall w | Reaches(topo, f, w, n) ensures Has(s.nodes[n], f) && Cost(s.nodes[n], f) <= Weight(c, w) {
      NobodyIsAvoided(w);
    }
  }

  // ---------- a delivered request ----------

  /** A request of the search, taken out of the air, is heard by a node other than the originator. */
  ghost predicate Hearing(topo: Topology, c: Costs, s: Net, f: Search, p: Packet, air: seq<Packet>, r: Reaction,
                          s': Net) {
    && NonNegativeCosts(c) && |s.nodes| <= f.ttl + 1
    && p in s.air && p.msg.Rreq? && p.dst != f.orig && p.dst in s.nodes
    && (forall p' <- s.air :: p' in air || p' == p) && (forall p' <- air :: p' in s.air)
    && Heard(s.nodes[p.dst], f, p, c(p.src, p.dst, p.channel), r)
    && s' == React(topo, s, p.dst, r, air)
  }

  lemma HearingCheapens(topo: Topology, c: Costs, s: Net, f: Search, p: Packet, air: seq<Packet>, r: Reaction, s': Net)
    requires Hearing(topo, c, s, f, p, air, r, s')
    ensures Cheapened(s, f, s')
    ensures Reached(s', f, p.dst) && Dist(s', f, p.dst) <= p.msg.cost + c(p.src, p.dst, p.channel)
    ensures forall n :: n != p.dst ==>
              (Reached(s', f, n) <==> Reached(s, f, n)) && (Reached(s, f, n) ==> Dist(s', f, n) == Dist(s, f, n))
  {
  }

  /** The walk of a request, extended to the node that takes it. */
  lemma WalkGrows(topo: Topology, c: Costs, s: Net, f: Search, p: Packet, air: seq<Packet>, r: Reaction, s': Net,
                  w: Walk)
    requires Hearing(topo, c, s, f, p, air, r, s') && Carried(topo, c, s, f, p, w)
    requires Improves(s.nodes[p.dst], f, p.msg.cost + c(p.src, p.dst, p.channel))
    ensures var w' := Go(w, p.dst, p.channel);
            && Reaches(topo, f, w', p.dst) && Simple(w') && Visits(w') <= s'.nodes.Keys && Visited(c, s', f, w')
            && Weight(c, w') == Dist(s', f, p.dst)
  {
    HearingCheapens(topo, c, s, f, p, air, r, s');
    if p.dst in Visits(w) {
      VisitedReached(c, s, f, w, p.dst);
    }
    VisitedStays(c, s, f, s', w);
  }

  lemma ForwardedPacket(topo: Topology, c: Costs, s: Net, f: Search, p: Packet, air: seq<Packet>, r: Reaction, s': Net,
                        m: Message, p': Packet, send: Send)
    requires Hearing(topo, c, s, f, p, air, r, s') && PacketFits(topo, c, s, f, p)
    requires Improves(s.nodes[p.dst], f, p.msg.cost + c(p.src, p.dst, p.channel)) && p.dst != f.dest
    requires Forwarded(f, p, p.msg.cost + c(p.src, p.dst, p.channel), r.sends, m)
    requires send in r.sends && Carries(topo, p.dst, send, p')
    ensures PacketFits(topo, c, s', f, p')
  {
    var w :| Carried(topo, c, s, f, p, w);
    WalkGrows(topo, c, s, f, p, air, r, s', w);
    assert p'.msg == m && p'.ttl == p.ttl - 1 && Link(topo, p.dst, p'.dst, p'.channel);
    assert Carried(topo, c, s', f, p', Go(w, p.dst, p.channel));
  }

  lemma HearingPacket(topo: Topology, c: Costs, s: Net, f: Search, p: Packet, air: seq<Packet>, r: Reaction, s': Net,
                      p': Packet)
    requires Hearing(topo, c, s, f, p, air, r, s') && PacketFits(topo, c, s, f, p)
    requires p' in s'.air && p' !in s.air
    ensures PacketFits(topo, c, s', f, p')
  {
    hide Itself, NodeFits, Transmit;
    var cost := p.msg.cost + c(p.src, p.dst, p.channel);
    NewPackets(topo, s, p.dst, r, air, p');
    var send :| send in r.sends && Carries(topo, p.dst, send, p');
    assert Improves(s.nodes[p.dst], f, cost)
        && Answered(f, p, cost, r.sends, Itself(s.nodes[p.dst], f, p, c(p.src, p.dst, p.channel)));
    if p.dst != f.dest && p.ttl > 1 && send.msg.Rreq? {
      var m: Message :| Forwarded(f, p, cost, r.sends, m);
      ForwardedPacket(topo, c, s, f, p, air, r, s', m, p', send);
    }
  }

  lemma HearingFounded(topo: Topology, c: Costs, s: Net, f: Search, p: Packet, air: seq<Packet>, r: Reaction, s': Net,
                       n: Addr)
    requires Hearing(topo, c, s, f, p, air, r, s') && PacketFits(topo, c, s, f, p) && Founded(topo, c, s, f, n)
    ensures Founded(topo, c, s', f, n)
  {
    if n == p.dst && Improves(s.nodes[p.dst], f, p.msg.cost + c(p.src, p.dst, p.channel)) {
      var w :| Carried(topo, c, s, f, p, w);
      WalkGrows(topo, c, s, f, p, air, r, s', w);
      assert Reaches(topo, f, Go(w, p.dst, p.channel), n);
    }
  }

  /** Where the time-to-live runs out, every node lies on the walk already. */
  lemma LastHop(topo: Topology, c: Costs, s': Net, f: Search, w: Walk, v: Addr)
    requires NonNegativeCosts(c) && Visited(c, s', f, w) && Simple(w) && Visits(w) <= s'.nodes.Keys
    requires |s'.nodes| <= w.Length() + 1 && v in s'.nodes
    ensures Reached(s', f, v) && Dist(s', f, v) <= Weight(c, w)
  {
    SimpleSize(w);
    if v !in Visits(w) {
      SubsetSize(Visits(w) + {v}, s'.nodes.Keys);
    }
    VisitedReached(c, s', f, w, v);
  }

  /** The node that took the request tells all its neighbours, or they know already. */
  lemma TakerSendsOn(topo: Topology, c: Costs, s: Net, f: Search, p: Packet, air: seq<Packet>, r: Reaction, s': Net,
                     v: Addr, ch: int)
    requires Hearing(topo, c, s, f, p, air, r, s') && p.ttl > 1
    requires Improves(s.nodes[p.dst], f, p.msg.cost + c(p.src, p.dst, p.channel))
    requires p.dst != f.dest && !Itself(s.nodes[p.dst], f, p, c(p.src, p.dst, p.channel)) && Link(topo, p.dst, v, ch)
    ensures Reached(s', f, p.dst) && Served(c, s', f, p.dst, v, ch)
  {
    var cost := p.msg.cost + c(p.src, p.dst, p.channel);
    var m: Message :| Forwarded(f, p, cost, r.sends, m);
    var p' := Packet(p.dst, v, ch, p.ttl - 1, m);
    assert Carries(topo, p.dst, r.sends[ch], p');
    TransmitMembers(topo, p.dst, r.sends, p');
    assert p' in s'.air && Pending(s', f, p.dst, v, ch, p');
  }

  lemma TakerServes(topo: Topology, c: Costs, s: Net, f: Search, p: Packet, air: seq<Packet>, r: Reaction, s': Net,
                    v: Addr, ch: int)
    requires Hearing(topo, c, s, f, p, air, r, s') && PacketFits(topo, c, s, f, p)
    requires Improves(s.nodes[p.dst], f, p.msg.cost + c(p.src, p.dst, p.channel))
    requires p.dst != f.dest && !Itself(s.nodes[p.dst], f, p, c(p.src, p.dst, p.channel)) && Link(topo, p.dst, v, ch)
             && v in s.nodes
    ensures Reached(s', f, p.dst) && Served(c, s', f, p.dst, v, ch)
  {
    var w :| Carried(topo, c, s, f, p, w);
    WalkGrows(topo, c, s, f, p, air, r, s', w);
    if p.ttl > 1 {
      TakerSendsOn(topo, c, s, f, p, air, r, s', v, ch);
    } else {
      assert |s'.nodes.Keys| == |s'.nodes| && |s.nodes.Keys| == |s.nodes| && s'.nodes.Keys == s.nodes.Keys;
      LastHop(topo, c, s', f, Go(w, p.dst, p.channel), v);
    }
  }

  /** What was served before the delivery still is. */
  lemma StaysServed(topo: Topology, c: Costs, s: Net, f: Search, p: Packet, air: seq<Packet>, r: Reaction, s': Net,
                    u: Addr, v: Addr, ch: int)
    requires Hearing(topo, c, s, f, p, air, r, s')
    requires Reached(s, f, u) && Served(c, s, f, u, v, ch)
    requires u == p.dst ==> Dist(s', f, u) == Dist(s, f, u)
    ensures Reached(s', f, u) && Served(c, s', f, u, v, ch)
  {
    HearingCheapens(topo, c, s, f, p, air, r, s');
    if p' :| p' in s.air && Pending(s, f, u, v, ch, p') {
      assert p' in air ==> p' in s'.air && Pending(s', f, u, v, ch, p');
    }
  }

  /** The quiet nodes after `p` has been taken. */
  function Quieter(s: Net, f: Search, p: Packet, link: real, quiet: set<Addr>): set<Addr>
    requires p.msg.Rreq? && p.dst in s.nodes
  {
    if !Improves(s.nodes[p.dst], f, p.msg.cost + link) then quiet
    else if Itself(s.nodes[p.dst], f, p, link) then quiet + {p.dst}
    else quiet - {p.dst}
  }

  lemma HearingComplete(topo: Topology, c: Costs, s: Net, f: Search, quiet: set<Addr>, p: Packet, air: seq<Packet>,
                        r: Reaction, s': Net)
    requires Hearing(topo, c, s, f, p, air, r, s') && PacketFits(topo, c, s, f, p)
    requires Sensible(topo, s.nodes.Keys) && Complete(topo, c, s, f, quiet)
    ensures Complete(topo, c, s', f, Quieter(s, f, p, c(p.src, p.dst, p.channel), quiet))
  {
    var quiet' := Quieter(s, f, p, c(p.src, p.dst, p.channel), quiet);
    HearingCheapens(topo, c, s, f, p, air, r, s');
    forall u, v, ch | Speaking(s', f, quiet', u) && Link(topo, u, v, ch) && v != f.orig
      ensures Served(c, s', f, u, v, ch) {
      if u == p.dst && Improves(s.nodes[p.dst], f, p.msg.cost + c(p.src, p.dst, p.channel)) {
        TakerServes(topo, c, s, f, p, air, r, s', v, ch);
      } else {
        assert Speaking(s, f, quiet, u) && Served(c, s, f, u, v, ch);
        StaysServed(topo, c, s, f, p, air, r, s', u, v, ch);
      }
    }
  }

  lemma HearingSearching(topo: Topology, c: Costs, s: Net, f: Search, quiet: set<Addr>, p: Packet, air: seq<Packet>,
                         r: Reaction, s': Net)
    requires Searching(topo, c, s, f, quiet) && Hearing(topo, c, s, f, p, air, r, s')
    ensures Searching(topo, c, s', f, Quieter(s, f, p, c(p.src, p.dst, p.channel), quiet))
  {
    assert PacketFits(topo, c, s, f, p);
    HearingCheapens(topo, c, s, f, p, air, r, s');
    assert s'.nodes.Keys == s.nodes.Keys;
    forall p' | p' in s'.air ensures PacketFits(topo, c, s', f, p') {
      if p' in s.air {
        PacketStays(topo, c, s, f, s', p');
      } else {
        HearingPacket(topo, c, s, f, p, air, r, s', p');
      }
    }
    forall n | n in s'.nodes ensures Founded(topo, c, s', f, n) {
      HearingFounded(topo, c, s, f, p, air, r, s', n);
    }
    forall n | n in s'.nodes ensures NodeFits(s'.nodes[n], f) {
      assert n != p.dst ==> NodeFits(s.nodes[n], f);
    }
    HearingComplete(topo, c, s, f, quiet, p, air, r, s');
  }

  // ---------- everything else that may happen ----------

  predicate SameRoute(nd: Node, nd': Node, f: Search) {
    (Has(nd', f) <==> Has(nd, f)) && (Has(nd, f) ==> Cost(nd', f) == Cost(nd, f))
  }

  /** Routes of the search stay as they are, and no request to another node is lost. */
  ghost predicate Undisturbed(s: Net, f: Search, s': Net) {
    && s'.nodes.Keys == s.nodes.Keys
    && (forall n <- s.nodes :: NodeFits(s'.nodes[n], f) && SameRoute(s.nodes[n], s'.nodes[n], f))
    && (forall p <- s'.air :: p in s.air || (p.msg.Rrep? && p.msg.dest == f.dest))
    && (forall p <- s.air :: p in s'.air || p.msg.Rrep? || p.dst == f.orig)
  }

  lemma UndisturbedServed(c: Costs, s: Net, f: Search, s': Net, u: Addr, v: Addr, ch: int)
    requires Undisturbed(s, f, s') && Reached(s, f, u) && v != f.orig && Served(c, s, f, u, v, ch)
    ensures Reached(s', f, u) && Served(c, s', f, u, v, ch)
  {
    if p :| p in s.air && Pending(s, f, u, v, ch, p) {
      assert p in s'.air && Pending(s', f, u, v, ch, p);
    }
  }

  lemma UndisturbedSearching(topo: Topology, c: Costs, s: Net, f: Search, quiet: set<Addr>, s': Net)
    requires Searching(topo, c, s, f, quiet) && Undisturbed(s, f, s')
    ensures Searching(topo, c, s', f, quiet)
  {
    forall u, v, ch | Speaking(s', f, quiet, u) && Link(topo, u, v, ch) && v != f.orig
      ensures Served(c, s', f, u, v, ch) {
      assert Speaking(s, f, quiet, u) && Served(c, s, f, u, v, ch);
      UndisturbedServed(c, s, f, s', u, v, ch);
    }
    forall n | n in s'.nodes ensures Founded(topo, c, s', f, n) && NodeFits(s'.nodes[n], f) {
      assert Founded(topo, c, s, f, n) && SameRoute(s.nodes[n], s'.nodes[n], f);
    }
    forall p | p in s'.air ensures PacketFits(topo, c, s', f, p) {
      if p in s.air {
        PacketStays(topo, c, s, f, s', p);
      }
    }
  }

  // ---------- whole searches ----------

  /** Packets are delivered at the fixed costs or duplicated, and records may time out. */
  ghost predicate Faithful(c: Costs, s: Net, e: Event) {
    (e.Deliver? || e.Duplicate? || e.ForgetRecord?) && Static(c, s, e)
  }

  lemma QuietDelivery(topo: Topology, s: Net, f: Search, p: Packet, air: seq<Packet>, r: Reaction)
    requires p in s.air && p.dst in s.nodes && forall n <- s.nodes :: NodeFits(s.nodes[n], f)
    requires (forall p' <- s.air :: p' in air || p' == p) && (forall p' <- air :: p' in s.air)
    requires p.msg.Rrep? || p.dst == f.orig
    requires NodeFits(r.node, f) && SameRoute(s.nodes[p.dst], r.node, f)
    requires forall send <- r.sends :: send.msg.Rrep? && send.msg.dest == f.dest
    ensures Undisturbed(s, f, React(topo, s, p.dst, r, air))
  {
    var s' := React(topo, s, p.dst, r, air);
    forall p' | p' in s'.air && p' !in s.air ensures p'.msg.Rrep? && p'.msg.dest == f.dest {
      NewPackets(topo, s, p.dst, r, air, p');
    }
  }

  /** The delivery of packet `p`, which leaves `air` behind. */
  ghost predicate Delivered(topo: Topology, s: Net, p: Packet, link: real, air: seq<Packet>, s': Net) {
    && p in s.air && p.dst in s.nodes
    && (forall p' <- s.air :: p' in air || p' == p) && (forall p' <- air :: p' in s.air)
    && s' == React(topo, s, p.dst, Receive(s.nodes[p.dst], p, link), air)
  }

  lemma ReplySearching(topo: Topology, c: Costs, s: Net, f: Search, quiet: set<Addr>, p: Packet, link: real,
                       air: seq<Packet>, s': Net)
    requires Searching(topo, c, s, f, quiet) && Numbered(f) && Delivered(topo, s, p, link, air, s') && p.msg.Rrep?
    ensures Searching(topo, c, s', f, quiet)
  {
    assert PacketFits(topo, c, s, f, p) && NodeFits(s.nodes[p.dst], f);
    ReplyEffect(s.nodes[p.dst], f, p, link);
    QuietDelivery(topo, s, f, p, air, Receive(s.nodes[p.dst], p, link));
    UndisturbedSearching(topo, c, s, f, quiet, s');
  }

  lemma ReturnSearching(topo: Topology, c: Costs, s: Net, f: Search, quiet: set<Addr>, p: Packet, link: real,
                        air: seq<Packet>, s': Net)
    requires Searching(topo, c, s, f, quiet) && Delivered(topo, s, p, link, air, s') && p.msg.Rreq? && p.dst == f.orig
    ensures Searching(topo, c, s', f, quiet)
  {
    assert PacketFits(topo, c, s, f, p) && NodeFits(s.nodes[p.dst], f);
    assert Receive(s.nodes[p.dst], p, link) == Reaction(s.nodes[p.dst], []);
    QuietDelivery(topo, s, f, p, air, Receive(s.nodes[p.dst], p, link));
    UndisturbedSearching(topo, c, s, f, quiet, s');
  }

  lemma RequestSearching(topo: Topology, c: Costs, s: Net, f: Search, quiet: set<Addr>, p: Packet, air: seq<Packet>,
                         s': Net)
    requires Searching(topo, c, s, f, quiet) && NonNegativeCosts(c) && Numbered(f) && |s.nodes| <= f.ttl + 1
    requires Delivered(topo, s, p, c(p.src, p.dst, p.channel), air, s') && p.msg.Rreq? && p.dst != f.orig
    ensures Searching(topo, c, s', f, Quieter(s, f, p, c(p.src, p.dst, p.channel), quiet))
  {
    var link := c(p.src, p.dst, p.channel);
    assert PacketFits(topo, c, s, f, p) && NodeFits(s.nodes[p.dst], f);
    RequestEffect(s.nodes[p.dst], f, p, link);
    HearingSearching(topo, c, s, f, quiet, p, air, Receive(s.nodes[p.dst], p, link), s');
  }

  /** The quiet nodes after any step. */
  function StepQuiet(s: Net, f: Search, e: Event, quiet: set<Addr>): set<Addr>
    requires Enabled(s, e)
  {
    if e.Deliver? && s.air[e.i].msg.Rreq? && s.air[e.i].dst != f.orig then Quieter(s, f, s.air[e.i], e.link, quiet)
        else quiet
  }

  lemma StepSearching(topo: Topology, c: Costs, s: Net, f: Search, quiet: set<Addr>, e: Event)
    requires Searching(topo, c, s, f, quiet) && NonNegativeCosts(c) && Numbered(f) && |s.nodes| <= f.ttl + 1
    requires Enabled(s, e) && Faithful(c, s, e)
    ensures Searching(topo, c, Apply(topo, s, e), f, StepQuiet(s, f, e, quiet))
             && Apply(topo, s, e).nodes.Keys == s.nodes.Keys
  {
    var s' := Apply(topo, s, e);
    if e.Deliver? {
      var p := s.air[e.i];
      assert Delivered(topo, s, p, e.link, Without(s.air, e.i), s');
      hide Searching, Delivered, Itself, Improves;
      if p.msg.Rrep? {
        ReplySearching(topo, c, s, f, quiet, p, e.link, Without(s.air, e.i), s');
      } else if p.dst == f.orig {
        ReturnSearching(topo, c, s, f, quiet, p, e.link, Without(s.air, e.i), s');
      } else {
        RequestSearching(topo, c, s, f, quiet, p, Without(s.air, e.i), s');
      }
    } else {
      forall n | n in s.nodes ensures NodeFits(s'.nodes[n], f) && SameRoute(s.nodes[n], s'.nodes[n], f) {
        assert NodeFits(s.nodes[n], f);
      }
      UndisturbedSearching(topo, c, s, f, quiet, s');
    }
  }

  // ---------- the start ----------

  /** A first request for a destination, or a repeated one. */
  predicate Launches(e: Event) {
    e.Discovery? || e.Rediscovery?
  }

  function Radius(e: Event): u8
    requires Launches(e)
  {
    if e.Discovery? then DISCOVERY_TTL else e.ttl
  }

  /** The number that the requests ask for. */
  function Sought(nd: Node, e: Event): u32
    requires Launches(e)
  {
    if e.Rediscovery? then e.destSeqno else if e.dest in nd.table then nd.table[e.dest].seqno else 0
  }

  function Launch(nd: Node, e: Event): Reaction
    requires Launches(e)
  {
    if e.Discovery? then Discover(e.n, nd, e.dest, e.destOnly)
        else Rediscover(e.n, nd, e.dest, e.destSeqno, e.ttl, e.destOnly)
  }

  lemma LaunchFloods(nd: Node, e: Event)
    requires Launches(e)
    ensures var r := Launch(nd, e);
            && r.sends == Flood(e.n, nd, e.dest, Sought(nd, e), Radius(e), e.destOnly)
            && r.node.table == nd.table && r.node.records == nd.records && r.node.blacklist == nd.blacklist
  {
  }

  /**
   Nothing in the air, nobody holds a record of the next requests of `orig`, and the number of `orig`
   is behind what others hold of it by no more than `behind`. Its next requests carry one more.
   */
  ghost predicate Ready(s: Net, orig: Addr, behind: nat) {
    && orig in s.nodes && s.air == [] && s.nodes[orig].seqno < HALF - 1
    && forall n <- s.nodes {:trigger Unaware(s.nodes[n], orig, s.nodes[orig], behind)} ::
       Unaware(s.nodes[n], orig, s.nodes[orig], behind)
  }

  predicate Unaware(nd: Node, orig: Addr, host: Node, behind: nat) {
    && nd.blacklist == {}
    && (orig in nd.table ==> NetSeqno(nd.table[orig]) <= host.seqno + behind)
    && (forall key <- nd.records :: key.0 == orig ==>
          key.1 !in {host.rreqId, PlusOne(host.rreqId), PlusOne(PlusOne(host.rreqId))})
  }

  lemma ReadyWithin(s: Net, orig: Addr, behind: nat)
    requires Ready(s, orig, 0)
    ensures Ready(s, orig, behind)
  {
    forall n | n in s.nodes ensures Unaware(s.nodes[n], orig, s.nodes[orig], behind) {
      assert Unaware(s.nodes[n], orig, s.nodes[orig], 0);
    }
  }

  function Searched(s: Net, e: Event): Search
    requires Launches(e) && e.n in s.nodes
  {
    Search(e.n, e.dest, PlusOne(s.nodes[e.n].seqno), s.nodes[e.n].rreqId, Radius(e), e.destOnly)
  }

  lemma StartPacket(topo: Topology, c: Costs, s: Net, e: Event, p: Packet)
    requires Launches(e) && Enabled(s, e) && Ready(s, e.n, 0) && p in Apply(topo, s, e).air
    ensures PacketFits(topo, c, Apply(topo, s, e), Searched(s, e), p)
  {
    LaunchFloods(s.nodes[e.n], e);
    NewPackets(topo, s, e.n, Launch(s.nodes[e.n], e), [], p);
    assert Carried(topo, c, Apply(topo, s, e), Searched(s, e), p, At(e.n));
  }

  lemma StartServed(topo: Topology, c: Costs, s: Net, e: Event, v: Addr, ch: int)
    requires Launches(e) && Enabled(s, e) && Ready(s, e.n, 0) && Link(topo, e.n, v, ch)
    ensures Served(c, Apply(topo, s, e), Searched(s, e), e.n, v, ch)
  {
    LaunchFloods(s.nodes[e.n], e);
    var s', f, sends := Apply(topo, s, e), Searched(s, e), Launch(s.nodes[e.n], e).sends;
    var p := Packet(e.n, v, ch, Radius(e), sends[0].msg);
    assert Carries(topo, e.n, sends[0], p);
    TransmitMembers(topo, e.n, sends, p);
    assert p in s'.air && Pending(s', f, e.n, v, ch, p);
  }

  lemma StartSearching(topo: Topology, c: Costs, s: Net, e: Event)
    requires Launches(e) && Enabled(s, e) && Sensible(topo, s.nodes.Keys) && Ready(s, e.n, 0)
    ensures Searching(topo, c, Apply(topo, s, e), Searched(s, e), {})
    ensures Apply(topo, s, e).nodes.Keys == s.nodes.Keys
  {
    var s', f := Apply(topo, s, e), Searched(s, e);
    LaunchFloods(s.nodes[e.n], e);
    assert s'.nodes.Keys == s.nodes.Keys;
    forall n | n in s'.nodes ensures NodeFits(s'.nodes[n], f) && !Has(s'.nodes[n], f) && Founded(topo, c, s', f, n) {
      assert Unaware(s.nodes[n], e.n, s.nodes[e.n], 0);
    }
    forall p | p in s'.air ensures PacketFits(topo, c, s', f, p) {
      StartPacket(topo, c, s, e, p);
    }
    forall u, v, ch | Speaking(s', f, {}, u) && Link(topo, u, v, ch) && v != f.orig ensures Served(c, s', f, u, v, ch) {
      StartServed(topo, c, s, e, v, ch);
    }
  }

  // ---------- whole searches ----------

  /** One discovery or repetition from a state that is ready for it, and then nothing but deliveries. */
  ghost predicate SearchRun(topo: Topology, c: Costs, ss: seq<Net>, es: seq<Event>, behind: nat) {
    && Run(topo, ss, es) && |es| >= 1 && Launches(es[0]) && Enabled(ss[0], es[0])
    && Sensible(topo, ss[0].nodes.Keys) && Ready(ss[0], es[0].n, behind) && NonNegativeCosts(c)
    && forall i {:trigger Faithful(c, ss[i], es[i])} :: 1 <= i < |es| ==> Faithful(c, ss[i], es[i])
  }

  lemma SearchRunWithin(topo: Topology, c: Costs, ss: seq<Net>, es: seq<Event>, behind: nat)
    requires SearchRun(topo, c, ss, es, 0)
    ensures SearchRun(topo, c, ss, es, behind)
  {
    hide Apply, Enabled, Ready, Sensible, Faithful;
    ReadyWithin(ss[0], es[0].n, behind);
  }

  lemma {:induction false} RunNodes(topo: Topology, c: Costs, ss: seq<Net>, es: seq<Event>, behind: nat, k: nat)
    requires SearchRun(topo, c, ss, es, behind) && k < |ss|
    ensures ss[k].nodes.Keys == ss[0].nodes.Keys && es[0].n in ss[0].nodes
  {
    hide Ready, Sensible, NonNegativeCosts;
    if k > 0 {
      RunNodes(topo, c, ss, es, behind, k - 1);
      assert k > 1 ==> Faithful(c, ss[k - 1], es[k - 1]);
      RunStep(topo, ss, es, k - 1);
    } else {
      RunStep(topo, ss, es, 0);
    }
  }

  /** The network is small enough for the requests to cross it. */
  ghost predicate Crossable(s: Net, e: Event)
    requires Launches(e)
  {
    |s.nodes| <= Radius(e) + 1
  }

  /** The quiet nodes in state `k`. */
  ghost function RunQuiet(ss: seq<Net>, es: seq<Event>, f: Search, k: nat): set<Addr>
    requires k <= |es| && k <= |ss|
  {
    if k <= 1 then {}
    else if Enabled(ss[k - 1], es[k - 1]) then StepQuiet(ss[k - 1], f, es[k - 1], RunQuiet(ss, es, f, k - 1))
    else {}
  }

  lemma {:induction false} RunSearching(topo: Topology, c: Costs, ss: seq<Net>, es: seq<Event>, k: nat)
    requires SearchRun(topo, c, ss, es, 0) && Crossable(ss[0], es[0]) && 1 <= k < |ss|
    ensures var f := Searched(ss[0], es[0]); Searching(topo, c, ss[k], f, RunQuiet(ss, es, f, k))
    ensures ss[k].nodes.Keys == ss[0].nodes.Keys
  {
    hide Apply, Searching, Sensible, NonNegativeCosts, Unaware, StepQuiet;
    var f := Searched(ss[0], es[0]);
    RunStep(topo, ss, es, k - 1);
    if k == 1 {
      StartSearching(topo, c, ss[0], es[0]);
    } else {
      RunSearching(topo, c, ss, es, k - 1);
      assert Faithful(c, ss[k - 1], es[k - 1]);
      assert |ss[k - 1].nodes| == |ss[k - 1].nodes.Keys| == |ss[0].nodes.Keys| == |ss[0].nodes|;
      StepSearching(topo, c, ss[k - 1], f, RunQuiet(ss, es, f, k - 1), es[k - 1]);
    }
  }

  /** If the event delivers a request, only the node it seeks would answer it. */
  predicate DirectStep(s: Net, e: Event) {
    e.Deliver? && e.i < |s.air| && s.air[e.i].dst in s.nodes ==>
      var p := s.air[e.i];
      p.msg.Rreq? && p.dst != p.msg.dest ==>
        !CanAnswer(DropUnchannelled(Adopt(s.nodes[p.dst].table, p, e.link), p.msg.dest), p.msg)
  }

  /** Nobody but the destination answers. */
  ghost predicate Direct(ss: seq<Net>, es: seq<Event>)
    requires |es| <= |ss|
  {
    forall i {:trigger DirectStep(ss[i], es[i])} :: 1 <= i < |es| ==> DirectStep(ss[i], es[i])
  }

  lemma ForwardKeepsFlag(nd: Node, p: Packet, link: real, send: Send)
    requires send in Receive(nd, p, link).sends && send.msg.Rreq?
    ensures p.msg.Rreq? && send.msg.destOnly == p.msg.destOnly
  {
  }

  lemma StepKeepsFlag(topo: Topology, c: Costs, s: Net, e: Event)
    requires Enabled(s, e) && Faithful(c, s, e) && forall p <- s.air :: p.msg.Rreq? ==> p.msg.destOnly
    ensures forall p <- Apply(topo, s, e).air :: p.msg.Rreq? ==> p.msg.destOnly
  {
    hide Receive;
    forall p | p in Apply(topo, s, e).air && p.msg.Rreq? ensures p.msg.destOnly {
      if p !in s.air {
        var q := s.air[e.i];
        NewPackets(topo, s, q.dst, Receive(s.nodes[q.dst], q, e.link), Without(s.air, e.i), p);
        var send :| send in Receive(s.nodes[q.dst], q, e.link).sends && Carries(topo, q.dst, send, p);
        ForwardKeepsFlag(s.nodes[q.dst], q, e.link, send);
      }
    }
  }

  lemma {:induction false} RunKeepsFlag(topo: Topology, c: Costs, ss: seq<Net>, es: seq<Event>, behind: nat, k: nat)
    requires SearchRun(topo, c, ss, es, behind) && es[0].destOnly && 1 <= k < |ss|
    ensures forall p <- ss[k].air :: p.msg.Rreq? ==> p.msg.destOnly
  {
    RunStep(topo, ss, es, k - 1);
    if k == 1 {
      forall p | p in ss[1].air ensures p.msg.Rreq? ==> p.msg.destOnly {
        LaunchFloods(ss[0].nodes[es[0].n], es[0]);
        NewPackets(topo, ss[0], es[0].n, Launch(ss[0].nodes[es[0].n], es[0]), [], p);
      }
    } else {
      RunKeepsFlag(topo, c, ss, es, behind, k - 1);
      assert Faithful(c, ss[k - 1], es[k - 1]);
      hide Apply, Enabled, Faithful;
      StepKeepsFlag(topo, c, ss[k - 1], es[k - 1]);
    }
  }

  /** Requests with the destination-only flag are answered by the destination alone. */
  lemma DestOnlyIsDirect(topo: Topology, c: Costs, ss: seq<Net>, es: seq<Event>, behind: nat)
    requires SearchRun(topo, c, ss, es, behind) && es[0].destOnly
    ensures Direct(ss, es)
  {
    forall i | 1 <= i < |es| ensures DirectStep(ss[i], es[i]) {
      RunKeepsFlag(topo, c, ss, es, behind, i);
    }
  }

  /** Nobody holds a route to `dest`, and all that is in the air asks for it. */
  ghost predicate Unknown(s: Net, orig: Addr, dest: Addr) {
    && dest !in s.nodes && orig != dest
    && (forall n <- s.nodes :: dest !in s.nodes[n].table)
    && (forall p <- s.air :: p.msg.Rreq? && p.msg.dest == dest && p.msg.orig == orig)
  }

  lemma UnknownReception(nd: Node, p: Packet, link: real, dest: Addr)
    requires p.msg.Rreq? && p.msg.dest == dest && p.msg.orig != dest && p.dst != dest && dest !in nd.table
    ensures var r := Receive(nd, p, link);
            dest !in r.node.table && forall send <- r.sends ::
              send.msg.Rreq? && send.msg.dest == dest && send.msg.orig == p.msg.orig
  {
  }

  lemma StepUnknown(topo: Topology, c: Costs, s: Net, e: Event, orig: Addr, dest: Addr)
    requires Enabled(s, e) && Faithful(c, s, e) && Unknown(s, orig, dest)
    ensures Unknown(Apply(topo, s, e), orig, dest)
  {
    hide Receive;
    if e.Deliver? {
      var q := s.air[e.i];
      var r := Receive(s.nodes[q.dst], q, e.link);
      UnknownReception(s.nodes[q.dst], q, e.link, dest);
      forall p | p in Apply(topo, s, e).air ensures p.msg.Rreq? && p.msg.dest == dest && p.msg.orig == orig {
        if p !in s.air {
          NewPackets(topo, s, q.dst, r, Without(s.air, e.i), p);
        }
      }
    }
  }

  lemma LaunchUnknown(topo: Topology, s: Net, e: Event)
    requires Launches(e) && Enabled(s, e) && Unknown(s, e.n, e.dest)
    ensures Unknown(Apply(topo, s, e), e.n, e.dest)
  {
    LaunchFloods(s.nodes[e.n], e);
    var r := Launch(s.nodes[e.n], e);
    hide Launch, Transmit;
    forall p | p in Apply(topo, s, e).air ensures p.msg.Rreq? && p.msg.dest == e.dest && p.msg.orig == e.n {
      if p !in s.air {
        NewPackets(topo, s, e.n, r, s.air, p);
      }
    }
  }

  lemma {:induction false} RunUnknown(topo: Topology, c: Costs, ss: seq<Net>, es: seq<Event>, behind: nat, k: nat)
    requires SearchRun(topo, c, ss, es, behind) && 1 <= k < |ss|
    requires Unknown(ss[0], es[0].n, es[0].dest)
    ensures Unknown(ss[k], es[0].n, es[0].dest)
  {
    hide Apply, Unknown, Sensible, Ready, NonNegativeCosts;
    RunStep(topo, ss, es, k - 1);
    if k == 1 {
      LaunchUnknown(topo, ss[0], es[0]);
    } else {
      RunUnknown(topo, c, ss, es, behind, k - 1);
      assert Faithful(c, ss[k - 1], es[k - 1]);
      StepUnknown(topo, c, ss[k - 1], es[k - 1], es[0].n, es[0].dest);
    }
  }

  /** Requests for a node that nobody knows are answered by nobody. */
  lemma UnknownIsDirect(topo: Topology, c: Costs, ss: seq<Net>, es: seq<Event>, behind: nat)
    requires SearchRun(topo, c, ss, es, behind) && Unknown(ss[0], es[0].n, es[0].dest)
    ensures Direct(ss, es)
  {
    forall i | 1 <= i < |es| ensures DirectStep(ss[i], es[i]) {
      RunUnknown(topo, c, ss, es, behind, i);
      AdoptsNothingElse(ss[i], es[i], es[0].n, es[0].dest);
    }
  }

  lemma AdoptsNothingElse(s: Net, e: Event, orig: Addr, dest: Addr)
    requires Unknown(s, orig, dest)
    ensures DirectStep(s, e)
  {
  }

  lemma {:induction false} DirectIsNeverQuiet(topo: Topology, c: Costs, ss: seq<Net>, es: seq<Event>, k: nat)
    requires SearchRun(topo, c, ss, es, 0) && Crossable(ss[0], es[0]) && Direct(ss, es) && 1 <= k < |ss|
    ensures RunQuiet(ss, es, Searched(ss[0], es[0]), k) == {}
  {
    if k > 1 {
      DirectIsNeverQuiet(topo, c, ss, es, k - 1);
      RunSearching(topo, c, ss, es, k - 1);
      assert StepAt(topo, ss, es, k - 1) && DirectStep(ss[k - 1], es[k - 1]);
      if es[k - 1].Deliver? {
        assert PacketFits(topo, c, ss[k - 1], Searched(ss[0], es[0]), ss[k - 1].air[es[k - 1].i]);
      }
    }
  }

  /** Whoever answers: once no request is in the air, routes are optimal around those that have answered. */
  lemma SearchIsOptimalAround(topo: Topology, c: Costs, ss: seq<Net>, es: seq<Event>, k: nat, n: Addr)
    requires SearchRun(topo, c, ss, es, 0) && Crossable(ss[0], es[0])
    requires 1 <= k < |ss| && Quiescent(ss[k])
    requires n in ss[k].nodes && n != es[0].n
    ensures var f := Searched(ss[0], es[0]); OptimalAround(topo, c, ss[k], f, RunQuiet(ss, es, f, k), n)
  {
    RunSearching(topo, c, ss, es, k);
    RestIsOptimalAround(topo, c, ss[k], Searched(ss[0], es[0]), RunQuiet(ss, es, Searched(ss[0], es[0]), k), n);
  }

  /**
   Once no request is in the air, every node but the originator holds the cheapest route to it,
   provided that nobody but the destination has answered.
   */
  lemma SearchIsOptimal(topo: Topology, c: Costs, ss: seq<Net>, es: seq<Event>, k: nat, n: Addr)
    requires SearchRun(topo, c, ss, es, 0) && Crossable(ss[0], es[0]) && Direct(ss, es)
    requires 1 <= k < |ss| && Quiescent(ss[k])
    requires n in ss[k].nodes && n != es[0].n
    ensures Optimal(topo, c, ss[k], Searched(ss[0], es[0]), n)
  {
    RunSearching(topo, c, ss, es, k);
    DirectIsNeverQuiet(topo, c, ss, es, k);
    RestIsOptimal(topo, c, ss[k], Searched(ss[0], es[0]), n);
  }

  /** In a network of two nodes an answer keeps nothing from anybody. */
  lemma PairIsOptimal(topo: Topology, c: Costs, ss: seq<Net>, es: seq<Event>, k: nat, n: Addr)
    requires SearchRun(topo, c, ss, es, 0) && Crossable(ss[0], es[0]) && |ss[0].nodes| <= 2
    requires 1 <= k < |ss| && Quiescent(ss[k])
    requires n in ss[k].nodes && n != es[0].n
    ensures Optimal(topo, c, ss[k], Searched(ss[0], es[0]), n)
  {
    var s, f := ss[k], Searched(ss[0], es[0]);
    RunSearching(topo, c, ss, es, k);
    assert |s.nodes.Keys| == |ss[0].nodes.Keys| == |ss[0].nodes|;
    forall u, v, ch | Speaking(s, f, {}, u) && Link(topo, u, v, ch) && v != f.orig ensures Served(c, s, f, u, v, ch) {
      assert v in s.nodes && v != u;
      if u != f.orig {
        SubsetSize({u, v, f.orig}, s.nodes.Keys);
      }
      assert Speaking(s, f, RunQuiet(ss, es, f, k), u);
    }
    RestIsOptimal(topo, c, s, f, n);
  }
}
