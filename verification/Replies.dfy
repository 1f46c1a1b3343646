/**
 The way back. If every reply goes to a node that hears its channel, a search ends with a route to
 the destination at the originator whenever some walk leads there, and if only the destination
 answers over symmetric costs, with the cheapest one. Over two-way links every reply is heard, as
 long as it leaves on the channel the request came by or links are alike on every channel.

 A node that takes a request passes on a number at least as high as the one it stores. So among the
 nodes that have answered, the one closest to the originator has answered with a number that every
 node on its route back is sure to take. What a node needs to be told is not part of the
 protocol's state: the invariant only says that some assignment of needs to nodes fits.
 */
module Replies {
  import opened SequenceNumbers
  import opened Aodv
  import opened Network
  import opened Walks
  import opened RecordFilter
  import opened Optimality
  import opened Freshness

  // ---------- hypotheses ----------

  /** Whom a node hears on a channel hears that node too. */
  ghost predicate TwoWay(topo: Topology) {
    forall u, v, ch :: Link(topo, u, v, ch) ==> Link(topo, v, u, ch)
  }

  /** Whom a node hears on one channel it hears on every channel. */
  ghost predicate Alike(topo: Topology) {
    forall u, v, ch, ch' :: Link(topo, u, v, ch) && Channel(ch') ==> Link(topo, u, v, ch')
  }

  /** Each reply among `sends` goes to a node that hears its channel. */
  predicate Audible(topo: Topology, n: Addr, sends: seq<Send>) {
    forall send <- sends :: send.Unicast? && send.msg.Rrep? ==> send.to in Neighbours(topo, n, send.channel)
  }

  predicate AudibleStep(topo: Topology, s: Net, e: Event) {
    e.Deliver? && e.i < |s.air| && s.air[e.i].dst in s.nodes ==>
      var p := s.air[e.i];
      Audible(topo, p.dst, Receive(s.nodes[p.dst], p, e.link).sends)
  }

  /** Every reply sent before state `k` is heard. */
  ghost predicate AllHeard(topo: Topology, ss: seq<Net>, es: seq<Event>, k: nat)
    requires k <= |es| && k <= |ss|
  {
    forall i {:trigger AudibleStep(topo, ss[i], es[i])} :: 1 <= i < k ==> AudibleStep(topo, ss[i], es[i])
  }

  ghost predicate SymmetricCosts(c: Costs) {
    forall u, v, ch :: c(u, v, ch) == c(v, u, ch)
  }

  // ---------- numbers ----------

  /** Every number from here on is taken by the node at any cost. */
  function Threshold(nd: Node, f: Search): int {
    if f.dest !in nd.table then 0
    else if nd.table[f.dest].valid then nd.table[f.dest].seqno + 1
    else nd.table[f.dest].seqno
  }

  /**
   Any answer to a request for `wanted` carries `need` or more. In a strict search, where nobody
   but the destination answers and nobody is ahead of it, that may be one more than asked for.
   */
  predicate Covers(strict: bool, wanted: u32, need: int, own: u32) {
    need <= wanted || (strict && need == wanted + 1 && wanted <= own)
  }

  lemma CoveredAnswer(strict: bool, own: u32, wanted: u32, need: int)
    requires 1 <= own < HALF - 1 && wanted < HALF && Covers(strict, wanted, need, own)
    ensures need <= AnswerSeqno(own, wanted)
  {
    AnswerIsNewest(own, wanted);
  }

  /** What a node asks for when it sends on a request for `wanted`. */
  function Wanted(nd: Node, f: Search, wanted: u32): u32 {
    if f.dest in nd.table && nd.table[f.dest].seqno > wanted then nd.table[f.dest].seqno else wanted
  }

  /** Nobody has a number from the future of the destination. */
  predicate NotAhead(nd: Node, f: Search, own: int) {
    f.dest in nd.table ==> NetSeqno(nd.table[f.dest]) <= own
  }

  /** The node cannot answer, so it lacks a valid route as fresh as wanted. */
  predicate Lacks(nd: Node, f: Search, wanted: u32) {
    f.dest in nd.table && nd.table[f.dest].valid ==> nd.table[f.dest].seqno < wanted
  }

  lemma WantedCovers(strict: bool, nd: Node, f: Search, wanted: u32, need: int, own: u32)
    requires if strict then NotAhead(nd, f, own) else Lacks(nd, f, wanted)
    ensures Covers(strict, Wanted(nd, f, wanted), Threshold(nd, f), own)
    ensures Covers(strict, wanted, need, own) ==> Covers(strict, Wanted(nd, f, wanted), need, own)
  {
  }

  // ---------- walks of replies ----------

  /** The costs of the hops of a walk, walked backwards. */
  function Back(c: Costs): Costs {
    (u: Addr, v: Addr, ch: int) => c(v, u, ch)
  }

  /** From `n`, a reply has come `cost` far: every walk to `n` goes on to the destination at that cost. */
  ghost predicate LeadsOn(topo: Topology, c: Costs, f: Search, n: Addr, cost: real) {
    forall w :: Reaches(topo, f, w, n) ==> Completes(topo, c, f, w, cost)
  }

  ghost predicate Completes(topo: Topology, c: Costs, f: Search, w: Walk, cost: real) {
    exists w' :: Reaches(topo, f, w', f.dest) && Weight(Back(c), w') == Weight(Back(c), w) + cost
  }

  lemma DestinationBacked(topo: Topology, c: Costs, f: Search)
    ensures LeadsOn(topo, c, f, f.dest, 0.0)
  {
  }

  /** One hop of a reply, from `n` to `v`. */
  lemma HopBacked(topo: Topology, c: Costs, f: Search, n: Addr, v: Addr, ch: int, cost: real)
    requires LeadsOn(topo, c, f, n, cost) && Link(topo, v, n, ch) && v != f.dest
    ensures LeadsOn(topo, c, f, v, cost + c(n, v, ch))
  {
    forall w | Reaches(topo, f, w, v) ensures Completes(topo, c, f, w, cost + c(n, v, ch)) {
      assert Reaches(topo, f, Go(w, n, ch), n);
      assert Completes(topo, c, f, Go(w, n, ch), cost);
    }
  }

  // ---------- the invariant ----------

  type Needs = Addr -> int

  function Hops(s: Net, f: Search, n: Addr): int
    requires Reached(s, f, n)
  {
    if n == f.orig then 0 else s.nodes[n].table[f.orig].hcnt
  }

  function Own(s: Net, f: Search): u32
    requires f.dest in s.nodes
  {
    s.nodes[f.dest].seqno
  }

  predicate Answers(f: Search, p: Packet, n: Addr, v: Addr, ch: int, number: int, cost: real) {
    && p.msg.Rrep? && p.msg.dest == f.dest && p.msg.orig == f.orig
    && p.src == n && p.dst == v && p.channel == ch && p.msg.destSeqno == number && p.msg.cost == cost
  }

  /** `v` has no use for this answer of `n`, or the answer is under way. */
  ghost predicate Told(c: Costs, s: Net, f: Search, n: Addr, v: Addr, ch: int, number: u32, cost: real) {
    || (v in s.nodes && f.dest in s.nodes[v].table && Refuses(s.nodes[v].table[f.dest], number, cost + c(n, v, ch)))
    || exists p :: p in s.air && Answers(f, p, n, v, ch, number, cost)
  }

  /** The route of `n` to the originator was taken from its next hop, which has not got worse since. */
  ghost predicate Descends(topo: Topology, c: Costs, s: Net, f: Search, n: Addr)
    requires n in s.nodes && Has(s.nodes[n], f)
  {
    var r := s.nodes[n].table[f.orig];
    Link(topo, r.nextHop, n, r.channel) && Reached(s, f, r.nextHop)
        && r.cost >= Dist(s, f, r.nextHop) + c(r.nextHop, n, r.channel)
  }

  /** And has not got better either. */
  ghost predicate Current(topo: Topology, c: Costs, s: Net, f: Search, n: Addr)
    requires n in s.nodes && Has(s.nodes[n], f) && Descends(topo, c, s, f, n)
  {
    var r := s.nodes[n].table[f.orig];
    r.cost == Dist(s, f, r.nextHop) + c(r.nextHop, n, r.channel)
  }

  /** A node holds nothing newer than it needs, or has told its next hop of it. */
  ghost predicate PassedOn(c: Costs, s: Net, f: Search, need: Needs, n: Addr)
    requires n in s.nodes && Has(s.nodes[n], f)
  {
    var nd := s.nodes[n];
    var up := nd.table[f.orig];
    || Threshold(nd, f) <= need(n)
    || (&& f.dest in nd.table && nd.table[f.dest].valid
        && Told(c, s, f, n, up.nextHop, up.channel, nd.table[f.dest].seqno, nd.table[f.dest].cost))
  }

  /** `v` has been told of this number by `n`, on some channel and at some cost. */
  ghost predicate Informed(c: Costs, s: Net, f: Search, n: Addr, v: Addr, number: u32) {
    exists ch, cost :: Told(c, s, f, n, v, ch, number, cost)
  }

  lemma ToldIsInformed(c: Costs, s: Net, f: Search, n: Addr, v: Addr, ch: int, number: u32, cost: real)
    requires Told(c, s, f, n, v, ch, number, cost)
    ensures Informed(c, s, f, n, v, number)
  {
  }

  /** A node that answered from its table still holds a route that its next hop was told of. */
  ghost predicate HasAnswered(c: Costs, s: Net, f: Search, need: Needs, n: Addr)
    requires n in s.nodes && Has(s.nodes[n], f)
  {
    var nd := s.nodes[n];
    && f.dest in nd.table && nd.table[f.dest].valid && need(n) <= nd.table[f.dest].seqno
    && Informed(c, s, f, n, nd.table[f.orig].nextHop, nd.table[f.dest].seqno)
  }

  ghost predicate Relays(topo: Topology, c: Costs, s: Net, f: Search, quiet: set<Addr>, need: Needs, n: Addr)
    requires f.dest in s.nodes && n in s.nodes && Has(s.nodes[n], f)
  {
    var up := s.nodes[n].table[f.orig];
    && Descends(topo, c, s, f, n)
    && (n == f.dest ==> need(n) <= Own(s, f) && Told(c, s, f, n, up.nextHop, up.channel, Own(s, f), 0.0))
    && (n in quiet ==> HasAnswered(c, s, f, need, n))
    && (Current(topo, c, s, f, n) ==>
          && need(up.nextHop) <= need(n) && up.hcnt == Hops(s, f, up.nextHop) + 1 && up.nextHop !in quiet
          && (n != f.dest && n !in quiet ==> PassedOn(c, s, f, need, n)))
  }

  ghost predicate Requested(s: Net, f: Search, strict: bool, quiet: set<Addr>, need: Needs, p: Packet)
    requires f.dest in s.nodes
  {
    && Reached(s, f, p.src) && Dist(s, f, p.src) <= p.msg.cost
    && (Dist(s, f, p.src) == p.msg.cost ==>
          && Covers(strict, p.msg.destSeqno, need(p.src), Own(s, f)) && p.msg.hcnt == Hops(s, f, p.src)
             && p.src !in quiet)
  }

  ghost predicate Brought(topo: Topology, c: Costs, s: Net, f: Search, strict: bool, p: Packet)
    requires f.dest in s.nodes
  {
    && p.msg.dest == f.dest && p.msg.orig == f.orig && Reached(s, f, p.dst)
    && (strict ==>
          p.msg.destSeqno <= Own(s, f) && LeadsOn(topo, c, f, p.src, p.msg.cost) && Link(topo, p.dst, p.src, p.channel))
  }

  ghost predicate PacketSound(topo: Topology, c: Costs, s: Net, f: Search, strict: bool, quiet: set<Addr>,
                              need: Needs, p: Packet)
    requires f.dest in s.nodes
  {
    if p.msg.Rreq? then Requested(s, f, strict, quiet, need, p) else Brought(topo, c, s, f, strict, p)
  }

  /** The originator holds nothing newer than it needs, or a valid route. */
  ghost predicate OriginSound(topo: Topology, c: Costs, nd: Node, f: Search, strict: bool, need: int) {
    || Threshold(nd, f) <= need
    || (f.dest in nd.table && nd.table[f.dest].valid && (strict ==> LeadsOn(topo, c, f, f.orig, nd.table[f.dest].cost)))
  }

  ghost predicate RelaysIfReached(topo: Topology, c: Costs, s: Net, f: Search, quiet: set<Addr>, need: Needs, n: Addr)
    requires f.dest in s.nodes && n in s.nodes
  {
    n != f.orig && Has(s.nodes[n], f) ==> Relays(topo, c, s, f, quiet, need, n)
  }

  ghost predicate Returning(topo: Topology, c: Costs, s: Net, f: Search, strict: bool, quiet: set<Addr>, need: Needs) {
    && f.orig in s.nodes && f.dest in s.nodes && 1 <= Own(s, f) && (f.destOnly ==> strict)
    && (strict ==> quiet == {}) && f.orig !in quiet && f.dest !in quiet
    && (strict ==> forall n <- s.nodes {:trigger NotAhead(s.nodes[n], f, Own(s, f))} ::
       NotAhead(s.nodes[n], f, Own(s, f)))
    && (forall n <- s.nodes {:trigger RelaysIfReached(topo, c, s, f, quiet, need, n)} ::
       RelaysIfReached(topo, c, s, f, quiet, need, n))
    && (forall p <- s.air {:trigger PacketSound(topo, c, s, f, strict, quiet, need, p)} ::
       PacketSound(topo, c, s, f, strict, quiet, need, p))
    && OriginSound(topo, c, s.nodes[f.orig], f, strict, need(f.orig))
  }

  // ---------- at rest ----------

  /** A node that has answered the request behind its present route. */
  predicate Answerer(s: Net, f: Search, quiet: set<Addr>, n: Addr) {
    n in s.nodes && n != f.orig && Has(s.nodes[n], f) && (n == f.dest || n in quiet)
  }

  /** All of them are at least this far from the originator. */
  ghost predicate Beyond(s: Net, f: Search, quiet: set<Addr>, bound: real) {
    forall n :: Answerer(s, f, quiet, n) ==> bound <= Dist(s, f, n)
  }

  /** A node on the way back that holds an answer newer than it needed. */
  ghost predicate Holds(c: Costs, s: Net, f: Search, strict: bool, need: Needs, n: Addr) {
    && f.dest in s.nodes && Reached(s, f, n) && n in s.nodes
    && f.dest in s.nodes[n].table && s.nodes[n].table[f.dest].valid && s.nodes[n].table[f.dest].seqno >= need(n)
    && (strict ==>
          && need(n) <= Own(s, f) == s.nodes[n].table[f.dest].seqno && Has(s.nodes[f.dest], f)
          && (SymmetricCosts(c) ==> s.nodes[n].table[f.dest].cost + Dist(s, f, n) <= Cost(s.nodes[f.dest], f)))
  }

  lemma NextHopBeyond(s: Net, f: Search, quiet: set<Addr>, bound: real, v: Addr)
    requires Beyond(s, f, quiet, bound)
    ensures Answerer(s, f, quiet, v) ==> bound <= Dist(s, f, v)
  {
  }

  /** Behind a node that is no farther than any that answered, the next hop has told all it knows. */
  lemma CurrentAtRest(topo: Topology, c: Costs, s: Net, f: Search, quiet: set<Addr>, n: Addr)
    requires Searching(topo, c, s, f, quiet) && NonNegativeCosts(c) && s.air == []
    requires n in s.nodes && n != f.orig && Has(s.nodes[n], f)
    requires Descends(topo, c, s, f, n) && Beyond(s, f, quiet, Dist(s, f, n))
    requires Current(topo, c, s, f, n) ==> s.nodes[n].table[f.orig].nextHop !in quiet
    ensures Current(topo, c, s, f, n) && s.nodes[n].table[f.orig].nextHop != f.dest
    ensures Dist(s, f, s.nodes[n].table[f.orig].nextHop) <= Dist(s, f, n)
  {
    assert NodeFits(s.nodes[n], f);
    var r := s.nodes[n].table[f.orig];
    assert c(r.nextHop, n, r.channel) >= 0.0;
    NextHopBeyond(s, f, quiet, Dist(s, f, n), r.nextHop);
    if r.nextHop !in quiet {
      assert Speaking(s, f, quiet, r.nextHop) && Served(c, s, f, r.nextHop, n, r.channel);
    }
  }

  /** What was told at rest has arrived. */
  lemma HopHome(topo: Topology, c: Costs, s: Net, f: Search, strict: bool, quiet: set<Addr>, need: Needs, n: Addr)
    requires Searching(topo, c, s, f, quiet) && Returning(topo, c, s, f, strict, quiet, need) && NonNegativeCosts(c)
             && s.air == []
    requires n in s.nodes && n != f.orig && Has(s.nodes[n], f) && Beyond(s, f, quiet, Dist(s, f, n))
    requires Answerer(s, f, quiet, n) || (Holds(c, s, f, strict, need, n) && Threshold(s.nodes[n], f) > need(n))
    ensures var v := s.nodes[n].table[f.orig].nextHop;
            && Holds(c, s, f, strict, need, v) && Hops(s, f, v) == s.nodes[n].table[f.orig].hcnt - 1
            && v != f.dest && v !in quiet && Beyond(s, f, quiet, Dist(s, f, v))
  {
    assert RelaysIfReached(topo, c, s, f, quiet, need, n);
    CurrentAtRest(topo, c, s, f, quiet, n);
    var v := s.nodes[n].table[f.orig].nextHop;
    assert strict ==> NotAhead(s.nodes[v], f, Own(s, f)) && NotAhead(s.nodes[n], f, Own(s, f));
    if v != f.orig {
      assert RelaysIfReached(topo, c, s, f, quiet, need, v);
      CurrentAtRest(topo, c, s, f, quiet, v);
    }
  }

  lemma {:induction false} TrailHome(topo: Topology, c: Costs, s: Net, f: Search, strict: bool, quiet: set<Addr>,
                                     need: Needs, n: Addr)
    requires Searching(topo, c, s, f, quiet) && Returning(topo, c, s, f, strict, quiet, need) && NonNegativeCosts(c)
             && s.air == []
    requires n in s.nodes && n != f.orig && Has(s.nodes[n], f) && Beyond(s, f, quiet, Dist(s, f, n))
    requires Answerer(s, f, quiet, n) || (Holds(c, s, f, strict, need, n) && Threshold(s.nodes[n], f) > need(n))
    ensures Holds(c, s, f, strict, need, f.orig)
    decreases s.nodes[n].table[f.orig].hcnt
  {
    HopHome(topo, c, s, f, strict, quiet, need, n);
    var v := s.nodes[n].table[f.orig].nextHop;
    if v != f.orig {
      assert Threshold(s.nodes[v], f) > need(v);
      hide Searching, Returning, Holds, Beyond;
      TrailHome(topo, c, s, f, strict, quiet, need, v);
    }
  }

  /** Of finitely many nodes that answered, one is closest. */
  lemma {:induction false} Closest(s: Net, f: Search, quiet: set<Addr>, among: set<Addr>, n: Addr) returns (m: Addr)
    requires n in among && Answerer(s, f, quiet, n)
    ensures m in among && Answerer(s, f, quiet, m)
    ensures forall k <- among :: Answerer(s, f, quiet, k) ==> Dist(s, f, m) <= Dist(s, f, k)
    decreases among
  {
    m := n;
    if k :| k in among && Answerer(s, f, quiet, k) && Dist(s, f, k) < Dist(s, f, n) {
      m := Closest(s, f, quiet, among - {n}, k);
    }
  }

  // ---------- steps that change no table ----------

  /** Tables and numbers stay, and no answer is lost unless its addressee has no use for it. */
  ghost predicate Steady(c: Costs, s: Net, f: Search, s': Net) {
    && s'.nodes.Keys == s.nodes.Keys
    && (forall n <- s.nodes :: s'.nodes[n].table == s.nodes[n].table && s'.nodes[n].seqno == s.nodes[n].seqno)
    && (forall p <- s'.air :: p in s.air)
    && (forall p <- s.air :: p in s'.air || p.msg.Rreq? || Useless(c, s, f, p))
  }

  ghost predicate Useless(c: Costs, s: Net, f: Search, p: Packet) {
    || p.dst == f.dest
    || (&& p.dst in s.nodes && f.dest in s.nodes[p.dst].table
        && Refuses(s.nodes[p.dst].table[f.dest], p.msg.Seqno(), p.msg.cost + c(p.src, p.dst, p.channel)))
  }

  lemma SteadyTold(c: Costs, s: Net, f: Search, s': Net, n: Addr, v: Addr, ch: int, number: u32, cost: real)
    requires Steady(c, s, f, s') && Told(c, s, f, n, v, ch, number, cost) && v != f.dest
    ensures Told(c, s', f, n, v, ch, number, cost)
  {
    if p :| p in s.air && Answers(f, p, n, v, ch, number, cost) {
      assert p in s'.air || Useless(c, s, f, p);
    }
  }

  lemma SteadyInformed(c: Costs, s: Net, f: Search, s': Net, n: Addr, v: Addr, number: u32)
    requires Steady(c, s, f, s') && Informed(c, s, f, n, v, number) && v != f.dest
    ensures Informed(c, s', f, n, v, number)
  {
    var ch, cost :| Told(c, s, f, n, v, ch, number, cost);
    SteadyTold(c, s, f, s', n, v, ch, number, cost);
  }

  lemma SteadyRelays(topo: Topology, c: Costs, s: Net, f: Search, s': Net, quiet: set<Addr>, need: Needs, n: Addr)
    requires Steady(c, s, f, s') && f.dest in s.nodes && n in s.nodes && Has(s.nodes[n], f)
    requires NodeFits(s.nodes[n], f) && Relays(topo, c, s, f, quiet, need, n)
    ensures Relays(topo, c, s', f, quiet, need, n)
  {
    hide Informed;
    var nd, up := s.nodes[n], s.nodes[n].table[f.orig];
    if Told(c, s, f, n, up.nextHop, up.channel, Own(s, f), 0.0) {
      SteadyTold(c, s, f, s', n, up.nextHop, up.channel, Own(s, f), 0.0);
    }
    if f.dest in nd.table && Told(c, s, f, n, up.nextHop, up.channel, nd.table[f.dest].seqno, nd.table[f.dest].cost) {
      SteadyTold(c, s, f, s', n, up.nextHop, up.channel, nd.table[f.dest].seqno, nd.table[f.dest].cost);
    }
    if n in quiet {
      SteadyInformed(c, s, f, s', n, up.nextHop, nd.table[f.dest].seqno);
    }
  }

  lemma SteadyReturning(topo: Topology, c: Costs, s: Net, f: Search, s': Net, strict: bool, quiet: set<Addr>,
                        need: Needs)
    requires Steady(c, s, f, s') && Returning(topo, c, s, f, strict, quiet, need)
    requires forall n <- s.nodes {:trigger NodeFits(s.nodes[n], f)} :: NodeFits(s.nodes[n], f)
    ensures Returning(topo, c, s', f, strict, quiet, need)
  {
    forall n | n in s'.nodes ensures RelaysIfReached(topo, c, s', f, quiet, need, n) {
      assert RelaysIfReached(topo, c, s, f, quiet, need, n) && NodeFits(s.nodes[n], f);
      if n != f.orig && Has(s.nodes[n], f) {
        SteadyRelays(topo, c, s, f, s', quiet, need, n);
      }
    }
    forall n | n in s'.nodes ensures strict ==> NotAhead(s'.nodes[n], f, Own(s', f)) {
      assert strict ==> NotAhead(s.nodes[n], f, Own(s, f));
    }
    forall p | p in s'.air ensures PacketSound(topo, c, s', f, strict, quiet, need, p) {
      assert PacketSound(topo, c, s, f, strict, quiet, need, p);
    }
  }

  // ---------- an answer that is taken ----------

  /** The packets left after one packet `p` has been taken out. */
  ghost predicate Remaining(s: Net, p: Packet, air: seq<Packet>) {
    p in s.air && (forall p' <- s.air :: p' in air || p' == p) && (forall p' <- air :: p' in s.air)
  }

  /** A node takes the answer `p` and, if it lies on a way back, passes it on. */
  ghost predicate TakesAnswer(f: Search, nd: Node, p: Packet, link: real, r: Reaction) {
    var cost := p.msg.cost + link;
    && p.msg.Rrep? && p.msg.dest == f.dest && p.msg.orig == f.orig && p.dst != f.dest
    && (f.dest in nd.table ==> !Refuses(nd.table[f.dest], p.msg.destSeqno, cost))
    && r.node.seqno == nd.seqno && f.dest in r.node.table && Taken(r.node.table[f.dest], p, link)
    && (Has(r.node, f) <==> Has(nd, f)) && (Has(nd, f) ==> r.node.table[f.orig] == nd.table[f.orig])
    && (forall send <- r.sends ::
          && send.Unicast? && send.msg.Rrep? && send.msg.dest == f.dest && send.msg.orig == f.orig
          && send.msg.destSeqno == p.msg.destSeqno && send.msg.cost == cost)
    && (p.dst == f.orig ==> r.sends == [])
    && (p.dst != f.orig && Has(nd, f) ==>
          |r.sends| == 1 && r.sends[0].to == nd.table[f.orig].nextHop && r.sends[0].channel == nd.table[f.orig].channel)
  }

  lemma AnswerEffect(nd: Node, f: Search, p: Packet, link: real)
    requires Ordinarily(nd.table) && Numbered(f) && NodeFits(nd, f) && SmallMessage(p.msg) && 1 <= p.msg.Seqno()
    requires p.msg.Rrep? && p.msg.dest == f.dest && p.msg.orig == f.orig && p.src != p.dst
    requires p.dst != f.dest && Accepts(nd.table, p.msg, p.msg.cost + link)
    ensures TakesAnswer(f, nd, p, link, Receive(nd, p, link))
  {
    AdoptKeeps(nd.table, p, link);
    ReplyEffect(nd, f, p, link);
    GuardIsRefusal(nd.table, p.msg, p.msg.cost + link);
  }

  ghost predicate AnswerStep(topo: Topology, c: Costs, s: Net, f: Search, p: Packet, air: seq<Packet>, r: Reaction,
                             s': Net) {
    && p.dst in s.nodes && Link(topo, p.src, p.dst, p.channel) && Remaining(s, p, air)
    && TakesAnswer(f, s.nodes[p.dst], p, c(p.src, p.dst, p.channel), r)
    && s' == React(topo, s, p.dst, r, air)
  }

  lemma AnswerKeepsTold(topo: Topology, c: Costs, s: Net, f: Search, p: Packet, air: seq<Packet>, r: Reaction, s': Net,
                        n: Addr, v: Addr, ch: int, number: u32, cost: real)
    requires AnswerStep(topo, c, s, f, p, air, r, s') && Told(c, s, f, n, v, ch, number, cost)
    ensures Told(c, s', f, n, v, ch, number, cost)
  {
    if q :| q in s.air && Answers(f, q, n, v, ch, number, cost) {
      assert q in air ==> q in s'.air;
    }
  }

  lemma AnswerKeepsInformed(topo: Topology, c: Costs, s: Net, f: Search, p: Packet, air: seq<Packet>, r: Reaction,
                            s': Net,
                            n: Addr, v: Addr, number: u32)
    requires AnswerStep(topo, c, s, f, p, air, r, s') && Informed(c, s, f, n, v, number)
    ensures Informed(c, s', f, n, v, number)
  {
    var ch, cost :| Told(c, s, f, n, v, ch, number, cost);
    AnswerKeepsTold(topo, c, s, f, p, air, r, s', n, v, ch, number, cost);
  }

  /** The node that took the answer tells its next hop. */
  lemma AnswerPassedOn(topo: Topology, c: Costs, s: Net, f: Search, p: Packet, air: seq<Packet>, r: Reaction, s': Net)
    requires AnswerStep(topo, c, s, f, p, air, r, s') && Audible(topo, p.dst, r.sends)
    requires p.dst != f.orig && Has(s.nodes[p.dst], f) && Descends(topo, c, s, f, p.dst)
    ensures var up, route := s'.nodes[p.dst].table[f.orig], s'.nodes[p.dst].table[f.dest];
            Told(c, s', f, p.dst, up.nextHop, up.channel, route.seqno, route.cost)
  {
    var up, send := s.nodes[p.dst].table[f.orig], r.sends[0];
    assert send in r.sends;
    var q := Packet(p.dst, up.nextHop, up.channel, send.ttl, send.msg);
    assert Carries(topo, p.dst, send, q);
    TransmitMembers(topo, p.dst, r.sends, q);
    assert q in s'.air;
  }

  lemma AnswerRelays(topo: Topology, c: Costs, s: Net, f: Search, p: Packet, air: seq<Packet>, r: Reaction, s': Net,
                     quiet: set<Addr>, need: Needs, n: Addr)
    requires AnswerStep(topo, c, s, f, p, air, r, s') && Audible(topo, p.dst, r.sends)
    requires f.dest in s.nodes && f.dest !in quiet
    requires n in s.nodes && n != f.orig && Has(s.nodes[n], f) && Relays(topo, c, s, f, quiet, need, n)
    ensures Relays(topo, c, s', f, quiet, need, n)
  {
    hide Informed;
    var nd, up := s.nodes[n], s.nodes[n].table[f.orig];
    if n == f.dest {
      AnswerKeepsTold(topo, c, s, f, p, air, r, s', n, up.nextHop, up.channel, Own(s, f), 0.0);
    } else if n == p.dst {
      AnswerPassedOn(topo, c, s, f, p, air, r, s');
      ToldIsInformed(c, s', f, n, up.nextHop, up.channel, s'.nodes[n].table[f.dest].seqno,
          s'.nodes[n].table[f.dest].cost);
    } else {
      if f.dest in nd.table && Told(c, s, f, n, up.nextHop, up.channel, nd.table[f.dest].seqno, nd.table[f.dest].cost) {
        AnswerKeepsTold(topo, c, s, f, p, air, r, s', n, up.nextHop, up.channel, nd.table[f.dest].seqno,
            nd.table[f.dest].cost);
      }
      if n in quiet {
        AnswerKeepsInformed(topo, c, s, f, p, air, r, s', n, up.nextHop, nd.table[f.dest].seqno);
      }
    }
  }

  lemma AnswerPacket(topo: Topology, c: Costs, s: Net, f: Search, p: Packet, air: seq<Packet>, r: Reaction, s': Net,
                     strict: bool, quiet: set<Addr>, need: Needs, q: Packet)
    requires AnswerStep(topo, c, s, f, p, air, r, s') && Returning(topo, c, s, f, strict, quiet, need)
    requires q in s'.air
    ensures PacketSound(topo, c, s', f, strict, quiet, need, q)
  {
    if q in s.air {
      assert PacketSound(topo, c, s, f, strict, quiet, need, q);
    } else {
      assert PacketSound(topo, c, s, f, strict, quiet, need, p);
      assert RelaysIfReached(topo, c, s, f, quiet, need, p.dst);
      NewPackets(topo, s, p.dst, r, air, q);
      if strict {
        HopBacked(topo, c, f, p.src, p.dst, p.channel, p.msg.cost);
      }
    }
  }

  lemma AnswerReturning(topo: Topology, c: Costs, s: Net, f: Search, p: Packet, air: seq<Packet>, r: Reaction, s': Net,
                        strict: bool, quiet: set<Addr>, need: Needs)
    requires AnswerStep(topo, c, s, f, p, air, r, s') && Audible(topo, p.dst, r.sends)
    requires Returning(topo, c, s, f, strict, quiet, need)
    ensures Returning(topo, c, s', f, strict, quiet, need)
  {
    assert PacketSound(topo, c, s, f, strict, quiet, need, p);
    assert Own(s', f) == Own(s, f);
    forall n | n in s'.nodes ensures RelaysIfReached(topo, c, s', f, quiet, need, n) {
      assert RelaysIfReached(topo, c, s, f, quiet, need, n);
      if n != f.orig && Has(s.nodes[n], f) {
        AnswerRelays(topo, c, s, f, p, air, r, s', quiet, need, n);
      }
    }
    forall n | n in s'.nodes ensures strict ==> NotAhead(s'.nodes[n], f, Own(s', f)) {
      assert strict ==> NotAhead(s.nodes[n], f, Own(s, f));
    }
    forall q | q in s'.air ensures PacketSound(topo, c, s', f, strict, quiet, need, q) {
      AnswerPacket(topo, c, s, f, p, air, r, s', strict, quiet, need, q);
    }
    if p.dst == f.orig && strict {
      HopBacked(topo, c, f, p.src, p.dst, p.channel, p.msg.cost);
    }
  }

  // ---------- a request that is taken ----------

  /** A node takes the request `p` and sends it on for what it needs, or answers it. */
  ghost predicate TakesRequest(f: Search, nd: Node, p: Packet, link: real, r: Reaction) {
    var cost := p.msg.cost + link;
    && Asks(f, p.msg) && p.dst != f.orig && p.src != p.dst && Improves(nd, f, cost)
    && f.orig in r.node.table && Taken(r.node.table[f.orig], p, link)
    && (f.dest in r.node.table <==> f.dest in nd.table)
    && (f.dest in nd.table ==> Kept(nd.table[f.dest], r.node.table[f.dest]))
    && (p.dst != f.dest ==> r.node.seqno == nd.seqno)
    && (if p.dst == f.dest then TakenByDestination(f, nd, p, r)
        else if Itself(nd, f, p, link) then TakenFromTable(f, p, r)
        else TakenAndSentOn(f, p, cost, r))
  }

  predicate TakenByDestination(f: Search, nd: Node, p: Packet, r: Reaction)
    requires p.msg.Rreq?
  {
    && r.node.seqno == AnswerSeqno(nd.seqno, p.msg.destSeqno)
    && r.sends == [Unicast(p.src, p.channel, MAXTTL, Rrep(f.dest, r.node.seqno, f.orig, 0, 0.0))]
  }

  /** The answer goes out on the channel of the route it offers. */
  predicate TakenFromTable(f: Search, p: Packet, r: Reaction)
    requires p.msg.Rreq?
  {
    && !f.destOnly && f.dest in r.node.table && r.node.table[f.dest].valid && Channel(r.node.table[f.dest].channel)
    && var route := r.node.table[f.dest];
       && p.msg.destSeqno <= route.seqno
       && r.sends == [Unicast(p.src, route.channel, MAXTTL, Rrep(f.dest, route.seqno, f.orig, route.hcnt, route.cost))]
  }

  predicate TakenAndSentOn(f: Search, p: Packet, cost: real, r: Reaction)
    requires p.msg.Rreq?
  {
    && (!f.destOnly ==> Lacks(r.node, f, p.msg.destSeqno))
    && (forall send <- r.sends ::
          && send.msg.Rreq? && send.msg.destSeqno == Wanted(r.node, f, p.msg.destSeqno)
          && send.msg.cost == cost && send.msg.hcnt == Next(p.msg.hcnt))
  }

  lemma TakingEffect(nd: Node, f: Search, p: Packet, link: real)
    requires Ordinarily(nd.table) && Numbered(f) && NodeFits(nd, f) && Asks(f, p.msg) && p.msg.destSeqno < HALF
    requires p.src != p.dst && p.dst != f.orig && Channel(p.channel) && Improves(nd, f, p.msg.cost + link)
    requires forall d <- nd.table :: Channel(nd.table[d].channel)
    ensures TakesRequest(f, nd, p, link, Receive(nd, p, link))
  {
    var m, cost := p.msg, p.msg.cost + link;
    GuardIsImprovement(nd, f, m, cost);
    AdoptKeeps(nd.table, p, link);
    var nd1 := nd.(records := Remember(nd.records, (m.orig, m.id), cost), table := Adopt(nd.table, p, link));
    assert Receive(nd, p, link) == AnswerOrForward(p.dst, nd1, p, cost);
    assert DropUnchannelled(nd1.table, f.dest) == nd1.table;
    hide Receive, Adopt, Accepts;
    TakingCases(nd, nd1, f, p, link);
  }

  lemma TakingCases(nd: Node, nd1: Node, f: Search, p: Packet, link: real)
    requires Asks(f, p.msg) && p.msg.destSeqno < HALF && f.orig in nd1.table && nd1.table == Adopt(nd.table, p, link)
    requires DropUnchannelled(nd1.table, f.dest) == nd1.table && nd1.seqno == nd.seqno
    requires f.dest in nd1.table ==> 1 <= nd1.table[f.dest].seqno < HALF && Channel(nd1.table[f.dest].channel)
    ensures var r := AnswerOrForward(p.dst, nd1, p, p.msg.cost + link);
            && r.node.table == nd1.table && (p.dst != f.dest ==> r.node.seqno == nd.seqno)
            && (if p.dst == f.dest then TakenByDestination(f, nd, p, r)
                else if Itself(nd, f, p, link) then TakenFromTable(f, p, r)
                else TakenAndSentOn(f, p, p.msg.cost + link, r))
  {
    hide Adopt;
  }

  /** A request that improves nothing changes nothing. */
  lemma NoEffect(nd: Node, f: Search, p: Packet, link: real)
    requires Numbered(f) && NodeFits(nd, f) && Asks(f, p.msg)
             && (p.dst == f.orig || !Improves(nd, f, p.msg.cost + link))
    ensures var r := Receive(nd, p, link); r.node.table == nd.table && r.node.seqno == nd.seqno && r.sends == []
  {
    GuardIsImprovement(nd, f, p.msg, p.msg.cost + link);
  }

  ghost predicate RequestStep(topo: Topology, c: Costs, s: Net, f: Search, p: Packet, air: seq<Packet>, r: Reaction,
                              s': Net) {
    && p.dst in s.nodes && f.dest in s.nodes && Link(topo, p.src, p.dst, p.channel) && Remaining(s, p, air)
    && TakesRequest(f, s.nodes[p.dst], p, c(p.src, p.dst, p.channel), r)
    && 1 <= Own(s, f) < HALF - 1 && p.msg.destSeqno < HALF && p.msg.hcnt < 0xFF
    && s' == React(topo, s, p.dst, r, air)
  }

  /** The request comes from the route its sender still holds. */
  predicate UpToDate(s: Net, f: Search, p: Packet)
    requires Reached(s, f, p.src)
  {
    p.msg.cost == Dist(s, f, p.src)
  }

  predicate AnswersItself(c: Costs, s: Net, f: Search, p: Packet)
    requires p.msg.Rreq? && p.dst in s.nodes
  {
    Itself(s.nodes[p.dst], f, p, c(p.src, p.dst, p.channel))
  }

  /**
   What the taker needs from now on: as much as its new next hop, and, if it sends the request on,
   what its table demands.
   */
  ghost function NeedOf(c: Costs, s: Net, f: Search, p: Packet, r: Reaction, need: Needs): int
    requires Reached(s, f, p.src) && p.msg.Rreq? && p.dst in s.nodes
  {
    var own := if p.dst == f.dest || AnswersItself(c, s, f, p) then 0 else Threshold(r.node, f);
    if UpToDate(s, f, p) && need(p.src) > own then need(p.src) else own
  }

  ghost function Renew(c: Costs, s: Net, f: Search, p: Packet, r: Reaction, need: Needs): Needs
    requires Reached(s, f, p.src) && p.msg.Rreq? && p.dst in s.nodes
  {
    (n: Addr) => if n == p.dst then NeedOf(c, s, f, p, r, need) else need(n)
  }

  function Requiet(c: Costs, s: Net, f: Search, p: Packet, quiet: set<Addr>): set<Addr>
    requires p.msg.Rreq? && p.dst in s.nodes
  {
    Quieter(s, f, p, c(p.src, p.dst, p.channel), quiet)
  }

  lemma OwnGrows(topo: Topology, c: Costs, s: Net, f: Search, p: Packet, air: seq<Packet>, r: Reaction, s': Net)
    requires RequestStep(topo, c, s, f, p, air, r, s')
    ensures f.dest in s'.nodes && Own(s, f) <= Own(s', f)
  {
    AnswerIsNewest(Own(s, f), p.msg.destSeqno);
  }

  lemma RequestKeepsTold(topo: Topology, c: Costs, s: Net, f: Search, p: Packet, air: seq<Packet>, r: Reaction, s': Net,
                         n: Addr, v: Addr, ch: int, number: u32, cost: real)
    requires RequestStep(topo, c, s, f, p, air, r, s') && Told(c, s, f, n, v, ch, number, cost)
    ensures Told(c, s', f, n, v, ch, number, cost)
  {
    if q :| q in s.air && Answers(f, q, n, v, ch, number, cost) {
      assert q in s'.air;
    }
  }

  lemma RequestKeepsInformed(topo: Topology, c: Costs, s: Net, f: Search, p: Packet, air: seq<Packet>, r: Reaction,
                             s': Net,
                             n: Addr, v: Addr, number: u32)
    requires RequestStep(topo, c, s, f, p, air, r, s') && Informed(c, s, f, n, v, number)
    ensures Informed(c, s', f, n, v, number)
  {
    var ch, cost :| Told(c, s, f, n, v, ch, number, cost);
    RequestKeepsTold(topo, c, s, f, p, air, r, s', n, v, ch, number, cost);
  }

  lemma DestinationTells(topo: Topology, c: Costs, s: Net, f: Search, p: Packet, air: seq<Packet>, r: Reaction, s': Net)
    requires RequestStep(topo, c, s, f, p, air, r, s') && Audible(topo, p.dst, r.sends) && p.dst == f.dest
    ensures Told(c, s', f, p.dst, p.src, p.channel, Own(s', f), 0.0)
  {
    var send := r.sends[0];
    var q := Packet(p.dst, p.src, p.channel, MAXTTL, send.msg);
    assert send in r.sends && Carries(topo, p.dst, send, q);
    TransmitMembers(topo, p.dst, r.sends, q);
    assert q in s'.air && Answers(f, q, p.dst, p.src, p.channel, Own(s', f), 0.0);
  }

  /** An answer from a table may leave on another channel than the request came by. */
  lemma TakerTells(topo: Topology, c: Costs, s: Net, f: Search, p: Packet, air: seq<Packet>, r: Reaction, s': Net)
    requires RequestStep(topo, c, s, f, p, air, r, s') && Audible(topo, p.dst, r.sends)
    requires p.dst != f.dest && AnswersItself(c, s, f, p)
    ensures Informed(c, s', f, p.dst, p.src, r.node.table[f.dest].seqno)
  {
    var send, route := r.sends[0], r.node.table[f.dest];
    var q := Packet(p.dst, p.src, route.channel, MAXTTL, send.msg);
    assert send in r.sends && Carries(topo, p.dst, send, q);
    TransmitMembers(topo, p.dst, r.sends, q);
    assert q in s'.air && Answers(f, q, p.dst, p.src, route.channel, route.seqno, route.cost);
    assert Told(c, s', f, p.dst, p.src, route.channel, route.seqno, route.cost);
  }

  lemma TakerRelays(topo: Topology, c: Costs, s: Net, f: Search, p: Packet, air: seq<Packet>, r: Reaction, s': Net,
                    strict: bool, quiet: set<Addr>, need: Needs)
    requires RequestStep(topo, c, s, f, p, air, r, s') && Audible(topo, p.dst, r.sends)
    requires Requested(s, f, strict, quiet, need, p) && (AnswersItself(c, s, f, p) ==> !strict)
    ensures Relays(topo, c, s', f, Requiet(c, s, f, p, quiet), Renew(c, s, f, p, r, need), p.dst)
  {
    if p.dst == f.dest {
      DestinationTells(topo, c, s, f, p, air, r, s');
      if UpToDate(s, f, p) {
        CoveredAnswer(strict, Own(s, f), p.msg.destSeqno, need(p.src));
      }
    } else if AnswersItself(c, s, f, p) {
      TakerTells(topo, c, s, f, p, air, r, s');
    }
  }

  lemma OthersRelay(topo: Topology, c: Costs, s: Net, f: Search, p: Packet, air: seq<Packet>, r: Reaction, s': Net,
                    strict: bool, quiet: set<Addr>, need: Needs, n: Addr)
    requires RequestStep(topo, c, s, f, p, air, r, s') && Requested(s, f, strict, quiet, need, p) && f.dest !in quiet
    requires n in s.nodes && n != p.dst && n != f.orig && Has(s.nodes[n], f) && Relays(topo, c, s, f, quiet, need, n)
    ensures Relays(topo, c, s', f, Requiet(c, s, f, p, quiet), Renew(c, s, f, p, r, need), n)
  {
    hide Informed;
    var nd, up := s.nodes[n], s.nodes[n].table[f.orig];
    if n == f.dest {
      RequestKeepsTold(topo, c, s, f, p, air, r, s', n, up.nextHop, up.channel, Own(s, f), 0.0);
    } else {
      if f.dest in nd.table && Told(c, s, f, n, up.nextHop, up.channel, nd.table[f.dest].seqno, nd.table[f.dest].cost) {
        RequestKeepsTold(topo, c, s, f, p, air, r, s', n, up.nextHop, up.channel, nd.table[f.dest].seqno,
            nd.table[f.dest].cost);
      }
      if n in quiet {
        RequestKeepsInformed(topo, c, s, f, p, air, r, s', n, up.nextHop, nd.table[f.dest].seqno);
      }
    }
  }

  lemma RequestOldPacket(topo: Topology, c: Costs, s: Net, f: Search, p: Packet, air: seq<Packet>, r: Reaction, s': Net,
                         strict: bool, quiet: set<Addr>, need: Needs, q: Packet)
    requires RequestStep(topo, c, s, f, p, air, r, s') && Requested(s, f, strict, quiet, need, p)
    requires PacketSound(topo, c, s, f, strict, quiet, need, q)
    ensures PacketSound(topo, c, s', f, strict, Requiet(c, s, f, p, quiet), Renew(c, s, f, p, r, need), q)
  {
    OwnGrows(topo, c, s, f, p, air, r, s');
  }

  lemma RequestNewPacket(topo: Topology, c: Costs, s: Net, f: Search, p: Packet, air: seq<Packet>, r: Reaction, s': Net,
                         strict: bool, quiet: set<Addr>, need: Needs, q: Packet)
    requires RequestStep(topo, c, s, f, p, air, r, s') && Requested(s, f, strict, quiet, need, p)
    requires strict ==> NotAhead(r.node, f, Own(s', f)) && !AnswersItself(c, s, f, p)
    requires f.destOnly ==> strict
    requires q in s'.air && q !in s.air
    ensures PacketSound(topo, c, s', f, strict, Requiet(c, s, f, p, quiet), Renew(c, s, f, p, r, need), q)
  {
    NewPackets(topo, s, p.dst, r, air, q);
    if p.dst == f.dest {
      DestinationBacked(topo, c, f);
    } else if !AnswersItself(c, s, f, p) {
      WantedCovers(strict, r.node, f, p.msg.destSeqno, need(p.src), Own(s', f));
    }
  }

  lemma RequestReturning(topo: Topology, c: Costs, s: Net, f: Search, p: Packet, air: seq<Packet>, r: Reaction, s': Net,
                         strict: bool, quiet: set<Addr>, need: Needs)
    requires RequestStep(topo, c, s, f, p, air, r, s') && Audible(topo, p.dst, r.sends)
    requires Returning(topo, c, s, f, strict, quiet, need)
    requires Requested(s, f, strict, quiet, need, p) && (AnswersItself(c, s, f, p) ==> !strict)
    ensures Returning(topo, c, s', f, strict, Requiet(c, s, f, p, quiet), Renew(c, s, f, p, r, need))
  {
    var quiet', need' := Requiet(c, s, f, p, quiet), Renew(c, s, f, p, r, need);
    OwnGrows(topo, c, s, f, p, air, r, s');
    forall n | n in s'.nodes ensures strict ==> NotAhead(s'.nodes[n], f, Own(s', f)) {
      assert strict ==> NotAhead(s.nodes[n], f, Own(s, f));
    }
    forall n | n in s'.nodes ensures RelaysIfReached(topo, c, s', f, quiet', need', n) {
      assert RelaysIfReached(topo, c, s, f, quiet, need, n);
      if n == p.dst {
        TakerRelays(topo, c, s, f, p, air, r, s', strict, quiet, need);
      } else if n != f.orig && Has(s.nodes[n], f) {
        OthersRelay(topo, c, s, f, p, air, r, s', strict, quiet, need, n);
      }
    }
    forall q | q in s'.air ensures PacketSound(topo, c, s', f, strict, quiet', need', q) {
      if q in s.air {
        assert PacketSound(topo, c, s, f, strict, quiet, need, q);
        RequestOldPacket(topo, c, s, f, p, air, r, s', strict, quiet, need, q);
      } else {
        assert strict ==> NotAhead(s'.nodes[p.dst], f, Own(s', f));
        RequestNewPacket(topo, c, s, f, p, air, r, s', strict, quiet, need, q);
      }
    }
  }

  // ---------- every step ----------

  lemma SilentDelivery(topo: Topology, c: Costs, s: Net, f: Search, p: Packet, air: seq<Packet>, r: Reaction)
    requires p.dst in s.nodes && Remaining(s, p, air) && (p.msg.Rreq? || Useless(c, s, f, p))
    requires r.node.table == s.nodes[p.dst].table && r.node.seqno == s.nodes[p.dst].seqno && r.sends == []
    ensures Steady(c, s, f, React(topo, s, p.dst, r, air))
  {
  }

  /** What a step of the search needs beside the invariants. */
  ghost predicate Stepping(topo: Topology, c: Costs, s: Net, f: Search, strict: bool, quiet: set<Addr>, need: Needs) {
    && Searching(topo, c, s, f, quiet) && Numbered(f) && Good(topo, s) && InRange(s)
    && Returning(topo, c, s, f, strict, quiet, need)
  }

  lemma RequestIgnored(topo: Topology, c: Costs, s: Net, f: Search, p: Packet, air: seq<Packet>, s': Net,
                       strict: bool, quiet: set<Addr>, need: Needs)
    requires Stepping(topo, c, s, f, strict, quiet, need)
    requires Delivered(topo, s, p, c(p.src, p.dst, p.channel), air, s') && p.msg.Rreq?
    requires p.dst == f.orig || !Improves(s.nodes[p.dst], f, p.msg.cost + c(p.src, p.dst, p.channel))
    ensures Returning(topo, c, s', f, strict, quiet, need)
  {
    var nd, link := s.nodes[p.dst], c(p.src, p.dst, p.channel);
    assert PacketFits(topo, c, s, f, p) && NodeFits(nd, f);
    NoEffect(nd, f, p, link);
    SilentDelivery(topo, c, s, f, p, air, Receive(nd, p, link));
    hide Receive, Returning;
    SteadyReturning(topo, c, s, f, s', strict, quiet, need);
  }

  lemma RequestSound(topo: Topology, c: Costs, s: Net, f: Search, p: Packet, strict: bool, quiet: set<Addr>,
                     need: Needs)
    requires Stepping(topo, c, s, f, strict, quiet, need) && p in s.air && p.msg.Rreq? && p.dst in s.nodes
    ensures f.dest in s.nodes && Requested(s, f, strict, quiet, need, p) && Link(topo, p.src, p.dst, p.channel)
             && p.src != p.dst
    ensures 1 <= Own(s, f) < HALF - 1 && p.msg.destSeqno < HALF && p.msg.hcnt < 0xFF
    ensures Asks(f, p.msg) && NodeFits(s.nodes[p.dst], f) && Ordinarily(s.nodes[p.dst].table)
    ensures forall d <- s.nodes[p.dst].table :: Channel(s.nodes[p.dst].table[d].channel)
  {
    assert PacketFits(topo, c, s, f, p) && NodeFits(s.nodes[p.dst], f) && GoodPacket(topo, s, p);
    assert PacketSound(topo, c, s, f, strict, quiet, need, p) && SmallMessage(p.msg);
    OrdinaryTable(topo, s, p.dst);
  }

  lemma RequestReceived(topo: Topology, c: Costs, s: Net, f: Search, p: Packet, air: seq<Packet>, s': Net,
                        strict: bool, quiet: set<Addr>, need: Needs)
    requires Stepping(topo, c, s, f, strict, quiet, need)
    requires Delivered(topo, s, p, c(p.src, p.dst, p.channel), air, s') && p.msg.Rreq?
    requires p.dst != f.orig && Improves(s.nodes[p.dst], f, p.msg.cost + c(p.src, p.dst, p.channel))
    ensures f.dest in s.nodes && Requested(s, f, strict, quiet, need, p)
    ensures RequestStep(topo, c, s, f, p, air, Receive(s.nodes[p.dst], p, c(p.src, p.dst, p.channel)), s')
  {
    hide Receive, React, Searching, Returning, Good, InRange, Ordinarily, NodeFits, Requested, TakesRequest, Asks;
    RequestSound(topo, c, s, f, p, strict, quiet, need);
    TakingEffect(s.nodes[p.dst], f, p, c(p.src, p.dst, p.channel));
  }

  lemma RequestDelivered(topo: Topology, c: Costs, s: Net, f: Search, p: Packet, air: seq<Packet>, s': Net,
                         strict: bool, quiet: set<Addr>, need: Needs)
    returns (need': Needs)
    requires Stepping(topo, c, s, f, strict, quiet, need)
    requires Delivered(topo, s, p, c(p.src, p.dst, p.channel), air, s') && p.msg.Rreq?
    requires Audible(topo, p.dst, Receive(s.nodes[p.dst], p, c(p.src, p.dst, p.channel)).sends)
    requires strict ==> !AnswersItself(c, s, f, p)
    ensures Returning(topo, c, s', f, strict, if p.dst == f.orig then quiet else Requiet(c, s, f, p, quiet), need')
    ensures need'(f.orig) == need(f.orig)
  {
    if p.dst == f.orig || !Improves(s.nodes[p.dst], f, p.msg.cost + c(p.src, p.dst, p.channel)) {
      hide Stepping, Returning, Itself, Improves;
      RequestIgnored(topo, c, s, f, p, air, s', strict, quiet, need);
      need' := need;
    } else {
      var r := Receive(s.nodes[p.dst], p, c(p.src, p.dst, p.channel));
      hide Receive, Returning, Searching, Good, InRange, RequestStep;
      RequestReceived(topo, c, s, f, p, air, s', strict, quiet, need);
      RequestReturning(topo, c, s, f, p, air, r, s', strict, quiet, need);
      need' := Renew(c, s, f, p, r, need);
    }
  }

  lemma AnswerDelivered(topo: Topology, c: Costs, s: Net, f: Search, p: Packet, air: seq<Packet>, s': Net,
                        strict: bool, quiet: set<Addr>, need: Needs)
    requires Stepping(topo, c, s, f, strict, quiet, need)
    requires Delivered(topo, s, p, c(p.src, p.dst, p.channel), air, s') && p.msg.Rrep?
    requires Audible(topo, p.dst, Receive(s.nodes[p.dst], p, c(p.src, p.dst, p.channel)).sends)
    ensures Returning(topo, c, s', f, strict, quiet, need)
  {
    var nd, link := s.nodes[p.dst], c(p.src, p.dst, p.channel);
    var r := Receive(nd, p, link);
    assert NodeFits(nd, f) && GoodPacket(topo, s, p) && SmallMessage(p.msg);
    assert PacketSound(topo, c, s, f, strict, quiet, need, p);
    OrdinaryTable(topo, s, p.dst);
    if p.dst == f.dest || !Accepts(nd.table, p.msg, p.msg.cost + link) {
      assert r == Reaction(nd, []);
      GuardIsRefusal(nd.table, p.msg, p.msg.cost + link);
      SilentDelivery(topo, c, s, f, p, air, r);
      SteadyReturning(topo, c, s, f, s', strict, quiet, need);
    } else {
      AnswerEffect(nd, f, p, link);
      AnswerReturning(topo, c, s, f, p, air, r, s', strict, quiet, need);
    }
  }

  lemma QuietStep(topo: Topology, c: Costs, s: Net, f: Search, e: Event, strict: bool, quiet: set<Addr>, need: Needs)
    requires Searching(topo, c, s, f, quiet) && Returning(topo, c, s, f, strict, quiet, need)
    requires Enabled(s, e) && (e.Duplicate? || e.ForgetRecord?)
    ensures Returning(topo, c, Apply(topo, s, e), f, strict, quiet, need)
  {
    assert Steady(c, s, f, Apply(topo, s, e)) by {
      hide Returning, Searching;
    }
    hide Apply, Steady, Returning;
    SteadyReturning(topo, c, s, f, Apply(topo, s, e), strict, quiet, need);
  }

  /** A request of the search, so that the event is direct for it if it is direct at all. */
  lemma DirectForSearch(topo: Topology, c: Costs, s: Net, f: Search, quiet: set<Addr>, e: Event)
    requires Searching(topo, c, s, f, quiet) && Enabled(s, e) && Faithful(c, s, e) && DirectStep(s, e)
    requires e.Deliver? && s.air[e.i].msg.Rreq?
    ensures !AnswersItself(c, s, f, s.air[e.i])
  {
    assert PacketFits(topo, c, s, f, s.air[e.i]);
  }

  lemma DeliveryReturning(topo: Topology, c: Costs, s: Net, f: Search, e: Event, strict: bool, quiet: set<Addr>,
                          need: Needs)
    returns (need': Needs)
    requires Stepping(topo, c, s, f, strict, quiet, need) && Enabled(s, e) && Faithful(c, s, e)
             && AudibleStep(topo, s, e) && (strict ==> DirectStep(s, e))
    requires e.Deliver?
    ensures Returning(topo, c, Apply(topo, s, e), f, strict, StepQuiet(s, f, e, quiet), need')
             && need'(f.orig) == need(f.orig)
  {
    hide Returning, Searching, Good, InRange, Itself, Improves, DirectStep, Receive, Transmit;
    var p, air, s' := s.air[e.i], Without(s.air, e.i), Apply(topo, s, e);
    assert Delivered(topo, s, p, c(p.src, p.dst, p.channel), air, s');
    if p.msg.Rreq? {
      if strict {
        DirectForSearch(topo, c, s, f, quiet, e);
      }
      need' := RequestDelivered(topo, c, s, f, p, air, s', strict, quiet, need);
    } else {
      AnswerDelivered(topo, c, s, f, p, air, s', strict, quiet, need);
      need' := need;
    }
  }

  lemma StepReturning(topo: Topology, c: Costs, s: Net, f: Search, e: Event, strict: bool, quiet: set<Addr>,
                      need: Needs)
    returns (need': Needs)
    requires Stepping(topo, c, s, f, strict, quiet, need) && Enabled(s, e) && Faithful(c, s, e)
             && AudibleStep(topo, s, e) && (strict ==> DirectStep(s, e))
    ensures Returning(topo, c, Apply(topo, s, e), f, strict, StepQuiet(s, f, e, quiet), need')
             && need'(f.orig) == need(f.orig)
  {
    hide Returning, Searching, Good, InRange, Apply, DirectStep, Enabled;
    if e.Deliver? {
      need' := DeliveryReturning(topo, c, s, f, e, strict, quiet, need);
    } else {
      QuietStep(topo, c, s, f, e, strict, quiet, need);
      need' := need;
    }
  }

  // ---------- the start ----------

  /** The number the node has stored, or none. */
  function Stored(nd: Node, f: Search): u32 {
    if f.dest in nd.table then nd.table[f.dest].seqno else 0
  }

  /** What counts as finding: in a strict search a newer route, otherwise one as new as the originator had. */
  function Required(before: Node, f: Search, strict: bool): int {
    if strict then Threshold(before, f) else Stored(before, f)
  }

  lemma StartPacketSound(topo: Topology, c: Costs, s: Net, e: Event, strict: bool, need: Needs, p: Packet)
    requires Launches(e) && Enabled(s, e) && Ready(s, e.n, 0) && e.dest in s.nodes && p in Apply(topo, s, e).air
    requires Stored(s.nodes[e.n], Searched(s, e)) <= Sought(s.nodes[e.n], e)
    requires strict ==> NotAhead(s.nodes[e.n], Searched(s, e), Own(s, Searched(s, e)))
    requires need(e.n) == Required(s.nodes[e.n], Searched(s, e), strict)
    ensures PacketSound(topo, c, Apply(topo, s, e), Searched(s, e), strict, {}, need, p)
  {
    LaunchFloods(s.nodes[e.n], e);
    NewPackets(topo, s, e.n, Launch(s.nodes[e.n], e), [], p);
  }

  lemma StartReturning(topo: Topology, c: Costs, s: Net, e: Event, strict: bool, need: Needs)
    requires Launches(e) && Enabled(s, e) && Ready(s, e.n, 0) && e.dest in s.nodes && 1 <= s.nodes[e.dest].seqno
    requires Stored(s.nodes[e.n], Searched(s, e)) <= Sought(s.nodes[e.n], e)
    requires strict ==> forall n <- s.nodes {:trigger s.nodes[n]} ::
             NotAhead(s.nodes[n], Searched(s, e), s.nodes[e.dest].seqno)
    requires e.destOnly ==> strict
    requires need(e.n) == Required(s.nodes[e.n], Searched(s, e), strict)
    ensures Returning(topo, c, Apply(topo, s, e), Searched(s, e), strict, {}, need)
  {
    var s', f := Apply(topo, s, e), Searched(s, e);
    LaunchFloods(s.nodes[e.n], e);
    forall n | n in s'.nodes
      ensures RelaysIfReached(topo, c, s', f, {}, need, n) && (strict ==> NotAhead(s'.nodes[n], f, Own(s', f)))
    {
      assert Unaware(s.nodes[n], e.n, s.nodes[e.n], 0);
    }
    forall p | p in s'.air ensures PacketSound(topo, c, s', f, strict, {}, need, p) {
      StartPacketSound(topo, c, s, e, strict, need, p);
    }
  }

  // ---------- whole searches ----------

  /**
   A search in a well-formed network of a size it can cross, for a number not below the stored one,
   where no number is ahead of the destination's by more than `lead`.
   */
  ghost predicate FindingRun(topo: Topology, c: Costs, ss: seq<Net>, es: seq<Event>, lead: int, behind: nat) {
    && SearchRun(topo, c, ss, es, behind) && Crossable(ss[0], es[0]) && es[0].dest in ss[0].nodes
    && Good(topo, ss[0]) && (forall i {:trigger InRange(ss[i])} :: 0 <= i < |es| ==> InRange(ss[i]))
    && Stored(ss[0].nodes[es[0].n], Searched(ss[0], es[0])) <= Sought(ss[0].nodes[es[0].n], es[0])
    && forall n <- ss[0].nodes {:trigger ss[0].nodes[n]} ::
         NotAhead(ss[0].nodes[n], Searched(ss[0], es[0]), ss[0].nodes[es[0].dest].seqno + lead)
  }

  /** Nobody but the destination answers and nobody is ahead of it, or anybody may answer. */
  ghost predicate Mode(topo: Topology, c: Costs, ss: seq<Net>, es: seq<Event>, strict: bool, lead: int) {
    && FindingRun(topo, c, ss, es, lead, 0) && (if strict then Direct(ss, es) && lead <= 0 else !es[0].destOnly)
  }

  lemma {:induction false} FindingGood(topo: Topology, ss: seq<Net>, es: seq<Event>, k: nat)
    requires Run(topo, ss, es) && Good(topo, ss[0]) && k < |ss|
    requires forall i {:trigger InRange(ss[i])} :: 0 <= i < |es| ==> InRange(ss[i])
    ensures Good(topo, ss[k])
  {
    hide Apply, Enabled, InRange;
    if k > 0 {
      FindingGood(topo, ss, es, k - 1);
      RunStep(topo, ss, es, k - 1);
      StepGood(topo, ss[k - 1], es[k - 1]);
    }
  }

  /** The invariant, with the originator's need as before the search. */
  ghost predicate ReturningFrom(topo: Topology, c: Costs, ss: seq<Net>, es: seq<Event>, k: nat, strict: bool,
                                need: Needs)
    requires k < |ss| && k <= |es| && |es| >= 1 && Launches(es[0]) && es[0].n in ss[0].nodes
  {
    var f := Searched(ss[0], es[0]);
    Returning(topo, c, ss[k], f, strict, RunQuiet(ss, es, f, k), need)
        && need(f.orig) == Required(ss[0].nodes[f.orig], f, strict)
  }

  lemma FirstReturning(topo: Topology, c: Costs, ss: seq<Net>, es: seq<Event>, strict: bool, lead: int)
    returns (need: Needs)
    requires Mode(topo, c, ss, es, strict, lead)
    ensures ReturningFrom(topo, c, ss, es, 1, strict, need)
  {
    assert StepAt(topo, ss, es, 0) && 1 <= ss[0].nodes[es[0].dest].seqno;
    need := n => Required(ss[0].nodes[es[0].n], Searched(ss[0], es[0]), strict);
    if es[0].destOnly {
      assert strict;
    }
    StartReturning(topo, c, ss[0], es[0], strict, need);
  }

  lemma NextReturning(topo: Topology, c: Costs, ss: seq<Net>, es: seq<Event>, k: nat, strict: bool, lead: int,
                      need: Needs)
    returns (need': Needs)
    requires Mode(topo, c, ss, es, strict, lead) && 1 <= k < |es| && ReturningFrom(topo, c, ss, es, k, strict, need)
    requires AudibleStep(topo, ss[k], es[k])
    ensures ReturningFrom(topo, c, ss, es, k + 1, strict, need')
  {
    var f := Searched(ss[0], es[0]);
    assert StepAt(topo, ss, es, k);
    assert Faithful(c, ss[k], es[k]) && InRange(ss[k]) && Numbered(f) && (strict ==> DirectStep(ss[k], es[k]));
    hide Returning, Searching, Good, InRange, Apply, Ready, StepQuiet, DirectStep, AudibleStep;
    RunSearching(topo, c, ss, es, k);
    FindingGood(topo, ss, es, k);
    need' := StepReturning(topo, c, ss[k], f, es[k], strict, RunQuiet(ss, es, f, k), need);
  }

  lemma ModeStarts(topo: Topology, c: Costs, ss: seq<Net>, es: seq<Event>, strict: bool, lead: int)
    requires Mode(topo, c, ss, es, strict, lead)
    ensures |ss| == |es| + 1 && |es| >= 1 && Launches(es[0]) && es[0].n in ss[0].nodes
  {
  }

  lemma {:induction false} RunReturning(topo: Topology, c: Costs, ss: seq<Net>, es: seq<Event>, k: nat, strict: bool,
                                        lead: int)
    returns (need: Needs)
    requires Mode(topo, c, ss, es, strict, lead) && 1 <= k < |ss| && AllHeard(topo, ss, es, k)
    ensures ReturningFrom(topo, c, ss, es, k, strict, need)
  {
    hide Mode, ReturningFrom, AudibleStep;
    ModeStarts(topo, c, ss, es, strict, lead);
    if k == 1 {
      need := FirstReturning(topo, c, ss, es, strict, lead);
    } else {
      need := RunReturning(topo, c, ss, es, k - 1, strict, lead);
      assert AudibleStep(topo, ss[k - 1], es[k - 1]);
      need := NextReturning(topo, c, ss, es, k - 1, strict, lead, need);
    }
  }

  /** The node holds a valid route to the destination with at least this number. */
  predicate Routed(nd: Node, f: Search, number: int) {
    f.dest in nd.table && nd.table[f.dest].valid && nd.table[f.dest].seqno >= number
  }

  /** If a walk leads to the destination, somebody has answered. */
  lemma SomebodyAnswers(topo: Topology, c: Costs, s: Net, f: Search, quiet: set<Addr>, w: Walk) returns (n: Addr)
    requires Searching(topo, c, s, f, quiet) && NonNegativeCosts(c) && s.air == [] && f.orig != f.dest
             && f.dest in s.nodes
    requires Reaches(topo, f, w, f.dest)
    ensures Answerer(s, f, quiet, n)
  {
    if quiet == {} {
      RestIsOptimal(topo, c, s, f, f.dest);
      n := f.dest;
    } else {
      n :| n in quiet;
    }
  }

  lemma RestIsRouted(topo: Topology, c: Costs, s: Net, f: Search, strict: bool, quiet: set<Addr>, need: Needs, w: Walk)
    requires Searching(topo, c, s, f, quiet) && Returning(topo, c, s, f, strict, quiet, need) && NonNegativeCosts(c)
             && s.air == []
    requires f.orig != f.dest && Reaches(topo, f, w, f.dest)
    ensures Holds(c, s, f, strict, need, f.orig)
  {
    var n := SomebodyAnswers(topo, c, s, f, quiet, w);
    var m := Closest(s, f, quiet, s.nodes.Keys, n);
    TrailHome(topo, c, s, f, strict, quiet, need, m);
  }

  /** With nothing left in the air, the originator has a valid route if a walk leads to the destination. */
  lemma SearchSucceeds(topo: Topology, c: Costs, ss: seq<Net>, es: seq<Event>, k: nat, strict: bool, lead: int, w: Walk)
    requires Mode(topo, c, ss, es, strict, lead) && 1 <= k < |ss| && ss[k].air == [] && AllHeard(topo, ss, es, k)
    requires Reaches(topo, Searched(ss[0], es[0]), w, es[0].dest)
    ensures var f := Searched(ss[0], es[0]);
            f.orig in ss[k].nodes && Routed(ss[k].nodes[f.orig], f, Required(ss[0].nodes[f.orig], f, strict))
  {
    var f := Searched(ss[0], es[0]);
    assert Enabled(ss[0], es[0]);
    hide Apply, Good, InRange, Ready;
    RunSearching(topo, c, ss, es, k);
    var need := RunReturning(topo, c, ss, es, k, strict, lead);
    RestIsRouted(topo, c, ss[k], f, strict, RunQuiet(ss, es, f, k), need, w);
  }

  // ---------- when every answer is heard ----------

  lemma TakenAudible(topo: Topology, c: Costs, s: Net, f: Search, p: Packet, air: seq<Packet>, r: Reaction, s': Net)
    requires RequestStep(topo, c, s, f, p, air, r, s')
    requires TwoWay(topo) && (AnswersItself(c, s, f, p) ==> Alike(topo))
    ensures Audible(topo, p.dst, r.sends)
  {
    hide Improves, Taken, Kept, React;
    assert Link(topo, p.dst, p.src, p.channel);
    if AnswersItself(c, s, f, p) && p.dst != f.dest {
      assert Link(topo, p.dst, p.src, r.node.table[f.dest].channel);
    }
  }

  lemma RequestAudible(topo: Topology, c: Costs, s: Net, f: Search, p: Packet, air: seq<Packet>, s': Net,
                       strict: bool, quiet: set<Addr>, need: Needs)
    requires Stepping(topo, c, s, f, strict, quiet, need)
    requires Delivered(topo, s, p, c(p.src, p.dst, p.channel), air, s') && p.msg.Rreq?
    requires TwoWay(topo) && (AnswersItself(c, s, f, p) ==> Alike(topo))
    ensures Audible(topo, p.dst, Receive(s.nodes[p.dst], p, c(p.src, p.dst, p.channel)).sends)
  {
    var nd, link := s.nodes[p.dst], c(p.src, p.dst, p.channel);
    assert PacketFits(topo, c, s, f, p) && NodeFits(nd, f);
    if p.dst == f.orig || !Improves(nd, f, p.msg.cost + link) {
      NoEffect(nd, f, p, link);
    } else {
      hide Stepping, Receive, Itself, NodeFits, PacketFits, RequestStep, TwoWay, Alike, Audible;
      RequestReceived(topo, c, s, f, p, air, s', strict, quiet, need);
      TakenAudible(topo, c, s, f, p, air, Receive(nd, p, link), s');
    }
  }

  lemma AnswerAudible(topo: Topology, c: Costs, s: Net, f: Search, p: Packet, strict: bool, quiet: set<Addr>,
                      need: Needs)
    requires Stepping(topo, c, s, f, strict, quiet, need) && TwoWay(topo)
    requires p in s.air && p.dst in s.nodes && p.msg.Rrep?
    ensures Audible(topo, p.dst, Receive(s.nodes[p.dst], p, c(p.src, p.dst, p.channel)).sends)
  {
    var nd, link := s.nodes[p.dst], c(p.src, p.dst, p.channel);
    assert NodeFits(nd, f) && GoodPacket(topo, s, p) && SmallMessage(p.msg);
    assert PacketSound(topo, c, s, f, strict, quiet, need, p);
    OrdinaryTable(topo, s, p.dst);
    if p.dst != f.dest && Accepts(nd.table, p.msg, p.msg.cost + link) {
      AnswerEffect(nd, f, p, link);
      hide Stepping, Receive, Accepts, NodeFits, PacketSound, TwoWay, Audible, TakesAnswer;
      AnswerSound(topo, c, s, f, p, strict, quiet, need);
      TakenAnswerAudible(topo, c, s, f, p, Receive(nd, p, link));
    }
  }

  /** The reply is for the originator, or for a node whose route to it came over a link. */
  lemma AnswerSound(topo: Topology, c: Costs, s: Net, f: Search, p: Packet, strict: bool, quiet: set<Addr>,
                    need: Needs)
    requires Stepping(topo, c, s, f, strict, quiet, need) && p in s.air && p.dst in s.nodes && p.msg.Rrep?
    ensures p.dst == f.orig || (Has(s.nodes[p.dst], f) && Descends(topo, c, s, f, p.dst))
  {
    hide Searching, Good, InRange;
    assert PacketSound(topo, c, s, f, strict, quiet, need, p) && RelaysIfReached(topo, c, s, f, quiet, need, p.dst);
  }

  lemma TakenAnswerAudible(topo: Topology, c: Costs, s: Net, f: Search, p: Packet, r: Reaction)
    requires p.dst in s.nodes && TakesAnswer(f, s.nodes[p.dst], p, c(p.src, p.dst, p.channel), r) && TwoWay(topo)
    requires p.dst == f.orig || (Has(s.nodes[p.dst], f) && Descends(topo, c, s, f, p.dst))
    ensures Audible(topo, p.dst, r.sends)
  {
    if p.dst != f.orig {
      var up := s.nodes[p.dst].table[f.orig];
      assert Link(topo, p.dst, up.nextHop, up.channel);
    }
  }

  lemma StepAudible(topo: Topology, c: Costs, s: Net, f: Search, e: Event, strict: bool, quiet: set<Addr>,
                    need: Needs)
    requires Stepping(topo, c, s, f, strict, quiet, need) && Enabled(s, e) && Faithful(c, s, e)
    requires TwoWay(topo) && (Alike(topo) || DirectStep(s, e))
    ensures AudibleStep(topo, s, e)
  {
    hide Stepping, Receive, Itself, TwoWay, Alike;
    if e.Deliver? {
      var p, air := s.air[e.i], Without(s.air, e.i);
      if p.msg.Rrep? {
        AnswerAudible(topo, c, s, f, p, strict, quiet, need);
      } else {
        if !Alike(topo) {
          SteppingSearches(topo, c, s, f, strict, quiet, need);
          DirectForSearch(topo, c, s, f, quiet, e);
        }
        RequestAudible(topo, c, s, f, p, air, Apply(topo, s, e), strict, quiet, need);
      }
    }
  }

  lemma SteppingSearches(topo: Topology, c: Costs, s: Net, f: Search, strict: bool, quiet: set<Addr>, need: Needs)
    requires Stepping(topo, c, s, f, strict, quiet, need)
    ensures Searching(topo, c, s, f, quiet)
  {
  }

  /** Over two-way links every answer is heard, if links are alike on every channel or the search is direct. */
  lemma {:induction false} TwoWayIsHeard(topo: Topology, c: Costs, ss: seq<Net>, es: seq<Event>, k: nat, strict: bool,
                                         lead: int)
    requires Mode(topo, c, ss, es, strict, lead) && 1 <= k <= |es|
    requires TwoWay(topo) && (Alike(topo) || Direct(ss, es))
    ensures AllHeard(topo, ss, es, k)
  {
    hide Mode, TwoWay, Alike, Direct, AudibleStep, ReturningFrom;
    ModeStarts(topo, c, ss, es, strict, lead);
    if k > 1 {
      TwoWayIsHeard(topo, c, ss, es, k - 1, strict, lead);
      var need := RunReturning(topo, c, ss, es, k - 1, strict, lead);
      NextAudible(topo, c, ss, es, k - 1, strict, lead, need);
    }
  }

  lemma NextAudible(topo: Topology, c: Costs, ss: seq<Net>, es: seq<Event>, k: nat, strict: bool, lead: int,
                    need: Needs)
    requires Mode(topo, c, ss, es, strict, lead) && 1 <= k < |es| && ReturningFrom(topo, c, ss, es, k, strict, need)
    requires TwoWay(topo) && (Alike(topo) || Direct(ss, es))
    ensures AudibleStep(topo, ss[k], es[k])
  {
    var f := Searched(ss[0], es[0]);
    RunStep(topo, ss, es, k);
    assert Faithful(c, ss[k], es[k]) && InRange(ss[k]) && Numbered(f) && (Direct(ss, es) ==> DirectStep(ss[k], es[k]));
    hide Returning, Searching, Good, InRange, Apply, Ready, StepQuiet, DirectStep, AudibleStep, TwoWay, Alike;
    RunSearching(topo, c, ss, es, k);
    FindingGood(topo, ss, es, k);
    StepAudible(topo, c, ss[k], f, es[k], strict, RunQuiet(ss, es, f, k), need);
  }

  // ---------- searches that only the destination answers ----------

  /** `cost` is the least weight of a walk from the originator to the destination. */
  ghost predicate Cheapest(topo: Topology, c: Costs, f: Search, cost: real) {
    && (exists w :: Reaches(topo, f, w, f.dest) && Weight(c, w) == cost)
    && (forall w :: Reaches(topo, f, w, f.dest) ==> cost <= Weight(c, w))
  }

  lemma {:induction false} SameBackwards(c: Costs, w: Walk)
    requires SymmetricCosts(c)
    ensures Weight(Back(c), w) == Weight(c, w)
  {
    if w.Go? {
      SameBackwards(c, w.prefix);
    }
  }

  lemma FoundIsReached(topo: Topology, c: Costs, s: Net, f: Search, need: Needs) returns (w: Walk)
    requires Returning(topo, c, s, f, true, {}, need) && Routed(s.nodes[f.orig], f, need(f.orig))
    ensures Reaches(topo, f, w, f.dest) && Weight(Back(c), w) == s.nodes[f.orig].table[f.dest].cost
  {
    var cost := s.nodes[f.orig].table[f.dest].cost;
    assert Reaches(topo, f, At(f.orig), f.orig);
    assert Completes(topo, c, f, At(f.orig), cost);
    w :| Reaches(topo, f, w, f.dest) && Weight(Back(c), w) == Weight(Back(c), At(f.orig)) + cost;
  }

  lemma FoundIsCheapest(topo: Topology, c: Costs, s: Net, f: Search, need: Needs)
    requires Searching(topo, c, s, f, {}) && Returning(topo, c, s, f, true, {}, need) && NonNegativeCosts(c)
             && s.air == []
    requires f.orig != f.dest && SymmetricCosts(c) && Routed(s.nodes[f.orig], f, need(f.orig))
    ensures Cheapest(topo, c, f, s.nodes[f.orig].table[f.dest].cost)
  {
    var w := FoundIsReached(topo, c, s, f, need);
    RestIsOptimal(topo, c, s, f, f.dest);
    RestIsRouted(topo, c, s, f, true, {}, need, w);
    SameBackwards(c, w);
  }

  /**
   Where only the destination answers, the originator finds it exactly if a walk leads there, and
   then the cheapest one.
   */
  lemma SearchFindsDestination(topo: Topology, c: Costs, ss: seq<Net>, es: seq<Event>, k: nat)
    requires FindingRun(topo, c, ss, es, 0, 0) && Direct(ss, es) && 1 <= k < |ss| && ss[k].air == []
    requires AllHeard(topo, ss, es, k)
    ensures es[0].n in ss[k].nodes
    ensures var f, nd := Searched(ss[0], es[0]), ss[k].nodes[es[0].n];
            var found := Routed(nd, f, Threshold(ss[0].nodes[es[0].n], f));
            && (found <==> exists w :: Reaches(topo, f, w, f.dest))
            && (found && SymmetricCosts(c) ==> Cheapest(topo, c, f, nd.table[f.dest].cost))
  {
    var f := Searched(ss[0], es[0]);
    assert Enabled(ss[0], es[0]) && Mode(topo, c, ss, es, true, 0);
    hide Apply, Good, InRange, Ready, Cheapest, Returning, Searching, Mode;
    RunSearching(topo, c, ss, es, k);
    DirectIsNeverQuiet(topo, c, ss, es, k);
    var need := RunReturning(topo, c, ss, es, k, true, 0);
    assert Returning(topo, c, ss[k], f, true, {}, need);
    if w :| Reaches(topo, f, w, f.dest) {
      SearchSucceeds(topo, c, ss, es, k, true, 0, w);
    }
    OriginStays(topo, c, ss[k], f, need);
    if Routed(ss[k].nodes[f.orig], f, Threshold(ss[0].nodes[f.orig], f)) {
      var w := FoundIsReached(topo, c, ss[k], f, need);
      if SymmetricCosts(c) {
        FoundIsCheapest(topo, c, ss[k], f, need);
      }
    }
  }

  lemma OriginStays(topo: Topology, c: Costs, s: Net, f: Search, need: Needs)
    requires Returning(topo, c, s, f, true, {}, need)
    ensures f.orig in s.nodes
  {
  }
}
