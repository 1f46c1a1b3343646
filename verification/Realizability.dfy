/**
 Costs and hop counts are real: with static link costs every route, and every message in the air,
 carries the weight and the length of an actual walk along links from the node it names. Hop
 counts live in one byte, so the length is known modulo 256.
 */
module Realizability {
  import opened SequenceNumbers
  import opened Aodv
  import opened Network
  import opened LoopFreedom
  import opened Walks

  ghost predicate Witnesses(topo: Topology, c: Costs, w: Walk, d: Addr, n: Addr, cost: real, hcnt: u8) {
    w.Start() == d && w.End() == n && Within(topo, w) && Weight(c, w) == cost && w.Length() % 0x100 == hcnt
  }

  ghost predicate Realized(topo: Topology, c: Costs, d: Addr, n: Addr, cost: real, hcnt: u8) {
    exists w :: Witnesses(topo, c, w, d, n, cost, hcnt)
  }

  ghost predicate RouteRealized(topo: Topology, c: Costs, s: Net, n: Addr, d: Addr)
    requires n in s.nodes && d in s.nodes[n].table
  {
    Realized(topo, c, d, n, s.nodes[n].table[d].cost, s.nodes[n].table[d].hcnt)
  }

  ghost predicate PacketRealized(topo: Topology, c: Costs, p: Packet) {
    Realized(topo, c, p.msg.About(), p.src, p.msg.cost, p.msg.hcnt)
  }

  ghost predicate AllRealized(topo: Topology, c: Costs, s: Net) {
    && (forall n <- s.nodes, d <- s.nodes[n].table {:trigger RouteRealized(topo, c, s, n, d)} ::
       RouteRealized(topo, c, s, n, d))
    && (forall p <- s.air {:trigger PacketRealized(topo, c, p)} :: PacketRealized(topo, c, p))
  }

  /** What the induction over a run needs to know of one step. */
  ghost predicate Traced(topo: Topology, s: Net, e: Event, s': Net) {
    Shaped(s, e, s') && forall p <- s.air :: Link(topo, p.src, p.dst, p.channel)
  }

  lemma WitnessFurther(topo: Topology, c: Costs, w: Walk, d: Addr, n: Addr, cost: real, hcnt: u8, v: Addr, ch: int)
    requires Witnesses(topo, c, w, d, n, cost, hcnt) && Link(topo, n, v, ch)
    ensures Witnesses(topo, c, Go(w, v, ch), d, v, cost + c(n, v, ch), Next(hcnt))
  {
  }

  lemma OneHopFurther(topo: Topology, c: Costs, p: Packet, link: real, r: Route)
    requires PacketRealized(topo, c, p) && Link(topo, p.src, p.dst, p.channel)
    requires Taken(r, p, link) && link == c(p.src, p.dst, p.channel)
    ensures Realized(topo, c, p.msg.About(), p.dst, r.cost, r.hcnt)
  {
    hide Witnesses, Link;
    var w :| Witnesses(topo, c, w, p.msg.About(), p.src, p.msg.cost, p.msg.hcnt);
    WitnessFurther(topo, c, w, p.msg.About(), p.src, p.msg.cost, p.msg.hcnt, p.dst, p.channel);
    assert Witnesses(topo, c, Go(w, p.dst, p.channel), p.msg.About(), p.dst, r.cost, r.hcnt);
  }

  lemma StepRoute(topo: Topology, c: Costs, s: Net, e: Event, s': Net, n: Addr, d: Addr)
    requires Traced(topo, s, e, s') && Static(c, s, e) && AllRealized(topo, c, s)
    requires n in s'.nodes && d in s'.nodes[n].table
    ensures RouteRealized(topo, c, s', n, d)
  {
    assert NodeStep(s, e, s', n);
    var r' := s'.nodes[n].table[d];
    if d in s.nodes[n].table && Kept(s.nodes[n].table[d], r') {
      assert RouteRealized(topo, c, s, n, d);
    } else {
      var p := s.air[e.i];
      assert p in s.air && PacketRealized(topo, c, p);
      OneHopFurther(topo, c, p, e.link, r');
    }
  }

  lemma StepRealized(topo: Topology, c: Costs, s: Net, e: Event, s': Net)
    requires Traced(topo, s, e, s') && Static(c, s, e) && AllRealized(topo, c, s)
    ensures AllRealized(topo, c, s')
  {
    forall n, d | n in s'.nodes && d in s'.nodes[n].table ensures RouteRealized(topo, c, s', n, d) {
      StepRoute(topo, c, s, e, s', n, d);
    }
    forall p | p in s'.air ensures PacketRealized(topo, c, p) {
      if p in s.air {
        assert PacketRealized(topo, c, p);
      } else if p.src == p.msg.About() {
        assert Witnesses(topo, c, At(p.src), p.src, p.src, 0.0, 0);
      } else {
        assert RouteRealized(topo, c, s', p.src, p.msg.About());
      }
    }
  }

  ghost predicate StaticRun(c: Costs, ss: seq<Net>, es: seq<Event>)
    requires |es| <= |ss|
  {
    forall i :: 0 <= i < |es| ==> Static(c, ss[i], es[i])
  }

  lemma RunTraced(topo: Topology, ss: seq<Net>, es: seq<Event>, k: nat)
    requires Proper(topo, ss, es) && k < |es|
    ensures Traced(topo, ss[k], es[k], ss[k + 1])
  {
    RunShape(topo, ss, es, k);
    forall p | p in ss[k].air ensures Link(topo, p.src, p.dst, p.channel) {
      assert GoodPacket(topo, ss[k], p);
    }
  }

  lemma {:induction false} TraceIsRealized(topo: Topology, c: Costs, ss: seq<Net>, es: seq<Event>, k: nat)
    requires |ss| == |es| + 1 && k < |ss| && StaticRun(c, ss, es) && Initial(ss[0])
    requires forall i :: 0 <= i < |es| ==> Traced(topo, ss[i], es[i], ss[i + 1])
    ensures AllRealized(topo, c, ss[k])
  {
    if k > 0 {
      TraceIsRealized(topo, c, ss, es, k - 1);
      assert Static(c, ss[k - 1], es[k - 1]) && Traced(topo, ss[k - 1], es[k - 1], ss[k - 1 + 1]);
      StepRealized(topo, c, ss[k - 1], es[k - 1], ss[k]);
    }
  }

  /** Every route and every message of every run is backed by a walk; costs may even be negative. */
  lemma RunIsRealized(topo: Topology, c: Costs, ss: seq<Net>, es: seq<Event>, k: nat)
    requires Proper(topo, ss, es) && k < |ss| && StaticRun(c, ss, es)
    ensures AllRealized(topo, c, ss[k])
  {
    forall i | 0 <= i < |es| ensures Traced(topo, ss[i], es[i], ss[i + 1]) {
      RunTraced(topo, ss, es, i);
    }
    TraceIsRealized(topo, c, ss, es, k);
  }

  /** A bound below which no walk from `d` to `n` weighs. */
  ghost predicate Distance(topo: Topology, c: Costs, d: Addr, n: Addr, bound: real) {
    forall w: Walk :: w.Start() == d && w.End() == n && Within(topo, w) ==> bound <= Weight(c, w)
  }

  /** No route is ever cheaper than the true distance. */
  lemma NeverTooCheap(topo: Topology, c: Costs, ss: seq<Net>, es: seq<Event>, k: nat, n: Addr, d: Addr, bound: real)
    requires Proper(topo, ss, es) && k < |ss| && StaticRun(c, ss, es)
    requires n in ss[k].nodes && d in ss[k].nodes[n].table && Distance(topo, c, d, n, bound)
    ensures bound <= ss[k].nodes[n].table[d].cost
  {
    RunIsRealized(topo, c, ss, es, k);
    var r := ss[k].nodes[n].table[d];
    assert RouteRealized(topo, c, ss[k], n, d);
    var w :| Witnesses(topo, c, w, d, n, r.cost, r.hcnt);
  }
}
