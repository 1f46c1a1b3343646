/**
 No forwarding loops. Along next hops towards a destination the pair (net sequence number, cost)
 never gets worse, and where it stays equal, as over links of cost zero, the route of the next
 hop is the older one. The age of a route is not part of the protocol's state: the invariant
 only says that some assignment of adoption times fits.
 */
module LoopFreedom {
  import opened Aodv
  import opened Network

  // ---------- the property ----------

  /** `u` holds a route towards `d`, valid or not, whose next hop is `v`. */
  ghost predicate Edge(s: Net, d: Addr, u: Addr, v: Addr) {
    u in s.nodes && d in s.nodes[u].table && s.nodes[u].table[d].nextHop == v
  }

  ghost predicate ForwardingPath(s: Net, d: Addr, path: seq<Addr>) {
    forall i :: 0 <= i < |path| - 1 ==> Edge(s, d, path[i], path[i + 1])
  }

  ghost predicate LoopFree(s: Net) {
    forall d, path :: |path| >= 2 && ForwardingPath(s, d, path) ==> path[0] != path[|path| - 1]
  }

  // ---------- the invariant ----------

  type Stamps = map<(Addr, Addr), nat>

  /** `r` is at least as good as an offer of number `seqno` at cost `cost`. */
  predicate AtLeast(r: Route, seqno: int, cost: real) {
    NetSeqno(r) > seqno || (NetSeqno(r) == seqno && r.cost <= cost)
  }

  /** Strictly better, the earlier adoption deciding between equal pairs. */
  predicate Better(r1: Route, t1: nat, r2: Route, t2: nat) {
    || NetSeqno(r1) > NetSeqno(r2)
    || (NetSeqno(r1) == NetSeqno(r2) && r1.cost < r2.cost)
    || (NetSeqno(r1) == NetSeqno(r2) && r1.cost == r2.cost && t1 < t2)
  }

  ghost predicate Downhill(s: Net, stamp: Stamps, now: nat, n: Addr, d: Addr)
    requires n in s.nodes && d in s.nodes[n].table
  {
    var r := s.nodes[n].table[d];
    && (n, d) in stamp && stamp[(n, d)] < now
    && (r.nextHop != d ==>
          && r.nextHop in s.nodes && d in s.nodes[r.nextHop].table && (r.nextHop, d) in stamp
          && Better(s.nodes[r.nextHop].table[d], stamp[(r.nextHop, d)], r, stamp[(n, d)]))
  }

  /** The sender of a packet holds a route at least as good as the one it offers. */
  ghost predicate Backed(s: Net, p: Packet) {
    var d := p.msg.About();
    p.src != d ==>
      p.src in s.nodes && d in s.nodes[p.src].table
      && AtLeast(s.nodes[p.src].table[d], p.msg.Seqno(), p.msg.cost)
  }

  ghost predicate Ordered(s: Net, stamp: Stamps, now: nat) {
    && (forall n <- s.nodes, d <- s.nodes[n].table :: Downhill(s, stamp, now, n, d))
    && (forall p <- s.air :: Backed(s, p))
  }

  // ---------- the invariant excludes loops ----------

  lemma {:induction false} Descent(s: Net, stamp: Stamps, now: nat, d: Addr, path: seq<Addr>)
    requires Ordered(s, stamp, now) && |path| >= 2 && ForwardingPath(s, d, path)
    requires path[|path| - 1] in s.nodes && d in s.nodes[path[|path| - 1]].table
    requires d !in path
    ensures path[0] in s.nodes && d in s.nodes[path[0]].table
    ensures (path[0], d) in stamp && (path[|path| - 1], d) in stamp
    ensures Better(s.nodes[path[|path| - 1]].table[d], stamp[(path[|path| - 1], d)],
                   s.nodes[path[0]].table[d], stamp[(path[0], d)])
  {
    assert Edge(s, d, path[0], path[1]);
    assert Downhill(s, stamp, now, path[0], d);
    if |path| > 2 {
      forall i | 0 <= i < |path[1..]| - 1 ensures Edge(s, d, path[1..][i], path[1..][i + 1]) {
        assert Edge(s, d, path[i + 1], path[i + 2]);
      }
      Descent(s, stamp, now, d, path[1..]);
    }
  }

  lemma OrderedIsLoopFree(topo: Topology, s: Net, stamp: Stamps, now: nat)
    requires Good(topo, s) && Ordered(s, stamp, now)
    ensures LoopFree(s)
  {
    forall d, path | |path| >= 2 && ForwardingPath(s, d, path) ensures path[0] != path[|path| - 1] {
      assert Edge(s, d, path[0], path[1]);
      if path[0] == path[|path| - 1] {
        forall i | 0 <= i < |path| ensures path[i] != d {
          var j := if i == |path| - 1 then 0 else i;
          assert Edge(s, d, path[j], path[j + 1]);
          assert GoodRoute(s, path[j], d, s.nodes[path[j]].table[d]);
        }
        Descent(s, stamp, now, d, path);
      }
    }
  }

  // ---------- every step keeps the invariant ----------

  /** Taking a route strictly improves the pair (net sequence number, cost). */
  lemma AdoptionImproves(t: Table, m: Message, cost: real)
    requires Ordinarily(t) && m.About() in t && SmallMessage(m) && Accepts(t, m, cost)
    ensures !AtLeast(t[m.About()], m.Seqno(), cost)
  {
  }

  /** No step makes a pair worse, and a changed pair is strictly better. */
  lemma PairNeverWorse(topo: Topology, s: Net, e: Event, s': Net, n: Addr, d: Addr)
    requires Good(topo, s) && InRange(s) && Shaped(s, e, s')
    requires n in s.nodes && d in s.nodes[n].table
    ensures d in s'.nodes[n].table
    ensures var r, r' := s.nodes[n].table[d], s'.nodes[n].table[d];
            Kept(r, r') || (AdoptedBy(s, e, n, d, r') && !AtLeast(r, NetSeqno(r'), r'.cost))
  {
    assert NodeStep(s, e, s', n);
    OrdinaryTable(topo, s, n);
    var r' := s'.nodes[n].table[d];
    if !Kept(s.nodes[n].table[d], r') {
      AdoptionImproves(s.nodes[n].table, s.air[e.i].msg, s.air[e.i].msg.cost + e.link);
    }
  }

  /** Adoption times after a step: a route that was not kept is stamped with the present. */
  ghost function Restamp(s: Net, s': Net, stamp: Stamps, now: nat): Stamps {
    map n, d | n in s'.nodes && d in s'.nodes[n].table ::
      (n, d) := if n in s.nodes && d in s.nodes[n].table && Kept(s.nodes[n].table[d], s'.nodes[n].table[d])
          && (n, d) in stamp
                then stamp[(n, d)] else now
  }

  ghost predicate NonNegative(e: Event) {
    e.Deliver? ==> e.link >= 0.0
  }

  /** A next hop that was better than `r` adopted at `t` still is. */
  lemma StaysBetter(topo: Topology, s: Net, e: Event, s': Net, stamp: Stamps, now: nat, m: Addr, d: Addr, r: Route,
                    t: nat)
    requires Good(topo, s) && InRange(s) && Shaped(s, e, s')
    requires m in s.nodes && d in s.nodes[m].table && (m, d) in stamp
    requires Better(s.nodes[m].table[d], stamp[(m, d)], r, t)
    ensures m in s'.nodes && d in s'.nodes[m].table && (m, d) in Restamp(s, s', stamp, now)
    ensures Better(s'.nodes[m].table[d], Restamp(s, s', stamp, now)[(m, d)], r, t)
  {
    PairNeverWorse(topo, s, e, s', m, d);
  }

  lemma KeptDownhill(topo: Topology, s: Net, e: Event, s': Net, stamp: Stamps, now: nat, n: Addr, d: Addr)
    requires Good(topo, s) && InRange(s) && Shaped(s, e, s') && Ordered(s, stamp, now)
    requires n in s'.nodes && d in s'.nodes[n].table
    requires n in s.nodes && d in s.nodes[n].table && Kept(s.nodes[n].table[d], s'.nodes[n].table[d])
    ensures Downhill(s', Restamp(s, s', stamp, now), now + 1, n, d)
  {
    assert Downhill(s, stamp, now, n, d);
    var r := s.nodes[n].table[d];
    if r.nextHop != d {
      StaysBetter(topo, s, e, s', stamp, now, r.nextHop, d, r, stamp[(n, d)]);
    }
  }

  /** A route taken over a link of non-negative cost is worse than, or younger than, its next hop's. */
  lemma AdoptedDownhill(topo: Topology, s: Net, e: Event, s': Net, stamp: Stamps, now: nat, n: Addr, d: Addr)
    requires Good(topo, s) && InRange(s) && Shaped(s, e, s') && NonNegative(e) && Ordered(s, stamp, now)
    requires n in s'.nodes && d in s'.nodes[n].table && AdoptedBy(s, e, n, d, s'.nodes[n].table[d])
    requires d !in s.nodes[n].table || !Kept(s.nodes[n].table[d], s'.nodes[n].table[d])
    ensures Downhill(s', Restamp(s, s', stamp, now), now + 1, n, d)
  {
    var p := s.air[e.i];
    assert GoodPacket(topo, s, p) && Backed(s, p);
    if p.src != d {
      assert Downhill(s, stamp, now, p.src, d);
      StaysBetter(topo, s, e, s', stamp, now, p.src, d, s'.nodes[n].table[d], now);
    }
  }

  lemma StepDownhill(topo: Topology, s: Net, e: Event, s': Net, stamp: Stamps, now: nat, n: Addr, d: Addr)
    requires Good(topo, s) && InRange(s) && Shaped(s, e, s') && NonNegative(e) && Ordered(s, stamp, now)
    requires n in s'.nodes && d in s'.nodes[n].table
    ensures Downhill(s', Restamp(s, s', stamp, now), now + 1, n, d)
  {
    assert NodeStep(s, e, s', n);
    if d in s.nodes[n].table && Kept(s.nodes[n].table[d], s'.nodes[n].table[d]) {
      KeptDownhill(topo, s, e, s', stamp, now, n, d);
    } else {
      AdoptedDownhill(topo, s, e, s', stamp, now, n, d);
    }
  }

  lemma StepBacked(topo: Topology, s: Net, e: Event, s': Net, stamp: Stamps, now: nat, p: Packet)
    requires Good(topo, s) && InRange(s) && Shaped(s, e, s')
    requires Ordered(s, stamp, now) && p in s'.air
    ensures Backed(s', p)
  {
    if p in s.air && p.src != p.msg.About() {
      assert Backed(s, p);
      PairNeverWorse(topo, s, e, s', p.src, p.msg.About());
    }
  }

  lemma StepOrdered(topo: Topology, s: Net, e: Event, s': Net, stamp: Stamps, now: nat)
    requires Good(topo, s) && InRange(s) && Shaped(s, e, s') && NonNegative(e)
    requires Ordered(s, stamp, now)
    ensures Ordered(s', Restamp(s, s', stamp, now), now + 1)
  {
    forall n, d | n in s'.nodes && d in s'.nodes[n].table
      ensures Downhill(s', Restamp(s, s', stamp, now), now + 1, n, d) {
      StepDownhill(topo, s, e, s', stamp, now, n, d);
    }
    forall p | p in s'.air ensures Backed(s', p) {
      StepBacked(topo, s, e, s', stamp, now, p);
    }
  }

  // ---------- whole runs ----------

  /** A run from power-up whose counters stay in range until its last step. */
  ghost predicate Proper(topo: Topology, ss: seq<Net>, es: seq<Event>) {
    && Run(topo, ss, es) && Initial(ss[0]) && Sensible(topo, ss[0].nodes.Keys)
    && forall i {:trigger InRange(ss[i])} :: 0 <= i < |es| ==> InRange(ss[i])
  }

  lemma ProperStep(topo: Topology, ss: seq<Net>, es: seq<Event>, k: nat)
    requires Proper(topo, ss, es) && k < |es|
    ensures |ss| == |es| + 1 && Enabled(ss[k], es[k]) && InRange(ss[k]) && ss[k + 1] == Apply(topo, ss[k], es[k])
  {
    hide Apply, Enabled, InRange;
    RunStep(topo, ss, es, k);
  }

  lemma {:induction false} RunGood(topo: Topology, ss: seq<Net>, es: seq<Event>, k: nat)
    requires Proper(topo, ss, es) && k < |ss|
    ensures Good(topo, ss[k])
  {
    hide Apply, Enabled, InRange;
    if k > 0 {
      RunGood(topo, ss, es, k - 1);
      ProperStep(topo, ss, es, k - 1);
      StepGood(topo, ss[k - 1], es[k - 1]);
    }
  }

  lemma RunShape(topo: Topology, ss: seq<Net>, es: seq<Event>, k: nat)
    requires Proper(topo, ss, es) && k < |es|
    ensures Good(topo, ss[k]) && InRange(ss[k]) && Shaped(ss[k], es[k], ss[k + 1])
  {
    hide Apply, Enabled, InRange, Good;
    RunGood(topo, ss, es, k);
    ProperStep(topo, ss, es, k);
    StepShape(topo, ss[k], es[k]);
  }

  lemma {:induction false} RunOrdered(topo: Topology, ss: seq<Net>, es: seq<Event>, k: nat)
    returns (stamp: Stamps, now: nat)
    requires Proper(topo, ss, es) && k < |ss|
    requires forall e <- es :: NonNegative(e)
    ensures Ordered(ss[k], stamp, now)
  {
    if k == 0 {
      stamp, now := map[], 0;
    } else {
      stamp, now := RunOrdered(topo, ss, es, k - 1);
      RunShape(topo, ss, es, k - 1);
      assert NonNegative(es[k - 1]);
      StepOrdered(topo, ss[k - 1], es[k - 1], ss[k], stamp, now);
      stamp, now := Restamp(ss[k - 1], ss[k], stamp, now), now + 1;
    }
  }

  /** In every state of every run over links of non-negative cost, forwarding is free of loops. */
  lemma RunIsLoopFree(topo: Topology, ss: seq<Net>, es: seq<Event>, k: nat)
    requires Proper(topo, ss, es) && k < |ss|
    requires forall e <- es :: NonNegative(e)
    ensures LoopFree(ss[k])
  {
    RunGood(topo, ss, es, k);
    var stamp, now := RunOrdered(topo, ss, es, k);
    OrderedIsLoopFree(topo, ss[k], stamp, now);
  }
}
