/**
 Termination, optimality and success together: a search that starts from power-up can be delivered
 only so many times. When nothing is left in the air the originator has a route to the destination
 if there is one, and if nobody but the destination has answered, every node holds the cheapest route.
 */
module Convergence {
  import opened Aodv
  import opened LoopFreedom
  import opened Network
  import opened Optimality
  import opened Realizability
  import opened Replies
  import opened Termination
  import opened Walks

  /** A run from power-up: one discovery, and then deliveries at fixed costs. */
  ghost predicate FirstSearch(topo: Topology, c: Costs, ss: seq<Net>, es: seq<Event>) {
    && Proper(topo, ss, es) && NonNegativeCosts(c) && |es| >= 1 && es[0].Discovery?
    && |ss[0].nodes| <= DISCOVERY_TTL + 1
    && forall i :: 1 <= i < |es| ==> es[i].Deliver? && Static(c, ss[i], es[i])
  }

  lemma PowerUpIsReady(s: Net, orig: Addr)
    requires Initial(s) && orig in s.nodes
    ensures Ready(s, orig, 0)
  {
  }

  lemma FirstSearchRuns(topo: Topology, c: Costs, ss: seq<Net>, es: seq<Event>)
    requires FirstSearch(topo, c, ss, es)
    ensures SearchRun(topo, c, ss, es, 0) && Crossable(ss[0], es[0])
  {
    assert StepAt(topo, ss, es, 0);
    PowerUpIsReady(ss[0], es[0].n);
    hide Ready, Apply;
    forall i | 1 <= i < |es| ensures Faithful(c, ss[i], es[i]) {
    }
  }

  lemma {:induction false} OneFloodOnly(es: seq<Event>, k: nat)
    requires 1 <= k <= |es| && es[0].Discovery? && forall i :: 1 <= i < |es| ==> es[i].Deliver?
    ensures FloodTtls(es[..k]) == [DISCOVERY_TTL] && Deliveries(es[..k]) == k - 1
  {
    if k == 1 {
      assert es[..1][..0] == [];
    } else {
      OneFloodOnly(es, k - 1);
      assert es[..k][..k - 1] == es[..k - 1];
    }
  }

  lemma StaticIsNonNegative(topo: Topology, c: Costs, ss: seq<Net>, es: seq<Event>, i: nat)
    requires SearchRun(topo, c, ss, es, 0) && i < |es|
    ensures NonNegative(es[i])
  {
    if i >= 1 {
      assert Faithful(c, ss[i], es[i]) && StepAt(topo, ss, es, i);
    }
  }

  /**
   However its packets are ordered, a search ends within a computable number of deliveries,
   optimally if it is direct.
   */
  lemma SearchConverges(topo: Topology, c: Costs, ss: seq<Net>, es: seq<Event>, fan: nat)
    requires FirstSearch(topo, c, ss, es) && InRange(ss[|es|]) && Bounded(topo, ss[0], fan)
    ensures |es| <= 1 + fan * SumPower(fan + |ss[0].nodes| + 2, [DISCOVERY_TTL])
    ensures es[0].n in ss[0].nodes
    ensures ss[|es|].air == [] && Direct(ss, es) ==>
              forall n <- ss[|es|].nodes :: n != es[0].n ==> Optimal(topo, c, ss[|es|], Searched(ss[0], es[0]), n)
  {
    FirstSearchRuns(topo, c, ss, es);
    OneFloodOnly(es, |es|);
    assert es[..|es|] == es;
    forall e | e in es ensures NonNegative(e) && !e.Duplicate? {
      var i :| 0 <= i < |es| && es[i] == e;
      StaticIsNonNegative(topo, c, ss, es, i);
    }
    DeliveriesAreBounded(topo, ss, es, fan);
    if ss[|es|].air == [] && Direct(ss, es) {
      forall n | n in ss[|es|].nodes && n != es[0].n ensures Optimal(topo, c, ss[|es|], Searched(ss[0], es[0]), n) {
        SearchIsOptimal(topo, c, ss, es, |es|, n);
      }
    }
  }

  // ---------- a route means a walk ----------

  /** Over two-way links the walk behind a route can be walked back, up to the first visit to the destination. */
  lemma {:induction false} WalkBack(topo: Topology, f: Search, w: Walk, tail: Walk) returns (back: Walk)
    requires TwoWay(topo) && Within(topo, w) && w.Start() == f.dest && Reaches(topo, f, tail, w.End())
    ensures Reaches(topo, f, back, f.dest)
    decreases w
  {
    if w.End() == f.dest {
      back := tail;
    } else {
      assert Link(topo, w.to, w.prefix.End(), w.channel);
      back := WalkBack(topo, f, w.prefix, Go(tail, w.prefix.End(), w.channel));
    }
  }

  lemma RouteMeansWalk(topo: Topology, c: Costs, ss: seq<Net>, es: seq<Event>, k: nat, f: Search) returns (w: Walk)
    requires Proper(topo, ss, es) && StaticRun(c, ss, es) && k < |ss| && TwoWay(topo)
    requires f.orig in ss[k].nodes && f.dest in ss[k].nodes[f.orig].table
    ensures Reaches(topo, f, w, f.dest)
  {
    RunIsRealized(topo, c, ss, es, k);
    var r := ss[k].nodes[f.orig].table[f.dest];
    assert RouteRealized(topo, c, ss[k], f.orig, f.dest);
    var there :| Witnesses(topo, c, there, f.dest, f.orig, r.cost, r.hcnt);
    w := WalkBack(topo, f, there, At(f.orig));
  }

  // ---------- success ----------

  lemma FirstSearchFinds(topo: Topology, c: Costs, ss: seq<Net>, es: seq<Event>)
    requires FirstSearch(topo, c, ss, es) && es[0].dest in ss[0].nodes
    ensures FindingRun(topo, c, ss, es, 0, 0) && StaticRun(c, ss, es)
    ensures Threshold(ss[0].nodes[es[0].n], Searched(ss[0], es[0])) == 0
             && Stored(ss[0].nodes[es[0].n], Searched(ss[0], es[0])) == 0
  {
    FirstSearchRuns(topo, c, ss, es);
    RunGood(topo, ss, es, 0);
    var f := Searched(ss[0], es[0]);
    assert forall n <- ss[0].nodes {:trigger ss[0].nodes[n]} ::
        NotAhead(ss[0].nodes[n], f, ss[0].nodes[es[0].dest].seqno + 0);
    hide SearchRun, Good, InRange, Sensible, StepAt;
  }

  /**
   The first search over two-way links, if it is direct or links are alike on every channel: the
   originator has a valid route exactly if a walk leads to the destination, and if it is direct and
   costs are symmetric, the cheapest one.
   */
  lemma FirstSearchSucceeds(topo: Topology, c: Costs, ss: seq<Net>, es: seq<Event>)
    requires FirstSearch(topo, c, ss, es) && es[0].dest in ss[0].nodes && ss[|es|].air == []
    requires TwoWay(topo) && (Direct(ss, es) || (Alike(topo) && !es[0].destOnly))
    ensures es[0].n in ss[0].nodes && es[0].n in ss[|es|].nodes
    ensures var f, nd := Searched(ss[0], es[0]), ss[|es|].nodes[es[0].n];
            && (Routed(nd, f, 0) <==> exists w :: Reaches(topo, f, w, f.dest))
            && (Routed(nd, f, 0) && Direct(ss, es) && SymmetricCosts(c) ==> Cheapest(topo, c, f, nd.table[f.dest].cost))
  {
    FirstSearchFinds(topo, c, ss, es);
    var f := Searched(ss[0], es[0]);
    FirstSearchNodes(topo, c, ss, es);
    hide SearchRun, Good, InRange, TwoWay, Alike;
    if |es| >= 1 {
      TwoWayIsHeard(topo, c, ss, es, |es|, Direct(ss, es), 0);
    }
    if w :| Reaches(topo, f, w, f.dest) {
      SearchSucceeds(topo, c, ss, es, |es|, Direct(ss, es), 0, w);
    }
    if Routed(ss[|es|].nodes[f.orig], f, 0) {
      var w := RouteMeansWalk(topo, c, ss, es, |es|, f);
      if Direct(ss, es) {
        SearchFindsDestination(topo, c, ss, es, |es|);
      }
    }
  }

  lemma FirstSearchNodes(topo: Topology, c: Costs, ss: seq<Net>, es: seq<Event>)
    requires FirstSearch(topo, c, ss, es)
    ensures es[0].n in ss[0].nodes && es[0].n in ss[|es|].nodes
  {
    assert StepAt(topo, ss, es, 0);
    NodesStay(topo, ss, es, |es|);
  }
}
