/**
 Loop freedom holds for exactly those link costs that are never negative. `getCost` is negative as
 soon as an estimated link quality exceeds one, so the hypothesis is not vacuous.
 */
module NegativeCost {
  import opened SequenceNumbers
  import opened Aodv
  import opened Network
  import opened LoopFreedom
  import opened Walks
  import opened Optimality
  import opened Schedules

  /** Every run whose link costs are drawn from `costs` is free of loops throughout. */
  ghost predicate Safe(costs: iset<real>) {
    forall topo: Topology, ss: seq<Net>, es: seq<Event> ::
      Proper(topo, ss, es) && (forall e <- es :: e.Deliver? ==> e.link in costs)
      ==> forall k :: 0 <= k < |ss| ==> LoopFree(ss[k])
  }

  // ---------- three nodes in a line, the last two within reach of each other ----------

  const LINE: Topology := map[(0, 0) := [1], (1, 0) := [2], (2, 0) := [1]]

  function Fixed(cost: real): Costs {
    (u: Addr, v: Addr, ch: int) => cost
  }

  function Request(hcnt: u8, cost: real): Message {
    Rreq(0, 3, 0, 0, 2, hcnt, cost, false)
  }

  /** A node with a route to node 0, which it has recorded at `known`. */
  function Reverse(next: Addr, hcnt: u8, cost: real, known: real): Node {
    FRESH_NODE.(table := map[0 := Route(2, true, cost, hcnt, next, 0, Flags(false, false))], records :=
        map[(0, 0) := known])
  }

  lemma FirstHop(c: real)
    ensures Receive(FRESH_NODE, Packet(0, 1, 0, 32, Request(0, 0.0)), c)
             == Reaction(Reverse(0, 1, c, c), OnEveryChannel(31, Request(1, c)))
  {
  }

  lemma SecondHop(c: real)
    ensures Receive(FRESH_NODE, Packet(1, 2, 0, 31, Request(1, c)), c)
         == Reaction(Reverse(1, 2, c + c, c + c), OnEveryChannel(30, Request(2, c + c)))
  {
  }

  /** The request that comes back is cheaper than the one before. */
  lemma ThirdHop(c: real)
    requires c < 0.0
    ensures Receive(Reverse(0, 1, c, c), Packet(2, 1, 0, 30, Request(2, c + c)), c)
         == Reaction(Reverse(2, 3, c + c + c, c), OnEveryChannel(29, Request(3, c + c + c)))
  {
    var p, nd := Packet(2, 1, 0, 30, Request(2, c + c)), Reverse(0, 1, c, c);
    assert Adopt(nd.table, p, c) == Reverse(2, 3, c + c + c, c).table;
    assert Receive(nd, p, c) == AnswerOrForward(1, Reverse(2, 3, c + c + c, c), p, c + c + c);
  }

  lemma LineStarts(c: real)
    ensures Enabled(ThreeNodes(), Discovery(0, 3, false)) && Initial(ThreeNodes())
             && Sensible(LINE, ThreeNodes().nodes.Keys)
    ensures LowNet(ThreeNodes()) && LowNet(Apply(LINE, ThreeNodes(), Discovery(0, 3, false)))
    ensures var s := Apply(LINE, ThreeNodes(), Discovery(0, 3, false));
            && s.nodes == ThreeNodes().nodes[0 := FRESH_NODE.(seqno := 2, rreqId := 3)]
            && Packet(0, 1, 0, 32, Request(0, 0.0)) in s.air
  {
    var s, e := ThreeNodes(), Discovery(0, 3, false);
    hide Apply;
    LowLaunch(LINE, s, e, FRESH_NODE.(seqno := 2, rreqId := 3), Request(0, 0.0));
    assert Spread(LINE, 0, 32, Packet(0, 1, 0, 32, Request(0, 0.0)));
    forall n: Addr, ch: int, v: Addr | v in Neighbours(LINE, n, ch) ensures v in s.nodes && v != n {
      assert (n, ch) == (0, 0) || (n, ch) == (1, 0) || (n, ch) == (2, 0);
      assert v == if n == 1 then 2 else 1;
    }
  }

  lemma LoopingRun(c: real) returns (ss: seq<Net>, es: seq<Event>)
    requires c < 0.0
    ensures Schedule(LINE, Fixed(c), ss, es) && ss[0] == ThreeNodes() && ss[|es|].nodes.Keys == {0, 1, 2}
    ensures ss[|es|].nodes[1] == Reverse(2, 3, c + c + c, c) && ss[|es|].nodes[2] == Reverse(1, 2, c + c, c + c)
  {
    hide Receive, Apply, Schedule;
    LineStarts(c);
    ss, es := Begin(LINE, Fixed(c), ThreeNodes(), Discovery(0, 3, false));
    var p1, p2, p3 := Packet(0, 1, 0, 32, Request(0, 0.0)), Packet(1, 2, 0, 31, Request(1, c)),
        Packet(2, 1, 0, 30, Request(2, c + c));
    FirstHop(c);
    ss, es := SendOn(LINE, Fixed(c), ss, es, p1, Reverse(0, 1, c, c), 31, p2.msg);
    assert Spread(LINE, 1, 31, p2);
    SecondHop(c);
    ss, es := SendOn(LINE, Fixed(c), ss, es, p2, Reverse(1, 2, c + c, c + c), 30, p3.msg);
    assert Spread(LINE, 2, 30, p3);
    ThirdHop(c);
    ss, es := SendOn(LINE, Fixed(c), ss, es, p3, Reverse(2, 3, c + c + c, c), 29, Request(3, c + c + c));
  }

  /** With any negative cost the third hop closes a loop between two nodes. */
  lemma NegativeCostLoops(c: real) returns (ss: seq<Net>, es: seq<Event>)
    requires c < 0.0
    ensures Proper(LINE, ss, es) && !LoopFree(ss[|es|]) && forall e <- es :: e.Deliver? ==> e.link == c
  {
    ss, es := LoopingRun(c);
    LineStarts(c);
    ScheduleIsProper(LINE, Fixed(c), ss, es);
    forall e | e in es && e.Deliver? ensures e.link == c {
      var i :| 0 <= i < |es| && es[i] == e;
      assert Faithful(Fixed(c), ss[i], es[i]) && StepAt(LINE, ss, es, i);
    }
    var s := ss[|es|];
    assert Edge(s, 0, 1, 2) && Edge(s, 0, 2, 1);
    var path := [1, 2, 1];
    assert |path| >= 2 && ForwardingPath(s, 0, path);
  }

  /** Loop freedom over all runs is the same as: no link cost is negative. */
  lemma LoopFreeIffNonNegative(costs: iset<real>)
    ensures Safe(costs) <==> forall c <- costs :: c >= 0.0
  {
    if Safe(costs) {
      forall c | c in costs ensures c >= 0.0 {
        if c < 0.0 {
          var ss, es := NegativeCostLoops(c);
        }
      }
    }
    if forall c <- costs :: c >= 0.0 {
      forall topo: Topology, ss: seq<Net>, es: seq<Event> | Proper(topo, ss, es)
          && (forall e <- es :: e.Deliver? ==> e.link in costs)
        ensures forall k :: 0 <= k < |ss| ==> LoopFree(ss[k])
      {
        forall k | 0 <= k < |ss| ensures LoopFree(ss[k]) {
          RunIsLoopFree(topo, ss, es, k);
        }
      }
    }
  }
}
