/**
 Why a search needs a number of its own. A repeated request carries the host number plus one, and
 the host does not count up. The next request of the same node, for whatever destination, carries
 that number again, and a neighbour that took the repeated request refuses it. Two nodes are enough.
 */
module Resends {
  import opened Aodv
  import opened LoopFreedom
  import opened Network
  import opened Optimality
  import opened Replies
  import opened Schedules
  import opened SequenceNumbers
  import opened Walks

  // ---------- two nodes that hear each other on every channel ----------

  const PAIR: Topology := map[(0, 0) := [1], (0, 1) := [1], (0, 2) := [1], (1, 0) := [0], (1, 1) := [0], (1, 2) := [0]]

  lemma PairNeighbours(n: Addr, ch: int, v: Addr)
    ensures v in Neighbours(PAIR, n, ch) <==> 0 <= ch < 3 && n + v == 1
  {
  }

  lemma PairIsSound()
    ensures TwoWay(PAIR) && Alike(PAIR) && Sensible(PAIR, {0, 1})
  {
    forall u: Addr, v: Addr, ch: int | Link(PAIR, u, v, ch) ensures Link(PAIR, v, u, ch) {
      PairNeighbours(u, ch, v);
      PairNeighbours(v, ch, u);
    }
    forall u: Addr, v: Addr, ch: int, ch': int | Link(PAIR, u, v, ch) && Channel(ch') ensures Link(PAIR, u, v, ch') {
      PairNeighbours(u, ch, v);
      PairNeighbours(u, ch', v);
    }
    forall n: Addr, ch: int, v: Addr | v in Neighbours(PAIR, n, ch) ensures v in {0, 1} && v != n {
      PairNeighbours(n, ch, v);
    }
  }

  // ---------- a repeated request that is heard ----------

  /** A node that does not exist. */
  const NOBODY: Addr := 3

  function Call(id: u32, number: u32, hcnt: u8, cost: real): Message {
    Rreq(id, NOBODY, 0, 0, number, hcnt, cost, false)
  }

  /** Node 0 after a discovery and after its repetition. */
  const ONCE: Node := FRESH_NODE.(seqno := 2, rreqId := 3)
  const TWICE: Node := FRESH_NODE.(seqno := 2, rreqId := 6)

  const CALL: Event := Discovery(0, NOBODY, false)
  const AGAIN: Event := Rediscovery(0, NOBODY, 0, 32, false)

  /** Node 1 has taken the repeated request of node 0, whose number is one behind from then on. */
  const HEARD: Node := FRESH_NODE.(table := map[0 := Route(3, true, 1.0, 1, 0, 0, Flags(false, false))], records :=
      map[(0, 3) := 1.0])

  /** And its route has expired since. */
  const EXPIRED: Node := HEARD.(table := map[0 := Route(4, false, 1.0, 1, 0, 0, Flags(false, false))])

  lemma CallHeard()
    ensures Receive(FRESH_NODE, Packet(0, 1, 0, 32, Call(3, 3, 0, 0.0)), 1.0)
             == Reaction(HEARD, OnEveryChannel(31, Call(3, 3, 1, 1.0)))
  {
  }

  lemma CallIsLow(topo: Topology, s: Net)
    requires Initial(s) && 0 in s.nodes
    ensures Enabled(s, CALL) && LowNet(Apply(topo, s, CALL)) && Apply(topo, s, CALL).nodes == s.nodes[0 := ONCE]
  {
    assert LowNode(FRESH_NODE);
    hide Apply;
    LowLaunch(topo, s, CALL, ONCE, Call(0, 2, 0, 0.0));
  }

  lemma CallAgain(topo: Topology, s: Net)
    requires 0 in s.nodes && s.nodes[0] == ONCE && s.air == [] && LowNet(s) && 1 in Neighbours(topo, 0, 0)
    ensures Enabled(s, AGAIN) && LowNet(Apply(topo, s, AGAIN)) && Apply(topo, s, AGAIN).nodes == s.nodes[0 := TWICE]
    ensures Packet(0, 1, 0, 32, Call(3, 3, 0, 0.0)) in Apply(topo, s, AGAIN).air
  {
    hide Apply, Neighbours;
    LowLaunch(topo, s, AGAIN, TWICE, Call(3, 3, 0, 0.0));
    assert Spread(topo, 0, 32, Packet(0, 1, 0, 32, Call(3, 3, 0, 0.0)));
  }

  /** From power-up: a discovery of node 0 that is lost, and the repetition that only node 1 hears. */
  lemma ResendHeard(topo: Topology, s: Net) returns (ss: seq<Net>, es: seq<Event>)
    requires Initial(s) && {0, 1} <= s.nodes.Keys && 1 in Neighbours(topo, 0, 0)
    ensures LowRun(topo, ss, es) && |ss| == |es| + 1 && ss[0] == s
    ensures ss[|es|] == Net(s.nodes[0 := TWICE][1 := HEARD], [])
  {
    hide Apply, LowRun, Receive, Neighbours, Enabled;
    ss, es := LowStart(topo, s);
    CallIsLow(topo, s);
    ss, es := LowRunGrows(topo, ss, es, CALL);
    ss, es := LoseAll(topo, ss, es);
    LowRunEnds(topo, ss, es);
    CallAgain(topo, ss[|es|]);
    ss, es := LowRunGrows(topo, ss, es, AGAIN);
    CallHeard();
    assert LowNode(HEARD);
    ss, es := LowDelivery(topo, ss, es, Packet(0, 1, 0, 32, Call(3, 3, 0, 0.0)), 1.0);
    ss, es := LoseAll(topo, ss, es);
  }

  lemma LowRunEnds(topo: Topology, ss: seq<Net>, es: seq<Event>)
    requires LowRun(topo, ss, es)
    ensures LowNet(ss[|es|])
  {
  }

  /** The network of two with these nodes. */
  function PairOf(host: Node, neighbour: Node): Net {
    Net(map[0 := host, 1 := neighbour], [])
  }

  lemma ExpiryIsLow()
    ensures Enabled(PairOf(TWICE, HEARD), Expire(1, 0)) && LowNet(Apply(PAIR, PairOf(TWICE, HEARD), Expire(1, 0)))
    ensures Apply(PAIR, PairOf(TWICE, HEARD), Expire(1, 0)) == PairOf(TWICE, EXPIRED)
  {
    assert LowNode(TWICE) && LowNode(EXPIRED);
    assert LinkBreak(HEARD.table, 0) == EXPIRED.table;
  }

  /** From power-up: the number of node 0 is one behind what node 1 holds of it, and then the route expires. */
  lemma ResendLagsBehind() returns (ss: seq<Net>, es: seq<Event>)
    ensures Proper(PAIR, ss, es) && |ss| == |es| + 1 && |es| >= 1
    ensures ss[|es| - 1] == PairOf(TWICE, HEARD) && ss[|es|] == PairOf(TWICE, EXPIRED)
  {
    hide Apply, LowRun, Enabled;
    var s := PairOf(FRESH_NODE, FRESH_NODE);
    PairNeighbours(0, 0, 1);
    ss, es := ResendHeard(PAIR, s);
    assert ss[|es|] == PairOf(TWICE, HEARD);
    ExpiryIsLow();
    ss, es := LowRunGrows(PAIR, ss, es, Expire(1, 0));
    PairIsSound();
    assert s.nodes.Keys == {0, 1};
    LowRunIsProper(PAIR, ss, es);
  }

  // ---------- the next search ----------

  lemma LaunchIsLow(host: Node, neighbour: Node, e: Event)
    requires Launches(e) && e.n == 0 && e.dest != 0 && 1 <= Radius(e) && Sought(host, e) < LOW
    requires LowNode(host) && LowNode(neighbour) && host.seqno == 2 && host.rreqId == 6
    ensures var s := PairOf(host, neighbour);
            && Enabled(s, e) && LowNet(s) && LowNet(Apply(PAIR, s, e))
            && Apply(PAIR, s, e).nodes == s.nodes[0 := Launch(host, e).node]
            && forall q <- Apply(PAIR, s, e).air ::
                 q.src == 0 && q.dst == 1 && q.msg.Rreq? && q.msg.orig == 0 && q.msg.origSeqno == 3 && q.msg.cost == 0.0
  {
    hide Apply, Neighbours;
    var s := PairOf(host, neighbour);
    LowLaunch(PAIR, s, e, Launch(host, e).node, Rreq(6, e.dest, Sought(host, e), 0, 3, 0, 0.0, e.destOnly));
    forall q | q in Apply(PAIR, s, e).air ensures q.dst == 1 {
      PairNeighbours(0, q.channel, q.dst);
    }
  }

  /** Whatever node 0 looks for, its neighbour refuses the request, and no route changes. */
  lemma RefusedRun(host: Node, neighbour: Node, e: Event) returns (ss: seq<Net>, es: seq<Event>)
    requires Launches(e) && e.n == 0 && e.dest != 0 && 1 <= Radius(e) && Sought(host, e) < LOW
    requires LowNode(host) && host.seqno == 2 && host.rreqId == 6
    requires neighbour == HEARD || neighbour == EXPIRED
    ensures Schedule(PAIR, Unit(), ss, es) && ss[0] == PairOf(host, neighbour) && es[0] == e && 1 <= |es| < |ss|
    ensures ss[|es|].air == [] && ss[|es|].nodes.Keys == {0, 1}
             && ss[|es|].nodes[0].table == host.table && ss[|es|].nodes[1].table == neighbour.table
  {
    hide Apply, Schedule, Launch;
    assert LowNode(HEARD) && LowNode(EXPIRED);
    LaunchIsLow(host, neighbour, e);
    LaunchFloods(host, e);
    ss, es := Begin(PAIR, Unit(), PairOf(host, neighbour), e);
    var ss', es' := Drain(PAIR, Unit(), ss, es);
    LengthOfSchedule(PAIR, Unit(), ss', es');
    NothingLeft(ss'[|es'|].air);
    ss, es := ss', es';
  }

  lemma PairIsReady(host: Node, neighbour: Node, behind: nat)
    requires LowNode(host) && host.seqno == 2 && host.rreqId == 6 && host.blacklist == {} && host.records == map[]
    requires 0 !in host.table && behind >= 1
    requires neighbour == HEARD || neighbour == EXPIRED
    ensures Sensible(PAIR, PairOf(host, neighbour).nodes.Keys) && Ready(PairOf(host, neighbour), 0, behind)
             && |PairOf(host, neighbour).nodes| == 2
  {
    var s := PairOf(host, neighbour);
    PairIsSound();
    hide Neighbours;
    assert s.nodes.Keys == {0, 1} && |s.nodes| == |s.nodes.Keys|;
  }

  // ---------- not optimal ----------

  /** A search for a node that nobody knows: it is direct, and node 1 is left without a route. */
  lemma BehindIsNotOptimal(behind: nat) returns (ss: seq<Net>, es: seq<Event>)
    requires behind >= 1
    ensures SearchRun(PAIR, Unit(), ss, es, behind) && Direct(ss, es)
    ensures ss[0] == PairOf(TWICE, EXPIRED) && |ss[0].nodes| == 2 && es[0] == CALL
    ensures 1 <= |es| < |ss| && ss[|es|].air == [] && 1 in ss[|es|].nodes
    ensures !Optimal(PAIR, Unit(), ss[|es|], Searched(ss[0], es[0]), 1)
  {
    hide Apply, Schedule, SearchRun, Sensible, Ready, Direct;
    assert LowNode(TWICE);
    ss, es := RefusedRun(TWICE, EXPIRED, CALL);
    PairIsReady(TWICE, EXPIRED, behind);
    ScheduleSearches(PAIR, Unit(), ss, es, behind);
    UnknownIsDirect(PAIR, Unit(), ss, es, behind);
    PairNeighbours(0, 0, 1);
    assert Flooding(PAIR, NOBODY, At(0));
    assert Reaches(PAIR, Searched(ss[0], es[0]), Go(At(0), 1, 0), 1);
  }
}
