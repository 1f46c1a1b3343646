/**
 When all searches are optimal, exactly: if nobody holds the number of their requests before, in
 networks of up to thirty-three nodes if only the destination answers, and of up to two nodes if
 others may answer too. In a line of thirty-four the time-to-live of a request runs out one hop
 before the last node. Where the originator's number is behind, two nodes are too many.
 */
module NetworkSize {
  import opened Aodv
  import opened IntermediateAnswers
  import opened Network
  import opened Optimality
  import opened Resends
  import opened Schedules
  import opened Sets
  import opened SequenceNumbers
  import opened Walks

  const LAST: nat := 33

  /**
   Every quiescent state of every search of radius 32 in a network of at most `size` nodes is
   optimal, where the originator's number is behind by at most `behind`.
   */
  ghost predicate AlwaysOptimal(size: nat, direct: bool, behind: nat) {
    forall topo: Topology, c: Costs, ss: seq<Net>, es: seq<Event>, k: nat, n: Addr ::
      SearchRun(topo, c, ss, es, behind) && Radius(es[0]) == DISCOVERY_TTL && |ss[0].nodes| <= size
          && (direct ==> Direct(ss, es))
      && 1 <= k < |ss| && Quiescent(ss[k]) && n in ss[k].nodes && n != es[0].n
      ==> Optimal(topo, c, ss[k], Searched(ss[0], es[0]), n)
  }

  // ---------- a line of thirty-four nodes, each heard by the next ----------

  const SEEK: Event := Discovery(0, LAST + 1, false)

  predicate InLine(i: int) {
    0 <= i <= LAST
  }

  function Line(): Topology {
    map i: int {:trigger InLine(i)} | 0 <= i < LAST && InLine(i) :: (i as Addr, 0 as int) := [i + 1]
  }

  function UpTo(n: nat): (s: set<Addr>)
    ensures forall i: nat :: i in s <==> i <= n
    ensures |s| == n + 1
  {
    if n == 0 then {0} else UpTo(n - 1) + {n}
  }

  function Free(): Costs {
    (u, v, ch) => 0.0
  }

  /** The request after `hops` hops; nobody in the network is the node it looks for. */
  function Asking(hops: u8): Message {
    Rreq(0, LAST + 1, 0, 0, 2, hops, 0.0, false)
  }

  function TakenAt(i: nat): Node
    requires 1 <= i <= LAST
  {
    FRESH_NODE.(table := map[0 := Route(2, true, 0.0, i, i - 1, 0, Flags(false, false))], records := map[(0, 0) := 0.0])
  }

  function AtPowerUp(): Net {
    Net(map i: Addr | 0 <= i <= LAST && InLine(i) :: FRESH_NODE, [])
  }

  /** A copy of the request on one of the first `k + 1` hops. */
  predicate OnLine(q: Packet, k: nat) {
    && q.msg.Rreq? && q.msg.orig == 0 && q.msg.origSeqno == 2 && q.msg.cost == 0.0
    && q.dst == q.src + 1 && q.dst <= k + 1
  }

  /** The first `k` nodes of the line have taken the request, the rest are untouched. */
  ghost predicate NodesAt(nodes: map<Addr, Node>, k: nat)
    requires k < LAST
  {
    && (forall i: nat :: i in nodes <==> i <= LAST) && nodes[0].table == map[]
    && (forall i: nat :: 1 <= i <= k ==> nodes[i] == TakenAt(i))
    && (forall i: nat :: k < i <= LAST && 1 <= i ==> nodes[i] == FRESH_NODE)
  }

  ghost predicate Advanced(s: Net, k: nat)
    requires k < LAST
  {
    && NodesAt(s.nodes, k)
    && (forall q <- s.air :: OnLine(q, if k < LAST - 1 then k else k - 1))
    && (k < LAST - 1 ==> Packet(k, k + 1, 0, DISCOVERY_TTL - k, Asking(k)) in s.air)
  }

  lemma NodesFurther(nodes: map<Addr, Node>, k: nat)
    requires k < LAST - 1 && NodesAt(nodes, k)
    ensures k + 1 in nodes && nodes[k + 1] == FRESH_NODE && NodesAt(nodes[k + 1 := TakenAt(k + 1)], k + 1)
  {
    hide TakenAt;
  }

  lemma NextInLine(n: Addr, v: Addr, ch: int)
    ensures Link(Line(), n, v, ch) <==> n < LAST && v == n + 1 && ch == 0
  {
    if Link(Line(), n, v, ch) {
      assert (n, ch) in Line();
    }
    if n < LAST && v == n + 1 && ch == 0 {
      assert InLine(n) && Line()[(n, 0)] == [n + 1];
    }
  }

  lemma StartTraffic(q: Packet)
    ensures q in Apply(Line(), AtPowerUp(), SEEK).air ==> LowMessage(q.msg) && OnLine(q, 0)
    ensures Packet(0, 1, 0, 32, Asking(0)) in Apply(Line(), AtPowerUp(), SEEK).air
  {
    Launched(Line(), AtPowerUp(), SEEK);
    hide Apply, Line;
    NextInLine(0, q.dst, q.channel);
    NextInLine(0, 1, 0);
    assert Spread(Line(), 0, 32, Packet(0, 1, 0, 32, Asking(0)));
  }

  lemma PowerUpNodes()
    ensures AtPowerUp().nodes.Keys == UpTo(LAST) && AtPowerUp().air == []
    ensures forall n: Addr :: n in AtPowerUp().nodes <==> n <= LAST
    ensures forall n <- AtPowerUp().nodes :: AtPowerUp().nodes[n] == FRESH_NODE
  {
  }

  lemma StartNodes()
    ensures Enabled(AtPowerUp(), SEEK) && LowNet(AtPowerUp())
    ensures var nodes := Apply(Line(), AtPowerUp(), SEEK).nodes; NodesAt(nodes, 0) && forall n <- nodes ::
             LowNode(nodes[n])
  {
    PowerUpNodes();
    hide Line, AtPowerUp, UpTo;
    Launched(Line(), AtPowerUp(), SEEK);
    hide Apply;
    assert LowNode(FRESH_NODE) && LowNode(FRESH_NODE.(seqno := 2, rreqId := 3));
  }

  lemma Start()
    ensures Enabled(AtPowerUp(), SEEK) && LowNet(AtPowerUp()) && LowNet(Apply(Line(), AtPowerUp(), SEEK))
    ensures Advanced(Apply(Line(), AtPowerUp(), SEEK), 0)
  {
    StartNodes();
    hide Apply, Line, Enabled, OnLine, LowNode, LowMessage, NodesAt, AtPowerUp;
    forall q ensures q in Apply(Line(), AtPowerUp(), SEEK).air ==> LowMessage(q.msg) && OnLine(q, 0) {
      StartTraffic(q);
    }
    StartTraffic(Packet(0, 1, 0, 32, Asking(0)));
  }

  /** What node `k + 1` does with the request. */
  lemma Hop(k: nat)
    requires k < LAST - 1
    ensures Receive(FRESH_NODE, Packet(k, k + 1, 0, DISCOVERY_TTL - k, Asking(k)), 0.0)
         == Reaction(TakenAt(k + 1), if k < LAST - 2 then OnEveryChannel(DISCOVERY_TTL - k - 1, Asking(k + 1)) else [])
  {
    var p := Packet(k, k + 1, 0, DISCOVERY_TTL - k, Asking(k));
    assert Adopt(FRESH_NODE.table, p, 0.0) == TakenAt(k + 1).table;
    assert Remember(FRESH_NODE.records, (0, 0), 0.0) == TakenAt(k + 1).records;
  }

  lemma OneFurther(ss: seq<Net>, es: seq<Event>, k: nat) returns (ss': seq<Net>, es': seq<Event>)
    requires Schedule(Line(), Free(), ss, es) && k < LAST - 1 && Advanced(ss[|es|], k) && ss[0] == AtPowerUp()
             && es[0] == SEEK
    ensures Schedule(Line(), Free(), ss', es') && Advanced(ss'[|es'|], k + 1) && ss'[0] == AtPowerUp() && es'[0] == SEEK
  {
    LengthOfSchedule(Line(), Free(), ss, es);
    hide Receive, Schedule, Line, TakenAt, Asking, Spread, OnLine, LowNode, LowMessage, AtPowerUp, NodesAt;
    NodesFurther(ss[|es|].nodes, k);
    var p := Packet(k, k + 1, 0, DISCOVERY_TTL - k, Asking(k));
    Hop(k);
    LowTaken(k + 1);
    if k < LAST - 2 {
      ss', es' := SendOn(Line(), Free(), ss, es, p, TakenAt(k + 1), DISCOVERY_TTL - k - 1, Asking(k + 1));
      NextCopy(k + 1);
      forall q | q in ss'[|es'|].air ensures OnLine(q, k + 1) {
        OnLineStays(q, k);
        CopyOnLine(q, k + 1);
      }
    } else {
      ss', es' := SaySilent(Line(), Free(), ss, es, p, TakenAt(k + 1));
    }
  }

  lemma NextCopy(k: nat)
    requires 1 <= k < LAST - 1
    ensures Spread(Line(), k, DISCOVERY_TTL - k, Packet(k, k + 1, 0, DISCOVERY_TTL - k, Asking(k)))
  {
    NextInLine(k, k + 1, 0);
  }

  lemma OnLineStays(q: Packet, k: nat)
    ensures OnLine(q, k) ==> OnLine(q, k + 1)
  {
  }

  lemma CopyOnLine(q: Packet, k: nat)
    requires 1 <= k < LAST - 1
    ensures Spread(Line(), k, DISCOVERY_TTL - k, q) && q.msg == Asking(k) ==> OnLine(q, k)
  {
    hide Line;
    NextInLine(k, q.dst, q.channel);
  }

  lemma LowTaken(i: nat)
    requires 1 <= i < LAST
    ensures LowNode(TakenAt(i)) && LowMessage(Asking(i))
  {
  }

  lemma {:induction false} LineRun(k: nat) returns (ss: seq<Net>, es: seq<Event>)
    requires k < LAST
    ensures Schedule(Line(), Free(), ss, es) && Advanced(ss[|es|], k) && ss[0] == AtPowerUp() && es[0] == SEEK
  {
    hide Schedule, Advanced, Apply, Line;
    if k == 0 {
      Start();
      ss, es := Begin(Line(), Free(), AtPowerUp(), SEEK);
    } else {
      ss, es := LineRun(k - 1);
      ss, es := OneFurther(ss, es, k - 1);
    }
  }

  lemma TakenIsDead(s: Net, q: Packet)
    requires Advanced(s, LAST - 1) && q in s.air
    ensures Dead(Free(), s, q)
  {
    assert OnLine(q, LAST - 2) && s.nodes[q.dst] == TakenAt(q.dst);
  }

  lemma LineIsSensible()
    ensures Sensible(Line(), AtPowerUp().nodes.Keys)
    ensures Ready(AtPowerUp(), 0, 0)
    ensures |AtPowerUp().nodes| == LAST + 1
  {
    hide UpTo, AtPowerUp, Ready;
    PowerUpNodes();
    LineIsReady();
    var topo, nodes := Line(), AtPowerUp().nodes.Keys;
    forall n: Addr, ch: int, v: Addr | v in Neighbours(topo, n, ch) ensures v in nodes && v != n {
      LineNeighbours(n, ch, v);
    }
    assert Sensible(topo, nodes);
    assert |nodes| == |UpTo(LAST)|;
  }

  lemma LineIsReady()
    ensures Ready(AtPowerUp(), 0, 0)
  {
  }

  lemma LineNeighbours(n: Addr, ch: int, v: Addr)
    requires v in Neighbours(Line(), n, ch)
    ensures v == n + 1 && v in AtPowerUp().nodes.Keys
  {
    assert (n, ch) in Line();
    PowerUpNodes();
  }

  /** The search in the line ends with the last node untouched. */
  lemma LineEnds() returns (ss: seq<Net>, es: seq<Event>)
    ensures SearchRun(Line(), Free(), ss, es, 0) && ss[0] == AtPowerUp() && es[0] == SEEK && 1 <= |es| < |ss|
    ensures Direct(ss, es)
    ensures Quiescent(ss[|es|]) && LAST in ss[|es|].nodes && ss[|es|].nodes[LAST].table == map[]
  {
    hide Line, Apply, Schedule, Dead, Sensible, Ready;
    var ss0, es0 := LineRun(LAST - 1);
    LengthOfSchedule(Line(), Free(), ss0, es0);
    forall q | q in ss0[|es0|].air ensures Dead(Free(), ss0[|es0|], q) || q.msg.Rrep? {
      TakenIsDead(ss0[|es0|], q);
    }
    ss, es := Drain(Line(), Free(), ss0, es0);
    LineIsSensible();
    ScheduleSearches(Line(), Free(), ss, es, 0);
    LineIsUnknown();
    UnknownIsDirect(Line(), Free(), ss, es, 0);
  }

  /** Nobody in the line is the node that is looked for, or knows it. */
  lemma LineIsUnknown()
    ensures Unknown(AtPowerUp(), SEEK.n, SEEK.dest)
  {
    PowerUpNodes();
  }

  lemma {:induction false} LineWalk(i: nat) returns (w: Walk)
    requires i <= LAST
    ensures Reaches(Line(), Searched(AtPowerUp(), SEEK), w, i)
  {
    hide Line;
    if i == 0 {
      w := At(0);
    } else {
      var before := LineWalk(i - 1);
      w := Go(before, i, 0);
      NextInLine(i - 1, i, 0);
    }
  }

  lemma LongLineFails(size: nat, direct: bool, behind: nat)
    requires size > LAST
    ensures !AlwaysOptimal(size, direct, behind)
  {
    hide UpTo, SearchRun, Line, Quiescent, Direct;
    var ss, es := LineEnds();
    SearchRunWithin(Line(), Free(), ss, es, behind);
    LineIsSensible();
    var w := LineWalk(LAST);
    assert !Optimal(Line(), Free(), ss[|es|], Searched(ss[0], es[0]), LAST);
  }

  lemma AnswersFail(size: nat, behind: nat)
    requires size >= 3
    ensures !AlwaysOptimal(size, false, behind)
  {
    hide SearchRun, Optimal, Quiescent, Direct;
    var ss, es := FirstSearchIsNotOptimal();
    SearchRunWithin(TWO_CHANNELS, Dear(), ss, es, behind);
  }

  lemma BehindFails(size: nat, direct: bool, behind: nat)
    requires size >= 2 && behind >= 1
    ensures !AlwaysOptimal(size, direct, behind)
  {
    hide SearchRun, Optimal, Direct;
    var ss, es := BehindIsNotOptimal(behind);
  }

  // ---------- the exact condition ----------

  /** A search of one node has nobody to reach. */
  lemma AloneIsOptimal(topo: Topology, c: Costs, ss: seq<Net>, es: seq<Event>, behind: nat, k: nat, n: Addr)
    requires SearchRun(topo, c, ss, es, behind) && |ss[0].nodes| <= 1 && 1 <= k < |ss|
    ensures n !in ss[k].nodes || n == es[0].n
  {
    hide Sensible, Ready, NonNegativeCosts;
    RunNodes(topo, c, ss, es, behind, k);
    assert |ss[0].nodes.Keys| == |ss[0].nodes|;
    if n in ss[k].nodes && n != es[0].n {
      SubsetSize({n, es[0].n}, ss[0].nodes.Keys);
    }
  }

  lemma SmallIsOptimal(size: nat, direct: bool, behind: nat)
    requires size <= 1 || (behind == 0 && size <= DISCOVERY_TTL + 1 && (direct || size <= 2))
    ensures AlwaysOptimal(size, direct, behind)
  {
    hide Optimal, Direct, Sensible, Ready, Faithful, StepAt;
    forall topo: Topology, c: Costs, ss: seq<Net>, es: seq<Event>, k: nat, n: Addr |
      SearchRun(topo, c, ss, es, behind) && Radius(es[0]) == DISCOVERY_TTL && |ss[0].nodes| <= size
          && (direct ==> Direct(ss, es))
      && 1 <= k < |ss| && Quiescent(ss[k]) && n in ss[k].nodes && n != es[0].n
      ensures Optimal(topo, c, ss[k], Searched(ss[0], es[0]), n)
    {
      if size <= 1 {
        AloneIsOptimal(topo, c, ss, es, behind, k, n);
      } else if direct {
        SearchIsOptimal(topo, c, ss, es, k, n);
      } else {
        PairIsOptimal(topo, c, ss, es, k, n);
      }
    }
  }

  /**
   Thirty-three nodes if only the destination answers, two nodes otherwise, and one node if the
   originator's number may be behind.
   */
  lemma OptimalExactly(size: nat, direct: bool, behind: nat)
    ensures AlwaysOptimal(size, direct, behind) <==>
              size <= 1 || (behind == 0 && size <= DISCOVERY_TTL + 1 && (direct || size <= 2))
  {
    hide AlwaysOptimal;
    if size <= 1 || (behind == 0 && size <= DISCOVERY_TTL + 1 && (direct || size <= 2)) {
      SmallIsOptimal(size, direct, behind);
    } else if behind >= 1 {
      BehindFails(size, direct, behind);
    } else if size > DISCOVERY_TTL + 1 {
      LongLineFails(size, direct, behind);
    } else {
      AnswersFail(size, behind);
    }
  }
}
