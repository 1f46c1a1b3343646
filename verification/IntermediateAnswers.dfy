/**
 Why shortest paths need a search that only the destination answers. A node that has passed a reply
 on holds a route to the destination, so it answers a later, cheaper copy of the request instead of
 sending it on, and the nodes behind it keep the dearer route. Three nodes are enough, and the very
 first search from power-up.
 */
module IntermediateAnswers {
  import opened Aodv
  import opened LoopFreedom
  import opened Network
  import opened Optimality
  import opened Schedules
  import opened SequenceNumbers
  import opened Walks

  // ---------- two channels to the middle of three nodes ----------

  const TWO_CHANNELS: Topology := map[(0, 0) := [1], (0, 1) := [1], (1, 0) := [0, 2], (1, 1) := [0], (2, 0) := [1]]

  /** The link between nodes 0 and 1 is dear on channel zero. */
  function Dear(): Costs {
    (u: Addr, v: Addr, ch: int) => if u + v == 1 && ch == 0 then 5.0 else 1.0
  }

  const FIRST: Event := Discovery(0, 2, false)

  function Request(hcnt: u8, cost: real): Message {
    Rreq(0, 2, 0, 0, 2, hcnt, cost, false)
  }

  function Answer(hcnt: u8, cost: real): Message {
    Rrep(2, 1, 0, hcnt, cost)
  }

  function Forth(cost: real, hcnt: u8, next: Addr, channel: int): Route {
    Route(2, true, cost, hcnt, next, channel, Flags(false, false))
  }

  function Middle(cost: real, channel: int): Node {
    FRESH_NODE.(table := map[0 := Forth(cost, 1, 0, channel)], records := map[(0, 0) := 5.0])
  }

  /** The middle node once it knows the destination too. */
  function Knowing(cost: real, channel: int): Node {
    Middle(cost, channel).(table :=
        map[0 := Forth(cost, 1, 0, channel), 2 := Route(1, true, 1.0, 1, 2, 0, Flags(false, false))])
  }

  const FAR: Node := FRESH_NODE.(table := map[0 := Forth(6.0, 2, 1, 0)], records := map[(0, 0) := 6.0])

  lemma DearCopy()
    ensures Receive(FRESH_NODE, Packet(0, 1, 0, 32, Request(0, 0.0)), 5.0)
             == Reaction(Middle(5.0, 0), OnEveryChannel(31, Request(1, 5.0)))
  {
  }

  lemma AtDestination()
    ensures Receive(FRESH_NODE, Packet(1, 2, 0, 31, Request(1, 5.0)), 1.0)
             == Reaction(FAR, [Unicast(1, 0, MAXTTL, Answer(0, 0.0))])
  {
  }

  lemma AnswerPassed()
    ensures Receive(Middle(5.0, 0), Packet(2, 1, 0, MAXTTL, Answer(0, 0.0)), 1.0)
         == Reaction(Knowing(5.0, 0), [Unicast(0, 0, 254, Answer(1, 1.0))])
  {
    var nd, p := Middle(5.0, 0), Packet(2, 1, 0, MAXTTL, Answer(0, 0.0));
    assert Adopt(nd.table, p, 1.0) == Knowing(5.0, 0).table;
  }

  /** The cheap copy is answered from the table. */
  lemma CheapCopy()
    ensures Receive(Knowing(5.0, 0), Packet(0, 1, 1, 32, Request(0, 0.0)), 1.0)
         == Reaction(Knowing(1.0, 1), [Unicast(0, 0, MAXTTL, Answer(1, 1.0))])
  {
    var nd, p := Knowing(5.0, 0), Packet(0, 1, 1, 32, Request(0, 0.0));
    assert Adopt(nd.table, p, 1.0) == Knowing(1.0, 1).table;
    assert Receive(nd, p, 1.0) == AnswerOrForward(1, Knowing(1.0, 1), p, 1.0);
  }

  // ---------- the run ----------

  /** All requests that are ever in the air. */
  predicate Traffic(q: Packet) {
    q.msg.Rreq? ==>
      && Link(TWO_CHANNELS, q.src, q.dst, q.channel) && q.msg.orig == 0 && q.msg.dest == 2 && q.msg.origSeqno == 2
      && (q.src == 0 || (q.src == 1 && q.msg.cost == 5.0)) && q.msg.cost >= 0.0
  }

  lemma Starts()
    ensures Enabled(ThreeNodes(), FIRST) && LowNet(ThreeNodes()) && LowNet(Apply(TWO_CHANNELS, ThreeNodes(), FIRST))
    ensures Initial(ThreeNodes()) && Sensible(TWO_CHANNELS, ThreeNodes().nodes.Keys) && Ready(ThreeNodes(), 0, 0)
    ensures var s := Apply(TWO_CHANNELS, ThreeNodes(), FIRST);
            && s.nodes == ThreeNodes().nodes[0 := FRESH_NODE.(seqno := 2, rreqId := 3)]
            && (forall q <- s.air :: Traffic(q))
            && Packet(0, 1, 0, 32, Request(0, 0.0)) in s.air && Packet(0, 1, 1, 32, Request(0, 0.0)) in s.air
  {
    var s := ThreeNodes();
    hide Apply;
    LowLaunch(TWO_CHANNELS, s, FIRST, FRESH_NODE.(seqno := 2, rreqId := 3), Request(0, 0.0));
    assert Spread(TWO_CHANNELS, 0, 32, Packet(0, 1, 0, 32, Request(0, 0.0)));
    assert Spread(TWO_CHANNELS, 0, 32, Packet(0, 1, 1, 32, Request(0, 0.0)));
    forall p | p in Apply(TWO_CHANNELS, s, FIRST).air ensures Traffic(p) {
    }
    forall n: Addr, ch: int, v: Addr | v in Neighbours(TWO_CHANNELS, n, ch) ensures v in s.nodes && v != n {
      assert (n, ch) in TWO_CHANNELS;
    }
  }

  lemma OneDelivery() returns (ss: seq<Net>, es: seq<Event>)
    ensures Schedule(TWO_CHANNELS, Dear(), ss, es) && |ss| == |es| + 1 && ss[0] == ThreeNodes() && es[0] == FIRST
    ensures ss[|es|].nodes == map[0 := FRESH_NODE.(seqno := 2, rreqId := 3), 1 := Middle(5.0, 0), 2 := FRESH_NODE]
    ensures forall q <- ss[|es|].air :: Traffic(q)
    ensures Packet(1, 2, 0, 31, Request(1, 5.0)) in ss[|es|].air && Packet(0, 1, 1, 32, Request(0, 0.0)) in ss[|es|].air
  {
    hide Receive, Apply, Schedule, Initial, Sensible, Ready;
    Starts();
    ss, es := Begin(TWO_CHANNELS, Dear(), ThreeNodes(), FIRST);
    DearCopy();
    ss, es := SendOn(TWO_CHANNELS, Dear(), ss, es, Packet(0, 1, 0, 32, Request(0, 0.0)), Middle(5.0, 0), 31,
        Request(1, 5.0));
    assert Spread(TWO_CHANNELS, 1, 31, Packet(1, 2, 0, 31, Request(1, 5.0)));
  }

  /** The dear copy goes all the way. */
  lemma TwoDeliveries() returns (ss: seq<Net>, es: seq<Event>)
    ensures Schedule(TWO_CHANNELS, Dear(), ss, es) && |ss| == |es| + 1 && ss[0] == ThreeNodes() && es[0] == FIRST
    ensures ss[|es|].nodes == map[0 := FRESH_NODE.(seqno := 2, rreqId := 3), 1 := Middle(5.0, 0), 2 := FAR]
    ensures forall q <- ss[|es|].air :: Traffic(q)
    ensures Packet(2, 1, 0, MAXTTL, Answer(0, 0.0)) in ss[|es|].air
             && Packet(0, 1, 1, 32, Request(0, 0.0)) in ss[|es|].air
  {
    hide Receive, Schedule, Traffic, Neighbours;
    ss, es := OneDelivery();
    AtDestination();
    AnswersAreTraffic();
    TwoChannelLink();
    ss, es := SendBack(TWO_CHANNELS, Dear(), ss, es, Packet(1, 2, 0, 31, Request(1, 5.0)), FAR, 1, 0, MAXTTL,
        Answer(0, 0.0));
  }

  lemma TwoChannelLink()
    ensures 1 in Neighbours(TWO_CHANNELS, 2, 0)
  {
  }

  /** Its answer comes back to the middle, and then the cheap copy arrives. */
  lemma ThreeDeliveries() returns (ss: seq<Net>, es: seq<Event>)
    ensures Schedule(TWO_CHANNELS, Dear(), ss, es) && |ss| == |es| + 1 && ss[0] == ThreeNodes() && es[0] == FIRST
    ensures ss[|es|].nodes == map[0 := FRESH_NODE.(seqno := 2, rreqId := 3), 1 := Knowing(5.0, 0), 2 := FAR]
    ensures forall q <- ss[|es|].air :: Traffic(q)
    ensures Packet(0, 1, 1, 32, Request(0, 0.0)) in ss[|es|].air
  {
    hide Receive, Schedule, Traffic, Neighbours;
    ss, es := TwoDeliveries();
    AnswerPassed();
    AnswersAreTraffic();
    ss, es := SendBack(TWO_CHANNELS, Dear(), ss, es, Packet(2, 1, 0, MAXTTL, Answer(0, 0.0)), Knowing(5.0, 0),
        0, 0, 254, Answer(1, 1.0));
  }

  lemma FourDeliveries() returns (ss: seq<Net>, es: seq<Event>)
    ensures Schedule(TWO_CHANNELS, Dear(), ss, es) && ss[0] == ThreeNodes() && es[0] == FIRST
    ensures ss[|es|].nodes == map[0 := FRESH_NODE.(seqno := 2, rreqId := 3), 1 := Knowing(1.0, 1), 2 := FAR]
    ensures forall q <- ss[|es|].air :: Traffic(q)
  {
    hide Receive, Schedule, Traffic, Neighbours;
    ss, es := ThreeDeliveries();
    CheapCopy();
    AnswersAreTraffic();
    ss, es := SendBack(TWO_CHANNELS, Dear(), ss, es, Packet(0, 1, 1, 32, Request(0, 0.0)), Knowing(1.0, 1),
        0, 0, MAXTTL, Answer(1, 1.0));
  }

  lemma AnswersAreTraffic()
    ensures forall p: Packet :: p.msg.Rrep? ==> Traffic(p)
  {
  }

  lemma TrafficDies(s: Net, q: Packet)
    requires s.nodes == map[0 := FRESH_NODE.(seqno := 2, rreqId := 3), 1 := Knowing(1.0, 1), 2 := FAR]
    requires Traffic(q) && q.msg.Rreq?
    ensures Dead(Dear(), s, q)
  {
    assert (q.src, q.channel) in TWO_CHANNELS;
  }

  /** The first search from power-up ends with a dearer route than need be at the destination itself. */
  lemma FirstSearchIsNotOptimal() returns (ss: seq<Net>, es: seq<Event>)
    ensures Proper(TWO_CHANNELS, ss, es) && SearchRun(TWO_CHANNELS, Dear(), ss, es, 0) && es[0] == FIRST
             && |ss[0].nodes| == 3
    ensures 1 <= |es| < |ss| && Quiescent(ss[|es|]) && 2 in ss[|es|].nodes
    ensures !Optimal(TWO_CHANNELS, Dear(), ss[|es|], Searched(ss[0], es[0]), 2)
  {
    hide Receive, Apply, Schedule, Dead;
    var ss0, es0 := FourDeliveries();
    LengthOfSchedule(TWO_CHANNELS, Dear(), ss0, es0);
    forall q | q in ss0[|es0|].air ensures Dead(Dear(), ss0[|es0|], q) || q.msg.Rrep? {
      if q.msg.Rreq? {
        TrafficDies(ss0[|es0|], q);
      }
    }
    ss, es := Drain(TWO_CHANNELS, Dear(), ss0, es0);
    Starts();
    ScheduleIsProper(TWO_CHANNELS, Dear(), ss, es);
    ScheduleSearches(TWO_CHANNELS, Dear(), ss, es, 0);
    assert ThreeNodes().nodes.Keys == {0, 1, 2} && |ThreeNodes().nodes| == |ThreeNodes().nodes.Keys|;
    NotOptimal(ss[|es|], Searched(ss[0], es[0]));
  }

  lemma NotOptimal(s: Net, f: Search)
    requires s.nodes.Keys == {0, 1, 2} && s.nodes[2].table == FAR.table && f == Searched(ThreeNodes(), FIRST)
    ensures !Optimal(TWO_CHANNELS, Dear(), s, f, 2)
  {
    var w := Go(Go(At(0), 1, 1), 2, 0);
    assert Flooding(TWO_CHANNELS, 2, At(0)) && Flooding(TWO_CHANNELS, 2, Go(At(0), 1, 1));
    assert Reaches(TWO_CHANNELS, f, w, 2);
    assert Weight(Dear(), Go(At(0), 1, 1)) == 1.0 && Weight(Dear(), w) == 2.0;
  }
}
