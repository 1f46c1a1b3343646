/**
 When a search finds its destination, exactly. No search is sure to if its originator's number is
 behind what others hold of it. An ordinary search then does over links that are two-way and alike
 on every channel, because an answer from a table leaves on the channel of the route it offers. A
 search that only the destination may answer does over two-way links as long as nobody holds a
 number ahead of the destination's own, since whoever has taken that number refuses the
 destination's later answer. Repeated requests are what hands out such numbers.
 */
module LostAnswers {
  import opened Aodv
  import opened LoopFreedom
  import opened Network
  import opened Optimality
  import opened Replies
  import opened Resends
  import opened Schedules
  import opened SequenceNumbers
  import opened Walks

  /** The originator has a valid route, no older than before, if a walk leads to the destination. */
  ghost predicate Succeeds(topo: Topology, ss: seq<Net>, es: seq<Event>, k: nat)
    requires k < |ss| && |es| >= 1 && Launches(es[0]) && es[0].n in ss[0].nodes
  {
    var f := Searched(ss[0], es[0]);
    (exists w :: Reaches(topo, f, w, f.dest)) ==>
      f.orig in ss[k].nodes && Routed(ss[k].nodes[f.orig], f, Stored(ss[0].nodes[f.orig], f))
  }

  /** The kinds of network and search over which success is asked for. */
  ghost predicate Allowed(topo: Topology, c: Costs, ss: seq<Net>, es: seq<Event>, destOnly: bool, lead: nat,
                          oneWay: bool, unlike: bool, behind: nat) {
    FindingRun(topo, c, ss, es, lead, behind) && es[0].destOnly == destOnly && (oneWay || TwoWay(topo))
        && (unlike || Alike(topo))
  }

  /**
   Every search with or without the destination-only flag succeeds where numbers are ahead of the
   destination by at most `lead` and of the originator by at most `behind`, where links may or may
   not be one-way, and may or may not differ between channels.
   */
  ghost predicate AlwaysFound(destOnly: bool, lead: nat, oneWay: bool, unlike: bool, behind: nat) {
    forall topo: Topology, c: Costs, ss: seq<Net>, es: seq<Event>, k: nat ::
      Allowed(topo, c, ss, es, destOnly, lead, oneWay, unlike, behind) && 1 <= k < |ss| && ss[k].air == []
      ==> Succeeds(topo, ss, es, k)
  }

  /** A run put together from deliveries is a search for finding, if it starts well. */
  lemma ScheduleFinds(topo: Topology, c: Costs, ss: seq<Net>, es: seq<Event>, lead: int, behind: nat)
    requires Schedule(topo, c, ss, es) && NonNegativeCosts(c) && Sensible(topo, ss[0].nodes.Keys)
             && Ready(ss[0], es[0].n, behind)
    requires Crossable(ss[0], es[0]) && es[0].dest in ss[0].nodes && Good(topo, ss[0])
    requires Stored(ss[0].nodes[es[0].n], Searched(ss[0], es[0])) <= Sought(ss[0].nodes[es[0].n], es[0])
    requires forall n <- ss[0].nodes {:trigger ss[0].nodes[n]} ::
               NotAhead(ss[0].nodes[n], Searched(ss[0], es[0]), ss[0].nodes[es[0].dest].seqno + lead)
    ensures FindingRun(topo, c, ss, es, lead, behind)
  {
    hide Ready, Good, Sensible, LowNet, InRange, NotAhead, Searched;
    ScheduleSearches(topo, c, ss, es, behind);
    forall i | 0 <= i < |es| ensures InRange(ss[i]) {
      assert LowNet(ss[i]);
      LowInRange(ss[i]);
    }
  }

  // ---------- a number that is behind ----------

  /** A route to node 1 that is to be repaired. */
  const BROKEN: Route := Route(2, false, 1.0, 1, 1, 0, Flags(false, true))

  /** Only a repair that is repeated asks for the destination alone; any other search may be a discovery. */
  function Seek(destOnly: bool): Event {
    if destOnly then Rediscovery(0, 1, 2, 32, true) else Discovery(0, 1, false)
  }

  function Seeker(nd: Node, destOnly: bool): Node {
    if destOnly then nd.(table := map[1 := BROKEN]) else nd
  }

  lemma BehindIsReady(destOnly: bool, lead: nat, behind: nat)
    requires behind >= 1
    ensures var s := PairOf(Seeker(TWICE, destOnly), HEARD);
            && Sensible(PAIR, s.nodes.Keys) && Ready(s, 0, behind) && |s.nodes| == 2 && Good(PAIR, s)
            && LowNode(Seeker(TWICE, destOnly))
            && (forall n <- s.nodes {:trigger s.nodes[n]} ::
                  NotAhead(s.nodes[n], Searched(s, Seek(destOnly)), s.nodes[1].seqno + lead))
            && Stored(s.nodes[0], Searched(s, Seek(destOnly))) <= Sought(s.nodes[0], Seek(destOnly)) <= 2
  {
    hide Neighbours, Good, Ready;
    PairIsReady(Seeker(TWICE, destOnly), HEARD, behind);
    BehindIsGood(destOnly);
  }

  lemma BehindIsGood(destOnly: bool)
    ensures Good(PAIR, PairOf(Seeker(TWICE, destOnly), HEARD))
  {
    PairIsSound();
    hide Neighbours;
    assert PairOf(Seeker(TWICE, destOnly), HEARD).nodes.Keys == {0, 1};
  }

  /** The destination itself refuses the request. */
  lemma BehindFails(destOnly: bool, lead: nat, oneWay: bool, unlike: bool, behind: nat)
    requires behind >= 1
    ensures !AlwaysFound(destOnly, lead, oneWay, unlike, behind)
  {
    hide FindingRun, Ready, Good, Sensible, Schedule, TwoWay, Alike, NotAhead;
    var s := PairOf(Seeker(TWICE, destOnly), HEARD);
    BehindIsReady(destOnly, lead, behind);
    var ss, es := RefusedRun(Seeker(TWICE, destOnly), HEARD, Seek(destOnly));
    ScheduleFinds(PAIR, Unit(), ss, es, lead, behind);
    PairIsSound();
    assert Allowed(PAIR, Unit(), ss, es, destOnly, lead, oneWay, unlike, behind);
    PairNeighbours(0, 0, 1);
    assert Flooding(PAIR, 1, At(0));
    assert Reaches(PAIR, Searched(ss[0], es[0]), Go(At(0), 1, 0), 1);
    assert !Succeeds(PAIR, ss, es, |es|);
  }

  // ---------- one link without its reverse ----------

  const ONE_WAY: Topology := map[(0, 0) := [1], (0, 1) := [1], (0, 2) := [1]]

  /** The node that asks: at power-up, or once it has made the request of a repair. */
  function Asker(destOnly: bool): Node {
    Seeker(if destOnly then FRESH_NODE.(seqno := 2, rreqId := 1) else FRESH_NODE, destOnly)
  }

  function Question(destOnly: bool): Message {
    if destOnly then Rreq(1, 1, 2, 0, 3, 0, 0.0, true) else Rreq(0, 1, 0, 0, 2, 0, 0.0, false)
  }

  function Reply(destOnly: bool): Message {
    Rrep(1, if destOnly then 2 else 1, 0, 0, 0.0)
  }

  function Asked(destOnly: bool): Node {
    var m := Question(destOnly);
    FRESH_NODE.(seqno := Reply(destOnly).destSeqno, records := map[(0, m.id) := 1.0],
                table := map[0 := Route(m.origSeqno, true, 1.0, 1, 0, 0, Flags(false, false))])
  }

  lemma OneWayNeighbours(n: Addr, ch: int, v: Addr)
    ensures v in Neighbours(ONE_WAY, n, ch) <==> n == 0 && 0 <= ch < 3 && v == 1
  {
  }

  lemma OneWayStarts(destOnly: bool)
    ensures var s, e := PairOf(Asker(destOnly), FRESH_NODE), Seek(destOnly);
            && Enabled(s, e) && LowNet(s) && LowNet(Apply(ONE_WAY, s, e))
            && Apply(ONE_WAY, s, e).nodes == PairOf(Launch(Asker(destOnly), e).node, FRESH_NODE).nodes
            && Packet(0, 1, 0, 32, Question(destOnly)) in Apply(ONE_WAY, s, e).air
            && forall q <- Apply(ONE_WAY, s, e).air ::
                 q.src == 0 && q.dst == 1 && q.msg.Rreq? && q.msg.orig == 0 && q.msg.cost == 0.0
                 && q.msg.origSeqno == Question(destOnly).origSeqno
  {
    var s, e := PairOf(Asker(destOnly), FRESH_NODE), Seek(destOnly);
    hide Apply, Neighbours;
    LowLaunch(ONE_WAY, s, e, Launch(Asker(destOnly), e).node, Question(destOnly));
    OneWayNeighbours(0, 0, 1);
    assert Spread(ONE_WAY, 0, 32, Packet(0, 1, 0, 32, Question(destOnly)));
    forall q | q in Apply(ONE_WAY, s, e).air ensures q.dst == 1 {
      OneWayNeighbours(0, q.channel, q.dst);
    }
  }

  lemma OneWayReception(destOnly: bool)
    ensures Receive(FRESH_NODE, Packet(0, 1, 0, 32, Question(destOnly)), 1.0)
             == Reaction(Asked(destOnly), [Unicast(0, 0, MAXTTL, Reply(destOnly))])
  {
  }

  /** The destination has been asked, and its answer is lost. */
  lemma OneWayRun(destOnly: bool) returns (ss: seq<Net>, es: seq<Event>)
    ensures Schedule(ONE_WAY, Unit(), ss, es)
    ensures ss[0] == PairOf(Asker(destOnly), FRESH_NODE) && es[0] == Seek(destOnly)
    ensures 1 <= |es| < |ss| && ss[|es|].air == [] && ss[|es|].nodes.Keys == {0, 1}
             && ss[|es|].nodes[0].table == Asker(destOnly).table
  {
    hide Receive, Apply, Schedule, Launch;
    OneWayStarts(destOnly);
    LaunchFloods(Asker(destOnly), Seek(destOnly));
    ss, es := Begin(ONE_WAY, Unit(), PairOf(Asker(destOnly), FRESH_NODE), Seek(destOnly));
    OneWayReception(destOnly);
    OneWayNeighbours(1, 0, 0);
    ss, es := SendBack(ONE_WAY, Unit(), ss, es, Packet(0, 1, 0, 32, Question(destOnly)), Asked(destOnly), 0, 0, MAXTTL,
        Reply(destOnly));
    var ss', es' := Drain(ONE_WAY, Unit(), ss, es);
    LengthOfSchedule(ONE_WAY, Unit(), ss', es');
    NothingLeft(ss'[|es'|].air);
    ss, es := ss', es';
  }

  lemma OneWayIsReady(destOnly: bool, lead: nat, behind: nat)
    ensures var s := PairOf(Asker(destOnly), FRESH_NODE);
            && Sensible(ONE_WAY, s.nodes.Keys) && Ready(s, 0, behind) && Good(ONE_WAY, s) && |s.nodes| == 2
            && (forall n <- s.nodes {:trigger s.nodes[n]} ::
                  NotAhead(s.nodes[n], Searched(s, Seek(destOnly)), s.nodes[1].seqno + lead))
            && Stored(s.nodes[0], Searched(s, Seek(destOnly))) <= Sought(s.nodes[0], Seek(destOnly))
  {
    var s := PairOf(Asker(destOnly), FRESH_NODE);
    assert s.nodes.Keys == {0, 1} && |s.nodes| == |s.nodes.Keys|;
    forall n: Addr, ch: int, v: Addr | v in Neighbours(ONE_WAY, n, ch) ensures v in s.nodes.Keys && v != n {
      OneWayNeighbours(n, ch, v);
    }
    hide Neighbours;
  }

  lemma OneWayIsAlike()
    ensures Alike(ONE_WAY)
  {
    forall u: Addr, v: Addr, ch: int, ch': int | Link(ONE_WAY, u, v, ch) && Channel(ch')
      ensures Link(ONE_WAY, u, v, ch') {
      OneWayNeighbours(u, ch, v);
      OneWayNeighbours(u, ch', v);
    }
  }

  lemma OneWayFails(destOnly: bool, lead: nat, unlike: bool, behind: nat)
    ensures !AlwaysFound(destOnly, lead, true, unlike, behind)
  {
    hide FindingRun, Ready, Good, Sensible, Schedule, NotAhead, Alike;
    var ss, es := OneWayRun(destOnly);
    OneWayIsReady(destOnly, lead, behind);
    ScheduleFinds(ONE_WAY, Unit(), ss, es, lead, behind);
    OneWayIsAlike();
    assert Allowed(ONE_WAY, Unit(), ss, es, destOnly, lead, true, unlike, behind);
    OneWayNeighbours(0, 0, 1);
    assert Flooding(ONE_WAY, 1, At(0));
    assert Reaches(ONE_WAY, Searched(ss[0], es[0]), Go(At(0), 1, 0), 1);
    assert !Succeeds(ONE_WAY, ss, es, |es|);
  }

  // ---------- links on different channels ----------

  /** Node 1 hears node 0 on channel zero only, and node 2 on channel one only. */
  const UNLIKE: Topology := map[(0, 0) := [1], (1, 0) := [0], (1, 1) := [2], (2, 1) := [1]]

  function Ahead(): Route {
    Route(1, true, 1.0, 1, 2, 1, Flags(false, false))
  }

  /** Node 1 after a discovery of its own. */
  const SEEKS: Node := FRESH_NODE.(seqno := 2, rreqId := 3)
  const KNOWS: Node := SEEKS.(table := map[2 := Ahead()])

  const KNOWS_BOTH: Node := KNOWS.(
    table := map[2 := Ahead(), 0 := Route(2, true, 1.0, 1, 0, 0, Flags(false, false))], records := map[(0, 0) := 1.0])

  /** Node 2 has answered node 1. */
  const FOUND: Node := FRESH_NODE.(
    table := map[1 := Route(2, true, 1.0, 1, 1, 1, Flags(false, false))], records := map[(1, 0) := 1.0])

  function Between(): Net {
    Net(map[0 := FRESH_NODE, 1 := KNOWS, 2 := FOUND], [])
  }

  const ASK: Event := Discovery(0, 2, false)

  lemma UnlikeNeighbours(n: Addr, ch: int, v: Addr)
    ensures v in Neighbours(UNLIKE, n, ch) <==>
              (n == 0 && ch == 0 && v == 1) || (n == 1 && ch == 0 && v == 0) || (n == 1 && ch == 1 && v == 2)
                  || (n == 2 && ch == 1 && v == 1)
  {
  }

  lemma UnlikeIsSound()
    ensures TwoWay(UNLIKE)
    ensures forall n: Addr, ch: int, v: Addr :: v in Neighbours(UNLIKE, n, ch) ==> v <= 2 && v != n
  {
    forall u: Addr, v: Addr, ch: int | Link(UNLIKE, u, v, ch) ensures Link(UNLIKE, v, u, ch) {
      UnlikeNeighbours(u, ch, v);
      UnlikeNeighbours(v, ch, u);
    }
    forall n: Addr, ch: int, v: Addr | v in Neighbours(UNLIKE, n, ch) ensures v <= 2 && v != n {
      UnlikeNeighbours(n, ch, v);
    }
  }

  lemma UnlikeStarts()
    ensures var s := Between();
            && Enabled(s, ASK) && LowNet(s) && LowNet(Apply(UNLIKE, s, ASK))
            && Apply(UNLIKE, s, ASK).nodes == map[0 := FRESH_NODE.(seqno := 2, rreqId := 3), 1 := KNOWS, 2 := FOUND]
            && Packet(0, 1, 0, 32, Rreq(0, 2, 0, 0, 2, 0, 0.0, false)) in Apply(UNLIKE, s, ASK).air
            && forall q <- Apply(UNLIKE, s, ASK).air ::
                 q.src == 0 && q.dst == 1 && q.msg.Rreq? && q.msg.orig == 0 && q.msg.origSeqno == 2 && q.msg.cost == 0.0
  {
    var s := Between();
    hide Apply, Neighbours;
    LowLaunch(UNLIKE, s, ASK, FRESH_NODE.(seqno := 2, rreqId := 3), Rreq(0, 2, 0, 0, 2, 0, 0.0, false));
    UnlikeNeighbours(0, 0, 1);
    assert Spread(UNLIKE, 0, 32, Packet(0, 1, 0, 32, Rreq(0, 2, 0, 0, 2, 0, 0.0, false)));
    forall q | q in Apply(UNLIKE, s, ASK).air ensures q.dst == 1 {
      UnlikeNeighbours(0, q.channel, q.dst);
    }
  }

  /** The answer goes out on the channel towards the destination, where the asking node does not listen. */
  lemma UnlikeReception()
    ensures Receive(KNOWS, Packet(0, 1, 0, 32, Rreq(0, 2, 0, 0, 2, 0, 0.0, false)), 1.0)
         == Reaction(KNOWS_BOTH, [Unicast(0, 1, MAXTTL, Rrep(2, 1, 0, 1, 1.0))])
  {
    var p := Packet(0, 1, 0, 32, Rreq(0, 2, 0, 0, 2, 0, 0.0, false));
    assert Adopt(KNOWS.table, p, 1.0) == KNOWS_BOTH.table;
    assert Receive(KNOWS, p, 1.0) == AnswerOrForward(1, KNOWS_BOTH, p, 1.0);
  }

  lemma UnlikeRun() returns (ss: seq<Net>, es: seq<Event>)
    ensures Schedule(UNLIKE, Unit(), ss, es) && ss[0] == Between() && es[0] == ASK
    ensures 1 <= |es| < |ss| && ss[|es|].air == [] && ss[|es|].nodes.Keys == {0, 1, 2}
             && ss[|es|].nodes[0].table == map[]
  {
    hide Receive, Apply, Schedule;
    UnlikeStarts();
    ss, es := Begin(UNLIKE, Unit(), Between(), ASK);
    UnlikeReception();
    UnlikeNeighbours(1, 1, 0);
    ss, es := SendBack(UNLIKE, Unit(), ss, es, Packet(0, 1, 0, 32, Rreq(0, 2, 0, 0, 2, 0, 0.0, false)), KNOWS_BOTH, 0,
        1, MAXTTL, Rrep(2, 1, 0, 1, 1.0));
    var ss', es' := Drain(UNLIKE, Unit(), ss, es);
    LengthOfSchedule(UNLIKE, Unit(), ss', es');
    NothingLeft(ss'[|es'|].air);
    ss, es := ss', es';
  }

  lemma BetweenIsGood()
    ensures Good(UNLIKE, Between())
  {
    UnlikeIsSound();
    hide Neighbours;
    assert Between().nodes.Keys == {0, 1, 2};
  }

  lemma BetweenIsUnaware()
    ensures Ready(Between(), 0, 0)
  {
  }

  lemma UnlikeIsReady(behind: nat)
    ensures Sensible(UNLIKE, Between().nodes.Keys) && Ready(Between(), 0, behind) && Good(UNLIKE, Between())
             && |Between().nodes| == 3
  {
    hide Neighbours, Good, Ready;
    UnlikeIsSound();
    BetweenIsGood();
    BetweenIsUnaware();
    ReadyWithin(Between(), 0, behind);
    assert Between().nodes.Keys == {0, 1, 2} && |Between().nodes| == |Between().nodes.Keys|;
  }

  const MIDDLE_SEEKS: Event := Discovery(1, 2, false)
  const MIDDLE_ASKS: Message := Rreq(0, 2, 0, 1, 2, 0, 0.0, false)

  lemma FoundReception()
    ensures Receive(FRESH_NODE, Packet(1, 2, 1, 32, MIDDLE_ASKS), 1.0)
         == Reaction(FOUND, [Unicast(1, 1, MAXTTL, Rrep(2, 1, 1, 0, 0.0))])
    ensures Receive(SEEKS, Packet(2, 1, 1, MAXTTL, Rrep(2, 1, 1, 0, 0.0)), 1.0) == Reaction(KNOWS, [])
  {
  }

  /** From power-up: node 1 seeks node 2, which has answered. */
  lemma SearchAnswered() returns (ss: seq<Net>, es: seq<Event>)
    ensures LowRun(UNLIKE, ss, es) && |ss| == |es| + 1 && ss[0] == ThreeNodes()
    ensures ss[|es|].nodes == map[0 := FRESH_NODE, 1 := SEEKS, 2 := FOUND]
    ensures Packet(2, 1, 1, MAXTTL, Rrep(2, 1, 1, 0, 0.0)) in ss[|es|].air
  {
    hide Apply, LowRun, Receive, Neighbours;
    var p, q := Packet(1, 2, 1, 32, MIDDLE_ASKS), Packet(2, 1, 1, MAXTTL, Rrep(2, 1, 1, 0, 0.0));
    ss, es := LowStart(UNLIKE, ThreeNodes());
    LowLaunch(UNLIKE, ThreeNodes(), MIDDLE_SEEKS, SEEKS, MIDDLE_ASKS);
    ss, es := LowRunGrows(UNLIKE, ss, es, MIDDLE_SEEKS);
    UnlikeNeighbours(1, 1, 2);
    assert Spread(UNLIKE, 1, 32, p);
    FoundReception();
    UnlikeNeighbours(2, 1, 1);
    assert Carries(UNLIKE, 2, Unicast(1, 1, MAXTTL, q.msg), q);
    ss, es := LowDelivery(UNLIKE, ss, es, p, 1.0);
  }

  /** The middle node takes the answer, and node 0 has heard nothing of it. */
  lemma SearchLeads() returns (ss: seq<Net>, es: seq<Event>)
    ensures Proper(UNLIKE, ss, es) && ss[|es|] == Between()
  {
    hide Apply, LowRun, Receive, Neighbours, Good, Ready, Sensible;
    ss, es := SearchAnswered();
    FoundReception();
    ss, es := LowDelivery(UNLIKE, ss, es, Packet(2, 1, 1, MAXTTL, Rrep(2, 1, 1, 0, 0.0)), 1.0);
    ss, es := LoseAll(UNLIKE, ss, es);
    UnlikeIsReady(0);
    assert ThreeNodes().nodes.Keys == Between().nodes.Keys;
    LowRunIsProper(UNLIKE, ss, es);
  }

  lemma UnlikeFails(lead: nat, oneWay: bool, behind: nat)
    ensures !AlwaysFound(false, lead, oneWay, true, behind)
  {
    hide FindingRun, Ready, Good, Sensible, Schedule, TwoWay;
    var ss, es := UnlikeRun();
    UnlikeIsReady(behind);
    UnlikeIsSound();
    ScheduleFinds(UNLIKE, Unit(), ss, es, lead, behind);
    assert Allowed(UNLIKE, Unit(), ss, es, false, lead, oneWay, true, behind);
    UnlikeNeighbours(0, 0, 1);
    UnlikeNeighbours(1, 1, 2);
    assert Flooding(UNLIKE, 2, At(0)) && Flooding(UNLIKE, 2, Go(At(0), 1, 0));
    assert Reaches(UNLIKE, Searched(ss[0], es[0]), Go(Go(At(0), 1, 0), 2, 1), 2);
    assert !Succeeds(UNLIKE, ss, es, |es|);
  }

  // ---------- a number ahead of its owner ----------

  /** Three nodes in a line on every channel. */
  const LINE: Topology :=
    map[(0, 0) := [1], (0, 1) := [1], (0, 2) := [1], (2, 0) := [1], (2, 1) := [1], (2, 2) := [1],
        (1, 0) := [0, 2], (1, 1) := [0, 2], (1, 2) := [0, 2]]

  lemma LineNeighbours(n: Addr, ch: int, v: Addr)
    ensures v in Neighbours(LINE, n, ch) <==>
              0 <= ch < 3 && ((n == 1 && (v == 0 || v == 2)) || ((n == 0 || n == 2) && v == 1))
  {
  }

  lemma LineIsSound()
    ensures TwoWay(LINE) && Alike(LINE)
    ensures forall n: Addr, ch: int, v: Addr :: v in Neighbours(LINE, n, ch) ==> v <= 2 && v != n
  {
    forall u: Addr, v: Addr, ch: int | Link(LINE, u, v, ch) ensures Link(LINE, v, u, ch) {
      LineNeighbours(u, ch, v);
      LineNeighbours(v, ch, u);
    }
    forall u: Addr, v: Addr, ch: int, ch': int | Link(LINE, u, v, ch) && Channel(ch') ensures Link(LINE, u, v, ch') {
      LineNeighbours(u, ch, v);
      LineNeighbours(u, ch', v);
    }
    forall n: Addr, ch: int, v: Addr | v in Neighbours(LINE, n, ch) ensures v <= 2 && v != n {
      LineNeighbours(n, ch, v);
    }
  }

  function LeadState(): Net {
    Net(map[0 := TWICE, 1 := HEARD, 2 := FRESH_NODE], [])
  }

  /** From power-up: a discovery of node 0 that is lost, and the repetition that node 1 hears. */
  lemma ResendLeads() returns (ss: seq<Net>, es: seq<Event>)
    ensures Proper(LINE, ss, es) && ss[|es|] == LeadState()
    ensures NetSeqno(LeadState().nodes[1].table[0]) == LeadState().nodes[0].seqno + 1
  {
    hide LowRun;
    LineNeighbours(0, 0, 1);
    assert ThreeNodes().nodes.Keys == {0, 1, 2};
    ss, es := ResendHeard(LINE, ThreeNodes());
    assert ss[|es|] == LeadState();
    LineIsSound();
    LowRunIsProper(LINE, ss, es);
  }

  // ---------- the search for the node with the repeated request ----------

  /** The route of node 2 to node 0 is under repair, and the request made for that was not answered. */
  const REPAIRING: Node := FRESH_NODE.(
    seqno := 2, rreqId := 1, table := map[0 := Route(3, false, 2.0, 2, 1, 0, Flags(false, true))])

  /** Where the repair is repeated: node 1 has taken the repeated request of node 0. */
  function RepairState(): Net {
    Net(LeadState().nodes[2 := REPAIRING], [])
  }

  /** Only node 0 may answer. */
  const REPAIR: Event := Rediscovery(2, 0, 3, 32, true)

  function Sought0(hcnt: u8, cost: real): Message {
    Rreq(1, 0, 3, 2, 3, hcnt, cost, true)
  }

  function Upstream(nd: Node, cost: real, hops: u8, next: Addr): Node {
    nd.(table := nd.table[2 := Route(3, true, cost, hops, next, 0, Flags(false, false))], records :=
        nd.records[(2, 1) := cost])
  }

  const RELAY: Node := Upstream(HEARD, 1.0, 1, 2)
  const OWNER: Node := Upstream(TWICE.(seqno := 3), 2.0, 2, 1)

  lemma RepairStarts()
    ensures var s, s' := RepairState(), Apply(LINE, RepairState(), REPAIR);
            && Enabled(s, REPAIR) && LowNet(s) && LowNet(s')
            && s'.nodes == map[0 := TWICE, 1 := HEARD, 2 := REPAIRING.(rreqId := 4)]
            && Packet(2, 1, 0, 32, Sought0(0, 0.0)) in s'.air
            && forall q <- s'.air ::
                 q.src == 2 && q.dst == 1 && q.msg.Rreq? && q.msg.orig == 2 && q.msg.origSeqno == 3 && q.msg.cost == 0.0
  {
    var s := RepairState();
    hide Apply, Neighbours;
    LowLaunch(LINE, s, REPAIR, REPAIRING.(rreqId := 4), Sought0(0, 0.0));
    LineNeighbours(2, 0, 1);
    assert Spread(LINE, 2, 32, Packet(2, 1, 0, 32, Sought0(0, 0.0)));
    forall q | q in Apply(LINE, s, REPAIR).air ensures q.dst == 1 {
      LineNeighbours(2, q.channel, q.dst);
    }
  }

  /** The relay asks on for the number it holds. */
  lemma RelayTakes()
    ensures Receive(HEARD, Packet(2, 1, 0, 32, Sought0(0, 0.0)), 1.0)
             == Reaction(RELAY, OnEveryChannel(31, Sought0(1, 1.0)))
  {
    var p := Packet(2, 1, 0, 32, Sought0(0, 0.0));
    assert Adopt(HEARD.table, p, 1.0) == RELAY.table;
    assert Receive(HEARD, p, 1.0) == AnswerOrForward(1, RELAY, p, 1.0);
  }

  lemma OwnerAnswers()
    ensures Receive(TWICE, Packet(1, 0, 0, 31, Sought0(1, 1.0)), 1.0)
             == Reaction(OWNER, [Unicast(1, 0, MAXTTL, Rrep(0, 3, 2, 0, 0.0))])
  {
  }

  /** The packets of the repair once its owner has answered. */
  predicate Late(q: Packet) {
    || (q.src == 2 && q.dst == 1 && q.msg.Rreq? && q.msg.orig == 2 && q.msg.origSeqno == 3 && q.msg.cost == 0.0)
    || (q.src == 1 && (q.dst == 0 || q.dst == 2) && q.msg == Sought0(1, 1.0))
    || q == Packet(0, 1, 0, MAXTTL, Rrep(0, 3, 2, 0, 0.0))
  }

  /** The relay knows the number of the answer already, at no higher cost; all other copies are late. */
  lemma AllIsDead(s: Net, q: Packet)
    requires s.nodes == map[0 := OWNER, 1 := RELAY, 2 := REPAIRING.(rreqId := 4)]
    requires Late(q)
    ensures Dead(Unit(), s, q)
  {
  }

  lemma RepairRelayed() returns (ss: seq<Net>, es: seq<Event>)
    ensures Schedule(LINE, Unit(), ss, es) && |ss| == |es| + 1 && ss[0] == RepairState() && es[0] == REPAIR
    ensures ss[|es|].nodes == map[0 := TWICE, 1 := RELAY, 2 := REPAIRING.(rreqId := 4)]
    ensures Packet(1, 0, 0, 31, Sought0(1, 1.0)) in ss[|es|].air && forall q <- ss[|es|].air :: Late(q)
  {
    hide Receive, Apply, Schedule, Neighbours;
    RepairStarts();
    ss, es := Begin(LINE, Unit(), RepairState(), REPAIR);
    RelayTakes();
    LineNeighbours(1, 0, 0);
    ss, es := SendOn(LINE, Unit(), ss, es, Packet(2, 1, 0, 32, Sought0(0, 0.0)), RELAY, 31, Sought0(1, 1.0));
    assert Spread(LINE, 1, 31, Packet(1, 0, 0, 31, Sought0(1, 1.0)));
    forall q | q in ss[|es|].air ensures Late(q) {
      LineNeighbours(1, q.channel, q.dst);
    }
  }

  lemma RepairAnswered() returns (ss: seq<Net>, es: seq<Event>)
    ensures Schedule(LINE, Unit(), ss, es) && |ss| == |es| + 1 && ss[0] == RepairState() && es[0] == REPAIR
    ensures ss[|es|].nodes == map[0 := OWNER, 1 := RELAY, 2 := REPAIRING.(rreqId := 4)]
    ensures forall q <- ss[|es|].air :: Late(q)
  {
    hide Receive, Schedule, Neighbours;
    ss, es := RepairRelayed();
    OwnerAnswers();
    ss, es := SendBack(LINE, Unit(), ss, es, Packet(1, 0, 0, 31, Sought0(1, 1.0)), OWNER, 1, 0, MAXTTL,
        Rrep(0, 3, 2, 0, 0.0));
  }

  lemma RepairRun() returns (ss: seq<Net>, es: seq<Event>)
    ensures Schedule(LINE, Unit(), ss, es) && ss[0] == RepairState() && es[0] == REPAIR
    ensures 1 <= |es| < |ss| && ss[|es|].air == [] && ss[|es|].nodes.Keys == {0, 1, 2}
             && ss[|es|].nodes[2].table == REPAIRING.table
  {
    hide Schedule, Dead, Late;
    var ss0, es0 := RepairAnswered();
    forall q | q in ss0[|es0|].air ensures Dead(Unit(), ss0[|es0|], q) {
      AllIsDead(ss0[|es0|], q);
    }
    ss, es := Drain(LINE, Unit(), ss0, es0);
    LengthOfSchedule(LINE, Unit(), ss, es);
    NothingLeft(ss[|es|].air);
  }

  lemma RepairStateIsGood()
    ensures Good(LINE, RepairState())
  {
    LineIsSound();
    hide Neighbours;
    assert RepairState().nodes.Keys == {0, 1, 2};
  }

  lemma RepairStateIsUnaware()
    ensures Ready(RepairState(), 2, 0)
  {
  }

  lemma RepairIsReady(lead: nat, behind: nat)
    requires lead >= 1
    ensures var s := RepairState();
            && Sensible(LINE, s.nodes.Keys) && Ready(s, 2, behind) && Good(LINE, s) && |s.nodes| == 3
            && (forall n <- s.nodes {:trigger s.nodes[n]} ::
                  NotAhead(s.nodes[n], Searched(s, REPAIR), s.nodes[0].seqno + lead))
  {
    hide Neighbours, Good, Ready;
    LineIsSound();
    RepairStateIsGood();
    RepairStateIsUnaware();
    ReadyWithin(RepairState(), 2, behind);
    assert RepairState().nodes.Keys == {0, 1, 2} && |RepairState().nodes| == |RepairState().nodes.Keys|;
  }

  lemma RepairWalk()
    ensures var f := Searched(RepairState(), REPAIR);
            f.orig == 2 && f.dest == 0 && Reaches(LINE, f, Go(Go(At(2), 1, 0), 0, 0), 0)
  {
    LineNeighbours(2, 0, 1);
    LineNeighbours(1, 0, 0);
    hide Neighbours;
    assert Flooding(LINE, 0, At(2)) && Flooding(LINE, 0, Go(At(2), 1, 0));
  }

  lemma RepairFails(lead: nat, oneWay: bool, unlike: bool, behind: nat)
    requires lead >= 1
    ensures !AlwaysFound(true, lead, oneWay, unlike, behind)
  {
    hide FindingRun, Ready, Good, Sensible, Schedule, TwoWay, Alike, NotAhead;
    var ss, es := RepairRun();
    RepairIsReady(lead, behind);
    LineIsSound();
    ScheduleFinds(LINE, Unit(), ss, es, lead, behind);
    assert Allowed(LINE, Unit(), ss, es, true, lead, oneWay, unlike, behind);
    hide Allowed, Searched, Reaches, Neighbours;
    RepairWalk();
    assert !Succeeds(LINE, ss, es, |es|);
  }

  // ---------- the exact condition ----------

  lemma SearchesSucceed(topo: Topology, c: Costs, ss: seq<Net>, es: seq<Event>, k: nat, destOnly: bool, lead: nat)
    requires Allowed(topo, c, ss, es, destOnly, lead, false, destOnly, 0) && (destOnly ==> lead == 0)
    requires 1 <= k < |ss| && ss[k].air == []
    ensures Succeeds(topo, ss, es, k)
  {
    hide Good, InRange, Ready, Sensible, TwoWay, Alike;
    var f := Searched(ss[0], es[0]);
    if w :| Reaches(topo, f, w, f.dest) {
      if destOnly {
        DestOnlyIsDirect(topo, c, ss, es, 0);
      }
      assert Mode(topo, c, ss, es, destOnly, lead);
      TwoWayIsHeard(topo, c, ss, es, k, destOnly, lead);
      SearchSucceeds(topo, c, ss, es, k, destOnly, lead, w);
    }
  }

  /**
   Searches are sure to find their destination exactly if nobody has the number of their requests
   before, links are two-way and, for those only the destination may answer, nobody is ahead of it,
   for the others, links are alike on every channel.
   */
  lemma FindsExactly(destOnly: bool, lead: nat, oneWay: bool, unlike: bool, behind: nat)
    ensures AlwaysFound(destOnly, lead, oneWay, unlike, behind) <==>
              behind == 0 && !oneWay && (if destOnly then lead == 0 else !unlike)
  {
    hide Succeeds, Good, InRange, Ready, Sensible, NotAhead, TwoWay, Alike, Faithful, Crossable;
    if behind >= 1 {
      BehindFails(destOnly, lead, oneWay, unlike, behind);
    } else if oneWay {
      OneWayFails(destOnly, lead, unlike, behind);
    } else if destOnly && lead >= 1 {
      RepairFails(lead, oneWay, unlike, behind);
    } else if !destOnly && unlike {
      UnlikeFails(lead, oneWay, behind);
    } else {
      forall topo: Topology, c: Costs, ss: seq<Net>, es: seq<Event>, k: nat |
        Allowed(topo, c, ss, es, destOnly, lead, oneWay, unlike, behind) && 1 <= k < |ss| && ss[k].air == []
        ensures Succeeds(topo, ss, es, k)
      {
        AllowedMore(topo, c, ss, es, destOnly, lead, oneWay, unlike);
        SearchesSucceed(topo, c, ss, es, k, destOnly, lead);
      }
    }
  }

  lemma AllowedMore(topo: Topology, c: Costs, ss: seq<Net>, es: seq<Event>, destOnly: bool, lead: nat, oneWay: bool,
                    unlike: bool)
    requires Allowed(topo, c, ss, es, destOnly, lead, oneWay, unlike, 0) && !oneWay && (destOnly || !unlike)
    ensures Allowed(topo, c, ss, es, destOnly, lead, false, destOnly, 0)
  {
  }
}
