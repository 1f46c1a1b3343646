/**
 Sequence numbers over whole runs: whoever answers a flood answers with a number at least as high
 as the flood asked for, no node's own number ever falls, and no route or message about a node
 is ahead of that node's own number by more than one.
 */
module Freshness {
  import opened SequenceNumbers
  import opened Aodv
  import opened Network
  import opened LoopFreedom
  import opened RecordFilter

  // ---------- one answer ----------

  /** The number a destination answers with. */
  lemma AnswerIsNewest(own: u32, wanted: u32)
    requires own < HALF - 1 && wanted < HALF
    ensures var answer := AnswerSeqno(own, wanted);
            && own <= answer && wanted <= answer
            && (answer == own || answer == wanted || (own == wanted && answer == own + 1))
            && (own == wanted != 0 ==> answer > wanted)
  {
  }

  /** A message sent in answer to request `m` is about the same pair of nodes and no less fresh. */
  predicate AsFresh(m: Message, send: Send)
    requires m.Rreq?
  {
    && send.msg.dest == m.dest && send.msg.orig == m.orig
    && Int32(send.msg.destSeqno) >= Int32(m.destSeqno)
    && (send.msg.Rreq? ==> send.msg.id == m.id && send.msg.origSeqno == m.origSeqno && send.msg.destOnly == m.destOnly)
  }

  lemma AnswersAreFresh(self: Addr, nd: Node, p: Packet, cost: real, send: Send)
    requires p.msg.Rreq? && nd.seqno < HALF - 1 && p.msg.destSeqno < HALF
    requires send in AnswerOrForward(self, nd, p, cost).sends
    ensures AsFresh(p.msg, send)
  {
    if p.msg.dest == self {
      AnswerIsNewest(nd.seqno, p.msg.destSeqno);
    }
  }

  /** Whatever a request makes a node send. */
  lemma RequestsAreAnsweredFresh(nd: Node, p: Packet, link: real, send: Send)
    requires p.msg.Rreq? && nd.seqno < HALF - 1 && p.msg.destSeqno < HALF
    requires send in Receive(nd, p, link).sends
    ensures AsFresh(p.msg, send)
    ensures send.msg.Rrep? ==> send.Unicast? && send.to == p.src && (p.dst != p.msg.dest ==> !p.msg.destOnly)
  {
    var m, cost := p.msg, p.msg.cost + link;
    var nd1 := nd.(records := Remember(nd.records, (m.orig, m.id), cost), table := Adopt(nd.table, p, link));
    assert send in AnswerOrForward(p.dst, nd1, p, cost).sends;
    AnswersAreFresh(p.dst, nd1, p, cost, send);
  }

  // ---------- what the floods of a run asked for ----------

  /** The node sought, and the number an answer must reach. */
  datatype Question = Question(dest: Addr, number: u32)

  type Asked = map<Key, Question>

  function QuestionOf(s: Net, e: Event): Question
    requires Enabled(s, e) && (e.Discovery? || e.Rediscovery?)
  {
    if e.Rediscovery? then Question(e.dest, e.destSeqno)
    else Question(e.dest, if e.dest in s.nodes[e.n].table then s.nodes[e.n].table[e.dest].seqno else 0)
  }

  ghost function Ask(s: Net, e: Event, asked: Asked): Asked
    requires Enabled(s, e)
  {
    if e.Discovery? || e.Rediscovery? then
      var id := s.nodes[e.n].rreqId;
      asked[(e.n, id) := QuestionOf(s, e)]
           [(e.n, PlusOne(id)) := QuestionOf(s, e)]
           [(e.n, PlusOne(PlusOne(id))) := QuestionOf(s, e)]
    else asked
  }

  /** What each request numbered by the first `k` events asks for. */
  ghost function AskedBy(ss: seq<Net>, es: seq<Event>, k: nat): Asked
    requires k <= |es| && k <= |ss|
  {
    if k == 0 then map[]
    else if Enabled(ss[k - 1], es[k - 1]) then Ask(ss[k - 1], es[k - 1], AskedBy(ss, es, k - 1))
    else AskedBy(ss, es, k - 1)
  }

  lemma {:induction false} AskedKeys(ss: seq<Net>, es: seq<Event>, k: nat)
    requires k <= |es| && k <= |ss|
    ensures AskedBy(ss, es, k).Keys == IssuedBy(ss, es, k).Keys
  {
    if k > 0 {
      AskedKeys(ss, es, k - 1);
    }
  }

  /** A request seeks the node its flood sought, and asks for no older route than its flood did. */
  ghost predicate AsksOn(p: Packet, asked: Asked) {
    p.msg.Rreq? ==>
      var key := (p.msg.orig, p.msg.id);
      key in asked && asked[key].dest == p.msg.dest && asked[key].number <= p.msg.destSeqno
  }

  lemma FloodAsks(topo: Topology, s: Net, e: Event, asked: Asked, p: Packet)
    requires (e.Discovery? || e.Rediscovery?) && Enabled(s, e) && s.nodes[e.n].rreqId < RANGE - 3
    requires p in Apply(topo, s, e).air && (p in s.air ==> AsksOn(p, asked))
    requires forall key <- asked :: key.0 == e.n ==> key.1 < s.nodes[e.n].rreqId
    ensures AsksOn(p, Ask(s, e, asked))
  {
    if p !in s.air {
      var nd := s.nodes[e.n];
      var r := if e.Discovery? then Discover(e.n, nd, e.dest, e.destOnly)
               else Rediscover(e.n, nd, e.dest, e.destSeqno, e.ttl, e.destOnly);
      NewPackets(topo, s, e.n, r, s.air, p);
    }
  }

  lemma DeliveryAsks(topo: Topology, s: Net, e: Event, asked: Asked, p: Packet)
    requires e.Deliver? && Enabled(s, e) && InRange(s)
    requires forall q <- s.air :: AsksOn(q, asked)
    requires p in Apply(topo, s, e).air && p !in s.air
    ensures AsksOn(p, asked)
  {
    var q := s.air[e.i];
    var nd := s.nodes[q.dst];
    NewPackets(topo, s, q.dst, Receive(nd, q, e.link), Without(s.air, e.i), p);
    if p.msg.Rreq? {
      assert SmallMessage(q.msg) && AsksOn(q, asked);
      var send :| send in Receive(nd, q, e.link).sends && Carries(topo, q.dst, send, p);
      hide Receive;
      ForwardKeepsIdentity(nd, q, e.link, send);
      RequestsAreAnsweredFresh(nd, q, e.link, send);
    }
  }

  lemma StepAsks(topo: Topology, s: Net, e: Event, asked: Asked)
    requires Enabled(s, e) && InRange(s) && forall p <- s.air :: AsksOn(p, asked)
    requires forall key <- asked :: key.0 in s.nodes ==> key.1 < s.nodes[key.0].rreqId
    ensures forall p <- Apply(topo, s, e).air :: AsksOn(p, Ask(s, e, asked))
  {
    hide AsksOn;
    forall p | p in Apply(topo, s, e).air ensures AsksOn(p, Ask(s, e, asked)) {
      if e.Discovery? || e.Rediscovery? {
        FloodAsks(topo, s, e, asked, p);
      } else if e.Deliver? && p !in s.air {
        DeliveryAsks(topo, s, e, asked, p);
      }
    }
  }

  /** All identifiers given out lie below the next ones. */
  lemma IdentifiersBelow(topo: Topology, ss: seq<Net>, es: seq<Event>, k: nat)
    requires Proper(topo, ss, es) && k < |ss|
    ensures forall key <- AskedBy(ss, es, k) :: key.0 in ss[k].nodes ==> key.1 < ss[k].nodes[key.0].rreqId
  {
    hide AskedBy, IssuedBy;
    RunKeepsRecords(topo, ss, es, k);
    AskedKeys(ss, es, k);
  }

  /** In every state of every run, each request in the air asks for at least what its flood asked for. */
  lemma {:induction false} RunAsks(topo: Topology, ss: seq<Net>, es: seq<Event>, k: nat)
    requires Proper(topo, ss, es) && k < |ss|
    ensures forall p <- ss[k].air :: AsksOn(p, AskedBy(ss, es, k))
  {
    hide Apply, Enabled, InRange, AsksOn;
    if k > 0 {
      RunAsks(topo, ss, es, k - 1);
      ProperStep(topo, ss, es, k - 1);
      IdentifiersBelow(topo, ss, es, k - 1);
      StepAsks(topo, ss[k - 1], es[k - 1], AskedBy(ss, es, k - 1));
    }
  }

  /** Over all runs, no answer is older than what its flood asked for, nor about another node. */
  lemma NoStaleAnswer(topo: Topology, ss: seq<Net>, es: seq<Event>, k: nat, send: Send)
    requires Proper(topo, ss, es) && k < |es| && es[k].Deliver? && es[k].i < |ss[k].air|
    requires var q := ss[k].air[es[k].i]; q.msg.Rreq? && q.dst in ss[k].nodes
    requires send in Receive(ss[k].nodes[ss[k].air[es[k].i].dst], ss[k].air[es[k].i], es[k].link).sends
             && send.msg.Rrep?
    ensures var q := ss[k].air[es[k].i]; var key := (q.msg.orig, q.msg.id);
            && key in AskedBy(ss, es, k)
            && send.msg.orig == key.0 && send.msg.dest == AskedBy(ss, es, k)[key].dest
            && send.msg.destSeqno >= AskedBy(ss, es, k)[key].number
            && send.Unicast? && send.to == q.src && (q.dst != q.msg.dest ==> !q.msg.destOnly)
  {
    var q := ss[k].air[es[k].i];
    RunAsks(topo, ss, es, k);
    assert InRange(ss[k]) && SmallMessage(q.msg) && AsksOn(q, AskedBy(ss, es, k));
    RequestsAreAnsweredFresh(ss[k].nodes[q.dst], q, es[k].link, send);
  }

  // ---------- nobody is far ahead of the node itself ----------

  /** A number about `d` that `d` itself may have given out: at most one above its own. */
  predicate GivenOut(s: Net, d: Addr, number: int) {
    d in s.nodes && number <= s.nodes[d].seqno + 1
  }

  ghost predicate Attributed(s: Net) {
    && (forall n <- s.nodes, d <- s.nodes[n].table :: GivenOut(s, d, NetSeqno(s.nodes[n].table[d])))
    && (forall p <- s.air :: GivenOut(s, p.msg.About(), p.msg.Seqno()))
  }

  lemma OwnNumberGrows(topo: Topology, s: Net, e: Event, n: Addr)
    requires Enabled(s, e) && InRange(s) && n in s.nodes
    ensures n in Apply(topo, s, e).nodes && s.nodes[n].seqno <= Apply(topo, s, e).nodes[n].seqno
  {
    if e.Deliver? && s.air[e.i].dst == n && s.air[e.i].msg.Rreq? {
      assert SmallMessage(s.air[e.i].msg);
      AnswerIsNewest(s.nodes[n].seqno, s.air[e.i].msg.destSeqno);
    }
  }

  /** What a node says of itself in a reaction carries its own number. */
  lemma OwnAnswer(nd: Node, p: Packet, link: real, send: Send)
    requires send in Receive(nd, p, link).sends && send.msg.About() == p.dst
    ensures send.msg.Seqno() == Receive(nd, p, link).node.seqno
  {
  }

  lemma SelfNumber(topo: Topology, s: Net, e: Event, p: Packet)
    requires Enabled(s, e) && InRange(s) && p in Apply(topo, s, e).air && p !in s.air && p.msg.About() == p.src
    ensures p.src in s.nodes && GivenOut(Apply(topo, s, e), p.src, p.msg.Seqno())
  {
    if e.Deliver? {
      var q := s.air[e.i];
      NewPackets(topo, s, q.dst, Receive(s.nodes[q.dst], q, e.link), Without(s.air, e.i), p);
      var send :| send in Receive(s.nodes[q.dst], q, e.link).sends && Carries(topo, q.dst, send, p);
      OwnAnswer(s.nodes[q.dst], q, e.link, send);
    } else {
      var nd := s.nodes[e.n];
      var r := if e.Discovery? then Discover(e.n, nd, e.dest, e.destOnly)
               else Rediscover(e.n, nd, e.dest, e.destSeqno, e.ttl, e.destOnly);
      NewPackets(topo, s, e.n, r, s.air, p);
    }
  }

  lemma StaysGivenOut(topo: Topology, s: Net, e: Event, d: Addr, number: int)
    requires Enabled(s, e) && InRange(s) && GivenOut(s, d, number)
    ensures GivenOut(Apply(topo, s, e), d, number)
  {
    OwnNumberGrows(topo, s, e, d);
  }

  lemma RouteGivenOut(topo: Topology, s: Net, e: Event, s': Net, n: Addr, d: Addr)
    requires Enabled(s, e) && InRange(s) && s' == Apply(topo, s, e) && Shaped(s, e, s') && Attributed(s)
    requires n in s'.nodes && d in s'.nodes[n].table
    ensures GivenOut(s', d, NetSeqno(s'.nodes[n].table[d]))
  {
    hide Apply, Enabled, InRange;
    assert NodeStep(s, e, s', n);
    StaysGivenOut(topo, s, e, d, NetSeqno(s'.nodes[n].table[d]));
  }

  lemma StepAttributed(topo: Topology, s: Net, e: Event, s': Net)
    requires Enabled(s, e) && InRange(s) && s' == Apply(topo, s, e) && Shaped(s, e, s') && Attributed(s)
    ensures Attributed(s')
  {
    forall n, d | n in s'.nodes && d in s'.nodes[n].table ensures GivenOut(s', d, NetSeqno(s'.nodes[n].table[d])) {
      RouteGivenOut(topo, s, e, s', n, d);
    }
    forall p | p in s'.air ensures GivenOut(s', p.msg.About(), p.msg.Seqno()) {
      if p in s.air {
        StaysGivenOut(topo, s, e, p.msg.About(), p.msg.Seqno());
      } else if p.msg.About() == p.src {
        SelfNumber(topo, s, e, p);
      } else {
        RouteGivenOut(topo, s, e, s', p.src, p.msg.About());
      }
    }
  }

  lemma PowerUpAttributed(s: Net)
    requires Initial(s)
    ensures Attributed(s)
  {
  }

  /** In every state of every run, no route or message about a node is ahead of it by more than one. */
  lemma {:induction false} RunAttributed(topo: Topology, ss: seq<Net>, es: seq<Event>, k: nat)
    requires Proper(topo, ss, es) && k < |ss|
    ensures Attributed(ss[k])
  {
    hide Apply, Enabled, InRange, Shaped, Good, Attributed;
    if k == 0 {
      PowerUpAttributed(ss[0]);
    } else {
      RunAttributed(topo, ss, es, k - 1);
      RunShape(topo, ss, es, k - 1);
      ProperStep(topo, ss, es, k - 1);
      StepAttributed(topo, ss[k - 1], es[k - 1], ss[k]);
    }
  }

  /** No node's own number ever falls. */
  lemma {:induction false} OwnNumberNeverFalls(topo: Topology, ss: seq<Net>, es: seq<Event>, i: nat, j: nat, n: Addr)
    requires Proper(topo, ss, es) && i <= j < |ss| && n in ss[i].nodes
    ensures n in ss[j].nodes && ss[i].nodes[n].seqno <= ss[j].nodes[n].seqno
    decreases j - i
  {
    hide Apply, Enabled, InRange;
    if i < j {
      OwnNumberNeverFalls(topo, ss, es, i, j - 1, n);
      ProperStep(topo, ss, es, j - 1);
      OwnNumberGrows(topo, ss[j - 1], es[j - 1], n);
    }
  }
}
