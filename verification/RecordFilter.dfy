/**
 The record of requests already seen keeps the first cost of a request, not the lowest one. It
 changes nothing all the same: whatever it drops, the cost guard of the routing table would
 refuse, whether the originator's entry is valid or not. What a node accepts of one flood gets
 strictly cheaper from copy to copy.
 */
module RecordFilter {
  import opened SequenceNumbers
  import opened Aodv
  import opened Network
  import opened LoopFreedom

  /** The guard, read as a refusal. */
  predicate Refuses(r: Route, seqno: u32, cost: real) {
    seqno < r.seqno || (seqno == r.seqno && r.valid && r.cost <= cost)
  }

  lemma GuardIsRefusal(t: Table, m: Message, cost: real)
    requires Ordinarily(t) && SmallMessage(m) && 1 <= m.Seqno()
    ensures !Accepts(t, m, cost) <==> m.About() in t && Refuses(t[m.About()], m.Seqno(), cost)
  {
  }

  /** Once refused, always refused. */
  lemma RefusalLasts(topo: Topology, s: Net, e: Event, s': Net, n: Addr, d: Addr, seqno: u32, cost: real)
    requires Good(topo, s) && InRange(s) && Shaped(s, e, s')
    requires n in s.nodes && d in s.nodes[n].table && Refuses(s.nodes[n].table[d], seqno, cost)
    ensures d in s'.nodes[n].table && Refuses(s'.nodes[n].table[d], seqno, cost)
  {
    assert NodeStep(s, e, s', n);
    OrdinaryTable(topo, s, n);
  }

  // ---------- identifiers belong to sequence numbers ----------

  type Issued = map<Key, u32>

  ghost predicate Identified(p: Packet, issued: Issued) {
    p.msg.Rreq? ==> (p.msg.orig, p.msg.id) in issued && issued[(p.msg.orig, p.msg.id)] == p.msg.origSeqno
  }

  ghost predicate Recorded(s: Net, issued: Issued, n: Addr, key: Key)
    requires n in s.nodes && key in s.nodes[n].records
  {
    && key in issued && key.0 in s.nodes[n].table
    && Refuses(s.nodes[n].table[key.0], issued[key], s.nodes[n].records[key])
  }

  ghost predicate Consistent(s: Net, issued: Issued) {
    && (forall p <- s.air :: Identified(p, issued))
    && (forall n <- s.nodes, key <- s.nodes[n].records :: Recorded(s, issued, n, key))
    && (forall key <- issued :: key.0 in s.nodes && key.1 < s.nodes[key.0].rreqId)
  }

  ghost function Issue(s: Net, e: Event, issued: Issued): Issued
    requires Enabled(s, e)
  {
    if e.Discovery? || e.Rediscovery? then
      var nd := s.nodes[e.n];
      issued[(e.n, nd.rreqId) := PlusOne(nd.seqno)]
            [(e.n, PlusOne(nd.rreqId)) := PlusOne(nd.seqno)]
            [(e.n, PlusOne(PlusOne(nd.rreqId))) := PlusOne(nd.seqno)]
    else issued
  }

  lemma FloodIdentified(topo: Topology, s: Net, e: Event, issued: Issued, p: Packet)
    requires (e.Discovery? || e.Rediscovery?) && Enabled(s, e)
    requires s.nodes[e.n].rreqId < RANGE - 3
    requires p in Apply(topo, s, e).air && p !in s.air
    ensures Identified(p, Issue(s, e, issued))
  {
    var nd := s.nodes[e.n];
    var r := if e.Discovery? then Discover(e.n, nd, e.dest, e.destOnly)
             else Rediscover(e.n, nd, e.dest, e.destSeqno, e.ttl, e.destOnly);
    NewPackets(topo, s, e.n, r, s.air, p);
  }

  /** Tables and records stay, or records are forgotten; identifiers only grow. */
  ghost predicate Quiet(s: Net, s': Net) {
    && s'.nodes.Keys == s.nodes.Keys
    && forall n <- s.nodes ::
         && s.nodes[n].rreqId <= s'.nodes[n].rreqId
         && forall key <- s'.nodes[n].records ::
              key in s.nodes[n].records && s.nodes[n].records[key] == s'.nodes[n].records[key]
  }

  lemma FloodIsQuiet(topo: Topology, s: Net, e: Event)
    requires (e.Discovery? || e.Rediscovery?) && Enabled(s, e) && s.nodes[e.n].rreqId < RANGE - 3
    ensures Quiet(s, Apply(topo, s, e)) && Apply(topo, s, e).nodes[e.n].rreqId == s.nodes[e.n].rreqId + 3
  {
  }

  lemma RestIsQuiet(topo: Topology, s: Net, e: Event)
    requires Enabled(s, e) && (e.Lose? || e.Duplicate? || e.Expire? || e.ForgetRecord?)
    ensures Quiet(s, Apply(topo, s, e))
  {
  }

  lemma QuietKeepsRecords(topo: Topology, s: Net, e: Event, s': Net, issued: Issued, issued': Issued)
    requires Good(topo, s) && InRange(s) && Shaped(s, e, s') && Quiet(s, s')
    requires Consistent(s, issued) && forall key <- issued :: key in issued' && issued'[key] == issued[key]
    ensures forall n <- s'.nodes, key <- s'.nodes[n].records :: Recorded(s', issued', n, key)
  {
    forall n, key | n in s'.nodes && key in s'.nodes[n].records ensures Recorded(s', issued', n, key) {
      assert Recorded(s, issued, n, key);
      RefusalLasts(topo, s, e, s', n, key.0, issued[key], s.nodes[n].records[key]);
    }
  }

  lemma IssueExtends(s: Net, e: Event, issued: Issued)
    requires (e.Discovery? || e.Rediscovery?) && Enabled(s, e) && s.nodes[e.n].rreqId < RANGE - 3
    requires forall key <- issued :: key.0 in s.nodes && key.1 < s.nodes[key.0].rreqId
    ensures forall key <- issued :: key in Issue(s, e, issued) && Issue(s, e, issued)[key] == issued[key]
    ensures forall key <- Issue(s, e, issued) :: key in issued || (key.0 == e.n && key.1 < s.nodes[e.n].rreqId + 3)
  {
  }

  lemma FloodKeepsRecords(topo: Topology, s: Net, e: Event, s': Net, issued: Issued)
    requires (e.Discovery? || e.Rediscovery?) && Enabled(s, e) && Good(topo, s) && InRange(s)
    requires s' == Apply(topo, s, e) && Shaped(s, e, s')
    requires Consistent(s, issued)
    ensures Consistent(s', Issue(s, e, issued))
  {
    var issued' := Issue(s, e, issued);
    FloodIsQuiet(topo, s, e);
    IssueExtends(s, e, issued);
    forall p | p in s'.air ensures Identified(p, issued') {
      if p in s.air {
        assert Identified(p, issued);
      } else {
        FloodIdentified(topo, s, e, issued, p);
      }
    }
    QuietKeepsRecords(topo, s, e, s', issued, issued');
  }

  /** A forwarded request keeps its originator, identifier and number. */
  lemma ForwardKeepsIdentity(nd: Node, p: Packet, link: real, send: Send)
    requires send in Receive(nd, p, link).sends && send.msg.Rreq?
    ensures p.msg.Rreq? && send.msg.orig == p.msg.orig && send.msg.id == p.msg.id
             && send.msg.origSeqno == p.msg.origSeqno
  {
  }

  /** After a reception the records are old ones, or the delivered request that is now refused. */
  lemma ReceptionRecords(nd: Node, p: Packet, link: real, key: Key)
    requires Ordinarily(nd.table) && p.channel != -1 && SmallMessage(p.msg) && 1 <= p.msg.Seqno()
    requires key in Receive(nd, p, link).node.records
    ensures var nd' := Receive(nd, p, link).node;
            || (key in nd.records && nd.records[key] == nd'.records[key])
            || (&& p.msg.Rreq? && key == (p.msg.orig, p.msg.id)
                && p.msg.orig in nd'.table && Refuses(nd'.table[p.msg.orig], p.msg.origSeqno, nd'.records[key]))
  {
    Reception(nd, p, link);
    GuardIsRefusal(nd.table, p.msg, p.msg.cost + link);
  }

  lemma DeliveryKeepsRecords(topo: Topology, s: Net, e: Event, s': Net, issued: Issued)
    requires e.Deliver? && Enabled(s, e) && Good(topo, s) && InRange(s) && s' == Apply(topo, s, e) && Shaped(s, e, s')
    requires Consistent(s, issued)
    ensures Consistent(s', issued)
  {
    var q := s.air[e.i];
    var nd := s.nodes[q.dst];
    assert GoodPacket(topo, s, q) && Identified(q, issued);
    OrdinaryTable(topo, s, q.dst);
    forall p | p in s'.air ensures Identified(p, issued) {
      if p in s.air {
        assert Identified(p, issued);
      } else {
        NewPackets(topo, s, q.dst, Receive(nd, q, e.link), Without(s.air, e.i), p);
        if p.msg.Rreq? {
          var send :| send in Receive(nd, q, e.link).sends && Carries(topo, q.dst, send, p);
          ForwardKeepsIdentity(nd, q, e.link, send);
        }
      }
    }
    forall n, key | n in s'.nodes && key in s'.nodes[n].records ensures Recorded(s', issued, n, key) {
      if n == q.dst {
        ReceptionRecords(nd, q, e.link, key);
      }
      if key in s.nodes[n].records && s.nodes[n].records[key] == s'.nodes[n].records[key] {
        assert Recorded(s, issued, n, key);
        RefusalLasts(topo, s, e, s', n, key.0, issued[key], s.nodes[n].records[key]);
      }
    }
    IdsStay(nd, q, e.link);
  }

  lemma IdsStay(nd: Node, p: Packet, link: real)
    ensures Receive(nd, p, link).node.rreqId == nd.rreqId
  {
  }

  lemma StepKeepsRecords(topo: Topology, s: Net, e: Event, issued: Issued)
    requires Enabled(s, e) && Good(topo, s) && InRange(s)
    requires Consistent(s, issued)
    ensures Consistent(Apply(topo, s, e), Issue(s, e, issued))
  {
    var s' := Apply(topo, s, e);
    StepShape(topo, s, e);
    if e.Discovery? || e.Rediscovery? {
      FloodKeepsRecords(topo, s, e, s', issued);
    } else if e.Deliver? {
      DeliveryKeepsRecords(topo, s, e, s', issued);
    } else {
      RestIsQuiet(topo, s, e);
      QuietKeepsRecords(topo, s, e, s', issued, issued);
      assert forall p <- s'.air :: p in s.air;
    }
  }

  /** The numbers that the floods of the first `k` events gave to their identifiers. */
  ghost function IssuedBy(ss: seq<Net>, es: seq<Event>, k: nat): Issued
    requires k <= |es| && k <= |ss|
  {
    if k == 0 then map[]
    else if Enabled(ss[k - 1], es[k - 1]) then Issue(ss[k - 1], es[k - 1], IssuedBy(ss, es, k - 1))
    else IssuedBy(ss, es, k - 1)
  }

  lemma PowerUpConsistent(s: Net)
    requires Initial(s)
    ensures Consistent(s, map[])
  {
  }

  lemma {:induction false} RunKeepsRecords(topo: Topology, ss: seq<Net>, es: seq<Event>, k: nat)
    requires Proper(topo, ss, es) && k < |ss|
    ensures Consistent(ss[k], IssuedBy(ss, es, k))
  {
    hide Apply, Enabled, Good, InRange, Consistent, Issue;
    if k == 0 {
      PowerUpConsistent(ss[0]);
    } else {
      RunKeepsRecords(topo, ss, es, k - 1);
      RunGood(topo, ss, es, k - 1);
      ProperStep(topo, ss, es, k - 1);
      StepKeepsRecords(topo, ss[k - 1], es[k - 1], IssuedBy(ss, es, k - 1));
    }
  }

  lemma IssueKeeps(s: Net, e: Event, issued: Issued)
    requires Enabled(s, e) && Consistent(s, issued) && InRange(s)
    ensures forall key <- issued :: key in Issue(s, e, issued) && Issue(s, e, issued)[key] == issued[key]
  {
    if e.Discovery? || e.Rediscovery? {
      IssueExtends(s, e, issued);
    }
  }

  /** An identifier keeps its number for the rest of the run. */
  lemma {:induction false} IssuedStays(topo: Topology, ss: seq<Net>, es: seq<Event>, i: nat, j: nat, key: Key)
    requires Proper(topo, ss, es) && i <= j < |ss| && key in IssuedBy(ss, es, i)
    ensures key in IssuedBy(ss, es, j) && IssuedBy(ss, es, j)[key] == IssuedBy(ss, es, i)[key]
    decreases j - i
  {
    hide Apply, Enabled, Consistent, InRange, Issue;
    if i < j {
      IssuedStays(topo, ss, es, i, j - 1, key);
      RunKeepsRecords(topo, ss, es, j - 1);
      ProperStep(topo, ss, es, j - 1);
      IssueKeeps(ss[j - 1], es[j - 1], IssuedBy(ss, es, j - 1));
    }
  }

  // ---------- the theorems ----------

  /** In every state of every run, a request the record drops is one the cost guard refuses. */
  lemma FilterIsRedundant(topo: Topology, ss: seq<Net>, es: seq<Event>, k: nat, p: Packet, cost: real)
    requires Proper(topo, ss, es) && k < |ss| && InRange(ss[k])
    requires p in ss[k].air && p.msg.Rreq? && p.dst in ss[k].nodes
    requires Filtered(ss[k].nodes[p.dst].records, (p.msg.orig, p.msg.id), cost)
    ensures !Accepts(ss[k].nodes[p.dst].table, p.msg, cost)
  {
    var s := ss[k];
    var issued := IssuedBy(ss, es, k);
    RunKeepsRecords(topo, ss, es, k);
    RunGood(topo, ss, es, k);
    assert GoodPacket(topo, s, p) && Identified(p, issued);
    assert Recorded(s, issued, p.dst, (p.msg.orig, p.msg.id));
    OrdinaryTable(topo, s, p.dst);
    GuardIsRefusal(s.nodes[p.dst].table, p.msg, cost);
  }

  // ---------- runs without records ----------

  function Forgetful(nd: Node): Node {
    nd.(records := map[])
  }

  ghost function Erased(s: Net): Net {
    Net(map n | n in s.nodes :: Forgetful(s.nodes[n]), s.air)
  }

  /** The same events, with all records erased after each of them. */
  ghost function WithoutRecords(topo: Topology, s: Net, es: seq<Event>): Net {
    if es == [] then Erased(s)
    else
      var before, e := WithoutRecords(topo, s, es[..|es| - 1]), es[|es| - 1];
      if Enabled(before, e) then Erased(Apply(topo, before, e)) else before
  }

  /** Two reactions that differ in the records only. */
  predicate SameButRecords(r: Reaction, r': Reaction) {
    Forgetful(r.node) == Forgetful(r'.node) && r.sends == r'.sends
  }

  lemma AnswersIgnoreRecords(self: Addr, nd: Node, nd': Node, p: Packet, cost: real)
    requires p.msg.Rreq? && Forgetful(nd) == Forgetful(nd')
    ensures SameButRecords(AnswerOrForward(self, nd, p, cost), AnswerOrForward(self, nd', p, cost))
  {
  }

  lemma ReactionIgnoresRecords(nd: Node, p: Packet, link: real)
    requires p.msg.Rreq? && Filtered(nd.records, (p.msg.orig, p.msg.id), p.msg.cost + link) ==>
               !Accepts(nd.table, p.msg, p.msg.cost + link)
    ensures SameButRecords(Receive(nd, p, link), Receive(Forgetful(nd), p, link))
  {
    var m, cost := p.msg, p.msg.cost + link;
    if m.Rreq? && p.src != p.dst && m.orig != p.dst && p.src !in nd.blacklist && Accepts(nd.table, m, cost) {
      var plain := Forgetful(nd);
      var nd1 := nd.(records := Remember(nd.records, (m.orig, m.id), cost)).(table := Adopt(nd.table, p, link));
      var nd2 := plain.(records := Remember(plain.records, (m.orig, m.id), cost)).(table :=
          Adopt(plain.table, p, link));
      assert Receive(nd, p, link) == AnswerOrForward(p.dst, nd1, p, cost);
      assert Receive(plain, p, link) == AnswerOrForward(p.dst, nd2, p, cost);
      AnswersIgnoreRecords(p.dst, nd1, nd2, p, cost);
    }
  }

  lemma ChangeErased(s: Net, n: Addr, nd: Node, nd': Node, air: seq<Packet>)
    requires n in s.nodes && Forgetful(nd) == Forgetful(nd')
    ensures Erased(Net(Erased(s).nodes[n := nd'], air)) == Erased(Net(s.nodes[n := nd], air))
  {
    var s1, s2 := Erased(Net(Erased(s).nodes[n := nd'], air)), Erased(Net(s.nodes[n := nd], air));
    assert s1.nodes.Keys == s2.nodes.Keys;
    forall k | k in s1.nodes ensures s1.nodes[k] == s2.nodes[k] {
    }
  }

  ghost predicate Commutes(topo: Topology, s: Net, e: Event)
    requires Enabled(s, e)
  {
    Enabled(Erased(s), e) && Erased(Apply(topo, Erased(s), e)) == Erased(Apply(topo, s, e))
  }

  lemma DeliveryCommutes(topo: Topology, s: Net, e: Event)
    requires Enabled(s, e) && e.Deliver?
    requires var p := s.air[e.i];
             p.msg.Rreq? && Filtered(s.nodes[p.dst].records, (p.msg.orig, p.msg.id), p.msg.cost + e.link) ==>
               !Accepts(s.nodes[p.dst].table, p.msg, p.msg.cost + e.link)
    ensures Commutes(topo, s, e)
  {
    hide Receive, Accepts, Filtered, Without, Transmit;
    var p := s.air[e.i];
    var nd := s.nodes[p.dst];
    ReactionIgnoresRecords(nd, p, e.link);
    var r, r' := Receive(nd, p, e.link), Receive(Forgetful(nd), p, e.link);
    ChangeErased(s, p.dst, r.node, r'.node, Without(s.air, e.i) + Transmit(topo, p.dst, r.sends));
  }

  lemma FloodCommutes(topo: Topology, s: Net, e: Event)
    requires Enabled(s, e) && (e.Discovery? || e.Rediscovery?)
    ensures Commutes(topo, s, e)
  {
    var nd, plain := s.nodes[e.n], Forgetful(s.nodes[e.n]);
    var r := if e.Discovery? then Discover(e.n, nd, e.dest, e.destOnly)
             else Rediscover(e.n, nd, e.dest, e.destSeqno, e.ttl, e.destOnly);
    var r' := if e.Discovery? then Discover(e.n, plain, e.dest, e.destOnly)
              else Rediscover(e.n, plain, e.dest, e.destSeqno, e.ttl, e.destOnly);
    assert SameButRecords(r, r');
    hide Discover, Rediscover, Transmit;
    ChangeErased(s, e.n, r.node, r'.node, s.air + Transmit(topo, e.n, r.sends));
  }

  lemma RestCommutes(topo: Topology, s: Net, e: Event)
    requires Enabled(s, e) && (e.Lose? || e.Duplicate? || e.Expire? || e.ForgetRecord?)
    ensures Commutes(topo, s, e)
  {
    hide ExpireRoute, Without;
    if e.Expire? || e.ForgetRecord? {
      var nd, plain := Apply(topo, s, e).nodes[e.n], Apply(topo, Erased(s), e).nodes[e.n];
      ChangeErased(s, e.n, nd, plain, s.air);
    }
  }

  /** Erasing the records before a step or only after it is the same if nothing useful is filtered. */
  lemma ErasureCommutes(topo: Topology, s: Net, e: Event)
    requires Enabled(s, e)
    requires e.Deliver? ==>
               var p := s.air[e.i];
               p.msg.Rreq? && Filtered(s.nodes[p.dst].records, (p.msg.orig, p.msg.id), p.msg.cost + e.link) ==>
                 !Accepts(s.nodes[p.dst].table, p.msg, p.msg.cost + e.link)
    ensures Commutes(topo, s, e)
  {
    hide Commutes, Filtered, Accepts;
    if e.Deliver? {
      DeliveryCommutes(topo, s, e);
    } else if e.Discovery? || e.Rediscovery? {
      FloodCommutes(topo, s, e);
    } else {
      RestCommutes(topo, s, e);
    }
  }

  /** A run without any record goes through the same routes, counters and packets, state by state. */
  lemma {:induction false} SameWithoutRecords(topo: Topology, ss: seq<Net>, es: seq<Event>, k: nat)
    requires Proper(topo, ss, es) && k < |ss|
    ensures WithoutRecords(topo, ss[0], es[..k]) == Erased(ss[k])
    ensures k < |es| ==> Enabled(WithoutRecords(topo, ss[0], es[..k]), es[k])
  {
    hide Apply, Enabled, Erased, Accepts, Filtered;
    if k > 0 {
      SameWithoutRecords(topo, ss, es, k - 1);
      assert es[..k][..k - 1] == es[..k - 1];
      StepWithoutRecords(topo, ss, es, k - 1);
    }
    if k < |es| {
      StepWithoutRecords(topo, ss, es, k);
    }
  }

  lemma StepWithoutRecords(topo: Topology, ss: seq<Net>, es: seq<Event>, k: nat)
    requires Proper(topo, ss, es) && k < |es|
    ensures Enabled(Erased(ss[k]), es[k]) && Erased(Apply(topo, Erased(ss[k]), es[k])) == Erased(ss[k + 1])
  {
    hide Apply, Accepts, Filtered, InRange;
    ProperStep(topo, ss, es, k);
    if es[k].Deliver? {
      var p := ss[k].air[es[k].i];
      if p.msg.Rreq? && Filtered(ss[k].nodes[p.dst].records, (p.msg.orig, p.msg.id), p.msg.cost + es[k].link) {
        FilterIsRedundant(topo, ss, es, k, p, p.msg.cost + es[k].link);
      }
    }
    ErasureCommutes(topo, ss[k], es[k]);
  }

  // ---------- what a node takes of one flood ----------

  /** Event `i` delivers to `n` an offer of a route to `d` with number `seqno`, which `n` takes at `cost`. */
  ghost predicate Takes(ss: seq<Net>, es: seq<Event>, i: nat, n: Addr, d: Addr, seqno: u32, cost: real) {
    && i < |es| && i < |ss| && es[i].Deliver? && es[i].i < |ss[i].air| && n in ss[i].nodes
    && var p := ss[i].air[es[i].i];
       p.src != n && p.dst == n && p.msg.About() == d && d != n && p.msg.Seqno() == seqno
           && p.msg.cost + es[i].link == cost
       && n in ss[i].nodes && Accepts(ss[i].nodes[n].table, p.msg, cost)
       && (p.msg.Rreq? ==> p.src !in ss[i].nodes[n].blacklist
                           && !Filtered(ss[i].nodes[n].records, (p.msg.orig, p.msg.id), cost))
  }

  lemma TakenIsRefused(topo: Topology, ss: seq<Net>, es: seq<Event>, i: nat, n: Addr, d: Addr, seqno: u32, cost: real)
    requires Proper(topo, ss, es) && Takes(ss, es, i, n, d, seqno, cost)
    ensures n in ss[i + 1].nodes && d in ss[i + 1].nodes[n].table && Refuses(ss[i + 1].nodes[n].table[d], seqno, cost)
  {
    var p := ss[i].air[es[i].i];
    RunGood(topo, ss, es, i);
    ProperStep(topo, ss, es, i);
    assert GoodPacket(topo, ss[i], p);
    OrdinaryTable(topo, ss[i], n);
    TakingChangesTable(ss[i].nodes[n], p, es[i].link);
  }

  lemma TakingChangesTable(nd: Node, p: Packet, link: real)
    requires Ordinarily(nd.table) && p.channel != -1 && p.src != p.dst && p.msg.About() != p.dst
    requires Accepts(nd.table, p.msg, p.msg.cost + link)
    requires p.msg.Rreq? ==> p.src !in nd.blacklist && !Filtered(nd.records, (p.msg.orig, p.msg.id), p.msg.cost + link)
    ensures var t := Receive(nd, p, link).node.table; p.msg.About() in t && Taken(t[p.msg.About()], p, link)
  {
    AdoptKeeps(nd.table, p, link);
    var t := Adopt(nd.table, p, link);
    assert forall d <- t :: t[d].channel != -1;
  }

  lemma {:induction false} RefusalLastsRun(topo: Topology, ss: seq<Net>, es: seq<Event>, i: nat, j: nat,
                                           n: Addr, d: Addr, seqno: u32, cost: real)
    requires Proper(topo, ss, es) && i <= j < |ss|
    requires n in ss[i].nodes && d in ss[i].nodes[n].table && Refuses(ss[i].nodes[n].table[d], seqno, cost)
    ensures n in ss[j].nodes && d in ss[j].nodes[n].table && Refuses(ss[j].nodes[n].table[d], seqno, cost)
    decreases j - i
  {
    if i < j {
      assert n in ss[i + 1].nodes && d in ss[i + 1].nodes[n].table
          && Refuses(ss[i + 1].nodes[n].table[d], seqno, cost) by {
        RunShape(topo, ss, es, i);
        RefusalLasts(topo, ss[i], es[i], ss[i + 1], n, d, seqno, cost);
      }
      RefusalLastsRun(topo, ss, es, i + 1, j, n, d, seqno, cost);
    }
  }

  /** Of offers with one sequence number a node takes strictly cheaper ones each time. */
  lemma CostsDecrease(topo: Topology, ss: seq<Net>, es: seq<Event>, i: nat, j: nat,
                      n: Addr, d: Addr, seqno: u32, cost: real, cost': real)
    requires Proper(topo, ss, es) && i < j
    requires Takes(ss, es, i, n, d, seqno, cost) && Takes(ss, es, j, n, d, seqno, cost')
    ensures cost' < cost
  {
    TakenIsRefused(topo, ss, es, i, n, d, seqno, cost);
    RefusalLastsRun(topo, ss, es, i + 1, j, n, d, seqno, cost);
    RunGood(topo, ss, es, j);
    assert InRange(ss[j]);
    OrdinaryTable(topo, ss[j], n);
    assert GoodPacket(topo, ss[j], ss[j].air[es[j].i]);
    GuardIsRefusal(ss[j].nodes[n].table, ss[j].air[es[j].i].msg, cost');
  }

  /** Event `i` delivers to `n` a copy of the request `key`, which `n` takes, and sends on, at `cost`. */
  ghost predicate TakesCopy(ss: seq<Net>, es: seq<Event>, i: nat, n: Addr, key: Key, cost: real) {
    && i < |es| && i < |ss| && es[i].Deliver? && es[i].i < |ss[i].air|
    && var m := ss[i].air[es[i].i].msg;
       m.Rreq? && (m.orig, m.id) == key && Takes(ss, es, i, n, key.0, m.origSeqno, cost)
  }

  lemma CopyIssued(topo: Topology, ss: seq<Net>, es: seq<Event>, i: nat, n: Addr, key: Key, cost: real)
    requires Proper(topo, ss, es) && TakesCopy(ss, es, i, n, key, cost)
    ensures key in IssuedBy(ss, es, i) && ss[i].air[es[i].i].msg.origSeqno == IssuedBy(ss, es, i)[key]
  {
    RunKeepsRecords(topo, ss, es, i);
    assert Identified(ss[i].air[es[i].i], IssuedBy(ss, es, i));
  }

  /** The copies of one request that a node takes get strictly cheaper. */
  lemma CopiesDecrease(topo: Topology, ss: seq<Net>, es: seq<Event>, i: nat, j: nat, n: Addr, key: Key, cost: real,
                       cost': real)
    requires Proper(topo, ss, es) && i < j
    requires TakesCopy(ss, es, i, n, key, cost) && TakesCopy(ss, es, j, n, key, cost')
    ensures cost' < cost
  {
    CopyIssued(topo, ss, es, i, n, key, cost);
    CopyIssued(topo, ss, es, j, n, key, cost');
    IssuedStays(topo, ss, es, i, j, key);
    CostsDecrease(topo, ss, es, i, j, n, key.0, IssuedBy(ss, es, i)[key], cost, cost');
  }
}
