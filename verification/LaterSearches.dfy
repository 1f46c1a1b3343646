/**
 Searches in the middle of a run. When nothing is in the air, a search may start as far as everybody's
 records are concerned; all that matters is whether somebody holds the number of its requests before.
 Nobody's number is ever behind by more than one, and nobody is ahead of the destination by more.
 */
module LaterSearches {
  import opened Aodv
  import opened Freshness
  import opened LoopFreedom
  import opened Network
  import opened Optimality
  import opened RecordFilter
  import opened Replies
  import opened SequenceNumbers
  import opened Walks

  /** Somebody holds the number that the next requests of `orig` will carry. */
  ghost predicate NumberTaken(s: Net, orig: Addr)
    requires orig in s.nodes
  {
    exists n :: n in s.nodes && orig in s.nodes[n].table && NetSeqno(s.nodes[n].table[orig]) == s.nodes[orig].seqno + 1
  }

  // ---------- nothing is ever blacklisted ----------

  ghost predicate NobodyBlacklisted(s: Net) {
    forall n <- s.nodes :: s.nodes[n].blacklist == {}
  }

  lemma ReceiveKeepsBlacklist(nd: Node, p: Packet, link: real)
    ensures Receive(nd, p, link).node.blacklist == nd.blacklist
  {
  }

  lemma StepKeepsBlacklist(topo: Topology, s: Net, e: Event)
    requires Enabled(s, e) && NobodyBlacklisted(s)
    ensures NobodyBlacklisted(Apply(topo, s, e))
  {
    hide Receive, Transmit;
    if e.Deliver? {
      var p := s.air[e.i];
      ReceiveKeepsBlacklist(s.nodes[p.dst], p, e.link);
    }
  }

  lemma {:induction false} RunKeepsBlacklist(topo: Topology, ss: seq<Net>, es: seq<Event>, k: nat)
    requires Proper(topo, ss, es) && k < |ss|
    ensures NobodyBlacklisted(ss[k])
  {
    hide Apply, Enabled, InRange;
    if k > 0 {
      RunKeepsBlacklist(topo, ss, es, k - 1);
      ProperStep(topo, ss, es, k - 1);
      StepKeepsBlacklist(topo, ss[k - 1], es[k - 1]);
    }
  }

  // ---------- a network at rest ----------

  /** In every run, a network at rest is ready for a search of any node exactly if the node's number is free. */
  lemma RestIsReady(topo: Topology, ss: seq<Net>, es: seq<Event>, k: nat, orig: Addr)
    requires Proper(topo, ss, es) && k < |ss| && InRange(ss[k]) && ss[k].air == [] && orig in ss[k].nodes
    ensures Ready(ss[k], orig, 1)
    ensures Ready(ss[k], orig, 0) <==> !NumberTaken(ss[k], orig)
  {
    var s, host := ss[k], ss[k].nodes[orig];
    RunKeepsBlacklist(topo, ss, es, k);
    RunAttributed(topo, ss, es, k);
    RunKeepsRecords(topo, ss, es, k);
    forall n | n in s.nodes
      ensures Unaware(s.nodes[n], orig, host, 1)
      ensures (orig in s.nodes[n].table ==> NetSeqno(s.nodes[n].table[orig]) <= host.seqno)
                ==> Unaware(s.nodes[n], orig, host, 0)
    {
      RecordsAreOld(s, IssuedBy(ss, es, k), n, orig);
      assert orig in s.nodes[n].table ==> GivenOut(s, orig, NetSeqno(s.nodes[n].table[orig]));
    }
    hide Proper, Consistent, InRange, Attributed;
    if n :| n in s.nodes && orig in s.nodes[n].table && NetSeqno(s.nodes[n].table[orig]) == host.seqno + 1 {
      assert !Unaware(s.nodes[n], orig, host, 0);
    }
  }

  /** Nobody holds a record of a request that is still to come. */
  lemma RecordsAreOld(s: Net, issued: Issued, n: Addr, orig: Addr)
    requires Consistent(s, issued) && InRange(s) && n in s.nodes && orig in s.nodes
    ensures forall key <- s.nodes[n].records :: key.0 == orig ==>
              var id := s.nodes[orig].rreqId; key.1 !in {id, PlusOne(id), PlusOne(PlusOne(id))}
  {
    forall key | key in s.nodes[n].records && key.0 == orig ensures key.1 < s.nodes[orig].rreqId {
      assert Recorded(s, issued, n, key);
    }
  }

  // ---------- a search in the middle of a run ----------

  /** From event `i` on the run is one search, which starts with nothing in the air. */
  ghost predicate SearchFrom(topo: Topology, c: Costs, ss: seq<Net>, es: seq<Event>, i: nat) {
    && Proper(topo, ss, es) && NonNegativeCosts(c) && i < |es| && i < |ss| && ss[i].air == [] && Launches(es[i])
    && (forall j {:trigger Faithful(c, ss[j], es[j])} :: i < j < |es| ==> Faithful(c, ss[j], es[j]))
  }

  lemma RunFrom(topo: Topology, ss: seq<Net>, es: seq<Event>, i: nat)
    requires Proper(topo, ss, es) && i <= |es|
    ensures Run(topo, ss[i..], es[i..])
    ensures forall j {:trigger InRange(ss[i..][j])} :: 0 <= j < |es[i..]| ==> InRange(ss[i..][j])
  {
    hide Apply, Enabled, InRange;
    forall j | 0 <= j < |es[i..]| ensures StepAt(topo, ss[i..], es[i..], j) && InRange(ss[i..][j]) {
      ProperStep(topo, ss, es, i + j);
    }
  }

  lemma NodesStaySensible(topo: Topology, ss: seq<Net>, es: seq<Event>, k: nat)
    requires Proper(topo, ss, es) && k < |ss|
    ensures Sensible(topo, ss[k].nodes.Keys) && Good(topo, ss[k])
  {
    RunGood(topo, ss, es, k);
  }

  lemma LaterSearchRuns(topo: Topology, c: Costs, ss: seq<Net>, es: seq<Event>, i: nat)
    requires SearchFrom(topo, c, ss, es, i)
    ensures es[i].n in ss[i].nodes && SearchRun(topo, c, ss[i..], es[i..], 1)
    ensures !NumberTaken(ss[i], es[i].n) ==> SearchRun(topo, c, ss[i..], es[i..], 0)
  {
    ProperStep(topo, ss, es, i);
    RunFrom(topo, ss, es, i);
    RestIsReady(topo, ss, es, i, es[i].n);
    NodesStaySensible(topo, ss, es, i);
    hide Proper, Run, Apply, InRange, Good, Sensible, Ready, NumberTaken, Faithful;
    forall j | 1 <= j < |es[i..]| ensures Faithful(c, ss[i..][j], es[i..][j]) {
      assert Faithful(c, ss[i + j], es[i + j]);
    }
  }

  /** Every discovery in a run is a search for finding, and nobody is ahead of its destination by more than one. */
  lemma LaterSearchFinds(topo: Topology, c: Costs, ss: seq<Net>, es: seq<Event>, i: nat, behind: nat)
    requires SearchFrom(topo, c, ss, es, i) && es[i].Discovery? && es[i].dest in ss[i].nodes
    requires |ss[i].nodes| <= DISCOVERY_TTL + 1 && es[i].n in ss[i].nodes
    requires behind == 1 || (behind == 0 && !NumberTaken(ss[i], es[i].n))
    ensures FindingRun(topo, c, ss[i..], es[i..], 1, behind)
  {
    LaterSearchRuns(topo, c, ss, es, i);
    RunFrom(topo, ss, es, i);
    NodesStaySensible(topo, ss, es, i);
    RunAttributed(topo, ss, es, i);
    var s, f := ss[i], Searched(ss[i], es[i]);
    forall n | n in s.nodes ensures NotAhead(s.nodes[n], f, s.nodes[es[i].dest].seqno + 1) {
      assert f.dest in s.nodes[n].table ==> GivenOut(s, f.dest, NetSeqno(s.nodes[n].table[f.dest]));
    }
    hide Proper, Run, InRange, Good, Sensible, NumberTaken, SearchRun, Attributed, NotAhead;
    assert ss[i..][0] == s && es[i..][0] == es[i];
  }

  /**
   In every run, over two-way links alike on every channel, an ordinary search that starts at rest by
   a node whose number is free gives it a valid route, if a walk leads to the destination.
   */
  lemma LaterSearchSucceeds(topo: Topology, c: Costs, ss: seq<Net>, es: seq<Event>, i: nat, w: Walk)
    requires SearchFrom(topo, c, ss, es, i) && es[i].Discovery? && !es[i].destOnly && es[i].dest in ss[i].nodes
    requires |ss[i].nodes| <= DISCOVERY_TTL + 1 && es[i].n in ss[i].nodes && !NumberTaken(ss[i], es[i].n)
    requires TwoWay(topo) && Alike(topo) && |ss| == |es| + 1 && ss[|es|].air == []
    requires Reaches(topo, Searched(ss[i], es[i]), w, es[i].dest)
    ensures var f := Searched(ss[i], es[i]);
            f.orig in ss[|es|].nodes && Routed(ss[|es|].nodes[f.orig], f, Stored(ss[i].nodes[f.orig], f))
  {
    LaterSearchFinds(topo, c, ss, es, i, 0);
    hide SearchFrom, FindingRun, NumberTaken, TwoWay, Alike;
    var ss', es' := ss[i..], es[i..];
    assert ss'[0] == ss[i] && es'[0] == es[i] && ss'[|es'|] == ss[|es|] && |es'| >= 1;
    assert Mode(topo, c, ss', es', false, 1);
    TwoWayIsHeard(topo, c, ss', es', |es'|, false, 1);
    SearchSucceeds(topo, c, ss', es', |es'|, false, 1, w);
  }
}
