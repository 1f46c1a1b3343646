/**
 Precursors are there for errors: whoever a route was handed to hears of its loss. A node that has
 passed a reply on, or answered a request from its table, addresses the node it sent the reply to
 when the next hop of that route reports the destination as unreachable.
 */
module ErrorsReach {
  import opened SequenceNumbers
  import opened Aodv
  import opened RoutingTable
  import opened Rerr
  import Agent

  /** The error of the next hop of `d` is told to every precursor, with the number that it gave. */
  lemma LossIsTold(t: StateMap, us: seq<Unreachable>, k: Clock, d: Addr, src: Addr, a: Addr)
    requires d in t && t[d].route.valid && t[d].route.nextHop == src && !t[d].route.flags.repair
    requires Mentions(us, d) && a in t[d].precursors
    ensures var notice := Outcome(Steps(t, src, us, k));
            Addresses(notice, a) && (d, FirstNumber(us, d)) in notice.dests
  {
    EveryPrecursorIsTold(t, src, us, k, d, a);
    ExactlyThoseReported(t, src, us, k, (d, FirstNumber(us, d)));
  }

  /** A reply that goes on, and then an error about its destination from where it came. */
  method ReplyThenError(a: Agent.Agent, r: Receiver, p: Packet, link: real, lifetime: nat, k: Clock, e: ErrorRecord,
                        us: seq<Unreachable>, k': Clock)
    returns (sends: seq<Send>, notice: Notice)
    requires a.Valid() && r.rt == a.rt && p.msg.Rrep? && p.dst == a.self && p.msg.dest != p.msg.orig
    requires e !in r.records && e.last == p.src && Mentions(us, p.msg.dest)
    modifies a.rt, a.rt.tbl, a.rt.entries, r`records
    ensures a.Valid()
    ensures sends != [] && !old(p.msg.dest in a.rt.States() && a.rt.States()[p.msg.dest].route.flags.repair) ==>
              && sends[0].Unicast? && Addresses(notice, sends[0].to)
              && (p.msg.dest, FirstNumber(us, p.msg.dest)) in notice.dests
  {
    hide RoutingTable.Valid, RoutingTable.Table, RoutingTable.States, Unique, Steps, Aodv.RrepProcess, Agent.Agent.View,
         Knows, Agent.AllRunning, Accepts, Agent.Aside;
    sends := a.RrepProcess(p, link, lifetime, k);
    ghost var t := a.rt.States();
    notice := r.RerrProcess(e, us, k');
    if sends != [] && t[p.msg.dest].route.valid && !t[p.msg.dest].route.flags.repair {
      LossIsTold(t, us, k', p.msg.dest, p.src, sends[0].to);
    }
  }

  /** A node that answers from its table has a valid route, which it keeps. */
  lemma AnswerShowsRoute(self: Addr, nd: Node, p: Packet, link: real)
    requires p.msg.Rreq? && p.msg.dest != self && p.msg.dest != p.msg.orig
    requires var sends := Aodv.RreqProcess(self, nd, p, link).sends; sends != [] && sends[0].msg.Rrep?
    ensures Agent.Takes(self, nd, p, link)
    ensures var t, t' := nd.table, Aodv.RreqProcess(self, nd, p, link).node.table;
            p.msg.dest in t && p.msg.dest in t' && t'[p.msg.dest].valid && t'[p.msg.dest] == t[p.msg.dest]
  {
    var cost := p.msg.cost + link;
    AdoptMeans(nd.table, p, link);
    IntermediateMeans(self, nd.(records := Remember(nd.records, (p.msg.orig, p.msg.id), cost),
                                table := Adopt(nd.table, p, link)), p, cost);
    hide Adopt;
  }

  /** A request answered from the table, and then an error about its destination from the next hop. */
  method AnswerThenError(a: Agent.Agent, r: Receiver, p: Packet, link: real, k: Clock, e: ErrorRecord,
                         us: seq<Unreachable>, k': Clock)
    returns (sends: seq<Send>, notice: Notice)
    requires a.Valid() && r.rt == a.rt && p.msg.Rreq? && p.dst == a.self
    requires p.msg.dest != p.msg.orig && p.msg.dest != a.self
    requires e !in r.records && Mentions(us, p.msg.dest)
    modifies a`seqno, a`records, a.rt, a.rt.tbl, a.rt.entries, r`records
    ensures a.Valid()
    ensures sends != [] && sends[0].msg.Rrep? ==>
              && p.msg.dest in old(a.rt.States())
              && (old(a.rt.States())[p.msg.dest].route.nextHop == e.last
                  && !old(a.rt.States())[p.msg.dest].route.flags.repair ==>
                    Addresses(notice, p.src) && (p.msg.dest, FirstNumber(us, p.msg.dest)) in notice.dests)
  {
    hide RoutingTable.Valid, RoutingTable.Table, RoutingTable.States, Unique, Steps, Aodv.RreqProcess, Agent.RouteTaken,
         Agent.AllRunning, Agent.Takes;
    ghost var nd, t0 := a.View(), a.rt.States();
    a.rt.RouteOfState(p.msg.dest);
    sends := a.RreqProcess(p, link, k);
    ghost var t := a.rt.States();
    a.rt.RouteOfState(p.msg.dest);
    if sends != [] && sends[0].msg.Rrep? {
      AnswerShowsRoute(a.self, nd, p, link);
    }
    notice := r.RerrProcess(e, us, k');
    if sends != [] && sends[0].msg.Rrep? && t[p.msg.dest].route.nextHop == e.last
       && !t[p.msg.dest].route.flags.repair {
      LossIsTold(t, us, k', p.msg.dest, e.last, p.src);
    }
  }
}
