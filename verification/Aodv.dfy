/**
 The route-discovery part of one AODV-UU agent, as functions of the agent's state: what a route
 request, a route reply, a new discovery or an expiring route does to the routing table and
 which messages it sends.
 */
module Aodv {
  import opened SequenceNumbers

  type Addr = nat

  const CHANNELS: nat := 3
  const DISCOVERY_TTL: u8 := 32
  const MAXTTL: u8 := 255

  const PATH_DISCOVERY_TIME: int := 2 * 35 * 35
  const NODE_TRAVERSAL_TIME: int := 35

  /** The lifetime of a reverse route of `hops` hops, computed in 32 unsigned bits. */
  function Life(hops: u8): u32 {
    var life := PATH_DISCOVERY_TIME - 2 * hops * NODE_TRAVERSAL_TIME;
    if life < 0 then life + RANGE else life
  }

  datatype Flags = Flags(unidir: bool, repair: bool)

  /** One routing-table entry, without its timers and precursors. */
  datatype Route = Route(seqno: u32, valid: bool, cost: real, hcnt: u8, nextHop: Addr, channel: int, flags: Flags)

  type Table = map<Addr, Route>

  datatype Message =
    | Rreq(id: u32, dest: Addr, destSeqno: u32, orig: Addr, origSeqno: u32, hcnt: u8, cost: real, destOnly: bool)
    | Rrep(dest: Addr, destSeqno: u32, orig: Addr, hcnt: u8, cost: real)
  {
    /** The node the receiver of this message learns a route to. */
    function About(): Addr {
      if Rreq? then orig else dest
    }

    /** The sequence number of that route. */
    function Seqno(): u32 {
      if Rreq? then origSeqno else destSeqno
    }
  }

  datatype Packet = Packet(src: Addr, dst: Addr, channel: int, ttl: u8, msg: Message)

  /** A message handed to the socket: to every neighbour on a channel, or to one next hop. */
  datatype Send =
    | Broadcast(channel: int, ttl: u8, msg: Message)
    | Unicast(to: Addr, channel: int, ttl: u8, msg: Message)

  type Key = (Addr, u32)

  datatype Node = Node(seqno: u32, rreqId: u32, table: Table, records: map<Key, real>, blacklist: set<Addr>)

  /** A node at power-up. */
  const FRESH_NODE: Node := Node(1, 0, map[], map[], {})

  datatype Reaction = Reaction(node: Node, sends: seq<Send>)

  // ---------- routing-table operations ----------

  /** `rt_table_invalidate`: an entry that is already invalid stays as it is. */
  function Invalidate(r: Route): Route {
    if r.valid then r.(valid := false, seqno := Incr(r.seqno)) else r
  }

  /** `neighbor_link_break`: the neighbour's own entry and every valid route through it go down. */
  function LinkBreak(t: Table, d: Addr): Table
    requires d in t
  {
    map k | k in t ::
      if k == d then Invalidate(t[k])
      else if t[k].valid && t[k].nextHop == d then
        Invalidate(t[k].(flags := t[k].flags.(repair := t[k].flags.repair || t[d].flags.repair)))
      else t[k]
  }

  function Insert(t: Table, d: Addr, next: Addr, hops: u8, seqno: u32, channel: int, cost: real): Table {
    t[d := Route(seqno, true, cost, hops, next, channel, Flags(false, false))]
  }

  /** `rt_table_update_with_channel` with the new state VALID and the entry's own flags. */
  function Update(t: Table, d: Addr, next: Addr, hops: u8, seqno: u32, channel: int, cost: real): Table
    requires d in t
  {
    var r := t[d];
    var flags := if r.valid then r.flags else r.flags.(repair := false);
    var t1 := if hops > 1 && r.hcnt == 1 then LinkBreak(t, d) else t;
    t1[d := Route(seqno, true, cost, hops, next, channel, flags)]
  }

  /** `route_expire_timeout` on a valid entry. */
  function ExpireRoute(t: Table, d: Addr): Table
    requires d in t
  {
    if t[d].hcnt == 1 then LinkBreak(t, d) else t[d := Invalidate(t[d])]
  }

  /** After a link break exactly the other routes are left, and each lost one has the next number. */
  lemma LinkBreakMeans(t: Table, d: Addr)
    requires d in t
    ensures var t' := LinkBreak(t, d);
            && t'.Keys == t.Keys
            && forall x <- t ::
                 && (t'[x].valid <==> t[x].valid && x != d && t[x].nextHop != d)
                 && (t'[x].valid == t[x].valid ==> t'[x] == t[x])
                 && (t[x].valid && !t'[x].valid ==>
                       var r := t[x];
                       t'[x] == Route(Incr(r.seqno), false, r.cost, r.hcnt, r.nextHop, r.channel,
                                      Flags(r.flags.unidir, r.flags.repair || t[d].flags.repair)))
  {
  }

  /** The expiry of a one-hop route is a link break; that of another route takes down that route alone. */
  lemma ExpiryMeans(t: Table, d: Addr)
    requires d in t && t[d].valid
    ensures var t' := ExpireRoute(t, d);
            && t'.Keys == t.Keys && !t'[d].valid && t'[d].seqno == Incr(t[d].seqno)
            && (t[d].hcnt == 1 ==> forall x <- t' :: t'[x].valid ==> t'[x].nextHop != d)
            && (forall x <- t :: x != d && (t[d].hcnt != 1 || t[x].nextHop != d) ==> t'[x] == t[x])
  {
  }

  // ---------- the guards ----------

  /** The cost guard shared by requests and replies; `unidir` is the extra disjunct of replies. */
  predicate Fresher(r: Route, seqno: u32, cost: real, unidir: bool) {
    || r.seqno == 0
    || Int32(seqno) > Int32(r.seqno)
    || (seqno == r.seqno && (!r.valid || unidir || cost < r.cost))
  }

  /** Does the table take the route that `m` offers at total cost `cost`? */
  predicate Accepts(t: Table, m: Message, cost: real) {
    m.About() !in t || Fresher(t[m.About()], m.Seqno(), cost, m.Rrep? && t[m.About()].flags.unidir)
  }

  /** The table after taking the route offered by `p`, received over a link that costs `link`. */
  function Adopt(t: Table, p: Packet, link: real): Table {
    var hops := Next(p.msg.hcnt);
    if p.msg.About() in t then
      Update(t, p.msg.About(), p.src, hops, p.msg.Seqno(), p.channel, p.msg.cost + link)
    else
      Insert(t, p.msg.About(), p.src, hops, p.msg.Seqno(), p.channel, p.msg.cost + link)
  }

  /** A route is taken as it was offered; only routes through a neighbour that is none any more go down with it. */
  lemma AdoptMeans(t: Table, p: Packet, link: real)
    ensures var t', d := Adopt(t, p, link), p.msg.About();
            && t'.Keys == t.Keys + {d} && t'[d].valid && t'[d].seqno == p.msg.Seqno()
            && t'[d].cost == p.msg.cost + link && t'[d].hcnt == Next(p.msg.hcnt)
            && t'[d].nextHop == p.src && t'[d].channel == p.channel
            && t'[d].flags == (if d !in t then Flags(false, false)
                               else Flags(t[d].flags.unidir, t[d].valid && t[d].flags.repair))
            && forall x <- t :: x != d ==>
                 if d in t && t[d].hcnt == 1 && t'[d].hcnt > 1 && t[x].nextHop == d then
                   !t'[x].valid && (t[x].valid ==> t'[x].seqno == Incr(t[x].seqno)) && (!t[x].valid ==> t'[x] == t[x])
                 else t'[x] == t[x]
  {
  }

  /**
   An offer is taken if the destination or its number is unknown, if its own number is newer in signed
   arithmetic, or for the same number if the route is down, the link was one-way, or it is cheaper.
   */
  lemma AcceptsMeans(t: Table, m: Message, cost: real)
    ensures var d, n := m.About(), m.Seqno();
            Accepts(t, m, cost) <==>
              || d !in t || t[d].seqno == 0
              || (if n < HALF then n else n - RANGE) > (if t[d].seqno < HALF then t[d].seqno else t[d].seqno - RANGE)
              || (n == t[d].seqno && (!t[d].valid || cost < t[d].cost || (m.Rrep? && t[d].flags.unidir)))
  {
  }

  /** `rreq_record_find_less_cost` */
  predicate Filtered(records: map<Key, real>, key: Key, cost: real) {
    key in records && records[key] < cost
  }

  /** `rreq_record_insert_with_cost`: the first cost stays. */
  function Remember(records: map<Key, real>, key: Key, cost: real): map<Key, real> {
    if key in records then records else records[key := cost]
  }

  // ---------- the handlers ----------

  /** The destination raises its own number to answer a request that asks for `wanted`. */
  function AnswerSeqno(own: u32, wanted: u32): u32 {
    if wanted == 0 then own
    else if Int32(own) < Int32(wanted) then wanted
    else if own == wanted then Incr(own)
    else own
  }

  /** An entry made without a channel is dropped before it can answer a request. */
  function DropUnchannelled(t: Table, d: Addr): Table {
    if d in t && t[d].channel == -1 then t - {d} else t
  }

  predicate CanAnswer(t: Table, m: Message)
    requires m.Rreq?
  {
    && m.dest in t && t[m.dest].valid && !m.destOnly
    && t[m.dest].seqno != 0 && Int32(t[m.dest].seqno) >= Int32(m.destSeqno)
  }

  /** One copy of `m` per channel. */
  function OnEveryChannel(ttl: u8, m: Message): seq<Send> {
    [Broadcast(0, ttl, m), Broadcast(1, ttl, m), Broadcast(2, ttl, m)]
  }

  /** What a node does with a request whose reverse route it has just taken. */
  function AnswerOrForward(self: Addr, nd: Node, p: Packet, cost: real): Reaction
    requires p.msg.Rreq?
  {
    var m := p.msg;
    if m.dest == self then
      var own := AnswerSeqno(nd.seqno, m.destSeqno);
      Reaction(nd.(seqno := own), [Unicast(p.src, p.channel, MAXTTL, Rrep(self, own, m.orig, 0, 0.0))])
    else
      var t := DropUnchannelled(nd.table, m.dest);
      var nd' := nd.(table := t);
      if CanAnswer(t, m) then
        var f := t[m.dest];
        Reaction(nd', [Unicast(p.src, f.channel, MAXTTL, Rrep(m.dest, f.seqno, m.orig, f.hcnt, f.cost))])
      else if p.ttl > 1 then
        var wanted :=
          if m.dest in t && Int32(t[m.dest].seqno) > Int32(m.destSeqno) then t[m.dest].seqno else m.destSeqno;
        Reaction(nd', OnEveryChannel(p.ttl - 1, Rreq(m.id, m.dest, wanted, m.orig, m.origSeqno, Next(m.hcnt), cost,
            m.destOnly)))
      else
        Reaction(nd', [])
  }

  /** `rreq_process` for an ordinary request; `link` is what `getCost` returns for its last hop. */
  function RreqProcess(self: Addr, nd: Node, p: Packet, link: real): Reaction
    requires p.msg.Rreq?
  {
    var m := p.msg;
    var cost := m.cost + link;
    if m.orig == self || p.src in nd.blacklist || Filtered(nd.records, (m.orig, m.id), cost) then
      Reaction(nd, [])
    else
      var nd1 := nd.(records := Remember(nd.records, (m.orig, m.id), cost));
      if !Accepts(nd.table, m, cost) then Reaction(nd1, [])
      else AnswerOrForward(self, nd1.(table := Adopt(nd.table, p, link)), p, cost)
  }

  /** A node's own request, one from a blacklisted neighbour and one it has seen cheaper leave no trace. */
  lemma IgnoredRequests(self: Addr, nd: Node, p: Packet, link: real)
    requires p.msg.Rreq?
    requires || p.msg.orig == self || p.src in nd.blacklist
             || ((p.msg.orig, p.msg.id) in nd.records && nd.records[(p.msg.orig, p.msg.id)] < p.msg.cost + link)
    ensures RreqProcess(self, nd, p, link) == Reaction(nd, [])
  {
  }

  /** Any other request is recorded, at the cost of its first copy; the routes decide whether more is done. */
  lemma OtherRequests(self: Addr, nd: Node, p: Packet, link: real)
    requires p.msg.Rreq? && p.msg.orig != self && p.src !in nd.blacklist
    requires (p.msg.orig, p.msg.id) in nd.records ==> nd.records[(p.msg.orig, p.msg.id)] >= p.msg.cost + link
    ensures var key, cost := (p.msg.orig, p.msg.id), p.msg.cost + link;
            var nd' := nd.(records := if key in nd.records then nd.records else nd.records[key := cost]);
            RreqProcess(self, nd, p, link) ==
              if Accepts(nd.table, p.msg, cost)
              then AnswerOrForward(self, nd'.(table := Adopt(nd.table, p, link)), p, cost)
              else Reaction(nd', [])
  {
    hide Adopt, Accepts, AnswerOrForward;
  }

  /**
   The destination answers with a number that is no older than its own nor than the one wanted, and
   newer than that if the request knows its number already.
   */
  lemma DestinationMeans(self: Addr, nd: Node, p: Packet, cost: real)
    requires p.msg.Rreq? && p.msg.dest == self
    ensures var m, r := p.msg, AnswerOrForward(self, nd, p, cost);
            && r.node.seqno == (if m.destSeqno != 0 && Int32(m.destSeqno) > Int32(nd.seqno) then m.destSeqno
                                else if m.destSeqno != 0 && m.destSeqno == nd.seqno then Incr(nd.seqno)
                                else nd.seqno)
            && r.node == nd.(seqno := r.node.seqno)
            && r.sends == [Unicast(p.src, p.channel, MAXTTL, Rrep(self, r.node.seqno, m.orig, 0, 0.0))]
  {
  }

  /**
   A node other than the destination answers exactly if it holds a valid route with a channel and a
   known number no older than wanted, and the flag allows it; the answer offers that route on its
   channel. A route without a channel is dropped, whatever happens.
   */
  lemma IntermediateMeans(self: Addr, nd: Node, p: Packet, cost: real)
    requires p.msg.Rreq? && p.msg.dest != self
    ensures var m, r := p.msg, AnswerOrForward(self, nd, p, cost);
            var d := m.dest;
            && (d in nd.table && nd.table[d].channel == -1 ==> r.node.table == nd.table - {d})
            && (d in nd.table ==> nd.table[d].channel == -1 || r.node.table == nd.table)
            && (d !in nd.table ==> r.node.table == nd.table)
            && ((exists send :: send in r.sends && send.msg.Rrep?) <==>
                  && d in nd.table && nd.table[d].channel != -1 && nd.table[d].valid && !m.destOnly
                  && nd.table[d].seqno != 0 && Int32(nd.table[d].seqno) >= Int32(m.destSeqno))
            && (forall send <- r.sends :: send.msg.Rrep? ==>
                  && send == Unicast(p.src, nd.table[d].channel, MAXTTL,
                                     Rrep(d, nd.table[d].seqno, m.orig, nd.table[d].hcnt, nd.table[d].cost))
                  && r.sends == [send])
  {
    var m, d := p.msg, p.msg.dest;
    var t := DropUnchannelled(nd.table, d);
    if CanAnswer(t, m) {
      assert AnswerOrForward(self, nd, p, cost).sends[0].msg.Rrep?;
    }
  }

  /** If it does not answer it sends the request on, unless the time-to-live is used up, for the newest number. */
  lemma ForwardMeans(self: Addr, nd: Node, p: Packet, cost: real)
    requires p.msg.Rreq? && p.msg.dest != self
    ensures var m, sends := p.msg, AnswerOrForward(self, nd, p, cost).sends;
            var known := m.dest in nd.table && nd.table[m.dest].channel != -1;
            (forall send <- sends :: send.msg.Rreq?) && p.ttl > 1 ==>
              && |sends| == 3 && forall ch :: 0 <= ch < 3 ==>
                   var send: Send := sends[ch];
                   && send.Broadcast? && send.channel == ch && send.ttl == p.ttl - 1
                   && send.msg == m.(destSeqno := send.msg.destSeqno, hcnt := Next(m.hcnt), cost := cost)
                   && send.msg.destSeqno == if known && Int32(nd.table[m.dest].seqno) > Int32(m.destSeqno)
                        then nd.table[m.dest].seqno else m.destSeqno
    ensures p.ttl <= 1 ==> forall send <- AnswerOrForward(self, nd, p, cost).sends :: send.msg.Rrep?
  {
  }

  /** `rrep_process` for an ordinary reply. */
  function RrepProcess(self: Addr, nd: Node, p: Packet, link: real): Reaction
    requires p.msg.Rrep?
  {
    var m := p.msg;
    if m.dest == self || !Accepts(nd.table, m, m.cost + link) then Reaction(nd, [])
    else
      var t := Adopt(nd.table, p, link);
      var nd' := nd.(table := t);
      if m.orig != self && m.orig in nd.table && t[m.orig].valid then
        var rev := t[m.orig];
        Reaction(nd', [Unicast(rev.nextHop, rev.channel, Previous(p.ttl),
                               Rrep(m.dest, m.destSeqno, m.orig, t[m.dest].hcnt, m.cost + link))])
      else Reaction(nd', [])
  }

  /**
   A reply about the node itself, or refused, leaves no trace. Any other is taken, and goes on exactly
   if another node asked for it to which a valid route is left, with the cost and the hops so far.
   */
  lemma ReplyMeans(self: Addr, nd: Node, p: Packet, link: real)
    requires p.msg.Rrep?
    ensures var m, r := p.msg, RrepProcess(self, nd, p, link);
            var taken := m.dest != self && Accepts(nd.table, m, m.cost + link);
            && r.node == (if taken then nd.(table := Adopt(nd.table, p, link)) else nd)
            && (r.sends != [] <==> taken && m.orig != self && m.orig in nd.table && r.node.table[m.orig].valid)
            && (r.sends != [] ==>
                  var rev := r.node.table[m.orig];
                  r.sends == [Unicast(rev.nextHop, rev.channel, if p.ttl == 0 then 0xFF else p.ttl - 1,
                                      Rrep(m.dest, m.destSeqno, m.orig, Next(m.hcnt), m.cost + link))])
  {
  }

  /** A packet the node itself sent is never processed. */
  function Receive(nd: Node, p: Packet, link: real): Reaction {
    if p.src == p.dst then Reaction(nd, [])
    else if p.msg.Rreq? then RreqProcess(p.dst, nd, p, link)
    else RrepProcess(p.dst, nd, p, link)
  }

  /** The three requests of one flood: one per channel, each with an identifier of its own. */
  function Flood(self: Addr, nd: Node, dest: Addr, destSeqno: u32, ttl: u8, destOnly: bool): seq<Send> {
    var m := Rreq(nd.rreqId, dest, destSeqno, self, PlusOne(nd.seqno), 0, 0.0, destOnly);
    [Broadcast(0, ttl, m),
     Broadcast(1, ttl, m.(id := PlusOne(nd.rreqId))),
     Broadcast(2, ttl, m.(id := PlusOne(PlusOne(nd.rreqId))))]
  }

  /** `rreq_route_discovery`: the requests carry the host number plus one, then the host counts up. */
  function Discover(self: Addr, nd: Node, dest: Addr, destOnly: bool): Reaction {
    var destSeqno := if dest in nd.table then nd.table[dest].seqno else 0;
    Reaction(nd.(rreqId := PlusOne(PlusOne(PlusOne(nd.rreqId))), seqno := Incr(nd.seqno)),
             Flood(self, nd, dest, destSeqno, DISCOVERY_TTL, destOnly))
  }

  /** The resend of `route_discovery_timeout`, which leaves the host number alone. */
  function Rediscover(self: Addr, nd: Node, dest: Addr, destSeqno: u32, ttl: u8, destOnly: bool): Reaction {
    Reaction(nd.(rreqId := PlusOne(PlusOne(PlusOne(nd.rreqId)))), Flood(self, nd, dest, destSeqno, ttl, destOnly))
  }

  /** What a node sent itself leaves no trace; any other packet is processed by its kind. */
  lemma ReceiveMeans(nd: Node, p: Packet, link: real)
    ensures p.src == p.dst ==> Receive(nd, p, link) == Reaction(nd, [])
    ensures p.src != p.dst && p.msg.Rreq? ==> Receive(nd, p, link) == RreqProcess(p.dst, nd, p, link)
    ensures p.src != p.dst && p.msg.Rrep? ==> Receive(nd, p, link) == RrepProcess(p.dst, nd, p, link)
  {
  }

  /** A search is three requests, alike but for their identifiers; only a first one counts the host number up. */
  lemma SearchMeans(self: Addr, nd: Node, dest: Addr, destSeqno: u32, ttl: u8, destOnly: bool)
    ensures var first := Discover(self, nd, dest, destOnly);
            var again := Rediscover(self, nd, dest, destSeqno, ttl, destOnly);
            var ids := [nd.rreqId, PlusOne(nd.rreqId), PlusOne(PlusOne(nd.rreqId)),
                        PlusOne(PlusOne(PlusOne(nd.rreqId)))];
            var known := if dest in nd.table then nd.table[dest].seqno else 0;
            && first.node == nd.(rreqId := ids[3], seqno := Incr(nd.seqno)) && again.node == nd.(rreqId := ids[3])
            && |first.sends| == 3 && |again.sends| == 3
            && forall ch :: 0 <= ch < 3 ==>
                 && first.sends[ch] ==
                      Broadcast(ch, 32, Rreq(ids[ch], dest, known, self, PlusOne(nd.seqno), 0, 0.0, destOnly))
                 && again.sends[ch] ==
                      Broadcast(ch, ttl, Rreq(ids[ch], dest, destSeqno, self, PlusOne(nd.seqno), 0, 0.0, destOnly))
  {
  }
}
