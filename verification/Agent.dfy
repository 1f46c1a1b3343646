/**
 The message handlers of one agent as they run: on the routing table with its entries changed in
 place, on the host's own counters and on the list of requests seen. Each handler is proved to
 do to the routes, and to send, exactly what the protocol functions of module Aodv say.
 */
module Agent {
  import opened SequenceNumbers
  import opened Aodv
  import opened RoutingTable

  /** `struct rreq_record` without its timer. */
  datatype Record = Record(orig: Addr, id: u32, cost: real)

  /** What the record list says about a request: the newest entry for it counts. */
  function RecordMap(records: seq<Record>): map<Key, real> {
    if records == [] then map[]
    else RecordMap(records[1..])[(records[0].orig, records[0].id) := records[0].cost]
  }

  predicate OncePerRequest(records: seq<Record>) {
    records == [] || ((records[0].orig, records[0].id) !in RecordMap(records[1..]) && OncePerRequest(records[1..]))
  }

  lemma {:induction false} RecordListed(records: seq<Record>, orig: Addr, id: u32)
    ensures (orig, id) in RecordMap(records) <==>
              exists i :: 0 <= i < |records| && records[i].orig == orig && records[i].id == id
  {
    if records != [] {
      RecordListed(records[1..], orig, id);
      if i :| 0 <= i < |records[1..]| && records[1..][i].orig == orig && records[1..][i].id == id {
        assert records[i + 1].orig == orig && records[i + 1].id == id;
      }
      if i :| 0 <= i < |records| && records[i].orig == orig && records[i].id == id {
        if i > 0 {
          assert records[1..][i - 1].orig == orig && records[1..][i - 1].id == id;
        }
      }
    }
  }

  lemma {:induction false} RecordAt(records: seq<Record>, i: nat)
    requires OncePerRequest(records) && i < |records|
    ensures (records[i].orig, records[i].id) in RecordMap(records)
    ensures RecordMap(records)[(records[i].orig, records[i].id)] == records[i].cost
  {
    if i > 0 {
      RecordAt(records[1..], i - 1);
    }
  }

  lemma {:induction false} RecordRemoved(records: seq<Record>, i: nat)
    requires OncePerRequest(records) && i < |records|
    ensures var rest := records[..i] + records[i + 1..];
            OncePerRequest(rest) && RecordMap(rest) == RecordMap(records) - {(records[i].orig, records[i].id)}
  {
    var rest := records[..i] + records[i + 1..];
    if i == 0 {
      assert rest == records[1..];
    } else {
      RecordRemoved(records[1..], i - 1);
      assert rest[0] == records[0] && rest[1..] == records[1..][..i - 1] + records[1..][i..];
      RecordAt(records[1..], i - 1);
      var key := (records[0].orig, records[0].id);
      assert RecordMap(rest) == RecordMap(rest[1..])[key := records[0].cost];
      assert RecordMap(records) == RecordMap(records[1..])[key := records[0].cost];
    }
  }

  // ---------- what becomes of the entries, field by field ----------

  /** The entry made for an offer; its precursors are another matter. */
  ghost predicate Anew(st: State, p: Packet, link: real, life: nat, k: Clock) {
    st.(precursors := []) ==
      State(Route(p.msg.Seqno(), true, p.msg.cost + link, Next(p.msg.hcnt), p.src, p.channel, Flags(false, false)),
            RouteExpire, life != 0, if life != 0 then k.now + life else 0, false, [])
  }

  /** A neighbour's entry that leads farther than one hop from now on. */
  ghost predicate Farther(before: State, p: Packet) {
    Next(p.msg.hcnt) > 1 && before.route.hcnt == 1
  }

  /** The entry rewritten for an offer: it is put off to the new lifetime unless that is earlier. */
  ghost predicate InPlace(before: State, st: State, p: Packet, link: real, life: nat, k: Clock) {
    var r := before.route;
    var stays := r.valid && !Farther(before, p) && k.now + life <= before.due;
    st.(precursors := []) ==
      State(Route(p.msg.Seqno(), true, p.msg.cost + link, Next(p.msg.hcnt), p.src, p.channel,
                  Flags(r.flags.unidir, r.valid && r.flags.repair)),
            RouteExpire, if stays then before.armed else true, if stays then before.due else k.now + life,
            before.hello && !Farther(before, p), [])
  }

  /** Any other entry stays, unless its route leads through a neighbour that is none any more. */
  ghost predicate Aside(before: State, st: State, d: Addr, gone: bool, repair: bool, k: Clock) {
    var r := before.route;
    st.(precursors := []) ==
      if gone && r.valid && r.nextHop == d then
        var again := r.flags.repair || repair;
        State(Route(Incr(r.seqno), false, r.cost, r.hcnt, r.nextHop, r.channel, Flags(r.flags.unidir, again)),
              if again then LocalRepair else RouteDelete, true, k.now + (if again then k.active else k.delete), false,
              [])
      else before.(precursors := [])
  }

  /** The route that `p` offers is taken; nothing is said of the destinations in `rest`. */
  ghost predicate RouteTaken(t: StateMap, t': StateMap, p: Packet, link: real, life: nat, k: Clock, rest: set<Addr>) {
    var d := p.msg.About();
    && d in t' && (if d in t then InPlace(t[d], t'[d], p, link, life, k) else Anew(t'[d], p, link, life, k))
    && t'.Keys + rest == t.Keys + {d} + rest
    && forall x <- t :: x != d && x !in rest ==>
         x in t' && Aside(t[x], t'[x], d, d in t && Farther(t[d], p), d in t && t[d].route.flags.repair, k)
  }

  /** The precursors of a destination; one without an entry has none. */
  function Precursors(t: StateMap, d: Addr): seq<Addr> {
    if d in t then t[d].precursors else []
  }

  ghost predicate SamePrecursors(t: StateMap, t': StateMap, except: set<Addr>) {
    forall x <- t' :: x !in except ==> t'[x].precursors == Precursors(t, x)
  }

  /** `a` is among the precursors of `d` now and `b` among those of `o`; nobody else has come or gone. */
  ghost predicate Linked(t: StateMap, t': StateMap, d: Addr, a: Addr, o: Addr, b: Addr) {
    && d in t' && o in t' && SamePrecursors(t, t', {d, o})
    && forall x <- t', c: Addr :: c in t'[x].precursors <==>
         c in Precursors(t, x) || (x == d && c == a) || (x == o && c == b)
  }

  /** Nothing but precursors has changed, and no destination is new. */
  ghost predicate SameButPrecursors(t: StateMap, t': StateMap) {
    forall x <- t' :: x in t && t'[x].(precursors := []) == t[x].(precursors := [])
  }

  /** The destination if its entry was made without a channel. */
  function Unchannelled(t: StateMap, d: Addr): set<Addr> {
    if d in t && t[d].route.channel == -1 then {d} else {}
  }

  /** A request is answered, not sent on. */
  predicate Answered(sends: seq<Send>) {
    sends != [] && sends[0].msg.Rrep?
  }

  ghost predicate AllRunning(t: StateMap) {
    forall d <- t :: t[d].armed
  }

  /** A valid entry is kept for its period from now on, if that is longer. */
  ghost predicate PutOff(before: State, st: State, k: Clock) {
    st.(precursors := []) ==
      if before.route.valid && before.due >= k.now + k.active then before.(precursors := [])
      else before.(precursors := [], armed := true, due := k.now + k.active)
  }

  /** The destination's entry lives until a reply could come back; all else stays. */
  ghost predicate KeptForReply(t: StateMap, t': StateMap, dest: Addr, k: Clock) {
    && t'.Keys == t.Keys
    && forall d <- t ::
         t'[d] == if d == dest && t[d].due < k.now + PATH_DISCOVERY_TIME
           then t[d].(armed := true, due := k.now + PATH_DISCOVERY_TIME) else t[d]
  }

  lemma AddingTakes(t: StateMap, t': StateMap, st: State, p: Packet, link: real, life: nat, k: Clock)
    requires p.msg.About() !in t && t' == t[p.msg.About() := st]
    requires st == Inserted(Route(p.msg.Seqno(), true, p.msg.cost + link, Next(p.msg.hcnt), p.src, p.channel,
                                  Flags(false, false)), life, k)
    ensures RouteTaken(t, t', p, link, life, k, {}) && SamePrecursors(t, t', {})
  {
  }

  lemma UpdatedInPlace(before: State, p: Packet, link: real, life: nat, k: Clock)
    ensures var st := Updated(before, p.src, Next(p.msg.hcnt), p.msg.Seqno(), life, before.route.flags, p.channel,
                              p.msg.cost + link, k);
            InPlace(before, st, p, link, life, k) && st.precursors == before.precursors
    ensures Demotes(before, Next(p.msg.hcnt)) <==> Farther(before, p)
  {
  }

  lemma StaysAside(before: State, p: Packet, d: Addr, gone: bool, repair: bool, k: Clock)
    ensures var st := if gone then Swept(before, d, repair, k) else before;
            Aside(before, st, d, gone, repair, k) && st.precursors == before.precursors
  {
  }

  /** What the second half of `rreq_process` leaves of the entries. */
  ghost predicate AnswersOrForwards(t: StateMap, t': StateMap, self: Addr, p: Packet, sends: seq<Send>)
    requires p.msg.Rreq?
  {
    if p.msg.dest == self then t' == t
    else
      && SameButPrecursors(t, t') && t'.Keys + Unchannelled(t, p.msg.dest) == t.Keys
      && (if Answered(sends) then
            p.msg.dest in t' && Linked(t, t', p.msg.dest, p.src, p.msg.orig, t'[p.msg.dest].route.nextHop)
          else SamePrecursors(t, t', {}))
  }

  /** The guards of `rreq_process` let the request through to the routes. */
  predicate Takes(self: Addr, nd: Node, p: Packet, link: real)
    requires p.msg.Rreq?
  {
    && p.msg.orig != self && p.src !in nd.blacklist
    && !Filtered(nd.records, (p.msg.orig, p.msg.id), p.msg.cost + link) && Accepts(nd.table, p.msg, p.msg.cost + link)
  }

  /** What a request leaves of the entries; `taken` says that the guards let it through to the routes. */
  ghost predicate RequestOutcome(t: StateMap, t': StateMap, self: Addr, p: Packet, link: real, k: Clock, taken: bool,
                                 sends: seq<Send>)
    requires p.msg.Rreq?
  {
    var m, life := p.msg, Life(Next(p.msg.hcnt));
    && (!taken ==> t' == t)
    && (taken && m.dest != m.orig ==>
          RouteTaken(t, t', p, link, life, k, if m.dest == self then {} else Unchannelled(t, m.dest)))
    && (taken ==>
          if m.dest != self && Answered(sends) then
            m.dest in t' && Linked(t, t', m.dest, p.src, m.orig, t'[m.dest].route.nextHop)
          else SamePrecursors(t, t', {}))
    && (AllRunning(t) && life != 0 ==> AllRunning(t'))
  }

  /** What a reply leaves of the entries; `taken` says that it is about another node and accepted. */
  ghost predicate ReplyOutcome(t: StateMap, t': StateMap, p: Packet, link: real, life: nat, k: Clock, taken: bool,
                               sends: seq<Send>)
    requires p.msg.Rrep?
  {
    var m := p.msg;
    && (!taken ==> t' == t)
    && (taken && sends == [] ==> RouteTaken(t, t', p, link, life, k, {}) && SamePrecursors(t, t', {}))
    && (sends != [] ==>
          && sends[0].Unicast? && Linked(t, t', m.dest, sends[0].to, m.orig, p.src)
          && (m.orig != m.dest ==>
                && RouteTaken(t, t', p, link, life, k, {m.orig})
                && m.orig in t && m.orig in t' && PutOff(t[m.orig], t'[m.orig], k)))
    && (AllRunning(t) && life != 0 ==> AllRunning(t'))
  }

  lemma NothingTaken(t: StateMap, self: Addr, p: Packet, link: real, k: Clock)
    requires p.msg.Rreq?
    ensures RequestOutcome(t, t, self, p, link, k, false, [])
  {
  }

  lemma NothingForwarded(t: StateMap, t': StateMap, p: Packet, link: real, life: nat, k: Clock, taken: bool)
    requires p.msg.Rrep?
    requires if taken then RouteTaken(t, t', p, link, life, k, {}) && SamePrecursors(t, t', {}) else t' == t
    ensures ReplyOutcome(t, t', p, link, life, k, taken, [])
  {
    if taken && AllRunning(t) && life != 0 {
      TakingKeepsTimers(t, t', p, link, life, k);
    }
  }

  lemma FoundThenAnswered(t: StateMap, t1: StateMap, t': StateMap, self: Addr, p: Packet, sends: seq<Send>)
    requires p.msg.Rreq? && p.msg.dest != self && Answered(sends) && p.msg.dest in t1
    requires t1 == t && p.msg.dest in t && t[p.msg.dest].route.channel != -1 && t'.Keys == t1.Keys
    requires SameButPrecursors(t1, t')
    requires Linked(t1, t', p.msg.dest, p.src, p.msg.orig, t1[p.msg.dest].route.nextHop)
    ensures AnswersOrForwards(t, t', self, p, sends)
  {
    assert t'[p.msg.dest].(precursors := []).route == t1[p.msg.dest].(precursors := []).route;
  }

  lemma FoundThenForwarded(t: StateMap, t1: StateMap, self: Addr, p: Packet, sends: seq<Send>)
    requires p.msg.Rreq? && p.msg.dest != self && !Answered(sends)
    requires t1 == if p.msg.dest in t && t[p.msg.dest].route.channel == -1 then t - {p.msg.dest} else t
    ensures AnswersOrForwards(t, t1, self, p, sends)
  {
  }

  lemma TakenThenAnswered(t: StateMap, t1: StateMap, t': StateMap, self: Addr, p: Packet, link: real, k: Clock,
                          sends: seq<Send>)
    requires p.msg.Rreq? && RouteTaken(t, t1, p, link, Life(Next(p.msg.hcnt)), k, {}) && SamePrecursors(t, t1, {})
    requires AnswersOrForwards(t1, t', self, p, sends)
    ensures RequestOutcome(t, t', self, p, link, k, true, sends)
  {
    hide Anew, InPlace, Aside, Answered;
    if AllRunning(t) && Life(Next(p.msg.hcnt)) != 0 {
      TakingKeepsTimers(t, t1, p, link, Life(Next(p.msg.hcnt)), k);
    }
    if p.msg.dest != p.msg.orig {
      TakenStays(t, t1, t', self, p, link, Life(Next(p.msg.hcnt)), k);
    }
    if p.msg.dest != self && Answered(sends) {
      LinksStay(t, t1, t', p.msg.dest, p.src, p.msg.orig, t'[p.msg.dest].route.nextHop);
    }
  }

  lemma TakenStays(t: StateMap, t1: StateMap, t': StateMap, self: Addr, p: Packet, link: real, life: nat, k: Clock)
    requires p.msg.Rreq? && p.msg.dest != p.msg.orig && RouteTaken(t, t1, p, link, life, k, {})
    requires if p.msg.dest == self then t' == t1
             else SameButPrecursors(t1, t') && t'.Keys + Unchannelled(t1, p.msg.dest) == t1.Keys
    ensures RouteTaken(t, t', p, link, life, k, if p.msg.dest == self then {} else Unchannelled(t, p.msg.dest))
  {
    if p.msg.dest != self {
      assert Unchannelled(t1, p.msg.dest) == Unchannelled(t, p.msg.dest);
      forall x | x in t && x != p.msg.orig && x !in Unchannelled(t, p.msg.dest)
        ensures x in t' && t'[x].(precursors := []) == t1[x].(precursors := []) {
      }
    }
  }

  /** What is linked after a step that changed no precursors is linked over both. */
  lemma LinksStay(t: StateMap, t1: StateMap, t': StateMap, d: Addr, a: Addr, o: Addr, b: Addr)
    requires SamePrecursors(t, t1, {}) && Linked(t1, t', d, a, o, b) && t'.Keys <= t1.Keys
    ensures Linked(t, t', d, a, o, b)
  {
    forall x | x in t' ensures Precursors(t1, x) == Precursors(t, x) {
    }
  }

  lemma LinkedThenPutOff(t: StateMap, t1: StateMap, t': StateMap, d: Addr, a: Addr, o: Addr, b: Addr, k: Clock)
    requires t1.Keys == t.Keys && o in t && SameButPrecursors(t, t1) && Linked(t, t1, d, a, o, b)
    requires o in t' && t' == t1[o := t'[o]] && t'[o].precursors == t1[o].precursors && PutOff(t1[o], t'[o], k)
    ensures Linked(t, t', d, a, o, b) && t'.Keys == t.Keys && PutOff(t[o], t'[o], k)
    ensures forall x <- t' :: x != o ==> t'[x].(precursors := []) == t[x].(precursors := [])
  {
  }

  lemma TakenThenForwarded(t: StateMap, t1: StateMap, t': StateMap, p: Packet, link: real, life: nat, k: Clock,
                           send: Send)
    requires p.msg.Rrep? && RouteTaken(t, t1, p, link, life, k, {}) && SamePrecursors(t, t1, {}) && send.Unicast?
    requires p.msg.orig in t && p.msg.orig in t1 && t1[p.msg.orig].route.valid && t'.Keys == t1.Keys
    requires Linked(t1, t', p.msg.dest, send.to, p.msg.orig, p.src) && PutOff(t1[p.msg.orig], t'[p.msg.orig], k)
    requires forall x <- t' :: x != p.msg.orig ==> t'[x].(precursors := []) == t1[x].(precursors := [])
    ensures ReplyOutcome(t, t', p, link, life, k, true, [send])
  {
    LinksStay(t, t1, t', p.msg.dest, send.to, p.msg.orig, p.src);
    if AllRunning(t) && life != 0 {
      TakingKeepsTimers(t, t1, p, link, life, k);
      forall x | x in t' ensures t'[x].armed {
        assert x in t1 && t1[x].armed;
      }
    }
    hide Linked, SamePrecursors, AllRunning;
  }

  /** Taking a route that lives for some time stops no timer. */
  lemma TakingKeepsTimers(t: StateMap, t': StateMap, p: Packet, link: real, life: nat, k: Clock)
    requires RouteTaken(t, t', p, link, life, k, {}) && AllRunning(t) && life != 0
    ensures AllRunning(t')
  {
    forall x | x in t' ensures t'[x].armed {
      if x != p.msg.About() {
        assert x in t && Aside(t[x], t'[x], p.msg.About(), p.msg.About() in t && Farther(t[p.msg.About()], p),
                               p.msg.About() in t && t[p.msg.About()].route.flags.repair, k);
      }
    }
  }

  class Agent {
    const self: Addr
    const rt: RoutingTable
    var seqno: u32
    var rreqId: u32
    var records: seq<Record>
    var blacklist: seq<Addr>

    ghost predicate Valid()
      reads this, rt, rt.tbl, rt.entries
    {
      rt.Valid() && Unique(rt.entries) && rt.self == self && OncePerRequest(records)
    }

    /** The state of the agent as the protocol sees it. */
    ghost function View(): Node
      requires Unique(rt.entries)
      reads this, rt, rt.entries
    {
      Node(seqno, rreqId, rt.Table(), RecordMap(records), set a | a in blacklist)
    }

    constructor (self: Addr)
      ensures Valid() && View() == FRESH_NODE && this.self == self && fresh(rt) && fresh(rt.tbl)
    {
      this.self := self;
      rt := new RoutingTable(self);
      seqno, rreqId, records, blacklist := 1, 0, [], [];
      new;
      assert rt.Table() == map[];
    }

    // ---------- the record of requests seen ----------

    /** `rreq_record_find_less_cost` */
    method RecordFindLessCost(orig: Addr, id: u32, cost: real) returns (found: bool)
      requires OncePerRequest(records)
      ensures found == Filtered(RecordMap(records), (orig, id), cost)
    {
      var i := 0;
      while i < |records|
        invariant i <= |records|
        invariant forall j :: 0 <= j < i ==> !(records[j].orig == orig && records[j].id == id && records[j].cost < cost)
      {
        if records[i].orig == orig && records[i].id == id && records[i].cost < cost {
          RecordAt(records, i);
          return true;
        }
        i := i + 1;
      }
      RecordListed(records, orig, id);
      if j :| 0 <= j < |records| && records[j].orig == orig && records[j].id == id {
        RecordAt(records, j);
      }
      found := false;
    }

    /** `rreq_record_find` */
    method RecordFind(orig: Addr, id: u32) returns (found: bool)
      ensures found == ((orig, id) in RecordMap(records))
    {
      RecordListed(records, orig, id);
      var i := 0;
      while i < |records|
        invariant i <= |records|
        invariant forall j :: 0 <= j < i ==> !(records[j].orig == orig && records[j].id == id)
      {
        if records[i].orig == orig && records[i].id == id {
          return true;
        }
        i := i + 1;
      }
      found := false;
    }

    /** `rreq_record_insert_with_cost` */
    method RecordInsert(orig: Addr, id: u32, cost: real)
      requires OncePerRequest(records)
      modifies this`records
      ensures OncePerRequest(records) && RecordMap(records) == Remember(old(RecordMap(records)), (orig, id), cost)
    {
      var known := RecordFind(orig, id);
      if !known {
        records := [Record(orig, id, cost)] + records;
        assert records[1..] == old(records);
      }
    }

    /** `rreq_record_timeout` */
    method RecordTimeout(i: nat)
      requires OncePerRequest(records) && i < |records|
      modifies this`records
      ensures OncePerRequest(records)
      ensures RecordMap(records) == old(RecordMap(records)) - {(old(records[i].orig), old(records[i].id))}
    {
      RecordRemoved(records, i);
      records := records[..i] + records[i + 1..];
    }

    // ---------- taking a route ----------

    /** A destination without an entry gets one. */
    method InsertRoute(p: Packet, link: real, life: nat, k: Clock) returns (e: Entry)
      requires Valid() && p.msg.About() != self && !Knows(rt.entries, p.msg.About())
      modifies rt, rt.tbl, rt.entries
      ensures Valid() && p.msg.About() !in old(rt.Table()) && rt.Table() == Adopt(old(rt.Table()), p, link)
      ensures e in rt.entries && e.dest == p.msg.About() && e.nextHop == p.src
      ensures fresh(rt.entries - old(rt.entries)) && old(rt.entries) <= rt.entries
      ensures RouteTaken(old(rt.States()), rt.States(), p, link, life, k, {})
      ensures SamePrecursors(old(rt.States()), rt.States(), {})
    {
      hide RoutingTable.Valid, RoutingTable.Table, RoutingTable.States, RouteTaken, SamePrecursors, Unique;
      e := MakeEntry(p, link, life, k);
      rt.InsertRefines(e);
      rt.EntryAdded(e);
      AddingTakes(old(rt.States()), rt.States(), e.Value(), p, link, life, k);
    }

    method MakeEntry(p: Packet, link: real, life: nat, k: Clock) returns (e: Entry)
      requires Valid() && p.msg.About() != self && !Knows(rt.entries, p.msg.About())
      modifies rt, rt.tbl, rt.entries
      ensures Valid() && fresh(e) && e.dest == p.msg.About() && rt.entries == old(rt.entries) + {e}
      ensures e.Value() == Inserted(Route(p.msg.Seqno(), true, p.msg.cost + link, Next(p.msg.hcnt), p.src, p.channel,
                                          Flags(false, false)), life, k)
      ensures forall e' <- old(rt.entries) :: e'.Value() == old(e'.Value())
    {
      hide RoutingTable.Valid;
      var m := p.msg;
      var inserted := rt.InsertWithChannel(m.About(), p.src, Next(m.hcnt), m.Seqno(), life, true, Flags(false, false),
          p.channel, m.cost + link, k);
      e := inserted;
    }

    /** A destination with an entry gets the new route in place. */
    method UpdateRoute(e: Entry, p: Packet, link: real, life: nat, k: Clock)
      requires Valid() && e in rt.entries && e.dest == p.msg.About()
      modifies rt, rt.entries
      ensures Valid() && rt.entries == old(rt.entries) && e.nextHop == p.src
      ensures p.msg.About() in old(rt.Table()) && rt.Table() == Adopt(old(rt.Table()), p, link)
      ensures RouteTaken(old(rt.States()), rt.States(), p, link, life, k, {})
      ensures SamePrecursors(old(rt.States()), rt.States(), {})
    {
      hide RoutingTable.Valid, RoutingTable.Table, RoutingTable.States, Swept, Invalidated, RouteTaken, SamePrecursors,
           Unique;
      var m, cost := p.msg, p.msg.cost + link;
      rt.UpdateWithChannel(e, p.src, Next(m.hcnt), m.Seqno(), life, e.flags, p.channel, cost, k);
      rt.UpdateRefines(e, p.src, Next(m.hcnt), m.Seqno(), life, p.channel, cost, k);
      UpdateTakes(e, p, link, life, k);
    }

    /** What the update does, said of the fields. */
    twostate lemma UpdateTakes(e: Entry, new p: Packet, new link: real, new life: nat, new k: Clock)
      requires Unique(rt.entries) && rt.entries == old(rt.entries) && e in rt.entries && e.dest == p.msg.About()
      requires e.Value() == Updated(old(e.Value()), p.src, Next(p.msg.hcnt), p.msg.Seqno(), life, old(e.flags),
                                    p.channel, p.msg.cost + link, k)
      requires forall e' <- rt.entries :: e' != e ==>
                 e'.Value() == if Demotes(old(e.Value()), Next(p.msg.hcnt))
                   then Swept(old(e'.Value()), e.dest, old(e.flags.repair), k) else old(e'.Value())
      ensures RouteTaken(old(rt.States()), rt.States(), p, link, life, k, {})
      ensures SamePrecursors(old(rt.States()), rt.States(), {})
    {
      hide RoutingTable.States, Updated, Swept, Inserted, InPlace, Aside, Unique;
      ghost var t, t', d := old(rt.States()), rt.States(), p.msg.About();
      assert d in t && d in t' && t[d] == old(e.Value()) && t'[d] == e.Value();
      UpdatedInPlace(t[d], p, link, life, k);
      forall x
        ensures x in t' <==> x in t
        ensures x in t && x != d ==> Aside(t[x], t'[x], d, Farther(t[d], p), t[d].route.flags.repair, k)
        ensures x in t ==> t'[x].precursors == t[x].precursors
      {
        rt.StateByEntry(x);
        if x in t {
          StaysAside(t[x], p, d, Farther(t[d], p), t[d].route.flags.repair, k);
        }
      }
    }

    /** The table half of both handlers: insert, update or refuse. */
    method TakeRoute(p: Packet, link: real, life: nat, k: Clock) returns (e: Entry?)
      requires Valid() && p.msg.About() != self
      modifies rt, rt.tbl, rt.entries
      ensures Valid() && (e == null <==> !Accepts(old(rt.Table()), p.msg, p.msg.cost + link))
      ensures e == null ==> rt.Table() == old(rt.Table()) && rt.States() == old(rt.States())
      ensures e != null ==> rt.Table() == Adopt(old(rt.Table()), p, link)
      ensures e != null ==> e in rt.entries && e.dest == p.msg.About() && e.nextHop == p.src
      ensures e != null ==> RouteTaken(old(rt.States()), rt.States(), p, link, life, k, {})
                            && SamePrecursors(old(rt.States()), rt.States(), {})
      ensures fresh(rt.entries - old(rt.entries)) && old(rt.entries) <= rt.entries
    {
      hide RoutingTable.Valid, RoutingTable.Table, RoutingTable.States, Aodv.Adopt, RouteTaken, SamePrecursors, Fresher,
           Unique, Knows;
      var m, cost := p.msg, p.msg.cost + link;
      e := rt.Find(m.About());
      if e == null {
        e := InsertRoute(p, link, life, k);
      } else {
        var better := Improves(e, m, cost);
        if better {
          UpdateRoute(e, p, link, life, k);
        } else {
          e := null;
        }
      }
    }

    /** The guard of both handlers. */
    method Improves(e: Entry, m: Message, cost: real) returns (better: bool)
      requires Valid() && e in rt.entries && e.dest == m.About()
      ensures better == Accepts(rt.Table(), m, cost)
    {
      hide RoutingTable.Valid, RoutingTable.Table;
      better := || e.seqno == 0
                || Int32(m.Seqno()) > Int32(e.seqno)
                || (m.Seqno() == e.seqno && (!e.valid || (m.Rrep? && e.flags.unidir) || cost < e.cost));
    }

    // ---------- requests ----------

    /** The own sequence number is raised, and the reply sent. */
    method AnswerAsDestination(rev: Entry, p: Packet, cost: real) returns (sends: seq<Send>)
      requires Valid() && p.msg.Rreq? && p.msg.dest == self && rev in rt.entries && rev.dest == p.msg.orig
               && rev.nextHop == p.src
      modifies this`seqno
      ensures Valid() && Reaction(View(), sends) == Aodv.AnswerOrForward(self, old(View()), p, cost)
    {
      hide RoutingTable.Valid, RoutingTable.Table;
      if p.msg.destSeqno != 0 {
        if Int32(seqno) < Int32(p.msg.destSeqno) {
          seqno := p.msg.destSeqno;
        } else if seqno == p.msg.destSeqno {
          seqno := Incr(seqno);
        }
      }
      sends := [Unicast(rev.nextHop, p.channel, MAXTTL, Rrep(self, seqno, rev.dest, 0, 0.0))];
    }

    /** A route made without a channel is deleted before it can be used for an answer. */
    method FindForward(d: Addr) returns (fwd: Entry?)
      requires Valid()
      modifies rt, rt.tbl, rt.entries
      ensures Valid() && rt.Table() == DropUnchannelled(old(rt.Table()), d) && rt.entries <= old(rt.entries)
      ensures fwd == null <==> d !in rt.Table()
      ensures fwd != null ==> fwd in rt.entries && fwd.dest == d && rt.entries == old(rt.entries)
      ensures View() == old(View()).(table := DropUnchannelled(old(View()).table, d))
      ensures forall e <- rt.entries :: e.Value() == old(e.Value())
      ensures rt.States() == if d in old(rt.States()) && old(rt.States())[d].route.channel == -1
                then old(rt.States()) - {d} else old(rt.States())
    {
      hide RoutingTable.Valid, RoutingTable.Table, RoutingTable.States;
      fwd := rt.Find(d);
      if fwd != null && fwd.channel == -1 {
        rt.Delete(fwd);
        rt.DeleteRefines(fwd);
        rt.EntryDeleted(fwd);
        fwd := null;
      }
    }

    /** `rreq_forward_with_channel` on every channel. */
    method ForwardOnEveryChannel(ttl: u8, m: Message) returns (sends: seq<Send>)
      ensures sends == OnEveryChannel(ttl, m)
    {
      sends := [];
      var i := 0;
      while i < CHANNELS
        invariant i <= CHANNELS && sends == OnEveryChannel(ttl, m)[..i]
      {
        sends := sends + [Broadcast(i, ttl, m)];
        i := i + 1;
      }
    }

    /** The two routes become each other's precursors, and the reply goes out. */
    method AnswerFromTable(rev: Entry, fwd: Entry) returns (sends: seq<Send>)
      requires Valid() && rev in rt.entries && fwd in rt.entries
      modifies rt.entries
      ensures Valid() && View() == old(View())
      ensures sends == [Unicast(old(rev.nextHop), old(fwd.channel), MAXTTL,
                                Rrep(fwd.dest, old(fwd.seqno), rev.dest, old(fwd.hcnt), old(fwd.cost)))]
      ensures SameButPrecursors(old(rt.States()), rt.States())
      ensures Linked(old(rt.States()), rt.States(), fwd.dest, old(rev.nextHop), rev.dest, old(fwd.nextHop))
    {
      hide RoutingTable.Valid, RoutingTable.Table, RoutingTable.States, RecordMap, SameButPrecursors, Linked;
      sends := [Unicast(rev.nextHop, fwd.channel, MAXTTL, Rrep(fwd.dest, fwd.seqno, rev.dest, fwd.hcnt, fwd.cost))];
      rt.LinkPrecursors(rev, fwd);
      rt.SameTable();
      PrecursorsLinked(rev, fwd);
    }

    /** What the link between two routes does, said of the destinations. */
    twostate lemma PrecursorsLinked(rev: Entry, new fwd: Entry)
      requires Unique(rt.entries) && rt.entries == old(rt.entries) && rev in rt.entries && fwd in rt.entries
      requires forall e <- rt.entries :: e.Value() == old(e.Value()).(precursors := e.precursors)
      requires forall e <- rt.entries :: e != rev && e != fwd ==> e.precursors == old(e.precursors)
      requires forall e <- rt.entries, a: Addr :: a in e.precursors <==>
                 a in old(e.precursors) || (e == fwd && a == rev.nextHop) || (e == rev && a == fwd.nextHop)
      ensures SameButPrecursors(old(rt.States()), rt.States())
      ensures Linked(old(rt.States()), rt.States(), fwd.dest, old(rev.nextHop), rev.dest, old(fwd.nextHop))
    {
      hide RoutingTable.States;
      ghost var t, t' := old(rt.States()), rt.States();
      forall x
        ensures x in t' <==> x in t
        ensures x in t' ==> t'[x].(precursors := []) == t[x].(precursors := [])
        ensures x in t' && x != fwd.dest && x != rev.dest ==> t'[x].precursors == t[x].precursors
        ensures x in t' ==> forall c :: c in t'[x].precursors <==>
                  c in t[x].precursors || (x == fwd.dest && c == rev.nextHop) || (x == rev.dest && c == fwd.nextHop)
      {
        rt.StateByEntry(x);
      }
    }

    /** An answer from the table if the route is fresh enough, or the request sent on. */
    method AnswerAsIntermediate(rev: Entry, p: Packet, cost: real) returns (sends: seq<Send>)
      requires Valid() && p.msg.Rreq? && p.msg.dest != self && rev in rt.entries && rev.dest == p.msg.orig
               && rev.nextHop == p.src
      modifies rt, rt.tbl, rt.entries
      ensures Valid() && Reaction(View(), sends) == Aodv.AnswerOrForward(self, old(View()), p, cost)
      ensures AnswersOrForwards(old(rt.States()), rt.States(), self, p, sends)
      ensures rt.entries <= old(rt.entries)
    {
      hide RoutingTable.Valid, RoutingTable.Table, RoutingTable.States, AnswersOrForwards, SameButPrecursors, Linked,
           CanAnswer, Unique, Knows, RecordMap, OncePerRequest;
      ghost var t := rt.States();
      var fwd := FindForward(p.msg.dest);
      ghost var t1 := rt.States();
      var answers := MayAnswer(fwd, p.msg);
      if answers {
        sends := AnswerFromTable(rev, fwd);
        FoundThenAnswered(t, t1, rt.States(), self, p, sends);
      } else {
        sends := SendOn(fwd, p, cost);
        FoundThenForwarded(t, t1, self, p, sends);
      }
    }

    /** The route is valid and fresh enough, and the flag allows it. */
    method MayAnswer(fwd: Entry?, m: Message) returns (b: bool)
      requires Valid() && m.Rreq? && (fwd == null <==> m.dest !in rt.Table())
      requires fwd != null ==> fwd in rt.entries && fwd.dest == m.dest
      ensures b == CanAnswer(rt.Table(), m) && (b ==> fwd != null)
    {
      hide RoutingTable.Valid, RoutingTable.Table;
      b := fwd != null && fwd.valid && !m.destOnly && fwd.seqno != 0 && Int32(fwd.seqno) >= Int32(m.destSeqno);
    }

    /** On every channel, if the time-to-live allows it, for the newest number known. */
    method SendOn(fwd: Entry?, p: Packet, cost: real) returns (sends: seq<Send>)
      requires p.msg.Rreq?
      ensures sends == if p.ttl <= 1 then []
                else OnEveryChannel(p.ttl - 1, Rreq(p.msg.id, p.msg.dest,
                       if fwd != null && Int32(fwd.seqno) > Int32(p.msg.destSeqno) then fwd.seqno else p.msg.destSeqno,
                       p.msg.orig, p.msg.origSeqno, Next(p.msg.hcnt), cost, p.msg.destOnly))
    {
      var m := p.msg;
      sends := [];
      if p.ttl > 1 {
        var wanted := if fwd != null && Int32(fwd.seqno) > Int32(m.destSeqno) then fwd.seqno else m.destSeqno;
        sends := ForwardOnEveryChannel(p.ttl - 1, Rreq(m.id, m.dest, wanted, m.orig, m.origSeqno, Next(m.hcnt), cost,
            m.destOnly));
      }
    }

    /** The guards of `rreq_process` that come before the routes. */
    method Ignores(p: Packet, cost: real) returns (ignored: bool)
      requires Valid() && p.msg.Rreq?
      ensures ignored <==> p.msg.orig == self || p.src in View().blacklist
                           || Filtered(View().records, (p.msg.orig, p.msg.id), cost)
    {
      hide RoutingTable.Valid, RoutingTable.Table, RecordMap, Filtered, Unique;
      if p.msg.orig == self || p.src in blacklist {
        return true;
      }
      ignored := RecordFindLessCost(p.msg.orig, p.msg.id, cost);
    }

    method RememberRequest(p: Packet, cost: real)
      requires Valid() && p.msg.Rreq?
      modifies this`records
      ensures Valid()
      ensures View() == old(View()).(records := Remember(old(View()).records, (p.msg.orig, p.msg.id), cost))
    {
      hide RoutingTable.Valid, RoutingTable.Table, RecordMap, Remember, Unique;
      RecordInsert(p.msg.orig, p.msg.id, cost);
    }

    /** `rreq_process` */
    method RreqProcess(p: Packet, link: real, k: Clock) returns (sends: seq<Send>)
      requires Valid() && p.msg.Rreq? && p.dst == self
      modifies this`seqno, this`records, rt, rt.tbl, rt.entries
      ensures Valid() && Reaction(View(), sends) == Aodv.RreqProcess(self, old(View()), p, link)
      ensures RequestOutcome(old(rt.States()), rt.States(), self, p, link, k, Takes(self, old(View()), p, link), sends)
      ensures fresh(rt.entries - old(rt.entries))
    {
      hide RoutingTable.Valid, RoutingTable.Table, RoutingTable.States, Aodv.AnswerOrForward, Aodv.Adopt, Accepts,
           OncePerRequest, Filtered, Remember, RequestOutcome, Unique, Knows, RecordMap;
      sends := [];
      NothingTaken(rt.States(), self, p, link, k);
      var ignored := Ignores(p, p.msg.cost + link);
      if ignored {
        return;
      }
      RememberRequest(p, p.msg.cost + link);
      sends := TakeRequest(p, link, k);
    }

    /** The reverse route, and then the answer or the request sent on. */
    method TakeRequest(p: Packet, link: real, k: Clock) returns (sends: seq<Send>)
      requires Valid() && p.msg.Rreq? && p.dst == self && p.msg.orig != self
      modifies this`seqno, rt, rt.tbl, rt.entries
      ensures Valid()
      ensures var nd, cost := old(View()), p.msg.cost + link;
              Reaction(View(), sends) ==
                if !Accepts(nd.table, p.msg, cost) then Reaction(nd, [])
                else Aodv.AnswerOrForward(self, nd.(table := Adopt(nd.table, p, link)), p, cost)
      ensures RequestOutcome(old(rt.States()), rt.States(), self, p, link, k,
                             Accepts(old(View()).table, p.msg, p.msg.cost + link), sends)
      ensures fresh(rt.entries - old(rt.entries))
    {
      hide RoutingTable.Valid, RoutingTable.Table, RoutingTable.States, Aodv.AnswerOrForward, Aodv.Adopt, Accepts,
           RecordMap, RequestOutcome, RouteTaken, SamePrecursors, AnswersOrForwards;
      sends := [];
      ghost var t := rt.States();
      NothingTaken(t, self, p, link, k);
      var rev := TakeRoute(p, link, Life(Next(p.msg.hcnt)), k);
      if rev == null {
        return;
      }
      ghost var t1 := rt.States();
      sends := AnswerOrForward(rev, p, p.msg.cost + link);
      TakenThenAnswered(t, t1, rt.States(), self, p, link, k, sends);
    }

    /** The reverse route `rev` is in place: this node answers or sends the request on. */
    method AnswerOrForward(rev: Entry, p: Packet, cost: real) returns (sends: seq<Send>)
      requires Valid() && p.msg.Rreq? && rev in rt.entries && rev.dest == p.msg.orig && rev.nextHop == p.src
      modifies this`seqno, rt, rt.tbl, rt.entries
      ensures Valid() && Reaction(View(), sends) == Aodv.AnswerOrForward(self, old(View()), p, cost)
      ensures AnswersOrForwards(old(rt.States()), rt.States(), self, p, sends)
      ensures rt.entries <= old(rt.entries)
    {
      hide RoutingTable.Valid, RoutingTable.Table, RoutingTable.States, Aodv.AnswerOrForward, SameButPrecursors, Linked;
      if p.msg.dest == self {
        sends := AnswerAsDestination(rev, p, cost);
      } else {
        sends := AnswerAsIntermediate(rev, p, cost);
      }
    }

    // ---------- replies ----------

    /** `rrep_forward`: on along the reverse route. */
    method RrepForward(rev: Entry, fwd: Entry, p: Packet, cost: real, k: Clock) returns (send: Send)
      requires Valid() && p.msg.Rrep? && rev in rt.entries && fwd in rt.entries
      modifies rt.entries
      ensures Valid() && View() == old(View())
      ensures send == Unicast(old(rev.nextHop), old(rev.channel), Previous(p.ttl),
                              Rrep(p.msg.dest, p.msg.destSeqno, p.msg.orig, old(fwd.hcnt), cost))
      ensures Linked(old(rt.States()), rt.States(), fwd.dest, old(rev.nextHop), rev.dest, old(fwd.nextHop))
      ensures rt.States().Keys == old(rt.States()).Keys
      ensures forall d <- rt.States() :: d != rev.dest ==>
                rt.States()[d].(precursors := []) == old(rt.States())[d].(precursors := [])
      ensures PutOff(old(rt.States())[rev.dest], rt.States()[rev.dest], k)
    {
      hide RoutingTable.Valid, RoutingTable.Table, RoutingTable.States, Linked, SameButPrecursors, PutOff;
      send := Unicast(rev.nextHop, rev.channel, Previous(p.ttl),
          Rrep(p.msg.dest, p.msg.destSeqno, p.msg.orig, fwd.hcnt, cost));
      ghost var t := rt.States();
      rt.LinkPrecursors(rev, fwd);
      rt.SameTable();
      PrecursorsLinked(rev, fwd);
      ghost var t1 := rt.States();
      PutOffRoute(rev, k);
      LinkedThenPutOff(t, t1, rt.States(), fwd.dest, send.to, rev.dest, fwd.nextHop, k);
    }

    /** The reverse route lives on for some time. */
    method PutOffRoute(rev: Entry, k: Clock)
      requires Valid() && rev in rt.entries
      modifies rev
      ensures Valid() && View() == old(View())
      ensures rt.States() == old(rt.States())[rev.dest := rt.States()[rev.dest]]
      ensures PutOff(old(rt.States())[rev.dest], rt.States()[rev.dest], k)
      ensures rt.States()[rev.dest].precursors == old(rt.States())[rev.dest].precursors
      ensures rev.nextHop == old(rev.nextHop)
    {
      hide RoutingTable.Valid, RoutingTable.Table, RoutingTable.States;
      rt.Prolong(rev, k.active, k);
      rt.SameTable();
      rt.OneEntryChanged(rev);
    }

    /** `rrep_process`. The reverse route is looked up first and judged after the table has changed. */
    method RrepProcess(p: Packet, link: real, lifetime: nat, k: Clock) returns (sends: seq<Send>)
      requires Valid() && p.msg.Rrep? && p.dst == self
      modifies rt, rt.tbl, rt.entries
      ensures Valid() && Reaction(View(), sends) == Aodv.RrepProcess(self, old(View()), p, link)
      ensures ReplyOutcome(old(rt.States()), rt.States(), p, link, lifetime, k,
                           p.msg.dest != self && Accepts(old(rt.Table()), p.msg, p.msg.cost + link), sends)
      ensures fresh(rt.entries - old(rt.entries))
    {
      hide RoutingTable.Valid, RoutingTable.Table, RoutingTable.States, Aodv.Adopt, Accepts, RouteTaken, SamePrecursors,
           Linked, PutOff, ReplyOutcome, Unique, Knows, RecordMap;
      var m, cost := p.msg, p.msg.cost + link;
      sends := [];
      ghost var t := rt.States();
      NothingForwarded(t, t, p, link, lifetime, k, false);
      if m.dest == self {
        return;
      }
      var rev := rt.Find(m.orig);
      var fwd := TakeRoute(p, link, lifetime, k);
      if fwd == null {
        return;
      }
      ghost var t1 := rt.States();
      if m.orig != self && rev != null && rev.valid {
        var send := RrepForward(rev, fwd, p, cost, k);
        sends := [send];
        TakenThenForwarded(t, t1, rt.States(), p, link, lifetime, k, send);
      } else {
        NothingForwarded(t, t1, p, link, lifetime, k, true);
      }
    }

    /** A message from the socket; those the agent sent itself are ignored. */
    method Receive(p: Packet, link: real, lifetime: nat, k: Clock) returns (sends: seq<Send>)
      requires Valid() && p.dst == self
      modifies this`seqno, this`records, rt, rt.tbl, rt.entries
      ensures Valid() && Reaction(View(), sends) == Aodv.Receive(old(View()), p, link)
    {
      hide Aodv.RreqProcess, Aodv.RrepProcess, RoutingTable.Valid, RoutingTable.Table;
      if p.src == self {
        sends := [];
      } else if p.msg.Rreq? {
        sends := RreqProcess(p, link, k);
      } else {
        sends := RrepProcess(p, link, lifetime, k);
      }
    }

    // ---------- discoveries ----------

    /** `rreq_send_with_channel` for every channel: each request takes the next identifier. */
    method SendRequests(dest: Addr, destSeqno: u32, ttl: u8, destOnly: bool) returns (sends: seq<Send>)
      requires Valid()
      modifies this`rreqId
      ensures Valid() && Reaction(View(), sends) == Rediscover(self, old(View()), dest, destSeqno, ttl, destOnly)
    {
      hide RoutingTable.Valid, RoutingTable.Table;
      sends := [];
      ghost var ids := [rreqId, PlusOne(rreqId), PlusOne(PlusOne(rreqId)), PlusOne(PlusOne(PlusOne(rreqId)))];
      var i := 0;
      while i < CHANNELS
        invariant i <= CHANNELS && rreqId == ids[i] && seqno == old(seqno)
        invariant sends == Flood(self, old(View()), dest, destSeqno, ttl, destOnly)[..i]
      {
        sends := sends + [Broadcast(i, ttl, Rreq(rreqId, dest, destSeqno, self, PlusOne(seqno), 0, 0.0, destOnly))];
        rreqId := PlusOne(rreqId);
        i := i + 1;
      }
    }

    /** The number known of the destination, whose route is kept until a reply could come back. */
    method SoughtSeqno(dest: Addr, k: Clock) returns (destSeqno: u32)
      requires Valid()
      modifies rt.entries
      ensures Valid() && View() == old(View())
      ensures destSeqno == if dest in old(View()).table then old(View()).table[dest].seqno else 0
      ensures KeptForReply(old(rt.States()), rt.States(), dest, k)
    {
      hide RoutingTable.Valid, RoutingTable.Table, RoutingTable.States, RecordMap, Unique, Knows;
      var e := rt.Find(dest);
      if e == null {
        return 0;
      }
      destSeqno := e.seqno;
      if e.due - k.now < PATH_DISCOVERY_TIME {
        rt.Prolong(e, PATH_DISCOVERY_TIME, k);
      }
      rt.SameTable();
      rt.OneEntryChanged(e);
    }

    /** `rreq_route_discovery`, for a destination not sought already. */
    method RouteDiscovery(dest: Addr, destOnly: bool, k: Clock) returns (sends: seq<Send>)
      requires Valid()
      modifies this`rreqId, this`seqno, rt.entries
      ensures Valid() && Reaction(View(), sends) == Discover(self, old(View()), dest, destOnly)
      ensures KeptForReply(old(rt.States()), rt.States(), dest, k)
    {
      hide RoutingTable.Valid, RoutingTable.Table, RoutingTable.States, KeptForReply, RecordMap, Unique;
      var destSeqno := SoughtSeqno(dest, k);
      sends := SendRequests(dest, destSeqno, DISCOVERY_TTL, destOnly);
      CountUp();
    }

    method CountUp()
      requires Valid()
      modifies this`seqno
      ensures Valid() && View() == old(View()).(seqno := Incr(old(seqno)))
    {
      seqno := Incr(seqno);
    }

    // ---------- timers ----------

    /** The expiry of a valid route. */
    method Expire(e: Entry, k: Clock)
      requires Valid() && e in rt.entries && e.valid
      modifies rt, rt.entries
      ensures Valid() && View() == old(View()).(table := ExpireRoute(old(View()).table, e.dest))
    {
      hide RoutingTable.Valid, RoutingTable.Table;
      rt.ValidEntryExpires(e);
      rt.RouteExpireTimeout(e, k);
      rt.ExpireRefines(e, k);
    }
  }
}
