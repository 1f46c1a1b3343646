/**
 The routing table as the agent keeps it: sixty-four buckets of entries that are changed in
 place, two counters, a list of precursors per entry and a timer per entry whose handler says
 what the entry is waiting for.
 */
module RoutingTable {
  import opened SequenceNumbers
  import opened Aodv
  import opened Sets

  const RT_TABLESIZE: nat := 64

  /** `hashing`: the low bits of the address. */
  function Bucket(d: Addr): (b: nat)
    ensures b < RT_TABLESIZE
  {
    if d < RT_TABLESIZE then d else Bucket(d - RT_TABLESIZE)
  }

  lemma {:induction false} BucketIsLowBits(d: Addr)
    ensures Bucket(d) == d % RT_TABLESIZE
  {
    if d >= RT_TABLESIZE {
      BucketIsLowBits(d - RT_TABLESIZE);
    }
  }

  /** What the timer of an entry runs when it fires. */
  datatype Handler = RouteExpire | LocalRepair | RouteDelete

  type pos = n: nat | n > 0 witness 1

  /** The time, and the periods an entry is kept for when it is used, and when it is invalid. */
  datatype Clock = Clock(now: nat, active: pos, delete: pos)

  /** The value of one entry; a running timer fires when it is `due`. */
  datatype State = State(route: Route, handler: Handler, armed: bool, due: nat, hello: bool, precursors: seq<Addr>)

  // ---------- what the operations do to the value of an entry ----------

  function Waiting(flags: Flags): Handler {
    if flags.repair then LocalRepair else RouteDelete
  }

  /** How long an invalid entry is kept. */
  function Period(flags: Flags, k: Clock): pos {
    if flags.repair then k.active else k.delete
  }

  function Inserted(route: Route, life: nat, k: Clock): State {
    var life' := if route.valid then life else Period(route.flags, k);
    State(route, if route.valid then RouteExpire else Waiting(route.flags), life' != 0,
          if life' != 0 then k.now + life' else 0, false, [])
  }

  function Invalidated(st: State, k: Clock): State {
    if st.route.valid then
      State(Invalidate(st.route), Waiting(st.route.flags), true, k.now + Period(st.route.flags, k), false,
            st.precursors)
    else st
  }

  /** The entry marked for repair if that is possible or under way. */
  function Repairable(st: State, mayRepair: bool): State {
    st.(route := st.route.(flags := st.route.flags.(repair := st.route.flags.repair || mayRepair)))
  }

  /** A route through a neighbour that is gone; it is to be repaired if the neighbour's is. */
  function Swept(st: State, neighbour: Addr, repair: bool, k: Clock): State {
    if st.route.valid && st.route.nextHop == neighbour then
      Invalidated(Repairable(st, repair), k)
    else st
  }

  /** A one-hop route is replaced by a longer one. */
  predicate Demotes(st: State, hops: u8) {
    hops > 1 && st.route.hcnt == 1
  }

  /** `rt_table_update_timeout`: a valid entry keeps its timeout if that is later. */
  function Prolonged(st: State, life: nat, k: Clock): State {
    if st.route.valid && k.now + life <= st.due then st else st.(armed := true, due := k.now + life)
  }

  function Updated(st: State, next: Addr, hops: u8, seqno: u32, life: nat, flags: Flags, channel: int, cost: real,
                   k: Clock): State {
    var flags' := if !st.route.valid && st.route.flags.repair then flags.(repair := false) else flags;
    var kept := st.route.valid && !Demotes(st, hops) && k.now + life <= st.due;
    State(Route(seqno, true, cost, hops, next, channel, flags'), RouteExpire, if kept then st.armed else true,
          if kept then st.due else k.now + life, st.hello && !Demotes(st, hops), st.precursors)
  }

  /** `neighbor_link_break`: the neighbour's own entry, and the routes through it. */
  function Broken(st: State, own: bool, neighbour: Addr, repair: bool, k: Clock): State {
    if own then Invalidated(st, k) else Swept(st, neighbour, repair, k)
  }

  lemma SweptTwice(st: State, neighbour: Addr, repair: bool, k: Clock)
    ensures Swept(Swept(st, neighbour, repair, k), neighbour, repair, k) == Swept(st, neighbour, repair, k)
  {
  }

  /** What is left of an entry when its timer fires. */
  function Fired(st: State, k: Clock): Option {
    match st.handler
    case RouteExpire =>
      var down := Invalidated(st.(armed := false), k);
      Some(if st.route.hcnt == 1 then down else down.(precursors := []))
    case LocalRepair =>
      Some(State(st.route.(flags := st.route.flags.(repair := false)), RouteDelete, true, k.now + k.delete, st.hello,
                 []))
    case RouteDelete => None
  }

  datatype Option = None | Some(value: State)

  /** The values of the entries by destination. */
  type StateMap = map<Addr, State>

  /** Timers follow the state of the route. */
  predicate Fit(st: State) {
    if st.route.valid then st.handler == RouteExpire
    else st.armed && st.handler == Waiting(st.route.flags)
  }

  /** What is left of an entry after `n` firings of its timer, each when due, and no other event. */
  function After(st: State, n: nat, k: Clock): Option
    decreases n
  {
    if n == 0 then Some(st)
    else match Fired(st, k.(now := st.due))
      case None => None
      case Some(st') => After(st', n - 1, k)
  }

  /** The firings an entry has left to live. */
  function Stage(st: State): nat {
    match st.handler
    case RouteExpire => if st.route.flags.repair then 3 else 2
    case LocalRepair => 2
    case RouteDelete => 1
  }

  /** When the last of them is due. */
  function LastDue(st: State, k: Clock): nat {
    match st.handler
    case RouteExpire => st.due + (if st.route.flags.repair then k.active else 0) + k.delete
    case LocalRepair => st.due + k.delete
    case RouteDelete => st.due
  }

  /** The entry goes with its last firing and not before, and until then its timer is running again. */
  lemma {:induction false} GoneAfterStage(st: State, n: nat, k: Clock)
    requires Fit(st) && st.armed
    ensures After(st, n, k).None? <==> n >= Stage(st)
    ensures After(st, n, k).Some? ==> Fit(After(st, n, k).value) && After(st, n, k).value.armed
    ensures n == Stage(st) - 1 ==> After(st, n, k).value.due == LastDue(st, k)
    decreases n
  {
    var k' := k.(now := st.due);
    if n > 0 && Fired(st, k').Some? {
      GoneAfterStage(Fired(st, k').value, n - 1, k);
    }
  }

  // ---------- the same, field by field ----------

  /** A valid entry gets the next number, is kept for its period and is watched no longer. */
  lemma InvalidatedMeans(st: State, k: Clock)
    ensures var r, st' := st.route, Invalidated(st, k);
            if !r.valid then st' == st
            else
              && st'.route == Route(Incr(r.seqno), false, r.cost, r.hcnt, r.nextHop, r.channel, r.flags)
              && st'.handler == (if r.flags.repair then LocalRepair else RouteDelete) && st'.armed
              && st'.due == k.now + (if r.flags.repair then k.active else k.delete)
              && !st'.hello && st'.precursors == st.precursors
  {
  }

  /** Exactly a valid route through the neighbour goes down, and is to be repaired if the neighbour's route is. */
  lemma SweptMeans(st: State, neighbour: Addr, repair: bool, k: Clock)
    ensures var r, st' := st.route, Swept(st, neighbour, repair, k);
            if !r.valid || r.nextHop != neighbour then st' == st
            else
              var again := r.flags.repair || repair;
              && st'.route == Route(Incr(r.seqno), false, r.cost, r.hcnt, r.nextHop, r.channel,
                                    Flags(r.flags.unidir, again))
              && st'.handler == (if again then LocalRepair else RouteDelete) && st'.armed
              && st'.due == k.now + (if again then k.active else k.delete)
              && !st'.hello && st'.precursors == st.precursors
  {
  }

  /** A new entry has no precursors; its timer runs for its lifetime, or for its period if it is invalid. */
  lemma InsertedMeans(route: Route, life: nat, k: Clock)
    ensures var st := Inserted(route, life, k);
            && st.route == route && !st.hello && st.precursors == []
            && (route.valid ==>
                  && st.handler == RouteExpire && (st.armed <==> life != 0)
                  && st.due == if life != 0 then k.now + life else 0)
            && (!route.valid ==>
                  && st.handler == (if route.flags.repair then LocalRepair else RouteDelete) && st.armed
                  && st.due == k.now + if route.flags.repair then k.active else k.delete)
  {
  }

  /**
   An updated entry is valid and keeps its precursors. It is watched no longer if it was a
   neighbour's and leads farther now. It expires no earlier than before, except after an outage.
   */
  lemma UpdatedMeans(st: State, next: Addr, hops: u8, seqno: u32, life: nat, flags: Flags, channel: int, cost: real,
                     k: Clock)
    ensures var st', farther := Updated(st, next, hops, seqno, life, flags, channel, cost, k),
                                hops > 1 && st.route.hcnt == 1;
            && st'.route.valid && st'.route.seqno == seqno && st'.route.cost == cost && st'.route.hcnt == hops
            && st'.route.nextHop == next && st'.route.channel == channel && st'.route.flags.unidir == flags.unidir
            && (st'.route.flags.repair <==> flags.repair && (st.route.valid || !st.route.flags.repair))
            && st'.handler == RouteExpire && st'.precursors == st.precursors && (st'.hello <==> st.hello && !farther)
            && (if st.route.valid && !farther then
                  && st'.due == (if st.due >= k.now + life then st.due else k.now + life)
                  && (st'.armed <==> st.armed || st.due < k.now + life)
                else st'.due == k.now + life && st'.armed)
  {
  }

  /** An expired route goes down, a route that was not repaired waits for its deletion, and a dead one is deleted. */
  lemma FiredMeans(st: State, k: Clock)
    ensures match st.handler
            case RouteExpire =>
              Fired(st, k).Some? && Fired(st, k).value.precursors == (if st.route.hcnt == 1 then st.precursors else [])
            case LocalRepair =>
              var r := st.route;
              Fired(st, k) == Some(State(Route(r.seqno, r.valid, r.cost, r.hcnt, r.nextHop, r.channel,
                                               Flags(r.flags.unidir, false)),
                                         RouteDelete, true, k.now + k.delete, st.hello, []))
            case RouteDelete => Fired(st, k).None?
    ensures st.handler == RouteExpire && st.route.valid ==>
              var r, st' := st.route, Fired(st, k).value;
              && st'.route == Route(Incr(r.seqno), false, r.cost, r.hcnt, r.nextHop, r.channel, r.flags)
              && st'.handler == (if r.flags.repair then LocalRepair else RouteDelete) && st'.armed
              && st'.due == k.now + (if r.flags.repair then k.active else k.delete) && !st'.hello
  {
  }

  /** The timer of a valid entry is only ever put off. */
  lemma ProlongedMeans(st: State, life: nat, k: Clock)
    ensures var st' := Prolonged(st, life, k);
            && st'.route == st.route && st'.handler == st.handler && st'.hello == st.hello
            && st'.precursors == st.precursors
            && st'.due == (if st.route.valid && st.due > k.now + life then st.due else k.now + life)
            && (st'.armed <==> st.armed || !st.route.valid || st.due < k.now + life)
  {
  }

  predicate NoDuplicates<T(==)>(s: seq<T>) {
    s == [] || (s[0] !in s[1..] && NoDuplicates(s[1..]))
  }

  function Remove<T(==)>(s: seq<T>, x: T): (r: seq<T>)
    ensures x !in s ==> r == s
  {
    if s == [] then [] else if s[0] == x then s[1..] else [s[0]] + Remove(s[1..], x)
  }

  lemma {:induction false} RemoveKeeps<T>(s: seq<T>, x: T)
    requires NoDuplicates(s)
    ensures NoDuplicates(Remove(s, x)) && x !in Remove(s, x)
    ensures forall y :: y in Remove(s, x) <==> y in s && y != x
    ensures |Remove(s, x)| == |s| - (if x in s then 1 else 0)
  {
    if s != [] {
      assert s == [s[0]] + s[1..];
      RemoveKeeps(s[1..], x);
      if s[0] != x {
        assert Remove(s, x)[1..] == Remove(s[1..], x);
      }
    }
  }

  lemma {:induction false} RemoveAt<T>(s: seq<T>, x: T, i: nat)
    requires i < |s| && s[i] == x && x !in s[..i]
    ensures Remove(s, x) == s[..i] + s[i + 1..]
  {
    if i > 0 {
      assert s[0] in s[..i];
      assert s[1..][..i - 1] == s[..i][1..];
      RemoveAt(s[1..], x, i - 1);
    }
  }

  // ---------- one entry ----------

  class Entry {
    const dest: Addr
    const hash: Addr
    var seqno: u32
    var valid: bool
    var cost: real
    var hcnt: u8
    var nextHop: Addr
    var channel: int
    var flags: Flags
    var handler: Handler
    var armed: bool
    var due: nat
    var hello: bool
    var precursors: seq<Addr>
    var nprec: int

    ghost function Value(): State
      reads this
    {
      State(Route(seqno, valid, cost, hcnt, nextHop, channel, flags), handler, armed, due, hello, precursors)
    }

    /** No timer runs a handler on the entry any more, and its precursors are given up. */
    ghost predicate Dead()
      reads this`armed, this`hello, this`precursors
    {
      !armed && !hello && precursors == []
    }

    /** The count of precursors is right and each is listed once. */
    ghost predicate Listed()
      reads this`precursors, this`nprec
    {
      nprec == |precursors| && NoDuplicates(precursors)
    }

    ghost predicate Valid()
      reads this
    {
      hash == dest && Listed() && Fit(Value())
    }

    constructor (dest: Addr, route: Route, life: nat, k: Clock)
      ensures this.dest == dest && Value() == Inserted(route, life, k) && Valid()
    {
      this.dest, hash := dest, dest;
      seqno, valid, cost, hcnt, nextHop, channel, flags :=
        route.seqno, route.valid, route.cost, route.hcnt, route.nextHop, route.channel, route.flags;
      handler := if route.valid then RouteExpire else if route.flags.repair then LocalRepair else RouteDelete;
      hello, precursors, nprec := false, [], 0;
      armed, due := false, 0;
      new;
      var life' := if valid then life else if flags.repair then k.active else k.delete;
      if life' != 0 {
        SetTimeout(life', k.now);
      }
    }

    /** `timer_set_timeout` */
    method SetTimeout(life: nat, now: nat)
      modifies this`armed, this`due
      ensures armed && due == now + life
    {
      armed, due := true, now + life;
    }

    /** `rt_table_update_timeout` */
    method UpdateTimeout(life: nat, k: Clock)
      modifies this`armed, this`due
      ensures Value() == Prolonged(old(Value()), life, k)
      ensures valid && k.now + life <= old(due) ==> armed == old(armed) && due == old(due)
      ensures !(valid && k.now + life <= old(due)) ==> armed && due == k.now + life
    {
      if valid {
        if due < k.now + life {
          SetTimeout(life, k.now);
        }
      } else {
        SetTimeout(life, k.now);
      }
    }

    /** The part of `rt_table_invalidate` that concerns the entry alone. */
    method MarkInvalid(k: Clock)
      requires Valid() && valid
      modifies this
      ensures Valid() && Value() == Invalidated(old(Value()), k)
    {
      armed, hello := false, false;
      valid := false;
      seqno := Incr(seqno);
      if flags.repair {
        handler := LocalRepair;
        SetTimeout(k.active, k.now);
      } else {
        handler := RouteDelete;
        SetTimeout(k.delete, k.now);
      }
    }

    /** `rt->flags |= RT_REPAIR` on a valid entry. */
    method MarkRepair()
      requires Valid() && valid
      modifies this`flags
      ensures Valid() && flags == old(flags).(repair := true)
    {
      flags := flags.(repair := true);
    }

    method StopTimers()
      modifies this`armed, this`hello
      ensures !armed && !hello
    {
      armed, hello := false, false;
    }

    method StopHello()
      requires Valid()
      modifies this`hello
      ensures Valid() && !hello
    {
      hello := false;
    }

    /** The assignments of `rt_table_update_with_channel`. */
    method Rewrite(next: Addr, hops: u8, seqno: u32, life: nat, flags: Flags, channel: int, cost: real, k: Clock)
      requires Valid()
      modifies this
      ensures Valid() && precursors == old(precursors) && hello == old(hello)
      ensures Value().route == Route(seqno, true, cost, hops, next, channel, flags) && handler == RouteExpire
      ensures old(valid) && k.now + life <= old(due) ==> armed == old(armed) && due == old(due)
      ensures !(old(valid) && k.now + life <= old(due)) ==> armed && due == k.now + life
    {
      hide Prolonged, NoDuplicates;
      Assign(next, hops, seqno, flags, channel, cost);
      UpdateTimeout(life, k);
      valid := true;
    }

    method Assign(next: Addr, hops: u8, seqno: u32, flags: Flags, channel: int, cost: real)
      modifies this`flags, this`seqno, this`nextHop, this`hcnt, this`channel, this`cost, this`handler
      ensures Value().route == Route(seqno, valid, cost, hops, next, channel, flags) && handler == RouteExpire
    {
      this.flags := flags;
      this.seqno := seqno;
      nextHop := next;
      hcnt := hops;
      this.channel := channel;
      this.cost := cost;
      handler := RouteExpire;
    }

    lemma HandlerTellsState()
      requires Valid()
      ensures valid <==> handler == RouteExpire
    {
    }

    /** The firing of a running expiry timer takes it out of the queue. */
    method Disarm()
      requires Valid() && valid
      modifies this`armed
      ensures Valid() && !armed
    {
      armed := false;
    }

    /** `local_repair_timeout`: returns the precursors, to which an error is reported. */
    method LocalRepairTimeout(k: Clock) returns (report: seq<Addr>)
      requires Valid() && handler == LocalRepair
      modifies this
      ensures Valid() && Fired(old(Value()), k) == Some(Value()) && report == old(precursors)
    {
      armed := false;
      flags := flags.(repair := false);
      report := precursors;
      PrecursorListDestroy();
      handler := RouteDelete;
      SetTimeout(k.delete, k.now);
    }

    /** `precursor_add` */
    method PrecursorAdd(addr: Addr)
      requires Listed()
      modifies this`precursors, this`nprec
      ensures Listed() && (old(Valid()) ==> Valid())
      ensures precursors == if addr in old(precursors) then old(precursors) else [addr] + old(precursors)
    {
      var i := 0;
      while i < |precursors|
        invariant i <= |precursors| && addr !in precursors[..i]
      {
        if precursors[i] == addr {
          return;
        }
        i := i + 1;
      }
      assert precursors == precursors[..i];
      precursors := [addr] + precursors;
      assert precursors[1..] == old(precursors);
      nprec := nprec + 1;
    }

    /** `precursor_remove` */
    method PrecursorRemove(addr: Addr)
      requires Listed()
      modifies this`precursors, this`nprec
      ensures Listed() && (old(Valid()) ==> Valid()) && precursors == Remove(old(precursors), addr)
    {
      RemoveKeeps(precursors, addr);
      var i := 0;
      while i < |precursors|
        invariant i <= |precursors| && addr !in precursors[..i]
        invariant precursors == old(precursors) && nprec == old(nprec)
      {
        if precursors[i] == addr {
          RemoveAt(precursors, addr, i);
          precursors := precursors[..i] + precursors[i + 1..];
          nprec := nprec - 1;
          return;
        }
        i := i + 1;
      }
      assert precursors == precursors[..i];
    }

    /** `precursor_list_destroy` */
    method PrecursorListDestroy()
      requires Listed()
      modifies this`precursors, this`nprec
      ensures Listed() && (old(Valid()) ==> Valid()) && precursors == []
    {
      while precursors != []
        invariant Listed()
        decreases |precursors|
      {
        precursors := precursors[1..];
        nprec := nprec - 1;
      }
    }
  }

  // ---------- the table ----------

  /** An integer as a `unsigned int` holds it. */
  function Wrap(n: int): u32 {
    n % RANGE
  }

  function MinusOne(s: u32): u32 {
    if s == 0 then RANGE - 1 else s - 1
  }

  lemma WrapSmall(n: nat)
    ensures n < RANGE ==> Wrap(n) == n
  {
  }

  lemma WrapNext(n: int)
    ensures Wrap(n + 1) == PlusOne(Wrap(n)) && Wrap(n) == MinusOne(Wrap(n + 1))
  {
  }

  /** The size of a set, counted one by one so that the solver does not reason about cardinalities. */
  ghost function Size<T>(s: set<T>): nat {
    if s == {} then 0 else var x :| x in s; 1 + Size(s - {x})
  }

  lemma {:induction false} SizeIsCardinality<T>(s: set<T>)
    ensures Size(s) == |s|
  {
    if s != {} {
      var x :| x in s && Size(s) == 1 + Size(s - {x});
      SizeIsCardinality(s - {x});
    }
  }

  lemma SizeWith<T>(s: set<T>, x: T)
    ensures x !in s ==> Size(s + {x}) == Size(s) + 1
    ensures x in s ==> Size(s - {x}) == Size(s) - 1
  {
    SizeIsCardinality(s);
    SizeIsCardinality(s + {x});
    SizeIsCardinality(s - {x});
  }

  ghost predicate Unique(entries: set<Entry>) {
    forall e, e' :: e in entries && e' in entries && e.dest == e'.dest ==> e == e'
  }

  ghost predicate Knows(entries: set<Entry>, d: Addr) {
    exists e :: e in entries && e.dest == d
  }

  /** A second entry for a destination is what breaks uniqueness. */
  lemma UniqueAfterInsert(entries: set<Entry>, rt: Entry)
    requires rt !in entries && Unique(entries)
    ensures Unique(entries + {rt}) <==> !Knows(entries, rt.dest)
  {
    assert rt in entries + {rt};
  }

  /** Two maps of routes that differ in the route to `d` and, if it is gone, in what a link break to `d` changes. */
  ghost predicate OneChanged(t: Table, t': Table, d: Addr, gone: bool) {
    && d in t && t'.Keys == t.Keys
    && forall k <- t :: k != d ==> t'[k] == if gone then Aodv.LinkBreak(t, d)[k] else t[k]
  }

  lemma UpdatedTable(t: Table, t': Table, d: Addr, next: Addr, hops: u8, seqno: u32, channel: int, cost: real)
    requires d in t && OneChanged(t, t', d, hops > 1 && t[d].hcnt == 1)
    requires t'[d] == Route(seqno, true, cost, hops, next, channel, if t[d].valid then t[d].flags
             else t[d].flags.(repair := false))
    ensures t' == Aodv.Update(t, d, next, hops, seqno, channel, cost)
  {
    hide Aodv.Invalidate;
  }

  lemma ExpiredTable(t: Table, t': Table, d: Addr)
    requires d in t && OneChanged(t, t', d, t[d].hcnt == 1) && t'[d] == Aodv.Invalidate(t[d])
    ensures t' == Aodv.ExpireRoute(t, d)
  {
    hide Aodv.Invalidate;
  }

  class RoutingTable {
    const self: Addr
    const tbl: array<seq<Entry>>
    var numEntries: nat
    var numActive: u32
    ghost var entries: set<Entry>
    ghost var active: set<Entry>
    /** By how much `numActive` is off. */
    ghost var drift: int

    ghost predicate InBuckets()
      reads this`entries, tbl
    {
      && tbl.Length == RT_TABLESIZE
      && (forall b :: 0 <= b < RT_TABLESIZE ==> NoDuplicates(tbl[b]))
      && (forall b, e :: 0 <= b < RT_TABLESIZE && e in tbl[b] ==> e in entries && Bucket(e.dest) == b)
      && (forall e <- entries :: e in tbl[Bucket(e.dest)])
    }

    /** The buckets hold exactly the entries, and both counters tell the truth up to `drift`. */
    ghost predicate Valid()
      reads this, tbl, entries
    {
      && InBuckets()
      && (forall e <- entries :: e.Valid())
      && numEntries == Size(entries)
      && active <= entries && (forall e <- entries :: e.valid <==> e in active)
      && numActive == Wrap(Size(active) + drift)
    }

    /** `rt_table_init` */
    constructor (self: Addr)
      ensures Valid() && entries == {} && drift == 0 && numActive == 0 && this.self == self && fresh(tbl)
    {
      this.self := self;
      tbl := new seq<Entry>[RT_TABLESIZE](i => []);
      numEntries, numActive := 0, 0;
      entries, active, drift := {}, {}, 0;
    }

    ghost predicate HasChannel(d: Addr, channel: int)
      reads this`entries, entries
    {
      exists e :: e in entries && e.dest == d && e.channel == channel
    }

    /** `rt_table_find`: the early exit is right because the counter is. */
    method Find(d: Addr) returns (rt: Entry?)
      requires Valid()
      ensures rt == null <==> !Knows(entries, d)
      ensures rt != null ==> rt in entries && rt.dest == d
    {
      if numEntries == 0 {
        return null;
      }
      var bucket := tbl[Bucket(d)];
      var i := 0;
      while i < |bucket|
        invariant i <= |bucket| && forall j :: 0 <= j < i ==> bucket[j].dest != d
      {
        if bucket[i].hash == d && bucket[i].dest == d {
          return bucket[i];
        }
        i := i + 1;
      }
      rt := null;
    }

    /** Puts a new entry in front of its bucket. */
    method ListAdd(rt: Entry)
      requires InBuckets() && rt !in entries
      modifies this`entries, tbl
      ensures InBuckets() && entries == old(entries) + {rt}
    {
      var b := Bucket(rt.dest);
      assert rt !in tbl[b] && ([rt] + tbl[b])[1..] == tbl[b];
      tbl[b] := [rt] + tbl[b];
      entries := entries + {rt};
    }

    /** The second half of both insertions. */
    method Link(rt: Entry)
      requires Valid() && rt !in entries && rt.Valid()
      modifies this`entries, this`numEntries, this`numActive, this`active, tbl
      ensures Valid() && entries == old(entries) + {rt}
    {
      hide Size, Wrap, Bucket, InBuckets, Entry.Valid;
      numEntries := numEntries + 1;
      SizeWith(entries, rt);
      ListAdd(rt);
      if rt.valid {
        SizeWith(active, rt);
        WrapNext(Size(active) + drift);
        numActive := PlusOne(numActive);
        active := active + {rt};
      }
    }

    /** A new entry, linked; destinations stay unique exactly if there was none for this one. */
    method Add(d: Addr, route: Route, life: nat, k: Clock) returns (rt: Entry)
      requires Valid()
      modifies this`entries, this`numEntries, this`numActive, this`active, tbl
      ensures Valid() && fresh(rt) && rt.dest == d && entries == old(entries) + {rt}
               && rt.Value() == Inserted(route, life, k)
      ensures Unique(old(entries)) ==> (Unique(entries) <==> !Knows(old(entries), d))
    {
      rt := new Entry(d, route, life, k);
      if Unique(entries) {
        UniqueAfterInsert(entries, rt);
      }
      Link(rt);
    }

    /** `rt_table_insert`: the entry gets no channel and a cost that any offer beats. */
    method Insert(d: Addr, next: Addr, hops: u8, seqno: u32, life: nat, valid: bool, flags: Flags, k: Clock)
      returns (rt: Entry?)
      requires Valid()
      modifies this`entries, this`numEntries, this`numActive, this`active, tbl
      ensures Valid()
      ensures rt == null <==> Knows(old(entries), d)
      ensures rt == null ==> entries == old(entries)
      ensures rt != null ==> fresh(rt) && rt.dest == d && entries == old(entries) + {rt}
      ensures rt != null ==> rt.Value() == Inserted(Route(seqno, valid, 100000.0, hops, next, -1, flags), life, k)
    {
      var bucket := tbl[Bucket(d)];
      var i := 0;
      while i < |bucket|
        invariant i <= |bucket| && forall j :: 0 <= j < i ==> bucket[j].dest != d
      {
        if bucket[i].dest == d {
          return null;
        }
        i := i + 1;
      }
      rt := Add(d, Route(seqno, valid, 100000.0, hops, next, -1, flags), life, k);
    }

    /**
     `rt_table_insert_with_channel` looks for an entry with the same destination and the same
     channel, so it can put a second entry for one destination into the table.
     */
    method InsertWithChannel(d: Addr, next: Addr, hops: u8, seqno: u32, life: nat, valid: bool, flags: Flags,
                             channel: int, cost: real, k: Clock)
      returns (rt: Entry?)
      requires Valid()
      modifies this`entries, this`numEntries, this`numActive, this`active, tbl
      ensures Valid()
      ensures rt == null <==> d == self || old(HasChannel(d, channel))
      ensures rt == null ==> entries == old(entries)
      ensures rt != null ==> fresh(rt) && rt.dest == d && entries == old(entries) + {rt}
      ensures rt != null ==> rt.Value() == Inserted(Route(seqno, valid, cost, hops, next, channel, flags), life, k)
      ensures Unique(old(entries)) ==> (Unique(entries) <==> rt == null || !Knows(old(entries), d))
    {
      var bucket := tbl[Bucket(d)];
      var i := 0;
      while i < |bucket|
        invariant i <= |bucket| && forall j :: 0 <= j < i ==> bucket[j].dest != d || bucket[j].channel != channel
      {
        if bucket[i].dest == d && bucket[i].channel == channel {
          return null;
        }
        i := i + 1;
      }
      if d == self {
        return null;
      }
      rt := Add(d, Route(seqno, valid, cost, hops, next, channel, flags), life, k);
    }

    /** `rt_table_invalidate` */
    method Invalidate(rt: Entry, k: Clock) returns (done: bool)
      requires Valid() && rt in entries
      modifies this`numActive, this`active, rt
      ensures Valid()
      ensures done == old(rt.valid) && rt.Value() == Invalidated(old(rt.Value()), k)
    {
      hide Size, Wrap, Bucket, InBuckets, Entry.Valid;
      if !rt.valid {
        return false;
      }
      rt.MarkInvalid(k);
      SizeWith(active, rt);
      WrapNext(Size(active) + drift - 1);
      numActive := MinusOne(numActive);
      active := active - {rt};
      done := true;
    }

    /** What `neighbor_link_break` does to one of the other entries. */
    method Sweep(e: Entry, neighbour: Addr, repair: bool, k: Clock)
      requires Valid() && e in entries
      modifies this`numActive, this`active, e
      ensures Valid() && e.Value() == Swept(old(e.Value()), neighbour, repair, k)
    {
      hide Size, Wrap, Bucket, InBuckets, Entry.Valid;
      if e.valid && e.nextHop == neighbour {
        if repair {
          e.MarkRepair();
        }
        var _ := Invalidate(e, k);
      }
    }

    method SweepBucket(bucket: seq<Entry>, neighbour: Addr, repair: bool, k: Clock)
      requires Valid() && forall e <- bucket :: e in entries
      modifies this`numActive, this`active, entries
      ensures Valid()
      ensures forall e <- entries :: e.Value() == if e in bucket then Swept(old(e.Value()), neighbour, repair, k)
               else old(e.Value())
    {
      hide Size, Wrap, Bucket, InBuckets, Entry.Valid, Swept;
      for i := 0 to |bucket|
        invariant Valid()
        invariant forall e <- entries :: e.Value() == if e in bucket[..i]
                 then Swept(old(e.Value()), neighbour, repair, k) else old(e.Value())
      {
        var e := bucket[i];
        SweptTwice(old(e.Value()), neighbour, repair, k);
        Sweep(e, neighbour, repair, k);
        assert bucket[..i + 1] == bucket[..i] + [e];
      }
      assert bucket[..|bucket|] == bucket;
    }

    /** The sweep of `neighbor_link_break` over all buckets. */
    method SweepAll(neighbour: Addr, repair: bool, k: Clock)
      requires Valid()
      modifies this`numActive, this`active, entries
      ensures Valid()
      ensures forall e <- entries :: e.Value() == Swept(old(e.Value()), neighbour, repair, k)
    {
      hide Size, Wrap, Bucket, NoDuplicates, Entry.Valid, Swept;
      ghost var seen := {};
      for b := 0 to RT_TABLESIZE
        invariant Valid()
        invariant forall e <- entries :: e.Value() == if e in seen then Swept(old(e.Value()), neighbour, repair, k)
                 else old(e.Value())
        invariant forall c, e :: 0 <= c < b && e in tbl[c] ==> e in seen
      {
        forall e | e in entries
          ensures Swept(Swept(old(e.Value()), neighbour, repair, k), neighbour, repair, k)
                   == Swept(old(e.Value()), neighbour, repair, k)
        {
          SweptTwice(old(e.Value()), neighbour, repair, k);
        }
        SweepBucket(tbl[b], neighbour, repair, k);
        seen := seen + set e | e in tbl[b];
      }
    }

    /** `neighbor_link_break` */
    method LinkBreak(rt: Entry, k: Clock)
      requires Valid() && rt in entries
      modifies this`numActive, this`active, entries
      ensures Valid()
      ensures forall e <- entries :: e.Value() == Broken(old(e.Value()), e == rt, rt.dest, old(rt.flags.repair), k)
      ensures forall e <- entries :: e.valid <==> old(e.valid) && e != rt && old(e.nextHop) != rt.dest
      ensures forall e <- entries :: e.valid == old(e.valid) ==> e.Value() == old(e.Value())
      ensures forall e <- entries :: old(e.valid) && !e.valid ==>
                && e.seqno == Incr(old(e.seqno)) && e.nextHop == old(e.nextHop) && e.hcnt == old(e.hcnt)
                && e.cost == old(e.cost) && e.channel == old(e.channel) && e.precursors == old(e.precursors)
                && (e.flags.repair <==> old(e.flags.repair) || old(rt.flags.repair))
                && e.handler == (if e.flags.repair then LocalRepair else RouteDelete)
                && e.armed && e.due == k.now + (if e.flags.repair then k.active else k.delete) && !e.hello
    {
      hide Valid, InBuckets, Bucket, Entry.Valid;
      var _ := Invalidate(rt, k);
      SweepAll(rt.dest, rt.flags.repair, k);
    }

    /** A neighbour's entry that is about to lead farther away breaks the links through it. */
    method Demote(rt: Entry, k: Clock)
      requires Valid() && rt in entries
      modifies this`numActive, this`active, entries
      ensures Valid()
      ensures forall e <- entries ::
                e.Value() == if e == rt then Invalidated(old(e.Value()), k).(hello := false)
                             else Swept(old(e.Value()), rt.dest, old(rt.flags.repair), k)
    {
      hide InBuckets, Bucket, Entry.Valid;
      rt.StopHello();
      LinkBreak(rt, k);
    }

    /** An expired entry counts as active again before anything else happens to it. */
    method Revive(rt: Entry)
      requires Valid() && rt in entries
      modifies this`numActive, this`drift
      ensures Valid() && drift == old(drift) + if rt.valid then 0 else 1
    {
      hide Size, Wrap, Bucket, InBuckets, Entry.Valid;
      if !rt.valid {
        WrapNext(Size(active) + drift);
        numActive := PlusOne(numActive);
        drift := drift + 1;
      }
    }

    /** The second half of both updates. */
    method Refresh(rt: Entry, next: Addr, hops: u8, seqno: u32, life: nat, flags: Flags, channel: int, cost: real,
                   k: Clock)
      requires Valid() && rt in entries
      modifies this`active, this`drift, rt
      ensures Valid() && drift == old(drift) - if old(rt.valid) then 0 else 1
      ensures rt.Value().route == Route(seqno, true, cost, hops, next, channel, flags) && rt.handler == RouteExpire
      ensures rt.hello == old(rt.hello) && rt.precursors == old(rt.precursors)
      ensures old(rt.valid) && k.now + life <= old(rt.due) ==> rt.armed == old(rt.armed) && rt.due == old(rt.due)
      ensures !(old(rt.valid) && k.now + life <= old(rt.due)) ==> rt.armed && rt.due == k.now + life
    {
      hide Size, Wrap, Bucket, InBuckets, Entry.Valid;
      if !rt.valid {
        SizeWith(active, rt);
        active := active + {rt};
        drift := drift - 1;
      }
      rt.Rewrite(next, hops, seqno, life, flags, channel, cost, k);
    }

    /** `rt_table_update_with_channel`; every caller asks for a valid route. */
    method UpdateWithChannel(rt: Entry, next: Addr, hops: u8, seqno: u32, life: nat, flags: Flags, channel: int,
                             cost: real, k: Clock)
      requires Valid() && rt in entries
      modifies this`numActive, this`active, this`drift, entries
      ensures Valid()
      ensures rt.Value() == Updated(old(rt.Value()), next, hops, seqno, life, flags, channel, cost, k)
      ensures forall e <- entries :: e != rt ==>
                e.Value() == if Demotes(old(rt.Value()), hops)
                    then Swept(old(e.Value()), rt.dest, old(rt.flags.repair), k) else old(e.Value())
      ensures drift == old(drift) - if old(rt.valid) && Demotes(old(rt.Value()), hops) then 1 else 0
    {
      hide Valid, InBuckets, Bucket, Entry.Valid, Swept;
      Revive(rt);
      var flags' := if !rt.valid && rt.flags.repair then flags.(repair := false) else flags;
      if hops > 1 && rt.hcnt == 1 {
        Demote(rt, k);
      }
      Refresh(rt, next, hops, seqno, life, flags', channel, cost, k);
    }

    /** `rt_table_update`: the channel and the cost stay what they were. */
    method Update(rt: Entry, next: Addr, hops: u8, seqno: u32, life: nat, flags: Flags, k: Clock)
      requires Valid() && rt in entries
      modifies this`numActive, this`active, this`drift, entries
      ensures Valid()
      ensures rt.Value() == Updated(old(rt.Value()), next, hops, seqno, life, flags, old(rt.channel), old(rt.cost), k)
      ensures forall e <- entries :: e != rt ==>
                e.Value() == if Demotes(old(rt.Value()), hops)
                    then Swept(old(e.Value()), rt.dest, old(rt.flags.repair), k) else old(e.Value())
      ensures drift == old(drift) - (if old(rt.valid) && Demotes(old(rt.Value()), hops) then 1 else 0)
    {
      UpdateWithChannel(rt, next, hops, seqno, life, flags, rt.channel, rt.cost, k);
    }

    method ListDetach(rt: Entry)
      requires InBuckets() && rt in entries
      modifies this`entries, tbl
      ensures InBuckets() && entries == old(entries) - {rt}
      ensures forall b :: 0 <= b < RT_TABLESIZE ==> tbl[b] == if b == Bucket(rt.dest) then Remove(old(tbl[b]), rt)
               else old(tbl[b])
    {
      var b := Bucket(rt.dest);
      RemoveKeeps(tbl[b], rt);
      tbl[b] := Remove(tbl[b], rt);
      entries := entries - {rt};
    }

    /** `rt_table_delete` */
    method Delete(rt: Entry)
      requires Valid() && rt in entries
      modifies this`entries, this`numEntries, this`numActive, this`active, tbl, rt
      ensures Valid() && entries == old(entries) - {rt} && rt.Dead()
      ensures forall b :: 0 <= b < RT_TABLESIZE ==> tbl[b] == if b == Bucket(rt.dest) then Remove(old(tbl[b]), rt)
               else old(tbl[b])
    {
      hide Size, Wrap, Bucket, InBuckets, Entry.Valid;
      SizeWith(entries, rt);
      ListDetach(rt);
      DestroyPrecursors(rt);
      if rt.valid {
        SizeWith(active, rt);
        WrapNext(Size(active) + drift - 1);
        numActive := MinusOne(numActive);
        active := active - {rt};
      }
      rt.StopTimers();
      numEntries := numEntries - 1;
    }

    method DestroyPrecursors(rt: Entry)
      requires rt.Valid()
      modifies rt`precursors, rt`nprec
      ensures rt.Valid() && rt.precursors == []
    {
      rt.PrecursorListDestroy();
    }

    method DestroyBucket(b: nat)
      requires Valid() && b < RT_TABLESIZE
      modifies this`entries, this`numEntries, this`numActive, this`active, tbl, entries
      ensures Valid() && entries <= old(entries) && tbl[b] == []
      ensures forall e <- old(entries) :: e in entries || e.Dead()
      ensures forall c :: 0 <= c < RT_TABLESIZE && c != b ==> tbl[c] == old(tbl[c])
    {
      hide Size, Wrap, Bucket, NoDuplicates, Entry.Valid;
      while tbl[b] != []
        invariant Valid() && entries <= old(entries)
        invariant forall e <- old(entries) :: e in entries || e.Dead()
        invariant forall c :: 0 <= c < RT_TABLESIZE && c != b ==> tbl[c] == old(tbl[c])
        decreases |tbl[b]|
      {
        assert tbl[b][0] in tbl[b];
        Delete(tbl[b][0]);
      }
    }

    /** `rt_table_destroy` */
    method Destroy()
      requires Valid()
      modifies this`entries, this`numEntries, this`numActive, this`active, tbl, entries
      ensures Valid() && entries == {} && numEntries == 0 && numActive == Wrap(drift)
      ensures forall e <- old(entries) :: e.Dead()
      ensures forall b :: 0 <= b < RT_TABLESIZE ==> tbl[b] == []
    {
      hide Size, Wrap, Bucket, NoDuplicates, Entry.Valid;
      for b := 0 to RT_TABLESIZE
        invariant Valid() && entries <= old(entries)
        invariant forall e <- old(entries) :: e in entries || e.Dead()
        invariant forall c :: 0 <= c < b ==> tbl[c] == []
      {
        DestroyBucket(b);
      }
      assert entries == {} && active == {};
      SizeIsCardinality(entries);
    }

    /** The precursor updates of `rrep_send_with_channel` and `rrep_forward`. */
    method LinkPrecursors(rev: Entry, fwd: Entry)
      requires Valid() && rev in entries && fwd in entries
      modifies rev`precursors, rev`nprec, fwd`precursors, fwd`nprec
      ensures Valid()
      ensures forall e <- entries :: e.Value() == old(e.Value()).(precursors := e.precursors)
      ensures forall e <- entries :: e != rev && e != fwd ==> e.precursors == old(e.precursors)
      ensures forall e <- entries, a: Addr :: a in e.precursors <==>
                a in old(e.precursors) || (e == fwd && a == rev.nextHop) || (e == rev && a == fwd.nextHop)
    {
      hide Size, Wrap, Bucket, InBuckets, Entry.Valid;
      AddPrecursor(fwd, rev.nextHop);
      AddPrecursor(rev, fwd.nextHop);
    }

    method AddPrecursor(rt: Entry, addr: Addr)
      requires rt.Valid()
      modifies rt`precursors, rt`nprec
      ensures rt.Valid()
      ensures rt.precursors == if addr in old(rt.precursors) then old(rt.precursors) else [addr] + old(rt.precursors)
    {
      rt.PrecursorAdd(addr);
    }

    /** A received error gives an invalid entry its sequence number, and takes its precursors away. */
    method MarkUnreachable(rt: Entry, seqno: u32)
      requires Valid() && rt in entries && !rt.valid
      modifies rt`seqno
      ensures Valid() && rt.Value() == old(rt.Value()).(route := old(rt.Value()).route.(seqno := seqno))
    {
      hide Size, Wrap, Bucket, InBuckets, Entry.Listed;
      rt.seqno := seqno;
    }

    method DropPrecursors(rt: Entry)
      requires Valid() && rt in entries
      modifies rt`precursors, rt`nprec
      ensures Valid() && rt.Value() == old(rt.Value()).(precursors := [])
    {
      hide Size, Wrap, Bucket, InBuckets, Entry.Valid;
      DestroyPrecursors(rt);
    }

    /** `rt_table_update_timeout` on an entry of the table. */
    method Prolong(rt: Entry, life: nat, k: Clock)
      requires Valid() && rt in entries
      modifies rt`armed, rt`due
      ensures Valid() && rt.Value() == Prolonged(old(rt.Value()), life, k)
    {
      hide Size, Wrap, Bucket, InBuckets, Entry.Listed;
      rt.UpdateTimeout(life, k);
    }

    // ---------- timers ----------

    /** `route_expire_timeout` */
    method RouteExpireTimeout(rt: Entry, k: Clock)
      requires Valid() && rt in entries && rt.handler == RouteExpire
      modifies this`numActive, this`active, entries
      ensures Valid() && Fired(old(rt.Value()), k) == Some(rt.Value())
      ensures forall e <- entries :: e != rt ==>
                e.Value() == if old(rt.hcnt) == 1 then Swept(old(e.Value()), rt.dest, old(rt.flags.repair), k)
                    else old(e.Value())
    {
      hide Size, Wrap, Bucket, InBuckets, Entry.Valid;
      rt.HandlerTellsState();
      rt.Disarm();
      if rt.hcnt == 1 {
        LinkBreak(rt, k);
      } else {
        var _ := Invalidate(rt, k);
        DestroyPrecursors(rt);
      }
    }

    lemma ValidEntryExpires(e: Entry)
      requires Valid() && e in entries && e.valid
      ensures e.handler == RouteExpire
    {
    }

    /** The timer of an entry fires: `timer_timeout` calls its handler. */
    method Fire(rt: Entry, k: Clock) returns (report: seq<Addr>)
      requires Valid() && rt in entries && rt.armed && rt.due <= k.now
      modifies this`entries, this`numEntries, this`numActive, this`active, tbl, entries
      ensures Valid()
      ensures match Fired(old(rt.Value()), k)
              case None => entries == old(entries) - {rt} && rt.Dead()
              case Some(st) => entries == old(entries) && rt.Value() == st
      ensures forall e <- entries :: e != rt ==>
                e.Value() == if old(rt.handler) == RouteExpire && old(rt.hcnt) == 1
                             then Swept(old(e.Value()), rt.dest, old(rt.flags.repair), k) else old(e.Value())
      ensures report == if old(rt.handler) == LocalRepair then old(rt.precursors) else []
    {
      hide Size, Wrap, Bucket, InBuckets, Entry.Valid, Swept;
      report := [];
      match rt.handler
      case RouteExpire =>
        RouteExpireTimeout(rt, k);
      case LocalRepair =>
        rt.HandlerTellsState();
        report := rt.LocalRepairTimeout(k);
      case RouteDelete =>
        Delete(rt);
    }

    /** `hello_timeout`: no more hello messages from a neighbour. */
    method HelloTimeout(rt: Entry, mayRepair: bool, k: Clock)
      requires Valid() && rt in entries
      modifies this`numActive, this`active, entries
      ensures Valid()
      ensures !old(rt.valid) || old(rt.flags.unidir) ==> forall e <- entries :: e.Value() == old(e.Value())
      ensures old(rt.valid) && !old(rt.flags.unidir) ==>
                forall e <- entries :: e != rt ==>
                  e.Value() == Swept(old(e.Value()), rt.dest, old(rt.flags.repair) || mayRepair, k)
      ensures old(rt.valid) && !old(rt.flags.unidir) ==>
                rt.Value() == Invalidated(Repairable(old(rt.Value()), mayRepair), k)
    {
      hide Size, Wrap, Bucket, InBuckets, Entry.Valid, Swept;
      if rt.valid && !rt.flags.unidir {
        if mayRepair {
          rt.MarkRepair();
        }
        LinkBreak(rt, k);
      }
    }

    // ---------- the counters ----------

    /** The entry count is exact, and so is the active count up to the demotions of valid neighbours. */
    lemma CountersExact()
      requires Valid()
      ensures numEntries == |entries|
      ensures numActive == Wrap(|set e | e in entries && e.valid| + drift)
      ensures drift == 0 && |entries| < RANGE ==> numActive == |set e | e in entries && e.valid|
    {
      hide Size, Wrap, Bucket, InBuckets, Entry.Valid;
      assert active == set e | e in entries && e.valid;
      SizeIsCardinality(entries);
      SizeIsCardinality(active);
      SubsetSize(active, entries);
      WrapSmall(|active|);
    }

    // ---------- the table as a map ----------

    /** The routes by destination, as the protocol sees them. */
    ghost function Table(): (t: Table)
      requires Unique(entries)
      reads this`entries, entries
      ensures forall d :: d in t <==> Knows(entries, d)
      ensures forall e <- entries :: e.dest in t && t[e.dest] == e.Value().route
    {
      map d | d in (set e | e in entries :: e.dest) :: EntryFor(entries, d).Value().route
    }

    /** The full values of the entries by destination. */
    ghost function States(): (t: StateMap)
      requires Unique(entries)
      reads this`entries, entries
      ensures forall d :: d in t <==> Knows(entries, d)
      ensures forall e <- entries :: e.dest in t && t[e.dest] == e.Value()
    {
      map d | d in (set e | e in entries :: e.dest) :: EntryFor(entries, d).Value()
    }

    /** The map of routes is that of the entries' values without the rest. */
    lemma RouteOfState(d: Addr)
      requires Unique(entries)
      ensures d in Table() <==> d in States()
      ensures d in Table() ==> Table()[d] == States()[d].route
    {
      if d in Table() {
        ghost var e := EntryFor(entries, d);
        assert e in entries;
      }
    }

    twostate lemma OneEntryChanged(rt: Entry)
      requires Unique(entries) && entries == old(entries) && rt in entries
      requires forall e <- entries :: e != rt ==> e.Value() == old(e.Value())
      ensures States() == old(States())[rt.dest := rt.Value()]
    {
      hide RoutingTable.States, Entry.Value;
      ghost var t, t' := old(States()), States();
      forall d ensures (d in t' <==> d in t) && (d in t && d != rt.dest ==> t'[d] == t[d]) {
        if d in t {
          ghost var e := EntryFor(entries, d);
          assert e in entries && t'[d] == e.Value() && t[d] == old(e.Value());
        }
      }
    }

    /** A new entry for a new destination. */
    twostate lemma EntryAdded(new rt: Entry)
      requires Unique(old(entries)) && rt !in old(entries) && entries == old(entries) + {rt}
               && !Knows(old(entries), rt.dest)
      requires forall e <- old(entries) :: e.Value() == old(e.Value())
      ensures Unique(entries) && States() == old(States())[rt.dest := rt.Value()]
    {
      hide RoutingTable.States, Entry.Value;
      UniqueAfterInsert(old(entries), rt);
      ghost var t, t' := old(States()), States();
      assert rt in entries;
      forall d ensures (d in t' <==> d in t || d == rt.dest) && (d in t && d != rt.dest ==> t'[d] == t[d]) {
        if d in t {
          ghost var e := EntryFor(old(entries), d);
          assert e in entries && t[d] == old(e.Value()) && t'[d] == e.Value();
        }
        if d in t' && d != rt.dest {
          ghost var e := EntryFor(entries, d);
          assert e in old(entries);
        }
      }
    }

    twostate lemma EntryDeleted(rt: Entry)
      requires Unique(old(entries)) && rt in old(entries) && entries == old(entries) - {rt}
      requires forall e <- entries :: e.Value() == old(e.Value())
      ensures Unique(entries) && States() == old(States()) - {rt.dest}
    {
      hide RoutingTable.States, Entry.Value;
      ghost var t, t' := old(States()), States();
      forall d ensures (d in t' <==> d in t && d != rt.dest) && (d in t' ==> t'[d] == t[d]) {
        if d in t' {
          ghost var e := EntryFor(entries, d);
          assert e in old(entries) && t[d] == old(e.Value()) && t'[d] == e.Value();
        }
        if d in t && d != rt.dest {
          ghost var e := EntryFor(old(entries), d);
          assert e in entries;
        }
      }
    }

    /** Two states of the same entries differ where the entries do. */
    twostate lemma StateByEntry(d: Addr)
      requires Unique(entries) && entries == old(entries)
      ensures d in States() <==> d in old(States())
      ensures d in States() ==> EntryFor(entries, d) in entries && EntryFor(entries, d).dest == d
                                && States()[d] == EntryFor(entries, d).Value()
                                && old(States())[d] == old(EntryFor(entries, d).Value())
    {
    }

    twostate lemma InsertRefines(new rt: Entry)
      requires Unique(old(entries)) && rt !in old(entries) && entries == old(entries) + {rt}
               && !Knows(old(entries), rt.dest)
      requires forall e <- old(entries) :: e.Value() == old(e.Value())
      ensures Unique(entries) && Table() == old(Table())[rt.dest := rt.Value().route]
    {
      hide Entry.Value;
      UniqueAfterInsert(old(entries), rt);
      ghost var t, t' := old(Table()), Table();
      assert rt in entries && t'[rt.dest] == rt.Value().route;
      forall d | d != rt.dest ensures d in t' <==> d in t
                              ensures d in t' ==> t'[d] == t[d]
      {
        if d in t' {
          ghost var e := EntryFor(entries, d);
          assert e in old(entries);
        }
        if d in t {
          ghost var e := EntryFor(old(entries), d);
          assert e in entries;
        }
      }
    }

    /** Two tables over the same entries differ where the entries do. */
    twostate lemma TableByEntry(d: Addr)
      requires Unique(entries) && entries == old(entries)
      ensures d in Table() <==> d in old(Table())
      ensures d in Table() ==> EntryFor(entries, d) in entries && EntryFor(entries, d).dest == d
                               && Table()[d] == EntryFor(entries, d).Value().route
                               && old(Table())[d] == old(EntryFor(entries, d).Value().route)
    {
    }

    twostate lemma LinkBreakRefines(rt: Entry, new k: Clock)
      requires Unique(entries) && entries == old(entries) && rt in entries
      requires forall e <- entries :: e.Value() == Broken(old(e.Value()), e == rt, rt.dest, old(rt.flags.repair), k)
      ensures Table() == Aodv.LinkBreak(old(Table()), rt.dest)
    {
      hide RoutingTable.Table;
      ghost var t, t' := old(Table()), Table();
      TableByEntry(rt.dest);
      assert t[rt.dest] == old(rt.Value().route) && rt.dest in t';
      forall d ensures (d in t' <==> d in t) && (d in t ==> t'[d] == Aodv.LinkBreak(t, rt.dest)[d]) {
        TableByEntry(d);
      }
    }

    /** The other entries stay, or lose their routes through a neighbour that is gone. */
    twostate predicate Others(rt: Entry, new gone: bool, new k: Clock)
      reads this`entries, entries
    {
      entries == old(entries)
      && forall e <- entries :: e != rt ==>
           e.Value() == if gone then Swept(old(e.Value()), rt.dest, old(rt.flags.repair), k) else old(e.Value())
    }

    /** The same, said of the map of routes. */
    twostate lemma OthersRefine(rt: Entry, new gone: bool, new k: Clock)
      requires Unique(entries) && rt in entries && Others(rt, gone, k)
      ensures OneChanged(old(Table()), Table(), rt.dest, gone)
      ensures old(Table())[rt.dest] == old(rt.Value().route) && Table()[rt.dest] == rt.Value().route
    {
      hide RoutingTable.Table;
      ghost var t, t' := old(Table()), Table();
      TableByEntry(rt.dest);
      forall d ensures (d in t' <==> d in t)
               ensures d in t && d != rt.dest ==> t'[d] == if gone then Aodv.LinkBreak(t, rt.dest)[d] else t[d]
      {
        TableByEntry(d);
      }
    }

    /** With the entry's own flags, as all handlers of the discovery pass them. */
    twostate lemma UpdateRefines(rt: Entry, new next: Addr, new hops: u8, new seqno: u32, new life: nat,
                                 new channel: int, new cost: real, new k: Clock)
      requires Unique(entries) && entries == old(entries) && rt in entries
      requires rt.Value() == Updated(old(rt.Value()), next, hops, seqno, life, old(rt.flags), channel, cost, k)
      requires Others(rt, Demotes(old(rt.Value()), hops), k)
      ensures Table() == Aodv.Update(old(Table()), rt.dest, next, hops, seqno, channel, cost)
    {
      hide RoutingTable.Table, Others, Unique, OneChanged;
      OthersRefine(rt, Demotes(old(rt.Value()), hops), k);
      UpdatedTable(old(Table()), Table(), rt.dest, next, hops, seqno, channel, cost);
    }

    twostate lemma ExpireRefines(rt: Entry, new k: Clock)
      requires Unique(entries) && entries == old(entries) && rt in entries
      requires old(rt.handler) == RouteExpire && Fired(old(rt.Value()), k) == Some(rt.Value())
      requires Others(rt, old(rt.hcnt) == 1, k)
      ensures Table() == Aodv.ExpireRoute(old(Table()), rt.dest)
    {
      hide RoutingTable.Table, Others, Unique, OneChanged;
      OthersRefine(rt, old(rt.hcnt) == 1, k);
      ExpiredTable(old(Table()), Table(), rt.dest);
    }

    twostate lemma SameTable()
      requires Unique(entries) && entries == old(entries)
      requires forall e <- entries :: e.Value().route == old(e.Value().route)
      ensures Table() == old(Table())
    {
      hide RoutingTable.Table;
      ghost var t, t' := old(Table()), Table();
      forall d ensures (d in t' <==> d in t) && (d in t ==> t'[d] == t[d]) {
        TableByEntry(d);
      }
    }

    twostate lemma DeleteRefines(rt: Entry)
      requires Unique(old(entries)) && rt in old(entries) && entries == old(entries) - {rt}
      requires forall e <- entries :: e.Value() == old(e.Value())
      ensures Unique(entries) && Table() == old(Table()) - {rt.dest}
    {
      forall d | d in Table() ensures d in old(Table()) && d != rt.dest && Table()[d] == old(Table())[d] {
        assert EntryFor(entries, d) in old(entries);
      }
      forall d | d in old(Table()) && d != rt.dest ensures d in Table() {
        assert EntryFor(old(entries), d) in entries;
      }
    }
  }

  ghost function EntryFor(entries: set<Entry>, d: Addr): (e: Entry)
    requires Knows(entries, d)
    ensures e in entries && e.dest == d
  {
    var e :| e in entries && e.dest == d;
    e
  }
}
