/**
 Propagation of ordinary route errors: which routes an error takes down, which it reports on,
 and whom the new error reaches.
 */
module Rerr {
  import opened SequenceNumbers
  import opened Aodv
  import opened RoutingTable

  /** An unreachable destination and its sequence number. */
  type Unreachable = (Addr, u32)

  /** The table so far, the destinations of the new error, and its sole recipient (zero if none). */
  datatype Progress = Progress(table: StateMap, dests: seq<Unreachable>, to: Addr)

  // ---------- the loop as a function ----------

  predicate RoutedVia(st: State, src: Addr) {
    st.route.valid && st.route.nextHop == src
  }

  function Down(st: State, seqno: u32, k: Clock): State {
    State(st.route.(valid := false, seqno := seqno), Waiting(st.route.flags), true,
          k.now + Period(st.route.flags, k), false, [])
  }

  predicate ToReport(st: State) {
    st.precursors != [] && !st.route.flags.repair
  }

  /** The sole recipient survives another destination whose precursors are all that recipient. */
  function Recipient(dests: seq<Unreachable>, to: Addr, precursors: seq<Addr>): Addr {
    if dests == [] then (if |precursors| == 1 then precursors[0] else to)
    else if to != 0 && exists a :: a in precursors && a != to then 0
    else to
  }

  function Step(pr: Progress, src: Addr, u: Unreachable, k: Clock): Progress {
    if u.0 in pr.table && RoutedVia(pr.table[u.0], src) then
      var st := pr.table[u.0];
      var table := pr.table[u.0 := Down(st, u.1, k)];
      if ToReport(st) then Progress(table, pr.dests + [u], Recipient(pr.dests, pr.to, st.precursors))
      else pr.(table := table)
    else pr
  }

  function Steps(t: StateMap, src: Addr, us: seq<Unreachable>, k: Clock): Progress {
    if us == [] then Progress(t, [], 0) else Step(Steps(t, src, us[..|us| - 1], k), src, us[|us| - 1], k)
  }

  // ---------- what the loop achieves ----------

  predicate Mentions(us: seq<Unreachable>, d: Addr) {
    exists i :: 0 <= i < |us| && us[i].0 == d
  }

  /** The number an error gives for a destination; a repeated destination counts once. */
  function FirstNumber(us: seq<Unreachable>, d: Addr): u32
    requires Mentions(us, d)
  {
    if us[0].0 == d then us[0].1 else
      assert Mentions(us[1..], d) by {
        var i :| 0 <= i < |us| && us[i].0 == d;
        assert us[1..][i - 1].0 == d;
      }
      FirstNumber(us[1..], d)
  }

  lemma {:induction false} FirstOfMore(us: seq<Unreachable>, u: Unreachable, d: Addr)
    ensures Mentions(us + [u], d) <==> Mentions(us, d) || u.0 == d
    ensures Mentions(us, d) ==> FirstNumber(us + [u], d) == FirstNumber(us, d)
    ensures !Mentions(us, d) && u.0 == d ==> FirstNumber(us + [u], d) == u.1
  {
    assert (us + [u])[|us|] == u;
    if i :| 0 <= i < |us| && us[i].0 == d {
      assert (us + [u])[i].0 == d;
    }
    if us != [] {
      assert (us + [u])[1..] == us[1..] + [u];
      if us[0].0 != d {
        assert Mentions(us, d) ==> Mentions(us[1..], d) by {
          if i :| 0 <= i < |us| && us[i].0 == d {
            assert us[1..][i - 1].0 == d;
          }
        }
        if j :| 0 <= j < |us[1..]| && us[1..][j].0 == d {
          assert us[j + 1].0 == d;
        }
        FirstOfMore(us[1..], u, d);
      }
    }
  }

  /**
   Exactly the valid routes via the sender that the error names go down, with the error's first number
   and without precursors; they are kept for repair or deletion. All others stay as they are.
   */
  lemma {:induction false} ExactlyThoseRouted(t: StateMap, src: Addr, us: seq<Unreachable>, k: Clock, d: Addr)
    ensures var t' := Steps(t, src, us, k).table;
            && (d in t' <==> d in t)
            && (d in t && t[d].route.valid && t[d].route.nextHop == src && Mentions(us, d) ==>
                  var r := t[d].route;
                  t'[d] == State(Route(FirstNumber(us, d), false, r.cost, r.hcnt, r.nextHop, r.channel, r.flags),
                                 if r.flags.repair then LocalRepair else RouteDelete, true,
                                 k.now + (if r.flags.repair then k.active else k.delete), false, []))
            && (d in t && !(t[d].route.valid && t[d].route.nextHop == src && Mentions(us, d)) ==> t'[d] == t[d])
  {
    if us != [] {
      var before, u := us[..|us| - 1], us[|us| - 1];
      assert us == before + [u];
      ExactlyThoseRouted(t, src, before, k, d);
      ExactlyThoseRouted(t, src, before, k, u.0);
      FirstOfMore(before, u, d);
    }
  }

  /** The new error names each lost destination with precursors once, unless it is under repair. */
  lemma {:induction false} ExactlyThoseReported(t: StateMap, src: Addr, us: seq<Unreachable>, k: Clock, u: Unreachable)
    ensures var dests, d := Steps(t, src, us, k).dests, u.0;
            && (u in dests <==>
                  && d in t && t[d].route.valid && t[d].route.nextHop == src && Mentions(us, d)
                  && t[d].precursors != [] && !t[d].route.flags.repair && u.1 == FirstNumber(us, d))
            && NoDuplicates(dests)
  {
    if us != [] {
      var before, v := us[..|us| - 1], us[|us| - 1];
      assert us == before + [v];
      ExactlyThoseReported(t, src, before, k, u);
      ExactlyThoseReported(t, src, before, k, v);
      ExactlyThoseRouted(t, src, before, k, v.0);
      FirstOfMore(before, v, u.0);
      Appended(Steps(t, src, before, k).dests, v);
    }
  }

  lemma {:induction false} Appended<T>(s: seq<T>, x: T)
    ensures NoDuplicates(s + [x]) <==> NoDuplicates(s) && x !in s
  {
    if s != [] {
      assert (s + [x])[1..] == s[1..] + [x];
      Appended(s[1..], x);
    }
  }

  /** While a sole recipient is set, no reported destination has any other precursor. */
  ghost predicate SoleRecipient(t: StateMap, pr: Progress) {
    && (pr.dests == [] ==> pr.to == 0)
    && (forall u <- pr.dests :: u.0 in t)
    && (pr.to != 0 ==> forall u <- pr.dests, a <- t[u.0].precursors :: a == pr.to)
    && (|pr.dests| == 1 && pr.to == 0 ==> |t[pr.dests[0].0].precursors| != 1 || t[pr.dests[0].0].precursors[0] == 0)
  }

  lemma {:induction false} RecipientIsSole(t: StateMap, src: Addr, us: seq<Unreachable>, k: Clock)
    ensures SoleRecipient(t, Steps(t, src, us, k))
  {
    if us != [] {
      var before, v := us[..|us| - 1], us[|us| - 1];
      RecipientIsSole(t, src, before, k);
      ExactlyThoseRouted(t, src, before, k, v.0);
    }
  }

  // ---------- the new error ----------

  datatype Notice = Nothing | ToOne(dests: seq<Unreachable>, to: Addr) | ToAll(dests: seq<Unreachable>)

  function Outcome(pr: Progress): Notice {
    if pr.dests == [] then Nothing
    else if pr.to in pr.table && |pr.dests| == 1 && pr.to != 0 then ToOne(pr.dests, pr.to)
    else ToAll(pr.dests)
  }

  /** The notice that goes on names exactly the destinations to be reported; without any there is none. */
  lemma NoticeNames(t: StateMap, src: Addr, us: seq<Unreachable>, k: Clock, u: Unreachable)
    ensures var notice, d := Outcome(Steps(t, src, us, k)), u.0;
            (notice != Nothing && u in notice.dests) <==>
              && d in t && t[d].route.valid && t[d].route.nextHop == src && Mentions(us, d)
              && t[d].precursors != [] && !t[d].route.flags.repair && u.1 == FirstNumber(us, d)
    ensures var notice := Outcome(Steps(t, src, us, k));
            notice != Nothing ==> notice.dests != [] && NoDuplicates(notice.dests)
  {
    ExactlyThoseReported(t, src, us, k, u);
  }

  predicate Addresses(n: Notice, a: Addr) {
    n.ToAll? || (n.ToOne? && n.to == a)
  }

  /** Every precursor of every reported destination is addressed. */
  lemma EveryPrecursorIsTold(t: StateMap, src: Addr, us: seq<Unreachable>, k: Clock, d: Addr, a: Addr)
    requires d in t && t[d].route.valid && t[d].route.nextHop == src && Mentions(us, d)
    requires a in t[d].precursors && !t[d].route.flags.repair
    ensures Addresses(Outcome(Steps(t, src, us, k)), a)
  {
    ExactlyThoseReported(t, src, us, k, (d, FirstNumber(us, d)));
    RecipientIsSole(t, src, us, k);
  }

  /** One recipient is chosen exactly for one destination with one known, non-zero precursor. */
  lemma UnicastExactly(t: StateMap, src: Addr, us: seq<Unreachable>, k: Clock)
    ensures var pr := Steps(t, src, us, k);
            Outcome(pr).ToOne? <==>
              && |pr.dests| == 1 && pr.dests[0].0 in t && |t[pr.dests[0].0].precursors| == 1
              && t[pr.dests[0].0].precursors[0] != 0 && t[pr.dests[0].0].precursors[0] in t
  {
    var pr := Steps(t, src, us, k);
    RecipientIsSole(t, src, us, k);
    ExactlyThoseRouted(t, src, us, k, pr.to);
    if |pr.dests| == 1 {
      assert pr.dests[0] in pr.dests;
      ExactlyThoseReported(t, src, us, k, pr.dests[0]);
      UniqueRecipient(t, src, us, k);
      var p := t[pr.dests[0].0].precursors;
      if pr.to != 0 {
        assert p[0] in p;
      }
    }
  }

  /** A single reported destination sets its only precursor as the recipient. */
  lemma {:induction false} UniqueRecipient(t: StateMap, src: Addr, us: seq<Unreachable>, k: Clock)
    requires |Steps(t, src, us, k).dests| == 1
    ensures var pr := Steps(t, src, us, k);
            && pr.dests[0].0 in t
            && pr.to == if |t[pr.dests[0].0].precursors| == 1 then t[pr.dests[0].0].precursors[0] else 0
  {
    var before, v := us[..|us| - 1], us[|us| - 1];
    ExactlyThoseRouted(t, src, before, k, v.0);
    RecipientIsSole(t, src, before, k);
    if |Steps(t, src, before, k).dests| == 1 {
      UniqueRecipient(t, src, before, k);
    }
  }

  // ---------- the handler ----------

  /** `struct rerr_record` without its timer. */
  datatype ErrorRecord = ErrorRecord(orig: Addr, id: u32, last: Addr)

  class Receiver {
    const rt: RoutingTable
    var records: seq<ErrorRecord>

    constructor (rt: RoutingTable)
      ensures this.rt == rt && records == []
    {
      this.rt := rt;
      records := [];
    }

    /** `rerr_record_find` */
    method RecordFind(r: ErrorRecord) returns (found: bool)
      ensures found == (r in records)
    {
      var i := 0;
      while i < |records|
        invariant i <= |records| && r !in records[..i]
      {
        if records[i].orig == r.orig && records[i].id == r.id && records[i].last == r.last {
          return true;
        }
        i := i + 1;
      }
      assert records[..i] == records;
      found := false;
    }

    /** `rerr_record_insert` */
    method RecordInsert(r: ErrorRecord)
      modifies this`records
      ensures records == if r in old(records) then old(records) else [r] + old(records)
    {
      var known := RecordFind(r);
      if !known {
        records := [r] + records;
      }
    }

    /** The search for a precursor other than the recipient. */
    method StillSole(to: Addr, precursors: seq<Addr>) returns (to': Addr)
      requires to != 0
      ensures to' == if exists a :: a in precursors && a != to then 0 else to
    {
      var i := 0;
      while i < |precursors|
        invariant i <= |precursors| && forall j :: 0 <= j < i ==> precursors[j] == to
      {
        if precursors[i] != to {
          assert precursors[i] in precursors;
          return 0;
        }
        i := i + 1;
      }
      to' := to;
    }

    /** The entry goes down with the number that the error gives. */
    method TakeDown(e: Entry, seqno: u32, k: Clock)
      requires rt.Valid() && Unique(rt.entries) && e in rt.entries && e.valid
      modifies rt`numActive, rt`active, e
      ensures rt.Valid() && e.Value() == Down(old(e.Value()), seqno, k).(precursors := old(e.precursors))
    {
      hide RoutingTable.Valid, Unique;
      var _ := rt.Invalidate(e, k);
      rt.MarkUnreachable(e, seqno);
    }

    /** The sole recipient, once a destination with these precursors is reported too. */
    method NextRecipient(dests: seq<Unreachable>, to: Addr, precursors: seq<Addr>) returns (to': Addr)
      ensures to' == Recipient(dests, to, precursors)
    {
      to' := to;
      if dests == [] {
        if |precursors| == 1 {
          to' := precursors[0];
        }
      } else if to != 0 {
        to' := StillSole(to, precursors);
      }
    }

    /** One round of the loop of `rerr_process`. */
    method Unreach(src: Addr, u: Unreachable, dests: seq<Unreachable>, to: Addr, k: Clock)
      returns (dests': seq<Unreachable>, to': Addr)
      requires rt.Valid() && Unique(rt.entries)
      modifies rt`numActive, rt`active, rt.entries
      ensures rt.Valid()
      ensures Progress(rt.States(), dests', to') == Step(Progress(old(rt.States()), dests, to), src, u, k)
    {
      hide RoutingTable.Valid, RoutingTable.States;
      dests', to' := dests, to;
      var e := rt.Find(u.0);
      if e != null && e.valid && e.nextHop == src {
        TakeDown(e, u.1, k);
        if e.precursors != [] && !e.flags.repair {
          dests' := dests + [(u.0, e.seqno)];
          to' := NextRecipient(dests, to, e.precursors);
        }
        if !e.valid {
          rt.DropPrecursors(e);
        }
        rt.OneEntryChanged(e);
      }
    }

    /** The loop over the destinations of the error. */
    method UnreachAll(src: Addr, us: seq<Unreachable>, k: Clock) returns (dests: seq<Unreachable>, to: Addr)
      requires rt.Valid() && Unique(rt.entries)
      modifies rt`numActive, rt`active, rt.entries
      ensures rt.Valid() && Progress(rt.States(), dests, to) == Steps(old(rt.States()), src, us, k)
    {
      hide RoutingTable.Valid, RoutingTable.States, Step;
      dests, to := [], 0;
      var i := 0;
      while i < |us|
        invariant i <= |us| && rt.Valid()
        invariant Progress(rt.States(), dests, to) == Steps(old(rt.States()), src, us[..i], k)
      {
        dests, to := Unreach(src, us[i], dests, to, k);
        i := i + 1;
        assert us[..i][..i - 1] == us[..i - 1];
      }
      assert us[..i] == us;
    }

    /** `rerr_process` for an error with neither the no-delete nor the repair flag. */
    method RerrProcess(r: ErrorRecord, us: seq<Unreachable>, k: Clock) returns (notice: Notice)
      requires rt.Valid() && Unique(rt.entries)
      modifies this`records, rt`numActive, rt`active, rt.entries
      ensures rt.Valid()
      ensures r in old(records) ==> notice == Nothing && rt.States() == old(rt.States()) && records == old(records)
      ensures r !in old(records) ==>
                && records == [r] + old(records)
                && rt.States() == Steps(old(rt.States()), r.last, us, k).table
                && notice == Outcome(Steps(old(rt.States()), r.last, us, k))
    {
      hide RoutingTable.Valid, RoutingTable.States, Step, Steps, Outcome;
      var known := RecordFind(r);
      if known {
        return Nothing;
      }
      RecordInsert(r);
      notice := Report(r.last, us, k);
    }

    /** Every destination is dealt with in turn, and the notice follows. */
    method Report(src: Addr, us: seq<Unreachable>, k: Clock) returns (notice: Notice)
      requires rt.Valid() && Unique(rt.entries)
      modifies rt`numActive, rt`active, rt.entries
      ensures rt.Valid() && rt.States() == Steps(old(rt.States()), src, us, k).table
      ensures notice == Outcome(Steps(old(rt.States()), src, us, k))
    {
      hide RoutingTable.Valid, RoutingTable.States, Step, Steps, Outcome;
      var dests, to := UnreachAll(src, us, k);
      notice := Tell(dests, to);
    }

    /** The notice that goes on: to one precursor, to everybody or to nobody. */
    method Tell(dests: seq<Unreachable>, to: Addr) returns (notice: Notice)
      requires rt.Valid() && Unique(rt.entries)
      ensures notice == Outcome(Progress(rt.States(), dests, to))
    {
      hide RoutingTable.Valid;
      if dests == [] {
        return Nothing;
      }
      var e := rt.Find(to);
      if e != null && |dests| == 1 && to != 0 {
        notice := ToOne(dests, to);
      } else {
        notice := ToAll(dests);
      }
    }
  }
}
