/**
 The list of neighbours that the stability estimate works on: how many neighbours have come and
 gone since the list was last brought up to date, and bringing it up to date.
 */
module Neighbours {
  import opened Aodv
  import opened RoutingTable
  import opened Sets

  const MAX_NEIGHBOURS: nat := 20

  /** `struct neighbor_info`, as far as it is about presence. */
  datatype Neighbour = Neighbour(ipaddr: Addr, isValid: bool)

  /** The destinations from which hello messages arrive. */
  ghost function Active(entries: set<Entry>): set<Addr>
    reads entries`hello
  {
    set e | e in entries && e.hello :: e.dest
  }

  lemma ActiveMeans(entries: set<Entry>, d: Addr)
    ensures d in Active(entries) <==> exists e :: e in entries && e.hello && e.dest == d
  {
  }

  function Listed(list: seq<Neighbour>): set<Addr> {
    if list == [] then {} else {list[0].ipaddr} + Listed(list[1..])
  }

  function Present(list: seq<Neighbour>): set<Addr> {
    if list == [] then {} else (if list[0].isValid then {list[0].ipaddr} else {}) + Present(list[1..])
  }

  /** No address has two rows. */
  predicate OneRowEach(list: seq<Neighbour>) {
    list == [] || (list[0].ipaddr !in Listed(list[1..]) && OneRowEach(list[1..]))
  }

  lemma {:induction false} PresentAt(list: seq<Neighbour>, a: Addr)
    ensures a in Present(list) <==> exists j :: 0 <= j < |list| && list[j].isValid && list[j].ipaddr == a
    ensures a in Listed(list) <==> exists j :: 0 <= j < |list| && list[j].ipaddr == a
  {
    if list != [] {
      PresentAt(list[1..], a);
      forall j | 0 <= j < |list| && list[j].ipaddr == a && j > 0 ensures list[1..][j - 1] == list[j] {
      }
    }
  }

  lemma {:induction false} PresentMore(list: seq<Neighbour>, n: Neighbour)
    ensures Present(list + [n]) == Present(list) + if n.isValid then {n.ipaddr} else {}
    ensures Listed(list + [n]) == Listed(list) + {n.ipaddr}
    ensures OneRowEach(list + [n]) <==> OneRowEach(list) && n.ipaddr !in Listed(list)
  {
    if list == [] {
      assert list + [n] == [n] && [n][1..] == [];
    } else {
      assert (list + [n])[1..] == list[1..] + [n];
      PresentMore(list[1..], n);
    }
  }

  class Host {
    const rt: RoutingTable
    const rows: array<Neighbour>
    var num: nat

    ghost predicate Valid()
      reads this, rows, rt, rt.tbl, rt.entries
    {
      rt.Valid() && rows.Length == MAX_NEIGHBOURS && num <= MAX_NEIGHBOURS && OneRowEach(rows[..num])
    }

    constructor (rt: RoutingTable)
      requires rt.Valid()
      ensures Valid() && this.rt == rt && num == 0 && fresh(rows)
    {
      this.rt := rt;
      rows := new Neighbour[MAX_NEIGHBOURS](_ => Neighbour(0, false));
      num := 0;
    }

    /** The search through all buckets for an entry with a running hello timer. */
    method HelloActive(d: Addr) returns (found: bool)
      requires rt.Valid()
      ensures found == (d in Active(rt.entries))
    {
      hide Size, Wrap, Bucket, NoDuplicates, Entry.Valid;
      found := false;
      for b := 0 to RT_TABLESIZE
        invariant found ==> d in Active(rt.entries)
        invariant !found ==> forall c, e :: 0 <= c < b && e in rt.tbl[c] ==> !(e.hello && e.dest == d)
      {
        var bucket := rt.tbl[b];
        var i := 0;
        while i < |bucket|
          invariant i <= |bucket|
          invariant found ==> d in Active(rt.entries)
          invariant !found ==> forall c, e :: 0 <= c < b && e in rt.tbl[c] ==> !(e.hello && e.dest == d)
          invariant !found ==> forall k :: 0 <= k < i ==> !(bucket[k].hello && bucket[k].dest == d)
        {
          if bucket[i].hello && bucket[i].dest == d {
            assert bucket[i] in rt.tbl[b];
            found := true;
            break;
          }
          i := i + 1;
        }
      }
    }

    /** The search for a valid row. */
    method HasValidRow(d: Addr) returns (found: bool)
      requires rows.Length == MAX_NEIGHBOURS && num <= MAX_NEIGHBOURS
      ensures found == (d in Present(rows[..num]))
    {
      PresentAt(rows[..num], d);
      var j := 0;
      while j < num
        invariant j <= num && forall k :: 0 <= k < j ==> !(rows[k].ipaddr == d && rows[k].isValid)
      {
        if rows[j].ipaddr == d && rows[j].isValid {
          assert rows[..num][j] == rows[j];
          return true;
        }
        j := j + 1;
      }
      found := false;
    }

    /** `update_sta_info`: arrivals and departures since the rows were last brought up to date. */
    method UpdateStaInfo() returns (neighborNum: nat, neighborChange: nat)
      requires Valid() && |Active(rt.entries)| <= MAX_NEIGHBOURS
      ensures neighborNum == |Active(rt.entries)|
      ensures neighborChange == |Active(rt.entries) - Present(rows[..num])|
               + |Present(rows[..num]) - Active(rt.entries)|
    {
      hide RoutingTable.Valid, Present, Active, OneRowEach;
      var arrived;
      neighborNum, arrived := Arrivals();
      var departed := Departures();
      neighborChange := arrived + departed;
    }

    method Arrivals() returns (neighborNum: nat, arrived: nat)
      requires Valid() && |Active(rt.entries)| <= MAX_NEIGHBOURS
      ensures neighborNum == |Active(rt.entries)|
      ensures arrived == |Active(rt.entries) - Present(rows[..num])|
    {
      hide Size, Wrap, Bucket, NoDuplicates, Entry.Valid, Present, OneRowEach;
      var seen: seq<Addr> := [];
      neighborNum, arrived := 0, 0;
      for b := 0 to RT_TABLESIZE
        invariant (forall a <- seen :: a in Active(rt.entries)) && Distinct(seen) && neighborNum == |seen|
        invariant arrived == Missing(seen, Present(rows[..num]))
        invariant forall e <- rt.entries :: Bucket(e.dest) < b && e.hello ==> e.dest in seen
      {
        var bucket := rt.tbl[b];
        for i := 0 to |bucket|
          invariant (forall a <- seen :: a in Active(rt.entries)) && Distinct(seen) && neighborNum == |seen|
          invariant arrived == Missing(seen, Present(rows[..num]))
          invariant forall e <- rt.entries :: Bucket(e.dest) < b && e.hello ==> e.dest in seen
          invariant forall k :: 0 <= k < i && bucket[k].hello ==> bucket[k].dest in seen
        {
          var e := bucket[i];
          assert e in rt.tbl[b];
          if e.hello && e.dest !in seen {
            var known := HasValidRow(e.dest);
            if !known {
              arrived := arrived + 1;
            }
            neighborNum := neighborNum + 1;
            OneMore(seen, e.dest, Present(rows[..num]));
            seen := seen + [e.dest];
          }
        }
      }
      MissingIsDifference(seen, Active(rt.entries), Present(rows[..num]));
    }

    method Departures() returns (departed: nat)
      requires Valid()
      ensures departed == |Present(rows[..num]) - Active(rt.entries)|
    {
      hide RoutingTable.Valid, Present, Active, OneRowEach;
      departed := 0;
      for j := 0 to num
        invariant departed == Missing(ValidRows(rows[..j]), Active(rt.entries))
      {
        assert rows[..j + 1] == rows[..j] + [rows[j]];
        OneRowMore(rows[..j], rows[j], Active(rt.entries));
        if rows[j].isValid {
          var here := HelloActive(rows[j].ipaddr);
          if !here {
            departed := departed + 1;
          }
        }
      }
      ValidRowsAreDistinct(rows[..num]);
      MissingIsDifference(ValidRows(rows[..num]), Present(rows[..num]), Active(rt.entries));
    }

    // ---------- bringing the rows up to date ----------

    /** A neighbour that sends hello messages gets a valid row, its old one if it has one. */
    method MarkRow(d: Addr)
      requires rows.Length == MAX_NEIGHBOURS && num <= MAX_NEIGHBOURS && OneRowEach(rows[..num])
      requires d in Listed(rows[..num]) || num < MAX_NEIGHBOURS
      modifies this`num, rows
      ensures num <= MAX_NEIGHBOURS && rows[..num] == Marked(old(rows[..num]), d)
    {
      var j := 0;
      while j < num
        invariant j <= num && forall k :: 0 <= k < j ==> rows[k].ipaddr != d
      {
        if rows[j].ipaddr == d {
          assert rows[..num][j].ipaddr == d;
          MarkedAt(rows[..num], d, j);
          assert rows[..num][j] == rows[j];
          rows[j] := rows[j].(isValid := true);
          return;
        }
        j := j + 1;
      }
      MarkedNew(rows[..num], d);
      PresentAt(rows[..num], d);
      rows[num] := Neighbour(d, true);
      num := num + 1;
    }

    /** The rows after marking the neighbours in `seen`, of all those in `all`. */
    ghost predicate Marking(before: seq<Neighbour>, seen: set<Addr>, all: set<Addr>)
      reads this, rows
    {
      rows.Length == MAX_NEIGHBOURS && num <= MAX_NEIGHBOURS && MarkedSoFar(before, rows[..num], seen, all)
    }

    method MarkBucket(bucket: seq<Entry>, ghost before: seq<Neighbour>, ghost seen: set<Addr>, ghost all: set<Addr>)
      returns (ghost seen': set<Addr>)
      requires Marking(before, seen, all) && |Listed(before) + all| <= MAX_NEIGHBOURS
      requires forall e <- bucket :: e.hello ==> e.dest in all
      modifies this`num, rows
      ensures Marking(before, seen', all) && seen <= seen'
      ensures forall e <- bucket :: e.hello ==> e.dest in seen'
    {
      hide Present, Listed, Marked, OneRowEach, Extends, MarkedSoFar;
      seen' := seen;
      for i := 0 to |bucket|
        invariant Marking(before, seen', all) && seen <= seen'
        invariant forall k :: 0 <= k < i && bucket[k].hello ==> bucket[k].dest in seen'
      {
        var e := bucket[i];
        assert e in bucket;
        if e.hello {
          ghost var now := rows[..num];
          RoomLeft(before, now, seen', all, e.dest);
          MarkedRows(before, now, seen', all);
          MarkRow(e.dest);
          seen' := seen' + {e.dest};
        }
      }
    }

    /** The first loop of `update_neighbor_info`. */
    method MarkActive()
      requires Valid() && |Listed(rows[..num]) + Active(rt.entries)| <= MAX_NEIGHBOURS
      modifies this`num, rows
      ensures Valid() && Extends(old(rows[..num]), rows[..num])
      ensures Present(rows[..num]) == old(Present(rows[..num])) + Active(rt.entries)
    {
      hide Size, Wrap, Bucket, NoDuplicates, Entry.Valid, Present, Listed, Marked, OneRowEach, Extends, MarkedSoFar;
      ghost var before := rows[..num];
      ghost var all := Active(rt.entries);
      ghost var seen: set<Addr> := {};
      MarkedNone(before, all);
      for b := 0 to RT_TABLESIZE
        invariant Marking(before, seen, all)
        invariant forall e <- rt.entries :: Bucket(e.dest) < b && e.hello ==> e.dest in seen
      {
        var bucket := rt.tbl[b];
        assert forall e <- bucket :: e in rt.entries;
        ghost var seen' := MarkBucket(bucket, before, seen, all);
        assert rt.tbl[b] == bucket;
        seen := seen';
      }
      MarkedAll(before, rows[..num], seen, all);
    }

    /** The second loop of `update_neighbor_info`. */
    method DropInactive()
      requires Valid()
      modifies rows
      ensures Valid() && |rows[..num]| == |old(rows[..num])|
      ensures forall j :: 0 <= j < num ==>
                rows[j] == Neighbour(old(rows[j].ipaddr), old(rows[j].isValid)
                    && old(rows[j].ipaddr) in Active(rt.entries))
    {
      hide RoutingTable.Valid, Active;
      for j := 0 to num
        invariant forall k :: 0 <= k < num ==>
                    rows[k] == if k >= j then old(rows[k])
                               else Neighbour(old(rows[k].ipaddr), old(rows[k].isValid)
                                   && old(rows[k].ipaddr) in Active(rt.entries))
      {
        if rows[j].isValid {
          var here := HelloActive(rows[j].ipaddr);
          if !here {
            rows[j] := rows[j].(isValid := false);
          }
        }
      }
      PresentFiltered(old(rows[..num]), rows[..num], Active(rt.entries));
    }

    /** `update_neighbor_info`: afterwards nobody has come or gone, and no row has moved. */
    method UpdateNeighborInfo()
      requires Valid() && |Listed(rows[..num]) + Active(rt.entries)| <= MAX_NEIGHBOURS
      modifies this`num, rows
      ensures Valid() && Present(rows[..num]) == Active(rt.entries)
      ensures |Active(rt.entries) - Present(rows[..num])| + |Present(rows[..num]) - Active(rt.entries)| == 0
      ensures Extends(old(rows[..num]), rows[..num])
    {
      hide RoutingTable.Valid, Active, OneRowEach;
      MarkActive();
      ghost var marked := rows[..num];
      DropInactive();
      PresentFiltered(marked, rows[..num], Active(rt.entries));
      assert Present(rows[..num]) == Active(rt.entries);
      assert Active(rt.entries) - Present(rows[..num]) == {} && Present(rows[..num]) - Active(rt.entries) == {};
    }
  }

  // ---------- counting ----------

  predicate Distinct(s: seq<Addr>) {
    s == [] || (s[|s| - 1] !in s[..|s| - 1] && Distinct(s[..|s| - 1]))
  }

  /** How many elements of a list are not in a set. */
  function Missing(s: seq<Addr>, from: set<Addr>): nat {
    if s == [] then 0 else Missing(s[..|s| - 1], from) + (if s[|s| - 1] in from then 0 else 1)
  }

  lemma OneMore(s: seq<Addr>, a: Addr, from: set<Addr>)
    ensures Distinct(s) && a !in s ==> Distinct(s + [a])
    ensures Missing(s + [a], from) == Missing(s, from) + if a in from then 0 else 1
  {
    assert (s + [a])[..|s|] == s;
  }

  lemma {:induction false} MissingIsDifference(s: seq<Addr>, all: set<Addr>, from: set<Addr>)
    requires Distinct(s) && forall a :: a in s <==> a in all
    ensures |s| == |all| && Missing(s, from) == |all - from|
  {
    if s == [] {
      assert all == {} && all - from == {};
    } else {
      var front, last := s[..|s| - 1], s[|s| - 1];
      assert s == front + [last];
      MissingIsDifference(front, all - {last}, from);
      if last in from {
        assert all - {last} - from == all - from;
      } else {
        assert all - {last} - from == all - from - {last};
      }
    }
  }

  /** The addresses of the valid rows, in row order. */
  function ValidRows(list: seq<Neighbour>): seq<Addr> {
    if list == [] then []
    else ValidRows(list[..|list| - 1]) + if list[|list| - 1].isValid then [list[|list| - 1].ipaddr] else []
  }

  lemma OneRowMore(list: seq<Neighbour>, n: Neighbour, from: set<Addr>)
    ensures Missing(ValidRows(list + [n]), from) == Missing(ValidRows(list), from) + if n.isValid && n.ipaddr !in from
             then 1 else 0
  {
    assert (list + [n])[..|list|] == list;
    OneMore(ValidRows(list), n.ipaddr, from);
    assert !n.isValid ==> ValidRows(list + [n]) == ValidRows(list);
  }

  lemma {:induction false} PresentListed(list: seq<Neighbour>)
    ensures Present(list) <= Listed(list)
  {
    if list != [] {
      PresentListed(list[1..]);
    }
  }

  lemma {:induction false} ValidRowsAreDistinct(list: seq<Neighbour>)
    requires OneRowEach(list)
    ensures Distinct(ValidRows(list))
    ensures forall a :: a in ValidRows(list) <==> a in Present(list)
  {
    if list != [] {
      var front, last := list[..|list| - 1], list[|list| - 1];
      assert list == front + [last];
      PresentMore(front, last);
      ValidRowsAreDistinct(front);
      if last.isValid {
        PresentListed(front);
        OneMore(ValidRows(front), last.ipaddr, {});
      } else {
        assert ValidRows(list) == ValidRows(front);
      }
    }
  }

  // ---------- marking ----------

  /** The old rows keep their places and addresses. */
  predicate Extends(list: seq<Neighbour>, list': seq<Neighbour>) {
    |list| <= |list'| && forall j :: 0 <= j < |list| ==> list'[j].ipaddr == list[j].ipaddr
  }

  function Marked(list: seq<Neighbour>, d: Addr): seq<Neighbour> {
    if list == [] then [Neighbour(d, true)]
    else if list[0].ipaddr == d then [Neighbour(d, true)] + list[1..]
    else [list[0]] + Marked(list[1..], d)
  }

  lemma {:induction false} MarkedAt(list: seq<Neighbour>, d: Addr, j: nat)
    requires j < |list| && list[j].ipaddr == d && forall k :: 0 <= k < j ==> list[k].ipaddr != d
    ensures Marked(list, d) == list[j := Neighbour(d, true)]
  {
    if j > 0 {
      MarkedAt(list[1..], d, j - 1);
      assert list[j := Neighbour(d, true)] == [list[0]] + list[1..][j - 1 := Neighbour(d, true)];
    }
  }

  lemma {:induction false} MarkedNew(list: seq<Neighbour>, d: Addr)
    requires forall k :: 0 <= k < |list| ==> list[k].ipaddr != d
    ensures Marked(list, d) == list + [Neighbour(d, true)]
  {
    if list != [] {
      MarkedNew(list[1..], d);
      assert list + [Neighbour(d, true)] == [list[0]] + (list[1..] + [Neighbour(d, true)]);
    }
  }

  /** Marking makes one more neighbour present, on a row of its own. */
  lemma {:induction false} MarkingAdds(list: seq<Neighbour>, d: Addr)
    requires OneRowEach(list)
    ensures var list' := Marked(list, d);
            && OneRowEach(list') && Extends(list, list')
            && Present(list') == Present(list) + {d} && Listed(list') == Listed(list) + {d}
  {
    if list == [] {
      assert [Neighbour(d, true)][1..] == [];
    } else if list[0].ipaddr == d {
      assert ([Neighbour(d, true)] + list[1..])[1..] == list[1..];
    } else {
      MarkingAdds(list[1..], d);
      var list' := Marked(list, d);
      assert list'[0] == list[0] && list'[1..] == Marked(list[1..], d);
      forall j | 0 <= j < |list| ensures list'[j].ipaddr == list[j].ipaddr {
        assert j > 0 ==> list'[1..][j - 1].ipaddr == list[1..][j - 1].ipaddr;
      }
    }
  }

  predicate MarkedSoFar(before: seq<Neighbour>, list: seq<Neighbour>, seen: set<Addr>, all: set<Addr>) {
    && OneRowEach(list) && Extends(before, list) && seen <= all
    && Present(list) == Present(before) + seen && Listed(list) == Listed(before) + seen
  }

  lemma MarkedRows(before: seq<Neighbour>, list: seq<Neighbour>, seen: set<Addr>, all: set<Addr>)
    requires MarkedSoFar(before, list, seen, all)
    ensures OneRowEach(list)
  {
  }

  lemma MarkedNone(before: seq<Neighbour>, all: set<Addr>)
    requires OneRowEach(before)
    ensures MarkedSoFar(before, before, {}, all)
  {
  }

  lemma MarkedAll(before: seq<Neighbour>, list: seq<Neighbour>, seen: set<Addr>, all: set<Addr>)
    requires MarkedSoFar(before, list, seen, all) && all <= seen
    ensures OneRowEach(list) && Extends(before, list) && Present(list) == Present(before) + all
  {
  }

  lemma {:induction false} RowsCount(list: seq<Neighbour>)
    requires OneRowEach(list)
    ensures |Listed(list)| == |list|
  {
    if list != [] {
      RowsCount(list[1..]);
    }
  }

  /** As long as all neighbours together fit, there is a row for the next one. */
  lemma RoomLeft(before: seq<Neighbour>, list: seq<Neighbour>, seen: set<Addr>, all: set<Addr>, d: Addr)
    requires MarkedSoFar(before, list, seen, all) && d in all && |Listed(before) + all| <= MAX_NEIGHBOURS
    ensures d in Listed(list) || |list| < MAX_NEIGHBOURS
    ensures MarkedSoFar(before, Marked(list, d), seen + {d}, all) && |Marked(list, d)| <= MAX_NEIGHBOURS
  {
    hide OneRowEach, Listed, Present, Marked;
    MarkingAdds(list, d);
    assert Present(list) + {d} == Present(before) + (seen + {d});
    assert Listed(list) + {d} == Listed(before) + (seen + {d});
    RowsFit(Marked(list, d), Listed(before) + all);
    if d !in Listed(list) {
      RowsFit(list + [Neighbour(d, true)], Listed(before) + all) by {
        PresentMore(list, Neighbour(d, true));
      }
    }
  }

  lemma RowsFit(list: seq<Neighbour>, all: set<Addr>)
    requires OneRowEach(list) && Listed(list) <= all
    ensures |list| <= |all|
  {
    RowsCount(list);
    SubsetSize(Listed(list), all);
  }

  lemma {:induction false} PresentFiltered(list: seq<Neighbour>, list': seq<Neighbour>, all: set<Addr>)
    requires |list'| == |list|
    requires forall j :: 0 <= j < |list| ==>
               list'[j] == Neighbour(list[j].ipaddr, list[j].isValid && list[j].ipaddr in all)
    ensures Present(list') == Present(list) * all && Listed(list') == Listed(list) && Extends(list, list')
    ensures OneRowEach(list') <==> OneRowEach(list)
  {
    if list != [] {
      PresentFiltered(list[1..], list'[1..], all);
    }
  }
}
