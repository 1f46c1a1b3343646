/**
 The ring of hello acknowledgements: for each neighbour and channel ten slots, shared by all hello
 indices with the same remainder, and a window of indices whose slots are meaningful.
 */
module HelloRing {
  import opened SequenceNumbers
  import opened Aodv

  const MAX_SEQUENCE_LEN: nat := 10
  const ROWS: nat := 20
  /** The start-up loop over the rows runs to the length of a ring instead of the number of rows. */
  const CLEARED_ROWS: nat := 10

  function Slot(i: nat): (s: nat)
    ensures s < MAX_SEQUENCE_LEN
  {
    i % MAX_SEQUENCE_LEN
  }

  /** A hello index as the acknowledgement carries it, in one byte. */
  function Byte(k: nat): (b: u8) {
    k % 0x100
  }

  /** Whose acknowledgement it was, on which channel, and the hello it answers. */
  datatype Acknowledgement = Acknowledgement(from: Addr, channel: nat, hello: nat)

  /** An acknowledgement that a stranger's message left in the first free row. */
  datatype Stray = Stray(row: nat, channel: nat, hello: nat)

  predicate Distinct(list: seq<Addr>) {
    forall i, j :: 0 <= i < j < |list| ==> list[i] != list[j]
  }

  lemma SlotsDiffer(i: nat, j: nat, low: nat)
    requires low <= i < low + MAX_SEQUENCE_LEN && low <= j < low + MAX_SEQUENCE_LEN && Slot(i) == Slot(j)
    ensures i == j
  {
  }

  /** An index that survives the byte and is not below the window names the hello that was sent. */
  lemma ByteNamesHello(k: nat, head: nat, tail: nat)
    requires k <= tail < head + MAX_SEQUENCE_LEN
    ensures head <= Byte(k) ==> Byte(k) == k
    ensures head <= k ==> (Byte(k) == k <==> k <= 0xFF)
  {
  }

  lemma NextSlotIsFirst(head: nat, tail: nat)
    requires head == if tail < 9 then 0 else tail - 9
    ensures Slot(head) == Slot(tail + 1) <==> tail >= 9
  {
  }

  class Ring {
    var head: nat
    var tail: nat
    var neighbors: seq<Addr>
    const slots: array3<int>
    /** The acknowledgements of listed neighbours so far, with the true index of the hello. */
    ghost var log: set<Acknowledgement>
    /** Those of nodes that were not listed when they came in. */
    ghost var strays: set<Stray>

    /** The neighbour of row `n` has acknowledged hello `i` on channel `c`. */
    ghost predicate Acknowledged(n: nat, c: nat, i: nat)
      reads this`neighbors, this`log
    {
      n < |neighbors| && Acknowledgement(neighbors[n], c, i) in log
    }

    /** A slot is set by the neighbour of its row, or by a stranger while the row was the first free one. */
    ghost predicate Agrees(n: nat, c: nat, i: nat)
      requires n < ROWS && c < CHANNELS && slots.Length0 == ROWS && slots.Length1 == CHANNELS
               && slots.Length2 == MAX_SEQUENCE_LEN
      reads slots, this`neighbors, this`log, this`strays
    {
      i >= 1 || n < CLEARED_ROWS ==>
        (slots[n, c, Slot(i)] == 1 <==> i <= 0xFF && (Acknowledged(n, c, i) || Stray(n, c, i) in strays))
    }

    ghost predicate Valid()
      reads this, slots
    {
      && slots.Length0 == ROWS && slots.Length1 == CHANNELS && slots.Length2 == MAX_SEQUENCE_LEN
      && head == (if tail < 9 then 0 else tail - 9)
      && |neighbors| <= ROWS && Distinct(neighbors)
      && (forall a <- log :: a.hello <= tail && a.from in neighbors) && (forall s <- strays :: s.hello <= tail)
      && (forall n, c, i {:trigger Agrees(n, c, i)} :: 0 <= n < ROWS && 0 <= c < CHANNELS && head <= i <= tail ==>
            Agrees(n, c, i))
    }

    /** The rows beyond the cleared ones hold what `rest` puts there. */
    constructor (rest: (nat, nat, nat) -> int)
      ensures Valid() && head == 0 && tail == 0 && log == {} && strays == {} && neighbors == [] && fresh(slots)
    {
      slots := new int[ROWS, CHANNELS, MAX_SEQUENCE_LEN]((n: nat, c: nat, s: nat) => if n < CLEARED_ROWS then 0
          else rest(n, c, s));
      head, tail, neighbors, log, strays := 0, 0, [], {}, {};
    }

    /**
     The slot of a listed neighbour tells whether it has acknowledged the hello, unless a stranger's
     is taken for its own.
     */
    lemma TellsExactly(n: nat, c: nat, i: nat)
      requires Valid() && n < |neighbors| && c < CHANNELS && head <= i <= tail && (i >= 1 || n < CLEARED_ROWS)
      ensures (slots[n, c, Slot(i)] == 1 <==> i <= 0xFF && Acknowledgement(neighbors[n], c, i) in log)
          <==> (i <= 0xFF && Stray(n, c, i) in strays ==> Acknowledgement(neighbors[n], c, i) in log)
    {
      assert Agrees(n, c, i);
    }

    /** The window half of `hello_send`: the tail moves on and its slot is cleared in every row. */
    method Advance()
      requires Valid()
      modifies this`head, this`tail, slots
      ensures Valid() && tail == old(tail) + 1
    {
      NextSlotIsFirst(head, tail);
      if head % MAX_SEQUENCE_LEN == (tail + 1) % MAX_SEQUENCE_LEN {
        head := head + 1;
      }
      tail := tail + 1;
      ClearSlot(tail % MAX_SEQUENCE_LEN);
      forall n, c, i | 0 <= n < ROWS && 0 <= c < CHANNELS && head <= i <= tail ensures Agrees(n, c, i) {
        if i < tail {
          assert old(Agrees(n, c, i));
          if Slot(i) == Slot(tail) {
            SlotsDiffer(i, tail, head);
          }
        }
      }
    }

    method ClearSlot(s: nat)
      requires slots.Length0 == ROWS && slots.Length1 == CHANNELS && slots.Length2 == MAX_SEQUENCE_LEN
               && s < MAX_SEQUENCE_LEN
      modifies slots
      ensures forall n, c, t :: 0 <= n < ROWS && 0 <= c < CHANNELS && 0 <= t < MAX_SEQUENCE_LEN ==>
                slots[n, c, t] == if t == s then 0 else old(slots[n, c, t])
    {
      for n := 0 to ROWS
        invariant forall m, c, t :: 0 <= m < ROWS && 0 <= c < CHANNELS && 0 <= t < MAX_SEQUENCE_LEN ==>
                    slots[m, c, t] == if m < n && t == s then 0 else old(slots[m, c, t])
      {
        for c := 0 to CHANNELS
          invariant forall m, d, t :: 0 <= m < ROWS && 0 <= d < CHANNELS && 0 <= t < MAX_SEQUENCE_LEN ==>
                      slots[m, d, t] == if (m < n || (m == n && d < c)) && t == s then 0 else old(slots[m, d, t])
        {
          slots[n, c, s] := 0;
        }
      }
    }

    /** The first row of the neighbour; the row after the last one for a stranger. */
    function Row(list: seq<Addr>, a: Addr): (n: nat)
      ensures n <= |list| && (n < |list| ==> list[n] == a) && (n == |list| <==> a !in list)
    {
      if list == [] then 0 else if list[0] == a then 0 else Row(list[1..], a) + 1
    }

    /** The loop over the neighbours: the row of `a`, or the first free one. */
    method FindRow(a: Addr) returns (n: nat)
      ensures n == Row(neighbors, a)
    {
      n := 0;
      while n < |neighbors| && neighbors[n] != a
        invariant n <= |neighbors| && a !in neighbors[..n]
        invariant Row(neighbors, a) == n + Row(neighbors[n..], a)
      {
        assert neighbors[n..][1..] == neighbors[n + 1..];
        n := n + 1;
      }
    }

    /** A node whose hello is heard for the first time gets the first free row, as it is. */
    method AddNeighbour(a: Addr)
      requires Valid() && Row(neighbors, a) < ROWS
      modifies this`neighbors
      ensures Valid() && neighbors == if a in old(neighbors) then old(neighbors) else old(neighbors) + [a]
    {
      var n := FindRow(a);
      if n < |neighbors| {
        return;
      }
      neighbors := neighbors + [a];
      forall m, c, i | 0 <= m < ROWS && 0 <= c < CHANNELS && head <= i <= tail ensures Agrees(m, c, i) {
        assert old(Agrees(m, c, i));
      }
    }

    /** The hello half of `rrep_ack_process`; `k` is the hello that the acknowledgement answers. */
    method HelloAck(src: Addr, channel: nat, index: u8, ghost k: nat)
      requires Valid() && channel < CHANNELS && k <= tail && index == Byte(k)
      requires Row(neighbors, src) < ROWS
      modifies slots, this`log, this`strays
      ensures Valid()
      ensures log == if src in neighbors then old(log) + {Acknowledgement(src, channel, k)} else old(log)
      ensures strays == if src in neighbors then old(strays) else old(strays) + {Stray(|neighbors|, channel, k)}
    {
      var n := FindRow(src);
      assert forall m :: 0 <= m < |neighbors| && neighbors[m] == src ==> m == n;
      ByteNamesHello(k, head, tail);
      if index >= head {
        slots[n, channel, index % MAX_SEQUENCE_LEN] := 1;
      }
      if n < |neighbors| {
        log := log + {Acknowledgement(src, channel, k)};
      } else {
        strays := strays + {Stray(n, channel, k)};
      }
      forall m, c, i | 0 <= m < ROWS && 0 <= c < CHANNELS && head <= i <= tail ensures Agrees(m, c, i) {
        assert old(Agrees(m, c, i));
        if m == n && c == channel && index >= head && Slot(i) == Slot(index) {
          SlotsDiffer(i, index, head);
        }
      }
    }
  }

  /** A neighbour that has acknowledged nothing, with the slot set that a stranger acknowledged before it came. */
  method StrangerIsCredited(stranger: Addr, neighbour: Addr) returns (r: Ring)
    requires stranger != neighbour
    ensures fresh(r) && r.Valid() && r.neighbors == [neighbour] && r.log == {} && r.slots[0, 0, 0] == 1
  {
    r := new Ring((n, c, s) => 0);
    r.HelloAck(stranger, 0, 0, 0);
    r.AddNeighbour(neighbour);
    assert r.Agrees(0, 0, 0) && Stray(0, 0, 0) in r.strays;
  }
}
