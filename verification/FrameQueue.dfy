/**
 The list of management frames waiting to be sent, as the MAC keeps it: singly linked nodes, a
 removal that copies every value one place forward and cuts the last node off, and a lone node of
 priority zero standing for the empty queue.
 */
module FrameQueue {
  // ---------- on values ----------

  /** `add_priority_queue` on the priorities in list order. */
  function Added(list: seq<int>, num: int): seq<int> {
    if list == [0] then [num] else list + [num]
  }

  /** `shift_priority_queue` */
  function Shifted(list: seq<int>): seq<int> {
    if list == [] then [] else if |list| == 1 then [0] else list[1..]
  }

  /** The queue a list stands for. */
  function Queue(list: seq<int>): seq<int> {
    if list == [0] then [] else list
  }

  /** Adding appends, exactly unless it puts a zero into an empty queue. */
  lemma AddAppends(list: seq<int>, num: int)
    ensures Queue(Added(list, num)) == Queue(list) + [num] <==> num != 0 || Queue(list) != []
  {
    assert [num][0] == num && (list + [num])[|list|] == num;
  }

  /** Shifting removes the front, exactly unless that leaves a lone zero. */
  lemma ShiftRemoves(list: seq<int>)
    ensures Queue(Shifted(list)) == (if Queue(list) == [] then [] else Queue(list)[1..])
            <==> |list| != 2 || list[1] != 0
  {
    if |list| == 1 {
      assert list[1..] == [];
    } else if |list| == 2 {
      assert list[1..] == [list[1]] && [list[1]][0] == list[1];
    }
  }

  datatype Operation = Add(num: int) | Shift

  function Run(ops: seq<Operation>): seq<int> {
    if ops == [] then [] else
      var list := Run(ops[..|ops| - 1]);
      match ops[|ops| - 1]
      case Add(num) => Added(list, num)
      case Shift => Shifted(list)
  }

  /** What a first-in first-out queue holds after the same operations. */
  function Fifo(ops: seq<Operation>): seq<int> {
    if ops == [] then [] else
      var queue := Fifo(ops[..|ops| - 1]);
      match ops[|ops| - 1]
      case Add(num) => queue + [num]
      case Shift => if queue == [] then [] else queue[1..]
  }

  /** With the priorities the callers use, none of them zero, the list is a queue. */
  lemma {:induction false} ListIsFifo(ops: seq<Operation>)
    requires forall op <- ops :: op.Add? ==> op.num != 0
    ensures Queue(Run(ops)) == Fifo(ops) && 0 !in Fifo(ops)
  {
    if ops != [] {
      ListIsFifo(ops[..|ops| - 1]);
      var list := Run(ops[..|ops| - 1]);
      if ops[|ops| - 1].Add? {
        AddAppends(list, ops[|ops| - 1].num);
      } else {
        if |list| == 2 {
          assert list == Fifo(ops[..|ops| - 1]) && list[1] in list;
        }
        ShiftRemoves(list);
      }
    }
  }

  // ---------- on nodes ----------

  /** `struct priority_queue` */
  class Node {
    var priority: int
    var next: Node?

    constructor (priority: int)
      ensures this.priority == priority && next == null
    {
      this.priority, next := priority, null;
    }
  }

  class PriorityQueue {
    var head: Node?
    ghost var nodes: seq<Node>

    ghost function Follower(i: nat): Node?
      reads this
    {
      if i + 1 < |nodes| then nodes[i + 1] else null
    }

    ghost predicate Valid()
      reads this, nodes
    {
      && (head == null <==> nodes == [])
      && (head != null ==> nodes[0] == head)
      && (forall i {:trigger nodes[i]} :: 0 <= i < |nodes| ==> nodes[i].next == Follower(i))
      && (forall i, j :: 0 <= i < j < |nodes| ==> nodes[i] != nodes[j])
    }

    ghost function List(): (list: seq<int>)
      reads this, nodes
      ensures |list| == |nodes|
    {
      seq(|nodes|, i requires 0 <= i < |nodes| reads this, nodes => nodes[i].priority)
    }

    constructor ()
      ensures Valid() && List() == []
    {
      head, nodes := null, [];
    }

    /** `add_priority_queue` */
    method AddPriorityQueue(num: int)
      requires Valid()
      modifies this, nodes
      ensures Valid() && fresh(set n | n in nodes && n !in old(nodes))
      ensures List() == Added(old(List()), num)
    {
      if head == null {
        head := new Node(num);
        nodes := [head];
      } else if head.next == null && head.priority == 0 {
        assert List() == [0];
        head.priority := num;
      } else {
        assert List()[0] == head.priority && |List()| == |nodes|;
        PushPriority(num);
      }
    }

    /** `push_priority` */
    method PushPriority(num: int)
      requires Valid() && head != null
      modifies this`nodes, nodes
      ensures Valid() && fresh(set n | n in nodes && n !in old(nodes))
      ensures List() == old(List()) + [num]
    {
      var temp := head;
      ghost var i := 0;
      while temp.next != null
        invariant 0 <= i < |nodes| && temp == nodes[i]
        decreases |nodes| - i
      {
        temp := temp.next;
        i := i + 1;
      }
      var last := new Node(num);
      temp.next := last;
      nodes := nodes + [last];
    }

    /** `delete_lastnode` */
    method DeleteLastNode()
      requires Valid()
      modifies this`nodes, nodes
      ensures Valid()
      ensures nodes == if |old(nodes)| <= 1 then old(nodes) else old(nodes)[..|old(nodes)| - 1]
      ensures forall n <- old(nodes) :: n.priority == old(n.priority)
    {
      if head == null || head.next == null {
        return;
      }
      var temp := head;
      ghost var i := 0;
      while temp.next.next != null
        invariant 0 <= i < |nodes| - 1 && temp == nodes[i]
        decreases |nodes| - i
      {
        temp := temp.next;
        i := i + 1;
      }
      temp.next := null;
      nodes := nodes[..|nodes| - 1];
    }

    /** `shift_priority_queue` */
    method ShiftPriorityQueue()
      requires Valid()
      modifies this`nodes, nodes
      ensures Valid() && List() == Shifted(old(List()))
    {
      if head == null {
        return;
      }
      if head.next == null {
        head.priority := 0;
        return;
      }
      CopyForward();
      DeleteLastNode();
    }

    /** The copying loop of `shift_priority_queue`: the last value is there twice afterwards. */
    method CopyForward()
      requires Valid() && |nodes| >= 2
      modifies nodes
      ensures Valid()
      ensures forall j :: 0 <= j < |nodes| - 1 ==> nodes[j].priority == old(nodes[j + 1].priority)
    {
      var temp := head;
      ghost var i := 0;
      while temp.next != null
        invariant Valid()
        invariant 0 <= i < |nodes| && temp == nodes[i]
        invariant forall j :: 0 <= j < i ==> nodes[j].priority == old(nodes[j + 1].priority)
        invariant forall j :: i <= j < |nodes| ==> nodes[j].priority == old(nodes[j].priority)
        decreases |nodes| - i
      {
        temp.priority := temp.next.priority;
        temp := temp.next;
        i := i + 1;
      }
    }
  }
}
