// The doubly linked stacks of push_swap and the pointer surgery on them
// (push_swap/srcs/utils_3.c).

module PushSwapList {
  import opened Collections
  import opened Limits

  /** A C int. The scans use LONG_MIN and LONG_MAX as sentinels outside this range. */
  type int32 = x: int | -0x8000_0000 <= x < 0x8000_0000

  class Node {
    var data: int32
    var index: int
    var cost: int
    var cheap: bool
    var med: bool
    var target: Node?
    var next: Node?
    var prev: Node?
  }

  function At(nodes: seq<Node>, i: int): Node? {
    if 0 <= i < |nodes| then nodes[i] else null
  }

  ghost predicate Disjoint(s: seq<Node>, t: seq<Node>) {
    forall i, j :: 0 <= i < |s| && 0 <= j < |t| ==> s[i] != t[j]
  }

  /** next and prev are mutually inverse along nodes and end in null on both sides. */
  ghost predicate Linked(nodes: seq<Node>)
    reads nodes`next, nodes`prev
  {
    && Distinct(nodes)
    && (forall i {:trigger nodes[i].next} :: 0 <= i < |nodes| ==> nodes[i].next == At(nodes, i + 1))
    && (forall i {:trigger nodes[i].prev} :: 0 <= i < |nodes| ==> nodes[i].prev == At(nodes, i - 1))
  }

  ghost predicate Holds(nodes: seq<Node>, vals: seq<int>)
    reads nodes`data
  {
    && |nodes| == |vals|
    && (forall i {:trigger nodes[i].data} :: 0 <= i < |nodes| ==> nodes[i].data == vals[i])
  }

  /** The sequence turned left by k places. */
  function Rot<T>(s: seq<T>, k: nat): (r: seq<T>)
    requires k <= |s|
    ensures |r| == |s|
  {
    s[k..] + s[..k]
  }

  function RotUp<T>(s: seq<T>): (r: seq<T>) {
    if |s| <= 1 then s else s[1..] + [s[0]]
  }

  function RotDown<T>(s: seq<T>): (r: seq<T>) {
    if |s| <= 1 then s else [s[|s| - 1]] + s[..|s| - 1]
  }

  function SwapTop<T>(s: seq<T>): (r: seq<T>) {
    if |s| <= 1 then s else [s[1], s[0]] + s[2..]
  }

  lemma RotMembers<T>(s: seq<T>)
    ensures forall x :: x in RotUp(s) <==> x in s
    ensures forall x :: x in RotDown(s) <==> x in s
  {
    if |s| > 1 {
      assert s == [s[0]] + s[1..];
      assert s == s[..|s| - 1] + [s[|s| - 1]];
    }
  }

  lemma TurnedApart(s: seq<Node>, t: seq<Node>)
    requires Disjoint(s, t) || Disjoint(t, s)
    ensures Disjoint(s, t) && Disjoint(t, s)
    ensures Disjoint(RotUp(s), t) && Disjoint(t, RotUp(s))
    ensures Disjoint(RotDown(s), t) && Disjoint(t, RotDown(s))
    ensures forall x :: x in RotUp(s) <==> x in s
    ensures forall x :: x in RotDown(s) <==> x in s
  {
    RotMembers(s);
  }

  lemma ValsInRange(nodes: seq<Node>, vals: seq<int>)
    requires Holds(nodes, vals)
    ensures forall i :: 0 <= i < |vals| ==> LONG_MIN < vals[i] < LONG_MAX
  {
    forall i | 0 <= i < |vals| ensures LONG_MIN < vals[i] < LONG_MAX {
      assert nodes[i].data == vals[i];
    }
  }

  // What the pointer surgery amounts to on the node sequence.

  lemma HoldsTurned(nodes: seq<Node>, vals: seq<int>)
    requires Holds(nodes, vals)
    ensures Holds(RotUp(nodes), RotUp(vals)) && Holds(RotDown(nodes), RotDown(vals))
  {
  }

  lemma DistinctTurned<T>(s: seq<T>)
    requires Distinct(s)
    ensures Distinct(RotUp(s)) && Distinct(RotDown(s))
  {
  }

  lemma LinkedUp(was: seq<Node>)
    requires |was| > 1 && Distinct(was)
    requires forall i {:trigger was[i].next} :: 1 <= i < |was| - 1 ==> was[i].next == was[i + 1]
    requires was[|was| - 1].next == was[0] && was[0].next == null
    requires forall i {:trigger was[i].prev} :: 2 <= i < |was| ==> was[i].prev == was[i - 1]
    requires was[1].prev == null && was[0].prev == was[|was| - 1]
    ensures Linked(RotUp(was))
  {
    DistinctTurned(was);
    var nodes := RotUp(was);
    forall i | 0 <= i < |nodes| ensures nodes[i].next == At(nodes, i + 1) && nodes[i].prev == At(nodes, i - 1) {
      assert nodes[i] == if i < |was| - 1 then was[i + 1] else was[0];
    }
  }

  lemma LinkedDown(was: seq<Node>)
    requires |was| > 1 && Distinct(was)
    requires forall i {:trigger was[i].next} :: 0 <= i < |was| - 2 ==> was[i].next == was[i + 1]
    requires was[|was| - 1].next == was[0] && was[|was| - 2].next == null
    requires forall i {:trigger was[i].prev} :: 1 <= i < |was| - 1 ==> was[i].prev == was[i - 1]
    requires was[|was| - 1].prev == null && was[0].prev == was[|was| - 1]
    ensures Linked(RotDown(was))
  {
    DistinctTurned(was);
    var nodes := RotDown(was);
    forall i | 0 <= i < |nodes| ensures nodes[i].next == At(nodes, i + 1) && nodes[i].prev == At(nodes, i - 1) {
      assert nodes[i] == if i == 0 then was[|was| - 1] else was[i - 1];
    }
  }

  lemma LinkedPop(was: seq<Node>)
    requires was != [] && Distinct(was)
    requires forall i {:trigger was[i].next} :: 1 <= i < |was| ==> was[i].next == At(was, i + 1)
    requires forall i {:trigger was[i].prev} :: 2 <= i < |was| ==> was[i].prev == was[i - 1]
    requires |was| > 1 ==> was[1].prev == null
    ensures Linked(was[1..])
  {
    var nodes := was[1..];
    forall i | 0 <= i < |nodes| ensures nodes[i].next == At(nodes, i + 1) && nodes[i].prev == At(nodes, i - 1) {
      assert nodes[i] == was[i + 1];
    }
  }

  lemma LinkedPush(tmp: Node, was: seq<Node>)
    requires Distinct(was) && tmp !in was
    requires tmp.next == At(was, 0) && tmp.prev == null
    requires forall i {:trigger was[i].next} :: 0 <= i < |was| ==> was[i].next == At(was, i + 1)
    requires forall i {:trigger was[i].prev} :: 1 <= i < |was| ==> was[i].prev == was[i - 1]
    requires was != [] ==> was[0].prev == tmp
    ensures Linked([tmp] + was)
  {
    var nodes := [tmp] + was;
    forall i | 0 <= i < |nodes| ensures nodes[i].next == At(nodes, i + 1) && nodes[i].prev == At(nodes, i - 1) {
      assert i > 0 ==> nodes[i] == was[i - 1];
    }
  }

  /** A `t_linked **` cell together with the list it heads. */
  class Stack {
    var head: Node?
    ghost var nodes: seq<Node>
    ghost var vals: seq<int>

    ghost predicate Valid()
      reads this, nodes`next, nodes`prev, nodes`data
    {
      head == At(nodes, 0) && |vals| == |nodes| && Linked(nodes) && Holds(nodes, vals)
    }

    constructor ()
      ensures Valid() && nodes == [] && vals == []
    {
      head := null;
      nodes, vals := [], [];
    }

    method Len() returns (len: nat)
      requires Valid()
      ensures len == |nodes|
    {
      len := 0;
      var stack := head;
      if stack != null {
        while stack.next != null
          invariant 0 <= len < |nodes|
          invariant stack == nodes[len]
          decreases |nodes| - len
        {
          len := len + 1;
          stack := stack.next;
        }
        len := len + 1;
      }
    }

    /** The last node, found by the walk `while (tmp->next) tmp = tmp->next`. */
    method Last() returns (tmp: Node)
      requires Valid() && nodes != []
      ensures tmp == nodes[|nodes| - 1]
    {
      tmp := head;
      ghost var i := 0;
      while tmp.next != null
        invariant 0 <= i < |nodes|
        invariant tmp == nodes[i]
        decreases |nodes| - i
      {
        tmp := tmp.next;
        i := i + 1;
      }
    }

    /** Exchanges the data of the two top nodes; the nodes stay where they are. */
    method SwapData()
      requires Valid() && |nodes| > 1
      modifies this`vals, nodes`data
      ensures Valid()
      ensures vals == SwapTop(old(vals))
    {
      assert nodes[0] == head && nodes[1] == head.next;
      head.data, head.next.data := head.next.data, head.data;
      vals := SwapTop(vals);
    }

    method MoveUp()
      requires Valid() && |nodes| > 1
      modifies this, nodes`next, nodes`prev
      ensures Valid()
      ensures nodes == RotUp(old(nodes)) && vals == RotUp(old(vals))
    {
      var tmp1 := head.next;
      var tmp2 := Last();
      assert head == nodes[0] && tmp1 == nodes[1];
      tmp2.next := head;
      tmp1.prev := null;
      head.prev := tmp2;
      head.next := null;
      head := tmp1;
      LinkedUp(nodes);
      HoldsTurned(nodes, vals);
      nodes, vals := RotUp(nodes), RotUp(vals);
    }

    method MoveDown()
      requires Valid() && |nodes| > 1
      modifies this, nodes`next, nodes`prev
      ensures Valid()
      ensures nodes == RotDown(old(nodes)) && vals == RotDown(old(vals))
    {
      var tmp2 := Last();
      var tmp1 := tmp2.prev;
      tmp2.prev := null;
      tmp1.next := null;
      head.prev := tmp2;
      tmp2.next := head;
      head := tmp2;
      HoldsTurned(nodes, vals);
      LinkedDown(nodes);
      nodes, vals := RotDown(nodes), RotDown(vals);
    }
  }

  /** First half of givetoplink: takes the top node off. */
  method Detach(give: Stack) returns (tmp: Node)
    requires give.Valid() && give.nodes != []
    modifies give, give.nodes`prev
    ensures give.Valid()
    ensures tmp == old(give.nodes)[0] && tmp.prev == null
    ensures give.nodes == old(give.nodes)[1..] && give.vals == old(give.vals)[1..]
  {
    tmp := give.head;
    give.head := give.head.next;
    assert give.head == At(give.nodes, 1);
    if give.head != null {
      give.head.prev := null;
    }
    LinkedPop(give.nodes);
    give.nodes, give.vals := give.nodes[1..], give.vals[1..];
  }

  /** Second half of givetoplink: puts a detached node on top. */
  method Attach(take: Stack, tmp: Node)
    requires take.Valid() && tmp !in take.nodes && tmp.prev == null
    modifies take, take.nodes`prev, tmp`next
    ensures take.Valid()
    ensures take.nodes == [tmp] + old(take.nodes) && take.vals == [tmp.data as int] + old(take.vals)
  {
    tmp.next := take.head;
    if take.head != null {
      take.head.prev := tmp;
    }
    take.head := tmp;
    LinkedPush(tmp, take.nodes);
    take.nodes, take.vals := [tmp] + take.nodes, [tmp.data] + take.vals;
  }

  /** Moves the top node of give onto take. */
  method GiveTopLink(give: Stack, take: Stack)
    requires give != take && give.Valid() && take.Valid() && give.nodes != []
    requires Disjoint(give.nodes, take.nodes)
    modifies give, take, give.nodes`next, give.nodes`prev, take.nodes`prev
    ensures give.Valid() && take.Valid()
    ensures give.nodes == old(give.nodes)[1..]
    ensures take.nodes == [old(give.nodes)[0]] + old(take.nodes)
    ensures give.vals == old(give.vals)[1..]
    ensures take.vals == [old(give.vals)[0]] + old(take.vals)
    ensures Disjoint(give.nodes, take.nodes)
  {
    assert give.nodes[0] in give.nodes && give.nodes[0].data == give.vals[0];
    assert forall i :: 1 <= i < |give.nodes| ==> give.nodes[i] in give.nodes && give.nodes[i] != give.nodes[0];
    var tmp := Detach(give);
    Attach(take, tmp);
  }

  /** Appends one node behind the last one. */
  method AddLink(stack: Stack, head: Node, val: int32) returns (added: Node)
    requires stack.Valid() && stack.nodes != [] && head == stack.nodes[|stack.nodes| - 1]
    modifies stack, head`next
    ensures fresh(added) && stack.Valid()
    ensures stack.nodes == old(stack.nodes) + [added] && stack.vals == old(stack.vals) + [val]
  {
    added := new Node;
    head.next := added;
    added.prev, added.data, added.next := head, val, null;
    stack.nodes, stack.vals := stack.nodes + [added], stack.vals + [val];
  }

  /** Builds the list of the values. */
  method FillLink(values: seq<int32>) returns (stack: Stack)
    requires values != []
    ensures fresh(stack) && stack.Valid() && stack.vals == values
    ensures forall i :: 0 <= i < |stack.nodes| ==> fresh(stack.nodes[i])
  {
    stack := new Stack();
    var head := new Node;
    head.data, head.next, head.prev := values[0], null, null;
    stack.head, stack.nodes, stack.vals := head, [head], [values[0]];
    var i := 1;
    while i < |values|
      invariant 1 <= i <= |values| && fresh(stack) && stack.Valid() && stack.vals == values[..i]
      invariant head == stack.nodes[i - 1]
      invariant forall j :: 0 <= j < i ==> fresh(stack.nodes[j])
    {
      head := AddLink(stack, head, values[i]);
      i := i + 1;
    }
  }
}
